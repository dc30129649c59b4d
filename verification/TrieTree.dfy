/** The allowed-IPs trie as a value: what a reader that starts at a root can reach.
    A key is the sequence of its bits, most significant first, so "bit i of the key" is
    `key[i]` and the prefix of length `cidr` is `key[..cidr]`.  As in the C code the stored
    `bits` of a node are not masked beyond its `cidr`. */
module TrieTree {
  import opened Common

  type Key = seq<bool>
  type Peer = nat
  type Addr = nat
  type Table = map<Key, Peer>

  datatype Tree =
    | Nil
    | Node(addr: Addr, bits: Key, cidr: nat, peer: Option<Peer>, left: Tree, right: Tree)

  // ---------------------------------------------------------------- specification

  /** Longest-prefix match on a plain table: try the key's prefixes from the longest down. */
  function LongestFrom(m: Table, key: Key, n: nat): (r: Option<Peer>)
    requires n <= |key|
  {
    if key[..n] in m then Some(m[key[..n]])
    else if n == 0 then None
    else LongestFrom(m, key, n - 1)
  }

  function LongestMatch(m: Table, key: Key): (r: Option<Peer>) {
    LongestFrom(m, key, |key|)
  }

  ghost predicate NoMatch(m: Table, key: Key) {
    forall q :: q in m ==> !(q <= key)
  }

  ghost predicate IsLongest(m: Table, key: Key, p: Key) {
    p in m && p <= key && forall q :: q in m && q <= key ==> |q| <= |p|
  }

  /** `r` is a correct answer for `key`: the peer of the longest stored prefix covering it. */
  ghost predicate Answers(m: Table, key: Key, r: Option<Peer>) {
    match r
    case None => NoMatch(m, key)
    case Some(x) => exists p :: IsLongest(m, key, p) && m[p] == x
  }

  lemma TakePrefix(q: Key, key: Key)
    ensures q <= key <==> |q| <= |key| && q == key[..|q|]
  {
  }

  lemma PrefixOfPrefix(p: Key, q: Key, key: Key)
    requires p <= q
    ensures q <= key ==> p <= key
    ensures q <= key && |p| < |q| ==> key[|p|] == q[|p|]
  {
  }

  lemma {:induction false} LongestFromAnswers(m: Table, key: Key, n: nat)
    requires n <= |key|
    requires forall q :: q in m && q <= key ==> |q| <= n
    ensures Answers(m, key, LongestFrom(m, key, n))
  {
    if key[..n] in m {
      assert IsLongest(m, key, key[..n]);
    } else if n == 0 {
      forall q | q in m ensures !(q <= key) {
        TakePrefix(q, key);
      }
    } else {
      forall q | q in m && q <= key ensures |q| <= n - 1 {
        TakePrefix(q, key);
      }
      LongestFromAnswers(m, key, n - 1);
    }
  }

  /** The declarative answer is unique, so it is the one the prefix-by-prefix search gives. */
  lemma AnswersUnique(m: Table, key: Key, r: Option<Peer>)
    ensures Answers(m, key, r) <==> r == LongestMatch(m, key)
  {
    LongestFromAnswers(m, key, |key|);
    var s := LongestMatch(m, key);
    if Answers(m, key, r) && r.Some? && s.Some? {
      var p :| IsLongest(m, key, p) && m[p] == r.value;
      var q :| IsLongest(m, key, q) && m[q] == s.value;
      assert |p| == |q| && p == key[..|p|] && q == key[..|q|];
    }
  }

  // ---------------------------------------------------------------- bit operations

  /** Number of leading bits two equally long keys share (`bits - fls(a ^ b)`). */
  function CommonBits(a: Key, b: Key): (r: nat)
    requires |a| == |b|
    ensures r <= |a| && a[..r] == b[..r] && (r < |a| ==> a[r] != b[r])
  {
    if a == [] || a[0] != b[0] then 0
    else
      var r := 1 + CommonBits(a[1..], b[1..]);
      assert a[..r] == [a[0]] + a[1..][..r - 1];
      assert b[..r] == [b[0]] + b[1..][..r - 1];
      r
  }

  predicate PrefixMatches(bits: Key, cidr: nat, key: Key)
    requires |bits| == |key|
  {
    CommonBits(bits, key) >= cidr
  }

  /** The xor-and-find-last-set test decides exactly whether the node's prefix covers the key. */
  lemma PrefixMatchesIffCovers(bits: Key, cidr: nat, key: Key)
    requires |bits| == |key| && cidr <= |bits|
    ensures PrefixMatches(bits, cidr, key) <==> bits[..cidr] <= key
  {
    var r := CommonBits(bits, key);
    if cidr <= r {
      assert bits[..cidr] == bits[..r][..cidr] == key[..r][..cidr] == key[..cidr];
    } else {
      assert bits[..cidr][r] == bits[r] != key[r];
    }
  }

  // ---------------------------------------------------------------- well-formedness

  function Prefix(t: Tree): (p: Key) {
    if t.Node? && t.cidr <= |t.bits| then t.bits[..t.cidr] else []
  }

  /** Everything under `t` extends `p`. */
  predicate Under(t: Tree, p: Key) {
    t.Nil? || p <= Prefix(t)
  }

  /** The order invariant a reader relies on: a child extends its parent's prefix by the
      bit of the slot it hangs from.  Peerless nodes may have any number of children here. */
  predicate Ordered(t: Tree, w: nat) {
    t.Nil? ||
    (&& |t.bits| == w && t.cidr <= w
     && Under(t.left, Prefix(t) + [false]) && Under(t.right, Prefix(t) + [true])
     && Ordered(t.left, w) && Ordered(t.right, w))
  }

  /** No redundant node: a node without a peer is a real branching point. */
  predicate Compressed(t: Tree) {
    t.Nil? ||
    (&& (t.peer.None? ==> t.left.Node? && t.right.Node?)
     && Compressed(t.left) && Compressed(t.right))
  }

  function Addrs(t: Tree): (s: set<Addr>) {
    if t.Nil? then {} else {t.addr} + Addrs(t.left) + Addrs(t.right)
  }

  function Size(t: Tree): (n: nat) {
    if t.Nil? then 0 else 1 + Size(t.left) + Size(t.right)
  }

  predicate Distinct(t: Tree) {
    t.Nil? ||
    (&& t.addr !in Addrs(t.left) && t.addr !in Addrs(t.right) && Addrs(t.left) !! Addrs(t.right)
     && Distinct(t.left) && Distinct(t.right))
  }

  /** The table a tree stands for. */
  function TableOf(t: Tree): (m: Table)
  {
    if t.Nil? then map[]
    else
      var sub := TableOf(t.left) + TableOf(t.right);
      if t.peer.Some? then sub[Prefix(t) := t.peer.value] else sub
  }

  lemma {:induction false} TableUnder(t: Tree, w: nat, p: Key)
    requires Ordered(t, w) && Under(t, p)
    ensures forall q :: q in TableOf(t) ==> p <= q
  {
    if t.Node? {
      TableUnder(t.left, w, Prefix(t) + [false]);
      TableUnder(t.right, w, Prefix(t) + [true]);
      forall q | q in TableOf(t) ensures p <= q {
        if q in TableOf(t.left) {
          PrefixTransitive(p, Prefix(t), false, q);
        } else if q in TableOf(t.right) {
          PrefixTransitive(p, Prefix(t), true, q);
        }
      }
    }
  }

  lemma PrefixTransitive(p: Key, m: Key, b: bool, q: Key)
    requires p <= m && m + [b] <= q
    ensures p <= q && m <= q && |m| < |q| && q[|m|] == b
  {
    assert q[..|m| + 1] == m + [b];
    assert m == (m + [b])[..|m|] == q[..|m|];
    assert q[|m|] == (m + [b])[|m|];
    assert p == m[..|p|] == q[..|p|];
  }

  /** How the table of a node splits over its two subtrees. */
  lemma TableSplit(t: Tree, w: nat)
    requires t.Node? && Ordered(t, w)
    ensures forall q :: q in TableOf(t.left) ==>
              Prefix(t) <= q && |q| > t.cidr && q[t.cidr] == false
    ensures forall q :: q in TableOf(t.right) ==>
              Prefix(t) <= q && |q| > t.cidr && q[t.cidr] == true
    ensures forall q :: q in TableOf(t) <==>
              (q in TableOf(t.left) || q in TableOf(t.right) || (t.peer.Some? && q == Prefix(t)))
    ensures forall q :: q in TableOf(t.left) ==> q !in TableOf(t.right) && TableOf(t)[q] == TableOf(t.left)[q]
    ensures forall q :: q in TableOf(t.right) ==> q !in TableOf(t.left) && TableOf(t)[q] == TableOf(t.right)[q]
    ensures t.peer.Some? ==> TableOf(t)[Prefix(t)] == t.peer.value
    ensures Prefix(t) !in TableOf(t.left) && Prefix(t) !in TableOf(t.right)
  {
    var p := Prefix(t);
    TableUnder(t.left, w, p + [false]);
    TableUnder(t.right, w, p + [true]);
    forall q | q in TableOf(t.left) ensures p <= q && |q| > t.cidr && q[t.cidr] == false {
      PrefixTransitive(p, p, false, q);
    }
    forall q | q in TableOf(t.right) ensures p <= q && |q| > t.cidr && q[t.cidr] == true {
      PrefixTransitive(p, p, true, q);
    }
  }

  // ---------------------------------------------------------------- lookup

  /** The reader's descent: remember the last node with a peer, stop on a mismatch. */
  function Find(t: Tree, key: Key, found: Option<Addr>): (r: Option<Addr>)
    requires Ordered(t, |key|)
  {
    if t.Nil? || !PrefixMatches(t.bits, t.cidr, key) then found
    else
      var found' := if t.peer.Some? then Some(t.addr) else found;
      if t.cidr == |key| then found'
      else Find(if key[t.cidr] then t.right else t.left, key, found')
  }

  /** The same descent, reporting the peer of the node found. */
  function FindPeer(t: Tree, key: Key, found: Option<Peer>): (r: Option<Peer>)
    requires Ordered(t, |key|)
  {
    if t.Nil? || !PrefixMatches(t.bits, t.cidr, key) then found
    else
      var found' := if t.peer.Some? then t.peer else found;
      if t.cidr == |key| then found'
      else FindPeer(if key[t.cidr] then t.right else t.left, key, found')
  }

  lemma {:induction false} FindPeerAnswers(t: Tree, key: Key, found: Option<Peer>)
    requires Ordered(t, |key|)
    ensures NoMatch(TableOf(t), key) ==> FindPeer(t, key, found) == found
    ensures !NoMatch(TableOf(t), key) ==> Answers(TableOf(t), key, FindPeer(t, key, found))
    ensures !NoMatch(TableOf(t), key) ==> FindPeer(t, key, found).Some?
  {
    if t.Nil? { return; }
    var w := |key|;
    var p := Prefix(t);
    PrefixMatchesIffCovers(t.bits, t.cidr, key);
    TableSplit(t, w);
    if !PrefixMatches(t.bits, t.cidr, key) {
      TableUnder(t, w, p);
      forall q | q in TableOf(t) ensures !(q <= key) {
        PrefixOfPrefix(p, q, key);
      }
      return;
    }
    if t.cidr == w {
      forall q | q in TableOf(t) && q <= key ensures q == p && t.peer.Some? {
        assert |q| <= w;
      }
      if t.peer.Some? { assert IsLongest(TableOf(t), key, p); }
      return;
    }
    var c := if key[t.cidr] then t.right else t.left;
    var found' := if t.peer.Some? then t.peer else found;
    FindPeerAnswers(c, key, found');
    DescendChoice(t, key);
    if NoMatch(TableOf(c), key) {
      if t.peer.Some? { assert IsLongest(TableOf(t), key, p); }
    } else {
      var q :| IsLongest(TableOf(c), key, q) && TableOf(c)[q] == FindPeer(c, key, found').value;
      assert IsLongest(TableOf(t), key, q);
    }
  }

  /** Only the node itself and the chosen subtree can cover the key. */
  lemma DescendChoice(t: Tree, key: Key)
    requires t.Node? && Ordered(t, |key|) && t.cidr < |key| && Prefix(t) <= key
    ensures var c := if key[t.cidr] then t.right else t.left;
            forall q :: q in TableOf(t) && q <= key ==>
              (q in TableOf(c) && |q| > t.cidr) || (t.peer.Some? && q == Prefix(t))
  {
    TableSplit(t, |key|);
    var c := if key[t.cidr] then t.right else t.left;
    forall q | q in TableOf(t) && q <= key
      ensures (q in TableOf(c) && |q| > t.cidr) || (t.peer.Some? && q == Prefix(t))
    {
      if |q| > t.cidr { assert q[t.cidr] == key[t.cidr]; }
    }
  }

  /** Lookup agrees with longest-prefix match on the plain table, for every key. */
  lemma LookupIsLongestMatch(t: Tree, key: Key)
    requires Ordered(t, |key|)
    ensures FindPeer(t, key, None) == LongestMatch(TableOf(t), key)
  {
    FindPeerAnswers(t, key, None);
    AnswersUnique(TableOf(t), key, FindPeer(t, key, None));
  }
}
