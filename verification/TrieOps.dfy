/** Insertion and removal on tries as values, and what they do to the table. */
module TrieOps {
  import opened Common
  import opened TrieTree

  // ---------------------------------------------------------------- paths

  function Child(t: Tree, b: bool): (c: Tree)
    requires t.Node?
  {
    if b then t.right else t.left
  }

  function SetChild(t: Tree, b: bool, c: Tree): (r: Tree)
    requires t.Node?
  {
    if b then t.(right := c) else t.(left := c)
  }

  predicate OnTree(t: Tree, path: seq<bool>) {
    path == [] || (t.Node? && OnTree(Child(t, path[0]), path[1..]))
  }

  function Get(t: Tree, path: seq<bool>): (s: Tree)
    requires OnTree(t, path)
  {
    if path == [] then t else Get(Child(t, path[0]), path[1..])
  }

  function Put(t: Tree, path: seq<bool>, s: Tree): (r: Tree)
    requires OnTree(t, path)
  {
    if path == [] then s else SetChild(t, path[0], Put(Child(t, path[0]), path[1..], s))
  }

  // ---------------------------------------------------------------- insertion

  predicate Descends(t: Tree, key: Key, cidr: nat)
    requires Ordered(t, |key|)
  {
    t.Node? && t.cidr <= cidr && PrefixMatches(t.bits, t.cidr, key)
  }

  /** Where `node_placement` stops: at the exact node, or at the first slot whose content
      is not above the new prefix. */
  function StopPath(t: Tree, key: Key, cidr: nat): (path: seq<bool>)
    requires Ordered(t, |key|) && cidr <= |key|
    ensures OnTree(t, path)
  {
    if !Descends(t, key, cidr) || t.cidr == cidr then []
    else
      var b := key[t.cidr];
      var rest := StopPath(Child(t, b), key, cidr);
      assert ([b] + rest)[1..] == rest;
      [b] + rest
  }

  predicate IsExact(t: Tree, key: Key, cidr: nat)
    requires Ordered(t, |key|) && cidr <= |key|
  {
    t.Node? && t.cidr == cidr && PrefixMatches(t.bits, t.cidr, key)
  }

  function Leaf(a: Addr, key: Key, cidr: nat, peer: Peer): (t: Tree) {
    Node(a, key, cidr, Some(peer), Nil, Nil)
  }

  /** The subtree that replaces `d` when the new prefix is not on the tree yet: a leaf, the
      new node above `d`, or a peerless branching node over both. */
  function Graft(d: Tree, key: Key, cidr: nat, peer: Peer, a: Addr, mid: Addr): (t: Tree)
    requires Ordered(d, |key|) && cidr <= |key| && !Descends(d, key, cidr)
  {
    if d.Nil? then Leaf(a, key, cidr, peer)
    else
      var common := CommonBits(d.bits, key);
      if cidr <= common then
        GraftAbove(d, key, cidr);
        SetChild(Leaf(a, key, cidr, peer), d.bits[cidr], d)
      else
        var branch := Node(mid, key, common, None, Nil, Nil);
        SetChild(SetChild(branch, d.bits[common], d), key[common], Leaf(a, key, cidr, peer))
  }

  lemma GraftAbove(d: Tree, key: Key, cidr: nat)
    requires d.Node? && Ordered(d, |key|) && cidr <= |key| && !Descends(d, key, cidr)
    ensures cidr <= CommonBits(d.bits, key) ==> cidr < d.cidr
    ensures CommonBits(d.bits, key) < cidr ==> CommonBits(d.bits, key) < d.cidr
  {
  }

  function Insert(t: Tree, key: Key, cidr: nat, peer: Peer, a: Addr, mid: Addr): (r: Tree)
    requires Ordered(t, |key|) && cidr <= |key|
  {
    if !Descends(t, key, cidr) then Graft(t, key, cidr, peer, a, mid)
    else if t.cidr == cidr then t.(peer := Some(peer))
    else SetChild(t, key[t.cidr], Insert(Child(t, key[t.cidr]), key, cidr, peer, a, mid))
  }

  lemma SelfUnder(d: Tree, n: nat)
    requires d.Node? && d.cidr <= |d.bits| && n < d.cidr
    ensures d.bits[..n] + [d.bits[n]] <= Prefix(d)
  {
    assert d.bits[..n] + [d.bits[n]] == d.bits[..n + 1];
    assert d.bits[..n + 1] <= d.bits[..d.cidr];
  }

  /** A new node above `d`, or a new branching point beside it, sits below the same prefix. */
  lemma {:induction false} GraftOrdered(d: Tree, key: Key, cidr: nat, peer: Peer, a: Addr, mid: Addr, p: Key)
    requires Ordered(d, |key|) && cidr <= |key| && !Descends(d, key, cidr)
    requires Under(d, p) && p <= key[..cidr]
    ensures var r := Graft(d, key, cidr, peer, a, mid);
            Ordered(r, |key|) && r.Node? && Under(r, p) && (Compressed(d) ==> Compressed(r))
  {
    if d.Node? {
      GraftAbove(d, key, cidr);
      if cidr <= CommonBits(d.bits, key) {
        AboveOrdered(d, key, cidr, peer, a);
      } else {
        BranchOrdered(d, key, cidr, peer, a, mid, p);
      }
    }
  }

  lemma {:induction false} AboveOrdered(d: Tree, key: Key, cidr: nat, peer: Peer, a: Addr)
    requires d.Node? && Ordered(d, |key|) && cidr < d.cidr && cidr <= CommonBits(d.bits, key)
    ensures var r := SetChild(Leaf(a, key, cidr, peer), d.bits[cidr], d);
            Ordered(r, |key|) && Prefix(r) == key[..cidr] && (Compressed(d) ==> Compressed(r))
  {
    SelfUnder(d, cidr);
    var common := CommonBits(d.bits, key);
    assert d.bits[..cidr] == d.bits[..common][..cidr] == key[..cidr];
  }

  lemma {:induction false} BranchOrdered(d: Tree, key: Key, cidr: nat, peer: Peer, a: Addr, mid: Addr, p: Key)
    requires d.Node? && Ordered(d, |key|) && cidr <= |key| && CommonBits(d.bits, key) < cidr && CommonBits(d.bits, key) < d.cidr
    requires p <= Prefix(d) && p <= key[..cidr]
    ensures var common := CommonBits(d.bits, key);
            var r := SetChild(SetChild(Node(mid, key, common, None, Nil, Nil), d.bits[common], d), key[common], Leaf(a, key, cidr, peer));
            Ordered(r, |key|) && p <= Prefix(r) && (Compressed(d) ==> Compressed(r))
  {
    var common := CommonBits(d.bits, key);
    SelfUnder(d, common);
    SelfUnder(Leaf(a, key, cidr, peer), common);
    SharedPrefix(d.bits, key, common, p, d.cidr, cidr);
  }

  /** A prefix of two keys is no longer than what the keys have in common. */
  lemma {:induction false} SharedPrefix(x: Key, y: Key, common: nat, p: Key, n: nat, m: nat)
    requires common < n <= |x| && common < m <= |y| && x[common] != y[common]
    requires p <= x[..n] && p <= y[..m]
    ensures p <= y[..common]
  {
    assert x[..n][common] == x[common] && y[..m][common] == y[common];
    assert p == y[..m][..|p|] == y[..common][..|p|];
  }

  /** The entry of one prefix, found by descending. */
  function EntryOf(t: Tree, q: Key): (r: Option<Peer>) {
    if t.Nil? || !(Prefix(t) <= q) then None
    else if |q| == |Prefix(t)| then t.peer
    else EntryOf(Child(t, q[|Prefix(t)|]), q)
  }

  /** Collecting all entries and descending for one of them agree. */
  lemma {:induction false} TableEntry(t: Tree, w: nat, q: Key)
    requires Ordered(t, w)
    ensures EntryOf(t, q) == if q in TableOf(t) then Some(TableOf(t)[q]) else None
  {
    if t.Node? {
      TableUnder(t, w, Prefix(t));
      TableSplit(t, w);
      TableEntry(t.left, w, q);
      TableEntry(t.right, w, q);
    }
  }

  lemma {:induction false} GraftEntry(d: Tree, key: Key, cidr: nat, peer: Peer, a: Addr, mid: Addr, q: Key)
    requires Ordered(d, |key|) && cidr <= |key| && !Descends(d, key, cidr)
    ensures EntryOf(Graft(d, key, cidr, peer, a, mid), q) ==
            if q == key[..cidr] then Some(peer) else EntryOf(d, q)
  {
    if d.Node? {
      GraftAbove(d, key, cidr);
      if cidr <= CommonBits(d.bits, key) {
        SelfUnder(d, cidr);
        assert key[..cidr] == key[..CommonBits(d.bits, key)][..cidr] == d.bits[..cidr];
        PrefixOfPrefix(key[..cidr], Prefix(d), q);
      } else {
        BranchEntry(d, key, cidr, peer, a, mid, q);
      }
    }
  }

  lemma {:induction false} BranchEntry(d: Tree, key: Key, cidr: nat, peer: Peer, a: Addr, mid: Addr, q: Key)
    requires d.Node? && Ordered(d, |key|) && cidr <= |key| && !Descends(d, key, cidr)
    requires CommonBits(d.bits, key) < cidr && CommonBits(d.bits, key) < d.cidr
    ensures EntryOf(Graft(d, key, cidr, peer, a, mid), q) ==
            if q == key[..cidr] then Some(peer) else EntryOf(d, q)
  {
    var r := Graft(d, key, cidr, peer, a, mid);
    var leaf := Leaf(a, key, cidr, peer);
    var common := CommonBits(d.bits, key);
    SelfUnder(d, common);
    SelfUnder(leaf, common);
    PrefixOfPrefix(key[..common], Prefix(d), q);
    PrefixOfPrefix(key[..common], Prefix(leaf), q);
    assert Prefix(r) == key[..common];
    assert Child(r, key[common]) == leaf && Child(r, !key[common]) == d;
    LeafEntry(leaf, q);
  }

  lemma LeafEntry(t: Tree, q: Key)
    requires t.Node? && t.left.Nil? && t.right.Nil?
    ensures EntryOf(t, q) == if q == Prefix(t) then t.peer else None
  {
  }

  lemma {:induction false} InsertOrdered(t: Tree, key: Key, cidr: nat, peer: Peer, a: Addr, mid: Addr, p: Key)
    requires Ordered(t, |key|) && cidr <= |key|
    requires Under(t, p) && p <= key[..cidr]
    ensures var r := Insert(t, key, cidr, peer, a, mid);
            Ordered(r, |key|) && r.Node? && Under(r, p) && (Compressed(t) ==> Compressed(r))
  {
    if !Descends(t, key, cidr) {
      GraftOrdered(t, key, cidr, peer, a, mid, p);
    } else if t.cidr < cidr {
      PrefixMatchesIffCovers(t.bits, t.cidr, key);
      var b := key[t.cidr];
      var q := Prefix(t) + [b];
      assert q == key[..t.cidr + 1] == key[..cidr][..t.cidr + 1];
      InsertOrdered(Child(t, b), key, cidr, peer, a, mid, q);
    }
  }

  lemma {:induction false} InsertEntry(t: Tree, key: Key, cidr: nat, peer: Peer, a: Addr, mid: Addr, q: Key)
    requires Ordered(t, |key|) && cidr <= |key|
    ensures EntryOf(Insert(t, key, cidr, peer, a, mid), q) ==
            if q == key[..cidr] then Some(peer) else EntryOf(t, q)
  {
    if !Descends(t, key, cidr) {
      GraftEntry(t, key, cidr, peer, a, mid, q);
    } else {
      PrefixMatchesIffCovers(t.bits, t.cidr, key);
      TakePrefix(Prefix(t), key);
      if t.cidr < cidr {
        var b := key[t.cidr];
        assert Prefix(t) <= key[..cidr] && key[..cidr][t.cidr] == b;
        if Prefix(t) <= q && t.cidr < |q| && q[t.cidr] == b {
          InsertEntry(Child(t, b), key, cidr, peer, a, mid, q);
        } else {
          assert q != key[..cidr];
        }
      }
    }
  }

  /** Insertion keeps the order and the compression, and is a plain table update. */
  lemma InsertCorrect(t: Tree, key: Key, cidr: nat, peer: Peer, a: Addr, mid: Addr)
    requires Ordered(t, |key|) && cidr <= |key|
    ensures Ordered(Insert(t, key, cidr, peer, a, mid), |key|)
    ensures Compressed(t) ==> Compressed(Insert(t, key, cidr, peer, a, mid))
    ensures TableOf(Insert(t, key, cidr, peer, a, mid)) == TableOf(t)[key[..cidr] := peer]
  {
    InsertOrdered(t, key, cidr, peer, a, mid, []);
    var r := Insert(t, key, cidr, peer, a, mid);
    forall q ensures q in TableOf(r) <==> q in TableOf(t)[key[..cidr] := peer]
             ensures q in TableOf(r) ==> TableOf(r)[q] == TableOf(t)[key[..cidr] := peer][q]
    {
      TableEntry(r, |key|, q);
      TableEntry(t, |key|, q);
      InsertEntry(t, key, cidr, peer, a, mid, q);
    }
  }

  /** Insertion is a replacement at the slot where the walk stopped. */
  lemma {:induction false} InsertIsPut(t: Tree, key: Key, cidr: nat, peer: Peer, a: Addr, mid: Addr)
    requires Ordered(t, |key|) && cidr <= |key|
    ensures var path := StopPath(t, key, cidr);
            var s := Get(t, path);
            Ordered(s, |key|) &&
            (IsExact(s, key, cidr) ==> Insert(t, key, cidr, peer, a, mid) == Put(t, path, s.(peer := Some(peer)))) &&
            (!IsExact(s, key, cidr) ==>
              (!Descends(s, key, cidr) &&
               Insert(t, key, cidr, peer, a, mid) == Put(t, path, Graft(s, key, cidr, peer, a, mid))))
  {
    if Descends(t, key, cidr) && t.cidr != cidr {
      var b := key[t.cidr];
      InsertIsPut(Child(t, b), key, cidr, peer, a, mid);
      assert StopPath(t, key, cidr)[1..] == StopPath(Child(t, b), key, cidr);
    }
  }

  // ---------------------------------------------------------------- removal

  predicate IsLeaf(t: Tree) {
    t.Node? && t.left.Nil? && t.right.Nil?
  }

  /** A node that lost its peer: kept as a branching point, or replaced by its only child. */
  function Splice(t: Tree): (r: Tree)
    requires t.Node?
  {
    if t.left.Node? && t.right.Node? then t.(peer := None)
    else if t.left.Node? then t.left
    else t.right
  }

  /** Removing the node at `path`; a peerless parent left with one child goes too. */
  function RemoveAt(t: Tree, path: seq<bool>): (r: Tree)
    requires OnTree(t, path) && Get(t, path).Node?
  {
    if path == [] then Splice(t)
    else
      var c := Child(t, path[0]);
      if |path| == 1 && IsLeaf(c) && t.peer.None? then Child(t, !path[0])
      else SetChild(t, path[0], RemoveAt(c, path[1..]))
  }

  lemma {:induction false} GetOrdered(t: Tree, path: seq<bool>, w: nat)
    requires Ordered(t, w) && OnTree(t, path)
    ensures Ordered(Get(t, path), w) && (Get(t, path).Node? ==> Prefix(t) <= Prefix(Get(t, path)))
    ensures Get(t, path).Node? && path != [] ==>
              t.Node? && Prefix(t) + [path[0]] <= Prefix(Get(t, path))
    ensures t.Node? && path != [] && Get(t, path).Node? ==> t.cidr < Get(t, path).cidr
    ensures Compressed(t) ==> Compressed(Get(t, path))
  {
    if path != [] {
      var c := Child(t, path[0]);
      GetOrdered(c, path[1..], w);
      var s := Get(t, path);
      if s.Node? {
        if |path| > 1 { PrefixTransitive(Prefix(c), Prefix(c), path[1], Prefix(s)); }
        assert Prefix(t) + [path[0]] <= Prefix(c) <= Prefix(s);
        PrefixTransitive(Prefix(t), Prefix(t), path[0], Prefix(s));
      }
    }
  }

  /** A node's own entry, seen from the root: present exactly when the node has a peer. */
  lemma {:induction false} TableAt(t: Tree, path: seq<bool>, w: nat)
    requires Ordered(t, w) && OnTree(t, path) && Get(t, path).Node?
    ensures var s := Get(t, path);
            (Prefix(s) in TableOf(t) <==> s.peer.Some?) &&
            (s.peer.Some? ==> TableOf(t)[Prefix(s)] == s.peer.value)
  {
    TableSplit(t, w);
    if path != [] {
      GetOrdered(t, path, w);
      TableAt(Child(t, path[0]), path[1..], w);
      PrefixTransitive(Prefix(t), Prefix(t), path[0], Prefix(Get(t, path)));
    }
  }

  lemma {:induction false} RemoveOrdered(t: Tree, path: seq<bool>, w: nat, p: Key)
    requires Ordered(t, w) && OnTree(t, path) && Get(t, path).Node? && Under(t, p)
    ensures Ordered(RemoveAt(t, path), w) && Under(RemoveAt(t, path), p)
    ensures Compressed(t) && (path != [] || !IsLeaf(t)) ==> RemoveAt(t, path).Node?
    ensures Compressed(t) ==> Compressed(RemoveAt(t, path))
  {
    var r := RemoveAt(t, path);
    if path == [] || r == Child(t, !path[0]) {
      if r.Node? && r == t.left { PrefixTransitive(p, Prefix(t), false, Prefix(r)); }
      if r.Node? && r == t.right { PrefixTransitive(p, Prefix(t), true, Prefix(r)); }
    } else {
      RemoveOrdered(Child(t, path[0]), path[1..], w, Prefix(t) + [path[0]]);
    }
  }

  /** Dropping a node without entry in front of a child loses nothing. */
  lemma SkipParent(t: Tree, w: nat, b: bool, q: Key)
    requires t.Node? && Ordered(t, w)
    requires Prefix(t) <= q && |q| > t.cidr && q[t.cidr] != b
    ensures EntryOf(Child(t, b), q) == None
  {
    var c := Child(t, b);
    if c.Node? {
      PrefixTransitive(Prefix(t), Prefix(t), b, Prefix(c));
      PrefixOfPrefix(Prefix(t), Prefix(c), q);
    }
  }

  lemma OutsideEntry(t: Tree, w: nat, b: bool, q: Key)
    requires t.Node? && Ordered(t, w)
    requires !(Prefix(t) <= q) || |q| == t.cidr
    ensures EntryOf(Child(t, b), q) == None
  {
    var c := Child(t, b);
    if c.Node? {
      PrefixTransitive(Prefix(t), Prefix(t), b, Prefix(c));
      PrefixOfPrefix(Prefix(t), Prefix(c), q);
    }
  }

  lemma SpliceEntry(t: Tree, w: nat, q: Key)
    requires t.Node? && Ordered(t, w)
    ensures EntryOf(Splice(t), q) == if q == Prefix(t) then None else EntryOf(t, q)
  {
    if Prefix(t) <= q && |q| > t.cidr {
      SkipParent(t, w, !q[t.cidr], q);
    } else {
      OutsideEntry(t, w, false, q);
      OutsideEntry(t, w, true, q);
    }
  }

  lemma {:induction false} RemoveEntry(t: Tree, path: seq<bool>, w: nat, q: Key)
    requires Ordered(t, w) && OnTree(t, path) && Get(t, path).Node?
    ensures EntryOf(RemoveAt(t, path), q) ==
            if q == Prefix(Get(t, path)) then None else EntryOf(t, q)
  {
    if path == [] {
      SpliceEntry(t, w, q);
      return;
    }
    var b, c := path[0], Child(t, path[0]);
    var k := Prefix(Get(t, path));
    GetOrdered(t, path, w);
    PrefixTransitive(Prefix(t), Prefix(t), b, k);
    if |path| == 1 && IsLeaf(c) && t.peer.None? {
      assert Get(t, path) == c;
      LeafEntry(c, q);
      if Prefix(t) <= q && |q| > t.cidr {
        SkipParent(t, w, !q[t.cidr], q);
      } else {
        OutsideEntry(t, w, !b, q);
      }
    } else {
      RemoveEntry(c, path[1..], w, q);
    }
  }

  /** Removal keeps the order and the compression and deletes exactly one table entry. */
  lemma RemoveCorrect(t: Tree, path: seq<bool>, w: nat)
    requires Ordered(t, w) && OnTree(t, path) && Get(t, path).Node?
    ensures Ordered(RemoveAt(t, path), w)
    ensures Compressed(t) ==> Compressed(RemoveAt(t, path))
    ensures TableOf(RemoveAt(t, path)) == TableOf(t) - {Prefix(Get(t, path))}
  {
    RemoveOrdered(t, path, w, []);
    var r := RemoveAt(t, path);
    forall q ensures q in TableOf(r) <==> q in TableOf(t) - {Prefix(Get(t, path))}
             ensures q in TableOf(r) ==> q in TableOf(t) && TableOf(r)[q] == TableOf(t)[q]
    {
      TableEntry(r, w, q);
      TableEntry(t, w, q);
      RemoveEntry(t, path, w, q);
    }
  }

  /** The walk finds the exact node precisely when the tree has one with that prefix; when
      it does not, the prefix is not in the table. */
  lemma {:induction false} ExactOrAbsent(t: Tree, key: Key, cidr: nat)
    requires Ordered(t, |key|) && cidr <= |key|
    ensures var s := Get(t, StopPath(t, key, cidr));
            Ordered(s, |key|) &&
            (IsExact(s, key, cidr) ==> Prefix(s) == key[..cidr]) &&
            (!IsExact(s, key, cidr) ==> key[..cidr] !in TableOf(t))
  {
    if t.Nil? { return; }
    PrefixMatchesIffCovers(t.bits, t.cidr, key);
    if Descends(t, key, cidr) {
      assert Prefix(t) == key[..t.cidr];
      if t.cidr != cidr {
        var b := key[t.cidr];
        ExactOrAbsent(Child(t, b), key, cidr);
        TableSplit(t, |key|);
        assert StopPath(t, key, cidr)[1..] == StopPath(Child(t, b), key, cidr);
        assert key[..cidr][t.cidr] == b;
      }
    } else {
      TableUnder(t, |key|, Prefix(t));
      if Prefix(t) <= key[..cidr] {
        PrefixOfPrefix(Prefix(t), key[..cidr], key);
        assert false;
      }
    }
  }
}
