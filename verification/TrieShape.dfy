/** History independence: the table alone determines the shape of the trie, and its size. */
module TrieShape {
  import opened Common
  import opened TrieTree
  import opened TrieOps

  /** Equal up to node addresses and the bits stored beyond a node's cidr. */
  predicate SameShape(s: Tree, t: Tree) {
    (s.Nil? && t.Nil?) ||
    (&& s.Node? && t.Node?
     && s.cidr == t.cidr && Prefix(s) == Prefix(t) && s.peer == t.peer
     && SameShape(s.left, t.left) && SameShape(s.right, t.right))
  }

  /** A nonempty compressed trie has an entry. */
  lemma {:induction false} SomeEntry(t: Tree, w: nat) returns (q: Key)
    requires Ordered(t, w) && Compressed(t) && t.Node?
    ensures q in TableOf(t)
  {
    TableSplit(t, w);
    if t.peer.Some? {
      q := Prefix(t);
    } else {
      q := SomeEntry(t.left, w);
    }
  }

  lemma BelowFork(p: Key, l: Key, r: Key, n: nat)
    requires p <= l && p <= r && n < |l| && n < |r| && l[n] != r[n]
    ensures |p| <= n
  {
  }

  /** The root prefix is the longest one that all entries share. */
  lemma RootIsCommonPrefix(t: Tree, w: nat, p: Key)
    requires Ordered(t, w) && Compressed(t) && t.Node?
    requires forall q :: q in TableOf(t) ==> p <= q
    ensures p <= Prefix(t)
  {
    TableSplit(t, w);
    if t.peer.Some? {
      assert Prefix(t) in TableOf(t);
    } else {
      var l := SomeEntry(t.left, w);
      var r := SomeEntry(t.right, w);
      assert l in TableOf(t) && r in TableOf(t);
      PrefixOfPrefix(Prefix(t), l, l);
      BelowFork(p, l, r, t.cidr);
      assert p == l[..|p|] && Prefix(t) == l[..t.cidr];
    }
  }

  lemma SubEntriesAgree(s: Tree, t: Tree, w: nat, q: Key)
    requires Ordered(s, w) && Ordered(t, w) && s.Node? && t.Node?
    requires Prefix(s) == Prefix(t) && s.cidr == t.cidr && TableOf(s) == TableOf(t)
    ensures q in TableOf(s.left) ==> q in TableOf(t.left) && TableOf(s.left)[q] == TableOf(t.left)[q]
    ensures q in TableOf(s.right) ==> q in TableOf(t.right) && TableOf(s.right)[q] == TableOf(t.right)[q]
  {
    TableSplit(s, w);
    TableSplit(t, w);
    assert q in TableOf(s) <==> q in TableOf(t);
  }

  lemma SubTablesAgree(s: Tree, t: Tree, w: nat)
    requires Ordered(s, w) && Ordered(t, w) && s.Node? && t.Node?
    requires Prefix(s) == Prefix(t) && s.cidr == t.cidr && TableOf(s) == TableOf(t)
    ensures s.peer == t.peer
    ensures TableOf(s.left) == TableOf(t.left) && TableOf(s.right) == TableOf(t.right)
  {
    forall q ensures q in TableOf(s.left) ==> q in TableOf(t.left) && TableOf(s.left)[q] == TableOf(t.left)[q]
             ensures q in TableOf(t.left) ==> q in TableOf(s.left)
             ensures q in TableOf(s.right) ==> q in TableOf(t.right) && TableOf(s.right)[q] == TableOf(t.right)[q]
             ensures q in TableOf(t.right) ==> q in TableOf(s.right)
    {
      SubEntriesAgree(s, t, w, q);
      SubEntriesAgree(t, s, w, q);
    }
    OwnEntry(s, w);
    OwnEntry(t, w);
  }

  lemma OwnEntry(t: Tree, w: nat)
    requires t.Node? && Ordered(t, w)
    ensures t.peer == if Prefix(t) in TableOf(t) then Some(TableOf(t)[Prefix(t)]) else None
  {
    TableSplit(t, w);
  }

  /** Two histories ending in the same table give the same trie. */
  lemma {:induction false} HistoryIndependence(s: Tree, t: Tree, w: nat)
    requires Ordered(s, w) && Ordered(t, w) && Compressed(s) && Compressed(t)
    requires TableOf(s) == TableOf(t)
    ensures SameShape(s, t)
  {
    if s.Node? { var q := SomeEntry(s, w); }
    if t.Node? { var q := SomeEntry(t, w); }
    if s.Node? && t.Node? {
      TableUnder(s, w, Prefix(s));
      TableUnder(t, w, Prefix(t));
      RootIsCommonPrefix(s, w, Prefix(t));
      RootIsCommonPrefix(t, w, Prefix(s));
      assert |Prefix(s)| == s.cidr && |Prefix(t)| == t.cidr;
      SubTablesAgree(s, t, w);
      HistoryIndependence(s.left, t.left, w);
      HistoryIndependence(s.right, t.right, w);
    }
  }

  /** Conversely the shape determines the table: the trie is a normal form of the table. */
  lemma {:induction false} ShapeDeterminesTable(s: Tree, t: Tree)
    requires SameShape(s, t)
    ensures TableOf(s) == TableOf(t)
  {
    if s.Node? {
      ShapeDeterminesTable(s.left, t.left);
      ShapeDeterminesTable(s.right, t.right);
    }
  }

  lemma DisjointUnionSize(a: Table, b: Table)
    requires a.Keys !! b.Keys
    ensures |a + b| == |a| + |b|
  {
    assert (a + b).Keys == a.Keys + b.Keys;
    assert |(a + b).Keys| == |a + b| && |a.Keys| == |a| && |b.Keys| == |b|;
  }

  lemma UpdateSize(a: Table, k: Key, x: Peer)
    requires k !in a
    ensures |a[k := x]| == |a| + 1
  {
    assert a[k := x].Keys == a.Keys + {k};
    assert |a[k := x].Keys| == |a[k := x]| && |a.Keys| == |a|;
  }

  /** n prefixes never need more than 2n - 1 nodes. */
  lemma {:induction false} SizeBound(t: Tree, w: nat)
    requires Ordered(t, w) && Compressed(t)
    ensures |TableOf(t)| <= Size(t)
    ensures t.Node? ==> Size(t) <= 2 * |TableOf(t)| - 1
  {
    if t.Node? {
      TableSplit(t, w);
      SizeBound(t.left, w);
      SizeBound(t.right, w);
      DisjointUnionSize(TableOf(t.left), TableOf(t.right));
      if t.peer.Some? {
        UpdateSize(TableOf(t.left) + TableOf(t.right), Prefix(t), t.peer.value);
      }
    }
  }

  // ---------------------------------------------------------------- reading a node

  /** Bit `i` of what `wg_allowedips_read_node` reports: whole bytes after the last one that
      belongs to the prefix are cleared, and that byte is masked by a shift. */
  function ReportedBit(bits: Key, cidr: nat, i: nat): (b: bool)
    requires i < |bits|
  {
    var cidrBytes := (cidr + 7) / 8;
    var shift := (8 - cidr % 8) % 8;
    if i >= 8 * cidrBytes then false
    else if cidr > 0 && i / 8 == cidrBytes - 1 then bits[i] && 7 - i % 8 >= shift
    else bits[i]
  }

  function Reported(bits: Key, cidr: nat): (r: Key)
    ensures |r| == |bits| && forall i :: 0 <= i < |bits| ==> r[i] == ReportedBit(bits, cidr, i)
  {
    seq(|bits|, i requires 0 <= i < |bits| => ReportedBit(bits, cidr, i))
  }

  lemma ReportedBitIs(bits: Key, cidr: nat, i: nat)
    requires i < |bits|
    ensures ReportedBit(bits, cidr, i) == (i < cidr && bits[i])
  {
  }

  /** The report keeps the prefix and clears the rest, so nodes of equal prefix report the same,
      whatever unmasked bits they happen to store. */
  lemma ReportedIffPrefix(a: Key, b: Key, cidr: nat)
    requires |a| == |b| && cidr <= |a|
    ensures Reported(a, cidr)[..cidr] == a[..cidr]
    ensures Reported(a, cidr) == Reported(b, cidr) <==> a[..cidr] == b[..cidr]
  {
    forall i | 0 <= i < |a|
      ensures Reported(a, cidr)[i] == (i < cidr && a[i]) && Reported(b, cidr)[i] == (i < cidr && b[i])
    {
      ReportedBitIs(a, cidr, i);
      ReportedBitIs(b, cidr, i);
    }
    if Reported(a, cidr) == Reported(b, cidr) {
      forall i | 0 <= i < cidr ensures a[..cidr][i] == b[..cidr][i] {
        assert Reported(a, cidr)[i] == Reported(b, cidr)[i];
      }
    }
    if a[..cidr] == b[..cidr] {
      forall i | 0 <= i < |a| ensures Reported(a, cidr)[i] == Reported(b, cidr)[i] {
        if i < cidr { assert a[..cidr][i] == b[..cidr][i]; }
      }
    }
  }
}
