/** Lookups that run while `remove_node` stores: clearing the peer, splicing the node out and freeing
    its parent. A reader that finds a cleared peer starts over. */
module ReaderRemoval {
  import opened Common
  import opened TrieTree
  import opened TrieOps
  import opened TrieHeap
  import opened TrieMem
  import opened TrieReader
  import opened AllowedIpsState
  import opened AllowedIpsInsert
  import opened AllowedIpsRemove
  import opened AllowedIpsReader

  // ---------------------------------------------------------------- replacing twice

  lemma {:induction false} PutAgain(s: Slot, t: Tree, path: seq<bool>, x: Tree, y: Tree)
    requires OnTree(t, path)
    ensures var t' := Put(t, path, x);
            OnTree(t', path) && Get(t', path) == x && Put(t', path, y) == Put(t, path, y) && SlotOf(s, t', path) == SlotOf(s, t, path)
    decreases path
  {
    if path != [] {
      PutAgain(Link(t.addr, path[0]), Child(t, path[0]), path[1..], x, y);
    }
  }

  lemma {:induction false} PutBelow(t: Tree, up: seq<bool>, b: bool, x: Tree)
    requires OnTree(t, up) && Get(t, up).Node?
    ensures OnTree(t, up + [b]) && Put(t, up + [b], x) == Put(t, up, SetChild(Get(t, up), b, x))
    decreases up
  {
    if up == [] {
      assert (up + [b])[1..] == [];
    } else {
      assert (up + [b])[1..] == up[1..] + [b];
      PutBelow(Child(t, up[0]), up[1..], b, x);
    }
  }

  // ---------------------------------------------------------------- the cleared node

  /** The first store clears the peer of `a`; no other store touches a peer. */
  predicate ClearsFirst(es: seq<Store>, a: Addr) {
    es != [] && es[0] == PeerSet(a, None) && forall i :: 1 <= i < |es| ==> !es[i].PeerSet?
  }

  lemma ClearedPeer(ms: seq<Mem>, es: seq<Store>, hs: seq<set<Addr>>, a: Addr, j: nat)
    requires |ms| == |hs| == |es| + 1 && 1 <= j < |ms| && a in ms[0].nodes && ClearsFirst(es, a)
    requires forall i :: 0 <= i < |es| ==> StoreAt(ms, es, hs, i)
    ensures a in ms[j].nodes && ms[j].nodes[a].peer == None
  {
    assert StoreAt(ms, es, hs, 0);
    PeerKept(ms, es, hs, a, 1, j);
  }

  lemma ClearedTargets(f: Family, ms: seq<Mem>, es: seq<Store>, hs: seq<set<Addr>>, ts: seq<Tree>, a: Addr, after: Table, key: Key)
    requires Follows(f, ms, es, hs, ts) && ClearsFirst(es, a) && a in ms[0].nodes && |key| == Width(f)
    ensures KeyTargetsOk(ms, es, ts, TableOf(ts[0]), after, key)
  {
    var ends, answers := EndsOf(ts, key), {LongestMatch(TableOf(ts[0]), key), LongestMatch(after, key)};
    forall x: Addr, j | 0 <= j < |ms| && SetsPeer(es, x) && Some(x) in ends && x in ms[j].nodes && ms[j].nodes[x].peer.Some?
      ensures ms[j].nodes[x].peer in answers
    {
      assert x == a;
      if j > 0 { ClearedPeer(ms, es, hs, a, j); }
      var k :| 0 <= k < |ts| && Find(ts[k], key, None) == Some(a);
      EndCarries(f, ms, es, hs, ts, key, k);
      if k > 0 { ClearedPeer(ms, es, hs, a, k); }
    }
  }

  lemma RemovalSafe(f: Family, ms: seq<Mem>, es: seq<Store>, ts: seq<Tree>, a: Addr, after: Table)
    requires Follows(f, ms, es, NoneHidden(|ms|), ts) && ClearsFirst(es, a) && a in ms[0].nodes
    requires forall j :: 1 <= j < |ts| ==> TableOf(ts[j]) == after
    ensures SafeForReaders(f, ms, TableOf(ts[0]), after)
  {
    forall key: Key | |key| == Width(f) ensures KeyTargetsOk(ms, es, ts, TableOf(ts[0]), after, key) {
      ClearedTargets(f, ms, es, NoneHidden(|ms|), ts, a, after, key);
    }
    FollowedSafe(f, ms, es, NoneHidden(|ms|), ts, TableOf(ts[0]), after);
  }

  // ---------------------------------------------------------------- the runs

  /** The node to remove, in a memory that a reader can walk. */
  ghost predicate Spot(f: Family, m: Mem, t: Tree, path: seq<bool>, d: Tree) {
    && Shape(m.nodes, RootOf(m, f), t) && Ordered(t, Width(f)) && Distinct(t)
    && OnTree(t, path) && d == Get(t, path) && d.Node? && d.addr in m.nodes
  }

  lemma ClearedTree(t: Tree, path: seq<bool>, d: Tree, w: nat)
    requires Ordered(t, w) && Distinct(t) && OnTree(t, path) && d == Get(t, path) && d.Node?
    ensures var t' := Put(t, path, d.(peer := None));
            && Ordered(t', w) && Distinct(t') && TableOf(t') == TableOf(t) - {Prefix(d)}
            && Hit(PeerSet(d.addr, None), t) == t' && Below(PeerSet(d.addr, None), t) == Addrs(d)
  {
    GetAddrs(t, path);
    assert Addrs(d.(peer := None)) == Addrs(d);
    PutAddrs(t, path, d.(peer := None));
    RemovalStep(t, path, d.(peer := None), w);
    PeerSetIsPut(t, path, None);
  }

  lemma ClearRun(f: Family, m: Mem, t: Tree, path: seq<bool>, d: Tree)
    requires Spot(f, m, t, path, d)
    ensures Growing(f, [m, Cleared(m, d.addr)], [PeerSet(d.addr, None)], [t, Put(t, path, d.(peer := None))])
  {
    var e, n, t' := PeerSet(d.addr, None), Cleared(m, d.addr), Put(t, path, d.(peer := None));
    ClearedTree(t, path, d, Width(f));
    PeerEffect(m, d.addr, None);
    SameRoot(f, m, n, e, t);
    FirstOfRun(f, m, t);
    Extend(f, [m], [], [t], n, e, t');
    assert [m] + [n] == [m, n] && [] + [e] == [e] && [t] + [t'] == [t, t'];
  }

  /** Moving a parent link is invisible. */
  lemma ParentRun(f: Family, ms: seq<Mem>, es: seq<Store>, ts: seq<Tree>, child: Option<Addr>, slot: Slot, m: Mem, n: Mem)
    requires Growing(f, ms, es, ts) && m == ms[|ms| - 1] && (child.Some? ==> child.value in m.nodes)
    requires n == if child.Some? then SetParent(m, child.value, slot) else m
    ensures Growing(f, ms + [n], es + [Unseen], ts + [ts[|ts| - 1]])
  {
    var t := ts[|ts| - 1];
    ParentEffectUnseen(m, child, slot);
    assert Shape(m.nodes, RootOf(m, f), t);
    SameRoot(f, m, n, Unseen, t);
    Extend(f, ms, es, ts, n, Unseen, t);
  }

  /** Nothing that earlier stores have settled lies at the slot. */
  predicate Untouched(slot: Slot, es: seq<Store>, ts: seq<Tree>) {
    |ts| == |es| + 1 && (slot.Link? ==> forall j :: 0 <= j < |es| ==> slot.node !in Below(es[j], ts[j]))
  }

  /** A store through the slot at `path`, which hangs the subtree `sub` there. */
  lemma SlotRun(f: Family, ms: seq<Mem>, es: seq<Store>, ts: seq<Tree>, m: Mem, t: Tree, path: seq<bool>, slot: Slot,
                child: Option<Addr>, sub: Tree, n: Mem)
    requires Growing(f, ms, es, ts) && m == ms[|ms| - 1] && t == ts[|ts| - 1] && OnTree(t, path)
    requires slot == SlotOf(Root(f), t, path) && (slot.Link? ==> slot.node in m.nodes)
    requires n == StoreSlot(m, slot, child) && Shape(n.nodes, child, sub)
    requires Ordered(Put(t, path, sub), Width(f)) && Distinct(Put(t, path, sub))
    requires Untouched(slot, es, ts)
    ensures Follows(f, ms + [n], es + [Publishing(slot, sub)], NoneHidden(|ms| + 1), ts + [Put(t, path, sub)])
    ensures slot.Link? ==> Growing(f, ms + [n], es + [Publishing(slot, sub)], ts + [Put(t, path, sub)])
  {
    var e, t' := Publishing(slot, sub), Put(t, path, sub);
    SlotEffect(m, slot, child, sub);
    assert Shape(m.nodes, RootOf(m, f), t);
    if path != [] {
      SlotSetIsPut(Root(f), t, path, sub);
      SameRoot(f, m, n, e, t);
    }
    Extend(f, ms, es, ts, n, e, t');
  }

  // ---------------------------------------------------------------- a branching node stays

  lemma KeepSafe(s: State, f: Family, path: seq<bool>, d: Tree, slot: Slot)
    requires RemovalPoint(s, f, path, d, slot)
    ensures SafeForReaders(f, [s.mem, Cleared(s.mem, d.addr)], TableIn(s, f), Remaining(s, f, d))
  {
    var t := TreeIn(s, f);
    SpotOf(s, f, path, d, slot);
    ClearRun(f, s.mem, t, path, d);
    ClearedTree(t, path, d, Width(f));
    RemovalSafe(f, [s.mem, Cleared(s.mem, d.addr)], [PeerSet(d.addr, None)], [t, Put(t, path, d.(peer := None))], d.addr,
                Remaining(s, f, d));
  }

  lemma SpotOf(s: State, f: Family, path: seq<bool>, d: Tree, slot: Slot)
    requires RemovalPoint(s, f, path, d, slot)
    ensures Spot(f, s.mem, TreeIn(s, f), path, d)
    ensures slot.Link? ==> slot.node in s.mem.nodes && slot.node !in Addrs(d)
    ensures slot == SlotOf(Root(f), TreeIn(s, f), path) && (path == [] <==> slot == Root(f))
  {
    RemovalFacts(s, f, path, d, slot);
    GetShape(s.mem.nodes, Root(f), RootOf(s.mem, f), TreeIn(s, f), path);
  }

  // ---------------------------------------------------------------- the only child takes the place

  function SplicedStores(a: Addr, slot: Slot, sub: Tree): (es: seq<Store>)
    ensures ClearsFirst(es, a) && |es| == 3
  {
    [PeerSet(a, None), Unseen, Publishing(slot, sub)]
  }

  function SplicedTrees(t: Tree, path: seq<bool>, d: Tree): (ts: seq<Tree>)
    requires OnTree(t, path) && d.Node?
    ensures |ts| == 4 && ts[0] == t && ts[3] == Put(t, path, Splice(d))
  {
    var t1 := Put(t, path, d.(peer := None));
    [t, t1, t1, Put(t, path, Splice(d))]
  }

  lemma SpliceAddrs(d: Tree)
    requires d.Node? && !(d.left.Node? && d.right.Node?)
    ensures Addrs(Splice(d)) <= Addrs(d) && (Distinct(d) ==> d.addr !in Addrs(Splice(d)))
  {
  }

  lemma SplicedTree(t: Tree, path: seq<bool>, d: Tree, w: nat)
    requires Ordered(t, w) && Distinct(t) && OnTree(t, path) && d == Get(t, path) && d.Node?
    requires !(d.left.Node? && d.right.Node?)
    ensures var t' := Put(t, path, Splice(d));
            Ordered(t', w) && Distinct(t') && TableOf(t') == TableOf(t) - {Prefix(d)}
  {
    SpliceAddrs(d);
    GetAddrs(t, path);
    PutAddrs(t, path, Splice(d));
    RemovalStep(t, path, Splice(d), w);
  }

  /** The subtree that moves up is not touched on the way. */
  lemma MovedSubtree(s: State, a: Addr, slot: Slot, child: Option<Addr>, log: seq<Mem>, sub: Tree)
    requires SpliceLog(s, a, slot, child, log) && Shape(s.mem.nodes, child, sub) && a !in Addrs(sub)
    requires slot.Link? ==> slot.node !in Addrs(sub)
    ensures Shape(log[2].nodes, child, sub)
  {
    FrameShape(s.mem.nodes, log[2].nodes, child, sub);
  }

  /** Peer cleared and child re-parented. */
  lemma EarlyRun(f: Family, m: Mem, t: Tree, path: seq<bool>, d: Tree, slot: Slot, child: Option<Addr>, m0: Mem, m1: Mem)
    requires Spot(f, m, t, path, d) && m0 == Cleared(m, d.addr) && (child.Some? ==> child.value in m0.nodes)
    requires m1 == if child.Some? then SetParent(m0, child.value, slot) else m0
    ensures var t1 := Put(t, path, d.(peer := None));
            Growing(f, [m, m0, m1], [PeerSet(d.addr, None), Unseen], [t, t1, t1])
  {
    var a, t1 := d.addr, Put(t, path, d.(peer := None));
    ClearRun(f, m, t, path, d);
    ParentRun(f, [m, m0], [PeerSet(a, None)], [t, t1], child, slot, m0, m1);
    assert [m, m0] + [m1] == [m, m0, m1] && [PeerSet(a, None)] + [Unseen] == [PeerSet(a, None), Unseen];
    assert [t, t1] + [t1] == [t, t1, t1];
  }

  lemma SpliceTrees(f: Family, t: Tree, path: seq<bool>, d: Tree, slot: Slot, t1: Tree, t2: Tree)
    requires Ordered(t, Width(f)) && Distinct(t) && OnTree(t, path) && d == Get(t, path) && d.Node? && !(d.left.Node? && d.right.Node?)
    requires t1 == Put(t, path, d.(peer := None)) && t2 == Put(t, path, Splice(d))
    requires slot == SlotOf(Root(f), t, path) && (slot.Link? ==> slot.node !in Addrs(d))
    ensures OnTree(t1, path) && slot == SlotOf(Root(f), t1, path) && Put(t1, path, Splice(d)) == t2
    ensures Ordered(t2, Width(f)) && Distinct(t2)
    ensures Untouched(slot, [PeerSet(d.addr, None), Unseen], [t, t1, t1])
  {
    ClearedTree(t, path, d, Width(f));
    SplicedTree(t, path, d, Width(f));
    PutAgain(Root(f), t, path, d.(peer := None), Splice(d));
    var es, ts := [PeerSet(d.addr, None), Unseen], [t, t1, t1];
    forall j | 0 <= j < |es| && slot.Link? ensures slot.node !in Below(es[j], ts[j]) {}
  }

  lemma SpliceRun(s: State, f: Family, t: Tree, path: seq<bool>, d: Tree, slot: Slot, child: Option<Addr>, log: seq<Mem>,
                  ms: seq<Mem>, es: seq<Store>, ts: seq<Tree>)
    requires Spot(f, s.mem, t, path, d) && SpliceLog(s, d.addr, slot, child, log) && !(d.left.Node? && d.right.Node?)
    requires slot == SlotOf(Root(f), t, path) && (slot.Link? ==> slot.node !in Addrs(d)) && Shape(s.mem.nodes, child, Splice(d))
    requires ms == [s.mem] + log && es == SplicedStores(d.addr, slot, Splice(d)) && ts == SplicedTrees(t, path, d)
    ensures Follows(f, ms, es, NoneHidden(4), ts) && (slot.Link? ==> Growing(f, ms, es, ts))
  {
    var a, t1 := d.addr, Put(t, path, d.(peer := None));
    EarlyRun(f, s.mem, t, path, d, slot, child, log[0], log[1]);
    GetAddrs(t, path);
    SpliceAddrs(d);
    MovedSubtree(s, a, slot, child, log, Splice(d));
    SpliceTrees(f, t, path, d, slot, t1, ts[3]);
    SlotRun(f, [s.mem, log[0], log[1]], [PeerSet(a, None), Unseen], [t, t1, t1], log[1], t1, path, slot, child, Splice(d), log[2]);
    SplicedDisplays(s.mem, log, a, slot, Splice(d), t, t1, ts[3]);
  }

  lemma SplicedDisplays(m: Mem, log: seq<Mem>, a: Addr, slot: Slot, sub: Tree, t: Tree, t1: Tree, t2: Tree)
    requires |log| == 3
    ensures [m, log[0], log[1]] + [log[2]] == [m] + log
    ensures [PeerSet(a, None), Unseen] + [Publishing(slot, sub)] == SplicedStores(a, slot, sub)
    ensures [t, t1, t1] + [t2] == [t, t1, t1, t2]
  {
  }

  lemma SpliceSafe(s: State, f: Family, path: seq<bool>, d: Tree, slot: Slot, child: Option<Addr>, log: seq<Mem>)
    requires RemovalPoint(s, f, path, d, slot) && SpliceLog(s, d.addr, slot, child, log) && !(d.left.Node? && d.right.Node?)
    requires child == (if d.left.Node? then s.mem.nodes[d.addr].bit0 else s.mem.nodes[d.addr].bit1)
    ensures SafeForReaders(f, [s.mem] + log, TableIn(s, f), Remaining(s, f, d))
  {
    var t := TreeIn(s, f);
    RemovalFacts(s, f, path, d, slot);
    SpotOf(s, f, path, d, slot);
    var ms, es, ts := [s.mem] + log, SplicedStores(d.addr, slot, Splice(d)), SplicedTrees(t, path, d);
    SpliceRun(s, f, t, path, d, slot, child, log, ms, es, ts);
    ClearedTree(t, path, d, Width(f));
    SplicedTree(t, path, d, Width(f));
    RemovalSafe(f, ms, es, ts, d.addr, Remaining(s, f, d));
  }

  // ---------------------------------------------------------------- the parent goes as well

  /** What the earlier stores have settled lies within the removed leaf. */
  lemma SettledBelow(f: Family, t: Tree, path: seq<bool>, d: Tree, slot: Slot, es: seq<Store>, ts: seq<Tree>, j: nat)
    requires Ordered(t, Width(f)) && Distinct(t) && OnTree(t, path) && d == Get(t, path) && IsLeaf(d)
    requires slot == SlotOf(Root(f), t, path) && es == SplicedStores(d.addr, slot, Nil) && ts == SplicedTrees(t, path, d) && j < 3
    ensures Below(es[j], ts[j]) <= Addrs(d)
  {
    ClearedTree(t, path, d, Width(f));
    if j == 2 && path != [] {
      PutAgain(Root(f), t, path, d.(peer := None), Nil);
      SlotSetIsPut(Root(f), ts[2], path, Nil);
      assert Addrs(d.(peer := None)) == Addrs(d);
    }
  }

  /** The sibling takes the parent's place. */
  lemma SiblingTree(f: Family, t: Tree, path: seq<bool>, d: Tree, up: seq<bool>, b: bool, p: Tree, t2: Tree, t3: Tree)
    requires Ordered(t, Width(f)) && Distinct(t) && OnTree(t, up) && p == Get(t, up) && p.Node? && p.peer.None? && path == up + [b]
    requires d == Child(p, b) && IsLeaf(d)
    requires OnTree(t, path) && t2 == Put(t, path, Nil) && t3 == Put(t, up, Child(p, !b))
    ensures OnTree(t2, up) && SlotOf(Root(f), t2, up) == SlotOf(Root(f), t, up) && Put(t2, up, Child(p, !b)) == t3
    ensures Ordered(t3, Width(f)) && Distinct(t3) && TableOf(t3) == TableOf(t) - {Prefix(d)}
  {
    PutBelow(t, up, b, Nil);
    PutAgain(Root(f), t, up, SetChild(p, b, Nil), Child(p, !b));
    StepPath(Root(f), t, up, b);
    assert path[..|path| - 1] == up;
    RemoveIsPut(t, path);
    RemoveCorrect(t, path, Width(f));
    GetAddrs(t, up);
    PutAddrs(t, up, Child(p, !b));
  }

  /** The sibling's subtree is not touched on the way. */
  lemma MovedSibling(s: State, a: Addr, slot: Slot, above: Slot, child: Option<Addr>, log: seq<Mem>, n: Mem, n': Mem, sib: Tree)
    requires ParentLog(s, a, slot, above, child, log, n, n') && Shape(s.mem.nodes, child, sib) && a !in Addrs(sib)
    requires slot.Link? ==> slot.node !in Addrs(sib)
    requires above.Link? ==> above.node !in Addrs(sib)
    ensures Shape(n'.nodes, child, sib)
  {
    FrameShape(s.mem.nodes, log[2].nodes, child, sib);
    FrameShape(log[2].nodes, n'.nodes, child, sib);
  }

  lemma SettledUntouched(f: Family, t: Tree, path: seq<bool>, d: Tree, slot: Slot, above: Slot, es: seq<Store>, ts: seq<Tree>)
    requires Ordered(t, Width(f)) && Distinct(t) && OnTree(t, path) && d == Get(t, path) && IsLeaf(d)
    requires slot == SlotOf(Root(f), t, path) && (above.Link? ==> above.node !in Addrs(d))
    requires es == SplicedStores(d.addr, slot, Nil) && ts == SplicedTrees(t, path, d)
    ensures Untouched(above, es + [Unseen], ts + [ts[3]])
  {
    var es', ts' := es + [Unseen], ts + [ts[3]];
    forall j | 0 <= j < |es'| && above.Link? ensures above.node !in Below(es'[j], ts'[j]) {
      if j < 3 { SettledBelow(f, t, path, d, slot, es, ts, j); }
    }
  }

  lemma ParentFreeRun(f: Family, t2: Tree, up: seq<bool>, above: Slot, child: Option<Addr>, sib: Tree,
                      ms: seq<Mem>, es: seq<Store>, ts: seq<Tree>, m: Mem, n: Mem, n': Mem)
    requires Growing(f, ms, es, ts) && m == ms[|ms| - 1] && t2 == ts[|ts| - 1]
    requires (child.Some? ==> child.value in m.nodes) && n == if child.Some? then SetParent(m, child.value, above) else m
    requires OnTree(t2, up) && SlotOf(Root(f), t2, up) == above
    requires Ordered(Put(t2, up, sib), Width(f)) && Distinct(Put(t2, up, sib))
    requires Untouched(above, es + [Unseen], ts + [t2])
    requires (above.Link? ==> above.node in n.nodes) && n' == StoreSlot(n, above, child) && Shape(n'.nodes, child, sib)
    ensures Follows(f, ms + [n] + [n'], es + [Unseen] + [Publishing(above, sib)], NoneHidden(|ms| + 2), ts + [t2] + [Put(t2, up, sib)])
  {
    ParentRun(f, ms, es, ts, child, above, m, n);
    SlotRun(f, ms + [n], es + [Unseen], ts + [t2], n, t2, up, above, child, sib, n');
  }

  /** The run of `ParentLog`. */
  lemma ParentFollows(s: State, f: Family, t: Tree, path: seq<bool>, d: Tree, slot: Slot, up: seq<bool>, b: bool, p: Tree, above: Slot,
                      child: Option<Addr>, log: seq<Mem>, n: Mem, n': Mem, ms: seq<Mem>, es: seq<Store>, ts: seq<Tree>, t3: Tree)
    requires Spot(f, s.mem, t, path, d) && Spot(f, s.mem, t, up, p) && path == up + [b] && p.peer.None? && d == Child(p, b) && IsLeaf(d)
    requires slot == SlotOf(Root(f), t, path) && above == SlotOf(Root(f), t, up) && slot.Link?
    requires slot.node !in Addrs(d) && (above.Link? ==> above.node !in Addrs(d))
    requires ParentLog(s, d.addr, slot, above, child, log, n, n') && Shape(n'.nodes, child, Child(p, !b))
    requires ms == [s.mem] + log && es == SplicedStores(d.addr, slot, Nil) && ts == SplicedTrees(t, path, d)
    requires t3 == Put(t, up, Child(p, !b))
    ensures Follows(f, ms + [n] + [n'], es + [Unseen] + [Publishing(above, Child(p, !b))], NoneHidden(6), ts + [ts[3]] + [t3])
  {
    SpliceRun(s, f, t, path, d, slot, None, log, ms, es, ts);
    SiblingTree(f, t, path, d, up, b, p, ts[3], t3);
    SettledUntouched(f, t, path, d, slot, above, es, ts);
    ParentFreeRun(f, ts[3], up, above, child, Child(p, !b), ms, es, ts, log[2], n, n');
  }

  /** Where the parent hangs and what moves up lies apart from the nodes that go. */
  lemma Apart(s: State, f: Family, path: seq<bool>, d: Tree, slot: Slot, p: Tree, above: Slot, child: Option<Addr>, b: bool)
    requires ParentPoint(s, f, path, d, slot, p, above, child) && b == path[|path| - 1]
    ensures above.Link? ==> above.node !in Addrs(d) && above.node !in Addrs(Child(p, !b))
    ensures d.addr !in Addrs(Child(p, !b)) && slot.node !in Addrs(Child(p, !b))
    ensures Shape(s.mem.nodes, child, Child(p, !b))
  {
    var up := path[..|path| - 1];
    SpotOf(s, f, up, p, above);
    RemovalFacts(s, f, up, p, above);
    GetAddrs(TreeIn(s, f), up);
    assert Addrs(d) <= Addrs(p) && Addrs(Child(p, !b)) <= Addrs(p);
    assert d.addr in Addrs(d);
  }

  lemma ParentSafe(s: State, f: Family, path: seq<bool>, d: Tree, slot: Slot, p: Tree, above: Slot, child: Option<Addr>,
                   log: seq<Mem>, n: Mem, n': Mem)
    requires ParentPoint(s, f, path, d, slot, p, above, child) && ParentLog(s, d.addr, slot, above, child, log, n, n')
    ensures SafeForReaders(f, [s.mem] + (log + [n, n']), TableIn(s, f), Remaining(s, f, d))
  {
    var t, up, b := TreeIn(s, f), path[..|path| - 1], path[|path| - 1];
    assert path == up + [b];
    SpotOf(s, f, path, d, slot);
    SpotOf(s, f, up, p, above);
    Apart(s, f, path, d, slot, p, above, child, b);
    MovedSibling(s, d.addr, slot, above, child, log, n, n', Child(p, !b));
    ParentLogSafe(s, f, t, path, d, slot, up, b, p, above, child, log, n, n');
  }

  lemma ParentLogSafe(s: State, f: Family, t: Tree, path: seq<bool>, d: Tree, slot: Slot, up: seq<bool>, b: bool, p: Tree, above: Slot,
                      child: Option<Addr>, log: seq<Mem>, n: Mem, n': Mem)
    requires Spot(f, s.mem, t, path, d) && Spot(f, s.mem, t, up, p) && path == up + [b] && p.peer.None? && d == Child(p, b) && IsLeaf(d)
    requires slot == SlotOf(Root(f), t, path) && above == SlotOf(Root(f), t, up) && slot.Link?
    requires slot.node !in Addrs(d) && (above.Link? ==> above.node !in Addrs(d))
    requires ParentLog(s, d.addr, slot, above, child, log, n, n') && Shape(n'.nodes, child, Child(p, !b))
    ensures SafeForReaders(f, [s.mem] + (log + [n, n']), TableOf(t), TableOf(t) - {Prefix(d)})
  {
    var ms, es, ts := [s.mem] + log, SplicedStores(d.addr, slot, Nil), SplicedTrees(t, path, d);
    var t3 := Put(t, up, Child(p, !b));
    ParentFollows(s, f, t, path, d, slot, up, b, p, above, child, log, n, n', ms, es, ts, t3);
    ParentTables(f, t, path, d, up, b, p, ts, t3);
    assert ms + [n] + [n'] == [s.mem] + (log + [n, n']);
    var es', ts' := es + [Unseen] + [Publishing(above, Child(p, !b))], ts + [ts[3]] + [t3];
    assert ClearsFirst(es', d.addr) && ts'[0] == t;
    RemovalSafe(f, ms + [n] + [n'], es', ts', d.addr, TableOf(t) - {Prefix(d)});
  }

  lemma ParentTables(f: Family, t: Tree, path: seq<bool>, d: Tree, up: seq<bool>, b: bool, p: Tree, ts: seq<Tree>, t3: Tree)
    requires Ordered(t, Width(f)) && Distinct(t) && OnTree(t, up) && p == Get(t, up) && p.Node? && p.peer.None? && path == up + [b]
    requires OnTree(t, path) && d == Get(t, path) && d == Child(p, b) && IsLeaf(d)
    requires ts == SplicedTrees(t, path, d) && t3 == Put(t, up, Child(p, !b))
    ensures var ts' := ts + [ts[3]] + [t3];
            forall j :: 1 <= j < |ts'| ==> TableOf(ts'[j]) == TableOf(t) - {Prefix(d)}
  {
    SiblingTree(f, t, path, d, up, b, p, ts[3], t3);
    ClearedTree(t, path, d, Width(f));
    SplicedTree(t, path, d, Width(f));
    EachTable(ts + [ts[3]] + [t3], TableOf(t) - {Prefix(d)});
  }

  lemma EachTable(ts: seq<Tree>, table: Table)
    requires |ts| == 6 && TableOf(ts[1]) == table && ts[2] == ts[1] && TableOf(ts[3]) == table && ts[4] == ts[3] && TableOf(ts[5]) == table
    ensures forall j :: 1 <= j < 6 ==> TableOf(ts[j]) == table
  {
  }
}
