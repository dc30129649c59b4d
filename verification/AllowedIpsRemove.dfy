/** The stores of a removal: clearing the peer, splicing the node out, and freeing a parent that is
    no longer needed. */
module AllowedIpsRemove {
  import opened Common
  import opened TrieTree
  import opened TrieOps
  import opened TrieHeap
  import opened TrieMem
  import opened AllowedIpsState
  import opened AllowedIpsInsert

  /** Outside the removed node and the pointers around it nothing changes. */
  ghost predicate Cut(s: State, n: Mem, f: Family, a: Addr) {
    && RootOf(n, Other(f)) == RootOf(s.mem, Other(f))
    && n.nodes.Keys == s.mem.nodes.Keys
    && (forall x :: x in s.mem.nodes && x != a ==> n.nodes[x].peer == s.mem.nodes[x].peer)
    && (forall x :: x in Addrs(TreeIn(s, Other(f))) && x in s.mem.nodes ==> n.nodes[x] == s.mem.nodes[x])
  }

  lemma FinishRemove(s: State, n: Mem, f: Family, a: Addr, t: Tree)
    requires ValidState(s) && a in Addrs(TreeIn(s, f)) && a in s.mem.nodes
    requires Represents(n, f, t) && Cut(s, n, f, a)
    requires Addrs(t) <= Addrs(TreeIn(s, f))
    requires a in Addrs(t) ==> a in n.nodes && n.nodes[a].peer == None
    requires forall x :: x in Addrs(TreeIn(s, f)) && x !in Addrs(t) && x != a && x in s.mem.nodes ==> s.mem.nodes[x].peer == None
    ensures ValidState(WithTree(State(n, Unlist(s.lists, s.mem.nodes[a].peer, a), s.next, s.tree4, s.tree6), f, t))
    ensures Reads(n, f, TableOf(t)) && Reads(n, Other(f), TableIn(s, Other(f)))
  {
    var o := Addrs(TreeIn(s, Other(f)));
    assert LiveIn(s) == Addrs(TreeIn(s, f)) + o;
    UnlistExact(s.lists, s.mem.nodes, LiveIn(s), n.nodes, Addrs(t) + o, a);
    Assemble(s, n, Unlist(s.lists, s.mem.nodes[a].peer, a), s.next, f, t);
  }

  lemma SameReads(m: Mem, n: Mem, f: Family, table: Table)
    requires Reads(m, f, table) && RootOf(n, f) == RootOf(m, f)
    requires forall x :: x in m.nodes ==> x in n.nodes && SameForReaders(m.nodes[x], n.nodes[x])
    ensures Reads(n, f, table)
  {
    var t :| Shape(m.nodes, RootOf(m, f), t) && Ordered(t, Width(f)) && TableOf(t) == table;
    FrameShape(m.nodes, n.nodes, RootOf(m, f), t);
  }

  /** The node to remove, where it hangs, and that it is the only one with its prefix. */
  ghost predicate RemovalPoint(s: State, f: Family, path: seq<bool>, d: Tree, slot: Slot) {
    var t := TreeIn(s, f);
    && ValidState(s) && OnTree(t, path) && d == Get(t, path) && d.Node?
    && d.addr in s.mem.nodes && slot == SlotOf(Root(f), t, path)
  }

  function Cleared(m: Mem, a: Addr): (n: Mem)
    requires a in m.nodes
  {
    m.(nodes := m.nodes[a := m.nodes[a].(peer := None)])
  }

  /** What remains of family `f`'s table. */
  function Remaining(s: State, f: Family, d: Tree): (m: Table) {
    TableIn(s, f) - {Prefix(d)}
  }

  lemma RemovalFacts(s: State, f: Family, path: seq<bool>, d: Tree, slot: Slot)
    requires RemovalPoint(s, f, path, d, slot)
    ensures Represents(s.mem, f, TreeIn(s, f))
    ensures d.addr in Addrs(TreeIn(s, f)) && d.addr !in Addrs(TreeIn(s, Other(f)))
    ensures s.mem.nodes[d.addr].parent == slot
    ensures Shape(s.mem.nodes, s.mem.nodes[d.addr].bit0, d.left) && Shape(s.mem.nodes, s.mem.nodes[d.addr].bit1, d.right)
    ensures path == [] <==> slot == Root(f)
    ensures path == [] ==> slot == Root(f)
    ensures path != [] ==> slot.Link? && slot.node in Addrs(TreeIn(s, f)) && slot.node in s.mem.nodes &&
                           slot.node !in Addrs(TreeIn(s, Other(f))) && slot.node != d.addr
  {
    SlotFacts(s, f, TreeIn(s, f), path, d, slot);
    assert d.addr in Addrs(d);
  }

  /** Step 1: clearing the peer. */
  lemma ClearDone(s: State, f: Family, path: seq<bool>, d: Tree, slot: Slot)
    requires RemovalPoint(s, f, path, d, slot)
    ensures var n := Cleared(s.mem, d.addr);
            Reads(n, f, Remaining(s, f, d)) && Reads(n, Other(f), TableIn(s, Other(f)))
  {
    RemovalFacts(s, f, path, d, slot);
    var n := Cleared(s.mem, d.addr);
    PublishClear(s.mem, n, f, TreeIn(s, f), path);
    FrameReads(s.mem, n, Other(f), TreeIn(s, Other(f)));
  }

  lemma KeepDone(s: State, f: Family, path: seq<bool>, d: Tree, slot: Slot) returns (t: Tree)
    requires RemovalPoint(s, f, path, d, slot) && d.left.Node? && d.right.Node?
    ensures var n := Cleared(s.mem, d.addr);
            Turned(f, s, WithTree(State(n, Unlist(s.lists, s.mem.nodes[d.addr].peer, d.addr), s.next, s.tree4, s.tree6), f, t),
                   Remaining(s, f, d), [n])
  {
    var n, t0 := Cleared(s.mem, d.addr), TreeIn(s, f);
    RemovalFacts(s, f, path, d, slot);
    PublishClear(s.mem, n, f, t0, path);
    t := RemoveAt(t0, path);
    RemoveCorrect(t0, path, Width(f));
    FinishRemove(s, n, f, d.addr, t);
  }

  /** The memories of the splice: peer cleared, child re-parented, slot stored. */
  ghost predicate SpliceLog(s: State, a: Addr, slot: Slot, child: Option<Addr>, log: seq<Mem>) {
    && a in s.mem.nodes && (slot.Link? ==> slot.node in s.mem.nodes) && (child.Some? ==> child.value in s.mem.nodes)
    && |log| == 3
    && log[0] == Cleared(s.mem, a)
    && log[1] == (if child.Some? then SetParent(log[0], child.value, slot) else log[0])
    && log[2] == StoreSlot(log[1], slot, child)
  }

  /** The net effect on memory, address by address. */
  ghost predicate SpliceEffect(s: State, n: Mem, f: Family, a: Addr, slot: Slot, child: Option<Addr>) {
    && n.nodes.Keys == s.mem.nodes.Keys
    && RootOf(n, f) == (if slot == Root(f) then child else RootOf(s.mem, f))
    && RootOf(n, Other(f)) == RootOf(s.mem, Other(f))
    && forall x :: x in s.mem.nodes && x != a ==>
         n.nodes[x] ==
           Stored(x, if Some(x) == child then s.mem.nodes[x].(parent := slot) else s.mem.nodes[x], slot, child)
  }

  lemma SpliceStores(s: State, f: Family, a: Addr, slot: Slot, child: Option<Addr>, log: seq<Mem>)
    requires SpliceLog(s, a, slot, child, log) && slot != Root(Other(f)) && child != Some(a)
    ensures SpliceEffect(s, log[2], f, a, slot, child)
    ensures forall x :: x in log[0].nodes ==> x in log[1].nodes && SameForReaders(log[0].nodes[x], log[1].nodes[x])
    ensures log[1].root4 == log[0].root4 && log[1].root6 == log[0].root6
  {
  }

  lemma EffectCut(s: State, n: Mem, f: Family, a: Addr, slot: Slot, child: Option<Addr>)
    requires SpliceEffect(s, n, f, a, slot, child)
    requires a !in Addrs(TreeIn(s, Other(f)))
    requires slot.Link? ==> slot.node !in Addrs(TreeIn(s, Other(f)))
    requires child.Some? ==> child.value !in Addrs(TreeIn(s, Other(f)))
    ensures Cut(s, n, f, a)
  {
  }

  lemma EffectHung(s: State, n: Mem, f: Family, t: Tree, path: seq<bool>, a: Addr, slot: Slot, child: Option<Addr>)
    requires SpliceEffect(s, n, f, a, slot, child)
    requires OnTree(t, path) && slot == SlotOf(Root(f), t, path) && (path == [] <==> slot == Root(f))
    ensures Hung(s.mem, n, f, t, path, child, Addrs(t) - {a})
  {
  }

  lemma SpliceMemory(s: State, f: Family, path: seq<bool>, d: Tree, slot: Slot, child: Option<Addr>, log: seq<Mem>)
    requires RemovalPoint(s, f, path, d, slot) && SpliceLog(s, d.addr, slot, child, log)
    requires child.Some? ==> child.value !in Addrs(TreeIn(s, Other(f))) && child.value != d.addr
    ensures Hung(s.mem, log[2], f, TreeIn(s, f), path, child, Addrs(TreeIn(s, f)) - {d.addr})
    ensures Cut(s, log[2], f, d.addr)
  {
    RemovalFacts(s, f, path, d, slot);
    SpliceStores(s, f, d.addr, slot, child, log);
    EffectCut(s, log[2], f, d.addr, slot, child);
    EffectHung(s, log[2], f, TreeIn(s, f), path, d.addr, slot, child);
  }

  lemma EarlyReads(s: State, f: Family, path: seq<bool>, d: Tree, slot: Slot, child: Option<Addr>, log: seq<Mem>)
    requires RemovalPoint(s, f, path, d, slot) && SpliceLog(s, d.addr, slot, child, log) && child != Some(d.addr)
    ensures Reads(log[0], f, Remaining(s, f, d)) && Reads(log[0], Other(f), TableIn(s, Other(f)))
    ensures Reads(log[1], f, Remaining(s, f, d)) && Reads(log[1], Other(f), TableIn(s, Other(f)))
  {
    RemovalFacts(s, f, path, d, slot);
    SpliceStores(s, f, d.addr, slot, child, log);
    ClearDone(s, f, path, d, slot);
    SameReads(log[0], log[1], f, Remaining(s, f, d));
    SameReads(log[0], log[1], Other(f), TableIn(s, Other(f)));
  }

  lemma LateReads(s: State, n: Mem, f: Family, path: seq<bool>, d: Tree, slot: Slot, child: Option<Addr>)
    requires RemovalPoint(s, f, path, d, slot) && !(d.left.Node? && d.right.Node?)
    requires child == (if d.left.Node? then s.mem.nodes[d.addr].bit0 else s.mem.nodes[d.addr].bit1)
    requires Cut(s, n, f, d.addr)
    requires Hung(s.mem, n, f, TreeIn(s, f), path, child, Addrs(TreeIn(s, f)) - {d.addr})
    ensures Reads(n, f, Remaining(s, f, d)) && Reads(n, Other(f), TableIn(s, Other(f)))
  {
    RemovalFacts(s, f, path, d, slot);
    PublishSplice(s.mem, n, f, TreeIn(s, f), path, child);
    FrameReads(s.mem, n, Other(f), TreeIn(s, Other(f)));
  }

  /** Step 2: every memory of the splice reads as the table without the entry. */
  lemma SpliceReads(s: State, f: Family, path: seq<bool>, d: Tree, slot: Slot, child: Option<Addr>, log: seq<Mem>)
    requires RemovalPoint(s, f, path, d, slot) && SpliceLog(s, d.addr, slot, child, log)
    requires !(d.left.Node? && d.right.Node?)
    requires child == (if d.left.Node? then s.mem.nodes[d.addr].bit0 else s.mem.nodes[d.addr].bit1)
    ensures Reads(log[0], f, Remaining(s, f, d)) && Reads(log[0], Other(f), TableIn(s, Other(f)))
    ensures Reads(log[1], f, Remaining(s, f, d)) && Reads(log[1], Other(f), TableIn(s, Other(f)))
    ensures Reads(log[2], f, Remaining(s, f, d)) && Reads(log[2], Other(f), TableIn(s, Other(f)))
    ensures Cut(s, log[2], f, d.addr)
    ensures Hung(s.mem, log[2], f, TreeIn(s, f), path, child, Addrs(TreeIn(s, f)) - {d.addr})
  {
    ChildInTree(s, f, path, d, slot, child);
    SpliceMemory(s, f, path, d, slot, child, log);
    EarlyReads(s, f, path, d, slot, child, log);
    LateReads(s, log[2], f, path, d, slot, child);
  }

  lemma ChildInTree(s: State, f: Family, path: seq<bool>, d: Tree, slot: Slot, child: Option<Addr>)
    requires RemovalPoint(s, f, path, d, slot)
    requires child == (if d.left.Node? then s.mem.nodes[d.addr].bit0 else s.mem.nodes[d.addr].bit1)
    ensures child.Some? ==> child.value in Addrs(TreeIn(s, f)) && child.value != d.addr && child.value in s.mem.nodes
    ensures child.Some? ==> child.value !in Addrs(TreeIn(s, Other(f)))
  {
    RemovalFacts(s, f, path, d, slot);
    var t := TreeIn(s, f);
    GetAddrs(t, path);
    var c := if d.left.Node? then d.left else d.right;
    assert Shape(s.mem.nodes, child, c);
    if c.Node? {
      assert c.addr in Addrs(c) && Addrs(c) <= Addrs(d);
    }
  }

  lemma SpliceDone(s: State, r: State, f: Family, path: seq<bool>, d: Tree, slot: Slot, child: Option<Addr>, log: seq<Mem>)
    returns (t: Tree)
    requires RemovalPoint(s, f, path, d, slot) && SpliceLog(s, d.addr, slot, child, log)
    requires !(d.left.Node? && d.right.Node?)
    requires child == (if d.left.Node? then s.mem.nodes[d.addr].bit0 else s.mem.nodes[d.addr].bit1)
    requires IsLeaf(d) && slot.Link? && slot.node in s.mem.nodes ==> s.mem.nodes[slot.node].peer.Some?
    requires r == State(log[2], Unlist(s.lists, s.mem.nodes[d.addr].peer, d.addr), s.next, s.tree4, s.tree6)
    ensures Turned(f, s, WithTree(r, f, t), Remaining(s, f, d), log)
  {
    SpliceReads(s, f, path, d, slot, child, log);
    t := SpliceTree(s, log[2], f, path, d, slot, child);
    RemovedLog(s, WithTree(r, f, t), f, Remaining(s, f, d), log);
  }

  lemma SpliceTree(s: State, n: Mem, f: Family, path: seq<bool>, d: Tree, slot: Slot, child: Option<Addr>) returns (t: Tree)
    requires RemovalPoint(s, f, path, d, slot) && !(d.left.Node? && d.right.Node?)
    requires child == (if d.left.Node? then s.mem.nodes[d.addr].bit0 else s.mem.nodes[d.addr].bit1)
    requires IsLeaf(d) && slot.Link? && slot.node in s.mem.nodes ==> s.mem.nodes[slot.node].peer.Some?
    requires Cut(s, n, f, d.addr)
    requires Hung(s.mem, n, f, TreeIn(s, f), path, child, Addrs(TreeIn(s, f)) - {d.addr})
    ensures TableOf(t) == Remaining(s, f, d)
    ensures ValidState(WithTree(State(n, Unlist(s.lists, s.mem.nodes[d.addr].peer, d.addr), s.next, s.tree4, s.tree6), f, t))
  {
    var t0 := TreeIn(s, f);
    RemovalFacts(s, f, path, d, slot);
    SpliceIsRemoval(s, f, path, d, slot);
    PublishSplice(s.mem, n, f, t0, path, child);
    t := RemoveAt(t0, path);
    RemoveCorrect(t0, path, Width(f));
    FinishRemove(s, n, f, d.addr, t);
  }

  /** Three memories that all read as the new table. */
  lemma RemovedLog(s: State, r: State, f: Family, table: Table, log: seq<Mem>)
    requires ValidState(r) && TableIn(r, f) == table && TableIn(r, Other(f)) == TableIn(s, Other(f)) && |log| == 3
    requires Reads(log[0], f, table) && Reads(log[0], Other(f), TableIn(s, Other(f)))
    requires Reads(log[1], f, table) && Reads(log[1], Other(f), TableIn(s, Other(f)))
    requires Reads(log[2], f, table) && Reads(log[2], Other(f), TableIn(s, Other(f)))
    ensures Turned(f, s, r, table, log)
  {
    EachReads(f, table, TableIn(s, Other(f)), log);
  }

  lemma EachReads(f: Family, table: Table, other: Table, log: seq<Mem>)
    requires |log| == 3
    requires Reads(log[0], f, table) && Reads(log[0], Other(f), other)
    requires Reads(log[1], f, table) && Reads(log[1], Other(f), other)
    requires Reads(log[2], f, table) && Reads(log[2], Other(f), other)
    ensures forall i :: 0 <= i < 3 ==> Reads(log[i], f, table) && Reads(log[i], Other(f), other)
  {
    forall i | 0 <= i < 3 ensures Reads(log[i], f, table) && Reads(log[i], Other(f), other) {
      assert i == 0 || i == 1 || i == 2;
    }
  }

  /** The owner of the slot is the node one step up the path. */
  lemma UpNode(s: State, f: Family, path: seq<bool>, d: Tree, slot: Slot) returns (up: seq<bool>, p: Tree)
    requires RemovalPoint(s, f, path, d, slot) && path != []
    ensures up == path[..|path| - 1] && OnTree(TreeIn(s, f), up) && p == Get(TreeIn(s, f), up) && p.Node?
    ensures slot == Link(p.addr, path[|path| - 1]) && d == Child(p, path[|path| - 1])
    ensures p.addr in s.mem.nodes && s.mem.nodes[p.addr].peer == p.peer
    ensures RemovalPoint(s, f, up, p, SlotOf(Root(f), TreeIn(s, f), up))
  {
    var t := TreeIn(s, f);
    RemovalFacts(s, f, path, d, slot);
    RemoveIsPut(t, path);
    up := path[..|path| - 1];
    p := Get(t, up);
    StepPath(Root(f), t, up, path[|path| - 1]);
    assert up + [path[|path| - 1]] == path;
    SlotFacts(s, f, t, up, p, SlotOf(Root(f), t, up));
  }

  lemma SpliceIsRemoval(s: State, f: Family, path: seq<bool>, d: Tree, slot: Slot)
    requires RemovalPoint(s, f, path, d, slot)
    requires IsLeaf(d) && slot.Link? && slot.node in s.mem.nodes ==> s.mem.nodes[slot.node].peer.Some?
    ensures RemoveAt(TreeIn(s, f), path) == Put(TreeIn(s, f), path, Splice(d))
  {
    RemoveIsPut(TreeIn(s, f), path);
    if path != [] {
      var up, p := UpNode(s, f, path, d, slot);
    }
  }

  /** The two further stores when a peerless parent `p` goes as well. */
  ghost predicate ParentLog(s: State, a: Addr, slot: Slot, above: Slot, child: Option<Addr>, log: seq<Mem>, n: Mem, n': Mem) {
    && SpliceLog(s, a, slot, None, log) && log[2].nodes.Keys == s.mem.nodes.Keys
    && (above.Link? ==> above.node in s.mem.nodes) && (child.Some? ==> child.value in s.mem.nodes)
    && n == (if child.Some? then SetParent(log[2], child.value, above) else log[2])
    && n' == StoreSlot(n, above, child)
  }

  ghost predicate ParentEffect(s: State, n: Mem, f: Family, a: Addr, p: Addr, above: Slot, child: Option<Addr>) {
    && n.nodes.Keys == s.mem.nodes.Keys
    && RootOf(n, f) == (if above == Root(f) then child else RootOf(s.mem, f))
    && RootOf(n, Other(f)) == RootOf(s.mem, Other(f))
    && (p in n.nodes && p in s.mem.nodes ==> n.nodes[p].peer == s.mem.nodes[p].peer)
    && forall x :: x in s.mem.nodes && x != a && x != p ==>
         n.nodes[x] ==
           Stored(x, if Some(x) == child then s.mem.nodes[x].(parent := above) else s.mem.nodes[x], above, child)
  }

  lemma ParentStores(s: State, f: Family, a: Addr, p: Addr, b: bool, above: Slot, child: Option<Addr>, log: seq<Mem>, n: Mem, n': Mem)
    requires ParentLog(s, a, Link(p, b), above, child, log, n, n') && above != Root(Other(f)) && p != a
    requires above.Link? ==> above.node != p
    ensures ParentEffect(s, n', f, a, p, above, child)
    ensures forall x :: x in log[2].nodes ==> x in n.nodes && SameForReaders(log[2].nodes[x], n.nodes[x])
    ensures n.root4 == log[2].root4 && n.root6 == log[2].root6
  {
    SpliceStores(s, f, a, Link(p, b), None, log);
    var m := log[2];
    assert forall x :: x in s.mem.nodes && x != a && x != p ==> m.nodes[x] == s.mem.nodes[x];
    assert m.nodes[p].peer == s.mem.nodes[p].peer;
    assert m.root4 == s.mem.root4 && m.root6 == s.mem.root6;
    SecondStores(s, m, f, a, p, above, child, n, n');
  }

  lemma ChildStored(m: Mem, above: Slot, child: Option<Addr>, n: Mem)
    requires child.Some? ==> child.value in m.nodes
    requires n == (if child.Some? then SetParent(m, child.value, above) else m)
    ensures n.nodes.Keys == m.nodes.Keys && n.root4 == m.root4 && n.root6 == m.root6
    ensures forall x :: x in m.nodes ==> SameForReaders(m.nodes[x], n.nodes[x])
    ensures forall x :: x in m.nodes ==> n.nodes[x] == if Some(x) == child then m.nodes[x].(parent := above) else m.nodes[x]
  {
  }

  lemma SecondStores(s: State, m: Mem, f: Family, a: Addr, p: Addr, above: Slot, child: Option<Addr>, n: Mem, n': Mem)
    requires m.nodes.Keys == s.mem.nodes.Keys && m.root4 == s.mem.root4 && m.root6 == s.mem.root6
    requires forall x :: x in s.mem.nodes && x != a && x != p ==> m.nodes[x] == s.mem.nodes[x]
    requires p in s.mem.nodes && m.nodes[p].peer == s.mem.nodes[p].peer
    requires (above.Link? ==> above.node in s.mem.nodes) && (child.Some? ==> child.value in s.mem.nodes)
    requires above != Root(Other(f))
    requires n == (if child.Some? then SetParent(m, child.value, above) else m)
    requires n' == StoreSlot(n, above, child)
    ensures ParentEffect(s, n', f, a, p, above, child)
    ensures forall x :: x in m.nodes ==> x in n.nodes && SameForReaders(m.nodes[x], n.nodes[x])
    ensures n.root4 == m.root4 && n.root6 == m.root6
  {
    ChildStored(m, above, child, n);
    SlotStored(s, n, f, a, p, above, child, n');
  }

  lemma SlotStored(s: State, n: Mem, f: Family, a: Addr, p: Addr, above: Slot, child: Option<Addr>, n': Mem)
    requires n.nodes.Keys == s.mem.nodes.Keys && n.root4 == s.mem.root4 && n.root6 == s.mem.root6
    requires forall x :: x in s.mem.nodes && x != a && x != p ==>
               n.nodes[x] == if Some(x) == child then s.mem.nodes[x].(parent := above) else s.mem.nodes[x]
    requires p in s.mem.nodes && n.nodes[p].peer == s.mem.nodes[p].peer
    requires (above.Link? ==> above.node in s.mem.nodes) && above != Root(Other(f)) && n' == StoreSlot(n, above, child)
    ensures ParentEffect(s, n', f, a, p, above, child)
  {
  }

  lemma ParentCut(s: State, n: Mem, f: Family, a: Addr, p: Addr, above: Slot, child: Option<Addr>)
    requires ParentEffect(s, n, f, a, p, above, child)
    requires a !in Addrs(TreeIn(s, Other(f))) && p !in Addrs(TreeIn(s, Other(f)))
    requires above.Link? ==> above.node !in Addrs(TreeIn(s, Other(f)))
    requires child.Some? ==> child.value !in Addrs(TreeIn(s, Other(f)))
    ensures Cut(s, n, f, a)
  {
  }

  lemma ParentHung(s: State, n: Mem, f: Family, t: Tree, up: seq<bool>, a: Addr, p: Addr, above: Slot, child: Option<Addr>)
    requires ParentEffect(s, n, f, a, p, above, child)
    requires OnTree(t, up) && above == SlotOf(Root(f), t, up) && (up == [] <==> above == Root(f))
    ensures Hung(s.mem, n, f, t, up, child, Addrs(t) - {a, p})
  {
  }

  /** The situation in which the parent is freed too. */
  ghost predicate ParentPoint(s: State, f: Family, path: seq<bool>, d: Tree, slot: Slot, p: Tree, above: Slot, child: Option<Addr>) {
    && RemovalPoint(s, f, path, d, slot) && IsLeaf(d) && path != []
    && var up, b := path[..|path| - 1], path[|path| - 1];
    && RemovalPoint(s, f, up, p, above)
    && slot == Link(p.addr, b) && d == Child(p, b) && p.peer.None?
    && child == Bit(s.mem.nodes[p.addr], !b)
  }

  lemma SiblingInTree(s: State, f: Family, path: seq<bool>, d: Tree, slot: Slot, p: Tree, above: Slot, child: Option<Addr>)
    requires ParentPoint(s, f, path, d, slot, p, above, child)
    ensures child.Some? ==> child.value in s.mem.nodes && child.value !in Addrs(TreeIn(s, Other(f)))
    ensures p.addr != d.addr
    ensures above.Link? ==> above.node != p.addr
  {
    var up, b := path[..|path| - 1], path[|path| - 1];
    var t := TreeIn(s, f);
    RemovalFacts(s, f, path, d, slot);
    RemovalFacts(s, f, up, p, above);
    GetAddrs(t, up);
    var c := Child(p, !b);
    assert Shape(s.mem.nodes, child, c);
    if c.Node? {
      assert c.addr in Addrs(c) && Addrs(c) <= Addrs(p);
    }
  }

  lemma ParentMemory(s: State, f: Family, path: seq<bool>, d: Tree, slot: Slot, p: Tree, above: Slot, child: Option<Addr>, log: seq<Mem>, n: Mem, n': Mem)
    requires ParentPoint(s, f, path, d, slot, p, above, child) && ParentLog(s, d.addr, slot, above, child, log, n, n')
    ensures Cut(s, n', f, d.addr)
    ensures Hung(s.mem, n', f, TreeIn(s, f), path[..|path| - 1], child, Addrs(TreeIn(s, f)) - {d.addr, p.addr})
    ensures forall x :: x in log[2].nodes ==> x in n.nodes && SameForReaders(log[2].nodes[x], n.nodes[x])
    ensures n.root4 == log[2].root4 && n.root6 == log[2].root6
  {
    var up, b := path[..|path| - 1], path[|path| - 1];
    RemovalFacts(s, f, path, d, slot);
    RemovalFacts(s, f, up, p, above);
    SiblingInTree(s, f, path, d, slot, p, above, child);
    ParentStores(s, f, d.addr, p.addr, b, above, child, log, n, n');
    ParentCut(s, n', f, d.addr, p.addr, above, child);
    ParentHung(s, n', f, TreeIn(s, f), up, d.addr, p.addr, above, child);
  }

  /** A log in which the operation has already taken effect. */
  lemma EffectiveLog(s: State, r: State, f: Family, table: Table, log: seq<Mem>, n: Mem, n': Mem)
    requires ValidState(r) && |log| == 3
    requires TableIn(r, f) == table && TableIn(r, Other(f)) == TableIn(s, Other(f))
    requires forall i :: 0 <= i < 3 ==> Reads(log[i], f, table) && Reads(log[i], Other(f), TableIn(s, Other(f)))
    requires Reads(n, f, table) && Reads(n, Other(f), TableIn(s, Other(f)))
    requires Reads(n', f, table) && Reads(n', Other(f), TableIn(s, Other(f)))
    ensures Turned(f, s, r, table, log + [n, n'])
  {
    var l := log + [n, n'];
    forall i | 0 <= i < |l| ensures Reads(l[i], f, table) && Reads(l[i], Other(f), TableIn(s, Other(f))) {
      if i < 3 { assert l[i] == log[i]; }
    }
  }

  lemma ParentFinish(s: State, n: Mem, f: Family, a: Addr, p: Addr, t: Tree)
    requires ValidState(s) && a in Addrs(TreeIn(s, f)) && a in s.mem.nodes
    requires Represents(n, f, t) && Cut(s, n, f, a)
    requires Addrs(t) == Addrs(TreeIn(s, f)) - {a} - {p}
    requires p in s.mem.nodes ==> s.mem.nodes[p].peer == None
    ensures ValidState(WithTree(State(n, Unlist(s.lists, s.mem.nodes[a].peer, a), s.next, s.tree4, s.tree6), f, t))
    ensures Reads(n, f, TableOf(t)) && Reads(n, Other(f), TableIn(s, Other(f)))
  {
    FinishRemove(s, n, f, a, t);
  }

  lemma ParentDone(s: State, f: Family, path: seq<bool>, d: Tree, slot: Slot, p: Tree, above: Slot, child: Option<Addr>, log: seq<Mem>, n: Mem, n': Mem)
    returns (t: Tree)
    requires ParentPoint(s, f, path, d, slot, p, above, child) && ParentLog(s, d.addr, slot, above, child, log, n, n')
    ensures Turned(f, s, WithTree(State(n', Unlist(s.lists, s.mem.nodes[d.addr].peer, d.addr), s.next, s.tree4, s.tree6), f, t),
                   Remaining(s, f, d), log + [n, n'])
  {
    ParentMemory(s, f, path, d, slot, p, above, child, log, n, n');
    ParentReads(s, f, path, d, slot, p, above, child, log, n, n');
    t := ParentTree(s, n', f, path, d, slot, p, above, child);
    ParentFinish(s, n', f, d.addr, p.addr, t);
    EffectiveLog(s, WithTree(State(n', Unlist(s.lists, s.mem.nodes[d.addr].peer, d.addr), s.next, s.tree4, s.tree6), f, t),
                 f, Remaining(s, f, d), log, n, n');
  }

  lemma ParentReads(s: State, f: Family, path: seq<bool>, d: Tree, slot: Slot, p: Tree, above: Slot, child: Option<Addr>, log: seq<Mem>, n: Mem, n': Mem)
    requires ParentPoint(s, f, path, d, slot, p, above, child) && ParentLog(s, d.addr, slot, above, child, log, n, n')
    requires forall x :: x in log[2].nodes ==> x in n.nodes && SameForReaders(log[2].nodes[x], n.nodes[x])
    requires n.root4 == log[2].root4 && n.root6 == log[2].root6
    ensures forall i :: 0 <= i < 3 ==> Reads(log[i], f, Remaining(s, f, d)) && Reads(log[i], Other(f), TableIn(s, Other(f)))
    ensures Reads(n, f, Remaining(s, f, d)) && Reads(n, Other(f), TableIn(s, Other(f)))
  {
    RemovalFacts(s, f, path, d, slot);
    SpliceReads(s, f, path, d, slot, None, log);
    EachReads(f, Remaining(s, f, d), TableIn(s, Other(f)), log);
    SameReads(log[2], n, f, Remaining(s, f, d));
    SameReads(log[2], n, Other(f), TableIn(s, Other(f)));
  }

  lemma ParentTree(s: State, n: Mem, f: Family, path: seq<bool>, d: Tree, slot: Slot, p: Tree, above: Slot, child: Option<Addr>)
    returns (t: Tree)
    requires ParentPoint(s, f, path, d, slot, p, above, child)
    requires Hung(s.mem, n, f, TreeIn(s, f), path[..|path| - 1], child, Addrs(TreeIn(s, f)) - {d.addr, p.addr})
    ensures Represents(n, f, t) && TableOf(t) == Remaining(s, f, d)
    ensures Addrs(t) == Addrs(TreeIn(s, f)) - {d.addr} - {p.addr}
    ensures d.addr in Addrs(TreeIn(s, f)) && s.mem.nodes[p.addr].peer == None
  {
    var t0 := TreeIn(s, f);
    RemovalFacts(s, f, path, d, slot);
    RemovalFacts(s, f, path[..|path| - 1], p, above);
    SlotFacts(s, f, t0, path[..|path| - 1], p, above);
    PublishParentFree(s.mem, n, f, t0, path, child);
    RemoveCorrect(t0, path, Width(f));
    t := RemoveAt(t0, path);
  }

  /** After the splice the parent's peer, parent link and other child are as before. */
  lemma PeekParent(s: State, f: Family, path: seq<bool>, d: Tree, slot: Slot, child: Option<Addr>, log: seq<Mem>)
    requires RemovalPoint(s, f, path, d, slot) && SpliceLog(s, d.addr, slot, child, log) && child != Some(d.addr)
    ensures log[2].nodes.Keys == s.mem.nodes.Keys
    ensures slot.Link? ==>
              slot.node in s.mem.nodes && log[2].nodes[slot.node].peer == s.mem.nodes[slot.node].peer
    ensures slot.Link? && child.None? ==>
              log[2].nodes[slot.node].parent == s.mem.nodes[slot.node].parent &&
              Bit(log[2].nodes[slot.node], !slot.bit) == Bit(s.mem.nodes[slot.node], !slot.bit)
  {
    RemovalFacts(s, f, path, d, slot);
    SpliceStores(s, f, d.addr, slot, child, log);
  }

  lemma ParentSituation(s: State, f: Family, path: seq<bool>, d: Tree, slot: Slot)
    returns (p: Tree, up: seq<bool>, above: Slot, child: Option<Addr>)
    requires RemovalPoint(s, f, path, d, slot) && IsLeaf(d) && slot.Link? && slot.node in s.mem.nodes
    requires s.mem.nodes[slot.node].peer.None?
    ensures above == s.mem.nodes[slot.node].parent && child == Bit(s.mem.nodes[slot.node], !slot.bit)
    ensures ParentPoint(s, f, path, d, slot, p, above, child)
    ensures (above.Link? ==> above.node in s.mem.nodes) && (child.Some? ==> child.value in s.mem.nodes)
  {
    RemovalFacts(s, f, path, d, slot);
    up, p := UpNode(s, f, path, d, slot);
    above := SlotOf(Root(f), TreeIn(s, f), up);
    child := Bit(s.mem.nodes[p.addr], !slot.bit);
    RemovalFacts(s, f, up, p, above);
    SiblingInTree(s, f, path, d, slot, p, above, child);
  }

  // ---------------------------------------------------------------- removal by key and by peer

  function AfterRemove(m: Table, k: Key, p: Peer): (r: Table) {
    if k in m && m[k] == p then m - {k} else m
  }

  function WithoutPeer(m: Table, p: Peer): (r: Table) {
    map k | k in m && m[k] != p :: m[k]
  }

  /** A live node with a peer: where it is and which entry it is. */
  lemma LocateNode(s: State, a: Addr, p: Peer) returns (f: Family, path: seq<bool>, d: Tree, slot: Slot)
    requires ValidState(s) && a in LiveIn(s) && a in s.mem.nodes && s.mem.nodes[a].peer == Some(p)
    ensures RemovalPoint(s, f, path, d, slot) && d.addr == a
    ensures Prefix(d) in TableIn(s, f) && TableIn(s, f)[Prefix(d)] == p
  {
    f := if a in Addrs(s.tree4) then V4 else V6;
    var t := TreeIn(s, f);
    path := PathOf(t, a);
    d := Get(t, path);
    slot := SlotOf(Root(f), t, path);
    SlotFacts(s, f, t, path, d, slot);
    TableAt(t, path, Width(f));
  }

  /** Every entry is carried by a node. */
  lemma {:induction false} CarrierOf(m: Nodes, q: Option<Addr>, t: Tree, w: nat, k: Key) returns (a: Addr)
    requires Shape(m, q, t) && Ordered(t, w) && k in TableOf(t)
    ensures a in Addrs(t) && a in m && m[a].peer == Some(TableOf(t)[k])
    decreases t
  {
    TableSplit(t, w);
    if k in TableOf(t.left) {
      a := CarrierOf(m, m[t.addr].bit0, t.left, w, k);
    } else if k in TableOf(t.right) {
      a := CarrierOf(m, m[t.addr].bit1, t.right, w, k);
    } else {
      a := t.addr;
    }
  }

  /** An empty list means that no entry of either table names the peer. */
  lemma EmptyListNoEntry(s: State, p: Peer, f: Family, k: Key)
    requires ValidState(s) && ListOf(s.lists, p) == [] && k in TableIn(s, f)
    ensures TableIn(s, f)[k] != p
  {
    var a := CarrierOf(s.mem.nodes, RootOf(s.mem, f), TreeIn(s, f), Width(f), k);
    assert !OnList(s.lists, p, a);
    assert !Carries(s.mem.nodes, LiveIn(s), p, a);
  }

  /** What the loop of `remove_by_peer` has done so far: only entries of `p` are gone. */
  ghost predicate OnlyLost(before: Table, after: Table, p: Peer) {
    && (forall k :: k in after ==> k in before && after[k] == before[k])
    && (forall k :: k in before && k !in after ==> before[k] == p)
  }

  /** In the end all of them are, and nothing else. */
  ghost predicate ExactlyLost(before: Table, after: Table, p: Peer) {
    && (forall k :: k in after <==> k in before && before[k] != p)
    && (forall k :: k in after ==> after[k] == before[k])
  }

  lemma AllLost(s0: State, s: State, f: Family, p: Peer)
    requires ValidState(s) && ListOf(s.lists, p) == [] && OnlyLost(TableIn(s0, f), TableIn(s, f), p)
    ensures TableIn(s, f) == WithoutPeer(TableIn(s0, f), p) && ExactlyLost(TableIn(s0, f), TableIn(s, f), p)
  {
    forall k | k in TableIn(s, f) ensures TableIn(s, f)[k] != p { EmptyListNoEntry(s, p, f, k); }
  }

  /** A memory in the middle of it reads as the map without some entries of `p`. */
  ghost predicate ReadsPart(m: Mem, f: Family, before: Table, p: Peer) {
    exists table :: Reads(m, f, table) && OnlyLost(before, table, p)
  }

  ghost predicate PartlyRemoved(m: Mem, before: State, p: Peer) {
    ReadsPart(m, V4, TableIn(before, V4), p) && ReadsPart(m, V6, TableIn(before, V6), p)
  }

  lemma StepReadsPart(m: Mem, f: Family, before: Table, s: Table, r: Table, p: Peer)
    requires ReadsOneOf(m, f, s, r) && OnlyLost(before, s, p) && OnlyLost(before, r, p)
    ensures ReadsPart(m, f, before, p)
  {
  }

  lemma StepsRemove(s0: State, s: State, r: State, f: Family, p: Peer, log: seq<Mem>)
    requires Turned(f, s, r, TableIn(r, f), log)
    requires OnlyLost(TableIn(s0, f), TableIn(s, f), p) && OnlyLost(TableIn(s0, f), TableIn(r, f), p)
    requires OnlyLost(TableIn(s0, Other(f)), TableIn(s, Other(f)), p)
    ensures forall i :: 0 <= i < |log| ==> PartlyRemoved(log[i], s0, p)
  {
    forall i | 0 <= i < |log| ensures PartlyRemoved(log[i], s0, p) {
      assert ReadsOneOf(log[i], f, TableIn(s, f), TableIn(r, f)) && Reads(log[i], Other(f), TableIn(s, Other(f)));
      StepReadsPart(log[i], f, TableIn(s0, f), TableIn(s, f), TableIn(r, f), p);
      assert ReadsPart(log[i], Other(f), TableIn(s0, Other(f)), p);
    }
  }

  lemma FirstWithout(a: Addr, rest: seq<Addr>)
    requires NoDup([a] + rest)
    ensures Without([a] + rest, a) == rest
  {
    assert ([a] + rest)[1..] == rest;
    forall i | 0 <= i < |rest| ensures rest[i] != a {
      assert ([a] + rest)[0] != ([a] + rest)[i + 1];
    }
    WithoutAbsent(rest, a);
  }

  /** What the walk of `remove` tells about the entry in question. */
  lemma RemoveTarget(s: State, f: Family, key: Key, cidr: nat, exact: bool, node: Option<Addr>)
    returns (path: seq<bool>, d: Tree, slot: Slot)
    requires ValidState(s) && |key| == Width(f) && cidr <= |key| && Ordered(TreeIn(s, f), |key|)
    requires Placed(s.mem, f, TreeIn(s, f), key, cidr, exact, node)
    ensures !exact ==> key[..cidr] !in TableIn(s, f)
    ensures exact ==>
              RemovalPoint(s, f, path, d, slot) && node == Some(d.addr) && Prefix(d) == key[..cidr] &&
              s.mem.nodes[d.addr].peer == (if key[..cidr] in TableIn(s, f) then Some(TableIn(s, f)[key[..cidr]]) else None)
  {
    var t := TreeIn(s, f);
    path, d := PlacedPoint(s, f, key, cidr, exact, node);
    slot := SlotOf(Root(f), t, path);
    ExactOrAbsent(t, key, cidr);
    if exact {
      SlotFacts(s, f, t, path, d, slot);
      TableAt(t, path, Width(f));
    }
  }

  // ---------------------------------------------------------------- the logs are the stores

  lemma SpliceIsStores(s: State, a: Addr, slot: Slot, child: Option<Addr>, log: seq<Mem>)
    requires SpliceLog(s, a, slot, child, log)
    ensures StoreByStore(s.mem, log)
  {
    SetPeerIsOneStore(s.mem, a, None);
    if child.Some? { SetParentIsOneStore(log[0], child.value, slot); }
    StoreSlotIsOneStore(log[1], slot, child);
  }

  lemma ParentIsStores(s: State, a: Addr, slot: Slot, above: Slot, child: Option<Addr>, log: seq<Mem>, n: Mem, n': Mem)
    requires ParentLog(s, a, slot, above, child, log, n, n')
    ensures StoreByStore(s.mem, log + [n, n'])
  {
    SpliceIsStores(s, a, slot, None, log);
    if child.Some? { SetParentIsOneStore(log[2], child.value, above); }
    StoreSlotIsOneStore(n, above, child);
    assert StoreByStore(log[2], [n, n']);
    StoresAppend(s.mem, log, [n, n']);
  }
}
