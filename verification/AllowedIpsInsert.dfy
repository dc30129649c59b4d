/** The stores of an insertion: each of its three cases, from the memory up to the table. */
module AllowedIpsInsert {
  import opened Common
  import opened TrieTree
  import opened TrieOps
  import opened TrieHeap
  import opened TrieMem
  import opened AllowedIpsState

  /** Where an insertion of `key[..cidr]` ends, when there is no exact node. */
  ghost predicate InsertionPoint(s: State, f: Family, key: Key, cidr: nat, path: seq<bool>, d: Tree, slot: Slot) {
    var t := TreeIn(s, f);
    && ValidState(s) && |key| == Width(f) && cidr <= |key| && Ordered(t, |key|)
    && path == StopPath(t, key, cidr) && d == Get(t, path) && slot == SlotOf(Root(f), t, path)
    && Ordered(d, |key|) && !Descends(d, key, cidr)
    && (slot.Link? ==> slot.node in s.mem.nodes)
    && (d.Node? ==> d.addr in s.mem.nodes)
  }

  /** Everything the three cases need about the insertion point. */
  lemma PointFacts(s: State, f: Family, key: Key, cidr: nat, path: seq<bool>, d: Tree, slot: Slot)
    requires InsertionPoint(s, f, key, cidr, path, d, slot)
    ensures path == [] <==> slot == Root(f)
    ensures slot != Root(Other(f))
    ensures slot.Link? ==> slot.node in Addrs(TreeIn(s, f)) && slot.node !in Addrs(d)
    ensures slot.Link? ==> slot.node !in Addrs(TreeIn(s, Other(f))) && slot.node < s.next
    ensures d.Node? ==> d.addr in Addrs(d) && d.addr !in Addrs(TreeIn(s, Other(f))) && d.addr < s.next
    ensures d.Node? ==> Shape(s.mem.nodes, Some(d.addr), d)
    ensures Linked(s.mem.nodes, slot, d) && Distinct(d)
    ensures s.next !in s.mem.nodes && s.next + 1 !in s.mem.nodes
  {
    SlotFacts(s, f, TreeIn(s, f), path, d, slot);
  }

  /** Case 1 of `add`: the slot is empty. */
  lemma LeafGrafting(s: State, f: Family, key: Key, cidr: nat, peer: Peer, slot: Slot, path: seq<bool>, n: Mem)
    requires InsertionPoint(s, f, key, cidr, path, Nil, slot)
    requires n == ConnectNode(Alloc(s.mem, s.next, Some(peer), key, cidr, f), slot, s.next)
    ensures Published(s.mem, n, f, TreeIn(s, f), path, Leaf(s.next, key, cidr, peer))
    ensures Elsewhere(s, n, f, peer)
  {
    PointFacts(s, f, key, cidr, path, Nil, slot);
    LeafMemory(s, f, key, cidr, peer, slot, n);
    LeafInMemory(n.nodes, key, cidr, peer, s.next, slot);
    GraftPublished(s, n, f, TreeIn(s, f), path, Leaf(s.next, key, cidr, peer), slot, None, slot);
    GraftElsewhere(s, n, f, peer, slot, s.next, None, slot);
  }

  lemma LeafMemory(s: State, f: Family, key: Key, cidr: nat, peer: Peer, slot: Slot, n: Mem)
    requires s.next !in s.mem.nodes && s.next + 1 !in s.mem.nodes && slot != Root(Other(f))
    requires slot.Link? ==> slot.node in s.mem.nodes
    requires n == ConnectNode(Alloc(s.mem, s.next, Some(peer), key, cidr, f), slot, s.next)
    ensures Grafting(s, n, f, slot, s.next, None, slot)
    ensures s.next in n.nodes && n.nodes[s.next] == HNode(Some(peer), None, None, cidr, key, slot)
    ensures s.next + 1 !in n.nodes
  {
  }

  lemma LeafComplete(s: State, f: Family, key: Key, cidr: nat, peer: Peer, slot: Slot, path: seq<bool>, n: Mem)
    returns (t: Tree)
    requires InsertionPoint(s, f, key, cidr, path, Nil, slot)
    requires n == ConnectNode(Alloc(s.mem, s.next, Some(peer), key, cidr, f), slot, s.next)
    ensures ValidState(WithTree(State(n, Append(s.lists, peer, s.next), s.next + 2, s.tree4, s.tree6), f, t))
    ensures TableOf(t) == TableIn(s, f)[key[..cidr] := peer]
    ensures Reads(n, f, TableOf(t)) && Reads(n, Other(f), TableIn(s, Other(f)))
  {
    LeafGrafting(s, f, key, cidr, peer, slot, path, n);
    t := CompleteInsert(s, n, f, key, cidr, peer, path, TreeIn(s, f), Nil, Leaf(s.next, key, cidr, peer));
  }

  ghost predicate LeafLog(s: State, f: Family, key: Key, cidr: nat, peer: Peer, slot: Slot, log: seq<Mem>) {
    && (slot.Link? ==> slot.node in s.mem.nodes)
    && |log| == 3 && log[0] == Alloc(s.mem, s.next, Some(peer), key, cidr, f)
    && log[1] == SetParent(log[0], s.next, slot) && log[2] == StoreSlot(log[1], slot, Some(s.next))
  }

  lemma LeafDone(s: State, r: State, f: Family, key: Key, cidr: nat, peer: Peer, slot: Slot, path: seq<bool>, log: seq<Mem>)
    returns (t: Tree)
    requires InsertionPoint(s, f, key, cidr, path, Nil, slot) && LeafLog(s, f, key, cidr, peer, slot, log)
    requires r == State(log[2], Append(s.lists, peer, s.next), s.next + 2, s.tree4, s.tree6)
    ensures Turned(f, s, WithTree(r, f, t), TableIn(s, f)[key[..cidr] := peer], log)
  {
    PointFacts(s, f, key, cidr, path, Nil, slot);
    LeafQuiet(s, f, key, cidr, peer, slot, log);
    t := LeafComplete(s, f, key, cidr, peer, slot, path, log[2]);
    QuietLog(s, WithTree(r, f, t), f, TableIn(s, f)[key[..cidr] := peer], log);
  }

  lemma LeafQuiet(s: State, f: Family, key: Key, cidr: nat, peer: Peer, slot: Slot, log: seq<Mem>)
    requires s.next !in s.mem.nodes && LeafLog(s, f, key, cidr, peer, slot, log)
    ensures forall i :: 0 <= i < 2 ==> Quiet(s, log[i])
  {
  }

  /** No reader can tell `n` from the memory of `s`. */
  ghost predicate Quiet(s: State, n: Mem) {
    && n.root4 == s.mem.root4 && n.root6 == s.mem.root6
    && forall x :: x in s.mem.nodes ==> x in n.nodes && SameForReaders(s.mem.nodes[x], n.nodes[x])
  }

  /** A log whose memories are quiet up to the last one, which completes the operation. */
  lemma QuietLog(s: State, r: State, f: Family, table: Table, log: seq<Mem>)
    requires ValidState(s) && ValidState(r) && log != []
    requires forall i :: 0 <= i < |log| - 1 ==> Quiet(s, log[i])
    requires TableIn(r, f) == table && TableIn(r, Other(f)) == TableIn(s, Other(f))
    requires Reads(log[|log| - 1], f, table) && Reads(log[|log| - 1], Other(f), TableIn(s, Other(f)))
    ensures Turned(f, s, r, table, log)
  {
    forall i | 0 <= i < |log| - 1
      ensures Reads(log[i], f, TableIn(s, f)) && Reads(log[i], Other(f), TableIn(s, Other(f)))
    {
      Undisturbed(s, log[i], f);
    }
  }

  ghost predicate AboveLog(s: State, f: Family, key: Key, cidr: nat, peer: Peer, d: Addr, b: bool, slot: Slot, log: seq<Mem>)
  {
    && d in s.mem.nodes && (slot.Link? ==> slot.node in s.mem.nodes)
    && |log| == 5
    && log[0] == Alloc(s.mem, s.next, Some(peer), key, cidr, f)
    && log[1] == SetParent(log[0], d, Link(s.next, b))
    && log[2] == StoreSlot(log[1], Link(s.next, b), Some(d))
    && log[3] == SetParent(log[2], s.next, slot)
    && log[4] == StoreSlot(log[3], slot, Some(s.next))
  }

  /** Before the final store: only new nodes and one parent link have been written. */
  ghost predicate Preparing(s: State, n: Mem, down: Option<Addr>, under: Slot) {
    && n.root4 == s.mem.root4 && n.root6 == s.mem.root6
    && s.mem.nodes.Keys <= n.nodes.Keys <= s.mem.nodes.Keys + {s.next, s.next + 1}
    && forall x :: x in s.mem.nodes ==>
         n.nodes[x] == if Some(x) == down then s.mem.nodes[x].(parent := under) else s.mem.nodes[x]
  }

  lemma PreparingIsQuiet(s: State, n: Mem, down: Option<Addr>, under: Slot)
    requires Preparing(s, n, down, under)
    ensures Quiet(s, n)
  {
  }

  lemma FreshWrite(s: State, n: Mem, down: Option<Addr>, under: Slot, a: Addr, y: HNode)
    requires Preparing(s, n, down, under) && a !in s.mem.nodes && (a == s.next || a == s.next + 1)
    ensures Preparing(s, n.(nodes := n.nodes[a := y]), down, under)
  {
  }

  lemma DownWrite(s: State, n: Mem, d: Addr, under: Slot)
    requires Preparing(s, n, None, under) && d in s.mem.nodes
    ensures Preparing(s, SetParent(n, d, under), Some(d), under)
  {
  }

  lemma FinalStore(s: State, n: Mem, f: Family, slot: Slot, q: Addr, down: Option<Addr>, under: Slot)
    requires Preparing(s, n, down, under) && slot != Root(Other(f))
    requires slot.Link? ==> slot.node in s.mem.nodes
    ensures Grafting(s, StoreSlot(n, slot, Some(q)), f, slot, q, down, under)
    ensures forall x :: x in n.nodes && x !in s.mem.nodes ==>
              x in StoreSlot(n, slot, Some(q)).nodes && StoreSlot(n, slot, Some(q)).nodes[x] == n.nodes[x]
    ensures StoreSlot(n, slot, Some(q)).nodes.Keys == n.nodes.Keys
  {
  }

  lemma AboveMemory(s: State, f: Family, key: Key, cidr: nat, peer: Peer, d: Addr, b: bool, slot: Slot, log: seq<Mem>)
    requires s.next !in s.mem.nodes && s.next + 1 !in s.mem.nodes && slot != Root(Other(f))
    requires AboveLog(s, f, key, cidr, peer, d, b, slot, log)
    ensures forall i :: 0 <= i < 4 ==> Quiet(s, log[i])
    ensures Grafting(s, log[4], f, slot, s.next, Some(d), Link(s.next, b))
    ensures s.next in log[4].nodes && s.next + 1 !in log[4].nodes
    ensures log[4].nodes[s.next] == SetBit(HNode(Some(peer), None, None, cidr, key, slot), b, Some(d))
  {
    var a, under := s.next, Link(s.next, b);
    AbovePrepares(s, f, key, cidr, peer, d, b, slot, log);
    FinalStore(s, log[3], f, slot, a, Some(d), under);
    QuietWhilePreparing(s, log, 4, d, under);
  }

  lemma QuietWhilePreparing(s: State, log: seq<Mem>, n: nat, d: Addr, under: Slot)
    requires n <= |log| && forall i :: 0 <= i < n ==> Preparing(s, log[i], None, under) || Preparing(s, log[i], Some(d), under)
    ensures forall i :: 0 <= i < n ==> Quiet(s, log[i])
  {
    forall i | 0 <= i < n ensures Quiet(s, log[i]) {
      if Preparing(s, log[i], None, under) {
        PreparingIsQuiet(s, log[i], None, under);
      } else {
        PreparingIsQuiet(s, log[i], Some(d), under);
      }
    }
  }

  lemma AbovePrepares(s: State, f: Family, key: Key, cidr: nat, peer: Peer, d: Addr, b: bool, slot: Slot, log: seq<Mem>)
    requires s.next !in s.mem.nodes && s.next + 1 !in s.mem.nodes
    requires AboveLog(s, f, key, cidr, peer, d, b, slot, log)
    ensures Preparing(s, log[0], None, Link(s.next, b))
    ensures forall i :: 1 <= i < 4 ==> Preparing(s, log[i], Some(d), Link(s.next, b))
    ensures s.next in log[3].nodes && s.next + 1 !in log[3].nodes
    ensures log[3].nodes[s.next] == SetBit(HNode(Some(peer), None, None, cidr, key, slot), b, Some(d))
  {
    var a, under := s.next, Link(s.next, b);
    FreshWrite(s, s.mem, None, under, a, log[0].nodes[a]);
    DownWrite(s, log[0], d, under);
    FreshWrite(s, log[1], Some(d), under, a, log[2].nodes[a]);
    FreshWrite(s, log[2], Some(d), under, a, log[3].nodes[a]);
  }

  lemma AboveDone(s: State, r: State, f: Family, key: Key, cidr: nat, peer: Peer, d: Tree, slot: Slot, path: seq<bool>, log: seq<Mem>)
    returns (t: Tree)
    requires InsertionPoint(s, f, key, cidr, path, d, slot) && d.Node?
    requires cidr <= CommonBits(d.bits, key) && cidr < |key|
    requires AboveLog(s, f, key, cidr, peer, d.addr, d.bits[cidr], slot, log)
    requires r == State(log[4], Append(s.lists, peer, s.next), s.next + 2, s.tree4, s.tree6)
    ensures Turned(f, s, WithTree(r, f, t), TableIn(s, f)[key[..cidr] := peer], log)
  {
    var n, b := log[4], d.bits[cidr];
    PointFacts(s, f, key, cidr, path, d, slot);
    AboveMemory(s, f, key, cidr, peer, d.addr, b, slot, log);
    AboveInMemory(s, n, f, key, cidr, peer, d, slot);
    var g := Graft(d, key, cidr, peer, s.next, s.next + 1);
    t := GraftDone(s, r, f, key, cidr, peer, d, slot, path, log, g, Link(s.next, b));
  }

  /** The common end of cases 2 and 3. */
  lemma GraftDone(s: State, r: State, f: Family, key: Key, cidr: nat, peer: Peer, d: Tree, slot: Slot, path: seq<bool>,
                  log: seq<Mem>, g: Tree, under: Slot)
    returns (t: Tree)
    requires InsertionPoint(s, f, key, cidr, path, d, slot) && d.Node?
    requires g == Graft(d, key, cidr, peer, s.next, s.next + 1) && g.Node? && log != []
    requires forall i :: 0 <= i < |log| - 1 ==> Quiet(s, log[i])
    requires var n := log[|log| - 1];
             && Grafting(s, n, f, slot, g.addr, Some(d.addr), under)
             && Shape(n.nodes, Some(g.addr), g) && Linked(n.nodes, slot, g)
             && s.next in n.nodes && n.nodes[s.next].peer == Some(peer)
             && (s.next + 1 in n.nodes ==> n.nodes[s.next + 1].peer == None)
    requires r == State(log[|log| - 1], Append(s.lists, peer, s.next), s.next + 2, s.tree4, s.tree6)
    ensures Turned(f, s, WithTree(r, f, t), TableIn(s, f)[key[..cidr] := peer], log)
  {
    var n := log[|log| - 1];
    PointFacts(s, f, key, cidr, path, d, slot);
    GraftPublished(s, n, f, TreeIn(s, f), path, g, slot, Some(d.addr), under);
    GraftElsewhere(s, n, f, peer, slot, g.addr, Some(d.addr), under);
    t := CompleteInsert(s, n, f, key, cidr, peer, path, TreeIn(s, f), d, g);
    QuietLog(s, WithTree(r, f, t), f, TableIn(s, f)[key[..cidr] := peer], log);
  }

  ghost predicate BranchLog(s: State, f: Family, key: Key, cidr: nat, peer: Peer, common: nat, d: Addr, b: bool, slot: Slot, log: seq<Mem>)
    requires common < |key|
  {
    && d in s.mem.nodes && (slot.Link? ==> slot.node in s.mem.nodes)
    && |log| == 8
    && var a, mid := s.next, s.next + 1;
    && log[0] == Alloc(s.mem, a, Some(peer), key, cidr, f)
    && log[1] == Alloc(log[0], mid, None, key, common, f)
    && log[2] == SetParent(log[1], d, Link(mid, b))
    && log[3] == StoreSlot(log[2], Link(mid, b), Some(d))
    && log[4] == SetParent(log[3], a, Link(mid, key[common]))
    && log[5] == StoreSlot(log[4], Link(mid, key[common]), Some(a))
    && log[6] == SetParent(log[5], mid, slot)
    && log[7] == StoreSlot(log[6], slot, Some(mid))
  }

  function Recorded(m0: Mem, m1: Mem, m2: Mem, m3: Mem, m4: Mem, m5: Mem, m6: Mem, m7: Mem): (log: seq<Mem>)
    ensures |log| == 8 && log[0] == m0 && log[1] == m1 && log[2] == m2 && log[3] == m3
    ensures log[4] == m4 && log[5] == m5 && log[6] == m6 && log[7] == m7
  {
    [m0, m1, m2, m3, m4, m5, m6, m7]
  }

  lemma BranchPrepares(s: State, f: Family, key: Key, cidr: nat, peer: Peer, common: nat, d: Addr, b: bool, slot: Slot, log: seq<Mem>)
    requires s.next !in s.mem.nodes && s.next + 1 !in s.mem.nodes && common < |key|
    requires BranchLog(s, f, key, cidr, peer, common, d, b, slot, log)
    ensures forall i :: 0 <= i < 7 ==> Preparing(s, log[i], if i < 2 then None else Some(d), Link(s.next + 1, b))
  {
    var a, mid, under := s.next, s.next + 1, Link(s.next + 1, b);
    FreshWrite(s, s.mem, None, under, a, log[0].nodes[a]);
    FreshWrite(s, log[0], None, under, mid, log[1].nodes[mid]);
    DownWrite(s, log[1], d, under);
    FreshWrite(s, log[2], Some(d), under, mid, log[3].nodes[mid]);
    FreshWrite(s, log[3], Some(d), under, a, log[4].nodes[a]);
    FreshWrite(s, log[4], Some(d), under, mid, log[5].nodes[mid]);
    FreshWrite(s, log[5], Some(d), under, mid, log[6].nodes[mid]);
  }

  lemma BranchValues(s: State, f: Family, key: Key, cidr: nat, peer: Peer, common: nat, d: Addr, b: bool, slot: Slot, log: seq<Mem>)
    requires s.next !in s.mem.nodes && s.next + 1 !in s.mem.nodes && common < |key|
    requires BranchLog(s, f, key, cidr, peer, common, d, b, slot, log)
    ensures s.next in log[6].nodes && s.next + 1 in log[6].nodes
    ensures log[6].nodes[s.next] == HNode(Some(peer), None, None, cidr, key, Link(s.next + 1, key[common]))
    ensures log[6].nodes[s.next + 1] ==
      SetBit(SetBit(HNode(None, None, None, common, key, slot), b, Some(d)), key[common], Some(s.next))
  {
    var a, mid := s.next, s.next + 1;
    assert log[3].nodes[mid] == SetBit(HNode(None, None, None, common, key, Root(f)), b, Some(d));
    assert log[3].nodes[a] == HNode(Some(peer), None, None, cidr, key, Root(f));
    assert log[5].nodes[mid] == SetBit(log[3].nodes[mid], key[common], Some(a));
  }

  lemma BranchMemory(s: State, f: Family, key: Key, cidr: nat, peer: Peer, common: nat, d: Addr, b: bool, slot: Slot, log: seq<Mem>)
    requires s.next !in s.mem.nodes && s.next + 1 !in s.mem.nodes && slot != Root(Other(f)) && common < |key|
    requires BranchLog(s, f, key, cidr, peer, common, d, b, slot, log)
    ensures forall i :: 0 <= i < 7 ==> Quiet(s, log[i])
    ensures Grafting(s, log[7], f, slot, s.next + 1, Some(d), Link(s.next + 1, b))
    ensures s.next in log[7].nodes && s.next + 1 in log[7].nodes
    ensures log[7].nodes[s.next] == HNode(Some(peer), None, None, cidr, key, Link(s.next + 1, key[common]))
    ensures log[7].nodes[s.next + 1] ==
      SetBit(SetBit(HNode(None, None, None, common, key, slot), b, Some(d)), key[common], Some(s.next))
  {
    var under := Link(s.next + 1, b);
    BranchPrepares(s, f, key, cidr, peer, common, d, b, slot, log);
    BranchValues(s, f, key, cidr, peer, common, d, b, slot, log);
    FinalStore(s, log[6], f, slot, s.next + 1, Some(d), under);
    forall i | 0 <= i < 7 ensures Quiet(s, log[i]) {
      PreparingIsQuiet(s, log[i], if i < 2 then None else Some(d), under);
    }
  }

  lemma BranchDone(s: State, r: State, f: Family, key: Key, cidr: nat, peer: Peer, d: Tree, common: nat, slot: Slot, path: seq<bool>, log: seq<Mem>)
    returns (t: Tree)
    requires InsertionPoint(s, f, key, cidr, path, d, slot) && d.Node?
    requires common == CommonBits(d.bits, key) && common < cidr
    requires BranchLog(s, f, key, cidr, peer, common, d.addr, d.bits[common], slot, log)
    requires r == State(log[7], Append(s.lists, peer, s.next), s.next + 2, s.tree4, s.tree6)
    ensures Turned(f, s, WithTree(r, f, t), TableIn(s, f)[key[..cidr] := peer], log)
  {
    var n, b := log[7], d.bits[common];
    PointFacts(s, f, key, cidr, path, d, slot);
    BranchMemory(s, f, key, cidr, peer, common, d.addr, b, slot, log);
    BranchInMemory(s, n, f, key, cidr, peer, d, slot, common);
    var g := Graft(d, key, cidr, peer, s.next, s.next + 1);
    t := GraftDone(s, r, f, key, cidr, peer, d, slot, path, log, g, Link(s.next + 1, b));
  }

  lemma MovedLists(lists: Lists, n: Nodes, live: set<Addr>, a: Addr, peer: Peer)
    requires ListsExact(lists, n, live) && a in live && a in n
    ensures ListsExact(Append(Unlist(lists, n[a].peer, a), peer, a), n[a := n[a].(peer := Some(peer))], live)
  {
    UnlistExact(lists, n, live, n, live - {a}, a);
    AppendExact(Unlist(lists, n[a].peer, a), n, live - {a}, n[a := n[a].(peer := Some(peer))], live, peer, a);
  }

  /** An existing prefix changes hands by one store. */
  lemma ExactDone(s: State, f: Family, key: Key, cidr: nat, peer: Peer, path: seq<bool>, d: Tree, n: Mem)
    returns (t: Tree)
    requires ValidState(s) && |key| == Width(f) && cidr <= |key| && Ordered(TreeIn(s, f), |key|)
    requires path == StopPath(TreeIn(s, f), key, cidr) && d == Get(TreeIn(s, f), path)
    requires Ordered(d, |key|) && IsExact(d, key, cidr) && d.addr in s.mem.nodes
    requires n == s.mem.(nodes := s.mem.nodes[d.addr := s.mem.nodes[d.addr].(peer := Some(peer))])
    ensures var lists := Append(Unlist(s.lists, s.mem.nodes[d.addr].peer, d.addr), peer, d.addr);
            Turned(f, s, WithTree(State(n, lists, s.next, s.tree4, s.tree6), f, t),
                   TableIn(s, f)[key[..cidr] := peer], [n])
  {
    var t0, a := TreeIn(s, f), d.addr;
    assert a in Addrs(t0) by {
      GetAddrs(t0, path);
      assert a in Addrs(d);
    }
    assert Represents(s.mem, f, t0);
    PublishPeer(s.mem, n, f, t0, key, cidr, peer, 0, 0);
    InsertCorrect(t0, key, cidr, peer, 0, 0);
    t := Insert(t0, key, cidr, peer, 0, 0);
    FinishSame(s, n, f, t, a, peer);
  }

  lemma FinishSame(s: State, n: Mem, f: Family, t: Tree, a: Addr, peer: Peer)
    requires ValidState(s) && Represents(n, f, t) && Addrs(t) == Addrs(TreeIn(s, f)) && a in Addrs(t)
    requires a in s.mem.nodes && n == s.mem.(nodes := s.mem.nodes[a := s.mem.nodes[a].(peer := Some(peer))])
    ensures var lists := Append(Unlist(s.lists, s.mem.nodes[a].peer, a), peer, a);
            Turned(f, s, WithTree(State(n, lists, s.next, s.tree4, s.tree6), f, t), TableOf(t), [n])
  {
    var o := Addrs(TreeIn(s, Other(f)));
    assert LiveIn(s) == Addrs(t) + o;
    MovedLists(s.lists, s.mem.nodes, LiveIn(s), a, peer);
    Assemble(s, n, Append(Unlist(s.lists, s.mem.nodes[a].peer, a), peer, a), s.next, f, t);
  }

  lemma GaveUpLists(s: State, peer: Peer)
    requires ValidState(s)
    ensures ValidState(s.(lists := Unlist(Append(s.lists, peer, s.next), Some(peer), s.next)))
  {
    var n, live := s.mem.nodes, LiveIn(s);
    var x := HNode(Some(peer), None, None, 0, [], Root(V4));
    assert s.next !in n;
    AppendExact(s.lists, n, live, n[s.next := x], live + {s.next}, peer, s.next);
    UnlistExact(Append(s.lists, peer, s.next), n[s.next := x], live + {s.next}, n, live, s.next);
  }

  /** From what `node_placement` reports to the insertion point. */
  lemma PlacedPoint(s: State, f: Family, key: Key, cidr: nat, exact: bool, node: Option<Addr>) returns (path: seq<bool>, d: Tree)
    requires ValidState(s) && |key| == Width(f) && cidr <= |key| && Ordered(TreeIn(s, f), |key|)
    requires Placed(s.mem, f, TreeIn(s, f), key, cidr, exact, node)
    ensures path == StopPath(TreeIn(s, f), key, cidr) && d == Get(TreeIn(s, f), path) && Ordered(d, |key|)
    ensures exact ==> IsExact(d, key, cidr) && node == Some(d.addr) && d.addr in s.mem.nodes
    ensures !exact && node.None? ==> InsertionPoint(s, f, key, cidr, path, d, Root(f))
    ensures !exact && node.None? ==> Shape(s.mem.nodes, RootOf(s.mem, f), d)
    ensures !exact && node.Some? ==>
              node.value in s.mem.nodes && s.mem.nodes[node.value].cidr < |key| &&
              var b := key[s.mem.nodes[node.value].cidr];
              InsertionPoint(s, f, key, cidr, path, d, Link(node.value, b)) &&
              Shape(s.mem.nodes, Bit(s.mem.nodes[node.value], b), d)
  {
    var t := TreeIn(s, f);
    path := StopPath(t, key, cidr);
    d := Get(t, path);
    SlotFacts(s, f, t, path, d, SlotOf(Root(f), t, path));
  }

  // ---------------------------------------------------------------- the logs are the stores

  lemma LeafStores(s: State, f: Family, key: Key, cidr: nat, peer: Peer, slot: Slot, path: seq<bool>, log: seq<Mem>)
    requires InsertionPoint(s, f, key, cidr, path, Nil, slot) && LeafLog(s, f, key, cidr, peer, slot, log)
    ensures Logged(s.mem, log, log[2])
  {
    PointFacts(s, f, key, cidr, path, Nil, slot);
    AllocIsOneStore(s.mem, s.next, Some(peer), key, cidr, f);
    SetParentIsOneStore(log[0], s.next, slot);
    StoreSlotIsOneStore(log[1], slot, Some(s.next));
  }

  lemma AboveStores(s: State, f: Family, key: Key, cidr: nat, peer: Peer, t: Tree, b: bool, slot: Slot, path: seq<bool>, log: seq<Mem>)
    requires InsertionPoint(s, f, key, cidr, path, t, slot) && t.Node?
    requires AboveLog(s, f, key, cidr, peer, t.addr, b, slot, log)
    ensures Logged(s.mem, log, log[4])
  {
    var d := t.addr;
    PointFacts(s, f, key, cidr, path, t, slot);
    AllocIsOneStore(s.mem, s.next, Some(peer), key, cidr, f);
    SetParentIsOneStore(log[0], d, Link(s.next, b));
    StoreSlotIsOneStore(log[1], Link(s.next, b), Some(d));
    SetParentIsOneStore(log[2], s.next, slot);
    StoreSlotIsOneStore(log[3], slot, Some(s.next));
  }

  lemma BranchStores(s: State, f: Family, key: Key, cidr: nat, peer: Peer, common: nat, t: Tree, b: bool, slot: Slot,
                     path: seq<bool>, log: seq<Mem>)
    requires InsertionPoint(s, f, key, cidr, path, t, slot) && t.Node? && common < |key|
    requires BranchLog(s, f, key, cidr, peer, common, t.addr, b, slot, log)
    ensures Logged(s.mem, log, log[7])
  {
    var a, mid, d := s.next, s.next + 1, t.addr;
    PointFacts(s, f, key, cidr, path, t, slot);
    AllocIsOneStore(s.mem, a, Some(peer), key, cidr, f);
    AllocIsOneStore(log[0], mid, None, key, common, f);
    SetParentIsOneStore(log[1], d, Link(mid, b));
    StoreSlotIsOneStore(log[2], Link(mid, b), Some(d));
    SetParentIsOneStore(log[3], a, Link(mid, key[common]));
    StoreSlotIsOneStore(log[4], Link(mid, key[common]), Some(a));
    SetParentIsOneStore(log[5], mid, slot);
    StoreSlotIsOneStore(log[6], slot, Some(mid));
  }
}
