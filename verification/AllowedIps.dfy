/** The allowed-IPs table as the kernel keeps it: two tries in shared node memory, and for
    each peer the list of nodes that carry it. */
module AllowedIps {
  import opened Common
  import opened TrieTree
  import opened TrieOps
  import opened TrieHeap
  import opened TrieMem
  import opened TrieShape
  import opened TrieStack
  import opened AllowedIpsState
  import opened AllowedIpsInsert
  import opened AllowedIpsRemove
  import opened AllowedIpsReader
  import opened ReaderRemoval
  import opened ReaderElsewhere

  class AllowedIpsTable {
    var mem: Mem
    var lists: Lists
    var next: Addr
    ghost var tree4: Tree
    ghost var tree6: Tree

    ghost function Abs(): State
      reads this
    {
      State(mem, lists, next, tree4, tree6)
    }

    ghost predicate Valid()
      reads this
    {
      ValidState(Abs())
    }

    ghost function Entries(f: Family): Table
      reads this
    {
      TableIn(Abs(), f)
    }

    constructor ()
      ensures Valid()
      ensures Entries(V4) == map[] && Entries(V6) == map[]
    {
      mem, lists, next := Mem(None, None, map[]), map[], 0;
      tree4, tree6 := Nil, Nil;
    }

    ghost method SetTree(f: Family, t: Tree)
      modifies this`tree4, this`tree6
      ensures Abs() == WithTree(old(Abs()), f, t)
    {
      match f case V4 => tree4 := t; case V6 => tree6 := t;
    }

    /** `connect_node`: the parent link first, then the store that publishes. */
    method Connect(slot: Slot, a: Addr) returns (ghost before: Mem)
      requires a in mem.nodes && (slot.Link? ==> slot.node in mem.nodes)
      modifies this`mem
      ensures before == SetParent(old(mem), a, slot) && mem == StoreSlot(before, slot, Some(a))
      ensures forall x :: x in old(mem).nodes ==> x in mem.nodes
    {
      mem := SetParent(mem, a, slot);
      before := mem;
      mem := StoreSlot(mem, slot, Some(a));
    }

    /** The pointer writes of case 1, one memory recorded after each. */
    method StoreLeaf(f: Family, key: Key, cidr: nat, peer: Peer, slot: Slot) returns (ghost log: seq<Mem>)
      requires slot.Link? ==> slot.node in mem.nodes
      modifies this`mem, this`lists, this`next
      ensures LeafLog(old(Abs()), f, key, cidr, peer, slot, log)
      ensures mem == log[2] && lists == Append(old(lists), peer, old(next)) && next == old(next) + 2
    {
      var a := next;
      mem := Alloc(mem, a, Some(peer), key, cidr, f);
      ghost var m0 := mem;
      lists := Append(lists, peer, a);
      ghost var m1 := Connect(slot, a);
      next := next + 2;
      log := [m0, m1, mem];
    }

    method AttachLeaf(f: Family, key: Key, cidr: nat, peer: Peer, slot: Slot, ghost path: seq<bool>)
      returns (ghost log: seq<Mem>)
      requires InsertionPoint(Abs(), f, key, cidr, path, Nil, slot)
      modifies this
      ensures Turned(f, old(Abs()), Abs(), old(Entries(f))[key[..cidr] := peer], log)
      ensures Logged(old(mem), log, mem)
      ensures SafeForReaders(f, [old(mem)] + log, old(Entries(f)), old(Entries(f))[key[..cidr] := peer])
      ensures SafeElsewhere(old(Abs()), f, log)
    {
      ghost var s := Abs();
      log := StoreLeaf(f, key, cidr, peer, slot);
      ghost var t := LeafDone(s, Abs(), f, key, cidr, peer, slot, path, log);
      LeafStores(s, f, key, cidr, peer, slot, path, log);
      LeafSafe(s, f, key, cidr, peer, slot, path, log);
      LeafElsewhere(s, f, key, cidr, peer, slot, path, log);
      SetTree(f, t);
    }

    /** The pointer writes of case 2, in the same way. */
    method StoreAbove(f: Family, key: Key, cidr: nat, peer: Peer, slot: Slot, down: Addr, b: bool)
      returns (ghost log: seq<Mem>)
      requires down in mem.nodes && (slot.Link? ==> slot.node in mem.nodes)
      modifies this`mem, this`lists, this`next
      ensures AboveLog(old(Abs()), f, key, cidr, peer, down, b, slot, log)
      ensures mem == log[4] && lists == Append(old(lists), peer, old(next)) && next == old(next) + 2
    {
      var a := next;
      mem := Alloc(mem, a, Some(peer), key, cidr, f);
      ghost var m0 := mem;
      lists := Append(lists, peer, a);
      ghost var m1 := Connect(Link(a, b), down);
      ghost var m2 := mem;
      ghost var m3 := Connect(slot, a);
      next := next + 2;
      log := [m0, m1, m2, m3, mem];
    }

    method AttachAbove(f: Family, key: Key, cidr: nat, peer: Peer, slot: Slot, down: Addr, b: bool,
                       ghost path: seq<bool>, ghost d: Tree)
      returns (ghost log: seq<Mem>)
      requires InsertionPoint(Abs(), f, key, cidr, path, d, slot)
      requires d.Node? && cidr <= CommonBits(d.bits, key) && cidr < |key| && down == d.addr && b == d.bits[cidr]
      modifies this
      ensures Turned(f, old(Abs()), Abs(), old(Entries(f))[key[..cidr] := peer], log)
      ensures Logged(old(mem), log, mem)
      ensures SafeForReaders(f, [old(mem)] + log, old(Entries(f)), old(Entries(f))[key[..cidr] := peer])
      ensures SafeElsewhere(old(Abs()), f, log)
    {
      ghost var s := Abs();
      log := StoreAbove(f, key, cidr, peer, slot, down, b);
      ghost var t := AboveDone(s, Abs(), f, key, cidr, peer, d, slot, path, log);
      AboveStores(s, f, key, cidr, peer, d, b, slot, path, log);
      AboveSafe(s, f, key, cidr, peer, d, slot, path, log);
      AboveElsewhere(s, f, key, cidr, peer, d, slot, path, log);
      SetTree(f, t);
    }

    /** Both subtrees are hung below the new branching point before it is published. */
    method ConnectBranch(slot: Slot, mid: Addr, down: Addr, b: bool, a: Addr, k: bool)
      returns (ghost m2: Mem, ghost m3: Mem, ghost m4: Mem, ghost m5: Mem, ghost m6: Mem)
      requires a in mem.nodes && mid in mem.nodes && down in mem.nodes && (slot.Link? ==> slot.node in mem.nodes)
      modifies this`mem
      ensures m2 == SetParent(old(mem), down, Link(mid, b)) && m3 == StoreSlot(m2, Link(mid, b), Some(down))
      ensures a in m3.nodes && mid in m3.nodes && m4 == SetParent(m3, a, Link(mid, k)) && m5 == StoreSlot(m4, Link(mid, k), Some(a))
      ensures mid in m5.nodes && (slot.Link? ==> slot.node in m5.nodes)
      ensures m6 == SetParent(m5, mid, slot) && mem == StoreSlot(m6, slot, Some(mid))
    {
      m2 := Connect(Link(mid, b), down);
      m3 := mem;
      m4 := Connect(Link(mid, k), a);
      m5 := mem;
      m6 := Connect(slot, mid);
    }

    /** The new node is listed between the two allocations. */
    method AllocBranch(f: Family, key: Key, cidr: nat, peer: Peer, common: nat) returns (ghost m0: Mem, ghost m1: Mem)
      modifies this`mem, this`lists
      ensures m0 == Alloc(old(mem), next, Some(peer), key, cidr, f) && m1 == Alloc(m0, next + 1, None, key, common, f) && mem == m1
      ensures lists == Append(old(lists), peer, next)
      ensures next in mem.nodes && next + 1 in mem.nodes && forall x :: x in old(mem).nodes ==> x in mem.nodes
    {
      mem := Alloc(mem, next, Some(peer), key, cidr, f);
      m0 := mem;
      lists := Append(lists, peer, next);
      mem := Alloc(mem, next + 1, None, key, common, f);
      m1 := mem;
    }

    /** The pointer writes of case 3. */
    method StoreBranch(f: Family, key: Key, cidr: nat, peer: Peer, slot: Slot, down: Addr, common: nat, b: bool)
      returns (ghost log: seq<Mem>)
      requires down in mem.nodes && (slot.Link? ==> slot.node in mem.nodes) && common < |key|
      modifies this`mem, this`lists, this`next
      ensures BranchLog(old(Abs()), f, key, cidr, peer, common, down, b, slot, log)
      ensures mem == log[7] && lists == Append(old(lists), peer, old(next)) && next == old(next) + 2
    {
      var a, mid := next, next + 1;
      ghost var m0, m1 := AllocBranch(f, key, cidr, peer, common);
      ghost var m2, m3, m4, m5, m6 := ConnectBranch(slot, mid, down, b, a, key[common]);
      next := next + 2;
      log := Recorded(m0, m1, m2, m3, m4, m5, m6, mem);
    }

    method AttachBranch(f: Family, key: Key, cidr: nat, peer: Peer, slot: Slot, down: Addr, common: nat, b: bool,
                        ghost path: seq<bool>, ghost d: Tree)
      returns (ghost log: seq<Mem>)
      requires InsertionPoint(Abs(), f, key, cidr, path, d, slot)
      requires d.Node? && common == CommonBits(d.bits, key) && common < cidr && down == d.addr && b == d.bits[common]
      modifies this
      ensures Turned(f, old(Abs()), Abs(), old(Entries(f))[key[..cidr] := peer], log)
      ensures Logged(old(mem), log, mem)
      ensures SafeForReaders(f, [old(mem)] + log, old(Entries(f)), old(Entries(f))[key[..cidr] := peer])
      ensures SafeElsewhere(old(Abs()), f, log)
    {
      ghost var s := Abs();
      log := StoreBranch(f, key, cidr, peer, slot, down, common, b);
      ghost var t := BranchDone(s, Abs(), f, key, cidr, peer, d, common, slot, path, log);
      BranchStores(s, f, key, cidr, peer, common, d, b, slot, path, log);
      BranchSafe(s, f, key, cidr, peer, d, common, slot, path, log);
      BranchElsewhere(s, f, key, cidr, peer, d, common, slot, path, log);
      SetTree(f, t);
    }

    /** `add`: the two allocation outcomes are inputs. */
    method Add(f: Family, key: Key, cidr: nat, peer: Option<Peer>, alloc1: bool, alloc2: bool)
      returns (r: Status, ghost log: seq<Mem>)
      requires Valid() && |key| == Width(f)
      modifies this
      ensures Valid()
      ensures r == Einval <==> cidr > Width(f) || peer.None?
      ensures r == Enomem ==> !alloc1 || !alloc2
      ensures r == Ok ==>
        Turned(f, old(Abs()), Abs(), old(Entries(f))[key[..cidr] := peer.value], log) && Logged(old(mem), log, mem)
      ensures r == Ok ==> SafeForReaders(f, [old(mem)] + log, old(Entries(f)), old(Entries(f))[key[..cidr] := peer.value])
      ensures r == Ok ==> SafeElsewhere(old(Abs()), f, log)
      ensures r != Ok ==>
        (forall g :: Entries(g) == old(Entries(g))) && mem == old(mem) && log == []
    {
      log := [];
      if cidr > Width(f) || peer.None? {
        return Einval, [];
      }
      ghost var s := Abs();
      var exact, node := NodePlacement(mem, f, key, cidr, TreeIn(s, f));
      ghost var path, d := PlacedPoint(s, f, key, cidr, exact, node);
      if exact {
        var a := node.value;
        lists := Append(Unlist(lists, mem.nodes[a].peer, a), peer.value, a);
        SetPeerIsOneStore(mem, a, peer);
        mem := mem.(nodes := mem.nodes[a := mem.nodes[a].(peer := peer)]);
        log := [mem];
        ghost var t := ExactDone(s, f, key, cidr, peer.value, path, d, mem);
        ExactSafe(s, f, key, cidr, peer.value, path, d, mem);
        ExactElsewhere(s, f, peer.value, path, d);
        assert [s.mem] + log == [s.mem, mem];
        SetTree(f, t);
        return Ok, log;
      }
      if !alloc1 {
        return Enomem, [];
      }
      var slot, down;
      if node.None? {
        slot, down := Root(f), RootOf(mem, f);
      } else {
        slot := Link(node.value, key[mem.nodes[node.value].cidr]);
        down := Bit(mem.nodes[node.value], slot.bit);
      }
      r, log := AddBelow(f, key, cidr, peer.value, slot, down, alloc2, path, d);
    }

    /** The part of `add` after the walk: choose one of the three cases. */
    method AddBelow(f: Family, key: Key, cidr: nat, peer: Peer, slot: Slot, down: Option<Addr>, alloc2: bool,
                    ghost path: seq<bool>, ghost d: Tree)
      returns (r: Status, ghost log: seq<Mem>)
      requires InsertionPoint(Abs(), f, key, cidr, path, d, slot) && Shape(mem.nodes, down, d)
      modifies this
      ensures r != Einval && (r == Enomem ==> !alloc2)
      ensures r == Ok ==> Turned(f, old(Abs()), Abs(), old(Entries(f))[key[..cidr] := peer], log) && Logged(old(mem), log, mem)
      ensures r == Ok ==> SafeForReaders(f, [old(mem)] + log, old(Entries(f)), old(Entries(f))[key[..cidr] := peer])
      ensures r == Ok ==> SafeElsewhere(old(Abs()), f, log)
      ensures r == Enomem ==> Valid() && (forall g :: Entries(g) == old(Entries(g))) && mem == old(mem) && log == []
    {
      if down.None? {
        log := AttachLeaf(f, key, cidr, peer, slot, path);
        return Ok, log;
      }
      var common := CommonBits(mem.nodes[down.value].bits, key);
      if cidr <= common {
        GraftAbove(d, key, cidr);
        log := AttachAbove(f, key, cidr, peer, slot, down.value, mem.nodes[down.value].bits[cidr], path, d);
        return Ok, log;
      }
      if !alloc2 {
        GiveUp(peer);
        return Enomem, [];
      }
      log := AttachBranch(f, key, cidr, peer, slot, down.value, common, mem.nodes[down.value].bits[common], path, d);
      r := Ok;
    }

    /** The failed second allocation: the new node was listed, and is taken off again. */
    method GiveUp(peer: Peer)
      requires Valid()
      modifies this`lists
      ensures Valid() && (forall g :: Entries(g) == old(Entries(g)))
    {
      ghost var s := Abs();
      var a := next;
      lists := Append(lists, peer, a);
      lists := Unlist(lists, Some(peer), a);
      GaveUpLists(s, peer);
    }

    /** `remove_node`. */
    method RemoveNode(a: Addr, ghost f: Family, ghost path: seq<bool>, ghost d: Tree, ghost slot: Slot)
      returns (ghost log: seq<Mem>)
      requires RemovalPoint(Abs(), f, path, d, slot) && a == d.addr
      modifies this
      ensures Turned(f, old(Abs()), Abs(), Remaining(old(Abs()), f, d), log) && Logged(old(mem), log, mem)
      ensures SafeForReaders(f, [old(mem)] + log, old(Entries(f)), Remaining(old(Abs()), f, d))
      ensures SafeElsewhere(old(Abs()), f, log)
      ensures lists == Unlist(old(lists), old(mem).nodes[a].peer, a)
    {
      ghost var s := Abs();
      RemovalFacts(s, f, path, d, slot);
      lists := Unlist(lists, mem.nodes[a].peer, a);
      var node := mem.nodes[a];
      if node.bit0.Some? && node.bit1.Some? {
        SetPeerIsOneStore(mem, a, None);
        mem := Cleared(mem, a);
        log := [mem];
        ghost var t := KeepDone(s, f, path, d, slot);
        KeepSafe(s, f, path, d, slot);
        PeerElsewhere(s, f, a, None);
        assert [s.mem] + log == [s.mem, mem];
        SetTree(f, t);
        return;
      }
      var child := if node.bit0.Some? then node.bit0 else node.bit1;
      ChildInTree(s, f, path, d, slot, child);
      log := StoreSplice(a, node.parent, child);
      PeekParent(s, f, path, d, slot, child, log);
      var free := node.bit0.None? && node.bit1.None? && node.parent.Link? && mem.nodes[node.parent.node].peer.None?;
      if !free {
        SpliceIsStores(s, a, slot, child, log);
        SpliceSafe(s, f, path, d, slot, child, log);
        SpliceElsewhere(s, f, path, d, slot, child, log);
        ghost var t := SpliceDone(s, Abs(), f, path, d, slot, child, log);
        SetTree(f, t);
        return;
      }
      log := FreeParent(node.parent, s, f, path, d, log);
    }

    /** The second half of `remove_node`, when the parent is freed as well. */
    method FreeParent(slot: Slot, ghost s: State, ghost f: Family, ghost path: seq<bool>, ghost d: Tree, ghost early: seq<Mem>)
      returns (ghost log: seq<Mem>)
      requires RemovalPoint(s, f, path, d, slot) && IsLeaf(d) && slot.Link? && slot.node in s.mem.nodes
      requires s.mem.nodes[slot.node].peer.None?
      requires SpliceLog(s, d.addr, slot, None, early)
      requires Abs() == s.(mem := early[2], lists := Unlist(s.lists, s.mem.nodes[d.addr].peer, d.addr))
      modifies this
      ensures Turned(f, s, Abs(), Remaining(s, f, d), log) && Logged(s.mem, log, mem)
      ensures SafeForReaders(f, [s.mem] + log, TableIn(s, f), Remaining(s, f, d)) && SafeElsewhere(s, f, log)
      ensures lists == old(lists)
    {
      PeekParent(s, f, path, d, slot, None, early);
      ghost var p, up, ghostAbove, ghostChild := ParentSituation(s, f, path, d, slot);
      var above := mem.nodes[slot.node].parent;
      var child := Bit(mem.nodes[slot.node], !slot.bit);
      if child.Some? {
        mem := SetParent(mem, child.value, above);
      }
      ghost var n := mem;
      mem := StoreSlot(mem, above, child);
      log := early + [n, mem];
      ghost var t := ParentDone(s, f, path, d, slot, p, above, child, early, n, mem);
      ParentIsStores(s, d.addr, slot, above, child, early, n, mem);
      ParentSafe(s, f, path, d, slot, p, above, child, early, n, mem);
      ParentElsewhere(s, f, path, d, slot, p, above, child, early, n, mem);
      SetTree(f, t);
    }

    method StoreSplice(a: Addr, slot: Slot, child: Option<Addr>) returns (ghost log: seq<Mem>)
      requires a in mem.nodes && (slot.Link? ==> slot.node in mem.nodes) && (child.Some? ==> child.value in mem.nodes)
      modifies this`mem
      ensures SpliceLog(old(Abs()), a, slot, child, log) && mem == log[2]
    {
      mem := Cleared(mem, a);
      ghost var m0 := mem;
      if child.Some? {
        mem := SetParent(mem, child.value, slot);
      }
      ghost var m1 := mem;
      mem := StoreSlot(mem, slot, child);
      log := [m0, m1, mem];
    }

    /** `remove`: the entry goes only if it belongs to the given peer. */
    method Remove(f: Family, key: Key, cidr: nat, peer: Peer) returns (r: Status, ghost log: seq<Mem>)
      requires Valid() && |key| == Width(f)
      modifies this
      ensures r == if cidr > Width(f) then Einval else Ok
      ensures r == Einval ==> Abs() == old(Abs())
      ensures r == Ok ==> Turned(f, old(Abs()), Abs(), AfterRemove(old(Entries(f)), key[..cidr], peer), log)
      ensures r == Ok ==>
        (forall k :: k in old(Entries(f)) && (k != key[..cidr] || old(Entries(f))[k] != peer) ==>
           k in Entries(f) && Entries(f)[k] == old(Entries(f))[k])
      ensures r == Ok && key[..cidr] in Entries(f) ==> Entries(f)[key[..cidr]] != peer
      ensures forall k :: k in Entries(f) ==> k in old(Entries(f)) && Entries(f)[k] == old(Entries(f))[k]
      ensures if Abs() == old(Abs()) then log == [] else Logged(old(mem), log, mem)
      ensures SafeForReaders(f, [old(mem)] + log, old(Entries(f)), Entries(f)) && SafeElsewhere(old(Abs()), f, log)
    {
      log := [];
      IdleSafe(Abs(), f);
      IdleSafe(Abs(), Other(f));
      assert [mem] + log == [mem];
      if cidr > Width(f) {
        return Einval, [];
      }
      ghost var s := Abs();
      ghost var t := TreeIn(s, f);
      assert Represents(mem, f, t);
      var exact, node := NodePlacement(mem, f, key, cidr, t);
      ghost var path, d, slot := RemoveTarget(s, f, key, cidr, exact, node);
      if exact && mem.nodes[node.value].peer == Some(peer) {
        log := RemoveNode(node.value, f, path, d, slot);
      }
      r := Ok;
    }

    /** `wg_allowedips_remove_by_peer`: walk the peer's list, the successor saved before
        each node goes. */
    method RemoveByPeer(p: Peer) returns (ghost log: seq<Mem>)
      requires Valid()
      modifies this
      ensures Valid() && ListOf(lists, p) == []
      ensures forall f :: Entries(f) == WithoutPeer(old(Entries(f)), p)
      ensures ExactlyLost(old(Entries(V4)), Entries(V4), p) && ExactlyLost(old(Entries(V6)), Entries(V6), p)
      ensures if old(ListOf(lists, p)) == [] then log == [] && mem == old(mem) else Logged(old(mem), log, mem)
      ensures forall i :: 0 <= i < |log| ==> PartlyRemoved(log[i], old(Abs()), p)
    {
      var todo := ListOf(lists, p);
      log := [];
      while todo != []
        invariant Valid() && todo == ListOf(lists, p)
        invariant OnlyLost(old(Entries(V4)), Entries(V4), p) && OnlyLost(old(Entries(V6)), Entries(V6), p)
        invariant if log == [] then mem == old(mem) && todo == old(ListOf(lists, p)) else Logged(old(mem), log, mem) && old(ListOf(lists, p)) != []
        invariant forall i :: 0 <= i < |log| ==> PartlyRemoved(log[i], old(Abs()), p)
        decreases |todo|
      {
        ghost var more := RemoveFirst(p, old(Abs()));
        todo := todo[1..];
        if log != [] { StoresAppend(old(mem), log, more); }
        log := log + more;
      }
      AllLost(old(Abs()), Abs(), V4, p);
      AllLost(old(Abs()), Abs(), V6, p);
    }

    /** One round: the first node of the peer's list goes, and the rest of the list is as it was. */
    method RemoveFirst(p: Peer, ghost s0: State) returns (ghost log: seq<Mem>)
      requires Valid() && ListOf(lists, p) != []
      requires OnlyLost(TableIn(s0, V4), Entries(V4), p) && OnlyLost(TableIn(s0, V6), Entries(V6), p)
      modifies this
      ensures Valid() && ListOf(lists, p) == old(ListOf(lists, p))[1..]
      ensures OnlyLost(TableIn(s0, V4), Entries(V4), p) && OnlyLost(TableIn(s0, V6), Entries(V6), p)
      ensures Logged(old(mem), log, mem) && forall i :: 0 <= i < |log| ==> PartlyRemoved(log[i], s0, p)
    {
      ghost var s := Abs();
      ghost var todo := ListOf(lists, p);
      var node := ListOf(lists, p)[0];
      assert OnList(lists, p, node) && NoDup(todo) && todo == [node] + todo[1..];
      FirstWithout(node, todo[1..]);
      assert Carries(mem.nodes, LiveIn(s), p, node);
      ghost var f, path, d, slot := LocateNode(s, node, p);
      log := RemoveNode(node, f, path, d, slot);
      assert Entries(f) == TableIn(s, f) - {Prefix(d)} && Entries(Other(f)) == TableIn(s, Other(f));
      StepsRemove(s0, s, Abs(), f, p, log);
    }

    /** `wg_allowedips_free`: both roots are cleared, then every node leaves its peer's list. */
    method Free()
      requires Valid()
      modifies this
      ensures Valid()
      ensures forall f :: Entries(f) == map[]
      ensures forall p: Peer :: ListOf(lists, p) == []
    {
      ghost var s := Abs();
      var old4, old6 := mem.root4, mem.root6;
      mem := Mem(None, None, mem.nodes);
      var l4 := UnlistAll(mem.nodes, lists, old4, 32, s.tree4, LiveIn(s));
      assert LiveIn(s) - Addrs(s.tree4) == Addrs(s.tree6);
      var l6 := UnlistAll(mem.nodes, l4, old6, 128, s.tree6, Addrs(s.tree6));
      lists := l6;
      tree4, tree6 := Nil, Nil;
      assert Addrs(s.tree6) - Addrs(s.tree6) == {};
      forall p: Peer ensures ListOf(lists, p) == [] {
        if ListOf(lists, p) != [] {
          assert OnList(lists, p, ListOf(lists, p)[0]);
        }
      }
    }
  }

  /** `root_remove_peer_lists`. */
  method UnlistAll(nodes: Nodes, lists: Lists, root: Option<Addr>, w: nat, ghost t: Tree, ghost live: set<Addr>)
    returns (lists': Lists)
    requires Shape(nodes, root, t) && Ordered(t, w) && Distinct(t) && w <= 128
    requires ListsExact(lists, nodes, live) && Addrs(t) <= live
    ensures ListsExact(lists', nodes, live - Addrs(t))
  {
    lists' := lists;
    if root.None? {
      assert live - Addrs(t) == live;
      return;
    }
    var visited, peak := Traverse(nodes, root.value, w, t);
    ghost var left := live;
    var i := 0;
    while i < |visited|
      invariant 0 <= i <= |visited|
      invariant ListsExact(lists', nodes, left)
      invariant forall a :: a in left <==> a in live && a !in visited[..i]
    {
      var v := visited[i];
      ShapeAt(nodes, root, t, v);
      assert v !in visited[..i];
      UnlistExact(lists', nodes, left, nodes, left - {v}, v);
      lists' := Unlist(lists', nodes[v].peer, v);
      left := left - {v};
      i := i + 1;
    }
    assert left == live - Addrs(t);
  }

  // ---------------------------------------------------------------- histories

  datatype Op =
    | Insertion(f: Family, key: Key, cidr: nat, peer: Option<Peer>, alloc1: bool, alloc2: bool)
    | Removal(f: Family, key: Key, cidr: nat, owner: Peer)
    | PeerRemoval(owner: Peer)

  predicate WellFormed(op: Op) {
    op.PeerRemoval? || |op.key| == Width(op.f)
  }

  /** The plain-map meaning of one call that returned `r`. */
  function Effect(m: Table, g: Family, op: Op, r: Status): (m': Table) {
    if r != Ok then m
    else match op
      case Insertion(f, key, cidr, peer, _, _) =>
        if f == g && peer.Some? && cidr <= |key| then m[key[..cidr] := peer.value] else m
      case Removal(f, key, cidr, p) => if f == g && cidr <= |key| then AfterRemove(m, key[..cidr], p) else m
      case PeerRemoval(p) => WithoutPeer(m, p)
  }

  function Replay(ops: seq<Op>, rs: seq<Status>, g: Family): (m: Table)
    requires |ops| == |rs|
  {
    if ops == [] then map[]
    else Effect(Replay(ops[..|ops| - 1], rs[..|rs| - 1], g), g, ops[|ops| - 1], rs[|rs| - 1])
  }

  // What a history means, without replaying it.

  /** This call put the prefix `k` of family `g` in `p`'s hands. */
  predicate Gives(op: Op, r: Status, g: Family, k: Key, p: Peer) {
    r == Ok && op.Insertion? && op.f == g && op.cidr <= |op.key| && op.key[..op.cidr] == k && op.peer == Some(p)
  }

  /** This call ended it: the prefix went to someone else, or `p` lost it or everything. */
  predicate Ends(op: Op, r: Status, g: Family, k: Key, p: Peer) {
    && r == Ok
    && match op
       case Insertion(f, key, cidr, peer, _, _) => f == g && cidr <= |key| && key[..cidr] == k && peer.Some? && peer != Some(p)
       case Removal(f, key, cidr, q) => f == g && cidr <= |key| && key[..cidr] == k && q == p
       case PeerRemoval(q) => q == p
  }

  /** Given by call `i`, and not ended since. */
  ghost predicate Holds(ops: seq<Op>, rs: seq<Status>, g: Family, k: Key, p: Peer, i: nat)
    requires |ops| == |rs|
  {
    i < |ops| && Gives(ops[i], rs[i], g, k, p) && forall j :: i < j < |ops| ==> !Ends(ops[j], rs[j], g, k, p)
  }

  /** After a history a prefix belongs to a peer exactly if some call gave it to that peer and no
      later call took it away. */
  lemma {:induction false} ReplayMeaning(ops: seq<Op>, rs: seq<Status>, g: Family, k: Key, p: Peer)
    requires |ops| == |rs|
    ensures (k in Replay(ops, rs, g) && Replay(ops, rs, g)[k] == p) <==> exists i: nat :: Holds(ops, rs, g, k, p, i)
    decreases |ops|
  {
    if ops != [] {
      var n := |ops| - 1;
      var o, q := ops[..n], rs[..n];
      ReplayMeaning(o, q, g, k, p);
      HoldsStep(ops, rs, g, k, p);
    }
  }

  lemma HoldsStep(ops: seq<Op>, rs: seq<Status>, g: Family, k: Key, p: Peer)
    requires |ops| == |rs| && ops != []
    ensures var n := |ops| - 1;
            (exists i: nat :: Holds(ops, rs, g, k, p, i)) <==>
              Gives(ops[n], rs[n], g, k, p) || ((exists i: nat :: Holds(ops[..n], rs[..n], g, k, p, i)) && !Ends(ops[n], rs[n], g, k, p))
  {
    var n := |ops| - 1;
    if i: nat :| Holds(ops[..n], rs[..n], g, k, p, i) {
      if !Ends(ops[n], rs[n], g, k, p) {
        forall j: nat | i < j < |ops| ensures !Ends(ops[j], rs[j], g, k, p) {
          if j < n { assert !Ends(ops[..n][j], rs[..n][j], g, k, p); }
        }
        assert Holds(ops, rs, g, k, p, i);
      }
    }
    if Gives(ops[n], rs[n], g, k, p) { assert Holds(ops, rs, g, k, p, n); }
    if i: nat :| Holds(ops, rs, g, k, p, i) {
      if i < n {
        forall j: nat | i < j < n ensures !Ends(ops[..n][j], rs[..n][j], g, k, p) { assert !Ends(ops[j], rs[j], g, k, p); }
        assert Holds(ops[..n], rs[..n], g, k, p, i);
      }
    }
  }

  /** A call is refused exactly for a prefix that is too long or a missing peer, and runs out of
      memory only if an allocation fails. */
  predicate AnswerOk(op: Op, r: Status) {
    && (r == Einval <==> (op.Insertion? && (op.cidr > Width(op.f) || op.peer.None?)) || (op.Removal? && op.cidr > Width(op.f)))
    && (r == Enomem ==> op.Insertion? && !(op.alloc1 && op.alloc2))
  }

  /** After any history of calls, lookups answer as a longest-prefix search over the plain map that
      replays the calls. */
  method LookupAfter(ops: seq<Op>, f: Family, keys: seq<Key>) returns (rs: seq<Status>, answers: seq<Option<Peer>>)
    requires forall i :: 0 <= i < |ops| ==> WellFormed(ops[i])
    requires forall i :: 0 <= i < |keys| ==> |keys[i]| == Width(f)
    ensures |rs| == |ops| && forall i :: 0 <= i < |ops| ==> AnswerOk(ops[i], rs[i])
    ensures |answers| == |keys| && forall i :: 0 <= i < |keys| ==> answers[i] == LongestMatch(Replay(ops, rs, f), keys[i])
  {
    var t;
    t, rs := RunHistory(ops);
    answers := [];
    var m := t.mem;
    ghost var s := t.Abs();
    assert Represents(s.mem, f, TreeIn(s, f));
    assert Reads(s.mem, f, TableOf(TreeIn(s, f)));
    var i := 0;
    while i < |keys|
      invariant 0 <= i <= |keys| && |answers| == i
      invariant forall j :: 0 <= j < i ==> answers[j] == LongestMatch(Replay(ops, rs, f), keys[j])
    {
      var a := Lookup(m, f, keys[i], TableIn(s, f));
      answers := answers + [a];
      i := i + 1;
    }
  }

  /** After any history of calls the tries stand for the replayed plain maps. */
  method RunHistory(ops: seq<Op>) returns (t: AllowedIpsTable, rs: seq<Status>)
    requires forall i :: 0 <= i < |ops| ==> WellFormed(ops[i])
    ensures fresh(t) && t.Valid() && |rs| == |ops|
    ensures t.Entries(V4) == Replay(ops, rs, V4) && t.Entries(V6) == Replay(ops, rs, V6)
    ensures forall i :: 0 <= i < |ops| ==> AnswerOk(ops[i], rs[i])
  {
    t := new AllowedIpsTable();
    rs := [];
    var i := 0;
    while i < |ops|
      invariant 0 <= i <= |ops| && |rs| == i && fresh(t) && t.Valid()
      invariant t.Entries(V4) == Replay(ops[..i], rs, V4) && t.Entries(V6) == Replay(ops[..i], rs, V6)
      invariant forall j :: 0 <= j < i ==> AnswerOk(ops[j], rs[j])
    {
      var r := Perform(t, ops[i]);
      rs := rs + [r];
      assert ops[..i + 1][..i] == ops[..i] && rs[..i] + [r] == rs;
      i := i + 1;
    }
    assert ops[..i] == ops;
  }

  method Perform(t: AllowedIpsTable, op: Op) returns (r: Status)
    requires t.Valid() && WellFormed(op)
    modifies t
    ensures t.Valid()
    ensures forall g :: t.Entries(g) == Effect(old(t.Entries(g)), g, op, r)
    ensures AnswerOk(op, r)
  {
    match op
    case Insertion(f, key, cidr, peer, alloc1, alloc2) =>
      ghost var log;
      r, log := t.Add(f, key, cidr, peer, alloc1, alloc2);
    case Removal(f, key, cidr, p) =>
      ghost var log;
      r, log := t.Remove(f, key, cidr, p);
    case PeerRemoval(p) =>
      ghost var log := t.RemoveByPeer(p);
      r := Ok;
  }

  /** History independence of the table: whatever calls led to two valid states, equal maps of
      prefixes mean equal tries, each with at most 2n - 1 nodes for n prefixes. */
  lemma SameTablesSameTries(s: State, r: State, f: Family)
    requires ValidState(s) && ValidState(r) && TableIn(s, f) == TableIn(r, f)
    ensures SameShape(TreeIn(s, f), TreeIn(r, f))
    ensures TreeIn(s, f).Node? ==> Size(TreeIn(s, f)) <= 2 * |TableIn(s, f)| - 1
  {
    HistoryIndependence(TreeIn(s, f), TreeIn(r, f), Width(f));
    if TreeIn(s, f).Node? { SizeBound(TreeIn(s, f), Width(f)); }
  }
}
