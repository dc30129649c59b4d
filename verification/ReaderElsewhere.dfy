/** Lookups in one trie while an update stores in the trie of the other address family: the stores
    touch no field that such a lookup loads, so it runs as if nothing happened. */
module ReaderElsewhere {
  import opened Common
  import opened TrieTree
  import opened TrieOps
  import opened TrieHeap
  import opened TrieMem
  import opened TrieReader
  import opened AllowedIpsState
  import opened AllowedIpsInsert
  import opened AllowedIpsRemove
  import opened AllowedIpsReader

  /** An update of family `f`, seen from the other trie. */
  ghost predicate SafeElsewhere(s: State, f: Family, log: seq<Mem>) {
    SafeForReaders(Other(f), [s.mem] + log, TableIn(s, Other(f)), TableIn(s, Other(f)))
  }

  // ---------------------------------------------------------------- a lookup that sees no store

  predicate Within(p: Option<Addr>, area: set<Addr>) {
    p.Some? ==> p.value in area
  }

  /** Every pointer the lookup holds leads into the area. */
  predicate Inside(r: Reader, area: set<Addr>) {
    match r
    case AtNode(p, best) => Within(p, area) && Within(best, area)
    case GotPeer(a, best) => a in area && Within(best, area)
    case Found(best) => Within(best, area)
    case _ => true
  }

  ghost predicate SameThere(m: Mem, n: Mem, g: Family, area: set<Addr>) {
    RootOf(n, g) == RootOf(m, g) && forall x :: x in area && x in m.nodes ==> x in n.nodes && SameForReaders(m.nodes[x], n.nodes[x])
  }

  lemma {:induction false} ChildWithin(m: Nodes, p: Option<Addr>, t: Tree, a: Addr, b: bool)
    requires Shape(m, p, t) && a in Addrs(t)
    ensures a in m && Within(Bit(m[a], b), Addrs(t))
    decreases t
  {
    if a == t.addr {
      assert Within(Bit(m[a], b), Addrs(Child(t, b)));
    } else if a in Addrs(t.left) {
      ChildWithin(m, m[t.addr].bit0, t.left, a, b);
    } else {
      ChildWithin(m, m[t.addr].bit1, t.right, a, b);
    }
  }

  lemma LoadInside(m: Mem, g: Family, key: Key, t: Tree, r: Reader)
    requires Shape(m.nodes, RootOf(m, g), t) && Inside(r, Addrs(t))
    ensures Inside(Load(m, g, key, r), Addrs(t))
  {
    match r
    case GotPeer(a, best) => if a in m.nodes && m.nodes[a].cidr < |key| { ChildWithin(m.nodes, RootOf(m, g), t, a, key[m.nodes[a].cidr]); }
    case _ =>
  }

  lemma LoadSame(m: Mem, n: Mem, g: Family, key: Key, t: Tree, r: Reader)
    requires Shape(m.nodes, RootOf(m, g), t) && SameThere(m, n, g, Addrs(t)) && Inside(r, Addrs(t))
    ensures Load(n, g, key, r) == Load(m, g, key, r)
  {
    forall a | a in Addrs(t) ensures a in m.nodes { ShapeAt(m.nodes, RootOf(m, g), t, a); }
  }

  lemma {:induction false} RunsSame(ms: seq<Mem>, g: Family, key: Key, t: Tree, turns: seq<Turn>)
    requires ms != [] && Shape(ms[0].nodes, RootOf(ms[0], g), t)
    requires forall j :: 0 <= j < |ms| ==> SameThere(ms[0], ms[j], g, Addrs(t))
    ensures Interleaved(ms, g, key, turns).1 == Interleaved([ms[0]], g, key, turns).1
    ensures Inside(Interleaved(ms, g, key, turns).1, Addrs(t))
    decreases |turns|
  {
    if turns != [] {
      var init := turns[..|turns| - 1];
      RunsSame(ms, g, key, t, init);
      var (j, r) := Interleaved(ms, g, key, init);
      LoadSame(ms[0], ms[j], g, key, t, r);
      LoadInside(ms[0], g, key, t, r);
    }
  }

  // ---------------------------------------------------------------- memories of an update

  /** The other trie is as it was, for its lookups. */
  ghost predicate Spared(s: State, f: Family, m: Mem) {
    SameThere(s.mem, m, Other(f), Addrs(TreeIn(s, Other(f))))
  }

  ghost predicate AllSpared(s: State, f: Family, ms: seq<Mem>) {
    forall j :: 0 <= j < |ms| ==> Spared(s, f, ms[j])
  }

  lemma SparedSafe(s: State, f: Family, log: seq<Mem>)
    requires ValidState(s) && AllSpared(s, f, log)
    ensures SafeElsewhere(s, f, log)
  {
    var g, ms := Other(f), [s.mem] + log;
    var t := TreeIn(s, g);
    TreeFacts(s, g);
    IdleSafe(s, g);
    forall j | 0 <= j < |ms| ensures SameThere(ms[0], ms[j], g, Addrs(t)) {
      if j > 0 { assert Spared(s, f, log[j - 1]); }
    }
    forall key: Key, turns: seq<Turn> | |key| == Width(g)
      ensures AnswerIn(Interleaved(ms, g, key, turns), {LongestMatch(TableIn(s, g), key), LongestMatch(TableIn(s, g), key)})
    {
      RunsSame(ms, g, key, t, turns);
      assert AnswerIn(Interleaved([s.mem], g, key, turns), {LongestMatch(TableIn(s, g), key), LongestMatch(TableIn(s, g), key)});
    }
  }

  lemma QuietSpares(s: State, f: Family, m: Mem)
    requires Quiet(s, m)
    ensures Spared(s, f, m)
  {
  }

  lemma GraftSpares(s: State, f: Family, n: Mem, slot: Slot, q: Addr, down: Option<Addr>, under: Slot)
    requires Grafting(s, n, f, slot, q, down, under)
    requires slot.Link? ==> slot.node !in Addrs(TreeIn(s, Other(f)))
    ensures Spared(s, f, n)
  {
  }

  lemma InsertElsewhere(s: State, f: Family, key: Key, cidr: nat, peer: Peer, path: seq<bool>, d: Tree, slot: Slot, log: seq<Mem>,
                        g: Tree, down: Option<Addr>, under: Slot)
    requires InsertionPoint(s, f, key, cidr, path, d, slot) && log != [] && Inserting(s, f, [s.mem] + log, slot, g, down, under, peer)
    ensures SafeElsewhere(s, f, log)
  {
    PointFacts(s, f, key, cidr, path, d, slot);
    var ms := [s.mem] + log;
    forall j | 0 <= j < |log| ensures Spared(s, f, log[j]) {
      assert log[j] == ms[j + 1];
      if j < |log| - 1 {
        assert StageStep(s, ms[j + 1], ms[j + 2], peer);
        QuietSpares(s, f, log[j]);
      } else {
        GraftSpares(s, f, log[j], slot, g.addr, down, under);
      }
    }
    SparedSafe(s, f, log);
  }

  lemma LeafElsewhere(s: State, f: Family, key: Key, cidr: nat, peer: Peer, slot: Slot, path: seq<bool>, log: seq<Mem>)
    requires InsertionPoint(s, f, key, cidr, path, Nil, slot) && LeafLog(s, f, key, cidr, peer, slot, log)
    ensures SafeElsewhere(s, f, log)
  {
    PointFacts(s, f, key, cidr, path, Nil, slot);
    LeafInserting(s, f, key, cidr, peer, slot, log, [s.mem] + log);
    InsertElsewhere(s, f, key, cidr, peer, path, Nil, slot, log, Leaf(s.next, key, cidr, peer), None, slot);
  }

  lemma AboveElsewhere(s: State, f: Family, key: Key, cidr: nat, peer: Peer, d: Tree, slot: Slot, path: seq<bool>, log: seq<Mem>)
    requires InsertionPoint(s, f, key, cidr, path, d, slot) && d.Node?
    requires cidr <= CommonBits(d.bits, key) && cidr < |key|
    requires AboveLog(s, f, key, cidr, peer, d.addr, d.bits[cidr], slot, log)
    ensures SafeElsewhere(s, f, log)
  {
    var b := d.bits[cidr];
    PointFacts(s, f, key, cidr, path, d, slot);
    var g := Graft(d, key, cidr, peer, s.next, s.next + 1);
    AboveShape(s, f, key, cidr, peer, d, slot, path, log);
    AboveInserting(s, f, key, cidr, peer, d.addr, b, slot, log, [s.mem] + log, g);
    InsertElsewhere(s, f, key, cidr, peer, path, d, slot, log, g, Some(d.addr), Link(s.next, b));
  }

  lemma BranchElsewhere(s: State, f: Family, key: Key, cidr: nat, peer: Peer, d: Tree, common: nat, slot: Slot, path: seq<bool>, log: seq<Mem>)
    requires InsertionPoint(s, f, key, cidr, path, d, slot) && d.Node?
    requires common == CommonBits(d.bits, key) && common < cidr
    requires BranchLog(s, f, key, cidr, peer, common, d.addr, d.bits[common], slot, log)
    ensures SafeElsewhere(s, f, log)
  {
    var b := d.bits[common];
    PointFacts(s, f, key, cidr, path, d, slot);
    var g := Graft(d, key, cidr, peer, s.next, s.next + 1);
    BranchShape(s, f, key, cidr, peer, d, common, slot, path, log);
    BranchInserting(s, f, key, cidr, peer, common, d.addr, b, slot, log, [s.mem] + log, g);
    InsertElsewhere(s, f, key, cidr, peer, path, d, slot, log, g, Some(d.addr), Link(s.next + 1, b));
  }

  // ---------------------------------------------------------------- store by store

  lemma ClearSpares(s: State, f: Family, m: Mem, a: Addr, v: Option<Peer>)
    requires Spared(s, f, m) && a in m.nodes && a !in Addrs(TreeIn(s, Other(f)))
    ensures Spared(s, f, m.(nodes := m.nodes[a := m.nodes[a].(peer := v)]))
  {
  }

  lemma ParentSpares(s: State, f: Family, m: Mem, child: Option<Addr>, slot: Slot)
    requires Spared(s, f, m) && (child.Some? ==> child.value in m.nodes)
    ensures Spared(s, f, if child.Some? then SetParent(m, child.value, slot) else m)
  {
  }

  lemma SlotSpares(s: State, f: Family, m: Mem, slot: Slot, q: Option<Addr>)
    requires Spared(s, f, m) && slot != Root(Other(f))
    requires slot.Link? ==> slot.node in m.nodes && slot.node !in Addrs(TreeIn(s, Other(f)))
    ensures Spared(s, f, StoreSlot(m, slot, q))
  {
  }

  /** An existing prefix changes hands, or loses its peer. */
  lemma PeerElsewhere(s: State, f: Family, a: Addr, v: Option<Peer>)
    requires ValidState(s) && a in s.mem.nodes && a in Addrs(TreeIn(s, f))
    ensures SafeElsewhere(s, f, [s.mem.(nodes := s.mem.nodes[a := s.mem.nodes[a].(peer := v)])])
  {
    assert a !in Addrs(TreeIn(s, Other(f)));
    ClearSpares(s, f, s.mem, a, v);
    SparedSafe(s, f, [s.mem.(nodes := s.mem.nodes[a := s.mem.nodes[a].(peer := v)])]);
  }

  lemma ExactElsewhere(s: State, f: Family, peer: Peer, path: seq<bool>, d: Tree)
    requires ValidState(s) && OnTree(TreeIn(s, f), path) && d == Get(TreeIn(s, f), path) && d.Node? && d.addr in s.mem.nodes
    ensures SafeElsewhere(s, f, [s.mem.(nodes := s.mem.nodes[d.addr := s.mem.nodes[d.addr].(peer := Some(peer))])])
  {
    GetAddrs(TreeIn(s, f), path);
    assert d.addr in Addrs(d);
    PeerElsewhere(s, f, d.addr, Some(peer));
  }

  lemma SpliceSpares(s: State, f: Family, path: seq<bool>, d: Tree, slot: Slot, child: Option<Addr>, log: seq<Mem>)
    requires RemovalPoint(s, f, path, d, slot) && SpliceLog(s, d.addr, slot, child, log)
    ensures AllSpared(s, f, log)
  {
    RemovalFacts(s, f, path, d, slot);
    ClearSpares(s, f, s.mem, d.addr, None);
    ParentSpares(s, f, log[0], child, slot);
    SlotSpares(s, f, log[1], slot, child);
    forall j | 0 <= j < |log| ensures Spared(s, f, log[j]) { assert j == 0 || j == 1 || j == 2; }
  }

  lemma SpliceElsewhere(s: State, f: Family, path: seq<bool>, d: Tree, slot: Slot, child: Option<Addr>, log: seq<Mem>)
    requires RemovalPoint(s, f, path, d, slot) && SpliceLog(s, d.addr, slot, child, log)
    ensures SafeElsewhere(s, f, log)
  {
    SpliceSpares(s, f, path, d, slot, child, log);
    SparedSafe(s, f, log);
  }

  lemma ParentElsewhere(s: State, f: Family, path: seq<bool>, d: Tree, slot: Slot, p: Tree, above: Slot, child: Option<Addr>,
                        log: seq<Mem>, n: Mem, n': Mem)
    requires ParentPoint(s, f, path, d, slot, p, above, child) && ParentLog(s, d.addr, slot, above, child, log, n, n')
    ensures SafeElsewhere(s, f, log + [n, n'])
  {
    SpliceSpares(s, f, path, d, slot, None, log);
    RemovalFacts(s, f, path[..|path| - 1], p, above);
    assert Spared(s, f, log[2]);
    ParentSpares(s, f, log[2], child, above);
    SlotSpares(s, f, n, above, child);
    SparedTwo(s, f, log, n, n');
    SparedSafe(s, f, log + [n, n']);
  }

  lemma SparedTwo(s: State, f: Family, log: seq<Mem>, n: Mem, n': Mem)
    requires AllSpared(s, f, log) && Spared(s, f, n) && Spared(s, f, n')
    ensures AllSpared(s, f, log + [n, n'])
  {
    var l := log + [n, n'];
    forall j | 0 <= j < |l| ensures Spared(s, f, l[j]) { if j < |log| { assert l[j] == log[j]; } }
  }
}
