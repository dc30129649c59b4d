/** A reader that takes one load at a time while a writer's stores interleave. Trees stand for what
    a pointer leads to in the current memory; a store changes them at one place. */
module TrieReader {
  import opened Common
  import opened TrieTree
  import opened TrieOps
  import opened TrieHeap

  // ---------------------------------------------------------------- stores, as trees see them

  /** A store that readers of this family cannot notice below a pointer they hold (parent links,
      new nodes, roots), a new peer in a node, or a new child in a slot. */
  datatype Store = Unseen | PeerSet(a: Addr, v: Option<Peer>) | SlotSet(a: Addr, b: bool, g: Tree)

  function Hit(e: Store, s: Tree): (r: Tree) {
    if s.Nil? || e.Unseen? then s
    else
      var s' := s.(left := Hit(e, s.left), right := Hit(e, s.right));
      if s.addr != e.a then s'
      else if e.PeerSet? then s'.(peer := e.v)
      else SetChild(s', e.b, e.g)
  }

  function HitAll(es: seq<Store>, s: Tree): (r: Tree)
    decreases |es|
  {
    if es == [] then s else HitAll(es[1..], Hit(es[0], s))
  }

  predicate Misses(e: Store, s: Tree) {
    e.Unseen? || e.a !in Addrs(s)
  }

  lemma {:induction false} MissKeeps(e: Store, s: Tree)
    requires Misses(e, s)
    ensures Hit(e, s) == s
  {
    if s.Node? {
      MissKeeps(e, s.left);
      MissKeeps(e, s.right);
    }
  }

  /** What hangs below the place a store changes, before it does. */
  function Below(e: Store, s: Tree): (r: set<Addr>)
    ensures r <= Addrs(s)
  {
    if s.Nil? || e.Unseen? then {}
    else
      (if s.addr != e.a then {} else if e.PeerSet? then Addrs(s) else Addrs(Child(s, e.b)))
      + Below(e, s.left) + Below(e, s.right)
  }

  predicate AllMiss(es: seq<Store>, s: Tree) {
    forall i :: 0 <= i < |es| ==> Misses(es[i], s)
  }

  predicate Frozen(es: seq<Store>, area: set<Addr>) {
    forall i :: 0 <= i < |es| ==> es[i].Unseen? || es[i].a !in area
  }

  /** Every version of the tree is an ordered trie, and what a store has cut off or decided is not
      touched by later ones. */
  predicate Calm(es: seq<Store>, s: Tree, w: nat)
    decreases |es|
  {
    && Ordered(s, w) && Distinct(s)
    && (es == [] || (Frozen(es[1..], Below(es[0], s)) && Calm(es[1..], Hit(es[0], s), w)))
  }

  lemma {:induction false} MissCalm(es: seq<Store>, s: Tree, w: nat)
    requires AllMiss(es, s) && Ordered(s, w) && Distinct(s)
    ensures Calm(es, s, w)
    decreases |es|
  {
    if es != [] {
      assert Misses(es[0], s);
      MissKeeps(es[0], s);
      MissBelow(es[0], s);
      forall i | 0 <= i < |es[1..]| ensures Misses(es[1..][i], s) { assert Misses(es[i + 1], s); }
      MissCalm(es[1..], s, w);
    }
  }

  lemma {:induction false} MissBelow(e: Store, s: Tree)
    requires Misses(e, s)
    ensures Below(e, s) == {}
  {
    if s.Node? {
      MissBelow(e, s.left);
      MissBelow(e, s.right);
    }
  }

  /** The child's version is the version's child, unless the store hits this very slot; then the
      old child is left behind untouched. */
  lemma {:induction false} HitChild(e: Store, s: Tree, b: bool)
    requires s.Node? && Distinct(s)
    ensures Hit(e, s).Node? && Hit(e, s).addr == s.addr && Hit(e, s).bits == s.bits && Hit(e, s).cidr == s.cidr
    ensures if e.SlotSet? && e.a == s.addr && e.b == b then Hit(e, Child(s, b)) == Child(s, b)
            else Child(Hit(e, s), b) == Hit(e, Child(s, b))
  {
    if e.SlotSet? && e.a == s.addr && e.b == b { MissKeeps(e, Child(s, b)); }
  }

  lemma {:induction false} CalmChild(es: seq<Store>, s: Tree, w: nat, b: bool)
    requires Calm(es, s, w) && s.Node?
    ensures Calm(es, Child(s, b), w)
    decreases |es|
  {
    if es != [] {
      var e, rest, c := es[0], es[1..], Child(s, b);
      HitChild(e, s, b);
      assert Below(e, c) <= Below(e, s);
      if e.SlotSet? && e.a == s.addr && e.b == b {
        assert Addrs(c) <= Below(e, s);
        forall i | 0 <= i < |rest| ensures Misses(rest[i], c) {}
        MissCalm(rest, c, w);
      } else {
        CalmChild(rest, Hit(e, s), w, b);
      }
    }
  }

  // ---------------------------------------------------------------- where a descent can end

  type Ends = set<Option<Addr>>

  function Next(s: Tree, key: Key): (c: Tree)
    requires s.Node? && s.cidr < |key|
  {
    Child(s, key[s.cidr])
  }

  predicate Covers(s: Tree, key: Key) {
    s.Node? && |s.bits| == |key| && PrefixMatches(s.bits, s.cidr, key)
  }

  /** From here every version of the tree leads to one of the ends. */
  predicate Good(es: seq<Store>, s: Tree, key: Key, best: Option<Addr>, ends: Ends)
    requires Calm(es, s, |key|)
    decreases |es|
  {
    Find(s, key, best) in ends && (es == [] || Good(es[1..], Hit(es[0], s), key, best, ends))
  }

  /** With the node's peer already loaded, every version of its child leads to one of the ends. */
  predicate GoodBelow(es: seq<Store>, s: Tree, key: Key, best: Option<Addr>, ends: Ends)
    requires Calm(es, s, |key|) && s.Node? && s.cidr < |key|
    decreases |es|
  {
    && Find(Next(s, key), key, best) in ends
    && (es == [] || (HitChild(es[0], s, key[s.cidr]); GoodBelow(es[1..], Hit(es[0], s), key, best, ends)))
  }

  lemma {:induction false} MissGood(es: seq<Store>, s: Tree, key: Key, best: Option<Addr>, ends: Ends)
    requires AllMiss(es, s) && Calm(es, s, |key|) && Find(s, key, best) in ends
    ensures Good(es, s, key, best, ends)
    decreases |es|
  {
    if es != [] {
      assert Misses(es[0], s);
      MissKeeps(es[0], s);
      forall i | 0 <= i < |es[1..]| ensures Misses(es[1..][i], s) { assert Misses(es[i + 1], s); }
      MissGood(es[1..], s, key, best, ends);
    }
  }

  /** Loading the child: whatever version it is, and whatever happens to it later. */
  lemma {:induction false} LoadChild(es: seq<Store>, s: Tree, key: Key, best: Option<Addr>, ends: Ends)
    requires Calm(es, s, |key|) && s.Node? && s.cidr < |key| && GoodBelow(es, s, key, best, ends)
    ensures Calm(es, Next(s, key), |key|) && Good(es, Next(s, key), key, best, ends)
    decreases |es|
  {
    var b := key[s.cidr];
    CalmChild(es, s, |key|, b);
    if es != [] {
      var e, rest, c := es[0], es[1..], Child(s, b);
      HitChild(e, s, b);
      if e.SlotSet? && e.a == s.addr && e.b == b {
        assert Addrs(c) <= Below(e, s);
        forall i | 0 <= i < |rest| ensures Misses(rest[i], c) {}
        MissGood(rest, c, key, best, ends);
      } else {
        LoadChild(rest, Hit(e, s), key, best, ends);
      }
    }
  }

  /** Once a node's peer has been decided for good, a descent below it ends where it would have
      ended then. */
  lemma {:induction false} MissGoodBelow(es: seq<Store>, s: Tree, key: Key, best: Option<Addr>, ends: Ends)
    requires AllMiss(es, s) && Calm(es, s, |key|) && s.Node? && s.cidr < |key| && Find(Next(s, key), key, best) in ends
    ensures GoodBelow(es, s, key, best, ends)
    decreases |es|
  {
    if es != [] {
      assert Misses(es[0], s);
      MissKeeps(es[0], s);
      forall i | 0 <= i < |es[1..]| ensures Misses(es[1..][i], s) { assert Misses(es[i + 1], s); }
      MissGoodBelow(es[1..], s, key, best, ends);
    }
  }

  /** Loading the peer of a node that covers the key. */
  lemma {:induction false} LoadPeer(es: seq<Store>, s: Tree, key: Key, best: Option<Addr>, ends: Ends)
    requires Calm(es, s, |key|) && Good(es, s, key, best, ends) && Covers(s, key)
    ensures var best' := if s.peer.Some? then Some(s.addr) else best;
            if s.cidr == |key| then best' in ends else s.cidr < |key| && GoodBelow(es, s, key, best', ends)
    decreases |es|
  {
    var best' := if s.peer.Some? then Some(s.addr) else best;
    if s.cidr < |key| && es != [] {
      var e, rest := es[0], es[1..];
      HitChild(e, s, key[s.cidr]);
      if e.PeerSet? && e.a == s.addr {
        assert Next(Hit(e, s), key) == Next(s, key) by {
          MissKeeps(e, s.left);
          MissKeeps(e, s.right);
        }
        HitAddrs(e, s);
        assert Addrs(s) <= Below(e, s);
        forall i | 0 <= i < |rest| ensures Misses(rest[i], Hit(e, s)) {}
        MissGoodBelow(rest, Hit(e, s), key, best', ends);
      } else {
        assert Hit(e, s).peer == s.peer;
        LoadPeer(rest, Hit(e, s), key, best, ends);
      }
    }
  }

  lemma {:induction false} HitAddrs(e: Store, s: Tree)
    requires e.PeerSet?
    ensures Addrs(Hit(e, s)) == Addrs(s)
  {
    if s.Node? {
      HitAddrs(e, s.left);
      HitAddrs(e, s.right);
    }
  }

  // ---------------------------------------------------------------- stores in memory

  /** What a store does to the fields that readers look at. New nodes may appear; `hidden` nodes are
      not reachable for readers yet, and only their peer is settled. */
  ghost predicate Effect(m: Nodes, n: Nodes, e: Store, hidden: set<Addr>) {
    && (forall x :: x in m ==> x in n && n[x].peer == if e.PeerSet? && x == e.a then e.v else m[x].peer)
    && match e
       case Unseen => forall x :: x in m && x !in hidden ==> SameForReaders(m[x], n[x])
       case PeerSet(a, v) =>
         forall x :: x in m && x !in hidden ==> SameForReaders(if x == a then m[x].(peer := v) else m[x], n[x])
       case SlotSet(a, b, g) =>
         var q := if g.Node? then Some(g.addr) else None;
         && Shape(n, q, g)
         && forall x :: x in m && x !in hidden ==> SameForReaders(if x == a then SetBit(m[x], b, q) else m[x], n[x])
  }

  /** Whatever a pointer leads to, a store changes it as `Hit` says. */
  lemma {:induction false} HitShape(m: Nodes, n: Nodes, e: Store, hidden: set<Addr>, p: Option<Addr>, s: Tree)
    requires Effect(m, n, e, hidden) && Shape(m, p, s) && Addrs(s) !! hidden
    ensures Shape(n, p, Hit(e, s))
    decreases s
  {
    if s.Node? {
      HitShape(m, n, e, hidden, m[s.addr].bit0, s.left);
      HitShape(m, n, e, hidden, m[s.addr].bit1, s.right);
    }
  }

  function Brought(e: Store): (r: set<Addr>) {
    if e.SlotSet? then Addrs(e.g) else {}
  }

  lemma {:induction false} HitReach(e: Store, s: Tree)
    ensures Addrs(Hit(e, s)) <= Addrs(s) + Brought(e)
  {
    if s.Node? && !e.Unseen? {
      HitReach(e, s.left);
      HitReach(e, s.right);
      var s' := s.(left := Hit(e, s.left), right := Hit(e, s.right));
      assert Addrs(s') <= Addrs(s) + Brought(e);
    }
  }

  // ---------------------------------------------------------------- the reader

  /** Where a lookup stands between two loads. */
  datatype Reader =
    | Begin
    | AtNode(p: Option<Addr>, best: Option<Addr>)     // holds a pointer
    | GotPeer(a: Addr, best: Option<Addr>)            // peer looked at, child to be loaded
    | Found(best: Option<Addr>)                       // descent over, peer to be loaded
    | Answered(peer: Option<Peer>)

  /** One load of `find_node` and `lookup`: bits and length of a node never change, so testing the
      prefix and the peer is one load. A peer that is gone by the second look starts over. */
  function Load(m: Mem, f: Family, key: Key, r: Reader): (r': Reader) {
    match r
    case Begin => AtNode(RootOf(m, f), None)
    case AtNode(p, best) =>
      if p.None? || p.value !in m.nodes then Found(best)
      else
        var n := m.nodes[p.value];
        if |n.bits| != |key| || !PrefixMatches(n.bits, n.cidr, key) then Found(best)
        else
          var best' := if n.peer.Some? then p else best;
          if n.cidr >= |key| then Found(best') else GotPeer(p.value, best')
    case GotPeer(a, best) =>
      if a !in m.nodes || m.nodes[a].cidr >= |key| then Found(best)
      else AtNode(Bit(m.nodes[a], key[m.nodes[a].cidr]), best)
    case Found(best) =>
      if best.None? then Answered(None)
      else if best.value !in m.nodes || m.nodes[best.value].peer.None? then Begin
      else Answered(m.nodes[best.value].peer)
    case Answered(_) => r
  }

  datatype Turn = Writer | Lookup

  /** The memory the writer has reached, and the reader, after any interleaving. */
  function Interleaved(ms: seq<Mem>, f: Family, key: Key, turns: seq<Turn>): (r: (nat, Reader))
    requires ms != []
    ensures r.0 < |ms|
    decreases |turns|
  {
    if turns == [] then (0, Begin)
    else
      var (j, r) := Interleaved(ms, f, key, turns[..|turns| - 1]);
      if turns[|turns| - 1].Lookup? then (j, Load(ms[j], f, key, r))
      else if j + 1 < |ms| then (j + 1, r) else (j, r)
  }

  /** The memories of an operation, its stores, the nodes still hidden, and the trees at the root. */
  ghost predicate Scene(f: Family, ms: seq<Mem>, es: seq<Store>, hs: seq<set<Addr>>, ts: seq<Tree>, key: Key, ends: Ends) {
    && |key| == Width(f) && ms != [] && |es| == |ms| - 1 && |ts| == |ms| == |hs|
    && (forall j :: 0 <= j < |es| ==> StoreAt(ms, es, hs, j))
    && (forall j :: 0 <= j < |ms| ==> Leads(ms[j].nodes, hs[j], RootOf(ms[j], f), ts[j], es[j..], key, None, ends))
  }

  ghost predicate StoreAt(ms: seq<Mem>, es: seq<Store>, hs: seq<set<Addr>>, j: nat)
    requires j < |es| && |ms| == |hs| == |es| + 1
  {
    Effect(ms[j].nodes, ms[j + 1].nodes, es[j], hs[j]) && hs[j + 1] <= hs[j] && Brought(es[j]) !! hs[j + 1]
  }

  ghost predicate Leads(m: Nodes, hidden: set<Addr>, p: Option<Addr>, s: Tree, es: seq<Store>, key: Key, best: Option<Addr>, ends: Ends) {
    Shape(m, p, s) && Addrs(s) !! hidden && Calm(es, s, |key|) && Good(es, s, key, best, ends)
  }

  ghost predicate LeadsBelow(m: Nodes, hidden: set<Addr>, a: Addr, s: Tree, es: seq<Store>, key: Key, best: Option<Addr>, ends: Ends) {
    && s.Node? && Shape(m, Some(a), s) && Addrs(s) !! hidden && Calm(es, s, |key|) && s.cidr < |key|
    && GoodBelow(es, s, key, best, ends)
  }

  /** The reader will end well: at one of the ends, with one of the answers. */
  ghost predicate Tracked(m: Nodes, hidden: set<Addr>, es: seq<Store>, key: Key, ends: Ends, answers: set<Option<Peer>>, r: Reader) {
    match r
    case Begin => true
    case AtNode(p, best) => exists s :: Leads(m, hidden, p, s, es, key, best, ends)
    case GotPeer(a, best) => exists s :: LeadsBelow(m, hidden, a, s, es, key, best, ends)
    case Found(best) => best in ends
    case Answered(peer) => peer in answers
  }

  /** The peers that the ends carry, whenever they are looked at. */
  ghost predicate PeersOk(ms: seq<Mem>, ends: Ends, answers: set<Option<Peer>>) {
    && (None in ends ==> None in answers)
    && forall j, a :: 0 <= j < |ms| && Some(a) in ends && a in ms[j].nodes && ms[j].nodes[a].peer.Some? ==>
         ms[j].nodes[a].peer in answers
  }

  lemma WriterTracks(m: Nodes, n: Nodes, h: set<Addr>, h': set<Addr>, e: Store, es: seq<Store>, key: Key, ends: Ends,
                     answers: set<Option<Peer>>, r: Reader)
    requires Effect(m, n, e, h) && h' <= h && Brought(e) !! h' && Tracked(m, h, [e] + es, key, ends, answers, r)
    ensures Tracked(n, h', es, key, ends, answers, r)
  {
    assert ([e] + es)[1..] == es;
    match r
    case AtNode(p, best) =>
      var s :| Leads(m, h, p, s, [e] + es, key, best, ends);
      HitShape(m, n, e, h, p, s);
      HitReach(e, s);
      assert Leads(n, h', p, Hit(e, s), es, key, best, ends);
    case GotPeer(a, best) =>
      var s :| LeadsBelow(m, h, a, s, [e] + es, key, best, ends);
      HitShape(m, n, e, h, Some(a), s);
      HitReach(e, s);
      HitChild(e, s, key[s.cidr]);
      assert LeadsBelow(n, h', a, Hit(e, s), es, key, best, ends);
    case _ =>
  }

  lemma NodeLoadTracks(m: Mem, f: Family, h: set<Addr>, es: seq<Store>, key: Key, ends: Ends, answers: set<Option<Peer>>,
                       p: Option<Addr>, best: Option<Addr>, s: Tree)
    requires Leads(m.nodes, h, p, s, es, key, best, ends)
    ensures Tracked(m.nodes, h, es, key, ends, answers, Load(m, f, key, AtNode(p, best)))
  {
    if s.Node? && Covers(s, key) {
      LoadPeer(es, s, key, best, ends);
      var best' := if s.peer.Some? then Some(s.addr) else best;
      if s.cidr < |key| { assert LeadsBelow(m.nodes, h, s.addr, s, es, key, best', ends); }
    }
  }

  lemma ChildLoadTracks(m: Mem, f: Family, h: set<Addr>, es: seq<Store>, key: Key, ends: Ends, answers: set<Option<Peer>>,
                        a: Addr, best: Option<Addr>, s: Tree)
    requires LeadsBelow(m.nodes, h, a, s, es, key, best, ends)
    ensures Tracked(m.nodes, h, es, key, ends, answers, Load(m, f, key, GotPeer(a, best)))
  {
    LoadChild(es, s, key, best, ends);
    assert Leads(m.nodes, h, Bit(m.nodes[a], key[s.cidr]), Next(s, key), es, key, best, ends);
  }

  lemma LoadTracks(f: Family, ms: seq<Mem>, es: seq<Store>, hs: seq<set<Addr>>, ts: seq<Tree>, key: Key, ends: Ends,
                   answers: set<Option<Peer>>, j: nat, r: Reader)
    requires Scene(f, ms, es, hs, ts, key, ends) && PeersOk(ms, ends, answers) && j < |ms|
    requires Tracked(ms[j].nodes, hs[j], es[j..], key, ends, answers, r)
    ensures Tracked(ms[j].nodes, hs[j], es[j..], key, ends, answers, Load(ms[j], f, key, r))
  {
    match r
    case Begin => assert Leads(ms[j].nodes, hs[j], RootOf(ms[j], f), ts[j], es[j..], key, None, ends);
    case AtNode(p, best) =>
      var s :| Leads(ms[j].nodes, hs[j], p, s, es[j..], key, best, ends);
      NodeLoadTracks(ms[j], f, hs[j], es[j..], key, ends, answers, p, best, s);
    case GotPeer(a, best) =>
      var s :| LeadsBelow(ms[j].nodes, hs[j], a, s, es[j..], key, best, ends);
      ChildLoadTracks(ms[j], f, hs[j], es[j..], key, ends, answers, a, best, s);
    case Found(best) =>
    case Answered(_) =>
  }

  ghost predicate TrackedAt(ms: seq<Mem>, es: seq<Store>, hs: seq<set<Addr>>, key: Key, ends: Ends, answers: set<Option<Peer>>, at: (nat, Reader)) {
    && |ms| == |hs| == |es| + 1 && at.0 < |ms|
    && Tracked(ms[at.0].nodes, hs[at.0], es[at.0..], key, ends, answers, at.1)
  }

  lemma WriterStep(f: Family, ms: seq<Mem>, es: seq<Store>, hs: seq<set<Addr>>, ts: seq<Tree>, key: Key, ends: Ends,
                   answers: set<Option<Peer>>, j: nat, r: Reader)
    requires Scene(f, ms, es, hs, ts, key, ends) && j + 1 < |ms| && TrackedAt(ms, es, hs, key, ends, answers, (j, r))
    ensures TrackedAt(ms, es, hs, key, ends, answers, (j + 1, r))
  {
    assert es[j..] == [es[j]] + es[j + 1..];
    assert StoreAt(ms, es, hs, j);
    WriterTracks(ms[j].nodes, ms[j + 1].nodes, hs[j], hs[j + 1], es[j], es[j + 1..], key, ends, answers, r);
  }

  /** However the loads of a lookup and the stores of an operation interleave, the lookup's answer
      is one of the given ones. */
  lemma {:induction false} InterleavedSafe(f: Family, ms: seq<Mem>, es: seq<Store>, hs: seq<set<Addr>>, ts: seq<Tree>, key: Key,
                                           ends: Ends, answers: set<Option<Peer>>, turns: seq<Turn>)
    requires Scene(f, ms, es, hs, ts, key, ends) && PeersOk(ms, ends, answers)
    ensures TrackedAt(ms, es, hs, key, ends, answers, Interleaved(ms, f, key, turns))
    decreases |turns|
  {
    if turns != [] {
      var n := |turns| - 1;
      InterleavedSafe(f, ms, es, hs, ts, key, ends, answers, turns[..n]);
      var (j, r) := Interleaved(ms, f, key, turns[..n]);
      if turns[n].Lookup? {
        LoadTracks(f, ms, es, hs, ts, key, ends, answers, j, r);
      } else if j + 1 < |ms| {
        WriterStep(f, ms, es, hs, ts, key, ends, answers, j, r);
      }
    }
  }
}
