/** Lookups that run while `add` or `remove_node` stores: however the single loads of a reader and
    the single stores of the writer interleave, the answer is that of the table before or after. */
module AllowedIpsReader {
  import opened Common
  import opened TrieTree
  import opened TrieOps
  import opened TrieHeap
  import opened TrieMem
  import opened TrieReader
  import opened AllowedIpsState
  import opened AllowedIpsInsert
  import opened AllowedIpsRemove

  /** No interleaving gives a lookup any answer but those of the two tables. */
  ghost predicate SafeForReaders(f: Family, ms: seq<Mem>, before: Table, after: Table)
    requires ms != []
  {
    forall key: Key, turns: seq<Turn> :: |key| == Width(f) ==>
      AnswerIn(Interleaved(ms, f, key, turns), {LongestMatch(before, key), LongestMatch(after, key)})
  }

  // ---------------------------------------------------------------- an undisturbed lookup

  function Loads(m: Mem, f: Family, key: Key, r: Reader, n: nat): (r': Reader)
    decreases n
  {
    if n == 0 then r else Loads(m, f, key, Load(m, f, key, r), n - 1)
  }

  lemma LoadAtNode(m: Mem, f: Family, key: Key, p: Option<Addr>, s: Tree, best: Option<Addr>)
    requires Shape(m.nodes, p, s) && Ordered(s, |key|)
    ensures var best' := if s.Node? && s.peer.Some? then p else best;
            Load(m, f, key, AtNode(p, best)) ==
              if s.Nil? || !PrefixMatches(s.bits, s.cidr, key) then Found(best)
              else if s.cidr == |key| then Found(best')
              else GotPeer(s.addr, best')
  {
  }

  lemma {:induction false} DescentEnds(m: Mem, f: Family, key: Key, p: Option<Addr>, s: Tree, best: Option<Addr>, c: nat) returns (n: nat)
    requires Shape(m.nodes, p, s) && Ordered(s, |key|) && c <= |key| + 1 && (s.Node? ==> c <= s.cidr)
    ensures Loads(m, f, key, AtNode(p, best), n) == Found(Find(s, key, best)) && n <= 2 * (|key| + 1 - c) + 1
    decreases s
  {
    LoadAtNode(m, f, key, p, s, best);
    if s.Node? && PrefixMatches(s.bits, s.cidr, key) && s.cidr != |key| {
      var b, best' := key[s.cidr], if s.peer.Some? then p else best;
      var k := DescentEnds(m, f, key, Bit(m.nodes[s.addr], b), Child(s, b), best', s.cidr + 1);
      n := k + 2;
      assert Load(m, f, key, GotPeer(s.addr, best')) == AtNode(Bit(m.nodes[s.addr], b), best');
    } else {
      n := 1;
      assert Loads(m, f, key, Load(m, f, key, AtNode(p, best)), 0) == Load(m, f, key, AtNode(p, best));
    }
  }

  lemma {:induction false} LoadsAppend(m: Mem, f: Family, key: Key, r: Reader, n: nat)
    ensures Loads(m, f, key, r, n + 1) == Load(m, f, key, Loads(m, f, key, r, n))
    decreases n
  {
    if n > 0 { LoadsAppend(m, f, key, Load(m, f, key, r), n - 1); }
  }

  /** A lookup that no store disturbs ends within two loads a bit, with the table's answer. */
  lemma UndisturbedAnswers(m: Mem, f: Family, key: Key, table: Table) returns (n: nat)
    requires |key| == Width(f) && Reads(m, f, table)
    ensures Loads(m, f, key, Begin, n) == Answered(LongestMatch(table, key)) && n <= 2 * Width(f) + 5
  {
    var t :| Shape(m.nodes, RootOf(m, f), t) && Ordered(t, Width(f)) && TableOf(t) == table;
    var k := DescentEnds(m, f, key, RootOf(m, f), t, None, 0);
    n := k + 2;
    LoadsAppend(m, f, key, Begin, k + 1);
    FoundAnswers(m, f, key, t);
  }

  lemma FoundAnswers(m: Mem, f: Family, key: Key, t: Tree)
    requires Shape(m.nodes, RootOf(m, f), t) && Ordered(t, |key|)
    ensures Load(m, f, key, Found(Find(t, key, None))) == Answered(LongestMatch(TableOf(t), key))
  {
    FindCarriesPeer(m.nodes, RootOf(m, f), t, key, None, None);
    LookupIsLongestMatch(t, key);
  }

  // ---------------------------------------------------------------- stores on whole tries

  /** A store through the slot at a path replaces that subtree. */
  lemma {:induction false} SlotSetIsPut(s: Slot, t: Tree, path: seq<bool>, g: Tree)
    requires OnTree(t, path) && path != [] && Distinct(t)
    ensures var slot := SlotOf(s, t, path);
            && slot.Link? && slot.node in Addrs(t) && slot.node !in Addrs(Get(t, path))
            && Hit(SlotSet(slot.node, slot.bit, g), t) == Put(t, path, g)
            && Below(SlotSet(slot.node, slot.bit, g), t) == Addrs(Get(t, path))
    decreases path
  {
    var b := path[0];
    var c, o := Child(t, b), Child(t, !b);
    if |path| == 1 {
      assert path[1..] == [];
      assert SlotOf(s, t, path) == Link(t.addr, b);
      var e := SlotSet(t.addr, b, g);
      MissKeeps(e, c);
      MissBelow(e, c);
      MissKeeps(e, o);
      MissBelow(e, o);
    } else {
      SlotSetIsPut(Link(t.addr, b), c, path[1..], g);
      var slot := SlotOf(Link(t.addr, b), c, path[1..]);
      var e := SlotSet(slot.node, slot.bit, g);
      MissKeeps(e, o);
      MissBelow(e, o);
    }
  }

  /** A store to the peer of the node at a path. */
  lemma {:induction false} PeerSetIsPut(t: Tree, path: seq<bool>, v: Option<Peer>)
    requires OnTree(t, path) && Get(t, path).Node? && Distinct(t)
    ensures var d := Get(t, path);
            && d.addr in Addrs(t)
            && Hit(PeerSet(d.addr, v), t) == Put(t, path, d.(peer := v))
            && Below(PeerSet(d.addr, v), t) == Addrs(d)
    decreases path
  {
    var e := PeerSet(Get(t, path).addr, v);
    if path == [] {
      MissKeeps(e, t.left);
      MissKeeps(e, t.right);
      MissBelow(e, t.left);
      MissBelow(e, t.right);
    } else {
      var b := path[0];
      PeerSetIsPut(Child(t, b), path[1..], v);
      MissKeeps(e, Child(t, !b));
      MissBelow(e, Child(t, !b));
    }
  }

  // ---------------------------------------------------------------- versions of the trie

  /** Each version of the trie is the store applied to the one before; a new root comes last. */
  predicate Versions(es: seq<Store>, ts: seq<Tree>, w: nat) {
    && |ts| == |es| + 1
    && (forall j :: 0 <= j < |ts| ==> Ordered(ts[j], w) && Distinct(ts[j]))
    && (forall j :: 0 <= j < |es| ==> NextVersion(es, ts, j))
  }

  predicate NextVersion(es: seq<Store>, ts: seq<Tree>, j: nat)
    requires j < |es| && |ts| == |es| + 1
  {
    && (ts[j + 1] == Hit(es[j], ts[j]) || (es[j].Unseen? && j == |es| - 1))
    && Frozen(es[j + 1..], Below(es[j], ts[j]))
  }

  lemma {:induction false} VersionsCalm(es: seq<Store>, ts: seq<Tree>, w: nat, j: nat)
    requires Versions(es, ts, w) && j <= |es|
    ensures Calm(es[j..], ts[j], w)
    decreases |es| - j
  {
    if j < |es| {
      assert NextVersion(es, ts, j);
      assert es[j..][1..] == es[j + 1..];
      VersionsCalm(es, ts, w, j + 1);
    }
  }

  lemma {:induction false} VersionsGood(es: seq<Store>, ts: seq<Tree>, key: Key, ends: Ends, j: nat)
    requires Versions(es, ts, |key|) && j <= |es|
    requires forall k :: 0 <= k < |ts| ==> Find(ts[k], key, None) in ends
    ensures Calm(es[j..], ts[j], |key|) && Good(es[j..], ts[j], key, None, ends)
    decreases |es| - j
  {
    VersionsCalm(es, ts, |key|, j);
    if j < |es| {
      assert NextVersion(es, ts, j);
      assert es[j..][1..] == es[j + 1..];
      VersionsGood(es, ts, key, ends, j + 1);
    }
  }

  /** The memories, the stores, the hidden nodes and the tries of one operation. */
  ghost predicate Follows(f: Family, ms: seq<Mem>, es: seq<Store>, hs: seq<set<Addr>>, ts: seq<Tree>) {
    && |ms| == |hs| == |es| + 1 && Versions(es, ts, Width(f))
    && (forall j :: 0 <= j < |es| ==> StoreAt(ms, es, hs, j))
    && (forall j :: 0 <= j < |ms| ==> Shape(ms[j].nodes, RootOf(ms[j], f), ts[j]) && Addrs(ts[j]) !! hs[j])
  }

  function EndsOf(ts: seq<Tree>, key: Key): (r: Ends)
    requires forall j :: 0 <= j < |ts| ==> Ordered(ts[j], |key|)
  {
    set j | 0 <= j < |ts| :: Find(ts[j], key, None)
  }

  lemma FollowsScene(f: Family, ms: seq<Mem>, es: seq<Store>, hs: seq<set<Addr>>, ts: seq<Tree>, key: Key)
    requires Follows(f, ms, es, hs, ts) && |key| == Width(f)
    ensures Scene(f, ms, es, hs, ts, key, EndsOf(ts, key))
  {
    var ends := EndsOf(ts, key);
    forall j | 0 <= j < |ms| ensures Leads(ms[j].nodes, hs[j], RootOf(ms[j], f), ts[j], es[j..], key, None, ends) {
      VersionsGood(es, ts, key, ends, j);
    }
  }

  // ---------------------------------------------------------------- peers

  predicate SetsPeer(es: seq<Store>, a: Addr) {
    exists i :: 0 <= i < |es| && es[i].PeerSet? && es[i].a == a
  }

  lemma {:induction false} PeerKept(ms: seq<Mem>, es: seq<Store>, hs: seq<set<Addr>>, a: Addr, j: nat, k: nat)
    requires |ms| == |hs| == |es| + 1 && j <= k < |ms| && a in ms[j].nodes
    requires forall i :: 0 <= i < |es| ==> StoreAt(ms, es, hs, i)
    requires forall i :: j <= i < k ==> !(es[i].PeerSet? && es[i].a == a)
    ensures a in ms[k].nodes && ms[k].nodes[a].peer == ms[j].nodes[a].peer
    decreases k
  {
    if j < k {
      PeerKept(ms, es, hs, a, j, k - 1);
      assert StoreAt(ms, es, hs, k - 1);
    }
  }

  /** What a version's descent ends with, and the peer it carries. */
  lemma EndCarries(f: Family, ms: seq<Mem>, es: seq<Store>, hs: seq<set<Addr>>, ts: seq<Tree>, key: Key, k: nat)
    requires Follows(f, ms, es, hs, ts) && |key| == Width(f) && k < |ms|
    ensures var e := Find(ts[k], key, None);
            && (e.None? ==> LongestMatch(TableOf(ts[k]), key) == None)
            && (e.Some? ==> e.value in ms[k].nodes && ms[k].nodes[e.value].peer == LongestMatch(TableOf(ts[k]), key)
                            && ms[k].nodes[e.value].peer.Some?)
  {
    FindCarriesPeer(ms[k].nodes, RootOf(ms[k], f), ts[k], key, None, None);
    LookupIsLongestMatch(ts[k], key);
  }

  /** The nodes whose peer an operation stores never show a reader a wrong one. */
  ghost predicate TargetsOk(ms: seq<Mem>, es: seq<Store>, ends: Ends, answers: set<Option<Peer>>) {
    forall a: Addr, j :: 0 <= j < |ms| && SetsPeer(es, a) && Some(a) in ends && a in ms[j].nodes && ms[j].nodes[a].peer.Some? ==>
      ms[j].nodes[a].peer in answers
  }

  lemma EndsPeers(f: Family, ms: seq<Mem>, es: seq<Store>, hs: seq<set<Addr>>, ts: seq<Tree>, key: Key, before: Table, after: Table)
    requires Follows(f, ms, es, hs, ts) && |key| == Width(f)
    requires forall j :: 0 <= j < |ts| ==> TableOf(ts[j]) == before || TableOf(ts[j]) == after
    requires TargetsOk(ms, es, EndsOf(ts, key), {LongestMatch(before, key), LongestMatch(after, key)})
    ensures PeersOk(ms, EndsOf(ts, key), {LongestMatch(before, key), LongestMatch(after, key)})
  {
    var ends, answers := EndsOf(ts, key), {LongestMatch(before, key), LongestMatch(after, key)};
    if None in ends {
      var k :| 0 <= k < |ts| && Find(ts[k], key, None) == None;
      EndCarries(f, ms, es, hs, ts, key, k);
    }
    forall j, a | 0 <= j < |ms| && Some(a) in ends && a in ms[j].nodes && ms[j].nodes[a].peer.Some?
      ensures ms[j].nodes[a].peer in answers
    {
      if !SetsPeer(es, a) {
        var k :| 0 <= k < |ts| && Find(ts[k], key, None) == Some(a);
        EndCarries(f, ms, es, hs, ts, key, k);
        if j <= k { PeerKept(ms, es, hs, a, j, k); } else { PeerKept(ms, es, hs, a, k, j); }
      }
    }
  }

  predicate AnswerIn(at: (nat, Reader), answers: set<Option<Peer>>) {
    at.1.Answered? ==> at.1.peer in answers
  }

  lemma FollowedKey(f: Family, ms: seq<Mem>, es: seq<Store>, hs: seq<set<Addr>>, ts: seq<Tree>, before: Table, after: Table,
                    key: Key, turns: seq<Turn>)
    requires Follows(f, ms, es, hs, ts) && |key| == Width(f)
    requires forall j :: 0 <= j < |ts| ==> TableOf(ts[j]) == before || TableOf(ts[j]) == after
    requires TargetsOk(ms, es, EndsOf(ts, key), {LongestMatch(before, key), LongestMatch(after, key)})
    ensures AnswerIn(Interleaved(ms, f, key, turns), {LongestMatch(before, key), LongestMatch(after, key)})
  {
    var answers := {LongestMatch(before, key), LongestMatch(after, key)};
    FollowsScene(f, ms, es, hs, ts, key);
    EndsPeers(f, ms, es, hs, ts, key, before, after);
    InterleavedSafe(f, ms, es, hs, ts, key, EndsOf(ts, key), answers, turns);
  }

  ghost predicate KeyTargetsOk(ms: seq<Mem>, es: seq<Store>, ts: seq<Tree>, before: Table, after: Table, key: Key) {
    (forall j :: 0 <= j < |ts| ==> Ordered(ts[j], |key|)) ==>
      TargetsOk(ms, es, EndsOf(ts, key), {LongestMatch(before, key), LongestMatch(after, key)})
  }

  /** The common end of all operations. */
  lemma FollowedSafe(f: Family, ms: seq<Mem>, es: seq<Store>, hs: seq<set<Addr>>, ts: seq<Tree>, before: Table, after: Table)
    requires Follows(f, ms, es, hs, ts)
    requires forall j :: 0 <= j < |ts| ==> TableOf(ts[j]) == before || TableOf(ts[j]) == after
    requires forall key: Key :: |key| == Width(f) ==> KeyTargetsOk(ms, es, ts, before, after, key)
    ensures SafeForReaders(f, ms, before, after)
  {
    forall key: Key, turns: seq<Turn> | |key| == Width(f)
      ensures AnswerIn(Interleaved(ms, f, key, turns), {LongestMatch(before, key), LongestMatch(after, key)})
    {
      assert KeyTargetsOk(ms, es, ts, before, after, key);
      FollowedKey(f, ms, es, hs, ts, before, after, key, turns);
    }
  }

  // ---------------------------------------------------------------- insertion

  /** Before the publishing store: readers see the old trie, and the new nodes carry their peers. */
  ghost predicate Staged(s: State, m: Mem, peer: Peer) {
    && Quiet(s, m)
    && s.mem.nodes.Keys <= m.nodes.Keys <= s.mem.nodes.Keys + {s.next, s.next + 1}
    && NewPeers(s, m, peer)
  }

  ghost predicate NewPeers(s: State, m: Mem, peer: Peer) {
    && (s.next in m.nodes ==> m.nodes[s.next].peer == Some(peer))
    && (s.next + 1 in m.nodes ==> m.nodes[s.next + 1].peer == None)
  }

  ghost predicate StageStep(s: State, m: Mem, n: Mem, peer: Peer) {
    Staged(s, m, peer) && m.nodes.Keys <= n.nodes.Keys
  }

  lemma StageWrite(s: State, m: Mem, a: Addr, y: HNode, peer: Peer)
    requires s.next !in s.mem.nodes && s.next + 1 !in s.mem.nodes && Staged(s, m, peer)
    requires (a == s.next && y.peer == Some(peer)) || (a == s.next + 1 && y.peer == None)
    ensures Staged(s, m.(nodes := m.nodes[a := y]), peer) && StageStep(s, m, m.(nodes := m.nodes[a := y]), peer)
  {
    var n := m.(nodes := m.nodes[a := y]);
    forall x | x in s.mem.nodes ensures x in n.nodes && SameForReaders(s.mem.nodes[x], n.nodes[x]) {
      assert SameForReaders(s.mem.nodes[x], m.nodes[x]);
    }
  }

  lemma StageParent(s: State, m: Mem, a: Addr, slot: Slot, peer: Peer)
    requires s.next !in s.mem.nodes && s.next + 1 !in s.mem.nodes && Staged(s, m, peer) && a in m.nodes
    ensures Staged(s, SetParent(m, a, slot), peer) && StageStep(s, m, SetParent(m, a, slot), peer)
  {
    var n := SetParent(m, a, slot);
    forall x | x in s.mem.nodes ensures x in n.nodes && SameForReaders(s.mem.nodes[x], n.nodes[x]) {
      assert SameForReaders(s.mem.nodes[x], m.nodes[x]);
    }
  }

  lemma StageLast(s: State, m: Mem, slot: Slot, q: Option<Addr>, peer: Peer)
    requires Staged(s, m, peer) && (slot.Link? ==> slot.node in m.nodes)
    ensures StageStep(s, m, StoreSlot(m, slot, q), peer)
  {
  }

  lemma StagedEffect(s: State, m: Mem, n: Mem, peer: Peer)
    requires s.next !in s.mem.nodes && s.next + 1 !in s.mem.nodes
    requires Staged(s, m, peer) && Staged(s, n, peer) && m.nodes.Keys <= n.nodes.Keys
    ensures Effect(m.nodes, n.nodes, Unseen, {s.next, s.next + 1})
  {
    forall x | x in m.nodes ensures x in n.nodes && n.nodes[x].peer == m.nodes[x].peer {
      if x in s.mem.nodes { assert SameForReaders(s.mem.nodes[x], m.nodes[x]) && SameForReaders(s.mem.nodes[x], n.nodes[x]); }
    }
    forall x | x in m.nodes && x !in {s.next, s.next + 1} ensures SameForReaders(m.nodes[x], n.nodes[x]) {
      assert SameForReaders(s.mem.nodes[x], m.nodes[x]) && SameForReaders(s.mem.nodes[x], n.nodes[x]);
    }
  }

  function Publishing(slot: Slot, g: Tree): (e: Store) {
    if slot.Link? then SlotSet(slot.node, slot.bit, g) else Unseen
  }

  lemma PublishPeers(s: State, m: Mem, n: Mem, f: Family, slot: Slot, g: Tree, down: Option<Addr>, under: Slot, peer: Peer)
    requires s.next !in s.mem.nodes && s.next + 1 !in s.mem.nodes
    requires Staged(s, m, peer) && g.Node? && Grafting(s, n, f, slot, g.addr, down, under)
    requires m.nodes.Keys <= n.nodes.Keys && NewPeers(s, n, peer)
    ensures forall x :: x in m.nodes ==> x in n.nodes && n.nodes[x].peer == m.nodes[x].peer
  {
    forall x | x in m.nodes ensures x in n.nodes && n.nodes[x].peer == m.nodes[x].peer {
      if x in s.mem.nodes { assert SameForReaders(s.mem.nodes[x], m.nodes[x]); }
    }
  }

  lemma PublishEffect(s: State, m: Mem, n: Mem, f: Family, slot: Slot, g: Tree, down: Option<Addr>, under: Slot, peer: Peer)
    requires s.next !in s.mem.nodes && s.next + 1 !in s.mem.nodes
    requires Staged(s, m, peer) && g.Node? && Grafting(s, n, f, slot, g.addr, down, under)
    requires Shape(n.nodes, Some(g.addr), g) && m.nodes.Keys <= n.nodes.Keys && NewPeers(s, n, peer)
    ensures Effect(m.nodes, n.nodes, Publishing(slot, g), {s.next, s.next + 1})
  {
    PublishPeers(s, m, n, f, slot, g, down, under, peer);
    PublishReaders(s, m, n, f, slot, g, down, under, peer);
  }

  lemma PublishReaders(s: State, m: Mem, n: Mem, f: Family, slot: Slot, g: Tree, down: Option<Addr>, under: Slot, peer: Peer)
    requires Staged(s, m, peer) && g.Node? && Grafting(s, n, f, slot, g.addr, down, under)
    ensures forall x :: x in m.nodes && x !in {s.next, s.next + 1} ==>
              x in n.nodes && SameForReaders(if slot.Link? && x == slot.node then SetBit(m.nodes[x], slot.bit, Some(g.addr)) else m.nodes[x], n.nodes[x])
  {
    forall x | x in m.nodes && x !in {s.next, s.next + 1}
      ensures x in n.nodes && SameForReaders(if slot.Link? && x == slot.node then SetBit(m.nodes[x], slot.bit, Some(g.addr)) else m.nodes[x], n.nodes[x])
    {
      assert SameForReaders(s.mem.nodes[x], m.nodes[x]);
      PublishNode(x, s.mem.nodes[x], m.nodes[x], slot, Some(g.addr), if Some(x) == down then under else s.mem.nodes[x].parent);
    }
  }

  lemma PublishNode(x: Addr, old_: HNode, now: HNode, slot: Slot, q: Option<Addr>, p: Slot)
    requires SameForReaders(old_, now)
    ensures SameForReaders(if slot.Link? && x == slot.node then SetBit(now, slot.bit, q) else now, Stored(x, old_.(parent := p), slot, q))
  {
  }

  /** The stores of an insertion: hidden until the last one. */
  function InsertStores(n: nat, slot: Slot, g: Tree): (es: seq<Store>)
    requires n > 0
    ensures |es| == n && es[n - 1] == Publishing(slot, g) && forall j :: 0 <= j < n - 1 ==> es[j] == Unseen
  {
    seq(n, j requires 0 <= j < n => if j < n - 1 then Unseen else Publishing(slot, g))
  }

  function InsertTrees(n: nat, t: Tree, t': Tree): (ts: seq<Tree>)
    ensures |ts| == n + 1 && ts[n] == t' && forall j :: 0 <= j < n ==> ts[j] == t
  {
    seq(n + 1, j => if j < n then t else t')
  }

  function InsertHidden(n: nat, h: set<Addr>): (hs: seq<set<Addr>>)
    ensures |hs| == n + 1 && hs[n] == {} && forall j :: 0 <= j < n ==> hs[j] == h
  {
    seq(n + 1, j => if j < n then h else {})
  }

  lemma InsertVersions(n: nat, f: Family, t: Tree, path: seq<bool>, g: Tree, t': Tree)
    requires n > 0 && OnTree(t, path) && t' == Put(t, path, g)
    requires Ordered(t, Width(f)) && Distinct(t) && Ordered(t', Width(f)) && Distinct(t')
    ensures Versions(InsertStores(n, SlotOf(Root(f), t, path), g), InsertTrees(n, t, t'), Width(f))
  {
    var slot := SlotOf(Root(f), t, path);
    var es, ts := InsertStores(n, slot, g), InsertTrees(n, t, t');
    forall j | 0 <= j < |es| ensures NextVersion(es, ts, j) {
      if j == n - 1 {
        assert es[j + 1..] == [];
        if path != [] { SlotSetIsPut(Root(f), t, path, g); }
      }
    }
  }

  /** The memories of an insertion: staged up to the one that is published. */
  ghost predicate Inserting(s: State, f: Family, ms: seq<Mem>, slot: Slot, g: Tree, down: Option<Addr>, under: Slot, peer: Peer) {
    && |ms| > 1 && g.Node?
    && (forall j :: 0 <= j < |ms| - 1 ==> StageStep(s, ms[j], ms[j + 1], peer))
    && var n := ms[|ms| - 1];
    && Grafting(s, n, f, slot, g.addr, down, under) && Shape(n.nodes, Some(g.addr), g) && NewPeers(s, n, peer)
  }

  lemma InsertEffects(s: State, f: Family, ms: seq<Mem>, slot: Slot, g: Tree, down: Option<Addr>, under: Slot, peer: Peer,
                      es: seq<Store>, hs: seq<set<Addr>>)
    requires s.next !in s.mem.nodes && s.next + 1 !in s.mem.nodes && Inserting(s, f, ms, slot, g, down, under, peer)
    requires es == InsertStores(|ms| - 1, slot, g) && hs == InsertHidden(|ms| - 1, {s.next, s.next + 1})
    ensures forall j :: 0 <= j < |es| ==> StoreAt(ms, es, hs, j)
  {
    var n := |ms| - 1;
    forall j | 0 <= j < n ensures StoreAt(ms, es, hs, j) {
      assert StageStep(s, ms[j], ms[j + 1], peer);
      if j < n - 1 {
        assert StageStep(s, ms[j + 1], ms[j + 2], peer);
        StagedEffect(s, ms[j], ms[j + 1], peer);
      } else {
        PublishEffect(s, ms[j], ms[j + 1], f, slot, g, down, under, peer);
      }
    }
  }

  lemma InsertTargets(n: nat, slot: Slot, g: Tree, ms: seq<Mem>, ts: seq<Tree>, before: Table, after: Table, k: Key)
    requires n > 0
    ensures KeyTargetsOk(ms, InsertStores(n, slot, g), ts, before, after, k)
  {
    assert forall a: Addr :: !SetsPeer(InsertStores(n, slot, g), a);
  }

  lemma InsertedVersions(n: nat, f: Family, t: Tree, key: Key, cidr: nat, peer: Peer, a: Addr, path: seq<bool>, d: Tree, g: Tree, t': Tree)
    requires n > 0 && |key| == Width(f) && Ordered(t, |key|) && Compressed(t) && Distinct(t) && cidr <= |key|
    requires a !in Addrs(t) && a + 1 !in Addrs(t)
    requires path == StopPath(t, key, cidr) && d == Get(t, path) && Ordered(d, |key|) && !Descends(d, key, cidr)
    requires g == Graft(d, key, cidr, peer, a, a + 1) && t' == Insert(t, key, cidr, peer, a, a + 1)
    ensures Versions(InsertStores(n, SlotOf(Root(f), t, path), g), InsertTrees(n, t, t'), Width(f))
    ensures TableOf(t') == TableOf(t)[key[..cidr] := peer] && t' == Put(t, path, g)
  {
    GraftedTree(t, key, cidr, peer, a, a + 1, path, d, g);
    InsertVersions(n, f, t, path, g, t');
  }

  lemma PointTree(s: State, f: Family, key: Key, cidr: nat, path: seq<bool>, d: Tree, slot: Slot)
    requires InsertionPoint(s, f, key, cidr, path, d, slot)
    ensures s.next !in s.mem.nodes && s.next + 1 !in s.mem.nodes && Represents(s.mem, f, TreeIn(s, f))
    ensures s.next !in Addrs(TreeIn(s, f)) && s.next + 1 !in Addrs(TreeIn(s, f))
  {
    PointFacts(s, f, key, cidr, path, d, slot);
    TreeFacts(s, f);
  }

  lemma GraftTrees(s: State, f: Family, key: Key, cidr: nat, peer: Peer, path: seq<bool>, d: Tree, slot: Slot, ms: seq<Mem>,
                   g: Tree, down: Option<Addr>, under: Slot, t': Tree, hs: seq<set<Addr>>, ts: seq<Tree>)
    requires InsertionPoint(s, f, key, cidr, path, d, slot) && Inserting(s, f, ms, slot, g, down, under, peer)
    requires t' == Put(TreeIn(s, f), path, g) && Represents(s.mem, f, TreeIn(s, f))
    requires s.next !in s.mem.nodes && s.next + 1 !in s.mem.nodes
    requires hs == InsertHidden(|ms| - 1, {s.next, s.next + 1}) && ts == InsertTrees(|ms| - 1, TreeIn(s, f), t')
    ensures forall j :: 0 <= j < |ms| ==> Shape(ms[j].nodes, RootOf(ms[j], f), ts[j]) && Addrs(ts[j]) !! hs[j]
  {
    forall j | 0 <= j < |ms| - 1 ensures Quiet(s, ms[j]) { assert StageStep(s, ms[j], ms[j + 1], peer); }
    GraftShapes(s, f, key, cidr, peer, path, d, slot, ms, g, t', down, under);
    TwoTrees(f, ms, hs, ts, TreeIn(s, f), t', {s.next, s.next + 1});
  }

  /** All three cases of `add` that publish a new node. */
  lemma GraftSafe(s: State, f: Family, key: Key, cidr: nat, peer: Peer, path: seq<bool>, d: Tree, slot: Slot, ms: seq<Mem>,
                  g: Tree, down: Option<Addr>, under: Slot)
    requires InsertionPoint(s, f, key, cidr, path, d, slot) && Inserting(s, f, ms, slot, g, down, under, peer)
    requires g == Graft(d, key, cidr, peer, s.next, s.next + 1)
    ensures SafeForReaders(f, ms, TableIn(s, f), TableIn(s, f)[key[..cidr] := peer])
  {
    var n, t := |ms| - 1, TreeIn(s, f);
    var t' := Insert(t, key, cidr, peer, s.next, s.next + 1);
    var es, hs, ts := InsertStores(n, slot, g), InsertHidden(n, {s.next, s.next + 1}), InsertTrees(n, t, t');
    PointTree(s, f, key, cidr, path, d, slot);
    InsertedVersions(n, f, t, key, cidr, peer, s.next, path, d, g, t');
    InsertEffects(s, f, ms, slot, g, down, under, peer, es, hs);
    GraftTrees(s, f, key, cidr, peer, path, d, slot, ms, g, down, under, t', hs, ts);
    InsertSafe(f, ms, es, hs, ts, slot, g, t, t');
  }

  lemma InsertSafe(f: Family, ms: seq<Mem>, es: seq<Store>, hs: seq<set<Addr>>, ts: seq<Tree>, slot: Slot, g: Tree, t: Tree, t': Tree)
    requires |ms| > 1 && |ms| == |hs| == |es| + 1
    requires es == InsertStores(|ms| - 1, slot, g) && ts == InsertTrees(|ms| - 1, t, t') && Versions(es, ts, Width(f))
    requires forall j :: 0 <= j < |es| ==> StoreAt(ms, es, hs, j)
    requires forall j :: 0 <= j < |ms| ==> Shape(ms[j].nodes, RootOf(ms[j], f), ts[j]) && Addrs(ts[j]) !! hs[j]
    ensures SafeForReaders(f, ms, TableOf(t), TableOf(t'))
  {
    forall k: Key | |k| == Width(f) ensures KeyTargetsOk(ms, es, ts, TableOf(t), TableOf(t'), k) {
      InsertTargets(|ms| - 1, slot, g, ms, ts, TableOf(t), TableOf(t'), k);
    }
    FollowedSafe(f, ms, es, hs, ts, TableOf(t), TableOf(t'));
  }

  lemma TwoTrees(f: Family, ms: seq<Mem>, hs: seq<set<Addr>>, ts: seq<Tree>, t: Tree, t': Tree, h: set<Addr>)
    requires |ms| > 1 && hs == InsertHidden(|ms| - 1, h) && ts == InsertTrees(|ms| - 1, t, t') && Addrs(t) !! h
    requires forall j :: 0 <= j < |ms| - 1 ==> Shape(ms[j].nodes, RootOf(ms[j], f), t)
    requires Shape(ms[|ms| - 1].nodes, RootOf(ms[|ms| - 1], f), t')
    ensures forall j :: 0 <= j < |ms| ==> Shape(ms[j].nodes, RootOf(ms[j], f), ts[j]) && Addrs(ts[j]) !! hs[j]
  {
  }

  lemma GraftShapes(s: State, f: Family, key: Key, cidr: nat, peer: Peer, path: seq<bool>, d: Tree, slot: Slot, ms: seq<Mem>,
                    g: Tree, t': Tree, down: Option<Addr>, under: Slot)
    requires InsertionPoint(s, f, key, cidr, path, d, slot) && t' == Put(TreeIn(s, f), path, g) && g.Node? && |ms| > 1
    requires s.next !in s.mem.nodes && s.next + 1 !in s.mem.nodes && Represents(s.mem, f, TreeIn(s, f))
    requires forall j :: 0 <= j < |ms| - 1 ==> Quiet(s, ms[j])
    requires var n := ms[|ms| - 1]; Grafting(s, n, f, slot, g.addr, down, under) && Shape(n.nodes, Some(g.addr), g)
    ensures forall j :: 0 <= j < |ms| - 1 ==> Shape(ms[j].nodes, RootOf(ms[j], f), TreeIn(s, f))
    ensures Shape(ms[|ms| - 1].nodes, RootOf(ms[|ms| - 1], f), t')
    ensures Addrs(TreeIn(s, f)) !! {s.next, s.next + 1}
  {
    var t, n := TreeIn(s, f), ms[|ms| - 1];
    forall j | 0 <= j < |ms| - 1 ensures Shape(ms[j].nodes, RootOf(ms[j], f), t) {
      FrameShape(s.mem.nodes, ms[j].nodes, RootOf(s.mem, f), t);
    }
    PointFacts(s, f, key, cidr, path, d, slot);
    TreeFacts(s, f);
    PutShape(s.mem.nodes, n.nodes, Root(f), RootOf(s.mem, f), t, path, Some(g.addr), g);
  }

  lemma Steps(s: State, ms: seq<Mem>, log: seq<Mem>, peer: Peer)
    requires log != [] && ms == [s.mem] + log && StageStep(s, s.mem, log[0], peer)
    requires forall i :: 0 <= i < |log| - 1 ==> StageStep(s, log[i], log[i + 1], peer)
    ensures forall j :: 0 <= j < |ms| - 1 ==> StageStep(s, ms[j], ms[j + 1], peer)
  {
    forall j | 0 <= j < |ms| - 1 ensures StageStep(s, ms[j], ms[j + 1], peer) {
      if j > 0 { assert ms[j] == log[j - 1] && ms[j + 1] == log[j]; }
    }
  }

  // Case one.

  lemma LeafSafe(s: State, f: Family, key: Key, cidr: nat, peer: Peer, slot: Slot, path: seq<bool>, log: seq<Mem>)
    requires InsertionPoint(s, f, key, cidr, path, Nil, slot) && LeafLog(s, f, key, cidr, peer, slot, log)
    ensures SafeForReaders(f, [s.mem] + log, TableIn(s, f), TableIn(s, f)[key[..cidr] := peer])
  {
    PointFacts(s, f, key, cidr, path, Nil, slot);
    LeafInserting(s, f, key, cidr, peer, slot, log, [s.mem] + log);
    GraftSafe(s, f, key, cidr, peer, path, Nil, slot, [s.mem] + log, Leaf(s.next, key, cidr, peer), None, slot);
  }

  lemma LeafInserting(s: State, f: Family, key: Key, cidr: nat, peer: Peer, slot: Slot, log: seq<Mem>, ms: seq<Mem>)
    requires s.next !in s.mem.nodes && s.next + 1 !in s.mem.nodes && slot != Root(Other(f)) && ms == [s.mem] + log
    requires LeafLog(s, f, key, cidr, peer, slot, log)
    ensures Inserting(s, f, ms, slot, Leaf(s.next, key, cidr, peer), None, slot, peer)
  {
    LeafMemory(s, f, key, cidr, peer, slot, log[2]);
    LeafInMemory(log[2].nodes, key, cidr, peer, s.next, slot);
    LeafStaged(s, f, key, cidr, peer, slot, log);
    Steps(s, ms, log, peer);
  }

  lemma LeafStaged(s: State, f: Family, key: Key, cidr: nat, peer: Peer, slot: Slot, log: seq<Mem>)
    requires s.next !in s.mem.nodes && s.next + 1 !in s.mem.nodes && LeafLog(s, f, key, cidr, peer, slot, log)
    ensures StageStep(s, s.mem, log[0], peer) && StageStep(s, log[0], log[1], peer) && StageStep(s, log[1], log[2], peer)
  {
    StageWrite(s, s.mem, s.next, HNode(Some(peer), None, None, cidr, key, Root(f)), peer);
    StageParent(s, log[0], s.next, slot, peer);
    StageLast(s, log[1], slot, Some(s.next), peer);
  }

  // Case two.

  lemma AboveSafe(s: State, f: Family, key: Key, cidr: nat, peer: Peer, d: Tree, slot: Slot, path: seq<bool>, log: seq<Mem>)
    requires InsertionPoint(s, f, key, cidr, path, d, slot) && d.Node?
    requires cidr <= CommonBits(d.bits, key) && cidr < |key|
    requires AboveLog(s, f, key, cidr, peer, d.addr, d.bits[cidr], slot, log)
    ensures SafeForReaders(f, [s.mem] + log, TableIn(s, f), TableIn(s, f)[key[..cidr] := peer])
  {
    var b := d.bits[cidr];
    PointFacts(s, f, key, cidr, path, d, slot);
    var g := Graft(d, key, cidr, peer, s.next, s.next + 1);
    AboveShape(s, f, key, cidr, peer, d, slot, path, log);
    AboveInserting(s, f, key, cidr, peer, d.addr, b, slot, log, [s.mem] + log, g);
    GraftSafe(s, f, key, cidr, peer, path, d, slot, [s.mem] + log, g, Some(d.addr), Link(s.next, b));
  }

  lemma AboveShape(s: State, f: Family, key: Key, cidr: nat, peer: Peer, d: Tree, slot: Slot, path: seq<bool>, log: seq<Mem>)
    requires InsertionPoint(s, f, key, cidr, path, d, slot) && d.Node?
    requires cidr <= CommonBits(d.bits, key) && cidr < |key|
    requires AboveLog(s, f, key, cidr, peer, d.addr, d.bits[cidr], slot, log)
    ensures var g := Graft(d, key, cidr, peer, s.next, s.next + 1);
            g.Node? && g.addr == s.next && Shape(log[4].nodes, Some(g.addr), g)
  {
    PointFacts(s, f, key, cidr, path, d, slot);
    AboveMemory(s, f, key, cidr, peer, d.addr, d.bits[cidr], slot, log);
    AboveInMemory(s, log[4], f, key, cidr, peer, d, slot);
  }

  lemma AboveInserting(s: State, f: Family, key: Key, cidr: nat, peer: Peer, d: Addr, b: bool, slot: Slot, log: seq<Mem>,
                       ms: seq<Mem>, g: Tree)
    requires s.next !in s.mem.nodes && s.next + 1 !in s.mem.nodes && slot != Root(Other(f)) && ms == [s.mem] + log
    requires AboveLog(s, f, key, cidr, peer, d, b, slot, log)
    requires g.Node? && g.addr == s.next && Shape(log[4].nodes, Some(g.addr), g)
    ensures Inserting(s, f, ms, slot, g, Some(d), Link(s.next, b), peer)
  {
    AboveFinal(s, f, key, cidr, peer, d, b, slot, log);
    AboveStaged(s, f, key, cidr, peer, d, b, slot, log);
    InsertingOf(s, f, ms, log, slot, g, Some(d), Link(s.next, b), peer);
  }

  lemma AboveFinal(s: State, f: Family, key: Key, cidr: nat, peer: Peer, d: Addr, b: bool, slot: Slot, log: seq<Mem>)
    requires s.next !in s.mem.nodes && s.next + 1 !in s.mem.nodes && slot != Root(Other(f))
    requires AboveLog(s, f, key, cidr, peer, d, b, slot, log)
    ensures Grafting(s, log[4], f, slot, s.next, Some(d), Link(s.next, b)) && NewPeers(s, log[4], peer)
  {
    AboveMemory(s, f, key, cidr, peer, d, b, slot, log);
  }

  lemma AboveStaged(s: State, f: Family, key: Key, cidr: nat, peer: Peer, d: Addr, b: bool, slot: Slot, log: seq<Mem>)
    requires s.next !in s.mem.nodes && s.next + 1 !in s.mem.nodes && AboveLog(s, f, key, cidr, peer, d, b, slot, log)
    ensures StageStep(s, s.mem, log[0], peer) && forall i :: 0 <= i < 4 ==> StageStep(s, log[i], log[i + 1], peer)
  {
    var a := s.next;
    StageWrite(s, s.mem, a, HNode(Some(peer), None, None, cidr, key, Root(f)), peer);
    StageParent(s, log[0], d, Link(a, b), peer);
    StageWrite(s, log[1], a, SetBit(log[1].nodes[a], b, Some(d)), peer);
    StageParent(s, log[2], a, slot, peer);
    StageLast(s, log[3], slot, Some(a), peer);
  }

  // Case three.

  lemma BranchSafe(s: State, f: Family, key: Key, cidr: nat, peer: Peer, d: Tree, common: nat, slot: Slot, path: seq<bool>, log: seq<Mem>)
    requires InsertionPoint(s, f, key, cidr, path, d, slot) && d.Node?
    requires common == CommonBits(d.bits, key) && common < cidr
    requires BranchLog(s, f, key, cidr, peer, common, d.addr, d.bits[common], slot, log)
    ensures SafeForReaders(f, [s.mem] + log, TableIn(s, f), TableIn(s, f)[key[..cidr] := peer])
  {
    var b := d.bits[common];
    PointFacts(s, f, key, cidr, path, d, slot);
    var g := Graft(d, key, cidr, peer, s.next, s.next + 1);
    BranchShape(s, f, key, cidr, peer, d, common, slot, path, log);
    BranchInserting(s, f, key, cidr, peer, common, d.addr, b, slot, log, [s.mem] + log, g);
    GraftSafe(s, f, key, cidr, peer, path, d, slot, [s.mem] + log, g, Some(d.addr), Link(s.next + 1, b));
  }

  lemma BranchShape(s: State, f: Family, key: Key, cidr: nat, peer: Peer, d: Tree, common: nat, slot: Slot, path: seq<bool>, log: seq<Mem>)
    requires InsertionPoint(s, f, key, cidr, path, d, slot) && d.Node?
    requires common == CommonBits(d.bits, key) && common < cidr
    requires BranchLog(s, f, key, cidr, peer, common, d.addr, d.bits[common], slot, log)
    ensures var g := Graft(d, key, cidr, peer, s.next, s.next + 1);
            g.Node? && g.addr == s.next + 1 && Shape(log[7].nodes, Some(g.addr), g)
  {
    PointFacts(s, f, key, cidr, path, d, slot);
    BranchMemory(s, f, key, cidr, peer, common, d.addr, d.bits[common], slot, log);
    BranchInMemory(s, log[7], f, key, cidr, peer, d, slot, common);
  }

  lemma BranchInserting(s: State, f: Family, key: Key, cidr: nat, peer: Peer, common: nat, d: Addr, b: bool, slot: Slot, log: seq<Mem>,
                        ms: seq<Mem>, g: Tree)
    requires s.next !in s.mem.nodes && s.next + 1 !in s.mem.nodes && slot != Root(Other(f)) && ms == [s.mem] + log
    requires common < |key| && BranchLog(s, f, key, cidr, peer, common, d, b, slot, log)
    requires g.Node? && g.addr == s.next + 1 && Shape(log[7].nodes, Some(g.addr), g)
    ensures Inserting(s, f, ms, slot, g, Some(d), Link(s.next + 1, b), peer)
  {
    BranchFinal(s, f, key, cidr, peer, common, d, b, slot, log);
    BranchStaged(s, f, key, cidr, peer, common, d, b, slot, log);
    InsertingOf(s, f, ms, log, slot, g, Some(d), Link(s.next + 1, b), peer);
  }

  lemma InsertingOf(s: State, f: Family, ms: seq<Mem>, log: seq<Mem>, slot: Slot, g: Tree, down: Option<Addr>, under: Slot, peer: Peer)
    requires log != [] && ms == [s.mem] + log && g.Node? && StageStep(s, s.mem, log[0], peer)
    requires forall i :: 0 <= i < |log| - 1 ==> StageStep(s, log[i], log[i + 1], peer)
    requires var n := log[|log| - 1];
             Grafting(s, n, f, slot, g.addr, down, under) && Shape(n.nodes, Some(g.addr), g) && NewPeers(s, n, peer)
    ensures Inserting(s, f, ms, slot, g, down, under, peer)
  {
    Steps(s, ms, log, peer);
  }

  lemma BranchFinal(s: State, f: Family, key: Key, cidr: nat, peer: Peer, common: nat, d: Addr, b: bool, slot: Slot, log: seq<Mem>)
    requires s.next !in s.mem.nodes && s.next + 1 !in s.mem.nodes && slot != Root(Other(f)) && common < |key|
    requires BranchLog(s, f, key, cidr, peer, common, d, b, slot, log)
    ensures Grafting(s, log[7], f, slot, s.next + 1, Some(d), Link(s.next + 1, b)) && NewPeers(s, log[7], peer)
  {
    BranchMemory(s, f, key, cidr, peer, common, d, b, slot, log);
  }

  lemma BranchStaged(s: State, f: Family, key: Key, cidr: nat, peer: Peer, common: nat, d: Addr, b: bool, slot: Slot, log: seq<Mem>)
    requires s.next !in s.mem.nodes && s.next + 1 !in s.mem.nodes && common < |key|
    requires BranchLog(s, f, key, cidr, peer, common, d, b, slot, log)
    ensures StageStep(s, s.mem, log[0], peer) && forall i :: 0 <= i < 7 ==> StageStep(s, log[i], log[i + 1], peer)
  {
    BranchHead(s, f, key, cidr, peer, common, d, b, log[0], log[1], log[2]);
    BranchTail(s, key, common, d, b, slot, peer, log[2], log[3], log[4], log[5], log[6], log[7]);
  }

  lemma BranchHead(s: State, f: Family, key: Key, cidr: nat, peer: Peer, common: nat, d: Addr, b: bool, m0: Mem, m1: Mem, m2: Mem)
    requires s.next !in s.mem.nodes && s.next + 1 !in s.mem.nodes && d in s.mem.nodes
    requires m0 == Alloc(s.mem, s.next, Some(peer), key, cidr, f) && m1 == Alloc(m0, s.next + 1, None, key, common, f)
    requires m2 == SetParent(m1, d, Link(s.next + 1, b))
    ensures StageStep(s, s.mem, m0, peer) && StageStep(s, m0, m1, peer) && StageStep(s, m1, m2, peer)
    ensures Staged(s, m2, peer) && s.next in m2.nodes && s.next + 1 in m2.nodes
  {
    StageWrite(s, s.mem, s.next, HNode(Some(peer), None, None, cidr, key, Root(f)), peer);
    StageWrite(s, m0, s.next + 1, HNode(None, None, None, common, key, Root(f)), peer);
    StageParent(s, m1, d, Link(s.next + 1, b), peer);
  }

  lemma BranchTail(s: State, key: Key, common: nat, d: Addr, b: bool, slot: Slot, peer: Peer,
                   m2: Mem, m3: Mem, m4: Mem, m5: Mem, m6: Mem, m7: Mem)
    requires s.next !in s.mem.nodes && s.next + 1 !in s.mem.nodes && common < |key| && (slot.Link? ==> slot.node in s.mem.nodes)
    requires Staged(s, m2, peer) && s.next in m2.nodes && s.next + 1 in m2.nodes
    requires m3 == StoreSlot(m2, Link(s.next + 1, b), Some(d)) && m4 == SetParent(m3, s.next, Link(s.next + 1, key[common]))
    requires m5 == StoreSlot(m4, Link(s.next + 1, key[common]), Some(s.next))
    requires m6 == SetParent(m5, s.next + 1, slot) && m7 == StoreSlot(m6, slot, Some(s.next + 1))
    ensures StageStep(s, m2, m3, peer) && StageStep(s, m3, m4, peer) && StageStep(s, m4, m5, peer)
    ensures StageStep(s, m5, m6, peer) && StageStep(s, m6, m7, peer)
  {
    var a, mid, k := s.next, s.next + 1, key[common];
    StageHang(s, m2, m3, mid, b, d, peer);
    StageParent(s, m3, a, Link(mid, k), peer);
    StageHang(s, m4, m5, mid, k, a, peer);
    StageParent(s, m5, mid, slot, peer);
    StageLast(s, m6, slot, Some(mid), peer);
  }

  lemma StageHang(s: State, m: Mem, n: Mem, mid: Addr, b: bool, x: Addr, peer: Peer)
    requires s.next !in s.mem.nodes && s.next + 1 !in s.mem.nodes && Staged(s, m, peer)
    requires mid == s.next + 1 && mid in m.nodes && n == StoreSlot(m, Link(mid, b), Some(x))
    ensures Staged(s, n, peer) && StageStep(s, m, n, peer) && mid in n.nodes && (s.next in m.nodes ==> s.next in n.nodes)
  {
    StageWrite(s, m, mid, SetBit(m.nodes[mid], b, Some(x)), peer);
  }

  // ---------------------------------------------------------------- one store after the other

  function NoneHidden(n: nat): (hs: seq<set<Addr>>)
    ensures |hs| == n && forall j :: 0 <= j < n ==> hs[j] == {}
  {
    seq(n, _ => {})
  }

  /** A run of visible stores, none of them to a root so far. */
  ghost predicate Growing(f: Family, ms: seq<Mem>, es: seq<Store>, ts: seq<Tree>) {
    Follows(f, ms, es, NoneHidden(|ms|), ts) && forall j :: 0 <= j < |es| ==> ts[j + 1] == Hit(es[j], ts[j])
  }

  lemma FirstOfRun(f: Family, m: Mem, t: Tree)
    requires Shape(m.nodes, RootOf(m, f), t) && Ordered(t, Width(f)) && Distinct(t)
    ensures Growing(f, [m], [], [t])
  {
  }

  lemma FrozenSnoc(es: seq<Store>, e: Store, area: set<Addr>)
    requires Frozen(es, area) && (e.Unseen? || e.a !in area)
    ensures Frozen(es + [e], area)
  {
  }

  lemma ExtendVersions(es: seq<Store>, ts: seq<Tree>, w: nat, e: Store, t': Tree)
    requires Versions(es, ts, w) && (forall j :: 0 <= j < |es| ==> ts[j + 1] == Hit(es[j], ts[j]))
    requires Ordered(t', w) && Distinct(t') && (t' == Hit(e, ts[|ts| - 1]) || e.Unseen?)
    requires forall j :: 0 <= j < |es| ==> e.Unseen? || e.a !in Below(es[j], ts[j])
    ensures Versions(es + [e], ts + [t'], w)
  {
    var es', ts' := es + [e], ts + [t'];
    forall j | 0 <= j < |es'| ensures NextVersion(es', ts', j) {
      if j < |es| {
        assert NextVersion(es, ts, j);
        assert es'[j + 1..] == es[j + 1..] + [e];
        FrozenSnoc(es[j + 1..], e, Below(es[j], ts[j]));
      } else {
        assert es'[j + 1..] == [];
      }
    }
  }

  lemma ExtendStores(ms: seq<Mem>, es: seq<Store>, hs: seq<set<Addr>>, n: Mem, e: Store, ms': seq<Mem>, es': seq<Store>, hs': seq<set<Addr>>)
    requires |ms| == |es| + 1 && hs == NoneHidden(|ms|) && hs' == NoneHidden(|ms| + 1) && ms' == ms + [n] && es' == es + [e]
    requires forall j :: 0 <= j < |es| ==> StoreAt(ms, es, hs, j)
    requires Effect(ms[|ms| - 1].nodes, n.nodes, e, {})
    ensures forall j :: 0 <= j < |es'| ==> StoreAt(ms', es', hs', j)
  {
    forall j | 0 <= j < |es'| ensures StoreAt(ms', es', hs', j) {
      if j < |es| { assert StoreAt(ms, es, hs, j); }
    }
  }

  /** A further store keeps the run in order if it stays clear of what earlier ones have settled. */
  lemma Extend(f: Family, ms: seq<Mem>, es: seq<Store>, ts: seq<Tree>, n: Mem, e: Store, t': Tree)
    requires Growing(f, ms, es, ts) && Effect(ms[|ms| - 1].nodes, n.nodes, e, {})
    requires Ordered(t', Width(f)) && Distinct(t') && (t' == Hit(e, ts[|ts| - 1]) || e.Unseen?)
    requires Shape(n.nodes, RootOf(n, f), t')
    requires forall j :: 0 <= j < |es| ==> e.Unseen? || e.a !in Below(es[j], ts[j])
    ensures Follows(f, ms + [n], es + [e], NoneHidden(|ms| + 1), ts + [t'])
    ensures t' == Hit(e, ts[|ts| - 1]) ==> Growing(f, ms + [n], es + [e], ts + [t'])
  {
    ExtendVersions(es, ts, Width(f), e, t');
    ExtendStores(ms, es, NoneHidden(|ms|), n, e, ms + [n], es + [e], NoneHidden(|ms| + 1));
    ExtendShapes(f, ms, ts, n, t', NoneHidden(|ms| + 1));
    if t' == Hit(e, ts[|ts| - 1]) { ExtendHits(es, ts, e, t'); }
  }

  lemma ExtendShapes(f: Family, ms: seq<Mem>, ts: seq<Tree>, n: Mem, t': Tree, hs: seq<set<Addr>>)
    requires |ts| == |ms| && hs == NoneHidden(|ms| + 1) && Shape(n.nodes, RootOf(n, f), t')
    requires forall j :: 0 <= j < |ms| ==> Shape(ms[j].nodes, RootOf(ms[j], f), ts[j])
    ensures var ms', ts' := ms + [n], ts + [t'];
            forall j :: 0 <= j < |ms'| ==> Shape(ms'[j].nodes, RootOf(ms'[j], f), ts'[j]) && Addrs(ts'[j]) !! hs[j]
  {
    var ms', ts' := ms + [n], ts + [t'];
    forall j | 0 <= j < |ms'| ensures Shape(ms'[j].nodes, RootOf(ms'[j], f), ts'[j]) && Addrs(ts'[j]) !! hs[j] {
      if j < |ms| { assert Shape(ms[j].nodes, RootOf(ms[j], f), ts[j]); }
    }
  }

  lemma ExtendHits(es: seq<Store>, ts: seq<Tree>, e: Store, t': Tree)
    requires |ts| == |es| + 1 && t' == Hit(e, ts[|ts| - 1]) && forall j :: 0 <= j < |es| ==> ts[j + 1] == Hit(es[j], ts[j])
    ensures var es', ts' := es + [e], ts + [t'];
            forall j :: 0 <= j < |es'| ==> ts'[j + 1] == Hit(es'[j], ts'[j])
  {
  }

  /** The root keeps its pointer, so its tree is the one before with the store applied. */
  lemma SameRoot(f: Family, m: Mem, n: Mem, e: Store, t: Tree)
    requires Effect(m.nodes, n.nodes, e, {}) && RootOf(n, f) == RootOf(m, f) && Shape(m.nodes, RootOf(m, f), t)
    ensures Shape(n.nodes, RootOf(n, f), Hit(e, t))
  {
    HitShape(m.nodes, n.nodes, e, {}, RootOf(m, f), t);
  }

  lemma PeerEffect(m: Mem, a: Addr, v: Option<Peer>)
    requires a in m.nodes
    ensures Effect(m.nodes, m.nodes[a := m.nodes[a].(peer := v)], PeerSet(a, v), {})
  {
  }

  lemma ParentEffectUnseen(m: Mem, child: Option<Addr>, slot: Slot)
    requires child.Some? ==> child.value in m.nodes
    ensures var n := if child.Some? then SetParent(m, child.value, slot) else m;
            Effect(m.nodes, n.nodes, Unseen, {}) && n.root4 == m.root4 && n.root6 == m.root6
  {
  }

  lemma SlotEffect(m: Mem, slot: Slot, q: Option<Addr>, g: Tree)
    requires (slot.Link? ==> slot.node in m.nodes) && Shape(StoreSlot(m, slot, q).nodes, q, g)
    ensures Effect(m.nodes, StoreSlot(m, slot, q).nodes, Publishing(slot, g), {})
  {
    assert q == if g.Node? then Some(g.addr) else None;
  }

  /** With no store at all, a lookup answers from the table. */
  lemma IdleSafe(s: State, f: Family)
    requires ValidState(s)
    ensures SafeForReaders(f, [s.mem], TableIn(s, f), TableIn(s, f))
  {
    var t := TreeIn(s, f);
    TreeFacts(s, f);
    FirstOfRun(f, s.mem, t);
    forall k: Key | |k| == Width(f) ensures KeyTargetsOk([s.mem], [], [t], TableOf(t), TableOf(t), k) {
      assert forall a: Addr :: !SetsPeer([], a);
    }
    FollowedSafe(f, [s.mem], [], NoneHidden(1), [t], TableOf(t), TableOf(t));
  }

  // ---------------------------------------------------------------- an existing prefix changes hands

  predicate PeersAt(s: Tree, a: Addr) {
    s.Nil? || ((s.addr == a ==> s.peer.Some?) && PeersAt(s.left, a) && PeersAt(s.right, a))
  }

  lemma {:induction false} ShapePeers(m: Nodes, p: Option<Addr>, s: Tree, a: Addr)
    requires Shape(m, p, s) && a in m && m[a].peer.Some?
    ensures PeersAt(s, a)
    decreases s
  {
    if s.Node? {
      ShapePeers(m, m[s.addr].bit0, s.left, a);
      ShapePeers(m, m[s.addr].bit1, s.right, a);
    }
  }

  /** Which node a descent ends at depends on who has a peer, not on which. */
  lemma {:induction false} OtherPeerSameEnd(s: Tree, key: Key, best: Option<Addr>, a: Addr, v: Peer)
    requires PeersAt(s, a) && Ordered(s, |key|) && Ordered(Hit(PeerSet(a, Some(v)), s), |key|)
    ensures Find(Hit(PeerSet(a, Some(v)), s), key, best) == Find(s, key, best)
    decreases s
  {
    if s.Node? && PrefixMatches(s.bits, s.cidr, key) && s.cidr != |key| {
      OtherPeerSameEnd(Child(s, key[s.cidr]), key, if s.peer.Some? then Some(s.addr) else best, a, v);
    }
  }

  lemma ExactTargets(f: Family, ms: seq<Mem>, es: seq<Store>, ts: seq<Tree>, a: Addr, v: Peer, key: Key)
    requires Follows(f, ms, es, NoneHidden(2), ts) && |ms| == 2 && es == [PeerSet(a, Some(v))] && ts[1] == Hit(es[0], ts[0])
    requires |key| == Width(f) && a in ms[0].nodes
    ensures KeyTargetsOk(ms, es, ts, TableOf(ts[0]), TableOf(ts[1]), key)
  {
    var ends := EndsOf(ts, key);
    if Some(a) in ends {
      var k: nat :| k < |ts| && Find(ts[k], key, None) == Some(a);
      ExactEnds(f, ms, es, ts, a, v, key, k);
    }
    OneTarget(ms, es, ends, {LongestMatch(TableOf(ts[0]), key), LongestMatch(TableOf(ts[1]), key)}, a, v);
  }

  lemma OneTarget(ms: seq<Mem>, es: seq<Store>, ends: Ends, answers: set<Option<Peer>>, a: Addr, v: Peer)
    requires |ms| == 2 && es == [PeerSet(a, Some(v))]
    requires Some(a) in ends && a in ms[0].nodes && ms[0].nodes[a].peer.Some? ==> ms[0].nodes[a].peer in answers
    requires Some(a) in ends && a in ms[1].nodes ==> ms[1].nodes[a].peer in answers
    ensures TargetsOk(ms, es, ends, answers)
  {
    forall x: Addr, j | 0 <= j < |ms| && SetsPeer(es, x) && Some(x) in ends && x in ms[j].nodes && ms[j].nodes[x].peer.Some?
      ensures ms[j].nodes[x].peer in answers
    {
      assert x == a && (j == 0 || j == 1);
    }
  }

  lemma ExactEnds(f: Family, ms: seq<Mem>, es: seq<Store>, ts: seq<Tree>, a: Addr, v: Peer, key: Key, k: nat)
    requires Follows(f, ms, es, NoneHidden(2), ts) && |ms| == 2 && es == [PeerSet(a, Some(v))] && ts[1] == Hit(es[0], ts[0])
    requires |key| == Width(f) && a in ms[0].nodes && k < 2 && Find(ts[k], key, None) == Some(a)
    ensures ms[0].nodes[a].peer.Some? ==> ms[0].nodes[a].peer == LongestMatch(TableOf(ts[0]), key)
    ensures a in ms[1].nodes && ms[1].nodes[a].peer == LongestMatch(TableOf(ts[1]), key)
  {
    EndCarries(f, ms, es, NoneHidden(2), ts, key, k);
    if ms[0].nodes[a].peer.Some? {
      SameEnd(ms[0].nodes, RootOf(ms[0], f), ts[0], ts[1], a, v, key);
      EndCarries(f, ms, es, NoneHidden(2), ts, key, 1 - k);
    }
  }

  lemma SameEnd(m: Nodes, p: Option<Addr>, t: Tree, t': Tree, a: Addr, v: Peer, key: Key)
    requires Shape(m, p, t) && Ordered(t, |key|) && Ordered(t', |key|) && t' == Hit(PeerSet(a, Some(v)), t)
    requires a in m && m[a].peer.Some?
    ensures Find(t', key, None) == Find(t, key, None)
  {
    ShapePeers(m, p, t, a);
    OtherPeerSameEnd(t, key, None, a, v);
  }

  lemma ExactSafe(s: State, f: Family, key: Key, cidr: nat, peer: Peer, path: seq<bool>, d: Tree, n: Mem)
    requires ValidState(s) && |key| == Width(f) && cidr <= |key| && Ordered(TreeIn(s, f), |key|)
    requires path == StopPath(TreeIn(s, f), key, cidr) && d == Get(TreeIn(s, f), path)
    requires Ordered(d, |key|) && IsExact(d, key, cidr) && d.addr in s.mem.nodes
    requires n == s.mem.(nodes := s.mem.nodes[d.addr := s.mem.nodes[d.addr].(peer := Some(peer))])
    ensures SafeForReaders(f, [s.mem, n], TableIn(s, f), TableIn(s, f)[key[..cidr] := peer])
  {
    var t, a := TreeIn(s, f), d.addr;
    TreeFacts(s, f);
    PeerSetIsPut(t, path, Some(peer));
    InsertIsPut(t, key, cidr, peer, 0, 0);
    InsertCorrect(t, key, cidr, peer, 0, 0);
    GetAddrs(t, path);
    PutAddrs(t, path, d.(peer := Some(peer)));
    var e, t' := PeerSet(a, Some(peer)), Put(t, path, d.(peer := Some(peer)));
    PeerEffect(s.mem, a, Some(peer));
    SameRoot(f, s.mem, n, e, t);
    FirstOfRun(f, s.mem, t);
    Extend(f, [s.mem], [], [t], n, e, t');
    PeerOnlySafe(f, s.mem, n, a, peer, t, t');
  }

  lemma PeerOnlySafe(f: Family, m: Mem, n: Mem, a: Addr, v: Peer, t: Tree, t': Tree)
    requires Growing(f, [m] + [n], [] + [PeerSet(a, Some(v))], [t] + [t']) && a in m.nodes
    ensures SafeForReaders(f, [m, n], TableOf(t), TableOf(t'))
  {
    var ms, es, ts := [m, n], [PeerSet(a, Some(v))], [t, t'];
    assert [m] + [n] == ms && [] + [PeerSet(a, Some(v))] == es && [t] + [t'] == ts;
    forall k: Key | |k| == Width(f) ensures KeyTargetsOk(ms, es, ts, TableOf(t), TableOf(t'), k) {
      ExactTargets(f, ms, es, ts, a, v, k);
    }
    FollowedSafe(f, ms, es, NoneHidden(2), ts, TableOf(t), TableOf(t'));
  }

  // ---------------------------------------------------------------- two updates

  // The promise ends with the update: a lookup that two of them overtake may mix their tables.
  // The default route goes to `p`; below it, `q` gets a half of the address space, and then `r`
  // gets the default route.  The lookup has passed the default route's node before either.

  function Overtaken(key: Key, p: Peer, q: Peer, r: Peer): (ms: seq<Mem>)
    requires |key| == 32
    ensures |ms| == 5
  {
    var m0 := Mem(Some(0), None, map[0 := HNode(Some(p), None, None, 0, key, Root(V4))]);
    var m1 := Alloc(m0, 1, Some(q), key, 1, V4);
    var m2 := SetParent(m1, 1, Link(0, key[0]));
    var m3 := StoreSlot(m2, Link(0, key[0]), Some(1));
    [m0, m1, m2, m3, m3.(nodes := m3.nodes[0 := m3.nodes[0].(peer := Some(r))])]
  }

  function DefaultRoute(key: Key, p: Peer): (t: Tree) {
    Node(0, key, 0, Some(p), Nil, Nil)
  }

  function WithHalf(key: Key, p: Peer, q: Peer): (t: Tree)
    requires |key| == 32
  {
    SetChild(DefaultRoute(key, p), key[0], Leaf(1, key, 1, q))
  }

  lemma {:induction false} HalfTables(key: Key, p: Peer, q: Peer)
    requires |key| == 32
    ensures Ordered(DefaultRoute(key, p), 32) && Ordered(WithHalf(key, p, q), 32)
    ensures TableOf(DefaultRoute(key, p)) == map[[] := p] && TableOf(WithHalf(key, p, q)) == map[[] := p, key[..1] := q]
    ensures LongestMatch(map[[] := p], key) == Some(p) && LongestMatch(map[[] := p, key[..1] := q], key) == Some(q)
  {
    var t, u := DefaultRoute(key, p), WithHalf(key, p, q);
    assert key[..0] == [] && [key[0]] == key[..1];
    TakePrefix(key[..1], key);
    PrefixMatchesIffCovers(key, 1, key);
    PrefixMatchesIffCovers(key, 0, key);
    LookupIsLongestMatch(t, key);
    LookupIsLongestMatch(u, key);
    assert FindPeer(Leaf(1, key, 1, q), key, Some(p)) == Some(q);
    assert FindPeer(u, key, None) == Some(q);
  }

  lemma {:induction false} OvertakenReads(key: Key, p: Peer, q: Peer, r: Peer)
    requires |key| == 32
    ensures var ms := Overtaken(key, p, q, r);
            && Reads(ms[0], V4, map[[] := p]) && Reads(ms[3], V4, map[[] := p, key[..1] := q])
            && Reads(ms[4], V4, map[[] := r, key[..1] := q])
  {
    var ms := Overtaken(key, p, q, r);
    HalfTables(key, p, q);
    HalfTables(key, r, q);
    assert Shape(ms[0].nodes, Some(0), DefaultRoute(key, p));
    assert Shape(ms[3].nodes, Some(1), Leaf(1, key, 1, q)) && Shape(ms[3].nodes, Some(0), WithHalf(key, p, q));
    assert Shape(ms[4].nodes, Some(1), Leaf(1, key, 1, q)) && Shape(ms[4].nodes, Some(0), WithHalf(key, r, q));
  }

  /** It answers `r`, which is right neither before, nor between, nor after the two updates. */
  lemma {:induction false} TwoUpdatesMix(key: Key, p: Peer, q: Peer, r: Peer)
    requires |key| == 32 && p != q && q != r && r != p
    ensures var ms := Overtaken(key, p, q, r);
            && Reads(ms[0], V4, map[[] := p]) && Reads(ms[3], V4, map[[] := p, key[..1] := q])
            && Reads(ms[4], V4, map[[] := r, key[..1] := q])
    ensures LongestMatch(map[[] := p], key) == Some(p)
    ensures LongestMatch(map[[] := p, key[..1] := q], key) == LongestMatch(map[[] := r, key[..1] := q], key) == Some(q)
    ensures var turns := [Lookup, Lookup, Lookup] + [Writer, Writer, Writer, Writer] + [Lookup, Lookup];
            Interleaved(Overtaken(key, p, q, r), V4, key, turns) == (4, Answered(Some(r)))
  {
    OvertakenReads(key, p, q, r);
    HalfTables(key, p, q);
    HalfTables(key, r, q);
    OvertakenTurns(key, p, q, r);
  }

  lemma {:induction false} OvertakenTurns(key: Key, p: Peer, q: Peer, r: Peer)
    requires |key| == 32
    ensures var turns := [Lookup, Lookup, Lookup] + [Writer, Writer, Writer, Writer] + [Lookup, Lookup];
            Interleaved(Overtaken(key, p, q, r), V4, key, turns) == (4, Answered(Some(r)))
  {
    var ms := Overtaken(key, p, q, r);
    var a := [Lookup, Lookup, Lookup];
    var b := a + [Writer, Writer, Writer, Writer];
    LooksFirst(key, p, q, r);
    WriterRuns(ms, V4, key, a, AtNode(None, Some(0)));
    TwoLooks(ms, V4, key, b, 4, AtNode(None, Some(0)));
  }

  lemma {:induction false} LooksFirst(key: Key, p: Peer, q: Peer, r: Peer)
    requires |key| == 32
    ensures Interleaved(Overtaken(key, p, q, r), V4, key, [Lookup, Lookup, Lookup]) == (0, AtNode(None, Some(0)))
  {
    var ms := Overtaken(key, p, q, r);
    PrefixMatchesIffCovers(key, 0, key);
    assert [Lookup][..0] == [] && [Lookup, Lookup][..1] == [Lookup] && [Lookup, Lookup, Lookup][..2] == [Lookup, Lookup];
    assert Interleaved(ms, V4, key, []) == (0, Begin);
    assert Interleaved(ms, V4, key, [Lookup]) == (0, AtNode(Some(0), None));
    assert Interleaved(ms, V4, key, [Lookup, Lookup]) == (0, GotPeer(0, Some(0)));
  }

  lemma {:induction false} WriterRuns(ms: seq<Mem>, f: Family, key: Key, a: seq<Turn>, r: Reader)
    requires |ms| == 5 && Interleaved(ms, f, key, a) == (0, r)
    ensures Interleaved(ms, f, key, a + [Writer, Writer, Writer, Writer]) == (4, r)
  {
    OneTurnMore(ms, f, key, a, Writer);
    OneTurnMore(ms, f, key, a + [Writer], Writer);
    OneTurnMore(ms, f, key, a + [Writer] + [Writer], Writer);
    OneTurnMore(ms, f, key, a + [Writer] + [Writer] + [Writer], Writer);
    assert a + [Writer] + [Writer] + [Writer] + [Writer] == a + [Writer, Writer, Writer, Writer];
  }

  lemma {:induction false} TwoLooks(ms: seq<Mem>, f: Family, key: Key, a: seq<Turn>, j: nat, r: Reader)
    requires j < |ms| && Interleaved(ms, f, key, a) == (j, r)
    ensures Interleaved(ms, f, key, a + [Lookup, Lookup]) == (j, Load(ms[j], f, key, Load(ms[j], f, key, r)))
  {
    OneTurnMore(ms, f, key, a, Lookup);
    OneTurnMore(ms, f, key, a + [Lookup], Lookup);
    assert a + [Lookup] + [Lookup] == a + [Lookup, Lookup];
  }

  lemma OneTurnMore(ms: seq<Mem>, f: Family, key: Key, a: seq<Turn>, t: Turn)
    requires ms != []
    ensures var (j, r) := Interleaved(ms, f, key, a);
            Interleaved(ms, f, key, a + [t]) ==
              if t.Lookup? then (j, Load(ms[j], f, key, r)) else if j + 1 < |ms| then (j + 1, r) else (j, r)
  {
    assert (a + [t])[..|a|] == a;
  }
}
