/** The lock-free multi-producer single-consumer packet queue, one atomic access per step,
    under every interleaving of any number of producers with the consumer (sequential
    consistency).  `chain`, `log`, `out` and `disturbed` are history: they record what
    happened and no step reads them. */
module PrevQueue {
  import opened Common
  import opened Messages

  type Tid = nat
  type Pid = nat

  datatype Node = Stub | Pkt(id: Pid)

  /** A producer inside `wg_prev_queue_enqueue`; threads not listed are outside it. */
  datatype Producer =
    | Counted(pkt: Pid)               // slot reserved in `count`
    | Nulled(pkt: Pid)                // NEXT(skb) = NULL done
    | Swapped(prev: Node, pkt: Pid)   // xchg done, old head not linked yet

  /** The consumer inside `wg_prev_queue_dequeue`. */
  datatype Consumer =
    | Ready
    | Reload(t: Node)                       // stub skipped, NEXT to be loaded again
    | Decide(t: Node, nx: Option<Node>)     // NEXT(tail) loaded
    | StubNull(t: Node)                     // about to write NEXT(STUB) = NULL
    | StubSwap(t: Node)                     // about to exchange head with STUB
    | StubLink(t: Node, prev: Node)         // about to link STUB
    | Recheck(t: Node)                      // about to load NEXT(tail) once more
    | Uncount(t: Node)                      // tail advanced, `count` to be decremented

  datatype State = State(
    next: map<Node, Option<Node>>, head: Node, tail: Node, count: int,
    producers: map<Tid, Producer>, consumer: Consumer,
    chain: seq<Node>, log: seq<Pid>, out: seq<Pid>, disturbed: bool)

  function Init(): (s: State) {
    State(map[Stub := None], Stub, Stub, 0, map[], Ready, [Stub], [], [], false)
  }

  function NextOf(s: State, n: Node): (r: Option<Node>) {
    if n in s.next then s.next[n] else None
  }

  // ---------------------------------------------------------------- steps

  datatype Step = Reserve(k: Tid, p: Pid) | Null(k: Tid) | Xchg(k: Tid) | LinkUp(k: Tid) | Consume

  /** A caller may only enqueue a packet that it owns. */
  ghost predicate Owned(s: State, p: Pid) {
    && Pkt(p) !in s.chain
    && (forall k :: k in s.producers ==> s.producers[k].pkt != p)
    && s.consumer != Uncount(Pkt(p))
  }

  ghost predicate Enabled(s: State, st: Step) {
    match st
    case Reserve(k, p) => k !in s.producers && Owned(s, p)
    case Null(k) => k in s.producers && s.producers[k].Counted?
    case Xchg(k) => k in s.producers && s.producers[k].Nulled?
    case LinkUp(k) => k in s.producers && s.producers[k].Swapped?
    case Consume => true
  }

  /** Some producer has exchanged the head after `n` and not yet linked it. */
  ghost predicate ProducerPending(s: State, n: Node) {
    exists k :: k in s.producers && s.producers[k].Swapped? && s.producers[k].prev == n
  }

  function DoXchg(s: State, n: Node): (r: State) {
    s.(head := n, chain := s.chain + [n])
  }

  function ProducerStep(s: State, st: Step): (r: State)
    requires st != Consume
    requires st.k in s.producers || st.Reserve?
    requires st.Xchg? ==> s.producers[st.k].Nulled?
    requires st.LinkUp? ==> s.producers[st.k].Swapped?
  {
    match st
    case Reserve(k, p) =>
      // atomic_add_unless: refuse exactly at the limit
      if s.count == MAX_QUEUED_PACKETS then s
      else s.(count := s.count + 1, producers := s.producers[k := Counted(p)])
    case Null(k) =>
      var p := s.producers[k].pkt;
      s.(next := s.next[Pkt(p) := None], producers := s.producers[k := Nulled(p)])
    case Xchg(k) =>
      var p := s.producers[k].pkt;
      DoXchg(s, Pkt(p)).(producers := s.producers[k := Swapped(s.head, p)], log := s.log + [p])
    case LinkUp(k) =>
      var Swapped(prev, p) := s.producers[k];
      s.(next := s.next[prev := Some(Pkt(p))], producers := s.producers - {k})
  }

  /** The tail moves on; the packet it leaves is the one being returned. */
  function Advance(s: State, n: Node): (r: State) {
    s.(tail := n, chain := if s.chain == [] then [] else s.chain[1..])
  }

  function Deliver(s: State, t: Node, n: Node): (r: State) {
    Advance(s, n).(consumer := Uncount(t), out := s.out + (if t.Pkt? then [t.id] else []))
  }

  /** One step of the dequeue code; a call begins in `Ready`. */
  function ConsumerStep(s: State): (r: State) {
    match s.consumer
    case Ready =>
      var nx := NextOf(s, s.tail);
      if s.tail != Stub then s.(consumer := Decide(s.tail, nx))
      else if nx.None? then s                                     // returns NULL
      else Advance(s, nx.value).(consumer := Reload(nx.value))
    case Reload(t) => s.(consumer := Decide(t, NextOf(s, t)))
    case Decide(t, Some(n)) => Deliver(s, t, n)
    case Decide(t, None) =>
      if t != s.head then s.(consumer := Ready)                   // returns NULL
      else s.(consumer := StubNull(t))
    case StubNull(t) => s.(next := s.next[Stub := None], consumer := StubSwap(t))
    case StubSwap(t) => DoXchg(s, Stub).(consumer := StubLink(t, s.head))
    case StubLink(t, prev) => s.(next := s.next[prev := Some(Stub)], consumer := Recheck(t))
    case Recheck(t) =>
      var nx := NextOf(s, t);
      if nx.Some? then Deliver(s, t, nx.value)
      else s.(consumer := Ready)                                  // returns NULL
    case Uncount(t) => s.(count := s.count - 1, consumer := Ready)  // returns t
  }

  /** Full step, with the bookkeeping of "a producer was mid-enqueue at the tail during
      this call". */
  ghost function Apply(s: State, st: Step): (r: State)
    requires Enabled(s, st)
  {
    var r := if st == Consume then ConsumerStep(s) else ProducerStep(s, st);
    var before := if st == Consume && s.consumer.Ready? then ProducerPending(s, s.tail) else s.disturbed;
    r.(disturbed := before || ProducerPending(r, r.tail))
  }

  // ---------------------------------------------------------------- invariant

  function Packets(chain: seq<Node>): (ps: seq<Pid>) {
    if chain == [] then []
    else (if chain[0].Pkt? then [chain[0].id] else []) + Packets(chain[1..])
  }

  function Reserved(producers: map<Tid, Producer>): (ks: set<Tid>) {
    set k | k in producers && !producers[k].Swapped?
  }

  ghost predicate PendingLink(s: State, a: Node, b: Node) {
    match b
    case Pkt(p) => exists k :: k in s.producers && s.producers[k] == Swapped(a, p)
    case Stub => s.consumer.StubLink? && s.consumer.prev == a
  }

  /** Consecutive chain nodes are linked, or someone is just about to link them. */
  ghost predicate LinkAt(s: State, i: int)
    requires 0 <= i < |s.chain| - 1
  {
    || NextOf(s, s.chain[i]) == Some(s.chain[i + 1])
    || (NextOf(s, s.chain[i]) == None && PendingLink(s, s.chain[i], s.chain[i + 1]))
  }

  ghost predicate Adjacent(chain: seq<Node>, a: Node, b: Node) {
    exists i :: 0 <= i < |chain| - 1 && chain[i] == a && chain[i + 1] == b
  }

  /** Shape of the chain: from tail to head, each node once. */
  ghost predicate ChainInv(s: State) {
    && s.chain != [] && s.chain[0] == s.tail && s.chain[|s.chain| - 1] == s.head
    && NoDup(s.chain)
    && NextOf(s, s.head) == None
    && (forall i :: 0 <= i < |s.chain| - 1 ==> LinkAt(s, i))
  }

  ghost predicate ProducerInv(s: State) {
    && (forall j, k :: j in s.producers && k in s.producers && j != k ==> s.producers[j].pkt != s.producers[k].pkt)
    && (forall k :: k in s.producers ==>
          match s.producers[k]
          case Counted(p) => Pkt(p) !in s.chain
          case Nulled(p) => Pkt(p) !in s.chain && NextOf(s, Pkt(p)) == None
          case Swapped(prev, p) => Adjacent(s.chain, prev, Pkt(p)) && NextOf(s, prev) == None)
  }

  ghost predicate ConsumerInv(s: State) {
    match s.consumer
    case Ready => true
    case Reload(t) => t == s.tail && t.Pkt?
    case Decide(t, nx) =>
      && t == s.tail && t.Pkt?
      && (nx.Some? ==> NextOf(s, t) == nx)
      && (nx.None? ==> s.disturbed || |s.chain| == 1)
    case StubNull(t) => t == s.tail && t.Pkt? && Stub !in s.chain
    case StubSwap(t) => t == s.tail && t.Pkt? && Stub !in s.chain && NextOf(s, Stub) == None
    case StubLink(t, prev) => t == s.tail && t.Pkt? && Adjacent(s.chain, prev, Stub) && NextOf(s, prev) == None
    case Recheck(t) => t == s.tail && t.Pkt? && |s.chain| > 1
    case Uncount(t) => t.Pkt? && t !in s.chain && forall k :: k in s.producers ==> s.producers[k].pkt != t.id
  }

  /** Nothing lost, duplicated or reordered; every counted slot accounted for. */
  ghost predicate BooksInv(s: State) {
    && s.log == s.out + Packets(s.chain)
    && s.count == |Packets(s.chain)| + |Reserved(s.producers)| + (if s.consumer.Uncount? then 1 else 0)
    && s.count <= MAX_QUEUED_PACKETS
  }

  ghost predicate Inv(s: State) {
    ChainInv(s) && ProducerInv(s) && ConsumerInv(s) && BooksInv(s)
  }

  // ---------------------------------------------------------------- chain lemmas

  lemma {:induction false} PacketsAppend(a: seq<Node>, n: Node)
    ensures Packets(a + [n]) == Packets(a) + (if n.Pkt? then [n.id] else [])
  {
    if a == [] {
      assert a + [n] == [n];
      assert Packets([n]) == (if n.Pkt? then [n.id] else []) + Packets([n][1..]);
    } else {
      assert (a + [n])[0] == a[0] && (a + [n])[1..] == a[1..] + [n];
      PacketsAppend(a[1..], n);
    }
  }

  lemma ReservedAdd(ps: map<Tid, Producer>, k: Tid, x: Producer)
    requires k !in ps && !x.Swapped?
    ensures |Reserved(ps[k := x])| == |Reserved(ps)| + 1
  {
    assert Reserved(ps[k := x]) == Reserved(ps) + {k};
  }

  lemma ReservedKeep(ps: map<Tid, Producer>, k: Tid, x: Producer)
    requires k in ps && !ps[k].Swapped? && !x.Swapped?
    ensures |Reserved(ps[k := x])| == |Reserved(ps)|
  {
    assert Reserved(ps[k := x]) == Reserved(ps);
  }

  lemma ReservedDrop(ps: map<Tid, Producer>, k: Tid, x: Producer)
    requires k in ps && !ps[k].Swapped? && x.Swapped?
    ensures |Reserved(ps[k := x])| == |Reserved(ps)| - 1
  {
    assert Reserved(ps[k := x]) == Reserved(ps) - {k};
  }

  lemma ReservedGone(ps: map<Tid, Producer>, k: Tid)
    requires k in ps && ps[k].Swapped?
    ensures |Reserved(ps - {k})| == |Reserved(ps)|
  {
    assert Reserved(ps - {k}) == Reserved(ps);
  }

  lemma AdjacentUnique(chain: seq<Node>, a: Node, b: Node, c: Node)
    requires NoDup(chain) && Adjacent(chain, a, b) && Adjacent(chain, a, c)
    ensures b == c
  {
  }

  lemma AdjacentGrow(chain: seq<Node>, n: Node)
    requires chain != []
    ensures Adjacent(chain + [n], chain[|chain| - 1], n)
    ensures forall a, b :: Adjacent(chain, a, b) ==> Adjacent(chain + [n], a, b)
  {
    var c := chain + [n];
    assert c[|chain| - 1] == chain[|chain| - 1] && c[|chain|] == n;
    forall a, b | Adjacent(chain, a, b) ensures Adjacent(c, a, b) {
      var i :| 0 <= i < |chain| - 1 && chain[i] == a && chain[i + 1] == b;
      assert c[i] == a && c[i + 1] == b;
    }
  }

  lemma AdjacentShrink(chain: seq<Node>, a: Node, b: Node)
    requires chain != [] && Adjacent(chain, a, b) && a != chain[0]
    ensures Adjacent(chain[1..], a, b)
  {
    var i :| 0 <= i < |chain| - 1 && chain[i] == a && chain[i + 1] == b;
    assert chain[1..][i - 1] == a && chain[1..][i] == b;
  }

  lemma AdjacentIn(chain: seq<Node>, a: Node, b: Node)
    requires Adjacent(chain, a, b)
    ensures a in chain && b in chain
  {
  }

  // ---------------------------------------------------------------- preservation

  /** Steps that neither touch the chain nor finish a pending link. */
  lemma LinksKept(s: State, r: State)
    requires ChainInv(s) && r.chain == s.chain
    requires forall n :: n in s.chain ==> NextOf(r, n) == NextOf(s, n)
    requires forall k :: k in s.producers && s.producers[k].Swapped? ==> k in r.producers && r.producers[k] == s.producers[k]
    requires s.consumer.StubLink? ==> r.consumer == s.consumer
    ensures forall i :: 0 <= i < |r.chain| - 1 ==> LinkAt(r, i)
  {
    forall i | 0 <= i < |r.chain| - 1 ensures LinkAt(r, i) {
      assert LinkAt(s, i);
      PendingKept(s, r, s.chain[i], s.chain[i + 1]);
    }
  }

  lemma PendingKept(s: State, r: State, a: Node, b: Node)
    requires forall k :: k in s.producers && s.producers[k].Swapped? ==> k in r.producers && r.producers[k] == s.producers[k]
    requires s.consumer.StubLink? ==> r.consumer == s.consumer
    ensures PendingLink(s, a, b) ==> PendingLink(r, a, b)
  {
    if PendingLink(s, a, b) && b.Pkt? {
      var k :| k in s.producers && s.producers[k] == Swapped(a, b.id);
      assert r.producers[k] == Swapped(a, b.id);
    }
  }

  lemma ReserveKeeps(s: State, k: Tid, p: Pid)
    requires Inv(s) && Enabled(s, Reserve(k, p))
    ensures Inv(Apply(s, Reserve(k, p)))
  {
    var r := Apply(s, Reserve(k, p));
    LinksKept(s, r);
    if s.count != MAX_QUEUED_PACKETS {
      ReservedAdd(s.producers, k, Counted(p));
      ReserveProducers(s, r, k, p);
      ReserveConsumer(s, r, k, p);
    }
  }

  lemma ReserveConsumer(s: State, r: State, k: Tid, p: Pid)
    requires ConsumerInv(s) && Owned(s, p) && r.producers == s.producers[k := Counted(p)]
    requires r.consumer == s.consumer && r.chain == s.chain && r.next == s.next && r.tail == s.tail
    requires s.disturbed ==> r.disturbed
    ensures ConsumerInv(r)
  {
  }

  lemma ReserveProducers(s: State, r: State, k: Tid, p: Pid)
    requires ProducerInv(s) && k !in s.producers && Owned(s, p)
    requires r.producers == s.producers[k := Counted(p)] && r.chain == s.chain && r.next == s.next
    ensures ProducerInv(r)
  {
  }

  lemma NullKeeps(s: State, k: Tid)
    requires Inv(s) && Enabled(s, Null(k))
    ensures Inv(Apply(s, Null(k)))
  {
    var r := Apply(s, Null(k));
    var p := s.producers[k].pkt;
    ReservedKeep(s.producers, k, Nulled(p));
    LinksKept(s, r);
    forall j | j in s.producers && s.producers[j].Swapped? ensures s.producers[j].prev != Pkt(p) {
      AdjacentIn(s.chain, s.producers[j].prev, Pkt(s.producers[j].pkt));
    }
    if s.consumer.StubLink? { AdjacentIn(s.chain, s.consumer.prev, Stub); }
  }

  /** An exchange of the head, by a producer or by the consumer for the stub. */
  lemma XchgChain(s: State, r: State, n: Node)
    requires ChainInv(s) && n !in s.chain && NextOf(s, n) == None
    requires r.chain == s.chain + [n] && r.head == n && r.tail == s.tail && r.next == s.next
    requires forall k :: k in s.producers && s.producers[k].Swapped? ==> k in r.producers && r.producers[k] == s.producers[k]
    requires s.consumer.StubLink? ==> r.consumer == s.consumer
    requires PendingLink(r, s.head, n)
    ensures ChainInv(r)
  {
    forall i | 0 <= i < |r.chain| - 1 ensures LinkAt(r, i) {
      if i < |s.chain| - 1 {
        assert LinkAt(s, i);
        assert r.chain[i] == s.chain[i] && r.chain[i + 1] == s.chain[i + 1];
        PendingKept(s, r, s.chain[i], s.chain[i + 1]);
      }
    }
  }

  lemma XchgKeeps(s: State, k: Tid)
    requires Inv(s) && Enabled(s, Xchg(k))
    ensures Inv(Apply(s, Xchg(k)))
  {
    var r := Apply(s, Xchg(k));
    var p := s.producers[k].pkt;
    assert r.producers[k] == Swapped(s.head, p);
    XchgChain(s, r, Pkt(p));
    AdjacentGrow(s.chain, Pkt(p));
    XchgProducers(s, r, k);
    PacketsAppend(s.chain, Pkt(p));
    ReservedDrop(s.producers, k, Swapped(s.head, p));
    assert s.log + [p] == s.out + (Packets(s.chain) + [p]);
    XchgDisturbs(s, r, k);
    XchgConsumer(s, r, k);
  }

  lemma XchgConsumer(s: State, r: State, k: Tid)
    requires ConsumerInv(s) && s.chain != [] && k in s.producers
    requires r.producers == s.producers[k := Swapped(s.head, s.producers[k].pkt)]
    requires r.consumer == s.consumer && r.chain == s.chain + [Pkt(s.producers[k].pkt)] && r.next == s.next && r.tail == s.tail
    requires s.disturbed || |s.chain| == 1 ==> r.disturbed
    ensures ConsumerInv(r)
  {
    AdjacentGrow(s.chain, Pkt(s.producers[k].pkt));
  }

  lemma XchgProducers(s: State, r: State, k: Tid)
    requires ChainInv(s) && ProducerInv(s) && k in s.producers && s.producers[k].Nulled?
    requires r.producers == s.producers[k := Swapped(s.head, s.producers[k].pkt)] && r.next == s.next
    requires r.chain == s.chain + [Pkt(s.producers[k].pkt)]
    ensures ProducerInv(r)
  {
    AdjacentGrow(s.chain, Pkt(s.producers[k].pkt));
  }

  /** If the tail was also the head, the exchange leaves a producer pending right there. */
  lemma XchgDisturbs(s: State, r: State, k: Tid)
    requires Inv(s) && Enabled(s, Xchg(k)) && r == Apply(s, Xchg(k))
    ensures |s.chain| == 1 ==> r.disturbed
    ensures s.disturbed ==> r.disturbed
  {
    assert r.producers[k] == Swapped(s.head, s.producers[k].pkt);
    if |s.chain| == 1 {
      assert s.head == s.tail == r.tail;
      assert ProducerPending(r, r.tail);
    }
  }

  lemma LinkUpKeeps(s: State, k: Tid)
    requires Inv(s) && Enabled(s, LinkUp(k))
    ensures Inv(Apply(s, LinkUp(k)))
  {
    var r := Apply(s, LinkUp(k));
    var Swapped(prev, p) := s.producers[k];
    ReservedGone(s.producers, k);
    AdjacentIn(s.chain, prev, Pkt(p));
    LinkUpProducers(s, r, k);
    if s.consumer.StubLink? && s.consumer.prev == prev {
      AdjacentUnique(s.chain, prev, Pkt(p), Stub);
    }
    LinkUpChain(s, r, k);
    LinkUpConsumer(s, r, k);
  }

  lemma LinkUpProducers(s: State, r: State, k: Tid)
    requires ChainInv(s) && ProducerInv(s) && k in s.producers && s.producers[k].Swapped?
    requires r.next == s.next[s.producers[k].prev := Some(Pkt(s.producers[k].pkt))] && r.producers == s.producers - {k}
    requires r.chain == s.chain
    ensures ProducerInv(r)
  {
    var Swapped(prev, p) := s.producers[k];
    AdjacentIn(s.chain, prev, Pkt(p));
    forall j | j in s.producers && j != k && s.producers[j].Swapped? ensures s.producers[j].prev != prev {
      if s.producers[j].prev == prev {
        AdjacentUnique(s.chain, prev, Pkt(p), Pkt(s.producers[j].pkt));
      }
    }
  }

  lemma LinkUpConsumer(s: State, r: State, k: Tid)
    requires ConsumerInv(s) && k in s.producers && s.producers[k].Swapped? && s.producers[k].prev in s.chain
    requires NextOf(s, s.producers[k].prev) == None
    requires s.consumer.StubLink? ==> s.consumer.prev != s.producers[k].prev
    requires r.next == s.next[s.producers[k].prev := Some(Pkt(s.producers[k].pkt))] && r.producers == s.producers - {k}
    requires r.chain == s.chain && r.tail == s.tail && r.consumer == s.consumer && (s.disturbed ==> r.disturbed)
    ensures ConsumerInv(r)
  {
  }

  lemma LinkUpChain(s: State, r: State, k: Tid)
    requires ChainInv(s) && k in s.producers && s.producers[k].Swapped?
    requires Adjacent(s.chain, s.producers[k].prev, Pkt(s.producers[k].pkt))
    requires r.next == s.next[s.producers[k].prev := Some(Pkt(s.producers[k].pkt))] && r.producers == s.producers - {k}
    requires r.chain == s.chain && r.tail == s.tail && r.head == s.head && r.consumer == s.consumer
    ensures ChainInv(r)
  {
    var Swapped(prev, p) := s.producers[k];
    var m :| 0 <= m < |s.chain| - 1 && s.chain[m] == prev && s.chain[m + 1] == Pkt(p);
    forall i | 0 <= i < |r.chain| - 1 ensures LinkAt(r, i) {
      assert LinkAt(s, i);
      var a, b := s.chain[i], s.chain[i + 1];
      if i != m && NextOf(s, a) == None && b.Pkt? {
        var j :| j in s.producers && s.producers[j] == Swapped(a, b.id);
        assert j != k;
        assert r.producers[j] == Swapped(a, b.id);
      }
    }
  }

  // ---------------------------------------------------------------- the consumer's steps

  /** The tail moves to its linked successor. */
  lemma AdvanceChain(s: State, r: State, n: Node)
    requires ChainInv(s) && NextOf(s, s.tail) == Some(n)
    requires r.chain == s.chain[1..] && r.tail == n && r.head == s.head && r.next == s.next
    requires r.producers == s.producers && !s.consumer.StubLink?
    ensures ChainInv(r) && |s.chain| > 1 && n == s.chain[1] && s.tail !in r.chain
    ensures Packets(s.chain) == (if s.tail.Pkt? then [s.tail.id] else []) + Packets(r.chain)
  {
    assert |s.chain| > 1;
    assert LinkAt(s, 0);
    forall i | 0 <= i < |r.chain| - 1 ensures LinkAt(r, i) {
      assert LinkAt(s, i + 1);
      assert r.chain[i] == s.chain[i + 1] && r.chain[i + 1] == s.chain[i + 2];
      PendingKept(s, r, r.chain[i], r.chain[i + 1]);
    }
  }

  lemma AdvanceProducers(s: State, r: State, n: Node)
    requires ChainInv(s) && ProducerInv(s) && NextOf(s, s.tail) == Some(n)
    requires r.chain == s.chain[1..] && r.next == s.next && r.producers == s.producers
    ensures ProducerInv(r)
    ensures s.tail.Pkt? ==> forall k :: k in r.producers ==> r.producers[k].pkt != s.tail.id
  {
    forall k | k in s.producers && s.producers[k].Swapped?
      ensures Adjacent(r.chain, s.producers[k].prev, Pkt(s.producers[k].pkt)) && Pkt(s.producers[k].pkt) != s.tail
    {
      var Swapped(prev, p) := s.producers[k];
      AdjacentShrink(s.chain, prev, Pkt(p));
      AdjacentIn(s.chain[1..], prev, Pkt(p));
    }
  }

  lemma DeliverKeeps(s: State, t: Node, n: Node, d: bool)
    requires Inv(s) && t == s.tail && t.Pkt? && NextOf(s, t) == Some(n)
    requires s.consumer.Decide? || s.consumer.Recheck?
    ensures Inv(Deliver(s, t, n).(disturbed := d))
  {
    var r := Deliver(s, t, n).(disturbed := d);
    AdvanceChain(s, r, n);
    AdvanceProducers(s, r, n);
    DeliverBooks(s, r, t);
  }

  lemma DeliverBooks(s: State, r: State, t: Node)
    requires BooksInv(s) && s.chain != [] && s.chain[0] == t && t.Pkt? && !s.consumer.Uncount?
    requires r.chain == s.chain[1..] && r.out == s.out + [t.id] && r.log == s.log && r.consumer == Uncount(t)
    requires r.count == s.count && r.producers == s.producers
    ensures BooksInv(r)
  {
    assert Packets(s.chain) == [t.id] + Packets(r.chain);
    assert s.out + ([t.id] + Packets(r.chain)) == r.out + Packets(r.chain);
  }

  lemma SkipStubKeeps(s: State, n: Node, d: bool)
    requires Inv(s) && s.consumer.Ready? && s.tail == Stub && NextOf(s, Stub) == Some(n)
    ensures Inv(Advance(s, n).(consumer := Reload(n), disturbed := d))
  {
    var r := Advance(s, n).(consumer := Reload(n), disturbed := d);
    AdvanceChain(s, r, n);
    AdvanceProducers(s, r, n);
    assert n in r.chain;
  }

  lemma StubXchgKeeps(s: State, d: bool)
    requires Inv(s) && s.consumer.StubSwap?
    ensures Inv(ConsumerStep(s).(disturbed := d))
  {
    var r := ConsumerStep(s).(disturbed := d);
    XchgChain(s, r, Stub);
    AdjacentGrow(s.chain, Stub);
    PacketsAppend(s.chain, Stub);
    StubXchgProducers(s, r);
  }

  lemma StubXchgProducers(s: State, r: State)
    requires ProducerInv(s) && ChainInv(s) && r.producers == s.producers && r.next == s.next && r.chain == s.chain + [Stub]
    ensures ProducerInv(r)
  {
    AdjacentGrow(s.chain, Stub);
  }

  lemma StubLinkKeeps(s: State, d: bool)
    requires Inv(s) && s.consumer.StubLink?
    ensures Inv(ConsumerStep(s).(disturbed := d))
  {
    var r := ConsumerStep(s).(disturbed := d);
    var prev := s.consumer.prev;
    AdjacentIn(s.chain, prev, Stub);
    StubLinkChain(s, r);
    forall j | j in s.producers && s.producers[j].Swapped? ensures s.producers[j].prev != prev {
      if s.producers[j].prev == prev {
        AdjacentUnique(s.chain, prev, Stub, Pkt(s.producers[j].pkt));
      }
    }
  }

  lemma StubLinkChain(s: State, r: State)
    requires ChainInv(s) && s.consumer.StubLink? && Adjacent(s.chain, s.consumer.prev, Stub)
    requires r.next == s.next[s.consumer.prev := Some(Stub)] && r.producers == s.producers
    requires r.chain == s.chain && r.tail == s.tail && r.head == s.head
    ensures ChainInv(r)
  {
    var prev := s.consumer.prev;
    var m :| 0 <= m < |s.chain| - 1 && s.chain[m] == prev && s.chain[m + 1] == Stub;
    forall i | 0 <= i < |r.chain| - 1 ensures LinkAt(r, i) {
      assert LinkAt(s, i);
      var a, b := s.chain[i], s.chain[i + 1];
      if i != m && NextOf(s, a) == None && b.Pkt? {
        var j :| j in s.producers && s.producers[j] == Swapped(a, b.id);
        assert r.producers[j] == Swapped(a, b.id);
      }
    }
  }

  /** A `NEXT(tail)` that reads NULL in front of a longer chain means a producer is mid-way. */
  lemma NullMeansPending(s: State)
    requires Inv(s) && NextOf(s, s.tail) == None && |s.chain| > 1 && !s.consumer.StubLink?
    ensures ProducerPending(s, s.tail)
  {
    assert LinkAt(s, 0);
    assert s.chain[1].Pkt?;
    var k :| k in s.producers && s.producers[k] == Swapped(s.chain[0], s.chain[1].id);
  }

  lemma QuietKeeps(s: State, r: State)
    requires Inv(s) && !s.consumer.StubLink?
    requires r == s.(consumer := r.consumer, disturbed := r.disturbed) && ConsumerInv(r)
    requires !s.consumer.Uncount? && !r.consumer.Uncount?
    ensures Inv(r)
  {
    LinksKept(s, r);
  }

  lemma ReadyKeeps(s: State)
    requires Inv(s) && s.consumer.Ready?
    ensures Inv(Apply(s, Consume))
  {
    var r := Apply(s, Consume);
    var nx := NextOf(s, s.tail);
    if s.tail != Stub {
      if nx.None? && |s.chain| > 1 { NullMeansPending(s); }
      QuietKeeps(s, r);
    } else if nx.None? {
      QuietKeeps(s, r);
    } else {
      SkipStubKeeps(s, nx.value, r.disturbed);
    }
  }

  lemma ReloadKeeps(s: State)
    requires Inv(s) && s.consumer.Reload?
    ensures Inv(Apply(s, Consume))
  {
    var r := Apply(s, Consume);
    if NextOf(s, s.tail).None? && |s.chain| > 1 {
      NullMeansPending(s);
      assert r.producers == s.producers && r.tail == s.tail;
      assert ProducerPending(r, r.tail);
    }
    QuietKeeps(s, r);
  }

  lemma DecideKeeps(s: State)
    requires Inv(s) && s.consumer.Decide?
    ensures Inv(Apply(s, Consume))
  {
    var r := Apply(s, Consume);
    var Decide(t, nx) := s.consumer;
    if nx.Some? {
      DeliverKeeps(s, t, nx.value, r.disturbed);
    } else {
      if t == s.head {
        assert s.chain[0] == s.chain[|s.chain| - 1];
        assert |s.chain| == 1;
      }
      QuietKeeps(s, r);
    }
  }

  lemma StubNullKeeps(s: State)
    requires Inv(s) && s.consumer.StubNull?
    ensures Inv(Apply(s, Consume))
  {
    LinksKept(s, Apply(s, Consume));
    forall j | j in s.producers && s.producers[j].Swapped? ensures s.producers[j].prev != Stub {
      AdjacentIn(s.chain, s.producers[j].prev, Pkt(s.producers[j].pkt));
    }
  }

  lemma RecheckKeeps(s: State)
    requires Inv(s) && s.consumer.Recheck?
    ensures Inv(Apply(s, Consume))
  {
    var r := Apply(s, Consume);
    var nx := NextOf(s, s.tail);
    if nx.Some? {
      DeliverKeeps(s, s.tail, nx.value, r.disturbed);
    } else {
      QuietKeeps(s, r);
    }
  }

  lemma UncountKeeps(s: State)
    requires Inv(s) && s.consumer.Uncount?
    ensures Inv(Apply(s, Consume))
  {
    LinksKept(s, Apply(s, Consume));
  }

  lemma ConsumeKeeps(s: State)
    requires Inv(s)
    ensures Inv(Apply(s, Consume))
  {
    match s.consumer
    case Ready => ReadyKeeps(s);
    case Reload(_) => ReloadKeeps(s);
    case Decide(_, _) => DecideKeeps(s);
    case StubNull(_) => StubNullKeeps(s);
    case StubSwap(_) => StubXchgKeeps(s, Apply(s, Consume).disturbed);
    case StubLink(_, _) => StubLinkKeeps(s, Apply(s, Consume).disturbed);
    case Recheck(_) => RecheckKeeps(s);
    case Uncount(_) => UncountKeeps(s);
  }

  // ---------------------------------------------------------------- theorems

  ghost predicate EnabledRun(s: State, steps: seq<Step>)
    decreases |steps|
  {
    steps == [] || (Enabled(s, steps[0]) && EnabledRun(Apply(s, steps[0]), steps[1..]))
  }

  ghost function Run(s: State, steps: seq<Step>): (r: State)
    requires EnabledRun(s, steps)
    decreases |steps|
  {
    if steps == [] then s else Run(Apply(s, steps[0]), steps[1..])
  }

  lemma StepKeeps(s: State, st: Step)
    requires Inv(s) && Enabled(s, st)
    ensures Inv(Apply(s, st))
  {
    match st
    case Reserve(k, p) => ReserveKeeps(s, k, p);
    case Null(k) => NullKeeps(s, k);
    case Xchg(k) => XchgKeeps(s, k);
    case LinkUp(k) => LinkUpKeeps(s, k);
    case Consume => ConsumeKeeps(s);
  }

  lemma {:induction false} RunKeeps(s: State, steps: seq<Step>)
    requires Inv(s) && EnabledRun(s, steps)
    ensures Inv(Run(s, steps))
    decreases |steps|
  {
    if steps != [] {
      StepKeeps(s, steps[0]);
      RunKeeps(Apply(s, steps[0]), steps[1..]);
    }
  }

  /** In every interleaving the packets dequeued are a prefix of the packets in exchange
      order, the rest is in the chain, the stub occurs at most once, and the counter is the
      exact number of packets in flight and within its limit. */
  lemma FifoInEveryInterleaving(steps: seq<Step>)
    requires EnabledRun(Init(), steps)
    ensures var s := Run(Init(), steps);
            && s.out <= s.log && s.log == s.out + Packets(s.chain)
            && NoDup(s.chain)
            && |Packets(s.chain)| <= s.count <= 1024
            && s.count == |Packets(s.chain)| + |Reserved(s.producers)| + (if s.consumer.Uncount? then 1 else 0)
  {
    RunKeeps(Init(), steps);
  }

  /** A producer is turned away exactly when 1024 packets are counted. */
  lemma RefusedIffFull(s: State, k: Tid, p: Pid)
    requires Enabled(s, Reserve(k, p))
    ensures var r := Apply(s, Reserve(k, p));
            if s.count == 1024 then r.producers == s.producers && r.count == 1024
            else r.producers == s.producers[k := Counted(p)] && r.count == s.count + 1
  {
  }

  /** A step by which `wg_prev_queue_dequeue` returns NULL. */
  ghost predicate ReturnsNull(s: State) {
    match s.consumer
    case Ready => s.tail == Stub && NextOf(s, Stub).None?
    case Decide(t, nx) => nx.None? && t != s.head
    case Recheck(t) => NextOf(s, t).None?
    case _ => false
  }

  /** NULL is returned only if the queue holds no packet, or at some moment of this call a
      producer stood between its exchange and its link, right at the tail. */
  lemma NullOnlyIfEmptyOrPending(steps: seq<Step>)
    requires EnabledRun(Init(), steps) && ReturnsNull(Run(Init(), steps))
    ensures var s := Run(Init(), steps);
            Packets(s.chain) == [] || ProducerPending(s, s.tail) || (s.consumer.Decide? && s.disturbed)
  {
    RunKeeps(Init(), steps);
    var s := Run(Init(), steps);
    if !s.consumer.Decide? && |s.chain| > 1 {
      NullMeansPending(s);
    } else if s.consumer.Ready? {
      assert s.chain == [Stub];
      assert s.chain[1..] == [];
    }
  }

  // ---------------------------------------------------------------- NULL with nobody pending

  ghost predicate Reachable(r: State) {
    exists steps :: EnabledRun(Init(), steps) && Run(Init(), steps) == r
  }

  lemma {:induction false} RunAppend(s: State, steps: seq<Step>, st: Step)
    requires EnabledRun(s, steps) && Enabled(Run(s, steps), st)
    ensures EnabledRun(s, steps + [st]) && Run(s, steps + [st]) == Apply(Run(s, steps), st)
    decreases |steps|
  {
    if steps == [] {
      assert [st][1..] == [] && steps + [st] == [st];
    } else {
      RunAppend(Apply(s, steps[0]), steps[1..], st);
      assert (steps + [st])[1..] == steps[1..] + [st];
    }
  }

  lemma ReachStep(r: State, st: Step)
    requires Reachable(r) && Enabled(r, st)
    ensures Reachable(Apply(r, st))
  {
    var steps :| EnabledRun(Init(), steps) && Run(Init(), steps) == r;
    RunAppend(Init(), steps, st);
  }

  /** One complete enqueue, from a state without producers. */
  lemma WholeEnqueue(s: State, p: Pid) returns (r: State)
    requires Reachable(s) && s.producers == map[] && s.count < MAX_QUEUED_PACKETS && Owned(s, p) && s.head != Pkt(p)
    ensures Reachable(r) && r.producers == map[] && r.count == s.count + 1 && r.head == Pkt(p)
    ensures r.next == s.next[Pkt(p) := None][s.head := Some(Pkt(p))] && r.chain == s.chain + [Pkt(p)]
    ensures r.tail == s.tail && r.consumer == s.consumer
  {
    var a := Apply(s, Reserve(0, p));
    ReachStep(s, Reserve(0, p));
    var b := Apply(a, Null(0));
    ReachStep(a, Null(0));
    var c := Apply(b, Xchg(0));
    ReachStep(b, Xchg(0));
    assert c.producers[0] == Swapped(s.head, p);
    r := Apply(c, LinkUp(0));
    ReachStep(c, LinkUp(0));
  }

  /** A dequeue can return NULL from a queue of two packets at a moment when no producer is
      inside the queue at all: the second packet arrived after NEXT(tail) was loaded. */
  lemma NullWithNobodyPending() returns (s: State)
    ensures Reachable(s) && ReturnsNull(s) && s.producers == map[] && Packets(s.chain) == [0, 1]
  {
    assert EnabledRun(Init(), []) && Run(Init(), []) == Init();
    var a := WholeEnqueue(Init(), 0);
    var b := Apply(a, Consume);
    ReachStep(a, Consume);
    assert b.chain == [Pkt(0)] && b.consumer == Reload(Pkt(0)) && b.head == Pkt(0);
    var c := Apply(b, Consume);
    ReachStep(b, Consume);
    assert c.consumer == Decide(Pkt(0), None);
    s := WholeEnqueue(c, 1);
    assert s.chain == [Pkt(0), Pkt(1)] && s.chain[1..] == [Pkt(1)] && [Pkt(1)][1..] == [];
  }

  // ---------------------------------------------------------------- progress

  /** The consumer running alone. */
  ghost function Solo(s: State, n: nat): (r: State)
    decreases n
  {
    if n == 0 then s else Solo(Apply(s, Consume), n - 1)
  }

  ghost predicate NoneMidway(s: State) {
    forall k :: k in s.producers ==> !s.producers[k].Swapped?
  }

  /** `n` further consumer steps bring the packet `p` out. */
  ghost predicate Yields(s: State, n: nat, p: Pid) {
    Solo(s, n).out == s.out + [p] && Solo(s, n).consumer == Uncount(Pkt(p))
  }

  lemma LinkedWhenQuiet(s: State)
    requires Inv(s) && NoneMidway(s) && |s.chain| > 1 && !s.consumer.StubLink?
    ensures NextOf(s, s.tail) == Some(s.chain[1])
  {
    assert LinkAt(s, 0);
  }

  /** A lone packet comes out after the stub has been put behind it. */
  lemma LonePacketYields(s: State)
    requires Inv(s) && NoneMidway(s) && s.consumer == Decide(s.tail, None) && |s.chain| == 1
    ensures Yields(s, 5, s.tail.id)
  {
    var t := s.tail;
    var s1 := Apply(s, Consume);
    var s2 := Apply(s1, Consume);
    var s3 := Apply(s2, Consume);
    assert s3.consumer == StubLink(t, t);
    var s4 := Apply(s3, Consume);
    assert NextOf(s4, t) == Some(Stub);
    var s5 := Apply(s4, Consume);
    assert Solo(s, 5) == Solo(s1, 4) == Solo(s2, 3) == Solo(s3, 2) == Solo(s4, 1) == s5;
  }

  lemma DecideYields(s: State) returns (n: nat)
    requires Inv(s) && NoneMidway(s) && s.consumer == Decide(s.tail, NextOf(s, s.tail))
    ensures n <= 5 && Yields(s, n, s.tail.id)
  {
    if |s.chain| > 1 {
      LinkedWhenQuiet(s);
      assert Solo(s, 1) == Apply(s, Consume);
      n := 1;
    } else {
      LonePacketYields(s);
      n := 5;
    }
  }

  lemma SoloOnce(s: State, n: nat, p: Pid)
    requires Yields(Apply(s, Consume), n, p) && Apply(s, Consume).out == s.out
    ensures Yields(s, n + 1, p)
  {
    assert Solo(s, n + 1) == Solo(Apply(s, Consume), n);
  }

  lemma ReloadYields(s: State) returns (n: nat)
    requires Inv(s) && NoneMidway(s) && s.consumer.Reload?
    ensures n <= 6 && Yields(s, n, s.tail.id)
  {
    ReloadKeeps(s);
    n := DecideYields(Apply(s, Consume));
    SoloOnce(s, n, s.tail.id);
    n := n + 1;
  }

  lemma {:induction false} StubOnly(chain: seq<Node>)
    requires chain != [] && chain[0] == Stub && Packets(chain) != []
    ensures |chain| > 1
  {
    assert Packets(chain) == Packets(chain[1..]);
  }

  lemma {:induction false} OldestPacket(s: State)
    requires Inv(s) && Packets(s.chain) != []
    ensures s.tail != Stub ==> Packets(s.chain)[0] == s.tail.id
    ensures s.tail == Stub ==> |s.chain| > 1 && s.chain[1].Pkt? && Packets(s.chain)[0] == s.chain[1].id
  {
    if s.tail == Stub {
      StubOnly(s.chain);
      assert Packets(s.chain) == Packets(s.chain[1..]);
      assert s.chain[1..][0] == s.chain[1];
    }
  }

  /** With no producer mid-enqueue, a dequeue of a nonempty queue returns its oldest packet. */
  lemma DequeueReturnsOldest(s: State) returns (n: nat)
    requires Inv(s) && NoneMidway(s) && s.consumer.Ready? && Packets(s.chain) != []
    ensures n <= 7 && Yields(s, n, Packets(s.chain)[0])
  {
    var s1 := Apply(s, Consume);
    ReadyKeeps(s);
    OldestPacket(s);
    if s.tail != Stub {
      n := DecideYields(s1);
    } else {
      LinkedWhenQuiet(s);
      n := ReloadYields(s1);
    }
    SoloOnce(s, n, Packets(s.chain)[0]);
    n := n + 1;
  }
}
