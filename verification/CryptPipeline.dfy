/** Parallel crypto, serial delivery: packets of many peers go through one device ring to
    any number of workers, while each peer's own queue fixes the order of delivery.  Each
    state write, queue operation and ring operation is one step; enqueuers, workers and the
    per-peer consumers interleave arbitrarily.  A peer queue is a FIFO whose enqueue may
    fail (see PrevQueue).  `holder`, `log` and `done` are history. */
module CryptPipeline {
  import opened Common
  import opened Messages

  const RING_SIZE: nat := 1024            // length of the device rings

  type Tid = nat
  type Peer = nat

  datatype Packet = Packet(peer: Peer, id: nat)
  datatype PacketState = Uncrypted | Crypted | Dead

  /** A thread inside `wg_queue_enqueue_per_device_and_peer` and its caller. */
  datatype Enqueuer =
    | Marked(p: Packet)    // state = UNCRYPTED written
    | Queued(p: Packet)    // on the peer queue, not yet in the ring
    | RingFull(p: Packet)  // the ring was full: about to mark the packet DEAD

  /** Who will write the state of an UNCRYPTED packet. */
  datatype Holder = ByEnqueuer(k: Tid) | InRing | ByWorker(w: Tid)

  /** What the consumer did with a packet it took off the queue. */
  datatype Verdict = Verdict(p: Packet, ok: bool)

  datatype State = State(
    status: map<Packet, PacketState>,
    queues: map<Peer, seq<Packet>>, peeked: map<Peer, Packet>,
    ring: seq<Packet>,
    enqueuers: map<Tid, Enqueuer>, workers: map<Tid, Packet>,
    holder: map<Packet, Holder>, log: map<Peer, seq<Packet>>, done: map<Peer, seq<Verdict>>)

  function Init(): (s: State) {
    State(map[], map[], map[], [], map[], map[], map[], map[], map[])
  }

  function Of<T>(m: map<Peer, seq<T>>, x: Peer): (r: seq<T>) {
    if x in m then m[x] else []
  }

  function Peeked(s: State, x: Peer): (r: seq<Packet>) {
    if x in s.peeked then [s.peeked[x]] else []
  }

  /** Everything of a peer that is enqueued and not yet consumed, oldest first. */
  function Waiting(s: State, x: Peer): (r: seq<Packet>) {
    Peeked(s, x) + Of(s.queues, x)
  }

  // ---------------------------------------------------------------- steps

  datatype Step =
    | Mark(k: Tid, p: Packet)
    | ToPeer(k: Tid, ok: bool)
    | ToRing(k: Tid)
    | GiveUp(k: Tid)
    | Take(w: Tid)
    | Finish(w: Tid, ok: bool)
    | Peek(x: Peer)
    | Consume(x: Peer)

  predicate Enabled(s: State, st: Step) {
    match st
    case Mark(k, p) =>
      // the caller owns the packet
      k !in s.enqueuers && p !in Waiting(s, p.peer) && (forall j :: j in s.enqueuers ==> s.enqueuers[j].p != p)
    case ToPeer(k, ok) =>
      k in s.enqueuers && s.enqueuers[k].Marked? &&
      (ok ==> |Of(s.queues, s.enqueuers[k].p.peer)| < MAX_QUEUED_PACKETS)
    case ToRing(k) => k in s.enqueuers && s.enqueuers[k].Queued?
    case GiveUp(k) => k in s.enqueuers && s.enqueuers[k].RingFull?
    case Take(w) => w !in s.workers && s.ring != []
    case Finish(w, _) => w in s.workers
    case Peek(x) => x !in s.peeked && Of(s.queues, x) != []
    case Consume(x) => x in s.peeked && s.peeked[x] in s.status && s.status[s.peeked[x]] != Uncrypted
  }

  /** Writing the final state hands the packet to the consumer. */
  function Settle(s: State, p: Packet, v: PacketState): (r: State) {
    s.(status := s.status[p := v], holder := s.holder - {p})
  }

  function Apply(s: State, st: Step): (r: State)
    requires Enabled(s, st)
  {
    match st
    case Mark(k, p) => s.(status := s.status[p := Uncrypted], enqueuers := s.enqueuers[k := Marked(p)])
    case ToPeer(k, ok) =>
      var p := s.enqueuers[k].p;
      if !ok then s.(enqueuers := s.enqueuers - {k})   // -ENOSPC: the caller drops it
      else s.(queues := s.queues[p.peer := Of(s.queues, p.peer) + [p]],
              log := s.log[p.peer := Of(s.log, p.peer) + [p]],
              enqueuers := s.enqueuers[k := Queued(p)], holder := s.holder[p := ByEnqueuer(k)])
    case ToRing(k) =>
      var p := s.enqueuers[k].p;
      if |s.ring| < RING_SIZE
      then s.(ring := s.ring + [p], enqueuers := s.enqueuers - {k}, holder := s.holder[p := InRing])
      else s.(enqueuers := s.enqueuers[k := RingFull(p)])   // -EPIPE
    case GiveUp(k) => Settle(s, s.enqueuers[k].p, Dead).(enqueuers := s.enqueuers - {k})
    case Take(w) =>
      var p := s.ring[0];
      s.(ring := s.ring[1..], workers := s.workers[w := p], holder := s.holder[p := ByWorker(w)])
    case Finish(w, ok) => Settle(s, s.workers[w], if ok then Crypted else Dead).(workers := s.workers - {w})
    case Peek(x) =>
      var q := Of(s.queues, x);
      s.(peeked := s.peeked[x := q[0]], queues := s.queues[x := q[1..]])
    case Consume(x) =>
      var p := s.peeked[x];
      s.(peeked := s.peeked - {x}, done := s.done[x := Of(s.done, x) + [Verdict(p, s.status[p] == Crypted)]])
  }

  // ---------------------------------------------------------------- invariant

  function Names(vs: seq<Verdict>): (ps: seq<Packet>)
    ensures |ps| == |vs| && forall i :: 0 <= i < |vs| ==> ps[i] == vs[i].p
  {
    if vs == [] then [] else Names(vs[..|vs| - 1]) + [vs[|vs| - 1].p]
  }

  ghost predicate InQueue(s: State, p: Packet) {
    p in Waiting(s, p.peer)
  }

  /** A peer's queue holds its own packets, each once, and accounts for the whole log. */
  ghost predicate QueueOk(s: State, x: Peer) {
    && (forall p :: p in Waiting(s, x) ==> p.peer == x && p in s.status)
    && NoDup(Waiting(s, x))
    && Of(s.log, x) == Names(Of(s.done, x)) + Waiting(s, x)
  }

  predicate IsHolding(e: Enqueuer) {
    e.Queued? || e.RingFull?
  }

  /** The recorded holder is where the packet really is. */
  predicate HeldAt(s: State, p: Packet, h: Holder) {
    match h
    case ByEnqueuer(k) => k in s.enqueuers && IsHolding(s.enqueuers[k]) && s.enqueuers[k].p == p
    case InRing => p in s.ring
    case ByWorker(w) => w in s.workers && s.workers[w] == p
  }

  predicate Pending(s: State, p: Packet) {
    p in s.status && s.status[p] == Uncrypted
  }

  /** A waiting packet has a holder exactly as long as its state is UNCRYPTED. */
  ghost predicate HolderOk(s: State, p: Packet) {
    && (p in s.holder <==> InQueue(s, p) && Pending(s, p))
    && (p in s.holder ==> HeldAt(s, p, s.holder[p]))
  }

  predicate HeldBy(s: State, p: Packet, h: Holder) {
    p in s.holder && s.holder[p] == h
  }

  predicate EnqueuerOk(s: State, k: Tid) {
    k in s.enqueuers && IsHolding(s.enqueuers[k]) ==> HeldBy(s, s.enqueuers[k].p, ByEnqueuer(k))
  }

  predicate WorkerOk(s: State, w: Tid) {
    w in s.workers ==> HeldBy(s, s.workers[w], ByWorker(w))
  }

  predicate RingOk(s: State) {
    && |s.ring| <= RING_SIZE && NoDup(s.ring)
    && forall i :: 0 <= i < |s.ring| ==> HeldBy(s, s.ring[i], InRing)
  }

  /** A packet being marked is nowhere else. */
  ghost predicate MarkOk(s: State, k: Tid) {
    k in s.enqueuers && s.enqueuers[k].Marked? ==> !InQueue(s, s.enqueuers[k].p) && Pending(s, s.enqueuers[k].p)
  }

  predicate NoClash(s: State, j: Tid, k: Tid) {
    j in s.enqueuers && k in s.enqueuers && j != k ==> s.enqueuers[j].p != s.enqueuers[k].p
  }

  ghost predicate Inv(s: State) {
    && (forall x :: QueueOk(s, x))
    && (forall p :: HolderOk(s, p))
    && (forall k :: EnqueuerOk(s, k))
    && (forall w :: WorkerOk(s, w))
    && (forall k :: MarkOk(s, k))
    && (forall j, k :: NoClash(s, j, k))
    && RingOk(s)
  }

  // ---------------------------------------------------------------- preservation

  /** Steps that leave the peer queues, the log and the record alone. */
  lemma QueuesKept(s: State, r: State)
    requires forall x :: QueueOk(s, x)
    requires r.queues == s.queues && r.peeked == s.peeked && r.log == s.log && r.done == s.done
    requires s.status.Keys <= r.status.Keys
    ensures forall x :: QueueOk(r, x)
    ensures forall p :: InQueue(r, p) <==> InQueue(s, p)
  {
    forall x ensures QueueOk(r, x) {
      assert QueueOk(s, x);
      assert Waiting(r, x) == Waiting(s, x);
    }
    forall p ensures InQueue(r, p) <==> InQueue(s, p) {
      assert Waiting(r, p.peer) == Waiting(s, p.peer);
    }
  }

  lemma MarkKeeps(s: State, k: Tid, p: Packet)
    requires Inv(s) && Enabled(s, Mark(k, p))
    ensures Inv(Apply(s, Mark(k, p)))
  {
    var r := Apply(s, Mark(k, p));
    QueuesKept(s, r);
    assert !InQueue(s, p) && HolderOk(s, p);
    forall q ensures HolderOk(r, q) { assert HolderOk(s, q); }
    forall j ensures EnqueuerOk(r, j) && MarkOk(r, j) { assert EnqueuerOk(s, j) && MarkOk(s, j); }
    forall w ensures WorkerOk(r, w) { assert WorkerOk(s, w); }
    forall i, j ensures NoClash(r, i, j) { assert NoClash(s, i, j); }
  }

  lemma ToPeerKeeps(s: State, k: Tid)
    requires Inv(s) && Enabled(s, ToPeer(k, true))
    ensures Inv(Apply(s, ToPeer(k, true)))
  {
    var r := Apply(s, ToPeer(k, true));
    var p := s.enqueuers[k].p;
    assert MarkOk(s, k) && HolderOk(s, p);
    ToPeerQueues(s, r, p);
    forall q ensures HolderOk(r, q) { assert HolderOk(s, q); }
    forall j ensures EnqueuerOk(r, j) && MarkOk(r, j) {
      assert EnqueuerOk(s, j) && MarkOk(s, j) && NoClash(s, j, k);
    }
    forall w ensures WorkerOk(r, w) { assert WorkerOk(s, w); }
    forall i, j ensures NoClash(r, i, j) { assert NoClash(s, i, j); }
  }

  lemma ToPeerQueues(s: State, r: State, p: Packet)
    requires (forall x :: QueueOk(s, x)) && !InQueue(s, p) && p in s.status
    requires r.queues == s.queues[p.peer := Of(s.queues, p.peer) + [p]]
    requires r.log == s.log[p.peer := Of(s.log, p.peer) + [p]]
    requires r.peeked == s.peeked && r.done == s.done && r.status == s.status
    ensures forall x :: QueueOk(r, x)
    ensures forall q :: InQueue(r, q) <==> InQueue(s, q) || q == p
  {
    assert Waiting(r, p.peer) == Waiting(s, p.peer) + [p];
    forall x ensures QueueOk(r, x) {
      assert QueueOk(s, x);
      if x != p.peer {
        assert Waiting(r, x) == Waiting(s, x);
      } else {
        Extended(Of(s.log, x), Names(Of(s.done, x)), Waiting(s, x), p);
      }
    }
    forall q ensures InQueue(r, q) <==> InQueue(s, q) || q == p {
      if q.peer != p.peer { assert Waiting(r, q.peer) == Waiting(s, q.peer); }
    }
  }

  lemma Extended(log: seq<Packet>, done: seq<Packet>, w: seq<Packet>, p: Packet)
    requires log == done + w && NoDup(w) && p !in w
    ensures log + [p] == done + (w + [p]) && NoDup(w + [p])
  {
  }

  lemma RefusedKeeps(s: State, k: Tid)
    requires Inv(s) && Enabled(s, ToPeer(k, false))
    ensures Inv(Apply(s, ToPeer(k, false)))
  {
    var r := Apply(s, ToPeer(k, false));
    QueuesKept(s, r);
    assert MarkOk(s, k);
    forall q ensures HolderOk(r, q) { assert HolderOk(s, q); }
    forall j ensures EnqueuerOk(r, j) && MarkOk(r, j) { assert EnqueuerOk(s, j) && MarkOk(s, j); }
    forall w ensures WorkerOk(r, w) { assert WorkerOk(s, w); }
    forall i, j ensures NoClash(r, i, j) { assert NoClash(s, i, j); }
  }

  lemma FullKeeps(s: State, k: Tid)
    requires Inv(s) && Enabled(s, ToRing(k)) && |s.ring| >= RING_SIZE
    ensures Inv(Apply(s, ToRing(k)))
  {
    var r := Apply(s, ToRing(k));
    QueuesKept(s, r);
    assert EnqueuerOk(s, k);
    forall q ensures HolderOk(r, q) { assert HolderOk(s, q); }
    forall j ensures EnqueuerOk(r, j) && MarkOk(r, j) { assert EnqueuerOk(s, j) && MarkOk(s, j); }
    forall w ensures WorkerOk(r, w) { assert WorkerOk(s, w); }
    forall i, j ensures NoClash(r, i, j) { assert NoClash(s, i, j); }
  }

  lemma ToRingKeeps(s: State, k: Tid)
    requires Inv(s) && Enabled(s, ToRing(k)) && |s.ring| < RING_SIZE
    ensures Inv(Apply(s, ToRing(k)))
  {
    var r := Apply(s, ToRing(k));
    var p := s.enqueuers[k].p;
    QueuesKept(s, r);
    assert EnqueuerOk(s, k);
    forall q ensures HolderOk(r, q) { assert HolderOk(s, q); }
    forall j ensures EnqueuerOk(r, j) && MarkOk(r, j) {
      assert EnqueuerOk(s, j) && MarkOk(s, j) && NoClash(s, j, k);
    }
    forall w ensures WorkerOk(r, w) { assert WorkerOk(s, w); }
    forall i, j ensures NoClash(r, i, j) { assert NoClash(s, i, j); }
    ToRingRing(s, r, k);
  }

  lemma ToRingRing(s: State, r: State, k: Tid)
    requires RingOk(s) && k in s.enqueuers && HeldBy(s, s.enqueuers[k].p, ByEnqueuer(k)) && |s.ring| < RING_SIZE
    requires r.ring == s.ring + [s.enqueuers[k].p] && r.holder == s.holder[s.enqueuers[k].p := InRing]
    ensures RingOk(r)
  {
    var p := s.enqueuers[k].p;
    forall i | 0 <= i < |s.ring| ensures s.ring[i] != p { assert HeldBy(s, s.ring[i], InRing); }
    forall i | 0 <= i < |r.ring| ensures HeldBy(r, r.ring[i], InRing) {
      if i < |s.ring| { assert HeldBy(s, s.ring[i], InRing); }
    }
  }

  /** Writing the final state of a held packet, by its holder. */
  lemma SettleKeeps(s: State, r: State, p: Packet, v: PacketState)
    requires Inv(s) && p in s.holder && v != Uncrypted
    requires r.status == s.status[p := v] && r.holder == s.holder - {p}
    requires r.queues == s.queues && r.peeked == s.peeked && r.log == s.log && r.done == s.done && r.ring == s.ring
    requires match s.holder[p]
             case ByEnqueuer(k) => r.enqueuers == s.enqueuers - {k} && r.workers == s.workers
             case InRing => false
             case ByWorker(w) => r.workers == s.workers - {w} && r.enqueuers == s.enqueuers
    ensures Inv(r)
  {
    QueuesKept(s, r);
    assert HolderOk(s, p);
    forall q ensures HolderOk(r, q) { assert HolderOk(s, q); }
    forall j ensures EnqueuerOk(r, j) && MarkOk(r, j) { assert EnqueuerOk(s, j) && MarkOk(s, j); }
    forall u ensures WorkerOk(r, u) { assert WorkerOk(s, u); }
    forall i, j ensures NoClash(r, i, j) { assert NoClash(s, i, j); }
  }

  lemma TakeKeeps(s: State, w: Tid)
    requires Inv(s) && Enabled(s, Take(w))
    ensures Inv(Apply(s, Take(w)))
  {
    var r := Apply(s, Take(w));
    var p := s.ring[0];
    QueuesKept(s, r);
    assert HeldBy(s, s.ring[0], InRing) && HolderOk(s, p);
    forall q ensures HolderOk(r, q) {
      assert HolderOk(s, q);
      if q != p && q in s.ring { assert s.ring == [p] + s.ring[1..]; }
    }
    forall j ensures EnqueuerOk(r, j) && MarkOk(r, j) { assert EnqueuerOk(s, j) && MarkOk(s, j); }
    forall u ensures WorkerOk(r, u) { assert WorkerOk(s, u); }
    forall i, j ensures NoClash(r, i, j) { assert NoClash(s, i, j); }
    forall i | 0 <= i < |r.ring| ensures HeldBy(r, r.ring[i], InRing) {
      assert HeldBy(s, s.ring[i + 1], InRing) && s.ring[0] != s.ring[i + 1];
    }
  }

  lemma PeekKeeps(s: State, x: Peer)
    requires Inv(s) && Enabled(s, Peek(x))
    ensures Inv(Apply(s, Peek(x)))
  {
    var r := Apply(s, Peek(x));
    assert Waiting(r, x) == Waiting(s, x);
    forall y ensures Waiting(r, y) == Waiting(s, y) {
      if y != x { assert Of(r.queues, y) == Of(s.queues, y) && Peeked(r, y) == Peeked(s, y); }
    }
    SameWaiting(s, r);
  }

  lemma SameWaiting(s: State, r: State)
    requires Inv(s) && r == s.(peeked := r.peeked, queues := r.queues)
    requires forall y :: Waiting(r, y) == Waiting(s, y)
    ensures Inv(r)
  {
    forall y ensures QueueOk(r, y) { assert QueueOk(s, y) && Waiting(r, y) == Waiting(s, y); }
    forall q ensures HolderOk(r, q) { assert HolderOk(s, q) && Waiting(r, q.peer) == Waiting(s, q.peer); }
    forall j ensures EnqueuerOk(r, j) { assert EnqueuerOk(s, j); }
    forall j ensures MarkOk(r, j) {
      assert MarkOk(s, j);
      if j in s.enqueuers { assert Waiting(r, s.enqueuers[j].p.peer) == Waiting(s, s.enqueuers[j].p.peer); }
    }
    forall u ensures WorkerOk(r, u) { assert WorkerOk(s, u); }
    forall i, j ensures NoClash(r, i, j) { assert NoClash(s, i, j); }
  }

  lemma ConsumeKeeps(s: State, x: Peer)
    requires Inv(s) && Enabled(s, Consume(x))
    ensures Inv(Apply(s, Consume(x)))
  {
    var r := Apply(s, Consume(x));
    var p := s.peeked[x];
    ConsumeQueues(s, r, x);
    forall q ensures HolderOk(r, q) { assert HolderOk(s, q); }
    forall j ensures EnqueuerOk(r, j) && MarkOk(r, j) { assert EnqueuerOk(s, j) && MarkOk(s, j); }
    forall u ensures WorkerOk(r, u) { assert WorkerOk(s, u); }
    forall i, j ensures NoClash(r, i, j) { assert NoClash(s, i, j); }
  }

  lemma NoDupTail(p: Packet, rest: seq<Packet>)
    requires NoDup([p] + rest)
    ensures NoDup(rest) && p !in rest
  {
    var a := [p] + rest;
    forall i | 0 <= i < |rest| ensures rest[i] != p {
      assert a[i + 1] == rest[i] && a[0] == p;
    }
    forall i, j | 0 <= i < j < |rest| ensures rest[i] != rest[j] {
      assert a[i + 1] == rest[i] && a[j + 1] == rest[j];
    }
  }

  lemma NamesSnoc(d: seq<Verdict>, v: Verdict, w: seq<Packet>)
    ensures Names(d) + ([v.p] + w) == Names(d + [v]) + w
  {
    assert (d + [v])[..|d|] == d;
  }

  lemma ConsumeWaiting(s: State, r: State, x: Peer)
    requires Enabled(s, Consume(x)) && r == Apply(s, Consume(x))
    ensures Waiting(s, x) == [s.peeked[x]] + Waiting(r, x)
    ensures Of(r.log, x) == Of(s.log, x) && r.status == s.status
    ensures Of(r.done, x) == Of(s.done, x) + [Verdict(s.peeked[x], s.status[s.peeked[x]] == Crypted)]
  {
    assert Waiting(r, x) == Of(s.queues, x);
  }

  lemma ConsumeOwn(s: State, r: State, x: Peer)
    requires QueueOk(s, x) && Enabled(s, Consume(x)) && r == Apply(s, Consume(x))
    ensures QueueOk(r, x) && Waiting(s, x) == [s.peeked[x]] + Waiting(r, x) && s.peeked[x] !in Waiting(r, x)
  {
    var p, w := s.peeked[x], Waiting(r, x);
    ConsumeWaiting(s, r, x);
    NoDupTail(p, w);
    NamesSnoc(Of(s.done, x), Verdict(p, s.status[p] == Crypted), w);
    forall q | q in w ensures q.peer == x && q in r.status { assert q in Waiting(s, x); }
  }

  lemma ConsumeQueues(s: State, r: State, x: Peer)
    requires (forall y :: QueueOk(s, y)) && Enabled(s, Consume(x)) && r == Apply(s, Consume(x))
    ensures forall y :: QueueOk(r, y)
    ensures forall q :: InQueue(r, q) <==> InQueue(s, q) && q != s.peeked[x]
  {
    var p := s.peeked[x];
    assert QueueOk(s, x);
    ConsumeOwn(s, r, x);
    assert p in Waiting(s, x) && p.peer == x;
    forall y ensures QueueOk(r, y) {
      assert QueueOk(s, y);
      if y != x { ConsumeOther(s, r, x, y); }
    }
    forall q ensures InQueue(r, q) <==> InQueue(s, q) && q != p {
      if q.peer != x { ConsumeOther(s, r, x, q.peer); }
    }
  }

  lemma ConsumeOther(s: State, r: State, x: Peer, y: Peer)
    requires Enabled(s, Consume(x)) && r == Apply(s, Consume(x)) && y != x
    ensures Waiting(r, y) == Waiting(s, y) && (QueueOk(s, y) ==> QueueOk(r, y))
  {
    assert Peeked(r, y) == Peeked(s, y) && Of(r.queues, y) == Of(s.queues, y);
  }

  lemma StepKeeps(s: State, st: Step)
    requires Inv(s) && Enabled(s, st)
    ensures Inv(Apply(s, st))
  {
    match st
    case Mark(k, p) => MarkKeeps(s, k, p);
    case ToPeer(k, ok) => if ok { ToPeerKeeps(s, k); } else { RefusedKeeps(s, k); }
    case ToRing(k) => if |s.ring| < RING_SIZE { ToRingKeeps(s, k); } else { FullKeeps(s, k); }
    case GiveUp(k) =>
      assert EnqueuerOk(s, k);
      SettleKeeps(s, Apply(s, st), s.enqueuers[k].p, Dead);
    case Take(w) => TakeKeeps(s, w);
    case Finish(w, ok) =>
      assert WorkerOk(s, w);
      SettleKeeps(s, Apply(s, st), s.workers[w], if ok then Crypted else Dead);
    case Peek(x) => PeekKeeps(s, x);
    case Consume(x) => ConsumeKeeps(s, x);
  }

  // ---------------------------------------------------------------- theorems

  predicate EnabledRun(s: State, steps: seq<Step>)
    decreases |steps|
  {
    steps == [] || (Enabled(s, steps[0]) && EnabledRun(Apply(s, steps[0]), steps[1..]))
  }

  function Run(s: State, steps: seq<Step>): (r: State)
    requires EnabledRun(s, steps)
    decreases |steps|
  {
    if steps == [] then s else Run(Apply(s, steps[0]), steps[1..])
  }

  lemma {:induction false} RunKeeps(s: State, steps: seq<Step>)
    requires Inv(s) && EnabledRun(s, steps)
    ensures Inv(Run(s, steps))
    decreases |steps|
  {
    if steps != [] {
      StepKeeps(s, steps[0]);
      RunKeeps(Apply(s, steps[0]), steps[1..]);
    }
  }

  /** The packets of a record that were delivered. */
  function Delivered(vs: seq<Verdict>): (ps: seq<Packet>) {
    if vs == [] then [] else Delivered(vs[..|vs| - 1]) + (if vs[|vs| - 1].ok then [vs[|vs| - 1].p] else [])
  }

  predicate Subsequence(a: seq<Packet>, b: seq<Packet>) {
    a == [] || (b != [] &&
      ((a[|a| - 1] == b[|b| - 1] && Subsequence(a[..|a| - 1], b[..|b| - 1])) || Subsequence(a, b[..|b| - 1])))
  }

  lemma {:induction false} DeliveredInOrder(vs: seq<Verdict>)
    ensures Subsequence(Delivered(vs), Names(vs))
  {
    if vs != [] {
      var v := vs[..|vs| - 1];
      DeliveredInOrder(v);
      assert Names(vs)[..|vs| - 1] == Names(v);
      if vs[|vs| - 1].ok {
        assert Delivered(vs)[..|Delivered(vs)| - 1] == Delivered(v);
      } else {
        assert Delivered(vs) == Delivered(v);
      }
    }
  }

  lemma {:induction false} DeliveredOk(vs: seq<Verdict>)
    ensures forall p :: p in Delivered(vs) <==> Verdict(p, true) in vs
  {
    if vs != [] {
      var v := vs[..|vs| - 1];
      DeliveredOk(v);
      assert vs == v + [vs[|vs| - 1]];
    }
  }

  /** Whatever order the workers finish in: a peer's packets are consumed exactly in the order
      in which they were queued, none lost or doubled, and the delivered ones are those minus
      the dead. */
  lemma OrderedDelivery(steps: seq<Step>, x: Peer)
    requires EnabledRun(Init(), steps)
    ensures var s := Run(Init(), steps);
            && Of(s.log, x) == Names(Of(s.done, x)) + Waiting(s, x)
            && NoDup(Waiting(s, x))
            && Subsequence(Delivered(Of(s.done, x)), Names(Of(s.done, x)))
            && forall p :: p in Delivered(Of(s.done, x)) <==> Verdict(p, true) in Of(s.done, x)
  {
    DeliveredOk(Of(Run(Init(), steps).done, x));
    InitInv();
    RunKeeps(Init(), steps);
    var s := Run(Init(), steps);
    assert QueueOk(s, x);
    DeliveredInOrder(Of(s.done, x));
  }

  lemma InitInv()
    ensures Inv(Init())
  {
    forall x ensures QueueOk(Init(), x) {
      assert Waiting(Init(), x) == [];
      assert Names([]) == [];
    }
    forall p ensures HolderOk(Init(), p) { assert Waiting(Init(), p.peer) == []; }
  }

  /** Ownership: while a waiting packet is UNCRYPTED it is in the ring, with one worker or with
      one enqueuer, and nowhere else; once its state is written nobody touches it any more,
      so the consumer may free it. */
  lemma ExactlyOneHolder(steps: seq<Step>, p: Packet)
    requires EnabledRun(Init(), steps) && InQueue(Run(Init(), steps), p)
    ensures var s := Run(Init(), steps);
            && p in s.status
            && (s.status[p] == Uncrypted ==> p in s.holder && HeldAt(s, p, s.holder[p]))
            && (forall h :: HeldAt(s, p, h) ==> s.status[p] == Uncrypted && HeldBy(s, p, h))
  {
    InitInv();
    RunKeeps(Init(), steps);
    var s := Run(Init(), steps);
    assert QueueOk(s, p.peer) && HolderOk(s, p);
    forall h | HeldAt(s, p, h) ensures s.status[p] == Uncrypted && HeldBy(s, p, h) {
      match h
      case ByEnqueuer(k) => assert EnqueuerOk(s, k);
      case InRing => var i :| 0 <= i < |s.ring| && s.ring[i] == p; assert HeldBy(s, s.ring[i], InRing);
      case ByWorker(w) => assert WorkerOk(s, w);
    }
  }

  // ---------------------------------------------------------------- bounds

  predicate Bounded(s: State) {
    |s.ring| <= 1024 && forall x :: x in s.queues ==> |s.queues[x]| <= 1024
  }

  lemma {:induction false} RunBounded(s: State, steps: seq<Step>)
    requires Bounded(s) && EnabledRun(s, steps)
    ensures Bounded(Run(s, steps))
    decreases |steps|
  {
    if steps != [] {
      StepBounded(s, steps[0]);
      RunBounded(Apply(s, steps[0]), steps[1..]);
    }
  }

  lemma StepBounded(s: State, st: Step)
    requires Bounded(s) && Enabled(s, st)
    ensures Bounded(Apply(s, st))
  {
    RingBounded(s, st);
    var r := Apply(s, st);
    forall x | x in r.queues ensures |r.queues[x]| <= 1024 {
      if x in s.queues { assert |s.queues[x]| <= 1024; }
    }
  }

  lemma RingBounded(s: State, st: Step)
    requires |s.ring| <= 1024 && Enabled(s, st)
    ensures |Apply(s, st).ring| <= 1024
  {
    if st.ToRing? { RingGrows(s, st.k); } else if !st.Take? { assert Apply(s, st).ring == s.ring; }
  }

  lemma RingGrows(s: State, k: Tid)
    requires |s.ring| <= 1024 && Enabled(s, ToRing(k))
    ensures |Apply(s, ToRing(k)).ring| <= 1024
  {
  }

  /** Neither the ring nor any peer's queue ever holds more than 1024 packets, and the ring turns a
      packet away only when it holds that many. */
  lemma QueuesBounded(steps: seq<Step>, k: Tid)
    requires EnabledRun(Init(), steps)
    ensures Bounded(Run(Init(), steps))
    ensures var s := Run(Init(), steps);
            Enabled(s, ToRing(k)) ==>
              var p, r := s.enqueuers[k].p, Apply(s, ToRing(k));
              if |s.ring| == 1024 then r.ring == s.ring && r.enqueuers == s.enqueuers[k := RingFull(p)]
              else r.ring == s.ring + [p] && r.enqueuers == s.enqueuers - {k}
  {
    RunBounded(Init(), steps);
  }

  // ---------------------------------------------------------------- what a verdict says

  /** A worker's result, or the failure to hand the packet on, is what the packet's state becomes, and
      only an owner's fresh mark or these steps change a state. */
  lemma StatusAfter(s: State, st: Step, p: Packet)
    requires Enabled(s, st)
    ensures var r := Apply(s, st);
            match st
            case Finish(w, ok) => r.status == s.status[s.workers[w] := if ok then Crypted else Dead]
            case GiveUp(k) => r.status == s.status[s.enqueuers[k].p := Dead]
            case Mark(_, q) => r.status == s.status[q := Uncrypted]
            case _ => r.status == s.status
  {
  }

  lemma {:induction false} RunSnoc(s: State, steps: seq<Step>)
    requires EnabledRun(s, steps) && steps != []
    ensures var n := |steps| - 1;
            && EnabledRun(s, steps[..n]) && Enabled(Run(s, steps[..n]), steps[n])
            && Run(s, steps) == Apply(Run(s, steps[..n]), steps[n])
    decreases |steps|
  {
    var n := |steps| - 1;
    if n > 0 {
      var rest := steps[1..];
      RunSnoc(Apply(s, steps[0]), rest);
      assert rest[..n - 1] == steps[..n][1..] && rest[n - 1] == steps[n] && steps[..n][0] == steps[0];
    } else {
      assert steps[1..] == [] && steps[..0] == [];
    }
  }

  /** Step `i` of the run settles `p`: the worker that holds it finishes, well or not, or the
      enqueuer that holds it found the ring full. */
  predicate SettledBy(steps: seq<Step>, p: Packet, i: nat, ok: bool) {
    && i < |steps| && EnabledRun(Init(), steps[..i])
    && var s, st := Run(Init(), steps[..i]), steps[i];
    || (st.Finish? && st.w in s.workers && s.workers[st.w] == p && st.ok == ok)
    || (st.GiveUp? && st.k in s.enqueuers && s.enqueuers[st.k].p == p && !ok)
  }

  predicate MarkedBy(steps: seq<Step>, p: Packet, i: nat) {
    i < |steps| && steps[i].Mark? && steps[i].p == p
  }

  /** The last step that settled `p`; its owner has not marked it anew. */
  ghost predicate LastSettled(steps: seq<Step>, p: Packet, i: nat, ok: bool) {
    SettledBy(steps, p, i, ok) &&
    forall j :: i < j < |steps| ==> !MarkedBy(steps, p, j) && !SettledBy(steps, p, j, true) && !SettledBy(steps, p, j, false)
  }

  lemma StillLast(steps: seq<Step>, p: Packet, i: nat, ok: bool)
    requires steps != []
    requires LastSettled(steps[..|steps| - 1], p, i, ok)
    requires var n := |steps| - 1; !MarkedBy(steps, p, n) && !SettledBy(steps, p, n, true) && !SettledBy(steps, p, n, false)
    ensures LastSettled(steps, p, i, ok)
  {
    var n := |steps| - 1;
    var init := steps[..n];
    assert init[..i] == steps[..i];
    forall j | i < j < |steps| ensures !MarkedBy(steps, p, j) && !SettledBy(steps, p, j, true) && !SettledBy(steps, p, j, false) {
      if j < n {
        assert init[..j] == steps[..j] && init[j] == steps[j];
        assert !MarkedBy(init, p, j) && !SettledBy(init, p, j, true) && !SettledBy(init, p, j, false);
      }
    }
  }

  /** In every run, a packet's final state is the result of the step that settled it last. */
  lemma {:induction false} StatusIsResult(steps: seq<Step>, p: Packet) returns (i: nat, ok: bool)
    requires EnabledRun(Init(), steps)
    requires var s := Run(Init(), steps); p in s.status && s.status[p] != Uncrypted
    ensures LastSettled(steps, p, i, ok) && Run(Init(), steps).status[p] == if ok then Crypted else Dead
    decreases |steps|
  {
    var n := |steps| - 1;
    RunSnoc(Init(), steps);
    var s, st := Run(Init(), steps[..n]), steps[n];
    StatusAfter(s, st, p);
    if SettledBy(steps, p, n, true) {
      i, ok := n, true;
    } else if SettledBy(steps, p, n, false) {
      i, ok := n, false;
    } else {
      i, ok := StatusIsResult(steps[..n], p);
      StillLast(steps, p, i, ok);
    }
  }

  /** A packet is delivered exactly if the worker that settled it last succeeded. */
  lemma VerdictIsResult(steps: seq<Step>, x: Peer) returns (i: nat, ok: bool)
    requires EnabledRun(Init(), steps) && Enabled(Run(Init(), steps), Consume(x))
    ensures var s := Run(Init(), steps);
            && LastSettled(steps, s.peeked[x], i, ok)
            && Of(Apply(s, Consume(x)).done, x) == Of(s.done, x) + [Verdict(s.peeked[x], ok)]
  {
    i, ok := StatusIsResult(steps, Run(Init(), steps).peeked[x]);
  }

  // ---------------------------------------------------------------- progress

  /** How far a held packet is from having its state written: stage, then distance. */
  function Stage(s: State, p: Packet): (n: nat)
    requires p in s.holder
  {
    match s.holder[p]
    case ByEnqueuer(k) => if k in s.enqueuers && s.enqueuers[k].Queued? then 3 else 2
    case InRing => 1
    case ByWorker(_) => 0
  }

  function IndexOf(q: seq<Packet>, p: Packet): (i: nat)
    ensures i <= |q| && (i < |q| ==> q[i] == p) && (p in q ==> i < |q|)
  {
    if q == [] || q[0] == p then 0 else 1 + IndexOf(q[1..], p)
  }

  function Distance(s: State, p: Packet): (n: nat)
    requires p in s.holder
  {
    if s.holder[p].InRing? then 2 * IndexOf(s.ring, p) + |s.workers| else 0
  }

  predicate Closer(s: State, r: State, p: Packet)
    requires p in s.holder && p in r.holder
  {
    Stage(r, p) < Stage(s, p) || (Stage(r, p) == Stage(s, p) && Distance(r, p) < Distance(s, p))
  }

  /** A worker finishing another packet shortens the wait of a packet in the ring. */
  lemma FinishHelps(s: State, p: Packet, w: Tid)
    requires Inv(s) && p in s.holder && s.holder[p].InRing? && w in s.workers
    ensures var r := Apply(s, Finish(w, true)); p in r.holder && Closer(s, r, p)
  {
    assert WorkerOk(s, w);
    var rest := s.workers - {w};
    assert rest.Keys == s.workers.Keys - {w};
    assert |s.workers.Keys| == |s.workers| && |rest.Keys| == |rest|;
  }

  /** With all workers idle, taking the oldest packet shortens the wait too. */
  lemma TakeHelps(s: State, p: Packet)
    requires Inv(s) && p in s.holder && s.holder[p].InRing? && s.workers == map[]
    ensures Enabled(s, Take(0))
    ensures var r := Apply(s, Take(0)); p in r.holder && Closer(s, r, p)
  {
    assert HolderOk(s, p);
    var r := Apply(s, Take(0));
    assert r.workers == map[0 := s.ring[0]];
    assert r.workers.Keys == {0} && |r.workers| == |r.workers.Keys|;
  }

  /** The enqueuer that holds a packet can place it in the ring or mark it dead. */
  lemma EnqueuerHelps(s: State, p: Packet, k: Tid) returns (st: Step)
    requires p in s.holder && s.holder[p] == ByEnqueuer(k) && HolderOk(s, p)
    ensures Enabled(s, st) && (st == ToRing(k) || st == GiveUp(k))
    ensures var r := Apply(s, st); p !in r.holder || Closer(s, r, p)
  {
    st := if s.enqueuers[k].Queued? then ToRing(k) else GiveUp(k);
  }

  /** A step of someone other than the peer's consumer that is enabled now and either settles
      the packet or brings it strictly closer; a full ring is no obstacle. */
  lemma {:induction false} NextStep(s: State, p: Packet) returns (st: Step)
    requires Inv(s) && p in s.holder
    ensures Enabled(s, st) && !st.Mark? && !st.ToPeer? && !st.Peek? && !st.Consume?
    ensures var r := Apply(s, st); p !in r.holder || Closer(s, r, p)
  {
    assert HolderOk(s, p);
    match s.holder[p]
    case ByEnqueuer(k) => st := EnqueuerHelps(s, p, k);
    case ByWorker(w) => st := Finish(w, true);
    case InRing =>
      if s.workers.Keys != {} {
        var w :| w in s.workers;
        FinishHelps(s, p, w);
        st := Finish(w, true);
      } else {
        assert s.workers == map[];
        TakeHelps(s, p);
        st := Take(0);
      }
  }

  /** From every reachable state the enqueuers and workers alone can settle any waiting
      packet, so the head of a queue is never stuck. */
  lemma {:induction false} CanSettle(s: State, p: Packet) returns (steps: seq<Step>)
    requires Inv(s) && p in s.holder
    ensures EnabledRun(s, steps) && p !in Run(s, steps).holder
    ensures forall i :: 0 <= i < |steps| ==> !steps[i].Peek? && !steps[i].Consume? && !steps[i].Mark? && !steps[i].ToPeer?
    decreases Stage(s, p), Distance(s, p)
  {
    var st := NextStep(s, p);
    var r := Apply(s, st);
    StepKeeps(s, st);
    if p in r.holder {
      var rest := CanSettle(r, p);
      steps := [st] + rest;
      assert steps[1..] == rest;
    } else {
      steps := [st];
      assert steps[1..] == [];
    }
  }
}
