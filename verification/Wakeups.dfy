/** Who wakes the consumer of a peer queue: the pipeline with the scheduling calls as steps of their
    own.  A thread that settles a packet schedules the peer's consumer afterwards; a consumer run ends
    when its look at the queue finds nothing or an UNCRYPTED packet.  An enqueue is two steps, and a
    look in between may find nothing although packets wait (see PrevQueue). */
module Wakeups {
  import opened Common
  import opened CryptPipeline

  datatype World = World(
    c: State,
    scheduled: set<Peer>, running: set<Peer>,       // a consumer run is due; a consumer is in its loop
    linking: set<Tid>,                              // enqueuers between the exchange and the link
    owedE: map<Tid, Peer>, owedW: map<Tid, Peer>)   // state written, scheduling call still to come

  function Start(): (s: World) {
    World(Init(), {}, {}, {}, map[], map[])
  }

  datatype Move =
    | Pipe(st: Step)
    | LinkUp(k: Tid)
    | ScheduleE(k: Tid)
    | ScheduleW(w: Tid)
    | BeginRun(x: Peer)
    | FindNothing(x: Peer)
    | FindUnsettled(x: Peer)
    | Yield(x: Peer)        // the budget of one poll is used up: the run is scheduled again

  /** An enqueuer of this peer is between its two stores. */
  predicate LinkingTo(s: World, x: Peer) {
    exists k :: k in s.linking && k in s.c.enqueuers && s.c.enqueuers[k].p.peer == x
  }

  predicate Allowed(s: World, m: Move) {
    match m
    case Pipe(st) =>
      && Enabled(s.c, st)
      && (st.Mark? ==> st.k !in s.owedE)
      && (st.ToRing? ==> st.k !in s.linking)
      && (st.Take? ==> st.w !in s.owedW)
      && (st.Peek? || st.Consume? ==> st.x in s.running)
    case LinkUp(k) => k in s.linking
    case ScheduleE(k) => k in s.owedE
    case ScheduleW(w) => w in s.owedW
    case BeginRun(x) => x in s.scheduled && x !in s.running
    case FindNothing(x) => x in s.running && x !in s.c.peeked && (Of(s.c.queues, x) == [] || LinkingTo(s, x))
    case FindUnsettled(x) => x in s.running && x in s.c.peeked && Pending(s.c, s.c.peeked[x])
    case Yield(x) => x in s.running
  }

  function Do(s: World, m: Move): (r: World)
    requires Allowed(s, m)
  {
    match m
    case Pipe(st) =>
      var s' := s.(c := Apply(s.c, st));
      if st.ToPeer? && st.ok then s'.(linking := s.linking + {st.k})
      else if st.GiveUp? then s'.(owedE := s.owedE[st.k := s.c.enqueuers[st.k].p.peer])
      else if st.Finish? then s'.(owedW := s.owedW[st.w := s.c.workers[st.w].peer])
      else s'
    case LinkUp(k) => s.(linking := s.linking - {k})
    case ScheduleE(k) => s.(owedE := s.owedE - {k}, scheduled := s.scheduled + {s.owedE[k]})
    case ScheduleW(w) => s.(owedW := s.owedW - {w}, scheduled := s.scheduled + {s.owedW[w]})
    case BeginRun(x) => s.(scheduled := s.scheduled - {x}, running := s.running + {x})
    case FindNothing(x) => s.(running := s.running - {x})
    case FindUnsettled(x) => s.(running := s.running - {x})
    case Yield(x) => s.(running := s.running - {x}, scheduled := s.scheduled + {x})
  }

  // ---------------------------------------------------------------- invariant

  predicate Owed(s: World, x: Peer) {
    (exists k :: k in s.owedE && s.owedE[k] == x) || (exists w :: w in s.owedW && s.owedW[w] == x)
  }

  /** A consumer run is on, is due, or is about to be scheduled. */
  predicate Awake(s: World, x: Peer) {
    x in s.scheduled || x in s.running || Owed(s, x)
  }

  /** Somebody still has to settle a packet of this peer, and will schedule then. */
  predicate Held(s: World, x: Peer) {
    exists p :: p in s.c.holder && p.peer == x
  }

  predicate WakeOk(s: World, x: Peer) {
    Waiting(s.c, x) != [] ==> Awake(s, x) || Held(s, x)
  }

  predicate ThreadsOk(s: World) {
    && (forall k :: k in s.linking ==> k in s.c.enqueuers && s.c.enqueuers[k].Queued?)
    && s.owedE.Keys !! s.c.enqueuers.Keys && s.owedW.Keys !! s.c.workers.Keys
  }

  ghost predicate WInv(s: World) {
    Inv(s.c) && ThreadsOk(s) && (forall x: Peer :: WakeOk(s, x))
  }

  lemma OwedGrows(s: World, r: World, x: Peer)
    requires forall k :: k in s.owedE ==> k in r.owedE && r.owedE[k] == s.owedE[k]
    requires forall w :: w in s.owedW ==> w in r.owedW && r.owedW[w] == s.owedW[w]
    ensures Owed(s, x) ==> Owed(r, x)
  {
  }

  /** Only an enqueue puts something into an empty queue ... */
  lemma PipeQueue(c: State, st: Step, x: Peer)
    requires Enabled(c, st)
    ensures Waiting(Apply(c, st), x) != [] ==> Waiting(c, x) != [] || (st.ToPeer? && st.ok && c.enqueuers[st.k].p.peer == x)
  {
  }

  /** ... and only settling a packet ends its being held. */
  lemma PipeHolders(c: State, st: Step)
    requires Enabled(c, st)
    ensures var r := Apply(c, st);
            && (st.ToPeer? && st.ok ==> c.enqueuers[st.k].p in r.holder)
            && (forall p :: p in c.holder && !(st.GiveUp? && p == c.enqueuers[st.k].p) && !(st.Finish? && p == c.workers[st.w]) ==> p in r.holder)
  {
  }

  lemma PipeWakes(s: World, st: Step, x: Peer)
    requires WInv(s) && Allowed(s, Pipe(st))
    ensures WakeOk(Do(s, Pipe(st)), x)
  {
    var r := Do(s, Pipe(st));
    assert WakeOk(s, x);
    PipeQueue(s.c, st, x);
    PipeHolders(s.c, st);
    OwedGrows(s, r, x);
    if st.ToPeer? && st.ok {
      assert s.c.enqueuers[st.k].p in r.c.holder;
    } else if st.GiveUp? && s.c.enqueuers[st.k].p.peer == x {
      assert st.k in r.owedE && r.owedE[st.k] == x;
    } else if st.Finish? && s.c.workers[st.w].peer == x {
      assert st.w in r.owedW && r.owedW[st.w] == x;
    }
    if Held(s, x) && !Awake(r, x) {
      var p :| p in s.c.holder && p.peer == x;
      assert p in r.c.holder;
    }
  }

  lemma PipeThreads(s: World, st: Step)
    requires ThreadsOk(s) && Allowed(s, Pipe(st))
    ensures ThreadsOk(Do(s, Pipe(st)))
  {
  }

  lemma PipeKeeps(s: World, st: Step)
    requires WInv(s) && Allowed(s, Pipe(st))
    ensures WInv(Do(s, Pipe(st)))
  {
    PipeThreads(s, st);
    StepKeeps(s.c, st);
    forall x: Peer ensures WakeOk(Do(s, Pipe(st)), x) { PipeWakes(s, st, x); }
  }

  /** A scheduling call turns the debt into a scheduled run. */
  lemma ScheduleWakes(s: World, m: Move, x: Peer)
    requires WInv(s) && Allowed(s, m) && (m.ScheduleE? || m.ScheduleW?)
    ensures Awake(s, x) ==> Awake(Do(s, m), x)
  {
    var r := Do(s, m);
    if Owed(s, x) && x !in r.scheduled {
      if k :| k in s.owedE && s.owedE[k] == x {
        assert k in r.owedE && r.owedE[k] == x;
      } else {
        var w :| w in s.owedW && s.owedW[w] == x;
        assert w in r.owedW && r.owedW[w] == x;
      }
    }
  }

  /** A run ends only when nothing waits, or when somebody else is going to wake the consumer. */
  lemma EndOfRunWakes(s: World, m: Move, x: Peer)
    requires WInv(s) && Allowed(s, m) && (m == FindNothing(x) || m == FindUnsettled(x))
    ensures WakeOk(Do(s, m), x)
  {
    var r := Do(s, m);
    if m.FindUnsettled? {
      var p := s.c.peeked[x];
      assert Waiting(s.c, x)[0] == p;
      assert QueueOk(s.c, x) && HolderOk(s.c, p);
      assert p in r.c.holder && p.peer == x;
    } else if LinkingTo(s, x) {
      var k :| k in s.linking && k in s.c.enqueuers && s.c.enqueuers[k].p.peer == x;
      assert EnqueuerOk(s.c, k);
      assert s.c.enqueuers[k].p in r.c.holder;
    } else {
      assert Waiting(r.c, x) == [];
    }
  }

  lemma MoveKeeps(s: World, m: Move)
    requires WInv(s) && Allowed(s, m)
    ensures WInv(Do(s, m))
  {
    if m.Pipe? {
      PipeKeeps(s, m.st);
    } else {
      var r := Do(s, m);
      forall x: Peer ensures WakeOk(r, x) {
        assert WakeOk(s, x);
        if m == FindNothing(x) || m == FindUnsettled(x) { EndOfRunWakes(s, m, x); }
        else if m.ScheduleE? || m.ScheduleW? { ScheduleWakes(s, m, x); }
        else { OwedGrows(s, r, x); }
      }
    }
  }

  // ---------------------------------------------------------------- runs

  predicate AllowedRun(s: World, ms: seq<Move>)
    decreases |ms|
  {
    ms == [] || (Allowed(s, ms[0]) && AllowedRun(Do(s, ms[0]), ms[1..]))
  }

  function After(s: World, ms: seq<Move>): (r: World)
    requires AllowedRun(s, ms)
    decreases |ms|
  {
    if ms == [] then s else After(Do(s, ms[0]), ms[1..])
  }

  lemma {:induction false} MovesKeep(s: World, ms: seq<Move>)
    requires WInv(s) && AllowedRun(s, ms)
    ensures WInv(After(s, ms))
    decreases |ms|
  {
    if ms != [] {
      MoveKeeps(s, ms[0]);
      MovesKeep(Do(s, ms[0]), ms[1..]);
    }
  }

  lemma StartInv()
    ensures WInv(Start())
  {
    InitInv();
    forall x: Peer ensures WakeOk(Start(), x) { assert Waiting(Start().c, x) == []; }
  }

  predicate Settled(c: State, p: Packet) {
    p in c.status && c.status[p] != Uncrypted
  }

  /** A held packet is one that waits and is not settled. */
  lemma HeldWaits(s: World, x: Peer)
    requires WInv(s) && Held(s, x)
    ensures exists i :: 0 <= i < |Waiting(s.c, x)| && !Settled(s.c, Waiting(s.c, x)[i])
  {
    var p :| p in s.c.holder && p.peer == x;
    assert HolderOk(s.c, p);
    var i :| 0 <= i < |Waiting(s.c, x)| && Waiting(s.c, x)[i] == p;
    assert !Settled(s.c, Waiting(s.c, x)[i]);
  }

  /** No wake-up is lost: in every reachable state, if packets of a peer wait and all of them are
      settled, the peer's consumer runs, is scheduled, or is about to be scheduled. */
  lemma NoLostWakeup(ms: seq<Move>, x: Peer)
    requires AllowedRun(Start(), ms)
    requires var s := After(Start(), ms);
             Waiting(s.c, x) != [] && forall i :: 0 <= i < |Waiting(s.c, x)| ==> Settled(s.c, Waiting(s.c, x)[i])
    ensures Awake(After(Start(), ms), x)
  {
    StartInv();
    MovesKeep(Start(), ms);
    var s := After(Start(), ms);
    assert WakeOk(s, x);
    if !Awake(s, x) { HeldWaits(s, x); }
  }

  /** The head of the queue is settled and nobody is about to look. */
  predicate Stalled(s: World, x: Peer) {
    SettledHead(s.c, x) && !Awake(s, x)
  }

  predicate SettledHead(c: State, x: Peer) {
    Waiting(c, x) != [] && Settled(c, Waiting(c, x)[0])
  }

  /** The thread that this step makes settle a packet of the peer. */
  predicate Settles(c: State, st: Step, x: Peer)
    requires Enabled(c, st)
  {
    (st.GiveUp? && c.enqueuers[st.k].p.peer == x) || (st.Finish? && c.workers[st.w].peer == x)
  }

  /** Steps elsewhere: the queue is the same, and the head has the same state. */
  lemma HeadElsewhere(c: State, r: State, x: Peer)
    requires r.queues == c.queues && r.peeked == c.peeked
    requires Waiting(c, x) != [] ==>
               var p := Waiting(c, x)[0];
               p in c.status && p in r.status && (r.status[p] == c.status[p] || r.status[p] == Uncrypted)
    ensures SettledHead(r, x) ==> SettledHead(c, x)
  {
    assert Waiting(r, x) == Waiting(c, x);
  }

  lemma HeadOnMark(c: State, k: Tid, p: Packet, x: Peer)
    requires QueueOk(c, x) && Enabled(c, Mark(k, p)) && SettledHead(Apply(c, Mark(k, p)), x)
    ensures SettledHead(c, x)
  {
    HeadElsewhere(c, Apply(c, Mark(k, p)), x);
  }

  lemma HeadOnToPeer(c: State, k: Tid, ok: bool, x: Peer)
    requires QueueOk(c, x) && Enabled(c, ToPeer(k, ok)) && MarkOk(c, k) && SettledHead(Apply(c, ToPeer(k, ok)), x)
    ensures SettledHead(c, x)
  {
    var r, p := Apply(c, ToPeer(k, ok)), c.enqueuers[k].p;
    assert Waiting(r, x) == if ok && p.peer == x then Waiting(c, x) + [p] else Waiting(c, x);
  }

  lemma HeadOnToRing(c: State, k: Tid, x: Peer)
    requires Enabled(c, ToRing(k)) && SettledHead(Apply(c, ToRing(k)), x)
    ensures SettledHead(c, x)
  {
    var r := Apply(c, ToRing(k));
    assert r.queues == c.queues && r.peeked == c.peeked && r.status == c.status;
    SameHead(c, r, x);
  }

  lemma SameHead(c: State, r: State, x: Peer)
    requires r.queues == c.queues && r.peeked == c.peeked && r.status == c.status
    ensures SettledHead(r, x) == SettledHead(c, x)
  {
    assert Waiting(r, x) == Waiting(c, x);
  }

  lemma HeadOnTake(c: State, w: Tid, x: Peer)
    requires Enabled(c, Take(w)) && SettledHead(Apply(c, Take(w)), x)
    ensures SettledHead(c, x)
  {
    assert Waiting(Apply(c, Take(w)), x) == Waiting(c, x);
  }

  lemma HeadOnSettle(c: State, st: Step, x: Peer)
    requires QueueOk(c, x) && Enabled(c, st) && (st.GiveUp? || st.Finish?) && SettledHead(Apply(c, st), x)
    ensures SettledHead(c, x) || Settles(c, st, x)
  {
    assert Waiting(Apply(c, st), x) == Waiting(c, x);
  }

  lemma HeadOnPeek(c: State, y: Peer, x: Peer)
    requires Enabled(c, Peek(y)) && SettledHead(Apply(c, Peek(y)), x)
    ensures SettledHead(c, x)
  {
    var r := Apply(c, Peek(y));
    if y == x {
      assert Waiting(r, x) == [Of(c.queues, x)[0]] + Of(c.queues, x)[1..] == Waiting(c, x);
    } else {
      assert Waiting(r, x) == Waiting(c, x);
    }
  }

  lemma HeadOnConsume(c: State, y: Peer, x: Peer)
    requires Enabled(c, Consume(y)) && y != x && SettledHead(Apply(c, Consume(y)), x)
    ensures SettledHead(c, x)
  {
    assert Waiting(Apply(c, Consume(y)), x) == Waiting(c, x);
  }

  lemma HeadKept(c: State, st: Step, x: Peer)
    requires QueueOk(c, x) && Enabled(c, st) && (st.ToPeer? ==> MarkOk(c, st.k))
    requires SettledHead(Apply(c, st), x) && !Settles(c, st, x) && st != Consume(x)
    ensures SettledHead(c, x)
  {
    match st
    case Mark(k, p) => HeadOnMark(c, k, p, x);
    case ToPeer(k, ok) => HeadOnToPeer(c, k, ok, x);
    case Peek(y) => HeadOnPeek(c, y, x);
    case Consume(y) => HeadOnConsume(c, y, x);
    case ToRing(k) => HeadOnToRing(c, k, x);
    case Take(w) => HeadOnTake(c, w, x);
    case _ => HeadOnSettle(c, st, x);
  }

  /** Whoever settles the head owes the scheduling call. */
  lemma SettlerOwes(s: World, st: Step, x: Peer)
    requires Allowed(s, Pipe(st)) && Settles(s.c, st, x)
    ensures Owed(Do(s, Pipe(st)), x)
  {
    var r := Do(s, Pipe(st));
    if st.GiveUp? { assert st.k in r.owedE && r.owedE[st.k] == x; }
    else { assert st.w in r.owedW && r.owedW[st.w] == x; }
  }

  lemma PipeNoStall(s: World, st: Step, x: Peer)
    requires WInv(s) && Allowed(s, Pipe(st)) && !Stalled(s, x)
    ensures !Stalled(Do(s, Pipe(st)), x)
  {
    var r := Do(s, Pipe(st));
    if Settles(s.c, st, x) {
      SettlerOwes(s, st, x);
    } else if SettledHead(r.c, x) && st != Consume(x) {
      assert QueueOk(s.c, x) && (st.ToPeer? ==> MarkOk(s.c, st.k));
      HeadKept(s.c, st, x);
      OwedGrows(s, r, x);
    }
  }

  /** A settled head falls asleep in one way only: a run looks while a later enqueue is between its
      two stores, and finds nothing. */
  lemma StallsIff(s: World, m: Move, x: Peer)
    requires WInv(s) && Allowed(s, m) && !Stalled(s, x)
    ensures Stalled(Do(s, m), x) <==>
              m == FindNothing(x) && SettledHead(s.c, x) && x !in s.scheduled && !Owed(s, x)
  {
    if m.Pipe? { PipeNoStall(s, m.st, x); }
    else if m.ScheduleE? || m.ScheduleW? { ScheduleWakes(s, m, x); }
    else { OwedGrows(s, Do(s, m), x); OwedGrows(Do(s, m), s, x); }
  }

  /** It then wakes up when that later packet is settled. */
  lemma StalledWaits(s: World, x: Peer)
    requires WInv(s) && Stalled(s, x)
    ensures exists i :: 0 < i < |Waiting(s.c, x)| && !Settled(s.c, Waiting(s.c, x)[i])
  {
    assert WakeOk(s, x);
    HeldWaits(s, x);
  }

  lemma {:induction false} Snoc(s: World, ms: seq<Move>, m: Move)
    requires AllowedRun(s, ms) && Allowed(After(s, ms), m)
    ensures AllowedRun(s, ms + [m]) && After(s, ms + [m]) == Do(After(s, ms), m)
    decreases |ms|
  {
    if ms == [] {
      assert (ms + [m])[1..] == [];
    } else {
      assert (ms + [m])[1..] == ms[1..] + [m];
      Snoc(Do(s, ms[0]), ms[1..], m);
    }
  }

  ghost predicate Reachable(s: World) {
    exists ms :: AllowedRun(Start(), ms) && After(Start(), ms) == s
  }

  lemma ReachMove(s: World, m: Move)
    requires Reachable(s) && Allowed(s, m)
    ensures Reachable(Do(s, m))
  {
    var ms :| AllowedRun(Start(), ms) && After(Start(), ms) == s;
    Snoc(Start(), ms, m);
  }

  lemma FirstMarked(p: Packet) returns (s: World)
    ensures s == World(State(map[p := Uncrypted], map[], map[], [], map[0 := Marked(p)], map[], map[], map[], map[]), {}, {}, {}, map[], map[])
    ensures Reachable(s)
  {
    assert AllowedRun(Start(), []) && After(Start(), []) == Start();
    assert Waiting(Init(), p.peer) == [];
    ReachMove(Start(), Pipe(Mark(0, p)));
    s := Do(Start(), Pipe(Mark(0, p)));
  }

  lemma FirstQueued() returns (s: World)
    ensures var p := Packet(0, 0);
            s == World(State(map[p := Uncrypted], map[0 := [p]], map[], [], map[0 := Queued(p)], map[], map[p := ByEnqueuer(0)], map[0 := [p]], map[]),
                       {}, {}, {}, map[], map[])
    ensures Reachable(s)
  {
    var p := Packet(0, 0);
    var s1 := FirstMarked(p);
    ReachMove(s1, Pipe(ToPeer(0, true)));
    var s2 := Do(s1, Pipe(ToPeer(0, true)));
    assert Of(s1.c.queues, 0) + [p] == [p] && Of(s1.c.log, 0) + [p] == [p];
    assert s2.c.queues == map[0 := [p]] && s2.c.log == map[0 := [p]];
    assert s2.c.enqueuers == map[0 := Queued(p)] && s2.c.holder == map[p := ByEnqueuer(0)];
    ReachMove(s2, LinkUp(0));
    s := Do(s2, LinkUp(0));
    assert s.linking == {};
  }

  /** One packet taken from the ring by a worker. */
  lemma FirstTaken() returns (s: World)
    ensures var p := Packet(0, 0);
            s == World(State(map[p := Uncrypted], map[0 := [p]], map[], [], map[], map[0 := p], map[p := ByWorker(0)], map[0 := [p]], map[]),
                       {}, {}, {}, map[], map[])
    ensures Reachable(s)
  {
    var s0 := FirstQueued();
    ReachMove(s0, Pipe(ToRing(0)));
    var s1 := Do(s0, Pipe(ToRing(0)));
    assert s1.c.ring == [Packet(0, 0)];
    ReachMove(s1, Pipe(Take(0)));
    s := Do(s1, Pipe(Take(0)));
  }

  /** It is settled, and a run of the consumer begins. */
  lemma FirstSettled() returns (s: World)
    ensures var p := Packet(0, 0);
            s == World(State(map[p := Crypted], map[0 := [p]], map[], [], map[], map[], map[], map[0 := [p]], map[]), {}, {0}, {}, map[], map[])
    ensures Reachable(s)
  {
    var s0 := FirstTaken();
    ReachMove(s0, Pipe(Finish(0, true)));
    var s1 := Do(s0, Pipe(Finish(0, true)));
    ReachMove(s1, ScheduleW(0));
    var s2 := Do(s1, ScheduleW(0));
    ReachMove(s2, BeginRun(0));
    s := Do(s2, BeginRun(0));
  }

  /** It happens: the consumer looks at the settled packet while a second one is being enqueued. */
  lemma StallExample() returns (s: World)
    ensures Reachable(s) && Stalled(s, 0)
  {
    var q := Packet(0, 1);
    var s0 := FirstSettled();
    ReachMove(s0, Pipe(Mark(1, q)));
    var s1 := Do(s0, Pipe(Mark(1, q)));
    ReachMove(s1, Pipe(ToPeer(1, true)));
    var s2 := Do(s1, Pipe(ToPeer(1, true)));
    assert 1 in s2.linking && s2.c.enqueuers[1].p == q;
    assert Waiting(s2.c, 0)[0] == Packet(0, 0);
    ReachMove(s2, FindNothing(0));
    s := Do(s2, FindNothing(0));
    assert Waiting(s.c, 0) == Waiting(s2.c, 0);
  }

  // ---------------------------------------------------------------- progress

  predicate IsNew(m: Move) {
    m.Pipe? && (m.st.Mark? || m.st.ToPeer?)
  }

  /** Moves that finish what is under way and enqueue nothing. */
  predicate NothingNew(ms: seq<Move>) {
    forall i :: 0 <= i < |ms| ==> !IsNew(ms[i])
  }

  /** The peer queues are untouched, and no further packet is held. */
  predicate OnlySettles(c: State, r: State) {
    r.queues == c.queues && r.peeked == c.peeked && r.done == c.done && r.holder.Keys <= c.holder.Keys
  }

  /** A run that can be made from `s`. */
  ghost predicate Feasible(s: World, ms: seq<Move>) {
    AllowedRun(s, ms) && NothingNew(ms) && WInv(After(s, ms))
  }

  lemma One(s: World, m: Move)
    requires WInv(s) && Allowed(s, m) && !IsNew(m)
    ensures Feasible(s, [m]) && After(s, [m]) == Do(s, m)
  {
    MoveKeeps(s, m);
    assert [m][1..] == [];
  }

  lemma {:induction false} Then(s: World, a: seq<Move>, b: seq<Move>)
    requires AllowedRun(s, a) && NothingNew(a) && Feasible(After(s, a), b)
    ensures Feasible(s, a + b) && After(s, a + b) == After(After(s, a), b)
    decreases |a|
  {
    if a == [] {
      assert a + b == b;
    } else {
      assert (a + b)[1..] == a[1..] + b && (a + b)[0] == a[0];
      Then(Do(s, a[0]), a[1..], b);
    }
  }

  /** A step of the pipeline, after what its thread has to do first. */
  lemma PipeNow(s: World, st: Step) returns (ms: seq<Move>)
    requires WInv(s) && Enabled(s.c, st) && !st.Mark? && !st.ToPeer? && !st.Peek? && !st.Consume?
    ensures Feasible(s, ms) && After(s, ms).c == Apply(s.c, st)
  {
    if st.ToRing? && st.k in s.linking {
      One(s, LinkUp(st.k));
      ms := [LinkUp(st.k)];
    } else if st.Take? && st.w in s.owedW {
      One(s, ScheduleW(st.w));
      ms := [ScheduleW(st.w)];
    } else {
      ms := [];
    }
    var r := After(s, ms);
    One(r, Pipe(st));
    Then(s, ms, [Pipe(st)]);
    ms := ms + [Pipe(st)];
  }

  lemma StepSettles(c: State, st: Step)
    requires Inv(c) && Enabled(c, st) && !st.Mark? && !st.ToPeer? && !st.Peek? && !st.Consume?
    ensures OnlySettles(c, Apply(c, st))
  {
    if st.ToRing? {
      assert EnqueuerOk(c, st.k);
    } else if st.Take? {
      assert HeldBy(c, c.ring[0], InRing);
    }
  }

  lemma {:induction false} SettleOne(s: World, p: Packet) returns (ms: seq<Move>)
    requires WInv(s) && p in s.c.holder
    ensures Feasible(s, ms) && p !in After(s, ms).c.holder && OnlySettles(s.c, After(s, ms).c)
    decreases Stage(s.c, p), Distance(s.c, p)
  {
    var st := NextStep(s.c, p);
    var now := PipeNow(s, st);
    var r := After(s, now);
    StepSettles(s.c, st);
    if p in r.c.holder {
      var rest := SettleOne(r, p);
      Then(s, now, rest);
      ms := now + rest;
    } else {
      ms := now;
    }
  }

  lemma {:induction false} SettleAll(s: World, x: Peer) returns (ms: seq<Move>)
    requires WInv(s)
    ensures Feasible(s, ms) && !Held(After(s, ms), x) && OnlySettles(s.c, After(s, ms).c)
    decreases |s.c.holder.Keys|
  {
    if Held(s, x) {
      var p :| p in s.c.holder && p.peer == x;
      var one := SettleOne(s, p);
      var r := After(s, one);
      assert r.c.holder.Keys < s.c.holder.Keys;
      Smaller(r.c.holder.Keys, s.c.holder.Keys);
      var rest := SettleAll(r, x);
      Then(s, one, rest);
      ms := one + rest;
    } else {
      ms := [];
    }
  }

  lemma Smaller(a: set<Packet>, b: set<Packet>)
    requires a < b
    ensures |a| < |b|
  {
    var d := b - a;
    assert b == a + d && d != {};
  }

  /** With everything settled, the consumer that is awake can be brought into its loop. */
  lemma EnterLoop(s: World, x: Peer) returns (ms: seq<Move>)
    requires WInv(s) && Awake(s, x)
    ensures Feasible(s, ms) && x in After(s, ms).running && After(s, ms).c == s.c
  {
    ms := [];
    if x !in s.running && x !in s.scheduled {
      var m := if k :| k in s.owedE && s.owedE[k] == x then ScheduleE(k) else (var w :| w in s.owedW && s.owedW[w] == x; ScheduleW(w));
      One(s, m);
      ms := [m];
    }
    var r := After(s, ms);
    if x !in r.running {
      One(r, BeginRun(x));
      Then(s, ms, [BeginRun(x)]);
      ms := ms + [BeginRun(x)];
    }
  }

  /** A consumer in its loop takes the settled head. */
  lemma TakeHead(s: World, x: Peer) returns (ms: seq<Move>)
    requires WInv(s) && x in s.running && SettledHead(s.c, x)
    ensures Feasible(s, ms)
    ensures var p := Waiting(s.c, x)[0];
            Of(After(s, ms).c.done, x) == Of(s.c.done, x) + [Verdict(p, s.c.status[p] == Crypted)]
  {
    ms := [];
    if x !in s.c.peeked {
      One(s, Pipe(Peek(x)));
      ms := [Pipe(Peek(x))];
    }
    var r := After(s, ms);
    One(r, Pipe(Consume(x)));
    Then(s, ms, [Pipe(Consume(x))]);
    ms := ms + [Pipe(Consume(x))];
  }

  /** The head of a queue of which nothing is held any more is settled. */
  lemma HeadSettled(s: World, x: Peer)
    requires WInv(s) && !Held(s, x) && Waiting(s.c, x) != []
    ensures SettledHead(s.c, x) && Awake(s, x)
  {
    var p := Waiting(s.c, x)[0];
    assert QueueOk(s.c, x) && HolderOk(s.c, p) && WakeOk(s, x);
  }

  /** From every reachable state the oldest waiting packet of a peer can be consumed without any new
      packet, the consumer being entered only through the scheduling calls. */
  lemma CanDeliver(s: World, x: Peer) returns (ms: seq<Move>)
    requires WInv(s) && Waiting(s.c, x) != []
    ensures Feasible(s, ms)
    ensures var done := Of(After(s, ms).c.done, x);
            |done| == |Of(s.c.done, x)| + 1 && done[..|done| - 1] == Of(s.c.done, x) && done[|done| - 1].p == Waiting(s.c, x)[0]
  {
    var a := SettleAll(s, x);
    var s1 := After(s, a);
    assert Waiting(s1.c, x) == Waiting(s.c, x);
    HeadSettled(s1, x);
    var b := EnterLoop(s1, x);
    var s2 := After(s1, b);
    var c := TakeHead(s2, x);
    Then(s1, b, c);
    Then(s, a, b + c);
    ms := a + (b + c);
  }
}
