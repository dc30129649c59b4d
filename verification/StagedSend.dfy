/** Giving nonces to staged packets. Any number of threads may run the send path at once; each of
    its shared accesses (taking the queue, reading the key's validity, the atomic increment, clearing
    the validity flag, putting the batch back) is one step. */
module StagedSend {
  import opened Common
  import opened Messages

  /** Distance from the limit to wrap-around of the counter. */
  const HEADROOM: nat := TWO64 - REJECT_AFTER_MESSAGES

  type Packet = nat
  type Key = nat

  datatype Sent = Sent(packet: Packet, key: Key, nonce: nat)

  /** `drawn` counts every increment since the key was made; the stored counter is that modulo 2^64.
      `over` records which threads drew a nonce at or past the limit. */
  datatype KeyState = KeyState(drawn: nat, valid: bool, over: set<nat>) {
    function Counter(): (n: nat) { drawn % TWO64 }
  }

  datatype Phase =
    | Idle
    | Stolen(batch: seq<Packet>)
    | Numbering(batch: seq<Packet>, key: Key, nonces: seq<nat>)
    | Invalidating(batch: seq<Packet>, key: Key)
    | PuttingBack(batch: seq<Packet>)

  datatype State = State(
    staged: seq<Packet>,
    keys: map<Key, KeyState>,
    threads: seq<Phase>,
    handed: seq<Sent>,
    dropped: seq<Packet>,
    offered: multiset<Packet>)

  function KeyOf(s: State, k: Key): (r: KeyState) {
    if k in s.keys then s.keys[k] else KeyState(0, true, {})
  }

  function Batch(p: Phase): (b: seq<Packet>) {
    if p.Idle? then [] else p.batch
  }

  datatype Event =
    | Stage(packets: seq<Packet>)
    | Purge
    | Steal(t: nat)
    | Check(t: nat, current: Option<Key>, expired: bool)
    | Assign(t: nat)
    | HandOver(t: nat, accepted: bool)
    | Invalidate(t: nat)
    | PutBack(t: nat)

  predicate Enabled(s: State, e: Event) {
    match e
    case Stage(_) => true
    case Purge => true
    case Steal(t) => t < |s.threads| && s.threads[t].Idle? && s.staged != []
    case Check(t, _, _) => t < |s.threads| && s.threads[t].Stolen?
    case Assign(t) => t < |s.threads| && s.threads[t].Numbering? && |s.threads[t].nonces| < |s.threads[t].batch|
    case HandOver(t, _) => t < |s.threads| && s.threads[t].Numbering? && |s.threads[t].nonces| == |s.threads[t].batch|
    case Invalidate(t) => t < |s.threads| && s.threads[t].Invalidating?
    case PutBack(t) => t < |s.threads| && s.threads[t].PuttingBack?
  }

  /** How many packets are discarded from the front to get back to the limit. */
  function Excess(s: seq<Packet>): (n: nat)
    ensures n <= |s|
  {
    if |s| > MAX_STAGED_PACKETS then |s| - MAX_STAGED_PACKETS else 0
  }

  function Zip(b: seq<Packet>, k: Key, ns: seq<nat>): (r: seq<Sent>)
    requires |b| == |ns|
    ensures |r| == |b| && forall i :: 0 <= i < |b| ==> r[i] == Sent(b[i], k, ns[i])
  {
    seq(|b|, i requires 0 <= i < |b| => Sent(b[i], k, ns[i]))
  }

  function SetPhase(s: State, t: nat, p: Phase): (r: State)
    requires t < |s.threads|
  {
    s.(threads := s.threads[t := p])
  }

  function Next(s: State, e: Event): (r: State)
    requires Enabled(s, e)
    ensures |r.threads| == |s.threads|
  {
    match e
    case Stage(ps) =>
      var x := Excess(s.staged);
      s.(staged := s.staged[x..] + ps, dropped := s.dropped + s.staged[..x], offered := s.offered + multiset(ps))
    case Purge => s.(staged := [], dropped := s.dropped + s.staged)
    case Steal(t) => SetPhase(s.(staged := []), t, Stolen(s.staged))
    case Check(t, current, expired) =>
      var b := s.threads[t].batch;
      if current.None? || !KeyOf(s, current.value).valid then SetPhase(s, t, PuttingBack(b))
      else if expired then SetPhase(s, t, Invalidating(b, current.value))
      else SetPhase(s, t, Numbering(b, current.value, []))
    case Assign(t) =>
      var p := s.threads[t];
      var ks := KeyOf(s, p.key);
      var nonce := ks.Counter();
      if nonce >= REJECT_AFTER_MESSAGES then
        SetPhase(s.(keys := s.keys[p.key := ks.(drawn := ks.drawn + 1, over := ks.over + {t})]), t, Invalidating(p.batch, p.key))
      else
        SetPhase(s.(keys := s.keys[p.key := ks.(drawn := ks.drawn + 1)]), t, p.(nonces := p.nonces + [nonce]))
    case HandOver(t, accepted) =>
      var p := s.threads[t];
      if accepted then SetPhase(s.(handed := s.handed + Zip(p.batch, p.key, p.nonces)), t, Idle)
      else SetPhase(s.(dropped := s.dropped + p.batch), t, Idle)
    case Invalidate(t) =>
      var p := s.threads[t];
      SetPhase(s.(keys := s.keys[p.key := KeyOf(s, p.key).(valid := false)]), t, PuttingBack(p.batch))
    case PutBack(t) => SetPhase(s.(staged := s.threads[t].batch + s.staged), t, Idle)
  }

  // ---------------------------------------------------------------- conservation

  /** How often a packet is in the threads' batches. */
  function Held(ps: seq<Phase>, x: Packet): (n: nat) {
    if ps == [] then 0 else multiset(Batch(ps[0]))[x] + Held(ps[1..], x)
  }

  lemma {:induction false} HeldUpdate(ps: seq<Phase>, t: nat, p: Phase, x: Packet)
    requires t < |ps|
    ensures Held(ps[t := p], x) + multiset(Batch(ps[t]))[x] == Held(ps, x) + multiset(Batch(p))[x]
    decreases |ps|
  {
    var qs := ps[t := p];
    if t == 0 {
      assert qs[1..] == ps[1..];
    } else {
      HeldUpdate(ps[1..], t - 1, p, x);
      assert qs[1..] == ps[1..][t - 1 := p];
    }
  }

  function Packets(h: seq<Sent>): (r: seq<Packet>)
    ensures |r| == |h| && forall i :: 0 <= i < |h| ==> r[i] == h[i].packet
  {
    seq(|h|, i requires 0 <= i < |h| => h[i].packet)
  }

  /** How often a packet is staged, handed over or dropped. */
  function Rest(s: State, x: Packet): (n: nat) {
    multiset(s.staged)[x] + multiset(Packets(s.handed))[x] + multiset(s.dropped)[x]
  }

  ghost predicate Balanced(s: State, x: Packet) {
    Rest(s, x) + Held(s.threads, x) == s.offered[x]
  }

  /** Every packet ever offered is staged, held by a thread, handed over or dropped, as often as
      it was offered. */
  ghost predicate Conserved(s: State) {
    forall x :: Balanced(s, x)
  }

  lemma Counts(a: seq<Packet>, b: seq<Packet>, x: Packet)
    ensures multiset(a + b)[x] == multiset(a)[x] + multiset(b)[x]
  {
  }

  lemma StageBalances(s: State, ps: seq<Packet>, x: Packet)
    requires Balanced(s, x)
    ensures Balanced(Next(s, Stage(ps)), x)
  {
    var n := Excess(s.staged);
    assert s.staged == s.staged[..n] + s.staged[n..];
    Counts(s.staged[..n], s.staged[n..], x);
    Counts(s.staged[n..], ps, x);
    Counts(s.dropped, s.staged[..n], x);
  }

  lemma HandOverBalances(s: State, t: nat, accepted: bool, x: Packet)
    requires Enabled(s, HandOver(t, accepted)) && Balanced(s, x)
    ensures Balanced(Next(s, HandOver(t, accepted)), x)
  {
    var r := Next(s, HandOver(t, accepted));
    var b := s.threads[t].batch;
    HeldUpdate(s.threads, t, Idle, x);
    if accepted {
      assert Packets(r.handed) == Packets(s.handed) + b;
      Counts(Packets(s.handed), b, x);
    } else {
      Counts(s.dropped, b, x);
    }
  }

  /** A thread changing phase takes and gives what the rest of the system gives and takes. */
  lemma MoveBalances(s: State, r: State, t: nat, p: Phase, x: Packet)
    requires Balanced(s, x) && t < |s.threads| && r.threads == s.threads[t := p] && r.offered == s.offered
    requires Rest(r, x) + multiset(Batch(p))[x] == Rest(s, x) + multiset(Batch(s.threads[t]))[x]
    ensures Balanced(r, x)
  {
    HeldUpdate(s.threads, t, p, x);
  }

  /** Purging, stealing and putting back only move packets. */
  lemma QueueBalances(s: State, e: Event, x: Packet)
    requires Enabled(s, e) && Balanced(s, x) && (e.Purge? || e.Steal? || e.PutBack?)
    ensures Balanced(Next(s, e), x)
  {
    var r := Next(s, e);
    if e.Purge? {
      Counts(s.dropped, s.staged, x);
    } else if e.Steal? {
      MoveBalances(s, r, e.t, Stolen(s.staged), x);
    } else {
      Counts(s.threads[e.t].batch, s.staged, x);
      MoveBalances(s, r, e.t, Idle, x);
    }
  }

  /** Checking, numbering and invalidating leave the batch as it is. */
  lemma BatchKept(s: State, e: Event)
    requires Enabled(s, e) && (e.Check? || e.Assign? || e.Invalidate?)
    ensures var r := Next(s, e);
            && r.threads == s.threads[e.t := r.threads[e.t]] && Batch(r.threads[e.t]) == Batch(s.threads[e.t])
            && r.staged == s.staged && r.handed == s.handed && r.dropped == s.dropped && r.offered == s.offered
  {
  }

  lemma StepBalances(s: State, e: Event, x: Packet)
    requires Enabled(s, e) && Balanced(s, x)
    ensures Balanced(Next(s, e), x)
  {
    if e.Stage? {
      StageBalances(s, e.packets, x);
    } else if e.HandOver? {
      HandOverBalances(s, e.t, e.accepted, x);
    } else if e.Purge? || e.Steal? || e.PutBack? {
      QueueBalances(s, e, x);
    } else {
      var r := Next(s, e);
      BatchKept(s, e);
      assert Rest(r, x) == Rest(s, x);
      MoveBalances(s, r, e.t, r.threads[e.t], x);
    }
  }

  // ---------------------------------------------------------------- the counter cannot wrap

  /** A thread that drew past the limit is about to clear the flag, or the flag is clear and the
      thread is not numbering under that key. */
  predicate Retired(s: State, k: Key, t: nat) {
    t < |s.threads| &&
    ((s.threads[t].Invalidating? && s.threads[t].key == k)
     || (!KeyOf(s, k).valid && !(s.threads[t].Numbering? && s.threads[t].key == k)))
  }

  ghost predicate CounterOk(s: State, k: Key) {
    && KeyOf(s, k).drawn <= REJECT_AFTER_MESSAGES + |KeyOf(s, k).over|
    && forall t :: t in KeyOf(s, k).over ==> Retired(s, k, t)
  }

  lemma CounterStep(s: State, e: Event, k: Key)
    requires CounterOk(s, k) && Enabled(s, e)
    requires e.Assign? && s.threads[e.t].key == k ==> KeyOf(s, k).drawn < TWO64
    ensures CounterOk(Next(s, e), k)
  {
    var r := Next(s, e);
    forall t | t in KeyOf(r, k).over ensures Retired(r, k, t) {
      if t in KeyOf(s, k).over { assert Retired(s, k, t); }
    }
    if e.Assign? && s.threads[e.t].key == k {
      assert !Retired(s, k, e.t);
    }
  }

  function Below(n: nat): (r: set<nat>) {
    if n == 0 then {} else Below(n - 1) + {n - 1}
  }

  lemma {:induction false} BelowSpec(n: nat)
    ensures |Below(n)| == n && forall x :: x in Below(n) <==> 0 <= x < n
  {
    if n > 0 { BelowSpec(n - 1); }
  }

  lemma SmallSet(n: nat, a: set<nat>, t: nat)
    requires t < n && t !in a && forall x :: x in a ==> x < n
    ensures |a| < n
  {
    BelowSpec(n);
    assert Below(n) == (a + {t}) + (Below(n) - (a + {t}));
  }

  /** With at most as many threads as the headroom holds, no draw ever wraps. */
  lemma DrawBelowWrap(s: State, t: nat)
    requires |s.threads| <= HEADROOM && Enabled(s, Assign(t)) && CounterOk(s, s.threads[t].key)
    ensures KeyOf(s, s.threads[t].key).drawn < TWO64
  {
    var k := s.threads[t].key;
    assert !Retired(s, k, t);
    forall x | x in KeyOf(s, k).over ensures x < |s.threads| { assert Retired(s, k, x); }
    SmallSet(|s.threads|, KeyOf(s, k).over, t);
  }

  // ---------------------------------------------------------------- nonces are used once

  predicate Uses(s: State, t: int, k: Key, n: nat) {
    0 <= t < |s.threads| && s.threads[t].Numbering? && s.threads[t].key == k && n in s.threads[t].nonces
  }

  predicate Increasing(ns: seq<nat>) {
    forall i, j :: 0 <= i < j < |ns| ==> ns[i] < ns[j]
  }

  predicate SentWith(h: seq<Sent>, k: Key, n: nat) {
    exists i :: 0 <= i < |h| && h[i].key == k && h[i].nonce == n
  }

  predicate Distinct(h: seq<Sent>) {
    forall i, j :: 0 <= i < j < |h| ==> h[i].key != h[j].key || h[i].nonce != h[j].nonce
  }

  predicate SentOk(s: State, x: Sent) {
    x.nonce < REJECT_AFTER_MESSAGES && x.nonce < KeyOf(s, x.key).drawn
  }

  ghost predicate NoncesOk(s: State) {
    && Distinct(s.handed)
    && (forall i :: 0 <= i < |s.handed| ==> SentOk(s, s.handed[i]))
    && (forall t :: 0 <= t < |s.threads| && s.threads[t].Numbering? ==> Increasing(s.threads[t].nonces))
    && (forall t, k, n: nat :: Uses(s, t, k, n) ==>
          n < REJECT_AFTER_MESSAGES && n < KeyOf(s, k).drawn && !SentWith(s.handed, k, n))
    && (forall t, u, k, n: nat :: Uses(s, t, k, n) && Uses(s, u, k, n) ==> t == u)
  }

  ghost predicate Inv(s: State) {
    Conserved(s) && NoncesOk(s) && forall k :: CounterOk(s, k)
  }

  /** Steps that hand over nothing and draw nothing. */
  lemma QuietNonces(s: State, e: Event)
    requires NoncesOk(s) && Enabled(s, e) && !e.Assign? && !e.HandOver?
    ensures NoncesOk(Next(s, e))
  {
    var r := Next(s, e);
    forall k ensures KeyOf(r, k).drawn == KeyOf(s, k).drawn {}
    forall i | 0 <= i < |r.handed| ensures SentOk(r, r.handed[i]) { assert SentOk(s, s.handed[i]); }
    forall t, k, n: nat | Uses(r, t, k, n) ensures Uses(s, t, k, n) {}
  }

  lemma AssignNonces(s: State, e: Event)
    requires NoncesOk(s) && Enabled(s, e) && e.Assign? && KeyOf(s, s.threads[e.t].key).drawn < TWO64
    ensures NoncesOk(Next(s, e))
  {
    var r := Next(s, e);
    var key, nonce := s.threads[e.t].key, KeyOf(s, s.threads[e.t].key).drawn;
    forall k ensures KeyOf(s, k).drawn <= KeyOf(r, k).drawn {}
    forall i | 0 <= i < |r.handed| ensures SentOk(r, r.handed[i]) { assert SentOk(s, s.handed[i]); }
    NotYetSent(s, key, nonce);
    forall t, k, n: nat | Uses(r, t, k, n)
      ensures Uses(s, t, k, n) || (t == e.t && k == key && n == nonce < REJECT_AFTER_MESSAGES && n < KeyOf(r, k).drawn) {}
    forall t ensures !Uses(s, t, key, nonce) {}
    forall t | 0 <= t < |r.threads| && r.threads[t].Numbering? ensures Increasing(r.threads[t].nonces) {
      if t == e.t {
        var ns := s.threads[t].nonces;
        forall i | 0 <= i < |ns| ensures ns[i] < nonce { assert Uses(s, t, key, ns[i]); }
      }
    }
  }

  lemma NotYetSent(s: State, k: Key, n: nat)
    requires NoncesOk(s) && n >= KeyOf(s, k).drawn
    ensures !SentWith(s.handed, k, n)
  {
    forall i | 0 <= i < |s.handed| ensures s.handed[i].key != k || s.handed[i].nonce != n {
      assert SentOk(s, s.handed[i]);
    }
  }

  lemma HandOverNonces(s: State, e: Event)
    requires NoncesOk(s) && Enabled(s, e) && e.HandOver?
    ensures NoncesOk(Next(s, e))
  {
    var r := Next(s, e);
    var p := s.threads[e.t];
    forall t, k, n: nat | Uses(r, t, k, n) ensures t != e.t && Uses(s, t, k, n) {}
    var z := Zip(p.batch, p.key, p.nonces);
    forall i | 0 <= i < |z| ensures Uses(s, e.t, p.key, z[i].nonce) && z[i].key == p.key {}
    if e.accepted {
      Appended(s.handed, z, p.key);
      forall i | 0 <= i < |r.handed| ensures SentOk(r, r.handed[i]) {
        if i >= |s.handed| {
          assert r.handed[i] == z[i - |s.handed|];
        } else {
          assert SentOk(s, s.handed[i]);
        }
      }
      forall t, k, n: nat | Uses(r, t, k, n) ensures !SentWith(r.handed, k, n) {
        forall i | 0 <= i < |r.handed| ensures r.handed[i].key != k || r.handed[i].nonce != n {
          if i < |s.handed| {
            assert !SentWith(s.handed, k, n);
          } else {
            assert r.handed[i] == z[i - |s.handed|];
            assert Uses(s, e.t, p.key, r.handed[i].nonce);
          }
        }
      }
    } else {
      forall i | 0 <= i < |r.handed| ensures SentOk(r, r.handed[i]) { assert SentOk(s, s.handed[i]); }
    }
  }

  lemma Appended(h: seq<Sent>, z: seq<Sent>, k: Key)
    requires Distinct(h) && Distinct(z) && forall i :: 0 <= i < |z| ==> z[i].key == k && !SentWith(h, k, z[i].nonce)
    ensures Distinct(h + z)
  {
  }

  lemma StepKeeps(s: State, e: Event)
    requires Inv(s) && Enabled(s, e) && |s.threads| <= HEADROOM
    ensures Inv(Next(s, e))
  {
    forall x ensures Balanced(Next(s, e), x) { assert Balanced(s, x); StepBalances(s, e, x); }
    if e.Assign? {
      DrawBelowWrap(s, e.t);
      AssignNonces(s, e);
    } else if e.HandOver? {
      HandOverNonces(s, e);
    } else {
      QuietNonces(s, e);
    }
    forall k ensures CounterOk(Next(s, e), k) { CounterStep(s, e, k); }
  }

  // ---------------------------------------------------------------- whole runs

  predicate Lawful(s: State, es: seq<Event>)
    decreases |es|
  {
    es == [] || (Enabled(s, es[0]) && Lawful(Next(s, es[0]), es[1..]))
  }

  function Run(s: State, es: seq<Event>): (r: State)
    requires Lawful(s, es)
    ensures |r.threads| == |s.threads|
    decreases |es|
  {
    if es == [] then s else Run(Next(s, es[0]), es[1..])
  }

  function Init(threads: nat): (s: State)
    ensures |s.threads| == threads
  {
    State([], map[], seq(threads, _ => Idle), [], [], multiset{})
  }

  lemma {:induction false} RunKeeps(s: State, es: seq<Event>)
    requires Inv(s) && Lawful(s, es) && |s.threads| <= HEADROOM
    ensures Inv(Run(s, es))
    decreases |es|
  {
    if es != [] {
      StepKeeps(s, es[0]);
      RunKeeps(Next(s, es[0]), es[1..]);
    }
  }

  lemma {:induction false} AllIdle(ps: seq<Phase>, x: Packet)
    requires forall i :: 0 <= i < |ps| ==> ps[i] == Idle
    ensures Held(ps, x) == 0
    decreases |ps|
  {
    if ps != [] { AllIdle(ps[1..], x); }
  }

  lemma InitInv(threads: nat)
    ensures Inv(Init(threads))
  {
    var s := Init(threads);
    forall x ensures Balanced(s, x) { AllIdle(s.threads, x); }
  }

  /** Nothing is lost or duplicated, and no nonce is handed to encryption twice or at the limit. */
  lemma NoncesUnique(threads: nat, es: seq<Event>)
    requires threads <= HEADROOM && Lawful(Init(threads), es)
    ensures var s := Run(Init(threads), es);
            && Distinct(s.handed)
            && (forall i :: 0 <= i < |s.handed| ==> s.handed[i].nonce < REJECT_AFTER_MESSAGES)
            && Conserved(s)
  {
    InitInv(threads);
    RunKeeps(Init(threads), es);
    var s := Run(Init(threads), es);
    forall i | 0 <= i < |s.handed| ensures s.handed[i].nonce < REJECT_AFTER_MESSAGES { assert SentOk(s, s.handed[i]); }
  }

  // ---------------------------------------------------------------- dead keys

  predicate Silent(s: State, k: Key) {
    !KeyOf(s, k).valid && forall t :: 0 <= t < |s.threads| && s.threads[t].Numbering? ==> s.threads[t].key != k
  }

  function SentUnder(h: seq<Sent>, k: Key): (r: seq<Sent>) {
    if h == [] then []
    else SentUnder(h[..|h| - 1], k) + (if h[|h| - 1].key == k then [h[|h| - 1]] else [])
  }

  lemma {:induction false} SentUnderAppend(h: seq<Sent>, z: seq<Sent>, k: Key)
    requires forall i :: 0 <= i < |z| ==> z[i].key != k
    ensures SentUnder(h + z, k) == SentUnder(h, k)
    decreases |z|
  {
    if z == [] {
      assert h + z == h;
    } else {
      assert (h + z)[..|h + z| - 1] == h + z[..|z| - 1];
      SentUnderAppend(h, z[..|z| - 1], k);
    }
  }

  /** A key once invalid stays invalid; when the threads already numbering under it are gone,
      nothing is numbered or sent under it again. */
  lemma {:induction false} DeadKey(s: State, es: seq<Event>, k: Key)
    requires Lawful(s, es) && !KeyOf(s, k).valid
    ensures !KeyOf(Run(s, es), k).valid
    ensures Silent(s, k) ==> KeyOf(Run(s, es), k).drawn == KeyOf(s, k).drawn
                             && SentUnder(Run(s, es).handed, k) == SentUnder(s.handed, k)
    decreases |es|
  {
    if es != [] {
      var e := es[0];
      DeadKey(Next(s, e), es[1..], k);
      if Silent(s, k) {
        assert Silent(Next(s, e), k);
        if e.HandOver? && e.accepted {
          var p := s.threads[e.t];
          SentUnderAppend(s.handed, Zip(p.batch, p.key, p.nonces), k);
        }
      }
    }
  }

  // ---------------------------------------------------------------- a batch that failed

  predicate Failed(s: State, t: nat, b: seq<Packet>) {
    t < |s.threads| && (s.threads[t].Invalidating? || s.threads[t].PuttingBack?) && s.threads[t].batch == b
  }

  lemma {:induction false} LawfulPrefix(s: State, es: seq<Event>, i: nat)
    requires Lawful(s, es) && i <= |es|
    ensures Lawful(s, es[..i])
    decreases |es|
  {
    if i > 0 {
      LawfulPrefix(Next(s, es[0]), es[1..], i - 1);
      assert es[..i][1..] == es[1..][..i - 1];
    }
  }

  /** The batch went back at step `i`: whole, in order, before everything staged meanwhile. */
  ghost predicate WentBack(s: State, es: seq<Event>, t: nat, b: seq<Packet>, i: int) {
    && 0 <= i < |es| && es[i] == PutBack(t) && Lawful(s, es[..i]) && Lawful(s, es[..i + 1])
    && Run(s, es[..i + 1]).staged == b + Run(s, es[..i]).staged
  }

  lemma {:induction false} FailedBatchReturns(s: State, es: seq<Event>, t: nat, b: seq<Packet>)
    requires Lawful(s, es) && Failed(s, t, b)
    ensures Failed(Run(s, es), t, b) || exists i :: WentBack(s, es, t, b, i)
    decreases |es|
  {
    if es != [] {
      var s' := Next(s, es[0]);
      if es[0] == PutBack(t) {
        LawfulPrefix(s, es, 1);
        assert es[..1][1..] == [] && es[..0] == [];
        assert WentBack(s, es, t, b, 0);
      } else {
        assert Failed(s', t, b);
        FailedBatchReturns(s', es[1..], t, b);
        if !Failed(Run(s, es), t, b) {
          var i :| WentBack(s', es[1..], t, b, i);
          Shifted(s, es, t, b, i);
        }
      }
    }
  }

  lemma Shifted(s: State, es: seq<Event>, t: nat, b: seq<Packet>, i: nat)
    requires Lawful(s, es) && es != [] && WentBack(Next(s, es[0]), es[1..], t, b, i)
    ensures WentBack(s, es, t, b, i + 1)
  {
    LawfulPrefix(s, es, i + 1);
    LawfulPrefix(s, es, i + 2);
    assert es[..i + 1][1..] == es[1..][..i];
    assert es[..i + 2][1..] == es[1..][..i + 1];
  }

  // ---------------------------------------------------------------- the bound on threads is exact

  ghost predicate Reach(s: State, r: State) {
    exists es :: Lawful(s, es) && Run(s, es) == r
  }

  lemma {:induction false} RunAppend(s: State, es: seq<Event>, e: Event)
    requires Lawful(s, es) && Enabled(Run(s, es), e)
    ensures Lawful(s, es + [e]) && Run(s, es + [e]) == Next(Run(s, es), e)
    decreases |es|
  {
    if es == [] {
      assert [e][1..] == [] && es + [e] == [e];
    } else {
      RunAppend(Next(s, es[0]), es[1..], e);
      assert (es + [e])[1..] == es[1..] + [e];
    }
  }

  lemma ReachStep(s: State, r: State, e: Event)
    requires Reach(s, r) && Enabled(r, e)
    ensures Reach(s, Next(r, e))
  {
    var es :| Lawful(s, es) && Run(s, es) == r;
    RunAppend(s, es, e);
  }

  /** One packet is staged, taken by a thread, and the key is found valid. */
  lemma Load(s: State, r: State, t: nat) returns (r': State)
    requires Reach(s, r) && t < |r.threads| && r.threads[t] == Idle && r.staged == [] && KeyOf(r, 0).valid
    ensures Reach(s, r') && r'.threads == r.threads[t := Numbering([0], 0, [])] && r'.staged == []
    ensures r'.keys == r.keys && r'.handed == r.handed
  {
    var a := Next(r, Stage([0]));
    ReachStep(s, r, Stage([0]));
    assert a.staged == [0] && a.threads == r.threads && a.keys == r.keys;
    var b := Next(a, Steal(t));
    ReachStep(s, a, Steal(t));
    r' := Next(b, Check(t, Some(0), false));
    ReachStep(s, b, Check(t, Some(0), false));
  }

  /** Whatever the limit, a key can be used up to it, one packet at a time. */
  lemma {:induction false} UseUp(threads: nat, n: nat) returns (r: State)
    requires threads > 0 && n <= REJECT_AFTER_MESSAGES
    ensures Reach(Init(threads), r) && r.threads == Init(threads).threads && r.staged == []
    ensures KeyOf(r, 0).drawn == n && KeyOf(r, 0).valid
    ensures n == 0 ==> r.handed == []
    ensures n > 0 ==> r.handed != [] && r.handed[0] == Sent(0, 0, 0)
    decreases n
  {
    var s := Init(threads);
    if n == 0 {
      r := s;
      assert Lawful(s, []) && Run(s, []) == s;
    } else {
      var q := UseUp(threads, n - 1);
      var a := Load(s, q, 0);
      r := SendOne(s, a);
      assert r.threads == q.threads;
    }
  }

  lemma SendOne(s: State, a: State) returns (r: State)
    requires Reach(s, a) && a.threads != [] && a.threads[0] == Numbering([0], 0, []) && a.staged == []
    requires KeyOf(a, 0).drawn < REJECT_AFTER_MESSAGES
    ensures Reach(s, r) && r.threads == a.threads[0 := Idle] && r.staged == []
    ensures KeyOf(r, 0).drawn == KeyOf(a, 0).drawn + 1 && KeyOf(r, 0).valid == KeyOf(a, 0).valid
    ensures r.handed == a.handed + [Sent(0, 0, KeyOf(a, 0).drawn)]
  {
    var b := Next(a, Assign(0));
    ReachStep(s, a, Assign(0));
    assert b.threads[0] == Numbering([0], 0, [KeyOf(a, 0).drawn]);
    r := Next(b, HandOver(0, true));
    ReachStep(s, b, HandOver(0, true));
    assert Zip([0], 0, [KeyOf(a, 0).drawn]) == [Sent(0, 0, KeyOf(a, 0).drawn)];
  }

  /** The first `m` threads have found the key valid. */
  lemma {:induction false} LoadAll(s: State, q: State, m: nat) returns (r: State)
    requires Reach(s, q) && m <= |q.threads| && q.staged == [] && KeyOf(q, 0).valid
    requires forall i :: 0 <= i < |q.threads| ==> q.threads[i] == Idle
    ensures Reach(s, r) && |r.threads| == |q.threads| && r.staged == [] && r.keys == q.keys && r.handed == q.handed
    ensures forall i :: 0 <= i < m ==> r.threads[i] == Numbering([0], 0, [])
    ensures forall i :: m <= i < |q.threads| ==> r.threads[i] == Idle
    decreases m
  {
    if m == 0 {
      r := q;
    } else {
      var p := LoadAll(s, q, m - 1);
      r := Load(s, p, m - 1);
    }
  }

  /** All of them draw, and the stored counter runs past the limit. */
  lemma {:induction false} Overrun(s: State, q: State, m: nat) returns (r: State)
    requires Reach(s, q) && m <= HEADROOM < |q.threads| && KeyOf(q, 0).drawn == REJECT_AFTER_MESSAGES
    requires forall i :: 0 <= i <= HEADROOM ==> q.threads[i] == Numbering([0], 0, [])
    ensures Reach(s, r) && |r.threads| == |q.threads| && r.handed == q.handed
    ensures KeyOf(r, 0).drawn == REJECT_AFTER_MESSAGES + m
    ensures forall i :: m <= i <= HEADROOM ==> r.threads[i] == Numbering([0], 0, [])
    decreases m
  {
    if m == 0 {
      r := q;
    } else {
      var p := Overrun(s, q, m - 1);
      r := Next(p, Assign(m - 1));
      ReachStep(s, p, Assign(m - 1));
    }
  }

  lemma NonceReused(threads: nat) returns (r: State)
    requires threads > HEADROOM
    ensures Reach(Init(threads), r) && !Distinct(r.handed)
  {
    var s := Init(threads);
    var q := UseUp(threads, REJECT_AFTER_MESSAGES);
    var p := LoadAll(s, q, HEADROOM + 1);
    var a := Overrun(s, p, HEADROOM);
    assert KeyOf(a, 0).Counter() == 0;
    var b := Next(a, Assign(HEADROOM));
    ReachStep(s, a, Assign(HEADROOM));
    r := Next(b, HandOver(HEADROOM, true));
    ReachStep(s, b, HandOver(HEADROOM, true));
    var n := |a.handed|;
    assert r.handed[n] == Sent(0, 0, 0) && r.handed[0] == Sent(0, 0, 0) && n > 0;
  }

  /** Nonces are unique in every run if and only if no more threads than the headroom send at once. */
  lemma NoncesUniqueIff(threads: nat)
    ensures threads <= 8130 <==>
            forall es :: Lawful(Init(threads), es) ==> Distinct(Run(Init(threads), es).handed)
  {
    if threads <= HEADROOM {
      forall es | Lawful(Init(threads), es) ensures Distinct(Run(Init(threads), es).handed) {
        NoncesUnique(threads, es);
      }
    } else {
      var r := NonceReused(threads);
      var es :| Lawful(Init(threads), es) && Run(Init(threads), es) == r;
      assert Lawful(Init(threads), es) && !Distinct(Run(Init(threads), es).handed);
    }
  }

  // ---------------------------------------------------------------- one thread undisturbed

  function Draws(t: nat, n: nat): (es: seq<Event>) {
    if n == 0 then [] else Draws(t, n - 1) + [Assign(t)]
  }

  function Consecutive(d: nat, n: nat): (ns: seq<nat>)
    ensures |ns| == n && forall i :: 0 <= i < n ==> ns[i] == d + i
  {
    seq(n, i requires 0 <= i < n => d + i)
  }

  /** Thread `t` has taken the whole queue and drawn `n` nonces. */
  function Drawn(s: State, t: nat, k: Key, n: nat): (r: State)
    requires t < |s.threads|
  {
    var ks := KeyOf(s, k);
    s.(staged := [], threads := s.threads[t := Numbering(s.staged, k, Consecutive(ks.drawn, n))],
       keys := if n == 0 then s.keys else s.keys[k := ks.(drawn := ks.drawn + n)])
  }

  /** The queue taken and the key found usable. */
  lemma Loaded(s: State, t: nat, k: Key)
    requires t < |s.threads| && s.threads[t] == Idle && s.staged != [] && KeyOf(s, k).valid
    ensures var es := [Steal(t), Check(t, Some(k), false)];
            Lawful(s, es) && Run(s, es) == Drawn(s, t, k, 0)
  {
    RunAppend(s, [], Steal(t));
    RunAppend(s, [] + [Steal(t)], Check(t, Some(k), false));
    assert [] + [Steal(t)] + [Check(t, Some(k), false)] == [Steal(t), Check(t, Some(k), false)];
    assert s.threads[t := Stolen(s.staged)][t := Numbering(s.staged, k, [])] == s.threads[t := Numbering(s.staged, k, [])];
  }

  lemma OneDraw(s: State, t: nat, k: Key, n: nat)
    requires t < |s.threads| && n < |s.staged| && KeyOf(s, k).drawn + n < REJECT_AFTER_MESSAGES
    ensures Enabled(Drawn(s, t, k, n), Assign(t)) && Next(Drawn(s, t, k, n), Assign(t)) == Drawn(s, t, k, n + 1)
  {
    var d := Drawn(s, t, k, n);
    assert KeyOf(d, k).drawn == KeyOf(s, k).drawn + n;
    assert Consecutive(KeyOf(s, k).drawn, n) + [KeyOf(s, k).drawn + n] == Consecutive(KeyOf(s, k).drawn, n + 1);
  }

  lemma {:induction false} DrawRun(s: State, t: nat, k: Key, n: nat, start: seq<Event>)
    requires t < |s.threads| && n <= |s.staged| && KeyOf(s, k).drawn + n <= REJECT_AFTER_MESSAGES
    requires Lawful(s, start) && Run(s, start) == Drawn(s, t, k, 0)
    ensures Lawful(s, start + Draws(t, n)) && Run(s, start + Draws(t, n)) == Drawn(s, t, k, n)
    decreases n
  {
    if n == 0 {
      assert start + Draws(t, 0) == start;
    } else {
      DrawRun(s, t, k, n - 1, start);
      OneDraw(s, t, k, n - 1);
      var pre := start + Draws(t, n - 1);
      NextDraw(t, n, start);
      ThenOne(s, pre, Assign(t), start + Draws(t, n), Drawn(s, t, k, n - 1), Drawn(s, t, k, n));
    }
  }

  lemma NextDraw(t: nat, n: nat, start: seq<Event>)
    requires n > 0
    ensures start + Draws(t, n) == start + Draws(t, n - 1) + [Assign(t)]
  {
  }

  lemma ThenOne(s: State, pre: seq<Event>, e: Event, post: seq<Event>, a: State, b: State)
    requires Lawful(s, pre) && Run(s, pre) == a && Enabled(a, e) && Next(a, e) == b && post == pre + [e]
    ensures Lawful(s, post) && Run(s, post) == b
  {
    RunAppend(s, pre, e);
  }

  /** With a valid key and room below the limit, the whole queue goes out in order under the next
      nonces, or is dropped if encryption does not take it. */
  lemma SoloSends(s: State, t: nat, k: Key, accepted: bool)
    requires t < |s.threads| && s.threads[t] == Idle && s.staged != []
    requires KeyOf(s, k).valid && KeyOf(s, k).drawn + |s.staged| <= 0x1_0000_0000_0000_0000 - 8130
    ensures var b, ks := s.staged, KeyOf(s, k);
            var es := [Steal(t), Check(t, Some(k), false)] + Draws(t, |b|) + [HandOver(t, accepted)];
            Lawful(s, es) &&
            Run(s, es) == s.(staged := [], keys := s.keys[k := ks.(drawn := ks.drawn + |b|)],
                             handed := s.handed + (if accepted then Zip(b, k, Consecutive(ks.drawn, |b|)) else []),
                             dropped := s.dropped + (if accepted then [] else b))
  {
    var b, start := s.staged, [Steal(t), Check(t, Some(k), false)];
    Loaded(s, t, k);
    DrawRun(s, t, k, |b|, start);
    RunAppend(s, start + Draws(t, |b|), HandOver(t, accepted));
    assert s.threads[t := Numbering(b, k, Consecutive(KeyOf(s, k).drawn, |b|))][t := Idle] == s.threads;
    assert s.handed + [] == s.handed && s.dropped + [] == s.dropped;
  }

  /** Past the limit the key is given up and the whole queue goes back. */
  lemma SoloRunsOut(s: State, t: nat, k: Key)
    requires t < |s.threads| && s.threads[t] == Idle && KeyOf(s, k).valid
    requires var d := KeyOf(s, k).drawn; d <= 0x1_0000_0000_0000_0000 - 8130 < d + |s.staged|
    ensures var b, ks := s.staged, KeyOf(s, k);
            var left := 0x1_0000_0000_0000_0000 - 8130 - ks.drawn;
            var es := [Steal(t), Check(t, Some(k), false)] + Draws(t, left) + [Assign(t)] + [Invalidate(t)] + [PutBack(t)];
            Lawful(s, es) && Run(s, es) == s.(keys := s.keys[k := KeyState(0x1_0000_0000_0000_0000 - 8129, false, ks.over + {t})])
  {
    var b, start := s.staged, [Steal(t), Check(t, Some(k), false)];
    var left := REJECT_AFTER_MESSAGES - KeyOf(s, k).drawn;
    Loaded(s, t, k);
    DrawRun(s, t, k, left, start);
    GivesUp(s, t, k, left);
    Append3(s, start + Draws(t, left), Assign(t), Invalidate(t), PutBack(t));
  }

  lemma Append3(s: State, es: seq<Event>, a: Event, b: Event, c: Event)
    requires Lawful(s, es) && Enabled(Run(s, es), a) && Enabled(Next(Run(s, es), a), b) && Enabled(Next(Next(Run(s, es), a), b), c)
    ensures Lawful(s, es + [a] + [b] + [c]) && Run(s, es + [a] + [b] + [c]) == Next(Next(Next(Run(s, es), a), b), c)
  {
    RunAppend(s, es, a);
    RunAppend(s, es + [a], b);
    RunAppend(s, es + [a] + [b], c);
  }

  /** The draw at the limit, and what follows. */
  lemma GivesUp(s: State, t: nat, k: Key, left: nat)
    requires t < |s.threads| && s.threads[t] == Idle && KeyOf(s, k).valid && left < |s.staged|
    requires KeyOf(s, k).drawn + left == REJECT_AFTER_MESSAGES
    ensures var d, ks := Drawn(s, t, k, left), KeyOf(s, k);
            && Enabled(d, Assign(t)) && Enabled(Next(d, Assign(t)), Invalidate(t))
            && Enabled(Next(Next(d, Assign(t)), Invalidate(t)), PutBack(t))
            && Next(Next(Next(d, Assign(t)), Invalidate(t)), PutBack(t)) ==
               s.(keys := s.keys[k := KeyState(REJECT_AFTER_MESSAGES + 1, false, ks.over + {t})])
  {
    var d, ks := Drawn(s, t, k, left), KeyOf(s, k);
    assert KeyOf(d, k) == ks.(drawn := REJECT_AFTER_MESSAGES);
    var d1 := Next(d, Assign(t));
    assert d1.threads == s.threads[t := Invalidating(s.staged, k)] && KeyOf(d1, k) == KeyState(REJECT_AFTER_MESSAGES + 1, true, ks.over + {t});
    var d2 := Next(d1, Invalidate(t));
    assert d2.threads[t := Idle] == s.threads && s.staged + [] == s.staged;
  }

  /** Without a usable key the queue is as it was; an expired key is given up. */
  lemma SoloReturns(s: State, t: nat, current: Option<Key>, expired: bool)
    requires t < |s.threads| && s.threads[t] == Idle && s.staged != []
    requires current.None? || !KeyOf(s, current.value).valid || expired
    ensures var dead := current.Some? && KeyOf(s, current.value).valid;
            var es := [Steal(t)] + [Check(t, current, expired)] + (if dead then [Invalidate(t)] else []) + [PutBack(t)];
            Lawful(s, es) && Run(s, es) == if dead then s.(keys := s.keys[current.value := KeyOf(s, current.value).(valid := false)]) else s
  {
    var dead := current.Some? && KeyOf(s, current.value).valid;
    var b := s.staged;
    RunAppend(s, [], Steal(t));
    assert [] + [Steal(t)] == [Steal(t)];
    RunAppend(s, [Steal(t)], Check(t, current, expired));
    var a := Run(s, [Steal(t)] + [Check(t, current, expired)]);
    var es := [Steal(t)] + [Check(t, current, expired)] + (if dead then [Invalidate(t)] else []);
    if dead {
      RunAppend(s, [Steal(t)] + [Check(t, current, expired)], Invalidate(t));
    } else {
      assert es == [Steal(t)] + [Check(t, current, expired)];
    }
    RunAppend(s, es, PutBack(t));
    assert Run(s, es).threads[t := Idle] == s.threads && b + [] == b;
  }

  // ---------------------------------------------------------------- the code

  /** One peer's staged queue and the sending half of one keypair, as one thread works on them. */
  class Sender {
    var staged: seq<Packet>
    var counter: nat
    var valid: bool
    var handed: seq<Sent>
    var dropped: seq<Packet>
    const key: Key

    constructor (key: Key)
      ensures staged == [] && counter == 0 && valid && handed == [] && dropped == [] && this.key == key
    {
      staged, counter, valid, handed, dropped := [], 0, true, [], [];
      this.key := key;
    }

    /** The queue part of `wg_xmit`: the oldest packets make room before the new ones are added. */
    method Enqueue(ps: seq<Packet>)
      modifies this`staged, this`dropped
      ensures staged == old(staged)[Excess(old(staged))..] + ps
      ensures staged == (if |old(staged)| <= 128 then old(staged) else old(staged)[|old(staged)| - 128..]) + ps
      ensures dropped == old(dropped) + old(staged)[..Excess(old(staged))]
    {
      ghost var n := 0;
      while |staged| > MAX_STAGED_PACKETS
        invariant n <= Excess(old(staged)) && staged == old(staged)[n..] && dropped == old(dropped) + old(staged)[..n]
      {
        dropped := dropped + [staged[0]];
        staged := staged[1..];
        n := n + 1;
      }
      staged := staged + ps;
    }

    /** `wg_packet_send_staged_packets` for the thread that finds this key current (or none): the
        whole queue is handed over under consecutive nonces, or all of it stays where it was. */
    method SendStaged(haveKey: bool, expired: bool, accepted: bool) returns (needHandshake: bool)
      requires counter < TWO64
      modifies this
      ensures var usable := haveKey && old(valid) && !expired;
              var fits := old(counter) + |old(staged)| <= REJECT_AFTER_MESSAGES;
              var n := |old(staged)|;
              && (n == 0 ==> staged == [] && valid == old(valid) && counter == old(counter) && !needHandshake)
              && (n > 0 ==> needHandshake == !(usable && fits))
              && (n > 0 && usable && fits ==> staged == [] && valid && counter == old(counter) + n)
              && (n > 0 && usable && fits && accepted ==>
                    handed == old(handed) + Zip(old(staged), key, seq(n, i => old(counter) + i)) && dropped == old(dropped))
              && (n > 0 && usable && fits && !accepted ==> handed == old(handed) && dropped == old(dropped) + old(staged))
              && (n > 0 && !(usable && fits) ==> staged == old(staged) && handed == old(handed) && dropped == old(dropped))
              && (n > 0 && !(usable && fits) ==> valid == (old(valid) && !(haveKey && (expired || !fits))))
    {
      var packets := staged;
      staged := [];
      if packets == [] { return false; }
      var failed := !haveKey || !valid;
      if !failed && expired {
        valid := false;
        failed := true;
      }
      var nonces: seq<nat> := [];
      ghost var start := counter;
      ghost var usable := !failed;
      while !failed && |nonces| < |packets|
        invariant |nonces| <= |packets| && staged == [] && handed == old(handed) && dropped == old(dropped)
        invariant !usable ==> failed && valid == (old(valid) && !(haveKey && expired))
        invariant usable && !failed ==> valid && counter == start + |nonces| < TWO64 && (nonces != [] ==> counter <= REJECT_AFTER_MESSAGES)
        invariant usable && failed ==> !valid && start + |packets| > REJECT_AFTER_MESSAGES
        invariant forall i :: 0 <= i < |nonces| ==> nonces[i] == start + i
        decreases !failed, |packets| - |nonces|
      {
        var nonce := counter;
        counter := (counter + 1) % TWO64;
        if nonce >= REJECT_AFTER_MESSAGES {
          valid := false;
          failed := true;
        } else {
          nonces := nonces + [nonce];
        }
      }
      if failed {
        staged := packets + staged;
        return true;
      }
      assert nonces == seq(|packets|, i => start + i);
      if accepted {
        handed := handed + Zip(packets, key, nonces);
      } else {
        dropped := dropped + packets;
      }
      return false;
    }
  }
}
