/** The per-source token bucket of the handshake rate limiter and its garbage collector.
    Times are boot-time nanoseconds in unsigned 64-bit arithmetic. */
module RateLimiter {
  import opened Common

  const NSEC_PER_SEC: nat := 1_000_000_000
  const PACKETS_PER_SECOND: nat := 20
  const PACKETS_BURSTABLE: nat := 5
  const PACKET_COST: nat := NSEC_PER_SEC / PACKETS_PER_SECOND
  const TOKEN_MAX: nat := PACKET_COST * PACKETS_BURSTABLE

  /** Boot time stays below half the 64-bit range (292 years). */
  const TIME_LIMIT: nat := TWO64 / 2

  datatype Entry = Entry(last: nat, tokens: nat)

  predicate EntryOk(e: Entry) {
    e.tokens <= TOKEN_MAX && e.last < TIME_LIMIT
  }

  function Min(a: nat, b: nat): (m: nat) {
    if a < b then a else b
  }

  // ---------------------------------------------------------------- one source

  /** Tokens after refilling, as computed with wrap-around. */
  function Refill(e: Entry, now: nat): (t: nat) {
    Min(TOKEN_MAX, (e.tokens + now - e.last) % TWO64)
  }

  /** With a clock that does not run backwards nothing wraps. */
  lemma RefillExact(e: Entry, now: nat)
    requires EntryOk(e) && e.last <= now < TIME_LIMIT
    ensures Refill(e, now) == Min(TOKEN_MAX, e.tokens + (now - e.last))
  {
  }

  /** `wg_ratelimiter_allow` for one source; no entry means a full bucket. */
  function Take(e: Option<Entry>, now: nat): (r: (bool, Entry)) {
    if e.None? then (true, Entry(now, TOKEN_MAX - PACKET_COST))
    else
      var t := Refill(e.value, now);
      if t >= PACKET_COST then (true, Entry(now, t - PACKET_COST)) else (false, Entry(now, t))
  }

  /** The answers to packets of one source at the given times, and how many are positive. */
  function Answers(e: Option<Entry>, ts: seq<nat>): (r: seq<bool>)
    ensures |r| == |ts|
    decreases |ts|
  {
    if ts == [] then [] else [Take(e, ts[0]).0] + Answers(Some(Take(e, ts[0]).1), ts[1..])
  }

  function Allowed(e: Option<Entry>, ts: seq<nat>): (n: nat)
    decreases |ts|
  {
    if ts == [] then 0
    else (if Take(e, ts[0]).0 then 1 else 0) + Allowed(Some(Take(e, ts[0]).1), ts[1..])
  }

  /** Tokens paid for the allowed packets. */
  function Spent(e: Option<Entry>, ts: seq<nat>): (n: nat)
    decreases |ts|
  {
    if ts == [] then 0
    else (if Take(e, ts[0]).0 then PACKET_COST else 0) + Spent(Some(Take(e, ts[0]).1), ts[1..])
  }

  lemma {:induction false} SpentIsAllowed(e: Option<Entry>, ts: seq<nat>)
    ensures Spent(e, ts) == Allowed(e, ts) * PACKET_COST
    decreases |ts|
  {
    if ts != [] {
      SpentIsAllowed(Some(Take(e, ts[0]).1), ts[1..]);
      OneMore(Allowed(Some(Take(e, ts[0]).1), ts[1..]), PACKET_COST);
    }
  }

  lemma OneMore(k: nat, cost: nat)
    ensures (1 + k) * cost == cost + k * cost
  {
  }

  /** Times from `from` on that never run backwards. */
  predicate Clock(from: nat, ts: seq<nat>) {
    && (forall i :: 0 <= i < |ts| ==> from <= ts[i] < TIME_LIMIT)
    && (forall i, j :: 0 <= i < j < |ts| ==> ts[i] <= ts[j])
  }

  lemma TakeOk(e: Option<Entry>, now: nat)
    requires now < TIME_LIMIT && (e.Some? ==> EntryOk(e.value) && e.value.last <= now)
    ensures EntryOk(Take(e, now).1) && Take(e, now).1.last == now
    ensures (if Take(e, now).0 then PACKET_COST else 0) + Take(e, now).1.tokens ==
            (if e.None? then TOKEN_MAX else Min(TOKEN_MAX, e.value.tokens + (now - e.value.last)))
  {
    if e.Some? { RefillExact(e.value, now); }
  }

  /** Tokens available when the packets start. */
  function Budget(e: Option<Entry>, now: nat): (t: nat) {
    if e.None? then TOKEN_MAX else Refill(e.value, now)
  }

  lemma {:induction false} TokensConserved(e: Option<Entry>, ts: seq<nat>, from: nat)
    requires ts != [] && Clock(from, ts) && (e.Some? ==> EntryOk(e.value) && e.value.last <= from)
    ensures Spent(e, ts) <= Budget(e, ts[0]) + (ts[|ts| - 1] - ts[0])
    decreases |ts|
  {
    TakeOk(e, ts[0]);
    var e' := Take(e, ts[0]).1;
    if e.Some? { RefillExact(e.value, ts[0]); }
    var rest := ts[1..];
    if |ts| > 1 {
      assert rest[0] == ts[1] && rest[|rest| - 1] == ts[|ts| - 1];
      ClockTail(from, ts);
      TokensConserved(Some(e'), rest, ts[0]);
      RefillExact(e', ts[1]);
    }
  }

  lemma ClockTail(from: nat, ts: seq<nat>)
    requires ts != [] && Clock(from, ts)
    ensures Clock(ts[0], ts[1..])
  {
    forall i | 0 <= i < |ts[1..]| ensures ts[0] <= ts[1..][i] < TIME_LIMIT {
      assert ts[1..][i] == ts[i + 1];
    }
  }

  /** In any stretch of time a source gets at most the burst plus the rate. */
  lemma RateBound(e: Option<Entry>, ts: seq<nat>, from: nat)
    requires ts != [] && Clock(from, ts) && (e.Some? ==> EntryOk(e.value) && e.value.last <= from)
    ensures Allowed(e, ts) <= 5 + (ts[|ts| - 1] - ts[0]) / 50_000_000
  {
    TokensConserved(e, ts, from);
    SpentIsAllowed(e, ts);
    if e.Some? { RefillExact(e.value, ts[0]); }
    DivideBound(Allowed(e, ts), ts[|ts| - 1] - ts[0]);
  }

  /** And it never gets less than the rate: packets at least 50 ms apart all pass. */
  lemma {:induction false} SpacedAllowed(e: Option<Entry>, ts: seq<nat>, from: nat)
    requires Clock(from, ts) && (e.Some? ==> EntryOk(e.value) && (ts != [] ==> e.value.last + 50_000_000 <= ts[0]))
    requires forall i :: 0 <= i < |ts| - 1 ==> ts[i] + 50_000_000 <= ts[i + 1]
    ensures forall i :: 0 <= i < |ts| ==> Answers(e, ts)[i]
    decreases |ts|
  {
    if ts != [] {
      if e.Some? { RefillExact(e.value, ts[0]); }
      ClockTail(from, ts);
      forall i | 0 <= i < |ts[1..]| - 1 ensures ts[1..][i] + 50_000_000 <= ts[1..][i + 1] {
        assert ts[i + 1] + 50_000_000 <= ts[i + 2];
      }
      SpacedAllowed(Some(Take(e, ts[0]).1), ts[1..], ts[0]);
    }
  }

  lemma DivideBound(n: nat, span: nat)
    requires n * PACKET_COST <= TOKEN_MAX + span
    ensures n <= PACKETS_BURSTABLE + span / PACKET_COST
  {
    var q := span / PACKET_COST;
    assert span < (q + 1) * PACKET_COST;
    assert n * PACKET_COST < (PACKETS_BURSTABLE + q + 1) * PACKET_COST;
  }

  // ---------------------------------------------------------------- forgetting an entry

  /** The bucket has refilled completely. */
  predicate Full(e: Entry, now: nat) {
    e.tokens + now >= TOKEN_MAX + e.last
  }

  lemma FullStays(e: Entry, now: nat, t: nat)
    requires EntryOk(e) && e.last <= now <= t < TIME_LIMIT && Full(e, now)
    ensures Take(Some(e), t) == Take(None, t)
  {
    RefillExact(e, t);
  }

  lemma FiveAtOnce(e: Entry, now: nat)
    requires EntryOk(e) && e.last <= now < TIME_LIMIT && !Full(e, now)
    ensures Answers(Some(e), [now, now, now, now, now]) != Answers(None, [now, now, now, now, now])
  {
    var ts := [now, now, now, now, now];
    CountAnswers(Some(e), ts);
    CountAnswers(None, ts);
    NotFive(e, ts, now);
    FreshBurst(now);
  }

  lemma NotFive(e: Entry, ts: seq<nat>, now: nat)
    requires EntryOk(e) && e.last <= now < TIME_LIMIT && !Full(e, now)
    requires ts != [] && Clock(now, ts) && ts[0] == ts[|ts| - 1] == now
    ensures Allowed(Some(e), ts) != 5
  {
    TokensConserved(Some(e), ts, now);
    SpentIsAllowed(Some(e), ts);
    RefillExact(e, now);
  }

  function Trues(r: seq<bool>): (n: nat) {
    if r == [] then 0 else (if r[0] then 1 else 0) + Trues(r[1..])
  }

  lemma {:induction false} CountAnswers(e: Option<Entry>, ts: seq<nat>)
    ensures Trues(Answers(e, ts)) == Allowed(e, ts)
    decreases |ts|
  {
    if ts != [] {
      CountAnswers(Some(Take(e, ts[0]).1), ts[1..]);
      assert Answers(e, ts)[1..] == Answers(Some(Take(e, ts[0]).1), ts[1..]);
    }
  }

  lemma FreshBurst(now: nat)
    requires now < TIME_LIMIT
    ensures Allowed(None, [now, now, now, now, now]) == 5
  {
    var e1 := Take(None, now).1;
    RefillExact(e1, now);
    var e2 := Take(Some(e1), now).1;
    RefillExact(e2, now);
    var e3 := Take(Some(e2), now).1;
    RefillExact(e3, now);
    var e4 := Take(Some(e3), now).1;
    RefillExact(e4, now);
    assert [now, now, now, now, now][1..] == [now, now, now, now];
    assert [now, now, now, now][1..] == [now, now, now];
    assert [now, now, now][1..] == [now, now];
    assert [now, now][1..] == [now] && [now][1..] == [];
    assert Allowed(Some(e4), [now]) == 1;
    assert Allowed(Some(e3), [now, now]) == 2;
    assert Allowed(Some(e2), [now, now, now]) == 3;
    assert Allowed(Some(e1), [now, now, now, now]) == 4;
  }

  /** Forgetting an entry at `now` changes no later answer exactly when its bucket is full. */
  lemma ForgettingInvisibleIffFull(e: Entry, now: nat)
    requires EntryOk(e) && e.last <= now < TIME_LIMIT
    ensures Full(e, now) <==> forall ts :: Clock(now, ts) ==> Answers(Some(e), ts) == Answers(None, ts)
  {
    if Full(e, now) {
      forall ts | Clock(now, ts) ensures Answers(Some(e), ts) == Answers(None, ts) {
        if ts != [] { FullStays(e, now, ts[0]); }
      }
    } else {
      FiveAtOnce(e, now);
      assert Clock(now, [now, now, now, now, now]);
    }
  }

  // ---------------------------------------------------------------- the collector

  /** The collector's test, with the clock value `g` it read when its pass began. */
  predicate Dropped(e: Entry, g: nat) {
    (g - e.last) % TWO64 > NSEC_PER_SEC
  }

  /** An entry not touched since the pass began is dropped only when its bucket is full ... */
  lemma DropsOnlyFull(e: Entry, g: nat, now: nat)
    requires EntryOk(e) && e.last <= g <= now < TIME_LIMIT && Dropped(e, g)
    ensures Full(e, now)
  {
  }

  /** ... but an entry touched after that is always dropped, because the subtraction wraps. */
  lemma TouchedEntryIsDropped(e: Entry, g: nat)
    requires EntryOk(e) && g < e.last
    ensures Dropped(e, g)
  {
    assert (g - e.last) % TWO64 == TWO64 + g - e.last;
  }

  /** What the wrap costs: a source that has just spent its burst is forgotten by a pass that
      began earlier, and gets a second burst in the same instant. */
  lemma TouchedEntryDoublesBurst(g: nat, now: nat)
    requires g < now < TIME_LIMIT
    ensures var burst := [now, now, now, now, now];
            && Allowed(None, burst) == 5
            && Dropped(EntryAfter(None, burst), g)
            && Allowed(Some(EntryAfter(None, burst)), burst) == 0
  {
    var burst := [now, now, now, now, now];
    FreshBurst(now);
    SpentIsAllowed(None, burst);
    TokensLeft(None, burst, now);
    var e := EntryAfter(None, burst);
    TouchedEntryIsDropped(e, g);
    TokensConserved(Some(e), burst, now);
    SpentIsAllowed(Some(e), burst);
    RefillExact(e, now);
  }

  function EntryAfter(e: Option<Entry>, ts: seq<nat>): (r: Entry)
    requires ts != []
    decreases |ts|
  {
    var e' := Take(e, ts[0]).1;
    if |ts| == 1 then e' else EntryAfter(Some(e'), ts[1..])
  }

  /** At one instant nothing is refilled, so the bucket loses exactly what was spent. */
  lemma {:induction false} TokensLeft(e: Option<Entry>, ts: seq<nat>, now: nat)
    requires now < TIME_LIMIT && ts != [] && forall i :: 0 <= i < |ts| ==> ts[i] == now
    requires e.Some? ==> EntryOk(e.value) && e.value.last == now
    ensures EntryOk(EntryAfter(e, ts)) && EntryAfter(e, ts).last == now
    ensures EntryAfter(e, ts).tokens + Spent(e, ts) == (if e.None? then TOKEN_MAX else e.value.tokens)
    decreases |ts|
  {
    TakeOk(e, now);
    var e' := Take(e, now).1;
    if |ts| > 1 { TokensLeft(Some(e'), ts[1..], now); }
  }

  // ---------------------------------------------------------------- the table

  datatype Family = V4 | V6 | OtherProtocol

  /** Who is limited: a network namespace and an address (the upper 64 bits of an IPv6 one). */
  datatype Source = Source(family: Family, net: nat, ip: nat)

  /** Entries in the hash table, and entries unlinked but not yet freed; both are counted. */
  datatype Table = Table(entries: map<Source, Entry>, pending: nat) {
    function Total(): nat { |entries| + pending }
  }

  function Get(m: map<Source, Entry>, s: Source): (e: Option<Entry>) {
    if s in m then Some(m[s]) else None
  }

  /** `wg_ratelimiter_allow`; `alloc` says whether the allocator would succeed. */
  function Allow(t: Table, s: Source, now: nat, alloc: bool, maxEntries: nat): (r: (bool, Table)) {
    if s.family.OtherProtocol? then (false, t)
    else if s !in t.entries && (t.Total() >= maxEntries || !alloc) then (false, t)
    else (Take(Get(t.entries, s), now).0, t.(entries := t.entries[s := Take(Get(t.entries, s), now).1]))
  }

  /** The entries one locked bucket visit of the collector unlinks. */
  predicate Victim(m: map<Source, Entry>, s: Source, hash: Source -> nat, bucket: nat, g: nat) {
    s in m && hash(s) == bucket && Dropped(m[s], g)
  }

  function Kept(m: map<Source, Entry>, hash: Source -> nat, bucket: nat, g: nat): (r: map<Source, Entry>) {
    map s | s in m && !Victim(m, s, hash, bucket, g) :: m[s]
  }

  function Sweep(t: Table, hash: Source -> nat, bucket: nat, g: nat): (r: Table)
    ensures r.Total() == t.Total()
  {
    var kept := Kept(t.entries, hash, bucket, g);
    assert kept.Keys <= t.entries.Keys;
    KeysShrink(kept, t.entries);
    Table(kept, t.pending + (|t.entries| - |kept|))
  }

  lemma KeysShrink(a: map<Source, Entry>, b: map<Source, Entry>)
    requires a.Keys <= b.Keys
    ensures |a| <= |b|
  {
    SubsetSize(a.Keys, b.Keys);
    assert |a| == |a.Keys| && |b| == |b.Keys|;
  }

  lemma SubsetSize(a: set<Source>, b: set<Source>)
    requires a <= b
    ensures |a| <= |b|
  {
    assert b == a + (b - a);
  }

  /** A table that keeps the same total and exactly the spared entries is the swept one. */
  lemma SweepIs(t: Table, r: Table, hash: Source -> nat, bucket: nat, g: nat)
    ensures r.Total() == t.Total() && r.entries == Kept(t.entries, hash, bucket, g) ==> r == Sweep(t, hash, bucket, g)
  {
  }

  // ---------------------------------------------------------------- whole runs

  datatype Event =
    | Packet(src: Source, now: nat, alloc: bool)
    | Visit(bucket: nat, g: nat, now: nat)
    | EntryFree(now: nat)

  datatype Config = Config(hash: Source -> nat, maxEntries: nat)

  function Step(t: Table, e: Event, c: Config): (r: Table) {
    match e
    case Packet(s, now, alloc) => Allow(t, s, now, alloc, c.maxEntries).1
    case Visit(b, g, _) => Sweep(t, c.hash, b, g)
    case EntryFree(_) => if t.pending == 0 then t else t.(pending := t.pending - 1)
  }

  /** The packets' answers: with the collector, and from the limiter that keeps every entry. */
  function RunAnswers(t: Table, es: seq<Event>, c: Config): (r: seq<bool>)
    decreases |es|
  {
    if es == [] then []
    else (if es[0].Packet? then [Allow(t, es[0].src, es[0].now, es[0].alloc, c.maxEntries).0] else [])
         + RunAnswers(Step(t, es[0], c), es[1..], c)
  }

  function Remember(m: map<Source, Entry>, e: Event): (r: map<Source, Entry>) {
    if e.Packet? && !e.src.family.OtherProtocol? then m[e.src := Take(Get(m, e.src), e.now).1] else m
  }

  function IdealAnswers(m: map<Source, Entry>, es: seq<Event>): (r: seq<bool>)
    decreases |es|
  {
    if es == [] then []
    else (if es[0].Packet? then [!es[0].src.family.OtherProtocol? && Take(Get(m, es[0].src), es[0].now).0] else [])
         + IdealAnswers(Remember(m, es[0]), es[1..])
  }

  /** A visit spares every entry touched since its pass read the clock, unless its bucket is full. */
  predicate Careful(t: Table, b: nat, g: nat, now: nat, hash: Source -> nat) {
    forall s :: s in t.entries && hash(s) == b && g < t.entries[s].last ==> Full(t.entries[s], now)
  }

  /** What the promise asks of one event: room for a new entry, a careful visit. */
  predicate Smooth(t: Table, e: Event, c: Config) {
    match e
    case Packet(s, _, alloc) => s.family.OtherProtocol? || s in t.entries || (t.Total() < c.maxEntries && alloc)
    case Visit(b, g, now) => g <= now && Careful(t, b, g, now, c.hash)
    case EntryFree(_) => true
  }

  /** Time runs forward and every event is smooth. */
  predicate Calm(t: Table, es: seq<Event>, from: nat, c: Config)
    decreases |es|
  {
    es == [] ||
    (from <= es[0].now < TIME_LIMIT && Smooth(t, es[0], c) && Calm(Step(t, es[0], c), es[1..], es[0].now, c))
  }

  predicate Sane(m: map<Source, Entry>, now: nat) {
    forall s :: s in m ==> EntryOk(m[s]) && m[s].last <= now
  }

  /** The collected table agrees with the ideal one, except for entries whose bucket is full. */
  ghost predicate Agrees(m: map<Source, Entry>, ideal: map<Source, Entry>, now: nat) {
    && m.Keys <= ideal.Keys
    && (forall s :: s in m ==> m[s] == ideal[s])
    && (forall s :: s in ideal && s !in m ==> Full(ideal[s], now))
  }

  lemma Later(m: map<Source, Entry>, ideal: map<Source, Entry>, now: nat, t: nat)
    requires Agrees(m, ideal, now) && Sane(ideal, now) && now <= t
    ensures Agrees(m, ideal, t) && Sane(ideal, t)
  {
  }

  lemma PacketAgrees(t: Table, ideal: map<Source, Entry>, e: Event, c: Config)
    requires e.Packet? && e.now < TIME_LIMIT && Agrees(t.entries, ideal, e.now) && Sane(ideal, e.now) && Smooth(t, e, c)
    ensures Agrees(Step(t, e, c).entries, Remember(ideal, e), e.now) && Sane(Remember(ideal, e), e.now)
    ensures Allow(t, e.src, e.now, e.alloc, c.maxEntries).0 ==
            (!e.src.family.OtherProtocol? && Take(Get(ideal, e.src), e.now).0)
  {
    TakeOk(Get(ideal, e.src), e.now);
    if e.src in ideal && e.src !in t.entries { FullStays(ideal[e.src], e.now, e.now); }
    assert Take(Get(t.entries, e.src), e.now) == Take(Get(ideal, e.src), e.now);
  }

  lemma VisitAgrees(t: Table, ideal: map<Source, Entry>, e: Event, c: Config)
    requires e.Visit? && e.now < TIME_LIMIT && Agrees(t.entries, ideal, e.now) && Sane(ideal, e.now) && Smooth(t, e, c)
    ensures Agrees(Step(t, e, c).entries, ideal, e.now)
  {
    forall s | Victim(t.entries, s, c.hash, e.bucket, e.g) ensures Full(ideal[s], e.now) {
      if t.entries[s].last <= e.g { DropsOnlyFull(t.entries[s], e.g, e.now); }
    }
  }

  /** Collection is invisible: however packets, bucket visits and deferred frees interleave,
      every answer is that of a limiter that never forgets. */
  lemma {:induction false} CollectionInvisible(t: Table, ideal: map<Source, Entry>, es: seq<Event>, from: nat, c: Config)
    requires Calm(t, es, from, c) && Agrees(t.entries, ideal, from) && Sane(ideal, from)
    ensures RunAnswers(t, es, c) == IdealAnswers(ideal, es)
    decreases |es|
  {
    if es != [] {
      var e := es[0];
      Later(t.entries, ideal, from, e.now);
      if e.Packet? { PacketAgrees(t, ideal, e, c); }
      if e.Visit? { VisitAgrees(t, ideal, e, c); }
      CollectionInvisible(Step(t, e, c), Remember(ideal, e), es[1..], e.now, c);
    }
  }

  /** The condition on a visit is exact: it changes no later answer of any source if and only
      if every touched entry it reaches has a full bucket. */
  lemma VisitInvisibleIff(t: Table, b: nat, g: nat, now: nat, hash: Source -> nat)
    requires Sane(t.entries, now) && g <= now < TIME_LIMIT
    ensures Careful(t, b, g, now, hash) <==>
            forall s, ts :: Clock(now, ts) ==>
              Answers(Get(t.entries, s), ts) == Answers(Get(Sweep(t, hash, b, g).entries, s), ts)
  {
    var after := Sweep(t, hash, b, g).entries;
    if Careful(t, b, g, now, hash) {
      forall s, ts | Clock(now, ts) ensures Answers(Get(t.entries, s), ts) == Answers(Get(after, s), ts) {
        if Victim(t.entries, s, hash, b, g) {
          if t.entries[s].last <= g { DropsOnlyFull(t.entries[s], g, now); }
          ForgettingInvisibleIffFull(t.entries[s], now);
        }
      }
    } else {
      var s :| s in t.entries && hash(s) == b && g < t.entries[s].last && !Full(t.entries[s], now);
      TouchedEntryIsDropped(t.entries[s], g);
      assert Victim(t.entries, s, hash, b, g) && s !in after;
      FiveAtOnce(t.entries[s], now);
      var five := [now, now, now, now, now];
      assert Clock(now, five);
      assert Answers(Get(t.entries, s), five) != Answers(Get(after, s), five);
    }
  }

  // ---------------------------------------------------------------- the rate over a run

  /** Arrival times of one source's packets, and how many of them a run lets through. */
  function Times(es: seq<Event>, s: Source): (r: seq<nat>) {
    if es == [] then []
    else (if es[0].Packet? && es[0].src == s then [es[0].now] else []) + Times(es[1..], s)
  }

  function Passed(t: Table, es: seq<Event>, s: Source, c: Config): (n: nat)
    decreases |es|
  {
    if es == [] then 0
    else (if es[0].Packet? && es[0].src == s && Allow(t, s, es[0].now, es[0].alloc, c.maxEntries).0 then 1 else 0)
         + Passed(Step(t, es[0], c), es[1..], s, c)
  }

  lemma {:induction false} TimesAreAClock(t: Table, es: seq<Event>, from: nat, c: Config, s: Source)
    requires Calm(t, es, from, c)
    ensures Clock(from, Times(es, s))
    decreases |es|
  {
    if es != [] { TimesAreAClock(Step(t, es[0], c), es[1..], es[0].now, c, s); }
  }

  lemma {:induction false} PassedIsAllowed(t: Table, ideal: map<Source, Entry>, es: seq<Event>, from: nat, c: Config, s: Source)
    requires Calm(t, es, from, c) && Agrees(t.entries, ideal, from) && Sane(ideal, from) && !s.family.OtherProtocol?
    ensures Passed(t, es, s, c) == Allowed(Get(ideal, s), Times(es, s))
    decreases |es|
  {
    if es != [] {
      var e := es[0];
      Later(t.entries, ideal, from, e.now);
      if e.Packet? { PacketAgrees(t, ideal, e, c); }
      if e.Visit? { VisitAgrees(t, ideal, e, c); }
      PassedIsAllowed(Step(t, e, c), Remember(ideal, e), es[1..], e.now, c, s);
      if e.Packet? && e.src == s {
        assert Times(es, s)[1..] == Times(es[1..], s);
      } else {
        assert Times(es, s) == Times(es[1..], s);
      }
    }
  }

  /** Between its first and last packet a source gets at most five packets plus twenty a second,
      with the collector at work. */
  lemma RunRateBound(t: Table, es: seq<Event>, from: nat, c: Config, s: Source)
    requires Calm(t, es, from, c) && Sane(t.entries, from) && !s.family.OtherProtocol? && Times(es, s) != []
    ensures var ts := Times(es, s);
            Clock(from, ts) && Passed(t, es, s, c) <= 5 + (ts[|ts| - 1] - ts[0]) / 50_000_000
  {
    TimesAreAClock(t, es, from, c, s);
    PassedIsAllowed(t, t.entries, es, from, c, s);
    RateBound(Get(t.entries, s), Times(es, s), from);
  }

  /** The counter of entries never exceeds its limit. */
  lemma {:induction false} EntriesBounded(t: Table, es: seq<Event>, c: Config)
    requires t.Total() <= c.maxEntries
    ensures RunTable(t, es, c).Total() <= c.maxEntries
    decreases |es|
  {
    if es != [] {
      var e := es[0];
      if e.Packet? && e.src in t.entries {
        assert t.entries[e.src := Take(Get(t.entries, e.src), e.now).1].Keys == t.entries.Keys;
        KeysShrink(t.entries[e.src := Take(Get(t.entries, e.src), e.now).1], t.entries);
      }
      EntriesBounded(Step(t, e, c), es[1..], c);
    }
  }

  function RunTable(t: Table, es: seq<Event>, c: Config): (r: Table)
    decreases |es|
  {
    if es == [] then t else RunTable(Step(t, es[0], c), es[1..], c)
  }

  // ---------------------------------------------------------------- the code

  class Limiter {
    var entries: map<Source, Entry>
    var pending: nat
    var total: nat
    const config: Config
    const tableSize: nat

    ghost predicate Valid() reads this {
      total == |entries| + pending && total <= config.maxEntries &&
      forall s :: config.hash(s) < tableSize
    }

    ghost function State(): Table reads this { Table(entries, pending) }

    constructor (hash: Source -> nat, size: nat)
      requires forall s :: hash(s) < size
      ensures Valid() && State() == Table(map[], 0) && config == Config(hash, size * 8) && tableSize == size
    {
      entries := map[];
      pending, total := 0, 0;
      config := Config(hash, size * 8);
      tableSize := size;
    }

    /** The counter is raised before the limit and the allocation are looked at, and lowered
        again on failure. */
    method Check(s: Source, now: nat, alloc: bool) returns (ok: bool)
      requires Valid()
      modifies this
      ensures Valid()
      ensures (ok, State()) == Allow(old(State()), s, now, alloc, config.maxEntries)
      ensures s.family.OtherProtocol? ==> !ok && entries == old(entries)
      ensures !s.family.OtherProtocol? && s !in old(entries) ==>
        && (ok <==> alloc && old(total) < config.maxEntries)
        && entries == if ok then old(entries)[s := Entry(now, 200_000_000)] else old(entries)
      ensures !s.family.OtherProtocol? && s in old(entries) && EntryOk(old(entries)[s]) && old(entries)[s].last <= now < TIME_LIMIT ==>
        var tokens := Min(250_000_000, old(entries)[s].tokens + (now - old(entries)[s].last));
        && (ok <==> tokens >= 50_000_000)
        && entries == old(entries)[s := Entry(now, if ok then tokens - 50_000_000 else tokens)]
    {
      if s.family.OtherProtocol? { return false; }
      if s in entries {
        var e := entries[s];
        var tokens := Min(TOKEN_MAX, (e.tokens + now - e.last) % TWO64);
        ok := tokens >= PACKET_COST;
        var left := if ok then tokens - PACKET_COST else tokens;
        entries := entries[s := Entry(now, left)];
        assert entries.Keys == old(entries).Keys;
        assert |entries| == |entries.Keys| && |old(entries)| == |old(entries).Keys|;
        return ok;
      }
      total := total + 1;
      if total > config.maxEntries || !alloc {
        total := total - 1;
        return false;
      }
      entries := entries[s := Entry(now, TOKEN_MAX - PACKET_COST)];
      return true;
    }

    /** One pass of the collector with nothing running in between; `all` is the teardown form. */
    method Collect(g: nat, all: bool)
      requires Valid()
      modifies this`entries, this`pending
      ensures Valid() && total == old(total)
      ensures entries == map s | s in old(entries) && !all && !Dropped(old(entries)[s], g) :: old(entries)[s]
      ensures forall s :: s in old(entries) && !all && g < TWO64 && old(entries)[s].last <= g ==>
                (s in entries <==> g - old(entries)[s].last <= 1_000_000_000)
      ensures all ==> entries == map[]
    {
      var i := 0;
      while i < tableSize
        invariant i <= tableSize && Valid() && total == old(total)
        invariant entries == map s | s in old(entries) &&
                    !(config.hash(s) < i && (all || Dropped(old(entries)[s], g))) :: old(entries)[s]
      {
        VisitBucket(i, g, all);
        i := i + 1;
      }
    }

    /** One locked visit: the bucket's list is walked and the entries that fail the test are
        unlinked one by one; each stays counted until it is freed. */
    method VisitBucket(i: nat, g: nat, all: bool)
      requires Valid()
      modifies this`entries, this`pending
      ensures Valid() && total == old(total)
      ensures !all ==> State() == Sweep(old(State()), config.hash, i, g)
      ensures entries == map s | s in old(entries) && !(config.hash(s) == i && (all || Dropped(old(entries)[s], g))) :: old(entries)[s]
    {
      var todo := set s | s in entries && config.hash(s) == i;
      while todo != {}
        invariant Valid() && total == old(total)
        invariant forall s :: s in todo ==> s in entries && config.hash(s) == i
        invariant forall s :: s in entries ==> s in old(entries) && entries[s] == old(entries)[s]
        invariant forall s :: s in old(entries) ==>
                    (s in entries <==> s in todo || !(config.hash(s) == i && (all || Dropped(old(entries)[s], g))))
        decreases todo
      {
        var s :| s in todo;
        if all || Dropped(entries[s], g) {
          Unlink(s);
        }
        todo := todo - {s};
      }
      SweepIs(old(State()), State(), config.hash, i, g);
    }

    method Unlink(s: Source)
      requires Valid() && s in entries
      modifies this`entries, this`pending
      ensures Valid() && entries == old(entries) - {s} && pending == old(pending) + 1
    {
      var rest := entries - {s};
      assert entries.Keys == rest.Keys + {s};
      assert |entries| == |entries.Keys| && |rest| == |rest.Keys|;
      entries := rest;
      pending := pending + 1;
    }

    method FreeOne()
      requires Valid() && pending > 0
      modifies this`pending, this`total
      ensures Valid() && State() == old(State()).(pending := old(pending) - 1)
    {
      pending := pending - 1;
      total := total - 1;
    }
  }
}
