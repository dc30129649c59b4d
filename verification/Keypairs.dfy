/** The three session-key slots of a peer and the reference counts of their keypairs.
    A keypair is referenced by the slot it sits in and by every packet in flight under it. */
module Keypairs {
  import opened Common

  type Kid = nat

  datatype Slots = Slots(current: Option<Kid>, previous: Option<Kid>, next: Option<Kid>)

  /** The keypairs themselves: reference counters, which of them incoming packets can find
      through the index table, and the frees that happened. */
  datatype Pool = Pool(refs: map<Kid, nat>, indexed: set<Kid>, freed: seq<Kid>)

  predicate DistinctSlots(s: Slots) {
    && (s.current.Some? ==> s.current != s.previous && s.current != s.next)
    && (s.previous.Some? ==> s.previous != s.next)
  }

  function Ref(x: Option<Kid>): (m: multiset<Kid>) {
    if x.Some? then multiset{x.value} else multiset{}
  }

  /** One reference per occupied slot. */
  function SlotRefs(s: Slots): (m: multiset<Kid>) {
    Ref(s.current) + Ref(s.previous) + Ref(s.next)
  }

  predicate InSlot(s: Slots, k: Kid) {
    s.current == Some(k) || s.previous == Some(k) || s.next == Some(k)
  }

  ghost predicate RefOk(p: Pool, existing: multiset<Kid>, k: Kid) {
    && (k in p.refs ==> p.refs[k] == existing[k])
    && (k !in p.refs ==> existing[k] == 0)
    && (k in p.freed <==> k in p.refs && p.refs[k] == 0)
  }

  /** The counters equal the references that exist, and a keypair has been freed, once,
      exactly when none is left. */
  ghost predicate Accounted(p: Pool, existing: multiset<Kid>) {
    (forall k :: RefOk(p, existing, k)) && NoDup(p.freed)
  }

  // ---------------------------------------------------------------- reference counting

  /** `wg_noise_keypair_put`: the last reference frees the keypair. */
  function Put(p: Pool, x: Option<Kid>, unreferenceNow: bool): (r: Pool) {
    if x.None? || x.value !in p.refs || p.refs[x.value] == 0 then p
    else
      var k := x.value;
      var q := if unreferenceNow then p.(indexed := p.indexed - {k}) else p;
      var r := q.(refs := q.refs[k := q.refs[k] - 1]);
      if r.refs[k] == 0 then r.(indexed := r.indexed - {k}, freed := r.freed + [k]) else r
  }

  lemma PutAccounts(p: Pool, x: Option<Kid>, u: bool, rest: multiset<Kid>, all: multiset<Kid>)
    requires Accounted(p, all) && all == rest + Ref(x)
    ensures x.Some? ==> x.value in p.refs && p.refs[x.value] > 0   // no counter underflows
    ensures Accounted(Put(p, x, u), rest)
    ensures Put(p, x, u).refs.Keys == p.refs.Keys && p.freed <= Put(p, x, u).freed
    ensures Put(p, x, u).indexed <= p.indexed && (u && x.Some? ==> x.value !in Put(p, x, u).indexed)
  {
    if x.None? {
      assert rest == all;
    } else {
      assert RefOk(p, all, x.value);
      forall k ensures RefOk(Put(p, x, u), rest, k) { assert RefOk(p, all, k); }
    }
  }

  lemma GetAccounts(p: Pool, k: Kid, all: multiset<Kid>)
    requires Accounted(p, all) && k in p.refs && p.refs[k] > 0
    ensures Accounted(p.(refs := p.refs[k := p.refs[k] + 1]), all + multiset{k})
  {
    var q := p.(refs := p.refs[k := p.refs[k] + 1]);
    forall j ensures RefOk(q, all + multiset{k}, j) { assert RefOk(p, all, j); }
  }

  lemma NewAccounts(p: Pool, k: Kid, all: multiset<Kid>)
    requires Accounted(p, all) && k !in p.refs
    ensures Accounted(p.(refs := p.refs[k := 1]), all + multiset{k})
  {
    var q := p.(refs := p.refs[k := 1]);
    assert RefOk(p, all, k);
    forall j ensures RefOk(q, all + multiset{k}, j) { assert RefOk(p, all, j); }
  }

  // ---------------------------------------------------------------- slots

  /** Where the slots go: a new keypair of an initiator, of a responder, a confirmation. */
  function AfterInitiator(s: Slots, k: Kid): (r: Slots) {
    Slots(Some(k), if s.next.Some? then s.next else s.current, None)
  }

  function AfterResponder(s: Slots, k: Kid): (r: Slots) {
    Slots(s.current, None, Some(k))
  }

  function AfterConfirm(s: Slots): (r: Slots) {
    Slots(s.next, s.current, None)
  }

  /** The references dropped on each transition are exactly those of the keypairs leaving. */
  lemma InitiatorRefs(s: Slots, k: Kid, base: multiset<Kid>)
    ensures s.next.Some? ==>
      SlotRefs(s) + base + multiset{k} == (SlotRefs(AfterInitiator(s, k)) + base) + Ref(s.previous) + Ref(s.current)
    ensures s.next.None? ==>
      SlotRefs(s) + base + multiset{k} == (SlotRefs(AfterInitiator(s, k)) + base) + Ref(s.previous)
  {
  }

  lemma ResponderRefs(s: Slots, k: Kid, base: multiset<Kid>)
    ensures SlotRefs(s) + base + multiset{k} == (SlotRefs(AfterResponder(s, k)) + base) + Ref(s.previous) + Ref(s.next)
  {
  }

  lemma ConfirmRefs(s: Slots, base: multiset<Kid>)
    ensures SlotRefs(s) + base == (SlotRefs(AfterConfirm(s)) + base) + Ref(s.previous)
  {
  }

  lemma ClearRefs(s: Slots, base: multiset<Kid>)
    ensures SlotRefs(s) + base == base + Ref(s.current) + Ref(s.previous) + Ref(s.next)
  {
  }

  /** Slots are distinct, only keypairs in a slot can be found by incoming packets, and the
      current one is usable: this side initiated it, or a packet arrived under it. */
  ghost predicate Sound(s: Slots, p: Pool, next: Kid, initiator: map<Kid, bool>, confirmed: set<Kid>) {
    && DistinctSlots(s)
    && (forall k :: k in p.indexed ==> InSlot(s, k))
    && (forall k :: k in p.refs ==> k < next && k in initiator)
    && (s.current.Some? ==>
          (s.current.value in initiator && (initiator[s.current.value] || s.current.value in confirmed)))
  }

  /** One peer's keypairs as a value. */
  datatype Table = Table(slots: Slots, pool: Pool, initiator: map<Kid, bool>, next: Kid,
                         inflight: multiset<Kid>, confirmed: set<Kid>)

  ghost predicate Valid(t: Table) {
    && Sound(t.slots, t.pool, t.next, t.initiator, t.confirmed)
    && Accounted(t.pool, SlotRefs(t.slots) + t.inflight)
  }

  /** A keypair about to be installed: one reference, not in a slot, not indexed. */
  ghost predicate Installing(t: Table, k: Kid) {
    && Sound(t.slots, t.pool, t.next, t.initiator, t.confirmed) && k in t.initiator && !InSlot(t.slots, k)
    && Accounted(t.pool, SlotRefs(t.slots) + t.inflight + multiset{k})
  }

  lemma InitiatorDone(t: Table, k: Kid, p: Pool)
    requires Installing(t, k) && t.initiator[k]
    requires var q := if t.slots.next.Some? then Put(t.pool, t.slots.current, true) else t.pool;
             p == Put(q, t.slots.previous, true)
    ensures Valid(t.(slots := AfterInitiator(t.slots, k), pool := p)) && p.refs.Keys == t.pool.refs.Keys && t.pool.freed <= p.freed
  {
    var s := t.slots;
    var rest := SlotRefs(AfterInitiator(s, k)) + t.inflight;
    InitiatorRefs(s, k, t.inflight);
    if s.next.Some? {
      PutAccounts(t.pool, s.current, true, rest + Ref(s.previous), SlotRefs(s) + t.inflight + multiset{k});
    }
    var q := if s.next.Some? then Put(t.pool, s.current, true) else t.pool;
    PutAccounts(q, s.previous, true, rest, rest + Ref(s.previous));
  }

  lemma ResponderDone(t: Table, k: Kid, p: Pool)
    requires Installing(t, k) && !t.initiator[k]
    requires p == Put(Put(t.pool, t.slots.next, true), t.slots.previous, true)
    ensures Valid(t.(slots := AfterResponder(t.slots, k), pool := p)) && p.refs.Keys == t.pool.refs.Keys && t.pool.freed <= p.freed
  {
    var s := t.slots;
    var rest := SlotRefs(AfterResponder(s, k)) + t.inflight;
    ResponderRefs(s, k, t.inflight);
    PutAccounts(t.pool, s.next, true, rest + Ref(s.previous), SlotRefs(s) + t.inflight + multiset{k});
    PutAccounts(Put(t.pool, s.next, true), s.previous, true, rest, rest + Ref(s.previous));
  }

  lemma ConfirmDone(t: Table, k: Kid)
    requires Valid(t) && t.slots.next == Some(k)
    ensures Valid(t.(slots := AfterConfirm(t.slots), pool := Put(t.pool, t.slots.previous, true),
                     confirmed := t.confirmed + {k}))
    ensures t.pool.freed <= Put(t.pool, t.slots.previous, true).freed
  {
    var s, all := t.slots, SlotRefs(t.slots) + t.inflight;
    SlotMember(s, k);
    assert RefOk(t.pool, all, k);
    ConfirmRefs(s, t.inflight);
    PutAccounts(t.pool, s.previous, true, SlotRefs(AfterConfirm(s)) + t.inflight, all);
  }

  lemma ClearDone(t: Table, p: Pool)
    requires Valid(t) && p == Put(Put(Put(t.pool, t.slots.next, true), t.slots.previous, true), t.slots.current, true)
    ensures Valid(t.(slots := Slots(None, None, None), pool := p)) && p.indexed == {} && t.pool.freed <= p.freed
    ensures forall k :: k in p.refs ==> (k in p.freed <==> k !in t.inflight)
  {
    var base := t.inflight;
    ClearPuts(t.pool, t.slots, base, p);
    assert SlotRefs(Slots(None, None, None)) + base == base;
    forall k ensures k !in p.indexed {
      assert k in t.pool.indexed ==> InSlot(t.slots, k);
    }
    forall k | k in p.refs ensures k in p.freed <==> k !in base { assert RefOk(p, base, k); }
  }

  lemma ClearPuts(p0: Pool, s: Slots, base: multiset<Kid>, p: Pool)
    requires Accounted(p0, SlotRefs(s) + base) && p == Put(Put(Put(p0, s.next, true), s.previous, true), s.current, true)
    ensures Accounted(p, base) && p.refs.Keys == p0.refs.Keys && p0.freed <= p.freed && p.indexed <= p0.indexed
    ensures forall k :: InSlot(s, k) ==> k !in p.indexed
  {
    ClearRefs(s, base);
    var p1 := Put(p0, s.next, true);
    var p2 := Put(p1, s.previous, true);
    PutAccounts(p0, s.next, true, base + Ref(s.current) + Ref(s.previous), SlotRefs(s) + base);
    PutAccounts(p1, s.previous, true, base + Ref(s.current), base + Ref(s.current) + Ref(s.previous));
    PutAccounts(p2, s.current, true, base, base + Ref(s.current));
  }

  lemma GetDone(t: Table, k: Kid)
    requires Valid(t) && k in t.pool.refs
    ensures t.pool.refs[k] == 0 <==> k in t.pool.freed
    ensures t.pool.refs[k] > 0 ==>
      Valid(t.(pool := t.pool.(refs := t.pool.refs[k := t.pool.refs[k] + 1]), inflight := t.inflight + multiset{k}))
  {
    var all := SlotRefs(t.slots) + t.inflight;
    assert RefOk(t.pool, all, k);
    if t.pool.refs[k] > 0 {
      GetAccounts(t.pool, k, all);
      assert SlotRefs(t.slots) + (t.inflight + multiset{k}) == all + multiset{k};
    }
  }

  lemma ReleaseDone(t: Table, k: Kid)
    requires Valid(t) && k in t.inflight
    ensures var r := t.(pool := Put(t.pool, Some(k), false), inflight := t.inflight - multiset{k});
            && Valid(r) && t.pool.freed <= r.pool.freed
            && (k in r.pool.freed <==> !InSlot(r.slots, k) && k !in r.inflight)
  {
    var rest := SlotRefs(t.slots) + (t.inflight - multiset{k});
    assert SlotRefs(t.slots) + t.inflight == rest + multiset{k};
    PutAccounts(t.pool, Some(k), false, rest, SlotRefs(t.slots) + t.inflight);
    SlotMember(t.slots, k);
    var p := Put(t.pool, Some(k), false);
    assert RefOk(p, rest, k);
  }

  lemma CreateDone(t: Table, a: bool)
    requires Valid(t)
    ensures t.next !in t.pool.refs
    ensures Installing(t.(pool := t.pool.(refs := t.pool.refs[t.next := 1]), next := t.next + 1,
                          initiator := t.initiator[t.next := a]), t.next)
  {
    var k, all := t.next, SlotRefs(t.slots) + t.inflight;
    NewAccounts(t.pool, k, all);
    assert RefOk(t.pool, all, k);
    SlotMember(t.slots, k);
    if t.slots.current.Some? {
      SlotMember(t.slots, t.slots.current.value);
      assert RefOk(t.pool, all, t.slots.current.value);
    }
  }

  lemma IndexDone(t: Table, k: Kid)
    requires Valid(t) && InSlot(t.slots, k)
    ensures Valid(t.(pool := t.pool.(indexed := t.pool.indexed + {k})))
  {
    var all := SlotRefs(t.slots) + t.inflight;
    var q := t.pool.(indexed := t.pool.indexed + {k});
    forall j ensures RefOk(q, all, j) { assert RefOk(t.pool, all, j); }
  }

  function Empty(): (t: Table) {
    Table(Slots(None, None, None), Pool(map[], {}, []), map[], 0, multiset{}, {})
  }

  // ---------------------------------------------------------------- what each event does

  datatype Event =
    | Session(asInitiator: bool, dead: bool, hashed: bool)
    | Acquire(k: Kid)   // a packet takes a reference
    | Arrive(k: Kid)    // an authenticated packet arrived under `k`
    | Done(k: Kid)      // a packet drops its reference
    | Wipe

  /** The references that a new keypair of either role pushes out. */
  function Installed(p: Pool, s: Slots, asInitiator: bool): (r: Pool) {
    if asInitiator then Put(if s.next.Some? then Put(p, s.current, true) else p, s.previous, true)
    else Put(Put(p, s.next, true), s.previous, true)
  }

  /** A fresh keypair with one reference, and the table with it in its slot. */
  function Created(t: Table, asInitiator: bool): (r: Table) {
    t.(pool := t.pool.(refs := t.pool.refs[t.next := 1]), initiator := t.initiator[t.next := asInitiator], next := t.next + 1)
  }

  function Placed(t: Table, k: Kid, asInitiator: bool): (r: Table) {
    t.(slots := if asInitiator then AfterInitiator(t.slots, k) else AfterResponder(t.slots, k),
       pool := Installed(t.pool, t.slots, asInitiator))
  }

  function Indexed(t: Table, k: Kid): (r: Table) {
    t.(pool := t.pool.(indexed := t.pool.indexed + {k}))
  }

  /** The table after an event; events of packets that do not exist change nothing. */
  function Next(t: Table, e: Event): (r: Table) {
    match e
    case Session(asInitiator, dead, hashed) =>
      if dead then t
      else
        var r := Placed(Created(t, asInitiator), t.next, asInitiator);
        if hashed then Indexed(r, t.next) else r
    case Acquire(k) =>
      if k !in t.pool.refs || t.pool.refs[k] == 0 then t
      else t.(pool := t.pool.(refs := t.pool.refs[k := t.pool.refs[k] + 1]), inflight := t.inflight + multiset{k})
    case Arrive(k) =>
      if k !in t.inflight then t
      else if t.slots.next != Some(k) then t.(confirmed := t.confirmed + {k})
      else t.(slots := AfterConfirm(t.slots), pool := Put(t.pool, t.slots.previous, true), confirmed := t.confirmed + {k})
    case Done(k) =>
      if k !in t.inflight then t
      else t.(pool := Put(t.pool, Some(k), false), inflight := t.inflight - multiset{k})
    case Wipe =>
      t.(slots := Slots(None, None, None),
         pool := Put(Put(Put(t.pool, t.slots.next, true), t.slots.previous, true), t.slots.current, true))
  }

  class KeypairTable {
    var slots: Slots
    var pool: Pool
    var initiator: map<Kid, bool>
    var next: Kid
    ghost var inflight: multiset<Kid>
    ghost var confirmed: set<Kid>

    ghost function Abs(): Table
      reads this
    {
      Table(slots, pool, initiator, next, inflight, confirmed)
    }

    constructor ()
      ensures Valid(Abs()) && Abs() == Empty()
    {
      slots, pool, initiator, next := Slots(None, None, None), Pool(map[], {}, []), map[], 0;
      inflight, confirmed := multiset{}, {};
    }

    /** `wg_noise_keypair_get` on a keypair still visible to readers: refused once freed. */
    method Get(k: Kid) returns (ok: bool)
      requires Valid(Abs()) && k in pool.refs
      modifies this`pool, this`inflight
      ensures Valid(Abs())
      ensures ok <==> k !in old(pool).freed
      ensures inflight == old(inflight) + (if ok then multiset{k} else multiset{})
      ensures old(pool).freed <= pool.freed && Abs() == Next(old(Abs()), Acquire(k))
    {
      GetDone(Abs(), k);
      ok := pool.refs[k] != 0;
      if ok {
        pool := pool.(refs := pool.refs[k := pool.refs[k] + 1]);
        inflight := inflight + multiset{k};
      }
    }

    /** A packet in flight is done: `wg_noise_keypair_put` without unhashing. */
    method Release(k: Kid)
      requires Valid(Abs()) && k in inflight
      modifies this`pool, this`inflight
      ensures Valid(Abs()) && inflight == old(inflight) - multiset{k}
      ensures k in pool.freed <==> !InSlot(slots, k) && k !in inflight
      ensures old(pool).freed <= pool.freed && Abs() == Next(old(Abs()), Done(k))
    {
      ReleaseDone(Abs(), k);
      pool := Put(pool, Some(k), false);
      inflight := inflight - multiset{k};
    }

    /** `add_new_keypair`, pointer write by pointer write. */
    method AddNewKeypair(k: Kid)
      requires Installing(Abs(), k)
      modifies this`slots, this`pool
      ensures Valid(Abs()) && pool.refs.Keys == old(pool).refs.Keys
      ensures old(pool).freed <= pool.freed && Abs() == Placed(old(Abs()), k, initiator[k])
      ensures slots == if !initiator[k] then Slots(old(slots).current, None, Some(k))
                       else Slots(Some(k), if old(slots).next.Some? then old(slots).next else old(slots).current, None)
    {
      ghost var t := Abs();
      var Slots(current, previous, nxt) := slots;
      if initiator[k] {
        if nxt.Some? {
          slots := slots.(next := None);
          slots := slots.(previous := nxt);
          pool := Put(pool, current, true);
        } else {
          slots := slots.(previous := current);
        }
        pool := Put(pool, previous, true);
        slots := slots.(current := Some(k));
        InitiatorDone(t, k, pool);
      } else {
        slots := slots.(next := Some(k));
        pool := Put(pool, nxt, true);
        slots := slots.(previous := None);
        pool := Put(pool, previous, true);
        ResponderDone(t, k, pool);
      }
    }

    /** The keypair part of `wg_noise_handshake_begin_session`: create, install unless the peer
        is dead, and index it under the handshake's index if that is still hashed. */
    method BeginSession(asInitiator: bool, dead: bool, hashed: bool) returns (k: Kid)
      requires Valid(Abs())
      modifies this
      ensures Valid(Abs()) && k !in old(pool).refs
      ensures old(pool).freed <= pool.freed && Abs() == Next(old(Abs()), Session(asInitiator, dead, hashed))
    {
      if dead {
        CreateDone(Abs(), asInitiator);
        return next;
      }
      k := Create(asInitiator);
      AddNewKeypair(k);
      if hashed {
        IndexDone(Abs(), k);
        pool := pool.(indexed := pool.indexed + {k});
      }
    }

    /** `keypair_create`: the caller holds the only reference. */
    method Create(asInitiator: bool) returns (k: Kid)
      requires Valid(Abs())
      modifies this`pool, this`initiator, this`next
      ensures Installing(Abs(), k) && initiator[k] == asInitiator && k == old(next) && k !in old(pool).refs
      ensures Abs() == Created(old(Abs()), asInitiator)
    {
      k := next;
      CreateDone(Abs(), asInitiator);
      next := next + 1;
      pool := pool.(refs := pool.refs[k := 1]);
      initiator := initiator[k := asInitiator];
    }

    /** `wg_noise_received_with_keypair`: the caller is a packet that arrived under `k`. */
    method ReceivedWith(k: Kid) returns (isNew: bool)
      requires Valid(Abs()) && k in inflight
      modifies this`slots, this`pool, this`confirmed
      ensures Valid(Abs()) && isNew == (old(slots).next == Some(k))
      ensures slots == if isNew then Slots(Some(k), old(slots).current, None) else old(slots)
      ensures confirmed == old(confirmed) + {k}
      ensures old(pool).freed <= pool.freed && Abs() == Next(old(Abs()), Arrive(k))
    {
      ghost var t := Abs();
      confirmed := confirmed + {k};
      isNew := slots.next == Some(k);
      if !isNew { return; }
      ConfirmDone(t, k);
      var oldKeypair := slots.previous;
      slots := slots.(previous := slots.current);
      pool := Put(pool, oldKeypair, true);
      slots := slots.(current := Some(k));
      slots := slots.(next := None);
    }

    /** `wg_noise_keypairs_clear`: next first, so that a late confirmation finds nothing. */
    method Clear()
      requires Valid(Abs())
      modifies this`slots, this`pool
      ensures Valid(Abs()) && slots == Slots(None, None, None) && pool.indexed == {}
      ensures forall k :: k in pool.refs ==> (k in pool.freed <==> k !in inflight)
      ensures old(pool).freed <= pool.freed && Abs() == Next(old(Abs()), Wipe)
    {
      ghost var t := Abs();
      var Slots(current, previous, nxt) := slots;
      slots := slots.(next := None);
      pool := Put(pool, nxt, true);
      slots := slots.(previous := None);
      pool := Put(pool, previous, true);
      slots := slots.(current := None);
      pool := Put(pool, current, true);
      ClearDone(t, pool);
    }
  }

  lemma SlotMember(s: Slots, k: Kid)
    ensures k in SlotRefs(s) <==> InSlot(s, k)
  {
  }

  // ---------------------------------------------------------------- runs

  /** One event as a call. */
  method Perform(t: KeypairTable, e: Event)
    requires Valid(t.Abs())
    modifies t
    ensures Valid(t.Abs()) && t.Abs() == Next(old(t.Abs()), e) && old(t.Abs()).pool.freed <= t.Abs().pool.freed
  {
    match e
    case Session(a, d, h) => var k := t.BeginSession(a, d, h);
    case Acquire(k) => if k in t.pool.refs { var ok := t.Get(k); }
    case Arrive(k) =>
      var there := InFlight(t, k);
      if there { var n := t.ReceivedWith(k); }
    case Done(k) =>
      var there := InFlight(t, k);
      if there { t.Release(k); }
    case Wipe => t.Clear();
  }

  /** A keypair is held by a packet exactly when its counter exceeds its slots. */
  method InFlight(t: KeypairTable, k: Kid) returns (b: bool)
    requires Valid(t.Abs())
    ensures b <==> k in t.inflight
  {
    assert RefOk(t.pool, SlotRefs(t.slots) + t.inflight, k);
    b := k in t.pool.refs && t.pool.refs[k] > SlotRefs(t.slots)[k];
  }

  /** The table after any history of session starts, packets and clears. */
  function After(es: seq<Event>): (t: Table) {
    if es == [] then Empty() else Next(After(es[..|es| - 1]), es[|es| - 1])
  }

  /** Every event keeps distinct slots and exact reference counts, and a free is final. */
  lemma NextKeeps(t: Table, e: Event)
    requires Valid(t)
    ensures Valid(Next(t, e)) && t.pool.freed <= Next(t, e).pool.freed
  {
    match e
    case Session(a, dead, hashed) =>
      if !dead {
        CreateDone(t, a);
        var k, t1 := t.next, Created(t, a);
        if a { InitiatorDone(t1, k, Installed(t1.pool, t1.slots, a)); } else { ResponderDone(t1, k, Installed(t1.pool, t1.slots, a)); }
        if hashed { IndexDone(Placed(t1, k, a), k); }
      }
    case Acquire(k) => if k in t.pool.refs { GetDone(t, k); }
    case Arrive(k) =>
      if k in t.inflight && t.slots.next == Some(k) { ConfirmDone(t, k); }
    case Done(k) => if k in t.inflight { ReleaseDone(t, k); }
    case Wipe => ClearDone(t, Next(t, e).pool);
  }

  /** Where each event leaves the slots: an initiator's new keypair is current at once, a responder's
      waits in next until a packet arrives under it. */
  lemma SlotsAfter(t: Table, e: Event)
    ensures var s, r := t.slots, Next(t, e).slots;
            match e
            case Session(asInitiator, dead, _) =>
              r == (if dead then s
                    else if !asInitiator then Slots(s.current, None, Some(t.next))
                    else Slots(Some(t.next), if s.next.Some? then s.next else s.current, None))
            case Arrive(k) => r == if k in t.inflight && s.next == Some(k) then Slots(Some(k), s.current, None) else s
            case Wipe => r == Slots(None, None, None)
            case _ => r == s
  {
  }

  /** A keypair in a slot has a counter above zero. */
  lemma SlotsHeld(p: Pool, s: Slots, all: multiset<Kid>)
    requires Accounted(p, all) && SlotRefs(s) <= all
    ensures forall k :: InSlot(s, k) ==> k in p.refs && p.refs[k] > 0
  {
    forall k | InSlot(s, k) ensures k in p.refs && p.refs[k] > 0 {
      SlotMember(s, k);
      assert RefOk(p, all, k);
    }
  }

  /** The keypairs that a new one pushes out of their slots can no longer be found. */
  lemma InstalledIndex(p: Pool, s: Slots, a: bool, k: Kid)
    requires DistinctSlots(s) && forall j :: InSlot(s, j) ==> j in p.refs && p.refs[j] > 0
    ensures k in Installed(p, s, a).indexed <==>
              k in p.indexed && Some(k) != s.previous && Some(k) != (if a then (if s.next.Some? then s.current else None) else s.next)
  {
  }

  lemma FindableAfterSession(t: Table, a: bool, hashed: bool, k: Kid)
    requires Valid(t)
    ensures var r := Next(t, Session(a, false, hashed));
            k in r.pool.indexed <==> (k in t.pool.indexed && InSlot(r.slots, k)) || (hashed && k == t.next)
  {
    var s, all := t.slots, SlotRefs(t.slots) + t.inflight;
    var p := Created(t, a).pool;
    CreateDone(t, a);
    SlotsHeld(p, s, all + multiset{t.next});
    assert k in t.pool.indexed ==> InSlot(s, k);
    FindableInstalled(t, p, a, hashed, k);
  }

  lemma FindableInstalled(t: Table, p: Pool, a: bool, hashed: bool, k: Kid)
    requires p == Created(t, a).pool && DistinctSlots(t.slots) && !InSlot(t.slots, t.next)
    requires forall j :: InSlot(t.slots, j) ==> j in p.refs && p.refs[j] > 0
    requires k in t.pool.indexed ==> InSlot(t.slots, k)
    ensures var r := Next(t, Session(a, false, hashed));
            k in r.pool.indexed <==> (k in t.pool.indexed && InSlot(r.slots, k)) || (hashed && k == t.next)
  {
    var s := t.slots;
    InstalledIndex(p, s, a, k);
    StayingSlots(s, t.next, a, k);
    assert Next(t, Session(a, false, hashed)).pool.indexed == Installed(p, s, a).indexed + if hashed then {t.next} else {};
  }

  lemma StayingSlots(s: Slots, n: Kid, a: bool, k: Kid)
    requires DistinctSlots(s) && !InSlot(s, n)
    ensures InSlot(if a then AfterInitiator(s, n) else AfterResponder(s, n), k) <==>
              k == n || (InSlot(s, k) && Some(k) != s.previous && Some(k) != (if a then (if s.next.Some? then s.current else None) else s.next))
  {
  }

  lemma FindableAfterArrive(t: Table, j: Kid, k: Kid)
    requires Valid(t)
    ensures var r := Next(t, Arrive(j)); k in r.pool.indexed <==> k in t.pool.indexed && InSlot(r.slots, k)
  {
    SlotsHeld(t.pool, t.slots, SlotRefs(t.slots) + t.inflight);
    assert k in t.pool.indexed ==> InSlot(t.slots, k);
    FindableConfirmed(t, j, k);
  }

  lemma FindableConfirmed(t: Table, j: Kid, k: Kid)
    requires DistinctSlots(t.slots) && forall i :: InSlot(t.slots, i) ==> i in t.pool.refs && t.pool.refs[i] > 0
    requires k in t.pool.indexed ==> InSlot(t.slots, k)
    ensures var r := Next(t, Arrive(j)); k in r.pool.indexed <==> k in t.pool.indexed && InSlot(r.slots, k)
  {
  }

  lemma FindableAfterDone(t: Table, j: Kid, k: Kid)
    requires Valid(t)
    ensures var r := Next(t, Done(j)); k in r.pool.indexed <==> k in t.pool.indexed && InSlot(r.slots, k)
  {
    assert k in t.pool.indexed ==> InSlot(t.slots, k);
    if j in t.inflight {
      ReleaseDone(t, j);
      assert RefOk(t.pool, SlotRefs(t.slots) + t.inflight, j);
    }
  }

  /** Incoming packets find a keypair exactly as long as it sits in a slot: an event ends that only for
      keypairs that leave their slots, and starts it only for a hashed new one. */
  lemma FindableAfter(t: Table, e: Event, k: Kid)
    requires Valid(t)
    ensures var r := Next(t, e);
            k in r.pool.indexed <==>
              (k in t.pool.indexed && InSlot(r.slots, k)) || (e.Session? && !e.dead && e.hashed && k == t.next)
  {
    assert k in t.pool.indexed ==> InSlot(t.slots, k);
    match e
    case Session(a, dead, hashed) => if !dead { FindableAfterSession(t, a, hashed, k); }
    case Arrive(j) => FindableAfterArrive(t, j, k);
    case Done(j) => FindableAfterDone(t, j, k);
    case Wipe => ClearDone(t, Next(t, e).pool);
    case Acquire(_) =>
  }

  /** A responder's first packet makes the new keypair usable for sending, whatever the table. */
  lemma ConfirmedBecomesCurrent(t: Table, hashed: bool)
    requires Valid(t)
    ensures var k := t.next;
            var t' := Next(Next(Next(t, Session(false, false, hashed)), Acquire(k)), Arrive(k));
            t'.slots == Slots(Some(k), t.slots.current, None) && k in t'.confirmed && k !in t'.pool.freed
  {
    var k := t.next;
    var t1 := Next(t, Session(false, false, hashed));
    var t2 := Next(t1, Acquire(k));
    NextKeeps(t, Session(false, false, hashed));
    SlotMember(t1.slots, k);
    assert RefOk(t1.pool, SlotRefs(t1.slots) + t1.inflight, k);
    NextKeeps(t1, Acquire(k));
    NextKeeps(t2, Arrive(k));
    var t' := Next(t2, Arrive(k));
    SlotMember(t'.slots, k);
    assert RefOk(t'.pool, SlotRefs(t'.slots) + t'.inflight, k);
  }

  /** In every history every state has distinct slots and exact reference counts. */
  lemma {:induction false} HistoryValid(es: seq<Event>)
    ensures Valid(After(es))
    decreases |es|
  {
    if es != [] {
      HistoryValid(es[..|es| - 1]);
      NextKeeps(After(es[..|es| - 1]), es[|es| - 1]);
    }
  }

  function FreedAfter(es: seq<Event>): (f: seq<Kid>) { After(es).pool.freed }

  /** What was freed stays freed and is never freed again. */
  lemma {:induction false} FreedOnce(es: seq<Event>, i: nat)
    requires i <= |es|
    ensures FreedAfter(es[..i]) <= FreedAfter(es) && NoDup(FreedAfter(es))
    decreases |es|
  {
    HistoryValid(es);
    if i == |es| {
      assert es[..i] == es;
    } else {
      var init := es[..|es| - 1];
      assert init[..i] == es[..i];
      FreedOnce(init, i);
      HistoryValid(init);
      NextKeeps(After(init), es[|es| - 1]);
      PrefixChain(FreedAfter(es[..i]), FreedAfter(init), FreedAfter(es));
    }
  }

  lemma PrefixChain(a: seq<Kid>, b: seq<Kid>, c: seq<Kid>)
    requires a <= b && b <= c
    ensures a <= c
  {
  }

  /** The object follows the specification over every history. */
  method RunEvents(es: seq<Event>) returns (t: KeypairTable)
    ensures fresh(t) && Valid(t.Abs()) && t.Abs() == After(es)
  {
    t := new KeypairTable();
    var i := 0;
    while i < |es|
      invariant 0 <= i <= |es| && fresh(t) && Valid(t.Abs()) && t.Abs() == After(es[..i])
    {
      Perform(t, es[i]);
      assert es[..i + 1][..i] == es[..i];
      i := i + 1;
    }
    assert es[..i] == es;
  }

  /** A keypair becomes current only in a session start as initiator, or when a packet arrives
      under that same keypair; so a responder's keypair is never used unconfirmed. */
  lemma {:induction false} CurrentIsEarned(es: seq<Event>, i: nat)
    requires i < |es| && After(es[..i + 1]).slots.current != After(es[..i]).slots.current
    requires After(es[..i + 1]).slots.current.Some?
    ensures || (es[i].Session? && es[i].asInitiator && After(es[..i + 1]).slots.current == Some(After(es[..i]).next))
            || (es[i].Arrive? && es[i].k in After(es[..i]).inflight && After(es[..i]).slots.next == Some(es[i].k) &&
                After(es[..i + 1]).slots.current == Some(es[i].k))
  {
    assert es[..i + 1][..i] == es[..i];
  }
}
