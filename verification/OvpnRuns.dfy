/** Timed runs of the lease protocol under the "reject" strategy: connects, failed dials,
    disconnects with and without their hook, and the passing of time, for any number of
    accounts on two transports.  Hooks run one at a time.  The status view may be stale and may
    list too much, but lists every device connected for longer than the reclaim grace. */
module OvpnRuns {
  import opened Common
  import opened OvpnLease

  type Account = nat

  /** The address blocks of an account; an unpublished block is empty. */
  datatype Blocks = Blocks(udp: seq<Ip>, tcp: seq<Ip>)

  type Config = map<Account, Blocks>

  datatype Device = Device(session: Session, since: nat)

  /** One transport: its directories and the devices that are really connected. */
  datatype Side = Side(dir: Dir, live: map<Ip, Device>)

  datatype World = World(now: nat, udp: Side, tcp: Side)

  function SideOf(w: World, isTcp: bool): (s: Side) {
    if isTcp then w.tcp else w.udp
  }

  function WithSide(w: World, isTcp: bool, s: Side): (r: World) {
    if isTcp then w.(tcp := s) else w.(udp := s)
  }

  function Block(b: Blocks, isTcp: bool): (s: seq<Ip>) {
    if isTcp then b.tcp else b.udp
  }

  /** The User Limit of an account. */
  function Limit(b: Blocks): (k: nat) {
    if |b.udp| < |b.tcp| then |b.tcp| else |b.udp|
  }

  /** Blocks list each address once and accounts do not share addresses. */
  predicate ConfigOk(cfg: Config) {
    && (forall a :: a in cfg ==> NoDup(cfg[a].udp) && NoDup(cfg[a].tcp))
    && (forall a, b, t, ip :: a in cfg && b in cfg && a != b && ip in Block(cfg[a], t) ==> ip !in Block(cfg[b], t))
  }

  /** The promise of the status file. */
  predicate StatusOk(s: Side, now: nat, status: set<Ip>) {
    forall ip :: ip in s.live && Age(now, s.live[ip].since) > RECLAIM_GRACE ==> ip in status
  }

  // ---------------------------------------------------------------- steps

  datatype Step =
    | Tick(dt: nat)
    | Connect(a: Account, isTcp: bool, session: Session, status: set<Ip>, oStatus: set<Ip>, joins: bool, r: Outcome)
    | Leave(isTcp: bool, ip: Ip, found: Option<Ip>)   // with its disconnect hook
    | Vanish(isTcp: bool, ip: Ip)                     // without
    | LateHook(isTcp: bool, session: Session, found: Option<Ip>)   // a hook whose device is not live (any more)

  predicate Enabled(cfg: Config, w: World, st: Step) {
    match st
    case Tick(_) => true
    case Connect(a, t, session, status, oStatus, _, r) =>
      && a in cfg && Block(cfg[a], t) != []
      && StatusOk(SideOf(w, t), w.now, status) && StatusOk(SideOf(w, !t), w.now, oStatus)
      && (forall ip :: ip in SideOf(w, t).live ==> SideOf(w, t).live[ip].session != session)
      && RejectDecision(SideOf(w, t).dir, status, Block(cfg[a], t),
                        Total(SideOf(w, t).dir, status, Block(cfg[a], t),
                              SideOf(w, !t).dir, oStatus, Block(cfg[a], !t), w.now), w.now, r)
    case Leave(t, ip, found) =>
      && ip in SideOf(w, t).live
      && var ls := LeasesOf(SideOf(w, t).dir, SideOf(w, t).live[ip].session);
      if found.Some? then found.value in ls else ls == {}
    case Vanish(t, ip) => ip in SideOf(w, t).live
    case LateHook(t, session, found) =>
      && (forall ip :: ip in SideOf(w, t).live ==> SideOf(w, t).live[ip].session != session)
      && var ls := LeasesOf(SideOf(w, t).dir, session);
      if found.Some? then found.value in ls else ls == {}
  }

  function Apply(cfg: Config, w: World, st: Step): (r: World)
    requires Enabled(cfg, w, st)
  {
    match st
    case Tick(dt) => w.(now := w.now + dt)
    case Connect(a, t, session, _, _, joins, r) =>
      var s := SideOf(w, t);
      if r.Granted? then
        WithSide(w, t, Side(Granting(s.dir, w.now, r.ip, session),
                            if joins then s.live[r.ip := Device(session, w.now)] else s.live))
      else WithSide(w, t, s.(dir := Purged(s.dir, w.now)))
    case Leave(t, ip, found) =>
      var s := SideOf(w, t);
      WithSide(w, t, Side(Disconnected(s.dir, found, w.now), s.live - {ip}))
    case Vanish(t, ip) =>
      var s := SideOf(w, t);
      WithSide(w, t, s.(live := s.live - {ip}))
    case LateHook(t, _, found) =>
      var s := SideOf(w, t);
      WithSide(w, t, s.(dir := Disconnected(s.dir, found, w.now)))
  }

  // ---------------------------------------------------------------- invariant

  /** Connected devices and files agree as far as they must. */
  predicate DeviceOk(s: Side, now: nat, ip: Ip) {
    ip in s.live ==>
      && s.live[ip].since <= now
      && (ip in s.dir.leases ==> s.dir.leases[ip] == Lease(s.live[ip].since, s.live[ip].session))
      && (Age(now, s.live[ip].since) <= LEASE_TTL ==> ip in s.dir.leases)
      && ip !in s.dir.released
  }

  predicate SessionsDiffer(s: Side) {
    forall i, j :: i in s.live && j in s.live && i != j ==> s.live[i].session != s.live[j].session
  }

  ghost predicate SideInv(s: Side, now: nat) {
    (forall ip :: DeviceOk(s, now, ip)) && SessionsDiffer(s)
  }

  /** An address that is taken: a live device or an unexpired lease. */
  predicate Taken(s: Side, now: nat, ip: Ip) {
    ip in s.live || ip in FreshLeases(s.dir, now)
  }

  function TakenIn(s: Side, now: nat, block: seq<Ip>): (r: set<Ip>) {
    set ip | ip in block && Taken(s, now, ip)
  }

  function Usage(w: World, b: Blocks): (n: nat) {
    |TakenIn(w.udp, w.now, b.udp)| + |TakenIn(w.tcp, w.now, b.tcp)|
  }

  predicate WithinLimits(cfg: Config, w: World) {
    forall a :: a in cfg ==> Usage(w, cfg[a]) <= Limit(cfg[a])
  }

  ghost predicate Inv(cfg: Config, w: World) {
    SideInv(w.udp, w.now) && SideInv(w.tcp, w.now) && WithinLimits(cfg, w)
  }

  // ---------------------------------------------------------------- what the hook sees

  /** Whatever is taken on this transport looks used to the hook. */
  lemma TakenLooksUsed(s: Side, now: nat, status: set<Ip>, ip: Ip)
    requires SideInv(s, now) && StatusOk(s, now, status) && Taken(s, now, ip)
    ensures ip in InUse(s.dir, status, now)
  {
    assert DeviceOk(s, now, ip);
  }

  /** And on the other one. */
  lemma TakenLooksUsedThere(s: Side, now: nat, status: set<Ip>, ip: Ip)
    requires SideInv(s, now) && StatusOk(s, now, status) && Taken(s, now, ip)
    ensures ip in status + FreshLeases(s.dir, now).Keys
  {
    assert DeviceOk(s, now, ip);
  }

  /** No live device's address is handed out, neither as free nor as a ghost. */
  lemma GrantedIsNotLive(s: Side, now: nat, status: set<Ip>, block: seq<Ip>, total: nat, ip: Ip)
    requires SideInv(s, now) && StatusOk(s, now, status)
    requires RejectDecision(s.dir, status, block, total, now, Granted(ip))
    ensures ip !in s.live && ip in block
  {
    assert DeviceOk(s, now, ip);
    if total < |block| && ip in s.live {
      TakenLooksUsed(s, now, status, ip);
    }
  }

  lemma {:induction false} CountAtLeast(block: seq<Ip>, s: set<Ip>, taken: set<Ip>)
    requires NoDup(block) && taken <= s && (forall ip :: ip in taken ==> ip in block)
    ensures |taken| <= CountIn(block, s)
  {
    if block == [] {
      assert taken == {};
    } else {
      var last, init := block[|block| - 1], block[..|block| - 1];
      var rest := taken - {last};
      forall ip | ip in rest ensures ip in init {
        var i :| 0 <= i < |block| && block[i] == ip;
        assert init[i] == ip;
      }
      CountAtLeast(init, s, rest);
      if last in taken { assert taken == rest + {last}; } else { assert taken == rest; }
    }
  }

  /** The hook never counts less than what is taken. */
  lemma TotalCoversUsage(w: World, b: Blocks, t: bool, status: set<Ip>, oStatus: set<Ip>)
    requires SideInv(w.udp, w.now) && SideInv(w.tcp, w.now) && NoDup(b.udp) && NoDup(b.tcp)
    requires StatusOk(SideOf(w, t), w.now, status) && StatusOk(SideOf(w, !t), w.now, oStatus)
    ensures Usage(w, b) <=
            Total(SideOf(w, t).dir, status, Block(b, t), SideOf(w, !t).dir, oStatus, Block(b, !t), w.now)
  {
    var s, o := SideOf(w, t), SideOf(w, !t);
    var mine, theirs := TakenIn(s, w.now, Block(b, t)), TakenIn(o, w.now, Block(b, !t));
    forall ip | ip in mine ensures ip in InUse(s.dir, status, w.now) { TakenLooksUsed(s, w.now, status, ip); }
    forall ip | ip in theirs ensures ip in oStatus + FreshLeases(o.dir, w.now).Keys {
      TakenLooksUsedThere(o, w.now, oStatus, ip);
    }
    CountAtLeast(Block(b, t), InUse(s.dir, status, w.now), mine);
    CountAtLeast(Block(b, !t), oStatus + FreshLeases(o.dir, w.now).Keys, theirs);
  }

  // ---------------------------------------------------------------- preservation

  lemma TickSide(s: Side, now: nat, dt: nat)
    requires SideInv(s, now)
    ensures SideInv(s, now + dt)
  {
    var later := now + dt;
    forall ip ensures DeviceOk(s, later, ip) { assert DeviceOk(s, now, ip); }
  }

  lemma PurgeSide(s: Side, now: nat)
    requires SideInv(s, now)
    ensures SideInv(s.(dir := Purged(s.dir, now)), now)
  {
    forall ip ensures DeviceOk(s.(dir := Purged(s.dir, now)), now, ip) { assert DeviceOk(s, now, ip); }
  }

  lemma GrantSide(s: Side, now: nat, ip: Ip, session: Session, joins: bool)
    requires SideInv(s, now) && ip !in s.live
    requires forall i :: i in s.live ==> s.live[i].session != session
    ensures SideInv(Side(Granting(s.dir, now, ip, session),
                         if joins then s.live[ip := Device(session, now)] else s.live), now)
  {
    var r := Side(Granting(s.dir, now, ip, session), if joins then s.live[ip := Device(session, now)] else s.live);
    forall j ensures DeviceOk(r, now, j) { assert DeviceOk(s, now, j); }
  }

  /** The lease a disconnect finds is the device's own, or that of an address nobody uses. */
  lemma LeaveSide(s: Side, now: nat, ip: Ip, found: Option<Ip>)
    requires SideInv(s, now) && ip in s.live
    requires found.Some? ==> found.value in LeasesOf(s.dir, s.live[ip].session)
    ensures found.Some? && found.value in s.live ==> found.value == ip
    ensures SideInv(Side(Disconnected(s.dir, found, now), s.live - {ip}), now)
  {
    if found.Some? && found.value in s.live {
      assert DeviceOk(s, now, found.value);
    }
    var r := Side(Disconnected(s.dir, found, now), s.live - {ip});
    forall j ensures DeviceOk(r, now, j) { assert DeviceOk(s, now, j); }
  }

  lemma VanishSide(s: Side, now: nat, ip: Ip)
    requires SideInv(s, now)
    ensures SideInv(s.(live := s.live - {ip}), now)
  {
    forall j ensures DeviceOk(s.(live := s.live - {ip}), now, j) { assert DeviceOk(s, now, j); }
  }

  lemma LateSide(s: Side, now: nat, session: Session, found: Option<Ip>)
    requires SideInv(s, now) && forall ip :: ip in s.live ==> s.live[ip].session != session
    requires found.Some? ==> found.value in LeasesOf(s.dir, session)
    ensures SideInv(s.(dir := Disconnected(s.dir, found, now)), now)
  {
    if found.Some? { assert DeviceOk(s, now, found.value); }
    forall j ensures DeviceOk(s.(dir := Disconnected(s.dir, found, now)), now, j) { assert DeviceOk(s, now, j); }
  }

  lemma Fewer(a: set<Ip>, b: set<Ip>)
    requires a <= b
    ensures |a| <= |b|
  {
    assert b == a + (b - a);
  }

  /** Nothing new is taken. */
  ghost predicate NoMoreTaken(s: Side, now: nat, s': Side, now': nat) {
    forall ip :: Taken(s', now', ip) ==> Taken(s, now, ip)
  }

  lemma UsageShrinks(cfg: Config, w: World, w': World)
    requires WithinLimits(cfg, w)
    requires NoMoreTaken(w.udp, w.now, w'.udp, w'.now) && NoMoreTaken(w.tcp, w.now, w'.tcp, w'.now)
    ensures WithinLimits(cfg, w')
  {
    forall a | a in cfg ensures Usage(w', cfg[a]) <= Limit(cfg[a]) {
      Fewer(TakenIn(w'.udp, w'.now, cfg[a].udp), TakenIn(w.udp, w.now, cfg[a].udp));
      Fewer(TakenIn(w'.tcp, w'.now, cfg[a].tcp), TakenIn(w.tcp, w.now, cfg[a].tcp));
    }
  }

  /** A newly taken address of account `a` leaves everybody within limits if `a` was below. */
  lemma OneMore(cfg: Config, w: World, a: Account, t: bool, ip: Ip, s': Side)
    requires ConfigOk(cfg) && WithinLimits(cfg, w) && a in cfg && ip in Block(cfg[a], t)
    requires Usage(w, cfg[a]) < Limit(cfg[a])
    requires forall j :: Taken(s', w.now, j) ==> Taken(SideOf(w, t), w.now, j) || j == ip
    ensures WithinLimits(cfg, WithSide(w, t, s'))
  {
    var w' := WithSide(w, t, s');
    forall b | b in cfg ensures Usage(w', cfg[b]) <= Limit(cfg[b]) {
      var x, x' := TakenIn(SideOf(w, t), w.now, Block(cfg[b], t)), TakenIn(s', w.now, Block(cfg[b], t));
      if b == a {
        Fewer(x', x + {ip});
        assert |x + {ip}| <= |x| + 1;
      } else {
        assert ip !in Block(cfg[b], t);
        Fewer(x', x);
      }
    }
  }

  lemma GrantTakes(s: Side, now: nat, ip: Ip, session: Session, joins: bool, j: Ip)
    requires var s' := Side(Granting(s.dir, now, ip, session), if joins then s.live[ip := Device(session, now)] else s.live);
             Taken(s', now, j)
    ensures Taken(s, now, j) || j == ip
  {
  }

  lemma ConnectKeeps(cfg: Config, w: World, st: Step)
    requires ConfigOk(cfg) && Inv(cfg, w) && st.Connect? && Enabled(cfg, w, st)
    ensures Inv(cfg, Apply(cfg, w, st))
    ensures st.r.Granted? ==> st.r.ip !in SideOf(w, st.isTcp).live && st.r.ip in Block(cfg[st.a], st.isTcp)
  {
    var Connect(a, t, session, status, oStatus, joins, r) := st;
    var s, b := SideOf(w, t), cfg[a];
    if !r.Granted? {
      PurgeSide(s, w.now);
      UsageShrinks(cfg, w, Apply(cfg, w, st));
      return;
    }
    var total := Total(s.dir, status, Block(b, t), SideOf(w, !t).dir, oStatus, Block(b, !t), w.now);
    GrantedIsNotLive(s, w.now, status, Block(b, t), total, r.ip);
    GrantSide(s, w.now, r.ip, session, joins);
    var s' := Side(Granting(s.dir, w.now, r.ip, session), if joins then s.live[r.ip := Device(session, w.now)] else s.live);
    forall j | Taken(s', w.now, j) ensures Taken(s, w.now, j) || j == r.ip {
      GrantTakes(s, w.now, r.ip, session, joins, j);
    }
    if total < |Block(b, t)| {
      TotalCoversUsage(w, b, t, status, oStatus);
      OneMore(cfg, w, a, t, r.ip, s');
    } else {
      assert Taken(s, w.now, r.ip);
      UsageShrinks(cfg, w, Apply(cfg, w, st));
    }
  }

  lemma StepKeeps(cfg: Config, w: World, st: Step)
    requires ConfigOk(cfg) && Inv(cfg, w) && Enabled(cfg, w, st)
    ensures Inv(cfg, Apply(cfg, w, st))
  {
    match st
    case Tick(dt) =>
      TickSide(w.udp, w.now, dt);
      TickSide(w.tcp, w.now, dt);
      UsageShrinks(cfg, w, Apply(cfg, w, st));
    case Connect(_, _, _, _, _, _, _) => ConnectKeeps(cfg, w, st);
    case Leave(t, ip, found) =>
      LeaveSide(SideOf(w, t), w.now, ip, found);
      UsageShrinks(cfg, w, Apply(cfg, w, st));
    case Vanish(t, ip) =>
      VanishSide(SideOf(w, t), w.now, ip);
      UsageShrinks(cfg, w, Apply(cfg, w, st));
    case LateHook(t, session, found) =>
      LateSide(SideOf(w, t), w.now, session, found);
      UsageShrinks(cfg, w, Apply(cfg, w, st));
  }

  // ---------------------------------------------------------------- whole runs

  predicate EnabledRun(cfg: Config, w: World, steps: seq<Step>)
    decreases |steps|
  {
    steps == [] || (Enabled(cfg, w, steps[0]) && EnabledRun(cfg, Apply(cfg, w, steps[0]), steps[1..]))
  }

  function Run(cfg: Config, w: World, steps: seq<Step>): (r: World)
    requires EnabledRun(cfg, w, steps)
    decreases |steps|
  {
    if steps == [] then w else Run(cfg, Apply(cfg, w, steps[0]), steps[1..])
  }

  function Empty(): (w: World) {
    World(0, Side(Dir(map[], map[]), map[]), Side(Dir(map[], map[]), map[]))
  }

  lemma EmptyInv(cfg: Config)
    ensures Inv(cfg, Empty())
  {
    forall a | a in cfg ensures Usage(Empty(), cfg[a]) <= Limit(cfg[a]) {
      assert TakenIn(Empty().udp, 0, cfg[a].udp) == {} && TakenIn(Empty().tcp, 0, cfg[a].tcp) == {};
    }
  }

  lemma {:induction false} RunKeeps(cfg: Config, w: World, steps: seq<Step>)
    requires ConfigOk(cfg) && Inv(cfg, w) && EnabledRun(cfg, w, steps)
    ensures Inv(cfg, Run(cfg, w, steps))
    decreases |steps|
  {
    if steps != [] {
      StepKeeps(cfg, w, steps[0]);
      RunKeeps(cfg, Apply(cfg, w, steps[0]), steps[1..]);
    }
  }

  /** In every timed run, for every account: live devices plus unexpired leases on both
      transports together never exceed the User Limit, and the address a hook grants next is of
      the account's own block and not that of a live device. */
  lemma LimitHolds(cfg: Config, steps: seq<Step>, a: Account, next: Step)
    requires ConfigOk(cfg) && EnabledRun(cfg, Empty(), steps) && a in cfg
    ensures var w := Run(cfg, Empty(), steps);
            && Usage(w, cfg[a]) <= Limit(cfg[a])
            && (next.Connect? && next.r.Granted? && Enabled(cfg, w, next) ==>
                  next.r.ip !in SideOf(w, next.isTcp).live && next.r.ip in Block(cfg[next.a], next.isTcp))
  {
    EmptyInv(cfg);
    RunKeeps(cfg, Empty(), steps);
    var w := Run(cfg, Empty(), steps);
    if next.Connect? && Enabled(cfg, w, next) {
      ConnectKeeps(cfg, w, next);
    }
  }

  // ---------------------------------------------------------------- redialling

  function Among(block: seq<Ip>, s: set<Ip>): (r: set<Ip>) {
    set ip | ip in block && ip in s
  }

  lemma {:induction false} CountExact(block: seq<Ip>, s: set<Ip>)
    requires NoDup(block)
    ensures CountIn(block, s) == |Among(block, s)|
  {
    if block == [] {
      assert Among(block, s) == {};
    } else {
      var last, init := block[|block| - 1], block[..|block| - 1];
      CountExact(init, s);
      assert last !in init;
      AmongLast(init, last, s);
      assert block == init + [last];
    }
  }

  lemma AmongLast(init: seq<Ip>, last: Ip, s: set<Ip>)
    requires last !in init
    ensures |Among(init + [last], s)| == |Among(init, s)| + (if last in s then 1 else 0)
  {
    if last in s {
      assert Among(init + [last], s) == Among(init, s) + {last};
    } else {
      assert Among(init + [last], s) == Among(init, s);
    }
  }

  /** A lease past the grace without a device: what a failed dial leaves behind. */
  predicate Abandoned(s: Side, now: nat, ip: Ip) {
    ip in FreshLeases(s.dir, now) && ip !in s.live && Age(now, s.dir.leases[ip].mtime) > RECLAIM_GRACE
  }

  ghost predicate NoneAbandoned(s: Side, now: nat, block: seq<Ip>) {
    forall ip :: ip in block ==> !Abandoned(s, now, ip)
  }

  /** Abandoned leases other than the one a disconnect has just removed. */
  ghost predicate NoneLeft(s: Side, now: nat, block: seq<Ip>, removed: Option<Ip>) {
    forall ip: Ip :: ip in block && Some(ip) != removed ==> !Abandoned(s, now, ip)
  }

  /** The addresses in use are the taken ones but `x`. */
  lemma CountLessened(block: seq<Ip>, used: set<Ip>, taken: set<Ip>, x: Option<Ip>)
    requires NoDup(block) && forall ip: Ip :: ip in Among(block, used) <==> ip in taken && Some(ip) != x
    ensures CountIn(block, used) == |taken| - (if x.Some? && x.value in taken then 1 else 0)
  {
    CountExact(block, used);
    if x.Some? && x.value in taken {
      assert Among(block, used) == taken - {x.value};
    } else {
      assert Among(block, used) == taken;
    }
  }

  /** What a hook counts on its own transport after a disconnect that removed the lease `found`, from
      the view that lists the devices before it. */
  lemma OwnCount(s: Side, now: nat, block: seq<Ip>, found: Option<Ip>, d: Dir)
    requires SideInv(s, now) && NoDup(block) && d == Disconnected(s.dir, found, now)
    ensures CountIn(block, InUse(d, s.live.Keys, now)) ==
            |TakenIn(s, now, block)| - (if found.Some? && found.value in TakenIn(s, now, block) then 1 else 0)
    ensures NoGhost(d, s.live.Keys, now, block) <==> NoneLeft(s, now, block, found)
  {
    var used := InUse(d, s.live.Keys, now);
    forall x: Ip ensures x in used <==> Taken(s, now, x) && Some(x) != found { assert DeviceOk(s, now, x); }
    CountLessened(block, used, TakenIn(s, now, block), found);
    forall x: Ip | x in block ensures IsGhost(d, s.live.Keys, now, x) <==> Abandoned(s, now, x) && Some(x) != found {
      assert DeviceOk(s, now, x);
    }
  }

  /** What it counts on the other transport, whose release markers it does not read: a lease that is
      gone makes a difference only if no device shows its address. */
  lemma OtherCount(o: Side, now: nat, block: seq<Ip>, found: Option<Ip>, d: Dir)
    requires NoDup(block) && d == Disconnected(o.dir, found, now)
    ensures CountIn(block, o.live.Keys + FreshLeases(d, now).Keys) ==
            |TakenIn(o, now, block)| - (if found.Some? && found.value !in o.live && found.value in TakenIn(o, now, block) then 1 else 0)
  {
    var used := o.live.Keys + FreshLeases(d, now).Keys;
    var gone := if found.Some? && found.value !in o.live then found else None;
    forall x: Ip ensures x in used <==> Taken(o, now, x) && Some(x) != gone {}
    CountLessened(block, used, TakenIn(o, now, block), gone);
  }

  /** The disconnect freed a slot in the eyes of the next hook: the lease it found was an unexpired
      one of the account's block; for the other transport, which does not read the release markers,
      also one of another address than that of the device that left. */
  predicate Freed(s: Side, now: nat, block: seq<Ip>, ip: Ip, found: Option<Ip>, cross: bool) {
    found.Some? && found.value in TakenIn(s, now, block) && (cross ==> found.value != ip)
  }

  /** The hook that answers a redial right after the device at `ip` left: its view still lists the
      device, and the disconnect hook found a lease of the session, or there is none. */
  ghost predicate Redial(s: Side, o: Side, now: nat, block: seq<Ip>, oBlock: seq<Ip>, ip: Ip, found: Option<Ip>, cross: bool, r: Outcome) {
    && SideInv(s, now) && SideInv(o, now) && NoDup(block) && NoDup(oBlock) && ip in s.live
    && (found.Some? ==> found.value in LeasesOf(s.dir, s.live[ip].session))
    && var d := Disconnected(s.dir, found, now);
    if cross then RejectDecision(o.dir, o.live.Keys, oBlock, Total(o.dir, o.live.Keys, oBlock, d, s.live.Keys, block, now), now, r)
    else RejectDecision(d, s.live.Keys, block, Total(d, s.live.Keys, block, o.dir, o.live.Keys, oBlock, now), now, r)
  }

  /** When it refuses: the account's devices and unexpired leases, less the slot the disconnect freed,
      still fill the block redialled on, and nothing of that block can be reclaimed. */
  lemma RedialRefusedIff(s: Side, o: Side, now: nat, block: seq<Ip>, oBlock: seq<Ip>, ip: Ip, found: Option<Ip>, cross: bool, r: Outcome)
    requires Redial(s, o, now, block, oBlock, ip, found, cross, r)
    ensures var taken := |TakenIn(s, now, block)| + |TakenIn(o, now, oBlock)|;
            var freed := if Freed(s, now, block, ip, found, cross) then 1 else 0;
            r == Refused <==>
              if cross then taken - freed >= |oBlock| && NoneLeft(o, now, oBlock, None)
              else taken - freed >= |block| && NoneLeft(s, now, block, found)
  {
    LeaveSide(s, now, ip, found);
    var d := Disconnected(s.dir, found, now);
    if cross {
      OwnCount(o, now, oBlock, None, o.dir);
      OtherCount(s, now, block, found, d);
    } else {
      OwnCount(s, now, block, found, d);
      OtherCount(o, now, oBlock, None, o.dir);
    }
  }

  /** The disconnect hook promises that a device that leaves can redial at once although the status
      file still shows it.  An account at the limit of the transport it redials on is refused exactly
      if the disconnect freed nothing (the lease was purged meanwhile, the hook found another one
      of the session that does not count, or the redial comes over the other transport) and no
      lease there can be reclaimed. */
  lemma RedialAtLimitIff(s: Side, o: Side, now: nat, block: seq<Ip>, oBlock: seq<Ip>, ip: Ip, found: Option<Ip>, cross: bool, r: Outcome)
    requires Redial(s, o, now, block, oBlock, ip, found, cross, r)
    requires |TakenIn(s, now, block)| + |TakenIn(o, now, oBlock)| == (if cross then |oBlock| else |block|)
    ensures r == Refused <==>
              !Freed(s, now, block, ip, found, cross) && (if cross then NoneAbandoned(o, now, oBlock) else NoneAbandoned(s, now, block))
  {
    RedialRefusedIff(s, o, now, block, oBlock, ip, found, cross, r);
  }

  // A run in which it happens: after 40 seconds another account's hook purges the lease.

  const C1: Step := Connect(1, false, 100, {}, {}, true, Granted(7))
  const C2: Step := Connect(2, false, 200, {7}, {}, false, Granted(8))
  const REDIAL: Step := Connect(1, false, 101, {7}, {}, true, Refused)

  function TwoAccounts(): (cfg: Config) {
    map[1 := Blocks([7], []), 2 := Blocks([8], [])]
  }

  lemma OneAddress(x: Ip, s: set<Ip>)
    ensures CountIn([x], s) == (if x in s then 1 else 0) && CountIn([], s) == 0
    ensures x !in s ==> FirstFree([x], s, x)
  {
    assert [x][..0] == [] && [x][0] == x;
  }

  function AfterPurge(): (w: World) {
    World(40 * SECOND, Side(Dir(map[8 := Lease(40 * SECOND, 200)], map[]), map[7 := Device(100, 0)]),
          Side(Dir(map[], map[]), map[]))
  }

  lemma FirstDial()
    ensures Enabled(TwoAccounts(), Empty(), C1)
    ensures Apply(TwoAccounts(), Empty(), C1).udp == Side(Dir(map[7 := Lease(0, 100)], map[]), map[7 := Device(100, 0)])
  {
    var d := Empty().udp.dir;
    assert InUse(d, {}, 0) == {} && FreshLeases(d, 0) == map[] && FreshReleases(d, 0) == map[];
    OneAddress(7, {});
  }

  lemma PurgingDial(w: World)
    requires w == Apply(TwoAccounts(), Empty(), C1).(now := 40 * SECOND)
    requires w.udp == Side(Dir(map[7 := Lease(0, 100)], map[]), map[7 := Device(100, 0)])
    ensures Enabled(TwoAccounts(), w, C2) && Apply(TwoAccounts(), w, C2) == AfterPurge()
  {
    var d := w.udp.dir;
    assert FreshLeases(d, w.now) == map[] && FreshReleases(d, w.now) == map[];
    assert InUse(d, {7}, w.now) == {7};
    OneAddress(8, {7});
    assert Granting(d, w.now, 8, 200) == Dir(map[8 := Lease(40 * SECOND, 200)], map[]);
  }

  lemma RefusedRedial(w: World)
    requires w == AfterPurge().(udp := AfterPurge().udp.(live := map[]))
    ensures Enabled(TwoAccounts(), w, REDIAL) && Usage(w, TwoAccounts()[1]) == 0
  {
    var d := w.udp.dir;
    assert FreshLeases(d, w.now) == map[8 := Lease(40 * SECOND, 200)] && FreshReleases(d, w.now) == map[];
    assert InUse(d, {7}, w.now) == {7, 8};
    OneAddress(7, {7, 8});
    assert TakenIn(w.udp, w.now, [7]) == {} && TakenIn(w.tcp, w.now, []) == {};
  }

  lemma Prepend(cfg: Config, w: World, st: Step, rest: seq<Step>)
    requires Enabled(cfg, w, st) && EnabledRun(cfg, Apply(cfg, w, st), rest)
    ensures EnabledRun(cfg, w, [st] + rest) && Run(cfg, w, [st] + rest) == Run(cfg, Apply(cfg, w, st), rest)
  {
    assert ([st] + rest)[0] == st && ([st] + rest)[1..] == rest;
  }

  lemma TwoAccountsOk()
    ensures ConfigOk(TwoAccounts())
  {
  }

  function Story(): (steps: seq<Step>) {
    [C1] + ([Tick(40 * SECOND)] + ([C2] + ([Leave(false, 7, None)] + [])))
  }

  /** The account uses nothing, and is refused. */
  lemma RedialRefusedExample()
    ensures EnabledRun(TwoAccounts(), Empty(), Story()) && ConfigOk(TwoAccounts())
    ensures var w := Run(TwoAccounts(), Empty(), Story());
            Usage(w, TwoAccounts()[1]) == 0 && Enabled(TwoAccounts(), w, REDIAL) && REDIAL.r == Refused
  {
    var cfg, tick, leave := TwoAccounts(), Tick(40 * SECOND), Leave(false, 7, None);
    TwoAccountsOk();
    FirstDial();
    var w1 := Apply(cfg, Empty(), C1);
    var w2 := Apply(cfg, w1, tick);
    PurgingDial(w2);
    var w3 := AfterPurge();
    assert LeasesOf(w3.udp.dir, 100) == {};
    var w4 := Apply(cfg, w3, leave);
    assert w4.udp.live == map[];
    RefusedRedial(w4);
    Prepend(cfg, w3, leave, []);
    Prepend(cfg, w2, C2, [leave] + []);
    Prepend(cfg, w1, tick, [C2] + ([leave] + []));
    Prepend(cfg, Empty(), C1, [tick] + ([C2] + ([leave] + [])));
  }

  // The second failing family: the marker is written, and the other transport does not read it.

  const DIAL: Step := Connect(1, false, 100, {}, {}, true, Granted(7))
  const SWITCH: Step := Connect(1, true, 101, {}, {7}, true, Refused)

  function BothTransports(): (cfg: Config) {
    map[1 := Blocks([7], [9])]
  }

  lemma DialOnUdp()
    ensures Enabled(BothTransports(), Empty(), DIAL)
    ensures Apply(BothTransports(), Empty(), DIAL) ==
            World(0, Side(Dir(map[7 := Lease(0, 100)], map[]), map[7 := Device(100, 0)]), Empty().tcp)
  {
    var d := Empty().udp.dir;
    assert InUse(d, {}, 0) == {} && FreshLeases(d, 0) == map[] && FreshReleases(d, 0) == map[];
    assert {} + FreshLeases(d, 0).Keys == {};
    OneAddress(7, {});
    OneAddress(9, {});
  }

  lemma SwitchRefused(w: World)
    requires w == World(0, Side(Dir(map[], map[7 := 0]), map[]), Empty().tcp)
    ensures Enabled(BothTransports(), w, SWITCH) && Usage(w, BothTransports()[1]) == 0
  {
    var d, o := w.tcp.dir, w.udp.dir;
    assert InUse(d, {}, 0) == {} && FreshLeases(d, 0) == map[] && FreshLeases(o, 0) == map[];
    assert {7} + FreshLeases(o, 0).Keys == {7};
    OneAddress(9, {});
    OneAddress(7, {7});
    assert TakenIn(w.udp, 0, [7]) == {} && TakenIn(w.tcp, 0, [9]) == {};
  }

  /** The account uses nothing, its release marker is in place, and it is refused. */
  lemma SwitchRefusedExample()
    ensures ConfigOk(BothTransports()) && EnabledRun(BothTransports(), Empty(), [DIAL] + ([Leave(false, 7, Some(7))] + []))
    ensures var w := Run(BothTransports(), Empty(), [DIAL] + ([Leave(false, 7, Some(7))] + []));
            && 7 in w.udp.dir.released && Usage(w, BothTransports()[1]) == 0
            && Enabled(BothTransports(), w, SWITCH) && SWITCH.r == Refused
  {
    var cfg, leave := BothTransports(), Leave(false, 7, Some(7));
    DialOnUdp();
    var w1 := Apply(cfg, Empty(), DIAL);
    assert 7 in LeasesOf(w1.udp.dir, 100);
    var w2 := Apply(cfg, w1, leave);
    assert w2.udp == Side(Dir(map[], map[7 := 0]), map[]);
    SwitchRefused(w2);
    Prepend(cfg, w1, leave, []);
    Prepend(cfg, Empty(), DIAL, [leave] + []);
  }

  // The third failing family: a failed dial left a second lease of the same session, and the hook
  // finds that one, which has expired, instead of the device's own.

  const FAILED_DIAL: Step := Connect(1, false, 100, {}, {}, false, Granted(7))
  const SECOND_DIAL: Step := Connect(1, false, 100, {}, {}, true, Granted(8))
  const TCP_DIAL: Step := Connect(1, true, 300, {}, {8}, true, Granted(17))
  const AGAIN: Step := Connect(1, false, 101, {8}, {17}, true, Refused)

  function OneAccount(): (cfg: Config) {
    map[1 := Blocks([7, 8], [17, 18])]
  }

  lemma TwoAddresses(x: Ip, y: Ip, s: set<Ip>)
    requires x != y
    ensures CountIn([x, y], s) == (if x in s then 1 else 0) + (if y in s then 1 else 0)
    ensures x !in s ==> FirstFree([x, y], s, x)
    ensures x in s && y !in s ==> FirstFree([x, y], s, y)
  {
    assert [x, y][..1] == [x] && [x, y][0] == x && [x, y][1] == y;
    OneAddress(x, s);
  }

  /** Session 100 dials in vain and gets 7; five seconds later it joins at 8. */
  lemma TwoDials()
    ensures Enabled(OneAccount(), Empty(), FAILED_DIAL)
    ensures var w := Apply(OneAccount(), Empty(), FAILED_DIAL).(now := 5 * SECOND);
            && w == World(5 * SECOND, Side(Dir(map[7 := Lease(0, 100)], map[]), map[]), Empty().tcp)
            && Enabled(OneAccount(), w, SECOND_DIAL)
            && Apply(OneAccount(), w, SECOND_DIAL) == OnUdp(5 * SECOND)
  {
    var d := Empty().udp.dir;
    assert InUse(d, {}, 0) == {} && {} + FreshLeases(d, 0).Keys == {} && FreshLeases(d, 0) == map[] && FreshReleases(d, 0) == map[];
    TwoAddresses(7, 8, {});
    TwoAddresses(17, 18, {});
    var w := Apply(OneAccount(), Empty(), FAILED_DIAL).(now := 5 * SECOND);
    SecondDial(w);
  }

  function OnUdp(now: nat): (w: World) {
    World(now, Side(Dir(map[7 := Lease(0, 100), 8 := Lease(5 * SECOND, 100)], map[]), map[8 := Device(100, 5 * SECOND)]), Empty().tcp)
  }

  lemma SecondDial(w: World)
    requires w == World(5 * SECOND, Side(Dir(map[7 := Lease(0, 100)], map[]), map[]), Empty().tcp)
    ensures Enabled(OneAccount(), w, SECOND_DIAL) && Apply(OneAccount(), w, SECOND_DIAL) == OnUdp(5 * SECOND)
  {
    var d, o := w.udp.dir, w.tcp.dir;
    assert FreshLeases(d, w.now) == d.leases && FreshReleases(d, w.now) == map[] && InUse(d, {}, w.now) == {7};
    assert {} + FreshLeases(o, w.now).Keys == {};
    TwoAddresses(7, 8, {7});
    TwoAddresses(17, 18, {});
  }

  function OnBoth(): (w: World) {
    var t := 31 * SECOND;
    OnUdp(t).(tcp := Side(Dir(map[17 := Lease(t, 300)], map[]), map[17 := Device(300, t)]))
  }

  lemma TcpDial()
    ensures var w := OnUdp(31 * SECOND); Enabled(OneAccount(), w, TCP_DIAL) && Apply(OneAccount(), w, TCP_DIAL) == OnBoth()
  {
    var w := OnUdp(31 * SECOND);
    var d, o := w.tcp.dir, w.udp.dir;
    assert FreshLeases(d, w.now) == map[] && FreshReleases(d, w.now) == map[] && InUse(d, {}, w.now) == {};
    assert {8} + FreshLeases(o, w.now).Keys == {8};
    TwoAddresses(17, 18, {});
    TwoAddresses(7, 8, {8});
  }

  /** The hook removed 7 and left the device's own lease, 8. */
  function AfterWrongLease(): (w: World) {
    OnBoth().(udp := Side(Dir(map[8 := Lease(5 * SECOND, 100)], map[7 := 31 * SECOND]), map[]))
  }

  lemma RefusedAgain()
    ensures Enabled(OneAccount(), AfterWrongLease(), AGAIN)
  {
    var w := AfterWrongLease();
    var d, o := w.udp.dir, w.tcp.dir;
    assert FreshLeases(d, w.now) == d.leases && FreshReleases(d, w.now) == d.released;
    assert Overruled(d, w.now) == {7} && InUse(d, {8}, w.now) == {8};
    assert {17} + FreshLeases(o, w.now).Keys == {17};
    TwoAddresses(7, 8, {8});
    TwoAddresses(17, 18, {17});
  }

  lemma WrongLeave()
    ensures var leave := Leave(false, 8, Some(7));
            Enabled(OneAccount(), OnBoth(), leave) && Apply(OneAccount(), OnBoth(), leave) == AfterWrongLease()
  {
    assert 7 in LeasesOf(OnBoth().udp.dir, 100);
    assert Disconnected(OnBoth().udp.dir, Some(7), 31 * SECOND) == AfterWrongLease().udp.dir;
    assert OnBoth().udp.live - {8} == map[];
  }

  lemma PrependTo(cfg: Config, w: World, st: Step, w': World, rest: seq<Step>, end: World)
    requires Enabled(cfg, w, st) && Apply(cfg, w, st) == w' && EnabledRun(cfg, w', rest) && Run(cfg, w', rest) == end
    ensures EnabledRun(cfg, w, [st] + rest) && Run(cfg, w, [st] + rest) == end
  {
    Prepend(cfg, w, st, rest);
  }

  function StoryEnd(): (steps: seq<Step>) {
    [Tick(26 * SECOND)] + ([TCP_DIAL] + ([Leave(false, 8, Some(7))] + []))
  }

  lemma StoryEnds()
    ensures EnabledRun(OneAccount(), OnUdp(5 * SECOND), StoryEnd()) && Run(OneAccount(), OnUdp(5 * SECOND), StoryEnd()) == AfterWrongLease()
  {
    var cfg, leave := OneAccount(), Leave(false, 8, Some(7));
    WrongLeave();
    TcpDial();
    PrependTo(cfg, OnBoth(), leave, AfterWrongLease(), [], AfterWrongLease());
    PrependTo(cfg, OnUdp(31 * SECOND), TCP_DIAL, OnBoth(), [leave] + [], AfterWrongLease());
    PrependTo(cfg, OnUdp(5 * SECOND), Tick(26 * SECOND), OnUdp(31 * SECOND), [TCP_DIAL] + ([leave] + []), AfterWrongLease());
  }

  function WrongLeaseStory(): (steps: seq<Step>) {
    [FAILED_DIAL] + ([Tick(5 * SECOND)] + ([SECOND_DIAL] + StoryEnd()))
  }

  /** A lease was found and a marker written, one device is left of the two allowed, and the account
      is refused on the transport it left. */
  lemma WrongLeaseExample()
    ensures ConfigOk(OneAccount()) && EnabledRun(OneAccount(), Empty(), WrongLeaseStory())
    ensures var w := Run(OneAccount(), Empty(), WrongLeaseStory());
            && 7 in w.udp.dir.released && |w.udp.live| + |w.tcp.live| == 1 && Limit(OneAccount()[1]) == 2
            && Enabled(OneAccount(), w, AGAIN) && AGAIN.r == Refused
  {
    WholeStory();
    RefusedAgain();
    OneDevice();
  }

  lemma OneDevice()
    ensures ConfigOk(OneAccount()) && Limit(OneAccount()[1]) == 2
    ensures var w := AfterWrongLease(); 7 in w.udp.dir.released && |w.udp.live| + |w.tcp.live| == 1
  {
  }

  lemma WholeStory()
    ensures EnabledRun(OneAccount(), Empty(), WrongLeaseStory()) && Run(OneAccount(), Empty(), WrongLeaseStory()) == AfterWrongLease()
  {
    var cfg, end := OneAccount(), AfterWrongLease();
    TwoDials();
    StoryEnds();
    var w1 := Apply(cfg, Empty(), FAILED_DIAL);
    var w2 := w1.(now := 5 * SECOND);
    PrependTo(cfg, w2, SECOND_DIAL, OnUdp(5 * SECOND), StoryEnd(), end);
    PrependTo(cfg, w1, Tick(5 * SECOND), w2, [SECOND_DIAL] + StoryEnd(), end);
    PrependTo(cfg, Empty(), FAILED_DIAL, w1, [Tick(5 * SECOND)] + ([SECOND_DIAL] + StoryEnd()), end);
  }
}
