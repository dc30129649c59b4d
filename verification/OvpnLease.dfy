/** The OpenVPN address-lease hook: which address of an account's block a new device gets,
    decided from a stale status view, short-lived lease files and release markers.  The
    directories are maps with modification times in nanoseconds. */
module OvpnLease {
  import opened Common

  type Ip = nat
  type Session = nat

  const SECOND: nat := 1_000_000_000
  const LEASE_TTL: nat := 30 * SECOND
  const RECLAIM_GRACE: nat := 10 * SECOND
  const RELEASE_TTL: nat := 15 * SECOND

  datatype Lease = Lease(mtime: nat, session: Session)

  /** The two directories of one transport: lease files and release markers, by address. */
  datatype Dir = Dir(leases: map<Ip, Lease>, released: map<Ip, nat>)

  datatype Outcome = NoBlock | Granted(ip: Ip) | Refused

  function Age(now: nat, mtime: nat): (d: int) {
    now - mtime
  }

  // ---------------------------------------------------------------- specification

  function FreshLeases(d: Dir, now: nat): (m: map<Ip, Lease>) {
    map ip | ip in d.leases && Age(now, d.leases[ip].mtime) <= LEASE_TTL :: d.leases[ip]
  }

  function FreshReleases(d: Dir, now: nat): (m: map<Ip, nat>) {
    map ip | ip in d.released && Age(now, d.released[ip]) <= RELEASE_TTL :: d.released[ip]
  }

  /** Addresses whose status entry is overruled: released and not leased since. */
  function Overruled(d: Dir, now: nat): (s: set<Ip>) {
    FreshReleases(d, now).Keys - FreshLeases(d, now).Keys
  }

  function InUse(d: Dir, status: set<Ip>, now: nat): (s: set<Ip>) {
    status + FreshLeases(d, now).Keys - Overruled(d, now)
  }

  function LiveStatus(d: Dir, status: set<Ip>, now: nat): (s: set<Ip>) {
    status - Overruled(d, now)
  }

  function CountIn(block: seq<Ip>, s: set<Ip>): (n: nat)
    ensures n <= |block|
    ensures n < |block| ==> exists i :: 0 <= i < |block| && block[i] !in s
  {
    if block == [] then 0
    else
      var n := CountIn(block[..|block| - 1], s) + (if block[|block| - 1] in s then 1 else 0);
      n
  }

  /** Slots of the account in use on both transports. */
  function Total(d: Dir, status: set<Ip>, block: seq<Ip>, o: Dir, oStatus: set<Ip>, oBlock: seq<Ip>, now: nat): (n: nat) {
    CountIn(block, InUse(d, status, now)) + CountIn(oBlock, oStatus + FreshLeases(o, now).Keys)
  }

  /** A lease older than the grace whose address the status does not list. */
  predicate IsGhost(d: Dir, status: set<Ip>, now: nat, ip: Ip) {
    && ip !in LiveStatus(d, status, now)
    && ip in FreshLeases(d, now)
    && Age(now, d.leases[ip].mtime) > RECLAIM_GRACE
  }

  predicate FirstFree(block: seq<Ip>, used: set<Ip>, ip: Ip) {
    exists i :: 0 <= i < |block| && block[i] == ip && ip !in used && forall j :: 0 <= j < i ==> block[j] in used
  }

  predicate OldestGhost(d: Dir, status: set<Ip>, now: nat, block: seq<Ip>, ip: Ip) {
    && ip in block && IsGhost(d, status, now, ip)
    && forall g :: g in block && IsGhost(d, status, now, g) ==> d.leases[ip].mtime <= d.leases[g].mtime
  }

  predicate NoGhost(d: Dir, status: set<Ip>, now: nat, block: seq<Ip>) {
    forall g :: g in block ==> !IsGhost(d, status, now, g)
  }

  /** The directories after a hook that granted `ip`, or granted nothing. */
  function Granting(d: Dir, now: nat, ip: Ip, session: Session): (r: Dir) {
    Dir(FreshLeases(d, now)[ip := Lease(now, session)], FreshReleases(d, now) - {ip})
  }

  function Purged(d: Dir, now: nat): (r: Dir) {
    Dir(FreshLeases(d, now), FreshReleases(d, now))
  }

  /** What the hook decides under the "reject" strategy. */
  predicate RejectDecision(d: Dir, status: set<Ip>, block: seq<Ip>, total: nat, now: nat, r: Outcome) {
    match r
    case NoBlock => false
    case Granted(ip) =>
      if total < |block| then FirstFree(block, InUse(d, status, now), ip)
      else OldestGhost(d, status, now, block, ip)
    case Refused => total >= |block| && NoGhost(d, status, now, block)
  }

  /** A lease that the evictor's fallback can choose: the oldest one not dated ahead. */
  predicate OldestLease(d: Dir, now: nat, ip: Ip) {
    ip in FreshLeases(d, now) && Age(now, d.leases[ip].mtime) >= 0 &&
    forall x :: x in FreshLeases(d, now) ==> d.leases[ip].mtime <= d.leases[x].mtime
  }

  /** What a dial comes to under either strategy.  Below the limit the first free address; at the limit
      the oldest ghost; then, under "accept", the address of the account's longest-connected device, or
      if the status names none, that of the oldest lease; and otherwise a refusal. */
  predicate DialOk(d: Dir, status: set<Ip>, block: seq<Ip>, total: nat, accept: bool, oldest: Option<Ip>, now: nat, r: Outcome, evict: bool) {
    && !r.NoBlock?
    && (total < |block| ==> r.Granted? && !evict && FirstFree(block, InUse(d, status, now), r.ip))
    && (total >= |block| && !NoGhost(d, status, now, block) ==> r.Granted? && !evict && OldestGhost(d, status, now, block, r.ip))
    && (total >= |block| && NoGhost(d, status, now, block) ==>
          && (!accept ==> r == Refused && !evict)
          && (accept && oldest.Some? ==> r == Granted(oldest.value) && evict)
          && (accept && oldest.None? && r.Granted? ==> evict && OldestLease(d, now, r.ip))
          && (accept && oldest.None? && r == Refused ==> !evict && forall x :: x in FreshLeases(d, now) ==> Age(now, d.leases[x].mtime) < 0))
  }

  // ---------------------------------------------------------------- the hook

  class LeaseStore {
    var udp: Dir
    var tcp: Dir

    constructor ()
      ensures udp == Dir(map[], map[]) && tcp == Dir(map[], map[])
    {
      udp, tcp := Dir(map[], map[]), Dir(map[], map[]);
    }

    function Own(isTcp: bool): Dir
      reads this
    {
      if isTcp then tcp else udp
    }

    method Store(isTcp: bool, d: Dir)
      modifies this
      ensures Own(isTcp) == d && Own(!isTcp) == old(Own(!isTcp))
    {
      if isTcp { tcp := d; } else { udp := d; }
    }

    /** `ovpnLeaseBlockIP`: `block` and `oBlock` are the address lists published for the account
        on this and the other transport (absent: None), `oldest` is what the status file names
        as the account's longest-connected device. */
    method LeaseBlockIp(isTcp: bool, block: Option<seq<Ip>>, oBlock: Option<seq<Ip>>, session: Session,
                        status: set<Ip>, oStatus: set<Ip>, accept: bool, oldest: Option<Ip>, now: nat)
      returns (r: Outcome, evict: bool)
      modifies this
      ensures block.None? <==> r == NoBlock
      ensures r == NoBlock ==> Own(isTcp) == old(Own(isTcp))
      ensures Own(!isTcp) == old(Own(!isTcp))
      ensures r == Refused ==> Own(isTcp) == Purged(old(Own(isTcp)), now)
      ensures r.Granted? ==> Own(isTcp) == Granting(old(Own(isTcp)), now, r.ip, session)
      ensures block.Some? && !evict && (r == Refused ==> !accept) ==>
        RejectDecision(old(Own(isTcp)), status, block.value,
                       Total(old(Own(isTcp)), status, block.value, old(Own(!isTcp)), oStatus,
                             if oBlock.Some? then oBlock.value else [], now), now, r)
      ensures block.Some? ==> DialOk(old(Own(isTcp)), status, block.value,
                                     Total(old(Own(isTcp)), status, block.value, old(Own(!isTcp)), oStatus,
                                           if oBlock.Some? then oBlock.value else [], now), accept, oldest, now, r, evict)
      ensures evict ==> accept && r.Granted?
    {
      evict := false;
      if block.None? { return NoBlock, false; }
      var d, o := Own(isTcp), Own(!isTcp);
      var candidates := block.value;
      var released := PurgeReleases(d, now);
      var leases := PurgeLeases(d, now);
      Store(isTcp, Dir(leases, released));
      var overruled := released.Keys - leases.Keys;
      var inUse := status + leases.Keys - overruled;
      var live := status - overruled;
      var used := CountUsed(candidates, inUse);
      if oBlock.Some? {
        var more := CountUsed(oBlock.value, oStatus + FreshLeases(o, now).Keys);
        used := used + more;
      }
      if used < |candidates| {
        var ip := PickFree(candidates, inUse);
        Grant(isTcp, ip, session, now);
        return Granted(ip), false;
      }
      var ghostIp := PickGhost(candidates, live, leases, now);
      if ghostIp.Some? {
        Grant(isTcp, ghostIp.value, session, now);
        return Granted(ghostIp.value), false;
      }
      if accept {
        var victim := oldest;
        if victim.None? {
          victim := OldestLeased(leases, now);
          if victim.None? { return Refused, false; }
        }
        Grant(isTcp, victim.value, session, now);
        return Granted(victim.value), true;
      }
      r := Refused;
    }

    /** The lease part of `openvpnDisconnect`: the first file of the session goes (directory
        order is arbitrary) and its address is marked as released. */
    method Disconnect(isTcp: bool, session: Session, now: nat) returns (x: Option<Ip>)
      modifies this
      ensures x.None? <==> LeasesOf(old(Own(isTcp)), session) == {}
      ensures x.Some? ==> x.value in LeasesOf(old(Own(isTcp)), session)
      ensures Own(isTcp) == Disconnected(old(Own(isTcp)), x, now) && Own(!isTcp) == old(Own(!isTcp))
    {
      var d := Own(isTcp);
      x := None;
      var todo := d.leases.Keys;
      while todo != {}
        invariant todo <= d.leases.Keys && Own(isTcp) == d && Own(!isTcp) == old(Own(!isTcp))
        invariant forall ip :: ip in d.leases && ip !in todo ==> d.leases[ip].session != session
        decreases todo
      {
        var ip :| ip in todo;
        if d.leases[ip].session == session {
          Store(isTcp, Dir(d.leases - {ip}, d.released[ip := now]));
          assert ip in LeasesOf(d, session);
          return Some(ip);
        }
        todo := todo - {ip};
      }
    }

    /** `ovpnWriteLease` and `ovpnClearRelease`. */
    method Grant(isTcp: bool, ip: Ip, session: Session, now: nat)
      modifies this
      ensures Own(isTcp) == Dir(old(Own(isTcp)).leases[ip := Lease(now, session)], old(Own(isTcp)).released - {ip})
      ensures Own(!isTcp) == old(Own(!isTcp))
    {
      var d := Own(isTcp);
      Store(isTcp, Dir(d.leases[ip := Lease(now, session)], d.released - {ip}));
    }
  }

  /** The scan of the lease directory: stale files are removed, the rest is kept. */
  method PurgeLeases(d: Dir, now: nat) returns (m: map<Ip, Lease>)
    ensures m == FreshLeases(d, now)
    ensures m == map ip | ip in d.leases && now - d.leases[ip].mtime <= 30_000_000_000 :: d.leases[ip]
  {
    m := d.leases;
    var todo := d.leases.Keys;
    while todo != {}
      invariant todo <= d.leases.Keys
      invariant m == map ip | ip in d.leases && (ip in todo || Age(now, d.leases[ip].mtime) <= LEASE_TTL) :: d.leases[ip]
      decreases todo
    {
      var ip :| ip in todo;
      if Age(now, d.leases[ip].mtime) > LEASE_TTL {
        m := m - {ip};
      }
      todo := todo - {ip};
    }
  }

  method PurgeReleases(d: Dir, now: nat) returns (m: map<Ip, nat>)
    ensures m == FreshReleases(d, now)
    ensures m == map ip | ip in d.released && now - d.released[ip] <= 15_000_000_000 :: d.released[ip]
  {
    m := d.released;
    var todo := d.released.Keys;
    while todo != {}
      invariant todo <= d.released.Keys
      invariant m == map ip | ip in d.released && (ip in todo || Age(now, d.released[ip]) <= RELEASE_TTL) :: d.released[ip]
      decreases todo
    {
      var ip :| ip in todo;
      if Age(now, d.released[ip]) > RELEASE_TTL {
        m := m - {ip};
      }
      todo := todo - {ip};
    }
  }

  /** The addresses leased to a session: the file a disconnect finds is one of them. */
  function LeasesOf(d: Dir, session: Session): (s: set<Ip>) {
    set ip | ip in d.leases && d.leases[ip].session == session
  }

  /** The directories after a disconnect that found the lease `x`, or none. */
  function Disconnected(d: Dir, x: Option<Ip>, now: nat): (r: Dir) {
    if x.None? then d else Dir(d.leases - {x.value}, d.released[x.value := now])
  }

  method CountUsed(block: seq<Ip>, s: set<Ip>) returns (n: nat)
    ensures n == CountIn(block, s)
  {
    n := 0;
    var i := 0;
    while i < |block|
      invariant 0 <= i <= |block| && n == CountIn(block[..i], s)
    {
      assert block[..i + 1][..i] == block[..i];
      if block[i] in s { n := n + 1; }
      i := i + 1;
    }
    assert block[..i] == block;
  }

  method PickFree(block: seq<Ip>, used: set<Ip>) returns (ip: Ip)
    requires CountIn(block, used) < |block|
    ensures FirstFree(block, used, ip)
  {
    ghost var k :| 0 <= k < |block| && block[k] !in used;
    var i := 0;
    while block[i] in used
      invariant 0 <= i <= k && forall j :: 0 <= j < i ==> block[j] in used
      decreases |block| - i
    {
      i := i + 1;
    }
    ip := block[i];
  }

  /** The loop over the candidates that keeps the oldest ghost seen so far. */
  method PickGhost(block: seq<Ip>, live: set<Ip>, leases: map<Ip, Lease>, now: nat) returns (g: Option<Ip>)
    ensures g.Some? ==>
      && g.value in block && g.value !in live && g.value in leases && Age(now, leases[g.value].mtime) > RECLAIM_GRACE
      && forall x :: x in block && x !in live && x in leases && Age(now, leases[x].mtime) > RECLAIM_GRACE ==>
           leases[g.value].mtime <= leases[x].mtime
    ensures g.None? ==>
      forall x :: x in block && x !in live && x in leases ==> Age(now, leases[x].mtime) <= RECLAIM_GRACE
    ensures g.Some? <==> exists x :: x in block && x !in live && x in leases && now - leases[x].mtime > 10_000_000_000
  {
    g := None;
    var best: int := 0;
    var i := 0;
    while i < |block|
      invariant 0 <= i <= |block|
      invariant g.None? ==> best == 0
      invariant g.None? ==>
        forall x :: x in block[..i] && x !in live && x in leases ==> Age(now, leases[x].mtime) <= RECLAIM_GRACE
      invariant g.Some? ==>
        && g.value in block && g.value !in live && g.value in leases && best == Age(now, leases[g.value].mtime) > RECLAIM_GRACE
        && forall x :: x in block[..i] && x !in live && x in leases && Age(now, leases[x].mtime) > RECLAIM_GRACE ==>
             leases[g.value].mtime <= leases[x].mtime
    {
      var ip := block[i];
      assert block[..i + 1] == block[..i] + [ip];
      if ip !in live && ip in leases {
        var age := Age(now, leases[ip].mtime);
        if age > RECLAIM_GRACE && age > best {
          g, best := Some(ip), age;
        }
      }
      i := i + 1;
    }
    assert block[..i] == block;
  }

  /** `oldestLeasedIP`: over every lease of the directory, not only the account's. */
  method OldestLeased(leases: map<Ip, Lease>, now: nat) returns (v: Option<Ip>)
    ensures v.None? ==> forall x :: x in leases ==> Age(now, leases[x].mtime) < 0
    ensures v.Some? ==> v.value in leases && Age(now, leases[v.value].mtime) >= 0
    ensures v.Some? ==> forall x :: x in leases ==> leases[v.value].mtime <= leases[x].mtime
  {
    v := None;
    var oldest: int := -1;
    var todo := leases.Keys;
    while todo != {}
      invariant todo <= leases.Keys && oldest >= -1
      invariant v.None? ==> oldest == -1
      invariant v.Some? ==> v.value in leases && oldest == Age(now, leases[v.value].mtime) >= 0
      invariant forall x :: x in leases && x !in todo ==> Age(now, leases[x].mtime) <= oldest
      decreases todo
    {
      var x :| x in todo;
      var age := Age(now, leases[x].mtime);
      if age > oldest {
        oldest, v := age, Some(x);
      }
      todo := todo - {x};
    }
  }
}
