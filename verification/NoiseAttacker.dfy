/** The handshake against an attacker who owns the network: who can produce a message that an honest
    party accepts.  The attacker computes with every term it knows and with the scalars and preshared
    keys it holds; honest parties of any number run any number of sessions with whatever they are sent. */
module NoiseAttacker {
  import opened Common
  import opened Symbolic
  import opened Noise

  // ---------------------------------------------------------------- attacker and runs

  datatype Attacker = Attacker(scalars: set<Secret>, psks: set<nat>)

  type Knowledge = set<Term>

  /** Names, bytes, times, preshared keys it holds, and every public key. */
  predicate Given(att: Attacker, t: Term) {
    match t
    case Zeroed => true
    case Construction => true
    case Identifier => true
    case Nothing => true
    case Byte(_) => true
    case Timestamp(_) => true
    case Psk(k) => k in att.psks
    case PointBytes(p) => p.LowOrder? || |p.scalars| <= 1
    case _ => false
  }

  predicate Composed(kn: Knowledge, t: Term) {
    match t
    case Pair(l, r) => l in kn && r in kn
    case Hash(s, d) => s in kn && d in kn
    case Hmac(k, i) => k in kn && i in kn
    case Aead(k, ad, p) => k in kn && ad in kn && p in kn
    case _ => false
  }

  /** A part of a pair, or what a ciphertext opens to with a known key. */
  ghost predicate Opens(kn: Knowledge, u: Term, t: Term) {
    u in kn && ((u.Pair? && (t == u.l || t == u.r)) || (u.Aead? && u.secret in kn && t == u.plain))
  }

  /** A known point multiplied, or divided, by a scalar it holds. */
  ghost predicate Moved(att: Attacker, kn: Knowledge, x: Secret, p: Point, t: Term) {
    x in att.scalars && PointBytes(p) in kn && t.PointBytes? && (t.p == Dh(x, p) || p == Dh(x, t.p))
  }

  ghost predicate CanMake(att: Attacker, kn: Knowledge, t: Term) {
    || Given(att, t) || Composed(kn, t)
    || (exists u :: Opens(kn, u, t))
    || (exists x, p :: Moved(att, kn, x, p, t))
  }

  datatype Event =
    | Make(t: Term)
    | Initiate(si: Secret, rs: Point, ei: Secret, time: nat)
    | Answer(sr: Secret, s: Point, e: Point, time: nat, er: Secret, psk: Term)

  function Transcript(si: Secret, rs: Point, ei: Secret, time: nat): (f: First) {
    FirstMessage(rs, Pub(ei), Dh(ei, rs), Pub(si), Dh(si, rs), time)
  }

  /** The confirmation of a responder that took `e` for the ephemeral and `s` for the static key of
      its peer. */
  function Confirmation(sr: Secret, s: Point, e: Point, time: nat, er: Secret, psk: Term): (c: Term) {
    SecondMessage(FirstMessage(Pub(sr), e, Dh(sr, e), s, Dh(sr, s), time).sym, Pub(er), Dh(er, e), Dh(er, s), psk).encNothing
  }

  function Sealed(ev: Event): (r: set<Term>) {
    match ev
    case Make(_) => {}
    case Initiate(si, rs, ei, time) => {Transcript(si, rs, ei, time).encStatic, Transcript(si, rs, ei, time).encTime}
    case Answer(sr, s, e, time, er, psk) => {Confirmation(sr, s, e, time, er, psk)}
  }

  function Shown(ev: Event): (r: set<Term>) {
    Sealed(ev) + if ev.Make? then {ev.t} else {}
  }

  function Known(evs: seq<Event>): (kn: Knowledge) {
    if evs == [] then {} else Known(evs[..|evs| - 1]) + Shown(evs[|evs| - 1])
  }

  function Honest(evs: seq<Event>): (r: set<Term>) {
    if evs == [] then {} else Honest(evs[..|evs| - 1]) + Sealed(evs[|evs| - 1])
  }

  /** Honest parties act at any time; the attacker makes only what it can. */
  ghost predicate Possible(att: Attacker, evs: seq<Event>) {
    evs == [] ||
    (var past, ev := evs[..|evs| - 1], evs[|evs| - 1];
     Possible(att, past) && (ev.Make? ==> CanMake(att, Known(past), ev.t)))
  }

  // ---------------------------------------------------------------- what stays secret

  /** A secret that the attacker lacks: a Diffie-Hellman value of two scalars, or a preshared key. */
  datatype Guard = Scalars(a: Secret, b: Secret) | Preshared(k: nat)

  predicate Lacks(att: Attacker, g: Guard) {
    match g
    case Scalars(a, b) => a !in att.scalars && b !in att.scalars
    case Preshared(k) => k !in att.psks
  }

  predicate HotPoint(g: Guard, p: Point) {
    g.Scalars? && p.Pt? && multiset{g.a, g.b} <= p.scalars
  }

  /** Terms that cannot be had without the guarded secret. */
  predicate Hot(g: Guard, t: Term) {
    match t
    case PointBytes(p) => HotPoint(g, p)
    case Psk(k) => g == Preshared(k)
    case Hmac(k, i) => Hot(g, k) || Hot(g, i)
    case _ => false
  }

  /** Not hot itself, gives nothing hot away, and sealed under a hot key only by honest parties. */
  predicate Tame(g: Guard, honest: set<Term>, t: Term) {
    && !Hot(g, t)
    && match t
       case Pair(l, r) => Tame(g, honest, l) && Tame(g, honest, r)
       case Aead(k, _, p) => if Hot(g, k) then t in honest else Tame(g, honest, p)
       case _ => true
  }

  ghost predicate AllTame(g: Guard, honest: set<Term>, kn: Knowledge) {
    forall t :: t in kn ==> Tame(g, honest, t)
  }

  lemma {:induction false} TameGrows(g: Guard, h: set<Term>, h': set<Term>, t: Term)
    requires Tame(g, h, t) && h <= h'
    ensures Tame(g, h', t)
  {
    match t
    case Pair(l, r) => TameGrows(g, h, h', l); TameGrows(g, h, h', r);
    case Aead(k, ad, p) => if !Hot(g, k) { TameGrows(g, h, h', p); }
    case _ =>
  }

  lemma ShortPointCold(g: Guard, p: Point)
    ensures HotPoint(g, p) ==> |p.scalars| >= 2
  {
    if HotPoint(g, p) {
      assert p.scalars == multiset{g.a, g.b} + (p.scalars - multiset{g.a, g.b});
    }
  }

  /** Multiplying or dividing by a scalar that is not guarded makes no guarded point. */
  lemma MovedCold(att: Attacker, g: Guard, kn: Knowledge, x: Secret, p: Point, t: Term)
    requires Lacks(att, g) && Moved(att, kn, x, p, t) && !HotPoint(g, p)
    ensures !HotPoint(g, t.p)
  {
  }

  lemma {:induction false} ComposedTame(g: Guard, honest: set<Term>, kn: Knowledge, t: Term)
    requires AllTame(g, honest, kn) && Composed(kn, t)
    ensures Tame(g, honest, t)
  {
  }

  lemma {:induction false} OpensTame(g: Guard, honest: set<Term>, kn: Knowledge, u: Term, t: Term)
    requires AllTame(g, honest, kn) && Opens(kn, u, t)
    ensures Tame(g, honest, t)
  {
    assert Tame(g, honest, u);
  }

  /** Nothing the attacker computes leaves the tame terms. */
  lemma {:induction false} MakesTame(att: Attacker, g: Guard, honest: set<Term>, kn: Knowledge, t: Term)
    requires Lacks(att, g) && AllTame(g, honest, kn) && CanMake(att, kn, t)
    ensures Tame(g, honest, t)
  {
    if Given(att, t) {
      if t.PointBytes? { ShortPointCold(g, t.p); }
    } else if Composed(kn, t) {
      ComposedTame(g, honest, kn, t);
    } else if u :| Opens(kn, u, t) {
      OpensTame(g, honest, kn, u, t);
    } else {
      var x, p :| Moved(att, kn, x, p, t);
      assert Tame(g, honest, PointBytes(p));
      MovedCold(att, g, kn, x, p, t);
    }
  }

  lemma {:induction false} SealedTame(g: Guard, honest: set<Term>, ev: Event)
    requires Sealed(ev) <= honest
    ensures AllTame(g, honest, Sealed(ev))
  {
    forall t | t in Sealed(ev) ensures Tame(g, honest, t) {
      assert t.Aead?;
      if t.plain.PointBytes? { ShortPointCold(g, t.plain.p); }
    }
  }

  lemma {:induction false} RunTame(att: Attacker, g: Guard, evs: seq<Event>)
    requires Possible(att, evs) && Lacks(att, g)
    ensures AllTame(g, Honest(evs), Known(evs))
  {
    if evs != [] {
      var past, ev := evs[..|evs| - 1], evs[|evs| - 1];
      RunTame(att, g, past);
      forall t | t in Known(past) ensures Tame(g, Honest(evs), t) { TameGrows(g, Honest(past), Honest(evs), t); }
      SealedTame(g, Honest(evs), ev);
      if ev.Make? { MakesTame(att, g, Honest(evs), Known(past), ev.t); }
    }
  }

  // ---------------------------------------------------------------- who made the message

  lemma {:induction false} HonestEvent(evs: seq<Event>, c: Term) returns (i: nat)
    requires c in Honest(evs)
    ensures i < |evs| && c in Sealed(evs[i])
  {
    if c in Sealed(evs[|evs| - 1]) {
      i := |evs| - 1;
    } else {
      i := HonestEvent(evs[..|evs| - 1], c);
    }
  }

  /** A ciphertext under a hot key comes from an honest party. */
  lemma HotSealIsHonest(att: Attacker, g: Guard, evs: seq<Event>, c: Term) returns (i: nat)
    requires Possible(att, evs) && Lacks(att, g) && c in Known(evs) && c.Aead? && Hot(g, c.secret)
    ensures i < |evs| && c in Sealed(evs[i])
  {
    RunTame(att, g, evs);
    assert Tame(g, Honest(evs), c);
    i := HonestEvent(evs, c);
  }

  /** One of the secrets that protect this session. */
  predicate Protects(g: Guard, si: Secret, rs: Point, ei: Secret, psk: Term) {
    match g
    case Scalars(a, b) => (a == si || a == ei) && rs == Pub(b)
    case Preshared(k) => psk == Psk(k)
  }

  lemma HotKdf(g: Guard, ck: Term, data: Term)
    requires Hot(g, ck) || Hot(g, data)
    ensures Hot(g, Kdf1(ck, data)) && Hot(g, Kdf2(ck, data)) && Hot(g, Kdf3(ck, data))
  {
    assert Hot(g, Extract(ck, data));
  }

  lemma TranscriptHot(g: Guard, si: Secret, rs: Point, ei: Secret, time: nat, psk: Term)
    requires Protects(g, si, rs, ei, psk) && g.Scalars?
    ensures Hot(g, Transcript(si, rs, ei, time).sym.ck)
  {
    var s0 := TokenE(Noise.Start(rs), Pub(ei));
    var es, ss := PointBytes(Dh(ei, rs)), PointBytes(Dh(si, rs));
    assert Hot(g, es) || Hot(g, ss);
    if Hot(g, es) { HotKdf(g, s0.ck, es); }
    HotKdf(g, Kdf1(s0.ck, es), ss);
  }

  lemma ConfirmationKeyHot(g: Guard, si: Secret, rs: Point, ei: Secret, time: nat, psk: Term, e: Point, ee: Point, se: Point)
    requires Protects(g, si, rs, ei, psk)
    ensures Hot(g, SecondMessage(Transcript(si, rs, ei, time).sym, e, ee, se, psk).encNothing.secret)
  {
    var s0 := TokenE(Transcript(si, rs, ei, time).sym, e);
    var s1 := MixKey(s0, PointBytes(ee));
    var s2 := MixKey(s1, PointBytes(se));
    if g.Scalars? {
      TranscriptHot(g, si, rs, ei, time, psk);
      HotKdf(g, Transcript(si, rs, ei, time).sym.ck, PointBytes(e));
      HotKdf(g, s0.ck, PointBytes(ee));
      HotKdf(g, s1.ck, PointBytes(se));
    }
    HotKdf(g, s2.ck, psk);
  }

  /** This event is the answer of the responder `rs` to that very initiation, with ephemeral `e`. */
  predicate Answers(ev: Event, si: Secret, rs: Point, ei: Secret, time: nat, psk: Term, e: Point) {
    ev.Answer? && Pub(ev.sr) == rs && ev.s == Pub(si) && ev.e == Pub(ei) && ev.time == time && ev.psk == psk && e == Pub(ev.er)
  }

  /** What `ConsumeResponse` requires of the confirmation. */
  predicate Accepted(si: Secret, rs: Point, ei: Secret, time: nat, psk: Term, m: Response) {
    m.encNothing == SecondMessage(Transcript(si, rs, ei, time).sym, m.e, Dh(ei, m.e), Dh(si, m.e), psk).encNothing
  }

  lemma AcceptedAnswer(si: Secret, rs: Point, ei: Secret, time: nat, psk: Term, m: Response, ev: Event)
    requires Accepted(si, rs, ei, time, psk, m) && m.encNothing in Sealed(ev)
    ensures Answers(ev, si, rs, ei, time, psk, m.e)
  {
    assert m.encNothing.plain == Nothing;
    assert ev.Answer?;
    ResponseAuthenticates(si, rs, ei, time, psk, ev.sr, ev.s, ev.e, ev.time, ev.er, ev.psk, m);
  }

  /** An initiator that accepts a response, whatever the attacker did, accepts the answer of the
      responder it meant to its own initiation, if one of the protecting secrets is not lost. */
  lemma ResponseIsGenuine(att: Attacker, g: Guard, evs: seq<Event>, si: Secret, rs: Point, ei: Secret, time: nat, psk: Term, m: Response)
    returns (i: nat)
    requires Possible(att, evs) && Lacks(att, g) && Protects(g, si, rs, ei, psk)
    requires m.encNothing in Known(evs) && Accepted(si, rs, ei, time, psk, m)
    ensures i < |evs| && Answers(evs[i], si, rs, ei, time, psk, m.e)
  {
    ConfirmationKeyHot(g, si, rs, ei, time, psk, m.e, Dh(ei, m.e), Dh(si, m.e));
    i := HotSealIsHonest(att, g, evs, m.encNothing);
    AcceptedAnswer(si, rs, ei, time, psk, m, evs[i]);
  }

  /** A responder that accepts an initiation from `Pub(si)` accepts one that its owner made for it,
      with that ephemeral key and that time, if neither static secret is lost. */
  lemma InitiationIsGenuine(att: Attacker, evs: seq<Event>, sr: Secret, si: Secret, time: nat, m: Initiation) returns (i: nat)
    requires Possible(att, evs) && si !in att.scalars && sr !in att.scalars && m.encTime in Known(evs)
    requires var f := FirstMessage(Pub(sr), m.e, Dh(sr, m.e), Pub(si), Dh(sr, Pub(si)), time);
             m.encStatic == f.encStatic && m.encTime == f.encTime
    ensures i < |evs| && evs[i].Initiate? && evs[i].si == si && evs[i].rs == Pub(sr) && Pub(evs[i].ei) == m.e && evs[i].time == time
    ensures m.encStatic == Transcript(evs[i].si, evs[i].rs, evs[i].ei, evs[i].time).encStatic
  {
    var g := Scalars(si, sr);
    DhCommutes(si, sr);
    assert Hot(g, m.encTime.secret);
    i := HotSealIsHonest(att, g, evs, m.encTime);
    InitiationOf(sr, si, time, m, evs[i]);
  }

  lemma InitiationOf(sr: Secret, si: Secret, time: nat, m: Initiation, ev: Event)
    requires var f := FirstMessage(Pub(sr), m.e, Dh(sr, m.e), Pub(si), Dh(sr, Pub(si)), time);
             m.encStatic == f.encStatic && m.encTime == f.encTime
    requires m.encTime in Sealed(ev)
    ensures ev.Initiate? && ev.si == si && ev.rs == Pub(sr) && Pub(ev.ei) == m.e && ev.time == time
    ensures m.encStatic == Transcript(ev.si, ev.rs, ev.ei, ev.time).encStatic
  {
    assert m.encTime.plain == Timestamp(time);
    assert ev.Initiate?;
    var f := Transcript(ev.si, ev.rs, ev.ei, ev.time);
    assert m.encTime == f.encTime;
    assert Pub(ev.si).scalars == Pub(si).scalars;
  }

  // ---------------------------------------------------------------- what the attacker can do

  /** A Diffie-Hellman value of a public key and a scalar it holds. */
  ghost predicate OwnDh(att: Attacker, x: Secret, y: Secret, t: Term) {
    x in att.scalars && t == PointBytes(Dh(x, Pub(y)))
  }

  ghost predicate Buildable(att: Attacker, t: Term) {
    || Given(att, t)
    || (exists x, y :: OwnDh(att, x, y, t))
    || match t
       case Pair(l, r) => Buildable(att, l) && Buildable(att, r)
       case Hash(s, d) => Buildable(att, s) && Buildable(att, d)
       case Hmac(k, i) => Buildable(att, k) && Buildable(att, i)
       case Aead(k, ad, p) => Buildable(att, k) && Buildable(att, ad) && Buildable(att, p)
       case _ => false
  }

  /** A run in which the attacker works alone. */
  ghost predicate Alone(att: Attacker, evs: seq<Event>) {
    Possible(att, evs) && forall i :: 0 <= i < |evs| ==> evs[i].Make?
  }

  lemma MakeNext(att: Attacker, evs: seq<Event>, t: Term)
    requires Alone(att, evs) && CanMake(att, Known(evs), t)
    ensures Alone(att, evs + [Make(t)]) && Known(evs + [Make(t)]) == Known(evs) + {t}
  {
    assert (evs + [Make(t)])[..|evs|] == evs;
  }

  lemma BuildPoint(att: Attacker, evs: seq<Event>, x: Secret, y: Secret, t: Term) returns (r: seq<Event>)
    requires Alone(att, evs) && OwnDh(att, x, y, t)
    ensures Alone(att, r) && Known(evs) <= Known(r) && t in Known(r)
  {
    var base := PointBytes(Pub(y));
    MakeNext(att, evs, base);
    r := evs + [Make(base)];
    assert Moved(att, Known(r), x, Pub(y), t);
    MakeNext(att, r, t);
    r := r + [Make(t)];
  }

  lemma {:induction false} Build(att: Attacker, evs: seq<Event>, t: Term) returns (r: seq<Event>)
    requires Alone(att, evs) && Buildable(att, t)
    ensures Alone(att, r) && Known(evs) <= Known(r) && t in Known(r)
    decreases t
  {
    r := evs;
    if x, y :| OwnDh(att, x, y, t) {
      r := BuildPoint(att, evs, x, y, t);
      return;
    }
    if !Given(att, t) {
      match t
      case Pair(a, b) => r := Build(att, r, a); r := Build(att, r, b);
      case Hash(a, b) => r := Build(att, r, a); r := Build(att, r, b);
      case Hmac(a, b) => r := Build(att, r, a); r := Build(att, r, b);
      case Aead(a, b, c) => r := Build(att, r, a); r := Build(att, r, b); r := Build(att, r, c);
    }
    MakeNext(att, r, t);
    r := r + [Make(t)];
  }

  lemma BuildableKdf(att: Attacker, ck: Term, data: Term)
    requires Buildable(att, ck) && Buildable(att, data)
    ensures Buildable(att, Kdf1(ck, data)) && Buildable(att, Kdf2(ck, data)) && Buildable(att, Kdf3(ck, data))
  {
    assert Buildable(att, Extract(ck, data));
    assert Buildable(att, Kdf1(ck, data));
    assert Buildable(att, Pair(Kdf1(ck, data), Byte(2)));
    assert Buildable(att, Kdf2(ck, data));
    assert Buildable(att, Pair(Kdf2(ck, data), Byte(3)));
  }

  ghost predicate BuildableSym(att: Attacker, s: Sym) {
    Buildable(att, s.ck) && Buildable(att, s.h)
  }

  lemma BuildableDhSeal(att: Attacker, s: Sym, dh: Point, plain: Term)
    requires BuildableSym(att, s) && Buildable(att, PointBytes(dh)) && Buildable(att, plain)
    ensures var c := Aead(DhKey(s, dh), s.h, plain);
            Buildable(att, c) && BuildableSym(att, MixHash(MixKey(s, PointBytes(dh)), c))
  {
    BuildableKdf(att, s.ck, PointBytes(dh));
    var c := Aead(DhKey(s, dh), s.h, plain);
    assert Buildable(att, c);
  }

  lemma BuildableTokenE(att: Attacker, s: Sym, e: Point)
    requires BuildableSym(att, s) && Buildable(att, PointBytes(e))
    ensures BuildableSym(att, TokenE(s, e))
  {
    BuildableKdf(att, s.ck, PointBytes(e));
  }

  lemma BuildableStart(att: Attacker, rs: Point)
    requires Buildable(att, PointBytes(rs))
    ensures BuildableSym(att, Noise.Start(rs))
  {
    var c0 := Hash(Construction, Nothing);
    assert Buildable(att, Construction) && Buildable(att, Nothing) && Buildable(att, Identifier);
    assert Buildable(att, c0);
    assert Buildable(att, Hash(c0, Identifier));
  }

  lemma BuildableFirst(att: Attacker, rs: Point, e: Point, es: Point, s: Point, ss: Point, time: nat)
    requires Buildable(att, PointBytes(rs)) && Buildable(att, PointBytes(e)) && Buildable(att, PointBytes(s))
    requires Buildable(att, PointBytes(es)) && Buildable(att, PointBytes(ss))
    ensures var f := FirstMessage(rs, e, es, s, ss, time);
            BuildableSym(att, f.sym) && Buildable(att, f.encStatic) && Buildable(att, f.encTime)
  {
    BuildableStart(att, rs);
    var s0 := TokenE(Noise.Start(rs), e);
    BuildableTokenE(att, Noise.Start(rs), e);
    BuildableDhSeal(att, s0, es, PointBytes(s));
    var s1 := MixHash(MixKey(s0, PointBytes(es)), Aead(DhKey(s0, es), s0.h, PointBytes(s)));
    BuildableDhSeal(att, s1, ss, Timestamp(time));
  }

  lemma BuildableSecond(att: Attacker, s: Sym, e: Point, ee: Point, se: Point, psk: Term)
    requires BuildableSym(att, s) && Buildable(att, PointBytes(e)) && Buildable(att, psk)
    requires Buildable(att, PointBytes(ee)) && Buildable(att, PointBytes(se))
    ensures Buildable(att, SecondMessage(s, e, ee, se, psk).encNothing) && Buildable(att, SecondMessage(s, e, ee, se, psk).sym.ck)
  {
    BuildableTokenE(att, s, e);
    var s0 := TokenE(s, e);
    BuildableKdf(att, s0.ck, PointBytes(ee));
    var s1 := MixKey(s0, PointBytes(ee));
    BuildableKdf(att, s1.ck, PointBytes(se));
    var s2 := MixKey(s1, PointBytes(se));
    BuildableKdf(att, s2.ck, psk);
    assert Buildable(att, Hash(s2.h, Kdf2(s2.ck, psk)));
  }

  /** A response that the initiator accepts although the responder never gave that answer. */
  ghost predicate Forgery(att: Attacker, evs: seq<Event>, si: Secret, rs: Point, ei: Secret, time: nat, psk: Term, m: Response) {
    && Possible(att, evs) && m.encNothing in Known(evs)
    && DhOk(ei, m.e) && DhOk(si, m.e) && Accepted(si, rs, ei, time, psk, m)
    && forall i :: 0 <= i < |evs| ==> !Answers(evs[i], si, rs, ei, time, psk, m.e)
  }

  /** The secrets whose loss lets the attacker answer: the preshared key, and with it the responder's
      static secret or both secrets of the initiator. */
  predicate Lost(att: Attacker, si: Secret, sr: Secret, ei: Secret, k: nat) {
    k in att.psks && (sr in att.scalars || (si in att.scalars && ei in att.scalars))
  }

  lemma Forge(att: Attacker, si: Secret, sr: Secret, ei: Secret, time: nat, k: nat) returns (evs: seq<Event>, m: Response)
    requires Lost(att, si, sr, ei, k)
    ensures Forgery(att, evs, si, Pub(sr), ei, time, Psk(k), m)
  {
    var x := if sr in att.scalars then sr else si;
    var f := Transcript(si, Pub(sr), ei, time);
    DhCommutes(ei, sr);
    DhCommutes(si, sr);
    DhCommutes(ei, x);
    DhCommutes(si, x);
    var es, ss, ee, se := Dh(ei, Pub(sr)), Dh(si, Pub(sr)), Dh(ei, Pub(x)), Dh(si, Pub(x));
    if sr in att.scalars {
      assert OwnDh(att, sr, ei, PointBytes(es)) && OwnDh(att, sr, si, PointBytes(ss));
    } else {
      assert OwnDh(att, ei, sr, PointBytes(es)) && OwnDh(att, si, sr, PointBytes(ss));
    }
    assert OwnDh(att, x, ei, PointBytes(ee)) && OwnDh(att, x, si, PointBytes(se));
    BuildableFirst(att, Pub(sr), Pub(ei), es, Pub(si), ss, time);
    BuildableSecond(att, f.sym, Pub(x), ee, se, Psk(k));
    var c := SecondMessage(f.sym, Pub(x), ee, se, Psk(k)).encNothing;
    evs := Build(att, [], c);
    m := Response(0, 0, Pub(x), c);
  }

  lemma NoForgery(att: Attacker, evs: seq<Event>, si: Secret, sr: Secret, ei: Secret, time: nat, k: nat, m: Response)
    requires !Lost(att, si, sr, ei, k)
    ensures !Forgery(att, evs, si, Pub(sr), ei, time, Psk(k), m)
  {
    if Forgery(att, evs, si, Pub(sr), ei, time, Psk(k), m) {
      var g := if k !in att.psks then Preshared(k) else if si !in att.scalars then Scalars(si, sr) else Scalars(ei, sr);
      var i := ResponseIsGenuine(att, g, evs, si, Pub(sr), ei, time, Psk(k), m);
    }
  }

  /** Exactly when a response can be forged. */
  lemma ForgeryIff(att: Attacker, si: Secret, sr: Secret, ei: Secret, time: nat, k: nat)
    ensures (exists evs, m :: Forgery(att, evs, si, Pub(sr), ei, time, Psk(k), m)) <==> Lost(att, si, sr, ei, k)
  {
    if Lost(att, si, sr, ei, k) {
      var evs, m := Forge(att, si, sr, ei, time, k);
    } else {
      forall evs, m ensures !Forgery(att, evs, si, Pub(sr), ei, time, Psk(k), m) {
        NoForgery(att, evs, si, sr, ei, time, k, m);
      }
    }
  }

  // ---------------------------------------------------------------- forged initiations

  /** This event is the initiation that `Pub(si)` made for `Pub(sr)`, with ephemeral `e`. */
  predicate Initiates(ev: Event, si: Secret, sr: Secret, e: Point, time: nat) {
    ev.Initiate? && ev.si == si && ev.rs == Pub(sr) && Pub(ev.ei) == e && ev.time == time
  }

  /** What `ConsumeInitiation` requires of the two ciphertexts. */
  predicate TakenFor(sr: Secret, si: Secret, time: nat, m: Initiation) {
    var f := FirstMessage(Pub(sr), m.e, Dh(sr, m.e), Pub(si), Dh(sr, Pub(si)), time);
    DhOk(sr, m.e) && m.encStatic == f.encStatic && m.encTime == f.encTime
  }

  /** An initiation that the responder takes for one of `Pub(si)`, which never made it. */
  ghost predicate ForgedInitiation(att: Attacker, evs: seq<Event>, sr: Secret, si: Secret, time: nat, m: Initiation) {
    && Possible(att, evs) && m.encStatic in Known(evs) && m.encTime in Known(evs) && TakenFor(sr, si, time, m)
    && forall i :: 0 <= i < |evs| ==> !Initiates(evs[i], si, sr, m.e, time)
  }

  lemma ForgeInitiation(att: Attacker, sr: Secret, si: Secret, time: nat) returns (evs: seq<Event>, m: Initiation)
    requires si in att.scalars || sr in att.scalars
    ensures ForgedInitiation(att, evs, sr, si, time, m)
  {
    var x := if sr in att.scalars then sr else si;
    DhCommutes(sr, x);
    DhCommutes(sr, si);
    var es, ss := Dh(sr, Pub(x)), Dh(sr, Pub(si));
    assert OwnDh(att, x, sr, PointBytes(es));
    assert OwnDh(att, x, if x == sr then si else sr, PointBytes(ss));
    BuildableFirst(att, Pub(sr), Pub(x), es, Pub(si), ss, time);
    var f := FirstMessage(Pub(sr), Pub(x), es, Pub(si), ss, time);
    var one := Build(att, [], f.encStatic);
    evs := Build(att, one, f.encTime);
    m := Initiation(0, Pub(x), f.encStatic, f.encTime);
  }

  lemma NoForgedInitiation(att: Attacker, evs: seq<Event>, sr: Secret, si: Secret, time: nat, m: Initiation)
    requires si !in att.scalars && sr !in att.scalars
    ensures !ForgedInitiation(att, evs, sr, si, time, m)
  {
    if ForgedInitiation(att, evs, sr, si, time, m) {
      var i := InitiationIsGenuine(att, evs, sr, si, time, m);
    }
  }

  /** Exactly when an initiation can be forged: one of the two static secrets is lost. */
  lemma ForgedInitiationIff(att: Attacker, sr: Secret, si: Secret, time: nat)
    ensures (exists evs, m :: ForgedInitiation(att, evs, sr, si, time, m)) <==> si in att.scalars || sr in att.scalars
  {
    if si in att.scalars || sr in att.scalars {
      var evs, m := ForgeInitiation(att, sr, si, time);
    } else {
      forall evs, m ensures !ForgedInitiation(att, evs, sr, si, time, m) {
        NoForgedInitiation(att, evs, sr, si, time, m);
      }
    }
  }

  // ---------------------------------------------------------------- session keys

  /** The chaining key of a completed handshake, which both sides hold. */
  function SharedKey(si: Secret, sr: Secret, ei: Secret, er: Secret, time: nat, k: nat): (ck: Term) {
    SecondMessage(Transcript(si, Pub(sr), ei, time).sym, Pub(er), Dh(ei, Pub(er)), Dh(si, Pub(er)), Psk(k)).sym.ck
  }

  /** One of the two session keys is known after some run. */
  ghost predicate Leaked(att: Attacker, evs: seq<Event>, ck: Term) {
    Possible(att, evs) && (Kdf1(ck, Nothing) in Known(evs) || Kdf2(ck, Nothing) in Known(evs))
  }

  /** The secrets behind one side of every Diffie-Hellman value: all of the responder's or all of the
      initiator's, and the preshared key. */
  predicate KeysLost(att: Attacker, si: Secret, sr: Secret, ei: Secret, er: Secret, k: nat) {
    k in att.psks && ((sr in att.scalars && er in att.scalars) || (si in att.scalars && ei in att.scalars))
  }

  /** Two scalars, one of each side, or the preshared key. */
  predicate InSession(g: Guard, si: Secret, sr: Secret, ei: Secret, er: Secret, k: nat) {
    match g
    case Scalars(a, b) => (a == si || a == ei) && (b == sr || b == er)
    case Preshared(j) => j == k
  }

  lemma SharedKeyHot(g: Guard, si: Secret, sr: Secret, ei: Secret, er: Secret, time: nat, k: nat)
    requires InSession(g, si, sr, ei, er, k)
    ensures Hot(g, SharedKey(si, sr, ei, er, time, k))
  {
    var y := Transcript(si, Pub(sr), ei, time).sym;
    var s0 := TokenE(y, Pub(er));
    var ee, se := PointBytes(Dh(ei, Pub(er))), PointBytes(Dh(si, Pub(er)));
    var s1 := MixKey(s0, ee);
    var s2 := MixKey(s1, se);
    if g.Scalars? {
      if g.b == sr {
        TranscriptHot(g, si, Pub(sr), ei, time, Psk(k));
        HotKdf(g, y.ck, PointBytes(Pub(er)));
      } else {
        assert Hot(g, ee) || Hot(g, se);
      }
      if Hot(g, s0.ck) || Hot(g, ee) { HotKdf(g, s0.ck, ee); }
      HotKdf(g, s1.ck, se);
    }
    HotKdf(g, s2.ck, Psk(k));
  }

  lemma NoLeak(att: Attacker, g: Guard, evs: seq<Event>, si: Secret, sr: Secret, ei: Secret, er: Secret, time: nat, k: nat)
    requires Lacks(att, g) && InSession(g, si, sr, ei, er, k)
    ensures !Leaked(att, evs, SharedKey(si, sr, ei, er, time, k))
  {
    var ck := SharedKey(si, sr, ei, er, time, k);
    SharedKeyHot(g, si, sr, ei, er, time, k);
    HotKdf(g, ck, Nothing);
    if Possible(att, evs) { RunTame(att, g, evs); }
  }

  lemma Leak(att: Attacker, si: Secret, sr: Secret, ei: Secret, er: Secret, time: nat, k: nat) returns (evs: seq<Event>)
    requires KeysLost(att, si, sr, ei, er, k)
    ensures Leaked(att, evs, SharedKey(si, sr, ei, er, time, k))
  {
    DhValuesKnown(att, si, sr, ei, er, k);
    BuildableFirst(att, Pub(sr), Pub(ei), Dh(ei, Pub(sr)), Pub(si), Dh(si, Pub(sr)), time);
    BuildableSecond(att, Transcript(si, Pub(sr), ei, time).sym, Pub(er), Dh(ei, Pub(er)), Dh(si, Pub(er)), Psk(k));
    var ck := SharedKey(si, sr, ei, er, time, k);
    BuildableKdf(att, ck, Nothing);
    evs := Build(att, [], Kdf1(ck, Nothing));
  }

  lemma DhValuesKnown(att: Attacker, si: Secret, sr: Secret, ei: Secret, er: Secret, k: nat)
    requires KeysLost(att, si, sr, ei, er, k)
    ensures Buildable(att, PointBytes(Dh(ei, Pub(sr)))) && Buildable(att, PointBytes(Dh(si, Pub(sr))))
    ensures Buildable(att, PointBytes(Dh(ei, Pub(er)))) && Buildable(att, PointBytes(Dh(si, Pub(er))))
  {
    DhKnown(att, ei, sr);
    DhKnown(att, si, sr);
    DhKnown(att, ei, er);
    DhKnown(att, si, er);
  }

  lemma DhKnown(att: Attacker, x: Secret, y: Secret)
    requires x in att.scalars || y in att.scalars
    ensures Buildable(att, PointBytes(Dh(x, Pub(y))))
  {
    DhCommutes(x, y);
    assert if x in att.scalars then OwnDh(att, x, y, PointBytes(Dh(x, Pub(y)))) else OwnDh(att, y, x, PointBytes(Dh(x, Pub(y))));
  }

  /** Exactly when the session keys can become known: the preshared key is lost, and besides it both
      secrets of one side.  So the loss of both static secrets afterwards reveals no session. */
  lemma SessionKeysLeakIff(att: Attacker, si: Secret, sr: Secret, ei: Secret, er: Secret, time: nat, k: nat)
    ensures (exists evs :: Leaked(att, evs, SharedKey(si, sr, ei, er, time, k))) <==> KeysLost(att, si, sr, ei, er, k)
  {
    if KeysLost(att, si, sr, ei, er, k) {
      var evs := Leak(att, si, sr, ei, er, time, k);
    } else {
      var g := if k !in att.psks then Preshared(k)
               else Scalars(if si in att.scalars then ei else si, if sr in att.scalars then er else sr);
      forall evs ensures !Leaked(att, evs, SharedKey(si, sr, ei, er, time, k)) {
        NoLeak(att, g, evs, si, sr, ei, er, time, k);
      }
    }
  }
}
