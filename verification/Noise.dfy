/** The Noise_IKpsk2 handshake: the reference transcript of the pattern
      <- s ... -> e, es, s, ss, {t}   <- e, ee, se, psk, {}
    (sections 7.5 and 9 of the Noise Protocol Framework, revision 34; section 5.4 of the
    WireGuard whitepaper), the handshake object of the kernel module, and agreement. */
module Noise {
  import opened Common
  import opened Symbolic

  // ---------------------------------------------------------------- reference transcript

  datatype Sym = Sym(ck: Term, h: Term)

  function MixHash(s: Sym, data: Term): (r: Sym) {
    s.(h := Hash(s.h, data))
  }

  function MixKey(s: Sym, data: Term): (r: Sym) {
    s.(ck := Kdf1(s.ck, data))
  }

  /** Token `e` in a pattern with a preshared key: hashed and mixed into the key. */
  function TokenE(s: Sym, e: Point): (r: Sym) {
    MixKey(MixHash(s, PointBytes(e)), PointBytes(e))
  }

  /** Key of the encryption that follows a `dh` token mixed into `s`. */
  function DhKey(s: Sym, dh: Point): (k: Term) {
    Kdf2(s.ck, PointBytes(dh))
  }

  function Start(responder: Point): (s: Sym) {
    MixHash(Sym(Hash(Construction, Nothing), Hash(Hash(Construction, Nothing), Identifier)), PointBytes(responder))
  }

  /** First message: what is sent and the state after it. */
  datatype First = First(encStatic: Term, encTime: Term, sym: Sym)

  function FirstMessage(responder: Point, e: Point, es: Point, s: Point, ss: Point, t: nat): (m: First) {
    var s0 := TokenE(Start(responder), e);
    var c1 := Aead(DhKey(s0, es), s0.h, PointBytes(s));
    var s1 := MixHash(MixKey(s0, PointBytes(es)), c1);
    var c2 := Aead(DhKey(s1, ss), s1.h, Timestamp(t));
    First(c1, c2, MixHash(MixKey(s1, PointBytes(ss)), c2))
  }

  datatype Second = Second(encNothing: Term, sym: Sym)

  function SecondMessage(s: Sym, e: Point, ee: Point, se: Point, psk: Term): (m: Second) {
    var s1 := MixKey(MixKey(TokenE(s, e), PointBytes(ee)), PointBytes(se));
    var s2 := MixHash(Sym(Kdf1(s1.ck, psk), s1.h), Kdf2(s1.ck, psk));
    var c := Aead(Kdf3(s1.ck, psk), s2.h, Nothing);
    Second(c, MixHash(s2, c))
  }

  // ---------------------------------------------------------------- the code

  datatype Phase = Cleared | CreatedInitiation | ConsumedInitiation | CreatedResponse | ConsumedResponse

  datatype Identity = Identity(has: bool, secret: Secret)

  datatype Initiation = Initiation(sender: nat, e: Point, encStatic: Term, encTime: Term)
  datatype Response = Response(sender: nat, receiver: nat, e: Point, encNothing: Term)

  const INITIATION_GAP: nat := 20_000_000   // NSEC_PER_SEC / INITIATIONS_PER_SECOND

  datatype SessionKeys = SessionKeys(sending: Term, receiving: Term, initiator: bool, remoteIndex: nat)

  // `message_decrypt` for the three plaintext lengths of the message structs.

  predicate OpensNothing(key: Term, h: Term, c: Term) {
    c == Aead(key, h, Nothing)
  }

  function OpenPoint(key: Term, h: Term, c: Term): (r: Option<Point>) {
    if c.Aead? && c.secret == key && c.ad == h && c.plain.PointBytes? then Some(c.plain.p) else None
  }

  function OpenTime(key: Term, h: Term, c: Term): (r: Option<nat>) {
    if c.Aead? && c.secret == key && c.ad == h && c.plain.Timestamp? then Some(c.plain.t) else None
  }

  /** `struct noise_handshake` of one peer. */
  class Handshake {
    const remoteStatic: Point
    const precomputed: Point
    const psk: Term
    var phase: Phase
    var ephemeral: Secret
    var remoteEphemeral: Point
    var sym: Sym
    var latestTimestamp: nat
    var lastConsumed: nat
    var remoteIndex: nat

    constructor (own: Identity, remote: Point, psk: Term)
      ensures remoteStatic == remote && this.psk == psk
      ensures precomputed == if own.has then Dh(own.secret, remote) else LowOrder
      ensures phase == Cleared && latestTimestamp == 0 && lastConsumed == 0
    {
      remoteStatic, this.psk := remote, psk;
      precomputed := if own.has then Dh(own.secret, remote) else LowOrder;
      phase, ephemeral, remoteEphemeral, sym := Cleared, 0, LowOrder, Sym(Zeroed, Zeroed);
      latestTimestamp, lastConsumed, remoteIndex := 0, 0, 0;
    }

    /** `wg_noise_handshake_create_initiation`; the fresh scalar, the clock and the sender
        index are inputs.  A failure leaves the phase but not the buffers alone. */
    method CreateInitiation(own: Identity, fresh_: Secret, now: nat, index: nat)
      returns (r: Option<Initiation>)
      modifies this`phase, this`ephemeral, this`sym
      ensures r.Some? <==> own.has && DhOk(fresh_, remoteStatic) && precomputed.Pt?
      ensures r.None? ==> phase == old(phase)
      ensures r.Some? ==>
        var m := FirstMessage(remoteStatic, Pub(fresh_), Dh(fresh_, remoteStatic), Pub(own.secret), precomputed, now);
        && r == Some(Initiation(index, Pub(fresh_), m.encStatic, m.encTime))
        && phase == CreatedInitiation && ephemeral == fresh_ && sym == m.sym
    {
      if !own.has { return None; }
      sym := Start(remoteStatic);
      ephemeral := fresh_;
      var e := Pub(fresh_);
      sym := TokenE(sym, e);
      if !DhOk(ephemeral, remoteStatic) { return None; }
      var key := DhKey(sym, Dh(ephemeral, remoteStatic));
      sym := MixKey(sym, PointBytes(Dh(ephemeral, remoteStatic)));
      var encStatic := Aead(key, sym.h, PointBytes(Pub(own.secret)));
      sym := MixHash(sym, encStatic);
      if precomputed.LowOrder? { return None; }
      key := DhKey(sym, precomputed);
      sym := MixKey(sym, PointBytes(precomputed));
      var encTime := Aead(key, sym.h, Timestamp(now));
      sym := MixHash(sym, encTime);
      phase := CreatedInitiation;
      r := Some(Initiation(index, e, encStatic, encTime));
    }

    /** The commit at the end of `wg_noise_handshake_consume_initiation`. */
    method CommitInitiation(m: Initiation, s: Sym, t: nat, now: nat)
      requires t > latestTimestamp
      modifies this
      ensures phase == ConsumedInitiation && remoteEphemeral == m.e && sym == s && remoteIndex == m.sender
      ensures latestTimestamp == t && lastConsumed == (if now > old(lastConsumed) then now else old(lastConsumed))
      ensures ephemeral == old(ephemeral)
    {
      remoteEphemeral := m.e;
      if t > latestTimestamp { latestTimestamp := t; }
      sym := s;
      remoteIndex := m.sender;
      if lastConsumed < now { lastConsumed := now; }
      phase := ConsumedInitiation;
    }

    /** `wg_noise_handshake_create_response`. */
    method CreateResponse(fresh_: Secret, index: nat) returns (r: Option<Response>)
      modifies this`phase, this`ephemeral, this`sym
      ensures r.Some? <==> old(phase) == ConsumedInitiation && DhOk(fresh_, remoteEphemeral) && DhOk(fresh_, remoteStatic)
      ensures r.None? ==> phase == old(phase)
      ensures r.Some? ==>
        var m := SecondMessage(old(sym), Pub(fresh_), Dh(fresh_, remoteEphemeral), Dh(fresh_, remoteStatic), psk);
        && r == Some(Response(index, remoteIndex, Pub(fresh_), m.encNothing))
        && phase == CreatedResponse && sym == m.sym
    {
      if phase != ConsumedInitiation { return None; }
      ephemeral := fresh_;
      var e := Pub(fresh_);
      sym := TokenE(sym, e);
      if !DhOk(ephemeral, remoteEphemeral) { return None; }
      sym := MixKey(sym, PointBytes(Dh(ephemeral, remoteEphemeral)));
      if !DhOk(ephemeral, remoteStatic) { return None; }
      sym := MixKey(sym, PointBytes(Dh(ephemeral, remoteStatic)));
      var key := Kdf3(sym.ck, psk);
      var temp := Kdf2(sym.ck, psk);
      sym := sym.(ck := Kdf1(sym.ck, psk));
      sym := MixHash(sym, temp);
      var enc := Aead(key, sym.h, Nothing);
      sym := MixHash(sym, enc);
      phase := CreatedResponse;
      r := Some(Response(index, remoteIndex, e, enc));
    }

    /** `wg_noise_handshake_consume_response`, taken as one atomic call. */
    method ConsumeResponse(own: Identity, m: Response) returns (ok: bool)
      modifies this`phase, this`remoteEphemeral, this`sym, this`remoteIndex
      ensures ok <==>
        && own.has && old(phase) == CreatedInitiation && DhOk(ephemeral, m.e) && DhOk(own.secret, m.e)
        && m.encNothing == SecondMessage(old(sym), m.e, Dh(ephemeral, m.e), Dh(own.secret, m.e), psk).encNothing
      ensures !ok ==>
        phase == old(phase) && sym == old(sym) && remoteEphemeral == old(remoteEphemeral) && remoteIndex == old(remoteIndex)
      ensures ok ==>
        && phase == ConsumedResponse && remoteEphemeral == m.e && remoteIndex == m.sender
        && sym == SecondMessage(old(sym), m.e, Dh(ephemeral, m.e), Dh(own.secret, m.e), psk).sym
    {
      if !own.has { return false; }
      var s := sym;
      if phase != CreatedInitiation { return false; }
      s := TokenE(s, m.e);
      if !DhOk(ephemeral, m.e) { return false; }
      s := MixKey(s, PointBytes(Dh(ephemeral, m.e)));
      if !DhOk(own.secret, m.e) { return false; }
      s := MixKey(s, PointBytes(Dh(own.secret, m.e)));
      var key := Kdf3(s.ck, psk);
      var temp := Kdf2(s.ck, psk);
      s := s.(ck := Kdf1(s.ck, psk));
      s := MixHash(s, temp);
      if !OpensNothing(key, s.h, m.encNothing) { return false; }
      s := MixHash(s, m.encNothing);
      remoteEphemeral := m.e;
      sym := s;
      remoteIndex := m.sender;
      phase := ConsumedResponse;
      ok := true;
    }

    /** The key derivation of `wg_noise_handshake_begin_session`; the handshake is wiped, so
        one handshake never yields two sessions. */
    method BeginSession() returns (r: Option<SessionKeys>)
      modifies this`phase, this`ephemeral, this`remoteEphemeral, this`sym, this`remoteIndex
      ensures r.Some? <==> old(phase) == CreatedResponse || old(phase) == ConsumedResponse
      ensures r.Some? ==>
        && r.value.initiator == (old(phase) == ConsumedResponse) && r.value.remoteIndex == old(remoteIndex)
        && r.value.sending == (if r.value.initiator then Kdf1(old(sym).ck, Nothing) else Kdf2(old(sym).ck, Nothing))
        && r.value.receiving == (if r.value.initiator then Kdf2(old(sym).ck, Nothing) else Kdf1(old(sym).ck, Nothing))
        && phase == Cleared && sym == Sym(Zeroed, Zeroed)
      ensures r.None? ==> phase == old(phase) && sym == old(sym)
    {
      if phase != CreatedResponse && phase != ConsumedResponse { return None; }
      var initiator := phase == ConsumedResponse;
      var first, second := Kdf1(sym.ck, Nothing), Kdf2(sym.ck, Nothing);
      r := Some(if initiator then SessionKeys(first, second, true, remoteIndex)
                else SessionKeys(second, first, false, remoteIndex));
      ephemeral, remoteEphemeral, sym, remoteIndex, phase := 0, LowOrder, Sym(Zeroed, Zeroed), 0, Cleared;
    }
  }

  /** The responder's side of the peer table. */
  class Device {
    const own: Identity
    var peers: map<Point, Handshake>

    ghost predicate Valid()
      reads this, peers.Values
    {
      forall s :: s in peers ==>
        peers[s].remoteStatic == s && peers[s].precomputed == (if own.has then Dh(own.secret, s) else LowOrder)
    }

    constructor (own: Identity)
      ensures this.own == own && peers == map[] && Valid()
    {
      this.own, peers := own, map[];
    }

    /** The conditions under which an initiation is accepted, in terms of the reference
        transcript: it is the genuine first message of the peer `s` at time `t`, newer than
        everything accepted from that peer, and not too soon. */
    ghost predicate Accepts(m: Initiation, now: nat, s: Point, t: nat)
      reads this, peers.Values
    {
      && own.has && DhOk(own.secret, m.e) && s in peers && peers[s].precomputed.Pt?
      && var f := FirstMessage(Pub(own.secret), m.e, Dh(own.secret, m.e), s, peers[s].precomputed, t);
      && m.encStatic == f.encStatic && m.encTime == f.encTime
      && t > peers[s].latestTimestamp
      && now >= peers[s].lastConsumed + INITIATION_GAP
    }

    /** `wg_noise_handshake_consume_initiation`, taken as one atomic call. */
    method ConsumeInitiation(m: Initiation, now: nat) returns (r: Option<Handshake>, ghost s: Point, ghost t: nat)
      requires Valid()
      modifies peers.Values
      ensures Valid() && peers == old(peers)
      ensures r.None? ==> forall p :: p in peers.Values ==> unchanged(p)
      ensures r.None? ==> forall s', t' :: !old(Accepts(m, now, s', t'))
      ensures r.Some? ==>
        && old(Accepts(m, now, s, t)) && r == Some(peers[s])
        && (forall p :: p in peers.Values && p != r.value ==> unchanged(p))
        && r.value.phase == ConsumedInitiation && r.value.remoteEphemeral == m.e && r.value.remoteIndex == m.sender
        && r.value.sym == FirstMessage(Pub(own.secret), m.e, Dh(own.secret, m.e), s, peers[s].precomputed, t).sym
        && r.value.latestTimestamp == t > old(peers[s].latestTimestamp)
        && r.value.lastConsumed == now
    {
      s, t := LowOrder, 0;
      if !own.has { return None, s, t; }
      var y := Start(Pub(own.secret));
      y := TokenE(y, m.e);
      if !DhOk(own.secret, m.e) { return None, s, t; }
      var key := DhKey(y, Dh(own.secret, m.e));
      y := MixKey(y, PointBytes(Dh(own.secret, m.e)));
      var who := OpenPoint(key, y.h, m.encStatic);
      if who.None? { return None, s, t; }
      y := MixHash(y, m.encStatic);
      s := who.value;
      if who.value !in peers { return None, s, t; }
      var p := peers[who.value];
      if p.precomputed.LowOrder? { return None, s, t; }
      key := DhKey(y, p.precomputed);
      y := MixKey(y, PointBytes(p.precomputed));
      var time := OpenTime(key, y.h, m.encTime);
      if time.None? { return None, s, t; }
      y := MixHash(y, m.encTime);
      t := time.value;
      var replay := time.value <= p.latestTimestamp;
      var flood := p.lastConsumed + INITIATION_GAP > now;
      if replay || flood { return None, s, t; }
      p.CommitInitiation(m, y, time.value, now);
      r := Some(p);
    }
  }

  // ---------------------------------------------------------------- agreement

  /** Both sides compute the same first transcript. */
  lemma FirstAgreement(si: Secret, sr: Secret, ei: Secret, t: nat)
    ensures FirstMessage(Pub(sr), Pub(ei), Dh(ei, Pub(sr)), Pub(si), Dh(si, Pub(sr)), t) ==
            FirstMessage(Pub(sr), Pub(ei), Dh(sr, Pub(ei)), Pub(si), Dh(sr, Pub(si)), t)
  {
    DhCommutes(ei, sr);
    DhCommutes(si, sr);
  }

  lemma SecondAgreement(s: Sym, si: Secret, ei: Secret, er: Secret, psk: Term)
    ensures SecondMessage(s, Pub(er), Dh(er, Pub(ei)), Dh(er, Pub(si)), psk) ==
            SecondMessage(s, Pub(er), Dh(ei, Pub(er)), Dh(si, Pub(er)), psk)
  {
    DhCommutes(er, ei);
    DhCommutes(er, si);
  }

  /** For all static, ephemeral and preshared keys: an undisturbed handshake succeeds at every
      step, both sides end with the same transcript hash and chaining key, and the session
      keys are crossed and different. */
  method UndisturbedHandshake(si: Secret, sr: Secret, ei: Secret, er: Secret, psk: Term, t: nat, now: nat, i: nat, j: nat)
    returns (a: SessionKeys, b: SessionKeys, x: Sym, y: Sym)
    requires t > 0 && now >= INITIATION_GAP
    ensures var first := FirstMessage(Pub(sr), Pub(ei), Dh(ei, Pub(sr)), Pub(si), Dh(si, Pub(sr)), t);
            x == y == SecondMessage(first.sym, Pub(er), Dh(er, Pub(ei)), Dh(er, Pub(si)), psk).sym
    ensures a == SessionKeys(Kdf1(x.ck, Nothing), Kdf2(x.ck, Nothing), true, j)
    ensures b == SessionKeys(Kdf2(x.ck, Nothing), Kdf1(x.ck, Nothing), false, i)
    ensures a.sending == b.receiving && a.receiving == b.sending && a.sending != a.receiving
  {
    var me, you := Identity(true, si), Identity(true, sr);
    var alice := new Handshake(me, Pub(sr), psk);
    var device := new Device(you);
    var bob := new Handshake(you, Pub(si), psk);
    device.peers := map[Pub(si) := bob];
    DhCommutes(ei, sr);
    DhCommutes(si, sr);
    FirstAgreement(si, sr, ei, t);
    var m1 := alice.CreateInitiation(me, ei, t, i);
    assert device.Accepts(m1.value, now, Pub(si), t);
    var p, s, t' := device.ConsumeInitiation(m1.value, now);
    SenderBound(m1.value, sr, s, bob.precomputed, t', Pub(si), t);
    assert p == Some(bob) && bob.sym == alice.sym;
    a, b, x, y := FinishHandshake(alice, bob, si, ei, er, j);
  }

  /** The second half: any two handshakes that agree on the first message and on the preshared
      key complete. */
  method FinishHandshake(alice: Handshake, bob: Handshake, si: Secret, ei: Secret, er: Secret, j: nat)
    returns (a: SessionKeys, b: SessionKeys, x: Sym, y: Sym)
    requires alice != bob && alice.sym == bob.sym && alice.psk == bob.psk
    requires alice.phase == CreatedInitiation && alice.ephemeral == ei
    requires bob.phase == ConsumedInitiation && bob.remoteEphemeral == Pub(ei) && bob.remoteStatic == Pub(si)
    modifies alice, bob
    ensures x == y == SecondMessage(old(alice.sym), Pub(er), Dh(er, Pub(ei)), Dh(er, Pub(si)), alice.psk).sym
    ensures a == SessionKeys(Kdf1(x.ck, Nothing), Kdf2(x.ck, Nothing), true, j)
    ensures b == SessionKeys(Kdf2(x.ck, Nothing), Kdf1(x.ck, Nothing), false, old(bob.remoteIndex))
    ensures a.sending == b.receiving && a.receiving == b.sending && a.sending != a.receiving
  {
    DhCommutes(er, ei);
    DhCommutes(er, si);
    SecondAgreement(alice.sym, si, ei, er, alice.psk);
    var m := bob.CreateResponse(er, j);
    var ok := alice.ConsumeResponse(Identity(true, si), m.value);
    x, y := alice.sym, bob.sym;
    var ka := alice.BeginSession();
    var kb := bob.BeginSession();
    a, b := ka.value, kb.value;
  }

  /** The ciphertexts of a first message determine its sender and time. */
  lemma SenderBound(m: Initiation, sr: Secret, s: Point, ss: Point, t: nat, s': Point, t': nat)
    requires exists ss' ::
      var f := FirstMessage(Pub(sr), m.e, Dh(sr, m.e), s, ss, t);
      var f' := FirstMessage(Pub(sr), m.e, Dh(sr, m.e), s', ss', t');
      f.encStatic == f'.encStatic && f.encTime == f'.encTime
    ensures s == s' && t == t'
  {
  }

  /** The transcript hash after the first message binds everything that went into it. */
  lemma FirstBinds(r: Point, e: Point, es: Point, s: Point, ss: Point, t: nat,
                   r': Point, e': Point, es': Point, s': Point, ss': Point, t': nat)
    requires FirstMessage(r, e, es, s, ss, t).sym.h == FirstMessage(r', e', es', s', ss', t').sym.h
    ensures r == r' && e == e' && es == es' && s == s' && ss == ss' && t == t'
  {
  }

  /** The confirmation of the second message binds everything that went into it. */
  lemma SecondBinds(y: Sym, e: Point, ee: Point, se: Point, psk: Term,
                    y': Sym, e': Point, ee': Point, se': Point, psk': Term)
    requires SecondMessage(y, e, ee, se, psk).encNothing == SecondMessage(y', e', ee', se', psk').encNothing
    ensures y == y' && e == e' && ee == ee' && se == se' && psk == psk'
  {
    var k := MixKey(MixKey(TokenE(y, e), PointBytes(ee)), PointBytes(se));
    var k' := MixKey(MixKey(TokenE(y', e'), PointBytes(ee')), PointBytes(se'));
    KdfInjective(k.ck, psk, k'.ck, psk');
    KdfInjective(MixKey(TokenE(y, e), PointBytes(ee)).ck, PointBytes(se),
                 MixKey(TokenE(y', e'), PointBytes(ee')).ck, PointBytes(se'));
    KdfInjective(TokenE(y, e).ck, PointBytes(ee), TokenE(y', e').ck, PointBytes(ee'));
    KdfInjective(y.ck, PointBytes(e), y'.ck, PointBytes(e'));
  }

  /** Converse agreement, against arbitrary messages.  An initiator with secret `si` that
      believes to talk to `rs` sent its initiation with ephemeral `ei` at time `t`.  A responder
      with secret `sr` accepted some initiation as coming from `s'` with ephemeral `e'` and time
      `t'`, and answered with ephemeral `er`.  If the initiator accepts any response `m` that
      carries that answer's confirmation, then both agree on identities, ephemerals, time and
      preshared key, and end with the same transcript and chaining key. */
  lemma ResponseAuthenticates(si: Secret, rs: Point, ei: Secret, t: nat, psk: Term,
                              sr: Secret, s': Point, e': Point, t': nat, er: Secret, psk': Term, m: Response)
    requires var yi := FirstMessage(rs, Pub(ei), Dh(ei, rs), Pub(si), Dh(si, rs), t).sym;
             var yr := FirstMessage(Pub(sr), e', Dh(sr, e'), s', Dh(sr, s'), t').sym;
             var answer := SecondMessage(yr, Pub(er), Dh(er, e'), Dh(er, s'), psk');
             // what ConsumeResponse checks
             m.encNothing == SecondMessage(yi, m.e, Dh(ei, m.e), Dh(si, m.e), psk).encNothing &&
             m.encNothing == answer.encNothing
    ensures rs == Pub(sr) && s' == Pub(si) && e' == Pub(ei) && t' == t && psk' == psk && m.e == Pub(er)
    ensures FirstMessage(rs, Pub(ei), Dh(ei, rs), Pub(si), Dh(si, rs), t).sym ==
            FirstMessage(Pub(sr), e', Dh(sr, e'), s', Dh(sr, s'), t').sym
    ensures var yi := FirstMessage(rs, Pub(ei), Dh(ei, rs), Pub(si), Dh(si, rs), t).sym;
            var yr := FirstMessage(Pub(sr), e', Dh(sr, e'), s', Dh(sr, s'), t').sym;
            SecondMessage(yi, m.e, Dh(ei, m.e), Dh(si, m.e), psk).sym ==
            SecondMessage(yr, Pub(er), Dh(er, e'), Dh(er, s'), psk').sym
  {
    var yi := FirstMessage(rs, Pub(ei), Dh(ei, rs), Pub(si), Dh(si, rs), t).sym;
    var yr := FirstMessage(Pub(sr), e', Dh(sr, e'), s', Dh(sr, s'), t').sym;
    SecondBinds(yi, m.e, Dh(ei, m.e), Dh(si, m.e), psk, yr, Pub(er), Dh(er, e'), Dh(er, s'), psk');
    FirstBinds(rs, Pub(ei), Dh(ei, rs), Pub(si), Dh(si, rs), t, Pub(sr), e', Dh(sr, e'), s', Dh(sr, s'), t');
  }

  // ---------------------------------------------------------------- the messages written out

  /** The first message, hash by hash and key by key. */
  lemma FirstWritten(rs: Point, e: Point, es: Point, s: Point, ss: Point, t: nat)
    ensures var ck0 := Hash(Construction, Nothing);
            var h0 := Hash(Hash(ck0, Identifier), PointBytes(rs));
            var ck1, h1 := Kdf1(ck0, PointBytes(e)), Hash(h0, PointBytes(e));
            var c1 := Aead(Kdf2(ck1, PointBytes(es)), h1, PointBytes(s));
            var ck2, h2 := Kdf1(ck1, PointBytes(es)), Hash(h1, c1);
            var c2 := Aead(Kdf2(ck2, PointBytes(ss)), h2, Timestamp(t));
            FirstMessage(rs, e, es, s, ss, t) == First(c1, c2, Sym(Kdf1(ck2, PointBytes(ss)), Hash(h2, c2)))
  {
  }

  /** The second, from the state that the first one leaves. */
  lemma SecondWritten(ck: Term, h: Term, e: Point, ee: Point, se: Point, psk: Term)
    ensures var ck3 := Kdf1(Kdf1(Kdf1(ck, PointBytes(e)), PointBytes(ee)), PointBytes(se));
            var h3 := Hash(Hash(h, PointBytes(e)), Kdf2(ck3, psk));
            var c := Aead(Kdf3(ck3, psk), h3, Nothing);
            SecondMessage(Sym(ck, h), e, ee, se, psk) == Second(c, Sym(Kdf1(ck3, psk), Hash(h3, c)))
  {
  }

  /** The chaining key binds every point that was mixed into it ... */
  lemma FirstKeyBinds(r: Point, e: Point, es: Point, s: Point, ss: Point, t: nat,
                      r': Point, e': Point, es': Point, s': Point, ss': Point, t': nat)
    requires FirstMessage(r, e, es, s, ss, t).sym.ck == FirstMessage(r', e', es', s', ss', t').sym.ck
    ensures e == e' && es == es' && ss == ss'
  {
    var ck0 := Hash(Construction, Nothing);
    var ck1, ck1' := Kdf1(ck0, PointBytes(e)), Kdf1(ck0, PointBytes(e'));
    var ck2, ck2' := Kdf1(ck1, PointBytes(es)), Kdf1(ck1', PointBytes(es'));
    KdfInjective(ck2, PointBytes(ss), ck2', PointBytes(ss'));
    KdfInjective(ck1, PointBytes(es), ck1', PointBytes(es'));
    KdfInjective(ck0, PointBytes(e), ck0, PointBytes(e'));
  }

  /** ... and after the second message the preshared key and the key before it as well. */
  lemma SecondKeyBinds(y: Sym, e: Point, ee: Point, se: Point, psk: Term, y': Sym, e': Point, ee': Point, se': Point, psk': Term)
    requires SecondMessage(y, e, ee, se, psk).sym.ck == SecondMessage(y', e', ee', se', psk').sym.ck
    ensures y.ck == y'.ck && e == e' && ee == ee' && se == se' && psk == psk'
  {
    var k1, k1' := Kdf1(y.ck, PointBytes(e)), Kdf1(y'.ck, PointBytes(e'));
    var k2, k2' := Kdf1(k1, PointBytes(ee)), Kdf1(k1', PointBytes(ee'));
    var k3, k3' := Kdf1(k2, PointBytes(se)), Kdf1(k2', PointBytes(se'));
    KdfInjective(k3, psk, k3', psk');
    KdfInjective(k2, PointBytes(se), k2', PointBytes(se'));
    KdfInjective(k1, PointBytes(ee), k1', PointBytes(ee'));
    KdfInjective(y.ck, PointBytes(e), y'.ck, PointBytes(e'));
  }

  // ---------------------------------------------------------------- no initiation twice

  /** What a device remembers of a peer: the newest time it accepted, and when. */
  datatype Seen = Seen(time: nat, at: nat)

  type View = map<Point, Seen>

  /** The sender and the time that an initiation opens to, if it opens for a known peer. */
  function Opened(own: Identity, v: View, m: Initiation): (r: Option<(Point, nat)>) {
    if !own.has || !DhOk(own.secret, m.e) then None
    else
      var s0 := TokenE(Start(Pub(own.secret)), m.e);
      var es := Dh(own.secret, m.e);
      var who := OpenPoint(DhKey(s0, es), MixKey(s0, PointBytes(es)).h, m.encStatic);
      if who.None? || who.value !in v || Dh(own.secret, who.value).LowOrder? then None
      else
        var s1 := MixHash(MixKey(s0, PointBytes(es)), m.encStatic);
        var ss := Dh(own.secret, who.value);
        var time := OpenTime(DhKey(s1, ss), MixKey(s1, PointBytes(ss)).h, m.encTime);
        if time.None? then None else Some((who.value, time.value))
  }

  /** Opening finds exactly the genuine first messages. */
  lemma OpenedIff(own: Identity, v: View, m: Initiation, s: Point, t: nat)
    ensures Opened(own, v, m) == Some((s, t)) <==>
            && own.has && DhOk(own.secret, m.e) && s in v && Dh(own.secret, s).Pt?
            && var f := FirstMessage(Pub(own.secret), m.e, Dh(own.secret, m.e), s, Dh(own.secret, s), t);
            m.encStatic == f.encStatic && m.encTime == f.encTime
  {
  }

  /** Newer than everything accepted from that peer, and not too soon. */
  predicate Fresh(own: Identity, v: View, m: Initiation, now: nat) {
    var o := Opened(own, v, m);
    o.Some? && o.value.0 in v && o.value.1 > v[o.value.0].time && now >= v[o.value.0].at + INITIATION_GAP
  }

  function Updated(own: Identity, v: View, m: Initiation, now: nat): (r: View) {
    if !Fresh(own, v, m, now) then v
    else
      var (s, t) := Opened(own, v, m).value;
      v[s := Seen(t, now)]
  }

  /** What the device remembers after the first `k` messages. */
  function ViewAfter(own: Identity, v: View, ms: seq<Initiation>, clock: seq<nat>, k: nat): (r: View)
    requires |clock| == |ms| && k <= |ms|
  {
    if k == 0 then v else Updated(own, ViewAfter(own, v, ms, clock, k - 1), ms[k - 1], clock[k - 1])
  }

  /** Message `k` of a run is accepted. */
  predicate AcceptedAt(own: Identity, v: View, ms: seq<Initiation>, clock: seq<nat>, k: nat)
    requires |clock| == |ms| && k < |ms|
  {
    Fresh(own, ViewAfter(own, v, ms, clock, k), ms[k], clock[k])
  }

  ghost function ViewOf(d: Device): (v: View)
    reads d, d.peers.Values
  {
    map s | s in d.peers :: Seen(d.peers[s].latestTimestamp, d.peers[s].lastConsumed)
  }

  /** The device answers every sequence of messages, whatever they are, as specified. */
  method ConsumeAll(d: Device, ms: seq<Initiation>, clock: seq<nat>) returns (ok: seq<bool>)
    requires d.Valid() && |clock| == |ms|
    modifies d.peers.Values
    ensures |ok| == |ms| && forall i :: 0 <= i < |ms| ==> ok[i] == AcceptedAt(d.own, old(ViewOf(d)), ms, clock, i)
    ensures d.peers == old(d.peers) && ViewOf(d) == ViewAfter(d.own, old(ViewOf(d)), ms, clock, |ms|)
  {
    ok := [];
    var k := 0;
    ghost var v := ViewOf(d);
    while k < |ms|
      invariant 0 <= k <= |ms| && |ok| == k
      invariant d.Valid() && d.peers == old(d.peers) && ViewOf(d) == ViewAfter(d.own, v, ms, clock, k)
      invariant forall i :: 0 <= i < k ==> ok[i] == AcceptedAt(d.own, v, ms, clock, i)
    {
      var r := ConsumeOne(d, ms[k], clock[k]);
      ok := ok + [r];
      k := k + 1;
    }
  }

  lemma AcceptsIffFresh(d: Device, m: Initiation, now: nat, s: Point, t: nat)
    requires d.Valid()
    ensures d.Accepts(m, now, s, t) <==> Opened(d.own, ViewOf(d), m) == Some((s, t)) && Fresh(d.own, ViewOf(d), m, now)
  {
    OpenedIff(d.own, ViewOf(d), m, s, t);
  }

  lemma AcceptsAll(d: Device, m: Initiation, now: nat)
    requires d.Valid()
    ensures forall s, t: nat :: d.Accepts(m, now, s, t) <==>
              Opened(d.own, ViewOf(d), m) == Some((s, t)) && Fresh(d.own, ViewOf(d), m, now)
  {
    forall s, t: nat ensures d.Accepts(m, now, s, t) <==>
                             Opened(d.own, ViewOf(d), m) == Some((s, t)) && Fresh(d.own, ViewOf(d), m, now) {
      AcceptsIffFresh(d, m, now, s, t);
    }
  }

  method ConsumeOne(d: Device, m: Initiation, now: nat) returns (ok: bool)
    requires d.Valid()
    modifies d.peers.Values
    ensures d.Valid() && d.peers == old(d.peers)
    ensures ok == Fresh(d.own, old(ViewOf(d)), m, now) && ViewOf(d) == Updated(d.own, old(ViewOf(d)), m, now)
  {
    ghost var v := ViewOf(d);
    ghost var o := Opened(d.own, v, m);
    AcceptsAll(d, m, now);
    var r, s, t := d.ConsumeInitiation(m, now);
    ok := r.Some?;
    if r.None? {
      assert o.Some? ==> !old(d.Accepts(m, now, o.value.0, o.value.1));
      assert ViewOf(d) == v;
    } else {
      assert forall x :: x in d.peers && x != s ==> d.peers[x] != r.value;
      assert ViewOf(d) == v[s := Seen(t, now)];
    }
  }

  lemma {:induction false} ViewGrows(own: Identity, v: View, ms: seq<Initiation>, clock: seq<nat>, i: nat, k: nat, s: Point)
    requires |clock| == |ms| && i <= k <= |ms| && s in v
    ensures s in ViewAfter(own, v, ms, clock, i) && s in ViewAfter(own, v, ms, clock, k)
    ensures ViewAfter(own, v, ms, clock, k).Keys == v.Keys
    ensures ViewAfter(own, v, ms, clock, i)[s].time <= ViewAfter(own, v, ms, clock, k)[s].time
    ensures ViewAfter(own, v, ms, clock, i)[s].at <= ViewAfter(own, v, ms, clock, k)[s].at
    decreases k
  {
    if i < k {
      ViewGrows(own, v, ms, clock, i, k - 1, s);
    } else if k > 0 {
      ViewGrows(own, v, ms, clock, i - 1, k - 1, s);
    }
  }

  lemma {:induction false} ViewKeys(own: Identity, v: View, ms: seq<Initiation>, clock: seq<nat>, k: nat)
    requires |clock| == |ms| && k <= |ms|
    ensures ViewAfter(own, v, ms, clock, k).Keys == v.Keys
  {
    if k > 0 { ViewKeys(own, v, ms, clock, k - 1); }
  }

  /** Over every run the times accepted from one peer strictly increase ... */
  lemma {:induction false} TimesIncrease(own: Identity, v: View, ms: seq<Initiation>, clock: seq<nat>, i: nat, j: nat)
    requires |clock| == |ms| && i < j < |ms| && AcceptedAt(own, v, ms, clock, i) && AcceptedAt(own, v, ms, clock, j)
    requires Opened(own, v, ms[i]).Some? && Opened(own, v, ms[j]).Some?
    requires Opened(own, v, ms[i]).value.0 == Opened(own, v, ms[j]).value.0
    ensures Opened(own, v, ms[i]).value.1 < Opened(own, v, ms[j]).value.1
  {
    SameOpened(own, v, ms, clock, i);
    SameOpened(own, v, ms, clock, j);
    ViewGrows(own, v, ms, clock, i + 1, j, Opened(own, v, ms[i]).value.0);
  }

  lemma SameOpened(own: Identity, v: View, ms: seq<Initiation>, clock: seq<nat>, k: nat)
    requires |clock| == |ms| && k < |ms|
    ensures Opened(own, ViewAfter(own, v, ms, clock, k), ms[k]) == Opened(own, v, ms[k])
    ensures AcceptedAt(own, v, ms, clock, k) ==> Opened(own, v, ms[k]).Some?
  {
    ViewKeys(own, v, ms, clock, k);
  }

  /** ... so no message is ever accepted twice. */
  lemma {:induction false} AcceptedOnce(own: Identity, v: View, ms: seq<Initiation>, clock: seq<nat>, i: nat, j: nat)
    requires |clock| == |ms| && i < j < |ms| && ms[i] == ms[j]
    ensures !(AcceptedAt(own, v, ms, clock, i) && AcceptedAt(own, v, ms, clock, j))
  {
    SameOpened(own, v, ms, clock, i);
    if AcceptedAt(own, v, ms, clock, i) && AcceptedAt(own, v, ms, clock, j) {
      TimesIncrease(own, v, ms, clock, i, j);
    }
  }

  /** Message `i` was accepted as coming from `s` with time `t`. */
  predicate AcceptedFrom(own: Identity, v: View, ms: seq<Initiation>, clock: seq<nat>, i: nat, s: Point, t: nat)
    requires |clock| == |ms| && i < |ms|
  {
    AcceptedAt(own, v, ms, clock, i) && Opened(own, v, ms[i]) == Some((s, t))
  }

  /** What is remembered of a peer is where it started, or the last message accepted from it. */
  lemma {:induction false} LastSeen(own: Identity, v: View, ms: seq<Initiation>, clock: seq<nat>, k: nat, s: Point)
    requires |clock| == |ms| && k <= |ms| && s in v
    ensures s in ViewAfter(own, v, ms, clock, k)
    ensures var x := ViewAfter(own, v, ms, clock, k)[s];
            x == v[s] || exists i :: 0 <= i < k && AcceptedFrom(own, v, ms, clock, i, s, x.time) && clock[i] == x.at
  {
    ViewKeys(own, v, ms, clock, k);
    if k > 0 {
      LastSeen(own, v, ms, clock, k - 1, s);
      SameOpened(own, v, ms, clock, k - 1);
      var x := ViewAfter(own, v, ms, clock, k)[s];
      if AcceptedAt(own, v, ms, clock, k - 1) && Opened(own, v, ms[k - 1]).value.0 == s {
        assert AcceptedFrom(own, v, ms, clock, k - 1, s, x.time);
      } else {
        assert x == ViewAfter(own, v, ms, clock, k - 1)[s];
      }
    }
  }

  lemma SeenWhenAccepted(own: Identity, v: View, ms: seq<Initiation>, clock: seq<nat>, i: nat, k: nat, s: Point, t: nat)
    requires |clock| == |ms| && i < k <= |ms| && AcceptedFrom(own, v, ms, clock, i, s, t)
    ensures s in v && s in ViewAfter(own, v, ms, clock, k)
    ensures t <= ViewAfter(own, v, ms, clock, k)[s].time && clock[i] <= ViewAfter(own, v, ms, clock, k)[s].at
  {
    SameOpened(own, v, ms, clock, i);
    ViewKeys(own, v, ms, clock, i);
    ViewGrows(own, v, ms, clock, i + 1, k, s);
    assert ViewAfter(own, v, ms, clock, i + 1)[s] == Seen(t, clock[i]);
  }

  /** Newer, and 20 ms or more later, than a message accepted before. */
  predicate LaterThan(own: Identity, v: View, ms: seq<Initiation>, clock: seq<nat>, i: nat, k: nat, s: Point, t: nat)
    requires |clock| == |ms| && i < |ms| && k < |ms|
  {
    Opened(own, v, ms[i]).Some? && Opened(own, v, ms[i]).value.0 == s ==>
      t > Opened(own, v, ms[i]).value.1 && clock[k] >= clock[i] + 20_000_000
  }

  /** Over every run message `k` is accepted exactly if it opens to a sender and a time that is newer
      than the ones remembered at the start and those of every message accepted from that sender,
      each of which lies at least 20 ms back. */
  lemma AcceptedIff(own: Identity, v: View, ms: seq<Initiation>, clock: seq<nat>, k: nat, s: Point, t: nat)
    requires |clock| == |ms| && k < |ms|
    ensures AcceptedFrom(own, v, ms, clock, k, s, t) <==>
              && Opened(own, v, ms[k]) == Some((s, t)) && s in v && t > v[s].time && clock[k] >= v[s].at + 20_000_000
              && forall i :: 0 <= i < k && AcceptedAt(own, v, ms, clock, i) ==> LaterThan(own, v, ms, clock, i, k, s, t)
  {
    SameOpened(own, v, ms, clock, k);
    if Opened(own, v, ms[k]) == Some((s, t)) && s in v {
      LastSeen(own, v, ms, clock, k, s);
      ViewGrows(own, v, ms, clock, 0, k, s);
      forall i | 0 <= i < k && AcceptedAt(own, v, ms, clock, i) && AcceptedAt(own, v, ms, clock, k)
        ensures LaterThan(own, v, ms, clock, i, k, s, t)
      {
        SameOpened(own, v, ms, clock, i);
        var (s', t') := Opened(own, v, ms[i]).value;
        if s' == s { SeenWhenAccepted(own, v, ms, clock, i, k, s, t'); }
      }
    }
  }
}
