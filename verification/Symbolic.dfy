/** Symbolic cryptography: group elements, hashes and authenticated encryption as terms. */
module Symbolic {
  type Secret = nat

  /** A Curve25519 point as the multiset of scalars applied to the base point; `LowOrder`
      stands for the points every scalar maps to zero (the all-zero encoding included). */
  datatype Point = LowOrder | Pt(scalars: multiset<Secret>)

  function Pub(x: Secret): (p: Point) {
    Pt(multiset{x})
  }

  function Dh(x: Secret, p: Point): (q: Point) {
    if p.LowOrder? then LowOrder else Pt(p.scalars + multiset{x})
  }

  /** `curve25519` reports failure exactly on the zero result. */
  predicate DhOk(x: Secret, p: Point) {
    Dh(x, p).Pt?
  }

  lemma DhCommutes(x: Secret, y: Secret)
    ensures Dh(x, Pub(y)) == Dh(y, Pub(x)) && DhOk(x, Pub(y))
  {
    assert multiset{y} + multiset{x} == multiset{x} + multiset{y};
  }

  datatype Term =
    | Zeroed                                   // a cleared buffer
    | Construction | Identifier                // the two protocol names
    | Nothing | Byte(b: nat) | Pair(l: Term, r: Term)
    | PointBytes(p: Point) | Psk(k: nat) | Timestamp(t: nat)
    | Hash(state: Term, data: Term)            // BLAKE2s(state || data)
    | Hmac(key: Term, input: Term)
    | Aead(secret: Term, ad: Term, plain: Term)

  // HKDF, section 2 of RFC 5869, with the chaining key as salt.

  function Extract(ck: Term, data: Term): (prk: Term) {
    Hmac(ck, data)
  }

  function Kdf1(ck: Term, data: Term): (t: Term) {
    Hmac(Extract(ck, data), Byte(1))
  }

  function Kdf2(ck: Term, data: Term): (t: Term) {
    Hmac(Extract(ck, data), Pair(Kdf1(ck, data), Byte(2)))
  }

  function Kdf3(ck: Term, data: Term): (t: Term) {
    Hmac(Extract(ck, data), Pair(Kdf2(ck, data), Byte(3)))
  }

  /** The n-th block of HKDF-Expand with empty info: T(0) is empty, T(n) = HMAC(prk, T(n-1) | n)
      (section 2.3 of RFC 5869). */
  function Expand(prk: Term, n: nat): (t: Term) {
    if n == 0 then Nothing
    else Hmac(prk, if n == 1 then Byte(1) else Pair(Expand(prk, n - 1), Byte(n)))
  }

  /** The three outputs are the first three blocks for the secret extracted with the chaining key. */
  lemma KdfIsHkdf(ck: Term, data: Term)
    ensures var prk := Hmac(ck, data);
            Kdf1(ck, data) == Expand(prk, 1) && Kdf2(ck, data) == Expand(prk, 2) && Kdf3(ck, data) == Expand(prk, 3)
  {
    var prk := Hmac(ck, data);
    assert Expand(prk, 1) == Hmac(prk, Byte(1));
    assert Expand(prk, 2) == Hmac(prk, Pair(Expand(prk, 1), Byte(2)));
  }

  /** The three outputs differ from each other and determine all inputs. */
  lemma KdfInjective(ck: Term, data: Term, ck': Term, data': Term)
    ensures Kdf1(ck, data) == Kdf1(ck', data') ==> ck == ck' && data == data'
    ensures Kdf2(ck, data) == Kdf2(ck', data') ==> ck == ck' && data == data'
    ensures Kdf3(ck, data) == Kdf3(ck', data') ==> ck == ck' && data == data'
    ensures Kdf1(ck, data) != Kdf2(ck', data') && Kdf1(ck, data) != Kdf3(ck', data') && Kdf2(ck, data) != Kdf3(ck', data')
  {
  }
}
