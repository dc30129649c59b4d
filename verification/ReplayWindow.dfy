/** The receive-side replay window of section 2 of RFC 6479: a ring of 128 words of 64 bits
    that stands for the set of counters accepted so far, as far back as it still matters.
    Counters are unsigned 64-bit values; every addition is checked not to wrap. */
module ReplayWindow {
  import Messages

  newtype u64 = x: int | 0 <= x < 0x1_0000_0000_0000_0000

  const BITS_PER_LONG: u64 := Messages.BITS_PER_LONG as u64
  const COUNTER_BITS_TOTAL: u64 := Messages.COUNTER_BITS_TOTAL as u64
  const COUNTER_WINDOW_SIZE: u64 := Messages.COUNTER_WINDOW_SIZE as u64
  const COUNTER_WORDS: u64 := COUNTER_BITS_TOTAL / BITS_PER_LONG
  const REJECT_AFTER_MESSAGES: u64 := Messages.REJECT_AFTER_MESSAGES as u64

  /** One `unsigned long` of the bitmap, by its bits. */
  type Word = w: seq<bool> | |w| == 64 witness Zeros(64)

  function Zeros(n: nat): (w: seq<bool>)
    ensures |w| == n && forall i :: 0 <= i < n ==> !w[i]
  {
    if n == 0 then [] else Zeros(n - 1) + [false]
  }

  const ZERO: Word := Zeros(64)

  // ---------------------------------------------------------------- specification

  /** What the window decides, said without bitmap: `counter` is one more than the largest
      accepted value (0 before any). */
  predicate Accepts(accepted: set<u64>, counter: u64, n: u64) {
    && n < REJECT_AFTER_MESSAGES
    && n !in accepted
    && n as int + 1 + COUNTER_WINDOW_SIZE as int >= counter as int
  }

  function NewCounter(counter: u64, n: u64): (c: u64)
    requires n < REJECT_AFTER_MESSAGES
  {
    if n + 1 > counter then n + 1 else counter
  }

  // ---------------------------------------------------------------- the ring

  /** The bit that stands for counter value `v - 1`. */
  predicate BitOf(ring: seq<Word>, v: int)
    requires |ring| == 128 && v >= 0
  {
    ring[(v / 64) % 128][v % 64]
  }

  /** Word indices the ring currently covers. */
  predicate Covered(counter: int, v: int) {
    v >= 0 && counter / 64 - 127 <= v / 64 <= counter / 64
  }

  /** Inside the covered stretch a bit is set exactly for the accepted values; no two values
      of the stretch share a bit. */
  ghost predicate Represents(ring: seq<Word>, counter: u64, accepted: set<u64>) {
    && |ring| == 128
    && (forall a :: a in accepted ==> a < counter)
    && (forall v :: Covered(counter as int, v) ==>
          (BitOf(ring, v) <==> exists a :: a in accepted && a as int + 1 == v))
  }

  /** The ring never confuses two covered values. */
  lemma NoAliasing(counter: int, v: int, u: int)
    requires Covered(counter, v) && Covered(counter, u)
    requires (v / 64) % 128 == (u / 64) % 128 && v % 64 == u % 64
    ensures v == u
  {
  }

  /** Everything the window test lets through is covered. */
  lemma WindowCovered(counter: int, v: int)
    requires v >= 0 && v + COUNTER_WINDOW_SIZE as int >= counter >= v
    ensures Covered(counter, v)
  {
  }

  /** Ring position `j` is among the `m` positions after word `current`. */
  predicate Swept(j: int, current: int, m: int) {
    (j - current - 1) % 128 < m
  }

  lemma SweptStep(j: int, current: int, m: int)
    requires 0 <= j < 128 && 0 <= m < 128 && current >= 0
    ensures Swept(j, current, m + 1) <==> Swept(j, current, m) || j == (current + m + 1) % 128
  {
    var d := (j - current - 1) % 128;
    var q := (j - current - 1) / 128;
    assert j - current - 1 == 128 * q + d;
    if d == m {
      assert current + m + 1 == j + 128 * (-q);
      assert (j + 128 * (-q)) % 128 == j;
    }
    if j == (current + m + 1) % 128 {
      var e := (current + m + 1) / 128;
      assert j - current - 1 == m + 128 * (-e);
      assert (m + 128 * (-e)) % 128 == m;
    }
  }

  /** Words that stay covered are not swept; words that become covered are. */
  lemma SweepHitsNewWords(q: int, current: int, index: int, top: int)
    requires 0 <= current <= index && index - 127 <= q <= index && q >= 0
    requires top == if index - current < 128 then index - current else 128
    ensures Swept(q % 128, current, top) <==> q > current
  {
    assert (q % 128 - current - 1) % 128 == (q - current - 1) % 128 by {
      var e := q / 128;
      assert q - current - 1 == (q % 128 - current - 1) + 128 * e;
    }
    if q <= current {
      assert q - current - 1 == (q - current + 127) + 128 * (-1);
      assert (q - current - 1) % 128 == q - current + 127;
    }
  }

  function SweptWord(w: Word, j: int, current: int, top: int): (r: Word) {
    if Swept(j, current, top) then ZERO else w
  }

  ghost predicate SweptRing(ring: seq<Word>, ring': seq<Word>, current: int, top: int) {
    && |ring| == 128 && |ring'| == 128
    && (forall j :: 0 <= j < 128 ==> ring'[j] == SweptWord(ring[j], j, current, top))
  }

  lemma SweptRingStep(ring: seq<Word>, ring': seq<Word>, current: int, m: int)
    requires current >= 0 && 0 <= m < 128 && SweptRing(ring, ring', current, m)
    ensures SweptRing(ring, ring'[(current + m + 1) % 128 := ZERO], current, m + 1)
  {
    var next := ring'[(current + m + 1) % 128 := ZERO];
    forall j | 0 <= j < 128 ensures next[j] == SweptWord(ring[j], j, current, m + 1) {
      SweptStep(j, current, m);
    }
  }

  /** Moving the window forward keeps the correspondence. */
  lemma SweepRepresents(ring: seq<Word>, ring': seq<Word>, counter: u64, their: u64, accepted: set<u64>)
    requires Represents(ring, counter, accepted) && counter < their
    requires var index, current := their as int / 64, counter as int / 64;
             SweptRing(ring, ring', current, if index - current < 128 then index - current else 128)
    ensures Represents(ring', their, accepted)
  {
    var index, current := their as int / 64, counter as int / 64;
    var top := if index - current < 128 then index - current else 128;
    forall v | Covered(their as int, v)
      ensures BitOf(ring', v) <==> exists a :: a in accepted && a as int + 1 == v
    {
      var q := v / 64;
      SweepHitsNewWords(q, current, index, top);
      if q <= current {
        assert Covered(counter as int, v);
        assert BitOf(ring', v) == BitOf(ring, v);
      }
    }
  }

  /** Setting the bit of a covered value records exactly that value. */
  lemma SetRepresents(ring: seq<Word>, counter: u64, accepted: set<u64>, n: u64)
    requires Represents(ring, counter, accepted) && n < counter && Covered(counter as int, n as int + 1)
    ensures var v := n as int + 1;
            var j := (v / 64) % 128;
            && (BitOf(ring, v) <==> n in accepted)
            && Represents(ring[j := ring[j][v % 64 := true]], counter, accepted + {n})
  {
    var v := n as int + 1;
    var j := (v / 64) % 128;
    var ring' := ring[j := ring[j][v % 64 := true]];
    assert BitOf(ring, v) <==> n in accepted;
    forall u | Covered(counter as int, u)
      ensures BitOf(ring', u) <==> exists a :: a in accepted + {n} && a as int + 1 == u
    {
      if (u / 64) % 128 == j && u % 64 == v % 64 {
        NoAliasing(counter as int, u, v);
        assert n in accepted + {n};
      } else {
        assert BitOf(ring', u) == BitOf(ring, u);
        if exists a :: a in accepted && a as int + 1 == u {
          var a :| a in accepted && a as int + 1 == u;
          assert a in accepted + {n};
        }
      }
    }
  }

  class ReplayCounter {
    var counter: u64
    const backtrack: array<Word>
    ghost var accepted: set<u64>

    ghost predicate Valid()
      reads this, backtrack
    {
      && backtrack.Length == 128
      && Represents(backtrack[..], counter, accepted)
      && counter <= REJECT_AFTER_MESSAGES
    }

    constructor ()
      ensures Valid() && fresh(backtrack) && accepted == {} && counter == 0
    {
      counter, accepted := 0, {};
      backtrack := new Word[128](_ => ZERO);
      new;
      assert forall v :: Covered(0, v) ==> 0 <= v < 64;
    }

    /** `counter_validate`. */
    method CounterValidate(n: u64) returns (ret: bool)
      requires Valid()
      modifies this, backtrack
      ensures Valid()
      ensures ret <==> Accepts(old(accepted), old(counter), n)
      ensures accepted == old(accepted) + (if ret then {n} else {})
      ensures counter == if n < REJECT_AFTER_MESSAGES then NewCounter(old(counter), n) else old(counter)
    {
      if counter >= REJECT_AFTER_MESSAGES + 1 || n >= REJECT_AFTER_MESSAGES {
        return false;
      }
      var their := n + 1;
      if COUNTER_WINDOW_SIZE + their < counter {
        return false;
      }
      var index := their / BITS_PER_LONG;
      if their > counter {
        Clear(their);
        counter := their;
      }
      WindowCovered(counter as int, their as int);
      index := index % COUNTER_WORDS;
      ret := TestAndSet(index, their % BITS_PER_LONG, n);
    }

    /** `test_and_set_bit` on the word of `n + 1`. */
    method TestAndSet(index: u64, b: u64, n: u64) returns (fresh_: bool)
      requires backtrack.Length == 128 && Represents(backtrack[..], counter, accepted)
      requires n < counter && Covered(counter as int, n as int + 1)
      requires index as int == ((n as int + 1) / 64) % 128 && b as int == (n as int + 1) % 64
      modifies this`accepted, backtrack
      ensures Represents(backtrack[..], counter, accepted)
      ensures fresh_ <==> n !in old(accepted)
      ensures accepted == old(accepted) + {n}
    {
      SetRepresents(backtrack[..], counter, accepted, n);
      var w := backtrack[index];
      fresh_ := !w[b];
      backtrack[index] := w[b as int := true];
      assert backtrack[..] == old(backtrack[..])[index as int := w[b as int := true]];
      accepted := accepted + {n};
    }

    /** The words between the old and the new position are cleared, at most once around. */
    method Clear(their: u64)
      requires Valid() && counter < their <= REJECT_AFTER_MESSAGES
      modifies backtrack
      ensures Represents(backtrack[..], their, accepted)
    {
      var index, current := their / BITS_PER_LONG, counter / BITS_PER_LONG;
      var top := if index - current < COUNTER_WORDS then index - current else COUNTER_WORDS;
      ClearWords(current, top);
      SweepRepresents(old(backtrack[..]), backtrack[..], counter, their, accepted);
    }

    method ClearWords(current: u64, top: u64)
      requires backtrack.Length == 128 && top <= 128 && current <= REJECT_AFTER_MESSAGES
      modifies backtrack
      ensures SweptRing(old(backtrack[..]), backtrack[..], current as int, top as int)
    {
      var i: u64 := 1;
      while i <= top
        invariant 1 <= i <= top + 1
        invariant SweptRing(old(backtrack[..]), backtrack[..], current as int, i as int - 1)
        decreases top as int - i as int + 1
      {
        SweptRingStep(old(backtrack[..]), backtrack[..], current as int, i as int - 1);
        backtrack[(i + current) % COUNTER_WORDS] := ZERO;
        i := i + 1;
      }
    }
  }

  // ---------------------------------------------------------------- whole runs

  /** The high-water mark after the first `k` calls. */
  function HighWater(ns: seq<u64>, k: nat): (c: u64)
    requires k <= |ns|
    ensures c <= REJECT_AFTER_MESSAGES
  {
    if k == 0 then 0
    else
      var c := HighWater(ns, k - 1);
      if ns[k - 1] < REJECT_AFTER_MESSAGES then NewCounter(c, ns[k - 1]) else c
  }

  /** The set of values accepted by the first `k` calls. */
  function AcceptedBy(ns: seq<u64>, k: nat): (s: set<u64>)
    requires k <= |ns|
  {
    if k == 0 then {}
    else
      var s := AcceptedBy(ns, k - 1);
      if Accepts(s, HighWater(ns, k - 1), ns[k - 1]) then s + {ns[k - 1]} else s
  }

  /** Call `i` of a run is answered with true. */
  predicate TrueAt(ns: seq<u64>, i: nat)
    requires i < |ns|
  {
    Accepts(AcceptedBy(ns, i), HighWater(ns, i), ns[i])
  }

  /** The object follows the specification over every sequence of calls. */
  method ValidateAll(ns: seq<u64>) returns (rs: seq<bool>)
    ensures |rs| == |ns|
    ensures forall k :: 0 <= k < |ns| ==> rs[k] == TrueAt(ns, k)
  {
    var c := new ReplayCounter();
    rs := [];
    var k := 0;
    while k < |ns|
      invariant 0 <= k <= |ns| && |rs| == k
      invariant fresh(c) && fresh(c.backtrack) && c.Valid()
      invariant c.counter == HighWater(ns, k) && c.accepted == AcceptedBy(ns, k)
      invariant forall j :: 0 <= j < k ==> rs[j] == TrueAt(ns, j)
    {
      var r := c.CounterValidate(ns[k]);
      rs := rs + [r];
      k := k + 1;
    }
  }

  lemma {:induction false} AcceptedByIff(ns: seq<u64>, k: nat, x: u64)
    requires k <= |ns|
    ensures x in AcceptedBy(ns, k) <==> exists i :: 0 <= i < k && TrueAt(ns, i) && ns[i] == x
  {
    if k > 0 {
      AcceptedByIff(ns, k - 1, x);
      if x in AcceptedBy(ns, k - 1) {
        var i :| 0 <= i < k - 1 && TrueAt(ns, i) && ns[i] == x;
      } else if x in AcceptedBy(ns, k) {
        assert TrueAt(ns, k - 1);
      }
    }
  }

  /** One more than the largest accepted counter, or 0. */
  ghost predicate IsMark(accepted: set<u64>, c: u64) {
    && (forall a :: a in accepted ==> a < c)
    && (c == 0 || exists a :: a in accepted && a as int + 1 == c as int)
  }

  lemma {:induction false} HighWaterIs(ns: seq<u64>, k: nat)
    requires k <= |ns|
    ensures IsMark(AcceptedBy(ns, k), HighWater(ns, k))
  {
    if k > 0 {
      HighWaterIs(ns, k - 1);
      NextMark(AcceptedBy(ns, k - 1), HighWater(ns, k - 1), ns[k - 1]);
    }
  }

  lemma NextMark(accepted: set<u64>, c: u64, n: u64)
    requires IsMark(accepted, c) && c <= REJECT_AFTER_MESSAGES
    ensures IsMark(if Accepts(accepted, c, n) then accepted + {n} else accepted, if n < REJECT_AFTER_MESSAGES then NewCounter(c, n) else c)
  {
    if n < REJECT_AFTER_MESSAGES && n + 1 > c { assert n in accepted + {n} && Accepts(accepted, c, n); }
  }

  /** Over every sequence of calls: call `k` is answered with true exactly when its counter is
      below the limit, no earlier call with that counter was answered with true, and the
      counter is at most 8128 behind any accepted one; in particular nothing is accepted twice. */
  lemma RunMeaning(ns: seq<u64>, k: nat)
    requires k < |ns|
    ensures TrueAt(ns, k) <==>
              && ns[k] as int < 0x1_0000_0000_0000_0000 - 8130
              && (forall i :: 0 <= i < k && TrueAt(ns, i) ==> ns[i] != ns[k] && ns[i] as int <= ns[k] as int + 8128)
  {
    var accepted, c := AcceptedBy(ns, k), HighWater(ns, k);
    HighWaterIs(ns, k);
    forall i | 0 <= i < k && TrueAt(ns, i) ensures ns[i] in accepted { AcceptedByIff(ns, k, ns[i]); }
    forall a | a in accepted ensures exists i :: 0 <= i < k && TrueAt(ns, i) && ns[i] == a { AcceptedByIff(ns, k, a); }
    InWindow(accepted, c, ns[k]);
  }

  lemma InWindow(accepted: set<u64>, c: u64, n: u64)
    requires IsMark(accepted, c)
    ensures Accepts(accepted, c, n) <==>
              n as int < 0x1_0000_0000_0000_0000 - 8130 && forall a :: a in accepted ==> a != n && a as int <= n as int + 8128
  {
  }

  /** A counter above everything seen so far is always accepted: in-order traffic is never
      dropped. */
  lemma FreshCounterAccepted(ns: seq<u64>, k: nat)
    requires k < |ns| && ns[k] < REJECT_AFTER_MESSAGES
    requires forall i :: 0 <= i < k ==> ns[i] < ns[k]
    ensures TrueAt(ns, k)
  {
    RunMeaning(ns, k);
  }
}
