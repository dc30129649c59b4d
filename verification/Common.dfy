/** Small vocabulary shared by the models. */
module Common {
  datatype Option<+T> = None | Some(value: T)

  type Byte = x: int | 0 <= x < 256 witness 0

  const TWO16: nat := 0x1_0000
  const TWO31: int := 0x8000_0000
  const TWO32: nat := 0x1_0000_0000
  const TWO64: nat := 0x1_0000_0000_0000_0000

  predicate NoDup<T(==)>(s: seq<T>) {
    forall i, j :: 0 <= i < j < |s| ==> s[i] != s[j]
  }

  /** A list after all occurrences of an element were taken off. */
  function Without<T(==,!new)>(s: seq<T>, a: T): (r: seq<T>)
    ensures forall x :: x in r <==> x in s && x != a
  {
    if s == [] then [] else (if s[0] == a then [] else [s[0]]) + Without(s[1..], a)
  }

  lemma {:induction false} WithoutNoDup<T(!new)>(s: seq<T>, a: T)
    requires NoDup(s)
    ensures NoDup(Without(s, a))
  {
    if s != [] {
      assert NoDup(s[1..]);
      assert s[0] !in s[1..];
      WithoutNoDup(s[1..], a);
    }
  }

  lemma {:induction false} WithoutAbsent<T(!new)>(s: seq<T>, a: T)
    requires a !in s
    ensures Without(s, a) == s
  {
    if s != [] { WithoutAbsent(s[1..], a); }
  }
}

/** Limits of the protocol, from `messages.h`. */
module Messages {
  import opened Common

  const COUNTER_BITS_TOTAL: nat := 8192
  const BITS_PER_LONG: nat := 64
  const COUNTER_WINDOW_SIZE: nat := COUNTER_BITS_TOTAL - BITS_PER_LONG
  const REJECT_AFTER_MESSAGES: nat := TWO64 - 1 - COUNTER_WINDOW_SIZE - 1
  const MAX_STAGED_PACKETS: nat := 128
  const MAX_QUEUED_PACKETS: nat := 1024
  const MESSAGE_MAX_SIZE: nat := 65535
}
