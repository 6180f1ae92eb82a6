/**
 * The pieces of the Java platform the scheduler code leans on: two's-complement
 * `int` and `long`, exceptions as (class name, message) pairs, and
 * `String.equalsIgnoreCase`.
 */
module JavaLang {
  import opened Wrappers

  const TwoTo31: int := 0x8000_0000
  const TwoTo32: int := 0x1_0000_0000

  newtype int32 = x: int | -0x8000_0000 <= x < 0x8000_0000
  newtype int64 = x: int | -0x8000_0000_0000_0000 <= x < 0x8000_0000_0000_0000

  /** Java `int` arithmetic: the mathematical result reduced modulo 2^32 into the signed range. */
  function WrapInt32(x: int): (r: int32)
    ensures -TwoTo31 <= x < TwoTo31 ==> r as int == x
    ensures (x - r as int) % TwoTo32 == 0
  {
    ((x + TwoTo31) % TwoTo32 - TwoTo31) as int32
  }

  /** A thrown Java exception: its runtime class name and its (possibly null) message. */
  datatype Exc = Exc(className: string, message: Option<string>)

  /** What string concatenation makes of `e.getMessage()`: a null message reads "null". */
  function MessageText(e: Exc): string {
    match e.message
    case None => "null"
    case Some(m) => m
  }

  const ExceptionClass := "java.lang.Exception"
  const IllegalArgumentClass := "java.lang.IllegalArgumentException"
  const IllegalStateClass := "java.lang.IllegalStateException"
  const ClassCastClass := "java.lang.ClassCastException"
  const NullPointerClass := "java.lang.NullPointerException"

  /** Upper-casing of the ASCII letters; every other character is left alone. */
  function UpperAscii(c: char): char {
    if 'a' <= c <= 'z' then (c as int - 32) as char else c
  }

  /** `String.equalsIgnoreCase`, for texts whose letters are ASCII. */
  predicate EqualsIgnoreCase(a: string, b: string) {
    |a| == |b| && forall i :: 0 <= i < |a| ==> UpperAscii(a[i]) == UpperAscii(b[i])
  }
}
