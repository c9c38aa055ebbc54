/**
 The operation timer `measure`, repeated verbatim in every scenario class:
 read `System.nanoTime()`, run the action once, read it again, and return the
 difference divided by 1_000_000 with Java's `long` arithmetic. The two clock
 readings are inputs.
 */
module Timer {
  import opened JavaLong

  const NanosPerMilli: int := 1_000_000

  /** The `nanoTime` readings taken before and after the action. */
  datatype Clock = Clock(start: Long, end: Long)

  /** `(end - start) / 1_000_000`: `long` subtraction, then division truncated toward zero. */
  function Measure(c: Clock): (ms: int)
    ensures 0 <= c.end - c.start <= MaxLong ==>
      0 <= ms && ms * NanosPerMilli <= c.end - c.start < (ms + 1) * NanosPerMilli
    ensures MinLong <= c.end - c.start < 0 ==>
      ms <= 0 && (ms - 1) * NanosPerMilli < c.end - c.start <= ms * NanosPerMilli
  {
    Quot(Wrap(c.end - c.start), NanosPerMilli)
  }

  /**
   The elapsed time survives a wrap-around of the nanosecond counter: if `e`
   nanoseconds pass, `e` fitting in a `long`, and the counter reads
   `Wrap(start + e)` afterwards, `measure` still reports the whole
   milliseconds of `e`.
   */
  lemma MeasureAcrossWrap(start: Long, e: int)
    requires 0 <= e <= MaxLong
    ensures Measure(Clock(start, Wrap(start + e))) == e / NanosPerMilli
  {
    var end := Wrap(start + e);
    assert ((end - start) - e) % Modulus == 0 by {
      assert (end - start) - e == -((start + e) - end);
      var k := ((start + e) - end) / Modulus;
      assert (start + e) - end == k * Modulus;
      assert (end - start) - e == (-k) * Modulus;
    }
    WrapCongruent(end - start, e);
  }
}
