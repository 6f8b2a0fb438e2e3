/**
 The daemon's monotonic clock is a `uint32_t` count of milliseconds that wraps
 every 49 days. Everywhere in this project an instant is an unbounded number of
 milliseconds: `Wrap(t)` is what the 32-bit clock reads at `t`, and so what a
 `uint32_t` field that stores `t` holds. Every comparison the source makes,
 `static_cast<int32_t>(a - b)`, is `Gap(a, b)`, which `GapReadsWrappedClock`
 shows to depend on those wrapped readings alone.
 */
module Clock {

  const MODULUS: int := 0x1_0000_0000
  const HALF: int := 0x8000_0000

  type Word = w: int | 0 <= w < 0x1_0000_0000

  function Wrap(t: int): Word {
    t % MODULUS
  }

  /** `static_cast<int32_t>(a - b)` on two `uint32_t` values. */
  function SignedDifference(a: Word, b: Word): int {
    var w := (a - b) % MODULUS;
    if w < HALF then w else w - MODULUS
  }

  /** The signed 32-bit integer congruent to `d`. */
  function Signed(d: int): (r: int)
    ensures -HALF <= r < HALF
    decreases if d >= HALF then d else if d < -HALF then -d else 0
  {
    if d >= HALF then Signed(d - MODULUS)
    else if d < -HALF then Signed(d + MODULUS)
    else d
  }

  /** What the source's wrapped comparison yields for the instants `a` and `b`. */
  function Gap(a: int, b: int): int {
    Signed(a - b)
  }

  lemma {:induction false} SignedIsCongruent(d: int)
    ensures Signed(d) == if d % MODULUS < HALF then d % MODULUS else d % MODULUS - MODULUS
    decreases if d >= HALF then d else if d < -HALF then -d else 0
  {
    if d >= HALF {
      SignedIsCongruent(d - MODULUS);
    } else if d < -HALF {
      SignedIsCongruent(d + MODULUS);
    }
  }

  /** The comparison needs nothing but the two wrapped readings, whatever the
      distance between the instants. */
  lemma GapReadsWrappedClock(a: int, b: int)
    ensures Gap(a, b) == SignedDifference(Wrap(a), Wrap(b))
  {
    SignedIsCongruent(a - b);
    assert (Wrap(a) - Wrap(b)) % MODULUS == (a - b) % MODULUS by {
      var ka, kb := a / MODULUS, b / MODULUS;
      assert a - b == (Wrap(a) - Wrap(b)) + MODULUS * (ka - kb);
    }
  }

  /** It tells the true distance exactly when that distance fits `int32_t`. */
  lemma GapIsDistance(a: int, b: int)
    ensures Gap(a, b) == a - b <==> -HALF <= a - b < HALF
  {}

  /** The `uint32_t` congruent to `d`: `Unsigned(a - b)` is the unsigned
      difference of two readings, `Unsigned(t)` the reading at `t` itself. */
  function Unsigned(d: int): (r: int)
    ensures 0 <= r < MODULUS
    decreases if d < 0 then -d else if d >= MODULUS then d else 0
  {
    if d >= MODULUS then Unsigned(d - MODULUS)
    else if d < 0 then Unsigned(d + MODULUS)
    else d
  }

  lemma {:induction false} UnsignedIsWrap(d: int)
    ensures Unsigned(d) == Wrap(d)
    decreases if d < 0 then -d else if d >= MODULUS then d else 0
  {
    if d >= MODULUS {
      UnsignedIsWrap(d - MODULUS);
    } else if d < 0 {
      UnsignedIsWrap(d + MODULUS);
    }
  }
}
