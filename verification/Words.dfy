/** Unsigned machine words of the firmware and the wrap-around clock they keep. */
module Words {

  type U8 = x: int | 0 <= x < 0x100
  type U16 = x: int | 0 <= x < 0x1_0000
  type U32 = x: int | 0 <= x < 0x1_0000_0000

  const M32: int := 0x1_0000_0000

  function Min(a: int, b: int): int { if a < b then a else b }

  /** Unsigned 32-bit difference, as C computes `a - b`. */
  function Sub32(a: U32, b: U32): (r: U32) {
    (a - b) % M32
  }

  /** Unsigned 32-bit sum. */
  function Add32(a: U32, b: nat): (r: U32) {
    (a + b) % M32
  }

  /** hal_elapsed_u32 and hal_millis_deadline_expired: at least `period` since `start`. */
  predicate Elapsed(now: U32, start: U32, period: nat) {
    Sub32(now, start) >= period
  }

  /** The counter value shown at an unbounded time. */
  function Tick(t: nat): (r: U32) {
    t % M32
  }

  lemma DivisionUnique(n: int, k: int, q: int, r: int)
    requires k > 0 && n == k * q + r && 0 <= r < k
    ensures n / k == q && n % k == r
  {
    MultipleIsFar(k, q - n / k);
    assert k * (q - n / k) == n % k - r;
  }

  lemma MultipleIsFar(k: int, d: int)
    requires k >= 0
    ensures d >= 1 ==> k * d >= k
    ensures d <= -1 ==> k * d <= -k
  {
    if d >= 1 {
      assert k * d == k + k * (d - 1);
    } else if d <= -1 {
      assert k * d == k * (d + 1) - k;
    }
  }

  lemma NextTick(n: nat)
    ensures (Tick(n) + 1) % M32 == Tick(n + 1)
  {
    var q, r := n / M32, n % M32;
    if r + 1 < M32 {
      DivisionUnique(n + 1, M32, q, r + 1);
    } else {
      DivisionUnique(n + 1, M32, q + 1, 0);
    }
  }

  /** The counter difference is the true difference modulo 2^32. */
  lemma TickDifference(earlier: nat, later: nat)
    requires earlier <= later
    ensures Sub32(Tick(later), Tick(earlier)) == (later - earlier) % M32
  {
    var q, p := later / M32, earlier / M32;
    var d := Tick(later) - Tick(earlier);
    assert later - earlier == M32 * (q - p) + d;
    DivisionUnique(later - earlier, M32, q - p + d / M32, d % M32);
  }

  /** A period the counter shows as over has really passed, in whole units of the
      counter, whatever the wraps in between; the other way round holds while less
      than one wrap passed. */
  lemma ElapsedIsReal(earlier: nat, later: nat, period: nat)
    requires earlier <= later
    ensures Elapsed(Tick(later), Tick(earlier), period) ==> later - earlier >= period
    ensures later - earlier < M32 ==>
              (Elapsed(Tick(later), Tick(earlier), period) <==> later - earlier >= period)
  {
    TickDifference(earlier, later);
    var d := later - earlier;
    assert d == M32 * (d / M32) + d % M32;
  }

  /** The resolution: between real times, of which the counter shows the whole
      units, a period shown as over means more than `period - 1`, and one that
      really passed is shown, while less than a wrap has. */
  lemma ElapsedResolution(earlier: real, later: real, period: nat)
    requires 0.0 <= earlier <= later
    ensures var over := Elapsed(Tick(later.Floor), Tick(earlier.Floor), period);
            && (over ==> later - earlier > period as real - 1.0)
            && (period as real <= later - earlier <= M32 as real - 1.0 ==> over)
  {
    ElapsedIsReal(earlier.Floor, later.Floor, period);
    assert later.Floor as real <= later < later.Floor as real + 1.0;
    assert earlier.Floor as real <= earlier < earlier.Floor as real + 1.0;
  }

  /** C's division, which rounds toward zero. */
  function TruncDiv(a: int, b: int): int
    requires b > 0
  {
    if a >= 0 then a / b else -(-a / b)
  }

  /** C's remainder, which takes the sign of the dividend. */
  function TruncMod(a: int, b: int): int
    requires b > 0
  {
    a - b * TruncDiv(a, b)
  }
}
