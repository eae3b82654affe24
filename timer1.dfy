/**
 * Arithmetic of the 16-bit Timer/Counter1 in normal mode: how its count is
 * split over two byte registers, which clock divisor the clock-select bits
 * choose, and how many counts pass before the counter overflows.
 */
module Timer1 {

  /** System clock of the board, in Hz. */
  const F_CPU := 16_000_000

  /** The counter counts modulo 2^16. */
  const COUNTER_MODULUS := 0x1_0000

  /** Counts per second at the clk/256 prescaler. */
  const TICKS_PER_SECOND := F_CPU / 256

  /** The 16-bit count held by the low and high counter registers. */
  function CounterValue(low: bv8, high: bv8): (c: nat)
    ensures c < COUNTER_MODULUS
  {
    high as int * 256 + low as int
  }

  /** TCNT1L holds the count modulo 256 and TCNT1H the count divided by 256. */
  lemma CounterBytes(low: bv8, high: bv8)
    ensures CounterValue(low, high) % 256 == low as int
    ensures CounterValue(low, high) / 256 == high as int
  {
  }

  /** Incrementing a byte adds one, except that 0xFF wraps to 0. */
  lemma ByteIncrement(b: bv8)
    ensures b != 0xFF ==> (b + 1) as int == b as int + 1
    ensures b == 0xFF ==> b + 1 == 0
  {
  }

  /**
   * The counter counts in its two byte registers: the low byte goes up by
   * one, and the high byte too when the low byte wraps. That is one count
   * of `NextCount`.
   */
  lemma CountStep(low: bv8, high: bv8)
    ensures CounterValue(low + 1, if low == 0xFF then high + 1 else high) == NextCount(CounterValue(low, high))
  {
    ByteIncrement(low);
    ByteIncrement(high);
  }

  /**
   * Clock cycles per count selected by the clock-select bits CS12:CS10
   * (bits 2..0 of TCCR1B); 0 when the counter does not run on the system
   * clock: stopped (CS = 0) or clocked from the external T1 pin (CS = 6, 7).
   */
  function Prescaler(tccr1b: bv8): (p: nat)
    ensures p == 0 <==> tccr1b & 7 == 0 || tccr1b & 7 >= 6
    ensures tccr1b & 7 == 4 ==> p == 256
  {
    var cs := tccr1b & 7;
    if cs == 1 then 1
    else if cs == 2 then 8
    else if cs == 3 then 64
    else if cs == 4 then 256
    else if cs == 5 then 1024
    else 0
  }

  /**
   * Normal mode: waveform-generation bits WGM11:10 (TCCR1A bits 1..0) and
   * WGM13:12 (TCCR1B bits 4..3) all zero, so the counter runs up to 0xFFFF
   * and overflows to 0.
   */
  predicate NormalMode(tccr1a: bv8, tccr1b: bv8) {
    tccr1a & 0x03 == 0 && tccr1b & 0x18 == 0
  }

  /** The count after one more count, and whether that count overflowed. */
  function NextCount(c: nat): (n: nat)
    requires c < COUNTER_MODULUS
    ensures n < COUNTER_MODULUS
    ensures n == 0 <==> c == COUNTER_MODULUS - 1
    ensures n != 0 ==> n == c + 1
  {
    (c + 1) % COUNTER_MODULUS
  }

  /**
   * How many counts a counter started at `c` makes up to and including the
   * one that overflows it: the number of times a poll loop that waits for
   * the overflow flag lets the counter advance.
   */
  function TicksToOverflow(c: nat): (n: nat)
    requires c < COUNTER_MODULUS
    ensures 1 <= n
    decreases COUNTER_MODULUS - c
  {
    if NextCount(c) == 0 then 1 else 1 + TicksToOverflow(NextCount(c))
  }

  lemma {:induction false} TicksToOverflowClosedForm(c: nat)
    requires c < COUNTER_MODULUS
    ensures TicksToOverflow(c) == COUNTER_MODULUS - c
    decreases COUNTER_MODULUS - c
  {
    if NextCount(c) != 0 {
      TicksToOverflowClosedForm(NextCount(c));
    }
  }

  /**
   * The preload that makes the counter overflow after exactly `ticks`
   * counts: 2^16 - ticks. Only delays of one counter pass (at most 2^16
   * counts) can be served this way.
   */
  function ReloadFor(ticks: nat): (r: nat)
    requires 0 < ticks <= COUNTER_MODULUS
    ensures r < COUNTER_MODULUS
    ensures TicksToOverflow(r) == ticks
  {
    TicksToOverflowClosedForm(COUNTER_MODULUS - ticks);
    COUNTER_MODULUS - ticks
  }

  /**
   * One second at clk/256 is 62500 counts, whose exact reload is 3036
   * (0x0BDC); the preload 0x0BDB = 3035 is 65535 - 62500, one count lower,
   * so the counter started there overflows after 62501 counts.
   */
  lemma OneSecondReload()
    ensures TICKS_PER_SECOND == 62500
    ensures ReloadFor(TICKS_PER_SECOND) == 0x0BDC
    ensures CounterValue(0xDB, 0x0B) == 0x0BDB == COUNTER_MODULUS - 1 - TICKS_PER_SECOND
    ensures TicksToOverflow(CounterValue(0xDB, 0x0B)) == TICKS_PER_SECOND + 1
  {
    TicksToOverflowClosedForm(CounterValue(0xDB, 0x0B));
  }
}
