/**
 * The fixed register map of the ATmega328P-style device and the byte
 * arithmetic of the firmware's register primitives.
 *
 * Register values are 8-bit (`bv8`). The primitives compute `1 << bit` in C's
 * `int`, which is 16 bits wide under avr-gcc, and store the result back into
 * an 8-bit register; that promotion and truncation are written out here.
 */
module Avr {

  /** A data-space address, as the firmware's `uint16_t addr`. */
  type Addr = a: int | 0 <= a < 0x1_0000

  /** Number of addressable bytes. */
  const MEMORY_SIZE := 0x1_0000

  // Port B
  const DDRB_ADDR: Addr := 0x24
  const PORTB_ADDR: Addr := 0x25

  // Timer/Counter 1
  const TCCR1A_ADDR: Addr := 0x80
  const TCCR1B_ADDR: Addr := 0x81
  const TCNT1L_ADDR: Addr := 0x84
  const TCNT1H_ADDR: Addr := 0x85
  const TIFR1_ADDR: Addr := 0x36

  /** The pin of port B that the firmware drives (PB5). */
  const LED_BIT: bv8 := 5

  /** Width of C's `int` under avr-gcc: the width `1 << bit` is computed at. */
  const INT_WIDTH := 16

  /**
   * A bit index `bit` is a defined shift amount for `1 << bit` in a 16-bit
   * signed `int` only up to 14: `1 << 15` does not fit and is undefined.
   */
  predicate DefinedShift(bit: bv8) {
    bit as int < INT_WIDTH - 1
  }

  /** Bit `j` of `v` is 1. */
  predicate IsSet(v: bv8, j: bv8)
    requires j < 8
  {
    (v >> j) & 1 == 1
  }

  /** Storing an `int` into a `uint8_t` keeps its low 8 bits. */
  function Truncate(x: bv16): bv8 {
    (x & 0xFF) as bv8
  }

  /** `*reg | (1 << bit)`, stored back into the register. */
  function SetBitValue(v: bv8, bit: bv8): (r: bv8)
    requires DefinedShift(bit)
    ensures bit < 8 ==> IsSet(r, bit)
    ensures bit < 8 ==> forall j: bv8 :: j < 8 && j != bit ==> IsSet(r, j) == IsSet(v, j)
    ensures 8 <= bit ==> r == v
  {
    Truncate(v as bv16 | ((1 as bv16) << (bit as bv16)))
  }

  /** `*reg & ~(1 << bit)`, stored back into the register. */
  function ClearBitValue(v: bv8, bit: bv8): (r: bv8)
    requires DefinedShift(bit)
    ensures bit < 8 ==> !IsSet(r, bit)
    ensures bit < 8 ==> forall j: bv8 :: j < 8 && j != bit ==> IsSet(r, j) == IsSet(v, j)
    ensures 8 <= bit ==> r == v
  {
    Truncate(v as bv16 & !((1 as bv16) << (bit as bv16)))
  }

  /**
   * What a register holds after the CPU stores `written` into it while it
   * held `current`. Every register is plain memory except the Timer/Counter1
   * interrupt flag register, whose flags are cleared by writing a 1 to them
   * and left alone by writing a 0.
   */
  function StoreEffect(addr: Addr, current: bv8, written: bv8): (r: bv8)
    ensures addr != TIFR1_ADDR ==> r == written
    ensures addr == TIFR1_ADDR ==>
      forall j: bv8 :: j < 8 ==> (IsSet(r, j) <==> IsSet(current, j) && !IsSet(written, j))
  {
    if addr == TIFR1_ADDR then current & !written else written
  }

  lemma SetBitIdempotent(v: bv8, bit: bv8)
    requires DefinedShift(bit)
    ensures SetBitValue(SetBitValue(v, bit), bit) == SetBitValue(v, bit)
  {
  }

  lemma ClearBitIdempotent(v: bv8, bit: bv8)
    requires DefinedShift(bit)
    ensures ClearBitValue(ClearBitValue(v, bit), bit) == ClearBitValue(v, bit)
  {
  }

  /**
   * Clearing a bit after setting it gives the original byte with that bit
   * cleared; this is the original byte exactly when the bit was 0 to begin
   * with (or the bit is past the register's width, where both are no-ops).
   */
  lemma ClearAfterSet(v: bv8, bit: bv8)
    requires DefinedShift(bit)
    ensures ClearBitValue(SetBitValue(v, bit), bit) == ClearBitValue(v, bit)
    ensures ClearBitValue(SetBitValue(v, bit), bit) == v <==> 8 <= bit || !IsSet(v, bit)
  {
  }

  /** Setting a bit after clearing it gives the byte with that bit set. */
  lemma SetAfterClear(v: bv8, bit: bv8)
    requires DefinedShift(bit)
    ensures SetBitValue(ClearBitValue(v, bit), bit) == SetBitValue(v, bit)
    ensures SetBitValue(ClearBitValue(v, bit), bit) == v <==> 8 <= bit || IsSet(v, bit)
  {
  }

  /**
   * Write-one-to-clear: writing 1 to a flag leaves it 0 whatever it was, and
   * writing 0 changes no flag.
   */
  lemma FlagWriteOneClears(current: bv8)
    ensures !IsSet(StoreEffect(TIFR1_ADDR, current, 1), 0)
    ensures StoreEffect(TIFR1_ADDR, current, 1) == ClearBitValue(current, 0)
    ensures StoreEffect(TIFR1_ADDR, current, 0) == current
  {
  }

  /**
   * The read-modify-write `set_bit` on the flag register writes back every
   * pending flag together with the one asked for, so it clears them all.
   */
  lemma FlagSetBitClearsAll(current: bv8, bit: bv8)
    requires bit < 8
    ensures StoreEffect(TIFR1_ADDR, current, SetBitValue(current, bit)) == 0
  {
  }
}
