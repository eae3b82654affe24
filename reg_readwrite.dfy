/**
 * The firmware that blinks PB5 with the library busy-wait `_delay_ms`:
 * the body of its `main`, run against the simulated register file. Its
 * `set_bit` and `clear_bit` store the same bytes as the register primitives
 * of the register file; `_delay_ms` stores to no register and is left out.
 */
module RegReadWrite {
  import opened Avr
  import opened Registers

  /**
   * One pass of `main`'s loop: PB5 high, `_delay_ms(1000)`, PB5 low,
   * `_delay_ms(1000)`. PORTB is stored twice, high then low, nothing else is
   * stored, and PORTB ends with bit 5 clear and its other bits as they were.
   */
  method BlinkRound(rf: RegisterFile)
    requires rf.Valid()
    modifies rf`writes, rf.mem
    ensures rf.mem[PORTB_ADDR] == ClearBitValue(old(rf.mem[PORTB_ADDR]), LED_BIT)
    ensures !IsSet(rf.mem[PORTB_ADDR], LED_BIT)
    ensures forall j: bv8 :: j < 8 && j != LED_BIT ==> IsSet(rf.mem[PORTB_ADDR], j) == IsSet(old(rf.mem[PORTB_ADDR]), j)
    ensures forall a :: 0 <= a < MEMORY_SIZE && a != PORTB_ADDR ==> rf.mem[a] == old(rf.mem[a])
    ensures rf.writes == old(rf.writes) + [
      BusWrite(rf.cycles, PORTB_ADDR, SetBitValue(old(rf.mem[PORTB_ADDR]), LED_BIT)),
      BusWrite(rf.cycles, PORTB_ADDR, ClearBitValue(old(rf.mem[PORTB_ADDR]), LED_BIT))]
  {
    ghost var portb := rf.mem[PORTB_ADDR];
    rf.SetBit(PORTB_ADDR, LED_BIT);
    // _delay_ms(1000) stores to no register
    rf.ClearBit(PORTB_ADDR, LED_BIT);
    // _delay_ms(1000) stores to no register
    ClearAfterSet(portb, LED_BIT);
  }

  /**
   * Between the two stores of a pass, PORTB holds the original byte with
   * bit 5 set; after the pass, with bit 5 clear. Either way its other seven
   * bits are the original ones.
   */
  lemma RoundLevels(portb: bv8)
    ensures IsSet(SetBitValue(portb, LED_BIT), LED_BIT)
    ensures !IsSet(ClearBitValue(SetBitValue(portb, LED_BIT), LED_BIT), LED_BIT)
    ensures forall j: bv8 :: j < 8 && j != LED_BIT ==>
      IsSet(SetBitValue(portb, LED_BIT), j) == IsSet(portb, j) &&
      IsSet(ClearBitValue(SetBitValue(portb, LED_BIT), LED_BIT), j) == IsSet(portb, j)
  {
  }

  /**
   * `main`, with its endless loop cut after `rounds` passes: DDRB gets bit 5
   * set once, before the loop, and is never stored again; every later store
   * goes to PORTB, and after at least one pass PB5 is low.
   */
  method Blink(rf: RegisterFile, rounds: nat)
    requires rf.Valid()
    modifies rf`writes, rf.mem
    ensures rf.mem[DDRB_ADDR] == SetBitValue(old(rf.mem[DDRB_ADDR]), LED_BIT)
    ensures rounds == 0 ==> rf.mem[PORTB_ADDR] == old(rf.mem[PORTB_ADDR])
    ensures 0 < rounds ==> rf.mem[PORTB_ADDR] == ClearBitValue(old(rf.mem[PORTB_ADDR]), LED_BIT)
    ensures forall a :: 0 <= a < MEMORY_SIZE && a != DDRB_ADDR && a != PORTB_ADDR ==> rf.mem[a] == old(rf.mem[a])
    ensures |rf.writes| == |old(rf.writes)| + 1 + 2 * rounds
    ensures rf.writes[|old(rf.writes)|] == BusWrite(rf.cycles, DDRB_ADDR, SetBitValue(old(rf.mem[DDRB_ADDR]), LED_BIT))
    ensures forall k :: |old(rf.writes)| < k < |rf.writes| ==> rf.writes[k].addr == PORTB_ADDR
  {
    rf.SetBit(DDRB_ADDR, LED_BIT);
    for i := 0 to rounds
      invariant rf.mem[DDRB_ADDR] == SetBitValue(old(rf.mem[DDRB_ADDR]), LED_BIT)
      invariant i == 0 ==> rf.mem[PORTB_ADDR] == old(rf.mem[PORTB_ADDR])
      invariant 0 < i ==> rf.mem[PORTB_ADDR] == ClearBitValue(old(rf.mem[PORTB_ADDR]), LED_BIT)
      invariant forall a :: 0 <= a < MEMORY_SIZE && a != DDRB_ADDR && a != PORTB_ADDR ==> rf.mem[a] == old(rf.mem[a])
      invariant |rf.writes| == |old(rf.writes)| + 1 + 2 * i
      invariant rf.writes[|old(rf.writes)|] == BusWrite(rf.cycles, DDRB_ADDR, SetBitValue(old(rf.mem[DDRB_ADDR]), LED_BIT))
      invariant forall k :: |old(rf.writes)| < k < |rf.writes| ==> rf.writes[k].addr == PORTB_ADDR
    {
      BlinkRound(rf);
      ClearBitIdempotent(old(rf.mem[PORTB_ADDR]), LED_BIT);
    }
  }
}
