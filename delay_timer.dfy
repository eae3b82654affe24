/**
 * The firmware that blinks PB5 with a one-second Timer/Counter1 delay:
 * `delay_1000ms` and the body of `main`, run against the simulated
 * register file.
 */
module DelayTimer {
  import opened Avr
  import opened Timer1
  import opened Registers

  // The bytes `delay_1000ms` stores.
  const TCCR1A_NORMAL: bv8 := 0x00
  const TCCR1B_CLK256: bv8 := 0x04
  const PRELOAD_LOW: bv8 := 0xDB
  const PRELOAD_HIGH: bv8 := 0x0B

  /** The count `delay_1000ms` starts the counter from. */
  function Preload(): nat {
    CounterValue(PRELOAD_LOW, PRELOAD_HIGH)
  }

  /**
   * Clock cycles the poll loop of `delay_1000ms` waits from a clear flag:
   * the counts from the preload up to the overflow (2^16 minus the preload),
   * each of them one prescaler period long.
   */
  function DelayCycles(): nat {
    (COUNTER_MODULUS - Preload()) * Prescaler(TCCR1B_CLK256)
  }

  /**
   * The configuration selects normal mode at clk/256, and the wait is one
   * second of the 16 MHz clock and one count (256 cycles) more.
   */
  lemma DelayCyclesValue()
    ensures NormalMode(TCCR1A_NORMAL, TCCR1B_CLK256)
    ensures Prescaler(TCCR1B_CLK256) == 256
    ensures Preload() == 3035
    ensures DelayCycles() == F_CPU + 256
  {
  }

  /**
   * The wait is the one `TicksToOverflow` counts from the preload: 62501
   * counts, one more than the 62500 counts in a second at clk/256.
   */
  lemma DelayTicks()
    ensures DelayCycles() == TicksToOverflow(Preload()) * Prescaler(TCCR1B_CLK256)
    ensures TicksToOverflow(Preload()) == TICKS_PER_SECOND + 1
  {
    OneSecondReload();
  }

  lemma MulSucc(t: nat, p: nat)
    ensures (t + 1) * p == t * p + p
  {
  }

  /** The registers `delay_1000ms` stores to. */
  predicate TimerRegister(a: Addr) {
    a == TCCR1A_ADDR || a == TCCR1B_ADDR || a == TCNT1L_ADDR || a == TCNT1H_ADDR || a == TIFR1_ADDR
  }

  /** The four configuration stores, in program order, all at cycle `start`. */
  function ConfigWrites(start: nat): seq<BusWrite> {
    [ BusWrite(start, TCCR1A_ADDR, TCCR1A_NORMAL),
      BusWrite(start, TCCR1B_ADDR, TCCR1B_CLK256),
      BusWrite(start, TCNT1L_ADDR, PRELOAD_LOW),
      BusWrite(start, TCNT1H_ADDR, PRELOAD_HIGH) ]
  }

  /**
   * The stores of one `delay_1000ms` begun at cycle `start` and ended at
   * `end` with `tifr` in the flag register on entry: the configuration, and
   * the flag byte written back with TOV1 set to clear it.
   */
  function DelayWrites(start: nat, end: nat, tifr: bv8): (ws: seq<BusWrite>)
    ensures |ws| == 5
    ensures forall k :: 0 <= k < |ws| ==> TimerRegister(ws[k].addr)
  {
    ConfigWrites(start) + [BusWrite(end, TIFR1_ADDR, SetBitValue(tifr, 0))]
  }

  /**
   * The preload goes in low byte first: in the stores of a delay, TCNT1L is
   * stored (once, with 0xDB) before TCNT1H is (once, with 0x0B), and the
   * two bytes hold 0x0BDB = 3035, that is 65535 - 62500.
   */
  lemma PreloadLowFirst(start: nat, end: nat, tifr: bv8)
    ensures forall i, j ::
      (0 <= i < 5 && 0 <= j < 5 &&
       DelayWrites(start, end, tifr)[i].addr == TCNT1L_ADDR && DelayWrites(start, end, tifr)[j].addr == TCNT1H_ADDR)
      ==> i == 2 && j == 3
    ensures DelayWrites(start, end, tifr)[2] == BusWrite(start, TCNT1L_ADDR, 0xDB)
    ensures DelayWrites(start, end, tifr)[3] == BusWrite(start, TCNT1H_ADDR, 0x0B)
    ensures Preload() == 0x0BDB == COUNTER_MODULUS - 1 - TICKS_PER_SECOND
  {
  }

  /**
   * `delay_1000ms`: configure Timer/Counter1, preload it with 0x0BDB (low
   * byte first), wait until TOV1 reads 1, then clear it by writing it back.
   * With the flag clear on entry the wait lasts `DelayCycles()` cycles and
   * ends with the counter at 0; with it already set the wait ends at once.
   * Every timer flag is clear afterwards, and no register outside the timer
   * changes.
   */
  method Delay1000ms(rf: RegisterFile)
    requires rf.Valid()
    modifies rf, rf.mem
    ensures rf.mem[TCCR1A_ADDR] == TCCR1A_NORMAL && rf.mem[TCCR1B_ADDR] == TCCR1B_CLK256
    ensures rf.mem[TIFR1_ADDR] == 0
    ensures forall a :: 0 <= a < MEMORY_SIZE && !TimerRegister(a) ==> rf.mem[a] == old(rf.mem[a])
    ensures !IsSet(old(rf.mem[TIFR1_ADDR]), 0) ==>
      rf.cycles == old(rf.cycles) + DelayCycles() && rf.Count() == 0
    ensures IsSet(old(rf.mem[TIFR1_ADDR]), 0) ==>
      rf.cycles == old(rf.cycles) && rf.Count() == Preload()
    ensures rf.writes == old(rf.writes) + DelayWrites(old(rf.cycles), rf.cycles, old(rf.mem[TIFR1_ADDR]))
  {
    rf.WriteReg(TCCR1A_ADDR, TCCR1A_NORMAL);
    rf.WriteReg(TCCR1B_ADDR, TCCR1B_CLK256);
    rf.WriteReg(TCNT1L_ADDR, PRELOAD_LOW);
    rf.WriteReg(TCNT1H_ADDR, PRELOAD_HIGH);

    DelayCyclesValue();
    PollOutcome(rf.mem[TIFR1_ADDR], Preload(), rf.cycles, Prescaler(TCCR1B_CLK256));
    var flags := AwaitOverflow(rf);
    FlagSetBitClearsAll(flags, 0);
    rf.SetBit(TIFR1_ADDR, 0);
  }

  /** What the poll loop of `delay_1000ms` sees when it ends. */
  datatype PollEnd = PollEnd(flags: bv8, count: nat, cycles: nat)

  /**
   * The poll loop of `delay_1000ms` on values: starting from the flag byte
   * `flags`, the count `count` and the clock `cycles`, with the counter
   * running at `p` cycles per count, re-read TIFR1 after every count until
   * TOV1 reads 1. The count that wraps the counter to 0 sets TOV1.
   */
  function Poll(flags: bv8, count: nat, cycles: nat, p: nat): PollEnd
    requires count < COUNTER_MODULUS
    decreases if IsSet(flags, 0) then 0 else COUNTER_MODULUS - count
  {
    if IsSet(flags, 0) then PollEnd(flags, count, cycles)
    else
      var next := NextCount(count);
      assert IsSet(flags | 1, 0);
      Poll(if next == 0 then flags | 1 else flags, next, cycles + p, p)
  }

  /**
   * A pending TOV1 ends the loop before any count. Otherwise the loop ends
   * on the count that overflows the counter: the count is 0, TOV1 is the
   * only flag added, and 2^16 - `count` counts (`TicksToOverflow(count)`,
   * by `TicksToOverflowClosedForm`) of `p` cycles each have passed.
   */
  lemma {:induction false} PollOutcome(flags: bv8, count: nat, cycles: nat, p: nat)
    requires count < COUNTER_MODULUS
    ensures IsSet(Poll(flags, count, cycles, p).flags, 0)
    ensures IsSet(flags, 0) ==> Poll(flags, count, cycles, p) == PollEnd(flags, count, cycles)
    ensures !IsSet(flags, 0) ==>
      Poll(flags, count, cycles, p) == PollEnd(flags | 1, 0, cycles + (COUNTER_MODULUS - count) * p)
    decreases COUNTER_MODULUS - count
  {
    if !IsSet(flags, 0) {
      var next := NextCount(count);
      if next != 0 {
        PollOutcome(flags, next, cycles + p, p);
        MulSucc(COUNTER_MODULUS - next, p);
      } else {
        assert IsSet(flags | 1, 0);
      }
    }
  }

  /**
   * The poll loop of `delay_1000ms`: read TIFR1 until TOV1 reads 1, while
   * the running counter advances. It ends as `Poll` says, with the flag
   * byte it read last still in TIFR1; only the counter and the flag
   * register change.
   */
  method AwaitOverflow(rf: RegisterFile) returns (flags: bv8)
    requires rf.Valid() && NormalMode(rf.mem[TCCR1A_ADDR], rf.mem[TCCR1B_ADDR])
    requires Prescaler(rf.mem[TCCR1B_ADDR]) != 0
    modifies rf`cycles, rf.mem
    ensures PollEnd(flags, rf.Count(), rf.cycles) ==
      Poll(old(rf.mem[TIFR1_ADDR]), old(rf.Count()), old(rf.cycles), Prescaler(rf.mem[TCCR1B_ADDR]))
    ensures flags == rf.mem[TIFR1_ADDR]
    ensures forall a :: 0 <= a < MEMORY_SIZE && a != TCNT1L_ADDR && a != TCNT1H_ADDR && a != TIFR1_ADDR ==>
      rf.mem[a] == old(rf.mem[a])
  {
    var p := Prescaler(rf.mem[TCCR1B_ADDR]);
    ghost var outcome := Poll(rf.mem[TIFR1_ADDR], rf.Count(), rf.cycles, p);
    flags := rf.ReadReg(TIFR1_ADDR);
    while !IsSet(flags, 0)
      invariant forall a :: 0 <= a < MEMORY_SIZE && a != TCNT1L_ADDR && a != TCNT1H_ADDR && a != TIFR1_ADDR ==>
        rf.mem[a] == old(rf.mem[a])
      invariant flags == rf.mem[TIFR1_ADDR]
      invariant Poll(flags, rf.Count(), rf.cycles, p) == outcome
      decreases if IsSet(flags, 0) then 0 else COUNTER_MODULUS - rf.Count()
    {
      rf.Tick();
      flags := rf.ReadReg(TIFR1_ADDR);
    }
  }

  /**
   * The stores of one pass of `main`'s loop begun at cycle `t0` with PORTB
   * holding `portb` and TIFR1 holding `tifr`: PB5 high at `t0`, a delay,
   * PB5 low at `t1`, a delay ending at `t2`.
   */
  function RoundWrites(t0: nat, t1: nat, t2: nat, portb: bv8, tifr: bv8): seq<BusWrite> {
    [BusWrite(t0, PORTB_ADDR, SetBitValue(portb, LED_BIT))] + DelayWrites(t0, t1, tifr)
      + [BusWrite(t1, PORTB_ADDR, ClearBitValue(portb, LED_BIT))] + DelayWrites(t1, t2, 0)
  }

  /**
   * In one pass PORTB is stored exactly twice, high then low, and DDRB not
   * at all: PB5 is high from `t0` to `t1` and low from `t1` on.
   */
  lemma RoundPortStores(t0: nat, t1: nat, t2: nat, portb: bv8, tifr: bv8)
    ensures WritesTo(RoundWrites(t0, t1, t2, portb, tifr), PORTB_ADDR) ==
      [BusWrite(t0, PORTB_ADDR, SetBitValue(portb, LED_BIT)), BusWrite(t1, PORTB_ADDR, ClearBitValue(portb, LED_BIT))]
    ensures WritesTo(RoundWrites(t0, t1, t2, portb, tifr), DDRB_ADDR) == []
  {
    var high := BusWrite(t0, PORTB_ADDR, SetBitValue(portb, LED_BIT));
    var low := BusWrite(t1, PORTB_ADDR, ClearBitValue(portb, LED_BIT));
    var d1, d2 := DelayWrites(t0, t1, tifr), DelayWrites(t1, t2, 0);
    NoTimerStoreTo(d1, PORTB_ADDR);
    NoTimerStoreTo(d2, PORTB_ADDR);
    NoTimerStoreTo(d1, DDRB_ADDR);
    NoTimerStoreTo(d2, DDRB_ADDR);
    StoresOfRound(high, d1, low, d2, PORTB_ADDR);
    StoresOfRound(high, d1, low, d2, DDRB_ADDR);
  }

  /** No store of a pass goes to DDRB. */
  lemma RoundAvoidsDdrb(t0: nat, t1: nat, t2: nat, portb: bv8, tifr: bv8)
    ensures forall k :: 0 <= k < |RoundWrites(t0, t1, t2, portb, tifr)| ==>
      RoundWrites(t0, t1, t2, portb, tifr)[k].addr != DDRB_ADDR
  {
    var d1, d2 := DelayWrites(t0, t1, tifr), DelayWrites(t1, t2, 0);
    assert RoundWrites(t0, t1, t2, portb, tifr)[1..6] == d1;
    assert RoundWrites(t0, t1, t2, portb, tifr)[7..] == d2;
  }

  /** A run of timer stores holds no store to a register outside the timer. */
  lemma {:induction false} NoTimerStoreTo(ws: seq<BusWrite>, addr: Addr)
    requires forall k :: 0 <= k < |ws| ==> TimerRegister(ws[k].addr)
    requires !TimerRegister(addr)
    ensures WritesTo(ws, addr) == []
  {
    if ws != [] {
      assert TimerRegister(ws[0].addr);
      NoTimerStoreTo(ws[1..], addr);
    }
  }

  lemma StoresOfRound(a: BusWrite, d1: seq<BusWrite>, b: BusWrite, d2: seq<BusWrite>, addr: Addr)
    requires WritesTo(d1, addr) == [] && WritesTo(d2, addr) == []
    ensures WritesTo([a] + d1 + [b] + d2, addr) == WritesTo([a], addr) + WritesTo([b], addr)
  {
    WritesToAppend([a] + d1 + [b], d2, addr);
    WritesToAppend([a] + d1, [b], addr);
    WritesToAppend([a], d1, addr);
  }

  /**
   * One pass of `main`'s loop: drive PB5 high, wait, drive it low, wait.
   * PORTB keeps its other bits and ends with bit 5 clear, DDRB is not
   * touched, the timer is left configured with its count at 0 and no flag
   * pending (the second delay always starts from a clear TOV1), and the stores are those of `RoundWrites`: the low store comes
   * one delay after the high one (at once when TOV1 was already pending),
   * and the pass ends one delay after that.
   */
  method BlinkRound(rf: RegisterFile)
    requires rf.Valid()
    modifies rf, rf.mem
    ensures rf.mem[PORTB_ADDR] == ClearBitValue(old(rf.mem[PORTB_ADDR]), LED_BIT)
    ensures rf.mem[DDRB_ADDR] == old(rf.mem[DDRB_ADDR])
    ensures rf.mem[TIFR1_ADDR] == 0
    ensures rf.mem[TCCR1A_ADDR] == TCCR1A_NORMAL && rf.mem[TCCR1B_ADDR] == TCCR1B_CLK256 && rf.Count() == 0
    ensures forall a :: 0 <= a < MEMORY_SIZE && a != PORTB_ADDR && !TimerRegister(a) ==> rf.mem[a] == old(rf.mem[a])
    ensures
      var t0 := old(rf.cycles);
      var t1 := if IsSet(old(rf.mem[TIFR1_ADDR]), 0) then t0 else t0 + DelayCycles();
      && rf.cycles == t1 + DelayCycles()
      && rf.writes == old(rf.writes) + RoundWrites(t0, t1, rf.cycles, old(rf.mem[PORTB_ADDR]), old(rf.mem[TIFR1_ADDR]))
  {
    ghost var w0, t0, portb, tifr := rf.writes, rf.cycles, rf.mem[PORTB_ADDR], rf.mem[TIFR1_ADDR];
    ghost var high := BusWrite(t0, PORTB_ADDR, SetBitValue(portb, LED_BIT));
    rf.SetBit(PORTB_ADDR, LED_BIT);
    Delay1000ms(rf);
    ghost var t1 := rf.cycles;
    ghost var d1 := DelayWrites(t0, t1, tifr);
    ghost var low := BusWrite(t1, PORTB_ADDR, ClearBitValue(portb, LED_BIT));
    assert rf.writes == w0 + [high] + d1;
    rf.ClearBit(PORTB_ADDR, LED_BIT);
    ClearAfterSet(portb, LED_BIT);
    assert rf.writes == w0 + [high] + d1 + [low];
    Delay1000ms(rf);
    ghost var d2 := DelayWrites(t1, rf.cycles, 0);
    assert rf.writes == w0 + [high] + d1 + [low] + d2;
    AppendAssoc(w0, [high], d1, [low], d2);
  }

  lemma AppendAssoc(w: seq<BusWrite>, a: seq<BusWrite>, b: seq<BusWrite>, c: seq<BusWrite>, d: seq<BusWrite>)
    ensures w + a + b + c + d == w + (a + b + c + d)
  {
  }

  /**
   * `main`, with its endless loop cut after `rounds` passes: make PB5 an
   * output once, then blink it. DDRB is stored exactly once, before the
   * loop; after at least one pass PB5 is low and every timer flag is clear.
   * From a clear TOV1 every delay waits `DelayCycles()` cycles.
   */
  method Blink(rf: RegisterFile, rounds: nat)
    requires rf.Valid()
    modifies rf, rf.mem
    ensures rf.mem[DDRB_ADDR] == SetBitValue(old(rf.mem[DDRB_ADDR]), LED_BIT)
    ensures rounds == 0 ==> rf.mem[PORTB_ADDR] == old(rf.mem[PORTB_ADDR])
    ensures 0 < rounds ==> rf.mem[PORTB_ADDR] == ClearBitValue(old(rf.mem[PORTB_ADDR]), LED_BIT)
    ensures 0 < rounds ==> rf.mem[TIFR1_ADDR] == 0
    ensures 0 < rounds ==>
      rf.mem[TCCR1A_ADDR] == TCCR1A_NORMAL && rf.mem[TCCR1B_ADDR] == TCCR1B_CLK256 && rf.Count() == 0
    ensures forall a :: 0 <= a < MEMORY_SIZE && a != DDRB_ADDR && a != PORTB_ADDR && !TimerRegister(a) ==>
      rf.mem[a] == old(rf.mem[a])
    ensures |rf.writes| > |old(rf.writes)|
    ensures rf.writes[|old(rf.writes)|] == BusWrite(old(rf.cycles), DDRB_ADDR, SetBitValue(old(rf.mem[DDRB_ADDR]), LED_BIT))
    ensures forall k :: |old(rf.writes)| < k < |rf.writes| ==> rf.writes[k].addr != DDRB_ADDR
    ensures !IsSet(old(rf.mem[TIFR1_ADDR]), 0) ==> rf.cycles == old(rf.cycles) + rounds * (2 * DelayCycles())
  {
    rf.SetBit(DDRB_ADDR, LED_BIT);
    ghost var loopStart := |rf.writes|;
    for i := 0 to rounds
      invariant rf.mem[DDRB_ADDR] == SetBitValue(old(rf.mem[DDRB_ADDR]), LED_BIT)
      invariant i == 0 ==> rf.mem[PORTB_ADDR] == old(rf.mem[PORTB_ADDR]) && rf.cycles == old(rf.cycles)
      invariant 0 < i ==> rf.mem[PORTB_ADDR] == ClearBitValue(old(rf.mem[PORTB_ADDR]), LED_BIT)
      invariant 0 < i ==> rf.mem[TIFR1_ADDR] == 0
      invariant 0 < i ==>
        rf.mem[TCCR1A_ADDR] == TCCR1A_NORMAL && rf.mem[TCCR1B_ADDR] == TCCR1B_CLK256 && rf.Count() == 0
      invariant forall a :: 0 <= a < MEMORY_SIZE && a != DDRB_ADDR && a != PORTB_ADDR && !TimerRegister(a) ==>
        rf.mem[a] == old(rf.mem[a])
      invariant |rf.writes| >= loopStart == |old(rf.writes)| + 1
      invariant rf.writes[|old(rf.writes)|] == BusWrite(old(rf.cycles), DDRB_ADDR, SetBitValue(old(rf.mem[DDRB_ADDR]), LED_BIT))
      invariant forall k :: loopStart <= k < |rf.writes| ==> rf.writes[k].addr != DDRB_ADDR
      invariant !IsSet(old(rf.mem[TIFR1_ADDR]), 0) ==>
        !IsSet(rf.mem[TIFR1_ADDR], 0) && rf.cycles == old(rf.cycles) + i * (2 * DelayCycles())
    {
      ghost var t0, portb, tifr := rf.cycles, rf.mem[PORTB_ADDR], rf.mem[TIFR1_ADDR];
      ghost var before := rf.writes;
      BlinkRound(rf);
      ghost var t1 := if IsSet(tifr, 0) then t0 else t0 + DelayCycles();
      RoundAvoidsDdrb(t0, t1, rf.cycles, portb, tifr);
      assert rf.writes == before + RoundWrites(t0, t1, rf.cycles, portb, tifr);
      assert !IsSet(old(rf.mem[TIFR1_ADDR]), 0) ==>
          rf.cycles == old(rf.cycles) + (i + 1) * (2 * DelayCycles()) by {
        MulSucc(i, 2 * DelayCycles());
      }
      assert rf.mem[PORTB_ADDR] == ClearBitValue(old(rf.mem[PORTB_ADDR]), LED_BIT) by {
        ClearBitIdempotent(old(rf.mem[PORTB_ADDR]), LED_BIT);
      }
    }
  }

  /**
   * From power-on (every register 0, cycle 0), `main` with one pass of its
   * loop stores DDRB once with PB5 set, drives PB5 high at cycle 0 and low
   * one delay later, and ends after two delays.
   */
  method PowerOnRound() returns (trace: seq<BusWrite>, elapsed: nat)
    ensures WritesTo(trace, DDRB_ADDR) == [BusWrite(0, DDRB_ADDR, 0x20)]
    ensures WritesTo(trace, PORTB_ADDR) == [BusWrite(0, PORTB_ADDR, 0x20), BusWrite(DelayCycles(), PORTB_ADDR, 0x00)]
    ensures elapsed == 2 * DelayCycles() == 2 * (F_CPU + 256)
  {
    var rf := new RegisterFile();
    assert rf.mem[PORTB_ADDR] == 0 && rf.mem[DDRB_ADDR] == 0 && rf.mem[TIFR1_ADDR] == 0;
    ghost var setup := [BusWrite(0, DDRB_ADDR, 0x20)];
    rf.SetBit(DDRB_ADDR, LED_BIT);
    assert rf.writes == setup by {
      assert SetBitValue(0, LED_BIT) == 0x20;
    }
    assert !IsSet(rf.mem[TIFR1_ADDR], 0);
    BlinkRound(rf);
    trace, elapsed := rf.writes, rf.cycles;
    assert elapsed == 2 * DelayCycles();
    assert trace == setup + RoundWrites(0, DelayCycles(), elapsed, 0, 0);
    DelayCyclesValue();
    PowerOnStores(elapsed);
  }

  /** The stores of `PowerOnRound`, filtered by register. */
  lemma PowerOnStores(end: nat)
    ensures
      var trace := [BusWrite(0, DDRB_ADDR, 0x20)] + RoundWrites(0, DelayCycles(), end, 0, 0);
      && WritesTo(trace, DDRB_ADDR) == [BusWrite(0, DDRB_ADDR, 0x20)]
      && WritesTo(trace, PORTB_ADDR) == [BusWrite(0, PORTB_ADDR, 0x20), BusWrite(DelayCycles(), PORTB_ADDR, 0x00)]
  {
    var setup := [BusWrite(0, DDRB_ADDR, 0x20)];
    var round := RoundWrites(0, DelayCycles(), end, 0, 0);
    assert SetBitValue(0, LED_BIT) == 0x20 && ClearBitValue(0, LED_BIT) == 0;
    RoundPortStores(0, DelayCycles(), end, 0, 0);
    WritesToAppend(setup, round, DDRB_ADDR);
    WritesToAppend(setup, round, PORTB_ADDR);
  }
}
