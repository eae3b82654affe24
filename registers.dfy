/**
 * The simulated register file the firmware runs against: the device's data
 * space as a byte array indexed by a 16-bit address, the register primitives
 * `read_reg`, `write_reg`, `set_bit` and `clear_bit`, and the one piece of
 * hardware that changes registers on its own, Timer/Counter1.
 *
 * Beside the bytes the register file keeps a virtual clock, in system clock
 * cycles, and the log of every store the CPU made, stamped with that clock.
 */
module Registers {
  import opened Avr
  import opened Timer1

  /** One store by the CPU: when, where, and the byte it put on the bus. */
  datatype BusWrite = BusWrite(cycle: nat, addr: Addr, value: bv8)

  /** The stores in `ws` that went to `addr`, in order. */
  function WritesTo(ws: seq<BusWrite>, addr: Addr): (r: seq<BusWrite>)
    ensures |r| <= |ws|
  {
    if ws == [] then []
    else (if ws[0].addr == addr then [ws[0]] else []) + WritesTo(ws[1..], addr)
  }

  lemma {:induction false} WritesToAppend(ws: seq<BusWrite>, vs: seq<BusWrite>, addr: Addr)
    ensures WritesTo(ws + vs, addr) == WritesTo(ws, addr) + WritesTo(vs, addr)
  {
    if ws != [] {
      assert (ws + vs)[0] == ws[0] && (ws + vs)[1..] == ws[1..] + vs;
      WritesToAppend(ws[1..], vs, addr);
    } else {
      assert ws + vs == vs;
    }
  }

  class RegisterFile {
    /** The data space; the registers are its memory-mapped bytes. */
    const mem: array<bv8>
    /** Virtual time, in system clock cycles. */
    var cycles: nat
    /** Every store the CPU made, oldest first. */
    var writes: seq<BusWrite>

    ghost predicate Valid() {
      mem.Length == MEMORY_SIZE
    }

    /** The count Timer/Counter1 holds in TCNT1H:TCNT1L. */
    function Count(): (c: nat)
      reads mem
      requires Valid()
      ensures c < COUNTER_MODULUS
    {
      CounterValue(mem[TCNT1L_ADDR], mem[TCNT1H_ADDR])
    }

    /** Power-on: every register 0, no time passed, nothing written. */
    constructor ()
      ensures Valid() && fresh(mem)
      ensures forall a :: 0 <= a < MEMORY_SIZE ==> mem[a] == 0
      ensures cycles == 0 && writes == []
    {
      mem := new bv8[MEMORY_SIZE](_ => 0);
      cycles := 0;
      writes := [];
    }

    /** `read_reg`: the byte at `addr`; reading changes nothing. */
    method ReadReg(addr: Addr) returns (value: bv8)
      requires Valid()
      ensures value == mem[addr]
    {
      value := mem[addr];
    }

    /**
     * `write_reg`: store `value` at `addr`. Only that byte changes, and a
     * following `read_reg(addr)` returns `value` unless `addr` is the
     * write-one-to-clear flag register.
     */
    method WriteReg(addr: Addr, value: bv8)
      requires Valid()
      modifies this`writes, mem
      ensures mem[addr] == StoreEffect(addr, old(mem[addr]), value)
      ensures addr != TIFR1_ADDR ==> mem[addr] == value
      ensures forall a :: 0 <= a < MEMORY_SIZE && a != addr ==> mem[a] == old(mem[a])
      ensures writes == old(writes) + [BusWrite(cycles, addr, value)]
    {
      mem[addr] := StoreEffect(addr, mem[addr], value);
      writes := writes + [BusWrite(cycles, addr, value)];
    }

    /**
     * `set_bit`: read the byte at `addr` and store it back with bit `bit`
     * set. On a plain register that sets exactly that bit; bits 8 to 14 are
     * shifted out of the byte and change nothing.
     */
    method SetBit(addr: Addr, bit: bv8)
      requires Valid() && DefinedShift(bit)
      modifies this`writes, mem
      ensures mem[addr] == StoreEffect(addr, old(mem[addr]), SetBitValue(old(mem[addr]), bit))
      ensures addr != TIFR1_ADDR && bit < 8 ==>
        IsSet(mem[addr], bit) &&
        forall j: bv8 :: j < 8 && j != bit ==> IsSet(mem[addr], j) == IsSet(old(mem[addr]), j)
      ensures addr != TIFR1_ADDR && 8 <= bit ==> mem[addr] == old(mem[addr])
      ensures forall a :: 0 <= a < MEMORY_SIZE && a != addr ==> mem[a] == old(mem[a])
      ensures writes == old(writes) + [BusWrite(cycles, addr, SetBitValue(old(mem[addr]), bit))]
    {
      var v := ReadReg(addr);
      WriteReg(addr, SetBitValue(v, bit));
    }

    /**
     * `clear_bit`: read the byte at `addr` and store it back with bit `bit`
     * cleared. On a plain register that clears exactly that bit; bits 8 to
     * 14 change nothing.
     */
    method ClearBit(addr: Addr, bit: bv8)
      requires Valid() && DefinedShift(bit)
      modifies this`writes, mem
      ensures mem[addr] == StoreEffect(addr, old(mem[addr]), ClearBitValue(old(mem[addr]), bit))
      ensures addr != TIFR1_ADDR && bit < 8 ==>
        !IsSet(mem[addr], bit) &&
        forall j: bv8 :: j < 8 && j != bit ==> IsSet(mem[addr], j) == IsSet(old(mem[addr]), j)
      ensures addr != TIFR1_ADDR && 8 <= bit ==> mem[addr] == old(mem[addr])
      ensures forall a :: 0 <= a < MEMORY_SIZE && a != addr ==> mem[a] == old(mem[a])
      ensures writes == old(writes) + [BusWrite(cycles, addr, ClearBitValue(old(mem[addr]), bit))]
    {
      var v := ReadReg(addr);
      WriteReg(addr, ClearBitValue(v, bit));
    }

    /**
     * Timer/Counter1, running in normal mode on a system-clock prescaler,
     * advances by one count: the count goes up by one modulo 2^16, that
     * many clock cycles pass, and the count that wraps to 0 sets the
     * overflow flag TOV1 (bit 0 of TIFR1). No other register changes.
     */
    method Tick()
      requires Valid() && NormalMode(mem[TCCR1A_ADDR], mem[TCCR1B_ADDR])
      requires Prescaler(mem[TCCR1B_ADDR]) != 0
      modifies this`cycles, mem
      ensures Count() == NextCount(old(Count()))
      ensures cycles == old(cycles) + old(Prescaler(mem[TCCR1B_ADDR]))
      ensures mem[TIFR1_ADDR] == if Count() == 0 then old(mem[TIFR1_ADDR]) | 1 else old(mem[TIFR1_ADDR])
      ensures forall a :: 0 <= a < MEMORY_SIZE && a != TCNT1L_ADDR && a != TCNT1H_ADDR && a != TIFR1_ADDR ==>
        mem[a] == old(mem[a])
    {
      var low, high := mem[TCNT1L_ADDR], mem[TCNT1H_ADDR];
      CountStep(low, high);
      mem[TCNT1L_ADDR] := low + 1;
      if low == 0xFF {
        mem[TCNT1H_ADDR] := high + 1;
        if high == 0xFF {
          mem[TIFR1_ADDR] := mem[TIFR1_ADDR] | 1;
        }
      }
      cycles := cycles + Prescaler(mem[TCCR1B_ADDR]);
    }
  }
}
