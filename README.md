# AVR bare-metal register access and Timer/Counter1 delay, in Dafny

This project models two small bare-metal firmwares for an ATmega328P-class
8-bit microcontroller. Both blink the LED on pin PB5, and both reach the
hardware only through stores and loads at fixed data-space addresses.

- `03_delay_timer/delay_timer.c`
  - Defines the register primitives `set_bit`, `clear_bit`, `write_reg` and `read_reg`.
  - Defines a one-second busy wait `delay_1000ms`. It puts Timer/Counter1 in
    normal mode at clk/256, preloads its 16-bit count with 0x0BDB, polls the
    overflow flag TOV1 (bit 0 of TIFR1), and clears that flag by writing it back.
  - Its `main` makes PB5 an output, then drives it high and low around two delays.
- `02_register_ReadWrite/reg_readwrite.c`
  - Has the same `main` shape, with non-volatile `set_bit`/`clear_bit` and the
    library `_delay_ms` as the wait.

The model is organised as follows:

- **`Avr`** (`avr.dfy`) is the register map and the byte arithmetic of the primitives.
  - Registers hold `bv8` bytes.
  - The C expression `*reg |= (1 << bit)` is computed as C computes it. `1 << bit`
    is evaluated in a 16-bit `int` (avr-gcc's width) and then truncated back into
    the byte.
  - Bit indices 0–7 therefore set or clear exactly one bit, and indices 8–14 change nothing.
  - `1 << 15` overflows the 16-bit `int`, which is undefined behaviour in C, so
    the primitives require `bit < 15`.
  - `StoreEffect` says what a register holds after a store. Every register is plain
    memory except TIFR1, whose flags are write-one-to-clear.
- **`Timer1`** (`timer1.dfy`) is the arithmetic of the 16-bit counter.
  - The count is split over TCNT1L/TCNT1H.
  - The clock-select decoding of TCCR1B and normal mode.
  - The counter increment on the two byte registers.
  - The number of counts to overflow, with a recursive reference definition and a closed form.
  - The reload for a given tick count.
- **`Registers`** (`registers.dfy`) is the simulated register file, a class.
  - It holds the 64 KiB data space as an `array<bv8>`, a virtual clock in CPU
    cycles, and a log of every CPU store (cycle, address, byte).
  - Its methods are the four primitives and `Tick`, the hardware counter
    advancing by one count. `read_reg` changes nothing; each of the three
    storing primitives changes one byte and appends one log entry.
- **`DelayTimer`** (`delay_timer.dfy`) holds `delay_1000ms`, its poll loop and `main` of the timer firmware.
  - The poll loop is proved against a value-level function `Poll`, whose outcome is proved by induction.
  - From a clear TOV1 the wait is `DelayCycles()` = 16,000,256 cycles. That is
    62501 counts of 256 cycles: one second and one count.
  - The code preloads 0x0BDB = 3035 = 65535 − 62500. The formula `reload = 65536 − ticks`
    gives 3036 = 0x0BDC for the 62500 counts of one second (`OneSecondReload`).
    The model follows the code's constant.
- **`RegReadWrite`** (`reg_readwrite.dfy`) holds `main` of the `_delay_ms` firmware, run against the same register file.

## Model

| member | source | states |
|---|---|---|
| Avr.SetBitValue | 03_delay_timer/delay_timer.c:22-25 | `*reg \| (1 << bit)` stored back into a byte: bit `bit` becomes 1 and the other seven bits keep their values; for bits 8–14 the byte is unchanged |
| Avr.ClearBitValue | 03_delay_timer/delay_timer.c:28-31 | `*reg & ~(1 << bit)` stored back: bit `bit` becomes 0, the other seven bits keep their values; bits 8–14 change nothing |
| Avr.StoreEffect | 03_delay_timer/delay_timer.c:54 | a store to a plain register leaves the written byte; a store to TIFR1 clears exactly the flags written as 1 and keeps the others |
| Avr.SetBitIdempotent | 03_delay_timer/delay_timer.c:22-25 | setting a bit twice is the same as setting it once |
| Avr.ClearBitIdempotent | 03_delay_timer/delay_timer.c:28-31 | clearing a bit twice is the same as clearing it once |
| Avr.ClearAfterSet | 03_delay_timer/delay_timer.c:22-31 | clear after set gives the original byte with that bit cleared, and gives back the original byte exactly when that bit was 0 (or lies past the byte) |
| Avr.SetAfterClear | 03_delay_timer/delay_timer.c:22-31 | set after clear gives the byte with that bit set, and the original byte exactly when that bit was 1 (or lies past the byte) |
| Avr.FlagWriteOneClears | 03_delay_timer/delay_timer.c:54 | writing 1 to TOV1 leaves it 0 whatever it was, the same byte as clearing bit 0; writing 0 changes no flag |
| Avr.FlagSetBitClearsAll | 03_delay_timer/delay_timer.c:54 | the read-modify-write `set_bit` on TIFR1 writes every pending flag back as 1, so TIFR1 ends 0 |
| Timer1.CounterValue | 03_delay_timer/delay_timer.c:48-50 | the two counter bytes hold a count below 2^16 |
| Timer1.CounterBytes | 03_delay_timer/delay_timer.c:49-50 | TCNT1L holds the count modulo 256 and TCNT1H the count divided by 256 |
| Timer1.CountStep | 03_delay_timer/delay_timer.c:52 | incrementing TCNT1L, and TCNT1H when TCNT1L wraps, is one count of `NextCount` |
| Timer1.Prescaler | 03_delay_timer/delay_timer.c:46 | clock-select 0, 6 or 7 give no system-clock prescaler; the value 0x04 stored into TCCR1B selects 256 cycles per count |
| Timer1.NextCount | 03_delay_timer/delay_timer.c:52 | the next count stays below 2^16, is 0 exactly after 0xFFFF, and is one more otherwise |
| Timer1.TicksToOverflowClosedForm | 03_delay_timer/delay_timer.c:48-52 | a counter started at `c` overflows after exactly 2^16 − `c` counts |
| Timer1.ReloadFor | 03_delay_timer/delay_timer.c:48 | the reload for `ticks` counts is a valid count that overflows after exactly `ticks` counts |
| Timer1.OneSecondReload | 03_delay_timer/delay_timer.c:48-50 | one second at clk/256 is 62500 counts, whose reload is 0x0BDC; the stored 0x0BDB is 65535 − 62500 and overflows after 62501 counts |
| Registers.RegisterFile.ReadReg | 03_delay_timer/delay_timer.c:38-41 | `read_reg` returns the byte at the address and changes nothing |
| Registers.RegisterFile.WriteReg | 03_delay_timer/delay_timer.c:33-36 | `write_reg` changes only the addressed byte, which then reads back as the value written (TIFR1 aside), and logs one store |
| Registers.RegisterFile.SetBit | 03_delay_timer/delay_timer.c:22-25 | `set_bit` stores the byte with the bit set; on a plain register exactly that bit becomes 1, the others and every other address are unchanged; the non-volatile `set_bit` of 02_register_ReadWrite/reg_readwrite.c:11-14 stores the same byte |
| Registers.RegisterFile.ClearBit | 03_delay_timer/delay_timer.c:28-31 | `clear_bit` stores the byte with the bit cleared; on a plain register exactly that bit becomes 0, the others and every other address are unchanged; the non-volatile `clear_bit` of 02_register_ReadWrite/reg_readwrite.c:17-20 stores the same byte |
| Registers.RegisterFile.Tick | 03_delay_timer/delay_timer.c:52 | while the firmware polls, the running counter advances one count (`NextCount`), one prescaler period passes, the wrap to 0 raises TOV1, and no other register changes |
| DelayTimer.DelayCyclesValue | 03_delay_timer/delay_timer.c:45-52 | the configuration 0x00/0x04 is normal mode at clk/256, the preload is 3035, and the wait is 16,000,256 cycles |
| DelayTimer.DelayTicks | 03_delay_timer/delay_timer.c:48-52 | that wait is `TicksToOverflow` of the preload, 62501 counts, each a prescaler period long |
| DelayTimer.PreloadLowFirst | 03_delay_timer/delay_timer.c:48-50 | the third store of a delay is TCNT1L with 0xDB and the fourth TCNT1H with 0x0B, and these are the only stores to the two counter registers, so the low byte goes in first; the two bytes hold 0x0BDB = 65535 − 62500 |
| DelayTimer.DelayWrites | 03_delay_timer/delay_timer.c:43-55 | a delay stores five bytes, all of them to timer registers |
| DelayTimer.PollOutcome | 03_delay_timer/delay_timer.c:52 | the poll loop ends only with TOV1 read as 1: at once if it was pending, otherwise on the overflowing count, with the count at 0, TOV1 added and 2^16 − count counts elapsed |
| DelayTimer.AwaitOverflow | 03_delay_timer/delay_timer.c:52 | the loop `while (!(read_reg(TIFR1) & 1))` ends in the state `Poll` computes from the entry state, with the flag byte it read still in TIFR1, and only the counter and TIFR1 changed |
| DelayTimer.Delay1000ms | 03_delay_timer/delay_timer.c:43-55 | afterwards TCCR1A = 0x00, TCCR1B = 0x04 and TIFR1 = 0; no non-timer register changes; the stores are the four configuration bytes in order and the flag write-back; from a clear TOV1 it waits `DelayCycles()` and leaves the counter at 0 |
| DelayTimer.NoTimerStoreTo | 03_delay_timer/delay_timer.c:43-55 | stores only to timer registers contain no store to another register |
| DelayTimer.RoundAvoidsDdrb | 03_delay_timer/delay_timer.c:62-72 | no store of a loop pass goes to DDRB |
| DelayTimer.RoundPortStores | 03_delay_timer/delay_timer.c:62-72 | in one pass PORTB is stored exactly twice, PB5 high at the start and low one delay later, and DDRB not at all |
| DelayTimer.BlinkRound | 03_delay_timer/delay_timer.c:62-72 | one pass leaves PORTB with PB5 cleared and its other bits kept, DDRB untouched, the timer in normal mode at clk/256 with count 0 and TIFR1 = 0; its stores and their times are those of `RoundWrites` |
| DelayTimer.Blink | 03_delay_timer/delay_timer.c:58-75 | `main` sets PB5 in DDRB once before the loop and never stores DDRB again; after a pass PB5 is low, the timer is configured with count 0 and no flag pending; from a clear TOV1 each pass takes two delays |
| DelayTimer.PowerOnRound | 03_delay_timer/delay_timer.c:58-72 | from power-on, DDRB is stored once with 0x20, PORTB gets 0x20 at cycle 0 and 0x00 one delay later, and the pass ends after 2 × 16,000,256 cycles |
| RegReadWrite.BlinkRound | 02_register_ReadWrite/reg_readwrite.c:27-40 | one pass stores PORTB twice, PB5 set then cleared; PORTB ends with PB5 = 0 and its other bits unchanged; nothing else changes |
| RegReadWrite.RoundLevels | 02_register_ReadWrite/reg_readwrite.c:30-36 | between the two stores PB5 is 1, after them 0, and the other seven PORTB bits are the original ones throughout |
| RegReadWrite.Blink | 02_register_ReadWrite/reg_readwrite.c:22-41 | `main` stores DDRB once with PB5 set before the loop; every later store goes to PORTB; after a pass PB5 is low |

## Left out

- `reset_handler` (both files) is a naked `rjmp main` in inline assembly: a reset-vector and linking concern with no data effect.
- `_delay_ms` (02_register_ReadWrite/reg_readwrite.c:33,39) belongs to `util/delay.h`, which is not part of this model. It is treated as storing to no register and taking no modelled time.
- `01_blink_led/blink_led.c` duplicates the same `main` through `avr/io.h` names, which are not part of this model.
- `volatile` ordering, compiler reordering and real time are not modelled. Time is only the virtual cycle count of the counter's prescaler periods.
- The AVR TEMP-register latching for 16-bit counter accesses is not modelled. The stores to TCNT1L and TCNT1H land directly, in the code's order (low byte first).
- Registers.RegisterFile.Tick: the counter advances only while the poll loop runs. The counts it makes between starting the clock (the TCCR1B store) and the preload, and between the loop's end and the next preload, are not modelled.
- Registers.RegisterFile.Tick: only normal mode with a system-clock prescaler is modelled. The other waveform modes and the external T1 clock source (clock-select 6 and 7) are not.
- DelayTimer.AwaitOverflow: requires a running counter. With the counter stopped, the firmware's loop would spin forever, and the model does not cover that case (`delay_1000ms` always starts the counter first).
- DelayTimer.Blink and RegReadWrite.Blink: the endless `while (1)` is cut after a given number of passes.
- Avr.SetBitValue and Avr.ClearBitValue: bit indices of 15 and above are excluded (`requires bit < 15`), because `1 << bit` overflows avr-gcc's 16-bit `int` there.
- Avr.FlagSetBitClearsAll: the model follows the C-level read-modify-write of `set_bit(TIFR1, 0)`, which writes every pending flag back as 1 and so clears them all. It does not model the instruction the compiler may emit instead (`sbi` on an I/O address), which on the device clears only TOV1 and leaves the other flags pending.
- The data space is plain bytes except for TIFR1's write-one-to-clear flags. Reserved addresses, I/O side effects of other registers and the pin hardware behind PORTB are not modelled.
