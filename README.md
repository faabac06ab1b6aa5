# PIC32 DDS, keypad and port-expander demos — a Dafny model

Five near-duplicate PIC32 demo programs share one design. A timer-2 interrupt sends one
sample per tick to an MCP4822 DAC over SPI2. Cooperative protothreads scan a keypad on an
SPI port expander, animate a disk, pick random colours and run a serial command line.
Because the interrupt and the threads share SPI2, every expander access is made inside a
"critical section" that masks the timer-2 interrupt.

The programs modelled are:

- `SECABB_test_1_3_2.c`: DDS, keypad, and a serial thread with a human or machine reader.
- `Serial_1_2_3_test_all.c`: DDS, colour, animation, keypad and a menu serial thread, in an
  explicit round-robin loop.
- `TFT_KEY_expander_shift_BRL4.c`: a 12-bit ramp, a colour thread driving port Z of the
  expander, animation and keypad.
- `SECABB_sched_measure_fast.c`: DDS, three counting threads and a measuring serial thread.
- `DDS_DAC.c`: a 200 kHz DDS with an unmasked DAC word and an LED.

Each piece they share is modelled once and instantiated per program:

- `Bits`: 32- and 16-bit words as naturals with explicit wrap-around. C's `&` and `|` are
  defined on naturals, with lemmas relating masks to `%` and `/`.
- `Dds`: the phase accumulator, the table index, and the frequency-to-increment conversion.
- `DacWord`: the MCP4822 control word and the three ways the programs build it.
- `Bus`: the SPI2 bus as a class holding the interrupt-enable flag and a trace of bus events.
  It defines the critical-section discipline and the chip-select framing of a DAC transaction.
- `Timer2`: the three interrupt handlers (DDS, ramp, DDS with LED), as classes over the
  globals they update.
- `Keypad`: the key table, the row scan and the decode loop, and the key thread, one
  activation (from yield to yield) per method.
- `Serial`: the `%s` token scan, the command/value update rules, and the two command
  dispatchers.
- `Anim`, `Colour`: the bouncing disk and the RGB565 colour split; the expander demo's
  port-Z colour thread.
- `Scheduler`: the explicit `while(1)` dispatch loop, `pt_add` registration, and the
  round-robin and documented rate policies.
- `Measure`: the thread counters and the `c` measurement command.

Inputs the firmware gets from hardware or from library code are parameters:

- what a port-expander read returns;
- what `rand()` returns;
- the line the UART reader delivers and whether it timed out;
- the result of the `%f` and `%d` conversions;
- how many scheduler passes fit in the one-second wait of the `c` command.

## Model

| member | source | states |
|---|---|---|
| `Dds.Advance` | SECABB_test_1_3_2.c:94 | the 32-bit accumulator after one tick is below 2^32 and equals old + incr or old + incr - 2^32; it is below the old value exactly when the sum wrapped |
| `Dds.TableIndex` | SECABB_test_1_3_2.c:95 | `accum >> 24` is below the table size 256, and i * 2^24 <= accum < (i+1) * 2^24 |
| `Dds.AccumAfter` | SECABB_test_1_3_2.c:94 | the accumulator after n ticks is a 32-bit word; its closed form is `Dds.AccumClosedForm` |
| `Dds.AccumClosedForm` | SECABB_test_1_3_2.c:94 | after n ticks the accumulator is (start + n * incr) mod 2^32 |
| `Dds.AccumReturns` | SECABB_test_1_3_2.c:94 | the accumulator is back at its start after n ticks iff n * incr is a multiple of 2^32 |
| `Dds.IncrementFor` | SECABB_test_1_3_2.c:380 | the increment for f Hz is the truncated quotient: incr * Fs <= f * 2^32 < (incr + 1) * Fs |
| `Dds.IncrementMonotone` | SECABB_test_1_3_2.c:380 | a higher frequency gets a strictly larger increment (Fs <= 2^32) |
| `Dds.InitialIncrements` | SECABB_test_1_3_2.c:82 | the initial increment 400 * 2^32 / Fs is 17179869 at 100 kHz and 8589934 at 200 kHz (DDS_DAC.c:53) |
| `Dds.OnePeriodAt400Hz` | SECABB_sched_measure_fast.c:82 | with the initial increment, 250 ticks leave the accumulator exactly 46 short of its start, mod 2^32 |
| `DacWord.DecodeControl` | DDS_DAC.c:9-21 | the 12-bit data field read from any 16-bit word is below 4096 |
| `DacWord.EncodeControl` | DDS_DAC.c:9-21 | encoding gives a 16-bit word with bit 14 clear that decodes back to the same channel, gain, shutdown and data fields |
| `DacWord.EncodeDecode` | DDS_DAC.c:9-21 | every 16-bit word with the don't-care bit clear is the encoding of its decoded fields (the other half of the round trip) |
| `DacWord.ConfigHeaders` | DDS_DAC.c:22-24 | `DAC_config_chan_A` decodes as channel A, gain 1x, active; `DAC_config_chan_B` as channel B, gain 1x, active |
| `DacWord.HeaderOrPayload` | SECABB_test_1_3_2.c:106 | OR-ing a payload below 4096 into the channel-A header is addition and leaves the header fields intact |
| `DacWord.MaskedPayload` | SECABB_test_1_3_2.c:106 | `(DAC_data + 2048) & 0xfff` on unsigned words equals (sample + 2048) mod 4096 for any signed sample |
| `DacWord.MaskedSampleWord` | SECABB_test_1_3_2.c:106 | for every sample the word has header 0011 (channel A, 1x, active) and data (sample + 2048) mod 4096 |
| `DacWord.RampWord` | TFT_KEY_expander_shift_BRL4.c:95 | `DAC_config_chan_A OR DAC_data` for a 12-bit value has header 0011 and carries the value unchanged |
| `DacWord.UnmaskedSampleWord` | DDS_DAC.c:78 | the unmasked word is 16 bits; for samples in [-2048, 2047] it decodes as channel A, 1x, active with data sample + 2048 |
| `DacWord.UnmaskedBelowRange` | DDS_DAC.c:78 | without the mask, sample -2049 gives word 0xFFFF, which selects channel B: the range condition above is necessary |
| `Bus.DisciplinedAppend` | SECABB_test_1_3_2.c:36-37 | the flag carries over from one trace to the next, and a concatenation is disciplined iff both parts are |
| `Bus.InterruptWhereEnabled` | SECABB_test_1_3_2.c:36-37 | a disciplined handler trace that leaves the flag set can be inserted at any point where the flag is set, and the trace stays disciplined with the same final flag |
| `Bus.CriticalDisciplined` | SECABB_test_1_3_2.c:221-230 | expander-only operations between `start_`/`end_spi2_critical_section` are disciplined from any flag state and leave the interrupt enabled |
| `Bus.InsideGate` | SECABB_test_1_3_2.c:242-247 | expander accesses made with the interrupt disabled are disciplined and keep it disabled |
| `Bus.SectionThenYield` | TFT_KEY_expander_shift_BRL4.c:199-206 | a critical section followed by a timed yield is disciplined: the yield happens with the interrupt enabled |
| `Bus.CsFramedAppend` | SECABB_test_1_3_2.c:104-109 | after a chip-select-framed prefix, the whole trace is framed iff the rest is framed from the deselected state |
| `Bus.DacWordsAppend` | SECABB_test_1_3_2.c:104-109 | the words written by two traces in sequence are those of the first followed by those of the second |
| `Bus.DdsFrameShape` | SECABB_test_1_3_2.c:101-111 | one DDS tick selects the DAC, writes exactly its one word while selected, deselects, then does the dummy read; it is disciplined from the enabled state and leaves it enabled |
| `Bus.RampFrameShape` | TFT_KEY_expander_shift_BRL4.c:91-101 | the ramp tick writes exactly its one word while selected and does the dummy read before deselecting |
| `Bus.PlainFrameShape` | DDS_DAC.c:74-81 | the 200 kHz tick writes exactly its one word while selected and never reads the receive buffer |
| `Bus.DdsFrame` | SECABB_test_1_3_2.c:101-111 | the DDS handlers' bus order: 16-bit mode, select, write, deselect, dummy read; `Bus.DdsFrameShape` states its properties |
| `Bus.RampFrame` | TFT_KEY_expander_shift_BRL4.c:91-101 | the ramp handler's bus order, with the dummy read before the deselect; `Bus.RampFrameShape` states its properties |
| `Bus.PlainFrame` | DDS_DAC.c:74-81 | the 200 kHz handler's bus order: select, write, deselect; `Bus.PlainFrameShape` states its properties |
| `Bus.FrameAppendsWord` | SECABB_test_1_3_2.c:101-111 | appending any of the three handler frames to a framed trace keeps it framed, and the DAC has then received exactly the earlier words followed by the frame's word |
| `Bus.Spi2.constructor` | SECABB_test_1_3_2.c:430 | after `ConfigIntTimer2` the interrupt is enabled and the empty trace is safe |
| `Bus.Spi2.Send` | SECABB_test_1_3_2.c:36-37 | the trace grows by the piece, the flag follows its enable/disable events, and a disciplined piece keeps a safe bus safe |
| `Timer2.DdsIsr.constructor` | SECABB_test_1_3_2.c:82 | accumulator and sample start at zero and the increment is the one for 400 Hz at 100 kHz |
| `Timer2.DdsIsr.Timer2Handler` | SECABB_test_1_3_2.c:87-113 | one tick: accumulator advanced mod 2^32, `DAC_data` = the table sample at the top 8 bits as an unsigned word, exactly one DDS frame carrying the masked word appended to the bus trace, and the bus still safe with the interrupt enabled (identical handlers at Serial_1_2_3_test_all.c:84-110 and SECABB_sched_measure_fast.c:87-113) |
| `Timer2.DdsIsr.SetFrequency` | SECABB_test_1_3_2.c:378-387 | the `f` command sets the increment to the 32-bit value of f * 2^32 / 100000 and leaves the accumulator and sample alone |
| `Timer2.RampAfter` | TFT_KEY_expander_shift_BRL4.c:85 | the ramp value is always a 12-bit number |
| `Timer2.RampClosedForm` | TFT_KEY_expander_shift_BRL4.c:85 | after n ticks the ramp is (d + n) mod 4096 |
| `Timer2.RampPeriod` | TFT_KEY_expander_shift_BRL4.c:82-85 | a 12-bit ramp value returns to itself after n ticks iff n is a multiple of 4096 |
| `Timer2.RampMask` | TFT_KEY_expander_shift_BRL4.c:85 | `(DAC_data + 1) & 0xfff` on an unsigned word is one ramp step |
| `Timer2.RampIsr.constructor` | TFT_KEY_expander_shift_BRL4.c:72 | the global `DAC_data` starts at zero, a valid 32-bit word |
| `Timer2.RampIsr.Timer2Handler` | TFT_KEY_expander_shift_BRL4.c:76-104 | one tick steps the ramp and appends exactly one ramp frame carrying `0x3000 OR DAC_data`, keeping the bus safe |
| `Timer2.LedAfter` | DDS_DAC.c:64 | the LED (RA0) after n toggles; `Timer2.LedParity` gives its closed form |
| `Timer2.LedParity` | DDS_DAC.c:64 | after n toggles the LED is its start value XOR (n odd) |
| `Timer2.LedDdsIsr.constructor` | DDS_DAC.c:53 | the increment starts at the one for 400 Hz at 200 kHz, and RA0 starts high (DDS_DAC.c:139) |
| `Timer2.LedDdsIsr.Timer2Handler` | DDS_DAC.c:58-84 | one tick toggles the LED, advances the accumulator mod 2^32, reads the signed table sample and appends one plain frame; when every table entry lies in [-2048, 2047] the word decodes as channel A, 1x, active with data sample + 2048 |
| `Keypad.PressedField` | SECABB_test_1_3_2.c:250 | `(keypad & 0x70) != 0x70` holds iff the column field (bits 4..6) is not all ones |
| `Keypad.KeyTableDistinct` | SECABB_test_1_3_2.c:210-214 | the 24 key codes are pairwise distinct |
| `Keypad.ShiftedCodes` | SECABB_test_1_3_2.c:210-214 | for keys 0..11 the shifted code is the unshifted one with bit 7 cleared (`& 0x7f`), and the unshifted one is it plus 0x80 |
| `Keypad.KeyCodesArePresses` | SECABB_test_1_3_2.c:210-217 | every key code shows a pressed column and its low nibble is one of the row patterns |
| `Keypad.SearchFrom` | SECABB_test_1_3_2.c:255-257 | the table search returns the first index at or after j holding the code, or -1 iff no later entry holds it |
| `Keypad.KeyIndex` | SECABB_test_1_3_2.c:254-261 | the key number reported for a byte: -1, or an index of the key table whose entry is that byte |
| `Keypad.KeyIndexMeaning` | SECABB_test_1_3_2.c:254-261 | the decoded key lies in [-1, 23]; it is -1 iff the byte is not a key code (including zero); otherwise the table entry at it is the byte |
| `Keypad.KeyIndexOfEntry` | SECABB_test_1_3_2.c:254-261 | decoding the code of key j gives j |
| `Keypad.ShiftMapsToUpperHalf` | SECABB_test_1_3_2.c:202-214 | pressing key j (0..11) with shift held (bit 7 low) decodes to j + 12 |
| `Keypad.NoPressNoKey` | SECABB_test_1_3_2.c:250-261 | a byte showing no pressed column always decodes to -1 |
| `Keypad.DecodeKey` | SECABB_test_1_3_2.c:254-261 | the decode loop returns exactly the key index of the byte |
| `Keypad.RowsScannedFrom` | SECABB_test_1_3_2.c:240-251 | the scan stops after the first row whose read-back shows a press, and after row 3 when none does |
| `Keypad.ScanEvents` | SECABB_test_1_3_2.c:240-251 | the bus trace of driving the first n rows, each write/read pair inside its own critical section; `Keypad.ScanEventsShape` states its properties |
| `Keypad.ScanEventsShape` | SECABB_test_1_3_2.c:240-251 | scanning n rows writes `0b1110, 0b1101, 0b1011, 0b0111` in order, each write/read pair inside its own critical section, and is disciplined |
| `Keypad.InitOps` | SECABB_test_1_3_2.c:221-230 | the expander set-up inside the first critical section: init, rows out, columns in with pull-ups, and port Z outputs in the expander demo (TFT_KEY_expander_shift_BRL4.c:294-306) |
| `Keypad.KeyThread.constructor` | SECABB_test_1_3_2.c:201 | the static `keypad` and `i` start at zero and the thread starts at its beginning |
| `Keypad.KeyThread.Begin` | SECABB_test_1_3_2.c:220-237 | the first activation initialises the expander inside one critical section (port Z too in the expander demo, TFT_KEY_expander_shift_BRL4.c:294-306) and yields 30 ms with the interrupt enabled |
| `Keypad.KeyThread.DriveRow` | SECABB_test_1_3_2.c:242-247 | one row: the write of its pattern and the read-back inside one critical section, the byte read kept in `keypad`, and the interrupt enabled again |
| `Keypad.KeyThread.ScanRows` | SECABB_test_1_3_2.c:240-251 | the scan loop drives as many rows as the scan specification says, keeps the last byte read, and appends exactly that scan's trace, keeping the bus safe |
| `Keypad.KeyThread.Poll` | SECABB_test_1_3_2.c:236-261 | one later activation scans, sets `i` to the key index of the byte read, and yields 30 ms with the interrupt enabled |
| `Serial.LeadingSpaces` | SECABB_test_1_3_2.c:364 | the blank prefix that `%s` skips: all white space, followed by a non-space or the end |
| `Serial.WordLength` | SECABB_test_1_3_2.c:364 | the word `%s` takes: no white space, followed by white space or the end |
| `Serial.FirstToken` | SECABB_test_1_3_2.c:364 | what `%s` stores: nothing on a blank line, otherwise a non-empty word without white space |
| `Serial.FirstTokenMeaning` | SECABB_test_1_3_2.c:364 | `%s` fails iff the line is blank; otherwise it yields a non-empty word free of white space that is delimited on both sides and starts at the first non-blank character |
| `Serial.NextCommand` | SECABB_test_1_3_2.c:363-371 | `cmd[0]` becomes 0 on a time-out, stays as before on a blank line, and is otherwise the first non-blank character |
| `Serial.NextValue` | SECABB_test_1_3_2.c:363-371 | `value` changes only when the read did not time out and both conversions succeed, and then to the number read |
| `Serial.BlankLineRepeats` | SECABB_test_1_3_2.c:363-371 | a blank line repeats the previous command; a timed-out read selects none of `f`, `t`, `m`, `c` |
| `Serial.LowByte` | SECABB_test_1_3_2.c:390-391 | the byte kept of a `%d` stored into a `char` is below 256 and congruent to the number mod 256 |
| `Serial.TestSerial.constructor` | SECABB_test_1_3_2.c:291-295 | the statics start as C leaves them: `mode` is 1, `cmd`, `t0`, `value`, `v1`, `v2` are zero |
| `Serial.TestSerial.Cycle` | SECABB_test_1_3_2.c:288-415 | the reader is chosen by the mode; `f` sets the increment; `t` sets `t0`, `v1`, `v2` from the successful conversions and copies them to the three termination settings; `m` switches the mode between 1 and 2; any other command, a blank repeat aside, changes none of these |
| `Serial.MenuSerial.constructor` | Serial_1_2_3_test_all.c:336-337 | the static `cmd` and `value` start at zero |
| `Serial.MenuSerial.Cycle` | Serial_1_2_3_test_all.c:333-425 | the termination is set to 5 characters or 5 s; `f` sets the increment; nothing else changes the DDS |
| `Anim.Bounce.constructor` | Serial_1_2_3_test_all.c:222 | the disk starts at x = 10 moving right by 2, a valid state |
| `Anim.Bounce.Step` | Serial_1_2_3_test_all.c:233-234 | each step moves by the velocity and flips it exactly when the new x is below 5 or above 235; x stays even in [4, 236] with speed 2, so the radius-4 disk stays on the 240-pixel screen (same code at TFT_KEY_expander_shift_BRL4.c:253-254) |
| `Colour.RandColor` | Serial_1_2_3_test_all.c:200 | `rand() & 0xffff` is the random number mod 2^16 |
| `Colour.ChannelFields` | Serial_1_2_3_test_all.c:206-214 | masks 0x1f, 0x7e0 and 0xf800 keep exactly the blue (bits 0..4), green (5..10) and red (11..15) fields |
| `Colour.Rgb565Split` | Serial_1_2_3_test_all.c:206-214 | the three channels are pairwise disjoint and OR back together to the colour |
| `Colour.ColourThread.constructor` | Serial_1_2_3_test_all.c:189 | the global `color` starts at zero |
| `Colour.ColourThread.Resume` | Serial_1_2_3_test_all.c:194-200 | each activation after the one-second wait picks the new 16-bit colour |
| `Colour.PortZColourThread.constructor` | TFT_KEY_expander_shift_BRL4.c:190-192 | `color` and `ioZ` start at zero, both port-Z output latches are low (the expander's reset state), and the thread is at its beginning |
| `Colour.PortZColourThread.Begin` | TFT_KEY_expander_shift_BRL4.c:199 | the first activation only reaches the first 500 ms yield |
| `Colour.PortZColourThread.ResumeFirst` | TFT_KEY_expander_shift_BRL4.c:201-206 | set Z0 and toggle Z1 inside one critical section, then yield 500 ms with the interrupt enabled |
| `Colour.PortZColourThread.ResumeSecond` | TFT_KEY_expander_shift_BRL4.c:208-220 | clear Z0 and read port Z inside one critical section, store the byte read, pick the new colour, yield 500 ms with the interrupt enabled |
| `Scheduler.Repeat` | Serial_1_2_3_test_all.c:493-499 | n passes of a loop body dispatch n times its length |
| `Scheduler.RepeatAt` | Serial_1_2_3_test_all.c:493-499 | dispatch number i runs thread i mod |body| of the loop body |
| `Scheduler.WindowFair` | Serial_1_2_3_test_all.c:493-499 | any |body| consecutive dispatches, wherever they start, run the same multiset of threads as one body |
| `Scheduler.LoopBodiesDistinct` | TFT_KEY_expander_shift_BRL4.c:409-414 | the explicit loop bodies name each thread once |
| `Scheduler.SerialAllWindow` | Serial_1_2_3_test_all.c:493-499 | every five consecutive dispatches run timer, colour, animation, keypad and serial exactly once each |
| `Scheduler.MainLoop.constructor` | Serial_1_2_3_test_all.c:493-499 | the loop has its fixed body and has dispatched nothing yet |
| `Scheduler.MainLoop.Pass` | Serial_1_2_3_test_all.c:494-498 | one pass dispatches the loop body in order |
| `Scheduler.MainLoop.Run` | Serial_1_2_3_test_all.c:493-499 | n passes dispatch the body n times over |
| `Scheduler.RateSpacing` | SECABB_sched_measure_fast.c:277-279 | a thread of rate k < 5 that runs on a pass runs again 2^k passes later and on none in between |
| `Scheduler.RoundRobinRunsAll` | SECABB_sched_measure_fast.c:289-293 | round robin runs every registered thread on every pass, in registration order |
| `Scheduler.TaskList.constructor` | SECABB_sched_measure_fast.c:281 | no thread is registered before the first `pt_add` |
| `Scheduler.TaskList.Add` | SECABB_sched_measure_fast.c:280-284 | `pt_add` appends the thread with its rate and returns its list index |
| `Scheduler.RegisterMeasure` | SECABB_sched_measure_fast.c:281-284 | the measurement program registers t3, t2, t1 and serial with rates 2, 1, 0, 2, and t3, t2, t1 get indices 0, 1, 2 |
| `Scheduler.RegisterTest` | SECABB_test_1_3_2.c:477-479 | the serial test registers timer, keypad and serial with rates 0, 1, 1, and the timer gets index 0 |
| `Scheduler.MeasureRoundRobin` | SECABB_sched_measure_fast.c:293 | under round robin each pass of the measurement program runs t3, t2, t1, serial in that order |
| `Scheduler.MeasureRates` | SECABB_sched_measure_fast.c:288-292 | under the documented rate policy the same registrations would run t1 every pass, t2 every second pass, and t3 and serial every fourth |
| `Measure.Counters.constructor` | SECABB_sched_measure_fast.c:118-119 | the global counters start at zero and no counting thread has run yet |
| `Measure.Counters.Resume` | SECABB_sched_measure_fast.c:124-168 | the first scheduling of a counting thread only reaches its yield; every later one increments that thread's own counter by one and nothing else |
| `Measure.Counters.Pass` | SECABB_sched_measure_fast.c:281-283 | a pass resumes t3, t2, t1: afterwards all have started and each started counter has grown by one |
| `Measure.Counters.MeasureCommand` | SECABB_sched_measure_fast.c:208-216 | `c` zeroes the counters, lets the passes go by and sets the total to their sum; once all threads have started, each counter equals the number of passes |
| `Measure.MeasureSerial.constructor` | SECABB_sched_measure_fast.c:182-183 | the static `cmd` and `value` start at zero |
| `Measure.MeasureSerial.Cycle` | SECABB_sched_measure_fast.c:179-226 | `f` changes only the increment, `c` only the counters (with the total their sum, 3 per pass once started), any other command neither |

## Left out

- Floating point. The `%f` conversion arrives as an optional whole number of hertz, and
  `value * two32 / Fs` is computed exactly on integers. The sine table built with `sin` is
  a parameter. The 200 kHz demo's parameter thread sweeps `Fout *= 1.05` between 400 and
  4000 Hz; it is not modelled, because it works only in floating point.
- `Timer2.DdsIsr.SetFrequency`: above about 50 kHz the float-to-`int` conversion
  overflows, which is undefined in C. The model takes the increment mod 2^32 instead.
- `Serial.TestSerial.Cycle`: `%d` is stored at the address of the one-byte `t0`. The
  model keeps only the low byte, read as unsigned. The bytes the store overwrites beyond
  `t0` are not modelled.
- Other UART and DMA I/O: the prompt, reading a line, echo and printing. The line read and
  the time-out flag are inputs. `cmd[30]` overflowing on a long word is not modelled.
- TFT drawing and `sprintf`: display output only.
- Protothread and scheduler internals. `pt_cornell_*.h` is not part of this model.
  - Each thread method runs one activation, from one yield to the next. A timed wait is
    collapsed into the resumption that follows it.
  - The rate policy is modelled from its documented contract. Where in the 2^k cycle a
    thread runs is chosen as pass mod 2^k == 0.
  - The timer thread (`protothread_timer`, a seconds counter and an LED) is not modelled.
- The port-expander primitives. `port_expander_brl4.h` is not part of this model.
  - Expander calls are trace events, and the value a read returns is an input.
  - The result of `readBits(GPIOZ, BIT_0 | BIT_1)` is taken to be the byte read.
- The SPI busy-waits, `SPI_Mode16` and the status polls are collapsed into the events of
  the DAC frame.
- Timer and interrupt configuration, `ReadTimer2` profiling and pin setup are not modelled.
- Interrupt preemption.
  - Threads and the handler are sequential in the model.
  - `Bus.InterruptWhereEnabled` shows that a handler trace inserted where the flag is set
    keeps the trace disciplined.
  - Timing and jitter are not modelled.
- The 200 kHz demo builds its sine table after enabling interrupts (DDS_DAC.c:145,
  DDS_DAC.c:155-157), so its first ticks may read unfilled entries. The handlers here take
  the finished table as given.
- `rand()` is an input.
- 32-bit overflow of `count_thread*` and `count_total` is not modelled.
- `TFT_ADC_read_SCAN.c` is not modelled: it holds ADC configuration and display code only.
