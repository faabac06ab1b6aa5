/** The direct digital synthesis (DDS) engine shared by the timer-2 interrupt handlers.

    A 32-bit unsigned phase accumulator advances by the phase increment on every
    timer tick, wrapping modulo 2^32; its top 8 bits (`accum >> 24`) index a
    256-entry sine table.  The increment for an output frequency f at sample rate Fs
    is f * 2^32 / Fs, truncated to an unsigned integer. */
module Dds {
  import opened Bits

  /** Entries in the sine table (`sine_table_size`). */
  const SineTableSize: nat := 256
  /** The table index is the accumulator shifted right by this many bits. */
  const IndexShift: nat := 24
  /** Sample rate of the three 100 kHz programs (`Fs`). */
  const Fs100k: nat := 100000
  /** Sample rate of the 200 kHz DAC demo (`Fs`). */
  const Fs200k: nat := 200000
  /** Default output frequency in Hz. */
  const DefaultFreq: nat := 400

  /** `phase_accum_main += phase_incr_main` on 32-bit unsigned words. */
  function Advance(accum: nat, incr: nat): (r: nat)
    requires accum < TWO32 && incr < TWO32
    ensures r < TWO32
    ensures r == accum + incr || r == accum + incr - TWO32
    ensures r < accum <==> accum + incr >= TWO32
  {
    (accum + incr) % TWO32
  }

  /** `phase_accum_main >> 24`: the top 8 bits of the accumulator. */
  function TableIndex(accum: nat): (i: nat)
    requires accum < TWO32
    ensures i < SineTableSize
    ensures i * Pow2(IndexShift) <= accum < (i + 1) * Pow2(IndexShift)
  {
    Pow2Values();
    DivModUnique(accum, Pow2(IndexShift), accum / Pow2(IndexShift), accum % Pow2(IndexShift));
    accum / Pow2(IndexShift)
  }

  /** The accumulator after n timer ticks from `start`. */
  function AccumAfter(start: nat, incr: nat, n: nat): (r: nat)
    requires start < TWO32 && incr < TWO32
    ensures r < TWO32
  {
    if n == 0 then start else Advance(AccumAfter(start, incr, n - 1), incr)
  }

  /** Wrapping addition: reducing the left operand first changes nothing. */
  lemma ModAddLeft(a: int, b: int)
    ensures (a % TWO32 + b) % TWO32 == (a + b) % TWO32
  {
    var q := a / TWO32;
    assert a == TWO32 * q + a % TWO32;
    DivModUnique(a + b - TWO32 * q + TWO32 * q, TWO32, (a % TWO32 + b) / TWO32 + q, (a % TWO32 + b) % TWO32);
  }

  /** After n ticks the accumulator is (start + n * incr) mod 2^32. */
  lemma {:induction false} AccumClosedForm(start: nat, incr: nat, n: nat)
    requires start < TWO32 && incr < TWO32
    ensures AccumAfter(start, incr, n) == (start + n * incr) % TWO32
  {
    if n > 0 {
      AccumClosedForm(start, incr, n - 1);
      AdvanceShifted(start, incr, AccumAfter(start, incr, n - 1), (n - 1) * incr);
      MulPred(n, incr);
    }
  }

  /** One tick on a reduced sum: advancing (start + t) mod 2^32 gives (start + t + incr) mod 2^32. */
  lemma AdvanceShifted(start: nat, incr: nat, a: nat, t: nat)
    requires a < TWO32 && incr < TWO32 && a == (start + t) % TWO32
    ensures Advance(a, incr) == (start + t + incr) % TWO32
  {
    ModAddLeft(start + t, incr);
  }

  lemma MulPred(n: nat, c: nat)
    requires n > 0
    ensures (n - 1) * c + c == n * c
  {
  }

  /** The accumulator is back at its start after n ticks exactly when n * incr is a multiple of 2^32. */
  lemma AccumReturns(start: nat, incr: nat, n: nat)
    requires start < TWO32 && incr < TWO32
    ensures AccumAfter(start, incr, n) == start <==> (n * incr) % TWO32 == 0
  {
    AccumClosedForm(start, incr, n);
    var q := (n * incr) / TWO32;
    var r := (n * incr) % TWO32;
    assert n * incr == TWO32 * q + r;
    if r + start < TWO32 {
      DivModUnique(start + n * incr, TWO32, q, start + r);
    } else {
      DivModUnique(start + n * incr, TWO32, q + 1, start + r - TWO32);
    }
  }

  /** `f * two32 / Fs` converted to `unsigned int`: the increment for output frequency hz. */
  function IncrementFor(hz: nat, fs: nat): (incr: nat)
    requires 0 < fs
    ensures incr * fs <= hz * TWO32 < (incr + 1) * fs
  {
    var q := hz * TWO32 / fs;
    assert hz * TWO32 == fs * q + (hz * TWO32) % fs;
    assert (q + 1) * fs == q * fs + fs;
    q
  }

  lemma MulMonotone(a: nat, b: nat, c: nat)
    requires a <= b
    ensures a * c <= b * c
  {
  }

  /** A higher frequency gets a strictly larger increment as long as Fs <= 2^32. */
  lemma IncrementMonotone(hz1: nat, hz2: nat, fs: nat)
    requires 0 < fs <= TWO32 && hz1 < hz2
    ensures IncrementFor(hz1, fs) < IncrementFor(hz2, fs)
  {
    var i1, i2 := IncrementFor(hz1, fs), IncrementFor(hz2, fs);
    MulMonotone(hz1 + 1, hz2, TWO32);
    assert hz2 * TWO32 >= hz1 * TWO32 + fs;
    if i2 <= i1 {
      MulMonotone(i2 + 1, i1 + 1, fs);
    }
  }

  /** The initial increments of the firmware: 400 Hz at 100 kHz and at 200 kHz. */
  lemma InitialIncrements()
    ensures IncrementFor(DefaultFreq, Fs100k) == 17179869
    ensures IncrementFor(DefaultFreq, Fs200k) == 8589934
  {
  }

  /** At 400 Hz and 100 kHz, 250 ticks (one output period) leave the accumulator
      exactly 46 short of where it started: the truncated increment loses 0.184 per tick. */
  lemma {:induction false} OnePeriodAt400Hz(start: nat)
    requires start < TWO32
    ensures AccumAfter(start, 17179869, 250) == (start + TWO32 - 46) % TWO32
  {
    AccumClosedForm(start, 17179869, 250);
    assert 250 * 17179869 == TWO32 - 46;
  }
}
