/** The timer-2 interrupt handlers: one DAC sample per timer tick, sent over SPI2.

    Three variants occur:
    - `DdsIsr` (the 100 kHz DDS programs): a sine-table sample through an unsigned
      `DAC_data`, masked to 12 bits after the mid-scale offset, with the SPI mode reset
      and the receive buffer drained after deselecting the DAC;
    - `RampIsr` (the keypad/expander demo): a 12-bit sawtooth, the receive buffer
      drained while the DAC is still selected;
    - `LedDdsIsr` (the 200 kHz demo): a sine-table sample through a signed `DAC_data`,
      offset but not masked, with an LED toggled on every tick. */
module Timer2 {
  import opened Bits
  import opened Dds
  import opened DacWord
  import opened Bus

  /** The DDS sample handler of the 100 kHz programs. */
  class DdsIsr {
    var phaseAccum: nat      // phase_accum_main
    var phaseIncr: nat       // phase_incr_main
    var dacData: nat         // DAC_data, an unsigned int
    const sinTable: seq<int> // sin_table
    const bus: Spi2

    predicate Valid()
      reads this
    {
      phaseAccum < TWO32 && phaseIncr < TWO32 && dacData < TWO32 && |sinTable| == SineTableSize
    }

    /** Static initialisation: accumulator and sample zero, increment for 400 Hz at 100 kHz. */
    constructor (table: seq<int>, bus: Spi2)
      requires |table| == SineTableSize
      ensures Valid()
      ensures phaseAccum == 0 && dacData == 0 && phaseIncr == IncrementFor(DefaultFreq, Fs100k)
      ensures sinTable == table && this.bus == bus
    {
      InitialIncrements();
      phaseAccum := 0;
      phaseIncr := 17179869;
      dacData := 0;
      sinTable := table;
      this.bus := bus;
    }

    /** The sample the table holds for a given accumulator value. */
    function SampleAt(accum: nat): int
      requires accum < TWO32 && |sinTable| == SineTableSize
      reads this
    {
      sinTable[TableIndex(accum)]
    }

    /** One timer tick: advance the phase, look up the sample, send it to DAC channel A. */
    method Timer2Handler()
      requires Valid() && bus.Safe() && bus.t2Enabled
      modifies this, bus
      ensures Valid() && bus.Safe() && bus.t2Enabled
      ensures phaseIncr == old(phaseIncr)
      ensures phaseAccum == Advance(old(phaseAccum), phaseIncr)
      ensures dacData == U32(SampleAt(phaseAccum))
      ensures bus.events == old(bus.events) + DdsFrame(MaskedSampleWord(SampleAt(phaseAccum)))
    {
      phaseAccum := Advance(phaseAccum, phaseIncr);
      dacData := U32(sinTable[TableIndex(phaseAccum)]);
      var w := MaskedSampleWord(sinTable[TableIndex(phaseAccum)]);
      DdsFrameShape(w);
      bus.Send(DdsFrame(w));
    }

    /** `phase_incr_main = Fout * two32 / Fs` for a whole-number frequency, converted to
        a 32-bit word. */
    method SetFrequency(hz: nat)
      requires Valid()
      modifies this
      ensures Valid()
      ensures phaseIncr == U32(IncrementFor(hz, Fs100k))
      ensures phaseAccum == old(phaseAccum) && dacData == old(dacData)
    {
      phaseIncr := U32(IncrementFor(hz, Fs100k));
    }
  }

  /** The value after n ramp steps from d. */
  function RampAfter(d: nat, n: nat): (r: nat)
    ensures r < 4096
  {
    if n == 0 then d % 4096 else (RampAfter(d, n - 1) + 1) % 4096
  }

  /** The ramp after n steps is (d + n) mod 4096. */
  lemma {:induction false} RampClosedForm(d: nat, n: nat)
    ensures RampAfter(d, n) == (d + n) % 4096
  {
    if n > 0 {
      RampClosedForm(d, n - 1);
      var q := (d + n - 1) / 4096;
      DivModUnique(d + n - 1, 4096, q, (d + n - 1) % 4096);
      if (d + n - 1) % 4096 + 1 < 4096 {
        DivModUnique(d + n, 4096, q, (d + n - 1) % 4096 + 1);
      } else {
        DivModUnique(d + n, 4096, q + 1, 0);
      }
    }
  }

  /** The sawtooth has period 4096 ticks: a 12-bit value returns to itself after n ticks
      exactly when n is a multiple of 4096. */
  lemma RampPeriod(d: nat, n: nat)
    requires d < 4096
    ensures RampAfter(d, n) == d <==> n % 4096 == 0
  {
    RampClosedForm(d, n);
    var q, r := n / 4096, n % 4096;
    if d + r < 4096 {
      DivModUnique(d + n, 4096, q, d + r);
    } else {
      DivModUnique(d + n, 4096, q + 1, d + r - 4096);
    }
  }

  /** `(DAC_data + 1) & 0xfff` on an unsigned word is one ramp step. */
  lemma RampMask(d: nat)
    ensures And(U32(d + 1), DataMask) == RampAfter(d, 1)
  {
    Pow2Values();
    AndLowMask(U32(d + 1), 12);
    Mod4096OfU32(d + 1);
    assert RampAfter(d, 1) == (d % 4096 + 1) % 4096;
    Mod4096Add(d % 4096, d, 1);
  }

  /** The sawtooth test handler. */
  class RampIsr {
    var dacData: nat         // DAC_data, an unsigned int
    const bus: Spi2

    predicate Valid()
      reads this
    {
      dacData < TWO32
    }

    constructor (bus: Spi2)
      ensures Valid() && dacData == 0 && this.bus == bus
    {
      dacData := 0;
      this.bus := bus;
    }

    /** One timer tick: `DAC_data = (DAC_data + 1) & 0xfff`, then send it to channel A. */
    method Timer2Handler()
      requires Valid() && bus.Safe() && bus.t2Enabled
      modifies this, bus
      ensures Valid() && bus.Safe() && bus.t2Enabled
      ensures dacData == RampAfter(old(dacData), 1)
      ensures bus.events == old(bus.events) + RampFrame(RampWord(dacData))
    {
      RampMask(dacData);
      dacData := And(U32(dacData + 1), DataMask);
      var w := RampWord(dacData);
      RampFrameShape(w);
      bus.Send(RampFrame(w));
    }
  }

  /** The LED state after n toggles from `led`. */
  function LedAfter(led: bool, n: nat): bool
  {
    if n == 0 then led else !LedAfter(led, n - 1)
  }

  /** The LED is inverted after an odd number of ticks and restored after an even number. */
  lemma {:induction false} LedParity(led: bool, n: nat)
    ensures LedAfter(led, n) == (led != (n % 2 == 1))
  {
    if n > 0 {
      LedParity(led, n - 1);
    }
  }

  /** The DDS handler of the 200 kHz demo, with a signed sample and an LED. */
  class LedDdsIsr {
    var led: bool            // RA0
    var phaseAccum: nat      // phase_accum_main
    var phaseIncr: nat       // phase_incr_main
    var dacData: int         // DAC_data, a signed int
    const sinTable: seq<int> // sin_table
    const bus: Spi2

    predicate Valid()
      reads this
    {
      phaseAccum < TWO32 && phaseIncr < TWO32 && |sinTable| == SineTableSize
    }

    /** Every table entry fits the DAC after the mid-scale offset. */
    predicate TableInDacRange()
      reads this
    {
      forall k :: 0 <= k < |sinTable| ==> 0 <= sinTable[k] + MidScale < 4096
    }

    /** Static initialisation; `main` then drives the LED high. */
    constructor (table: seq<int>, bus: Spi2)
      requires |table| == SineTableSize
      ensures Valid()
      ensures led && phaseAccum == 0 && dacData == 0 && phaseIncr == IncrementFor(DefaultFreq, Fs200k)
      ensures sinTable == table && this.bus == bus
    {
      InitialIncrements();
      led := true;
      phaseAccum := 0;
      phaseIncr := 8589934;
      dacData := 0;
      sinTable := table;
      this.bus := bus;
    }

    /** One timer tick: toggle the LED, advance the phase, send the offset sample. */
    method Timer2Handler()
      requires Valid() && bus.Safe() && bus.t2Enabled
      modifies this, bus
      ensures Valid() && bus.Safe() && bus.t2Enabled
      ensures led == !old(led) && phaseIncr == old(phaseIncr)
      ensures phaseAccum == Advance(old(phaseAccum), phaseIncr)
      ensures dacData == sinTable[TableIndex(phaseAccum)]
      ensures bus.events == old(bus.events) + PlainFrame(UnmaskedSampleWord(dacData))
      ensures TableInDacRange() ==>
                DecodeControl(UnmaskedSampleWord(dacData)) == Control(false, true, true, dacData + MidScale)
    {
      led := !led;
      phaseAccum := Advance(phaseAccum, phaseIncr);
      dacData := sinTable[TableIndex(phaseAccum)];
      var w := UnmaskedSampleWord(dacData);
      PlainFrameShape(w);
      bus.Send(PlainFrame(w));
    }
  }
}
