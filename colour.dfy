/** The colour thread: a random 16-bit RGB565 colour split into its blue (bits 0..4),
    green (bits 5..10) and red (bits 11..15) channels; in the expander demo the thread
    also drives port Z of the port expander between its two half-second waits. */
module Colour {
  import opened Bits
  import opened Bus

  const BlueMask: nat := 0x1f
  const GreenMask: nat := 0x7e0
  const RedMask: nat := 0xf800
  const ColorMask: nat := 0xffff

  /** `rand() & 0xffff`: the low 16 bits of the random number. */
  function RandColor(rnd: nat): (c: nat)
    ensures c < TWO16 && c == rnd % TWO16
  {
    Pow2Values();
    AndLowMask(rnd, 16);
    And(rnd, ColorMask)
  }

  /** The blue, green and red masks each keep exactly their own field. */
  lemma ChannelFields(c: nat)
    requires c < TWO16
    ensures And(c, BlueMask) == c % 32
    ensures And(c, GreenMask) == ((c / 32) % 64) * 32
    ensures And(c, RedMask) == (c / 2048) * 2048
  {
    Pow2Values();
    AndLowMask(c, 5);
    AndFieldMask(c, 6, 5);
    AndFieldMask(c, 5, 11);
    DivModUnique(c / 2048, 32, 0, c / 2048);
  }

  /** The three fields put back together give the colour. */
  lemma FieldsRebuild(c: nat)
    ensures c == (c / 2048) * 2048 + ((c / 32) % 64) * 32 + c % 32
  {
    var q := c / 32;
    assert c == 32 * q + c % 32;
    DivModUnique(c, 2048, q / 64, (q % 64) * 32 + c % 32);
    assert q == 64 * (q / 64) + q % 64;
  }

  /** The channel masks pick pairwise disjoint bits, and OR-ing the three channels back
      together reconstructs the colour. */
  lemma Rgb565Split(c: nat)
    requires c < TWO16
    ensures And(And(c, BlueMask), And(c, GreenMask)) == 0
    ensures And(And(c, GreenMask), And(c, RedMask)) == 0
    ensures And(And(c, BlueMask), And(c, RedMask)) == 0
    ensures Or(Or(And(c, BlueMask), And(c, GreenMask)), And(c, RedMask)) == c
  {
    ChannelFields(c);
    Pow2Values();
    var b, g, r := c % 32, (c / 32) % 64, c / 2048;
    assert g * 32 < 2048;
    AndDisjoint(g, 5, b);
    AndDisjoint(r, 11, g * 32);
    AndDisjoint(r, 11, b);
    OrDisjoint(g, 5, b);
    OrDisjoint(r, 11, g * 32 + b);
    FieldsRebuild(c);
  }

  /** The colour thread of the all-features test: a new colour every second. */
  class ColourThread {
    var color: nat

    constructor ()
      ensures color == 0
    {
      color := 0;
    }

    /** One activation after the 1000 ms yield; `rnd` is what `rand()` returned. */
    method Resume(rnd: nat)
      modifies this
      ensures color == RandColor(rnd) && color < TWO16
    {
      color := RandColor(rnd);
    }
  }

  /** Where the expander demo's colour thread resumes. */
  datatype ColourPc = ColourStart | AfterFirstWait | AfterSecondWait

  /** The half-second waits of the expander demo. */
  const HalfSecond: nat := 500

  /** The port-Z operations of the first half second: set Z0, toggle Z1. */
  function SetToggleOps(): seq<Event>
  {
    [PeSetBits(PortZ, 0x01), PeToggleBits(PortZ, 0x02)]
  }

  /** The port-Z operations of the second half second: clear Z0, read Z0 and Z1. */
  function ClearReadOps(): seq<Event>
  {
    [PeClearBits(PortZ, 0x01), PeReadBits(PortZ, 0x03)]
  }

  /** The colour thread of the expander demo.  `z0` and `z1` are the output latches the
      thread drives on port Z. */
  class PortZColourThread {
    var color: nat
    var ioZ: nat             // an unsigned char
    var z0: bool
    var z1: bool
    var pc: ColourPc
    const bus: Spi2

    constructor (bus: Spi2)
      ensures pc == ColourStart && color == 0 && ioZ == 0 && !z0 && !z1 && this.bus == bus
    {
      color := 0;
      ioZ := 0;
      z0, z1 := false, false;
      pc := ColourStart;
      this.bus := bus;
    }

    /** First activation: reach the first 500 ms yield. */
    method Begin()
      requires pc == ColourStart && bus.Safe() && bus.t2Enabled
      modifies this`pc, bus
      ensures pc == AfterFirstWait && bus.Safe() && bus.t2Enabled
      ensures bus.events == old(bus.events) + [YieldMsec(HalfSecond)]
    {
      assert Disciplined([YieldMsec(HalfSecond)], true);
      bus.Send([YieldMsec(HalfSecond)]);
      pc := AfterFirstWait;
    }

    /** After the first wait: set Z0 and toggle Z1 inside a critical section, then wait again. */
    method ResumeFirst()
      requires pc == AfterFirstWait && bus.Safe() && bus.t2Enabled
      modifies this`pc, this`z0, this`z1, bus
      ensures pc == AfterSecondWait && bus.Safe() && bus.t2Enabled
      ensures z0 && z1 == !old(z1)
      ensures bus.events == old(bus.events) + Critical(SetToggleOps()) + [YieldMsec(HalfSecond)]
    {
      SectionThenYield(SetToggleOps(), HalfSecond, true);
      bus.Send(Critical(SetToggleOps()) + [YieldMsec(HalfSecond)]);
      z0 := true;
      z1 := !z1;
      pc := AfterSecondWait;
    }

    /** After the second wait: clear Z0 and read port Z inside a critical section, pick a
        new colour, and wait again.  `zRead` is what `readBits` returned, `rnd` what
        `rand()` returned. */
    method ResumeSecond(zRead: nat, rnd: nat)
      requires pc == AfterSecondWait && bus.Safe() && bus.t2Enabled
      modifies this`pc, this`z0, this`ioZ, this`color, bus
      ensures pc == AfterFirstWait && bus.Safe() && bus.t2Enabled
      ensures !z0 && ioZ == zRead % 256 && color == RandColor(rnd)
      ensures bus.events == old(bus.events) + Critical(ClearReadOps()) + [YieldMsec(HalfSecond)]
    {
      SectionThenYield(ClearReadOps(), HalfSecond, true);
      bus.Send(Critical(ClearReadOps()) + [YieldMsec(HalfSecond)]);
      z0 := false;
      ioZ := zRead % 256;
      color := RandColor(rnd);
      pc := AfterFirstWait;
    }
  }
}
