/** The 16-bit control word of the MCP4822 dual 12-bit DAC on SPI2.

    Bit 15 selects the channel (1 = DAC B), bit 14 is ignored, bit 13 selects the
    gain (1 = 1x), bit 12 is the shutdown control (1 = active) and bits 11..0 carry
    the sample.  The interrupt handlers OR the channel-A header 0b0011 << 12 with a
    payload; three variants of the payload occur in the firmware. */
module DacWord {
  import opened Bits

  /** `DAC_config_chan_A`: channel A, gain 1x, active. */
  const ConfigChanA: nat := 0x3000
  /** `DAC_config_chan_B`: channel B, gain 1x, active. */
  const ConfigChanB: nat := 0xB000
  /** Offset that moves a signed sample in [-2048, 2047] into the DAC range [0, 4095]. */
  const MidScale: nat := 2048
  /** Payload mask: the DAC takes 12 data bits. */
  const DataMask: nat := 0xfff

  datatype Control = Control(channelB: bool, gain1x: bool, active: bool, data: nat)

  /** The fields the DAC reads out of a 16-bit word. */
  function DecodeControl(w: nat): (c: Control)
    requires w < TWO16
    ensures c.data < 4096
  {
    Control(w / 0x8000 == 1, (w / 0x2000) % 2 == 1, (w / 0x1000) % 2 == 1, w % 4096)
  }

  /** A word carrying the given fields, with the don't-care bit 14 clear. */
  function EncodeControl(c: Control): (w: nat)
    requires c.data < 4096
    ensures w < TWO16 && (w / 0x4000) % 2 == 0
    ensures DecodeControl(w) == c
  {
    (if c.channelB then 0x8000 else 0) + (if c.gain1x then 0x2000 else 0)
      + (if c.active then 0x1000 else 0) + c.data
  }

  /** Every word with bit 14 clear is the encoding of its own fields. */
  lemma EncodeDecode(w: nat)
    requires w < TWO16 && (w / 0x4000) % 2 == 0
    ensures EncodeControl(DecodeControl(w)) == w
  {
  }

  /** The two configuration headers of the firmware decode as documented. */
  lemma ConfigHeaders()
    ensures DecodeControl(ConfigChanA) == Control(false, true, true, 0)
    ensures DecodeControl(ConfigChanB) == Control(true, true, true, 0)
  {
  }

  /** ORing a 12-bit payload into the channel-A header cannot reach the header bits. */
  lemma HeaderOrPayload(p: nat)
    requires p < 4096
    ensures Or(ConfigChanA, p) == ConfigChanA + p
    ensures DecodeControl(ConfigChanA + p) == Control(false, true, true, p)
  {
    Pow2Values();
    OrDisjoint(3, 12, p);
    var w := ConfigChanA + p;
    DivModUnique(w, 0x1000, 3, p);
    DivModUnique(w, 0x2000, 1, 0x1000 + p);
    DivModUnique(w, 0x8000, 0, w);
  }

  /** Reducing modulo 2^32 before reducing modulo 4096 changes nothing, since 4096 divides 2^32. */
  lemma Mod4096OfU32(x: int)
    ensures U32(x) % 4096 == x % 4096
  {
    var q := x / TWO32;
    assert x == TWO32 * q + U32(x);
    DivModUnique(x, 4096, q * 0x10_0000 + U32(x) / 4096, U32(x) % 4096);
  }

  /** Adding the same amount to two numbers congruent modulo 4096 keeps them congruent. */
  lemma Mod4096Add(a: int, b: int, c: int)
    requires a % 4096 == b % 4096
    ensures (a + c) % 4096 == (b + c) % 4096
  {
    var r := (a + c) % 4096;
    assert a + c == 4096 * ((a + c) / 4096) + r;
    assert b + c == 4096 * ((a + c) / 4096 + b / 4096 - a / 4096) + r;
    DivModUnique(b + c, 4096, (a + c) / 4096 + b / 4096 - a / 4096, r);
  }

  /** `(DAC_data + 2048) & 0xfff` on 32-bit unsigned words is the offset sample modulo 4096. */
  lemma MaskedPayload(sample: int)
    ensures And(U32(U32(sample) + MidScale), DataMask) == (sample + MidScale) % 4096
  {
    var sum := U32(U32(sample) + MidScale);
    Pow2Values();
    AndLowMask(sum, 12);
    Mod4096OfU32(U32(sample) + MidScale);
    Mod4096OfU32(sample);
    Mod4096Add(U32(sample), sample, MidScale);
  }

  /** The word of the DDS handlers that mask the payload:
      `DAC_config_chan_A | ((DAC_data + 2048) & 0xfff)` with `DAC_data` the table
      sample stored into an `unsigned int`. */
  function MaskedSampleWord(sample: int): (w: nat)
    ensures w < TWO16 && w / 4096 == 3
    ensures DecodeControl(w) == Control(false, true, true, (sample + MidScale) % 4096)
  {
    var dacData := U32(sample);
    var payload := And(U32(dacData + MidScale), DataMask);
    MaskedPayload(sample);
    HeaderOrPayload(payload);
    SixteenBits(Or(ConfigChanA, payload));
    Or(ConfigChanA, payload) % TWO16
  }

  /** Sending a word that already fits in 16 bits leaves it unchanged. */
  lemma SixteenBits(x: nat)
    requires x < TWO16
    ensures x % TWO16 == x
  {
  }

  /** The word of the ramp handler: `DAC_config_chan_A | DAC_data` with a 12-bit `DAC_data`. */
  function RampWord(dacData: nat): (w: nat)
    requires dacData < 4096
    ensures w < TWO16 && w / 4096 == 3
    ensures DecodeControl(w) == Control(false, true, true, dacData)
  {
    HeaderOrPayload(dacData);
    SixteenBits(Or(ConfigChanA, dacData));
    Or(ConfigChanA, dacData) % TWO16
  }

  /** The word of the 200 kHz demo, which does not mask:
      `DAC_config_chan_A | (DAC_data + 2048)` on a signed `DAC_data`, sent as 16 bits.
      The header survives only while the sample lies in [-2048, 2047]. */
  function UnmaskedSampleWord(sample: int): (w: nat)
    ensures w < TWO16
    ensures -2048 <= sample < 2048 ==> DecodeControl(w) == Control(false, true, true, sample + MidScale)
  {
    var payload := U32(sample + MidScale);
    if -2048 <= sample < 2048 then
      assert payload == sample + MidScale;
      HeaderOrPayload(payload);
      SixteenBits(Or(ConfigChanA, payload));
      Or(ConfigChanA, payload) % TWO16
    else
      Or(ConfigChanA, payload) % TWO16
  }

  /** Without the mask, one sample below the range turns every header bit on:
      the word selects channel B instead of A. */
  lemma UnmaskedBelowRange()
    ensures UnmaskedSampleWord(-2049) == 0xFFFF
    ensures DecodeControl(UnmaskedSampleWord(-2049)).channelB
  {
    Pow2Values();
    OrAllOnes(ConfigChanA, 32);
  }
}
