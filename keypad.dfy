/** The keypad thread: a 4x3 keypad plus a shift key on port Y of the SPI port expander.

    Rows are driven active-low on Y0..Y3, columns are read back on Y4..Y6 with pull-ups,
    and the shift key pulls Y7 low.  Every 30 ms the thread drives the rows one at a
    time, each write/read pair inside its own SPI2 critical section, stops at the first
    row that shows a pressed column, and decodes the byte read back against a table of
    24 codes: digits 0-9, `*` = 10, `#` = 11, and the same twelve keys with shift at
    12-23.  A byte that is not in the table (no key, or two keys at once) decodes to -1. */
module Keypad {
  import opened Bits
  import opened Bus

  /** `keytable`: the byte read back for each key, unshifted then shifted. */
  const KeyTable: seq<nat> :=
    [0xd7, 0xbe, 0xde, 0xee, 0xbd, 0xdd, 0xed, 0xbb, 0xdb, 0xeb, 0xb7, 0xe7,
     0x57, 0x3e, 0x5e, 0x6e, 0x3d, 0x5d, 0x6d, 0x3b, 0x5b, 0x6b, 0x37, 0x67]

  /** `out_table`: the active-low row patterns, row 0 first. */
  const OutTable: seq<nat> := [0xE, 0xD, 0xB, 0x7]

  /** `no_button`: the column bits as they read when no key pulls one low. */
  const NoButton: nat := 0x70

  /** `PT_YIELD_TIME_msec(30)` between scans. */
  const KeyYieldMsec: nat := 30

  /** The pin masks of the initialisation: rows out, columns and shift in with pull-ups. */
  const RowPins: nat := 0x0F
  const ColumnPins: nat := 0xF0
  const PortZPins: nat := 0x03

  /** `(keypad & no_button) != no_button`: some column is pulled low. */
  predicate Pressed(code: nat)
  {
    And(code, NoButton) != NoButton
  }

  /** A byte shows a press exactly when its column field (bits 4..6) is not all ones. */
  lemma PressedField(code: nat)
    ensures Pressed(code) <==> (code / 16) % 8 != 7
  {
    Pow2Values();
    AndFieldMask(code, 3, 4);
  }

  // ---------------------------------------------------------------------------
  // The key table

  /** No two keys share a code. */
  lemma KeyTableDistinct()
    ensures |KeyTable| == 24
    ensures forall a, b :: 0 <= a < b < |KeyTable| ==> KeyTable[a] != KeyTable[b]
  {
  }

  /** The shift key pulls bit 7 low: each shifted code is the unshifted one with bit 7 cleared. */
  lemma ShiftedCodes(j: nat)
    requires j < 12
    ensures KeyTable[j + 12] == And(KeyTable[j], 0x7f)
    ensures KeyTable[j] == KeyTable[j + 12] + 0x80
  {
    ShiftBit(j);
    Pow2Values();
    AndLowMask(KeyTable[j], 7);
    DivModUnique(KeyTable[j], 128, 1, KeyTable[j + 12]);
  }

  lemma ShiftBit(j: nat)
    requires j < 12
    ensures KeyTable[j] == KeyTable[j + 12] + 0x80 && KeyTable[j + 12] < 0x80
  {
  }

  /** Every key code shows a pressed column and has exactly one row line low. */
  lemma KeyCodesArePresses(j: nat)
    requires j < |KeyTable|
    ensures Pressed(KeyTable[j])
    ensures KeyTable[j] % 16 in OutTable
  {
    KeyNibbles(j);
    PressedField(KeyTable[j]);
  }

  /** The column field and the row nibble of every key code. */
  lemma KeyNibbles(j: nat)
    requires j < |KeyTable|
    ensures (KeyTable[j] / 16) % 8 != 7
    ensures KeyTable[j] % 16 in OutTable
  {
  }

  /** The first index at or after j whose code is `code`, or -1. */
  function SearchFrom(code: nat, j: nat): (r: int)
    requires j <= |KeyTable|
    ensures r == -1 || j <= r < |KeyTable|
    ensures r >= 0 ==> KeyTable[r] == code && forall k :: j <= k < r ==> KeyTable[k] != code
    ensures r == -1 <==> forall k :: j <= k < |KeyTable| ==> KeyTable[k] != code
    decreases |KeyTable| - j
  {
    if j == |KeyTable| then -1
    else if KeyTable[j] == code then j
    else SearchFrom(code, j + 1)
  }

  /** The key number the thread reports for a byte read back from the keypad. */
  function KeyIndex(code: nat): (r: int)
    ensures -1 <= r < |KeyTable|
    ensures r >= 0 ==> KeyTable[r] == code
  {
    if code > 0 then SearchFrom(code, 0) else -1
  }

  /** -1 exactly for bytes that are not key codes; otherwise the index of that code. */
  lemma KeyIndexMeaning(code: nat)
    ensures -1 <= KeyIndex(code) < |KeyTable|
    ensures KeyIndex(code) == -1 <==> code !in KeyTable
    ensures KeyIndex(code) >= 0 ==> KeyTable[KeyIndex(code)] == code
  {
    if code == 0 {
      assert forall k :: 0 <= k < |KeyTable| ==> KeyTable[k] > 0;
    }
  }

  /** Decoding the code of key j gives back j. */
  lemma KeyIndexOfEntry(j: nat)
    requires j < |KeyTable|
    ensures KeyIndex(KeyTable[j]) == j
  {
    KeyTableDistinct();
    assert KeyTable[j] > 0;
  }

  /** Holding shift while pressing key j (0..11) reports key j + 12. */
  lemma ShiftMapsToUpperHalf(j: nat)
    requires j < 12
    ensures KeyIndex(And(KeyTable[j], 0x7f)) == j + 12
  {
    ShiftedCodes(j);
    KeyIndexOfEntry(j + 12);
  }

  /** A byte with no column pulled low never decodes to a key. */
  lemma NoPressNoKey(code: nat)
    requires !Pressed(code)
    ensures KeyIndex(code) == -1
  {
    KeyIndexMeaning(code);
    if code in KeyTable {
      var j :| 0 <= j < |KeyTable| && KeyTable[j] == code;
      KeyCodesArePresses(j);
      assert false;
    }
  }

  /** The decode loop: search the table, report -1 when the byte is zero or absent. */
  method DecodeKey(keypad: nat) returns (idx: int)
    ensures idx == KeyIndex(keypad)
  {
    if keypad > 0 {
      idx := 0;
      while idx < |KeyTable|
        invariant 0 <= idx <= |KeyTable|
        invariant SearchFrom(keypad, idx) == SearchFrom(keypad, 0)
      {
        if KeyTable[idx] == keypad {
          break;
        }
        idx := idx + 1;
      }
      if idx == |KeyTable| {
        idx := -1;
      }
    } else {
      idx := -1;
    }
  }

  // ---------------------------------------------------------------------------
  // The scan

  /** The number of rows driven before the scan stops: it stops after the first row
      whose read-back shows a press, and after the last row otherwise. */
  function RowsScannedFrom(rowReads: seq<nat>, k: nat): (n: nat)
    requires |rowReads| == 4 && k < 4
    ensures k < n <= 4
    ensures forall m :: k <= m < n - 1 ==> !Pressed(rowReads[m])
    ensures n < 4 ==> Pressed(rowReads[n - 1])
    decreases 4 - k
  {
    if Pressed(rowReads[k]) || k == 3 then k + 1 else RowsScannedFrom(rowReads, k + 1)
  }

  function RowsScanned(rowReads: seq<nat>): nat
    requires |rowReads| == 4
  {
    RowsScannedFrom(rowReads, 0)
  }

  /** One row: `writePE(GPIOY, out_table[k]); keypad = readPE(GPIOY)`. */
  function RowOps(k: nat): seq<Event>
    requires k < 4
  {
    [PeWrite(PortY, OutTable[k]), PeRead(PortY)]
  }

  /** The bus trace of scanning the first n rows, each in its own critical section. */
  function ScanEvents(n: nat): seq<Event>
    requires n <= 4
  {
    if n == 0 then [] else ScanEvents(n - 1) + Critical(RowOps(n - 1))
  }

  lemma ScanEventsNext(before: seq<Event>, n: nat)
    requires n < 4
    ensures before + ScanEvents(n) + Critical(RowOps(n)) == before + ScanEvents(n + 1)
  {
    assert ScanEvents(n + 1) == ScanEvents(n) + Critical(RowOps(n));
  }

  /** The scan drives the rows in order, each inside a critical section, and is disciplined. */
  lemma {:induction false} ScanEventsShape(n: nat)
    requires n <= 4
    ensures |ScanEvents(n)| == 4 * n
    ensures forall k :: 0 <= k < n ==> ScanEvents(n)[4 * k + 1] == PeWrite(PortY, OutTable[k])
    ensures forall k :: 0 <= k < n ==> ScanEvents(n)[4 * k] == T2Disable && ScanEvents(n)[4 * k + 3] == T2Enable
    ensures Disciplined(ScanEvents(n), true) && GateAfter(ScanEvents(n), true)
  {
    if n > 0 {
      var prev, last := ScanEvents(n - 1), Critical(RowOps(n - 1));
      ScanEventsShape(n - 1);
      assert last == [T2Disable, PeWrite(PortY, OutTable[n - 1]), PeRead(PortY), T2Enable];
      var all := ScanEvents(n);
      assert all == prev + last;
      assert |all| == 4 * n;
      forall k | 0 <= k < n
        ensures all[4 * k + 1] == PeWrite(PortY, OutTable[k])
        ensures all[4 * k] == T2Disable && all[4 * k + 3] == T2Enable
      {
        if k < n - 1 {
          assert all[4 * k] == prev[4 * k];
          assert all[4 * k + 1] == prev[4 * k + 1];
          assert all[4 * k + 3] == prev[4 * k + 3];
        } else {
          assert 4 * k == |prev|;
        }
      }
      CriticalDisciplined(RowOps(n - 1), true);
      DisciplinedAppend(prev, last, true);
    }
  }

  /** The initialisation inside the first critical section; the expander demo also makes
      Z0 and Z1 outputs. */
  function InitOps(configPortZ: bool): seq<Event>
  {
    [PeInit, PeSetPinsOut(PortY, RowPins), PeSetPinsIn(PortY, ColumnPins), PeEnablePullUp(PortY, ColumnPins)]
    + (if configPortZ then [PeSetPinsOut(PortZ, PortZPins)] else [])
  }

  datatype KeyPc = KeyStart | KeyWaiting

  /** `protothread_key`, run one activation (yield to yield) at a time. */
  class KeyThread {
    var keypad: nat      // the last byte read back
    var i: int           // the row counter, then the decoded key number
    var pc: KeyPc        // where the thread resumes
    const bus: Spi2
    const configPortZ: bool

    constructor (bus: Spi2, configPortZ: bool)
      ensures pc == KeyStart && keypad == 0 && i == 0
      ensures this.bus == bus && this.configPortZ == configPortZ
    {
      keypad := 0;
      i := 0;
      pc := KeyStart;
      this.bus := bus;
      this.configPortZ := configPortZ;
    }

    /** First activation: configure the expander pins inside a critical section, then
        reach the 30 ms yield at the top of the loop. */
    method Begin()
      requires pc == KeyStart && bus.Safe() && bus.t2Enabled
      modifies this`pc, bus
      ensures pc == KeyWaiting && bus.Safe() && bus.t2Enabled
      ensures bus.events == old(bus.events) + Critical(InitOps(configPortZ)) + [YieldMsec(KeyYieldMsec)]
    {
      SectionThenYield(InitOps(configPortZ), KeyYieldMsec, true);
      bus.Send(Critical(InitOps(configPortZ)) + [YieldMsec(KeyYieldMsec)]);
      pc := KeyWaiting;
    }

    /** Drive the rows in turn until one shows a press; `rowReads[k]` is what reading
        port Y returns while row k is driven.  Returns the number of rows driven. */
    method ScanRows(rowReads: seq<nat>) returns (scanned: nat)
      requires |rowReads| == 4 && bus.Safe() && bus.t2Enabled
      modifies this`keypad, this`i, bus
      ensures scanned == RowsScanned(rowReads) && keypad == rowReads[scanned - 1]
      ensures bus.events == old(bus.events) + ScanEvents(scanned)
      ensures bus.Safe() && bus.t2Enabled
    {
      ghost var before := bus.events;
      i := 0;
      while i < 4
        invariant 0 <= i <= 4
        invariant i < 4 ==> RowsScannedFrom(rowReads, i) == RowsScanned(rowReads)
        invariant i == 4 ==> RowsScanned(rowReads) == 4
        invariant i > 0 ==> keypad == rowReads[i - 1]
        invariant bus.events == before + ScanEvents(i)
        invariant bus.t2Enabled
      {
        DriveRow(i, rowReads[i]);
        ScanEventsNext(before, i);
        if Pressed(keypad) {
          break;
        }
        i := i + 1;
      }
      scanned := if i == 4 then 4 else i + 1;
      ScanEventsShape(scanned);
      DisciplinedAppend(before, ScanEvents(scanned), true);
    }

    /** Drive row k inside a critical section and keep what port Y reads back. */
    method DriveRow(k: nat, read: nat)
      requires k < 4 && bus.t2Enabled
      modifies this`keypad, bus
      ensures keypad == read && bus.t2Enabled
      ensures bus.events == old(bus.events) + Critical(RowOps(k))
    {
      CriticalDisciplined(RowOps(k), true);
      bus.Send(Critical(RowOps(k)));
      keypad := read;
    }

    /** Every later activation: scan, decode, and reach the yield again. */
    method Poll(rowReads: seq<nat>)
      requires pc == KeyWaiting && |rowReads| == 4 && bus.Safe() && bus.t2Enabled
      modifies this`keypad, this`i, bus
      ensures bus.Safe() && bus.t2Enabled
      ensures keypad == rowReads[RowsScanned(rowReads) - 1]
      ensures i == KeyIndex(keypad)
      ensures bus.events == old(bus.events) + ScanEvents(RowsScanned(rowReads)) + [YieldMsec(KeyYieldMsec)]
    {
      var scanned := ScanRows(rowReads);
      i := DecodeKey(keypad);
      assert Disciplined([YieldMsec(KeyYieldMsec)], true);
      bus.Send([YieldMsec(KeyYieldMsec)]);
    }
  }
}
