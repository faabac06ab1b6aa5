/** The SPI2 bus shared by the timer-2 interrupt (which drives the DAC) and the
    cooperative threads (which drive the port expander), recorded as a trace of
    bus-level events.

    The mutual-exclusion protocol is a single flag, "timer-2 interrupt enabled":
    `start_spi2_critical_section` clears it and `end_spi2_critical_section` sets it.
    A trace is disciplined when every port-expander access happens with the flag
    clear, every DAC transaction (which only the interrupt performs) and every
    thread yield happens with the flag set. */
module Bus {

  datatype Port = PortY | PortZ

  datatype Event =
    | T2Disable                          // INTEnable(INT_T2, 0)
    | T2Enable                           // INTEnable(INT_T2, 1)
    | YieldMsec(ms: nat)                 // PT_YIELD_TIME_msec(ms)
    | PeInit                             // initPE()
    | PeSetPinsOut(port: Port, bits: nat)
    | PeSetPinsIn(port: Port, bits: nat)
    | PeEnablePullUp(port: Port, bits: nat)
    | PeWrite(port: Port, value: nat)    // writePE(GPIOx, value)
    | PeRead(port: Port)                 // readPE(GPIOx)
    | PeSetBits(port: Port, bits: nat)
    | PeToggleBits(port: Port, bits: nat)
    | PeClearBits(port: Port, bits: nat)
    | PeReadBits(port: Port, bits: nat)
    | SpiMode16                          // wait for the transmit buffer, SPI_Mode16()
    | CsLow                              // mPORTBClearBits(BIT_4): select the DAC
    | DacWrite(word: nat)                // WriteSPI2(word), wait while SPI busy
    | CsHigh                             // mPORTBSetBits(BIT_4): deselect the DAC
    | RxRead                             // junk = ReadSPI2()
  {
    /** An access to the port expander, made by a thread. */
    predicate IsExpanderAccess()
    {
      PeInit? || PeSetPinsOut? || PeSetPinsIn? || PeEnablePullUp? || PeWrite? || PeRead?
        || PeSetBits? || PeToggleBits? || PeClearBits? || PeReadBits?
    }

    /** A step of the DAC transaction, made by the interrupt handler. */
    predicate IsDacAccess()
    {
      SpiMode16? || CsLow? || DacWrite? || CsHigh? || RxRead?
    }
  }

  // ---------------------------------------------------------------------------
  // The critical-section gate

  /** The interrupt-enable flag after one event. */
  function GateStep(enabled: bool, e: Event): bool
  {
    if e.T2Disable? then false else if e.T2Enable? then true else enabled
  }

  /** The interrupt-enable flag after a whole trace. */
  function GateAfter(events: seq<Event>, enabled: bool): bool
    decreases |events|
  {
    if events == [] then enabled else GateAfter(events[1..], GateStep(enabled, events[0]))
  }

  /** Whether one event may happen with the flag in the given state. */
  predicate Allowed(e: Event, enabled: bool)
  {
    (e.IsExpanderAccess() ==> !enabled) && (e.IsDacAccess() ==> enabled) && (e.YieldMsec? ==> enabled)
  }

  /** Every event of the trace is allowed in the flag state reached just before it. */
  predicate Disciplined(events: seq<Event>, enabled: bool)
    decreases |events|
  {
    events == [] || (Allowed(events[0], enabled) && Disciplined(events[1..], GateStep(enabled, events[0])))
  }

  /** Running two traces one after the other: the flag carries over, and the whole is
      disciplined exactly when both parts are. */
  lemma {:induction false} DisciplinedAppend(a: seq<Event>, b: seq<Event>, enabled: bool)
    ensures GateAfter(a + b, enabled) == GateAfter(b, GateAfter(a, enabled))
    ensures Disciplined(a + b, enabled) <==> Disciplined(a, enabled) && Disciplined(b, GateAfter(a, enabled))
    decreases |a|
  {
    if a != [] {
      assert (a + b)[0] == a[0];
      assert (a + b)[1..] == a[1..] + b;
      DisciplinedAppend(a[1..], b, GateStep(enabled, a[0]));
    } else {
      assert a + b == b;
    }
  }

  /** The timer-2 interrupt can only be taken where the flag is set.  Taking it there, with a
      handler trace that is disciplined from the enabled state and leaves the flag set,
      keeps the surrounding trace disciplined; in particular no DAC transaction can land
      inside a critical section. */
  lemma InterruptWhereEnabled(before: seq<Event>, handler: seq<Event>, after: seq<Event>)
    requires Disciplined(before + after, true) && GateAfter(before, true)
    requires Disciplined(handler, true) && GateAfter(handler, true)
    ensures Disciplined(before + handler + after, true)
    ensures GateAfter(before + handler + after, true) == GateAfter(before + after, true)
  {
    DisciplinedAppend(before, after, true);
    DisciplinedAppend(before, handler, true);
    DisciplinedAppend(before + handler, after, true);
  }

  /** `start_spi2_critical_section; ops; end_spi2_critical_section`. */
  function Critical(ops: seq<Event>): seq<Event>
  {
    [T2Disable] + ops + [T2Enable]
  }

  /** Expander-only operations executed inside the gate are disciplined from any flag
      state and leave the interrupt enabled, also when nothing happens in between. */
  lemma {:induction false} CriticalDisciplined(ops: seq<Event>, enabled: bool)
    requires forall k :: 0 <= k < |ops| ==> ops[k].IsExpanderAccess()
    ensures Disciplined(Critical(ops), enabled)
    ensures GateAfter(Critical(ops), enabled)
  {
    InsideGate(ops);
    DisciplinedAppend([T2Disable], ops, enabled);
    DisciplinedAppend([T2Disable] + ops, [T2Enable], enabled);
  }

  /** Expander accesses with the interrupt disabled keep it disabled and are disciplined. */
  lemma {:induction false} InsideGate(ops: seq<Event>)
    requires forall k :: 0 <= k < |ops| ==> ops[k].IsExpanderAccess()
    ensures Disciplined(ops, false) && !GateAfter(ops, false)
    decreases |ops|
  {
    if ops != [] {
      InsideGate(ops[1..]);
    }
  }

  /** A thread body that releases the gate before its yield is disciplined and ends enabled. */
  lemma SectionThenYield(ops: seq<Event>, ms: nat, enabled: bool)
    requires forall k :: 0 <= k < |ops| ==> ops[k].IsExpanderAccess()
    ensures Disciplined(Critical(ops) + [YieldMsec(ms)], enabled)
    ensures GateAfter(Critical(ops) + [YieldMsec(ms)], enabled)
  {
    CriticalDisciplined(ops, enabled);
    DisciplinedAppend(Critical(ops), [YieldMsec(ms)], enabled);
  }

  // ---------------------------------------------------------------------------
  // Chip-select framing of the DAC transaction

  /** Chip select is driven low and high alternately, a DAC write happens only while it is
      low, and the trace ends with it high again. */
  predicate CsFramed(events: seq<Event>, selected: bool)
    decreases |events|
  {
    if events == [] then !selected
    else
      var e := events[0];
      (e.CsLow? ==> !selected) && (e.CsHigh? ==> selected) && (e.DacWrite? ==> selected)
      && CsFramed(events[1..], CsNext(selected, e))
  }

  /** The chip-select state after one event. */
  function CsNext(selected: bool, e: Event): bool
  {
    if e.CsLow? then true else if e.CsHigh? then false else selected
  }

  /** The words written to the DAC, in order. */
  function DacWords(events: seq<Event>): seq<nat>
    decreases |events|
  {
    if events == [] then []
    else (if events[0].DacWrite? then [events[0].word] else []) + DacWords(events[1..])
  }

  /** The dummy read that drains the receive buffer happens while the DAC is still selected. */
  predicate ReadWhileSelected(events: seq<Event>, selected: bool)
    decreases |events|
  {
    events != [] &&
    ((events[0].RxRead? && selected)
     || ReadWhileSelected(events[1..], CsNext(selected, events[0])))
  }

  /** Framed traces compose: after a framed prefix, the rest must itself be framed. */
  lemma {:induction false} CsFramedAppend(a: seq<Event>, b: seq<Event>, selected: bool)
    requires CsFramed(a, selected)
    ensures CsFramed(a + b, selected) <==> CsFramed(b, false)
    decreases |a|
  {
    if a == [] {
      assert a + b == b;
    } else {
      assert (a + b)[1..] == a[1..] + b;
      CsFramedAppend(a[1..], b, CsNext(selected, a[0]));
    }
  }

  /** The words written by two traces in sequence are those of the first, then those of the second. */
  lemma {:induction false} DacWordsAppend(a: seq<Event>, b: seq<Event>)
    ensures DacWords(a + b) == DacWords(a) + DacWords(b)
    decreases |a|
  {
    if a == [] {
      assert a + b == b;
    } else {
      var ab, head := a + b, if a[0].DacWrite? then [a[0].word] else [];
      assert ab != [] && ab[0] == a[0] && ab[1..] == a[1..] + b;
      var restA, restB := DacWords(a[1..]), DacWords(b);
      DacWordsAppend(a[1..], b);
      assert DacWords(ab) == head + (restA + restB);
      assert DacWords(a) == head + restA;
      assert head + (restA + restB) == (head + restA) + restB;
    }
  }

  /** The frame of the DDS handlers: mode reset, select, one write, deselect, then the dummy read. */
  function DdsFrame(w: nat): seq<Event>
  {
    [SpiMode16, CsLow, DacWrite(w), CsHigh, RxRead]
  }

  /** The frame of the ramp handler: the dummy read comes before the deselect. */
  function RampFrame(w: nat): seq<Event>
  {
    [SpiMode16, CsLow, DacWrite(w), RxRead, CsHigh]
  }

  /** The frame of the 200 kHz demo: select, one write, deselect, no dummy read. */
  function PlainFrame(w: nat): seq<Event>
  {
    [CsLow, DacWrite(w), CsHigh]
  }

  /** Each DDS frame writes exactly the one word to the selected DAC, reads the receive
      buffer only after deselecting, and needs (and keeps) the interrupt context. */
  lemma DdsFrameShape(w: nat)
    ensures CsFramed(DdsFrame(w), false) && DacWords(DdsFrame(w)) == [w]
    ensures RxRead in DdsFrame(w) && !ReadWhileSelected(DdsFrame(w), false)
    ensures Disciplined(DdsFrame(w), true) && GateAfter(DdsFrame(w), true)
  {
    var t := DdsFrame(w);
    var s4, s3, s2, s1 := [RxRead], [CsHigh, RxRead], [DacWrite(w), CsHigh, RxRead], [CsLow, DacWrite(w), CsHigh, RxRead];
    assert s4[1..] == [] && s3[1..] == s4 && s2[1..] == s3 && s1[1..] == s2 && t[1..] == s1;
    assert CsFramed(s4, false) && CsFramed(s3, true) && CsFramed(s2, true) && CsFramed(s1, false);
    assert DacWords(s4) == [] && DacWords(s3) == [] && DacWords(s2) == [w] && DacWords(s1) == [w];
    assert !ReadWhileSelected(s4, false) && !ReadWhileSelected(s3, true) && !ReadWhileSelected(s2, true);
    assert !ReadWhileSelected(s1, false);
    assert Disciplined(s4, true) && Disciplined(s3, true) && Disciplined(s2, true) && Disciplined(s1, true);
    assert GateAfter(s4, true) && GateAfter(s3, true) && GateAfter(s2, true) && GateAfter(s1, true);
  }

  /** The ramp frame writes exactly the one word and reads the receive buffer while selected. */
  lemma RampFrameShape(w: nat)
    ensures CsFramed(RampFrame(w), false) && DacWords(RampFrame(w)) == [w]
    ensures ReadWhileSelected(RampFrame(w), false)
    ensures Disciplined(RampFrame(w), true) && GateAfter(RampFrame(w), true)
  {
    var t := RampFrame(w);
    var s4, s3, s2, s1 := [CsHigh], [RxRead, CsHigh], [DacWrite(w), RxRead, CsHigh], [CsLow, DacWrite(w), RxRead, CsHigh];
    assert s4[1..] == [] && s3[1..] == s4 && s2[1..] == s3 && s1[1..] == s2 && t[1..] == s1;
    assert CsFramed(s4, true) && CsFramed(s3, true) && CsFramed(s2, true) && CsFramed(s1, false);
    assert DacWords(s4) == [] && DacWords(s3) == [] && DacWords(s2) == [w] && DacWords(s1) == [w];
    assert ReadWhileSelected(s3, true) && ReadWhileSelected(s2, true) && ReadWhileSelected(s1, false);
    assert Disciplined(s4, true) && Disciplined(s3, true) && Disciplined(s2, true) && Disciplined(s1, true);
    assert GateAfter(s4, true) && GateAfter(s3, true) && GateAfter(s2, true) && GateAfter(s1, true);
  }

  /** The plain frame writes exactly the one word and never touches the receive buffer. */
  lemma PlainFrameShape(w: nat)
    ensures CsFramed(PlainFrame(w), false) && DacWords(PlainFrame(w)) == [w]
    ensures RxRead !in PlainFrame(w)
    ensures Disciplined(PlainFrame(w), true) && GateAfter(PlainFrame(w), true)
  {
    var t := PlainFrame(w);
    var s2, s1 := [CsHigh], [DacWrite(w), CsHigh];
    assert s2[1..] == [] && s1[1..] == s2 && t[1..] == s1;
    assert CsFramed(s2, true) && CsFramed(s1, true);
    assert DacWords(s2) == [] && DacWords(s1) == [w];
    assert Disciplined(s2, true) && Disciplined(s1, true);
    assert GateAfter(s2, true) && GateAfter(s1, true);
  }

  /** A handler's frame appended to a framed trace keeps it framed, and the DAC has then
      received exactly the earlier words followed by the frame's one word. */
  lemma FrameAppendsWord(before: seq<Event>, frame: seq<Event>, w: nat)
    requires CsFramed(before, false)
    requires frame == DdsFrame(w) || frame == RampFrame(w) || frame == PlainFrame(w)
    ensures CsFramed(before + frame, false)
    ensures DacWords(before + frame) == DacWords(before) + [w]
  {
    if frame == DdsFrame(w) {
      DdsFrameShape(w);
    } else if frame == RampFrame(w) {
      RampFrameShape(w);
    } else {
      PlainFrameShape(w);
    }
    CsFramedAppend(before, frame, false);
    DacWordsAppend(before, frame);
  }

  /** The SPI2 bus: the interrupt-enable flag of timer 2 and the trace of everything
      that has happened on the bus. */
  class Spi2 {
    var t2Enabled: bool
    var events: seq<Event>

    /** The flag agrees with the trace, and the trace so far obeys the protocol. */
    predicate Safe()
      reads this
    {
      t2Enabled == GateAfter(events, true) && Disciplined(events, true)
    }

    /** After `ConfigIntTimer2(T2_INT_ON | ...)` in `main`: interrupt enabled, nothing sent yet. */
    constructor ()
      ensures t2Enabled && events == [] && Safe()
    {
      t2Enabled := true;
      events := [];
    }

    /** A run of bus-level events issued back to back; the gate events among them update
        the flag.  Issuing a piece that obeys the protocol keeps the whole trace safe. */
    method Send(piece: seq<Event>)
      modifies this
      ensures events == old(events) + piece
      ensures t2Enabled == GateAfter(piece, old(t2Enabled))
      ensures old(Safe()) && Disciplined(piece, old(t2Enabled)) ==> Safe()
    {
      DisciplinedAppend(events, piece, true);
      events := events + piece;
      t2Enabled := GateAfter(piece, t2Enabled);
    }
  }
}
