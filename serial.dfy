/** The serial command threads.

    Each activation of a serial thread is one command cycle: prompt, read a line from
    the UART (a human-typed line, or a machine line that may time out), scan it with
    `sscanf(PT_term_buffer, "%s %f", cmd, &value)` and dispatch on `cmd[0]`.  `cmd` and
    `value` are static, so a conversion that fails leaves the previous contents in
    place: a blank line repeats the previous command.  A timed-out read clears `cmd[0]`,
    which matches no command.

    The `%s` conversion is modelled on characters; the `%f` conversion is not (floating
    point) and arrives as an optional whole number of hertz. */
module Serial {
  import opened Bits
  import opened Dds
  import opened Timer2

  datatype Option<T> = None | Some(value: T)

  /** The characters `sscanf` treats as white space. */
  predicate IsSpace(c: char)
  {
    c == ' ' || c == '\t' || c == '\n' || c == '\r' || c == '\U{0B}' || c == '\U{0C}'
  }

  /** The length of the run of white space at the front of s. */
  function LeadingSpaces(s: seq<char>): (n: nat)
    ensures n <= |s|
    ensures forall i :: 0 <= i < n ==> IsSpace(s[i])
    ensures n < |s| ==> !IsSpace(s[n])
    decreases |s|
  {
    if s != [] && IsSpace(s[0]) then 1 + LeadingSpaces(s[1..]) else 0
  }

  /** The length of the run of non-space characters at the front of s. */
  function WordLength(s: seq<char>): (n: nat)
    ensures n <= |s|
    ensures forall i :: 0 <= i < n ==> !IsSpace(s[i])
    ensures n < |s| ==> IsSpace(s[n])
    decreases |s|
  {
    if s != [] && !IsSpace(s[0]) then 1 + WordLength(s[1..]) else 0
  }

  /** What `%s` stores: the first white-space-delimited word, or nothing when the line is blank. */
  function FirstToken(line: seq<char>): (r: Option<seq<char>>)
    ensures r.Some? ==> r.value != [] && forall i :: 0 <= i < |r.value| ==> !IsSpace(r.value[i])
  {
    var start := LeadingSpaces(line);
    if start == |line| then None
    else Some(line[start..start + WordLength(line[start..])])
  }

  /** `%s` fails exactly on a blank line; otherwise it yields a non-empty word without
      white space that is preceded only by white space and followed by white space or
      the end of the line, and whose first letter is the first non-blank character. */
  lemma FirstTokenMeaning(line: seq<char>)
    ensures FirstToken(line).None? <==> forall i :: 0 <= i < |line| ==> IsSpace(line[i])
    ensures FirstToken(line).Some? ==>
              var tok, start := FirstToken(line).value, LeadingSpaces(line);
              tok != [] && tok[0] == line[start]
              && (forall i :: 0 <= i < |tok| ==> !IsSpace(tok[i]))
              && (forall i :: 0 <= i < start ==> IsSpace(line[i]))
              && start + |tok| <= |line| && line[start..start + |tok|] == tok
              && (start + |tok| == |line| || IsSpace(line[start + |tok|]))
  {
    var start := LeadingSpaces(line);
    if start < |line| {
      var rest := line[start..];
      var w := WordLength(rest);
      assert rest[0] == line[start] && !IsSpace(rest[0]);
      var tok := line[start..start + w];
      assert FirstToken(line) == Some(tok);
      forall i | 0 <= i < w
        ensures tok[i] == rest[i] && !IsSpace(tok[i])
      {
      }
      if start + w < |line| {
        assert rest[w] == line[start + w];
      }
    }
  }

  /** `cmd[0]` after the scan: cleared by a time-out, the first letter of the word
      otherwise, and unchanged when the line is blank. */
  function NextCommand(prev: char, timedOut: bool, line: seq<char>): (c: char)
    ensures timedOut ==> c == '\0'
    ensures !timedOut && (forall i :: 0 <= i < |line| ==> IsSpace(line[i])) ==> c == prev
    ensures !timedOut && (exists i :: 0 <= i < |line| && !IsSpace(line[i])) ==> c == line[LeadingSpaces(line)]
  {
    FirstTokenMeaning(line);
    if timedOut then '\0'
    else match FirstToken(line)
      case None => prev
      case Some(tok) => tok[0]
  }

  /** `value` after the scan: the number when both conversions succeed, unchanged otherwise. */
  function NextValue(prev: nat, timedOut: bool, line: seq<char>, number: Option<nat>): (v: nat)
    ensures timedOut || FirstToken(line).None? || number.None? ==> v == prev
    ensures !timedOut && FirstToken(line).Some? && number.Some? ==> v == number.value
  {
    if timedOut then prev
    else match (FirstToken(line), number)
      case (Some(_), Some(n)) => n
      case _ => prev
  }

  /** A blank line repeats the previous command; a timed-out read matches no command. */
  lemma BlankLineRepeats(prev: char, line: seq<char>)
    requires forall i :: 0 <= i < |line| ==> IsSpace(line[i])
    ensures NextCommand(prev, false, line) == prev
    ensures NextCommand(prev, true, line) !in ['f', 't', 'm', 'c']
  {
  }

  /** The low byte of an int stored at the address of a one-byte `char` on a
      little-endian machine. */
  function LowByte(x: int): (b: nat)
    ensures b < 256 && (x - b) % 256 == 0
  {
    x % 256
  }

  datatype Reader = HumanReader | MachineReader

  /** The command thread of the machine/human serial test: commands `f` (frequency),
      `t` (terminate condition of the machine reader) and `m` (switch reader). */
  class TestSerial {
    var mode: int                // 1: human input, 2: machine input
    var cmd0: char               // cmd[0]
    var value: nat               // value, whole hertz
    var t0: nat                  // t0, a char
    var v1: int
    var v2: int
    var terminateChar: int       // PT_terminate_char
    var terminateCount: int      // PT_terminate_count
    var terminateTime: int       // PT_terminate_time, milliseconds
    const isr: DdsIsr

    predicate Valid()
      reads this
    {
      mode == 1 || mode == 2
    }

    constructor (isr: DdsIsr, terminateChar: int, terminateCount: int, terminateTime: int)
      ensures Valid() && mode == 1 && cmd0 == '\0' && value == 0 && t0 == 0 && v1 == 0 && v2 == 0
      ensures this.terminateChar == terminateChar && this.terminateCount == terminateCount
      ensures this.terminateTime == terminateTime && this.isr == isr
    {
      mode := 1;
      cmd0 := '\0';
      value := 0;
      t0, v1, v2 := 0, 0, 0;
      this.terminateChar := terminateChar;
      this.terminateCount := terminateCount;
      this.terminateTime := terminateTime;
      this.isr := isr;
    }

    /** One command cycle.  `line` is the buffer the reader returned, `timedOut` the
        reader's time-out flag, `number` the result of the `%f` conversion and `ints` the
        successful `%d` conversions of the `t` command's second scan, in order. */
    method Cycle(line: seq<char>, timedOut: bool, number: Option<nat>, ints: seq<int>) returns (reader: Reader)
      requires Valid() && isr.Valid() && |ints| <= 3
      modifies this, isr
      ensures Valid() && isr.Valid()
      ensures reader == (if old(mode) == 1 then HumanReader else MachineReader)
      ensures cmd0 == NextCommand(old(cmd0), timedOut, line)
      ensures value == NextValue(old(value), timedOut, line, number)
      ensures mode == (if cmd0 == 'm' then 3 - old(mode) else old(mode))
      ensures isr.phaseIncr == (if cmd0 == 'f' then U32(IncrementFor(value, Fs100k)) else old(isr.phaseIncr))
      ensures isr.phaseAccum == old(isr.phaseAccum) && isr.dacData == old(isr.dacData)
      ensures cmd0 == 't' ==>
                t0 == (if |ints| >= 1 then LowByte(ints[0]) else old(t0))
                && v1 == (if |ints| >= 2 then ints[1] else old(v1))
                && v2 == (if |ints| >= 3 then ints[2] else old(v2))
                && terminateChar == t0 && terminateCount == v1 && terminateTime == v2
      ensures cmd0 != 't' ==>
                t0 == old(t0) && v1 == old(v1) && v2 == old(v2) && terminateChar == old(terminateChar)
                && terminateCount == old(terminateCount) && terminateTime == old(terminateTime)
    {
      reader := if mode == 1 then HumanReader else MachineReader;
      if !timedOut {
        value := NextValue(value, timedOut, line, number);
      }
      cmd0 := NextCommand(cmd0, timedOut, line);
      match cmd0
      case 'f' =>
        isr.SetFrequency(value);
      case 't' =>
        if |ints| >= 1 { t0 := LowByte(ints[0]); }
        if |ints| >= 2 { v1 := ints[1]; }
        if |ints| >= 3 { v2 := ints[2]; }
        terminateChar := t0;
        terminateCount := v1;
        terminateTime := v2;
      case 'm' =>
        if mode == 1 {
          mode := 2;
        } else {
          mode := 1;
        }
      case _ =>
    }
  }

  /** The menu thread of the all-features test: a human reader, commands `f` and `t`
      (the latter only prints the time). */
  class MenuSerial {
    var cmd0: char
    var value: nat
    var terminateChar: int
    var terminateCount: int
    var terminateTime: int
    const isr: DdsIsr

    constructor (isr: DdsIsr, terminateChar: int, terminateCount: int, terminateTime: int)
      ensures cmd0 == '\0' && value == 0 && this.isr == isr
      ensures this.terminateChar == terminateChar && this.terminateCount == terminateCount
      ensures this.terminateTime == terminateTime
    {
      cmd0 := '\0';
      value := 0;
      this.terminateChar := terminateChar;
      this.terminateCount := terminateCount;
      this.terminateTime := terminateTime;
      this.isr := isr;
    }

    /** One command cycle; after every read the machine-reader termination is set to
        "5 characters or 5 seconds". */
    method Cycle(line: seq<char>, timedOut: bool, number: Option<nat>)
      requires isr.Valid()
      modifies this, isr
      ensures isr.Valid()
      ensures terminateChar == 0 && terminateCount == 5 && terminateTime == 5000
      ensures cmd0 == NextCommand(old(cmd0), timedOut, line)
      ensures value == NextValue(old(value), timedOut, line, number)
      ensures isr.phaseIncr == (if cmd0 == 'f' then U32(IncrementFor(value, Fs100k)) else old(isr.phaseIncr))
      ensures isr.phaseAccum == old(isr.phaseAccum) && isr.dacData == old(isr.dacData)
    {
      terminateChar := 0;
      terminateCount := 5;
      terminateTime := 5000;
      if !timedOut {
        value := NextValue(value, timedOut, line, number);
      }
      cmd0 := NextCommand(cmd0, timedOut, line);
      if cmd0 == 'f' {
        isr.SetFrequency(value);
      }
    }
  }
}
