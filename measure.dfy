/** The scheduler-measurement program: three threads that do nothing but yield and count
    their resumptions, and a serial thread whose `c` command zeroes the counters, waits a
    second while the scheduler runs, and totals them. */
module Measure {
  import opened Bits
  import opened Dds
  import opened Timer2
  import opened Serial
  import opened Scheduler

  /** `count_thread1..3` and `count_total`, with whether each measured thread has reached
      its first `PT_YIELD` (the first scheduling only gets that far). */
  class Counters {
    var count1: int
    var count2: int
    var count3: int
    var countTotal: int
    var started1: bool
    var started2: bool
    var started3: bool

    predicate AllStarted()
      reads this
    {
      started1 && started2 && started3
    }

    constructor ()
      ensures count1 == 0 && count2 == 0 && count3 == 0 && countTotal == 0
      ensures !started1 && !started2 && !started3
    {
      count1, count2, count3, countTotal := 0, 0, 0, 0;
      started1, started2, started3 := false, false, false;
    }

    /** One scheduling of `protothread_t1`, `_t2` or `_t3`: the first one runs up to the
        yield; every later one resumes after it, counts once, and yields again. */
    method Resume(t: ThreadId)
      requires t == Thread1 || t == Thread2 || t == Thread3
      modifies this
      ensures count1 == old(count1) + (if t == Thread1 && old(started1) then 1 else 0)
      ensures count2 == old(count2) + (if t == Thread2 && old(started2) then 1 else 0)
      ensures count3 == old(count3) + (if t == Thread3 && old(started3) then 1 else 0)
      ensures started1 == (old(started1) || t == Thread1)
      ensures started2 == (old(started2) || t == Thread2)
      ensures started3 == (old(started3) || t == Thread3)
      ensures countTotal == old(countTotal)
    {
      match t
      case Thread1 =>
        if started1 { count1 := count1 + 1; } else { started1 := true; }
      case Thread2 =>
        if started2 { count2 := count2 + 1; } else { started2 := true; }
      case Thread3 =>
        if started3 { count3 := count3 + 1; } else { started3 := true; }
    }

    /** One round-robin pass over the measured threads, in registration order t3, t2, t1. */
    method Pass()
      modifies this
      ensures AllStarted() && countTotal == old(countTotal)
      ensures count1 == old(count1) + (if old(started1) then 1 else 0)
      ensures count2 == old(count2) + (if old(started2) then 1 else 0)
      ensures count3 == old(count3) + (if old(started3) then 1 else 0)
    {
      Resume(Thread3);
      Resume(Thread2);
      Resume(Thread1);
    }

    /** The `c` command: zero the three counters, let `passes` scheduler passes go by
        during the one-second wait, then total the counters.  Once every measured thread
        has started, each counter ends equal to the number of passes. */
    method MeasureCommand(passes: nat)
      modifies this
      ensures countTotal == count1 + count2 + count3
      ensures old(AllStarted()) ==> count1 == passes && count2 == passes && count3 == passes
      ensures 0 <= count1 <= passes && 0 <= count2 <= passes && 0 <= count3 <= passes
      ensures passes > 0 ==> AllStarted()
    {
      count1, count2, count3 := 0, 0, 0;
      var p := 0;
      while p < passes
        invariant 0 <= p <= passes
        invariant old(AllStarted()) ==> AllStarted() && count1 == p && count2 == p && count3 == p
        invariant 0 <= count1 <= p && 0 <= count2 <= p && 0 <= count3 <= p
        invariant p > 0 ==> AllStarted()
      {
        Pass();
        p := p + 1;
      }
      countTotal := count1 + count2 + count3;
    }
  }

  /** The measurement program's serial thread: a human reader with no time-out check;
      commands `f` (frequency) and `c` (measure). */
  class MeasureSerial {
    var cmd0: char
    var value: nat
    const isr: DdsIsr
    const counters: Counters

    constructor (isr: DdsIsr, counters: Counters)
      ensures cmd0 == '\0' && value == 0 && this.isr == isr && this.counters == counters
    {
      cmd0 := '\0';
      value := 0;
      this.isr := isr;
      this.counters := counters;
    }

    /** One command cycle; `passes` is the number of scheduler passes during the `c`
        command's one-second wait. */
    method Cycle(line: seq<char>, number: Option<nat>, passes: nat)
      requires isr.Valid()
      modifies this, isr, counters
      ensures isr.Valid()
      ensures cmd0 == NextCommand(old(cmd0), false, line)
      ensures value == NextValue(old(value), false, line, number)
      ensures isr.phaseIncr == (if cmd0 == 'f' then U32(IncrementFor(value, Fs100k)) else old(isr.phaseIncr))
      ensures isr.phaseAccum == old(isr.phaseAccum) && isr.dacData == old(isr.dacData)
      ensures cmd0 == 'c' ==>
                counters.countTotal == counters.count1 + counters.count2 + counters.count3
                && (old(counters.AllStarted()) ==> counters.countTotal == 3 * passes)
      ensures cmd0 != 'c' ==> unchanged(counters)
    {
      value := NextValue(value, false, line, number);
      cmd0 := NextCommand(cmd0, false, line);
      match cmd0
      case 'f' =>
        isr.SetFrequency(value);
      case 'c' =>
        counters.MeasureCommand(passes);
      case _ =>
    }
  }
}
