/** Thread dispatch.

    Two programs schedule their protothreads with an explicit `while(1)` loop in `main`
    that calls `PT_SCHEDULE` on each thread in a fixed order; the 200 kHz demo does the
    same with a single thread.  The other two register their threads with `pt_add(thread,
    rate)` and run the library scheduler with `SCHED_ROUND_ROBIN`, which cycles through
    the registered threads in registration order.  The library also offers `SCHED_RATE`,
    documented as: rate 0 runs on every pass, rate 1 on every second pass, rate k on
    every 2^k-th pass, and a rate of 5 or more disables the thread. */
module Scheduler {
  import opened Bits

  datatype ThreadId =
    | TimerThread | ColorThread | AnimThread | KeyThread | SerialThread
    | Thread1 | Thread2 | Thread3 | ParamThread

  /** The main loop of the all-features test. */
  const SerialAllOrder: seq<ThreadId> := [TimerThread, ColorThread, AnimThread, KeyThread, SerialThread]
  /** The main loop of the keypad/expander demo. */
  const TftKeyOrder: seq<ThreadId> := [TimerThread, ColorThread, AnimThread, KeyThread]
  /** The main loop of the 200 kHz demo. */
  const DdsDacOrder: seq<ThreadId> := [ParamThread]

  /** n passes of the main loop. */
  function Repeat(order: seq<ThreadId>, n: nat): (r: seq<ThreadId>)
    ensures |r| == n * |order|
  {
    if n == 0 then [] else Repeat(order, n - 1) + order
  }

  /** Entry i of the dispatch log is thread i mod |order| of the loop body. */
  lemma {:induction false} RepeatAt(order: seq<ThreadId>, n: nat)
    requires |order| > 0
    ensures |Repeat(order, n)| == n * |order|
    ensures forall i :: 0 <= i < n * |order| ==> Repeat(order, n)[i] == order[i % |order|]
  {
    if n > 0 {
      RepeatAt(order, n - 1);
      var m := |order|;
      forall i | 0 <= i < n * m
        ensures Repeat(order, n)[i] == order[i % m]
      {
        if i >= (n - 1) * m {
          DivModUnique(i, m, n - 1, i - (n - 1) * m);
        }
      }
    }
  }

  /** A rotation of a sequence has the same elements. */
  lemma RotationMultiset(o: seq<ThreadId>, r: nat)
    requires r <= |o|
    ensures multiset(o[r..] + o[..r]) == multiset(o)
  {
    assert o == o[..r] + o[r..];
  }

  /** Stepping j places on from position i of a cycle of length m wraps at most once. */
  lemma RotateIndex(i: nat, j: nat, m: nat)
    requires 0 < m && j < m
    ensures (i + j) % m == if i % m + j < m then i % m + j else i % m + j - m
  {
    if i % m + j < m {
      DivModUnique(i + j, m, i / m, i % m + j);
    } else {
      DivModUnique(i + j, m, i / m + 1, i % m + j - m);
    }
  }

  /** Fairness of the round robin: any |order| consecutive dispatches, wherever they
      start, are a rotation of the loop body, so they run every thread of the body
      exactly as often as the body names it. */
  lemma WindowFair(order: seq<ThreadId>, n: nat, i: nat)
    requires |order| > 0 && i + |order| <= n * |order|
    ensures multiset(Repeat(order, n)[i..i + |order|]) == multiset(order)
  {
    var m := |order|;
    var r := i % m;
    RepeatAt(order, n);
    var w := Repeat(order, n)[i..i + m];
    var rot := order[r..] + order[..r];
    forall j | 0 <= j < m
      ensures w[j] == rot[j]
    {
      RotateIndex(i, j, m);
    }
    assert w == rot;
    RotationMultiset(order, r);
  }

  /** The explicit loop bodies name each thread once. */
  lemma LoopBodiesDistinct()
    ensures forall a, b :: 0 <= a < b < |SerialAllOrder| ==> SerialAllOrder[a] != SerialAllOrder[b]
    ensures forall a, b :: 0 <= a < b < |TftKeyOrder| ==> TftKeyOrder[a] != TftKeyOrder[b]
  {
  }

  /** In any five consecutive dispatches of the all-features test, each of its threads
      runs exactly once. */
  lemma SerialAllWindow(n: nat, i: nat, t: ThreadId)
    requires i + 5 <= n * 5 && t in SerialAllOrder
    ensures multiset(Repeat(SerialAllOrder, n)[i..i + 5])[t] == 1
  {
    WindowFair(SerialAllOrder, n, i);
    assert multiset(SerialAllOrder)[t] == 1;
  }

  /** The explicit `while(1)` loop of `main`. */
  class MainLoop {
    const order: seq<ThreadId>
    var dispatched: seq<ThreadId>

    constructor (order: seq<ThreadId>)
      ensures this.order == order && dispatched == []
    {
      this.order := order;
      dispatched := [];
    }

    /** One pass of the loop body: each `PT_SCHEDULE` in turn. */
    method Pass()
      modifies this
      ensures dispatched == old(dispatched) + order
    {
      var k := 0;
      while k < |order|
        invariant 0 <= k <= |order|
        invariant dispatched == old(dispatched) + order[..k]
      {
        dispatched := dispatched + [order[k]];
        k := k + 1;
        assert order[..k] == order[..k - 1] + [order[k - 1]];
      }
      assert order[..|order|] == order;
    }

    /** n passes of the loop. */
    method Run(n: nat)
      modifies this
      ensures dispatched == old(dispatched) + Repeat(order, n)
    {
      var p := 0;
      while p < n
        invariant 0 <= p <= n
        invariant dispatched == old(dispatched) + Repeat(order, p)
      {
        Pass();
        p := p + 1;
      }
    }
  }

  // ---------------------------------------------------------------------------
  // Registration and the library's scheduling policies

  datatype Task = Task(thread: ThreadId, rate: nat)

  datatype Policy = SchedRoundRobin | SchedRate

  /** A rate of 5 or more disables a thread under `SCHED_RATE`. */
  const DisabledRate: nat := 5

  /** The documented rate contract: rate k runs on every 2^k-th pass. */
  predicate RateRunsOnPass(rate: nat, pass: nat)
  {
    rate < DisabledRate && pass % Pow2(rate) == 0
  }

  /** A thread of rate k < 5 that runs on some pass runs again exactly 2^k passes later and
      on none in between. */
  lemma RateSpacing(rate: nat, pass: nat)
    requires RateRunsOnPass(rate, pass)
    ensures RateRunsOnPass(rate, pass + Pow2(rate))
    ensures forall p :: pass < p < pass + Pow2(rate) ==> !RateRunsOnPass(rate, p)
  {
    var m := Pow2(rate);
    var q := pass / m;
    DivModUnique(pass, m, q, 0);
    DivModUnique(pass + m, m, q + 1, 0);
    forall p | pass < p < pass + m
      ensures !RateRunsOnPass(rate, p)
    {
      DivModUnique(p, m, q, p - pass);
    }
  }

  /** The threads a pass runs, in registration order. */
  function ScheduledOnPass(policy: Policy, tasks: seq<Task>, pass: nat): seq<ThreadId>
  {
    if tasks == [] then []
    else
      (if policy.SchedRoundRobin? || RateRunsOnPass(tasks[0].rate, pass) then [tasks[0].thread] else [])
      + ScheduledOnPass(policy, tasks[1..], pass)
  }

  /** The registered threads, in registration order. */
  function Threads(tasks: seq<Task>): (ts: seq<ThreadId>)
    ensures |ts| == |tasks| && forall k :: 0 <= k < |tasks| ==> ts[k] == tasks[k].thread
  {
    if tasks == [] then [] else [tasks[0].thread] + Threads(tasks[1..])
  }

  /** Round robin ignores the rates: every pass runs every registered thread in order. */
  lemma {:induction false} RoundRobinRunsAll(tasks: seq<Task>, pass: nat)
    ensures ScheduledOnPass(SchedRoundRobin, tasks, pass) == Threads(tasks)
  {
    if tasks != [] {
      RoundRobinRunsAll(tasks[1..], pass);
    }
  }

  /** `pt_add`'s list of registered threads. */
  class TaskList {
    var tasks: seq<Task>

    constructor ()
      ensures tasks == []
    {
      tasks := [];
    }

    /** `pt_add(thread, rate)`: append and return the list index. */
    method Add(thread: ThreadId, rate: nat) returns (id: nat)
      modifies this
      ensures tasks == old(tasks) + [Task(thread, rate)] && id == |old(tasks)|
    {
      id := |tasks|;
      tasks := tasks + [Task(thread, rate)];
    }
  }

  /** The registrations of the scheduler-measurement program. */
  const MeasureTasks: seq<Task> := [Task(Thread3, 2), Task(Thread2, 1), Task(Thread1, 0), Task(SerialThread, 2)]
  /** The registrations of the machine/human serial test. */
  const TestTasks: seq<Task> := [Task(TimerThread, 0), Task(KeyThread, 1), Task(SerialThread, 1)]

  /** The measurement program's `main`: t3, t2, t1 at rates 2, 1, 0, then the serial thread at rate 2. */
  method RegisterMeasure(list: TaskList) returns (thread3Id: nat, thread2Id: nat, thread1Id: nat)
    requires list.tasks == []
    modifies list
    ensures list.tasks == MeasureTasks
    ensures thread3Id == 0 && thread2Id == 1 && thread1Id == 2
  {
    thread3Id := list.Add(Thread3, 2);
    thread2Id := list.Add(Thread2, 1);
    thread1Id := list.Add(Thread1, 0);
    var serialId := list.Add(SerialThread, 2);
  }

  /** The serial test's `main`: timer at rate 0, keypad and serial at rate 1. */
  method RegisterTest(list: TaskList) returns (timerId: nat)
    requires list.tasks == []
    modifies list
    ensures list.tasks == TestTasks && timerId == 0
  {
    timerId := list.Add(TimerThread, 0);
    var keyId := list.Add(KeyThread, 1);
    var serialId := list.Add(SerialThread, 1);
  }

  /** Under round robin (the policy both programs select) each pass of the measurement
      program runs t3, t2, t1 and the serial thread once each, in that order. */
  lemma MeasureRoundRobin(pass: nat)
    ensures ScheduledOnPass(SchedRoundRobin, MeasureTasks, pass) == [Thread3, Thread2, Thread1, SerialThread]
  {
    RoundRobinRunsAll(MeasureTasks, pass);
  }

  /** Under the documented rate policy, the same registrations would run t1 on every
      pass, t2 on every second pass, and t3 and the serial thread on every fourth. */
  lemma MeasureRates(pass: nat)
    ensures ScheduledOnPass(SchedRate, MeasureTasks, pass)
            == (if pass % 4 == 0 then [Thread3] else []) + (if pass % 2 == 0 then [Thread2] else [])
               + [Thread1] + (if pass % 4 == 0 then [SerialThread] else [])
  {
    Pow2Values();
    assert Pow2(0) == 1 && Pow2(1) == 2 && Pow2(2) == 4;
    var t := MeasureTasks;
    var t1, t2, t3 := t[1..], t[1..][1..], t[1..][1..][1..];
    assert t1 == [Task(Thread2, 1), Task(Thread1, 0), Task(SerialThread, 2)];
    assert t2 == [Task(Thread1, 0), Task(SerialThread, 2)];
    assert t3 == [Task(SerialThread, 2)] && t3[1..] == [];
    assert ScheduledOnPass(SchedRate, t3[1..], pass) == [];
    assert RateRunsOnPass(2, pass) <==> pass % 4 == 0;
    assert RateRunsOnPass(1, pass) <==> pass % 2 == 0;
    assert RateRunsOnPass(0, pass);
    var s3 := ScheduledOnPass(SchedRate, t3, pass);
    assert s3 == (if pass % 4 == 0 then [SerialThread] else []) + [];
    var s2 := ScheduledOnPass(SchedRate, t2, pass);
    assert s2 == [Thread1] + s3;
    var s1 := ScheduledOnPass(SchedRate, t1, pass);
    assert s1 == (if pass % 2 == 0 then [Thread2] else []) + s2;
  }
}
