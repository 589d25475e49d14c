/** What runs do to the sleep queue and to the semaphores. */
module QueueRuns {
  import opened Options
  import opened Words
  import Memory
  import opened DeltaQueue
  import Sequences
  import opened Semaphores
  import opened ThreadQueues
  import opened Ownership
  import opened Machine
  import opened Safety
  import opened Executions

  /* ---- one transition ---- */

  /** Sleepers, semaphores and the input buffer as they are. */
  ghost predicate Untouched(s: State, s': State) {
    s'.q.sleepers == s.q.sleepers && s'.q.sems == s.q.sems && s'.rx == s.rx
  }

  lemma ExitUntouched(s: State)
    requires Inv(s)
    ensures Refs(s) && (ExitStep(s).Goes? ==> Untouched(s, ExitStep(s).state))
  {
    hide Core, Waiting, Modes, Received, Drop, DropAt;
    Basics(s);
    assert Refs(s.(users := if s.csr.sstatus.kernel then s.users else (s.users + TWO64 - 1) % TWO64));
    SwitchRest(s.(users := if s.csr.sstatus.kernel then s.users else (s.users + TWO64 - 1) % TWO64));
  }

  lemma ConsoleQueues(s: State, bytes: seq<int>)
    requires Inv(s)
    ensures Refs(s) && ConsoleStep(s, bytes).q.sleepers == s.q.sleepers && ConsoleStep(s, bytes).q.sems == s.q.sems
  {
    hide Core, Refs, Waiting, Modes, Serve;
    Basics(s);
    var room := RX_SIZE - |s.rx|;
    var s1 := s.(rx := s.rx + if |bytes| <= room then bytes else bytes[..room]);
    CoreSame(s, s1, Some(s.current));
    ServeOk(s1);
  }

  lemma PutcUntouched(s: State, full: bool)
    requires Inv(s)
    ensures Refs(s) && Untouched(s, PutcStep(s, full))
  {
    hide Core, Preempt;
    Basics(s);
    if full {
      var again := (s.csr.sepc + TWO64 - 4) % TWO64;
      var s1 := Stale(s, again, (again + TWO64 - 4) % TWO64);
      assert Refs(s1);
      PreemptRest(s1);
    }
  }

  lemma GetcQueues(s: State)
    requires Inv(s) && s.current != s.idle
    ensures Refs(s) && GetcStep(s).q.sleepers == s.q.sleepers && GetcStep(s).q.sems == s.q.sems
  {
    hide Core, BlockOn, Modes, Refs;
    Basics(s);
    BlockOk(s, Input);
  }

  lemma TimerQueues(s: State)
    requires Inv(s)
    ensures Refs(s) && TimerStep(s).Goes?
    ensures TimerStep(s).state.q.sleepers == Tick(s.q.sleepers).0 && TimerStep(s).state.q.sems == s.q.sems
    ensures TimerStep(s).state.rx == s.rx
  {
    hide Inv, Refs, Preempt, WakeDue, Tick, Decrement, DueNow;
    TickedReady(s);
    TimerOk(s);
    var s1 := Ticked(s).state;
    TimerEnd(s1);
    PreemptRest(SetTime(s1, s1.current, s1.threads[s1.current].timeLeft - 1));
  }

  /** A wait does to the semaphore what `Wait` says, and to nothing else. */
  lemma WaitQueues(s: State, h: nat)
    requires Inv(s) && h in s.q.sems && s.current != s.idle
    ensures Refs(s) && SemWaitStep(s, h).q.sleepers == s.q.sleepers
    ensures SemWaitStep(s, h).q.sems == s.q.sems[h := Wait(s.q.sems[h], s.current).0] && SemWaitStep(s, h).rx == s.rx
  {
    hide Core, Refs, Waiting, BlockOn, Modes;
    Basics(s);
    var v := Wrap32(s.q.sems[h].val - 1);
    var s1 := s.(q := SetVal(s.q, h, v));
    SetValCore(s, h, v);
    ModesSame(s, s1);
    BlockOk(s1, OnSem(h));
  }

  /** A signal does to the semaphore what `Signal` says, and to nothing else. */
  lemma SignalQueues(s: State, h: nat)
    requires Inv(s) && h in s.q.sems
    ensures Refs(s) && SemSignalStep(s, h).Goes? && SemSignalStep(s, h).state.q.sleepers == s.q.sleepers
    ensures SemSignalStep(s, h).state.q.sems == s.q.sems[h := Signal(s.q.sems[h]).0]
            && SemSignalStep(s, h).state.rx == s.rx
    ensures Signal(s.q.sems[h]).1.Some? ==>
              SemSignalStep(s, h).state.q.ready == s.q.ready + [Signal(s.q.sems[h]).1.value]
  {
    hide Core, Modes, Waiting, Unblock, Refs, Quiet;
    Basics(s);
    SignalOk(s, h);
    var v := Wrap32(s.q.sems[h].val + 1);
    var s1 := s.(q := SetVal(s.q, h, v));
    SetValCore(s, h, v);
    Basics(s1);
    if v <= 0 && s.q.sems[h].queue != [] {
      UnblockRest(s1, OnSem(h), 0);
    }
  }

  lemma CloseQueues(s: State, h: nat)
    requires Inv(s) && h in s.q.sems
    ensures Refs(s) && SemCloseStep(s, h).Goes?
    ensures SemCloseStep(s, h).state.q.sleepers == s.q.sleepers
    ensures SemCloseStep(s, h).state.q.sems == s.q.sems - {h} && SemCloseStep(s, h).state.rx == s.rx
    ensures SemCloseStep(s, h).state.q.ready == s.q.ready + s.q.sems[h].queue
  {
    hide Core, Modes, Waiting, Refs, Drop, Quiet;
    Basics(s);
    CloseOk(s, h);
    UnblockAllOk(s, h);
    assert s.q.sems[h := s.q.sems[h].(queue := [])] - {h} == s.q.sems - {h};
  }

  /** A close asks nobody in line whether they are asleep as well, as in a timed wait: exactly those who
      are end up ready and asleep at once, their records as they were. */
  lemma CloseForgets(s: State, h: nat, t: nat)
    requires Refs(s) && h in s.q.sems && Drop(s.mem, h).Some? && t in s.q.sems[h].queue
    ensures SemCloseStep(s, h).Goes?
    ensures var q' := SemCloseStep(s, h).state.q;
            && q'.sleepers == s.q.sleepers && h !in q'.sems
            && (t in q'.ready && t in Threads(q'.sleepers) <==> t in Threads(s.q.sleepers))
  {
    hide Refs, Drop, UnblockAll, Quiet;
    LineEmptied(s, h);
  }

  /** Nobody in line has its result at p. */
  ghost predicate Elsewhere(s: State, h: nat, p: nat)
    requires h in s.q.sems
  {
    forall t :: t in s.q.sems[h].queue && t in s.threads ==> s.threads[t].frame.sp != p
  }

  /** The loop of a close returns -1 to every thread in line and nothing to anyone else. */
  lemma {:induction false} LineTold(s: State, h: nat)
    requires Core(s, Some(s.current)) && h in s.q.sems
    ensures Refs(s)
    ensures forall t :: t in s.q.sems[h].queue ==>
              t in s.threads
              && var p := s.threads[t].frame.sp; p in UnblockAll(s, h).a0 && UnblockAll(s, h).a0[p] == SEM_CLOSED
    ensures forall p :: p in s.a0 && Elsewhere(s, h, p) ==>
              p in UnblockAll(s, h).a0 && UnblockAll(s, h).a0[p] == s.a0[p]
    ensures UnblockAll(s, h).csr == s.csr
    decreases |s.q.sems[h].queue|
  {
    hide Core, Refs, Unblock;
    Basics(s);
    var line := s.q.sems[h].queue;
    if line != [] {
      UnblockCore(s, OnSem(h), SEM_CLOSED);
      UnblockCells(s, h);
      var s1 := Unblock(s, OnSem(h), SEM_CLOSED);
      LineTold(s1, h);
      assert line == [line[0]] + line[1..];
    }
  }

  /** After a close the caller has its zero; every thread that was in line has -1, unless its result
      lies where the caller's does; and no other result has changed. */
  lemma CloseTells(s: State, h: nat)
    requires Inv(s) && h in s.q.sems
    ensures Refs(s) && SemCloseStep(s, h).Goes?
    ensures var a0' := SemCloseStep(s, h).state.a0;
            && s.csr.sp in a0' && a0'[s.csr.sp] == 0
            && (forall t :: t in s.q.sems[h].queue ==>
                  t in s.threads && var p := s.threads[t].frame.sp; p != s.csr.sp ==> p in a0' && a0'[p] == SEM_CLOSED)
            && (forall p :: p in s.a0 && p != s.csr.sp && Elsewhere(s, h, p) ==> p in a0' && a0'[p] == s.a0[p])
  {
    hide Core, Modes, Waiting, Refs, Drop, UnblockAll;
    Basics(s);
    CloseOk(s, h);
    LineTold(s, h);
  }

  lemma UnblockCells(s: State, h: nat)
    requires Refs(s) && h in s.q.sems && s.q.sems[h].queue != []
    ensures var (t, s1) := (s.q.sems[h].queue[0], Unblock(s, OnSem(h), SEM_CLOSED));
            && t in s.threads && h in s1.q.sems && s1.q.sems[h].queue == s.q.sems[h].queue[1..]
            && s1.threads.Keys == s.threads.Keys
               && (forall u :: u in s.threads ==> s1.threads[u].frame == s.threads[u].frame)
            && s1.a0 == s.a0[s.threads[t].frame.sp := SEM_CLOSED] && s1.csr == s.csr
  {
  }

  lemma SleepQueues(s: State, time: nat)
    requires Inv(s)
    ensures Refs(s) && (SleepStep(s, time).Goes? ==>
              var q' := SleepStep(s, time).state.q;
              && q'.sems == s.q.sems && SleepStep(s, time).state.rx == s.rx
              && (time == 0 ==> q'.sleepers == s.q.sleepers)
              && (time > 0 ==> Grab(s.mem, 1, SleeperOf).Some?
                               && q'.sleepers == Insert(s.q.sleepers,
                                  Sleeper(Grab(s.mem, 1, SleeperOf).value.1, s.current, time))))
  {
    hide Core, Switch, Insert, Grab;
    Basics(s);
    var s1 := Return(s, 0);
    assert Refs(s1);
    TimeoutRefs(s1, s1.current, time);
    if time > 0 && Timeout(s1, s1.current, time).Goes? {
      SwitchRest(Timeout(s1, s1.current, time).state);
    }
  }

  /** What each trap does to sleepers and semaphores. */
  lemma StepQueues(s: State, e: Trap, f: Frame, s': State)
    requires Inv(s) && Refs(s) && Enabled(s, e, f) && Step(s, e, f) == Goes(s')
    ensures match e
            case Timer => s'.q.sleepers == Tick(s.q.sleepers).0 && s'.q.sems == s.q.sems
            case Sleep(time, _) =>
              && s'.q.sems == s.q.sems
              && (time == 0 ==> s'.q.sleepers == s.q.sleepers)
              && (time > 0 ==> Grab(s.mem, 1, SleeperOf).Some?
                               && s'.q.sleepers == Insert(s.q.sleepers,
                                  Sleeper(Grab(s.mem, 1, SleeperOf).value.1, s.current, time)))
            case SemOpen(init, _) =>
              && s'.q.sleepers == s.q.sleepers
              && (s'.q.sems == s.q.sems || exists b: nat :: b !in s.q.sems && s'.q.sems == s.q.sems[b := Open(init)])
            case SemClose(h) => s'.q.sleepers == s.q.sleepers && s'.q.sems == s.q.sems - {h}
            case SemWait(h) => s'.q.sleepers == s.q.sleepers
              && s'.q.sems == s.q.sems[h := Wait(s.q.sems[h], s.current).0]
            case SemSignal(h) => s'.q.sleepers == s.q.sleepers && s'.q.sems == s.q.sems[h := Signal(s.q.sems[h]).0]
            case Console(_) => s'.q.sleepers == s.q.sleepers && s'.q.sems == s.q.sems
            case Getc => s'.q.sleepers == s.q.sleepers && s'.q.sems == s.q.sems
            case _ => Untouched(s, s')
    ensures !e.Console? && !e.Getc? ==> s'.rx == s.rx
  {
    hide Inv, Refs, TimerStep, ConsoleStep, MemAllocStep, CreateStep, ExitStep, SemOpenStep, SemCloseStep,
      SemWaitStep, SemSignalStep, SleepStep, GetcStep, PutcStep, KernelDispatchStep, Preempt, IsFreshStack,
      Tick, Insert, Grab, Wait, Signal;
    EnterOk(s, e, f);
    var s0 := Enter(s, e, f);
    match e {
      case Timer => TimerQueues(s0);
      case Console(bytes) => ConsoleQueues(s0, bytes);
      case MemAlloc(n, _) => AllocSimple(s0, n);
      case ThreadCreate(start, stack, _) => CreateUntouched(s0, start, stack);
      case ThreadExit => ExitUntouched(s0);
      case Dispatch => PreemptRest(s0);
      case SemOpen(init, _) => OpenQueues(s0, init);
      case SemClose(h) => CloseQueues(s0, h);
      case SemWait(h) => WaitQueues(s0, h);
      case SemSignal(h) => SignalQueues(s0, h);
      case Sleep(time, _) => SleepQueues(s0, time);
      case Getc => GetcQueues(s0);
      case Putc(full) => PutcUntouched(s0, full);
      case KernelDispatch => KernelUntouched(s0);
      case _ =>
    }
  }

  lemma CreateUntouched(s: State, start: int, stack: nat)
    requires Refs(s) && IsFreshStack(s, stack)
    ensures Untouched(s, CreateStep(s, start, stack))
  {
    hide Grab;
  }

  lemma TimeFits(s: State, e: Trap, f: Frame)
    requires Enabled(s, e, f) && e.Sleep?
    ensures e.time < TWO64
  {
  }

  lemma KernelUntouched(s: State)
    requires Inv(s) && s.current == s.idle
    ensures Refs(s) && Untouched(s, KernelDispatchStep(s))
  {
    hide Core, Switch, Waiting, Modes, Refs;
    Basics(s);
    KernelDispatchOk(s);
    SwitchRest(s);
  }

  lemma OpenQueues(s: State, init: nat)
    requires Inv(s)
    ensures var q' := SemOpenStep(s, init).q;
            && q'.sleepers == s.q.sleepers && SemOpenStep(s, init).rx == s.rx
            && (q'.sems == s.q.sems || exists b: nat :: b !in s.q.sems && q'.sems == s.q.sems[b := Open(init)])
  {
    hide Core, Waiting, Grab, Modes;
    GrabFresh(s, SemOf);
  }

  /* ---- sleeping t ticks takes t ticks ---- */

  /** Thread t sleeps, with record n, for d more ticks. */
  ghost predicate SleepsFor(q: seq<Sleeper>, n: nat, t: nat, d: nat) {
    && n in Due(q) && Due(q)[n] == d
    && exists k :: 0 <= k < |q| && q[k].node == n && q[k].thread == t
  }

  lemma InsertSleeps(q: seq<Sleeper>, x: Sleeper, n: nat, t: nat, d: nat)
    requires Waiting(q) && x.node !in Nodes(q) && 1 <= x.delta < TWO64
    requires SleepsFor(q, n, t, d)
    ensures SleepsFor(Insert(q, x), n, t, d)
  {
    InsertDue(q, x);
    var j := InsertExtends(q, x);
    var k :| 0 <= k < |q| && q[k].node == n && q[k].thread == t;
    assert n == Nodes(q)[k];
    var k' := if k < j then k else k + 1;
    assert Insert(q, x)[k'].node == n && Insert(q, x)[k'].thread == t;
  }

  /** The thread going to sleep sleeps for the time it asked for. */
  lemma FallsAsleep(q: seq<Sleeper>, x: Sleeper)
    requires Waiting(q) && x.node !in Nodes(q) && 1 <= x.delta < TWO64
    ensures SleepsFor(Insert(q, x), x.node, x.thread, x.delta)
  {
    InsertDue(q, x);
    var j := InsertExtends(q, x);
    assert Insert(q, x)[j].node == x.node && Insert(q, x)[j].thread == x.thread;
  }

  lemma TickSleeps(q: seq<Sleeper>, n: nat, t: nat, d: nat)
    requires Waiting(q) && SleepsFor(q, n, t, d)
    ensures d >= 1
    ensures d > 1 ==> SleepsFor(Tick(q).0, n, t, d - 1)
    ensures d == 1 ==> t in DueNow(q)
  {
    hide Tick, DueFrom, Waiting;
    var (rest, woken) := Tick(q);
    TickDue(q);
    DueAfter(q, 0, n);
    var k :| 0 <= k < |q| && q[k].node == n && q[k].thread == t;
    assert (Nodes(woken) + Nodes(rest))[k] == n && (Threads(woken) + Threads(rest))[k] == t;
    assert k >= |woken| ==> n in Nodes(rest);
    if d > 1 {
      assert n !in Nodes(woken);
      var i := k - |woken|;
      assert rest[i].node == n && rest[i].thread == t;
    } else {
      assert n !in Due(rest);
      DueKeys(rest, 0);
      assert Threads(woken)[k] == t;
    }
  }

  lemma TimerWakes(s: State, t: nat)
    requires Inv(s) && t in DueNow(s.q.sleepers)
    ensures Refs(s) && TimerStep(s).Goes?
    ensures t in TimerStep(s).state.q.ready || TimerStep(s).state.current == t
  {
    hide Inv, Refs, Preempt, WakeDue, Tick, Decrement, DueNow;
    TickedReady(s);
    TimerOk(s);
    var s1 := Ticked(s).state;
    TimerEnd(s1);
    var more := SlicedAdvances(s1);
    assert t in s1.q.ready + more;
  }

  lemma SleeperStep(s: State, e: Trap, f: Frame, s': State, n: nat, t: nat, d: nat)
    requires Inv(s) && Refs(s) && Enabled(s, e, f) && Step(s, e, f) == Goes(s')
    requires SleepsFor(s.q.sleepers, n, t, d)
    ensures d >= 1
    ensures !e.Timer? ==> SleepsFor(s'.q.sleepers, n, t, d)
    ensures e.Timer? && d > 1 ==> SleepsFor(s'.q.sleepers, n, t, d - 1)
    ensures e.Timer? && d == 1 ==> t in s'.q.ready || s'.current == t
  {
    hide SleepsFor, Inv, Refs, Enabled, Insert, Tick, Grab, DueNow, Step;
    StepQueues(s, e, f, s');
    InvParts(s);
    TickSleeps(s.q.sleepers, n, t, d);
    if e.Timer? {
      if d == 1 { TimerReadies(s, f, s', t); }
    } else if e.Sleep? && e.time > 0 {
      SleeperFresh(s);
      TimeFits(s, e, f);
      InsertSleeps(s.q.sleepers, Sleeper(Grab(s.mem, 1, SleeperOf).value.1, s.current, e.time), n, t, d);
    }
  }

  lemma TimerReadies(s: State, f: Frame, s': State, t: nat)
    requires Inv(s) && Refs(s) && Enabled(s, Timer, f) && Step(s, Timer, f) == Goes(s') && t in DueNow(s.q.sleepers)
    ensures t in s'.q.ready || s'.current == t
  {
    hide Inv, Refs, DueNow, TimerStep;
    EnterOk(s, Timer, f);
    TimerWakes(Enter(s, Timer, f), t);
  }

  /** A block just allocated is no sleeper's record. */
  lemma SleeperFresh(s: State)
    requires Inv(s)
    ensures Grab(s.mem, 1, SleeperOf).Some? ==> Grab(s.mem, 1, SleeperOf).value.1 !in Nodes(s.q.sleepers)
  {
    hide Placed, Slices, Waiting, Grab, Owned, Modes;
    GrabOk(s.mem, 1, SleeperOf, s.blocks, Memory.IndexBlocks(s.blocks));
    var o := Grab(s.mem, 1, SleeperOf);
    assert RingOk(s.q, Asleep);
    assert forall n :: n in Nodes(s.q.sleepers) ==> n in RingOf(s.q, Asleep);
  }

  /** The call that puts the current thread to sleep sets it up for exactly the time it asked for. */
  lemma SleepCall(s: State, time: nat, behind: seq<int>, f: Frame, s': State)
    requires Inv(s) && Refs(s) && Enabled(s, Sleep(time, behind), f) && Step(s, Sleep(time, behind), f) == Goes(s')
             && time > 0
    ensures exists n :: SleepsFor(s'.q.sleepers, n, s.current, time)
  {
    hide SleepsFor, Inv, Refs, Insert, Grab;
    StepQueues(s, Sleep(time, behind), f, s');
    SleeperFresh(s);
    InvParts(s);
    FallsAsleep(s.q.sleepers, Sleeper(Grab(s.mem, 1, SleeperOf).value.1, s.current, time));
  }

  /** The timer trap at place i is the one after d - 1 others, and makes t ready. */
  ghost predicate WakesAt(st: seq<State>, evs: seq<(Trap, Frame)>, i: nat, t: nat, d: int) {
    && i < |evs| && |st| == |evs| + 1 && evs[i].0.Timer? && Timers(evs[..i]) == d - 1
    && (t in st[i + 1].q.ready || st[i + 1].current == t)
  }

  lemma WakesLater(st: seq<State>, evs: seq<(Trap, Frame)>, i: nat, t: nat, d: int)
    requires evs != [] && st != [] && WakesAt(st[1..], evs[1..], i, t, d)
    ensures WakesAt(st, evs, i + 1, t, if evs[0].0.Timer? then d + 1 else d)
  {
    assert evs[..i + 1][0] == evs[0] && evs[..i + 1][1..] == evs[1..][..i];
  }

  lemma StillSleeps(s: State, n: nat, t: nat, d: nat)
    requires Inv(s) && SleepsFor(s.q.sleepers, n, t, d)
    ensures d >= 1
  {
    InvParts(s);
    TickSleeps(s.q.sleepers, n, t, d);
  }

  /** In every run a thread with d ticks left to sleep sleeps through the first d - 1 timer traps,
      whatever else happens, and is made ready by the d-th. */
  lemma {:induction false} SleepsExactly(st: seq<State>, evs: seq<(Trap, Frame)>, n: nat, t: nat, d: nat)
    requires IsRun(st, evs) && SleepsFor(st[0].q.sleepers, n, t, d)
    ensures Timers(evs) < d ==> SleepsFor(st[|evs|].q.sleepers, n, t, d - Timers(evs))
    ensures Timers(evs) >= d ==> exists i: nat :: WakesAt(st, evs, i, t, d)
    decreases |evs|
  {
    hide SleepsFor, Inv, Refs, Enabled, Step, WakesAt;
    StillSleeps(st[0], n, t, d);
    if evs != [] {
      SleeperStep(st[0], evs[0].0, evs[0].1, st[1], n, t, d);
      RunTail(st, evs);
      if evs[0].0.Timer? && d == 1 {
        WakesFirst(st, evs, t);
      } else {
        var d' := if evs[0].0.Timer? then d - 1 else d;
        SleepsExactly(st[1..], evs[1..], n, t, d');
        if Timers(evs) >= d {
          var i: nat :| WakesAt(st[1..], evs[1..], i, t, d');
          WakesLater(st, evs, i, t, d');
        }
      }
    }
  }

  lemma WakesFirst(st: seq<State>, evs: seq<(Trap, Frame)>, t: nat)
    requires |st| == |evs| + 1 && evs != [] && evs[0].0.Timer? && (t in st[1].q.ready || st[1].current == t)
    ensures WakesAt(st, evs, 0, t, 1)
  {
    assert Timers(evs[..0]) == 0;
  }

  /* ---- the semaphores' accounts ---- */

  /** The waits and signals on semaphore h in a run, in order. */
  ghost function OpsOn(st: seq<State>, evs: seq<(Trap, Frame)>, h: nat): seq<Semaphores.Op>
    requires |st| == |evs| + 1
    decreases |evs|
  {
    if evs == [] then []
    else
      var n := |evs| - 1;
      var ops := OpsOn(st[..n + 1], evs[..n], h);
      match evs[n].0
      case SemWait(h') => if h' == h then ops + [WaitBy(st[n].current)] else ops
      case SemSignal(h') => if h' == h then ops + [Release] else ops
      case _ => ops
  }

  lemma RunInit(st: seq<State>, evs: seq<(Trap, Frame)>)
    requires IsRun(st, evs) && evs != []
    ensures IsRun(st[..|evs|], evs[..|evs| - 1])
  {
    hide Inv, Refs, Enabled, Step;
    var st', evs' := st[..|evs|], evs[..|evs| - 1];
    forall i | 0 <= i < |evs'|
      ensures Refs(st'[i]) && Enabled(st'[i], evs'[i].0, evs'[i].1)
      ensures Step(st'[i], evs'[i].0, evs'[i].1) == Goes(st'[i + 1])
    {
      assert st'[i] == st[i] && st'[i + 1] == st[i + 1] && evs'[i] == evs[i];
    }
  }

  /** What a trap other than its close does to semaphore h. */
  lemma SemStep(s: State, e: Trap, f: Frame, s': State, h: nat)
    requires Inv(s) && Refs(s) && Enabled(s, e, f) && Step(s, e, f) == Goes(s')
    requires h in s.q.sems && e != SemClose(h)
    ensures h in s'.q.sems
    ensures s'.q.sems[h]
         == if e == SemWait(h) then Wait(s.q.sems[h], s.current).0
            else if e == SemSignal(h) then Signal(s.q.sems[h]).0
            else s.q.sems[h]
  {
    hide Inv, Refs, Step, Wait, Signal, Tick, Insert, Grab;
    StepQueues(s, e, f, s');
  }

  /** Over a run that does not close h, the kernel's semaphore h is the one its waits and signals
      make of the initial one. */
  lemma {:induction false} SemFollows(st: seq<State>, evs: seq<(Trap, Frame)>, h: nat)
    requires IsRun(st, evs) && h in st[0].q.sems
    requires forall i :: 0 <= i < |evs| ==> evs[i].0 != SemClose(h)
    ensures h in st[|evs|].q.sems
    ensures st[|evs|].q.sems[h] == After(st[0].q.sems[h], OpsOn(st, evs, h))
    decreases |evs|
  {
    hide Inv, Refs, Enabled, Step, Wait, Signal;
    if evs != [] {
      var n := |evs| - 1;
      RunInit(st, evs);
      SemFollows(st[..n + 1], evs[..n], h);
      RunSafe(st, evs, n);
      SemStep(st[n], evs[n].0, evs[n].1, st[n + 1], h);
      var ops := OpsOn(st[..n + 1], evs[..n], h);
      LastOp(st[0].q.sems[h], ops, WaitBy(st[n].current));
      LastOp(st[0].q.sems[h], ops, Release);
    }
  }

  lemma LastOp(s: Sem, ops: seq<Semaphores.Op>, op: Semaphores.Op)
    ensures After(s, ops + [op]) == Do(After(s, ops), op)
  {
    assert (ops + [op])[..|ops|] == ops;
  }

  /** A line is never longer than there are threads. */
  lemma LineFits(s: State, h: nat)
    requires Inv(s) && h in s.q.sems
    ensures |s.q.sems[h].queue| <= MAX32
  {
    hide Core, Modes, Waiting, Refs;
    Basics(s);
    UsersFit(s);
    LineKnown(s, h);
    Sequences.DistinctSize(s.q.sems[h].queue, s.threads.Keys);
    assert |s.threads| == |s.threads.Keys|;
  }

  lemma LineKnown(s: State, h: nat)
    requires Core(s, Some(s.current)) && Refs(s) && h in s.q.sems
    ensures Sequences.Distinct(s.q.sems[h].queue) && forall t :: t in s.q.sems[h].queue ==> t in s.threads
  {
    assert RingOk(s.q, OnSem(h));
  }

  /** The one thing a caller has to watch: the account never exceeds what the counter can hold. */
  ghost predicate NoOverflow(init: int, ops: seq<Semaphores.Op>)
    decreases |ops|
  {
    init + Signals(ops) - Waits(ops) <= MAX32 && (ops != [] ==> NoOverflow(init, ops[..|ops| - 1]))
  }

  lemma {:induction false} StaysInRange(st: seq<State>, evs: seq<(Trap, Frame)>, h: nat, init: nat)
    requires IsRun(st, evs) && h in st[0].q.sems && st[0].q.sems[h] == Open(init)
    requires forall i :: 0 <= i < |evs| ==> evs[i].0 != SemClose(h)
    requires NoOverflow(init, OpsOn(st, evs, h))
    ensures InRange(init, OpsOn(st, evs, h))
    decreases |evs|
  {
    hide Inv, Refs, Enabled, Step, Wait, Signal, Counts;
    if evs != [] {
      var n := |evs| - 1;
      RunInit(st, evs);
      var ops := OpsOn(st[..n + 1], evs[..n], h);
      assert forall op: Semaphores.Op :: (ops + [op])[..|ops|] == ops;
      StaysInRange(st[..n + 1], evs[..n], h, init);
      SemFollows(st[..n + 1], evs[..n], h);
      Accounting(init, ops);
      RunSafe(st, evs, n);
      LineFits(st[n], h);
      CountsLow(st[n].q.sems[h]);
    }
  }

  lemma CountsLow(s: Sem)
    requires Counts(s)
    ensures s.val < 0 ==> |s.queue| == -s.val
  {
  }

  /** So the kernel's counters account for every wait and signal since a semaphore was opened, as
      long as no counter overflows; underflow there is none, memory being too small for the threads. */
  lemma SemAccount(st: seq<State>, evs: seq<(Trap, Frame)>, h: nat, init: nat)
    requires IsRun(st, evs) && h in st[0].q.sems && st[0].q.sems[h] == Open(init)
    requires forall i :: 0 <= i < |evs| ==> evs[i].0 != SemClose(h)
    requires NoOverflow(init, OpsOn(st, evs, h))
    ensures var ops := OpsOn(st, evs, h);
            && h in st[|evs|].q.sems
            && var s := st[|evs|].q.sems[h];
               && s.val == init + Signals(ops) - Waits(ops)
               && |s.queue| == (if s.val < 0 then -s.val else 0)
               && Waits(ops) - |s.queue| <= init + Signals(ops)
               && (s.val < MAX32 ==> Signal(s).2 == 0)
  {
    SemFollows(st, evs, h);
    StaysInRange(st, evs, h, init);
    Accounting(init, OpsOn(st, evs, h));
    if st[|evs|].q.sems[h].val < MAX32 { SignalCounts(st[|evs|].q.sems[h]); }
  }

  /** A signal on such a semaphore returns zero to its caller: in no run does it find a negative
      counter and nobody in line. */
  lemma SignalAnswers(st: seq<State>, evs: seq<(Trap, Frame)>, h: nat, init: nat, f: Frame)
    requires IsRun(st, evs) && h in st[0].q.sems && st[0].q.sems[h] == Open(init)
    requires forall i :: 0 <= i < |evs| ==> evs[i].0 != SemClose(h)
    requires NoOverflow(init, OpsOn(st, evs, h) + [Release])
    requires Refs(st[|evs|]) && Enabled(st[|evs|], SemSignal(h), f)
    ensures var o := Step(st[|evs|], SemSignal(h), f); o.Goes? && f.sp in o.state.a0 && o.state.a0[f.sp] == 0
  {
    hide Inv, Refs, Enabled, Step, Signal, Signals, Waits;
    var ops := OpsOn(st, evs, h);
    assert (ops + [Release])[..|ops|] == ops;
    OneMore(ops);
    SemAccount(st, evs, h, init);
    RunSafe(st, evs, |evs|);
    SignalCall(st[|evs|], h, f);
  }

  lemma SignalCall(s: State, h: nat, f: Frame)
    requires Inv(s) && Refs(s) && Enabled(s, SemSignal(h), f)
    ensures var o := Step(s, SemSignal(h), f);
            o.Goes? && f.sp in o.state.a0 && h in s.q.sems && o.state.a0[f.sp] == Signal(s.q.sems[h]).2
  {
    hide Inv, Refs, Signal, SemSignalStep;
    EnterOk(s, SemSignal(h), f);
    SignalTells(Enter(s, SemSignal(h), f), h);
  }

  lemma OneMore(ops: seq<Semaphores.Op>)
    ensures Signals(ops + [Release]) == Signals(ops) + 1 && Waits(ops + [Release]) == Waits(ops)
  {
    assert (ops + [Release])[..|ops|] == ops;
  }

  /** The caller of a signal gets the result that `Signal` says. */
  lemma SignalTells(s: State, h: nat)
    requires Inv(s) && h in s.q.sems
    ensures Refs(s) && SemSignalStep(s, h).Goes?
    ensures var a0' := SemSignalStep(s, h).state.a0; s.csr.sp in a0' && a0'[s.csr.sp] == Signal(s.q.sems[h]).2
  {
    hide Core, Modes, Waiting, Refs, Unblock;
    Basics(s);
    SignalOk(s, h);
    var v := Wrap32(s.q.sems[h].val + 1);
    var s1 := s.(q := SetVal(s.q, h, v));
    SetValCore(s, h, v);
    Basics(s1);
    if v <= 0 && s.q.sems[h].queue != [] { SameProcessor(s1, h); }
  }

  lemma SameProcessor(s: State, h: nat)
    requires Refs(s) && h in s.q.sems && s.q.sems[h].queue != []
    ensures Unblock(s, OnSem(h), 0).csr == s.csr
  {
  }

  /** Thread t is at place k of the line, and the counter counts the line. */
  ghost predicate InLine(s: Sem, k: int, t: nat) { Counts(s) && 0 <= k < |s.queue| && s.queue[k] == t }

  /** Waits leave a place in the line alone; a signal brings it one further up. */
  lemma LineMoves(s: Sem, k: nat, t: nat, c: nat)
    requires InLine(s, k, t) && |s.queue| <= MAX32
    ensures InLine(Wait(s, c).0, k, t)
    ensures k > 0 ==> InLine(Signal(s).0, k - 1, t)
  {
    WaitCounts(s, c);
    SignalCounts(s);
  }

  /** In every run a thread in line comes up by one place with every signal. */
  lemma {:induction false} LineFollows(st: seq<State>, evs: seq<(Trap, Frame)>, h: nat, k: nat, t: nat)
    requires IsRun(st, evs) && h in st[0].q.sems && InLine(st[0].q.sems[h], k, t)
    requires forall i :: 0 <= i < |evs| ==> evs[i].0 != SemClose(h)
    requires Signals(OpsOn(st, evs, h)) <= k
    ensures h in st[|evs|].q.sems && InLine(st[|evs|].q.sems[h], k - Signals(OpsOn(st, evs, h)), t)
    decreases |evs|
  {
    hide Inv, Refs, Enabled, Step, Wait, Signal, InLine, Signals;
    if evs == [] {
      NoSignals();
    } else {
      var n := |evs| - 1;
      RunInit(st, evs);
      var ops := OpsOn(st[..n + 1], evs[..n], h);
      SignalsPush(ops, WaitBy(st[n].current));
      SignalsPush(ops, Release);
      LineFollows(st[..n + 1], evs[..n], h, k, t);
      RunSafe(st, evs, n);
      SemStep(st[n], evs[n].0, evs[n].1, st[n + 1], h);
      LineFits(st[n], h);
      LineMoves(st[n].q.sems[h], k - Signals(ops), t, st[n].current);
    }
  }

  lemma NoSignals()
    ensures Signals([]) == 0
  {
  }

  lemma SignalsPush(ops: seq<Semaphores.Op>, op: Semaphores.Op)
    ensures Signals(ops + [op]) == Signals(ops) + if op.Release? then 1 else 0
  {
    assert (ops + [op])[..|ops|] == ops;
  }

  /** So in every run the thread at place k of a line is the one that the (k + 1)-th signal from now
      makes ready. */
  lemma SemInTurn(st: seq<State>, evs: seq<(Trap, Frame)>, h: nat, k: nat, f: Frame, s': State)
    requires IsRun(st, evs) && h in st[0].q.sems && Counts(st[0].q.sems[h]) && k < |st[0].q.sems[h].queue|
    requires forall i :: 0 <= i < |evs| ==> evs[i].0 != SemClose(h)
    requires Signals(OpsOn(st, evs, h)) == k
    requires Refs(st[|evs|]) && Enabled(st[|evs|], SemSignal(h), f) && Step(st[|evs|], SemSignal(h), f) == Goes(s')
    ensures s'.q.ready == st[|evs|].q.ready + [st[0].q.sems[h].queue[k]]
  {
    hide Inv, Refs, Enabled, Step;
    LineFollows(st, evs, h, k, st[0].q.sems[h].queue[k]);
    RunSafe(st, evs, |evs|);
    SignalReadies(st[|evs|], h, f, s');
  }

  lemma SignalReadies(s: State, h: nat, f: Frame, s': State)
    requires Inv(s) && Refs(s) && Enabled(s, SemSignal(h), f) && Step(s, SemSignal(h), f) == Goes(s')
    requires h in s.q.sems && Counts(s.q.sems[h]) && s.q.sems[h].queue != []
    ensures s'.q.ready == s.q.ready + [s.q.sems[h].queue[0]]
  {
    hide Inv, Refs;
    EnterOk(s, SemSignal(h), f);
    SignalCounts(s.q.sems[h]);
    SignalQueues(Enter(s, SemSignal(h), f), h);
  }
}
