/** What each call does for its caller, and how long a thread has the processor: what follows for
    the user of the kernel from the laws about its traps. */
module Calls {
  import opened Options
  import opened Words
  import Runs
  import opened DeltaQueue
  import Semaphores
  import opened ThreadQueues
  import opened Ownership
  import opened Machine
  import opened Safety
  import opened Executions
  import opened Effects

  lemma Room(s: State, e: Trap)
    ensures Granted(s, e) <==> Wanted(e) > 0 && Runs.CanAlloc(s.mem.runs, Wanted(e))
  {
  }

  /** A call that wakes nobody and does not switch leaves threads, processor and ready ring alone. */
  lemma Undisturbed(s: State, e: Trap, f: Frame, s': State)
    requires Refs(s) && Enabled(s, e, f) && Lawful(s, e, f, s')
    requires Joins(s, e) == [] && !Leaves(s, e) && !e.Timer? && !e.ThreadExit?
    requires e.ThreadCreate? ==> !Granted(s, e)
    ensures s'.threads == s.threads && s'.current == s.current && s'.q.ready == s.q.ready
  {
    hide Refs, Enabled, Answers, Keeps, Counted, Queued, Buffered, Joins, Leaves;
    assert s.q.ready + [] == s.q.ready;
    assert s'.threads.Keys == s.threads.Keys;
    forall t | t in s.threads ensures s'.threads[t] == s.threads[t] {
      assert s'.threads[t].frame == s.threads[t].frame;
    }
  }

  /** Where no allocation was, n blocks are the caller's now, and its result is their address.  With no
      free run that large it gets the null pointer, and the heap is what it was. */
  lemma AllocAnswers(s: State, n: nat, behind: seq<int>, f: Frame, s': State)
    requires Inv(s) && f.sepc < TWO64 && Refs(s) && Enabled(s, MemAlloc(n, behind), f)
    requires Step(s, MemAlloc(n, behind), f) == Goes(s')
    ensures if Runs.CanAlloc(s.mem.runs, n)
            then exists b: nat :: b !in s.mem.uses && Runs.Live(s'.mem.runs) == Runs.Live(s.mem.runs)[b := n]
                   && s'.a0 == s.a0[f.sp := s.base + 64 * b]
            else s'.mem == s.mem && s'.a0 == s.a0[f.sp := 0]
    ensures s'.threads == s.threads && s'.current == s.current && s'.q.ready == s.q.ready
  {
    hide Inv, Refs, Step, Runs.CanAlloc, Runs.FirstFit, Runs.Start, Runs.Live;
    var e := MemAlloc(n, behind);
    StepLawful(s, e, f, s');
    Room(s, e);
    Undisturbed(s, e, f, s');
    hide Granted, Grant;
  }

  /** A new thread's record: at the wrapper, in user mode, below the top of its stack. */
  function NewTcb(s: State, stack: nat, f: Frame): Tcb
    requires stack >= 4096
  {
    Tcb(Frame(s.wrapper, f.sstatus.(kernel := false), stack - 256), stack - 4088, 2)
  }

  /** A new thread starts in user mode at the wrapper, which finds `start` where it looks for its
      argument, at the top of the stack given, and lines up with a whole slice. */
  lemma CreateAnswers(s: State, start: int, stack: nat, behind: seq<int>, f: Frame, s': State)
    requires Inv(s) && f.sepc < TWO64 && Refs(s) && Enabled(s, ThreadCreate(start, stack, behind), f)
    requires Step(s, ThreadCreate(start, stack, behind), f) == Goes(s')
    ensures stack >= 4096
    ensures if Runs.CanAlloc(s.mem.runs, 1)
            then exists t: nat :: t !in s.threads
                   && s'.threads == s.threads[t := NewTcb(s, stack, f)]
                   && s'.q.ready == s.q.ready + [t] && s'.a0 == s.a0[stack - 256 := start][f.sp := 0]
            else s'.threads == s.threads && s'.q.ready == s.q.ready && s'.a0 == s.a0[f.sp := -1]
    ensures s'.current == s.current
  {
    hide Inv, Step, Runs.CanAlloc, Runs.FirstFit, Runs.Start, Runs.Live;
    var e := ThreadCreate(start, stack, behind);
    StepLawful(s, e, f, s');
    Room(s, e);
    PlaceFree(s, e);
    if Granted(s, e) {
      CreateThreads(s, e, f, s');
    } else {
      Undisturbed(s, e, f, s');
    }
  }

  lemma PlaceFree(s: State, e: Trap)
    requires Inv(s) && (e.ThreadCreate? || e.SemOpen?)
    ensures Granted(s, e) ==> Grant(s, e) !in s.threads && Grant(s, e) !in s.q.sems && Grant(s, e) !in s.mem.uses
  {
    hide Core, Waiting, Modes, Received, Grab, Runs.FirstFit, Runs.Start, Gains;
    GrabFresh(s, ThreadOf);
    GrabGives(s, 1, ThreadOf);
    if Granted(s, e) { GainsFree(s.mem, Grab(s.mem, 1, ThreadOf).value.0, Grant(s, e), 1); }
  }

  lemma GainsFree(m: Mem, m': Mem, b: nat, n: nat)
    requires Gains(m, m', b, n)
    ensures b !in m.uses
  {
  }

  lemma CreateThreads(s: State, e: Trap, f: Frame, s': State)
    requires Refs(s) && Enabled(s, e, f) && Lawful(s, e, f, s') && e.ThreadCreate? && Granted(s, e)
    requires Grant(s, e) !in s.threads
    ensures e.stack >= 4096
    ensures s'.threads == s.threads[Grant(s, e) := NewTcb(s, e.stack, f)]
    ensures s'.q.ready == s.q.ready + [Grant(s, e)] && s'.current == s.current
  {
    hide Answers, Keeps, Counted, Queued, Buffered, Refs, Runs.FirstFit, Runs.Start;
    var b := Grant(s, e);
    assert Joins(s, e) == [b];
    var t := NewTcb(s, e.stack, f);
    assert s'.threads.Keys == s.threads[b := t].Keys;
    forall u | u in s'.threads ensures s'.threads[u] == s.threads[b := t][u] {
      assert s'.threads[u].frame == s.threads[b := t][u].frame;
    }
  }

  /** A new semaphore is a record nobody had, and its caller is told that there is one. */
  lemma OpenAnswers(s: State, init: nat, behind: seq<int>, f: Frame, s': State)
    requires Inv(s) && f.sepc < TWO64 && Refs(s) && Enabled(s, Trap.SemOpen(init, behind), f)
    requires Step(s, Trap.SemOpen(init, behind), f) == Goes(s')
    ensures if Runs.CanAlloc(s.mem.runs, 1)
            then exists h: nat :: h !in s.q.sems && h !in s.mem.uses
                   && s'.q.sems == s.q.sems[h := Semaphores.Sem(Semaphores.Wrap32(init), [])]
                   && s'.opens == s.opens + 1 && s'.a0 == s.a0[f.sp := 0]
            else s'.q.sems == s.q.sems && s'.opens == s.opens && s'.a0 == s.a0[f.sp := -1]
    ensures s'.threads == s.threads && s'.current == s.current && s'.q.ready == s.q.ready
  {
    hide Inv, Refs, Step, Runs.CanAlloc, Runs.FirstFit, Runs.Start, Runs.Live, Semaphores.Wrap32;
    var e := Trap.SemOpen(init, behind);
    StepLawful(s, e, f, s');
    Room(s, e);
    PlaceFree(s, e);
    Undisturbed(s, e, f, s');
    hide Granted, Grant;
  }

  /** A wait takes one off the counter.  If there was one it returns 0 to its caller, who goes on; if
      not, the caller is told nothing yet and is last in line, and the processor goes to the next. */
  lemma WaitAnswers(s: State, h: nat, f: Frame, s': State)
    requires Inv(s) && f.sepc < TWO64 && Refs(s) && Enabled(s, Trap.SemWait(h), f)
    requires Step(s, Trap.SemWait(h), f) == Goes(s')
    requires h in s.q.sems && -0x8000_0000 < s.q.sems[h].val <= 0x7fff_ffff
    ensures s.q.sems[h].val > 0 ==>
              && s'.a0 == s.a0[f.sp := 0] && s'.current == s.current && s'.q.ready == s.q.ready
              && s'.q.sems == s.q.sems[h := Semaphores.Sem(s.q.sems[h].val - 1, s.q.sems[h].queue)]
    ensures s.q.sems[h].val <= 0 ==>
              && s'.a0 == s.a0
              && s'.q.sems
                 == s.q.sems[h := Semaphores.Sem(s.q.sems[h].val - 1, s.q.sems[h].queue + [s.current])]
              && s'.current == (if s.q.ready == [] then s.idle else s.q.ready[0])
              && s'.q.ready == (if s.q.ready == [] then [] else s.q.ready[1..])
  {
    hide Inv, Refs, Step;
    var e := Trap.SemWait(h);
    StepLawful(s, e, f, s');
    hide Keeps, Counted, Buffered, Timed, Saved;
    assert s.q.ready + [] == s.q.ready;
  }

  /** A signal adds one to the counter.  It lets the first in line go, if the counter says that there is
      a line: that thread is told 0 and lines up with a whole slice, and the caller is told 0.  Only a
      counter that says so falsely makes it return -1. */
  lemma SignalReturns(s: State, h: nat, f: Frame, s': State)
    requires Inv(s) && f.sepc < TWO64 && Refs(s) && Enabled(s, Trap.SemSignal(h), f)
    requires Step(s, Trap.SemSignal(h), f) == Goes(s')
    requires h in s.q.sems && -0x8000_0000 <= s.q.sems[h].val < 0x7fff_ffff
    ensures s'.current == s.current
    ensures s.q.sems[h].val >= 0 ==> s'.a0 == s.a0[f.sp := 0] && s'.threads == s.threads && s'.q.ready == s.q.ready
    ensures s.q.sems[h].val < 0 && s.q.sems[h].queue != [] ==>
              var t := s.q.sems[h].queue[0];
              && t in s.threads && s'.a0 == s.a0[s.threads[t].frame.sp := 0][f.sp := 0]
              && s'.threads == s.threads[t := s.threads[t].(timeLeft := 2)] && s'.q.ready == s.q.ready + [t]
    ensures s.q.sems[h].val < 0 && s.q.sems[h].queue == [] ==>
              s'.a0 == s.a0[f.sp := -1] && s'.threads == s.threads && s'.q.ready == s.q.ready
  {
    hide Inv, Step;
    var e := Trap.SemSignal(h);
    StepLawful(s, e, f, s');
    var val, line := s.q.sems[h].val, s.q.sems[h].queue;
    if val < 0 && line != [] {
      ToldOne(s.a0, s.threads, line[0], 0);
      SignalThreads(s, e, f, s', line[0]);
    } else {
      Undisturbed(s, e, f, s');
    }
  }

  lemma SignalThreads(s: State, e: Trap, f: Frame, s': State, t: nat)
    requires Refs(s) && Enabled(s, e, f) && Lawful(s, e, f, s') && e.SemSignal? && Joins(s, e) == [t]
    requires t in s.threads
    ensures s'.threads == s.threads[t := s.threads[t].(timeLeft := 2)]
    ensures s'.q.ready == s.q.ready + [t] && s'.current == s.current
  {
    hide Refs, Enabled, Answers, Keeps, Counted, Queued, Buffered, Joins;
    assert s'.threads.Keys == s.threads.Keys;
    forall u | u in s.threads ensures s'.threads[u] == s.threads[t := s.threads[t].(timeLeft := 2)][u] {
      assert s'.threads[u].frame == s.threads[u].frame;
    }
  }

  /** A sleeper is told 0 at once, and gives the processor to the next unless it asked for no time. */
  lemma SleepAnswers(s: State, time: nat, behind: seq<int>, f: Frame, s': State)
    requires Inv(s) && f.sepc < TWO64 && Refs(s) && Enabled(s, Sleep(time, behind), f)
    requires Step(s, Sleep(time, behind), f) == Goes(s')
    ensures s'.a0 == s.a0[f.sp := 0]
    ensures time == 0 ==> s'.current == s.current && s'.q.ready == s.q.ready && s'.q.sleepers == s.q.sleepers
    ensures time > 0 ==>
              && s'.current == (if s.q.ready == [] then s.idle else s.q.ready[0])
              && s'.q.ready == (if s.q.ready == [] then [] else s.q.ready[1..])
              && exists b: nat :: b !in s.mem.uses && s'.q.sleepers == Insert(s.q.sleepers, Sleeper(b, s.current, time))
  {
    hide Inv, Refs, Step, Insert, Runs.FirstFit, Runs.Start, Runs.Live;
    var e := Sleep(time, behind);
    StepLawful(s, e, f, s');
    assert s.q.ready + [] == s.q.ready;
    if time > 0 { SleepPlace(s, e, f, s'); }
  }

  lemma SleepPlace(s: State, e: Trap, f: Frame, s': State)
    requires Inv(s) && Refs(s) && Enabled(s, e, f) && Step(s, e, f) == Goes(s') && e.Sleep? && e.time > 0
    ensures Granted(s, e) && Grant(s, e) !in s.mem.uses
  {
    hide Inv, Grab, Runs.FirstFit, Runs.Start, Gains, IsFreshStack;
    EnterOk(s, e, f);
    GrabGives(s, 1, SleeperOf);
    GainsFree(s.mem, Grab(s.mem, 1, SleeperOf).value.0, Grant(s, e), 1);
  }

  /** A dispatch puts its caller last in line and runs the first in line, with two whole ticks. */
  lemma DispatchSwitches(s: State, f: Frame, s': State)
    requires Inv(s) && f.sepc < TWO64 && Refs(s) && Enabled(s, Dispatch, f) && Step(s, Dispatch, f) == Goes(s')
    ensures s'.current == (s.q.ready + [s.current])[0] && s'.q.ready == (s.q.ready + [s.current])[1..]
    ensures s'.a0 == s.a0 && s'.current in s'.threads && s'.threads[s'.current].timeLeft == 2
  {
    hide Inv, Refs, Step, Keeps, Counted, Queued, Buffered;
    StepLawful(s, Dispatch, f, s');
    WholeSlice(s, Dispatch, f, s');
  }

  /** Nothing is left of a thread that exits: its record and its stack are free again, and the
      processor goes to the next in line. */
  lemma ExitReleases(s: State, f: Frame, s': State)
    requires Inv(s) && f.sepc < TWO64 && Refs(s) && Enabled(s, ThreadExit, f) && Step(s, ThreadExit, f) == Goes(s')
    ensures s.threads[s.current].bp >= s.base && s'.users == s.users - 1
    ensures s'.threads.Keys == s.threads.Keys - {s.current}
    ensures Runs.Live(s'.mem.runs)
         == Runs.Live(s.mem.runs) - {s.current, (s.threads[s.current].bp - s.base) / 64}
    ensures s'.current == (if s.q.ready == [] then s.idle else s.q.ready[0])
    ensures s'.q.ready == (if s.q.ready == [] then [] else s.q.ready[1..])
  {
    hide Inv, Refs, Step, Answers, Queued, Buffered, Runs.Live;
    StepLawful(s, ThreadExit, f, s');
    assert s.q.ready + [] == s.q.ready;
  }

  /* ---- a time slice lasts two ticks ---- */

  /** Whoever gets the processor out of the ready ring has two ticks left. */
  lemma WholeSlice(s: State, e: Trap, f: Frame, s': State)
    requires Inv(s) && f.sepc < TWO64 && Refs(s) && Enabled(s, e, f) && Step(s, e, f) == Goes(s')
    requires Leaves(s, e) && s.q.ready + Joins(s, e) != []
    ensures s'.current in s'.threads && s'.threads[s'.current].timeLeft == 2
  {
    hide Inv, Step, Joins, Leaves, Enabled, Core, Answers, Keeps, Counted, Queued, Buffered;
    StepLawful(s, e, f, s');
    InvParts(s);
    StepOk(s, e, f);
    InvParts(s');
    Basics(s');
    ReadyWhole(s);
    EnabledSem(s, e, f);
    var line := s.q.ready + Joins(s, e);
    assert s'.current == line[0] && (line[0] in s.q.ready || line[0] in Joins(s, e));
  }

  lemma ReadyWhole(s: State)
    requires Core(s, Some(s.current))
    ensures forall t :: t in s.q.ready && t in s.threads ==> s.threads[t].timeLeft == 2
    ensures s.current !in s.q.ready
  {
    hide Owned, Belongs;
    assert RingOk(s.q, Ready) && RingOf(s.q, Ready) == s.q.ready;
  }

  /** A thread that does not itself give the processor away keeps it until its ticks are used up. */
  lemma {:induction false} KeepsProcessor(st: seq<State>, evs: seq<(Trap, Frame)>)
    requires IsRun(st, evs)
    requires forall i :: 0 <= i < |evs| ==> !GivesUp(st[i], evs[i].0)
    requires st[0].current in st[0].threads && Timers(evs) < st[0].threads[st[0].current].timeLeft
    ensures var (t, s) := (st[0].current, st[|evs|]);
            s.current == t && t in s.threads && s.threads[t].timeLeft + Timers(evs) == st[0].threads[t].timeLeft
    decreases |evs|
  {
    hide Inv, Refs, Step, Enabled, Joins, Leaves, GivesUp;
    if evs != [] {
      assert !GivesUp(st[0], evs[0].0);
      StayStep(st[0], evs[0].0, evs[0].1, st[1]);
      RunTail(st, evs);
      forall i | 0 <= i < |evs[1..]| ensures !GivesUp(st[1..][i], evs[1..][i].0) {
        assert !GivesUp(st[i + 1], evs[i + 1].0);
      }
      KeepsProcessor(st[1..], evs[1..]);
    }
  }

  /** The traps other than the timer's at which the running thread leaves the processor. */
  ghost predicate GivesUp(s: State, e: Trap) {
    || e.ThreadExit? || e.Dispatch? || e.KernelDispatch? || (e.Sleep? && e.time > 0) || (e.Getc? && s.rx == [])
    || (e.Putc? && e.full) || (e.SemWait? && e.sem in s.q.sems && Semaphores.Wait(s.q.sems[e.sem], s.current).1)
  }

  lemma StayStep(s: State, e: Trap, f: Frame, s': State)
    requires Inv(s) && Refs(s) && Enabled(s, e, f) && Step(s, e, f) == Goes(s') && !GivesUp(s, e)
    requires s.current in s.threads && s.threads[s.current].timeLeft > if e.Timer? then 1 else 0
    ensures s'.current == s.current && s'.current in s'.threads
    ensures s'.threads[s.current].timeLeft + (if e.Timer? then 1 else 0) == s.threads[s.current].timeLeft
  {
    hide Inv, Refs, Step, Joins, Semaphores.Wait;
    StepAdvances(s, e, f);
  }
}
