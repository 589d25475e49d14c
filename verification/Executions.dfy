/** Properties of whole runs of the kernel: any sequence of traps, from any state the
    invariant admits. */
module Executions {
  import opened Options
  import opened Words
  import Runs
  import opened DeltaQueue
  import Semaphores
  import opened ThreadQueues
  import Ownership
  import opened Machine
  import opened Safety
  import opened Startup

  /* ---- registers come back as they were left ---- */

  /** Where thread t is in its program: in the processor if it runs, else in its record. */
  function FrameOf(s: State, t: nat): Frame
    requires t in s.threads
  {
    if t == s.current then s.csr else s.threads[t].frame
  }

  ghost predicate FramesKept(s: State, s': State) {
    forall t :: t in s.threads && t in s'.threads ==> FrameOf(s', t) == FrameOf(s, t)
  }

  lemma SwitchFrames(s: State)
    requires Refs(s)
    ensures FramesKept(s, Switch(s)) && Switch(s).threads.Keys == s.threads.Keys
  {
  }

  lemma QuietFrames(s: State, s': State)
    requires Quiet(s, s')
    ensures FramesKept(s, s') && s'.threads.Keys == s.threads.Keys
  {
  }

  lemma FramesTrans(s: State, s1: State, s2: State)
    requires FramesKept(s, s1) && FramesKept(s1, s2) && s1.threads.Keys >= s.threads.Keys
    ensures FramesKept(s, s2)
  {
  }

  lemma PreemptFrames(s: State)
    requires Refs(s)
    ensures FramesKept(s, Preempt(s)) && Preempt(s).threads.Keys == s.threads.Keys
  {
    var s1 := Refill(s.(q := Enqueue(s.q, Ready, s.current)), s.current);
    assert FramesKept(s, s1) && s1.threads.Keys == s.threads.Keys;
    SwitchFrames(s1);
    hide Switch;
    FramesTrans(s, s1, Switch(s1));
  }

  lemma BlockFrames(s: State, r: Ring)
    requires Refs(s) && (r == Input || (r.OnSem? && r.sem in s.q.sems))
    ensures FramesKept(s, BlockOn(s, r)) && BlockOn(s, r).threads.Keys == s.threads.Keys
  {
    var s1 := s.(q := Enqueue(s.q, r, s.current));
    SwitchFrames(s1);
    hide Switch;
    FramesTrans(s, s1, Switch(s1));
  }

  /** Where the interrupted thread is to go on: behind its call, or at it again if `putc` found
      no room. */
  function Resume(e: Trap, f: Frame): Frame {
    if e.Timer? || e.Console? || e.OtherDevice? || (e.Putc? && e.full) then f
    else f.(sepc := (f.sepc + 4) % TWO64)
  }

  lemma WokeQuiet(s: State, s': State)
    requires Woke(s.(q := s.q.(sleepers := Decrement(s.q.sleepers))), s')
    ensures Quiet(s, s')
  {
  }

  lemma TimerFrames(s: State)
    requires Inv(s)
    ensures Refs(s) && TimerStep(s).Goes? && FramesKept(s, TimerStep(s).state)
    ensures TimerStep(s).state.threads.Keys == s.threads.Keys
  {
    hide Inv, Preempt, Refs, Woke;
    TickedOk(s);
    TimerOk(s);
    var s1 := Ticked(s).state;
    WokeQuiet(s, s1);
    TimerEnd(s1);
    QuietFrames(s, s1);
    var s2 := SetTime(s1, s1.current, s1.threads[s1.current].timeLeft - 1);
    assert FramesKept(s1, s2) && s2.threads.Keys == s1.threads.Keys;
    FramesTrans(s, s1, s2);
    PreemptFrames(s2);
    FramesTrans(s, s2, Preempt(s2));
  }

  /** The threads that trap e leaves alive. */
  function Staying(s: State, e: Trap): set<nat> { s.threads.Keys - if e.ThreadExit? then {s.current} else {} }

  /** From the registers at trap entry: all kept, but a full `putc` steps back; new threads are
      set up to start; and nobody goes but a thread that exits. */
  ghost predicate Carried(s: State, s': State, e: Trap, f: Frame) {
    && Staying(s, e) <= s'.threads.Keys
    && (forall t :: t in s.threads && t in s'.threads ==>
          FrameOf(s', t) == if t == s.current then Resume(e, f) else FrameOf(s, t))
    && (forall t :: t in s'.threads && t !in s.threads ==>
          e.ThreadCreate? && e.stack >= CONTEXT_SIZE
            && FrameOf(s', t) == Frame(s.wrapper, f.sstatus.(kernel := false), e.stack - CONTEXT_SIZE))
  }

  lemma CarriedIfKept(s: State, s': State, e: Trap, f: Frame)
    requires FramesKept(Enter(s, e, f), s') && s'.threads.Keys == Staying(s, e)
    requires !(e.Putc? && e.full)
    ensures Carried(s, s', e, f)
  {
  }

  /** Each trap moves only the interrupted thread on in its program; every other thread keeps
      its registers, whether they sit in the processor or in its record, and a new thread starts
      at the wrapper, in user mode, below the top of its stack.  So a thread that gets the
      processor back finds exactly the registers it left. */
  lemma StepFrames(s: State, e: Trap, f: Frame)
    requires Inv(s) && Enabled(s, e, f) && f.sepc < TWO64
    ensures Refs(s) && (Step(s, e, f).Goes? ==> Carried(s, Step(s, e, f).state, e, f))
  {
    hide Inv, Refs, TimerStep, ConsoleStep, MemAllocStep, CreateStep, ExitStep, SemOpenStep, SemCloseStep,
      SemWaitStep, SemSignalStep, SleepStep, GetcStep, PutcStep, KernelDispatchStep, Preempt, FramesKept,
      Carried, IsFreshStack;
    EnterOk(s, e, f);
    var s0 := Enter(s, e, f);
    if Step(s, e, f).Goes? {
      var s' := Step(s, e, f).state;
      match e {
        case Timer => TimerFrames(s0); CarriedIfKept(s, s', e, f);
        case Console(bytes) => ConsoleFrames(s0, bytes); CarriedIfKept(s, s', e, f);
        case MemAlloc(n, _) =>
          AllocSimple(s0, n);
          SimpleFrames(s0, s');
          CarriedIfKept(s, s', e, f);
        case ThreadCreate(start, stack, _) =>
          CreateFrames(s0, start, stack);
          CreateCarried(s, e, f, s');
        case ThreadExit => ExitFrames(s0); CarriedIfKept(s, s', e, f);
        case Dispatch => PreemptFrames(s0); CarriedIfKept(s, s', e, f);
        case SemOpen(init, _) =>
          OpenSimple(s0, init);
          SimpleFrames(s0, s');
          CarriedIfKept(s, s', e, f);
        case SemClose(h) => CloseFrames(s0, h); CarriedIfKept(s, s', e, f);
        case SemWait(h) => WaitFrames(s0, h); CarriedIfKept(s, s', e, f);
        case SemSignal(h) => SignalFrames(s0, h); CarriedIfKept(s, s', e, f);
        case Sleep(time, _) => SleepFrames(s0, time); CarriedIfKept(s, s', e, f);
        case Getc => GetcFrames(s0); CarriedIfKept(s, s', e, f);
        case Putc(full) =>
          PutcFrames(s0, full, f);
          PutcCarried(s, e, f, s');
        case KernelDispatch => KernelFrames(s0); CarriedIfKept(s, s', e, f);
        case _ => SimpleFrames(s0, s'); CarriedIfKept(s, s', e, f);
      }
    }
  }

  /** Allocating and opening a semaphore leave threads, queues of threads and processor alone. */
  lemma AllocSimple(s: State, n: nat)
    ensures var s' := MemAllocStep(s, n);
            s'.threads == s.threads && s'.q == s.q && s'.csr == s.csr && s'.current == s.current && s'.rx == s.rx
  {
  }

  lemma OpenSimple(s: State, init: nat)
    ensures var s' := SemOpenStep(s, init);
            s'.threads == s.threads && s'.q.ready == s.q.ready && s'.csr == s.csr && s'.current == s.current
  {
  }

  lemma CreateCarried(s: State, e: Trap, f: Frame, s': State)
    requires e.ThreadCreate? && IsFreshStack(Enter(s, e, f), e.stack) && FramesKept(Enter(s, e, f), s')
    requires s.threads.Keys <= s'.threads.Keys
    requires forall t :: t in s'.threads && t !in s.threads ==>
               FrameOf(s', t) == Frame(s.wrapper, f.sstatus.(kernel := false), e.stack - CONTEXT_SIZE)
    ensures Carried(s, s', e, f)
  {
  }

  lemma PutcCarried(s: State, e: Trap, f: Frame, s': State)
    requires e.Putc? && s'.threads.Keys == s.threads.Keys && s.current in s.threads
    requires forall t :: t in s.threads ==>
               FrameOf(s', t) == if t == s.current && e.full then f else FrameOf(Enter(s, e, f), t)
    ensures Carried(s, s', e, f)
  {
  }

  lemma SimpleFrames(s: State, s': State)
    requires s'.threads == s.threads && s'.csr == s.csr && s'.current == s.current
    ensures FramesKept(s, s')
  {
  }

  lemma ConsoleFrames(s: State, bytes: seq<int>)
    requires Inv(s)
    ensures Refs(s) && FramesKept(s, ConsoleStep(s, bytes)) && ConsoleStep(s, bytes).threads.Keys == s.threads.Keys
  {
    hide Inv, Refs, Quiet, FramesKept, ConsoleStep;
    ConsoleOk(s, bytes);
    QuietFrames(s, ConsoleStep(s, bytes));
  }

  lemma CreateFrames(s: State, start: int, stack: nat)
    requires Inv(s) && IsFreshStack(s, stack)
    ensures Refs(s)
    ensures var s' := CreateStep(s, start, stack);
            && FramesKept(s, s') && s.threads.Keys <= s'.threads.Keys
            && forall t :: t in s'.threads && t !in s.threads ==>
                 FrameOf(s', t) == Frame(s.wrapper, s.csr.sstatus.(kernel := false), stack - CONTEXT_SIZE)
  {
    hide Core, Modes, Received, Waiting, Ownership.Grab;
    Basics(s);
    GrabFresh(s, Ownership.ThreadOf);
  }

  lemma ExitFrames(s: State)
    requires Inv(s) && s.current != s.idle && !s.csr.sstatus.kernel
    ensures Refs(s) && (ExitStep(s).Goes? ==>
              FramesKept(s, ExitStep(s).state) && ExitStep(s).state.threads.Keys == s.threads.Keys - {s.current})
  {
    hide Core, Waiting, Modes, Received;
    Basics(s);
    ExitOk(s);
    LeaveOk(s);
    SwitchFrames(s.(users := (s.users + TWO64 - 1) % TWO64));
    hide Ownership.Drop, DropAt, Switch, Refs;
    assert FramesKept(s, Leave(s));
  }

  lemma CloseFrames(s: State, h: nat)
    requires Inv(s) && h in s.q.sems
    ensures Refs(s) && SemCloseStep(s, h).Goes? && FramesKept(s, SemCloseStep(s, h).state)
    ensures SemCloseStep(s, h).state.threads.Keys == s.threads.Keys
  {
    hide Core, Modes, Waiting, Refs, UnblockAll, Ownership.Drop;
    Basics(s);
    CloseOk(s, h);
    UnblockAllOk(s, h);
    QuietFrames(s, UnblockAll(s, h));
  }

  lemma WaitFrames(s: State, h: nat)
    requires Inv(s) && h in s.q.sems
    ensures Refs(s) && FramesKept(s, SemWaitStep(s, h)) && SemWaitStep(s, h).threads.Keys == s.threads.Keys
  {
    hide Core, BlockOn;
    Basics(s);
    var s1 := s.(q := SetVal(s.q, h, Semaphores.Wrap32(s.q.sems[h].val - 1)));
    assert Refs(s1);
    hide Refs;
    BlockFrames(s1, OnSem(h));
    FramesTrans(s, s1, BlockOn(s1, OnSem(h)));
  }

  lemma SignalFrames(s: State, h: nat)
    requires Inv(s) && h in s.q.sems
    ensures Refs(s) && SemSignalStep(s, h).Goes? && FramesKept(s, SemSignalStep(s, h).state)
    ensures SemSignalStep(s, h).state.threads.Keys == s.threads.Keys
  {
    hide Inv, Unblock, Refs, FramesKept, Quiet;
    SignalOk(s, h);
    var v := Semaphores.Wrap32(s.q.sems[h].val + 1);
    var s1 := s.(q := SetVal(s.q, h, v));
    SetValRefs(s, h, v);
    if s.q.sems[h].queue != [] {
      UnblockRest(s1, OnSem(h), 0);
      QuietFrames(s1, Unblock(s1, OnSem(h), 0));
    }
    SimpleFrames(s, s1);
    var s' := SemSignalStep(s, h).state;
    var s2 := if v <= 0 && s.q.sems[h].queue != [] then Unblock(s1, OnSem(h), 0) else s1;
    FramesTrans(s, s1, s2);
    SimpleFrames(s2, s');
    FramesTrans(s, s2, s');
  }

  lemma SleepFrames(s: State, time: nat)
    requires Inv(s)
    ensures Refs(s)
    ensures SleepStep(s, time).Goes? ==>
              FramesKept(s, SleepStep(s, time).state) && SleepStep(s, time).state.threads.Keys == s.threads.Keys
  {
    hide Core, Switch;
    Basics(s);
    var s1 := Return(s, 0);
    assert Refs(s1);
    TimeoutRefs(s1, s1.current, time);
    hide Refs;
    if time > 0 && Timeout(s1, s1.current, time).Goes? {
      var s2 := Timeout(s1, s1.current, time).state;
      SwitchFrames(s2);
      FramesTrans(s, s2, Switch(s2));
    }
  }

  lemma GetcFrames(s: State)
    requires Inv(s)
    ensures Refs(s) && FramesKept(s, GetcStep(s)) && GetcStep(s).threads.Keys == s.threads.Keys
  {
    hide Core, BlockOn;
    Basics(s);
    BlockFrames(s, Input);
  }

  lemma PutcFrames(s: State, full: bool, f: Frame)
    requires Inv(s) && f.sepc < TWO64 && s.csr == f.(sepc := (f.sepc + 4) % TWO64)
    ensures Refs(s) && PutcStep(s, full).threads.Keys == s.threads.Keys
    ensures forall t :: t in s.threads ==>
              FrameOf(PutcStep(s, full), t) == if t == s.current && full then f else FrameOf(s, t)
  {
    hide Core, Preempt;
    Basics(s);
    if full {
      var again := (s.csr.sepc + TWO64 - 4) % TWO64;
      assert again == f.sepc;
      var s1 := Stale(s, again, (again + TWO64 - 4) % TWO64);
      assert Refs(s1);
      hide Refs;
      PreemptFrames(s1);
    }
  }

  lemma KernelFrames(s: State)
    requires Inv(s) && s.current == s.idle
    ensures Refs(s) && FramesKept(s, KernelDispatchStep(s)) && KernelDispatchStep(s).threads.Keys == s.threads.Keys
  {
    hide Core, Switch, Waiting, Modes, Refs;
    Basics(s);
    KernelDispatchOk(s);
    SwitchFrames(s);
  }

  /* ---- the ready ring is a queue ---- */

  /** A transition appends some threads to the ready ring and then, if it switches, gives the
      processor to the head of the ring, or to kernel_main if the ring is empty. */
  ghost predicate Advances(s: State, s': State, more: seq<nat>, switched: bool, ticks: nat) {
    var line := s.q.ready + more;
    if !switched then
      && s'.current == s.current && s'.q.ready == line && s.current in s.threads && s.current in s'.threads
      && s'.threads[s.current].timeLeft + ticks == s.threads[s.current].timeLeft
    else
      && s'.current == (if line == [] then s.idle else line[0])
      && s'.q.ready == (if line == [] then [] else line[1..])
  }

  lemma Stays(s: State, s': State)
    requires s'.current == s.current && s'.q.ready == s.q.ready && s.current in s.threads && s.current in s'.threads
    requires s'.threads[s.current].timeLeft == s.threads[s.current].timeLeft
    ensures Advances(s, s', [], false, 0)
  {
    assert s.q.ready + [] == s.q.ready;
  }

  lemma SwitchAdvances(s: State)
    requires Refs(s)
    ensures Advances(s, Switch(s), [], true, 0)
  {
    assert s.q.ready + [] == s.q.ready;
  }

  lemma PreemptAdvances(s: State)
    requires Refs(s)
    ensures Advances(s, Preempt(s), [s.current], true, 0)
  {
    var s1 := Refill(s.(q := Enqueue(s.q, Ready, s.current)), s.current);
    SwitchAdvances(s1);
    assert s1.q.ready + [] == s.q.ready + [s.current];
  }

  /** Threads that were waiting on the processor's behalf of s1, then the move from s1 on. */
  lemma Appended(s: State, s1: State, s': State, first: seq<nat>, more: seq<nat>, switched: bool, ticks: nat)
    requires s1.q.ready == s.q.ready + first && s1.current == s.current && s1.idle == s.idle
    requires s.current in s.threads && s.current in s1.threads
    requires s1.threads[s.current].timeLeft == s.threads[s.current].timeLeft
    requires Advances(s1, s', more, switched, ticks)
    ensures Advances(s, s', first + more, switched, ticks)
  {
    assert s1.q.ready + more == s.q.ready + (first + more);
  }

  /** The threads a tick makes ready. */
  ghost function DueNow(q: seq<Sleeper>): seq<nat> { Threads(Tick(q).1) }

  /** How many readers a console trap serves. */
  function Served(s: State, bytes: seq<int>): nat {
    var there := |s.rx| + |bytes|;
    var held: nat := if there <= 1024 then there else if |s.rx| <= 1024 then 1024 else |s.rx|;
    if held <= |s.q.input| then held else |s.q.input|
  }

  /** Who becomes ready at trap e, in this order: sleepers whose time is up and a thread whose slice is
      used up; readers for whom there are bytes; a new thread; a thread that gives the processor
      away; the line of a semaphore that is closed; the thread a signal lets go. */
  ghost function Joins(s: State, e: Trap): seq<nat>
    requires s.current in s.threads && (e.SemClose? || e.SemSignal? ==> e.sem in s.q.sems)
  {
    match e
    case Timer => DueNow(s.q.sleepers) + if s.threads[s.current].timeLeft == 1 then [s.current] else []
    case Console(bytes) => s.q.input[..Served(s, bytes)]
    case ThreadCreate(_, _, _) =>
      var k := Runs.FirstFit(s.mem.runs, 1);
      if k < |s.mem.runs| then [Runs.Start(s.mem.runs, k)] else []
    case Dispatch => [s.current]
    case Putc(full) => if full then [s.current] else []
    case SemClose(h) => s.q.sems[h].queue
    case SemSignal(h) =>
      var let := Semaphores.Signal(s.q.sems[h]).1;
      if let.Some? then [let.value] else []
    case _ => []
  }

  /** Whether trap e takes the processor from the thread that has it. */
  ghost predicate Leaves(s: State, e: Trap)
    requires s.current in s.threads && (e.SemWait? ==> e.sem in s.q.sems)
  {
    match e
    case Timer => s.threads[s.current].timeLeft == 1
    case ThreadExit => true
    case Dispatch => true
    case SemWait(h) => Semaphores.Wait(s.q.sems[h], s.current).1
    case Sleep(time, _) => time > 0
    case Getc => s.rx == []
    case Putc(full) => full
    case KernelDispatch => true
    case _ => false
  }

  lemma TickedReady(s: State)
    requires Inv(s)
    ensures Refs(s) && Ticked(s).Goes?
    ensures var s1 := Ticked(s).state;
            && Inv(s1) && s1.current == s.current && s1.idle == s.idle && s.current in s.threads
               && s.current in s1.threads
            && s1.threads[s.current].timeLeft == s.threads[s.current].timeLeft
            && s1.q.ready == s.q.ready + DueNow(s.q.sleepers)
            && s1.q.sleepers == Tick(s.q.sleepers).0
            && s1.q.sems == s.q.sems && s1.rx == s.rx
  {
    hide Inv, Decrement, Woken;
    TickedOk(s);
  }

  /** What is left of the timer trap after the sleepers' part. */
  ghost function Sliced(s: State): State
    requires Refs(s)
  {
    var left := (s.threads[s.current].timeLeft + TWO64 - 1) % TWO64;
    if left == 0 then Preempt(SetTime(s, s.current, left)) else SetTime(s, s.current, left)
  }

  lemma SlicedAdvances(s: State) returns (more: seq<nat>)
    requires Inv(s)
    ensures Refs(s) && s.current in s.threads && more == if s.threads[s.current].timeLeft == 1 then [s.current] else []
    ensures var once := s.threads[s.current].timeLeft == 1;
            Advances(s, Sliced(s), more, once, if once then 0 else 1)
  {
    hide Inv, Preempt, Refs;
    TimerEnd(s);
    var left := s.threads[s.current].timeLeft - 1;
    var s2 := SetTime(s, s.current, left);
    if left == 0 {
      PreemptAdvances(s2);
      more := [s.current];
    } else {
      assert s.q.ready + [] == s.q.ready;
      more := [];
    }
  }

  lemma TimerAdvances(s: State) returns (more: seq<nat>)
    requires Inv(s)
    ensures Refs(s) && TimerStep(s).Goes? && s.current in s.threads && more == Joins(s, Timer)
    ensures var once := s.threads[s.current].timeLeft == 1;
            Advances(s, TimerStep(s).state, more, once, if once then 0 else 1)
  {
    hide Inv, Refs, Advances, Preempt, WakeDue, DueNow, Tick, Decrement;
    TickedReady(s);
    TimerOk(s);
    var s1 := Ticked(s).state;
    more := SlicedAdvances(s1);
    var once := s.threads[s.current].timeLeft == 1;
    Appended(s, s1, Sliced(s1), DueNow(s.q.sleepers), more, once, if once then 0 else 1);
    more := DueNow(s.q.sleepers) + more;
  }

  lemma CloseAdvances(s: State, h: nat) returns (more: seq<nat>)
    requires Inv(s) && h in s.q.sems
    ensures Refs(s) && SemCloseStep(s, h).Goes? && more == s.q.sems[h].queue
    ensures Advances(s, SemCloseStep(s, h).state, more, false, 0)
  {
    hide Core, Modes, Waiting, Refs, Ownership.Drop, Quiet;
    Basics(s);
    CloseOk(s, h);
    UnblockAllOk(s, h);
    UnblockAllTime(s, h);
    more := s.q.sems[h].queue;
    QuietCurrent(s, UnblockAll(s, h));
  }

  /** Making waiters ready does not touch the current thread's slice. */
  lemma {:induction false} UnblockAllTime(s: State, h: nat)
    requires Core(s, Some(s.current)) && h in s.q.sems
    ensures Refs(s) && s.current in s.threads && s.current in UnblockAll(s, h).threads
    ensures UnblockAll(s, h).threads[s.current].timeLeft == s.threads[s.current].timeLeft
    decreases |s.q.sems[h].queue|
  {
    hide Core, Refs, Quiet;
    Basics(s);
    if s.q.sems[h].queue != [] {
      UnblockCore(s, OnSem(h), SEM_CLOSED);
      UnblockTime(s, OnSem(h), SEM_CLOSED);
      UnblockAllTime(Unblock(s, OnSem(h), SEM_CLOSED), h);
    }
  }

  lemma UnblockTime(s: State, r: Ring, v: int)
    requires Core(s, Some(s.current)) && Refs(s) && (r == Input || r.OnSem?) && RingOf(s.q, r) != []
    ensures s.current in Unblock(s, r, v).threads
    ensures Unblock(s, r, v).threads[s.current].timeLeft == s.threads[s.current].timeLeft
  {
    AdmitOk(s.threads.Keys, s.q, Some(s.current), s.idle, r);
  }

  lemma {:induction false} ServeTime(s: State)
    requires Core(s, Some(s.current))
    ensures Refs(s) && s.current in s.threads && s.current in Serve(s).threads
    ensures Serve(s).threads[s.current].timeLeft == s.threads[s.current].timeLeft
    decreases |s.q.input|
  {
    hide Core, Refs, Quiet;
    Basics(s);
    if s.q.input != [] && s.rx != [] {
      UnblockCore(s, Input, s.rx[0]);
      UnblockTime(s, Input, s.rx[0]);
      UnblockRest(s, Input, s.rx[0]);
      var s1 := Unblock(s, Input, s.rx[0]).(rx := s.rx[1..]);
      ServeOneOk(s, s1);
      ServeTime(s1);
    }
  }

  lemma ConsoleAdvances(s: State, bytes: seq<int>) returns (more: seq<nat>)
    requires Inv(s)
    ensures Refs(s) && s.current in s.threads && more == Joins(s, Console(bytes))
    ensures Advances(s, ConsoleStep(s, bytes), more, false, 0)
  {
    hide Core, Refs, Waiting, Modes, Serve;
    Basics(s);
    var room := RX_SIZE - |s.rx|;
    var s1 := s.(rx := s.rx + if |bytes| <= room then bytes else bytes[..room]);
    CoreSame(s, s1, Some(s.current));
    ServeOrder(s1);
    ServeTime(s1);
    ServeOk(s1);
    more := s.q.input[..if |s1.rx| <= |s.q.input| then |s1.rx| else |s.q.input|];
  }

  lemma SignalAdvances(s: State, h: nat) returns (more: seq<nat>)
    requires Inv(s) && h in s.q.sems
    ensures Refs(s) && s.current in s.threads && more == Joins(s, SemSignal(h))
    ensures SemSignalStep(s, h).Goes? && Advances(s, SemSignalStep(s, h).state, more, false, 0)
  {
    hide Core, Modes, Waiting, Unblock, Refs, Quiet;
    Basics(s);
    SignalOk(s, h);
    var v := Semaphores.Wrap32(s.q.sems[h].val + 1);
    var s1 := s.(q := SetVal(s.q, h, v));
    SetValCore(s, h, v);
    Basics(s1);
    assert s.q.ready + [] == s.q.ready;
    if v <= 0 && s.q.sems[h].queue != [] {
      UnblockRest(s1, OnSem(h), 0);
      UnblockTime(s1, OnSem(h), 0);
      more := [s.q.sems[h].queue[0]];
      QuietCurrent(s1, Unblock(s1, OnSem(h), 0));
    } else {
      more := [];
    }
  }

  lemma LeaveAdvances(s: State)
    requires Inv(s) && s.current != s.idle && !s.csr.sstatus.kernel
    ensures Refs(s) && (ExitStep(s).Goes? ==> Advances(s, ExitStep(s).state, [], true, 0))
  {
    hide Core, Waiting, Modes, Received, Ownership.Drop, DropAt;
    Basics(s);
    assert Refs(s.(users := (s.users + TWO64 - 1) % TWO64));
    SwitchAdvances(s.(users := (s.users + TWO64 - 1) % TWO64));
  }

  lemma BlockAdvances(s: State, r: Ring)
    requires Refs(s) && (r == Input || (r.OnSem? && r.sem in s.q.sems))
    ensures Advances(s, BlockOn(s, r), [], true, 0)
  {
    SwitchAdvances(s.(q := Enqueue(s.q, r, s.current)));
  }

  /** Every transition treats the ready ring as a queue: these threads join at its end, and the
      processor goes to its first exactly at these traps. */
  lemma StepAdvances(s: State, e: Trap, f: Frame)
    requires Inv(s) && Enabled(s, e, f)
    ensures Refs(s) && s.current in s.threads && (e.SemClose? || e.SemWait? || e.SemSignal? ==> e.sem in s.q.sems)
    ensures Step(s, e, f).Goes? ==>
              Advances(s, Step(s, e, f).state, Joins(s, e), Leaves(s, e), if e.Timer? && !Leaves(s, e) then 1 else 0)
  {
    hide Inv, Refs, TimerStep, ConsoleStep, MemAllocStep, CreateStep, ExitStep, SemOpenStep, SemCloseStep,
      SemWaitStep, SemSignalStep, SleepStep, GetcStep, PutcStep, KernelDispatchStep, Preempt, Advances, IsFreshStack,
      Served, Runs.FirstFit, Runs.Start, DueNow;
    EnterOk(s, e, f);
    var s0 := Enter(s, e, f);
    if Step(s, e, f).Goes? {
      var s' := Step(s, e, f).state;
      match e {
        case Timer => var _ := TimerAdvances(s0);
        case Console(bytes) => var _ := ConsoleAdvances(s0, bytes); ServedSame(s, s0, bytes);
        case MemAlloc(n, _) => AllocSimple(s0, n); Stays(s0, s');
        case ThreadCreate(start, stack, behind) => CreateAdvances(s0, start, stack, behind);
        case ThreadExit => LeaveAdvances(s0);
        case Dispatch => PreemptAdvances(s0);
        case SemOpen(init, _) => OpenSimple(s0, init); Stays(s0, s');
        case SemClose(h) => var _ := CloseAdvances(s0, h);
        case SemWait(h) => WaitAdvances(s0, h);
        case SemSignal(h) => var _ := SignalAdvances(s0, h);
        case Sleep(time, _) => SleepAdvances(s0, time);
        case Getc => GetcAdvances(s0);
        case Putc(full) => PutcAdvances(s0, full);
        case KernelDispatch => KernelAdvances(s0);
        case _ => Stays(s0, s');
      }
      AdvancesEntered(s, e, f, s', Joins(s, e), Leaves(s, e), if e.Timer? && !Leaves(s, e) then 1 else 0);
    }
  }

  lemma ServedSame(s: State, s0: State, bytes: seq<int>)
    requires s0.rx == s.rx && s0.q == s.q
    ensures Served(s0, bytes) == Served(s, bytes)
  {
  }

  lemma AdvancesEntered(s: State, e: Trap, f: Frame, s': State, more: seq<nat>, switched: bool, ticks: nat)
    requires Advances(Enter(s, e, f), s', more, switched, ticks)
    ensures Advances(s, s', more, switched, ticks)
  {
  }

  lemma CreateAdvances(s: State, start: int, stack: nat, behind: seq<int>)
    requires Inv(s) && IsFreshStack(s, stack)
    ensures Refs(s) && s.current in s.threads
    ensures Advances(s, CreateStep(s, start, stack), Joins(s, ThreadCreate(start, stack, behind)), false, 0)
  {
    hide Core, Modes, Received, Waiting, Runs.FirstFit, Runs.Start;
    Basics(s);
    GrabFresh(s, Ownership.ThreadOf);
    assert s.q.ready + [] == s.q.ready;
  }

  lemma WaitAdvances(s: State, h: nat)
    requires Inv(s) && h in s.q.sems
    ensures Refs(s) && Advances(s, SemWaitStep(s, h), [], Semaphores.Wait(s.q.sems[h], s.current).1, 0)
  {
    hide Core, BlockOn;
    Basics(s);
    var v := Semaphores.Wrap32(s.q.sems[h].val - 1);
    var s1 := s.(q := SetVal(s.q, h, v));
    assert Refs(s1);
    BlockAdvances(s1, OnSem(h));
    assert s.q.ready + [] == s.q.ready;
  }

  lemma SleepAdvances(s: State, time: nat)
    requires Inv(s)
    ensures Refs(s) && (SleepStep(s, time).Goes? ==> Advances(s, SleepStep(s, time).state, [], time > 0, 0))
  {
    hide Core, Switch;
    Basics(s);
    var s1 := Return(s, 0);
    assert Refs(s1);
    TimeoutRefs(s1, s1.current, time);
    assert s.q.ready + [] == s.q.ready;
    if time > 0 && Timeout(s1, s1.current, time).Goes? {
      SwitchAdvances(Timeout(s1, s1.current, time).state);
    }
  }

  lemma GetcAdvances(s: State)
    requires Inv(s)
    ensures Refs(s) && Advances(s, GetcStep(s), [], s.rx == [], 0)
  {
    hide Core, BlockOn;
    Basics(s);
    BlockAdvances(s, Input);
    assert s.q.ready + [] == s.q.ready;
  }

  lemma PutcAdvances(s: State, full: bool)
    requires Inv(s)
    ensures Refs(s) && Advances(s, PutcStep(s, full), if full then [s.current] else [], full, 0)
  {
    hide Core, Preempt;
    Basics(s);
    assert s.q.ready + [] == s.q.ready;
    if full {
      var again := (s.csr.sepc + TWO64 - 4) % TWO64;
      var s1 := Stale(s, again, (again + TWO64 - 4) % TWO64);
      assert Refs(s1);
      PreemptAdvances(s1);
    }
  }

  lemma KernelAdvances(s: State)
    requires Inv(s) && s.current == s.idle
    ensures Refs(s) && Advances(s, KernelDispatchStep(s), [], true, 0)
  {
    hide Core, Switch, Waiting, Modes, Refs, Advances;
    Basics(s);
    KernelDispatchOk(s);
    SwitchAdvances(s);
  }

  /* ---- runs ---- */

  /** The states of a run and the traps between them. */
  ghost predicate IsRun(st: seq<State>, evs: seq<(Trap, Frame)>) {
    && |st| == |evs| + 1 && Inv(st[0])
    && forall i :: 0 <= i < |evs| ==>
         && Refs(st[i]) && Enabled(st[i], evs[i].0, evs[i].1)
         && Step(st[i], evs[i].0, evs[i].1) == Goes(st[i + 1])
  }

  function Timers(evs: seq<(Trap, Frame)>): nat {
    if evs == [] then 0 else (if evs[0].0.Timer? then 1 else 0) + Timers(evs[1..])
  }

  /** The invariant holds throughout every run. */
  lemma {:induction false} RunSafe(st: seq<State>, evs: seq<(Trap, Frame)>, i: nat)
    requires IsRun(st, evs) && i < |st|
    ensures Inv(st[i])
  {
    if i > 0 {
      RunSafe(st, evs, i - 1);
      StepOk(st[i - 1], evs[i - 1].0, evs[i - 1].1);
    }
  }

  lemma RunTail(st: seq<State>, evs: seq<(Trap, Frame)>)
    requires IsRun(st, evs) && evs != []
    ensures IsRun(st[1..], evs[1..])
  {
    hide Inv, Refs, Enabled, Step;
    RunSafe(st, evs, 1);
    forall i | 0 <= i < |evs[1..]|
      ensures Refs(st[1..][i]) && Enabled(st[1..][i], evs[1..][i].0, evs[1..][i].1)
      ensures Step(st[1..][i], evs[1..][i].0, evs[1..][i].1) == Goes(st[1..][i + 1])
    {
      assert st[1..][i] == st[i + 1] && st[1..][i + 1] == st[i + 2] && evs[1..][i] == evs[i + 1];
    }
  }

  /** In every reachable state every live thread but kernel_main is in exactly one place: on the
      processor, in one ring, or asleep. */
  lemma RunPlaces(st: seq<State>, evs: seq<(Trap, Frame)>, i: nat, t: nat)
    requires IsRun(st, evs) && i < |st| && t in st[i].threads
    ensures t != st[i].idle ==> exists p :: At(st[i].q, st[i].current, t, p)
    ensures forall p, p' :: At(st[i].q, st[i].current, t, p) && At(st[i].q, st[i].current, t, p') ==> p == p'
  {
    RunSafe(st, evs, i);
    OnePlace(st[i].threads.Keys, st[i].q, st[i].current, st[i].idle, t);
  }

  /** The count kernel_main loops on is zero exactly when kernel_main is the only thread left. */
  lemma UsersCount(s: State)
    requires Core(s, Some(s.current))
    ensures s.users == |s.threads| - 1 && (s.users == 0 <==> s.threads.Keys == {s.idle})
  {
    hide Ownership.Owned, RingsOk, Belongs, Slices;
    assert |s.threads| == |s.threads.Keys|;
    if s.users == 0 { assert |s.threads.Keys - {s.idle}| == 0; }
  }

  lemma RunUsers(st: seq<State>, evs: seq<(Trap, Frame)>, i: nat)
    requires IsRun(st, evs) && i < |st|
    ensures st[i].users == |st[i].threads| - 1
    ensures st[i].users == 0 <==> st[i].threads.Keys == {st[i].idle}
  {
    hide IsRun, Inv;
    RunSafe(st, evs, i);
    InvParts(st[i]);
    UsersCount(st[i]);
  }

  /* ---- nobody waits for ever ---- */

  /** One transition brings the thread at place k of the ready ring on, or leaves it in place;
      ticks and switches count down. */
  lemma WaitStep(s: State, e: Trap, f: Frame, s': State, k: nat, t: nat) returns (k': nat)
    requires Inv(s) && Refs(s) && Enabled(s, e, f) && Step(s, e, f) == Goes(s')
    requires k < |s.q.ready| && s.q.ready[k] == t && s'.current != t
    ensures Inv(s') && s.current in s.threads && s'.current in s'.threads
    ensures k' < |s'.q.ready| && s'.q.ready[k'] == t
    ensures s'.threads[s'.current].timeLeft + 2 * k' + (if e.Timer? then 1 else 0)
         <= s.threads[s.current].timeLeft + 2 * k
    ensures s'.current != s.current ==>
              s'.threads[s'.current].timeLeft + 2 * k' < s.threads[s.current].timeLeft + 2 * k
  {
    hide Step, Enabled, Inv, Refs, Core, Joins, Leaves;
    StepOk(s, e, f);
    StepAdvances(s, e, f);
    InvParts(s);
    InvParts(s');
    Basics(s);
    Basics(s');
    var line := s.q.ready + Joins(s, e);
    assert line[k] == t;
    if Leaves(s, e) {
      k' := k - 1;
    } else {
      k' := k;
    }
  }

  /** Until t runs, each timer trap costs one of the time slices ahead of it. */
  lemma {:induction false} WaitCost(st: seq<State>, evs: seq<(Trap, Frame)>, k: nat, t: nat)
    requires IsRun(st, evs)
    requires k < |st[0].q.ready| && st[0].q.ready[k] == t
    ensures st[0].current in st[0].threads
    ensures || (exists i :: 0 <= i < |st| && st[i].current == t)
            || Timers(evs) < st[0].threads[st[0].current].timeLeft + 2 * k
    ensures st[0].threads[st[0].current].timeLeft <= TIME_SLICE
    decreases |evs|
  {
    hide Inv, Refs, Step, Enabled, Core;
    InvParts(st[0]);
    Basics(st[0]);
    if evs != [] && st[1].current != t {
      var k' := WaitStep(st[0], evs[0].0, evs[0].1, st[1], k, t);
      RunTail(st, evs);
      WaitCost(st[1..], evs[1..], k', t);
      if i :| 0 <= i < |st[1..]| && st[1..][i].current == t {
        assert st[i + 1].current == t;
      }
    }
  }

  /** A thread at place k of the ready ring runs within 2(k + 1) timer interrupts, whatever else
      happens and whoever else becomes ready meanwhile. */
  lemma BoundedWait(st: seq<State>, evs: seq<(Trap, Frame)>, k: nat, t: nat)
    requires IsRun(st, evs)
    requires k < |st[0].q.ready| && st[0].q.ready[k] == t
    requires Timers(evs) >= 2 * (k + 1)
    ensures exists i :: 0 <= i < |st| && st[i].current == t
  {
    WaitCost(st, evs, k, t);
  }

  /* ---- registers over whole runs ---- */

  /** While a thread is off the processor it stays alive and its registers stay what they were. */
  lemma {:induction false} FrameStays(st: seq<State>, evs: seq<(Trap, Frame)>, i: nat, j: nat, t: nat)
    requires IsRun(st, evs) && i <= j < |st| && t in st[i].threads
    requires forall k :: 0 <= k < |evs| ==> evs[k].1.sepc < TWO64
    requires forall k :: i <= k < j ==> st[k].current != t
    ensures t in st[j].threads && FrameOf(st[j], t) == FrameOf(st[i], t)
    decreases j
  {
    hide Inv, Refs, Enabled, Step, FrameOf;
    if i < j {
      FrameStays(st, evs, i, j - 1, t);
      RunSafe(st, evs, j - 1);
      StepFrames(st[j - 1], evs[j - 1].0, evs[j - 1].1);
    }
  }

  /** A thread that a trap takes from the processor finds, when it next gets it, the registers it
      had at the trap, with only the call stepped over. */
  lemma ComesBack(st: seq<State>, evs: seq<(Trap, Frame)>, i: nat, j: nat)
    requires IsRun(st, evs) && i < j < |st| && !evs[i].0.ThreadExit?
    requires forall k :: 0 <= k < |evs| ==> evs[k].1.sepc < TWO64
    requires st[j].current == st[i].current && forall k :: i < k < j ==> st[k].current != st[i].current
    ensures st[j].csr == Resume(evs[i].0, evs[i].1)
  {
    hide Inv, Refs, Enabled, Step;
    var t := st[i].current;
    RunSafe(st, evs, i);
    StepOk(st[i], evs[i].0, evs[i].1);
    StepFrames(st[i], evs[i].0, evs[i].1);
    FrameStays(st, evs, i + 1, j, t);
  }

  /* ---- runs from start-up ---- */

  /** The states a run from start-up can get to. */
  ghost predicate GetsTo(x: Machinery, s: State) {
    exists st, evs :: IsRunTo(x, st, evs, s)
  }

  ghost predicate IsRunTo(x: Machinery, st: seq<State>, evs: seq<(Trap, Frame)>, s: State) {
    IsRun(st, evs) && CanStart(x) && Started(x) == Some(st[0]) && st[|evs|] == s
  }

  lemma GetsStarted(x: Machinery)
    requires CanStart(x) && Started(x).Some?
    ensures GetsTo(x, Started(x).value)
  {
    hide Inv, Started;
    StartedOk(x);
    assert IsRunTo(x, [Started(x).value], [], Started(x).value);
  }

  lemma GetsNext(x: Machinery, s: State, e: Trap, f: Frame, s': State)
    requires GetsTo(x, s) && Refs(s) && Enabled(s, e, f) && Step(s, e, f) == Goes(s')
    ensures GetsTo(x, s')
  {
    hide Inv, Started, Refs, Enabled, Step, CanStart;
    var st, evs :| IsRunTo(x, st, evs, s);
    var st', evs' := st + [s'], evs + [(e, f)];
    forall i | 0 <= i < |evs'|
      ensures Refs(st'[i]) && Enabled(st'[i], evs'[i].0, evs'[i].1)
              && Step(st'[i], evs'[i].0, evs'[i].1) == Goes(st'[i + 1])
    {
      if i < |evs| { assert st'[i] == st[i] && st'[i + 1] == st[i + 1] && evs'[i] == evs[i]; }
    }
    assert IsRunTo(x, st', evs', s');
  }

  /** Every state that can be got to from start-up is one the theorems about runs speak of: each
      thread in one place, the count of user threads right, everything in order. */
  lemma RunsFromStart(x: Machinery, s: State)
    requires GetsTo(x, s)
    ensures Inv(s) && s.users == |s.threads| - 1
    ensures forall t :: t in s.threads && t != s.idle ==> exists p :: At(s.q, s.current, t, p)
  {
    hide Inv, Started, Step, Enabled, Refs, CanStart;
    var st, evs :| IsRunTo(x, st, evs, s);
    RunSafe(st, evs, |evs|);
    RunUsers(st, evs, |evs|);
    forall t | t in s.threads && t != s.idle ensures exists p :: At(s.q, s.current, t, p) {
      RunPlaces(st, evs, |evs|, t);
    }
  }
}
