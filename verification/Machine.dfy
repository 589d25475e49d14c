/** What the live allocations of the kernel are for. */
module Ownership {
  import opened Options
  import Runs
  import HeapHistory

  datatype Use = Index | System | ThreadOf | StackOf(thread: nat) | SemOf | SleeperOf | User

  /** `uses` is a history variable: no kernel decision reads it. */
  datatype Mem = Mem(runs: seq<Runs.Run>, uses: map<nat, Use>)

  const STACK_BLOCKS: nat := 64

  /** Thread, semaphore and sleeper records take one block each. */
  ghost predicate RightSize(u: Use, size: nat) {
    match u
    case ThreadOf => size == 1
    case SemOf => size == 1
    case SleeperOf => size == 1
    case StackOf(_) => size == STACK_BLOCKS
    case _ => true
  }

  ghost predicate Owned(m: Mem, blocks: nat, index: nat) {
    && HeapHistory.Heap(m.runs, blocks, index)
    && m.uses.Keys == Runs.Live(m.runs).Keys
    && (forall b :: b in m.uses ==> (m.uses[b] == Index <==> b == 0))
    && (forall b :: b in m.uses ==> RightSize(m.uses[b], Runs.Live(m.runs)[b]))
  }

  function Grab(m: Mem, n: nat, u: Use): Option<(Mem, nat)> {
    match HeapHistory.TakeRuns(m.runs, n)
    case None => None
    case Some((rs, b)) => Some((Mem(rs, m.uses[b := u]), b))
  }

  /** `__mem_free` of block b: the heap without it, or nothing if b is no live allocation. */
  function Drop(m: Mem, b: nat): Option<Mem> {
    if Runs.Sized(m.runs) && b in Runs.Live(m.runs) then Some(Mem(HeapHistory.GiveRuns(m.runs, b), m.uses - {b}))
      else None
  }

  lemma GrabOk(m: Mem, n: nat, u: Use, blocks: nat, index: nat)
    requires Owned(m, blocks, index) && n >= 1 && RightSize(u, n) && u != Index
    ensures Grab(m, n, u).None? <==> !Runs.CanAlloc(m.runs, n)
    ensures Grab(m, n, u).Some? ==>
              var (m', b) := Grab(m, n, u).value;
              && Owned(m', blocks, index) && b !in m.uses && b != 0 && b < blocks
              && m'.uses == m.uses[b := u] && Runs.Live(m'.runs) == Runs.Live(m.runs)[b := n]
  {
    HeapHistory.TakeFacts(m.runs, n, blocks, index);
    assert 0 in Runs.Live(m.runs) by { assert m.runs[..0] == []; Runs.LiveIsUsed(m.runs, 0, 0); }
  }

  lemma DropOk(m: Mem, b: nat, blocks: nat, index: nat)
    requires Owned(m, blocks, index) && b in m.uses && b != 0
    ensures Drop(m, b).Some?
    ensures Owned(Drop(m, b).value, blocks, index)
    ensures Drop(m, b).value.uses == m.uses - {b}
  {
    HeapHistory.GiveFacts(m.runs, b, blocks, index);
  }
}

/** The kernel as a state machine: one transition per trap, run to completion. */
module Machine {
  import opened Options
  import opened Words
  import Runs
  import Memory
  import DeltaQueue
  import Semaphores
  import opened ThreadQueues
  import opened Ownership

  const TIME_SLICE: nat := 2
  const STACK_SIZE: nat := 4096
  const CONTEXT_SIZE: nat := 0x100
  const RX_SIZE: nat := 1024
  const SEM_TABLE: nat := 10
  const SEM_CLOSED: int := -1
  const NO_MEMORY: int := -1

  /** `sstatus`: the previous-mode bit (bit 8) and everything else. */
  datatype Status = Status(kernel: bool, bits: nat)

  /** The three registers that make up a thread's place in its program. */
  datatype Frame = Frame(sepc: nat, sstatus: Status, sp: nat)

  datatype Tcb = Tcb(frame: Frame, bp: nat, timeLeft: nat)

  datatype State = State(
    base: nat,                 // address of block 0
    blocks: nat,
    wrapper: nat,              // address of __thread_wrapper
    mem: Mem,
    users: nat,                // user_thread_count
    threads: map<nat, Tcb>,    // by block of the thread record
    q: Queues,
    rx: seq<int>,              // received, not yet read
    current: nat,
    idle: nat,                 // kernel_main
    csr: Frame,                // sepc, sstatus, sscratch
    a0: map<nat, int>,         // result cell of the context saved at an address
    opens: nat)                // sem_cnt

  /** How a trap ends: the machine goes on, panics, writes through a null pointer, or strays: it
      hands out or touches memory that is not its to use. */
  datatype Outcome = Goes(state: State) | Panics | NullWrite | Strays {
    predicate IsFailure() { !Goes? }
    function PropagateFailure(): Outcome
      requires IsFailure()
    {
      this
    }
    function Extract(): State
      requires Goes?
    {
      state
    }
  }

  /** `behind` is what the words of the heap behind the index hold when a call that allocates is made.
      The first of them is padding that start-up never writes, or, if the number of blocks is a
      multiple of 16, the start of the console's receive buffer. */
  datatype Trap =
    | Timer
    | Console(bytes: seq<int>)           // console interrupt; what the device has to offer
    | OtherDevice
    | MemAlloc(nblocks: nat, behind: seq<int>)
    | ThreadCreate(start: int, stack: nat, behind: seq<int>)
    | ThreadExit
    | Dispatch
    | SemOpen(init: nat, behind: seq<int>)
    | SemClose(sem: nat)
    | SemWait(sem: nat)
    | SemSignal(sem: nat)
    | Sleep(time: nat, behind: seq<int>)
    | Getc
    | Putc(full: bool)                   // full: no room even after sending
    | UnknownCall
    | KernelDispatch

  predicate IsUserCall(e: Trap) {
    !(e.Timer? || e.Console? || e.OtherDevice? || e.KernelDispatch?)
  }

  /** Every thread mentioned by a queue has a record. */
  ghost predicate Refs(s: State) {
    && s.current in s.threads && s.idle in s.threads
    && (forall t :: t in s.q.ready ==> t in s.threads)
    && (forall t :: t in s.q.input ==> t in s.threads)
    && (forall h, t :: h in s.q.sems && t in s.q.sems[h].queue ==> t in s.threads)
    && (forall t :: t in DeltaQueue.Threads(s.q.sleepers) ==> t in s.threads)
  }

  /* ---- pieces of a transition ---- */

  function SetTime(s: State, t: nat, left: nat): State
    requires t in s.threads
  {
    s.(threads := s.threads[t := s.threads[t].(timeLeft := left)])
  }

  /** `context->a0 = v` in the context of thread t saved at its stack pointer. */
  function Deliver(s: State, t: nat, v: int): State
    requires t in s.threads
  {
    s.(a0 := s.a0[s.threads[t].frame.sp := v])
  }

  /** `context->a0 = v` in the context of the caller. */
  function Return(s: State, v: int): State {
    s.(a0 := s.a0[s.csr.sp := v])
  }

  /** `__scheduler_push` after the queues have been updated. */
  function Refill(s: State, t: nat): State
    requires t in s.threads
  {
    SetTime(s, t, TIME_SLICE)
  }

  /** `__scheduler_next` and `yield`: the chosen thread's registers go in, the old one's out. */
  ghost function Switch(s: State): State
    requires Refs(s)
  {
    var prev, next := s.current, Chosen(s.q, s.idle);
    var s1 := s.(current := next, q := AfterChoice(s.q));
    if prev == next
    then s1.(threads := s.threads[prev := s.threads[prev].(frame := s.threads[prev].frame.(sp := s.csr.sp))])
    else s1.(threads := s.threads[prev := s.threads[prev].(frame := s.csr)], csr := s.threads[next].frame)
  }

  /** The current thread goes to the end of a ring and the processor to another thread. */
  ghost function BlockOn(s: State, r: Ring): State
    requires Refs(s) && (r == Input || (r.OnSem? && r.sem in s.q.sems))
  {
    Switch(s.(q := Enqueue(s.q, r, s.current)))
  }

  ghost function Preempt(s: State): State
    requires Refs(s)
  {
    Switch(Refill(s.(q := Enqueue(s.q, Ready, s.current)), s.current))
  }

  /** The head of a wait ring is given v and made ready. */
  ghost function Unblock(s: State, r: Ring, v: int): (s': State)
    requires Refs(s) && (r == Input || r.OnSem?) && RingOf(s.q, r) != []
    ensures Refs(s')
  {
    var t := RingOf(s.q, r)[0];
    var s1 := Deliver(s, t, v);
    Refill(s1.(q := Admit(s.q, r)), t)
  }

  /** `__scheduler_timeout`. */
  ghost function Timeout(s: State, t: nat, time: nat): Outcome {
    match Grab(s.mem, 1, SleeperOf)
    case None => NullWrite
    case Some((m, b)) => Goes(s.(mem := m, q := FallAsleep(s.q, DeltaQueue.Sleeper(b, t, time))))
  }

  lemma TimeoutRefs(s: State, t: nat, time: nat)
    requires Refs(s) && t in s.threads
    ensures Timeout(s, t, time).Goes? ==> Refs(Timeout(s, t, time).state)
  {
    var o := Grab(s.mem, 1, SleeperOf);
    if o.Some? {
      var x := DeltaQueue.Sleeper(o.value.1, t, time);
      var k := DeltaQueue.InsertExtends(s.q.sleepers, x);
      forall i | 0 <= i <= |s.q.sleepers| ensures DeltaQueue.Insert(s.q.sleepers, x)[i].thread in s.threads {
        if i < k { assert DeltaQueue.Threads(s.q.sleepers)[i] in s.threads; }
        if i > k { assert DeltaQueue.Threads(s.q.sleepers)[i - 1] in s.threads; }
      }
    }
  }

  /** The loop of `__scheduler_tick`: everyone due is made ready and its record freed. */
  ghost function WakeDue(s: State): (o: Outcome)
    requires Refs(s)
    ensures o.Goes? ==> Refs(o.state) && o.state.current == s.current
    decreases |s.q.sleepers|
  {
    if s.q.sleepers == [] || s.q.sleepers[0].delta != 0 then Goes(s)
    else
      var x := s.q.sleepers[0];
      match Drop(s.mem, x.node)
      case None => Panics
      case Some(m) =>
        assert DeltaQueue.Threads(s.q.sleepers)[0] == x.thread;
        assert DeltaQueue.Threads(s.q.sleepers[1..]) == DeltaQueue.Threads(s.q.sleepers)[1..];
        WakeDue(Refill(s.(mem := m, q := Wake(s.q)), x.thread))
  }

  /** The loops of `__console_receive` that serve waiting readers and close up the buffer. */
  ghost function Serve(s: State): (s': State)
    requires Refs(s)
    decreases |s.q.input|
  {
    if s.q.input == [] || s.rx == [] then s
    else Serve(Unblock(s, Input, s.rx[0]).(rx := s.rx[1..]))
  }

  /** The loop of `__sem_close`. */
  ghost function UnblockAll(s: State, h: nat): (s': State)
    requires Refs(s) && h in s.q.sems
    decreases |s.q.sems[h].queue|
  {
    if s.q.sems[h].queue == [] then s else UnblockAll(Unblock(s, OnSem(h), SEM_CLOSED), h)
  }

  /** `__mem_free` of an address. */
  ghost function DropAt(m: Mem, base: nat, blocks: nat, ptr: nat): Option<Mem> {
    if base <= ptr < Memory.AddrOf(base, blocks) && (ptr - base) % Memory.BLOCK == 0
    then Drop(m, Memory.BlockOf(base, ptr))
    else None
  }

  /* ---- the traps ---- */

  ghost function TimerStep(s: State): Outcome
    requires Refs(s)
  {
    var s1 :- WakeDue(s.(q := s.q.(sleepers := DeltaQueue.Decrement(s.q.sleepers))));
    var left := (s1.threads[s1.current].timeLeft + TWO64 - 1) % TWO64;
    var s2 := SetTime(s1, s1.current, left);
    Goes(if left == 0 then Preempt(s2) else s2)
  }

  ghost function ConsoleStep(s: State, bytes: seq<int>): State
    requires Refs(s)
  {
    var room := if |s.rx| < RX_SIZE then RX_SIZE - |s.rx| else 0;
    Serve(s.(rx := s.rx + if |bytes| <= room then bytes else bytes[..room]))
  }

  ghost function MemAllocStep(s: State, n: nat): State {
    match Grab(s.mem, n, User)
    case None => Return(s, 0)
    case Some((m, b)) => Return(s.(mem := m), Memory.AddrOf(s.base, b))
  }

  /** The stack runs from bp up to the 8 bytes that hold `stack`. */
  function BottomOf(stack: nat): nat
    requires stack >= STACK_SIZE
  {
    stack - STACK_SIZE + 8
  }

  /** `__thread_create` with its record in block b of heap m. */
  ghost function Created(s: State, start: int, stack: nat, m: Mem, b: nat): State
    requires stack >= STACK_SIZE && s.base <= BottomOf(stack)
  {
    var frame := Frame(s.wrapper, s.csr.sstatus.(kernel := false), stack - CONTEXT_SIZE);
    s.(
      mem := m.(uses := m.uses[Memory.BlockOf(s.base, BottomOf(stack)) := StackOf(b)]),
      users := s.users + 1,
      threads := s.threads[b := Tcb(frame, BottomOf(stack), TIME_SLICE)],
      q := Enqueue(s.q, Ready, b),
      a0 := s.a0[frame.sp := start])
  }

  ghost function CreateStep(s: State, start: int, stack: nat): State
    requires stack >= STACK_SIZE && s.base <= BottomOf(stack)
  {
    match Grab(s.mem, 1, ThreadOf)
    case None => Return(s, NO_MEMORY)
    case Some((m, b)) => Return(Created(s, start, stack, m, b), 0)
  }

  ghost function ExitStep(s: State): Outcome
    requires Refs(s)
  {
    var users := if s.csr.sstatus.kernel then s.users else (s.users + TWO64 - 1) % TWO64;
    var s1 := Switch(s.(users := users));
    var gone := s1.threads[s.current];
    if gone.frame.sp < gone.bp then Panics
    else
      match DropAt(s1.mem, s.base, s.blocks, gone.bp)
      case None => Panics
      case Some(m) =>
        match Drop(m, s.current)
        case None => Panics
        case Some(m') => Goes(s1.(mem := m', threads := s1.threads - {s.current}))
  }

  ghost function SemOpenStep(s: State, init: nat): State {
    match Grab(s.mem, 1, SemOf)
    case None => Return(s, NO_MEMORY)
    case Some((m, b)) => Return(s.(mem := m, q := s.q.(sems := s.q.sems[b := Semaphores.Open(init)]),
      opens := s.opens + 1), 0)
  }

  ghost function SemCloseStep(s: State, h: nat): Outcome
    requires Refs(s) && h in s.q.sems
  {
    var s1 := UnblockAll(s, h);
    match Drop(s1.mem, h)
    case None => Panics
    case Some(m) => Goes(Return(s1.(mem := m, q := s1.q.(sems := s1.q.sems - {h})), 0))
  }

  ghost function SemWaitStep(s: State, h: nat): State
    requires Refs(s) && h in s.q.sems
  {
    var v := Semaphores.Wrap32(s.q.sems[h].val - 1);
    var s1 := s.(q := SetVal(s.q, h, v));
    if v < 0 then BlockOn(s1, OnSem(h)) else Return(s1, 0)
  }

  /** A thread in line with no time left would be looked up among the sleepers; without timed
      waits it is not there, and the lookup panics. */
  ghost function SemSignalStep(s: State, h: nat): Outcome
    requires Refs(s) && h in s.q.sems
  {
    var v := Semaphores.Wrap32(s.q.sems[h].val + 1);
    var s1 := s.(q := SetVal(s.q, h, v));
    if v > 0 then Goes(Return(s1, 0))
    else if s.q.sems[h].queue == [] then Goes(Return(s1, Semaphores.SEM_SIGNAL_NO_THREADS))
    else if s.threads[s.q.sems[h].queue[0]].timeLeft == 0 then Panics
    else Goes(Return(Unblock(s1, OnSem(h), 0), 0))
  }

  ghost function SleepStep(s: State, time: nat): Outcome
    requires Refs(s)
  {
    var s1 := Return(s, 0);
    if time == 0 then Goes(s1)
    else
      var s2 :- Timeout(s1, s.current, time);
      TimeoutRefs(s1, s.current, time);
      Goes(Switch(s2))
  }

  /** The byte is delivered through the thread's saved stack pointer, not through sscratch. */
  ghost function GetcStep(s: State): State
    requires Refs(s)
  {
    if s.rx == [] then BlockOn(s, Input)
    else Deliver(s, s.current, s.rx[0]).(rx := s.rx[1..])
  }

  /** With no room the call is to be made again, and the saved sepc is set wrongly. */
  ghost function PutcStep(s: State, full: bool): State
    requires Refs(s)
  {
    if !full then s
    else
      var again := (s.csr.sepc + TWO64 - 4) % TWO64;
      var t := s.threads[s.current];
      var s1 := s.(
        csr := s.csr.(sepc := again),
        threads := s.threads[s.current := t.(frame := t.frame.(sepc := (again + TWO64 - 4) % TWO64))]);
      Preempt(s1)
  }

  ghost function KernelDispatchStep(s: State): State
    requires Refs(s)
  {
    var s1 := Switch(s);
    s1.(csr := s1.csr.(sp := s1.threads[s1.current].frame.sp))
  }

  /** The registers as `irq_handler` finds them, past the ecall if there was one. */
  function Entry(e: Trap, f: Frame): Frame {
    if e.Timer? || e.Console? || e.OtherDevice? then f else f.(sepc := (f.sepc + 4) % TWO64)
  }

  /** What callers owe the kernel: handles of open semaphores, whole free-standing stacks, and
      no request for zero blocks; and calls come from the mode they can come from. */
  ghost predicate Enabled(s: State, e: Trap, f: Frame) {
    && f.sstatus.kernel == s.csr.sstatus.kernel
    && (IsUserCall(e) ==> !f.sstatus.kernel)
    && (e.KernelDispatch? ==> f.sstatus.kernel)
    && (Asks(e).Some? ==> |e.behind| == 15 * s.blocks)
    && match e
       case MemAlloc(n, _) => n >= 1
       case ThreadCreate(_, stack, _) => IsFreshStack(s, stack)
       case SemClose(h) => h in s.q.sems
       case SemWait(h) => h in s.q.sems
       case SemSignal(h) => h in s.q.sems
       case Sleep(t, _) => t < TWO64
       case _ => true
  }

  /** `stack` is what `thread_create` makes of a stack just allocated. */
  ghost predicate IsFreshStack(s: State, stack: nat) {
    && stack >= STACK_SIZE && s.base <= BottomOf(stack) && (BottomOf(stack) - s.base) % Memory.BLOCK == 0
    && var b := Memory.BlockOf(s.base, BottomOf(stack));
       b in s.mem.uses && s.mem.uses[b] == User && b in Runs.Live(s.mem.runs)
         && Runs.Live(s.mem.runs)[b] == STACK_BLOCKS
  }

  /* ---- allocations that find nothing ---- */

  /** How the search for n blocks ends that finds none. */
  function SearchEnd(m: Mem, blocks: nat, n: nat, behind: seq<int>): Memory.SearchResult {
    Memory.AtEnd(m.runs != [] && !m.runs[|m.runs| - 1].used, blocks, n, behind)
  }

  /** An allocation that does not return: it panics, or comes back with the end of the heap, or
      leaves the heap. */
  function Denial(m: Mem, blocks: nat, n: nat, behind: seq<int>): (o: Option<Outcome>)
    ensures o == None || o == Some(Panics) || o == Some(Strays)
  {
    if Runs.FirstFit(m.runs, n) < |m.runs| then None
    else
      match SearchEnd(m, blocks, n, behind)
      case NotFound => None
      case Corrupted => Some(Panics)
      case _ => Some(Strays)
  }

  /** What a trap asks the allocator for. */
  function Asks(e: Trap): Option<nat> {
    match e
    case MemAlloc(n, _) => Some(n)
    case ThreadCreate(_, _, _) => Some(1)
    case SemOpen(_, _) => Some(1)
    case Sleep(time, _) => if time > 0 then Some(1) else None
    case _ => None
  }

  /** What keeps a trap from what it is for: an allocation that does not return, or no entry left
      in the table of semaphores. */
  function Prevented(s: State, e: Trap): (o: Option<Outcome>)
    ensures o == None || o == Some(Panics) || o == Some(Strays)
  {
    match Asks(e)
    case None => None
    case Some(n) =>
      var o := Denial(s.mem, s.blocks, n, e.behind);
      if o.None? && e.SemOpen? && Runs.FirstFit(s.mem.runs, 1) < |s.mem.runs| && s.opens >= SEM_TABLE
        then Some(Strays) else o
  }

  /** One trap, from the interrupted thread's registers f to the return from `irq_handler`. */
  ghost function Step(s: State, e: Trap, f: Frame): Outcome
    requires Refs(s) && Enabled(s, e, f)
  {
    match Prevented(s, e)
    case Some(o) => o
    case None => Serviced(s.(csr := Entry(e, f)), e)
  }

  /** The arguments of a trap make sense. */
  ghost predicate Serviceable(s0: State, e: Trap) {
    match e
    case ThreadCreate(_, stack, _) => IsFreshStack(s0, stack)
    case SemClose(h) => h in s0.q.sems
    case SemWait(h) => h in s0.q.sems
    case SemSignal(h) => h in s0.q.sems
    case _ => true
  }

  /** What a trap does if nothing keeps it from it. */
  ghost function Serviced(s0: State, e: Trap): Outcome
    requires Refs(s0) && Serviceable(s0, e)
  {
    match e
    case Timer => TimerStep(s0)
    case Console(bytes) => Goes(ConsoleStep(s0, bytes))
    case OtherDevice => Goes(s0)
    case MemAlloc(n, _) => Goes(MemAllocStep(s0, n))
    case ThreadCreate(start, stack, _) => Goes(CreateStep(s0, start, stack))
    case ThreadExit => ExitStep(s0)
    case Dispatch => Goes(Preempt(s0))
    case SemOpen(init, _) => Goes(SemOpenStep(s0, init))
    case SemClose(h) => SemCloseStep(s0, h)
    case SemWait(h) => Goes(SemWaitStep(s0, h))
    case SemSignal(h) => SemSignalStep(s0, h)
    case Sleep(time, _) => SleepStep(s0, time)
    case Getc => Goes(GetcStep(s0))
    case Putc(full) => Goes(PutcStep(s0, full))
    case UnknownCall => Goes(s0)
    case KernelDispatch => Goes(KernelDispatchStep(s0))
  }
}
