/** What every transition keeps, and what no transition does. */
module Safety {
  import opened Options
  import opened Words
  import Runs
  import opened Memory
  import opened DeltaQueue
  import Sequences
  import Semaphores
  import opened ThreadQueues
  import opened Ownership
  import opened Machine

  /** Each live allocation is what it is recorded to be. */
  ghost predicate Belongs(base: nat, uses: map<nat, Use>, threads: map<nat, Tcb>, q: Queues, idle: nat) {
    Kinds(uses, threads.Keys, q.sems.Keys, q.home) && Stacks(base, uses, threads, idle)
  }

  ghost predicate Kinds(uses: map<nat, Use>, threads: set<nat>, sems: set<nat>, home: map<nat, Ring>) {
    && (forall b :: b in threads <==> b in uses && uses[b] == ThreadOf)
    && (forall b :: b in sems <==> b in uses && uses[b] == SemOf)
    && (forall b :: b in home && home[b] == Asleep <==> b in uses && uses[b] == SleeperOf)
  }

  ghost predicate Stacks(base: nat, uses: map<nat, Use>, threads: map<nat, Tcb>, idle: nat) {
    && (forall b :: b in uses && uses[b].StackOf? ==>
          var t := uses[b].thread; t in threads && t != idle && threads[t].bp == AddrOf(base, b))
    && (forall t :: t in threads && t != idle ==> HasStack(base, uses, t, threads[t].bp))
  }

  /** bp is the start of the run that is t's stack. */
  ghost predicate HasStack(base: nat, uses: map<nat, Use>, t: nat, bp: nat) {
    && base <= bp && (bp - base) % BLOCK == 0
    && BlockOf(base, bp) in uses && uses[BlockOf(base, bp)] == StackOf(t)
  }

  /** Time slices between traps: one or two ticks left, and a fresh slice in the ready ring. */
  ghost predicate Slices(threads: map<nat, Tcb>, ready: seq<nat>) {
    && (forall t :: t in threads ==> 1 <= threads[t].timeLeft <= TIME_SLICE)
    && (forall t :: t in ready && t in threads ==> threads[t].timeLeft == TIME_SLICE)
  }

  /** Everything but the processor. */
  ghost predicate Core(s: State, cpu: Option<nat>) {
    && 0 < s.base && s.base + s.blocks * BLOCK < TWO64 && 2 <= s.blocks < TWO31
    && Owned(s.mem, s.blocks, IndexBlocks(s.blocks))
    && RingsOk(s.q) && Placed(s.threads.Keys, s.q, cpu, s.idle)
    && Belongs(s.base, s.mem.uses, s.threads, s.q, s.idle)
    && Slices(s.threads, s.q.ready)
    && s.users == |s.threads| - 1
  }

  /** Only kernel_main runs in supervisor mode; `off` is the set of threads whose saved
      registers count. */
  ghost predicate Modes(s: State) {
    && (s.csr.sstatus.kernel <==> s.current == s.idle)
    && (forall t :: t in s.threads && t != s.current ==> (s.threads[t].frame.sstatus.kernel <==> t == s.idle))
  }

  /** Readers wait only while there is nothing to read. */
  ghost predicate Received(s: State) {
    && |s.rx| <= RX_SIZE
    && (s.q.input != [] ==> s.rx == [])
  }

  ghost predicate Inv(s: State) {
    && Core(s, Some(s.current)) && Waiting(s.q.sleepers) && Modes(s) && Received(s)
  }

  lemma CoreRefs(s: State, cpu: Option<nat>)
    requires Core(s, cpu) && s.current in s.threads
    ensures Refs(s)
  {
    assert RingOk(s.q, Ready) && RingOk(s.q, Input);
    forall h, t | h in s.q.sems && t in s.q.sems[h].queue ensures t in s.threads {
      assert RingOk(s.q, OnSem(h));
      assert t in RingOf(s.q, OnSem(h));
    }
    assert forall t :: t in s.q.ready ==> t in RingOf(s.q, Ready);
    assert forall t :: t in s.q.input ==> t in RingOf(s.q, Input);
  }

  lemma Basics(s: State)
    requires Core(s, Some(s.current))
    ensures Refs(s) && s.current in s.threads
    ensures forall t :: t in s.threads ==> 1 <= s.threads[t].timeLeft <= TIME_SLICE
  {
    CoreRefs(s, Some(s.current));
  }

  /** Core says nothing about the registers, the input buffer and the result cells. */
  lemma CoreSame(s: State, s': State, cpu: Option<nat>)
    requires Core(s, cpu) && s' == s.(csr := s'.csr, rx := s'.rx, a0 := s'.a0)
    ensures Core(s', cpu)
  {
  }

  /** Modes looks at the mode bits of the registers and of the saved frames only. */
  lemma ModesSame(s: State, s': State)
    requires Modes(s) && s'.current == s.current && s'.idle == s.idle && s'.csr.sstatus.kernel == s.csr.sstatus.kernel
    requires s'.threads.Keys <= s.threads.Keys
    requires forall t :: t in s'.threads && t != s.current ==> s'.threads[t].frame == s.threads[t].frame
    ensures Modes(s')
  {
  }

  lemma InvParts(s: State)
    requires Inv(s)
    ensures Core(s, Some(s.current)) && Waiting(s.q.sleepers) && Modes(s) && Received(s)
  {
  }

  lemma SetValRefs(s: State, h: nat, v: int)
    requires Refs(s) && h in s.q.sems
    ensures Refs(s.(q := SetVal(s.q, h, v)))
  {
  }

  lemma PlacedKnown(threads: set<nat>, q: Queues, cpu: Option<nat>, idle: nat)
    requires Placed(threads, q, cpu, idle)
    ensures idle in threads && (cpu.Some? ==> cpu.value in threads)
  {
  }

  lemma WaiterKnown(s: State, h: nat)
    requires Refs(s) && h in s.q.sems && s.q.sems[h].queue != []
    ensures s.q.sems[h].queue[0] in s.threads
  {
  }

  /** Block 0 is the index and nothing else. */
  lemma NotTheIndex(m: Mem, blocks: nat, index: nat, b: nat)
    requires Owned(m, blocks, index) && b in m.uses && m.uses[b] != Index
    ensures b != 0
  {
  }

  /* ---- frames ---- */

  /** The same threads with the same stacks. */
  ghost predicate SameThreads(ts: map<nat, Tcb>, ts': map<nat, Tcb>) {
    ts.Keys == ts'.Keys && forall t :: t in ts ==> ts'[t].bp == ts[t].bp
  }

  lemma SameKeys(ts: map<nat, Tcb>, ts': map<nat, Tcb>)
    requires SameThreads(ts, ts')
    ensures ts.Keys == ts'.Keys
  {
  }

  /** The same semaphores and the same sleepers' records. */
  ghost predicate SameRecords(q: Queues, q': Queues) {
    && q.sems.Keys == q'.sems.Keys
    && forall b :: (b in q.home && q.home[b] == Asleep) <==> (b in q'.home && q'.home[b] == Asleep)
  }

  lemma BelongsFrame(base: nat, uses: map<nat, Use>, ts: map<nat, Tcb>, ts': map<nat, Tcb>, q: Queues, q': Queues,
                     idle: nat)
    requires Belongs(base, uses, ts, q, idle) && SameThreads(ts, ts') && SameRecords(q, q')
    ensures Belongs(base, uses, ts', q', idle)
  {
  }

  /** A transition piece that only moves threads between places keeps the core. */
  lemma CoreFrame(s: State, s': State, cpu: Option<nat>, cpu': Option<nat>)
    requires Core(s, cpu)
    requires s'.base == s.base && s'.blocks == s.blocks && s'.mem == s.mem && s'.users == s.users && s'.idle == s.idle
    requires SameThreads(s.threads, s'.threads) && SameRecords(s.q, s'.q)
    requires RingsOk(s'.q) && Placed(s.threads.Keys, s'.q, cpu', s.idle)
    requires Slices(s'.threads, s'.q.ready)
    ensures Core(s', cpu')
  {
    hide Owned, Placed, Slices, RingsOk, Belongs, SameThreads, SameRecords;
    BelongsFrame(s.base, s.mem.uses, s.threads, s'.threads, s.q, s'.q, s.idle);
    SameKeys(s.threads, s'.threads);
    assert |s'.threads| == |s'.threads.Keys| && |s.threads| == |s.threads.Keys|;
  }

  /* ---- the processor changes hands ---- */

  lemma ChoiceRecords(q: Queues)
    requires RingsOk(q)
    ensures SameRecords(q, AfterChoice(q))
  {
    assert RingOk(q, Ready);
    if q.ready != [] { assert q.ready[0] in RingOf(q, Ready); }
  }

  lemma SwitchCore(s: State)
    requires Core(s, None) && s.current in s.threads && Refs(s)
    ensures Core(Switch(s), Some(Switch(s).current))
  {
    hide Owned, Belongs, Slices, RingsOk, Placed, SameRecords, SameThreads, AfterChoice, Refs;
    Choose(s.threads.Keys, s.q, s.idle);
    SwitchThreads(s);
    ChoiceRecords(s.q);
    CoreFrame(s, Switch(s), None, Some(Switch(s).current));
  }

  lemma SwitchThreads(s: State)
    requires Refs(s) && Slices(s.threads, s.q.ready)
    ensures SameThreads(s.threads, Switch(s).threads)
    ensures Slices(Switch(s).threads, Switch(s).q.ready)
  {
    var s' := Switch(s);
    assert forall t :: t in s'.q.ready ==> t in s.q.ready;
    assert forall t :: t in s.threads ==> s'.threads[t].timeLeft == s.threads[t].timeLeft;
  }

  lemma SwitchModes(s: State)
    requires Refs(s) && Modes(s)
    ensures Modes(Switch(s))
  {
  }

  lemma SwitchOk(s: State)
    requires Core(s, None) && s.current in s.threads && Modes(s)
    ensures Refs(s) && Core(Switch(s), Some(Switch(s).current)) && Modes(Switch(s))
  {
    hide Core, Modes;
    CoreRefs(s, None);
    SwitchCore(s);
    SwitchModes(s);
  }

  /** The current thread is put at the end of a wait ring. */
  lemma EnqueueCore(s: State, r: Ring)
    requires Core(s, Some(s.current)) && s.current != s.idle
    requires r == Input || (r.OnSem? && r.sem in s.q.sems)
    ensures Core(s.(q := Enqueue(s.q, r, s.current)), None)
  {
    hide Owned, Belongs, Slices, RingsOk;
    assert s.current !in s.q.home && s.current in s.threads;
    EnqueueOk(s.q, r, s.current);
    PutAway(s.threads.Keys, s.q, s.current, s.idle, r);
    hide Placed;
    CoreFrame(s, s.(q := Enqueue(s.q, r, s.current)), Some(s.current), None);
  }

  lemma RefillThreads(ts: map<nat, Tcb>, ready: seq<nat>, t: nat)
    requires t in ts && Slices(ts, ready)
    ensures SameThreads(ts, ts[t := ts[t].(timeLeft := TIME_SLICE)])
    ensures Slices(ts[t := ts[t].(timeLeft := TIME_SLICE)], ready + [t])
  {
  }

  lemma AdmitRecords(q: Queues, r: Ring)
    requires RingsOk(q) && (r == Input || r.OnSem?) && RingOf(q, r) != []
    ensures SameRecords(q, Admit(q, r)) && Admit(q, r).ready == q.ready + [RingOf(q, r)[0]]
  {
    assert RingOk(q, r) && RingOf(q, r)[0] in RingOf(q, r);
  }

  /** A waiter gets its result and becomes ready. */
  lemma UnblockCore(s: State, r: Ring, v: int)
    requires Core(s, Some(s.current)) && (r == Input || r.OnSem?) && RingOf(s.q, r) != []
    ensures Refs(s) && Core(Unblock(s, r, v), Some(s.current)) && Unblock(s, r, v).current == s.current
  {
    CoreRefs(s, Some(s.current));
    AdmitOk(s.threads.Keys, s.q, Some(s.current), s.idle, r);
    AdmitRecords(s.q, r);
    RefillThreads(s.threads, s.q.ready, RingOf(s.q, r)[0]);
    hide RingsOk, Placed, Belongs, Slices, SameRecords, SameThreads, Owned, Refs, Admit;
    CoreFrame(s, Unblock(s, r, v), Some(s.current), Some(s.current));
  }

  /* ---- allocation ---- */

  lemma BelongsDropSleeper(base: nat, uses: map<nat, Use>, ts: map<nat, Tcb>, ts': map<nat, Tcb>, q: Queues,
                           q': Queues, idle: nat, b: nat)
    requires Belongs(base, uses, ts, q, idle) && SameThreads(ts, ts')
    requires q'.sems.Keys == q.sems.Keys && b in q.home && q.home[b] == Asleep
    requires forall n :: (n in q'.home && q'.home[n] == Asleep) <==> (n in q.home && q.home[n] == Asleep && n != b)
    ensures Belongs(base, uses - {b}, ts', q', idle)
  {
  }

  lemma WakeRecords(base: nat, uses: map<nat, Use>, ts: map<nat, Tcb>, ts': map<nat, Tcb>, q: Queues, idle: nat)
    requires Belongs(base, uses, ts, q, idle) && SameThreads(ts, ts')
    requires RingsOk(q) && q.sleepers != []
    requires q.sleepers[0].thread !in q.home && q.sleepers[0].thread != q.sleepers[0].node
    ensures var b := q.sleepers[0].node;
            b in uses && uses[b] == SleeperOf && Belongs(base, uses - {b}, ts', Wake(q), idle)
  {
    assert RingOk(q, Asleep);
    assert Nodes(q.sleepers)[0] in RingOf(q, Asleep);
    BelongsDropSleeper(base, uses, ts, ts', q, Wake(q), idle, q.sleepers[0].node);
  }

  /** One round of the loop of `__scheduler_tick`. */
  ghost function WakeOne(s: State, m: Mem): State
    requires Refs(s) && s.q.sleepers != []
  {
    assert Threads(s.q.sleepers)[0] == s.q.sleepers[0].thread;
    Refill(s.(mem := m, q := Wake(s.q)), s.q.sleepers[0].thread)
  }

  lemma WakeOneOk(s: State)
    requires Core(s, Some(s.current)) && s.q.sleepers != []
    ensures Refs(s)
    ensures var o := Drop(s.mem, s.q.sleepers[0].node);
            o.Some? && Core(WakeOne(s, o.value), Some(s.current))
    ensures s.q.sleepers[0].thread != s.current
  {
    hide Owned, Placed, RingsOk, Slices, Belongs, Drop, SameThreads, Refs;
    var x := s.q.sleepers[0];
    PlacedKnown(s.threads.Keys, s.q, Some(s.current), s.idle);
    CoreRefs(s, Some(s.current));
    WakeOk(s.threads.Keys, s.q, Some(s.current), s.idle);
    RefillThreads(s.threads, s.q.ready, x.thread);
    var ts := s.threads[x.thread := s.threads[x.thread].(timeLeft := TIME_SLICE)];
    assert ts.Keys == s.threads.Keys;
    WakeRecords(s.base, s.mem.uses, s.threads, ts, s.q, s.idle);
    NotTheIndex(s.mem, s.blocks, IndexBlocks(s.blocks), x.node);
    DropOk(s.mem, x.node, s.blocks, IndexBlocks(s.blocks));
    assert |ts| == |ts.Keys| && |s.threads| == |s.threads.Keys|;
  }

  /** What a transition piece leaves alone: the registers, the processor, and every saved frame. */
  ghost predicate Quiet(s: State, s': State) {
    && s'.csr == s.csr && s'.current == s.current && s'.idle == s.idle && s'.threads.Keys == s.threads.Keys
    && forall t :: t in s.threads ==> s'.threads[t].frame == s.threads[t].frame
  }

  lemma QuietSame(s: State, s': State)
    requires s'.csr == s.csr && s'.current == s.current && s'.idle == s.idle && s'.threads == s.threads
    ensures Quiet(s, s')
  {
  }

  lemma QuietCurrent(s: State, s': State)
    requires Quiet(s, s')
    ensures s'.current == s.current && s'.threads.Keys == s.threads.Keys
  {
  }

  lemma QuietTrans(s: State, s1: State, s2: State)
    requires Quiet(s, s1) && Quiet(s1, s2)
    ensures Quiet(s, s2)
  {
  }

  /** The tick loop from s to s' makes the due sleepers ready, in order, and does nothing else. */
  ghost predicate Woke(s: State, s': State) {
    var q := s.q;
    && Quiet(s, s') && s'.rx == s.rx && s'.a0 == s.a0
    && s'.q.sleepers == q.sleepers[Woken(q.sleepers)..]
    && s'.q.ready == q.ready + Threads(q.sleepers[..Woken(q.sleepers)])
    && s'.q.input == q.input && s'.q.sems == q.sems
    && s.current in s.threads && s'.threads[s.current].timeLeft == s.threads[s.current].timeLeft
  }

  lemma WokeOne(s: State, m: Mem, s2: State)
    requires Refs(s) && s.q.sleepers != [] && s.q.sleepers[0].delta == 0
    requires s.q.sleepers[0].thread != s.current
    requires Woke(WakeOne(s, m), s2)
    ensures Woke(s, s2)
  {
    hide Quiet, Woken, Threads;
    QuietOne(s, m);
    QuietTrans(s, WakeOne(s, m), s2);
    WakeSplit(s.q.sleepers);
  }

  lemma QuietOne(s: State, m: Mem)
    requires Refs(s) && s.q.sleepers != []
    ensures Quiet(s, WakeOne(s, m)) && s.q.sleepers[0].thread in s.threads
  {
    assert Threads(s.q.sleepers)[0] == s.q.sleepers[0].thread;
  }

  lemma WokeNone(s: State)
    requires s.current in s.threads && Woken(s.q.sleepers) == 0
    ensures Woke(s, s)
  {
    assert s.q.ready + [] == s.q.ready;
  }

  lemma WakeOneShape(s: State, m: Mem)
    requires Refs(s) && s.q.sleepers != [] && s.q.sleepers[0].delta == 0
    requires Drop(s.mem, s.q.sleepers[0].node) == Some(m)
    ensures var s1 := WakeOne(s, m);
            s1.current == s.current && |s1.q.sleepers| < |s.q.sleepers| && Refs(s1) && WakeDue(s) == WakeDue(s1)
  {
    hide Drop;
    assert Threads(s.q.sleepers)[0] == s.q.sleepers[0].thread;
    assert Threads(s.q.sleepers[1..]) == Threads(s.q.sleepers)[1..];
  }

  /** The tick loop always gets through. */
  lemma {:induction false} WakeDueOk(s: State)
    requires Core(s, Some(s.current))
    ensures Refs(s) && WakeDue(s).Goes?
    ensures Core(WakeDue(s).state, Some(s.current)) && Woke(s, WakeDue(s).state)
    decreases |s.q.sleepers|
  {
    hide Core, Drop, Woke, Quiet, WakeOne;
    Basics(s);
    if s.q.sleepers != [] && s.q.sleepers[0].delta == 0 {
      WakeOneOk(s);
      var m := Drop(s.mem, s.q.sleepers[0].node).value;
      var s1 := WakeOne(s, m);
      WakeOneShape(s, m);
      WakeDueOk(s1);
      WokeOne(s, m, WakeDue(s1).state);
    } else {
      WokeNone(s);
    }
  }

  lemma WakeSplit(q: seq<Sleeper>)
    requires q != [] && q[0].delta == 0
    ensures q[Woken(q)..] == q[1..][Woken(q[1..])..]
    ensures Threads(q[..Woken(q)]) == [q[0].thread] + Threads(q[1..][..Woken(q[1..])])
  {
  }

  /* ---- one lemma per trap ---- */

  /** The state the trap handler starts from. */
  function Enter(s: State, e: Trap, f: Frame): State { s.(csr := Entry(e, f)) }

  lemma EnterOk(s: State, e: Trap, f: Frame)
    requires Inv(s) && Enabled(s, e, f)
    ensures Inv(Enter(s, e, f)) && Refs(s) && Refs(Enter(s, e, f)) && s.current in s.threads
    ensures IsUserCall(e) ==> s.current != s.idle
    ensures e.KernelDispatch? ==> s.current == s.idle
    ensures e.ThreadCreate? ==> IsFreshStack(Enter(s, e, f), e.stack)
    ensures IsUserCall(e) ==> !f.sstatus.kernel
  {
    hide Core, Refs;
    Basics(s);
    CoreSame(s, Enter(s, e, f), Some(s.current));
    Basics(Enter(s, e, f));
    hide Modes;
    ModesSame(s, Enter(s, e, f));
    EnterMode(s, e, f);
  }

  lemma EnterMode(s: State, e: Trap, f: Frame)
    requires Modes(s) && Enabled(s, e, f)
    ensures IsUserCall(e) ==> s.current != s.idle && !f.sstatus.kernel
    ensures e.KernelDispatch? ==> s.current == s.idle
    ensures e.ThreadCreate? ==> IsFreshStack(Enter(s, e, f), e.stack)
  {
  }

  lemma RefillCore(s: State, left: nat)
    requires Core(s, Some(s.current))
    ensures s.current in s.threads
    ensures Core(Refill(SetTime(s, s.current, left).(q := Enqueue(s.q, Ready, s.current)), s.current), None)
  {
    hide RingsOk, Belongs, Owned;
    EnqueueOk(s.q, Ready, s.current);
    PutAway(s.threads.Keys, s.q, s.current, s.idle, Ready);
    RefillThreads(s.threads, s.q.ready, s.current);
    var s' := Refill(SetTime(s, s.current, left).(q := Enqueue(s.q, Ready, s.current)), s.current);
    assert s'.threads == s.threads[s.current := s.threads[s.current].(timeLeft := TIME_SLICE)];
    hide Placed, Slices, SameThreads;
    CoreFrame(s, s', Some(s.current), None);
  }

  /** The current thread, whatever is left of its slice, goes to the end of the ready ring. */
  lemma PreemptOk(s: State, left: nat)
    requires Core(s, Some(s.current)) && Modes(s)
    ensures s.current in s.threads && Refs(SetTime(s, s.current, left))
    ensures var s' := Preempt(SetTime(s, s.current, left)); Core(s', Some(s'.current)) && Modes(s')
  {
    hide Core, Modes, Switch, Refs;
    RefillCore(s, left);
    Basics(s);
    RefsSet(s, left);
    var s1 := Refill(SetTime(s, s.current, left).(q := Enqueue(s.q, Ready, s.current)), s.current);
    ModesSame(s, s1);
    SwitchOk(s1);
  }

  lemma RefsSet(s: State, left: nat)
    requires Refs(s)
    ensures Refs(SetTime(s, s.current, left))
  {
  }

  lemma DispatchOk(s: State)
    requires Core(s, Some(s.current)) && Modes(s)
    ensures Refs(s) && Core(Preempt(s), Some(Preempt(s).current)) && Modes(Preempt(s))
  {
    hide Core, Modes, Refs, Preempt;
    Basics(s);
    PreemptOk(s, s.threads[s.current].timeLeft);
    assert SetTime(s, s.current, s.threads[s.current].timeLeft) == s;
  }

  /** Switching and time slices leave sleepers and readers alone. */
  lemma SwitchRest(s: State)
    requires Refs(s)
    ensures Switch(s).q.sleepers == s.q.sleepers && Switch(s).q.input == s.q.input && Switch(s).rx == s.rx
    ensures Switch(s).q.sems == s.q.sems
  {
  }

  lemma TickStart(s: State)
    requires Core(s, Some(s.current)) && Waiting(s.q.sleepers)
    ensures Core(s.(q := s.q.(sleepers := Decrement(s.q.sleepers))), Some(s.current))
  {
    hide RingsOk, Placed, Owned, Belongs, Slices, Waiting;
    var q, q' := s.q, s.q.(sleepers := Decrement(s.q.sleepers));
    DecrementDue(q.sleepers);
    RingsSame(q, q');
    PlacedSame(s.threads.Keys, q, q', Some(s.current), s.idle);
    CoreFrame(s, s.(q := q'), Some(s.current), Some(s.current));
  }

  lemma RingsSame(q: Queues, q': Queues)
    requires RingsOk(q) && q'.home == q.home && forall r :: RingOf(q', r) == RingOf(q, r)
    ensures RingsOk(q')
  {
    forall r ensures RingOk(q', r) { assert RingOk(q, r); }
  }

  /** The state after the sleepers' part of the timer trap. */
  ghost function Ticked(s: State): Outcome
    requires Refs(s)
  {
    WakeDue(s.(q := s.q.(sleepers := Decrement(s.q.sleepers))))
  }

  lemma TickedOk(s: State)
    requires Inv(s)
    ensures Refs(s) && Ticked(s).Goes? && Inv(Ticked(s).state)
    ensures Woke(s.(q := s.q.(sleepers := Decrement(s.q.sleepers))), Ticked(s).state)
  {
    hide Core, Waiting, Refs;
    var s0 := s.(q := s.q.(sleepers := Decrement(s.q.sleepers)));
    Basics(s);
    TickStart(s);
    TickDue(s.q.sleepers);
    WakeDueOk(s0);
  }

  lemma TimerOk(s: State)
    requires Inv(s)
    ensures Refs(s) && TimerStep(s).Goes? && Inv(TimerStep(s).state)
  {
    hide Inv, Decrement, Preempt, WakeDue, Woke;
    TickedOk(s);
    TimerEnd(Ticked(s).state);
  }

  /** The end of the timer trap: one tick off the slice, and a switch when it is used up. */
  lemma TimerEnd(s: State)
    requires Inv(s)
    ensures s.current in s.threads && Refs(s)
    ensures var left := (s.threads[s.current].timeLeft + TWO64 - 1) % TWO64;
            && left == s.threads[s.current].timeLeft - 1
            && Refs(SetTime(s, s.current, left))
            && Inv(if left == 0 then Preempt(SetTime(s, s.current, left)) else SetTime(s, s.current, left))
  {
    hide Core, Waiting, Refs, Switch;
    Basics(s);
    var left := s.threads[s.current].timeLeft - 1;
    TickedCore(s, left);
    PreemptOk(s, left);
    PreemptRest(SetTime(s, s.current, left));
  }

  lemma PreemptRest(s: State)
    requires Refs(s)
    ensures Preempt(s).q.sleepers == s.q.sleepers && Preempt(s).q.input == s.q.input && Preempt(s).rx == s.rx
    ensures Preempt(s).q.sems == s.q.sems
  {
    SwitchRest(Refill(s.(q := Enqueue(s.q, Ready, s.current)), s.current));
  }

  lemma TickedCore(s: State, left: nat)
    requires Core(s, Some(s.current))
    ensures s.current in s.threads && (1 <= left <= TIME_SLICE ==> Core(SetTime(s, s.current, left), Some(s.current)))
  {
    hide Owned, Belongs;
    var s2 := SetTime(s, s.current, left);
    assert s.current !in s.q.ready by { assert RingOk(s.q, Ready); assert s.current !in RingOf(s.q, Ready); }
    assert SameThreads(s.threads, s2.threads);
    assert 1 <= left <= TIME_SLICE ==> Slices(s2.threads, s2.q.ready);
    hide RingsOk, Placed, Slices, SameThreads;
    if 1 <= left <= TIME_SLICE {
      CoreFrame(s, s2, Some(s.current), Some(s.current));
    }
  }

  /* ---- blocking and unblocking ---- */

  lemma BlockOk(s: State, r: Ring)
    requires Core(s, Some(s.current)) && Modes(s) && s.current != s.idle
    requires r == Input || (r.OnSem? && r.sem in s.q.sems)
    ensures Refs(s)
    ensures var s' := BlockOn(s, r); Core(s', Some(s'.current)) && Modes(s')
    ensures var s' := BlockOn(s, r); s'.q.sleepers == s.q.sleepers && s'.rx == s.rx
    ensures BlockOn(s, r).q.input == if r == Input then s.q.input + [s.current] else s.q.input
    ensures BlockOn(s, r).q.sems == Enqueue(s.q, r, s.current).sems
  {
    hide Core, Refs, Switch;
    Basics(s);
    EnqueueCore(s, r);
    var s1 := s.(q := Enqueue(s.q, r, s.current));
    SwitchOk(s1);
    SwitchRest(s1);
  }

  lemma SetValCore(s: State, h: nat, v: int)
    requires Core(s, Some(s.current)) && h in s.q.sems
    ensures Core(s.(q := SetVal(s.q, h, v)), Some(s.current))
  {
    hide RingsOk, Owned, Belongs, Slices;
    SetValOk(s.q, h, v);
    assert Placed(s.threads.Keys, SetVal(s.q, h, v), Some(s.current), s.idle);
    hide Placed;
    CoreFrame(s, s.(q := SetVal(s.q, h, v)), Some(s.current), Some(s.current));
  }

  lemma WaitOk(s: State, h: nat)
    requires Inv(s) && h in s.q.sems && s.current != s.idle
    ensures Refs(s) && Inv(SemWaitStep(s, h))
  {
    hide Core, Refs, Waiting, BlockOn, Modes;
    Basics(s);
    var v := Semaphores.Wrap32(s.q.sems[h].val - 1);
    var s1 := s.(q := SetVal(s.q, h, v));
    SetValCore(s, h, v);
    ModesSame(s, s1);
    BlockOk(s1, OnSem(h));
    ReturnOk(s1, 0);
  }

  lemma UnblockRest(s: State, r: Ring, v: int)
    requires Refs(s) && (r == Input || r.OnSem?) && RingOf(s.q, r) != []
    ensures var s' := Unblock(s, r, v);
            && Quiet(s, s') && s'.q.sleepers == s.q.sleepers && s'.rx == s.rx
            && s'.q.input == (if r == Input then s.q.input[1..] else s.q.input)
            && s'.q.ready == s.q.ready + [RingOf(s.q, r)[0]]
            && s'.q.sems == Admit(s.q, r).sems
            && s'.a0 == s.a0[s.threads[RingOf(s.q, r)[0]].frame.sp := v]
  {
  }

  lemma QuietModes(s: State, s': State)
    requires Modes(s) && Quiet(s, s')
    ensures Modes(s')
  {
  }

  lemma SignalOk(s: State, h: nat)
    requires Inv(s) && h in s.q.sems
    ensures Refs(s) && SemSignalStep(s, h).Goes? && Inv(SemSignalStep(s, h).state)
  {
    hide Core, Refs, Waiting, Modes, Unblock, Quiet;
    Basics(s);
    var v := Semaphores.Wrap32(s.q.sems[h].val + 1);
    var s1 := s.(q := SetVal(s.q, h, v));
    SetValCore(s, h, v);
    Basics(s1);
    ReturnOk(s1, 0);
    ReturnOk(s1, Semaphores.SEM_SIGNAL_NO_THREADS);
    ModesSame(s, s1);
    if s.q.sems[h].queue != [] {
      UnblockCore(s1, OnSem(h), 0);
      UnblockRest(s1, OnSem(h), 0);
      QuietModes(s1, Unblock(s1, OnSem(h), 0));
      ReturnOk(Unblock(s1, OnSem(h), 0), 0);
      WaiterKnown(s, h);
    }
  }

  lemma ReturnOk(s: State, v: int)
    ensures Core(s, Some(s.current)) ==> Core(Return(s, v), Some(s.current))
    ensures Modes(s) ==> Modes(Return(s, v))
  {
  }

  /** Serving readers ends with nobody waiting or nothing left. */
  lemma {:induction false} ServeOk(s: State)
    requires Core(s, Some(s.current))
    ensures Refs(s)
    ensures var s' := Serve(s);
            && Core(s', Some(s.current)) && Quiet(s, s') && s'.q.sleepers == s.q.sleepers && s'.q.sems == s.q.sems
            && (s'.q.input == [] || s'.rx == []) && |s'.rx| <= |s.rx|
    decreases |s.q.input|
  {
    hide Core, Refs, Unblock, Quiet;
    Basics(s);
    if s.q.input == [] || s.rx == [] {
      QuietSame(s, s);
    } else {
      UnblockCore(s, Input, s.rx[0]);
      UnblockRest(s, Input, s.rx[0]);
      var s1 := Unblock(s, Input, s.rx[0]).(rx := s.rx[1..]);
      ServeOneOk(s, s1);
      ServeOk(s1);
      QuietTrans(s, s1, Serve(s1));
    }
  }

  /** The k longest-waiting readers get the k oldest bytes and become ready, in order, where k is
      the smaller of the number of readers and the number of bytes. */
  lemma {:induction false} ServeOrder(s: State)
    requires Core(s, Some(s.current))
    ensures Refs(s)
    ensures var k := if |s.rx| <= |s.q.input| then |s.rx| else |s.q.input|;
            && Serve(s).rx == s.rx[k..] && Serve(s).q.input == s.q.input[k..]
            && Serve(s).q.ready == s.q.ready + s.q.input[..k]
    decreases |s.q.input|
  {
    hide Core, Refs, Unblock, Quiet;
    Basics(s);
    if s.q.input == [] || s.rx == [] {
      assert s.q.ready + s.q.input[..0] == s.q.ready;
    } else {
      UnblockCore(s, Input, s.rx[0]);
      UnblockRest(s, Input, s.rx[0]);
      var s1 := Unblock(s, Input, s.rx[0]).(rx := s.rx[1..]);
      ServeOneOk(s, s1);
      ServeOrder(s1);
      var k := if |s1.rx| <= |s1.q.input| then |s1.rx| else |s1.q.input|;
      ServeChain(s.rx, s.q.input, s.q.ready, k);
    }
  }

  lemma ServeOneOk(s: State, s1: State)
    requires Refs(s) && s.q.input != [] && s.rx != []
    requires Core(Unblock(s, Input, s.rx[0]), Some(s.current)) && Quiet(s, Unblock(s, Input, s.rx[0]))
    requires s1 == Unblock(s, Input, s.rx[0]).(rx := s.rx[1..])
    ensures Core(s1, Some(s1.current)) && Quiet(s, s1)
  {
  }

  lemma ServeChain(rx: seq<int>, input: seq<nat>, ready: seq<nat>, k: nat)
    requires rx != [] && input != [] && k < |rx| && k < |input|
    ensures rx[1..][k..] == rx[k + 1..] && input[1..][k..] == input[k + 1..]
    ensures ready + [input[0]] + input[1..][..k] == ready + input[..k + 1]
  {
    assert input[..k + 1] == [input[0]] + input[1..][..k];
  }

  lemma ConsoleOk(s: State, bytes: seq<int>)
    requires Inv(s)
    ensures Refs(s) && Inv(ConsoleStep(s, bytes)) && Quiet(s, ConsoleStep(s, bytes))
  {
    hide Core, Refs, Waiting, Modes, Serve, Quiet;
    Basics(s);
    var room := RX_SIZE - |s.rx|;
    var s1 := s.(rx := s.rx + if |bytes| <= room then bytes else bytes[..room]);
    CoreSame(s, s1, Some(s.current));
    ModesSame(s, s1);
    ServeOk(s1);
    QuietModes(s1, Serve(s1));
    QuietSame(s, s1);
    QuietTrans(s, s1, Serve(s1));
  }

  lemma GetcOk(s: State)
    requires Inv(s) && s.current != s.idle
    ensures Refs(s) && Inv(GetcStep(s))
  {
    hide Core, Refs, Waiting, BlockOn, Modes;
    Basics(s);
    if s.rx == [] {
      BlockOk(s, Input);
    } else {
      var s' := GetcStep(s);
      CoreSame(s, s', Some(s.current));
      ModesSame(s, s');
    }
  }

  lemma PutcOk(s: State, full: bool)
    requires Inv(s)
    ensures Refs(s) && Inv(PutcStep(s, full))
  {
    hide Waiting, Preempt, Core, Modes, Refs;
    Basics(s);
    if full {
      var again := (s.csr.sepc + TWO64 - 4) % TWO64;
      var s1 := Stale(s, again, (again + TWO64 - 4) % TWO64);
      StaleOk(s, again, (again + TWO64 - 4) % TWO64);
      DispatchOk(s1);
      PreemptRest(s1);
    }
  }

  /** The registers set back by four, and some saved sepc for the thread that is running. */
  function Stale(s: State, again: nat, saved: nat): State
    requires s.current in s.threads
  {
    var t := s.threads[s.current];
    s.(csr := s.csr.(sepc := again), threads := s.threads[s.current := t.(frame := t.frame.(sepc := saved))])
  }

  lemma StaleOk(s: State, again: nat, saved: nat)
    requires Core(s, Some(s.current)) && Modes(s)
    ensures s.current in s.threads
    ensures var s1 := Stale(s, again, saved); Core(s1, Some(s1.current)) && Modes(s1)
  {
    hide RingsOk, Placed, Owned, Belongs;
    Basics(s);
    var s1 := Stale(s, again, saved);
    assert SameThreads(s.threads, s1.threads) && Slices(s1.threads, s1.q.ready);
    assert SameRecords(s.q, s1.q);
    assert Modes(s1);
    hide Slices, SameThreads, SameRecords;
    CoreFrame(s, s1, Some(s.current), Some(s.current));
  }

  lemma KernelDispatchOk(s: State)
    requires Inv(s) && s.current == s.idle
    ensures Refs(s) && Inv(KernelDispatchStep(s))
    ensures KernelDispatchStep(s) == Switch(s)
  {
    hide Waiting, Owned, RingsOk, Belongs, Slices;
    Basics(s);
    assert Core(s, None);
    hide Core, Modes;
    SwitchOk(s);
    SwitchRest(s);
  }

  /* ---- traps that allocate and release ---- */

  /** A block just allocated is nobody's. */
  lemma Fresh(base: nat, uses: map<nat, Use>, ts: map<nat, Tcb>, q: Queues, cpu: Option<nat>, idle: nat, b: nat)
    requires Belongs(base, uses, ts, q, idle) && Placed(ts.Keys, q, cpu, idle) && b !in uses
    ensures b !in ts && b !in q.sems && b !in q.home
  {
  }

  /** A block just allocated is nothing the kernel knows yet. */
  lemma GrabFresh(s: State, u: Use)
    requires Core(s, Some(s.current)) && RightSize(u, 1) && u != Index
    ensures Grab(s.mem, 1, u).Some? ==>
              var b := Grab(s.mem, 1, u).value.1;
              b !in s.threads && b !in s.q.sems && b !in s.q.home && b != 0
  {
    hide Owned, Grab, Belongs, Placed, RingsOk, Slices;
    GrabOk(s.mem, 1, u, s.blocks, IndexBlocks(s.blocks));
    var o := Grab(s.mem, 1, u);
    if o.Some? { Fresh(s.base, s.mem.uses, s.threads, s.q, Some(s.current), s.idle, o.value.1); }
  }

  lemma PlacedSame(threads: set<nat>, q: Queues, q': Queues, cpu: Option<nat>, idle: nat)
    requires Placed(threads, q, cpu, idle) && q'.home == q.home && Threads(q'.sleepers) == Threads(q.sleepers)
    ensures Placed(threads, q', cpu, idle)
  {
  }

  lemma BelongsAddUser(base: nat, uses: map<nat, Use>, ts: map<nat, Tcb>, q: Queues, idle: nat, b: nat)
    requires Belongs(base, uses, ts, q, idle) && b !in uses
    ensures Belongs(base, uses[b := User], ts, q, idle)
  {
  }

  lemma BelongsAddSem(base: nat, uses: map<nat, Use>, ts: map<nat, Tcb>, q: Queues, q': Queues, idle: nat, b: nat)
    requires Belongs(base, uses, ts, q, idle) && b !in uses
    requires q'.sems.Keys == q.sems.Keys + {b} && q'.home == q.home
    ensures Belongs(base, uses[b := SemOf], ts, q', idle)
  {
  }

  lemma BelongsDropSem(base: nat, uses: map<nat, Use>, ts: map<nat, Tcb>, q: Queues, q': Queues, idle: nat, b: nat)
    requires Belongs(base, uses, ts, q, idle) && b in q.sems
    requires q'.sems.Keys == q.sems.Keys - {b} && q'.home == q.home
    ensures Belongs(base, uses - {b}, ts, q', idle)
  {
  }

  lemma BelongsAddSleeper(base: nat, uses: map<nat, Use>, ts: map<nat, Tcb>, q: Queues, q': Queues, idle: nat, b: nat)
    requires Belongs(base, uses, ts, q, idle) && b !in uses
    requires q'.sems == q.sems && q'.home == q.home[b := Asleep] && b !in q.home
    ensures Belongs(base, uses[b := SleeperOf], ts, q', idle)
  {
  }

  lemma MemAllocOk(s: State, n: nat)
    requires Inv(s) && n >= 1
    ensures Inv(MemAllocStep(s, n))
  {
    hide Waiting, Placed, RingsOk, Slices, Owned, Grab, Belongs;
    GrabOk(s.mem, n, User, s.blocks, IndexBlocks(s.blocks));
    var o := Grab(s.mem, n, User);
    if o.Some? {
      BelongsAddUser(s.base, s.mem.uses, s.threads, s.q, s.idle, o.value.1);
    }
  }

  lemma SemOpenOk(s: State, init: nat)
    requires Inv(s)
    ensures Inv(SemOpenStep(s, init))
  {
    hide Waiting, Slices, RingsOk, Modes, Owned, Grab, Belongs, Placed;
    GrabOk(s.mem, 1, SemOf, s.blocks, IndexBlocks(s.blocks));
    var o := Grab(s.mem, 1, SemOf);
    if o.Some? {
      var (m, b) := o.value;
      Fresh(s.base, s.mem.uses, s.threads, s.q, Some(s.current), s.idle, b);
      var q' := s.q.(sems := s.q.sems[b := Semaphores.Open(init)]);
      RingsSame(s.q, q');
      PlacedSame(s.threads.Keys, s.q, q', Some(s.current), s.idle);
      BelongsAddSem(s.base, s.mem.uses, s.threads, s.q, q', s.idle, b);
    }
    ModesSame(s, SemOpenStep(s, init));
  }

  lemma SleepOk(s: State, time: nat)
    requires Inv(s) && s.current != s.idle && time < TWO64
    ensures Refs(s)
    ensures SleepStep(s, time).NullWrite? <==> time > 0 && !Runs.CanAlloc(s.mem.runs, 1)
    ensures !SleepStep(s, time).Panics? && !SleepStep(s, time).Strays?
    ensures SleepStep(s, time).Goes? ==> Inv(SleepStep(s, time).state)
  {
    hide Core, Refs, Waiting, Modes, Switch, Timeout;
    Basics(s);
    var s1 := Return(s, 0);
    ReturnOk(s, 0);
    if time > 0 {
      TimeoutOk(s1, time);
      if Timeout(s1, s1.current, time).Goes? {
        var s2 := Timeout(s1, s1.current, time).state;
        SwitchOk(s2);
        SwitchRest(s2);
      }
    }
  }

  lemma TimeoutOk(s: State, time: nat)
    requires Core(s, Some(s.current)) && Waiting(s.q.sleepers) && Modes(s) && s.current != s.idle && 1 <= time < TWO64
    ensures !Timeout(s, s.current, time).Panics? && !Timeout(s, s.current, time).Strays?
    ensures Timeout(s, s.current, time).NullWrite? <==> !Runs.CanAlloc(s.mem.runs, 1)
    ensures var o := Timeout(s, s.current, time);
            o.Goes? ==>
              var s' := o.state;
              && Core(s', None) && Waiting(s'.q.sleepers) && Modes(s') && s'.current == s.current
                 && s'.current in s'.threads
              && s'.q.input == s.q.input && s'.rx == s.rx
  {
    hide RingsOk, Slices, Modes, Waiting, Owned, Grab, Belongs, Placed, Insert;
    assert s.current in s.threads by { Basics(s); }
    GrabOk(s.mem, 1, SleeperOf, s.blocks, IndexBlocks(s.blocks));
    var o := Grab(s.mem, 1, SleeperOf);
    if o.Some? {
      var (m, b) := o.value;
      Fresh(s.base, s.mem.uses, s.threads, s.q, Some(s.current), s.idle, b);
      var x := Sleeper(b, s.current, time);
      WaitingFits(s.q.sleepers);
      FallAsleepOk(s.q, x);
      PutToSleep(s.threads.Keys, s.q, s.current, s.idle, x);
      BelongsAddSleeper(s.base, s.mem.uses, s.threads, s.q, FallAsleep(s.q, x), s.idle, b);
      ModesSame(s, Timeout(s, s.current, time).state);
    }
  }

  /** Closing from s to s' empties the ring of h: every waiter is made ready, in order. */
  ghost predicate Emptied(s: State, s': State, h: nat) {
    && Quiet(s, s') && s'.q.sleepers == s.q.sleepers && s'.rx == s.rx && s'.q.input == s.q.input
    && h in s.q.sems && s'.q.sems == s.q.sems[h := s.q.sems[h].(queue := [])]
    && s'.q.ready == s.q.ready + s.q.sems[h].queue
    && s'.mem == s.mem
  }

  lemma EmptiedNone(s: State, h: nat)
    requires h in s.q.sems && s.q.sems[h].queue == []
    ensures Emptied(s, s, h)
  {
    assert s.q.sems[h := s.q.sems[h].(queue := [])] == s.q.sems;
    assert s.q.ready + [] == s.q.ready;
  }

  lemma EmptiedOne(s: State, h: nat, s2: State)
    requires Refs(s) && h in s.q.sems && s.q.sems[h].queue != []
    requires Emptied(Unblock(s, OnSem(h), SEM_CLOSED), s2, h)
    ensures Emptied(s, s2, h)
  {
    UnblockRest(s, OnSem(h), SEM_CLOSED);
    var s1 := Unblock(s, OnSem(h), SEM_CLOSED);
    QuietTrans(s, s1, s2);
    var line := s.q.sems[h].queue;
    assert s.q.ready + [line[0]] + line[1..] == s.q.ready + line;
  }

  /** Closing empties the line, whatever else holds. */
  lemma {:induction false} LineEmptied(s: State, h: nat)
    requires Refs(s) && h in s.q.sems
    ensures Emptied(s, UnblockAll(s, h), h)
    decreases |s.q.sems[h].queue|
  {
    hide Refs, Quiet, Emptied, Unblock;
    if s.q.sems[h].queue == [] {
      EmptiedNone(s, h);
    } else {
      LineShorter(s, h);
      LineEmptied(Unblock(s, OnSem(h), SEM_CLOSED), h);
      EmptiedOne(s, h, UnblockAll(Unblock(s, OnSem(h), SEM_CLOSED), h));
    }
  }

  lemma LineShorter(s: State, h: nat)
    requires Refs(s) && h in s.q.sems && s.q.sems[h].queue != []
    ensures var q' := Unblock(s, OnSem(h), SEM_CLOSED).q; h in q'.sems && q'.sems[h].queue == s.q.sems[h].queue[1..]
  {
  }

  lemma {:induction false} UnblockAllOk(s: State, h: nat)
    requires Core(s, Some(s.current)) && h in s.q.sems
    ensures Refs(s)
    ensures Core(UnblockAll(s, h), Some(s.current)) && Emptied(s, UnblockAll(s, h), h)
    decreases |s.q.sems[h].queue|
  {
    hide Core, Refs, Quiet, Emptied;
    Basics(s);
    if s.q.sems[h].queue == [] {
      EmptiedNone(s, h);
    } else {
      UnblockCore(s, OnSem(h), SEM_CLOSED);
      var s1 := Unblock(s, OnSem(h), SEM_CLOSED);
      UnblockAllOk(s1, h);
      EmptiedOne(s, h, UnblockAll(s1, h));
    }
  }

  lemma CloseOk(s: State, h: nat)
    requires Inv(s) && h in s.q.sems
    ensures Refs(s) && SemCloseStep(s, h).Goes? && Inv(SemCloseStep(s, h).state)
  {
    hide Core, Refs, Waiting, Modes, UnblockAll, Quiet, Drop;
    Basics(s);
    UnblockAllOk(s, h);
    var s1 := UnblockAll(s, h);
    QuietModes(s, s1);
    QuietCurrent(s, s1);
    DropSemOk(s1, h);
    var s2 := s1.(mem := Drop(s1.mem, h).value, q := s1.q.(sems := s1.q.sems - {h}));
    ModesSame(s1, s2);
    ReturnOk(s2, 0);
  }

  lemma SemBlock(base: nat, uses: map<nat, Use>, threads: map<nat, Tcb>, q: Queues, idle: nat, h: nat)
    requires Belongs(base, uses, threads, q, idle) && h in q.sems
    ensures h in uses && uses[h] == SemOf
  {
  }

  lemma DropSemOk(s: State, h: nat)
    requires Core(s, Some(s.current)) && h in s.q.sems && s.q.sems[h].queue == []
    ensures Drop(s.mem, h).Some?
    ensures Core(s.(mem := Drop(s.mem, h).value, q := s.q.(sems := s.q.sems - {h})), Some(s.current))
  {
    hide RingsOk, Slices, Owned, Drop, Belongs, Placed;
    SemBlock(s.base, s.mem.uses, s.threads, s.q, s.idle, h);
    NotTheIndex(s.mem, s.blocks, IndexBlocks(s.blocks), h);
    DropOk(s.mem, h, s.blocks, IndexBlocks(s.blocks));
    var q' := s.q.(sems := s.q.sems - {h});
    RingsSame(s.q, q');
    PlacedSame(s.threads.Keys, s.q, q', Some(s.current), s.idle);
    BelongsDropSem(s.base, s.mem.uses, s.threads, s.q, q', s.idle, h);
  }

  /* ---- threads come and go ---- */

  lemma BelongsAddThread(base: nat, uses: map<nat, Use>, ts: map<nat, Tcb>, q: Queues, q': Queues, idle: nat, b: nat,
                         sb: nat, t: Tcb)
    requires Belongs(base, uses, ts, q, idle) && b !in uses && sb in uses && uses[sb] == User
    requires t.bp == AddrOf(base, sb) && q'.sems == q.sems && b !in q.home && q'.home == q.home[b := Ready]
    requires idle in ts
    ensures Belongs(base, uses[b := ThreadOf][sb := StackOf(b)], ts[b := t], q', idle)
  {
    var uses', ts' := uses[b := ThreadOf][sb := StackOf(b)], ts[b := t];
    AddrRoundTrip(base, sb);
    assert ts'.Keys == ts.Keys + {b};
    KindsAddThread(uses, ts.Keys, q.sems.Keys, q.home, b, sb);
    StacksAddThread(base, uses, uses', ts, ts', idle, b, sb);
  }

  lemma KindsAddThread(uses: map<nat, Use>, ts: set<nat>, sems: set<nat>, home: map<nat, Ring>, b: nat, sb: nat)
    requires Kinds(uses, ts, sems, home) && b !in uses && sb in uses && uses[sb] == User && b !in home
    ensures Kinds(uses[b := ThreadOf][sb := StackOf(b)], ts + {b}, sems, home[b := Ready])
  {
  }

  lemma StacksAddThread(base: nat, uses: map<nat, Use>, uses': map<nat, Use>, ts: map<nat, Tcb>, ts': map<nat, Tcb>,
                        idle: nat, b: nat, sb: nat)
    requires Stacks(base, uses, ts, idle)
    requires b !in uses && b !in ts && sb in uses && uses[sb] == User && b != idle
    requires uses' == uses[b := ThreadOf][sb := StackOf(b)]
    requires ts'.Keys == ts.Keys + {b} && (forall t :: t in ts ==> ts'[t] == ts[t])
    requires ts'[b].bp == AddrOf(base, sb) && HasStack(base, uses', b, ts'[b].bp)
    ensures Stacks(base, uses', ts', idle)
  {
    forall u | u in ts' && u != idle ensures HasStack(base, uses', u, ts'[u].bp) {
      if u != b { assert HasStack(base, uses, u, ts[u].bp); }
    }
  }

  lemma OwnedStack(m: Mem, blocks: nat, index: nat, sb: nat, t: nat)
    requires Owned(m, blocks, index) && sb in m.uses && sb != 0 && Runs.Live(m.runs)[sb] == STACK_BLOCKS
    ensures Owned(m.(uses := m.uses[sb := StackOf(t)]), blocks, index)
  {
  }

  lemma SlicesAdd(ts: map<nat, Tcb>, ready: seq<nat>, b: nat, t: Tcb)
    requires Slices(ts, ready) && b !in ts && t.timeLeft == TIME_SLICE
    ensures Slices(ts[b := t], ready + [b])
  {
  }

  lemma CreateOk(s: State, start: int, stack: nat)
    requires Inv(s) && IsFreshStack(s, stack)
    ensures Refs(s) && Inv(CreateStep(s, start, stack))
  {
    hide Owned, Grab, Belongs, Placed, RingsOk, Slices, Waiting, Modes, Refs;
    Basics(s);
    GrabOk(s.mem, 1, ThreadOf, s.blocks, IndexBlocks(s.blocks));
    var o := Grab(s.mem, 1, ThreadOf);
    if o.Some? {
      var (m, b) := o.value;
      var sb := BlockOf(s.base, BottomOf(stack));
      BlockRoundTrip(s.base, BottomOf(stack));
      Fresh(s.base, s.mem.uses, s.threads, s.q, Some(s.current), s.idle, b);
      var t := Tcb(Frame(s.wrapper, s.csr.sstatus.(kernel := false), stack - CONTEXT_SIZE), BottomOf(stack),
        TIME_SLICE);
      NotTheIndex(s.mem, s.blocks, IndexBlocks(s.blocks), sb);
      OwnedStack(m, s.blocks, IndexBlocks(s.blocks), sb, b);
      NewThread(s.threads.Keys, s.q, Some(s.current), s.idle, b);
      SlicesAdd(s.threads, s.q.ready, b, t);
      PlacedKnown(s.threads.Keys, s.q, Some(s.current), s.idle);
      BelongsAddThread(s.base, s.mem.uses, s.threads, s.q, Enqueue(s.q, Ready, b), s.idle, b, sb, t);
      assert s.threads[b := t].Keys == s.threads.Keys + {b};
      CreateEnd(s, start, stack, m, b, t);
    } else {
      ReturnOk(s, NO_MEMORY);
    }
  }

  lemma CreateEnd(s: State, start: int, stack: nat, m: Mem, b: nat, t: Tcb)
    requires Refs(s) && Modes(s) && IsFreshStack(s, stack) && b !in s.threads
             && Grab(s.mem, 1, ThreadOf) == Some((m, b))
    requires t == Tcb(Frame(s.wrapper, s.csr.sstatus.(kernel := false), stack - CONTEXT_SIZE), BottomOf(stack),
               TIME_SLICE)
    ensures Modes(CreateStep(s, start, stack))
    ensures CreateStep(s, start, stack).threads == s.threads[b := t]
    ensures |s.threads[b := t]| == |s.threads| + 1
  {
    assert s.threads[b := t].Keys == s.threads.Keys + {b};
    assert |s.threads[b := t]| == |s.threads[b := t].Keys| && |s.threads| == |s.threads.Keys|;
  }

  lemma BelongsDropThread(base: nat, uses: map<nat, Use>, ts: map<nat, Tcb>, ts': map<nat, Tcb>, q: Queues,
                          q': Queues, idle: nat, c: nat)
    requires Belongs(base, uses, ts, q, idle) && c in ts && c != idle
    requires ts'.Keys == ts.Keys - {c} && forall t :: t in ts' ==> ts'[t].bp == ts[t].bp
    requires SameRecords(q, q')
    ensures HasStack(base, uses, c, ts[c].bp)
    ensures Belongs(base, uses - {BlockOf(base, ts[c].bp)} - {c}, ts', q', idle)
  {
    var sb := BlockOf(base, ts[c].bp);
    BlockRoundTrip(base, ts[c].bp);
    forall t | t in ts' && t != idle ensures HasStack(base, uses - {sb} - {c}, t, ts'[t].bp) {
      assert HasStack(base, uses, t, ts[t].bp);
    }
    forall b | b in uses && uses[b].StackOf? && b != sb ensures uses[b].thread != c {
      if uses[b].thread == c { AddrRoundTrip(base, b); }
    }
  }

  /** The heap after a thread's stack and record are released. */
  lemma StackBlock(s: State, c: nat)
    requires Core(s, Some(c)) && c != s.idle
    ensures c in s.threads && HasStack(s.base, s.mem.uses, c, s.threads[c].bp)
    ensures var sb := BlockOf(s.base, s.threads[c].bp);
            && s.base <= s.threads[c].bp && (s.threads[c].bp - s.base) % BLOCK == 0
            && sb in s.mem.uses && s.mem.uses[sb] == StackOf(c)
            && c in s.mem.uses && s.mem.uses[c] == ThreadOf
  {
    hide Owned, RingsOk, Slices;
    assert HasStack(s.base, s.mem.uses, c, s.threads[c].bp);
  }

  lemma LiveBlock(m: Mem, blocks: nat, index: nat, b: nat)
    requires Owned(m, blocks, index) && b in m.uses
    ensures b < blocks
  {
    Runs.LiveBounds(m.runs, 0, b);
    Runs.LiveSizes(m.runs, 0, b);
  }

  lemma ExitMem(s: State, c: nat)
    requires Core(s, Some(c)) && c != s.idle
    ensures c in s.threads && HasStack(s.base, s.mem.uses, c, s.threads[c].bp)
    ensures var bp := s.threads[c].bp; var o := DropAt(s.mem, s.base, s.blocks, bp);
            && o.Some? && Drop(o.value, c).Some?
            && Drop(o.value, c).value.uses == s.mem.uses - {BlockOf(s.base, bp)} - {c}
            && Owned(Drop(o.value, c).value, s.blocks, IndexBlocks(s.blocks))
  {
    hide Placed, RingsOk, Slices, Belongs, Owned, HasStack, Drop;
    StackBlock(s, c);
    var bp, sb, index := s.threads[c].bp, BlockOf(s.base, s.threads[c].bp), IndexBlocks(s.blocks);
    BlockRoundTrip(s.base, bp);
    LiveBlock(s.mem, s.blocks, index, sb);
    NotTheIndex(s.mem, s.blocks, index, sb);
    NotTheIndex(s.mem, s.blocks, index, c);
    DropOk(s.mem, sb, s.blocks, index);
    DropOk(Drop(s.mem, sb).value, c, s.blocks, index);
  }

  lemma ExitQueues(s: State)
    requires Core(s, Some(s.current)) && s.current != s.idle
    ensures RingsOk(AfterChoice(s.q))
    ensures Placed(s.threads.Keys - {s.current}, AfterChoice(s.q), Some(Chosen(s.q, s.idle)), s.idle)
    ensures Chosen(s.q, s.idle) != s.current && SameRecords(s.q, AfterChoice(s.q))
    ensures s.q.ready != [] ==> s.q.ready[0] in s.q.home && s.q.home[s.q.ready[0]] == Ready
  {
    hide Owned, Belongs, Slices;
    assert RingOk(s.q, Ready);
    assert s.q.ready != [] ==> s.q.ready[0] in RingOf(s.q, Ready);
    assert Placed(s.threads.Keys - {s.current}, s.q, None, s.idle);
    Choose(s.threads.Keys - {s.current}, s.q, s.idle);
  }

  /** What is left in the processor and the table when the current thread is gone. */
  lemma ExitThreads(s: State, s1: State)
    requires Refs(s) && Slices(s.threads, s.q.ready) && Modes(s)
    requires s.current != s.idle && Chosen(s.q, s.idle) != s.current
    requires s1 == Switch(s)
    ensures s1.threads.Keys == s.threads.Keys && s1.current == Chosen(s.q, s.idle) && s1.q == AfterChoice(s.q)
    ensures s1.mem == s.mem && s1.rx == s.rx && s1.users == s.users && s1.base == s.base && s1.blocks == s.blocks
            && s1.idle == s.idle
    ensures s1.threads[s.current].frame == s.csr && s1.threads[s.current].bp == s.threads[s.current].bp
    ensures Slices(s1.threads - {s.current}, s1.q.ready)
    ensures forall t :: t in s1.threads ==> s1.threads[t].bp == s.threads[t].bp
    ensures var s2 := s1.(threads := s1.threads - {s.current}); Modes(s2)
    ensures |s1.threads - {s.current}| == |s.threads| - 1
  {
    SwitchThreads(s);
    assert (s1.threads - {s.current}).Keys == s.threads.Keys - {s.current};
    assert |s1.threads - {s.current}| == |(s1.threads - {s.current}).Keys| && |s.threads| == |s.threads.Keys|;
  }

  lemma TwoThreads(s: State)
    requires s.current in s.threads && s.idle in s.threads && s.current != s.idle
    ensures |s.threads| >= 2
  {
    assert {s.current, s.idle} <= s.threads.Keys;
    assert |s.threads.Keys| == |s.threads.Keys - {s.current, s.idle}| + |{s.current, s.idle}|;
    assert |s.threads| == |s.threads.Keys|;
  }

  /** The switch an exiting thread makes. */
  ghost function Leave(s: State): State
    requires Refs(s)
  {
    Switch(s.(users := (s.users + TWO64 - 1) % TWO64))
  }

  lemma LeaveOk(s: State)
    requires Inv(s) && s.current != s.idle
    ensures Refs(s) && s.current in s.threads
    ensures var s1 := Leave(s);
            && s1.threads[s.current].frame == s.csr && s1.threads[s.current].bp == s.threads[s.current].bp
            && s1.mem == s.mem && s1.threads.Keys == s.threads.Keys && s1.base == s.base && s1.blocks == s.blocks
  {
    hide Owned, Belongs, Placed, RingsOk, Waiting, Slices;
    Basics(s);
    ExitQueues(s);
    assert Refs(s.(users := (s.users + TWO64 - 1) % TWO64));
    hide Refs, Modes, Switch, AfterChoice;
    ModesSame(s, s.(users := (s.users + TWO64 - 1) % TWO64));
    ExitThreads(s.(users := (s.users + TWO64 - 1) % TWO64), Leave(s));
  }

  lemma RefsSame(s: State, s': State)
    requires Refs(s) && s'.q == s.q && s'.threads == s.threads && s'.current == s.current && s'.idle == s.idle
    ensures Refs(s')
  {
  }

  lemma ChosenRest(s: State)
    requires Refs(s)
    ensures AfterChoice(s.q).sleepers == s.q.sleepers && AfterChoice(s.q).input == s.q.input
  {
  }

  lemma LeftOk(s: State, m: Mem)
    requires Inv(s) && s.current != s.idle && Refs(s) && s.current in s.threads
    requires Owned(m, s.blocks, IndexBlocks(s.blocks))
    requires m.uses == s.mem.uses - {BlockOf(s.base, s.threads[s.current].bp)} - {s.current}
    requires s.base <= s.threads[s.current].bp
    ensures Inv(Leave(s).(mem := m, threads := Leave(s).threads - {s.current}))
  {
    hide Owned, Belongs, Placed, RingsOk, Slices, Waiting, Modes, Refs, Switch, AfterChoice, SameRecords;
    ExitQueues(s);
    PlacedKnown(s.threads.Keys, s.q, Some(s.current), s.idle);
    TwoThreads(s);
    UsersDown(s);
    var s0 := s.(users := (s.users + TWO64 - 1) % TWO64);
    RefsSame(s, s0);
    ModesSame(s, s0);
    var s1 := Leave(s);
    ExitThreads(s0, s1);
    var ts' := s1.threads - {s.current};
    assert ts'.Keys == s.threads.Keys - {s.current};
    BelongsDropThread(s.base, s.mem.uses, s.threads, ts', s.q, s1.q, s.idle, s.current);
    var s' := s1.(mem := m, threads := ts');
    ModesSame(s1, s');
    ChosenRest(s);
  }

  /** Exit stops the kernel exactly when the stack pointer is below the stack; the two releases
      always succeed, and give back the thread's record and its stack. */
  lemma ExitOk(s: State)
    requires Inv(s) && s.current != s.idle && !s.csr.sstatus.kernel
    ensures Refs(s) && s.current in s.threads
    ensures ExitStep(s).Panics? <==> s.csr.sp < s.threads[s.current].bp
    ensures !ExitStep(s).NullWrite? && !ExitStep(s).Strays?
    ensures ExitStep(s).Goes? ==>
              && Inv(ExitStep(s).state) && s.base <= s.threads[s.current].bp
              && ExitStep(s).state.threads.Keys == s.threads.Keys - {s.current}
              && ExitStep(s).state.mem.uses == s.mem.uses - {BlockOf(s.base, s.threads[s.current].bp)} - {s.current}
  {
    hide Core, Waiting, Modes, Refs, Switch, Drop, DropAt, Owned, Received, HasStack;
    LeaveOk(s);
    ExitMem(s, s.current);
    var m := Drop(DropAt(s.mem, s.base, s.blocks, s.threads[s.current].bp).value, s.current).value;
    LeftOk(s, m);
  }

  /** The count of user threads does not wrap. */
  lemma UsersDown(s: State)
    requires Core(s, Some(s.current)) && |s.threads| >= 2
    ensures (s.users + TWO64 - 1) % TWO64 == s.users - 1
  {
    UsersFit(s);
  }

  /** There are no more threads than blocks. */
  lemma UsersFit(s: State)
    requires Core(s, Some(s.current))
    ensures |s.threads| <= s.blocks < TWO31
  {
    forall t | t in s.threads ensures t in UpTo(s.blocks) {
      assert t in Runs.Live(s.mem.runs);
      Runs.LiveBounds(s.mem.runs, 0, t);
      Runs.LiveSizes(s.mem.runs, 0, t);
    }
    Sequences.SubsetSize(s.threads.Keys, UpTo(s.blocks));
    assert |s.threads| == |s.threads.Keys|;
  }

  ghost function UpTo(n: nat): (r: set<nat>)
    ensures |r| == n && forall b: nat :: b in r <==> b < n
  {
    if n == 0 then {} else UpTo(n - 1) + {n - 1}
  }

  /* ---- any trap ---- */

  /** A trap asks for more blocks than any free run has. */
  ghost predicate Starves(s: State, e: Trap) { Asks(e).Some? && !Runs.CanAlloc(s.mem.runs, Asks(e).value) }

  /** How the search then ends. */
  function EndOf(s: State, e: Trap): SearchResult
    requires Asks(e).Some?
  {
    SearchEnd(s.mem, s.blocks, Asks(e).value, e.behind)
  }

  lemma PreventedWhen(s: State, e: Trap)
    ensures Prevented(s, e) == Some(Panics) <==> Starves(s, e) && EndOf(s, e) == Corrupted
    ensures Prevented(s, e) == Some(Strays) <==>
              || (Starves(s, e) && EndOf(s, e) != Corrupted && EndOf(s, e) != NotFound)
              || (e.SemOpen? && !Starves(s, e) && s.opens >= SEM_TABLE)
  {
  }

  /** Every transition keeps the invariant, and these are all the ways a trap can go wrong: a thread
      exits with its stack pointer below its stack; an allocation finds nothing and the words
      behind the index make it panic or stray; a sleeper's allocation returns null; the table of
      semaphores is full. */
  lemma StepOk(s: State, e: Trap, f: Frame)
    requires Inv(s) && Enabled(s, e, f)
    ensures Refs(s) && s.current in s.threads
    ensures Step(s, e, f).Panics? <==>
              || (e.ThreadExit? && f.sp < s.threads[s.current].bp)
              || (Starves(s, e) && EndOf(s, e) == Corrupted)
    ensures Step(s, e, f).NullWrite? <==> e.Sleep? && Starves(s, e) && EndOf(s, e) == NotFound
    ensures Step(s, e, f).Strays? <==>
              || (Starves(s, e) && EndOf(s, e) != Corrupted && EndOf(s, e) != NotFound)
              || (e.SemOpen? && !Starves(s, e) && s.opens >= SEM_TABLE)
    ensures Step(s, e, f).Goes? ==> Inv(Step(s, e, f).state)
  {
    hide Core, Waiting, Modes, Received, Inv, Refs, IsFreshStack, TimerStep, ConsoleStep, MemAllocStep, CreateStep,
      ExitStep, SemOpenStep, SemCloseStep, SemWaitStep, SemSignalStep, SleepStep, GetcStep, PutcStep,
      KernelDispatchStep, Preempt, Prevented, EndOf, SearchEnd;
    PreventedWhen(s, e);
    EnterOk(s, e, f);
    InvParts(s);
    Basics(s);
    var s0 := Enter(s, e, f);
    match e {
      case Timer => TimerOk(s0);
      case Console(bytes) => ConsoleOk(s0, bytes);
      case OtherDevice =>
      case MemAlloc(n, _) => MemAllocOk(s0, n);
      case ThreadCreate(start, stack, _) => CreateOk(s0, start, stack);
      case ThreadExit => ExitOk(s0);
      case Dispatch => DispatchInv(s0);
      case SemOpen(init, _) => SemOpenOk(s0, init);
      case SemClose(h) => CloseOk(s0, h);
      case SemWait(h) => WaitOk(s0, h);
      case SemSignal(h) => SignalOk(s0, h);
      case Sleep(time, _) => SleepOk(s0, time);
      case Getc => GetcOk(s0);
      case Putc(full) => PutcOk(s0, full);
      case UnknownCall =>
      case KernelDispatch => KernelDispatchOk(s0);
    }
  }

  lemma DispatchInv(s: State)
    requires Inv(s)
    ensures Refs(s) && Inv(Preempt(s))
  {
    hide Core, Modes, Waiting, Refs, Preempt;
    Basics(s);
    DispatchOk(s);
    PreemptRest(s);
  }
}
