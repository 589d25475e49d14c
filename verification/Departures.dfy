/** Inputs on which the code misses its evident purpose: for each condition under which something
    goes wrong, a case that meets it. */
module Departures {
  import opened Words
  import opened Runs
  import HeapHistory
  import opened IndexEncoding
  import Memory
  import opened DeltaQueue
  import opened Semaphores
  import opened ThreadQueues
  import opened Rings
  import opened KernelLists
  import Printing

  /* ---- src/mem.c ---- */

  /** In a heap with nothing free the word behind the index decides what an allocation of one block
      comes to: null, a panic, block 3 of the three blocks 0 to 2, or a read beyond the heap. */
  lemma FullHeap(behind: seq<int>)
    requires |behind| == 15 * 3
    ensures var rs := [Run(1, true), Run(2, true)];
            && HeapHistory.Heap(rs, 3, Memory.IndexBlocks(3)) && !CanAlloc(rs, 1)
            && Memory.SearchFrom(rs, 0, 1, behind)
            == if behind[0] > 0 then Memory.NotFound
               else if behind[0] == 0 then Memory.Corrupted
               else if behind[0] >= -45 then Memory.Found(3, -behind[0])
               else Memory.BeyondHeap
  {
    hide Memory.SearchFrom, FirstFit, Total, HeapHistory.Heap;
    var rs := [Run(1, true), Run(2, true)];
    TwoRuns(rs);
    Memory.SearchIsFirstFit(rs, 0, 1, behind);
  }

  lemma TwoRuns(rs: seq<Run>)
    requires rs == [Run(1, true), Run(2, true)]
    ensures HeapHistory.Heap(rs, 3, Memory.IndexBlocks(3)) && !CanAlloc(rs, 1) && Total(rs) == 3
  {
    assert rs[1..] == [Run(2, true)] && [Run(2, true)][1..] == [];
    assert Total([Run(2, true)]) == 2;
  }

  /** Asked for no blocks, the allocator wipes the last tag of the run before the one it finds. */
  lemma NoBlocks()
    ensures var rs := [Run(1, true), Run(2, false)];
            && HeapHistory.Heap(rs, 3, 1) && CanAlloc(rs, 0) && |Encode(rs)| == 3
            && !Encodable(TakeWrites(Encode(rs), 1, 2, 0))
  {
    var rs := [Run(1, true), Run(2, false)];
    assert Total(rs) == 3 by { assert rs[1..] == [Run(2, false)] && rs[1..][1..] == []; }
    assert Start(rs, 1) == 1 by { assert rs[..1] == [Run(1, true)]; assert rs[..1][1..] == []; }
    assert Fits(rs[1], 0);
    TookNone(rs, 1);
  }

  /** Blocks 1 and 2 are one allocation, 3 and 4 another.  The address of block 2 starts no
      allocation, yet `__mem_free` accepts it, and leaves an index that encodes nothing. */
  lemma FooledFooter(z: seq<int>)
    requires |z| >= 20
    ensures var rs := [Run(1, true), Run(2, true), Run(2, true), Run(5, false)];
            && HeapHistory.Heap(rs, 10, 1) && IsFooter(rs, 1, 2) && 2 !in Live(rs) && Accepts(Encode(rs), 2)
            && Mergeable(Encode(rs) + z, 10, 2) && !Encodable(MergeWrites(Encode(rs) + z, 10, 2)[..10])
  {
    var rs := [Run(1, true), Run(2, true), Run(2, true), Run(5, false)];
    FourRuns();
    var k := PositiveTags(rs, 2);
    assert k == 1;
    FooterAccepted(rs, 1, 2);
    FooterRelease(rs, 1, 2, 10, z);
  }

  lemma FourRuns()
    ensures var rs := [Run(1, true), Run(2, true), Run(2, true), Run(5, false)];
            && Total(rs) == 10 && Start(rs, 1) == 1 && Start(rs, 2) == 3 && Start(rs, 3) == 5
            && 3 in Live(rs) && Live(rs)[3] == 2
  {
    var rs := [Run(1, true), Run(2, true), Run(2, true), Run(5, false)];
    assert rs[..1] == [Run(1, true)] && rs[..2] == rs[..1] + [Run(2, true)] && rs[..3] == rs[..2] + [Run(2, true)]
      && rs[..4] == rs;
    TotalParts(rs[..0], rs[0], []);
    TotalParts(rs[..1], rs[1], []);
    TotalParts(rs[..2], rs[2], []);
    TotalParts(rs[..3], rs[3], []);
  }

  /* ---- src/scheduler.c ---- */

  /** Threads 11 and 12 sleep for 5 and 8 ticks, with records 1 and 2.  Taking out 11, the first of
      the two, leaves memory that holds the other's queue but for the head, which stays on the
      released record. */
  lemma StaleHead()
    ensures var x, y := Sleeper(1, 11, 5), Sleeper(2, 12, 3);
            var q := Queues([], [], map[], [x, y], map[1 := Asleep, 2 := Asleep]);
            var links := map[1 := 2, 2 := 1];
            var hs := Heads(0, 0, 1, map[], map[1 := SleepRecord(11, 5), 2 := SleepRecord(12, 3)]);
            var records' := map[1 := SleepRecord(11, 5), 2 := SleepRecord(12, 8)];
            && Holds(q, links, links, hs) && Waiting(q.sleepers)
            && var (q', next', prev') := (Cancelled(q, 0), RemovedNext(links, links, 1), RemovedPrev(links, links, 1));
               && q'.sleepers == [Sleeper(2, 12, 8)]
               && Holds(q', next', prev', hs.(sleeping := 2, records := records'))
               && !Holds(q', next', prev', hs.(records := records'))
  {
    var x, y := Sleeper(1, 11, 5), Sleeper(2, 12, 3);
    var q := Queues([], [], map[], [x, y], map[1 := Asleep, 2 := Asleep]);
    var links := map[1 := 2, 2 := 1];
    var hs := Heads(0, 0, 1, map[], map[1 := SleepRecord(11, 5), 2 := SleepRecord(12, 3)]);
    var records' := map[1 := SleepRecord(11, 5), 2 := SleepRecord(12, 8)];
    TwoAsleep(x, y, q, links, hs);
    CancelHolds(q, 0, links, links, hs);
    assert HandedOn(q, hs, 0) == records';
    var q', next', prev' := Cancelled(q, 0), RemovedNext(links, links, 1), RemovedPrev(links, links, 1);
    if Holds(q', next', prev', hs.(records := records')) {
      OneHead(q', next', prev', hs.(sleeping := 2, records := records'), 1);
    }
  }

  lemma TwoAsleep(x: Sleeper, y: Sleeper, q: Queues, links: Links, hs: Heads)
    requires x == Sleeper(1, 11, 5) && y == Sleeper(2, 12, 3)
    requires q == Queues([], [], map[], [x, y], map[1 := Asleep, 2 := Asleep])
    requires links == map[1 := 2, 2 := 1]
    requires hs == Heads(0, 0, 1, map[], map[1 := SleepRecord(11, 5), 2 := SleepRecord(12, 3)])
    ensures Holds(q, links, links, hs) && Waiting(q.sleepers)
  {
    assert Nodes(q.sleepers) == [1, 2];
    forall r ensures RingOk(q, r) && Circle(links, links, HeadOf(q, hs, r), RingOf(q, r)) {
      if r == Asleep { assert RingOf(q, r) == [1, 2]; } else { assert RingOf(q, r) == []; }
    }
    assert q.sleepers[1..] == [y] && [y][1..] == [];
    assert DueFrom([y], 5) == map[2 := 8];
    assert Due(q.sleepers) == map[1 := 5, 2 := 8];
  }

  /** Thread 11 is to sleep for 5 more ticks when thread 12 joins with a time of 0, as a timed wait may.
      The next tick wakes nobody, and then both have about 2^64 ticks to go. */
  lemma NobodyWakes()
    ensures var x := Sleeper(2, 12, 0);
            && Waiting([Sleeper(1, 11, 5)]) && Insert([Sleeper(1, 11, 5)], x) == [x, Sleeper(1, 11, 5)]
            && var (rest, woken) := Tick([x, Sleeper(1, 11, 5)]);
               woken == [] && Due(rest) == map[1 := TWO64 + 4, 2 := TWO64 - 1]
  {
    var y, x := Sleeper(1, 11, 5), Sleeper(2, 12, 0);
    OneAsleep(y);
    InsertZero([y], x);
    InsertDue([y], x);
    TickWraps([x, y]);
  }

  /* ---- src/semaphore.c ---- */

  /** Threads 11 and 12 are in line at semaphore 3.  Taking the first out as
      `__sem_remove_thread` does leaves the line's head where it was, on a thread that is not in line
      any more. */
  lemma StaleLine()
    ensures var q := Queues([], [], map[3 := Sem(-2, [11, 12])], [], map[11 := OnSem(3), 12 := OnSem(3)]);
            var links := map[11 := 12, 12 := 11];
            var hs := Heads(0, 0, 0, map[3 := SemRecord(-2, 11)], map[]);
            && Holds(q, links, links, hs)
            && var q' := Dequeue(SetVal(q, 3, -1), OnSem(3));
               var (next', prev') := (RemovedNext(links, links, 11), RemovedPrev(links, links, 11));
               && q'.sems == map[3 := Sem(-1, [12])]
               && Holds(q', next', prev', hs.(sems := map[3 := SemRecord(-1, 12)]))
               && !Holds(q', next', prev', hs.(sems := map[3 := SemRecord(-1, 11)]))
  {
    hide Holds, RemovedNext, RemovedPrev;
    var q := Queues([], [], map[3 := Sem(-2, [11, 12])], [], map[11 := OnSem(3), 12 := OnSem(3)]);
    var links := map[11 := 12, 12 := 11];
    var hs := Heads(0, 0, 0, map[3 := SemRecord(-2, 11)], map[]);
    TwoInLine(q, links, hs);
    SetValHolds(q, links, links, hs, 3, -1);
    var q1, hs1 := SetVal(q, 3, -1), hs.(sems := map[3 := SemRecord(-1, 11)]);
    var q', next', prev' := Dequeue(q1, OnSem(3)), RemovedNext(links, links, 11), RemovedPrev(links, links, 11);
    assert hs.sems[3 := hs.sems[3].(val := -1)] == hs1.sems && q1.sems[3] == Sem(-1, [11, 12]);
    PopHolds(q1, links, links, hs1, next', prev', 12, OnSem(3));
    var good := hs.(sems := map[3 := SemRecord(-1, 12)]);
    assert WithHead(hs1, OnSem(3), 12).sems == good.sems && q'.sems[3] == Sem(-1, [12]);
    if Holds(q', next', prev', hs1) { OneLineHead(q', 3, next', prev', good, next', prev', hs1); }
  }

  lemma TwoInLine(q: Queues, links: Links, hs: Heads)
    requires q == Queues([], [], map[3 := Sem(-2, [11, 12])], [], map[11 := OnSem(3), 12 := OnSem(3)])
    requires links == map[11 := 12, 12 := 11] && hs == Heads(0, 0, 0, map[3 := SemRecord(-2, 11)], map[])
    ensures Holds(q, links, links, hs)
  {
    forall r ensures RingOk(q, r) && Circle(links, links, HeadOf(q, hs, r), RingOf(q, r)) {
      if r == OnSem(3) { assert RingOf(q, r) == [11, 12]; } else { assert RingOf(q, r) == []; }
    }
  }

  /** Thread 11 waits at semaphore 3 for at most 5 ticks, with record 1.  When the semaphore is closed the
      thread is ready and asleep at once. */
  lemma ReadyAndAsleep()
    ensures var q := Queues([], [], map[3 := Sem(-1, [11])], [Sleeper(1, 11, 5)], map[1 := Asleep, 11 := OnSem(3)]);
            var links := map[1 := 1, 11 := 11];
            var hs := Heads(0, 0, 1, map[3 := SemRecord(-1, 11)], map[1 := SleepRecord(11, 5)]);
            && Holds(q, links, links, hs) && Waiting(q.sleepers)
            && var q' := Admit(q, OnSem(3)); q'.ready == [11] && Threads(q'.sleepers) == [11] && RingsOk(q')
  {
    var q := Queues([], [], map[3 := Sem(-1, [11])], [Sleeper(1, 11, 5)], map[1 := Asleep, 11 := OnSem(3)]);
    var links := map[1 := 1, 11 := 11];
    var hs := Heads(0, 0, 1, map[3 := SemRecord(-1, 11)], map[1 := SleepRecord(11, 5)]);
    assert Nodes(q.sleepers) == [1] && Threads(q.sleepers) == [11];
    forall r ensures RingOk(q, r) && Circle(links, links, HeadOf(q, hs, r), RingOf(q, r)) {
      if r == OnSem(3) { assert RingOf(q, r) == [11]; }
      else if r == Asleep { assert RingOf(q, r) == [1]; }
      else { assert RingOf(q, r) == []; }
    }
    OneAsleep(Sleeper(1, 11, 5));
    AdmitRings(q, OnSem(3));
  }

  lemma OneAsleep(y: Sleeper)
    requires 1 <= y.delta < TWO64
    ensures Waiting([y]) && Due([y]) == map[y.node := y.delta] && Nodes([y]) == [y.node]
  {
    assert [y][1..] == [];
    assert DueFrom([], y.delta) == map[];
  }

  /** A semaphore opened with 2^31 starts 2^31 below zero, so its first signal fails. */
  lemma OwesThreads()
    ensures Open(0x8000_0000).val == -0x8000_0000 && Open(0x8000_0000).queue == []
    ensures !Counts(Open(0x8000_0000)) && Signal(Open(0x8000_0000)).2 == SEM_SIGNAL_NO_THREADS
  {
    OpenCounts(0x8000_0000);
  }

  /* ---- test/printing.cpp ---- */

  /** The least 32-bit number has sixteen digits in base 4, and the buffer has no room left for the
      sign. */
  lemma NoRoomForSign()
    ensures Printing.IsNegative(-TWO31, true)
            && |Printing.Numeral(Printing.Magnitude(-TWO31, true), 4)| == Printing.BUFFER
    ensures Printing.Magnitude(-TWO31, true) >= Printing.Pow(4, 15)
  {
    Printing.FourAndFive();
    Printing.NumeralLength(Printing.Magnitude(-TWO31, true), 4, 15);
    Printing.NumeralLength(Printing.Magnitude(-TWO31, true), 4, 16);
  }
}

/** Runs from start-up that end in ways nobody wants. */
module Mishaps {
  import Memory
  import Ownership
  import opened Machine
  import opened Safety
  import opened Startup
  import opened Executions

  /** Everything but the heap's purposes, the threads, the ready ring and the processor is alike. */
  ghost predicate SameRest(s: State, s': State) {
    && s'.base == s.base && s'.blocks == s.blocks && s'.mem == s.mem && s'.opens == s.opens && s'.a0 == s.a0
       && s'.rx == s.rx
    && s'.q.input == s.q.input && s'.q.sems == s.q.sems && s'.q.sleepers == s.q.sleepers
  }

  lemma SwitchSame(s: State)
    requires Refs(s) && s.q.ready != [] && s.q.ready[0] != s.current
    ensures SameRest(s, Switch(s))
    ensures var t := s.q.ready[0]; t in Switch(s).threads && Switch(s).threads[t].frame == Switch(s).csr
  {
  }

  /** user_main runs, with nothing done yet. */
  lemma UserRuns(x: Machinery, f: Frame) returns (s: State)
    requires CanStart(x) && Started(x).Some? && f.sstatus.kernel
    ensures GetsTo(x, s) && Inv(s) && !s.csr.sstatus.kernel && SameRest(Started(x).value, s)
    ensures s.current in s.threads && s.threads[s.current].frame == s.csr
    ensures s.csr.sp == Memory.AddrOf(x.base, Memory.IndexBlocks(x.blocks) + 98) + STACK_SIZE - 8 - CONTEXT_SIZE
  {
    hide Inv, Started, Refs, Step, Enabled, Switch, GetsTo;
    StartedOk(x);
    StartedMode(x);
    var s0 := Started(x).value;
    var s1 := Enter(s0, KernelDispatch, f);
    UserMainRuns(x, f);
    s := Step(s0, KernelDispatch, f).state;
    EnterOk(s0, KernelDispatch, f);
    DispatchSteps(s0, f);
    DispatchSame(s1);
    SwitchSame(s1);
    SwitchTo(s1);
    GetsStarted(x);
    GetsNext(x, s0, KernelDispatch, f, s);
  }

  lemma StartedRest(x: Machinery)
    requires CanStart(x) && Started(x).Some?
    ensures var (s, i) := (Started(x).value, Memory.IndexBlocks(x.blocks));
            && i + START_BLOCKS <= x.blocks && s.blocks == x.blocks
            && s.mem.runs == Filled(BootSizes(i) + [1], x.blocks - i - START_BLOCKS)
            && s.q.input == [] && s.opens == 0 && s.rx == []
            && s.a0 == x.a0[Memory.AddrOf(x.base, i + 98) + STACK_SIZE - 8 - CONTEXT_SIZE := x.userMain]
  {
    hide Inv, Filled, Sum, Allocate, Ownership.Grab, BootSizes, BootUses;
    StartedOk(x);
    AllocateFits(x.blocks);
    var i := Memory.IndexBlocks(x.blocks);
    Sums(i);
    GrabFilled(BootSizes(i), x.blocks - i - BOOT_BLOCKS, BootUses(i), 1, Ownership.ThreadOf);
  }

  lemma InvRefs(s: State)
    requires Inv(s)
    ensures Refs(s)
  {
    hide Core, Refs;
    Basics(s);
  }

  function EndBy(w: int): Outcome { if w > 0 then NullWrite else if w == 0 then Panics else Strays }

  /** With 174 blocks start-up takes them all, and the first sleep of the first thread fails: what the
      word behind the index holds decides whether the kernel writes through a null pointer, panics,
      or uses memory behind the heap. */
  lemma SleepFails(x: Machinery, k: Frame, f: Frame) returns (s: State)
    requires CanStart(x) && x.blocks == 174 && k.sstatus.kernel && !f.sstatus.kernel
    ensures GetsTo(x, s) && Refs(s)
    ensures forall behind: seq<int> :: |behind| == 15 * 174 ==>
              Enabled(s, Sleep(1, behind), f) && Step(s, Sleep(1, behind), f) == EndBy(behind[0])
  {
    hide Inv, Started, GetsTo, Refs, Step, Filled, Enabled;
    assert Memory.IndexBlocks(174) == 11;
    StartedOk(x);
    StartedRest(x);
    s := UserRuns(x, k);
    InvRefs(s);
    forall behind: seq<int> | |behind| == 15 * 174
      ensures Enabled(s, Sleep(1, behind), f) && Step(s, Sleep(1, behind), f) == EndBy(behind[0])
    {
      NothingLeft(s, BootSizes(11) + [1], behind, f);
    }
  }

  lemma NothingLeft(s: State, sizes: seq<nat>, behind: seq<int>, f: Frame)
    requires Inv(s) && !s.csr.sstatus.kernel && !f.sstatus.kernel && s.mem.runs == Filled(sizes, 0)
    requires |behind| == 15 * s.blocks > 0
    ensures Refs(s) && Enabled(s, Sleep(1, behind), f) && Step(s, Sleep(1, behind), f) == EndBy(behind[0])
  {
    hide Inv, Refs, Step;
    RoomLeft(sizes, 0);
    UsedLast(sizes);
    OpenEnabled(s, f, behind);
    StepOk(s, Sleep(1, behind), f);
  }

  lemma UsedLast(sizes: seq<nat>)
    ensures Filled(sizes, 0) == UsedRuns(sizes) && forall r :: r in UsedRuns(sizes) ==> r.used
  {
  }

  /** A byte has arrived before the first thread asks for one, and it has moved its stack pointer
      since it was started: its call returns nothing to it. */
  lemma ByteLost(x: Machinery, k: Frame, f: Frame) returns (s: State)
    requires CanStart(x) && Started(x).Some? && x.a0 == map[] && k.sstatus.kernel && !f.sstatus.kernel
    requires f.sp != Memory.AddrOf(x.base, Memory.IndexBlocks(x.blocks) + 98) + STACK_SIZE - 8 - CONTEXT_SIZE
    ensures GetsTo(x, s) && Refs(s) && Enabled(s, Getc, f) && s.rx == [65]
    ensures var o := Step(s, Getc, f); o.Goes? && o.state.rx == [] && f.sp !in o.state.a0
  {
    hide Inv, Started, GetsTo, Refs, Step, Filled;
    StartedRest(x);
    var s1 := UserRuns(x, k);
    s := Arrived(x, s1, f);
    GetcMisses(s, f);
  }

  lemma Arrived(x: Machinery, s1: State, f: Frame) returns (s: State)
    requires GetsTo(x, s1) && Inv(s1) && !s1.csr.sstatus.kernel && !f.sstatus.kernel && s1.rx == [] && s1.q.input == []
    ensures GetsTo(x, s) && Inv(s) && s == s1.(csr := f, rx := [65])
  {
    hide Inv, GetsTo, Refs, Step;
    var e := Console([65]);
    EnterOk(s1, e, f);
    StepOk(s1, e, f);
    s := s1.(csr := f, rx := [65]);
    assert [] + [65] == [65];
    ConsoleGoes(s1, f);
    GetsNext(x, s1, e, f, s);
  }

  lemma ConsoleGoes(s: State, f: Frame)
    requires Refs(s) && Enabled(s, Console([65]), f) && s.rx == [] && s.q.input == []
    ensures Step(s, Console([65]), f) == Goes(s.(csr := f, rx := [65]))
  {
    assert [] + [65] == [65];
  }

  lemma GetcMisses(s: State, f: Frame)
    requires Inv(s) && !s.csr.sstatus.kernel && !f.sstatus.kernel && s.rx == [65]
    requires s.current in s.threads && f.sp != s.threads[s.current].frame.sp && f.sp !in s.a0
    ensures Refs(s) && Enabled(s, Getc, f)
    ensures var o := Step(s, Getc, f); o.Goes? && o.state.rx == [] && f.sp !in o.state.a0
  {
    hide Inv, Refs;
    EnterOk(s, Getc, f);
  }

  /** With eleven blocks to spare the first thread can open ten semaphores; the eleventh is
      written outside the table. */
  lemma EleventhSemaphore(x: Machinery, k: Frame, f: Frame, behind: seq<int>) returns (s: State)
    requires CanStart(x) && Memory.IndexBlocks(x.blocks) + START_BLOCKS + 11 <= x.blocks && k.sstatus.kernel
             && !f.sstatus.kernel
    requires |behind| == 15 * x.blocks
    ensures GetsTo(x, s) && Refs(s) && s.opens == 10 && Enabled(s, SemOpen(1, behind), f)
    ensures Step(s, SemOpen(1, behind), f).Strays?
  {
    hide Inv, Started, GetsTo, Refs, Step, Filled;
    StartedOk(x);
    StartedRest(x);
    var s1 := UserRuns(x, k);
    var i := Memory.IndexBlocks(x.blocks);
    s := Opened(x, s1, f, behind, BootSizes(i) + [1], x.blocks - i - START_BLOCKS, 10);
    StepOk(s, SemOpen(1, behind), f);
  }

  /** n semaphores opened one after the other. */
  lemma {:induction false} Opened(x: Machinery, s: State, f: Frame, behind: seq<int>, sizes: seq<nat>, rest: nat,
                                  n: nat) returns (s': State)
    requires GetsTo(x, s) && Inv(s) && !s.csr.sstatus.kernel && !f.sstatus.kernel
    requires s.mem.runs == Filled(sizes, rest) && n < rest && s.opens + n <= SEM_TABLE && |behind| == 15 * s.blocks
    ensures GetsTo(x, s') && Inv(s') && s'.opens == s.opens + n
    ensures Refs(s') && Enabled(s', SemOpen(1, behind), f) && !Starves(s', SemOpen(1, behind))
    decreases n
  {
    hide Inv, GetsTo, Refs, Step, Filled;
    OpenEnabled(s, f, behind);
    RoomLeft(sizes, rest);
    if n == 0 {
      s' := s;
    } else {
      var s1 := OpenOne(s, f, behind, sizes, rest);
      GetsNext(x, s, SemOpen(1, behind), f, s1);
      s' := Opened(x, s1, f, behind, sizes + [1], rest - 1, n - 1);
    }
  }

  lemma OpenEnabled(s: State, f: Frame, behind: seq<int>)
    requires Inv(s) && !s.csr.sstatus.kernel && !f.sstatus.kernel && |behind| == 15 * s.blocks
    ensures Refs(s) && Enabled(s, SemOpen(1, behind), f) && Enabled(s, Sleep(1, behind), f)
  {
    hide Inv, Refs;
    InvRefs(s);
  }

  lemma OpenOne(s: State, f: Frame, behind: seq<int>, sizes: seq<nat>, rest: nat) returns (s': State)
    requires Inv(s) && Refs(s) && Enabled(s, SemOpen(1, behind), f) && !f.sstatus.kernel
    requires s.mem.runs == Filled(sizes, rest) && rest >= 2 && s.opens < SEM_TABLE
    ensures Step(s, SemOpen(1, behind), f) == Goes(s') && Inv(s') && !s'.csr.sstatus.kernel
    ensures s'.mem.runs == Filled(sizes + [1], rest - 1) && s'.opens == s.opens + 1 && s'.blocks == s.blocks
  {
    hide Inv, Refs, Filled, Ownership.Grab;
    var e := SemOpen(1, behind);
    StepOk(s, e, f);
    RoomLeft(sizes, rest);
    GrabFilled(sizes, rest, s.mem.uses, 1, Ownership.SemOf);
    assert s.mem == Ownership.Mem(Filled(sizes, rest), s.mem.uses);
    s' := SemOpenStep(Enter(s, e, f), 1);
    EnterOk(s, e, f);
  }
}
