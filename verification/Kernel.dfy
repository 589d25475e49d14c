/** The kernel's own routines over list heads, links and records in memory, proved to do to
    memory what the transitions of the machine do to its state. */
module Kernels {
  import opened Options
  import opened Words
  import Runs
  import opened HeapHistory
  import opened Memory
  import opened DeltaQueue
  import Sequences
  import opened Semaphores
  import opened ThreadQueues
  import opened Ownership
  import opened Machine
  import opened Safety
  import opened Startup
  import Effects
  import opened Rings
  import opened KernelLists

  const SEM_WAIT_TIMEOUT: int := -2

  /** How a trap ends: back to a thread, in a panic, with a write through a null pointer, or with
      memory touched or handed out that is not the kernel's to use. */
  datatype Ending = Resumed | Panicked | Faulted | Strayed

  function EndingOf(o: Option<Outcome>): Ending {
    match o
    case None => Resumed
    case Some(Panics) => Panicked
    case Some(_) => Strayed
  }

  class Kernel {
    const base: nat
    const blocks: nat
    const wrapper: nat
    const idle: nat                    // kernel_main
    const received: array<int>         // console_receive_buffer
    const heap: Allocator              // the heap and its index

    var users: nat
    var threads: map<nat, Tcb>
    var next: Links
    var prev: Links
    var readyThreads: nat
    var waitingForInput: nat
    var sleepingThreads: nat
    var sems: map<nat, SemRecord>
    var sleeping: map<nat, SleepRecord>
    var receivedCount: nat
    var current: nat
    var csr: Frame
    var a0: map<nat, int>
    var semCount: nat                  // sem_cnt

    /** The runs of the heap, and what its blocks are for. */
    ghost var mem: Mem

    /** The queues that the links hold. */
    ghost var q: Queues

    ghost function Lists(): Heads
      reads this
    {
      Heads(readyThreads, waitingForInput, sleepingThreads, sems, sleeping)
    }

    ghost predicate InBounds()
      reads this
    {
      received.Length == RX_SIZE && receivedCount <= RX_SIZE
    }

    ghost predicate Valid()
      reads this
    {
      Holds(q, next, prev, Lists()) && InBounds()
    }

    /** The heap is the one the kernel goes by, with these words behind its index. */
    ghost predicate Backed(behind: seq<int>)
      reads `mem, heap, heap.words
    {
      Stands(heap, base, blocks, mem.runs, behind) && heap.words != received
    }

    /** Memory holds the queues if the sleep queue is entered at `head`. */
    ghost predicate HoldsFrom(head: nat)
      reads this
    {
      Holds(q, next, prev, Lists().(sleeping := head))
    }

    /** The machine's state that memory stands for. */
    ghost function Abs(): State
      requires InBounds()
      reads this, received
    {
      State(base, blocks, wrapper, mem, users, threads, q, received[..receivedCount], current, idle, csr, a0, semCount)
    }

    /** What an ending has to do with the outcome of the machine's transition; after a return the heap
        is again the one the kernel goes by. */
    ghost predicate Meets(out: Ending, o: Outcome, behind: seq<int>)
      reads this, received, heap, heap.words
    {
      match o
      case Goes(s') => out == Resumed && Valid() && Abs() == s' && Backed(behind)
      case Panics => out == Panicked
      case NullWrite => out == Faulted
      case Strays => out == Strayed
    }

    /** `main` after its allocations: of kernel_main's record only bp and the slice are set; the saved
        registers are whatever memory held. */
    constructor (x: Machinery, kernelMain: nat, heap: Allocator, received: array<int>, ghost l: Layout,
                 ghost behind: seq<int>)
      requires CanStart(x) && received.Length == RX_SIZE && kernelMain == l.kernelMain
      requires Stands(heap, x.base, x.blocks, l.mem.runs, behind) && heap.words != received
      ensures Valid() && Abs() == Booted(x, l) && Backed(behind) && this.received == received && this.heap == heap
    {
      base, blocks, wrapper, idle := x.base, x.blocks, x.wrapper, kernelMain;
      this.heap, csr, a0, this.received := heap, x.csr, x.a0, received;
      users, receivedCount, semCount := 0, 0, 0;
      threads := map[kernelMain := Tcb(x.garbage, 0, 1)];
      next, prev, sems, sleeping := map[], map[], map[], map[];
      readyThreads, waitingForInput, sleepingThreads := 0, 0, 0;
      current := kernelMain;
      mem, q := l.mem, Queues([], [], map[], [], map[]);
      new;
      hide Holds, Stands;
      EmptyHolds(next, prev, Lists());
      assert received[..receivedCount] == [];
    }

    /** `main` up to kernel_main's first dispatch, on memory with arbitrary contents; no kernel if it
        does not get that far. */
    static method Start(x: Machinery, memory: array<int>, received: array<int>) returns (k: Kernel?)
      requires CanStart(x) && received.Length == RX_SIZE && memory != received && memory.Length == 16 * x.blocks
      requires forall i :: 0 <= i < memory.Length ==> -TWO31 <= memory[i] < TWO31
      modifies memory
      ensures k == null <==> Started(x).None?
      ensures k != null ==>
                && fresh(k) && k.received == received && fresh(k.heap) && k.heap.words == memory
                && k.Valid() && Started(x) == Some(k.Abs()) && Inv(k.Abs()) && k.Backed(old(memory[x.blocks..]))
    {
      hide Allocate, Holds, Inv, Grab, Booted, Created, UserTop, Stands;
      ghost var behind := memory[x.blocks..];
      var heap := InitHeap(x, memory);
      StartedNone(x);
      var ok, kernelMain, userStack, l := AllocateAll(x, heap, behind);
      if !ok { return null; }
      StackHigh(x);
      BootedIs(x, l);
      k := new Kernel(x, kernelMain, heap, received, l, behind);
      ok := k.FirstThread(x, userStack, l, behind);
      StartedOk(x);
      if !ok { return null; }
    }

    /** `__mem_init`. */
    static method InitHeap(x: Machinery, memory: array<int>) returns (heap: Allocator)
      requires CanStart(x) && memory.Length == 16 * x.blocks
      requires forall i :: 0 <= i < memory.Length ==> -TWO31 <= memory[i] < TWO31
      modifies memory
      ensures fresh(heap) && heap.words == memory && IndexBlocks(x.blocks) < x.blocks
      ensures Stands(heap, x.base, x.blocks, Initial(x.blocks).runs, old(memory[x.blocks..]))
    {
      IndexFits(x.blocks);
      heap := new Allocator(x.base, memory);
      assert heap.words[x.blocks..] == old(memory[x.blocks..]);
    }

    static lemma StartedNone(x: Machinery)
      requires CanStart(x)
      ensures IndexBlocks(x.blocks) < x.blocks && (Allocate(x.blocks).None? ==> Started(x).None?)
    {
      hide Allocate, Grab, Created, Booted;
      IndexFits(x.blocks);
    }

    /** The six allocations of `main`; those of the console are not looked at, but without them the
        others fail as well. */
    static method AllocateAll(x: Machinery, heap: Allocator, ghost behind: seq<int>)
      returns (ok: bool, kernelMain: nat, userStack: nat, ghost l: Layout)
      requires CanStart(x) && IndexBlocks(x.blocks) < x.blocks
      requires Stands(heap, x.base, x.blocks, Initial(x.blocks).runs, behind)
      modifies heap`runs, heap.words
      ensures ok <==> Allocate(x.blocks).Some?
      ensures ok ==>
                && Allocate(x.blocks) == Some(l) && l.kernelMain == kernelMain && l.userStack == userStack
                && Stands(heap, x.base, x.blocks, l.mem.runs, behind)
    {
      hide Allocate, Grab, Stands, Initial, Checked;
      BuffersFirst(x.blocks);
      ghost var m0 := Initial(x.blocks);
      l := Layout(m0, 0, 0);
      var b1, _, m1 := Take(heap, x.base, x.blocks, CONSOLE_BLOCKS, m0, System, behind);
      if b1 == 0 { return false, 0, 0, l; }
      var b2, _, m2 := Take(heap, x.base, x.blocks, CONSOLE_BLOCKS, m1, System, behind);
      if b2 == 0 { return false, 0, 0, l; }
      AllocateSome(x.blocks, m1, b1, m2, b2);
      var b3, _, m3 := Take(heap, x.base, x.blocks, 1, m2, ThreadOf, behind);
      if b3 == 0 { return false, 0, 0, l; }
      var b4, _, m4 := Take(heap, x.base, x.blocks, 1, m3, System, behind);
      if b4 == 0 { return false, 0, 0, l; }
      var b5, _, m5 := Take(heap, x.base, x.blocks, STACK_BLOCKS, m4, System, behind);
      if b5 == 0 { return false, 0, 0, l; }
      var b6, _, m6 := Take(heap, x.base, x.blocks, STACK_BLOCKS, m5, User, behind);
      if b6 == 0 { return false, 0, 0, l; }
      return true, b3, b6, Layout(m6, b3, b6);
    }

    /** What is looked at decides, once the buffers are there. */
    static lemma AllocateSome(n: nat, m1: Mem, b1: nat, m2: Mem, b2: nat)
      requires IndexBlocks(n) < n
      requires Grab(Initial(n), CONSOLE_BLOCKS, System) == Some((m1, b1))
               && Grab(m1, CONSOLE_BLOCKS, System) == Some((m2, b2))
      ensures Allocate(n)
           == match Grab(m2, 1, ThreadOf)
              case None => None
              case Some((m3, b3)) =>
                match Grab(m3, 1, System)
                case None => None
                case Some((m4, _)) =>
                  match Grab(m4, STACK_BLOCKS, System)
                  case None => None
                  case Some((m5, _)) =>
                    match Grab(m5, STACK_BLOCKS, User)
                    case None => None
                    case Some((m6, b6)) => Some(Layout(m6, b3, b6))
    {
      hide Grab, Initial;
    }

    /** The creation of user_main. */
    method FirstThread(x: Machinery, userStack: nat, ghost l: Layout, ghost behind: seq<int>) returns (ok: bool)
      requires CanStart(x) && Valid() && Abs() == Booted(x, l) && Inv(Abs()) && Backed(behind)
               && userStack == l.userStack
      requires UserTop(x, l) >= STACK_SIZE && x.base <= BottomOf(UserTop(x, l))
      modifies this, heap`runs, heap.words
      ensures ok <==> Grab(l.mem, 1, ThreadOf).Some?
      ensures ok ==>
                var (m, b) := Grab(l.mem, 1, ThreadOf).value;
                Valid() && Abs() == Created(Booted(x, l), x.userMain, UserTop(x, l), m, b) && Backed(behind)
    {
      hide Holds, Inv, Grab, Stands, Denial, Booted, Created;
      BootedLooks(x, l);
      FreshRecord(Abs());
      var t, out := MemAlloc(1, ThreadOf, behind);
      if t == 0 { return false; }
      CreatedAnyway(Booted(x, l), x.userMain, UserTop(x, l), mem, t);
      FillIn(t, x.userMain, AddrOf(x.base, userStack) + STACK_SIZE - 8, behind);
      return true;
    }

    static lemma FreshRecord(s: State)
      requires Inv(s)
      ensures Grab(s.mem, 1, ThreadOf).Some? ==>
                Grab(s.mem, 1, ThreadOf).value.1 != 0 && Grab(s.mem, 1, ThreadOf).value.1 !in s.q.home
    {
      hide Core, Grab;
      GrabFresh(s, ThreadOf);
    }

    static lemma CreatedAnyway(s: State, start: int, stack: nat, m: Mem, t: nat)
      requires stack >= STACK_SIZE && s.base <= BottomOf(stack)
      ensures Created(s.(mem := m), start, stack, m, t) == Created(s, start, stack, m, t)
    {
      hide Enqueue, BlockOf;
    }

    static lemma BootedIs(x: Machinery, l: Layout)
      requires CanStart(x) && IndexBlocks(x.blocks) <= x.blocks && Allocate(x.blocks) == Some(l)
      ensures Inv(Booted(x, l))
    {
      hide Allocate, Inv, Booted;
      BootedOk(x);
    }

    static lemma BootedLooks(x: Machinery, l: Layout)
      ensures Booted(x, l).mem == l.mem && Booted(x, l).q.home == map[] && Booted(x, l).base == x.base
    {
    }

    /* ---- src/mem.c; a block number stands for its address, and 0 for null ---- */

    /** `__mem_alloc`: a block number, or 0 if there is none, unless the search does not return or
        returns the end of the heap. */
    static method Take(heap: Allocator, base: nat, blocks: nat, n: nat, ghost m: Mem, ghost use: Use,
                       ghost behind: seq<int>)
      returns (b: nat, out: Ending, ghost m': Mem)
      requires Stands(heap, base, blocks, m.runs, behind) && n >= 1
      modifies heap`runs, heap.words
      ensures out == EndingOf(Denial(m, blocks, n, behind))
      ensures b == 0 <==> Grab(m, n, use).None?
      ensures b != 0 ==> out == Resumed && Grab(m, n, use) == Some((m', b))
      ensures b == 0 ==> m' == m
      ensures out == Resumed ==> Stands(heap, base, blocks, m'.runs, behind)
    {
      hide AtEnd, Grab, Denial;
      TakeMeans(base, blocks, n, m, use, behind);
      var r := heap.Alloc(n);
      b, out, m' := 0, Resumed, m;
      match r {
        case Null =>
        case Panic => out := Panicked;
        case Outside => out := Strayed;
        case Block(p) =>
          if p == AddrOf(base, blocks) {
            out := Strayed;
          } else {
            b := BlockOf(base, p);
            m' := Grab(m, n, use).value.0;
          }
      }
    }

    /** The kernel's view of an allocation, for one with and for one without a fit. */
    static lemma TakeMeans(base: nat, blocks: nat, n: nat, m: Mem, use: Use, behind: seq<int>)
      requires blocks >= 2 && Heap(m.runs, blocks, IndexBlocks(blocks)) && n >= 1
      ensures Runs.CanAlloc(m.runs, n) <==> Grab(m, n, use).Some?
      ensures Runs.CanAlloc(m.runs, n) ==>
                && Denial(m, blocks, n, behind) == None && TakeRuns(m.runs, n).Some?
                && var (rs, b) := TakeRuns(m.runs, n).value;
                   Grab(m, n, use).value.0.runs == rs && Grab(m, n, use).value.1 == b && 0 < b < blocks
                     && BlockOf(base, AddrOf(base, b)) == b
      ensures !Runs.CanAlloc(m.runs, n) ==>
                && m.runs != []
                && var end := AtEnd(!m.runs[|m.runs| - 1].used, blocks, n, behind);
                   && Denial(m, blocks, n, behind)
                      == (if end.NotFound? then None else if end.Corrupted? then Some(Panics) else Some(Strays))
                   && (end.Found? ==> end.block == blocks)
    {
      hide TakeRuns;
      TakeFacts(m.runs, n, blocks, IndexBlocks(blocks));
    }

    /** `__mem_free` of the address of a live allocation. */
    method MemFreeAt(ptr: nat, ghost behind: seq<int>) returns (ok: bool)
      requires Backed(behind) && DropAt(mem, base, blocks, ptr).Some? && ptr != base
      modifies `mem, heap`runs, heap.words
      ensures ok && DropAt(old(mem), base, blocks, ptr) == Some(mem) && Backed(behind)
    {
      var code := heap.Free(ptr);
      mem := DropAt(mem, base, blocks, ptr).value;
      return code == 0;
    }

    method MemFree(b: nat, ghost behind: seq<int>) returns (ok: bool)
      requires Backed(behind) && Drop(mem, b).Some? && b != 0
      modifies `mem, heap`runs, heap.words
      ensures ok && Drop(old(mem), b) == Some(mem) && Backed(behind)
    {
      hide Drop, DropAt;
      FreeMeans(mem, base, blocks, b);
      ok := MemFreeAt(AddrOf(base, b), behind);
    }

    static lemma FreeMeans(m: Mem, base: nat, blocks: nat, b: nat)
      requires Heap(m.runs, blocks, IndexBlocks(blocks)) && Drop(m, b).Some?
      ensures DropAt(m, base, blocks, AddrOf(base, b)) == Drop(m, b)
    {
      Runs.LiveBounds(m.runs, 0, b);
      Runs.LiveSizes(m.runs, 0, b);
      AddrRoundTrip(base, b);
    }

    method MemAlloc(n: nat, ghost use: Use, ghost behind: seq<int>) returns (b: nat, out: Ending)
      requires Backed(behind) && n >= 1
      modifies `mem, heap`runs, heap.words
      ensures out == EndingOf(Denial(old(mem), blocks, n, behind))
      ensures b == 0 <==> Grab(old(mem), n, use).None?
      ensures if b == 0 then mem == old(mem) else out == Resumed && Grab(old(mem), n, use) == Some((mem, b))
      ensures out == Resumed ==> Backed(behind)
    {
      hide Stands, Grab, Denial;
      ghost var m';
      b, out, m' := Take(heap, base, blocks, n, mem, use, behind);
      mem := m';
    }

    /* ---- src/list.c ---- */

    method ListInsert(head: nat, node: nat)
      requires head in prev
      modifies `next, `prev
      ensures next == InsertedNext(old(next), old(prev), head, node)
      ensures prev == InsertedPrev(old(prev), head, node)
    {
      prev := prev[node := prev[head]];
      next := next[node := head];
      next := next[prev[head] := node];
      prev := prev[head := node];
    }

    /** The two writes that take a node out of its ring, as they stand in five places. */
    method Unlink(node: nat)
      requires node in next && node in prev
      modifies `next, `prev
      ensures next == RemovedNext(old(next), old(prev), node)
      ensures prev == RemovedPrev(old(next), old(prev), node)
      ensures node in next && next[node] == old(next[node])
    {
      next := next[prev[node] := next[node]];
      prev := prev[next[node] := prev[node]];
    }

    /* ---- src/scheduler.c ---- */

    /** Where the sleep queue is entered makes no difference. */
    method SchedulerPush(t: nat, ghost head: nat)
      requires HoldsFrom(head) && t in threads && t != 0 && t !in q.home
      modifies `next, `prev, `readyThreads, `threads, `q
      ensures HoldsFrom(head) && q == Enqueue(old(q), Ready, t)
      ensures threads == old(threads)[t := old(threads[t]).(timeLeft := TIME_SLICE)]
      ensures forall m :: m in old(next) && m !in old(q).home && m != t ==> m in next && next[m] == old(next)[m]
    {
      hide Holds, InsertedNext, InsertedPrev;
      ghost var lists := Lists().(sleeping := head);
      threads := threads[t := threads[t].(timeLeft := TIME_SLICE)];
      HeadShows(q, next, prev, lists, Ready);
      if readyThreads == 0 {
        next := next[t := t];
        prev := prev[t := t];
        readyThreads := t;
      } else {
        ListInsert(readyThreads, t);
      }
      PushHolds(q, old(next), old(prev), lists, next, prev, readyThreads, Ready, t);
      q := Enqueue(q, Ready, t);
    }

    /** `__scheduler_push`, as the machine sees it. */
    method PushReady(t: nat)
      requires Valid() && t in threads && t != 0 && t !in q.home
      modifies `next, `prev, `readyThreads, `threads, `q
      ensures Valid() && Abs() == Refill(old(Abs()).(q := Enqueue(old(q), Ready, t)), t)
    {
      hide Holds, Enqueue;
      assert Lists().(sleeping := sleepingThreads) == Lists();
      SchedulerPush(t, sleepingThreads);
      assert Lists().(sleeping := sleepingThreads) == Lists();
    }

    method SchedulerNext() returns (t: nat)
      requires Valid()
      modifies `next, `prev, `readyThreads, `current, `q
      ensures Valid() && q == AfterChoice(old(q))
      ensures t == Chosen(old(q), idle) && current == t
    {
      hide Holds;
      HeadShows(q, next, prev, Lists(), Ready);
      if readyThreads == 0 {
        current := idle;
        return idle;
      }
      t := readyThreads;
      if next[readyThreads] == readyThreads {
        current := t;
        readyThreads := 0;
      } else {
        Unlink(readyThreads);
        readyThreads := next[readyThreads];
        current := t;
      }
      PopHolds(q, old(next), old(prev), old(Lists()), next, prev, readyThreads, Ready);
      q := Dequeue(q, Ready);
    }
  
    /** The walk has stopped at node, in front of entry k, with the first k delays added up. */
    ghost predicate Stopped(node: nat, delta: nat, k: nat, time: nat)
      reads this
    {
      && StopsAt(q.sleepers, time, k) && delta == Elapsed(q.sleepers, k)
      && node == (if k < |q.sleepers| then q.sleepers[k].node else sleepingThreads)
      && node in prev && (node != sleepingThreads <==> k < |q.sleepers|)
      && (k < |q.sleepers| ==>
            && node in sleeping && sleeping[node] == SleepRecord(q.sleepers[k].thread, q.sleepers[k].delta)
            && time - delta <= sleeping[node].delta && node in q.home)
    }

    /** The search loop of `__scheduler_timeout`; its 64-bit sums do not overflow. */
    method Walk(time: nat) returns (node: nat, delta: nat, ghost k: nat)
      requires Valid() && Fitting(q.sleepers) && q.sleepers != [] && q.sleepers[0].delta <= time
      ensures Stopped(node, delta, k, time)
    {
      hide Holds, Waiting, Fitting, Sequences.Distinct, Elapsed;
      HeadShows(q, next, prev, Lists(), Asleep);
      ElapsedNext(q.sleepers, 0);
      node, delta, k := sleepingThreads, 0, 0;
      while true
        invariant k < |q.sleepers| && node == q.sleepers[k].node
        invariant delta == Elapsed(q.sleepers, k)
        invariant Elapsed(q.sleepers, k + 1) <= time
        invariant forall j :: 2 <= j <= k + 1 ==> Elapsed(q.sleepers, j) < time
        decreases |q.sleepers| - k
      {
        SleeperAt(q, next, prev, Lists(), k);
        ElapsedNext(q.sleepers, k);
        ElapsedFits(q.sleepers, k + 1);
        delta := (delta + sleeping[node].delta) % TWO64;
        node := next[node];
        k := k + 1;
        if k < |q.sleepers| {
          SleeperAt(q, next, prev, Lists(), k);
          ElapsedNext(q.sleepers, k);
          ElapsedFits(q.sleepers, k + 1);
        }
        SleeperAt(q, next, prev, Lists(), 0);
        if !(node != sleepingThreads && (delta + sleeping[node].delta) % TWO64 < time) { break; }
      }
    }

    /** How `__scheduler_timeout` ends: without a block for the record it writes through a null pointer,
        unless the search for one does not return or strays. */
    static ghost function TimedOut(s: State, thread: nat, time: nat, behind: seq<int>): Outcome {
      match Denial(s.mem, s.blocks, 1, behind)
      case Some(o) => o
      case None => Timeout(s, thread, time)
    }

    /** A block just allocated is no list node yet. */
    static ghost predicate NewNode(m: Mem, q: Queues) {
      var o := Grab(m, 1, SleeperOf);
      o.Some? ==> o.value.1 !in q.home
    }

    /** The first branch of `__scheduler_timeout`, past the allocation. */
    method LinkAlone(n: nat, thread: nat, time: nat)
      requires Valid() && q.sleepers == [] && time < TWO64 && n != 0 && n !in q.home
      modifies `next, `prev, `sleepingThreads, `sleeping, `q
      ensures Valid() && q == FallAsleep(old(q), Sleeper(n, thread, time))
    {
      hide Holds, Insert;
      sleeping := sleeping[n := SleepRecord(thread, time)];
      next := next[n := n];
      prev := prev[n := n];
      sleepingThreads := n;
      FirstHolds(q, Sleeper(n, thread, time), old(next), old(prev), old(Lists()));
      q := FallAsleep(q, Sleeper(n, thread, time));
    }

    /** The second branch, past the allocation; the old first's delay has been shortened. */
    method LinkAhead(first: nat, n: nat, thread: nat, time: nat, ghost before: map<nat, SleepRecord>)
      requires Holds(q, next, prev, Lists().(sleeping := sleepingThreads, records := before)) && InBounds()
      requires Fitting(q.sleepers) && q.sleepers != [] && time < q.sleepers[0].delta && time < TWO64
      requires first == sleepingThreads && first in prev && n != 0 && n !in q.home
      requires sleeping == before[first := SleepRecord(q.sleepers[0].thread, q.sleepers[0].delta - time)]
      modifies `next, `prev, `sleepingThreads, `sleeping, `q
      ensures Valid() && q == FallAsleep(old(q), Sleeper(n, thread, time))
    {
      hide Holds, Insert, InsertedNext, InsertedPrev, Fitting;
      sleeping := sleeping[n := SleepRecord(thread, time)];
      ListInsert(first, n);
      sleepingThreads := n;
      EarliestHolds(q, Sleeper(n, thread, time), old(next), old(prev), old(Lists()).(records := before), sleeping);
      q := FallAsleep(q, Sleeper(n, thread, time));
    }

    /** The last branch, past the walk and the allocation. */
    method LinkBehind(node: nat, delta: nat, n: nat, thread: nat, time: nat, ghost k: nat)
      requires Valid() && Fitting(q.sleepers) && q.sleepers != [] && time < TWO64 && n != 0 && n !in q.home
      requires Stopped(node, delta, k, time)
      modifies `next, `prev, `sleeping, `q
      ensures Valid() && q == FallAsleep(old(q), Sleeper(n, thread, time))
    {
      hide Holds, Insert, Elapsed, InsertedNext, InsertedPrev, Fitting;
      sleeping := sleeping[n := SleepRecord(thread, time - delta)];
      ListInsert(node, n);
      if node != sleepingThreads {
        sleeping := sleeping[node := sleeping[node].(delta := sleeping[node].delta - (time - delta))];
      }
      LaterHolds(q, Sleeper(n, thread, time), k, old(next), old(prev), old(Lists()), sleeping);
      q := FallAsleep(q, Sleeper(n, thread, time));
    }

    method SleepAlone(thread: nat, time: nat, ghost behind: seq<int>) returns (out: Ending)
      requires Valid() && q.sleepers == [] && time < TWO64 && Backed(behind) && NewNode(mem, q)
      modifies `mem, `next, `prev, `sleepingThreads, `sleeping, `q, heap`runs, heap.words
      ensures Meets(out, TimedOut(old(Abs()), thread, time, behind), behind)
    {
      hide Holds, Fitting, Insert, Elapsed, Grab, Denial, Stands, FallAsleep;
      var n;
      n, out := MemAlloc(1, SleeperOf, behind);
      if out != Resumed { return; }
      if n == 0 { return Faulted; }
      LinkAlone(n, thread, time);
    }

    method SleepAhead(first: nat, thread: nat, time: nat, ghost before: map<nat, SleepRecord>, ghost behind: seq<int>)
      returns (out: Ending)
      requires Holds(q, next, prev, Lists().(sleeping := sleepingThreads, records := before)) && InBounds()
      requires Fitting(q.sleepers) && q.sleepers != [] && time < q.sleepers[0].delta && time < TWO64
      requires first == sleepingThreads && first in prev && Backed(behind) && NewNode(mem, q)
      requires sleeping == before[first := SleepRecord(q.sleepers[0].thread, q.sleepers[0].delta - time)]
      modifies `mem, `next, `prev, `sleepingThreads, `sleeping, `q, heap`runs, heap.words
      ensures Meets(out, TimedOut(old(Abs()), thread, time, behind), behind)
    {
      hide Holds, Fitting, Insert, Elapsed, Grab, Denial, Stands, FallAsleep;
      var n;
      n, out := MemAlloc(1, SleeperOf, behind);
      if out != Resumed { return; }
      if n == 0 { return Faulted; }
      LinkAhead(first, n, thread, time, before);
    }

    method SleepBehind(node: nat, delta: nat, thread: nat, time: nat, ghost k: nat, ghost behind: seq<int>)
      returns (out: Ending)
      requires Valid() && Fitting(q.sleepers) && q.sleepers != [] && time < TWO64
      requires Stopped(node, delta, k, time) && Backed(behind) && NewNode(mem, q)
      modifies `mem, `next, `prev, `sleeping, `q, heap`runs, heap.words
      ensures Meets(out, TimedOut(old(Abs()), thread, time, behind), behind)
    {
      hide Holds, Fitting, Insert, Elapsed, Grab, Denial, Stands, FallAsleep;
      var n;
      n, out := MemAlloc(1, SleeperOf, behind);
      if out != Resumed { return; }
      if n == 0 { return Faulted; }
      LinkBehind(node, delta, n, thread, time, k);
    }

    method SchedulerTimeout(thread: nat, time: nat, ghost behind: seq<int>) returns (out: Ending)
      requires Valid() && Fitting(q.sleepers) && time < TWO64 && Backed(behind) && NewNode(mem, q)
      modifies `mem, `next, `prev, `sleepingThreads, `sleeping, `q, heap`runs, heap.words
      ensures Meets(out, TimedOut(old(Abs()), thread, time, behind), behind)
    {
      hide Holds, Waiting, Fitting, Stands, TimedOut, NewNode;
      HeadShows(q, next, prev, Lists(), Asleep);
      if sleepingThreads == 0 {
        out := SleepAlone(thread, time, behind);
        return;
      }
      SleeperAt(q, next, prev, Lists(), 0);
      var first := sleepingThreads;
      if time < sleeping[first].delta {
        ghost var before := sleeping;
        assert Lists().(sleeping := sleepingThreads, records := before) == Lists();
        sleeping := sleeping[first := sleeping[first].(delta := sleeping[first].delta - time)];
        out := SleepAhead(first, thread, time, before, behind);
        return;
      }
      var node, delta, k := Walk(time);
      out := SleepBehind(node, delta, thread, time, k, behind);
    }

    /** The first sleeper's thread is made ready and its record unlinked. */
    method WakeHead(first: nat)
      requires Valid() && q.sleepers != [] && first == sleepingThreads && first in sleeping
      requires var t := q.sleepers[0].thread; t in threads && t != 0 && t !in q.home && t != first
      modifies `next, `prev, `readyThreads, `sleepingThreads, `threads, `q
      ensures Valid() && q == Wake(old(q))
      ensures var t := old(q.sleepers[0].thread); threads == old(threads)[t := old(threads[t]).(timeLeft := TIME_SLICE)]
    {
      hide Holds, Enqueue, WakeFirst, RemovedNext, RemovedPrev;
      SleeperAt(q, next, prev, Lists(), 0);
      WakeLate(q);
      SchedulerPush(sleeping[first].thread, sleepingThreads);
      SleepersKept(old(q), old(q.sleepers[0].thread));
      SleeperAt(q, next, prev, Lists(), 0);
      ghost var next1, prev1, lists1 := next, prev, Lists();
      if next[sleepingThreads] == sleepingThreads {
        sleepingThreads := 0;
      } else {
        Unlink(sleepingThreads);
        sleepingThreads := next[sleepingThreads];
      }
      WakeHolds(q, next1, prev1, lists1, next, prev, sleepingThreads);
      q := WakeFirst(q);
    }

    static lemma SleepersKept(q: Queues, t: nat)
      ensures Enqueue(q, Ready, t).sleepers == q.sleepers
    {
    }

    /** False if the kernel panics, which it never does. */
    method SchedulerTick(ghost behind: seq<int>) returns (ok: bool)
      requires Valid() && Core(Abs(), Some(current)) && Waiting(q.sleepers) && Backed(behind)
      modifies `mem, `next, `prev, `readyThreads, `sleepingThreads, `sleeping, `threads, `q, heap`runs, heap.words
      ensures ok && Valid() && Backed(behind) && Refs(old(Abs())) && Ticked(old(Abs())) == Goes(Abs())
    {
      hide Holds, Core, Refs, Waiting, Fitting, Stands;
      Basics(Abs());
      HeadShows(q, next, prev, Lists(), Asleep);
      if sleepingThreads == 0 {
        NothingDue(Abs());
        return true;
      }
      var first := sleepingThreads;
      TickStart(Abs());
      DecrementHolds(q, next, prev, Lists());
      sleeping := sleeping[first := sleeping[first].(delta := (sleeping[first].delta + TWO64 - 1) % TWO64)];
      q := q.(sleepers := Decrement(q.sleepers));
      ok := WakeAll(first, behind);
    }

    static lemma NothingDue(s: State)
      requires Refs(s) && s.q.sleepers == []
      ensures Ticked(s) == Goes(s)
    {
    }

    /** One round of the loop of `__scheduler_tick`. */
    method WakeRound(first: nat, ghost behind: seq<int>) returns (ok: bool, last: bool)
      requires Valid() && Backed(behind) && Core(Abs(), Some(current)) && q.sleepers != [] && first == sleepingThreads
      requires q.sleepers[0].delta == 0
      modifies `mem, `next, `prev, `readyThreads, `sleepingThreads, `threads, `q, heap`runs, heap.words
      ensures ok && Valid() && Backed(behind) && last == (|old(q.sleepers)| == 1)
      ensures Refs(old(Abs())) && Drop(old(mem), old(q.sleepers[0].node)) == Some(mem)
              && Abs() == WakeOne(old(Abs()), mem)
    {
      hide Holds, Core, Refs, Drop, Wake, Stands;
      WakeOneOk(Abs());
      WakeReady(Abs());
      SleeperAt(q, next, prev, Lists(), 0);
      last := next[sleepingThreads] == sleepingThreads;
      WakeHead(first);
      ok := MemFree(first, behind);
    }

    /** The loop of `__scheduler_tick`. */
    method WakeAll(head: nat, ghost behind: seq<int>) returns (ok: bool)
      requires Valid() && Backed(behind) && Core(Abs(), Some(current)) && q.sleepers != [] && head == sleepingThreads
      modifies `mem, `next, `prev, `readyThreads, `sleepingThreads, `threads, `q, heap`runs, heap.words
      ensures ok && Valid() && Backed(behind) && Refs(old(Abs())) && WakeDue(old(Abs())) == Goes(Abs())
    {
      hide Holds, Core, Refs, Drop, Stands;
      var first := head;
      ghost var s0 := Abs();
      Basics(s0);
      SleeperAt(q, next, prev, Lists(), 0);
      while sleeping[first].delta == 0
        invariant Valid() && Backed(behind) && Core(Abs(), Some(current)) && Refs(Abs()) && q.sleepers != []
                  && first == sleepingThreads
        invariant first in sleeping && sleeping[first].delta == q.sleepers[0].delta
        invariant WakeDue(s0) == WakeDue(Abs())
        decreases |q.sleepers|
      {
        ghost var s := Abs();
        WakeOneOk(s);
        var last;
        ok, last := WakeRound(first, behind);
        if !ok { return false; }
        WakeOneShape(s, mem);
        if last { return true; }
        SleeperAt(q, next, prev, Lists(), 0);
        first := sleepingThreads;
      }
      return true;
    }

    /** The thread that wakes is in no ring. */
    static lemma WakeReady(s: State)
      requires Core(s, Some(s.current)) && s.q.sleepers != []
      ensures var x := s.q.sleepers[0];
              x.thread in s.threads && x.thread !in s.q.home && x.thread != x.node && x.thread != 0
    {
      hide Slices;
      WakeOk(s.threads.Keys, s.q, Some(s.current), s.idle);
      var x := s.q.sleepers[0];
      assert x.thread in s.mem.uses && s.mem.uses[x.thread] == ThreadOf;
    }

    /** False if the kernel panics, the thread not being asleep.  Nobody else's time moves.  The head
        is left behind on the released record exactly when that is taken from in front of others. */
    method SchedulerRemoveTimeout(thread: nat, ghost behind: seq<int>) returns (ok: bool, ghost k: nat)
      requires Valid() && Fitting(q.sleepers) && Backed(behind)
      requires forall i :: 0 <= i < |q.sleepers| ==> Drop(mem, q.sleepers[i].node).Some?
      modifies `mem, `next, `prev, `sleepingThreads, `sleeping, `q, heap`runs, heap.words
      ensures Backed(behind)
      ensures ok <==> thread in Threads(old(q.sleepers))
      ensures !ok ==> Valid() && Abs() == old(Abs())
      ensures ok ==>
                && k < |old(q.sleepers)| && old(q.sleepers)[k].thread == thread
                && thread !in Threads(old(q.sleepers))[..k]
                && q == Cancelled(old(q), k) && Drop(old(mem), old(q.sleepers)[k].node) == Some(mem)
                && Due(q.sleepers) == Due(old(q.sleepers)) - {old(q.sleepers)[k].node}
                && HoldsFrom(FirstNode(q.sleepers))
                && (Valid() <==> |old(q.sleepers)| == 1 || old(q.sleepers[0]).thread != thread)
    {
      hide Holds, Waiting, Fitting, Cancelled, Drop, Due, Stands;
      k := 0;
      HeadShows(q, next, prev, Lists(), Asleep);
      if sleepingThreads == 0 { return false, 0; }
      SleeperAt(q, next, prev, Lists(), 0);
      var node := sleepingThreads;
      if next[node] == node {
        if sleeping[node].thread != thread { return false, 0; }
        ok := MemFree(node, behind);
        CancelOnly(q, next, prev, Lists());
        CancelledDue(q, 0);
        sleepingThreads := 0;
        q := Cancelled(q, 0);
        assert Threads(old(q.sleepers))[0] == thread;
        return true, 0;
      }
      node, k := FindSleeper(thread);
      SleeperAt(q, next, prev, Lists(), k);
      if sleeping[node].thread != thread { return false, 0; }
      assert Threads(q.sleepers)[k] == thread;
      CancelledDue(q, k);
      TakeOut(node, k);
      ok := MemFree(node, behind);
    }

    static lemma CancelledDue(q: Queues, k: nat)
      requires Fitting(q.sleepers) && k < |q.sleepers|
      ensures Due(Cancelled(q, k).sleepers) == Due(q.sleepers) - {q.sleepers[k].node}
      ensures |q.sleepers| == 1 ==> FirstNode(Cancelled(q, k).sleepers) == 0
      ensures |q.sleepers| > 1 ==> FirstNode(Cancelled(q, k).sleepers) == q.sleepers[if k == 0 then 1 else 0].node
    {
      RemoveDue(q.sleepers, k, 0);
    }

    /** The end of `__scheduler_remove_timeout`: entry k of several is unlinked, its delay given to
        the next; the head stays where it is. */
    method TakeOut(node: nat, ghost k: nat)
      requires Valid() && Fitting(q.sleepers) && |q.sleepers| >= 2 && k < |q.sleepers| && node == q.sleepers[k].node
      modifies `next, `prev, `sleeping, `q
      ensures q == Cancelled(old(q), k) && HoldsFrom(FirstNode(q.sleepers)) && (Valid() <==> k > 0)
    {
      hide Holds, Waiting, Fitting, Cancelled, Due;
      SleeperAt(q, next, prev, Lists(), 0);
      SleeperAt(q, next, prev, Lists(), k);
      CancelHolds(q, k, next, prev, Lists());
      CancelledDue(q, k);
      HoldsBasics(q, next, prev, Lists());
      HeadsDiffer(q);
      ghost var good := Lists().(
        sleeping := if k == 0 then q.sleepers[1].node else sleepingThreads,
        records := HandedOn(q, Lists(), k));
      if k + 1 < |q.sleepers| { SleeperAt(q, next, prev, Lists(), k + 1); }
      if next[node] != sleepingThreads {
        TwoFit(q.sleepers, k);
        var later := (sleeping[next[node]].delta + sleeping[node].delta) % TWO64;
        sleeping := sleeping[next[node] := sleeping[next[node]].(delta := later)];
      }
      Unlink(node);
      q := Cancelled(q, k);
      assert good.(sleeping := sleepingThreads) == Lists() && good == Lists().(sleeping := good.sleeping);
      if Valid() { OneHead(q, next, prev, good, sleepingThreads); }
    }

    /** The loop of `__scheduler_remove_timeout`: the thread's record, or else the last one. */
    method FindSleeper(thread: nat) returns (node: nat, ghost k: nat)
      requires Valid() && |q.sleepers| >= 2
      ensures k < |q.sleepers| && node == q.sleepers[k].node
      ensures q.sleepers[k].thread == thread || thread !in Threads(q.sleepers)
      ensures thread !in Threads(q.sleepers)[..k]
      ensures node in sleeping && sleeping[node] == SleepRecord(q.sleepers[k].thread, q.sleepers[k].delta)
    {
      hide Holds;
      HeadShows(q, next, prev, Lists(), Asleep);
      node, k := sleepingThreads, 0;
      SleeperAt(q, next, prev, Lists(), 0);
      while sleeping[node].thread != thread && next[node] != sleepingThreads
        invariant k < |q.sleepers| && node == q.sleepers[k].node
        invariant node in sleeping && sleeping[node] == SleepRecord(q.sleepers[k].thread, q.sleepers[k].delta)
        invariant node in next && next[node]
                  == (if k + 1 < |q.sleepers| then q.sleepers[k + 1].node else sleepingThreads)
        invariant forall i :: 0 <= i < k ==> Threads(q.sleepers)[i] != thread
        decreases |q.sleepers| - k
      {
        node, k := next[node], k + 1;
        SleeperAt(q, next, prev, Lists(), k);
      }
      if k + 1 < |q.sleepers| { SleeperAt(q, next, prev, Lists(), k + 1); }
    }

    static lemma TwoFit(q: seq<Sleeper>, k: nat)
      requires Fitting(q) && k + 1 < |q|
      ensures q[k].delta + q[k + 1].delta < TWO64
    {
      hide Waiting, Fitting;
      ElapsedFits(q, k + 2);
    }

    static lemma HeadsDiffer(q: Queues)
      requires RingsOk(q) && |q.sleepers| >= 2
      ensures q.sleepers[0].node != q.sleepers[1].node
    {
      SleepersDistinct(q);
      assert Nodes(q.sleepers)[0] == q.sleepers[0].node && Nodes(q.sleepers)[1] == q.sleepers[1].node;
    }

    /* ---- src/thread.c ---- */

    method Yield(leaving: nat, entering: nat)
      requires leaving in threads && entering in threads
      modifies `threads, `csr
      ensures leaving == entering ==>
                && csr == old(csr)
                && var was := old(threads[leaving]);
                   threads == old(threads)[leaving := was.(frame := was.frame.(sp := csr.sp))]
      ensures leaving != entering ==>
                && threads == old(threads)[leaving := old(threads[leaving]).(frame := old(csr))]
                && csr == old(threads[entering]).frame
    {
      if leaving == entering {
        threads := threads[leaving := threads[leaving].(frame := threads[leaving].frame.(sp := csr.sp))];
        return;
      }
      var sstatus, sepc := threads[entering].frame.sstatus, threads[entering].frame.sepc;
      var oldStatus, oldSepc := csr.sstatus, csr.sepc;
      csr := csr.(sstatus := sstatus, sepc := sepc);
      threads := threads[leaving := threads[leaving].(
        frame := threads[leaving].frame.(sstatus := oldStatus, sepc := oldSepc))];
      threads := threads[leaving := threads[leaving].(frame := threads[leaving].frame.(sp := csr.sp))];
      csr := csr.(sp := threads[entering].frame.sp);
    }

    /** `__scheduler_next` and `yield` to the thread it names. */
    method Reschedule()
      requires Valid() && Refs(Abs())
      modifies `next, `prev, `readyThreads, `current, `threads, `csr, `q
      ensures Valid() && Abs() == Switch(old(Abs()))
    {
      var was := current;
      var chosen := SchedulerNext();
      Yield(was, chosen);
    }

    /** A thread gets a result and is made ready. */
    method LetGo(t: nat, v: int, ghost head: nat)
      requires HoldsFrom(head) && InBounds() && t in threads && t != 0 && t !in q.home
      modifies `a0, `next, `prev, `readyThreads, `threads, `q
      ensures HoldsFrom(head) && Abs() == Refill(Deliver(old(Abs()), t, v).(q := Enqueue(old(q), Ready, t)), t)
      ensures forall m :: m in old(next) && m !in old(q).home && m != t ==> m in next && next[m] == old(next)[m]
    {
      hide Holds, Enqueue;
      a0 := a0[threads[t].frame.sp := v];
      SchedulerPush(t, head);
    }

    /* ---- src/semaphore.c ---- */

    method SemPush(h: nat, t: nat)
      requires Valid() && h in q.sems && h in sems && t != 0 && t !in q.home
      modifies `next, `prev, `sems, `q
      ensures Valid() && q == Enqueue(old(q), OnSem(h), t)
    {
      hide Holds, InsertedNext, InsertedPrev;
      HeadShows(q, next, prev, Lists(), OnSem(h));
      if sems[h].waiting == 0 {
        next := next[t := t];
        prev := prev[t := t];
        sems := sems[h := sems[h].(waiting := t)];
      } else {
        ListInsert(sems[h].waiting, t);
      }
      PushHolds(q, old(next), old(prev), old(Lists()), next, prev, sems[h].waiting, OnSem(h), t);
      assert WithHead(old(Lists()), OnSem(h), sems[h].waiting) == Lists();
      q := Enqueue(q, OnSem(h), t);
    }

    method SemNext(h: nat) returns (t: nat)
      requires Valid() && h in q.sems && h in sems && q.sems[h].queue != []
      modifies `next, `prev, `sems, `q
      ensures Valid() && q == Dequeue(old(q), OnSem(h)) && t == old(q.sems[h].queue[0])
    {
      hide Holds;
      HeadShows(q, next, prev, Lists(), OnSem(h));
      t := sems[h].waiting;
      if next[t] == t {
        sems := sems[h := sems[h].(waiting := 0)];
      } else {
        Unlink(t);
        sems := sems[h := sems[h].(waiting := next[t])];
      }
      PopHolds(q, old(next), old(prev), old(Lists()), next, prev, sems[h].waiting, OnSem(h));
      assert WithHead(old(Lists()), OnSem(h), sems[h].waiting) == Lists();
      q := Dequeue(q, OnSem(h));
    }

    method SetSemVal(h: nat, v: int)
      requires Valid() && h in q.sems && h in sems
      modifies `sems, `q
      ensures Valid() && q == SetVal(old(q), h, v)
    {
      sems := sems[h := sems[h].(val := v)];
      SetValHolds(q, next, prev, old(Lists()), h, v);
      assert old(Lists()).(sems := sems) == Lists();
      q := SetVal(q, h, v);
    }

    /** A thread that yields first and joins a wait ring then has blocked on it. */
    static lemma BlockLate(s: State, r: Ring)
      requires RingsOk(s.q) && s.current !in s.q.home && (r == Input || (r.OnSem? && r.sem in s.q.sems)) && Refs(s)
      ensures (r.OnSem? ==> r.sem in Switch(s).q.sems) && s.current !in Switch(s).q.home
      ensures BlockOn(s, r) == Switch(s).(q := Enqueue(Switch(s).q, r, s.current))
    {
      hide RingsOk, Enqueue, AfterChoice, Refs, Chosen;
      BlockCommutes(s.q, r, s.current, s.idle);
    }

    method SemWait(h: nat) returns (blocked: bool)
      requires Valid() && Refs(Abs()) && h in q.sems && current !in q.home && current != 0
      modifies `next, `prev, `readyThreads, `sems, `current, `threads, `csr, `q
      ensures Valid()
      ensures var v := Wrap32(old(q.sems[h].val) - 1); var s1 := old(Abs()).(q := SetVal(old(q), h, v));
              blocked == (v < 0) && Refs(s1) && Abs() == if blocked then BlockOn(s1, OnSem(h)) else s1
    {
      hide Holds, Switch, Refs, Enqueue, RingsOk;
      HoldsBasics(q, next, prev, Lists());
      SetValRefs(Abs(), h, Wrap32(sems[h].val - 1));
      SetSemVal(h, Wrap32(sems[h].val - 1));
      HoldsBasics(q, next, prev, Lists());
      ghost var s1 := Abs();
      if sems[h].val < 0 {
        var was := current;
        BlockLate(s1, OnSem(h));
        Reschedule();
        HoldsBasics(q, next, prev, Lists());
        SemPush(h, was);
        return true;
      }
      return false;
    }

    /** The first in line, whose timed wait is entry k of the sleep queue, is released in time. */
    static ghost function Release(s: State, h: nat, k: nat, m: Mem): State
      requires Refs(s) && h in s.q.sems && s.q.sems[h].queue != [] && k < |s.q.sleepers|
    {
      var t := s.q.sems[h].queue[0];
      Refill(Deliver(s, t, 0).(mem := m, q := Enqueue(Cancelled(Dequeue(s.q, OnSem(h)), k), Ready, t)), t)
    }

    /** A thread just taken out of line leaves the sleep queue as well if its slice is used up. */
    method CancelWait(t: nat, ghost behind: seq<int>) returns (ok: bool, ghost k: nat)
      requires Valid() && Backed(behind) && Fitting(q.sleepers) && t in threads && t !in q.home
      requires forall i :: 0 <= i < |q.sleepers| ==> Drop(mem, q.sleepers[i].node).Some?
      modifies `next, `prev, `mem, `sleepingThreads, `sleeping, `q, heap`runs, heap.words
      ensures InBounds() && Backed(behind) && (ok <==> threads[t].timeLeft != 0 || t in Threads(old(q.sleepers)))
      ensures ok ==> t !in q.home && HoldsFrom(FirstNode(q.sleepers))
      ensures threads[t].timeLeft != 0 ==> Valid() && Abs() == old(Abs())
      ensures ok && threads[t].timeLeft == 0 ==>
                && k < |old(q.sleepers)| && old(q.sleepers)[k].thread == t
                && Drop(old(mem), old(q.sleepers)[k].node) == Some(mem)
                   && Abs() == old(Abs()).(mem := mem, q := Cancelled(old(q), k))
                && Due(q.sleepers) == Due(old(q.sleepers)) - {old(q.sleepers)[k].node}
                && (Valid() <==> |old(q.sleepers)| == 1 || old(q.sleepers[0]).thread != t)
    {
      hide Holds, Waiting, Fitting, Drop, Cancelled, Due, Stands;
      ok, k := true, 0;
      if threads[t].timeLeft == 0 {
        ok, k := SchedulerRemoveTimeout(t, behind);
        if ok { CancelledHome(old(q), k); }
      } else {
        ValidFromFirst(q, next, prev, Lists());
      }
    }

    /** The first in line leaves it, and the sleep queue if its slice is used up. */
    method StopWaiting(h: nat, ghost behind: seq<int>) returns (ok: bool, t: nat, ghost k: nat)
      requires Valid() && Backed(behind) && Refs(Abs()) && Fitting(q.sleepers) && h in q.sems && q.sems[h].queue != []
      requires forall i :: 0 <= i < |q.sleepers| ==> Drop(mem, q.sleepers[i].node).Some?
      modifies `next, `prev, `sems, `mem, `sleepingThreads, `sleeping, `q, heap`runs, heap.words
      ensures InBounds() && Backed(behind) && t == old(q.sems[h].queue[0]) && t in threads && t != 0
      ensures ok <==> threads[t].timeLeft != 0 || t in Threads(old(q.sleepers))
      ensures ok ==> t !in q.home && HoldsFrom(FirstNode(q.sleepers))
      ensures threads[t].timeLeft != 0 ==> Valid() && Abs() == old(Abs()).(q := Dequeue(old(q), OnSem(h)))
      ensures ok && threads[t].timeLeft == 0 ==>
                && k < |old(q.sleepers)| == |Dequeue(old(q), OnSem(h)).sleepers| && old(q.sleepers)[k].thread == t
                && Drop(old(mem), old(q.sleepers)[k].node) == Some(mem)
                && Abs() == old(Abs()).(mem := mem, q := Cancelled(Dequeue(old(q), OnSem(h)), k))
                && Due(q.sleepers) == Due(old(q.sleepers)) - {old(q.sleepers)[k].node}
                && (Valid() <==> |old(q.sleepers)| == 1 || old(q.sleepers[0]).thread != t)
    {
      hide Holds, Waiting, Fitting, Drop, Cancelled, Due, Dequeue, Refs, Stands;
      HeadWaits(q, h, next, prev, Lists());
      WaiterKnown(Abs(), h);
      t := SemNext(h);
      ok, k := CancelWait(t, behind);
    }

    /** What the release of a waiter whose slice is used up leaves behind: its record is gone, nobody
        else's time has moved, and the sleep queue is still entered at its first record unless
        that was the one, in front of others. */
    ghost predicate ReleasedInTime(s: State, h: nat, k: nat)
      reads this, received
    {
      && Refs(s) && h in s.q.sems && s.q.sems[h].queue != [] && k < |s.q.sleepers| && InBounds()
      && s.q.sleepers[k].thread == s.q.sems[h].queue[0]
      && Drop(s.mem, s.q.sleepers[k].node) == Some(mem) && Abs() == Release(s, h, k, mem)
      && Due(q.sleepers) == Due(s.q.sleepers) - {s.q.sleepers[k].node}
      && HoldsFrom(FirstNode(q.sleepers))
      && (Valid() <==> |s.q.sleepers| == 1 || s.q.sleepers[0].thread != s.q.sems[h].queue[0])
    }

    /** False if the kernel panics: a thread in line with no time left is looked for among the
        sleepers and is not there. */
    method SemUnblockThread(h: nat, ghost behind: seq<int>) returns (ok: bool, ghost k: nat)
      requires Valid() && Backed(behind) && Refs(Abs()) && Fitting(q.sleepers) && h in q.sems && q.sems[h].queue != []
      requires forall i :: 0 <= i < |q.sleepers| ==> Drop(mem, q.sleepers[i].node).Some?
      modifies this, heap`runs, heap.words
      ensures Backed(behind)
      ensures var s, t := old(Abs()), old(q.sems[h].queue[0]);
              && (ok <==> s.threads[t].timeLeft != 0 || t in Threads(s.q.sleepers))
              && (ok && s.threads[t].timeLeft != 0 ==> Valid() && Abs() == Unblock(s, OnSem(h), 0))
              && (ok && s.threads[t].timeLeft == 0 ==> ReleasedInTime(s, h, k))
    {
      hide Holds, Enqueue, Waiting, Fitting, Drop, Cancelled, Due, Release, Unblock, Dequeue, Stands;
      ghost var s0 := Abs();
      var t;
      ok, t, k := StopWaiting(h, behind);
      if !ok { return; }
      ghost var s1, head := Abs(), FirstNode(q.sleepers);
      ValidIfEntered(q, next, prev, Lists(), head);
      LetGo(t, 0, head);
      SleepersKept(s1.q, t);
      ValidIfEntered(q, next, prev, Lists(), head);
      if s0.threads[t].timeLeft == 0 { ReleaseSteps(s0, h, k, s1); } else { UnblockSteps(s0, h, s1); }
    }

    static lemma ValidFromFirst(q: Queues, next: Links, prev: Links, hs: Heads)
      requires Holds(q, next, prev, hs)
      ensures hs.sleeping == FirstNode(q.sleepers) && hs.(sleeping := FirstNode(q.sleepers)) == hs
    {
      HeadShows(q, next, prev, hs, Asleep);
    }

    static lemma HeadWaits(q: Queues, h: nat, next: Links, prev: Links, hs: Heads)
      requires Holds(q, next, prev, hs) && h in q.sems && q.sems[h].queue != []
      ensures h in hs.sems && q.sems[h].queue[0] != 0
      ensures q.sems[h].queue[0] !in Dequeue(q, OnSem(h)).home && Dequeue(q, OnSem(h)).sleepers == q.sleepers
    {
      hide Holds;
      HoldsBasics(q, next, prev, hs);
      HeadKnown(q, OnSem(h));
      DequeueOk(q, OnSem(h));
    }

    static lemma UnblockSteps(s: State, h: nat, s1: State)
      requires Refs(s) && h in s.q.sems && s.q.sems[h].queue != [] && s.q.sems[h].queue[0] in s.threads
      requires s1 == s.(q := Dequeue(s.q, OnSem(h)))
      ensures var t := s.q.sems[h].queue[0];
              Refill(Deliver(s1, t, 0).(q := Enqueue(s1.q, Ready, t)), t) == Unblock(s, OnSem(h), 0)
    {
      hide Refs;
    }

    static lemma ReleaseSteps(s: State, h: nat, k: nat, s1: State)
      requires Refs(s) && h in s.q.sems && s.q.sems[h].queue != [] && s.q.sems[h].queue[0] in s.threads
      requires k < |s.q.sleepers| && k < |Dequeue(s.q, OnSem(h)).sleepers|
      requires s1 == s.(mem := s1.mem, q := Cancelled(Dequeue(s.q, OnSem(h)), k))
      ensures var t := s.q.sems[h].queue[0];
              Refill(Deliver(s1, t, 0).(q := Enqueue(s1.q, Ready, t)), t) == Release(s, h, k, s1.mem)
    {
      hide Refs, Cancelled, Enqueue, Dequeue;
    }

    static lemma CancelledHome(q: Queues, k: nat)
      requires k < |q.sleepers|
      ensures Cancelled(q, k).home.Keys <= q.home.Keys
    {
    }

    /** There is one place to enter the sleep queue. */
    static lemma ValidIfEntered(q: Queues, next: Links, prev: Links, hs: Heads, head: nat)
      requires Holds(q, next, prev, hs.(sleeping := head))
      ensures Holds(q, next, prev, hs) <==> hs.sleeping == head
    {
      assert hs.(sleeping := hs.sleeping) == hs;
      if Holds(q, next, prev, hs) { OneHead(q, next, prev, hs, head); }
    }

    /** A thread in line is not asleep, and the sleepers' records are live. */
    static lemma WaiterAwake(s: State, h: nat)
      requires Core(s, Some(s.current)) && h in s.q.sems && s.q.sems[h].queue != []
      ensures s.q.sems[h].queue[0] !in Threads(s.q.sleepers)
      ensures forall i :: 0 <= i < |s.q.sleepers| ==> Drop(s.mem, s.q.sleepers[i].node).Some?
    {
      hide Slices, Drop, Owned, RingsOk;
      HeadIn(s.q, OnSem(h));
      forall i | 0 <= i < |s.q.sleepers| ensures Drop(s.mem, s.q.sleepers[i].node).Some? {
        SleeperKnown(s.q, i);
        NotTheIndex(s.mem, s.blocks, IndexBlocks(s.blocks), s.q.sleepers[i].node);
        DropOk(s.mem, s.q.sleepers[i].node, s.blocks, IndexBlocks(s.blocks));
      }
    }

    static lemma SleeperKnown(q: Queues, i: nat)
      requires RingsOk(q) && i < |q.sleepers|
      ensures q.sleepers[i].node in q.home && q.home[q.sleepers[i].node] == Asleep
    {
      assert RingOk(q, Asleep);
      assert Nodes(q.sleepers)[i] in RingOf(q, Asleep);
    }

    method SemSignal(h: nat, ghost behind: seq<int>) returns (ok: bool, code: int)
      requires Valid() && Backed(behind) && Core(Abs(), Some(current)) && Waiting(q.sleepers) && h in q.sems
      modifies this, heap`runs, heap.words
      ensures Refs(old(Abs())) && Backed(behind)
      ensures match SemSignalStep(old(Abs()), h)
              case Goes(s') => ok && Valid() && s' == Return(Abs(), code)
              case _ => !ok
    {
      hide Holds, Core, Waiting, Fitting, Unblock, Stands;
      Basics(Abs());
      HoldsBasics(q, next, prev, Lists());
      SetValCore(Abs(), h, Wrap32(sems[h].val + 1));
      SetSemVal(h, Wrap32(sems[h].val + 1));
      HoldsBasics(q, next, prev, Lists());
      if sems[h].val <= 0 {
        HeadShows(q, next, prev, Lists(), OnSem(h));
        if sems[h].waiting == 0 { return true, SEM_SIGNAL_NO_THREADS; }
        WaiterAwake(Abs(), h);
        WaitingFits(q.sleepers);
        var released, _ := SemUnblockThread(h, behind);
        return released, 0;
      }
      return true, 0;
    }

    /** How the allocation of a sleeper's record ends. */
    static ghost function Napping(m: Mem, blocks: nat, behind: seq<int>): Ending {
      match Denial(m, blocks, 1, behind)
      case Some(o) => EndingOf(Some(o))
      case None => if Grab(m, 1, SleeperOf).None? then Faulted else Resumed
    }

    /** From s to s' the running thread was put to sleep for a time, its slice used up. */
    static ghost predicate NapsFor(s: State, s': State, time: nat) {
      && s.current in s.threads && s'.current == s.current && s'.idle == s.idle && s'.a0 == s.a0 && s'.rx == s.rx
      && s'.threads == s.threads[s.current := s.threads[s.current].(timeLeft := 0)]
      && s'.q.ready == s.q.ready && s'.q.input == s.q.input && s'.q.sems == s.q.sems
      && var b := Runs.Start(s.mem.runs, Runs.FirstFit(s.mem.runs, 1));
         Grab(s.mem, 1, SleeperOf) == Some((s'.mem, b))
           && s'.q.sleepers == Insert(s.q.sleepers, Sleeper(b, s.current, time))
    }

    /** From s to s' the running thread was put to sleep for a time and waited on h: exactly if it blocked, it
        is last in line too and the next in the ready ring runs. */
    static ghost predicate WaitedInTime(s: State, s': State, h: nat, time: nat, blocked: bool) {
      && h in s.q.sems && s'.q.sems == s.q.sems[h := Wait(s.q.sems[h], s.current).0] && s'.a0 == s.a0
      && s'.q.input == s.q.input && s'.rx == s.rx
      && (var b := Runs.Start(s.mem.runs, Runs.FirstFit(s.mem.runs, 1));
          Grab(s.mem, 1, SleeperOf) == Some((s'.mem, b))
            && s'.q.sleepers == Insert(s.q.sleepers, Sleeper(b, s.current, time)))
      && s'.current == (if !blocked then s.current else if s.q.ready == [] then s.idle else s.q.ready[0])
      && s'.q.ready == (if blocked && s.q.ready != [] then s.q.ready[1..] else s.q.ready)
    }

    static lemma WaitsInTime(s: State, s1: State, h: nat, time: nat)
      requires NapsFor(s, s1, time) && Refs(s1) && h in s1.q.sems
      ensures var v := Wrap32(s1.q.sems[h].val - 1); var s2 := s1.(q := SetVal(s1.q, h, v));
              Refs(s2) && WaitedInTime(s, if v < 0 then BlockOn(s2, OnSem(h)) else s2, h, time, v < 0)
    {
      hide Insert, Runs.Start, Runs.FirstFit;
    }

    /** A timed wait puts the caller to sleep whether it blocks or not, with its slice set to
        nothing: no state after it meets the invariant of runs without timed waits. */
    method SemTimedWait(h: nat, time: nat, ghost behind: seq<int>) returns (out: Ending, blocked: bool)
      requires Valid() && Inv(Abs()) && h in q.sems && time < TWO64 && Backed(behind)
      modifies this, heap`runs, heap.words
      ensures out == Napping(old(mem), blocks, behind)
      ensures out == Resumed ==>
                && Valid() && Backed(behind) && blocked == (Wrap32(old(q.sems[h].val) - 1) < 0)
                && old(current) in threads && threads[old(current)].timeLeft == 0 && old(current) in Threads(q.sleepers)
                && WaitedInTime(old(Abs()), Abs(), h, time, blocked)
                && !Inv(Abs())
    {
      hide Holds, Core, Waiting, Fitting, Modes, Refs, BlockOn, Inv, Napping, Stands, NapsFor, WaitedInTime;
      out := TimeWait(time, behind);
      if out != Resumed { return out, false; }
      ghost var s := Abs();
      blocked := SemWait(h);
      ghost var v := Wrap32(s.q.sems[h].val - 1);
      StillAsleep(s.(q := SetVal(s.q, h, v)), h);
      WaitsInTime(old(Abs()), s, h, time);
      if Inv(Abs()) { InvParts(Abs()); Basics(Abs()); }
    }

    /** The first half: the caller's slice is set to nothing and it is put to sleep. */
    method TimeWait(time: nat, ghost behind: seq<int>) returns (out: Ending)
      requires Valid() && Inv(Abs()) && time < TWO64 && Backed(behind)
      modifies this, heap`runs, heap.words
      ensures out == Napping(old(mem), blocks, behind)
      ensures out == Resumed ==>
                && Valid() && Backed(behind) && Refs(Abs()) && current == old(current) && q.sems == old(q.sems)
                   && current !in q.home && current != 0
                && current in threads && threads[current].timeLeft == 0 && current in Threads(q.sleepers)
                && NapsFor(old(Abs()), Abs(), time)
    {
      hide Holds, Core, Waiting, Fitting, Modes, Refs, Insert, FallAsleep, Grab, Denial, Stands;
      InvParts(Abs());
      Basics(Abs());
      CurrentFree(Abs());
      GrabFresh(Abs(), SleeperOf);
      SetTimeRefs(Abs(), 0);
      threads := threads[current := threads[current].(timeLeft := 0)];
      ghost var s1 := Abs();
      TimeoutRefs(s1, current, time);
      out := SchedulerTimeout(current, time, behind);
      if out == Resumed {
        SleepsNow(s1, time, Abs());
        NapsNow(old(Abs()), time, Abs());
      }
    }

    static lemma NapsNow(s: State, time: nat, s': State)
      requires s.current in s.threads && Timeout(SetTime(s, s.current, 0), s.current, time) == Goes(s')
      ensures NapsFor(s, s', time)
    {
      hide Insert, Runs.Start, Runs.FirstFit;
    }

    static lemma SetTimeRefs(s: State, left: nat)
      requires Refs(s)
      ensures Refs(SetTime(s, s.current, left))
    {
    }

    static lemma SleepsNow(s: State, time: nat, s': State)
      requires s.current in s.threads && s.current !in s.q.home && Timeout(s, s.current, time) == Goes(s')
      requires Grab(s.mem, 1, SleeperOf).Some? ==> Grab(s.mem, 1, SleeperOf).value.1 != s.current
      ensures s'.current == s.current && s'.threads == s.threads && s'.q.sems == s.q.sems
      ensures s.current in Threads(s'.q.sleepers) && s.current !in s'.q.home
    {
      var x := Sleeper(Grab(s.mem, 1, SleeperOf).value.1, s.current, time);
      var k := InsertExtends(s.q.sleepers, x);
      assert Threads(s'.q.sleepers)[k] == s.current;
    }

    static lemma StillAsleep(s: State, h: nat)
      requires Refs(s) && h in s.q.sems
      ensures BlockOn(s, OnSem(h)).q.sleepers == s.q.sleepers
      ensures s.current in BlockOn(s, OnSem(h)).threads
              && BlockOn(s, OnSem(h)).threads[s.current].timeLeft == s.threads[s.current].timeLeft
    {
    }

    /** What a tick does to the line of a thread whose timed wait has run out.  Whoever it is, the
        first in line is taken out; the ring stays sound only if nobody else was in line, and only
        then nothing is returned to the thread. */
    method SemRemoveThread(h: nat, thread: nat) returns (ok: bool)
      requires Valid() && h in q.sems && h in sems && thread in threads
      modifies `sems, `next, `prev, `a0, `q
      ensures ok <==> old(q.sems[h].queue) != []
      ensures !ok ==> Valid() && Abs() == old(Abs())
      ensures ok ==>
                && q == Dequeue(SetVal(old(q), h, Wrap32(old(q.sems[h].val) + 1)), OnSem(h))
                && (Valid() <==> |old(q.sems[h].queue)| == 1)
                && a0 == if |old(q.sems[h].queue)| == 1 then old(a0)
                   else old(a0)[threads[thread].frame.sp := SEM_WAIT_TIMEOUT]
    {
      hide Holds, Dequeue, SetVal;
      HeadShows(q, next, prev, Lists(), OnSem(h));
      var head := sems[h].waiting;
      if head == 0 { return false; }
      LineLinks(q, h, next, prev, Lists());
      HoldsBasics(q, next, prev, Lists());
      SetSemVal(h, Wrap32(sems[h].val + 1));
      SetValLine(old(q), h, Wrap32(old(q.sems[h].val) + 1));
      HoldsBasics(q, next, prev, Lists());
      HeadShows(q, next, prev, Lists(), OnSem(h));
      ghost var q1, next1, prev1, lists1 := q, next, prev, Lists();
      ghost var head' := if next[head] == head then 0 else next[head];
      ghost var good := WithHead(lists1, OnSem(h), head');
      if next[head] == head {
        sems := sems[h := sems[h].(waiting := 0)];
      } else {
        Unlink(head);
        a0 := a0[threads[thread].frame.sp := SEM_WAIT_TIMEOUT];
      }
      PopHolds(q1, next1, prev1, lists1, next, prev, head', OnSem(h));
      q := Dequeue(q1, OnSem(h));
      LineGone(q1, h);
      if |old(q.sems[h].queue)| == 1 { assert Lists() == good; }
      else if Valid() { OneLineHead(q, h, next, prev, good, next, prev, Lists()); }
      return true;
    }

    static lemma SetValLine(q: Queues, h: nat, v: int)
      requires h in q.sems
      ensures h in SetVal(q, h, v).sems && SetVal(q, h, v).sems[h].queue == q.sems[h].queue
    {
    }

    static lemma LineGone(q: Queues, h: nat)
      requires h in q.sems && q.sems[h].queue != []
      ensures h in Dequeue(q, OnSem(h)).sems
    {
    }

    static lemma LineLinks(q: Queues, h: nat, next: Links, prev: Links, hs: Heads)
      requires Holds(q, next, prev, hs) && h in q.sems && q.sems[h].queue != []
      ensures var line := q.sems[h].queue;
              line[0] in next && (next[line[0]] == line[0] <==> |line| == 1)
                && (|line| > 1 ==> next[line[0]] == line[1] != line[0])
    {
      assert Circle(next, prev, HeadOf(q, hs, OnSem(h)), RingOf(q, OnSem(h)));
      RingAt(next, prev, q.sems[h].queue[0], q.sems[h].queue, 0);
    }

    /** The rings are in order and hold threads. */
    static ghost predicate Ringed(s: State) { RingsOk(s.q) && 0 !in s.q.home && Refs(s) }

    /** One pass over the line, although each push rewrites the links it walks along.  Nothing else is
        asked of the queues; in particular, threads in line may be asleep as well. */
    method SemClose(h: nat, ghost behind: seq<int>) returns (ok: bool, code: int)
      requires Valid() && Refs(Abs()) && h in q.sems && Drop(mem, h).Some? && h != 0 && Backed(behind)
      modifies this, heap`runs, heap.words
      ensures ok && Valid() && Backed(behind) && SemCloseStep(old(Abs()), h) == Goes(Return(Abs(), code))
    {
      hide Holds, Refs, Drop, Unblock, Forgotten, Ringed, RingsOk, Stands;
      ghost var s0 := Abs();
      HoldsRinged(s0, next, prev, Lists());
      LineStands(q, h, next, prev, Lists());
      ForgetHolds(q, h, next, prev, Lists());
      ghost var s1 := s0;
      if sems[h].waiting != 0 {
        s1 := CloseLine(h);
      } else {
        q := Forgotten(q, h);
      }
      RingedParts(s1);
      ForgetEmpty(s1.q, h);
      ok := MemFree(h, behind);
      code := 0;
    }

    static lemma HoldsRinged(s: State, next: Links, prev: Links, hs: Heads)
      requires Holds(s.q, next, prev, hs) && Refs(s)
      ensures Ringed(s)
    {
    }

    static lemma RingedParts(s: State)
      requires Ringed(s)
      ensures RingsOk(s.q) && Refs(s)
    {
    }

    /** The loop of `__sem_close`. */
    method CloseLine(h: nat) returns (ghost s1: State)
      requires Valid() && Refs(Abs()) && h in q.sems && h in sems && sems[h].waiting != 0
      modifies `a0, `next, `prev, `readyThreads, `threads, `q
      ensures Valid() && s1 == UnblockAll(old(Abs()), h) && s1.mem == mem
      ensures Ringed(s1) && h in s1.q.sems && s1.q.sems[h].queue == []
      ensures Abs() == s1.(q := Forgotten(s1.q, h))
    {
      hide Holds, Refs, Unblock, Forgotten, Ahead, Enqueue, Ringed;
      ghost var s0 := Abs();
      HoldsRinged(s0, next, prev, Lists());
      LineStands(q, h, next, prev, Lists());
      ForgetHolds(q, h, next, prev, Lists());
      ghost var line, i := q.sems[h].queue, 0;
      q := Forgotten(q, h);
      s1 := s0;
      var first := sems[h].waiting;
      var thread := first;
      assert line[0..] == line;
      while true
        invariant Valid() && Ringed(s1) && Refs(s1) && h in s1.q.sems
        invariant Abs() == s1.(q := Forgotten(s1.q, h)) && UnblockAll(s0, h) == UnblockAll(s1, h)
        invariant i < |line| && s1.q.sems[h].queue == line[i..] && thread == line[i] && first == line[0]
        invariant Ahead(line, i, next, q)
        decreases |line| - i
      {
        ghost var next0, q0 := next, q;
        ghost var s2 := Unblock(s1, OnSem(h), SEM_CLOSED);
        CloseOne(s1, h, s2);
        CloseFold(s1, h, s2);
        CloseSame(s1, h, s2);
        AheadStep(line, i, next, q, next);
        var nextThread := next[thread];
        LetGo(thread, SEM_CLOSED, sleepingThreads);
        AheadStep(line, i, next0, q0, next);
        s1 := s2;
        i := i + 1;
        thread := nextThread;
        if nextThread == first { break; }
      }
    }

    /** One thread of the line let go. */
    static lemma CloseOne(s: State, h: nat, s': State)
      requires Refs(s) && h in s.q.sems && s.q.sems[h].queue != []
      requires s' == Unblock(s, OnSem(h), SEM_CLOSED) && Ringed(s)
      ensures s.q.sems[h].queue[0] in s.threads && s.q.sems[h].queue[0] != 0
      ensures h in s'.q.sems && s'.q.sems[h].queue == s.q.sems[h].queue[1..]
      ensures Ringed(s') && Refs(s') && RingsOk(s.q)
    {
      hide Refs, Quiet, Admit, Unblock, RingsOk;
      UnblockRest(s, OnSem(h), SEM_CLOSED);
      AdmitLine(s.q, h);
      AdmitRings(s.q, OnSem(h));
      HeadKnown(s.q, OnSem(h));
      WaiterKnown(s, h);
      UnblockQueues(s, h);
    }

    static lemma UnblockQueues(s: State, h: nat)
      requires Refs(s) && h in s.q.sems && s.q.sems[h].queue != []
      ensures Unblock(s, OnSem(h), SEM_CLOSED).q == Admit(s.q, OnSem(h)) && Refs(Unblock(s, OnSem(h), SEM_CLOSED))
    {
    }

    static lemma AdmitLine(q: Queues, h: nat)
      requires h in q.sems && q.sems[h].queue != []
      ensures h in Admit(q, OnSem(h)).sems && Admit(q, OnSem(h)).sems[h].queue == q.sems[h].queue[1..]
    {
    }

    static lemma CloseFold(s: State, h: nat, s': State)
      requires Refs(s) && h in s.q.sems && s.q.sems[h].queue != []
      requires s' == Unblock(s, OnSem(h), SEM_CLOSED) && Refs(s') && h in s'.q.sems
      ensures UnblockAll(s, h) == UnblockAll(s', h)
    {
    }

    /** The first of the line let go, as seen without the line. */
    static ghost function GoesNext(s: State, h: nat): State
      requires h in s.q.sems && s.q.sems[h].queue != [] && s.q.sems[h].queue[0] in s.threads
    {
      var t := s.q.sems[h].queue[0];
      Refill(Deliver(s, t, SEM_CLOSED).(q := Enqueue(Forgotten(s.q, h), Ready, t)), t)
    }

    static lemma CloseSame(s: State, h: nat, s': State)
      requires RingsOk(s.q) && Refs(s) && h in s.q.sems && s.q.sems[h].queue != [] && s.q.sems[h].queue[0] in s.threads
      requires s' == Unblock(s, OnSem(h), SEM_CLOSED)
      ensures s'.(q := Forgotten(s'.q, h)) == GoesNext(s, h)
    {
      hide Forgotten, RingsOk, Enqueue;
      ForgetAdmit(s.q, h);
    }

    static lemma ThreadNotNull(s: State, t: nat)
      requires Core(s, Some(s.current)) && t in s.threads
      ensures t != 0
    {
      NotTheIndex(s.mem, s.blocks, IndexBlocks(s.blocks), t);
    }

    /* ---- src/console.c ---- */

    method WaitingPush(t: nat)
      requires Valid() && t != 0 && t !in q.home
      modifies `next, `prev, `waitingForInput, `q
      ensures Valid() && q == Enqueue(old(q), Input, t)
    {
      hide Holds, InsertedNext, InsertedPrev;
      HeadShows(q, next, prev, Lists(), Input);
      if waitingForInput == 0 {
        next := next[t := t];
        prev := prev[t := t];
        waitingForInput := t;
      } else {
        ListInsert(waitingForInput, t);
      }
      PushHolds(q, old(next), old(prev), old(Lists()), next, prev, waitingForInput, Input, t);
      q := Enqueue(q, Input, t);
    }

    method WaitingPop() returns (t: nat)
      requires Valid() && q.input != []
      modifies `next, `prev, `waitingForInput, `q
      ensures Valid() && q == Dequeue(old(q), Input) && t == old(q.input[0])
    {
      hide Holds;
      HeadShows(q, next, prev, Lists(), Input);
      t := waitingForInput;
      if next[t] == t {
        waitingForInput := 0;
      } else {
        Unlink(t);
        waitingForInput := next[t];
      }
      PopHolds(q, old(next), old(prev), old(Lists()), next, prev, waitingForInput, Input);
      q := Dequeue(q, Input);
    }

    /** Closes up the buffer behind its first n bytes. */
    method ShiftDown(n: nat)
      requires received.Length == RX_SIZE && n <= receivedCount <= RX_SIZE
      modifies received, `receivedCount
      ensures receivedCount == old(receivedCount) - n
      ensures received[..receivedCount] == old(received[n..receivedCount])
    {
      receivedCount := receivedCount - n;
      for i := 0 to receivedCount
        invariant receivedCount == old(receivedCount) - n
        invariant forall j :: 0 <= j < i ==> received[j] == old(received[n + j])
        invariant forall j :: i <= j < RX_SIZE ==> received[j] == old(received[j])
      {
        received[i] := received[n + i];
      }
    }

    /** The current thread leaves the processor, and then joins the ring of waiting readers. */
    method WaitForInput()
      requires Valid() && Refs(Abs()) && current !in q.home && current != 0
      modifies `next, `prev, `readyThreads, `waitingForInput, `current, `threads, `csr, `q
      ensures Valid() && Abs() == BlockOn(old(Abs()), Input)
    {
      hide Holds, Switch, Refs, Enqueue, RingsOk;
      var was := current;
      HoldsBasics(q, next, prev, Lists());
      BlockLate(Abs(), Input);
      Reschedule();
      WaitingPush(was);
    }

    /** True if the caller has to wait. */
    method Getc() returns (blocked: bool)
      requires Valid() && Refs(Abs()) && current !in q.home && current != 0
      modifies `next, `prev, `readyThreads, `waitingForInput, `current, `threads, `csr, `q, `a0, `receivedCount,
        received
      ensures Valid() && Abs() == GetcStep(old(Abs())) && blocked == (old(Abs()).rx == [])
    {
      hide Holds, Refs, BlockOn;
      if receivedCount == 0 {
        WaitForInput();
        return true;
      }
      CurrentKnown(Abs());
      ghost var s := Abs();
      assert s.rx[0] == received[0] && s.rx[1..] == received[1..receivedCount];
      TakeByte();
      return false;
    }

    /** The oldest byte goes to the place where the current thread's registers were last saved. */
    method TakeByte()
      requires received.Length == RX_SIZE && 0 < receivedCount <= RX_SIZE && current in threads
      modifies `a0, `receivedCount, received
      ensures receivedCount == old(receivedCount) - 1 && received[..receivedCount] == old(received[1..receivedCount])
      ensures a0 == old(a0)[threads[current].frame.sp := old(received[0])]
    {
      a0 := a0[threads[current].frame.sp := received[0]];
      ShiftDown(1);
    }

    static lemma CurrentKnown(s: State)
      requires Refs(s)
      ensures s.current in s.threads
    {
    }

    /** The first loop of `__console_receive`: bytes are taken from the device while there is room. */
    method TakeIn(bytes: seq<int>) returns (taken: nat)
      requires received.Length == RX_SIZE && receivedCount <= RX_SIZE
      modifies received, `receivedCount
      ensures taken == (if |bytes| <= RX_SIZE - old(receivedCount) then |bytes| else RX_SIZE - old(receivedCount))
      ensures receivedCount == old(receivedCount) + taken
      ensures received[..receivedCount] == old(received[..receivedCount]) + bytes[..taken]
    {
      taken := 0;
      while taken < |bytes| && receivedCount < RX_SIZE
        invariant taken <= |bytes| && receivedCount == old(receivedCount) + taken <= RX_SIZE
        invariant received[..receivedCount] == old(received[..receivedCount]) + bytes[..taken]
      {
        received[receivedCount] := bytes[taken];
        receivedCount, taken := receivedCount + 1, taken + 1;
      }
    }

    /** The first waiting reader gets v and is made ready. */
    method HandOver(v: int)
      requires Valid() && q.input != [] && q.input[0] in threads && q.input[0] != 0
      modifies `next, `prev, `readyThreads, `waitingForInput, `threads, `q, `a0
      ensures Valid() && receivedCount == old(receivedCount)
      ensures var t := old(q.input[0]);
              Abs() == Refill(Deliver(old(Abs()), t, v).(q := Enqueue(Dequeue(old(q), Input), Ready, t)), t)
    {
      hide Holds, Enqueue, Dequeue;
      HoldsBasics(q, next, prev, Lists());
      DequeueOk(q, Input);
      var t := WaitingPop();
      LetGo(t, v, sleepingThreads);
    }

    /** The second loop: waiting readers are served from the front of the buffer. */
    method ServeWaiting() returns (n: nat, ghost s1: State)
      requires Valid() && Core(Abs(), Some(current))
      modifies `next, `prev, `readyThreads, `waitingForInput, `threads, `q, `a0
      ensures Valid() && receivedCount == old(receivedCount) && n <= receivedCount
      ensures Refs(old(Abs())) && s1 == Serve(old(Abs()))
      ensures s1 == Abs().(rx := received[n..receivedCount])
    {
      hide Holds, Core, Refs, Unblock;
      ghost var s0 := Abs();
      Basics(s0);
      n, s1 := 0, s0;
      HeadShows(q, next, prev, Lists(), Input);
      while waitingForInput != 0 && n < receivedCount
        invariant Valid() && Core(s1, Some(s1.current)) && Refs(s1)
        invariant n <= receivedCount == old(receivedCount) && s1 == Abs().(rx := received[n..receivedCount])
        invariant Serve(s0) == Serve(s1) && (waitingForInput == 0 <==> q.input == [])
        decreases receivedCount - n
      {
        SliceTail(received[..], n, receivedCount);
        assert received[n..receivedCount] == received[..][n..receivedCount];
        assert received[n + 1..receivedCount] == received[..][n + 1..receivedCount];
        ghost var s2 := Unblock(s1, Input, s1.rx[0]).(rx := s1.rx[1..]);
        ServeRound(s1, s2);
        HandOver(received[n]);
        n := n + 1;
        s1 := s2;
        HeadShows(q, next, prev, Lists(), Input);
      }
    }

    static lemma SliceTail(bytes: seq<int>, n: nat, m: nat)
      requires n < m <= |bytes|
      ensures bytes[n..m][0] == bytes[n] && bytes[n..m][1..] == bytes[n + 1..m]
    {
    }

    static lemma ServeRound(s: State, s': State)
      requires Core(s, Some(s.current)) && Refs(s) && s.q.input != [] && s.rx != []
      requires s' == Unblock(s, Input, s.rx[0]).(rx := s.rx[1..])
      ensures s.q.input[0] in s.threads && s.q.input[0] != 0
      ensures Core(s', Some(s'.current)) && Refs(s') && Serve(s) == Serve(s')
      ensures s' == Refill(Deliver(s, s.q.input[0], s.rx[0]).(q := Enqueue(Dequeue(s.q, Input), Ready, s.q.input[0])),
                s.q.input[0]).(rx := s.rx[1..])
    {
      hide Core;
      UnblockCore(s, Input, s.rx[0]);
      UnblockRest(s, Input, s.rx[0]);
      ServeOneOk(s, s');
      ThreadNotNull(s, s.q.input[0]);
    }

    /** `taken` of the bytes the device has to offer are read from it. */
    method ConsoleReceive(bytes: seq<int>) returns (taken: nat)
      requires Valid() && Core(Abs(), Some(current))
      modifies `next, `prev, `readyThreads, `waitingForInput, `threads, `q, `a0, `receivedCount, received
      ensures Valid() && Refs(old(Abs())) && Abs() == ConsoleStep(old(Abs()), bytes)
      ensures old(receivedCount) + taken <= RX_SIZE && taken <= |bytes|
      ensures taken < |bytes| ==> old(receivedCount) + taken == RX_SIZE
    {
      hide Holds, Core, Refs, Serve;
      Basics(Abs());
      ghost var s0 := Abs();
      taken := TakeIn(bytes);
      CoreSame(s0, Abs(), Some(current));
      assert bytes[..|bytes|] == bytes;
      ghost var s := Abs();
      var n, s1 := ServeWaiting();
      ShiftDown(n);
      assert Abs() == s1;
    }

    /* ---- src/thread.c ---- */

    method ThreadCreate(start: int, stack: nat, ghost behind: seq<int>) returns (out: Ending, code: int)
      requires Valid() && Core(Abs(), Some(current)) && IsFreshStack(Abs(), stack) && Backed(behind)
      modifies this, heap`runs, heap.words
      ensures Refs(old(Abs())) && out == EndingOf(Denial(old(mem), blocks, 1, behind))
      ensures out == Resumed ==>
                Valid() && Backed(behind) && CreateStep(old(Abs()), start, stack) == Return(Abs(), code)
      ensures out == Resumed ==>
                if Runs.CanAlloc(old(mem).runs, 1)
                then code == 0 && exists t: nat :: MadeThread(old(Abs()), Abs(), t, start, stack)
                else code == -1 && Abs() == old(Abs())
    {
      hide Holds, Core, Refs, Grab, Enqueue, Denial, Stands;
      Basics(Abs());
      GrabFresh(Abs(), ThreadOf);
      GrabWhen(mem, 1, ThreadOf);
      var t;
      t, out := MemAlloc(1, ThreadOf, behind);
      if out != Resumed { return out, 0; }
      if t == 0 { return out, NO_MEMORY; }
      ghost var mem0 := mem;
      FillIn(t, start, stack, behind);
      CreatedMakes(old(Abs()), start, stack, mem0, t, Abs());
      return out, 0;
    }

    static lemma GrabWhen(m: Mem, n: nat, u: Use)
      ensures Grab(m, n, u).Some? <==> Runs.CanAlloc(m.runs, n)
    {
    }

    /** From s to s' thread t was added: in user mode at the wrapper, which looks for `start` at the top
        of the stack, and last in the ready ring with two ticks. */
    static ghost predicate MadeThread(s: State, s': State, t: nat, start: int, stack: nat) {
      && t !in s.threads && stack >= 4096
      && s'.threads
         == s.threads[t := Tcb(Frame(s.wrapper, s.csr.sstatus.(kernel := false), stack - 256), stack - 4088, 2)]
      && s'.a0 == s.a0[stack - 256 := start] && s'.q.ready == s.q.ready + [t] && s'.users == s.users + 1
    }

    static lemma CreatedMakes(s: State, start: int, stack: nat, m: Mem, t: nat, s': State)
      requires stack >= STACK_SIZE && s.base <= BottomOf(stack) && t !in s.threads
      requires s' == Created(s, start, stack, m, t)
      ensures MadeThread(s, s', t, start, stack)
    {
    }

    /** The rest of `__thread_create`, with the record in block t. */
    method FillIn(t: nat, start: int, stack: nat, ghost behind: seq<int>)
      requires Valid() && Backed(behind) && t != 0 && t !in q.home && stack >= STACK_SIZE && base <= BottomOf(stack)
      modifies `next, `prev, `readyThreads, `threads, `q, `a0, `users, `mem
      ensures Valid() && Abs() == Created(old(Abs()), start, stack, old(mem), t) && Backed(behind)
    {
      hide Holds, Enqueue, BlockOf, Stands;
      var sp, bp := stack, stack - STACK_SIZE + 8;
      sp := sp - CONTEXT_SIZE;
      a0 := a0[sp := start];
      users := users + 1;
      threads := threads[t := Tcb(Frame(wrapper, csr.sstatus.(kernel := false), sp), bp, TIME_SLICE)];
      mem := mem.(uses := mem.uses[BlockOf(base, bp) := StackOf(t)]);
      ghost var s1 := Abs();
      PushReady(t);
      FilledIn(old(Abs()), s1, start, stack, t);
    }

    static lemma FilledIn(s: State, s1: State, start: int, stack: nat, t: nat)
      requires stack >= STACK_SIZE && s.base <= BottomOf(stack) && t in s1.threads
      requires s1 == Created(s, start, stack, s.mem, t).(q := s.q)
      ensures Refill(s1.(q := Enqueue(s.q, Ready, t)), t) == Created(s, start, stack, s.mem, t)
    {
      hide Enqueue;
      var ts := s1.threads;
      assert ts[t := ts[t].(timeLeft := TIME_SLICE)] == ts;
    }

    /** The stack at bp and the record of thread t are live allocations. */
    static ghost predicate Releases(m: Mem, base: nat, blocks: nat, bp: nat, t: nat) {
      var o := DropAt(m, base, blocks, bp);
      bp != base && t != 0 && o.Some? && Drop(o.value, t).Some?
    }

    /** False if the kernel panics. */
    method ThreadDelete(t: nat, ghost behind: seq<int>) returns (ok: bool)
      requires t in threads && Backed(behind)
      requires threads[t].frame.sp >= threads[t].bp ==> Releases(mem, base, blocks, threads[t].bp, t)
      modifies `mem, `threads, heap`runs, heap.words
      ensures ok <==> old(threads[t]).frame.sp >= old(threads[t]).bp
      ensures ok ==>
                && mem == Drop(DropAt(old(mem), base, blocks, old(threads[t]).bp).value, t).value
                && threads == old(threads) - {t} && Backed(behind)
    {
      hide Drop, DropAt, Stands;
      if threads[t].frame.sp < threads[t].bp { return false; }
      ok := MemFreeAt(threads[t].bp, behind);
      if !ok { return false; }
      ok := MemFree(t, behind);
      if !ok { return false; }
      threads := threads - {t};
    }

    static lemma SwitchKnown(s: State)
      requires Refs(s)
      ensures s.current in s.threads && s.current in Switch(s).threads
      ensures var gone := Switch(s).threads[s.current]; gone.frame.sp == s.csr.sp && gone.bp == s.threads[s.current].bp
      ensures Switch(s).mem == s.mem
    {
    }

    method ThreadExit(ghost behind: seq<int>) returns (ok: bool)
      requires Valid() && Refs(Abs()) && Backed(behind)
      requires csr.sp >= threads[current].bp ==> Releases(mem, base, blocks, threads[current].bp, current)
      modifies this, heap`runs, heap.words
      ensures match ExitStep(old(Abs()))
              case Goes(s') => ok && Valid() && Abs() == s' && Backed(behind)
              case _ => !ok
    {
      hide Holds, Switch, Drop, DropAt, Stands;
      if !csr.sstatus.kernel { users := (users + TWO64 - 1) % TWO64; }
      var was := current;
      SwitchKnown(Abs());
      Reschedule();
      ok := ThreadDelete(was, behind);
    }

    /** In order, what a thread that exits gives back is live. */
    static lemma ExitReleases(s: State)
      requires Core(s, Some(s.current)) && s.current != s.idle
      ensures Refs(s) && Releases(s.mem, s.base, s.blocks, s.threads[s.current].bp, s.current)
    {
      hide Core, Drop, DropAt, Refs, HasStack, Owned;
      Basics(s);
      ExitMem(s, s.current);
      ThreadNotNull(s, s.current);
      StackNotIndex(s, s.current);
    }

    static lemma StackNotIndex(s: State, c: nat)
      requires Core(s, Some(c)) && c != s.idle
      ensures c in s.threads && s.threads[c].bp != s.base
    {
      hide RingsOk, Slices, Placed;
      StackBlock(s, c);
      NotTheIndex(s.mem, s.blocks, IndexBlocks(s.blocks), BlockOf(s.base, s.threads[c].bp));
    }

    /* ---- src/main.c ---- */

    /** The current thread goes to the end of the ready ring and the next one takes over. */
    method DispatchCurrent()
      requires Valid() && Refs(Abs()) && current !in q.home && current != 0
      modifies `next, `prev, `readyThreads, `current, `threads, `csr, `q
      ensures Valid() && Abs() == Preempt(old(Abs()))
    {
      hide Holds, Refs, Switch, Enqueue;
      CurrentKnown(Abs());
      RefsPushed(Abs());
      PushReady(current);
      Reschedule();
    }

    static lemma RefsPushed(s: State)
      requires Refs(s)
      ensures s.current in s.threads && Refs(Refill(s.(q := Enqueue(s.q, Ready, s.current)), s.current))
    {
    }

    method TimerInterrupt(ghost behind: seq<int>) returns (ok: bool)
      requires Valid() && Inv(Abs()) && Backed(behind)
      modifies this, heap`runs, heap.words
      ensures ok && Valid() && Backed(behind) && Refs(old(Abs())) && TimerStep(old(Abs())) == Goes(Abs())
    {
      hide Holds, Core, Waiting, Fitting, Modes, Refs, Stands, TimerStep, Received;
      InvParts(Abs());
      TimerSplits(Abs());
      ok := SchedulerTick(behind);
      CountSlice();
    }

    /** What the timer does after the tick. */
    static ghost function SliceDown(s: State): State
      requires Refs(s)
    {
      var left := (s.threads[s.current].timeLeft + TWO64 - 1) % TWO64;
      var s1 := SetTime(s, s.current, left);
      RefsSet(s, left);
      if left == 0 then Preempt(s1) else s1
    }

    static lemma TimerSplits(s: State)
      requires Inv(s)
      ensures Refs(s) && Ticked(s).Goes?
      ensures var s1 := Ticked(s).state;
              && Refs(s1) && TimerStep(s) == Goes(SliceDown(s1))
              && s1.current !in s1.q.home && s1.current != 0
    {
      hide Core, Waiting, Modes, Refs, Preempt, WakeDue, Received;
      TickedOk(s);
      TimerOk(s);
      Basics(Ticked(s).state);
      CurrentFree(Ticked(s).state);
    }

    method CountSlice()
      requires Valid() && Refs(Abs()) && current !in q.home && current != 0
      modifies `next, `prev, `readyThreads, `current, `threads, `csr, `q
      ensures Valid() && Abs() == SliceDown(old(Abs()))
    {
      hide Holds, Refs, Preempt;
      CurrentKnown(Abs());
      var left := (threads[current].timeLeft + TWO64 - 1) % TWO64;
      RefsSet(Abs(), left);
      threads := threads[current := threads[current].(timeLeft := left)];
      if left == 0 { DispatchCurrent(); }
    }

    /** The thread on the processor is in no ring. */
    static lemma CurrentFree(s: State)
      requires Core(s, Some(s.current))
      ensures s.current !in s.q.home && s.current != 0 && s.current in s.threads
    {
      Basics(s);
      ThreadNotNull(s, s.current);
    }

    method OpenRecord(h: nat, init: nat)
      requires Valid() && h !in q.sems
      modifies `sems, `q
      ensures Valid() && q == old(q).(sems := old(q).sems[h := Open(init)])
    {
      hide Holds, Open;
      sems := sems[h := SemRecord(Wrap32(init), 0)];
      OpenHolds(q, h, init, next, prev, old(Lists()));
      OpenVal(init);
      assert old(Lists()).(sems := sems) == Lists();
      q := q.(sems := q.sems[h := Open(init)]);
    }

    /** The table of semaphores has ten entries, and nothing guards its end. */
    method SemOpen(init: nat, ghost behind: seq<int>) returns (out: Ending, code: int)
      requires Valid() && Core(Abs(), Some(current)) && Backed(behind)
      modifies this, heap`runs, heap.words
      ensures out == Resumed ==> Backed(behind)
      ensures Denial(old(mem), blocks, 1, behind) != None ==> out == EndingOf(Denial(old(mem), blocks, 1, behind))
      ensures Denial(old(mem), blocks, 1, behind) == None ==>
                if Runs.FirstFit(old(mem).runs, 1) < |old(mem).runs| && old(semCount) >= SEM_TABLE then out == Strayed
                else out == Resumed && Valid() && SemOpenStep(old(Abs()), init) == Return(Abs(), code)
    {
      hide Holds, Core, Open, Denial, Grab, Runs.FirstFit, SemOpenStep, Stands;
      GrabFresh(Abs(), SemOf);
      OpensWith(Abs(), init);
      var h;
      h, out := MemAlloc(1, SemOf, behind);
      if out != Resumed { return out, 0; }
      if h == 0 { return out, NO_MEMORY; }
      OpenRecord(h, init);
      if semCount >= SEM_TABLE { return Strayed, 0; }
      semCount := semCount + 1;
      return out, 0;
    }

    static lemma OpensWith(s: State, init: nat)
      ensures Grab(s.mem, 1, SemOf).Some? <==> Runs.FirstFit(s.mem.runs, 1) < |s.mem.runs|
      ensures SemOpenStep(s, init) == match Grab(s.mem, 1, SemOf)
                                      case None => Return(s, NO_MEMORY)
                                      case Some((m, h)) => Return(s.(mem := m,
                                        q := s.q.(sems := s.q.sems[h := Open(init)]), opens := s.opens + 1), 0)
    {
      hide Open;
    }

    static lemma OpenVal(init: nat)
      ensures Open(init).val == Wrap32(init)
    {
    }

    /** The saved sepc that `putc` leaves behind is never used: `yield` overwrites it. */
    method PutcFull()
      requires Valid() && Refs(Abs()) && current !in q.home && current != 0
      modifies `next, `prev, `readyThreads, `current, `threads, `csr, `q
      ensures Valid() && Abs() == PutcStep(old(Abs()), true)
    {
      hide Holds, Refs, Preempt;
      CurrentKnown(Abs());
      ghost var s := Abs();
      var sepc := (csr.sepc + TWO64 - 4) % TWO64;
      csr := csr.(sepc := sepc);
      threads := threads[current := threads[current].(
        frame := threads[current].frame.(sepc := (sepc + TWO64 - 4) % TWO64))];
      StaleRefs(s, Abs());
      DispatchCurrent();
    }

    static lemma StaleRefs(s: State, s': State)
      requires Refs(s) && s'.q == s.q && s'.threads.Keys == s.threads.Keys && s'.current == s.current
               && s'.idle == s.idle
      ensures Refs(s')
    {
    }

    method KernelDispatch()
      requires Valid() && Refs(Abs())
      modifies `next, `prev, `readyThreads, `current, `threads, `csr, `q
      ensures Valid() && Abs() == KernelDispatchStep(old(Abs()))
    {
      hide Holds, Refs, Switch;
      ChosenKnown(Abs());
      Reschedule();
      csr := csr.(sp := threads[current].frame.sp);
    }

    static lemma ChosenKnown(s: State)
      requires Refs(s)
      ensures Switch(s).current in Switch(s).threads
    {
    }

    static ghost function Slept(s: State, time: nat, behind: seq<int>): Outcome
      requires Refs(s)
    {
      if time == 0 then SleepStep(s, time)
      else
        match Denial(s.mem, s.blocks, 1, behind)
        case Some(o) => o
        case None => SleepStep(s, time)
    }

    method TimedSleep(time: nat, ghost behind: seq<int>) returns (out: Ending)
      requires Valid() && Inv(Abs()) && time < TWO64 && Backed(behind)
      modifies this, heap`runs, heap.words
      ensures Refs(old(Abs())) && Meets(out, Slept(old(Abs()), time, behind), behind)
    {
      hide Holds, Inv, Refs, Switch, TimedOut, Slept, Stands, NewNode, Fitting;
      SleepNow(Abs());
      a0 := a0[csr.sp := 0];
      ghost var s1 := Abs();
      SleptSplits(old(Abs()), s1, time, behind);
      if time == 0 { return Resumed; }
      out := SchedulerTimeout(current, time, behind);
      if out != Resumed { return; }
      Reschedule();
    }

    static lemma SleepNow(s: State)
      requires Inv(s)
      ensures Refs(s) && Fitting(s.q.sleepers) && NewNode(s.mem, s.q)
    {
      hide Core, Grab, Fitting, Refs;
      Basics(s);
      GrabFresh(s, SleeperOf);
      WaitingFits(s.q.sleepers);
    }

    static lemma SleptSplits(s: State, s1: State, time: nat, behind: seq<int>)
      requires Refs(s) && s1 == Return(s, 0)
      ensures time == 0 ==> Slept(s, time, behind) == Goes(s1)
      ensures time > 0 ==>
                match TimedOut(s1, s1.current, time, behind)
                case Goes(s2) => Refs(s2) && Slept(s, time, behind) == Goes(Switch(s2))
                case o => Slept(s, time, behind) == o
    {
      hide Denial, Switch, Timeout;
      assert Refs(s1);
      TimeoutRefs(s1, s1.current, time);
    }

    /** What the handler of trap e starts from, with the words behind the index. */
    static ghost predicate Entered(s: State, e: Trap, behind: seq<int>) {
      && Inv(s) && Refs(s) && Serviceable(s, e)
      && (IsUserCall(e) ==> s.current != s.idle)
      && (Asks(e).Some? ==> e.behind == behind)
      && (e.MemAlloc? ==> e.nblocks >= 1) && (e.Sleep? ==> e.time < TWO64)
    }

    /** The handler of trap e, once the registers are read. */
    static ghost function Handled(s: State, e: Trap): Outcome
      requires Refs(s) && Serviceable(s, e)
    {
      match Prevented(s, e)
      case Some(o) => o
      case None => Serviced(s, e)
    }

    static lemma StepIsHandled(s: State, e: Trap, f: Frame, behind: seq<int>)
      requires Inv(s) && Enabled(s, e, f) && (Asks(e).Some? ==> e.behind == behind)
      ensures Refs(s) && Entered(Enter(s, e, f), e, behind) && Step(s, e, f) == Handled(Enter(s, e, f), e)
    {
      hide Inv, Refs, Serviced, Denial;
      EnterOk(s, e, f);
    }

    static lemma EnteredParts(s: State, e: Trap, behind: seq<int>)
      requires Entered(s, e, behind)
      ensures Core(s, Some(s.current)) && Waiting(s.q.sleepers) && s.current !in s.q.home && s.current != 0
              && s.current in s.threads
    {
      hide Core, Waiting, Refs, Modes, Received;
      InvParts(s);
      CurrentFree(s);
    }

    /** The traps that are no calls. */
    method Interrupt(e: Trap, ghost behind: seq<int>) returns (out: Ending)
      requires Valid() && Entered(Abs(), e, behind) && Backed(behind) && (e.Timer? || e.Console? || e.OtherDevice?)
      modifies this, received, heap`runs, heap.words
      ensures Meets(out, Handled(old(Abs()), e), behind)
    {
      hide Holds, Inv, Core, Refs, TimerStep, ConsoleStep, Waiting, Fitting, Stands;
      EnteredParts(Abs(), e, behind);
      out := Resumed;
      match e {
        case Timer =>
          var ok := TimerInterrupt(behind);
          if !ok { out := Panicked; }
        case Console(bytes) =>
          var _ := ConsoleReceive(bytes);
        case OtherDevice =>
      }
    }

    method SemOpenCall(init: nat, ghost behind: seq<int>) returns (out: Ending)
      requires Valid() && Entered(Abs(), Trap.SemOpen(init, behind), behind) && Backed(behind)
      modifies this, heap`runs, heap.words
      ensures Meets(out, Handled(old(Abs()), Trap.SemOpen(init, behind)), behind)
    {
      hide Holds, Inv, Core, Refs, SemOpenStep, Waiting, Fitting, Denial, Stands;
      EnteredParts(Abs(), Trap.SemOpen(init, behind), behind);
      var code;
      out, code := SemOpen(init, behind);
      if out != Resumed { return; }
      a0 := a0[csr.sp := code];
    }

    method SemCloseCall(h: nat, ghost behind: seq<int>) returns (out: Ending)
      requires Valid() && Entered(Abs(), Trap.SemClose(h), behind) && Backed(behind)
      modifies this, heap`runs, heap.words
      ensures Meets(out, Handled(old(Abs()), Trap.SemClose(h)), behind)
    {
      hide Holds, Inv, Core, Refs, SemCloseStep, Waiting, Fitting, Stands, Drop;
      EnteredParts(Abs(), Trap.SemClose(h), behind);
      SemLive(Abs(), h);
      var _, code := SemClose(h, behind);
      a0 := a0[csr.sp := code];
      return Resumed;
    }

    static lemma SemLive(s: State, h: nat)
      requires Core(s, Some(s.current)) && h in s.q.sems
      ensures Drop(s.mem, h).Some? && h != 0
    {
      hide RingsOk, Slices, Owned, Drop, Belongs, Placed;
      SemBlock(s.base, s.mem.uses, s.threads, s.q, s.idle, h);
      NotTheIndex(s.mem, s.blocks, IndexBlocks(s.blocks), h);
      DropOk(s.mem, h, s.blocks, IndexBlocks(s.blocks));
    }

    method SemWaitCall(h: nat, ghost behind: seq<int>) returns (out: Ending)
      requires Valid() && Entered(Abs(), Trap.SemWait(h), behind) && Backed(behind)
      modifies this
      ensures Meets(out, Handled(old(Abs()), Trap.SemWait(h)), behind)
    {
      hide Holds, Inv, Core, Refs, BlockOn, Waiting, Fitting, Stands;
      EnteredParts(Abs(), Trap.SemWait(h), behind);
      var blocked := SemWait(h);
      if blocked { return Resumed; }
      a0 := a0[csr.sp := 0];
      return Resumed;
    }

    method SemSignalCall(h: nat, ghost behind: seq<int>) returns (out: Ending)
      requires Valid() && Entered(Abs(), Trap.SemSignal(h), behind) && Backed(behind)
      modifies this, heap`runs, heap.words
      ensures Meets(out, Handled(old(Abs()), Trap.SemSignal(h)), behind)
    {
      hide Holds, Inv, Core, Refs, SemSignalStep, Waiting, Fitting, Stands;
      EnteredParts(Abs(), Trap.SemSignal(h), behind);
      SignalNoFault(Abs(), h);
      var ok, code := SemSignal(h, behind);
      if !ok { return Panicked; }
      a0 := a0[csr.sp := code];
      return Resumed;
    }

    static lemma SignalNoFault(s: State, h: nat)
      requires Refs(s) && h in s.q.sems
      ensures !SemSignalStep(s, h).NullWrite? && !SemSignalStep(s, h).Strays?
    {
    }

    method CreateCall(start: int, stack: nat, ghost behind: seq<int>) returns (out: Ending)
      requires Valid() && Entered(Abs(), Trap.ThreadCreate(start, stack, behind), behind) && Backed(behind)
      modifies this, heap`runs, heap.words
      ensures Meets(out, Handled(old(Abs()), Trap.ThreadCreate(start, stack, behind)), behind)
    {
      hide Holds, Inv, Core, Refs, CreateStep, Waiting, Fitting, IsFreshStack, Denial, Stands;
      EnteredParts(Abs(), Trap.ThreadCreate(start, stack, behind), behind);
      var code;
      out, code := ThreadCreate(start, stack, behind);
      if out != Resumed { return; }
      a0 := a0[csr.sp := code];
    }

    method ExitCall(ghost behind: seq<int>) returns (out: Ending)
      requires Valid() && Entered(Abs(), Trap.ThreadExit, behind) && Backed(behind)
      modifies this, heap`runs, heap.words
      ensures Meets(out, Handled(old(Abs()), Trap.ThreadExit), behind)
    {
      hide Holds, Inv, Core, Refs, ExitStep, Waiting, Fitting, Stands, Releases;
      EnteredParts(Abs(), Trap.ThreadExit, behind);
      ExitNoFault(Abs());
      ExitReleases(Abs());
      var ok := ThreadExit(behind);
      return if ok then Resumed else Panicked;
    }

    static lemma ExitNoFault(s: State)
      requires Refs(s)
      ensures !ExitStep(s).NullWrite? && !ExitStep(s).Strays?
    {
    }

    method SleepCall(time: nat, ghost behind: seq<int>, ghost e: Trap) returns (out: Ending)
      requires Valid() && Entered(Abs(), e, behind) && Backed(behind) && e.Sleep? && e.time == time
      modifies this, heap`runs, heap.words
      ensures Meets(out, Handled(old(Abs()), e), behind)
    {
      hide Holds, Inv, Refs, Handled, Slept, Stands;
      HandledSleep(Abs(), e, behind);
      out := TimedSleep(time, behind);
    }

    static lemma HandledSleep(s: State, e: Trap, behind: seq<int>)
      requires Entered(s, e, behind) && e.Sleep?
      ensures Handled(s, e) == Slept(s, e.time, behind)
    {
      hide Inv, Refs, SleepStep, Denial;
    }

    method MemAllocCall(n: nat, ghost behind: seq<int>) returns (out: Ending)
      requires Valid() && Entered(Abs(), Trap.MemAlloc(n, behind), behind) && Backed(behind)
      modifies this, heap`runs, heap.words
      ensures Meets(out, Handled(old(Abs()), Trap.MemAlloc(n, behind)), behind)
    {
      hide Holds, Inv, Core, Refs, Waiting, Fitting, Grab, Denial, Stands;
      var b;
      b, out := MemAlloc(n, User, behind);
      if out != Resumed { return; }
      a0 := a0[csr.sp := if b == 0 then 0 else AddrOf(base, b)];
    }

    method ConsoleCall(e: Trap, ghost behind: seq<int>) returns (out: Ending)
      requires Valid() && Entered(Abs(), e, behind) && Backed(behind) && (e.Getc? || e.Putc?)
      modifies this, received
      ensures Meets(out, Handled(old(Abs()), e), behind)
    {
      hide Holds, Inv, Core, Refs, Waiting, Fitting, GetcStep, PutcStep, Stands;
      EnteredParts(Abs(), e, behind);
      match e {
        case Getc => var _ := Getc();
        case Putc(full) => if full { PutcFull(); } else { PutcRoom(Abs()); }
      }
      return Resumed;
    }

    /** The remaining calls: the dispatches, and one that means nothing. */
    method OtherCall(e: Trap, ghost behind: seq<int>) returns (out: Ending)
      requires Valid() && Entered(Abs(), e, behind) && Backed(behind)
      requires e.Dispatch? || e.UnknownCall? || e.KernelDispatch?
      modifies this
      ensures Meets(out, Handled(old(Abs()), e), behind)
    {
      hide Holds, Inv, Core, Refs, Preempt, Waiting, Fitting, KernelDispatchStep, Stands;
      EnteredParts(Abs(), e, behind);
      match e {
        case Dispatch => DispatchCurrent();
        case UnknownCall =>
        case KernelDispatch => KernelDispatch();
      }
      return Resumed;
    }

    static lemma PutcRoom(s: State)
      requires Refs(s)
      ensures PutcStep(s, false) == s
    {
    }

    /** `irq_handler`: one trap on memory is one transition of the machine, and the words of the heap's
        index go on standing for the heap that the machine goes by. */
    method IrqHandler(e: Trap, f: Frame, ghost behind: seq<int>) returns (out: Ending)
      requires Valid() && Inv(Abs()) && Enabled(Abs(), e, f)
      requires Backed(behind) && (Asks(e).Some? ==> e.behind == behind)
      modifies this, received, heap`runs, heap.words
      ensures Refs(old(Abs())) && Meets(out, Step(old(Abs()), e, f), behind)
      ensures out == Resumed ==> Valid() && Inv(Abs())
      ensures out == Resumed && f.sepc < TWO64 ==> Effects.Lawful(old(Abs()), e, f, Abs())
    {
      hide Holds, Inv, Core, Refs, Step, Waiting, Modes, Enabled, Handled, Entered, Stands, Effects.Lawful;
      ghost var s := Abs();
      StepOk(Abs(), e, f);
      StepIsHandled(Abs(), e, f, behind);
      csr := Entry(e, f);
      if e.Timer? || e.Console? || e.OtherDevice? { out := Interrupt(e, behind); }
      else if e.SemOpen? { out := SemOpenCall(e.init, behind); }
      else if e.SemClose? { out := SemCloseCall(e.sem, behind); }
      else if e.SemWait? { out := SemWaitCall(e.sem, behind); }
      else if e.SemSignal? { out := SemSignalCall(e.sem, behind); }
      else if e.ThreadCreate? { out := CreateCall(e.start, e.stack, behind); }
      else if e.ThreadExit? { out := ExitCall(behind); }
      else if e.Sleep? { out := SleepCall(e.time, behind, e); }
      else if e.MemAlloc? { out := MemAllocCall(e.nblocks, behind); }
      else if e.Getc? || e.Putc? { out := ConsoleCall(e, behind); }
      else { out := OtherCall(e, behind); }
      if out == Resumed && f.sepc < TWO64 { Effects.StepLawful(s, e, f, Abs()); }
    }
  }
}
