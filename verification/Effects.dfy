/** What every trap does to every part of the kernel's state: one law for each part, about all
    traps, in terms of the state before and of numbers.  Together the laws leave nothing open. */
module Effects {
  import opened Options
  import opened Words
  import Runs
  import HeapHistory
  import Memory
  import opened DeltaQueue
  import Semaphores
  import opened ThreadQueues
  import opened Ownership
  import opened Machine
  import opened Safety
  import opened Executions
  import QueueRuns

  /* ---- the laws ---- */

  /** How many blocks a trap needs. */
  function Wanted(e: Trap): nat {
    match e
    case MemAlloc(n, _) => n
    case ThreadCreate(_, _, _) => 1
    case SemOpen(_, _) => 1
    case Sleep(time, _) => if time > 0 then 1 else 0
    case _ => 0
  }

  predicate Granted(s: State, e: Trap) {
    Wanted(e) > 0 && Runs.FirstFit(s.mem.runs, Wanted(e)) < |s.mem.runs|
  }

  /** The block handed out: the first of the first free run that is large enough. */
  function Grant(s: State, e: Trap): nat { Runs.Start(s.mem.runs, Runs.FirstFit(s.mem.runs, Wanted(e))) }

  /** Results delivered one after the other: thread line[i] gets vals[i] where its registers were
      saved. */
  function Told(a0: map<nat, int>, threads: map<nat, Tcb>, line: seq<nat>, vals: seq<int>): map<nat, int>
    requires |line| <= |vals| && forall t :: t in line ==> t in threads
    decreases |line|
  {
    if line == [] then a0
    else Told(a0[threads[line[0]].frame.sp := vals[0]], threads, line[1..], vals[1..])
  }

  /** Minus one, n times. */
  function Minuses(n: nat): seq<int> { seq(n, i => -1) }

  /** The result cells: what each call returns to its caller, and what it delivers to others. */
  ghost predicate Answers(s: State, e: Trap, f: Frame, s': State)
    requires Refs(s) && Enabled(s, e, f)
  {
    match e
    case MemAlloc(_, _) => s'.a0 == s.a0[f.sp := if Granted(s, e) then s.base + 64 * Grant(s, e) else 0]
    case ThreadCreate(start, stack, _) =>
      s'.a0 == (if Granted(s, e) then s.a0[stack - 0x100 := start][f.sp := 0] else s.a0[f.sp := -1])
    case SemOpen(_, _) => s'.a0 == s.a0[f.sp := if Granted(s, e) then 0 else -1]
    case SemClose(h) =>
      s'.a0 == Told(s.a0, s.threads, s.q.sems[h].queue, Minuses(|s.q.sems[h].queue|))[f.sp := 0]
    case SemWait(h) => s'.a0 == (if Leaves(s, e) then s.a0 else s.a0[f.sp := 0])
    case SemSignal(h) =>
      s'.a0 == Told(s.a0, s.threads, Joins(s, e), [0])[f.sp := Semaphores.Signal(s.q.sems[h]).2]
    case Sleep(_, _) => s'.a0 == s.a0[f.sp := 0]
    case Getc => s'.a0 == (if s.rx == [] then s.a0 else s.a0[s.threads[s.current].frame.sp := s.rx[0]])
    case Console(bytes) => s'.a0 == Told(s.a0, s.threads, Joins(s, e), s.rx + bytes)
    case _ => s'.a0 == s.a0
  }

  /** One more live allocation, of n blocks at b, where none was. */
  ghost predicate Gains(m: Mem, m': Mem, b: nat, n: nat) {
    b !in m.uses && Runs.Live(m'.runs) == Runs.Live(m.runs)[b := n]
  }

  ghost predicate Loses(m: Mem, m': Mem, gone: set<nat>) {
    && gone <= m.uses.Keys
    && Runs.Live(m'.runs) == Runs.Live(m.runs) - gone && m'.uses == m.uses - gone
  }

  /** The heap: who has which blocks, and for what. */
  ghost predicate Keeps(s: State, e: Trap, s': State)
    requires Refs(s)
  {
    match e
    case MemAlloc(n, _) =>
      if Granted(s, e) then Gains(s.mem, s'.mem, Grant(s, e), n) && s'.mem.uses == s.mem.uses[Grant(s, e) := User]
      else s'.mem == s.mem
    case ThreadCreate(_, stack, _) =>
      if Granted(s, e)
      then stack + 8 >= s.base + 4096 && Gains(s.mem, s'.mem, Grant(s, e), 1)
        && s'.mem.uses
           == s.mem.uses[Grant(s, e) := ThreadOf][(stack - 4096 + 8 - s.base) / 64 := StackOf(Grant(s, e))]
      else s'.mem == s.mem
    case SemOpen(_, _) =>
      if Granted(s, e) then Gains(s.mem, s'.mem, Grant(s, e), 1) && s'.mem.uses == s.mem.uses[Grant(s, e) := SemOf]
      else s'.mem == s.mem
    case Sleep(_, _) =>
      if Granted(s, e)
      then Gains(s.mem, s'.mem, Grant(s, e), 1) && s'.mem.uses == s.mem.uses[Grant(s, e) := SleeperOf]
      else s'.mem == s.mem
    case ThreadExit =>
      && s.threads[s.current].bp >= s.base
      && Loses(s.mem, s'.mem, {s.current, (s.threads[s.current].bp - s.base) / 64})
    case SemClose(h) => Loses(s.mem, s'.mem, {h})
    case Timer => Loses(s.mem, s'.mem, NodesOf(Tick(s.q.sleepers).1))
    case _ => s'.mem == s.mem
  }

  /** The count of user threads, the count of semaphores ever opened, and what never changes. */
  ghost predicate Counted(s: State, e: Trap, s': State) {
    && s'.users == s.users + (if e.ThreadCreate? && Granted(s, e) then 1 else 0) - (if e.ThreadExit? then 1 else 0)
    && s'.opens == s.opens + (if e.SemOpen? && Granted(s, e) then 1 else 0)
    && s'.base == s.base && s'.blocks == s.blocks && s'.wrapper == s.wrapper && s'.idle == s.idle
  }

  /** Readers, semaphores and sleepers. */
  ghost predicate Queued(s: State, e: Trap, s': State)
    requires Refs(s) && (e.SemClose? || e.SemWait? || e.SemSignal? ==> e.sem in s.q.sems)
  {
    && s'.q.input == (match e
                      case Console(bytes) => s.q.input[Served(s, bytes)..]
                      case Getc => if s.rx == [] then s.q.input + [s.current] else s.q.input
                      case _ => s.q.input)
    && s'.q.sems == (match e
                     case SemOpen(init, _) =>
                       if Granted(s, e) then s.q.sems[Grant(s, e) := Semaphores.Open(init)] else s.q.sems
                     case SemClose(h) => s.q.sems - {h}
                     case SemWait(h) => s.q.sems[h := Semaphores.Wait(s.q.sems[h], s.current).0]
                     case SemSignal(h) => s.q.sems[h := Semaphores.Signal(s.q.sems[h]).0]
                     case _ => s.q.sems)
    && s'.q.sleepers == (match e
                         case Timer => Tick(s.q.sleepers).0
                         case Sleep(time, _) =>
                           if time > 0 then Insert(s.q.sleepers, Sleeper(Grant(s, e), s.current, time))
                           else s.q.sleepers
                         case _ => s.q.sleepers)
  }

  /** The receive buffer, which has room for 1024 bytes. */
  ghost predicate Buffered(s: State, e: Trap, s': State) {
    match e
    case Console(bytes) =>
      var all := s.rx + bytes;
      var held: nat := if |all| <= 1024 then |all| else 1024;
      Served(s, bytes) <= held && s'.rx == all[Served(s, bytes)..held]
    case Getc => s'.rx == if s.rx == [] then [] else s.rx[1..]
    case _ => s'.rx == s.rx
  }

  /** Which threads there are, where their stacks start, and their time slices: two ticks for
      everyone who becomes ready, one less at each timer trap for the one who runs. */
  ghost predicate Timed(s: State, e: Trap, s': State)
    requires Refs(s) && (e.SemClose? || e.SemSignal? ==> e.sem in s.q.sems)
  {
    && s'.threads.Keys
       == Staying(s, e) + (if e.ThreadCreate? && Granted(s, e) then {Grant(s, e)} else {})
    && forall t :: t in s'.threads ==>
         && s'.threads[t].bp == (if t in s.threads then s.threads[t].bp
                                 else if e.ThreadCreate? then e.stack - 4096 + 8 else 0)
         && s'.threads[t].timeLeft == (if t in Joins(s, e) || t !in s.threads then 2
                                       else s.threads[t].timeLeft - if e.Timer? && t == s.current then 1 else 0)
  }

  /** The registers in the processor, and the saved ones of every thread. */
  ghost predicate Saved(s: State, e: Trap, f: Frame, s': State)
    requires Refs(s) && (e.SemWait? ==> e.sem in s.q.sems)
  {
    && s'.current in s.threads
    && s'.csr == (if s'.current == s.current then Resume(e, f) else s.threads[s'.current].frame)
    && forall t :: t in s'.threads ==>
         s'.threads[t].frame ==
           if t !in s.threads then FirstFrame(s, e, f)
           else if t != s.current || !Leaves(s, e) then s.threads[t].frame
           else if s'.current != t then Resume(e, f)
           else s.threads[t].frame.(sp := f.sp, sepc :=
             if e.Putc? then (f.sepc + TWO64 - 4) % TWO64 else s.threads[t].frame.sepc)
  }

  /** What a new thread starts with. */
  function FirstFrame(s: State, e: Trap, f: Frame): Frame {
    Frame(s.wrapper, f.sstatus.(kernel := false), if e.ThreadCreate? && e.stack >= 0x100 then e.stack - 0x100 else 0)
  }

  /** Everything the laws say. */
  ghost predicate Lawful(s: State, e: Trap, f: Frame, s': State)
    requires Refs(s) && Enabled(s, e, f)
  {
    && Answers(s, e, f, s') && Keeps(s, e, s') && Counted(s, e, s') && Queued(s, e, s') && Buffered(s, e, s')
    && Timed(s, e, s') && Saved(s, e, f, s')
    && Advances(s, s', Joins(s, e), Leaves(s, e), if e.Timer? && !Leaves(s, e) then 1 else 0)
  }

  /* ---- waiting threads become ready ---- */

  /** The records after the threads in line have got a whole slice each. */
  function Renewed(threads: map<nat, Tcb>, line: seq<nat>): map<nat, Tcb> {
    map t | t in threads :: if t in line then threads[t].(timeLeft := 2) else threads[t]
  }

  /** From s to s' some threads became ready; of the rest only queues, heap and bytes may differ. */
  ghost predicate Roused(s: State, s': State, line: seq<nat>) {
    s' == s.(mem := s'.mem, q := s'.q, a0 := s'.a0, rx := s'.rx, threads := Renewed(s.threads, line))
  }

  lemma RousedNone(s: State)
    ensures Roused(s, s, [])
  {
    assert Renewed(s.threads, []) == s.threads;
  }

  lemma RousedOne(s: State, s': State, t: nat)
    requires t in s.threads
    requires s' == Refill(s, t).(mem := s'.mem, q := s'.q, a0 := s'.a0, rx := s'.rx)
    ensures Roused(s, s', [t])
  {
    assert Renewed(s.threads, [t]) == Refill(s, t).threads;
  }

  lemma RousedTrans(s: State, s1: State, s2: State, a: seq<nat>, b: seq<nat>)
    requires Roused(s, s1, a) && Roused(s1, s2, b)
    ensures Roused(s, s2, a + b)
  {
    assert Renewed(Renewed(s.threads, a), b) == Renewed(s.threads, a + b);
  }

  lemma RousedCells(s: State, s': State, line: seq<nat>)
    requires Roused(s, s', line)
    ensures s'.csr == s.csr && s'.threads.Keys == s.threads.Keys
    ensures forall t :: t in s.threads ==> s'.threads[t].frame == s.threads[t].frame
  {
  }

  lemma {:induction false} ToldSame(a0: map<nat, int>, ts: map<nat, Tcb>, ts': map<nat, Tcb>, line: seq<nat>,
                                    vals: seq<int>)
    requires |line| <= |vals| && ts'.Keys == ts.Keys && forall t :: t in line ==> t in ts
    requires forall t :: t in ts ==> ts'[t].frame == ts[t].frame
    ensures Told(a0, ts', line, vals) == Told(a0, ts, line, vals)
    decreases |line|
  {
    if line != [] { ToldSame(a0[ts[line[0]].frame.sp := vals[0]], ts, ts', line[1..], vals[1..]); }
  }

  lemma ToldOne(a0: map<nat, int>, ts: map<nat, Tcb>, t: nat, v: int)
    requires t in ts
    ensures Told(a0, ts, [t], [v]) == a0[ts[t].frame.sp := v]
  {
    assert [t][1..] == [];
  }

  lemma {:induction false} ToldPrefix(a0: map<nat, int>, ts: map<nat, Tcb>, line: seq<nat>, vals: seq<int>,
                                      vals': seq<int>)
    requires |line| <= |vals| <= |vals'| && vals'[..|vals|] == vals && forall t :: t in line ==> t in ts
    ensures Told(a0, ts, line, vals') == Told(a0, ts, line, vals)
    decreases |line|
  {
    if line != [] {
      assert vals'[0] == vals'[..|vals|][0];
      assert vals'[1..][..|vals| - 1] == vals'[..|vals|][1..];
      ToldPrefix(a0[ts[line[0]].frame.sp := vals[0]], ts, line[1..], vals[1..], vals'[1..]);
    }
  }

  /** A waiter is told v and made ready, and that is all. */
  lemma UnblockDoes(s: State, r: Ring, v: int)
    requires Refs(s) && (r == Input || r.OnSem?) && RingOf(s.q, r) != []
    ensures var (t, s') := (RingOf(s.q, r)[0], Unblock(s, r, v));
            && t in s.threads && Roused(s, s', [t]) && s'.mem == s.mem && s'.rx == s.rx
            && s'.a0 == s.a0[s.threads[t].frame.sp := v] && s'.threads.Keys == s.threads.Keys
  {
    var t := RingOf(s.q, r)[0];
    var s1 := Deliver(s, t, v);
    assert Refill(s1, t).threads == Refill(s, t).threads;
    RousedOne(s, Unblock(s, r, v), t);
  }

  lemma {:induction false} UnblockAllDoes(s: State, h: nat)
    requires Refs(s) && h in s.q.sems
    ensures var (line, s') := (s.q.sems[h].queue, UnblockAll(s, h));
            && (forall t :: t in line ==> t in s.threads)
            && Roused(s, s', line) && s'.mem == s.mem && s'.rx == s.rx
            && s'.a0 == Told(s.a0, s.threads, line, Minuses(|line|))
    decreases |s.q.sems[h].queue|
  {
    hide Refs, Roused, Unblock, Renewed;
    var line := s.q.sems[h].queue;
    LineKnown(s, h);
    if line == [] {
      RousedNone(s);
    } else {
      UnblockDoes(s, OnSem(h), SEM_CLOSED);
      LineShorter(s, h);
      var s1 := Unblock(s, OnSem(h), SEM_CLOSED);
      UnblockAllDoes(s1, h);
      RousedTrans(s, s1, UnblockAll(s1, h), [line[0]], line[1..]);
      RousedCells(s, s1, [line[0]]);
      assert line == [line[0]] + line[1..];
      var vals := Minuses(|line|);
      assert vals[1..] == Minuses(|line[1..]|);
      ToldSame(s1.a0, s.threads, s1.threads, line[1..], vals[1..]);
    }
  }

  lemma LineKnown(s: State, h: nat)
    requires Refs(s) && h in s.q.sems
    ensures forall t :: t in s.q.sems[h].queue ==> t in s.threads
  {
  }

  /** The readers that are served get the bytes in order. */
  lemma {:induction false} ServeDoes(s: State)
    requires Core(s, Some(s.current))
    ensures Refs(s)
    ensures var k := if |s.rx| <= |s.q.input| then |s.rx| else |s.q.input|;
            var (line, s') := (s.q.input[..k], Serve(s));
            && (forall t :: t in line ==> t in s.threads)
            && Roused(s, s', line) && s'.mem == s.mem && s'.a0 == Told(s.a0, s.threads, line, s.rx)
    decreases |s.q.input|
  {
    hide Core, Refs, Roused, Unblock, Renewed, Quiet, Told;
    Basics(s);
    if s.q.input == [] || s.rx == [] {
      RousedNone(s);
      ToldNone(s.a0, s.threads, s.rx);
    } else {
      UnblockDoes(s, Input, s.rx[0]);
      UnblockCore(s, Input, s.rx[0]);
      UnblockRest(s, Input, s.rx[0]);
      var u := Unblock(s, Input, s.rx[0]);
      var s1 := u.(rx := s.rx[1..]);
      ServeOneOk(s, s1);
      ServeDoes(s1);
      var k := if |s1.rx| <= |s1.q.input| then |s1.rx| else |s1.q.input|;
      ServeChain(s.rx, s.q.input, s.q.ready, k);
      var rest := s.q.input[1..][..k];
      assert s.q.input[..k + 1] == [s.q.input[0]] + rest;
      RousedBytes(s, u, s1, [s.q.input[0]]);
      RousedTrans(s, s1, Serve(s1), [s.q.input[0]], rest);
      RousedCells(s, s1, [s.q.input[0]]);
      ToldSame(s1.a0, s.threads, s1.threads, rest, s1.rx);
      ToldNext(s.a0, s.threads, s.q.input[0], rest, s.rx);
    }
  }

  lemma RousedBytes(s: State, u: State, s1: State, line: seq<nat>)
    requires Roused(s, u, line) && s1 == u.(rx := s1.rx)
    ensures Roused(s, s1, line)
  {
  }

  lemma ToldNone(a0: map<nat, int>, ts: map<nat, Tcb>, vals: seq<int>)
    ensures Told(a0, ts, [], vals) == a0
  {
  }

  lemma ToldNext(a0: map<nat, int>, ts: map<nat, Tcb>, t: nat, rest: seq<nat>, vals: seq<int>)
    requires |rest| < |vals| && t in ts && forall u :: u in rest ==> u in ts
    ensures Told(a0, ts, [t] + rest, vals) == Told(a0[ts[t].frame.sp := vals[0]], ts, rest, vals[1..])
  {
    assert ([t] + rest)[1..] == rest;
  }

  /* ---- sleepers are woken and blocks change hands ---- */

  lemma GrabDoes(m: Mem, n: nat, u: Use, blocks: nat, index: nat)
    requires Owned(m, blocks, index) && n >= 1 && RightSize(u, n) && u != Index
    ensures var k := Runs.FirstFit(m.runs, n);
            && (Grab(m, n, u).Some? <==> k < |m.runs|)
            && (Grab(m, n, u).Some? ==>
                  var (m', b) := Grab(m, n, u).value;
                  b == Runs.Start(m.runs, k) && Gains(m, m', b, n) && m'.uses == m.uses[b := u])
  {
    hide Owned, Runs.Live, Runs.FirstFit, Runs.Start;
    GrabOk(m, n, u, blocks, index);
  }

  lemma DropDoes(m: Mem, b: nat, blocks: nat, index: nat)
    requires Owned(m, blocks, index) && b in m.uses && b != 0
    ensures Drop(m, b).Some? && Owned(Drop(m, b).value, blocks, index) && Loses(m, Drop(m, b).value, {b})
  {
    DropOk(m, b, blocks, index);
    HeapHistory.GiveFacts(m.runs, b, blocks, index);
  }

  lemma LosesTrans(m: Mem, m1: Mem, m2: Mem, a: set<nat>, b: set<nat>)
    requires Loses(m, m1, a) && Loses(m1, m2, b)
    ensures Loses(m, m2, a + b)
  {
    assert m.uses - a - b == m.uses - (a + b);
    assert Runs.Live(m.runs) - a - b == Runs.Live(m.runs) - (a + b);
  }

  lemma LosesNothing(m: Mem)
    ensures Loses(m, m, {})
  {
    assert m.uses - {} == m.uses && Runs.Live(m.runs) - {} == Runs.Live(m.runs);
  }

  /** One round of the tick loop. */
  lemma WakeOneDoes(s: State)
    requires Core(s, Some(s.current)) && s.q.sleepers != []
    ensures Refs(s) && Drop(s.mem, s.q.sleepers[0].node).Some?
    ensures var m := Drop(s.mem, s.q.sleepers[0].node).value;
            var s1 := WakeOne(s, m);
            && Core(s1, Some(s.current)) && Roused(s, s1, [s.q.sleepers[0].thread])
            && Loses(s.mem, s1.mem, {s.q.sleepers[0].node}) && s1.a0 == s.a0 && s1.rx == s.rx
            && s1.q.sleepers == s.q.sleepers[1..] && s1.current == s.current
  {
    hide Placed, Slices, Drop, Owned, Belongs, Loses, Roused;
    Basics(s);
    WakeOneOk(s);
    SleeperBlock(s);
    DropDoes(s.mem, s.q.sleepers[0].node, s.blocks, Memory.IndexBlocks(s.blocks));
    hide Core, Refs, RingsOk;
    QuietOne(s, Drop(s.mem, s.q.sleepers[0].node).value);
    RousedOne(s, WakeOne(s, Drop(s.mem, s.q.sleepers[0].node).value), s.q.sleepers[0].thread);
  }

  lemma SleeperBlock(s: State)
    requires Core(s, Some(s.current)) && s.q.sleepers != []
    ensures var b := s.q.sleepers[0].node; b in s.mem.uses && b != 0
  {
    hide Placed, Slices, Owned;
    assert RingOk(s.q, Asleep);
    assert Nodes(s.q.sleepers)[0] in RingOf(s.q, Asleep);
    NotTheIndex(s.mem, s.blocks, Memory.IndexBlocks(s.blocks), s.q.sleepers[0].node);
  }

  /** The tick loop renews the slices of the sleepers that are due, gives their records back, and
      touches nothing but the queues besides. */
  lemma {:induction false} WakeDueDoes(s: State)
    requires Core(s, Some(s.current))
    ensures Refs(s) && WakeDue(s).Goes?
    ensures var (due, s') := (s.q.sleepers[..Woken(s.q.sleepers)], WakeDue(s).state);
            && Roused(s, s', Threads(due)) && Loses(s.mem, s'.mem, NodesOf(due)) && s'.a0 == s.a0 && s'.rx == s.rx
    decreases |s.q.sleepers|
  {
    hide Core, Drop, Roused, WakeOne, Loses, Nodes, Threads;
    Basics(s);
    if s.q.sleepers != [] && s.q.sleepers[0].delta == 0 {
      WakeOneDoes(s);
      var m := Drop(s.mem, s.q.sleepers[0].node).value;
      var s1 := WakeOne(s, m);
      WakeOneShape(s, m);
      WakeDueDoes(s1);
      DueSplit(s.q.sleepers);
      var due := s1.q.sleepers[..Woken(s1.q.sleepers)];
      RousedTrans(s, s1, WakeDue(s1).state, [s.q.sleepers[0].thread], Threads(due));
      LosesTrans(s.mem, s1.mem, WakeDue(s1).state.mem, {s.q.sleepers[0].node}, NodesOf(due));
    } else {
      NobodyDue(s.q.sleepers);
      RousedNone(s);
      LosesNothing(s.mem);
    }
  }

  function NodesOf(q: seq<Sleeper>): set<nat> { set n | n in Nodes(q) }

  lemma NobodyDue(q: seq<Sleeper>)
    ensures Threads(q[..0]) == [] && NodesOf(q[..0]) == {}
  {
  }

  lemma DueSplit(q: seq<Sleeper>)
    requires q != [] && q[0].delta == 0
    ensures Threads(q[..Woken(q)]) == [q[0].thread] + Threads(q[1..][..Woken(q[1..])])
    ensures NodesOf(q[..Woken(q)]) == {q[0].node} + NodesOf(q[1..][..Woken(q[1..])])
  {
    hide Threads, NodesOf;
    CutFirst(q, Woken(q));
    ConsParts(q[0], q[1..][..Woken(q[1..])]);
  }

  lemma ConsParts(x: Sleeper, q: seq<Sleeper>)
    ensures Threads([x] + q) == [x.thread] + Threads(q) && NodesOf([x] + q) == {x.node} + NodesOf(q)
  {
    assert Nodes([x] + q) == [x.node] + Nodes(q);
  }

  /* ---- the processor changes hands ---- */

  /** Nothing but the processor, the ready ring and saved registers changes hands. */
  lemma SwitchDoes(s: State)
    requires Refs(s)
    ensures var s' := Switch(s);
            && s' == s.(current := s'.current, q := s.q.(ready := s'.q.ready, home := s'.q.home),
                        threads := s'.threads, csr := s'.csr)
            && s'.current in s.threads && s'.threads.Keys == s.threads.Keys
            && s'.csr == (if s'.current == s.current then s.csr else s.threads[s'.current].frame)
            && forall t :: t in s.threads ==>
                 s'.threads[t] == s.threads[t].(frame :=
                   if t != s.current then s.threads[t].frame
                   else if s'.current != t then s.csr
                   else s.threads[t].frame.(sp := s.csr.sp))
  {
  }

  /** The laws that do not speak of the processor. */
  ghost predicate Settled(s: State, e: Trap, f: Frame, s': State)
    requires Refs(s) && Enabled(s, e, f)
  {
    && Answers(s, e, f, s') && Keeps(s, e, s') && Counted(s, e, s') && Queued(s, e, s') && Buffered(s, e, s')
    && Timed(s, e, s')
  }

  /** Ready for the switch: the running thread's registers are those it is to go on with. */
  ghost predicate Poised(s: State, e: Trap, f: Frame, s1: State)
    requires Refs(s)
  {
    && s1.current == s.current && s1.threads.Keys == s.threads.Keys
    && s1.csr == Resume(e, f)
    && forall t :: t in s.threads ==>
         s1.threads[t].frame ==
           if t != s.current || !e.Putc? then s.threads[t].frame
           else s.threads[t].frame.(sepc := (f.sepc + TWO64 - 4) % TWO64)
  }

  lemma SwitchLawful(s: State, e: Trap, f: Frame, s1: State)
    requires Refs(s) && Refs(s1) && Enabled(s, e, f) && Leaves(s, e) && !e.ThreadExit?
    requires Settled(s, e, f, s1) && Poised(s, e, f, s1)
    ensures Settled(s, e, f, Switch(s1)) && Saved(s, e, f, Switch(s1))
  {
    SwitchDoes(s1);
    hide Switch, Joins, Leaves, Enabled, Refs;
    SwitchSettled(s, e, f, s1, Switch(s1));
    SwitchSaved(s, e, f, s1, Switch(s1));
  }

  lemma SwitchSettled(s: State, e: Trap, f: Frame, s1: State, s': State)
    requires Refs(s) && Enabled(s, e, f) && Settled(s, e, f, s1)
    requires s' == s1.(current := s'.current, q := s1.q.(ready := s'.q.ready, home := s'.q.home),
                       threads := s'.threads, csr := s'.csr)
    requires s'.threads.Keys == s1.threads.Keys
    requires forall t :: t in s1.threads ==> s'.threads[t] == s1.threads[t].(frame := s'.threads[t].frame)
    ensures Settled(s, e, f, s')
  {
    hide Refs, Answers, Keeps, Counted, Queued, Buffered, Timed;
    AnswersSame(s, e, f, s1, s');
    KeepsSame(s, e, s1, s');
    RestSame(s, e, s1, s');
    TimedSame(s, e, s1, s');
  }

  lemma AnswersSame(s: State, e: Trap, f: Frame, s1: State, s': State)
    requires Refs(s) && Enabled(s, e, f) && Answers(s, e, f, s1) && s'.a0 == s1.a0
    ensures Answers(s, e, f, s')
  {
    hide Refs, Enabled, Told, Joins, Leaves, Granted, Grant, Semaphores.Signal;
  }

  lemma KeepsSame(s: State, e: Trap, s1: State, s': State)
    requires Refs(s) && Keeps(s, e, s1) && s'.mem == s1.mem
    ensures Keeps(s, e, s')
  {
    hide Refs, Granted, Grant, Gains, Loses, Tick, NodesOf;
  }

  lemma RestSame(s: State, e: Trap, s1: State, s': State)
    requires Refs(s) && (e.SemClose? || e.SemWait? || e.SemSignal? ==> e.sem in s.q.sems)
    requires s' == s1.(current := s'.current, q := s1.q.(ready := s'.q.ready, home := s'.q.home),
                       threads := s'.threads, csr := s'.csr)
    ensures Counted(s, e, s1) ==> Counted(s, e, s')
    ensures Queued(s, e, s1) ==> Queued(s, e, s')
    ensures Buffered(s, e, s1) ==> Buffered(s, e, s')
  {
    hide Refs, Granted, Grant, Served, Tick, Insert, Semaphores.Wait, Semaphores.Signal, Semaphores.Open;
  }

  lemma TimedSame(s: State, e: Trap, s1: State, s': State)
    requires Refs(s) && (e.SemClose? || e.SemSignal? ==> e.sem in s.q.sems) && Timed(s, e, s1)
    requires s'.threads.Keys == s1.threads.Keys
    requires forall t :: t in s1.threads ==> s'.threads[t] == s1.threads[t].(frame := s'.threads[t].frame)
    ensures Timed(s, e, s')
  {
    hide Refs, Granted, Grant, Joins, Staying;
  }

  lemma SwitchSaved(s: State, e: Trap, f: Frame, s1: State, s': State)
    requires Refs(s) && (e.SemWait? ==> e.sem in s.q.sems) && Leaves(s, e)
    requires Poised(s, e, f, s1)
    requires s'.current in s1.threads && s'.threads.Keys == s1.threads.Keys
    requires s'.csr == if s'.current == s1.current then s1.csr else s1.threads[s'.current].frame
    requires forall t :: t in s1.threads ==>
               s'.threads[t].frame ==
                 if t != s1.current then s1.threads[t].frame
                 else if s'.current != t then s1.csr
                 else s1.threads[t].frame.(sp := s1.csr.sp)
    ensures Saved(s, e, f, s')
  {
  }

  /* ---- one lemma per trap ---- */

  /** A trap that changes nothing. */
  lemma QuietLawful(s: State, e: Trap, f: Frame)
    requires Refs(s) && Enabled(s, e, f)
    requires e.OtherDevice? || e.UnknownCall? || e == Putc(false)
    ensures var s' := Enter(s, e, f); Settled(s, e, f, s') && Saved(s, e, f, s')
  {
  }

  /** What the allocator answers to a request for n blocks. */
  ghost predicate Gives(m: Mem, n: nat, u: Use) {
    var k := Runs.FirstFit(m.runs, n);
    && (Grab(m, n, u).Some? <==> k < |m.runs|)
    && (Grab(m, n, u).Some? ==>
          var (m', b) := Grab(m, n, u).value;
          b == Runs.Start(m.runs, k) && Gains(m, m', b, n) && m'.uses == m.uses[b := u])
  }

  lemma GrabGives(s: State, n: nat, u: Use)
    requires Inv(s) && n >= 1 && RightSize(u, n) && u != Index
    ensures Gives(s.mem, n, u)
  {
    hide Waiting, Modes, Received, Owned, Grab, Gains, Runs.FirstFit, Runs.Start;
    GrabDoes(s.mem, n, u, s.blocks, Memory.IndexBlocks(s.blocks));
  }

  lemma AllocLawful(s: State, e: Trap, f: Frame)
    requires Refs(s) && Enabled(s, e, f) && e.MemAlloc? && Gives(s.mem, e.nblocks, User)
    ensures var s' := MemAllocStep(Enter(s, e, f), e.nblocks);
            Settled(s, e, f, s') && Saved(s, e, f, s')
  {
    hide Gains, Runs.FirstFit, Runs.Start, Grab;
  }

  lemma OpenLawful(s: State, e: Trap, f: Frame)
    requires Refs(s) && Enabled(s, e, f) && e.SemOpen? && Gives(s.mem, 1, SemOf)
    ensures var s' := SemOpenStep(Enter(s, e, f), e.init);
            Settled(s, e, f, s') && Saved(s, e, f, s')
  {
    hide Gains, Runs.FirstFit, Runs.Start, Grab;
  }

  lemma CreateLawful(s: State, e: Trap, f: Frame)
    requires Inv(s) && Refs(s) && Enabled(s, e, f) && e.ThreadCreate? && Gives(s.mem, 1, ThreadOf)
    ensures IsFreshStack(Enter(s, e, f), e.stack)
    ensures var s' := CreateStep(Enter(s, e, f), e.start, e.stack);
            Settled(s, e, f, s') && Saved(s, e, f, s')
  {
    hide Core, Modes, Waiting, Received, Gains, Runs.FirstFit, Runs.Start, Grab, Memory.BlockOf;
    var s' := CreateStep(Enter(s, e, f), e.start, e.stack);
    GrabFresh(s, ThreadOf);
    assert Counted(s, e, s') && Queued(s, e, s') && Buffered(s, e, s') && Answers(s, e, f, s');
    CreateKeeps(s, e, f);
    CreateTimed(s, e, f);
  }

  lemma CreateKeeps(s: State, e: Trap, f: Frame)
    requires Refs(s) && Enabled(s, e, f) && e.ThreadCreate? && Gives(s.mem, 1, ThreadOf)
    ensures IsFreshStack(Enter(s, e, f), e.stack)
    ensures Keeps(s, e, CreateStep(Enter(s, e, f), e.start, e.stack))
  {
    hide Runs.FirstFit, Runs.Start, Runs.Live, Grab;
  }

  lemma CreateTimed(s: State, e: Trap, f: Frame)
    requires Refs(s) && Enabled(s, e, f) && e.ThreadCreate? && Gives(s.mem, 1, ThreadOf)
    requires Grab(s.mem, 1, ThreadOf).Some? ==> Grab(s.mem, 1, ThreadOf).value.1 !in s.threads
    ensures IsFreshStack(Enter(s, e, f), e.stack)
    ensures var s' := CreateStep(Enter(s, e, f), e.start, e.stack);
            Timed(s, e, s') && Saved(s, e, f, s')
  {
    hide Gains, Runs.FirstFit, Runs.Start, Grab, Memory.BlockOf;
    var s' := CreateStep(Enter(s, e, f), e.start, e.stack);
    if Grab(s.mem, 1, ThreadOf).Some? {
      assert s'.threads.Keys == s.threads.Keys + {Grant(s, e)};
    }
  }

  lemma PoisedSame(s: State, e: Trap, f: Frame, s1: State)
    requires Refs(s) && !e.Putc? && s1.current == s.current && s1.csr == Resume(e, f)
    requires s1.threads.Keys == s.threads.Keys
    requires forall t :: t in s.threads ==> s1.threads[t].frame == s.threads[t].frame
    ensures Poised(s, e, f, s1)
  {
  }

  lemma WaitLawful(s: State, e: Trap, f: Frame)
    requires Refs(s) && Enabled(s, e, f) && e.SemWait?
    ensures Refs(Enter(s, e, f))
    ensures var s' := SemWaitStep(Enter(s, e, f), e.sem);
            Settled(s, e, f, s') && Saved(s, e, f, s')
  {
    hide Switch, Tick, Poised, BlockOn;
    if Leaves(s, e) { BlockLawful(s, e, f); }
  }

  lemma BlockLawful(s: State, e: Trap, f: Frame)
    requires Refs(s) && Enabled(s, e, f) && e.SemWait? && Leaves(s, e)
    ensures Refs(Enter(s, e, f))
    ensures var s' := SemWaitStep(Enter(s, e, f), e.sem);
            Settled(s, e, f, s') && Saved(s, e, f, s')
  {
    hide Switch, Tick, Poised, Saved;
    var s0 := Enter(s, e, f);
    var v := Semaphores.Wrap32(s0.q.sems[e.sem].val - 1);
    var s1 := s0.(q := Enqueue(SetVal(s0.q, e.sem, v), OnSem(e.sem), s0.current));
    assert Refs(s1) && Settled(s, e, f, s1);
    hide Refs, Settled;
    PoisedSame(s, e, f, s1);
    SwitchLawful(s, e, f, s1);
  }

  lemma GetcLawful(s: State, e: Trap, f: Frame)
    requires Refs(s) && Enabled(s, e, f) && e.Getc?
    ensures Refs(Enter(s, e, f))
    ensures var s' := GetcStep(Enter(s, e, f));
            Settled(s, e, f, s') && Saved(s, e, f, s')
  {
    hide Switch, Tick, Poised;
    var s0 := Enter(s, e, f);
    var s1 := s0.(q := Enqueue(s0.q, Input, s0.current));
    if s.rx == [] {
      assert Refs(s1) && Settled(s, e, f, s1);
      hide Refs, Settled, Saved;
      PoisedSame(s, e, f, s1);
      SwitchLawful(s, e, f, s1);
    }
  }

  lemma DispatchLawful(s: State, e: Trap, f: Frame)
    requires Refs(s) && Enabled(s, e, f) && e.Dispatch?
    ensures Refs(Enter(s, e, f))
    ensures var s' := Preempt(Enter(s, e, f));
            Settled(s, e, f, s') && Saved(s, e, f, s')
  {
    hide Switch, Tick, Poised, Saved;
    var s0 := Enter(s, e, f);
    var s1 := Refill(s0.(q := Enqueue(s0.q, Ready, s0.current)), s0.current);
    assert Refs(s1) && Settled(s, e, f, s1);
    hide Refs, Settled;
    PoisedSame(s, e, f, s1);
    SwitchLawful(s, e, f, s1);
  }

  lemma PutcLawful(s: State, e: Trap, f: Frame)
    requires Refs(s) && Enabled(s, e, f) && e.Putc? && f.sepc < TWO64
    ensures Refs(Enter(s, e, f))
    ensures var s' := PutcStep(Enter(s, e, f), e.full);
            Settled(s, e, f, s') && Saved(s, e, f, s')
  {
    hide Switch, Tick, Settled, Saved;
    var s0 := Enter(s, e, f);
    if e.full {
      var again := (s0.csr.sepc + TWO64 - 4) % TWO64;
      assert again == f.sepc;
      RetryLawful(s, e, f, Stale(s0, f.sepc, (f.sepc + TWO64 - 4) % TWO64));
    } else {
      QuietLawful(s, e, f);
    }
  }

  lemma RetryLawful(s: State, e: Trap, f: Frame, s2: State)
    requires Refs(s) && Enabled(s, e, f) && e == Putc(true) && f.sepc < TWO64
    requires s2 == Stale(Enter(s, e, f), f.sepc, (f.sepc + TWO64 - 4) % TWO64)
    ensures Refs(s2) && Settled(s, e, f, Preempt(s2)) && Saved(s, e, f, Preempt(s2))
  {
    hide Switch, Tick, Saved, Poised;
    var s1 := Refill(s2.(q := Enqueue(s2.q, Ready, s2.current)), s2.current);
    assert Refs(s1) && Settled(s, e, f, s1);
    hide Refs, Settled;
    RetryPoised(s, e, f, s1);
    SwitchLawful(s, e, f, s1);
  }

  lemma RetryPoised(s: State, e: Trap, f: Frame, s1: State)
    requires Refs(s) && e == Putc(true) && s1.current == s.current && s1.csr == f
    requires s1.threads.Keys == s.threads.Keys
    requires forall t :: t in s.threads && t != s.current ==> s1.threads[t].frame == s.threads[t].frame
    requires s1.threads[s.current].frame == s.threads[s.current].frame.(sepc := (f.sepc + TWO64 - 4) % TWO64)
    ensures Poised(s, e, f, s1)
  {
  }

  lemma SleepLawful(s: State, e: Trap, f: Frame)
    requires Refs(s) && Enabled(s, e, f) && e.Sleep? && Gives(s.mem, 1, SleeperOf)
    ensures Refs(Enter(s, e, f))
    ensures var o := SleepStep(Enter(s, e, f), e.time);
            o.Goes? ==> Settled(s, e, f, o.state) && Saved(s, e, f, o.state)
  {
    hide Switch, Tick, Insert, Gains, Runs.FirstFit, Runs.Start, Grab, Poised;
    var s0 := Return(Enter(s, e, f), 0);
    if e.time == 0 {
    } else if Timeout(s0, s.current, e.time).Goes? {
      TimeoutRefs(s0, s.current, e.time);
      var s1 := Timeout(s0, s.current, e.time).state;
      hide Refs;
      assert Settled(s, e, f, s1);
      hide Settled;
      PoisedSame(s, e, f, s1);
      SwitchLawful(s, e, f, s1);
    }
  }

  lemma KernelLawful(s: State, e: Trap, f: Frame)
    requires Inv(s) && Refs(s) && Enabled(s, e, f) && e.KernelDispatch?
    ensures Refs(Enter(s, e, f))
    ensures var s' := KernelDispatchStep(Enter(s, e, f));
            Settled(s, e, f, s') && Saved(s, e, f, s')
  {
    hide Switch, Tick, Core, Modes, Received, Waiting;
    EnterOk(s, e, f);
    var s0 := Enter(s, e, f);
    KernelDispatchOk(s0);
    hide KernelDispatchStep, Refs, Inv;
    assert Settled(s, e, f, s0) && Poised(s, e, f, s0);
    SwitchLawful(s, e, f, s0);
  }

  /** Where the threads that become ready are the only ones to change. */
  lemma RousedLawful(s: State, e: Trap, f: Frame, s1: State, s': State)
    requires Refs(s) && Enabled(s, e, f) && (e.Console? || e.SemClose? || e.SemSignal?)
    requires Roused(Enter(s, e, f), s1, Joins(s, e))
    requires s' == s1.(mem := s'.mem, q := s'.q, a0 := s'.a0, rx := s'.rx)
    ensures Counted(s, e, s') && Timed(s, e, s') && Saved(s, e, f, s')
  {
    hide Joins;
  }

  lemma CloseLawful(s: State, e: Trap, f: Frame)
    requires Inv(s) && Refs(s) && Enabled(s, e, f) && e.SemClose?
    ensures Refs(Enter(s, e, f)) && SemCloseStep(Enter(s, e, f), e.sem).Goes?
    ensures var s' := SemCloseStep(Enter(s, e, f), e.sem).state;
            Settled(s, e, f, s') && Saved(s, e, f, s')
  {
    hide Inv, Refs, UnblockAll, Drop, Roused, Quiet, Loses, Counted, Timed, Saved, Told, IsFreshStack, Minuses;
    EnterOk(s, e, f);
    var s0, h := Enter(s, e, f), e.sem;
    QueueRuns.CloseQueues(s0, h);
    UnblockAllDoes(s0, h);
    LineEmptied(s0, h);
    SemDrops(s0, h);
    RousedCells(s0, UnblockAll(s0, h), s0.q.sems[h].queue);
    var s' := SemCloseStep(s0, h).state;
    RousedLawful(s, e, f, UnblockAll(s0, h), s');
  }

  lemma SemDrops(s: State, h: nat)
    requires Inv(s) && h in s.q.sems
    ensures Drop(s.mem, h).Some? && Loses(s.mem, Drop(s.mem, h).value, {h})
  {
    hide RingsOk, Slices, Owned, Drop, Belongs, Placed, Modes, Received, Waiting, Loses;
    SemBlock(s.base, s.mem.uses, s.threads, s.q, s.idle, h);
    NotTheIndex(s.mem, s.blocks, Memory.IndexBlocks(s.blocks), h);
    DropDoes(s.mem, h, s.blocks, Memory.IndexBlocks(s.blocks));
  }

  lemma SignalLawful(s: State, e: Trap, f: Frame)
    requires Inv(s) && Refs(s) && Enabled(s, e, f) && e.SemSignal?
    ensures Refs(Enter(s, e, f)) && SemSignalStep(Enter(s, e, f), e.sem).Goes?
    ensures var s' := SemSignalStep(Enter(s, e, f), e.sem).state;
            Settled(s, e, f, s') && Saved(s, e, f, s')
  {
    hide Inv, Refs, Unblock, Roused, Quiet, Counted, Timed, Saved, IsFreshStack;
    EnterOk(s, e, f);
    var s0, h := Enter(s, e, f), e.sem;
    SignalOk(s0, h);
    QueueRuns.SignalQueues(s0, h);
    var v := Semaphores.Wrap32(s0.q.sems[h].val + 1);
    var s1 := s0.(q := SetVal(s0.q, h, v));
    SetValRefs(s0, h, v);
    var s' := SemSignalStep(s0, h).state;
    if v <= 0 && s0.q.sems[h].queue != [] {
      UnblockDoes(s1, OnSem(h), 0);
      UnblockRest(s1, OnSem(h), 0);
      RousedBefore(s0, s1, Unblock(s1, OnSem(h), 0), Joins(s, e));
      RousedLawful(s, e, f, Unblock(s1, OnSem(h), 0), s');
      ToldOne(s0.a0, s0.threads, s0.q.sems[h].queue[0], 0);
    } else {
      RousedNone(s0);
      RousedLawful(s, e, f, s0, s');
    }
  }

  lemma RousedBefore(s: State, s1: State, s2: State, line: seq<nat>)
    requires s1 == s.(q := s1.q, rx := s1.rx) && Roused(s1, s2, line)
    ensures Roused(s, s2, line)
  {
  }

  /** What the device's bytes come to in the buffer. */
  lemma HeldIs(s: State, bytes: seq<int>, rx: seq<int>)
    requires |s.rx| <= 1024
    requires var room: nat := 1024 - |s.rx|; rx == s.rx + if |bytes| <= room then bytes else bytes[..room]
    ensures var all := s.rx + bytes; rx == all[..if |all| <= 1024 then |all| else 1024]
    ensures Served(s, bytes) == if |rx| <= |s.q.input| then |rx| else |s.q.input|
    ensures forall k :: 0 <= k <= |rx| ==>
              var all := s.rx + bytes; rx[k..] == all[k..if |all| <= 1024 then |all| else 1024]
  {
  }

  lemma ConsoleLawful(s: State, e: Trap, f: Frame)
    requires Inv(s) && Refs(s) && Enabled(s, e, f) && e.Console?
    ensures Refs(Enter(s, e, f))
    ensures var s' := ConsoleStep(Enter(s, e, f), e.bytes);
            Settled(s, e, f, s') && Saved(s, e, f, s')
  {
    hide Core, Refs, Waiting, Modes, Roused, Saved, IsFreshStack, Told, Serve, Quiet, Served, Settled;
    EnterOk(s, e, f);
    var s0 := Enter(s, e, f);
    Basics(s0);
    var room := RX_SIZE - |s0.rx|;
    var s1 := s0.(rx := s0.rx + if |e.bytes| <= room then e.bytes else e.bytes[..room]);
    CoreSame(s0, s1, Some(s0.current));
    HeldIs(s, e.bytes, s1.rx);
    ServeOk(s1);
    ServeOrder(s1);
    ServeDoes(s1);
    RousedBefore(s0, s1, Serve(s1), Joins(s, e));
    ToldPrefix(s.a0, s.threads, Joins(s, e), s1.rx, s.rx + e.bytes);
    ConsoleSettled(s, e, f, Serve(s1));
  }

  lemma ConsoleSettled(s: State, e: Trap, f: Frame, s': State)
    requires Refs(s) && Enabled(s, e, f) && e.Console?
    requires Roused(Enter(s, e, f), s', Joins(s, e)) && s'.mem == s.mem
    requires s'.q.sleepers == s.q.sleepers && s'.q.sems == s.q.sems
    requires var all := s.rx + e.bytes; var held := if |all| <= 1024 then |all| else 1024;
             && Served(s, e.bytes) <= held && s'.rx == all[Served(s, e.bytes)..held]
    requires s'.q.input == s.q.input[Served(s, e.bytes)..]
    requires s'.a0 == Told(s.a0, s.threads, Joins(s, e), s.rx + e.bytes)
    ensures Settled(s, e, f, s') && Saved(s, e, f, s')
  {
    hide Refs, Enabled, Counted, Timed, Saved, Roused, Told, Served;
    RousedLawful(s, e, f, s', s');
  }

  lemma TickDoes(s: State)
    requires Inv(s)
    ensures Refs(s) && Ticked(s).Goes?
    ensures var s1 := Ticked(s).state;
            && Roused(s, s1, DueNow(s.q.sleepers)) && Loses(s.mem, s1.mem, NodesOf(Tick(s.q.sleepers).1))
            && s1.a0 == s.a0 && s1.rx == s.rx && s1.q.input == s.q.input && s1.q.sems == s.q.sems
            && s1.q.sleepers == Tick(s.q.sleepers).0
    ensures s.current !in DueNow(s.q.sleepers)
  {
    hide Core, Refs, Waiting, Roused, Loses, Quiet, Decrement, Modes, Received, Threads, Nodes;
    Basics(s);
    TickStart(s);
    TickedOk(s);
    var s0 := s.(q := s.q.(sleepers := Decrement(s.q.sleepers)));
    WakeDueDoes(s0);
    RousedBefore(s, s0, Ticked(s).state, DueNow(s.q.sleepers));
    RunnerAwake(s0);
  }

  /** Whoever runs is not asleep. */
  lemma RunnerAwake(s: State)
    requires Core(s, Some(s.current))
    ensures s.current !in Threads(s.q.sleepers[..Woken(s.q.sleepers)])
  {
    hide RingsOk, Owned, Belongs, Slices;
    var q, k := s.q.sleepers, Woken(s.q.sleepers);
    assert forall i :: 0 <= i < k ==> Threads(q[..k])[i] == Threads(q)[i];
  }

  lemma TimerLawful(s: State, e: Trap, f: Frame)
    requires Inv(s) && Refs(s) && Enabled(s, e, f) && e.Timer?
    ensures Refs(Enter(s, e, f)) && TimerStep(Enter(s, e, f)).Goes?
    ensures var s' := TimerStep(Enter(s, e, f)).state;
            Settled(s, e, f, s') && Saved(s, e, f, s')
  {
    hide Inv, Core, Refs, Preempt, WakeDue, Decrement, Tick, Settled, Saved, Roused, Loses, IsFreshStack, DueNow;
    EnterOk(s, e, f);
    var s0 := Enter(s, e, f);
    TickDoes(s0);
    TickedOk(s0);
    TimerOk(s0);
    var s1 := Ticked(s0).state;
    TimerEnd(s1);
    InvParts(s1);
    InvParts(s);
    Basics(s1);
    Basics(s);
    assert Begun(s, f, s1);
    hide Begun;
    SliceLawful(s, f, s1);
  }

  /** The state after the sleepers' part of a tick. */
  ghost predicate Begun(s: State, f: Frame, s1: State) {
    && Roused(s.(csr := f), s1, DueNow(s.q.sleepers)) && Loses(s.mem, s1.mem, NodesOf(Tick(s.q.sleepers).1))
    && s1.a0 == s.a0 && s1.rx == s.rx && s1.q.input == s.q.input && s1.q.sems == s.q.sems
    && s1.q.sleepers == Tick(s.q.sleepers).0 && s.current !in DueNow(s.q.sleepers) && s.current in s.threads
  }

  lemma BegunLater(s: State, f: Frame, s1: State)
    requires Refs(s) && Enabled(s, Timer, f) && Begun(s, f, s1)
    requires s.threads[s.current].timeLeft > 1
    ensures s1.current == s.current && s.current in s1.threads
    ensures s1.threads[s.current].timeLeft == s.threads[s.current].timeLeft
    ensures var s' := SetTime(s1, s.current, s.threads[s.current].timeLeft - 1);
            Settled(s, Timer, f, s') && Saved(s, Timer, f, s')
  {
    hide Tick, Loses, DueNow;
    assert Joins(s, Timer) == DueNow(s.q.sleepers);
  }

  lemma BegunLast(s: State, f: Frame, s1: State, s': State)
    requires Refs(s) && Enabled(s, Timer, f) && Begun(s, f, s1)
    requires s.threads[s.current].timeLeft == 1 && s.current in s1.threads
    requires s' == SetTime(s1, s.current, 2).(q := s1.q.(ready := s'.q.ready, home := s'.q.home))
    ensures Settled(s, Timer, f, s') && Poised(s, Timer, f, s')
  {
    hide Tick, Loses, DueNow;
    assert Joins(s, Timer) == DueNow(s.q.sleepers) + [s.current];
  }

  lemma BegunRunner(s: State, f: Frame, s1: State)
    requires Begun(s, f, s1)
    ensures s1.current == s.current && s.current in s.threads && s.current in s1.threads
    ensures s1.threads[s.current].timeLeft == s.threads[s.current].timeLeft
  {
    hide DueNow, Loses, Tick;
  }

  lemma SliceLawful(s: State, f: Frame, s1: State)
    requires Inv(s) && Refs(s) && Enabled(s, Timer, f) && Refs(s1) && Begun(s, f, s1)
    requires s1.current in s1.threads && s1.threads[s1.current].timeLeft >= 1
    requires s.threads[s.current].timeLeft >= 1
    ensures var left := s1.threads[s1.current].timeLeft - 1;
            && Refs(SetTime(s1, s1.current, left))
            && var s' := if left == 0 then Preempt(SetTime(s1, s1.current, left)) else SetTime(s1, s1.current, left);
               Settled(s, Timer, f, s') && Saved(s, Timer, f, s')
  {
    hide Inv, Switch, Settled, Poised, Saved, Begun;
    var left := s1.threads[s1.current].timeLeft - 1;
    var s2 := SetTime(s1, s1.current, left);
    BegunRunner(s, f, s1);
    if s.threads[s.current].timeLeft == 1 {
      var s3 := Refill(s2.(q := Enqueue(s2.q, Ready, s2.current)), s2.current);
      assert s3.threads == SetTime(s1, s.current, 2).threads;
      BegunLast(s, f, s1, s3);
      assert Refs(s3);
      SwitchLawful(s, Timer, f, s3);
    } else {
      BegunLater(s, f, s1);
    }
  }

  lemma ExitLawful(s: State, e: Trap, f: Frame)
    requires Inv(s) && Refs(s) && Enabled(s, e, f) && e.ThreadExit?
    ensures Refs(Enter(s, e, f))
    ensures var o := ExitStep(Enter(s, e, f));
            o.Goes? ==> Settled(s, e, f, o.state) && Saved(s, e, f, o.state)
  {
    hide Core, Waiting, Modes, Received, Switch, Drop, DropAt, Loses, HasStack, IsFreshStack, Tick;
    EnterOk(s, e, f);
    var s0 := Enter(s, e, f);
    LeaveOk(s0);
    ExitOk(s0);
    ExitLoses(s0);
    InvParts(s0);
    TwoThreads(s0);
    UsersDown(s0);
    var s2 := s0.(users := (s0.users + TWO64 - 1) % TWO64);
    RefsSame(s0, s2);
    SwitchDoes(s2);
    var o := ExitStep(s0);
    if o.Goes? {
      hide Switch, ExitStep, Refs;
      ExitSettled(s, e, f, o.state);
    }
  }

  lemma ExitSettled(s: State, e: Trap, f: Frame, s': State)
    requires Refs(s) && Enabled(s, e, f) && e.ThreadExit? && s.users >= 1 && s.threads[s.current].bp >= s.base
    requires s' == s.(mem := s'.mem, users := s.users - 1, threads := s'.threads, current := s'.current,
                      csr := s'.csr, q := s.q.(ready := s'.q.ready, home := s'.q.home))
    requires Loses(s.mem, s'.mem, {s.current, (s.threads[s.current].bp - s.base) / 64})
    requires s'.current in s.threads && s'.threads.Keys == s.threads.Keys - {s.current}
    requires s'.csr == if s'.current == s.current then Resume(e, f) else s.threads[s'.current].frame
    requires forall t :: t in s'.threads ==> s'.threads[t] == s.threads[t]
    ensures Settled(s, e, f, s') && Saved(s, e, f, s')
  {
    hide Loses, Tick;
  }

  lemma ExitLoses(s: State)
    requires Inv(s) && s.current != s.idle
    ensures s.current in s.threads && s.threads[s.current].bp >= s.base
    ensures var bp := s.threads[s.current].bp; var o := DropAt(s.mem, s.base, s.blocks, bp);
            && o.Some? && Drop(o.value, s.current).Some?
            && Loses(s.mem, Drop(o.value, s.current).value, {s.current, (bp - s.base) / 64})
  {
    hide Placed, RingsOk, Slices, Belongs, Owned, HasStack, Drop, Loses, Waiting, Modes, Received;
    var c := s.current;
    StackBlock(s, c);
    var bp, sb, index := s.threads[c].bp, Memory.BlockOf(s.base, s.threads[c].bp), Memory.IndexBlocks(s.blocks);
    Memory.BlockRoundTrip(s.base, bp);
    LiveBlock(s.mem, s.blocks, index, sb);
    NotTheIndex(s.mem, s.blocks, index, sb);
    NotTheIndex(s.mem, s.blocks, index, c);
    DropDoes(s.mem, sb, s.blocks, index);
    var m := Drop(s.mem, sb).value;
    LosesKnown(s.mem, m, sb, c);
    DropDoes(m, c, s.blocks, index);
    LosesTrans(s.mem, m, Drop(m, c).value, {sb}, {c});
    assert {sb} + {c} == {c, sb};
  }

  lemma LosesKnown(m: Mem, m': Mem, a: nat, b: nat)
    requires Loses(m, m', {a}) && b in m.uses && b != a
    ensures b in m'.uses
  {
  }

  /* ---- all traps ---- */

  /** Every trap that returns obeys the laws. */
  lemma StepLawful(s: State, e: Trap, f: Frame, s': State)
    requires Inv(s) && Refs(s) && Enabled(s, e, f) && f.sepc < TWO64 && Step(s, e, f) == Goes(s')
    ensures Lawful(s, e, f, s')
  {
    hide Inv, Refs, TimerStep, ConsoleStep, MemAllocStep, CreateStep, ExitStep, SemOpenStep, SemCloseStep,
      SemWaitStep, SemSignalStep, SleepStep, GetcStep, PutcStep, KernelDispatchStep, Preempt, IsFreshStack,
      Settled, Saved, Advances, Joins, Leaves, Gives;
    SettledStep(s, e, f, s');
    StepAdvances(s, e, f);
    hide Enabled, Step;
    SettledLawful(s, e, f, s');
  }

  lemma SettledLawful(s: State, e: Trap, f: Frame, s': State)
    requires Refs(s) && Enabled(s, e, f) && Settled(s, e, f, s') && Saved(s, e, f, s')
    requires Advances(s, s', Joins(s, e), Leaves(s, e), if e.Timer? && !Leaves(s, e) then 1 else 0)
    ensures Lawful(s, e, f, s')
  {
    hide Refs, Enabled, Advances, Joins, Leaves, Answers, Keeps, Counted, Queued, Buffered, Timed, Saved;
  }

  lemma SettledStep(s: State, e: Trap, f: Frame, s': State)
    requires Inv(s) && Refs(s) && Enabled(s, e, f) && f.sepc < TWO64 && Step(s, e, f) == Goes(s')
    ensures Settled(s, e, f, s') && Saved(s, e, f, s')
  {
    hide Inv, Refs, TimerStep, ConsoleStep, MemAllocStep, CreateStep, ExitStep, SemOpenStep, SemCloseStep,
      SemWaitStep, SemSignalStep, SleepStep, GetcStep, PutcStep, KernelDispatchStep, Preempt, IsFreshStack,
      Settled, Saved, Gives, Prevented;
    match e {
      case Timer => TimerLawful(s, e, f);
      case Console(_) => ConsoleLawful(s, e, f);
      case MemAlloc(n, _) => GrabGives(s, n, User); AllocLawful(s, e, f);
      case ThreadCreate(_, _, _) => GrabGives(s, 1, ThreadOf); CreateLawful(s, e, f);
      case ThreadExit => ExitLawful(s, e, f);
      case Dispatch => DispatchLawful(s, e, f);
      case SemOpen(_, _) => GrabGives(s, 1, SemOf); OpenLawful(s, e, f);
      case SemClose(_) => CloseLawful(s, e, f);
      case SemWait(_) => WaitLawful(s, e, f);
      case SemSignal(_) => SignalLawful(s, e, f);
      case Sleep(_, _) => GrabGives(s, 1, SleeperOf); SleepLawful(s, e, f);
      case Getc => GetcLawful(s, e, f);
      case Putc(_) => PutcLawful(s, e, f);
      case KernelDispatch => KernelLawful(s, e, f);
      case _ => QuietLawful(s, e, f);
    }
  }

  /* ---- nothing is left open ---- */

  lemma KeepsOne(s: State, e: Trap, s1: State, s2: State)
    requires Refs(s) && Keeps(s, e, s1) && Keeps(s, e, s2)
    requires Owned(s1.mem, s1.blocks, Memory.IndexBlocks(s1.blocks))
    requires Owned(s2.mem, s2.blocks, Memory.IndexBlocks(s2.blocks)) && s1.blocks == s2.blocks
    ensures s1.mem == s2.mem
  {
    hide Refs, Runs.LiveFrom, Tick, NodesOf, Granted, Grant, Runs.Canonical;
    Runs.CanonicalUnique(s1.mem.runs, s2.mem.runs, 0);
  }

  lemma HomeOne(q1: Queues, q2: Queues)
    requires RingsOk(q1) && RingsOk(q2) && q1 == q2.(home := q1.home)
    ensures q1 == q2
  {
    forall n | n in q1.home ensures n in q2.home && q2.home[n] == q1.home[n] {
      assert RingOk(q1, q1.home[n]) && RingOk(q2, q1.home[n]);
      assert RingOf(q1, q1.home[n]) == RingOf(q2, q1.home[n]);
    }
    forall n | n in q2.home ensures n in q1.home {
      assert RingOk(q1, q2.home[n]) && RingOk(q2, q2.home[n]);
      assert RingOf(q1, q2.home[n]) == RingOf(q2, q2.home[n]);
    }
  }

  lemma ThreadsOne(s: State, e: Trap, f: Frame, s1: State, s2: State)
    requires Refs(s) && (e.SemClose? || e.SemWait? || e.SemSignal? ==> e.sem in s.q.sems)
    requires Timed(s, e, s1) && Timed(s, e, s2) && Saved(s, e, f, s1) && Saved(s, e, f, s2)
    requires s1.current == s2.current
    ensures s1.threads == s2.threads && s1.csr == s2.csr
  {
    hide Refs, Joins, Leaves, Staying, FirstFrame, Resume, Granted, Grant;
    forall t | t in s1.threads ensures s1.threads[t] == s2.threads[t] {
      assert s1.threads[t].frame == s2.threads[t].frame;
    }
  }

  lemma QueuesOne(s: State, e: Trap, s1: State, s2: State)
    requires Refs(s) && (e.SemClose? || e.SemWait? || e.SemSignal? ==> e.sem in s.q.sems)
    requires Queued(s, e, s1) && Queued(s, e, s2) && Buffered(s, e, s1) && Buffered(s, e, s2)
    ensures s1.q.input == s2.q.input && s1.q.sems == s2.q.sems && s1.q.sleepers == s2.q.sleepers && s1.rx == s2.rx
  {
    hide Refs, Served, Tick, Insert, Semaphores.Wait, Semaphores.Signal, Semaphores.Open, Granted, Grant;
  }

  lemma CellsOne(s: State, e: Trap, f: Frame, s1: State, s2: State)
    requires Refs(s) && Enabled(s, e, f) && Answers(s, e, f, s1) && Answers(s, e, f, s2)
    ensures s1.a0 == s2.a0
  {
    hide Refs, Enabled, Told, Joins, Leaves, Granted, Grant, Semaphores.Signal, Minuses;
  }

  /** There is only one state in order that obeys the laws: they say all that a trap does. */
  lemma LawsDecide(s: State, e: Trap, f: Frame, s1: State, s2: State)
    requires Refs(s) && Enabled(s, e, f) && Lawful(s, e, f, s1) && Lawful(s, e, f, s2)
    requires Inv(s1) && Inv(s2)
    ensures s1 == s2
  {
    hide Refs, Enabled, Joins, Leaves, Answers, Keeps, Queued, Buffered, Timed, Saved, Owned, RingsOk, Placed, Slices,
      Belongs, Modes, Waiting, Received;
    EnabledSem(s, e, f);
    KeepsOne(s, e, s1, s2);
    ThreadsOne(s, e, f, s1, s2);
    QueuesOne(s, e, s1, s2);
    CellsOne(s, e, f, s1, s2);
    HomeOne(s1.q, s2.q);
  }

  lemma EnabledSem(s: State, e: Trap, f: Frame)
    requires Enabled(s, e, f)
    ensures e.SemClose? || e.SemWait? || e.SemSignal? ==> e.sem in s.q.sems
  {
  }
}
