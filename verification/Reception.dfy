/** The receive half of the console over whole runs: every byte taken from the device goes to one
    reader, in order. */
module Reception {
  import opened Options
  import DeltaQueue
  import Semaphores
  import ThreadQueues
  import Ownership
  import opened Machine
  import opened Safety
  import Executions
  import QueueRuns

  /** The bytes a trap takes from the device. */
  function Taken(s: State, e: Trap): seq<int> {
    match e
    case Console(bytes) =>
      var room := if |s.rx| < RX_SIZE then RX_SIZE - |s.rx| else 0;
      if |bytes| <= room then bytes else bytes[..room]
    case _ => []
  }

  /** The bytes a trap delivers to readers: to those in line, or to the caller of `getc`. */
  function Given(s: State, e: Trap): seq<int> {
    match e
    case Console(_) =>
      var all := s.rx + Taken(s, e);
      all[..if |all| <= |s.q.input| then |all| else |s.q.input|]
    case Getc => if s.rx == [] then [] else s.rx[..1]
    case _ => []
  }

  lemma ConsoleBytes(s: State, bytes: seq<int>)
    requires Inv(s)
    ensures Refs(s) && s.rx + Taken(s, Console(bytes)) == Given(s, Console(bytes)) + ConsoleStep(s, bytes).rx
  {
    hide Core, Refs, DeltaQueue.Waiting, Modes, Serve;
    Basics(s);
    var s1 := s.(rx := s.rx + Taken(s, Console(bytes)));
    CoreSame(s, s1, Some(s.current));
    ServeOrder(s1);
  }

  lemma GetcBytes(s: State)
    requires Inv(s) && s.current != s.idle
    ensures Refs(s) && s.rx == Given(s, Getc) + GetcStep(s).rx
  {
    hide Core, BlockOn, Modes, Refs;
    Basics(s);
    if s.rx == [] { BlockOk(s, ThreadQueues.Input); } else { assert s.rx == s.rx[..1] + s.rx[1..]; }
  }

  /** Each trap takes its bytes in behind the buffer and gives bytes out from its front. */
  lemma StepBytes(s: State, e: Trap, f: Frame, s': State)
    requires Inv(s) && Refs(s) && Enabled(s, e, f) && Step(s, e, f) == Goes(s')
    ensures s.rx + Taken(s, e) == Given(s, e) + s'.rx
  {
    hide Inv, Refs, Enabled, Taken, Given, ConsoleStep, GetcStep, DeltaQueue.Tick, DeltaQueue.Insert, Ownership.Grab,
      Semaphores.Wait, Semaphores.Signal;
    QueueRuns.StepQueues(s, e, f, s');
    EnterOk(s, e, f);
    var s0 := Enter(s, e, f);
    if e.Console? {
      ConsoleBytes(s0, e.bytes);
      SameBytes(s, s0, e);
    } else if e.Getc? {
      GetcBytes(s0);
      SameBytes(s, s0, e);
    } else {
      NoBytes(s, e);
    }
  }

  lemma SameBytes(s: State, s0: State, e: Trap)
    requires s0.rx == s.rx && s0.q == s.q
    ensures Taken(s0, e) == Taken(s, e) && Given(s0, e) == Given(s, e) && (e.Getc? ==> s.rx + Taken(s, e) == s.rx)
  {
  }

  lemma NoBytes(s: State, e: Trap)
    requires !e.Console? && !e.Getc?
    ensures s.rx + Taken(s, e) == s.rx && Given(s, e) + s.rx == s.rx
  {
  }

  /* ---- who gets which byte ---- */

  /** Where the result of thread t's call is delivered. */
  function CellOf(s: State, t: nat): nat
    requires t in s.threads
  {
    s.threads[t].frame.sp
  }

  lemma ServeCells(s: State)
    requires Core(s, Some(s.current)) && s.q.input != [] && s.rx != []
    ensures Refs(s) && s.q.input[0] in s.threads
    ensures var s1 := Unblock(s, ThreadQueues.Input, s.rx[0]).(rx := s.rx[1..]);
            && Core(s1, Some(s1.current)) && Refs(s1) && Serve(s) == Serve(s1)
            && s1.q.input == s.q.input[1..] && s1.a0 == s.a0[CellOf(s, s.q.input[0]) := s.rx[0]]
            && s1.threads.Keys == s.threads.Keys && forall t :: t in s.threads ==> CellOf(s1, t) == CellOf(s, t)
  {
    hide Core;
    Basics(s);
    UnblockCore(s, ThreadQueues.Input, s.rx[0]);
    UnblockRest(s, ThreadQueues.Input, s.rx[0]);
    ServeOneOk(s, Unblock(s, ThreadQueues.Input, s.rx[0]).(rx := s.rx[1..]));
  }

  /** The i-th reader in line gets the i-th byte, unless a later one has its result at the same
      place; and no other result is touched. */
  lemma {:induction false} ServeDelivers(s: State, i: nat)
    requires Core(s, Some(s.current)) && i < |s.rx| && i < |s.q.input|
    ensures Refs(s)
    ensures (forall j :: i < j < |s.q.input| ==> CellOf(s, s.q.input[j]) != CellOf(s, s.q.input[i])) ==>
              CellOf(s, s.q.input[i]) in Serve(s).a0 && Serve(s).a0[CellOf(s, s.q.input[i])] == s.rx[i]
    decreases i
  {
    hide Core, Unblock, Refs;
    Basics(s);
    ServeCells(s);
    var s1 := Unblock(s, ThreadQueues.Input, s.rx[0]).(rx := s.rx[1..]);
    InputKnown(s);
    if i > 0 {
      ServeDelivers(s1, i - 1);
    } else {
      if forall j :: 0 < j < |s.q.input| ==> CellOf(s, s.q.input[j]) != CellOf(s, s.q.input[0]) {
        ServeElsewhere(s1, CellOf(s, s.q.input[0]));
      }
    }
  }

  lemma InputKnown(s: State)
    requires Refs(s)
    ensures forall i :: 0 <= i < |s.q.input| ==> s.q.input[i] in s.threads
  {
  }

  lemma {:induction false} ServeElsewhere(s: State, p: nat)
    requires Core(s, Some(s.current)) && Refs(s) && p in s.a0
    requires forall t :: t in s.q.input && t in s.threads ==> CellOf(s, t) != p
    ensures p in Serve(s).a0 && Serve(s).a0[p] == s.a0[p]
    decreases |s.q.input|
  {
    hide Core, Unblock, Refs;
    if s.q.input != [] && s.rx != [] {
      ServeCells(s);
      ServeElsewhere(Unblock(s, ThreadQueues.Input, s.rx[0]).(rx := s.rx[1..]), p);
    }
  }

  /** A byte that is there already is delivered where the caller's registers were saved when it
      last left the processor: the caller gets it exactly if that is where they are now, or if it
      holds that byte anyway. */
  lemma GetcDelivers(s: State)
    requires Refs(s) && s.rx != []
    ensures var a0' := GetcStep(s).a0;
            (s.csr.sp in a0' && a0'[s.csr.sp] == s.rx[0])
            <==> CellOf(s, s.current) == s.csr.sp || (s.csr.sp in s.a0 && s.a0[s.csr.sp] == s.rx[0])
  {
  }

  function AllTaken(st: seq<State>, evs: seq<(Trap, Frame)>): seq<int>
    requires |st| == |evs| + 1
  {
    if evs == [] then [] else Taken(st[0], evs[0].0) + AllTaken(st[1..], evs[1..])
  }

  function AllGiven(st: seq<State>, evs: seq<(Trap, Frame)>): seq<int>
    requires |st| == |evs| + 1
  {
    if evs == [] then [] else Given(st[0], evs[0].0) + AllGiven(st[1..], evs[1..])
  }

  /** In every run the bytes taken from the device are, in order, those delivered to readers
      followed by those in the buffer; the buffer never overflows; and nobody waits for input
      while there is any. */
  lemma {:induction false} BytesInOrder(st: seq<State>, evs: seq<(Trap, Frame)>)
    requires Executions.IsRun(st, evs)
    ensures st[0].rx + AllTaken(st, evs) == AllGiven(st, evs) + st[|evs|].rx
    ensures |st[|evs|].rx| <= RX_SIZE && (st[|evs|].q.input != [] ==> st[|evs|].rx == [])
    decreases |evs|
  {
    hide Inv, Refs, Enabled, Step, Taken, Given, Core, Modes, DeltaQueue.Waiting;
    if evs == [] {
      InvParts(st[0]);
      assert st[0].rx + [] == [] + st[0].rx;
    } else {
      StepBytes(st[0], evs[0].0, evs[0].1, st[1]);
      Executions.RunTail(st, evs);
      BytesInOrder(st[1..], evs[1..]);
      Chain(st[0].rx, Taken(st[0], evs[0].0), Given(st[0], evs[0].0), st[1].rx,
            AllTaken(st[1..], evs[1..]), AllGiven(st[1..], evs[1..]), st[|evs|].rx);
    }
  }

  lemma Chain(rx: seq<int>, taken: seq<int>, given: seq<int>, mid: seq<int>, rest: seq<int>, more: seq<int>,
              end: seq<int>)
    requires rx + taken == given + mid && mid + rest == more + end
    ensures rx + (taken + rest) == (given + more) + end
  {
    assert rx + (taken + rest) == (rx + taken) + rest;
    assert (given + mid) + rest == given + (mid + rest);
    assert given + (more + end) == (given + more) + end;
  }
}
