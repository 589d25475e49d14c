/** Whole operations on the bounded buffer: what a `put` and a `get` do between the call and the
    return, whatever the other threads do meanwhile. */
module BufferRuns {
  import opened Options
  import Semaphores
  import opened BufferProtocol

  /** How many steps a thread has still to take. */
  function StepsLeft(pc: Pc): nat {
    match pc
    case PutSpace => 8 case PutTail => 7 case PutLoad => 6 case PutWrite => 5
    case PutLoadNext => 4 case PutStore => 3 case PutUnlock => 2 case PutItem => 1
    case GetItem => 8 case GetHead => 7 case GetLoad => 6 case GetRead => 5
    case GetLoadNext => 4 case GetStore => 3 case GetUnlock => 2 case GetSpace => 1
    case CntHead => 8 case CntTail => 7 case CntLoadTail => 6 case CntCompare => 5
    case CntFirst => 4 case CntSecond => 3 case CntUnlockTail => 2 case CntUnlockHead => 1
  }

  /** The operation that a step belongs to. */
  datatype Kind = Putting | Getting | Counting

  function KindOf(pc: Pc): Kind {
    if pc in {PutSpace, PutTail, PutLoad, PutWrite, PutLoadNext, PutStore, PutUnlock, PutItem} then Putting
    else if pc in {GetItem, GetHead, GetLoad, GetRead, GetLoadNext, GetStore, GetUnlock, GetSpace} then Getting
    else Counting
  }

  /** One step further in the same operation. */
  ghost predicate OneFurther(l: Local, l': Local) {
    !l'.blocked && KindOf(l'.pc) == KindOf(l.pc) && StepsLeft(l'.pc) + 1 == StepsLeft(l.pc)
  }

  lemma ThenFurther(pc: Pc)
    ensures Then(pc).None? <==> StepsLeft(pc) == 1
    ensures Then(pc).Some? ==> KindOf(Then(pc).value) == KindOf(pc) && StepsLeft(Then(pc).value) + 1 == StepsLeft(pc)
  {
  }

  /** A step of thread t takes it one step further or, the last one, out of its operation; or it blocks,
      at a semaphore that has nothing for it.  Its argument stays, and its result unless it is there
      that the result is found. */
  lemma OwnStep(s: Buffer, t: nat)
    requires Inv(s) && CanAct(s, Runs(t)) && InBounds(s, Runs(t))
    ensures var (l, s') := (s.threads[t], Run(s, t));
            && (t !in s'.threads <==> StepsLeft(l.pc) == 1)
            && (t in s'.threads ==>
                  && s'.threads[t].val == l.val
                  && (l.pc != GetRead && l.pc != CntSecond ==> s'.threads[t].ret == l.ret)
                  && (OneFurther(l, s'.threads[t])
                      || (s'.threads[t] == l.(blocked := true)
                          && WaitsOn(l.pc).Some? && SemOf(s, WaitsOn(l.pc).value).val <= 0)))
  {
    hide Tokens, Stock, Indices, Regs, Content, StepsLeft, KindOf, Then, Line;
    var l := s.threads[t];
    ThenFurther(l.pc);
    if WaitsOn(l.pc).Some? {
      LinesHold(s, WaitsOn(l.pc).value);
      LineFits(s, WaitsOn(l.pc).value);
      LineCounts(s, WaitsOn(l.pc).value);
      Semaphores.WaitCounts(SemOf(s, WaitsOn(l.pc).value), t);
      LastSignals(l.pc);
    } else if SignalsOn(l.pc).Some? {
      OwnSignal(s, t);
    } else {
      LastSignals(l.pc);
    }
  }

  lemma LineCounts(s: Buffer, n: Name)
    requires Line(s, n)
    ensures Semaphores.Counts(SemOf(s, n))
  {
  }

  /** The last step of every operation is a signal. */
  lemma LastSignals(pc: Pc)
    ensures StepsLeft(pc) == 1 ==> SignalsOn(pc).Some?
  {
  }

  /** A thread that signals does not release itself. */
  lemma OwnSignal(s: Buffer, t: nat)
    requires Inv(s) && CanAct(s, Runs(t)) && SignalsOn(s.threads[t].pc).Some?
    ensures var (l, s') := (s.threads[t], SignalStep(s, t));
            && (t in s'.threads <==> Then(l.pc).Some?)
            && (Then(l.pc).Some? ==> s'.threads[t] == l.(pc := Then(l.pc).value, blocked := false))
  {
    hide Tokens, Stock, Indices, Regs, Content, Then;
    var n := SignalsOn(s.threads[t].pc).value;
    assert Line(s, n);
  }

  /** Another thread's step leaves t where it is, or releases it from the wait it is blocked at. */
  lemma OthersStep(s: Buffer, a: Act, t: nat)
    requires Inv(s) && CanAct(s, a) && InBounds(s, a) && t in s.threads && a.t != t
    ensures var (l, s') := (s.threads[t], Next(s, a));
            && t in s'.threads && s'.threads[t].val == l.val && s'.threads[t].ret == l.ret
            && (s'.threads[t] == l || (l.blocked && WaitsOn(l.pc).Some? && OneFurther(l, s'.threads[t])))
  {
    hide Tokens, Stock, Indices, Regs, Content, StepsLeft, KindOf, Then;
    ThenFurther(s.threads[t].pc);
    LastSignals(s.threads[t].pc);
    match a {
      case Begins(u, c) =>
      case Runs(u) =>
        if SignalsOn(s.threads[u].pc).Some? {
          var n := SignalsOn(s.threads[u].pc).value;
          assert Line(s, n);
          WaitsOnly(s.threads[t].pc);
        }
    }
  }

  lemma WaitsOnly(pc: Pc)
    ensures WaitsOn(pc).Some? ==> SignalsOn(pc).None? && StepsLeft(pc) > 1
  {
  }

  /* ---- operations take effect once ---- */

  /** The step at which an operation does what it is for. */
  function Point(c: Call): Pc {
    match c
    case Put(_) => PutWrite
    case Get => GetRead
    case Count => CntSecond
  }

  /** What that step, from s to s', must do: a `put` adds its argument as the newest value, a `get` returns
      and removes the oldest unread one, `getCnt` returns how many are unread. */
  ghost predicate Effect(c: Call, s: Buffer, s': Buffer, ret: int) {
    match c
    case Put(v) => s'.written == s.written + [v] && s'.got == s.got
    case Get => |s.got| < |s.written| && ret == s.written[|s.got|] && s'.got == s.got + [ret]
      && s'.written == s.written
    case Count => ret == |s.written| - |s.got| && s'.written == s.written && s'.got == s.got
  }

  /** Thread t called c at i and has not returned by j. */
  ghost predicate Inside(st: seq<Buffer>, acts: seq<Act>, t: nat, c: Call, i: nat, j: nat) {
    && i < j <= |acts| && |st| == |acts| + 1 && acts[i] == Begins(t, c)
    && forall k :: i < k <= j ==> t in st[k].threads
  }

  ghost predicate StepsAt(st: seq<Buffer>, acts: seq<Act>, t: nat, pc: Pc, k: nat)
    requires |st| == |acts| + 1
  {
    k < |acts| && acts[k] == Runs(t) && t in st[k].threads && st[k].threads[t].pc == pc
  }

  /** Between i and j thread t takes the step pc at k and at no other time. */
  ghost predicate OnceAt(st: seq<Buffer>, acts: seq<Act>, t: nat, pc: Pc, i: nat, j: nat, k: nat)
    requires |st| == |acts| + 1
  {
    i < k < j && StepsAt(st, acts, t, pc, k) && forall k' :: i < k' < j && StepsAt(st, acts, t, pc, k') ==> k' == k
  }

  ghost predicate NeverAt(st: seq<Buffer>, acts: seq<Act>, t: nat, pc: Pc, i: nat, j: nat)
    requires |st| == |acts| + 1
  {
    forall k :: i < k < j ==> !StepsAt(st, acts, t, pc, k)
  }

  /** A thread at a step of operation c, with its argument. */
  ghost predicate OnItsWay(c: Call, l: Local) { KindOf(l.pc) == KindOf(Point(c)) && (c.Put? ==> l.val == c.val) }

  lemma PointIs(c: Call, l: Local)
    requires OnItsWay(c, l)
    ensures l.pc == Point(c) <==> StepsLeft(l.pc) == StepsLeft(Point(c))
    ensures WaitsOn(l.pc).Some? ==> StepsLeft(l.pc) > StepsLeft(Point(c))
    ensures l.pc == GetRead || l.pc == CntSecond ==> l.pc == Point(c)
  {
  }

  lemma Begun(s: Buffer, t: nat, c: Call)
    ensures t in Begin(s, t, c).threads
    ensures var l := Begin(s, t, c).threads[t]; OnItsWay(c, l) && StepsLeft(l.pc) > StepsLeft(Point(c))
  {
  }

  /** At its point an operation takes effect. */
  lemma PointEffect(s: Buffer, t: nat, c: Call)
    requires Inv(s) && CanAct(s, Runs(t)) && InBounds(s, Runs(t)) && OnItsWay(c, s.threads[t])
    requires s.threads[t].pc == Point(c)
    ensures t in Run(s, t).threads && Effect(c, s, Run(s, t), Run(s, t).threads[t].ret)
  {
    hide Lines, Tokens, Stock, Indices, Regs, Content, StepsLeft;
    ReadsAndWrites(s, t);
    if c.Count? { CountExact(s, t); }
    PointStays(s, t, c);
  }

  lemma PointStays(s: Buffer, t: nat, c: Call)
    requires CanAct(s, Runs(t)) && InBounds(s, Runs(t)) && s.threads[t].pc == Point(c)
    ensures t in Run(s, t).threads
  {
  }

  /** Where an operation stands, on any run. */
  lemma {:induction false} Track(st: seq<Buffer>, acts: seq<Act>, capacity: nat, memory: seq<int>, t: nat, c: Call,
                                 i: nat, j: nat)
      returns (k: nat)
    requires IsRun(st, acts, capacity, memory) && Inside(st, acts, t, c, i, j)
    requires capacity < Semaphores.MAX32 && |memory| == capacity + 1
    ensures OnItsWay(c, st[j].threads[t])
    ensures if StepsLeft(st[j].threads[t].pc) >= StepsLeft(Point(c)) then NeverAt(st, acts, t, Point(c), i, j)
            else OnceAt(st, acts, t, Point(c), i, j, k)
                   && Effect(c, st[k], st[k + 1], st[j].threads[t].ret)
    decreases j
  {
    hide Inv, Next, CanAct, InBounds, Effect, OnItsWay, StepsLeft, Run, OneFurther;
    k := 0;
    if j == i + 1 {
      assert st[j] == Next(st[i], acts[i]);
      BegunNext(st[i], t, c);
    } else {
      var h := j - 1;
      k := Track(st, acts, capacity, memory, t, c, i, h);
      RunSafe(st, acts, capacity, memory, h);
      var l := st[h].threads[t];
      assert st[j] == Next(st[h], acts[h]);
      TrackStep(st[h], acts[h], t, c);
      if StepsAt(st, acts, t, Point(c), h) { k := h; }
    }
  }

  lemma BegunNext(s: Buffer, t: nat, c: Call)
    requires CanAct(s, Begins(t, c)) && InBounds(s, Begins(t, c))
    ensures var s' := Next(s, Begins(t, c));
            && t in s'.threads && OnItsWay(c, s'.threads[t])
            && StepsLeft(s'.threads[t].pc) >= StepsLeft(Point(c))
  {
    Begun(s, t, c);
  }

  /** One step of anyone, seen from an operation under way. */
  lemma TrackStep(s: Buffer, a: Act, t: nat, c: Call)
    requires Inv(s) && CanAct(s, a) && InBounds(s, a) && t in s.threads && OnItsWay(c, s.threads[t])
    requires t in Next(s, a).threads
    ensures var (l, l', p) := (s.threads[t], Next(s, a).threads[t], StepsLeft(Point(c)));
            && OnItsWay(c, l')
            && (if a == Runs(t) && l.pc == Point(c)
                then StepsLeft(l'.pc) < p && Effect(c, s, Next(s, a), l'.ret)
                else (StepsLeft(l.pc) >= p <==> StepsLeft(l'.pc) >= p) && (StepsLeft(l.pc) < p ==> l'.ret == l.ret))
  {
    hide Inv, CanAct, InBounds, Effect, StepsLeft, KindOf, Run, Begin;
    PointIs(c, s.threads[t]);
    if a == Runs(t) {
      RunsIt(s, t);
      OwnStep(s, t);
      if s.threads[t].pc == Point(c) { PointEffect(s, t, c); }
    } else {
      Elsewhere(s, a, t);
      OthersStep(s, a, t);
    }
  }

  lemma RunsIt(s: Buffer, t: nat)
    requires CanAct(s, Runs(t)) && InBounds(s, Runs(t))
    ensures t in s.threads && Next(s, Runs(t)) == Run(s, t)
  {
  }

  lemma Elsewhere(s: Buffer, a: Act, t: nat)
    requires CanAct(s, a) && t in s.threads && a != Runs(t)
    ensures a.t != t
  {
  }

  /** Every operation that returns took effect at exactly one moment between its call and its return,
      and there it did what it is for, on the buffer as it was at that moment. */
  lemma TakesEffectOnce(st: seq<Buffer>, acts: seq<Act>, capacity: nat, memory: seq<int>, t: nat, c: Call, i: nat,
                        j: nat)
    requires IsRun(st, acts, capacity, memory) && capacity < Semaphores.MAX32 && |memory| == capacity + 1
    requires Inside(st, acts, t, c, i, j) && j < |acts| && t !in st[j + 1].threads
    ensures exists k: nat :: OnceAt(st, acts, t, Point(c), i, j + 1, k)
              && Effect(c, st[k], st[k + 1], st[j].threads[t].ret)
  {
    hide Inv, Next, CanAct, InBounds, Effect, Run;
    var k := Track(st, acts, capacity, memory, t, c, i, j);
    RunSafe(st, acts, capacity, memory, j);
    Leaves(st[j], acts[j], t, c);
    assert OnceAt(st, acts, t, Point(c), i, j + 1, k);
  }

  lemma Leaves(s: Buffer, a: Act, t: nat, c: Call)
    requires Inv(s) && CanAct(s, a) && InBounds(s, a) && t in s.threads && OnItsWay(c, s.threads[t])
    requires t !in Next(s, a).threads
    ensures a == Runs(t) && StepsLeft(s.threads[t].pc) < StepsLeft(Point(c)) && s.threads[t].pc != Point(c)
  {
    hide Inv, InBounds, Run, Begin, KindOf;
    if a == Runs(t) {
      OwnStep(s, t);
    } else {
      Elsewhere(s, a, t);
      OthersStep(s, a, t);
    }
  }
}
