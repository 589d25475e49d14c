/** A counting semaphore as a value: the 32-bit counter of `src/semaphore.c` and the threads
    in its wait ring, first in line first. */
module Semaphores {
  import opened Options
  import opened Words

  const MAX32: int := 0x7fff_ffff

  datatype Sem = Sem(val: int, queue: seq<nat>)

  const SEM_SIGNAL_NO_THREADS: int := -1

  /** A result as it lands in an `i32`. */
  function Wrap32(x: int): (y: int)
    ensures -MAX32 - 1 <= y <= MAX32
    ensures -MAX32 - 1 <= x <= MAX32 ==> y == x
  {
    (x + MAX32 + 1) % TWO32 - MAX32 - 1
  }

  /** `__sem_open`: the unsigned initial value is stored in a signed counter. */
  function Open(init: nat): Sem { Sem(Wrap32(init), []) }

  /** `__sem_wait` by thread t; true if t blocks. */
  function Wait(s: Sem, t: nat): (Sem, bool) {
    var v := Wrap32(s.val - 1);
    if v < 0 then (Sem(v, s.queue + [t]), true) else (Sem(v, s.queue), false)
  }

  /** `__sem_signal`: the released thread, if any, and the call's result. */
  function Signal(s: Sem): (Sem, Option<nat>, int) {
    var v := Wrap32(s.val + 1);
    if v > 0 then (Sem(v, s.queue), None, 0)
    else if s.queue == [] then (Sem(v, s.queue), None, SEM_SIGNAL_NO_THREADS)
    else (Sem(v, s.queue[1..]), Some(s.queue[0]), 0)
  }

  /** The negative part of the counter is the number of threads in line. */
  ghost predicate Counts(s: Sem) {
    && -MAX32 - 1 <= s.val <= MAX32
    && |s.queue| == if s.val < 0 then -s.val else 0
  }

  /** An initial value over 2^31 - 1 opens a semaphore that owes threads it does not have;
      its signals then fail, as does one on a counter at 2^31 - 1. */
  lemma OpenCounts(init: nat)
    requires init < TWO32
    ensures Counts(Open(init)) <==> init <= MAX32
    ensures Signal(Open(init)).2 == SEM_SIGNAL_NO_THREADS <==> init >= MAX32
  {
    if init > MAX32 { assert Wrap32(init) == init - TWO32; }
  }

  lemma WaitCounts(s: Sem, t: nat)
    requires Counts(s) && |s.queue| <= MAX32
    ensures Counts(Wait(s, t).0) && Wait(s, t).0.val == s.val - 1
    ensures Wait(s, t).1 <==> s.val <= 0
  {
  }

  lemma SignalCounts(s: Sem)
    requires Counts(s) && s.val < MAX32
    ensures Counts(Signal(s).0) && Signal(s).0.val == s.val + 1
    ensures Signal(s).1.Some? <==> s.queue != []
    ensures Signal(s).2 == 0
  {
  }

  /* ---- histories of one semaphore ---- */

  datatype Op = WaitBy(t: nat) | Release

  function Do(s: Sem, op: Op): Sem {
    match op
    case WaitBy(t) => Wait(s, t).0
    case Release => Signal(s).0
  }

  function After(s: Sem, ops: seq<Op>): Sem {
    if ops == [] then s else Do(After(s, ops[..|ops| - 1]), ops[|ops| - 1])
  }

  function Waits(ops: seq<Op>): nat {
    if ops == [] then 0
    else Waits(ops[..|ops| - 1]) + (if ops[|ops| - 1].WaitBy? then 1 else 0)
  }

  function Signals(ops: seq<Op>): nat {
    if ops == [] then 0
    else Signals(ops[..|ops| - 1]) + (if ops[|ops| - 1].Release? then 1 else 0)
  }

  /** Waits let through so far. */
  function Completed(s: Sem, ops: seq<Op>): int { Waits(ops) - |After(s, ops).queue| }

  /** At no point does the account leave the range of the counter. */
  ghost predicate InRange(init: int, ops: seq<Op>)
    decreases |ops|
  {
    && -MAX32 - 1 <= init + Signals(ops) - Waits(ops) <= MAX32
    && (ops != [] ==> InRange(init, ops[..|ops| - 1]))
  }

  /** The counter accounts for every call: it is the initial value plus signals minus waits,
      the line is its negative part, no more waits complete than the initial value and the
      signals pay for, and no signal finds a negative counter without a thread in line. */
  lemma {:induction false} Accounting(init: nat, ops: seq<Op>)
    requires InRange(init, ops)
    ensures var s := After(Open(init), ops);
            && Counts(s) && s.val == init + Signals(ops) - Waits(ops)
            && Completed(Open(init), ops) <= init + Signals(ops)
            && (s.val > 0 ==> Completed(Open(init), ops) == Waits(ops))
            && (s.val <= 0 ==> Completed(Open(init), ops) == init + Signals(ops))
            && (s.val < MAX32 ==> Signal(s).2 == 0)
    decreases |ops|
  {
    if ops != [] {
      Accounting(init, ops[..|ops| - 1]);
    }
  }

  /** Waiters are released first come, first served: whoever is at place k of the line stays in
      it, one place further on for each signal, until the signal after the next k releases it. */
  lemma {:induction false} ReleasedInTurn(s: Sem, ops: seq<Op>, k: nat)
    requires Counts(s) && k < |s.queue| && Signals(ops) <= k && |s.queue| + Waits(ops) <= MAX32
    ensures var s' := After(s, ops);
            && Counts(s') && |s'.queue| == |s.queue| + Waits(ops) - Signals(ops)
            && k - Signals(ops) < |s'.queue| && s'.queue[k - Signals(ops)] == s.queue[k]
            && (Signals(ops) == k ==> Signal(s').1 == Some(s.queue[k]))
  {
    if ops != [] {
      ReleasedInTurn(s, ops[..|ops| - 1], k);
      var m := After(s, ops[..|ops| - 1]);
      match ops[|ops| - 1] {
        case WaitBy(t) => WaitCounts(m, t);
        case Release => SignalCounts(m);
      }
    }
    SignalCounts(After(s, ops));
  }
}
