/** The bounded buffer of `test/buffer.cpp`, shared by any number of threads: every load, every
    store and every semaphore call is a step of its own, and steps of different threads mix
    freely. */
module BufferProtocol {
  import opened Options
  import Sequences
  import Division
  import opened Semaphores

  datatype Name = Space | Item | Head | Tail

  /** Where a thread is in `put`, `get` or `getCnt`: the step it takes next. */
  datatype Pc =
    | PutSpace | PutTail | PutLoad | PutWrite | PutLoadNext | PutStore | PutUnlock | PutItem
    | GetItem | GetHead | GetLoad | GetRead | GetLoadNext | GetStore | GetUnlock | GetSpace
    | CntHead | CntTail | CntLoadTail | CntCompare | CntFirst | CntSecond | CntUnlockTail | CntUnlockHead

  /** A thread inside an operation: its argument, a register, the result, and what `getCnt` found
      on comparing the indices. */
  datatype Local = Local(pc: Pc, blocked: bool, val: int, reg: nat, ret: int, ge: bool)

  /** `written` and `got` are history: what was stored into the array, and what was read from it. */
  datatype Buffer = Buffer(
    capacity: nat, slots: seq<int>, head: nat, tail: nat,
    space: Sem, item: Sem, mutexHead: Sem, mutexTail: Sem,
    threads: map<nat, Local>,
    written: seq<int>, got: seq<int>)

  function SemOf(s: Buffer, n: Name): Sem {
    match n
    case Space => s.space
    case Item => s.item
    case Head => s.mutexHead
    case Tail => s.mutexTail
  }

  function SetSem(s: Buffer, n: Name, x: Sem): Buffer {
    match n
    case Space => s.(space := x)
    case Item => s.(item := x)
    case Head => s.(mutexHead := x)
    case Tail => s.(mutexTail := x)
  }

  /** The semaphore waited on at a step. */
  function WaitsOn(pc: Pc): Option<Name> {
    match pc
    case PutSpace => Some(Space)
    case PutTail => Some(Tail)
    case GetItem => Some(Item)
    case GetHead => Some(Head)
    case CntHead => Some(Head)
    case CntTail => Some(Tail)
    case _ => None
  }

  /** The semaphore signalled at a step. */
  function SignalsOn(pc: Pc): Option<Name> {
    match pc
    case PutUnlock => Some(Tail)
    case PutItem => Some(Item)
    case GetUnlock => Some(Head)
    case GetSpace => Some(Space)
    case CntUnlockTail => Some(Tail)
    case CntUnlockHead => Some(Head)
    case _ => None
  }

  /** The step after; the last step of an operation has none. */
  function Then(pc: Pc): Option<Pc> {
    match pc
    case PutSpace => Some(PutTail)
    case PutTail => Some(PutLoad)
    case PutLoad => Some(PutWrite)
    case PutWrite => Some(PutLoadNext)
    case PutLoadNext => Some(PutStore)
    case PutStore => Some(PutUnlock)
    case PutUnlock => Some(PutItem)
    case PutItem => None
    case GetItem => Some(GetHead)
    case GetHead => Some(GetLoad)
    case GetLoad => Some(GetRead)
    case GetRead => Some(GetLoadNext)
    case GetLoadNext => Some(GetStore)
    case GetStore => Some(GetUnlock)
    case GetUnlock => Some(GetSpace)
    case GetSpace => None
    case CntHead => Some(CntTail)
    case CntTail => Some(CntLoadTail)
    case CntLoadTail => Some(CntCompare)
    case CntCompare => Some(CntFirst)
    case CntFirst => Some(CntSecond)
    case CntSecond => Some(CntUnlockTail)
    case CntUnlockTail => Some(CntUnlockHead)
    case CntUnlockHead => None
  }

  /** `Buffer::Buffer(capacity)` on memory with any contents. */
  function New(capacity: nat, memory: seq<int>): Buffer {
    Buffer(capacity, memory, 0, 0, Open(capacity), Open(0), Open(1), Open(1), map[], [], [])
  }

  datatype Call = Put(val: int) | Get | Count

  function Enter(c: Call): Local {
    match c
    case Put(v) => Local(PutSpace, false, v, 0, 0, false)
    case Get => Local(GetItem, false, 0, 0, 0, false)
    case Count => Local(CntHead, false, 0, 0, 0, false)
  }

  /** A thread calls an operation. */
  function Begin(s: Buffer, t: nat, c: Call): Buffer { s.(threads := s.threads[t := Enter(c)]) }

  function Advance(ts: map<nat, Local>, t: nat): map<nat, Local>
    requires t in ts
  {
    match Then(ts[t].pc)
    case Some(pc) => ts[t := ts[t].(pc := pc, blocked := false)]
    case None => ts - {t}
  }

  function WaitStep(s: Buffer, t: nat): Buffer
    requires t in s.threads && WaitsOn(s.threads[t].pc).Some?
  {
    var n := WaitsOn(s.threads[t].pc).value;
    var (x, blocked) := Wait(SemOf(s, n), t);
    var s1 := SetSem(s, n, x);
    if blocked then s1.(threads := s.threads[t := s.threads[t].(blocked := true)])
    else s1.(threads := Advance(s.threads, t))
  }

  /** A released thread goes on behind its wait. */
  function SignalStep(s: Buffer, t: nat): Buffer
    requires t in s.threads && SignalsOn(s.threads[t].pc).Some?
  {
    var n := SignalsOn(s.threads[t].pc).value;
    var (x, released, _) := Signal(SemOf(s, n));
    var ts := Advance(s.threads, t);
    SetSem(s, n, x).(threads := if released.Some? && released.value in ts then Advance(ts, released.value) else ts)
  }

  /** Loads and stores. */
  function LocalStep(s: Buffer, t: nat): Buffer
    requires t in s.threads && s.head < |s.slots| && s.tail < |s.slots| && s.threads[t].reg < |s.slots|
  {
    var l := s.threads[t];
    var s1 := s.(threads := Advance(s.threads, t));
    var l1 := if Then(l.pc).Some? then l.(pc := Then(l.pc).value, blocked := false) else l;
    match l.pc
    case PutLoad => s1.(threads := s.threads[t := l1.(reg := s.tail)])
    case PutWrite => s1.(slots := s.slots[l.reg := l.val], written := s.written + [l.val])
    case PutLoadNext => s1.(threads := s.threads[t := l1.(reg := s.tail)])
    case PutStore => s1.(tail := (l.reg + 1) % |s.slots|)
    case GetLoad => s1.(threads := s.threads[t := l1.(reg := s.head)])
    case GetRead => s1.(threads := s.threads[t := l1.(ret := s.slots[l.reg])], got := s.got + [s.slots[l.reg]])
    case GetLoadNext => s1.(threads := s.threads[t := l1.(reg := s.head)])
    case GetStore => s1.(head := (l.reg + 1) % |s.slots|)
    case CntLoadTail => s1.(threads := s.threads[t := l1.(reg := s.tail)])
    case CntCompare => s1.(threads := s.threads[t := l1.(ge := l.reg >= s.head)])
    case CntFirst => s1.(threads := s.threads[t := l1.(reg := if l.ge then s.tail else s.head)])
    case CntSecond =>
      s1.(threads := s.threads[t := l1.(ret := if l.ge then l.reg - s.head else |s.slots| - l.reg + s.tail)])
    case _ => s
  }

  /** The next step of thread t, which is in an operation and not blocked. */
  function Run(s: Buffer, t: nat): Buffer
    requires t in s.threads && s.head < |s.slots| && s.tail < |s.slots| && s.threads[t].reg < |s.slots|
  {
    var pc := s.threads[t].pc;
    if WaitsOn(pc).Some? then WaitStep(s, t)
    else if SignalsOn(pc).Some? then SignalStep(s, t)
    else LocalStep(s, t)
  }

  /* ---- counting threads ---- */

  /** What a thread at a step holds, or has still to do. */
  datatype Role = Token(n: Name) | Written | Unread | Storing | Advancing

  predicate Plays(r: Role, pc: Pc) {
    match r
    case Token(Space) => pc in {PutTail, PutLoad, PutWrite, PutLoadNext, PutStore, PutUnlock, PutItem}
    case Token(Item) => pc in {GetHead, GetLoad, GetRead, GetLoadNext, GetStore, GetUnlock, GetSpace}
    case Token(Tail) =>
      pc in {PutLoad, PutWrite, PutLoadNext, PutStore, PutUnlock,
             CntLoadTail, CntCompare, CntFirst, CntSecond, CntUnlockTail}
    case Token(Head) =>
      pc in {GetLoad, GetRead, GetLoadNext, GetStore, GetUnlock,
             CntTail, CntLoadTail, CntCompare, CntFirst, CntSecond, CntUnlockTail, CntUnlockHead}
    case Written => pc in {PutLoadNext, PutStore, PutUnlock, PutItem}
    case Unread => pc in {GetHead, GetLoad, GetRead}
    case Storing => pc in {PutLoadNext, PutStore}
    case Advancing => pc in {GetLoadNext, GetStore}
  }

  function Having(ts: map<nat, Local>, r: Role): set<nat> { set t | t in ts && Plays(r, ts[t].pc) }

  function Num(ts: map<nat, Local>, r: Role): nat { |Having(ts, r)| }

  function One(b: bool): nat { if b then 1 else 0 }

  lemma MoveSet(ts: map<nat, Local>, t: nat, l: Local, r: Role)
    ensures t in Having(ts, r) <==> t in ts && Plays(r, ts[t].pc)
    ensures Having(ts[t := l], r) == if Plays(r, l.pc) then Having(ts, r) - {t} + {t} else Having(ts, r) - {t}
  {
    hide Plays;
    var ts' := ts[t := l];
    forall u | u != t ensures u in Having(ts', r) <==> u in Having(ts, r) {}
  }

  lemma WithoutSize(a: set<nat>, t: nat)
    ensures |a - {t}| + One(t in a) == |a| && |a - {t} + {t}| == |a - {t}| + 1
  {
    if t in a { assert a == a - {t} + {t}; } else { assert a == a - {t}; }
  }

  lemma MoveNum(ts: map<nat, Local>, t: nat, l: Local, r: Role)
    ensures Num(ts[t := l], r) + One(t in ts && Plays(r, ts[t].pc)) == Num(ts, r) + One(Plays(r, l.pc))
  {
    hide Plays, Having;
    MoveSet(ts, t, l, r);
    WithoutSize(Having(ts, r), t);
  }

  lemma LeaveNum(ts: map<nat, Local>, t: nat, r: Role)
    requires t in ts
    ensures Num(ts - {t}, r) + One(Plays(r, ts[t].pc)) == Num(ts, r)
  {
    hide Plays;
    assert Having(ts - {t}, r) == Having(ts, r) - {t};
  }

  /** Two threads cannot both play a role that only one may play. */
  lemma OnlyOne(ts: map<nat, Local>, r: Role, t: nat, u: nat)
    requires Num(ts, r) <= 1 && t in Having(ts, r) && u in Having(ts, r)
    ensures t == u
  {
    if t != u { assert {t, u} <= Having(ts, r); Sequences.SubsetSize({t, u}, Having(ts, r)); }
  }

  function Gain(pc: Option<Pc>, r: Role): nat { One(pc.Some? && Plays(r, pc.value)) }

  /** A thread moving on changes the counts by what its two steps play. */
  lemma AdvanceNums(ts: map<nat, Local>, t: nat)
    requires t in ts
    ensures forall r :: Num(Advance(ts, t), r) + One(Plays(r, ts[t].pc)) == Num(ts, r) + Gain(Then(ts[t].pc), r)
  {
    hide Plays, Num, Then;
    forall r ensures Num(Advance(ts, t), r) + One(Plays(r, ts[t].pc)) == Num(ts, r) + Gain(Then(ts[t].pc), r) {
      match Then(ts[t].pc) {
        case Some(pc) => MoveNum(ts, t, ts[t].(pc := pc, blocked := false), r);
        case None => LeaveNum(ts, t, r);
      }
    }
  }

  /** Only the step matters to the counts. */
  lemma SameNums(ts: map<nat, Local>, t: nat, l: Local)
    requires t in ts && l.pc == ts[t].pc
    ensures forall r :: Num(ts[t := l], r) == Num(ts, r)
  {
    hide Plays, Num;
    forall r ensures Num(ts[t := l], r) == Num(ts, r) { MoveNum(ts, t, l, r); }
  }

  /* ---- the invariant ---- */

  /** The free units of a semaphore. */
  function Avail(x: Sem): nat { if x.val > 0 then x.val else 0 }

  /** Each semaphore counts, and its line is the threads blocked at its waits. */
  ghost predicate Line(s: Buffer, n: Name) {
    && Counts(SemOf(s, n)) && Sequences.Distinct(SemOf(s, n).queue)
    && forall t ::
         t in SemOf(s, n).queue <==> t in s.threads && s.threads[t].blocked && WaitsOn(s.threads[t].pc) == Some(n)
  }

  ghost predicate Lines(s: Buffer) {
    && |s.threads| <= MAX32
    && (forall n :: Line(s, n))
    && forall t :: t in s.threads && s.threads[t].blocked ==> WaitsOn(s.threads[t].pc).Some?
  }

  /** Units of space and items are neither made nor lost, and each mutex is free or held once. */
  ghost predicate Tokens(s: Buffer) {
    && s.capacity < MAX32
    && Avail(s.space) + Num(s.threads, Token(Space)) + Avail(s.item) + Num(s.threads, Token(Item)) == s.capacity
    && Avail(s.mutexTail) + Num(s.threads, Token(Tail)) == 1
    && Avail(s.mutexHead) + Num(s.threads, Token(Head)) == 1
  }

  /** What was written and not read is on offer, about to be offered, or claimed. */
  ghost predicate Stock(s: Buffer) {
    |s.written| == |s.got| + Avail(s.item) + Num(s.threads, Written) + Num(s.threads, Unread)
  }

  /** The indices count the writes and reads, but for one that is under way. */
  ghost predicate Indices(s: Buffer) {
    && |s.slots| == s.capacity + 1
    && IndexAt(|s.written|, Num(s.threads, Storing), |s.slots|, s.tail)
    && IndexAt(|s.got|, Num(s.threads, Advancing), |s.slots|, s.head)
  }

  /** The place of the count-th entry, or of the one before while its index is not stored yet. */
  ghost predicate IndexAt(count: nat, open: nat, n: nat, index: nat) {
    n > 0 && open <= count && index == (count - open) % n
  }

  /** What a thread has in its register. */
  ghost predicate RegOk(s: Buffer, l: Local) {
    && l.reg < |s.slots|
    && (l.pc in {PutWrite, PutStore, CntCompare} ==> l.reg == s.tail)
    && (l.pc in {GetRead, GetStore} ==> l.reg == s.head)
    && (l.pc in {CntFirst, CntSecond} ==> (l.ge <==> s.tail >= s.head))
    && (l.pc == CntSecond ==> l.reg == if l.ge then s.tail else s.head)
  }

  ghost predicate Regs(s: Buffer) { forall t :: t in s.threads ==> RegOk(s, s.threads[t]) }

  /** What was read is what was written first, and the rest is in its slots. */
  ghost predicate Stored(slots: seq<int>, written: seq<int>, got: seq<int>) {
    && |slots| > 0 && |got| <= |written| && got == written[..|got|]
    && forall j :: |got| <= j < |written| ==> slots[j % |slots|] == written[j]
  }

  ghost predicate Content(s: Buffer) { Stored(s.slots, s.written, s.got) }

  ghost predicate Inv(s: Buffer) {
    Lines(s) && Tokens(s) && Stock(s) && Indices(s) && Regs(s) && Content(s)
  }

  lemma NewOk(capacity: nat, memory: seq<int>)
    requires capacity < MAX32 && |memory| == capacity + 1
    ensures Inv(New(capacity, memory))
  {
    var s := New(capacity, memory);
    forall r ensures Num(s.threads, r) == 0 { assert Having(s.threads, r) == {}; }
    OpenCounts(capacity);
    OpenCounts(0);
    OpenCounts(1);
  }

  lemma BeginOk(s: Buffer, t: nat, c: Call)
    requires Inv(s) && t !in s.threads && |s.threads| < MAX32
    ensures Inv(Begin(s, t, c))
  {
    hide Num, Line, Plays;
    var s' := Begin(s, t, c);
    BeginNums(s.threads, t, c);
    BeginSize(s.threads, t, c);
    forall n ensures Line(s', n) { BeginLine(s, t, c, n); }
  }

  lemma BeginNums(ts: map<nat, Local>, t: nat, c: Call)
    requires t !in ts
    ensures forall r :: Num(ts[t := Enter(c)], r) == Num(ts, r)
  {
    hide Num;
    forall r ensures Num(ts[t := Enter(c)], r) == Num(ts, r) { MoveNum(ts, t, Enter(c), r); }
  }

  lemma BeginSize(ts: map<nat, Local>, t: nat, c: Call)
    requires t !in ts
    ensures |ts[t := Enter(c)]| == |ts| + 1
  {
    assert ts[t := Enter(c)].Keys == ts.Keys + {t} && |ts| == |ts.Keys|
      && |ts[t := Enter(c)]| == |ts[t := Enter(c)].Keys|;
  }

  lemma BeginLine(s: Buffer, t: nat, c: Call, n: Name)
    requires Line(s, n) && t !in s.threads
    ensures Line(Begin(s, t, c), n)
  {
    assert SemOf(Begin(s, t, c), n) == SemOf(s, n);
  }

  /* ---- waiting ---- */

  lemma AdvanceSize(ts: map<nat, Local>, t: nat)
    requires t in ts
    ensures |Advance(ts, t)| <= |ts|
  {
    var ts' := Advance(ts, t);
    assert |ts'| == |ts'.Keys| && |ts| == |ts.Keys|;
    Sequences.SubsetSize(ts'.Keys, ts.Keys);
  }

  /** The state behind a wait: the token taken, or the thread in line. */
  lemma WaitLines(s: Buffer, t: nat)
    requires Lines(s) && t in s.threads && !s.threads[t].blocked && WaitsOn(s.threads[t].pc).Some?
    ensures Lines(WaitStep(s, t))
  {
    hide Line, Then;
    var n, s' := WaitsOn(s.threads[t].pc).value, WaitStep(s, t);
    forall m ensures Line(s', m) { if m == n { WaitLine(s, t); } else { OtherLine(s, t, m); } }
    WaitSize(s, t);
    WaitBlocked(s, t);
  }

  lemma WaitSize(s: Buffer, t: nat)
    requires t in s.threads && WaitsOn(s.threads[t].pc).Some?
    ensures |WaitStep(s, t).threads| <= |s.threads|
  {
    hide Then, WaitsOn;
    var ts' := WaitStep(s, t).threads;
    AdvanceSize(s.threads, t);
    assert s.threads[t := s.threads[t].(blocked := true)].Keys == s.threads.Keys;
    assert |ts'| == |ts'.Keys| && |s.threads| == |s.threads.Keys|;
  }

  lemma WaitBlocked(s: Buffer, t: nat)
    requires t in s.threads && WaitsOn(s.threads[t].pc).Some?
    requires forall u :: u in s.threads && s.threads[u].blocked ==> WaitsOn(s.threads[u].pc).Some?
    ensures var s' := WaitStep(s, t); forall u :: u in s'.threads && s'.threads[u].blocked ==>
              WaitsOn(s'.threads[u].pc).Some?
  {
    hide Then;
  }

  lemma WaitLine(s: Buffer, t: nat)
    requires t in s.threads && !s.threads[t].blocked && WaitsOn(s.threads[t].pc).Some? && |s.threads| <= MAX32
    requires Line(s, WaitsOn(s.threads[t].pc).value)
    ensures Line(WaitStep(s, t), WaitsOn(s.threads[t].pc).value)
  {
    var n := WaitsOn(s.threads[t].pc).value;
    var x := SemOf(s, n);
    LineFits(s, n);
    WaitCounts(x, t);
    assert SemOf(WaitStep(s, t), n) == Wait(x, t).0;
  }

  lemma LineFits(s: Buffer, n: Name)
    requires Line(s, n) && |s.threads| <= MAX32
    ensures |SemOf(s, n).queue| <= MAX32
  {
    Sequences.DistinctSize(SemOf(s, n).queue, s.threads.Keys);
    assert |s.threads| == |s.threads.Keys|;
  }

  lemma OtherLine(s: Buffer, t: nat, m: Name)
    requires t in s.threads && !s.threads[t].blocked && WaitsOn(s.threads[t].pc).Some?
             && WaitsOn(s.threads[t].pc).value != m
    requires Line(s, m)
    ensures Line(WaitStep(s, t), m)
  {
    assert SemOf(WaitStep(s, t), m) == SemOf(s, m);
  }

  lemma WaitAvail(x: Sem, t: nat)
    requires Counts(x) && |x.queue| <= MAX32
    ensures Avail(x) == Avail(Wait(x, t).0) + One(!Wait(x, t).1)
  {
    WaitCounts(x, t);
  }

  /** What a wait changes besides the line: nothing, or one token taken. */
  lemma WaitNums(s: Buffer, t: nat)
    requires t in s.threads && WaitsOn(s.threads[t].pc).Some?
    ensures var (n, s') := (WaitsOn(s.threads[t].pc).value, WaitStep(s, t));
            var went := !Wait(SemOf(s, n), t).1;
            forall r :: Num(s'.threads, r)
                     == Num(s.threads, r) + if went then One(r == Token(n)) + One(n == Item && r == Unread) else 0
  {
    hide Num;
    AdvanceNums(s.threads, t);
    SameNums(s.threads, t, s.threads[t].(blocked := true));
  }

  lemma WaitTokens(s: Buffer, t: nat)
    requires Lines(s) && Tokens(s) && Stock(s) && t in s.threads && WaitsOn(s.threads[t].pc).Some?
    ensures Tokens(WaitStep(s, t)) && Stock(WaitStep(s, t))
  {
    hide Num, Plays, Advance, Wait;
    var n := WaitsOn(s.threads[t].pc).value;
    assert Line(s, n);
    LineFits(s, n);
    WaitAvail(SemOf(s, n), t);
    WaitNums(s, t);
  }

  lemma WaitRest(s: Buffer, t: nat)
    requires Indices(s) && Regs(s) && Content(s) && t in s.threads && WaitsOn(s.threads[t].pc).Some?
    ensures var s' := WaitStep(s, t); Indices(s') && Regs(s') && Content(s')
  {
    hide Num, Plays, Wait;
    WaitNums(s, t);
  }

  lemma WaitOk(s: Buffer, t: nat)
    requires Inv(s) && t in s.threads && !s.threads[t].blocked && WaitsOn(s.threads[t].pc).Some?
    ensures Inv(WaitStep(s, t))
  {
    hide Lines, Tokens, Stock, Indices, Regs, Content;
    WaitLines(s, t);
    WaitTokens(s, t);
    WaitRest(s, t);
  }

  /* ---- signalling ---- */

  lemma SignalAvail(x: Sem)
    requires Counts(x) && x.val < MAX32
    ensures Avail(Signal(x).0) == Avail(x) + One(Signal(x).1.None?)
    ensures Signal(x).1.Some? ==> x.queue != [] && Signal(x).1.value == x.queue[0] && Signal(x).0.queue == x.queue[1..]
    ensures Signal(x).1.None? ==> Signal(x).0.queue == x.queue && x.queue == []
    ensures Counts(Signal(x).0)
  {
    SignalCounts(x);
  }

  /** The counters stay in range: no semaphore holds more than there are units of. */
  lemma TokensFit(s: Buffer, n: Name)
    requires Tokens(s)
    ensures Avail(SemOf(s, n)) <= s.capacity + 1
    ensures Num(s.threads, Token(n)) >= 1 ==> SemOf(s, n).val < MAX32
    ensures n == Item && Num(s.threads, Token(Space)) >= 1 ==> SemOf(s, n).val < MAX32
    ensures n == Space && Num(s.threads, Token(Item)) >= 1 ==> SemOf(s, n).val < MAX32
  {
  }

  lemma PlayerCounts(ts: map<nat, Local>, t: nat, r: Role)
    requires t in ts && Plays(r, ts[t].pc)
    ensures Num(ts, r) >= 1
  {
    Sequences.SubsetSize({t}, Having(ts, r));
  }

  /** The thread a signal releases, if any, is blocked at a wait on the same semaphore. */
  lemma Released(s: Buffer, t: nat)
    requires Lines(s) && Tokens(s) && t in s.threads && !s.threads[t].blocked && SignalsOn(s.threads[t].pc).Some?
    ensures var n := SignalsOn(s.threads[t].pc).value; var x := SemOf(s, n);
            && Counts(x) && x.val < MAX32
            && (Signal(x).1.Some? ==>
                  var u := Signal(x).1.value;
                  && x.queue != [] && u == x.queue[0] && u != t
                  && u in s.threads && s.threads[u].blocked && WaitsOn(s.threads[u].pc) == Some(n)
                  && u in Advance(s.threads, t) && Advance(s.threads, t)[u] == s.threads[u])
  {
    hide Num;
    var n := SignalsOn(s.threads[t].pc).value;
    assert Line(s, n);
    if n == Item { PlayerCounts(s.threads, t, Token(Space)); }
    else if n == Space { PlayerCounts(s.threads, t, Token(Item)); }
    else { PlayerCounts(s.threads, t, Token(n)); }
    TokensFit(s, n);
    SignalAvail(SemOf(s, n));
    if Signal(SemOf(s, n)).1.Some? { assert SemOf(s, n).queue[0] in SemOf(s, n).queue; }
  }

  lemma SignalNums(s: Buffer, t: nat)
    requires t in s.threads && SignalsOn(s.threads[t].pc).Some?
    requires var n := SignalsOn(s.threads[t].pc).value; var r := Signal(SemOf(s, n)).1;
             r.Some? ==> r.value in Advance(s.threads, t) && WaitsOn(Advance(s.threads, t)[r.value].pc) == Some(n)
    ensures var (n, pc, s') := (SignalsOn(s.threads[t].pc).value, s.threads[t].pc, SignalStep(s, t));
            var woke := Signal(SemOf(s, n)).1.Some?;
            forall r :: Num(s'.threads, r) + One(Plays(r, pc))
                     == Num(s.threads, r) + Gain(Then(pc), r) + if woke
                       then One(r == Token(n)) + One(n == Item && r == Unread) else 0
  {
    hide Num, Signal;
    var n := SignalsOn(s.threads[t].pc).value;
    var ts, released := Advance(s.threads, t), Signal(SemOf(s, n)).1;
    AdvanceNums(s.threads, t);
    if released.Some? {
      AdvanceNums(ts, released.value);
      WaitGain(ts[released.value].pc, n);
    }
  }

  /** What passing a wait gives. */
  lemma WaitGain(pc: Pc, n: Name)
    requires WaitsOn(pc) == Some(n)
    ensures forall r :: Gain(Then(pc), r) == One(Plays(r, pc)) + One(r == Token(n)) + One(n == Item && r == Unread)
  {
  }

  lemma SignalTokens(s: Buffer, t: nat)
    requires Lines(s) && Tokens(s) && t in s.threads && !s.threads[t].blocked && SignalsOn(s.threads[t].pc).Some?
    ensures Tokens(SignalStep(s, t))
  {
    hide Num, Advance, Signal, Lines, Counts, WaitsOn;
    Released(s, t);
    SignalAvail(SemOf(s, SignalsOn(s.threads[t].pc).value));
    SignalNums(s, t);
  }

  lemma SignalStock(s: Buffer, t: nat)
    requires Lines(s) && Tokens(s) && Stock(s) && t in s.threads && !s.threads[t].blocked
             && SignalsOn(s.threads[t].pc).Some?
    ensures Stock(SignalStep(s, t))
  {
    hide Num, Advance, Signal, Lines, Counts, WaitsOn, Tokens;
    Released(s, t);
    SignalAvail(SemOf(s, SignalsOn(s.threads[t].pc).value));
    SignalNums(s, t);
  }

  /** Passing a wait or a signal asks nothing new of the register. */
  lemma AdvanceRegs(s: Buffer, ts: map<nat, Local>, t: nat)
    requires t in ts && (WaitsOn(ts[t].pc).Some? || SignalsOn(ts[t].pc).Some?)
    requires forall u :: u in ts ==> RegOk(s, ts[u])
    ensures forall u :: u in Advance(ts, t) ==> RegOk(s, Advance(ts, t)[u])
  {
  }

  lemma SignalRegs(s: Buffer, t: nat)
    requires t in s.threads && SignalsOn(s.threads[t].pc).Some?
    requires var n := SignalsOn(s.threads[t].pc).value; var r := Signal(SemOf(s, n)).1;
             r.Some? ==> r.value in Advance(s.threads, t) && WaitsOn(Advance(s.threads, t)[r.value].pc) == Some(n)
    requires Regs(s)
    ensures Regs(SignalStep(s, t))
  {
    hide Advance, Signal, RegOk;
    var ts, released := Advance(s.threads, t), Signal(SemOf(s, SignalsOn(s.threads[t].pc).value)).1;
    AdvanceRegs(s, s.threads, t);
    if released.Some? { AdvanceRegs(s, ts, released.value); }
    var s' := SignalStep(s, t);
    forall u | u in s'.threads ensures RegOk(s', s'.threads[u]) { SameRegs(s, s', s'.threads[u]); }
  }

  lemma SameRegs(s: Buffer, s': Buffer, l: Local)
    requires RegOk(s, l) && s'.slots == s.slots && s'.head == s.head && s'.tail == s.tail
    ensures RegOk(s', l)
  {
  }

  lemma SignalRest(s: Buffer, t: nat)
    requires Lines(s) && Tokens(s) && t in s.threads && !s.threads[t].blocked && SignalsOn(s.threads[t].pc).Some?
    requires Indices(s) && Regs(s) && Content(s)
    ensures var s' := SignalStep(s, t); Indices(s') && Regs(s') && Content(s')
  {
    hide Num, Signal, Lines, Tokens, Regs, Advance;
    Released(s, t);
    SignalRegs(s, t);
    SignalNums(s, t);
  }

  lemma SignalLines(s: Buffer, t: nat)
    requires Lines(s) && Tokens(s) && t in s.threads && !s.threads[t].blocked && SignalsOn(s.threads[t].pc).Some?
    ensures Lines(SignalStep(s, t))
  {
    hide Line, Tokens, Then, Signal, Advance;
    var n, s' := SignalsOn(s.threads[t].pc).value, SignalStep(s, t);
    Released(s, t);
    forall m ensures Line(s', m) { SignalLine(s, t, m); }
    var ts, released := Advance(s.threads, t), Signal(SemOf(s, n)).1;
    AdvanceSize(s.threads, t);
    AdvanceBlocked(s.threads, t);
    if released.Some? {
      AdvanceSize(ts, released.value);
      AdvanceBlocked(ts, released.value);
    }
  }

  lemma AdvanceBlocked(ts: map<nat, Local>, t: nat)
    requires t in ts && forall u :: u in ts && ts[u].blocked ==> WaitsOn(ts[u].pc).Some?
    ensures forall u :: u in Advance(ts, t) && Advance(ts, t)[u].blocked ==> WaitsOn(Advance(ts, t)[u].pc).Some?
  {
  }

  /** Who is where after a signal. */
  lemma SignalThreads(s: Buffer, t: nat, v: nat)
    requires t in s.threads && SignalsOn(s.threads[t].pc).Some?
    requires var n := SignalsOn(s.threads[t].pc).value; var r := Signal(SemOf(s, n)).1;
             r.Some? ==> r.value in Advance(s.threads, t) && WaitsOn(Advance(s.threads, t)[r.value].pc) == Some(n)
    ensures var n := SignalsOn(s.threads[t].pc).value; var r := Signal(SemOf(s, n)).1;
            var ts' := SignalStep(s, t).threads;
            if v == t || r == Some(v) then v in ts' ==> !ts'[v].blocked
            else (v in ts' <==> v in s.threads) && (v in ts' ==> ts'[v] == s.threads[v])
  {
    hide Signal;
  }

  lemma SignalLine(s: Buffer, t: nat, m: Name)
    requires Lines(s) && Tokens(s) && t in s.threads && !s.threads[t].blocked && SignalsOn(s.threads[t].pc).Some?
    ensures Line(SignalStep(s, t), m)
  {
    hide Tokens, Lines, Counts, Then, Advance, Signal, WaitsOn, SignalsOn;
    Released(s, t);
    LinesHold(s, m);
    var n, s' := SignalsOn(s.threads[t].pc).value, SignalStep(s, t);
    SignalAvail(SemOf(s, n));
    var released, q' := Signal(SemOf(s, n)).1, SemOf(s', m).queue;
    SemAfter(s, t, m);
    if m == n && released.Some? { FirstGone(SemOf(s, n).queue); }
    forall v ensures v in q' <==> v in s'.threads && s'.threads[v].blocked && WaitsOn(s'.threads[v].pc) == Some(m) {
      SignalThreads(s, t, v);
    }
  }

  lemma SemAfter(s: Buffer, t: nat, m: Name)
    requires t in s.threads && SignalsOn(s.threads[t].pc).Some?
    ensures var n := SignalsOn(s.threads[t].pc).value;
            SemOf(SignalStep(s, t), m) == if m == n then Signal(SemOf(s, n)).0 else SemOf(s, m)
  {
    hide Signal, Advance, SignalsOn;
  }

  lemma LinesHold(s: Buffer, n: Name)
    requires Lines(s)
    ensures Line(s, n)
  {
  }

  lemma FirstGone(q: seq<nat>)
    requires Sequences.Distinct(q) && q != []
    ensures Sequences.Distinct(q[1..]) && forall t :: t in q[1..] <==> t in q && t != q[0]
  {
    assert q == [q[0]] + q[1..];
    assert forall i :: 0 < i < |q| ==> q[i] != q[0];
  }

  lemma SignalOk(s: Buffer, t: nat)
    requires Inv(s) && t in s.threads && !s.threads[t].blocked && SignalsOn(s.threads[t].pc).Some?
    ensures Inv(SignalStep(s, t))
  {
    hide Lines, Tokens, Stock, Indices, Regs, Content;
    SignalLines(s, t);
    SignalTokens(s, t);
    SignalStock(s, t);
    SignalRest(s, t);
  }

  /* ---- loads and stores ---- */

  lemma ModNext(a: nat, n: nat)
    requires n > 0
    ensures (a + 1) % n == (a % n + 1) % n
  {
    var q, r := a / n, a % n;
    if r + 1 == n {
      assert n * (q + 1) == n * q + n;
      Division.DivModIs(a + 1, n, q + 1, 0);
      Division.DivModIs(n, n, 1, 0);
    } else {
      Division.DivModIs(a + 1, n, q, r + 1);
      Division.DivModIs(r + 1, n, 0, r + 1);
    }
  }

  lemma ModAdd(q: nat, a: nat, d: nat, n: nat)
    requires a < n && d < n
    ensures (n * q + a + d) % n == if a + d < n then a + d else a + d - n
  {
    if a + d < n {
      Division.DivModIs(n * q + a + d, n, q, a + d);
    } else {
      assert n * (q + 1) == n * q + n;
      Division.DivModIs(n * q + a + d, n, q + 1, a + d - n);
    }
  }

  /** Fewer than n apart, two numbers differ modulo n by as much as they differ. */
  lemma ModGap(r: nat, w: nat, n: nat)
    requires r <= w && w - r < n
    ensures w - r == if w % n >= r % n then w % n - r % n else n - r % n + w % n
  {
    var q, a := r / n, r % n;
    assert n * q + a == r && a < n;
    ModAdd(q, a, w - r, n);
  }

  predicate IsLocal(pc: Pc) { WaitsOn(pc).None? && SignalsOn(pc).None? }

  /** A load or store moves its thread one step on. */
  lemma LocalMoves(s: Buffer, t: nat)
    requires t in s.threads && s.head < |s.slots| && s.tail < |s.slots| && s.threads[t].reg < |s.slots|
    requires IsLocal(s.threads[t].pc)
    ensures Then(s.threads[t].pc).Some?
    ensures var s' := LocalStep(s, t);
            && t in s'.threads && s'.threads == s.threads[t := s'.threads[t]]
            && s'.threads[t].pc == Then(s.threads[t].pc).value && !s'.threads[t].blocked
            && s' == s.(slots := s'.slots, head := s'.head, tail := s'.tail, threads := s'.threads,
               written := s'.written, got := s'.got)
  {
  }

  lemma LocalNums(s: Buffer, t: nat)
    requires t in s.threads && s.head < |s.slots| && s.tail < |s.slots| && s.threads[t].reg < |s.slots|
    requires IsLocal(s.threads[t].pc)
    ensures var (pc, ts') := (s.threads[t].pc, LocalStep(s, t).threads);
            && (forall n :: Num(ts', Token(n)) == Num(s.threads, Token(n)))
            && Num(ts', Written) == Num(s.threads, Written) + One(pc == PutWrite)
            && Num(ts', Unread) + One(pc == GetRead) == Num(s.threads, Unread)
            && Num(ts', Storing) + One(pc == PutStore) == Num(s.threads, Storing) + One(pc == PutWrite)
            && Num(ts', Advancing) + One(pc == GetStore) == Num(s.threads, Advancing) + One(pc == GetRead)
  {
    hide Num, LocalStep;
    LocalMoves(s, t);
    var l' := LocalStep(s, t).threads[t];
    forall n ensures Num(s.threads[t := l'], Token(n)) == Num(s.threads, Token(n)) {
      MoveNum(s.threads, t, l', Token(n));
    }
    MoveNum(s.threads, t, l', Written);
    MoveNum(s.threads, t, l', Unread);
    MoveNum(s.threads, t, l', Storing);
    MoveNum(s.threads, t, l', Advancing);
  }

  lemma LocalLines(s: Buffer, t: nat)
    requires Lines(s) && t in s.threads && s.head < |s.slots| && s.tail < |s.slots| && s.threads[t].reg < |s.slots|
    requires IsLocal(s.threads[t].pc)
    ensures Lines(LocalStep(s, t))
  {
    hide LocalStep, Then, Counts;
    LocalMoves(s, t);
    var s' := LocalStep(s, t);
    assert s'.threads.Keys == s.threads.Keys && |s'.threads| == |s'.threads.Keys| && |s.threads| == |s.threads.Keys|;
    forall n ensures Line(s', n) { assert Line(s, n); assert SemOf(s', n) == SemOf(s, n); }
  }

  /** What each load and store does to the shared memory and to the history. */
  lemma LocalShared(s: Buffer, t: nat)
    requires t in s.threads && s.head < |s.slots| && s.tail < |s.slots| && s.threads[t].reg < |s.slots|
    requires IsLocal(s.threads[t].pc)
    ensures var (l, s') := (s.threads[t], LocalStep(s, t));
            && s'.slots == (if l.pc == PutWrite then s.slots[l.reg := l.val] else s.slots)
            && s'.written == (if l.pc == PutWrite then s.written + [l.val] else s.written)
            && s'.tail == (if l.pc == PutStore then (l.reg + 1) % |s.slots| else s.tail)
            && s'.got == (if l.pc == GetRead then s.got + [s.slots[l.reg]] else s.got)
            && s'.head == (if l.pc == GetStore then (l.reg + 1) % |s.slots| else s.head)
  {
  }

  lemma LocalTokens(s: Buffer, t: nat)
    requires Tokens(s) && Stock(s) && t in s.threads && s.head < |s.slots| && s.tail < |s.slots|
             && s.threads[t].reg < |s.slots|
    requires IsLocal(s.threads[t].pc)
    ensures Tokens(LocalStep(s, t)) && Stock(LocalStep(s, t))
  {
    hide LocalStep, Num, Then;
    LocalMoves(s, t);
    LocalShared(s, t);
    LocalNums(s, t);
  }

  /** An index moves on when its store is done, and not when it is begun. */
  lemma NextIndex(count: nat, open: nat, n: nat, index: nat)
    requires IndexAt(count, open, n, index)
    ensures index < n && IndexAt(count + 1, open + 1, n, index)
    ensures open >= 1 ==> IndexAt(count, open - 1, n, (index + 1) % n)
  {
    ModNext(count - open, n);
  }

  lemma LocalTail(s: Buffer, t: nat)
    requires t in s.threads && IsLocal(s.threads[t].pc) && RegOk(s, s.threads[t]) && s.head < |s.slots|
    requires IndexAt(|s.written|, Num(s.threads, Storing), |s.slots|, s.tail) && s.tail < |s.slots|
    ensures var s' := LocalStep(s, t); IndexAt(|s'.written|, Num(s'.threads, Storing), |s.slots|, s'.tail)
  {
    hide LocalStep, Num, Then, IndexAt, IsLocal;
    NextIndex(|s.written|, Num(s.threads, Storing), |s.slots|, s.tail);
    LocalShared(s, t);
    LocalNums(s, t);
  }

  lemma LocalHead(s: Buffer, t: nat)
    requires t in s.threads && IsLocal(s.threads[t].pc) && RegOk(s, s.threads[t]) && s.tail < |s.slots|
    requires IndexAt(|s.got|, Num(s.threads, Advancing), |s.slots|, s.head) && s.head < |s.slots|
    ensures var s' := LocalStep(s, t); IndexAt(|s'.got|, Num(s'.threads, Advancing), |s.slots|, s'.head)
  {
    hide LocalStep, Num, Then, IndexAt, IsLocal;
    NextIndex(|s.got|, Num(s.threads, Advancing), |s.slots|, s.head);
    LocalShared(s, t);
    LocalNums(s, t);
  }

  lemma LocalIndices(s: Buffer, t: nat)
    requires Indices(s) && Regs(s) && t in s.threads && IsLocal(s.threads[t].pc)
    ensures Indices(LocalStep(s, t))
  {
    assert s.head < |s.slots| && s.tail < |s.slots| && RegOk(s, s.threads[t]);
    hide LocalStep, Num, Then, IndexAt, IsLocal, RegOk;
    LocalShared(s, t);
    LocalMoves(s, t);
    LocalTail(s, t);
    LocalHead(s, t);
  }

  /** Whoever relies on an index holds its mutex. */
  lemma Alone(s: Buffer, t: nat, u: nat, n: Name)
    requires Tokens(s) && (n == Head || n == Tail) && t in s.threads && u in s.threads
    requires Plays(Token(n), s.threads[t].pc) && Plays(Token(n), s.threads[u].pc)
    ensures t == u
  {
    hide Num, Plays;
    assert Num(s.threads, Token(n)) <= 1;
    OnlyOne(s.threads, Token(n), t, u);
  }

  lemma LocalRegs(s: Buffer, t: nat)
    requires Tokens(s) && Indices(s) && Regs(s) && t in s.threads && IsLocal(s.threads[t].pc)
    ensures Regs(LocalStep(s, t))
  {
    hide LocalStep, Num, Then, Tokens;
    assert s.head < |s.slots| && s.tail < |s.slots| && RegOk(s, s.threads[t]);
    LocalMoves(s, t);
    LocalShared(s, t);
    var s' := LocalStep(s, t);
    forall u | u in s'.threads ensures RegOk(s', s'.threads[u]) {
      assert RegOk(s, s.threads[u]);
      if u == t { LocalReg(s, t); }
      else if s.threads[t].pc == PutStore && Plays(Token(Tail), s.threads[u].pc) { Alone(s, t, u, Tail); }
      else if s.threads[t].pc == GetStore && Plays(Token(Head), s.threads[u].pc) { Alone(s, t, u, Head); }
    }
  }

  lemma LocalReg(s: Buffer, t: nat)
    requires t in s.threads && IsLocal(s.threads[t].pc) && RegOk(s, s.threads[t])
    requires s.head < |s.slots| && s.tail < |s.slots|
    ensures t in LocalStep(s, t).threads && RegOk(LocalStep(s, t), LocalStep(s, t).threads[t])
  {
  }

  /** While t holds a mutex and is not storing, nobody is. */
  lemma NoneStoring(s: Buffer, t: nat, n: Name, r: Role)
    requires Tokens(s) && t in s.threads && Plays(Token(n), s.threads[t].pc) && !Plays(r, s.threads[t].pc)
    requires (n == Tail && r == Storing) || (n == Head && r == Advancing)
    ensures Num(s.threads, r) == 0
  {
    if Having(s.threads, r) != {} {
      var u :| u in Having(s.threads, r);
      Alone(s, t, u, n);
    }
  }

  /** The buffer never holds more than its capacity, and a writer finds it not full. */
  lemma Room(s: Buffer)
    requires Tokens(s) && Stock(s)
    ensures |s.got| <= |s.written| <= |s.got| + s.capacity
    ensures forall t :: t in s.threads && s.threads[t].pc == PutWrite ==> |s.written| < |s.got| + s.capacity
    ensures forall t :: t in s.threads && s.threads[t].pc == GetRead ==> |s.got| < |s.written|
  {
    RoleWithin(s.threads, Written, Token(Space), {});
    RoleWithin(s.threads, Unread, Token(Item), {});
    forall t | t in s.threads && s.threads[t].pc == PutWrite ensures |s.written| < |s.got| + s.capacity {
      RoleWithin(s.threads, Written, Token(Space), {t});
    }
    forall t | t in s.threads && s.threads[t].pc == GetRead ensures |s.got| < |s.written| {
      PlayerCounts(s.threads, t, Unread);
    }
  }

  lemma RoleWithin(ts: map<nat, Local>, r: Role, r': Role, others: set<nat>)
    requires forall pc :: Plays(r, pc) ==> Plays(r', pc)
    requires others <= Having(ts, r') && others !! Having(ts, r)
    ensures Num(ts, r) + |others| <= Num(ts, r')
  {
    hide Plays;
    Sequences.SubsetSize(Having(ts, r) + others, Having(ts, r'));
  }

  lemma WriteStored(slots: seq<int>, written: seq<int>, got: seq<int>, v: int)
    requires Stored(slots, written, got) && |written| < |got| + |slots|
    ensures Stored(slots[|written| % |slots| := v], written + [v], got)
  {
    var w := |written|;
    forall j | |got| <= j < w ensures j % |slots| != w % |slots| { ModGap(j, w, |slots|); }
  }

  lemma ReadStored(slots: seq<int>, written: seq<int>, got: seq<int>)
    requires Stored(slots, written, got) && |got| < |written|
    ensures slots[|got| % |slots|] == written[|got|] && Stored(slots, written, got + [slots[|got| % |slots|]])
  {
    assert written[..|got| + 1] == written[..|got|] + [written[|got|]];
  }

  lemma LocalContent(s: Buffer, t: nat)
    requires Inv(s) && t in s.threads && IsLocal(s.threads[t].pc)
    ensures Content(LocalStep(s, t))
  {
    hide LocalStep, Num, Then, Tokens, Stock, Lines, Stored, IsLocal;
    assert RegOk(s, s.threads[t]);
    LocalShared(s, t);
    Room(s);
    if s.threads[t].pc == PutWrite {
      NoneStoring(s, t, Tail, Storing);
      WriteStored(s.slots, s.written, s.got, s.threads[t].val);
    } else if s.threads[t].pc == GetRead {
      NoneStoring(s, t, Head, Advancing);
      ReadStored(s.slots, s.written, s.got);
    }
  }

  lemma LocalOk(s: Buffer, t: nat)
    requires Inv(s) && t in s.threads && IsLocal(s.threads[t].pc)
    ensures s.head < |s.slots| && s.tail < |s.slots| && s.threads[t].reg < |s.slots| && Inv(LocalStep(s, t))
  {
    hide LocalStep, Lines, Tokens, Stock, Content, IsLocal;
    assert RegOk(s, s.threads[t]);
    hide Indices, Regs;
    LocalLines(s, t);
    LocalTokens(s, t);
    LocalIndices(s, t);
    LocalRegs(s, t);
    LocalContent(s, t);
  }

  /* ---- whole runs ---- */

  datatype Act = Begins(t: nat, c: Call) | Runs(t: nat)

  /** Threads outside call operations, up to as many as a 32-bit counter can count; threads inside
      take their steps unless blocked. */
  ghost predicate CanAct(s: Buffer, a: Act) {
    match a
    case Begins(t, _) => t !in s.threads && |s.threads| < MAX32
    case Runs(t) => t in s.threads && !s.threads[t].blocked
  }

  /** All memory accesses of the step stay inside the array. */
  predicate InBounds(s: Buffer, a: Act) {
    a.Runs? && a.t in s.threads ==> s.head < |s.slots| && s.tail < |s.slots| && s.threads[a.t].reg < |s.slots|
  }

  ghost function Next(s: Buffer, a: Act): Buffer
    requires CanAct(s, a) && InBounds(s, a)
  {
    match a
    case Begins(t, c) => Begin(s, t, c)
    case Runs(t) => Run(s, t)
  }

  lemma StaysInBounds(s: Buffer, a: Act)
    requires Inv(s)
    ensures InBounds(s, a)
  {
    if a.Runs? && a.t in s.threads { assert RegOk(s, s.threads[a.t]); }
  }

  /** Every step keeps the invariant. */
  lemma NextOk(s: Buffer, a: Act)
    requires Inv(s) && CanAct(s, a)
    ensures InBounds(s, a) && Inv(Next(s, a))
  {
    hide Lines, Tokens, Stock, Indices, Regs, Content;
    StaysInBounds(s, a);
    match a {
      case Begins(t, c) => BeginOk(s, t, c);
      case Runs(t) =>
        if WaitsOn(s.threads[t].pc).Some? { WaitOk(s, t); }
        else if SignalsOn(s.threads[t].pc).Some? { SignalOk(s, t); }
        else { LocalOk(s, t); }
    }
  }

  /** A run of the buffer from its construction: any threads, any operations, any interleaving. */
  ghost predicate IsRun(st: seq<Buffer>, acts: seq<Act>, capacity: nat, memory: seq<int>) {
    && |st| == |acts| + 1 && st[0] == New(capacity, memory)
    && forall i :: 0 <= i < |acts| ==>
         CanAct(st[i], acts[i]) && InBounds(st[i], acts[i]) && st[i + 1] == Next(st[i], acts[i])
  }

  lemma {:induction false} RunSafe(st: seq<Buffer>, acts: seq<Act>, capacity: nat, memory: seq<int>, i: nat)
    requires IsRun(st, acts, capacity, memory) && i < |st|
    requires capacity < MAX32 && |memory| == capacity + 1
    ensures Inv(st[i]) && st[i].capacity == capacity
    ensures forall a :: InBounds(st[i], a)
  {
    hide Inv, Next, CanAct, InBounds;
    if i == 0 {
      NewOk(capacity, memory);
    } else {
      RunSafe(st, acts, capacity, memory, i - 1);
      NextOk(st[i - 1], acts[i - 1]);
      SameCapacity(st[i - 1], acts[i - 1]);
    }
    forall a ensures InBounds(st[i], a) { StaysInBounds(st[i], a); }
  }

  lemma SameCapacity(s: Buffer, a: Act)
    requires CanAct(s, a) && InBounds(s, a)
    ensures Next(s, a).capacity == s.capacity
  {
    hide Wait, Signal, Advance;
  }

  /** First in, first out: whatever the threads and the interleaving, the k-th value read is the
      k-th value written, the unread ones never outnumber the capacity, and none of them has been
      overwritten. */
  lemma Fifo(st: seq<Buffer>, acts: seq<Act>, capacity: nat, memory: seq<int>, i: nat)
    requires IsRun(st, acts, capacity, memory) && i < |st|
    requires capacity < MAX32 && |memory| == capacity + 1
    ensures var s := st[i];
            && |s.slots| == capacity + 1 && |s.got| <= |s.written| <= |s.got| + capacity
            && (forall k :: 0 <= k < |s.got| ==> s.got[k] == s.written[k])
            && (forall k :: |s.got| <= k < |s.written| ==> s.slots[k % (capacity + 1)] == s.written[k])
  {
    hide IsRun;
    RunSafe(st, acts, capacity, memory, i);
    Room(st[i]);
  }

  /** The thread that reads gets the oldest unread value, and the thread that writes adds its
      argument as the newest. */
  lemma ReadsAndWrites(s: Buffer, t: nat)
    requires Inv(s) && t in s.threads && !s.threads[t].blocked && InBounds(s, Runs(t))
    ensures s.threads[t].pc == GetRead ==>
              && |s.got| < |s.written| && t in Run(s, t).threads && Run(s, t).threads[t].ret == s.written[|s.got|]
              && Run(s, t).got == s.got + [s.written[|s.got|]]
    ensures s.threads[t].pc == PutWrite ==> Run(s, t).written == s.written + [s.threads[t].val]
    ensures s.threads[t].pc != GetRead ==> Run(s, t).got == s.got
    ensures s.threads[t].pc != PutWrite ==> Run(s, t).written == s.written
  {
    hide Num, Lines, Tokens, Stock, WaitStep, SignalStep, Advance, Stored, IsLocal;
    CallsKeepHistory(s, t);
    if s.threads[t].pc == GetRead {
      Room(s);
      NoneStoring(s, t, Head, Advancing);
      assert RegOk(s, s.threads[t]);
      ReadStored(s.slots, s.written, s.got);
    }
  }

  lemma CallsKeepHistory(s: Buffer, t: nat)
    requires t in s.threads
    ensures WaitsOn(s.threads[t].pc).Some? ==> WaitStep(s, t).got == s.got && WaitStep(s, t).written == s.written
    ensures SignalsOn(s.threads[t].pc).Some? ==> SignalStep(s, t).got == s.got && SignalStep(s, t).written == s.written
  {
    hide Wait, Signal, Advance;
  }

  /** `getCnt` returns exactly how many values are written and not read. */
  lemma CountExact(s: Buffer, t: nat)
    requires Inv(s) && t in s.threads && !s.threads[t].blocked && InBounds(s, Runs(t)) && s.threads[t].pc == CntSecond
    ensures t in Run(s, t).threads && Run(s, t).threads[t].ret == |s.written| - |s.got|
  {
    hide Num, Lines;
    Room(s);
    NoneStoring(s, t, Tail, Storing);
    NoneStoring(s, t, Head, Advancing);
    assert RegOk(s, s.threads[t]);
    ModGap(|s.got|, |s.written|, |s.slots|);
  }

  /** The mutexes never deadlock: when every thread inside is blocked, all of them wait to put into
      a full buffer or to get from an empty one. */
  lemma NoDeadlock(s: Buffer)
    requires Inv(s) && forall t :: t in s.threads ==> s.threads[t].blocked
    ensures forall t :: t in s.threads ==> s.threads[t].pc in {PutSpace, GetItem}
    ensures forall t :: t in s.threads && s.threads[t].pc == PutSpace ==> |s.written| == |s.got| + s.capacity
    ensures forall t :: t in s.threads && s.threads[t].pc == GetItem ==> |s.written| == |s.got|
  {
    hide Num, Regs, Content, Indices;
    forall t | t in s.threads ensures s.threads[t].pc in {PutSpace, GetItem} {
      AllAtWaits(s, t);
    }
    NobodyPlays(s, Token(Space));
    NobodyPlays(s, Token(Item));
    NobodyPlays(s, Written);
    NobodyPlays(s, Unread);
    forall t | t in s.threads ensures SemOf(s, WaitsOn(s.threads[t].pc).value).val < 0 {
      InLine(s, t);
    }
  }

  lemma NobodyPlays(s: Buffer, r: Role)
    requires forall t :: t in s.threads ==> !Plays(r, s.threads[t].pc)
    ensures Num(s.threads, r) == 0
  {
    assert Having(s.threads, r) == {};
  }

  /** A blocked thread is in line, so there is nothing to be had. */
  lemma InLine(s: Buffer, t: nat)
    requires Lines(s) && t in s.threads && s.threads[t].blocked
    ensures WaitsOn(s.threads[t].pc).Some? && SemOf(s, WaitsOn(s.threads[t].pc).value).val < 0
  {
    var n := WaitsOn(s.threads[t].pc).value;
    assert Line(s, n);
    assert t in SemOf(s, n).queue;
  }

  lemma AllAtWaits(s: Buffer, t: nat)
    requires Lines(s) && Tokens(s) && (forall u :: u in s.threads ==> s.threads[u].blocked) && t in s.threads
    ensures s.threads[t].pc in {PutSpace, GetItem}
  {
    hide Num, Line;
    forall u | u in s.threads
      ensures WaitsOn(s.threads[u].pc).Some? && SemOf(s, WaitsOn(s.threads[u].pc).value).val < 0
    {
      InLine(s, u);
    }
    NobodyPlays(s, Token(Tail));
    NobodyPlays(s, Token(Head));
  }
}
