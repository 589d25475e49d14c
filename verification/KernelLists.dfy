/** The kernel's lists as they lie in memory: list heads, links and records, and what it means
    that they hold given queues. */
module KernelLists {
  import opened Words
  import opened DeltaQueue
  import Sequences
  import Semaphores
  import opened ThreadQueues
  import opened Rings

  /** `struct __sem_t`, as far as it is read after `__sem_open`. */
  datatype SemRecord = SemRecord(val: int, waiting: nat)

  /** `struct __sleeping_thread_t` of a thread that waits for no semaphore. */
  datatype SleepRecord = SleepRecord(thread: nat, delta: nat)

  /** The list heads and the records they belong to. */
  datatype Heads = Heads(ready: nat, input: nat, sleeping: nat, sems: map<nat, SemRecord>,
                         records: map<nat, SleepRecord>)

  function HeadOf(q: Queues, hs: Heads, r: Ring): nat {
    match r
    case Ready => hs.ready
    case Input => hs.input
    case OnSem(h) => if h in q.sems && h in hs.sems then hs.sems[h].waiting else 0
    case Asleep => hs.sleeping
  }

  ghost predicate Recorded(q: Queues, hs: Heads) {
    && (forall h :: h in q.sems ==> h in hs.sems && hs.sems[h].val == q.sems[h].val)
    && (forall x :: x in q.sleepers ==> x.node in hs.records && hs.records[x.node] == SleepRecord(x.thread, x.delta))
  }

  ghost predicate Linked(q: Queues, next: Links, prev: Links, hs: Heads) {
    forall r :: Circle(next, prev, HeadOf(q, hs, r), RingOf(q, r))
  }

  /** Memory holds the queues q. */
  ghost predicate Holds(q: Queues, next: Links, prev: Links, hs: Heads) {
    RingsOk(q) && 0 !in q.home && Recorded(q, hs) && Linked(q, next, prev, hs)
  }

  lemma HoldsBasics(q: Queues, next: Links, prev: Links, hs: Heads)
    requires Holds(q, next, prev, hs)
    ensures RingsOk(q) && 0 !in q.home && q.sems.Keys <= hs.sems.Keys
    ensures forall h :: h in q.sems ==> hs.sems[h].val == q.sems[h].val
  {
  }

  lemma EmptyHolds(next: Links, prev: Links, hs: Heads)
    requires hs.ready == 0 && hs.input == 0 && hs.sleeping == 0
    ensures Holds(Queues([], [], map[], [], map[]), next, prev, hs)
  {
    var q := Queues([], [], map[], [], map[]);
    forall r ensures RingOk(q, r) && RingOf(q, r) == [] {}
  }

  /** Relinking one ring and nodes in no ring leaves the other rings alone. */
  lemma Relinked(q: Queues, q': Queues, r0: Ring, next: Links, prev: Links, next': Links, prev': Links,
                 hs: Heads, hs': Heads, t: seq<nat>)
    requires RingsOk(q) && Linked(q, next, prev, hs)
    requires SameOutside(next, next', t) && SameOutside(prev, prev', t)
    requires forall n :: n in t ==> n in RingOf(q, r0) || n !in q.home
    requires Circle(next', prev', HeadOf(q', hs', r0), RingOf(q', r0))
    requires forall r :: r != r0 ==> RingOf(q', r) == RingOf(q, r) && HeadOf(q', hs', r) == HeadOf(q, hs, r)
    ensures Linked(q', next', prev', hs')
  {
    assert RingOk(q, r0);
    forall r | r != r0 ensures Circle(next', prev', HeadOf(q', hs', r), RingOf(q', r)) {
      assert RingOk(q, r);
      RingFrame(next, prev, next', prev', HeadOf(q, hs, r), RingOf(q, r), t);
    }
  }

  function WithHead(hs: Heads, r: Ring, head: nat): Heads
    requires r.OnSem? ==> r.sem in hs.sems
  {
    match r
    case Ready => hs.(ready := head)
    case Input => hs.(input := head)
    case OnSem(h) => hs.(sems := hs.sems[h := hs.sems[h].(waiting := head)])
    case Asleep => hs.(sleeping := head)
  }

  /** The records do not tell whether only the lines in front of them changed. */
  lemma RecordsStand(q: Queues, q': Queues, hs: Heads, hs': Heads)
    requires Recorded(q, hs) && q'.sleepers == q.sleepers && hs'.records == hs.records
    requires q'.sems.Keys == q.sems.Keys && forall h :: h in q.sems ==> q'.sems[h].val == q.sems[h].val
    requires hs.sems.Keys <= hs'.sems.Keys && forall h :: h in hs.sems ==> hs'.sems[h].val == hs.sems[h].val
    ensures Recorded(q', hs')
  {
  }

  lemma PushHolds(q: Queues, next: Links, prev: Links, hs: Heads, next': Links, prev': Links, head': nat, r: Ring,
                  n: nat)
    requires Holds(q, next, prev, hs) && n !in q.home && n != 0
    requires r == Ready || r == Input || (r.OnSem? && r.sem in q.sems)
    requires Pushed(next, prev, HeadOf(q, hs, r), n, next', prev', head')
    ensures r.OnSem? ==> r.sem in hs.sems
    ensures Holds(Enqueue(q, r, n), next', prev', WithHead(hs, r, head'))
    ensures forall m :: m in next && m !in q.home && m != n ==> m in next' && next'[m] == next[m]
  {
    hide Circle, SameOutside, RingOk, Pushed;
    var q', s, hs' := Enqueue(q, r, n), RingOf(q, r), WithHead(hs, r, head');
    EnqueueOk(q, r, n);
    assert n !in s by { NotIn(q, r, n); }
    assert RingOf(q', r) == s + [n] && HeadOf(q', hs', r) == head';
    PushCircle(next, prev, HeadOf(q, hs, r), s, n, next', prev', head');
    RecordsStand(q, q', hs, hs');
    Relinked(q, q', r, next, prev, next', prev', hs, hs', s + [n]);
    UnlinkedStand(q, r, next, next', n);
  }

  /** The links of nodes in no ring are not touched. */
  lemma UnlinkedStand(q: Queues, r: Ring, next: Links, next': Links, n: nat)
    requires RingsOk(q) && SameOutside(next, next', RingOf(q, r) + [n])
    ensures forall m :: m in next && m !in q.home && m != n ==> m in next' && next'[m] == next[m]
  {
    assert RingOk(q, r);
  }

  lemma NotIn(q: Queues, r: Ring, n: nat)
    requires RingsOk(q) && n !in q.home
    ensures n !in RingOf(q, r)
  {
    assert RingOk(q, r);
  }

  lemma PopHolds(q: Queues, next: Links, prev: Links, hs: Heads, next': Links, prev': Links, head': nat, r: Ring)
    requires Holds(q, next, prev, hs) && r != Asleep && RingOf(q, r) != []
    requires Popped(next, prev, HeadOf(q, hs, r), next', prev', head')
    ensures r.OnSem? ==> r.sem in hs.sems
    ensures Holds(Dequeue(q, r), next', prev', WithHead(hs, r, head'))
  {
    hide Circle, SameOutside, RingOk, Popped;
    var q', s, hs' := Dequeue(q, r), RingOf(q, r), WithHead(hs, r, head');
    DequeueOk(q, r);
    assert RingOf(q', r) == s[1..] && HeadOf(q', hs', r) == head';
    PopCircle(next, prev, HeadOf(q, hs, r), s, next', prev', head');
    RecordsStand(q, q', hs, hs');
    Relinked(q, q', r, next, prev, next', prev', hs, hs', s);
  }

  lemma WakeHolds(q: Queues, next: Links, prev: Links, hs: Heads, next': Links, prev': Links, head': nat)
    requires Holds(q, next, prev, hs) && q.sleepers != []
    requires Popped(next, prev, hs.sleeping, next', prev', head')
    ensures Holds(WakeFirst(q), next', prev', hs.(sleeping := head'))
  {
    hide Circle, SameOutside, RingOk, Popped;
    var q', s, hs' := WakeFirst(q), Nodes(q.sleepers), hs.(sleeping := head');
    WakeFirstOk(q);
    assert Nodes(q'.sleepers) == s[1..];
    assert RingOf(q, Asleep) == s && HeadOf(q, hs, Asleep) == hs.sleeping;
    PopCircle(next, prev, hs.sleeping, s, next', prev', head');
    Relinked(q, q', Asleep, next, prev, next', prev', hs, hs', s);
  }

  /** A non-empty queue shows in its head, which is its first node. */
  lemma HeadShows(q: Queues, next: Links, prev: Links, hs: Heads, r: Ring)
    requires Holds(q, next, prev, hs)
    ensures HeadOf(q, hs, r) == 0 <==> RingOf(q, r) == []
    ensures RingOf(q, r) != [] ==>
              var n := RingOf(q, r)[0];
              && HeadOf(q, hs, r) == n && n in next && n in prev && next[n] in prev && prev[n] in next
  {
    var s := RingOf(q, r);
    assert Circle(next, prev, HeadOf(q, hs, r), s);
    if s != [] {
      RingAt(next, prev, HeadOf(q, hs, r), s, 0);
      assert s[|s| - 1] in s;
      if |s| > 1 { assert s[1] in s; }
    }
  }

  lemma SetValHolds(q: Queues, next: Links, prev: Links, hs: Heads, h: nat, v: int)
    requires Holds(q, next, prev, hs) && h in q.sems && h in hs.sems
    ensures Holds(SetVal(q, h, v), next, prev, hs.(sems := hs.sems[h := hs.sems[h].(val := v)]))
  {
    hide Circle;
    SetValOk(q, h, v);
    var q', hs' := SetVal(q, h, v), hs.(sems := hs.sems[h := hs.sems[h].(val := v)]);
    forall r ensures HeadOf(q', hs', r) == HeadOf(q, hs, r) && RingOf(q', r) == RingOf(q, r) {}
  }

  /** The first node of a ring is recorded there and is no null pointer. */
  lemma HeadKnown(q: Queues, r: Ring)
    requires RingsOk(q) && 0 !in q.home && RingOf(q, r) != []
    ensures var n := RingOf(q, r)[0]; n != 0 && n in q.home && q.home[n] == r
  {
    HeadIn(q, r);
    assert RingOk(q, r);
  }

  /** Joining a wait ring and choosing the next thread can be done in either order. */
  lemma BlockCommutes(q: Queues, r: Ring, c: nat, idle: nat)
    requires RingsOk(q) && c !in q.home && (r == Input || (r.OnSem? && r.sem in q.sems))
    ensures Chosen(Enqueue(q, r, c), idle) == Chosen(q, idle)
    ensures r.OnSem? ==> r.sem in AfterChoice(q).sems
    ensures c !in AfterChoice(q).home
    ensures AfterChoice(Enqueue(q, r, c)) == Enqueue(AfterChoice(q), r, c)
  {
    if q.ready != [] { HeadIn(q, Ready); }
  }

  lemma HeadIn(q: Queues, r: Ring)
    requires RingsOk(q) && RingOf(q, r) != []
    ensures RingOf(q, r)[0] in q.home
  {
    assert RingOk(q, r);
    assert RingOf(q, r)[0] in RingOf(q, r);
  }

  /** A semaphore just opened has no line. */
  lemma OpenHolds(q: Queues, h: nat, init: nat, next: Links, prev: Links, hs: Heads)
    requires Holds(q, next, prev, hs) && h !in q.sems
    ensures Holds(q.(sems := q.sems[h := Semaphores.Open(init)]), next, prev,
              hs.(sems := hs.sems[h := SemRecord(Semaphores.Open(init).val, 0)]))
  {
    hide Circle;
    var q', hs' := q.(sems := q.sems[h := Semaphores.Open(init)]),
      hs.(sems := hs.sems[h := SemRecord(Semaphores.Open(init).val, 0)]);
    forall r ensures RingOk(q', r) { assert RingOk(q, r); }
    forall r ensures HeadOf(q', hs', r) == HeadOf(q, hs, r) && RingOf(q', r) == RingOf(q, r) {}
  }

  /* ---- a semaphore about to go ---- */

  /** The queues without semaphore h and its line. */
  function Forgotten(q: Queues, h: nat): Queues {
    q.(sems := q.sems - {h}, home := map n | n in q.home && q.home[n] != OnSem(h) :: q.home[n])
  }

  lemma ForgetHolds(q: Queues, h: nat, next: Links, prev: Links, hs: Heads)
    requires Holds(q, next, prev, hs) && h in q.sems
    ensures Holds(Forgotten(q, h), next, prev, hs)
  {
    hide Circle;
    var q' := Forgotten(q, h);
    forall r ensures RingOk(q', r) { assert RingOk(q, r); }
    forall r ensures Circle(next, prev, HeadOf(q', hs, r), RingOf(q', r)) {
      assert Circle(next, prev, HeadOf(q, hs, r), RingOf(q, r));
      if r == OnSem(h) { assert RingOf(q', r) == [] && HeadOf(q', hs, r) == 0; EmptyCircle(next, prev); }
    }
  }

  lemma EmptyCircle(next: Links, prev: Links)
    ensures Circle(next, prev, 0, [])
  {
  }

  /** From place i on, the threads of the line are in no ring any more, and each next-link still
      leads to the next, the last one's to the first. */
  ghost predicate Ahead(line: seq<nat>, i: nat, next: Links, q: Queues) {
    && Sequences.Distinct(line)
    && (forall j :: i <= j < |line| ==> line[j] in next && line[j] !in q.home)
    && (forall j :: i <= j < |line| ==> next[line[j]] == line[if j + 1 < |line| then j + 1 else 0])
  }

  lemma AheadStep(line: seq<nat>, i: nat, next: Links, q: Queues, next': Links)
    requires Ahead(line, i, next, q) && i < |line|
    requires forall m :: m in next && m !in q.home && m != line[i] ==> m in next' && next'[m] == next[m]
    ensures Ahead(line, i + 1, next', Enqueue(q, Ready, line[i]))
    ensures line[i] in next && line[i] !in q.home
    ensures next[line[i]] == line[0] <==> i + 1 == |line|
    ensures i + 1 < |line| ==> next[line[i]] == line[i + 1]
  {
    assert i + 1 < |line| ==> line[i + 1] != line[0];
  }

  lemma LineStands(q: Queues, h: nat, next: Links, prev: Links, hs: Heads)
    requires Holds(q, next, prev, hs) && h in q.sems
    ensures h in hs.sems && (hs.sems[h].waiting == 0 <==> q.sems[h].queue == [])
    ensures q.sems[h].queue != [] ==> hs.sems[h].waiting == q.sems[h].queue[0]
    ensures Ahead(q.sems[h].queue, 0, next, Forgotten(q, h))
  {
    var line := q.sems[h].queue;
    assert RingOf(q, OnSem(h)) == line && RingOk(q, OnSem(h));
    assert Circle(next, prev, HeadOf(q, hs, OnSem(h)), line);
    forall i | 0 <= i < |line|
      ensures line[i] in next && line[i] !in Forgotten(q, h).home
      ensures next[line[i]] == line[if i + 1 < |line| then i + 1 else 0]
    {
      RingAt(next, prev, line[0], line, i);
      assert line[i] in RingOf(q, OnSem(h));
    }
  }

  /** Letting the first of the line go looks the same without the line. */
  lemma ForgetAdmit(q: Queues, h: nat)
    requires RingsOk(q) && h in q.sems && q.sems[h].queue != []
    ensures Forgotten(Admit(q, OnSem(h)), h) == Enqueue(Forgotten(q, h), Ready, q.sems[h].queue[0])
  {
    assert RingOk(q, OnSem(h));
    assert RingOf(q, OnSem(h))[0] in RingOf(q, OnSem(h));
  }

  lemma ForgetEmpty(q: Queues, h: nat)
    requires RingsOk(q) && h in q.sems && q.sems[h].queue == []
    ensures Forgotten(q, h) == q.(sems := q.sems - {h})
  {
    assert RingOk(q, OnSem(h));
    assert forall n :: n in q.home && q.home[n] == OnSem(h) ==> n in RingOf(q, OnSem(h));
  }

  /* ---- the sleep queue ---- */

  /** The records of the sleepers, and nothing but them, may have changed, in a ring relinked to
      hold ns. */
  lemma SleepHolds(q: Queues, q': Queues, next: Links, prev: Links, hs: Heads, next': Links, prev': Links, hs': Heads,
                   t: seq<nat>)
    requires Holds(q, next, prev, hs) && RingsOk(q') && 0 !in q'.home
    requires q' == q.(sleepers := q'.sleepers, home := q'.home)
             && hs' == hs.(sleeping := hs'.sleeping, records := hs'.records)
    requires SameOutside(next, next', t) && SameOutside(prev, prev', t)
    requires forall n :: n in t ==> n in Nodes(q.sleepers) || n !in q.home
    requires Circle(next', prev', hs'.sleeping, Nodes(q'.sleepers))
    requires forall x :: x in q'.sleepers ==>
               x.node in hs'.records && hs'.records[x.node] == SleepRecord(x.thread, x.delta)
    ensures Holds(q', next', prev', hs')
  {
    hide Circle, SameOutside, RingOk;
    assert RingOf(q, Asleep) == Nodes(q.sleepers) && RingOf(q', Asleep) == Nodes(q'.sleepers);
    Relinked(q, q', Asleep, next, prev, next', prev', hs, hs', t);
  }

  /** The node of entry k of the queue, and where its links lead. */
  lemma SleeperAt(q: Queues, next: Links, prev: Links, hs: Heads, k: nat)
    requires Holds(q, next, prev, hs) && k < |q.sleepers|
    ensures var n := q.sleepers[k].node;
            && n in next && n in prev && n != 0 && n in hs.records && n in q.home
            && hs.records[n] == SleepRecord(q.sleepers[k].thread, q.sleepers[k].delta)
            && next[n] == (if k + 1 < |q.sleepers| then q.sleepers[k + 1].node else hs.sleeping)
            && (n == hs.sleeping <==> k == 0) && (next[n] == n <==> |q.sleepers| == 1)
  {
    assert Circle(next, prev, HeadOf(q, hs, Asleep), RingOf(q, Asleep));
    RingAt(next, prev, hs.sleeping, Nodes(q.sleepers), k);
    assert q.sleepers[k] in q.sleepers;
    assert RingOk(q, Asleep);
    assert q.sleepers[k].node in RingOf(q, Asleep);
  }

  /** Memory after a new record x.node was linked in front of entry k, or behind the last. */
  lemma InsertedHolds(q: Queues, x: Sleeper, k: nat, next: Links, prev: Links, hs: Heads, next': Links, prev': Links,
                      hs': Heads)
    requires Holds(q, next, prev, hs) && Fitting(q.sleepers) && x.delta < TWO64
    requires x.node != 0 && x.node !in q.home && Extends(q.sleepers, x, Insert(q.sleepers, x), k)
    requires hs' == hs.(sleeping := hs'.sleeping, records := hs'.records)
    requires var ns := Nodes(q.sleepers)[..k] + [x.node] + Nodes(q.sleepers)[k..];
             Circle(next', prev', hs'.sleeping, ns) && SameOutside(next, next', ns) && SameOutside(prev, prev', ns)
    requires forall y :: y in Insert(q.sleepers, x) ==>
               y.node in hs'.records && hs'.records[y.node] == SleepRecord(y.thread, y.delta)
    ensures Holds(FallAsleep(q, x), next', prev', hs')
  {
    hide Circle, SameOutside, RingOk, Extends, Insert, Fitting, Sequences.Distinct, RingsOk;
    NotIn(q, Asleep, x.node);
    SleepersDistinct(q);
    ExtendsDistinct(q.sleepers, x, Insert(q.sleepers, x), k);
    FallAsleepOk(q, x);
    SleepHolds(q, FallAsleep(q, x), next, prev, hs, next', prev', hs', Nodes(Insert(q.sleepers, x)));
  }

  lemma SleepersDistinct(q: Queues)
    requires RingsOk(q)
    ensures Sequences.Distinct(Nodes(q.sleepers)) && forall n :: n in Nodes(q.sleepers) ==> n in q.home
  {
    assert RingOk(q, Asleep);
    assert RingOf(q, Asleep) == Nodes(q.sleepers);
  }

  /** The first sleeper of all. */
  lemma FirstHolds(q: Queues, x: Sleeper, next: Links, prev: Links, hs: Heads)
    requires Holds(q, next, prev, hs) && q.sleepers == [] && x.delta < TWO64
    requires x.node != 0 && x.node !in q.home
    ensures Holds(FallAsleep(q, x), next[x.node := x.node], prev[x.node := x.node],
                  hs.(sleeping := x.node, records := hs.records[x.node := SleepRecord(x.thread, x.delta)]))
  {
    hide RingOk;
    var next', prev' := next[x.node := x.node], prev[x.node := x.node];
    RingSingle(next', prev', x.node);
    assert Nodes(q.sleepers)[..0] + [x.node] + Nodes(q.sleepers)[0..] == [x.node];
    assert Insert(q.sleepers, x) == [x];
    InsertedHolds(q, x, 0, next, prev, hs, next', prev',
                  hs.(sleeping := x.node, records := hs.records[x.node := SleepRecord(x.thread, x.delta)]));
  }

  /** A sleeper due before all others: linked behind the last, and made the head. */
  lemma EarliestHolds(q: Queues, x: Sleeper, next: Links, prev: Links, hs: Heads, records': map<nat, SleepRecord>)
    requires Holds(q, next, prev, hs) && Fitting(q.sleepers) && q.sleepers != [] && x.delta < q.sleepers[0].delta
    requires x.delta < TWO64 && x.node != 0 && x.node !in q.home
    requires records' == hs.records[hs.sleeping := SleepRecord(q.sleepers[0].thread, q.sleepers[0].delta - x.delta)]
                                   [x.node := SleepRecord(x.thread, x.delta)]
    ensures hs.sleeping in prev
    ensures Holds(FallAsleep(q, x), InsertedNext(next, prev, hs.sleeping, x.node),
              InsertedPrev(prev, hs.sleeping, x.node),
                  hs.(sleeping := x.node, records := records'))
  {
    hide RingOk, RingsOk, Fitting, Circle, SameOutside, Linked, InsertedNext, InsertedPrev, Recorded, FallAsleep,
      Sequences.Distinct, Insert, Front, Extends;
    var s := Nodes(q.sleepers);
    SleeperAt(q, next, prev, hs, 0);
    SleepCircle(q, next, prev, hs);
    NotIn(q, Asleep, x.node);
    SleepersDistinct(q);
    var next', prev' := InsertedNext(next, prev, hs.sleeping, x.node), InsertedPrev(prev, hs.sleeping, x.node);
    InsertedFirst(next, prev, s, x.node);
    EarliestRecords(q, hs, x, records');
    PutFirst(s, x.node);
    InsertedHolds(q, x, 0, next, prev, hs, next', prev', hs.(sleeping := x.node, records := records'));
  }

  lemma EarliestRecords(q: Queues, hs: Heads, x: Sleeper, records': map<nat, SleepRecord>)
    requires Recorded(q, hs) && Sequences.Distinct(Nodes(q.sleepers)) && x.node !in Nodes(q.sleepers)
    requires q.sleepers != [] && x.delta < q.sleepers[0].delta && q.sleepers[0].node in hs.records
    requires records' == hs.records[q.sleepers[0].node := SleepRecord(q.sleepers[0].thread,
               q.sleepers[0].delta - x.delta)]
                                   [x.node := SleepRecord(x.thread, x.delta)]
    ensures Extends(q.sleepers, x, Insert(q.sleepers, x), 0)
    ensures forall y :: y in Insert(q.sleepers, x) ==>
              y.node in records' && records'[y.node] == SleepRecord(y.thread, y.delta)
  {
    var a: seq<Sleeper> := [];
    assert a + q.sleepers == q.sleepers && a + Front(q.sleepers, x) == Front(q.sleepers, x);
    FrontRecords(q, hs, x, a, q.sleepers, records');
  }

  lemma PutFirst(s: seq<nat>, n: nat)
    ensures s[..0] + [n] + s[0..] == [n] + s
  {
  }

  /** The walk of `__scheduler_timeout` has stopped after k entries. */
  ghost predicate StopsAt(q: seq<Sleeper>, time: nat, k: nat) {
    && 1 <= k <= |q| && q[0].delta <= time
    && (forall j :: 2 <= j <= k ==> Elapsed(q, j) < time)
    && (k == |q| || time <= Elapsed(q, k + 1))
    && Elapsed(q, k) <= time
  }

  /** The records with x's own, and the next entry's delay shortened. */
  ghost predicate Shortened(q: seq<Sleeper>, records: map<nat, SleepRecord>, x: Sleeper, k: nat,
                            records': map<nat, SleepRecord>)
    requires StopsAt(q, x.delta, k)
  {
    var left := x.delta - Elapsed(q, k);
    if k == |q| then records' == records[x.node := SleepRecord(x.thread, left)]
    else
      && q[k].delta >= left
      && records' == records[x.node := SleepRecord(x.thread, left)][q[k].node := SleepRecord(q[k].thread,
         q[k].delta - left)]
  }

  lemma LaterRecords(q: Queues, hs: Heads, x: Sleeper, k: nat, records': map<nat, SleepRecord>)
    requires Recorded(q, hs) && Sequences.Distinct(Nodes(q.sleepers)) && x.node !in Nodes(q.sleepers)
    requires StopsAt(q.sleepers, x.delta, k) && Shortened(q.sleepers, hs.records, x, k, records')
    ensures Extends(q.sleepers, x, Insert(q.sleepers, x), k)
    ensures forall y :: y in Insert(q.sleepers, x) ==>
              y.node in records' && records'[y.node] == SleepRecord(y.thread, y.delta)
  {
    hide Insert, Front, Elapsed, Recorded, Sequences.Distinct;
    var x' := x.(delta := x.delta - Elapsed(q.sleepers, k));
    InsertAt(q.sleepers, x, k);
    assert q.sleepers[..k] + q.sleepers[k..] == q.sleepers;
    if k < |q.sleepers| { assert Nodes(q.sleepers)[k] == q.sleepers[k].node; KnownRecord(q, hs, k); }
    FrontRecords(q, hs, x', q.sleepers[..k], q.sleepers[k..], records');
    FrontExtends(q.sleepers, x', k);
    assert x == x'.(delta := x.delta);
  }

  lemma KnownRecord(q: Queues, hs: Heads, k: nat)
    requires Recorded(q, hs) && k < |q.sleepers|
    ensures q.sleepers[k].node in hs.records
  {
    assert q.sleepers[k] in q.sleepers;
  }

  /** A sleeper due no earlier than the first: linked in where the walk stops. */
  lemma LaterHolds(q: Queues, x: Sleeper, k: nat, next: Links, prev: Links, hs: Heads, records': map<nat, SleepRecord>)
    requires Holds(q, next, prev, hs) && Fitting(q.sleepers) && x.delta < TWO64
    requires x.node != 0 && x.node !in q.home
    requires StopsAt(q.sleepers, x.delta, k) && Shortened(q.sleepers, hs.records, x, k, records')
    ensures var at := if k < |q.sleepers| then q.sleepers[k].node else hs.sleeping;
            at in prev
            && Holds(FallAsleep(q, x), InsertedNext(next, prev, at, x.node), InsertedPrev(prev, at, x.node),
               hs.(records := records'))
  {
    hide RingOk, RingsOk, Fitting, Circle, SameOutside, Linked, InsertedNext, InsertedPrev, Recorded, FallAsleep,
      Sequences.Distinct, Insert, Elapsed, Shortened, Extends;
    SleeperAt(q, next, prev, hs, 0);
    if k < |q.sleepers| { SleeperAt(q, next, prev, hs, k); }
    SleepCircle(q, next, prev, hs);
    NotIn(q, Asleep, x.node);
    SleepersDistinct(q);
    InsertLinks(next, prev, Nodes(q.sleepers), k, x.node);
    LaterRecords(q, hs, x, k, records');
    var at := if k < |q.sleepers| then q.sleepers[k].node else hs.sleeping;
    InsertedHolds(q, x, k, next, prev, hs, InsertedNext(next, prev, at, x.node), InsertedPrev(prev, at, x.node),
      hs.(records := records'));
  }

  lemma FrontExtends(q: seq<Sleeper>, x: Sleeper, k: nat)
    requires k <= |q| && (k < |q| ==> x.delta <= q[k].delta)
    ensures forall d: nat :: Extends(q, x.(delta := d), q[..k] + Front(q[k..], x), k)
  {
  }

  lemma InsertedFirst(next: Links, prev: Links, s: seq<nat>, n: nat)
    requires s != [] && Circle(next, prev, s[0], s) && n != 0 && n !in s
    ensures s[0] in prev
    ensures var next', prev' := InsertedNext(next, prev, s[0], n), InsertedPrev(prev, s[0], n);
            Circle(next', prev', n, [n] + s) && SameOutside(next, next', [n] + s) && SameOutside(prev, prev', [n] + s)
  {
    hide Circle, SameOutside, InsertedNext, InsertedPrev;
    InsertLinks(next, prev, s, |s|, n);
    assert s[..|s|] + [n] + s[|s|..] == s + [n];
    var next', prev' := InsertedNext(next, prev, s[0], n), InsertedPrev(prev, s[0], n);
    Rotate(next', prev', s, n);
    SameMembers(next, next', s + [n], [n] + s);
    SameMembers(prev, prev', s + [n], [n] + s);
  }

  lemma SleepCircle(q: Queues, next: Links, prev: Links, hs: Heads)
    requires Holds(q, next, prev, hs)
    ensures Circle(next, prev, hs.sleeping, Nodes(q.sleepers))
  {
    assert Circle(next, prev, HeadOf(q, hs, Asleep), RingOf(q, Asleep));
  }

  lemma SameMembers(links: Links, links': Links, s: seq<nat>, t: seq<nat>)
    requires SameOutside(links, links', s) && forall n :: n in s ==> n in t
    ensures SameOutside(links, links', t)
  {
  }

  /** The records after x went in between a and b. */
  lemma FrontRecords(q: Queues, hs: Heads, x: Sleeper, a: seq<Sleeper>, b: seq<Sleeper>,
                     records': map<nat, SleepRecord>)
    requires Recorded(q, hs) && q.sleepers == a + b && (b != [] ==> x.delta <= b[0].delta)
    requires Sequences.Distinct(Nodes(q.sleepers)) && x.node !in Nodes(q.sleepers)
    requires b == [] ==> records' == hs.records[x.node := SleepRecord(x.thread, x.delta)]
    requires b != [] ==> b[0].node in hs.records
    requires b != [] ==>
               var less, more := SleepRecord(b[0].thread, b[0].delta - x.delta), SleepRecord(x.thread, x.delta);
               records' == hs.records[b[0].node := less][x.node := more]
                 || records' == hs.records[x.node := more][b[0].node := less]
    ensures forall y :: y in a + Front(b, x) ==>
              y.node in records' && records'[y.node] == SleepRecord(y.thread, y.delta)
  {
    forall y | y in a + Front(b, x) ensures y.node in records' && records'[y.node] == SleepRecord(y.thread, y.delta) {
      var i :| 0 <= i < |a + Front(b, x)| && (a + Front(b, x))[i] == y;
      if i < |a| {
        assert q.sleepers[i] == y;
        OldRecord(q, hs, x, a, b, records', i);
      } else if i > |a| + 1 {
        assert q.sleepers[i - 1] == y;
        OldRecord(q, hs, x, a, b, records', i - 1);
      } else if b != [] {
        assert Nodes(q.sleepers)[|a|] == b[0].node;
      }
    }
  }

  /** An entry other than x and b's first keeps its record. */
  lemma OldRecord(q: Queues, hs: Heads, x: Sleeper, a: seq<Sleeper>, b: seq<Sleeper>, records': map<nat, SleepRecord>,
                  i: nat)
    requires Recorded(q, hs) && q.sleepers == a + b && (b != [] ==> x.delta <= b[0].delta)
    requires Sequences.Distinct(Nodes(q.sleepers)) && x.node !in Nodes(q.sleepers)
    requires b == [] ==> records' == hs.records[x.node := SleepRecord(x.thread, x.delta)]
    requires b != [] ==>
               var less, more := SleepRecord(b[0].thread, b[0].delta - x.delta), SleepRecord(x.thread, x.delta);
               records' == hs.records[b[0].node := less][x.node := more]
                 || records' == hs.records[x.node := more][b[0].node := less]
    requires i < |q.sleepers| && (b != [] ==> i != |a|)
    ensures var y := q.sleepers[i]; y.node in records' && records'[y.node] == SleepRecord(y.thread, y.delta)
  {
    var ns := Nodes(q.sleepers);
    assert q.sleepers[i] in q.sleepers && ns[i] in ns;
    if b != [] { assert ns[|a|] == b[0].node && ns[i] != ns[|a|]; }
  }

  lemma DecrementHolds(q: Queues, next: Links, prev: Links, hs: Heads)
    requires Holds(q, next, prev, hs) && q.sleepers != []
    ensures hs.sleeping in hs.records
    ensures var r := hs.records[hs.sleeping];
            && r == SleepRecord(q.sleepers[0].thread, q.sleepers[0].delta)
            && Holds(q.(sleepers := Decrement(q.sleepers)), next, prev,
                     hs.(records := hs.records[hs.sleeping := r.(delta := (r.delta + TWO64 - 1) % TWO64)]))
  {
    hide RingOk, Circle;
    SleeperAt(q, next, prev, hs, 0);
    var q', r := q.(sleepers := Decrement(q.sleepers)), hs.records[hs.sleeping];
    var hs' := hs.(records := hs.records[hs.sleeping := r.(delta := (r.delta + TWO64 - 1) % TWO64)]);
    SleepersDistinct(q);
    SleepCircle(q, next, prev, hs);
    assert Nodes(q'.sleepers) == Nodes(q.sleepers);
    SameRings(q, q');
    forall x | x in q'.sleepers ensures x.node in hs'.records && hs'.records[x.node] == SleepRecord(x.thread, x.delta) {
      var i :| 0 <= i < |q'.sleepers| && q'.sleepers[i] == x;
      if i > 0 { assert x == q.sleepers[i] && Nodes(q.sleepers)[i] == x.node && Nodes(q.sleepers)[0] == hs.sleeping; }
    }
    SleepHolds(q, q', next, prev, hs, next, prev, hs', []);
  }

  lemma SameRings(q: Queues, q': Queues)
    requires RingsOk(q) && q' == q.(sleepers := q'.sleepers) && Nodes(q'.sleepers) == Nodes(q.sleepers)
    ensures RingsOk(q')
  {
    forall r ensures RingOk(q', r) { assert RingOk(q, r); }
  }

  /** A woken sleeper's thread may be made ready before its record is unlinked. */
  lemma WakeLate(q: Queues)
    requires q.sleepers != [] && q.sleepers[0].thread != q.sleepers[0].node
    ensures WakeFirst(Enqueue(q, Ready, q.sleepers[0].thread)) == Wake(q)
  {
  }

  /* ---- a sleeper taken out early ---- */

  function FirstNode(q: seq<Sleeper>): nat { if q == [] then 0 else q[0].node }

  function Cancelled(q: Queues, k: nat): Queues
    requires k < |q.sleepers|
  {
    q.(sleepers := Remove(q.sleepers, k), home := q.home - {q.sleepers[k].node})
  }

  lemma RemoveNodes(q: seq<Sleeper>, k: nat)
    requires k < |q|
    ensures Nodes(Remove(q, k)) == Nodes(q)[..k] + Nodes(q)[k + 1..]
    ensures Threads(Remove(q, k)) == Threads(q)[..k] + Threads(q)[k + 1..]
  {
  }

  lemma CancelledRings(q: Queues, k: nat)
    requires RingsOk(q) && k < |q.sleepers|
    ensures RingsOk(Cancelled(q, k))
  {
    var q' := Cancelled(q, k);
    RemoveNodes(q.sleepers, k);
    forall r ensures RingOk(q', r) {
      assert RingOk(q, r) && RingOk(q, Asleep);
      if r == Asleep {
        RemoveDistinct(Nodes(q.sleepers), k);
      } else {
        assert RingOf(q, Asleep)[k] in RingOf(q, Asleep);
      }
    }
  }

  /** The records with entry k's delay given to the next. */
  function HandedOn(q: Queues, hs: Heads, k: nat): map<nat, SleepRecord>
    requires k < |q.sleepers|
  {
    if k + 1 < |q.sleepers|
    then var y := q.sleepers[k + 1]; hs.records[y.node := SleepRecord(y.thread, y.delta + q.sleepers[k].delta)]
    else hs.records
  }

  lemma HandedOnRecords(q: Queues, hs: Heads, k: nat)
    requires Recorded(q, hs) && Sequences.Distinct(Nodes(q.sleepers)) && k < |q.sleepers|
    ensures forall x :: x in Remove(q.sleepers, k) ==>
              x.node in HandedOn(q, hs, k) && HandedOn(q, hs, k)[x.node] == SleepRecord(x.thread, x.delta)
  {
    var r, ns := Remove(q.sleepers, k), Nodes(q.sleepers);
    forall x | x in r
      ensures x.node in HandedOn(q, hs, k) && HandedOn(q, hs, k)[x.node] == SleepRecord(x.thread, x.delta)
    {
      var i :| 0 <= i < |r| && r[i] == x;
      if i != k {
        var j := if i < k then i else i + 1;
        assert x == q.sleepers[j] && ns[j] == x.node;
        assert k + 1 < |ns| ==> ns[k + 1] == q.sleepers[k + 1].node;
      } else {
        assert x.node == q.sleepers[k + 1].node;
      }
    }
  }

  /** Unlinking entry k of several leaves a good queue, provided the head does not stay behind
      on entry 0. */
  lemma CancelHolds(q: Queues, k: nat, next: Links, prev: Links, hs: Heads)
    requires Holds(q, next, prev, hs) && |q.sleepers| >= 2 && k < |q.sleepers|
    ensures var n := q.sleepers[k].node;
            && n in next && n in prev
            && var head := if k == 0 then q.sleepers[1].node else hs.sleeping;
               Holds(Cancelled(q, k), RemovedNext(next, prev, n), RemovedPrev(next, prev, n),
                     hs.(sleeping := head, records := HandedOn(q, hs, k)))
  {
    hide RingOk, RingsOk, Circle, SameOutside, Recorded, Linked, HandedOn, Remove, Sequences.Distinct, RemovedNext,
      RemovedPrev;
    var s := Nodes(q.sleepers);
    SleeperAt(q, next, prev, hs, k);
    SleeperAt(q, next, prev, hs, 0);
    SleepCircle(q, next, prev, hs);
    SleepersDistinct(q);
    RemoveLinks(next, prev, s, k);
    RemoveNodes(q.sleepers, k);
    CancelledRings(q, k);
    HandedOnRecords(q, hs, k);
    var n, head := q.sleepers[k].node, if k == 0 then q.sleepers[1].node else hs.sleeping;
    SleepHolds(q, Cancelled(q, k), next, prev, hs, RemovedNext(next, prev, n), RemovedPrev(next, prev, n),
               hs.(sleeping := head, records := HandedOn(q, hs, k)), s);
  }

  lemma CancelOnly(q: Queues, next: Links, prev: Links, hs: Heads)
    requires Holds(q, next, prev, hs) && |q.sleepers| == 1
    ensures Holds(Cancelled(q, 0), next, prev, hs.(sleeping := 0))
  {
    hide RingOk, Circle;
    SleeperAt(q, next, prev, hs, 0);
    assert q.sleepers[1..] == Remove(q.sleepers, 0);
    WakeHolds(q, next, prev, hs, next, prev, 0);
  }

  /** A sleep queue shows only with its first node as head. */
  lemma OneHead(q: Queues, next: Links, prev: Links, hs: Heads, head: nat)
    requires Holds(q, next, prev, hs) && Holds(q, next, prev, hs.(sleeping := head))
    ensures head == hs.sleeping
  {
    SleepCircle(q, next, prev, hs);
    SleepCircle(q, next, prev, hs.(sleeping := head));
  }

  /** A line shows only with its first thread as head. */
  lemma OneLineHead(q: Queues, h: nat, next: Links, prev: Links, hs: Heads, next': Links, prev': Links, hs': Heads)
    requires Holds(q, next, prev, hs) && Holds(q, next', prev', hs') && h in q.sems
    ensures h in hs.sems && h in hs'.sems && hs.sems[h].waiting == hs'.sems[h].waiting
  {
    assert Circle(next, prev, HeadOf(q, hs, OnSem(h)), RingOf(q, OnSem(h)));
    assert Circle(next', prev', HeadOf(q, hs', OnSem(h)), RingOf(q, OnSem(h)));
  }
}
