/** Where the kernel's threads are queued: the ready ring, the ring of threads waiting for
    input, one ring per semaphore, and the sleep queue. */
module ThreadQueues {
  import opened Options
  import opened Words
  import opened DeltaQueue
  import Sequences
  import Semaphores

  datatype Ring = Ready | Input | OnSem(sem: nat) | Asleep

  /** `home` is a history variable: the ring each list node is linked into.  No kernel
      decision reads it. */
  datatype Queues = Queues(
    ready: seq<nat>,
    input: seq<nat>,
    sems: map<nat, Semaphores.Sem>,
    sleepers: seq<Sleeper>,
    home: map<nat, Ring>)

  /** The list nodes of a ring, head first. */
  function RingOf(q: Queues, r: Ring): seq<nat> {
    match r
    case Ready => q.ready
    case Input => q.input
    case OnSem(h) => if h in q.sems then q.sems[h].queue else []
    case Asleep => Nodes(q.sleepers)
  }

  ghost predicate RingOk(q: Queues, r: Ring) {
    && Sequences.Distinct(RingOf(q, r))
    && forall n :: n in RingOf(q, r) <==> n in q.home && q.home[n] == r
  }

  /** No node is linked twice, in one ring or in two. */
  ghost predicate RingsOk(q: Queues) {
    forall r :: RingOk(q, r)
  }

  /* ---- one move at a time ---- */

  function Enqueue(q: Queues, r: Ring, n: nat): Queues
    requires r == Ready || r == Input || (r.OnSem? && r.sem in q.sems)
  {
    var q' := q.(home := q.home[n := r]);
    match r
    case Ready => q'.(ready := q.ready + [n])
    case Input => q'.(input := q.input + [n])
    case OnSem(h) => q'.(sems := q.sems[h := q.sems[h].(queue := q.sems[h].queue + [n])])
    case Asleep => assert false; q
  }

  function Dequeue(q: Queues, r: Ring): Queues
    requires r != Asleep && RingOf(q, r) != []
  {
    var q' := q.(home := q.home - {RingOf(q, r)[0]});
    match r
    case Ready => q'.(ready := q.ready[1..])
    case Input => q'.(input := q.input[1..])
    case OnSem(h) => q'.(sems := q.sems[h := q.sems[h].(queue := q.sems[h].queue[1..])])
    case Asleep => assert false; q
  }

  function FallAsleep(q: Queues, x: Sleeper): Queues {
    q.(sleepers := Insert(q.sleepers, x), home := q.home[x.node := Asleep])
  }

  function WakeFirst(q: Queues): Queues
    requires q.sleepers != []
  {
    q.(sleepers := q.sleepers[1..], home := q.home - {q.sleepers[0].node})
  }

  function SetVal(q: Queues, h: nat, v: int): Queues
    requires h in q.sems
  {
    q.(sems := q.sems[h := q.sems[h].(val := v)])
  }

  /** One ring gained a node at some place and no other ring changed. */
  lemma Gained(q: Queues, q': Queues, r: Ring, n: nat)
    requires RingsOk(q) && n !in q.home && q'.home == q.home[n := r]
    requires Sequences.Distinct(RingOf(q', r)) && forall m :: m in RingOf(q', r) <==> m in RingOf(q, r) || m == n
    requires forall r' :: r' != r ==> RingOf(q', r') == RingOf(q, r')
    ensures RingsOk(q')
  {
    forall r' ensures RingOk(q', r') {
      assert RingOk(q, r');
    }
  }

  /** One ring lost its first node and no other ring changed. */
  lemma Lost(q: Queues, q': Queues, r: Ring)
    requires RingsOk(q) && RingOf(q, r) != []
    requires RingOf(q', r) == RingOf(q, r)[1..] && q'.home == q.home - {RingOf(q, r)[0]}
    requires forall r' :: r' != r ==> RingOf(q', r') == RingOf(q, r')
    ensures RingsOk(q')
    ensures RingOf(q, r)[0] !in q'.home && RingOf(q, r)[0] in q.home && q.home[RingOf(q, r)[0]] == r
  {
    assert RingOk(q, r);
    var s := RingOf(q, r);
    assert s[0] in s;
    assert s == [s[0]] + s[1..];
    forall r' ensures RingOk(q', r') {
      assert RingOk(q, r');
      if r' == r {
        assert forall m :: m in s[1..] <==> m in s && m != s[0] by {
          assert forall i :: 0 < i < |s| ==> s[i] != s[0];
        }
      }
    }
  }

  lemma EnqueueOk(q: Queues, r: Ring, n: nat)
    requires RingsOk(q) && n !in q.home
    requires r == Ready || r == Input || (r.OnSem? && r.sem in q.sems)
    ensures RingsOk(Enqueue(q, r, n))
  {
    assert RingOk(q, r);
    var q' := Enqueue(q, r, n);
    assert RingOf(q', r) == RingOf(q, r) + [n];
    assert n !in RingOf(q, r);
    Gained(q, q', r, n);
  }

  lemma DequeueOk(q: Queues, r: Ring)
    requires RingsOk(q) && r != Asleep && RingOf(q, r) != []
    ensures RingsOk(Dequeue(q, r))
    ensures RingOf(q, r)[0] in q.home && q.home[RingOf(q, r)[0]] == r
    ensures RingOf(q, r)[0] !in Dequeue(q, r).home
  {
    Lost(q, Dequeue(q, r), r);
  }

  lemma FallAsleepOk(q: Queues, x: Sleeper)
    requires RingsOk(q) && Fitting(q.sleepers) && x.node !in q.home && x.delta < TWO64
    ensures RingsOk(FallAsleep(q, x)) && Fitting(FallAsleep(q, x).sleepers)
    ensures Waiting(FallAsleep(q, x).sleepers) <==> Waiting(q.sleepers) && x.delta >= 1
  {
    assert RingOk(q, Asleep);
    assert x.node !in RingOf(q, Asleep);
    InsertDue(q.sleepers, x);
    Gained(q, FallAsleep(q, x), Asleep, x.node);
  }

  lemma WakeFirstOk(q: Queues)
    requires RingsOk(q) && q.sleepers != []
    ensures RingsOk(WakeFirst(q))
    ensures q.sleepers[0].node !in WakeFirst(q).home
  {
    assert Nodes(q.sleepers[1..]) == Nodes(q.sleepers)[1..];
    Lost(q, WakeFirst(q), Asleep);
  }

  lemma SetValOk(q: Queues, h: nat, v: int)
    requires RingsOk(q) && h in q.sems
    ensures RingsOk(SetVal(q, h, v))
  {
    forall r ensures RingOk(SetVal(q, h, v), r) {
      assert RingOk(q, r);
      assert RingOf(SetVal(q, h, v), r) == RingOf(q, r);
    }
  }

  /* ---- where the threads are ---- */

  /** `cpu` is the thread on the processor, or nobody in the middle of a switch; `idle` is
      `kernel_main`, the one thread that may be in no ring.  Every other thread is on the
      processor, in exactly one ring, or asleep. */
  ghost predicate Placed(threads: set<nat>, q: Queues, cpu: Option<nat>, idle: nat) {
    && idle in threads
    && (forall n :: n in q.home ==> (n in threads <==> q.home[n] != Asleep))
    && (idle in q.home ==> q.home[idle] == Ready)
    && Sequences.Distinct(Threads(q.sleepers))
    && (forall t :: t in Threads(q.sleepers) ==> t in threads && t !in q.home && t != idle && cpu != Some(t))
    && (cpu.Some? ==> cpu.value in threads && cpu.value !in q.home)
    && (forall t :: t in threads ==> t in q.home || t in Threads(q.sleepers) || cpu == Some(t) || t == idle)
  }

  /** The thread on the processor joins a ring. */
  lemma PutAway(threads: set<nat>, q: Queues, c: nat, idle: nat, r: Ring)
    requires Placed(threads, q, Some(c), idle) && (c == idle ==> r == Ready)
    requires r == Ready || r == Input || (r.OnSem? && r.sem in q.sems)
    ensures Placed(threads, Enqueue(q, r, c), None, idle)
  {
  }

  /** The thread on the processor goes to sleep. */
  lemma PutToSleep(threads: set<nat>, q: Queues, c: nat, idle: nat, x: Sleeper)
    requires Placed(threads, q, Some(c), idle) && c != idle
    requires x.thread == c && x.node !in threads && x.node !in q.home
    ensures Placed(threads, FallAsleep(q, x), None, idle)
  {
    var k := InsertExtends(q.sleepers, x);
    ThreadsOfInsert(q.sleepers, x, k);
  }

  lemma ThreadsOfInsert(q: seq<Sleeper>, x: Sleeper, k: nat)
    requires Extends(q, x, Insert(q, x), k)
    requires Sequences.Distinct(Threads(q)) && x.thread !in Threads(q)
    ensures Sequences.Distinct(Threads(Insert(q, x)))
    ensures forall t :: t in Threads(Insert(q, x)) <==> t in Threads(q) || t == x.thread
  {
    hide Threads, Extends, Insert, Sequences.Distinct;
    ExtendsThreads(q, x, Insert(q, x), k);
    PutDistinct(Threads(q), x.thread, k);
  }

  /** The head of the ready ring, or else the idle thread, gets the processor. */
  function Chosen(q: Queues, idle: nat): nat { if q.ready == [] then idle else q.ready[0] }

  function AfterChoice(q: Queues): Queues { if q.ready == [] then q else Dequeue(q, Ready) }

  lemma Choose(threads: set<nat>, q: Queues, idle: nat)
    requires RingsOk(q) && Placed(threads, q, None, idle)
    ensures RingsOk(AfterChoice(q))
    ensures Placed(threads, AfterChoice(q), Some(Chosen(q, idle)), idle)
  {
    assert RingOk(q, Ready);
    if q.ready == [] {
      assert idle !in RingOf(q, Ready);
    } else {
      DequeueOk(q, Ready);
    }
  }

  /** A waiting thread moves from its ring to the ready ring. */
  function Admit(q: Queues, r: Ring): Queues
    requires (r == Input || r.OnSem?) && RingOf(q, r) != []
  {
    Enqueue(Dequeue(q, r), Ready, RingOf(q, r)[0])
  }

  lemma AdmitRings(q: Queues, r: Ring)
    requires RingsOk(q) && (r == Input || r.OnSem?) && RingOf(q, r) != []
    ensures RingsOk(Admit(q, r)) && Admit(q, r).home.Keys == q.home.Keys
  {
    DequeueOk(q, r);
    EnqueueOk(Dequeue(q, r), Ready, RingOf(q, r)[0]);
  }

  lemma AdmitOk(threads: set<nat>, q: Queues, cpu: Option<nat>, idle: nat, r: Ring)
    requires RingsOk(q) && Placed(threads, q, cpu, idle)
    requires (r == Input || r.OnSem?) && RingOf(q, r) != []
    ensures RingsOk(Admit(q, r)) && Placed(threads, Admit(q, r), cpu, idle)
    ensures RingOf(q, r)[0] in threads && RingOf(q, r)[0] != idle && cpu != Some(RingOf(q, r)[0])
  {
    AdmitRings(q, r);
    DequeueOk(q, r);
  }

  /** The first sleeper becomes ready. */
  function Wake(q: Queues): Queues
    requires q.sleepers != []
  {
    Enqueue(WakeFirst(q), Ready, q.sleepers[0].thread)
  }

  lemma WakeOk(threads: set<nat>, q: Queues, cpu: Option<nat>, idle: nat)
    requires RingsOk(q) && Placed(threads, q, cpu, idle) && q.sleepers != []
    ensures RingsOk(Wake(q)) && Placed(threads, Wake(q), cpu, idle)
    ensures q.sleepers[0].thread in threads && q.sleepers[0].thread != idle
    ensures cpu != Some(q.sleepers[0].thread) && q.sleepers[0].thread !in q.home
    ensures q.sleepers[0].node !in threads && q.sleepers[0].node !in Wake(q).home
  {
    var x := q.sleepers[0];
    assert RingOk(q, Asleep);
    assert Nodes(q.sleepers)[0] == x.node && x.node in RingOf(q, Asleep);
    assert Threads(q.sleepers)[0] == x.thread && x.thread in Threads(q.sleepers);
    WakeFirstOk(q);
    EnqueueOk(WakeFirst(q), Ready, x.thread);
    assert Threads(q.sleepers) == [x.thread] + Threads(q.sleepers[1..]);
    assert forall i :: 0 < i < |q.sleepers| ==> Threads(q.sleepers)[i] != x.thread;
  }

  /** A new thread starts out ready. */
  lemma NewThread(threads: set<nat>, q: Queues, cpu: Option<nat>, idle: nat, b: nat)
    requires RingsOk(q) && Placed(threads, q, cpu, idle) && b !in threads && b !in q.home
    ensures RingsOk(Enqueue(q, Ready, b)) && Placed(threads + {b}, Enqueue(q, Ready, b), cpu, idle)
  {
    EnqueueOk(q, Ready, b);
  }

  /** Every thread but the idle one is in exactly one place. */
  datatype Place = OnCpu | InRing(r: Ring, i: nat) | Sleeping(i: nat)

  ghost predicate At(q: Queues, cpu: nat, t: nat, p: Place) {
    match p
    case OnCpu => cpu == t
    case InRing(r, i) => r != Asleep && i < |RingOf(q, r)| && RingOf(q, r)[i] == t
    case Sleeping(i) => i < |q.sleepers| && q.sleepers[i].thread == t
  }

  /** What being at a place means for the rings. */
  lemma AtMeans(q: Queues, cpu: nat, t: nat, p: Place)
    requires RingsOk(q) && At(q, cpu, t, p)
    ensures p.InRing? ==> t in q.home && q.home[t] == p.r
    ensures p.Sleeping? ==> t in Threads(q.sleepers) && Threads(q.sleepers)[p.i] == t
  {
    match p
    case OnCpu =>
    case InRing(r, i) =>
      assert RingOk(q, r);
      assert t in RingOf(q, r);
    case Sleeping(i) =>
      assert Threads(q.sleepers)[i] == t;
  }

  lemma SamePlace(threads: set<nat>, q: Queues, cpu: nat, idle: nat, t: nat, p: Place, p': Place)
    requires RingsOk(q) && Placed(threads, q, Some(cpu), idle)
    requires At(q, cpu, t, p) && At(q, cpu, t, p')
    ensures p == p'
  {
    AtMeans(q, cpu, t, p);
    AtMeans(q, cpu, t, p');
    if p.InRing? {
      assert RingOk(q, p.r);
    }
  }

  lemma OnePlace(threads: set<nat>, q: Queues, cpu: nat, idle: nat, t: nat)
    requires RingsOk(q) && Placed(threads, q, Some(cpu), idle) && t in threads
    ensures t != idle ==> exists p :: At(q, cpu, t, p)
    ensures forall p, p' :: At(q, cpu, t, p) && At(q, cpu, t, p') ==> p == p'
  {
    forall p, p' | At(q, cpu, t, p) && At(q, cpu, t, p') ensures p == p' {
      SamePlace(threads, q, cpu, idle, t, p, p');
    }
    if t in q.home {
      var r := q.home[t];
      assert RingOk(q, r);
      var i :| 0 <= i < |RingOf(q, r)| && RingOf(q, r)[i] == t;
      assert At(q, cpu, t, InRing(r, i));
    } else if t in Threads(q.sleepers) {
      var i :| 0 <= i < |q.sleepers| && Threads(q.sleepers)[i] == t;
      assert At(q, cpu, t, Sleeping(i));
    } else if t != idle {
      assert At(q, cpu, t, OnCpu);
    }
  }
}
