/** The sleep queue as a value: each entry stores only how much later than its predecessor
    it is due.  `Due` is what the queue means, a map from entry to ticks left. */
module DeltaQueue {
  import opened Words
  import opened Sequences

  datatype Sleeper = Sleeper(node: nat, thread: nat, delta: nat)

  function Nodes(q: seq<Sleeper>): (ns: seq<nat>)
    ensures |ns| == |q|
    ensures forall i :: 0 <= i < |q| ==> ns[i] == q[i].node
  {
    seq(|q|, i requires 0 <= i < |q| => q[i].node)
  }

  function Threads(q: seq<Sleeper>): (ts: seq<nat>)
    ensures |ts| == |q|
    ensures forall i :: 0 <= i < |q| ==> ts[i] == q[i].thread
  {
    seq(|q|, i requires 0 <= i < |q| => q[i].thread)
  }

  /** Ticks left for every entry, counted from `now`. */
  function DueFrom(q: seq<Sleeper>, now: nat): map<nat, nat> {
    if q == [] then map[]
    else DueFrom(q[1..], now + q[0].delta)[q[0].node := now + q[0].delta]
  }

  function Due(q: seq<Sleeper>): map<nat, nat> { DueFrom(q, 0) }

  /** All times fit in 64 bits. */
  ghost predicate Fitting(q: seq<Sleeper>) {
    Distinct(Nodes(q)) && forall n :: n in Due(q) ==> Due(q)[n] < TWO64
  }

  /** Between ticks nothing is overdue. */
  ghost predicate Waiting(q: seq<Sleeper>) { Fitting(q) && (q != [] ==> q[0].delta >= 1) }

  lemma WaitingFits(q: seq<Sleeper>)
    requires Waiting(q)
    ensures Fitting(q)
  {
  }

  /* ---- __scheduler_timeout ---- */

  /** Put x in front, taking its delay off the next entry. */
  function Front(q: seq<Sleeper>, x: Sleeper): seq<Sleeper>
    requires q != [] ==> x.delta <= q[0].delta
  {
    if q == [] then [x] else [x, q[0].(delta := q[0].delta - x.delta)] + q[1..]
  }

  /** Put x behind every entry that is due strictly earlier. */
  function Behind(q: seq<Sleeper>, x: Sleeper): seq<Sleeper> {
    if q != [] && q[0].delta < x.delta
    then [q[0]] + Behind(q[1..], x.(delta := x.delta - q[0].delta))
    else Front(q, x)
  }

  /** An entry due in x.delta ticks joins; it never overtakes a head due no later. */
  function Insert(q: seq<Sleeper>, x: Sleeper): seq<Sleeper> {
    if q == [] || x.delta < q[0].delta then Front(q, x)
    else [q[0]] + Behind(q[1..], x.(delta := x.delta - q[0].delta))
  }

  /* ---- __scheduler_tick ---- */

  /** The entries at the front that are due now. */
  function Woken(q: seq<Sleeper>): (k: nat)
    ensures k <= |q|
  {
    if q != [] && q[0].delta == 0 then 1 + Woken(q[1..]) else 0
  }

  /** One tick off the head, in 64-bit arithmetic. */
  function Decrement(q: seq<Sleeper>): seq<Sleeper> {
    if q == [] then [] else [q[0].(delta := (q[0].delta + TWO64 - 1) % TWO64)] + q[1..]
  }

  function Tick(q: seq<Sleeper>): (r: (seq<Sleeper>, seq<Sleeper>)) {
    var d := Decrement(q);
    (d[Woken(d)..], d[..Woken(d)])
  }

  /* ---- __scheduler_remove_timeout ---- */

  /** Take entry k out, giving its delay to the next one. */
  function Remove(q: seq<Sleeper>, k: nat): seq<Sleeper>
    requires k < |q|
  {
    if k + 1 < |q|
    then q[..k] + [q[k + 1].(delta := q[k + 1].delta + q[k].delta)] + q[k + 2..]
    else q[..k]
  }

  /* ---- meaning ---- */

  lemma {:induction false} DueKeys(q: seq<Sleeper>, now: nat)
    ensures forall n :: n in DueFrom(q, now) <==> n in Nodes(q)
    decreases |q|
  {
    if q != [] { DueKeys(q[1..], now + q[0].delta); }
  }

  /** Nobody is due before now; the first entry is due first. */
  lemma {:induction false} DueAfter(q: seq<Sleeper>, now: nat, n: nat)
    requires n in DueFrom(q, now)
    ensures DueFrom(q, now)[n] >= now
    ensures q != [] ==> DueFrom(q, now)[n] >= now + q[0].delta
    decreases |q|
  {
    if n != q[0].node { DueAfter(q[1..], now + q[0].delta, n); }
  }

  lemma DistinctTail(q: seq<Sleeper>)
    requires q != [] && Distinct(Nodes(q))
    ensures Distinct(Nodes(q[1..])) && q[0].node !in Nodes(q[1..])
  {
    forall i | 0 <= i < |q[1..]| ensures Nodes(q[1..])[i] == Nodes(q)[i + 1] {}
  }

  lemma FrontDue(q: seq<Sleeper>, x: Sleeper, now: nat)
    requires q != [] ==> x.delta <= q[0].delta
    requires x.node !in Nodes(q)
    ensures DueFrom(Front(q, x), now) == DueFrom(q, now)[x.node := now + x.delta]
  {
    if q == [] {
      assert [x][1..] == [];
    } else {
      var y := q[0].(delta := q[0].delta - x.delta);
      var r := [x, y] + q[1..];
      assert r[1..] == [y] + q[1..] && r[1..][1..] == q[1..];
    }
  }

  lemma {:induction false} BehindDue(q: seq<Sleeper>, x: Sleeper, now: nat)
    requires Distinct(Nodes(q)) && x.node !in Nodes(q)
    ensures DueFrom(Behind(q, x), now) == DueFrom(q, now)[x.node := now + x.delta]
    decreases |q|
  {
    if q != [] && q[0].delta < x.delta {
      DistinctTail(q);
      var x' := x.(delta := x.delta - q[0].delta);
      BehindDue(q[1..], x', now + q[0].delta);
      var r := [q[0]] + Behind(q[1..], x');
      assert r[1..] == Behind(q[1..], x');
    } else {
      FrontDue(q, x, now);
    }
  }

  /** The queue with x put in at some place, deltas aside. */
  ghost predicate Extends(q: seq<Sleeper>, x: Sleeper, q': seq<Sleeper>, k: nat) {
    && k <= |q| && |q'| == |q| + 1
    && q'[k].node == x.node && q'[k].thread == x.thread
    && (forall i :: 0 <= i < k ==> q'[i].node == q[i].node && q'[i].thread == q[i].thread)
    && (forall i :: k <= i < |q| ==> q'[i + 1].node == q[i].node && q'[i + 1].thread == q[i].thread)
  }

  lemma {:induction false} BehindExtends(q: seq<Sleeper>, x: Sleeper) returns (k: nat)
    ensures Extends(q, x, Behind(q, x), k)
    decreases |q|
  {
    if q != [] && q[0].delta < x.delta {
      var x' := x.(delta := x.delta - q[0].delta);
      k := BehindExtends(q[1..], x');
      ExtendsCons(q, x, x', Behind(q[1..], x'), k);
      k := k + 1;
    } else {
      k := 0;
    }
  }

  lemma ExtendsCons(q: seq<Sleeper>, x: Sleeper, x': Sleeper, r: seq<Sleeper>, k: nat)
    requires q != [] && Extends(q[1..], x', r, k) && x'.node == x.node && x'.thread == x.thread
    ensures Extends(q, x, [q[0]] + r, k + 1)
  {
  }

  lemma InsertExtends(q: seq<Sleeper>, x: Sleeper) returns (k: nat)
    ensures Extends(q, x, Insert(q, x), k)
  {
    if q == [] || x.delta < q[0].delta {
      k := 0;
    } else {
      var x' := x.(delta := x.delta - q[0].delta);
      k := BehindExtends(q[1..], x');
      ExtendsCons(q, x, x', Behind(q[1..], x'), k);
      k := k + 1;
    }
  }

  lemma ExtendsNodes(q: seq<Sleeper>, x: Sleeper, q': seq<Sleeper>, k: nat)
    requires Extends(q, x, q', k)
    ensures k <= |Nodes(q)| && Nodes(q') == Nodes(q)[..k] + [x.node] + Nodes(q)[k..]
  {
  }

  lemma ExtendsThreads(q: seq<Sleeper>, x: Sleeper, q': seq<Sleeper>, k: nat)
    requires Extends(q, x, q', k)
    ensures k <= |Threads(q)| && Threads(q') == Threads(q)[..k] + [x.thread] + Threads(q)[k..]
  {
  }

  lemma ExtendsDistinct(q: seq<Sleeper>, x: Sleeper, q': seq<Sleeper>, k: nat)
    requires Extends(q, x, q', k) && Distinct(Nodes(q)) && x.node !in Nodes(q)
    ensures Nodes(q') == Nodes(q)[..k] + [x.node] + Nodes(q)[k..]
    ensures Distinct(Nodes(q'))
    ensures forall n :: n in Nodes(q') <==> n in Nodes(q) || n == x.node
  {
    hide Distinct, Extends, Nodes;
    ExtendsNodes(q, x, q', k);
    PutDistinct(Nodes(q), x.node, k);
  }

  lemma PutDistinct(a: seq<nat>, x: nat, k: nat)
    requires k <= |a| && Distinct(a) && x !in a
    ensures Distinct(a[..k] + [x] + a[k..])
    ensures forall n :: n in a[..k] + [x] + a[k..] <==> n in a || n == x
  {
    assert a == a[..k] + a[k..];
  }

  /** Joining the queue sets the entry's own time and moves nobody else's; the queue stays
      free of overdue entries exactly when the new time is at least one tick. */
  lemma InsertDue(q: seq<Sleeper>, x: Sleeper)
    requires Fitting(q) && x.node !in Nodes(q) && x.delta < TWO64
    ensures Due(Insert(q, x)) == Due(q)[x.node := x.delta]
    ensures forall n :: n in Nodes(Insert(q, x)) <==> n in Nodes(q) || n == x.node
    ensures Fitting(Insert(q, x))
    ensures Waiting(Insert(q, x)) <==> Waiting(q) && x.delta >= 1
  {
    var k := InsertExtends(q, x);
    ExtendsDistinct(q, x, Insert(q, x), k);
    InsertTimes(q, x);
    assert forall n :: n in Due(q) ==> n in Due(Insert(q, x)) by { DueKeys(q, 0); }
  }

  lemma InsertTimes(q: seq<Sleeper>, x: Sleeper)
    requires Distinct(Nodes(q)) && x.node !in Nodes(q)
    ensures Due(Insert(q, x)) == Due(q)[x.node := x.delta]
  {
    if q == [] || x.delta < q[0].delta {
      FrontDue(q, x, 0);
    } else {
      DistinctTail(q);
      var x' := x.(delta := x.delta - q[0].delta);
      BehindDue(q[1..], x', q[0].delta);
      var r := [q[0]] + Behind(q[1..], x');
      assert r[1..] == Behind(q[1..], x');
    }
  }

  lemma {:induction false} ShiftDue(q: seq<Sleeper>, now: nat, later: nat)
    requires Distinct(Nodes(q))
    ensures DueFrom(q, now).Keys == DueFrom(q, now + later).Keys
    ensures forall n :: n in DueFrom(q, now) ==> DueFrom(q, now + later)[n] == DueFrom(q, now)[n] + later
    decreases |q|
  {
    if q != [] {
      DistinctTail(q);
      ShiftDue(q[1..], now + q[0].delta, later);
    }
  }

  /** Dropping the entries due now keeps exactly the others, at their times. */
  lemma {:induction false} WokenDue(q: seq<Sleeper>, now: nat)
    requires Distinct(Nodes(q))
    ensures DueFrom(q[Woken(q)..], now) == map n | n in DueFrom(q, now)
            && DueFrom(q, now)[n] > now :: DueFrom(q, now)[n]
    ensures forall n :: n in Nodes(q[..Woken(q)]) <==> n in DueFrom(q, now) && DueFrom(q, now)[n] == now
    decreases |q|
  {
    if q == [] {
    } else if q[0].delta == 0 {
      WokenStep(q, now);
      WokenDue(q[1..], now);
      WokenFold(q, now);
    } else {
      forall n | n in DueFrom(q, now) ensures DueFrom(q, now)[n] > now { DueAfter(q, now, n); }
    }
  }

  lemma WokenFold(q: seq<Sleeper>, now: nat)
    requires q != [] && q[0].delta == 0
    requires DueFrom(q[1..], now) == DueFrom(q, now) - {q[0].node}
    requires q[0].node in DueFrom(q, now) && DueFrom(q, now)[q[0].node] == now
    requires var t := q[1..];
             && DueFrom(t[Woken(t)..], now)
                == (map n | n in DueFrom(t, now) && DueFrom(t, now)[n] > now :: DueFrom(t, now)[n])
             && forall n :: n in Nodes(t[..Woken(t)]) <==> n in DueFrom(t, now) && DueFrom(t, now)[n] == now
    ensures DueFrom(q[Woken(q)..], now) == map n | n in DueFrom(q, now)
            && DueFrom(q, now)[n] > now :: DueFrom(q, now)[n]
    ensures forall n :: n in Nodes(q[..Woken(q)]) <==> n in DueFrom(q, now) && DueFrom(q, now)[n] == now
  {
    hide DueFrom;
    CutFirst(q, Woken(q));
    assert Nodes(q[..Woken(q)]) == [q[0].node] + Nodes(q[1..][..Woken(q) - 1]);
  }

  lemma WokenStep(q: seq<Sleeper>, now: nat)
    requires q != [] && Distinct(Nodes(q))
    ensures Distinct(Nodes(q[1..]))
    ensures DueFrom(q[1..], now + q[0].delta) == DueFrom(q, now) - {q[0].node}
    ensures q[0].node in DueFrom(q, now) && DueFrom(q, now)[q[0].node] == now + q[0].delta
  {
    DistinctTail(q);
    DueKeys(q[1..], now + q[0].delta);
  }

  lemma WokenRest(q: seq<Sleeper>)
    ensures Woken(q) < |q| ==> q[Woken(q)].delta >= 1
  {
  }

  /** Taking one tick off the head takes one tick off every time. */
  lemma DecrementDue(q: seq<Sleeper>)
    requires Waiting(q)
    ensures Nodes(Decrement(q)) == Nodes(q) && Threads(Decrement(q)) == Threads(q)
    ensures Due(Decrement(q)).Keys == Due(q).Keys
    ensures forall n :: n in Due(q) ==> Due(Decrement(q))[n] + 1 == Due(q)[n]
  {
    if q != [] {
      WokenStep(q, 0);
      assert q[0].node in Due(q) && Due(q)[q[0].node] == q[0].delta;
      ShiftDue(q[1..], q[0].delta - 1, 1);
      var d := Decrement(q);
      assert d[0].delta == q[0].delta - 1;
      assert d[1..] == q[1..];
      WokenStep(d, 0);
    }
  }

  /** A tick wakes exactly the entries with one tick left, in queue order, and takes one tick
      off every other; no subtraction wraps. */
  lemma TickDue(q: seq<Sleeper>)
    requires Waiting(q)
    ensures var (rest, woken) := Tick(q);
            && Waiting(rest)
            && Due(rest) == (map n | n in Due(q) && Due(q)[n] > 1 :: Due(q)[n] - 1)
            && (forall n :: n in Nodes(woken) <==> n in Due(q) && Due(q)[n] == 1)
            && Nodes(woken) + Nodes(rest) == Nodes(q)
            && Threads(woken) + Threads(rest) == Threads(q)
  {
    hide Decrement, Nodes, Threads, DueFrom, Woken, Distinct;
    var d := Decrement(q);
    DecrementDue(q);
    WokenDue(d, 0);
    WokenRest(d);
    var rest, woken := d[Woken(d)..], d[..Woken(d)];
    CutNodes(d, Woken(d));
    forall n | n in Due(q) ensures Due(q)[n] >= 1 { DueAfter(q, 0, n); }
    TailDistinct(Nodes(woken), Nodes(rest));
  }

  /** With an overdue head the subtraction wraps: nobody wakes, and everybody sleeps 2^64 ticks
      longer than they should. */
  lemma TickWraps(q: seq<Sleeper>)
    requires Distinct(Nodes(q)) && q != [] && q[0].delta == 0
    ensures var (rest, woken) := Tick(q);
            && woken == [] && Nodes(rest) == Nodes(q) && Threads(rest) == Threads(q) && rest[0].delta == TWO64 - 1
            && Due(rest).Keys == Due(q).Keys
            && forall n :: n in Due(q) ==> Due(rest)[n] == Due(q)[n] - 1 + TWO64
  {
    var d := Decrement(q);
    assert d[1..] == q[1..] && d[0].node == q[0].node && d[0].delta == TWO64 - 1;
    WokenStep(q, 0);
    WokenStep(d, 0);
    ShiftDue(q[1..], 0, TWO64 - 1);
  }

  /** A tick does what it is for exactly if nothing is overdue: whoever has one tick left wakes, and
      whoever has more has one less. */
  lemma TickRight(q: seq<Sleeper>)
    requires Fitting(q)
    ensures var (rest, woken) := Tick(q);
            (forall n :: n in Due(q) ==>
               if Due(q)[n] == 1 then n in Nodes(woken) else n in Due(rest) && Due(rest)[n] + 1 == Due(q)[n])
            <==> Waiting(q)
  {
    hide Tick, Decrement, Woken, DueFrom;
    if Waiting(q) {
      TickDue(q);
      forall n | n in Due(q) ensures Due(q)[n] >= 1 { DueAfter(q, 0, n); }
    } else {
      TickWraps(q);
      WokenStep(q, 0);
      assert q[0].node in Due(q);
    }
  }

  /** So a newcomer with no time left holds up itself and everyone who sleeps. */
  lemma InsertZero(q: seq<Sleeper>, x: Sleeper)
    requires Waiting(q) && x.node !in Nodes(q) && x.delta == 0
    ensures var (rest, woken) := Tick(Insert(q, x));
            && woken == [] && Insert(q, x)[0] == x
            && x.node in Due(rest) && Due(rest)[x.node] == TWO64 - 1
            && forall n :: n in Due(q) ==> n in Due(rest) && Due(rest)[n] == Due(q)[n] - 1 + TWO64
  {
    hide Tick, DueFrom;
    InsertDue(q, x);
    TickWraps(Insert(q, x));
    DueKeys(q, 0);
  }

  lemma CutNodes(q: seq<Sleeper>, k: nat)
    requires k <= |q|
    ensures Nodes(q[..k]) + Nodes(q[k..]) == Nodes(q) && Threads(q[..k]) + Threads(q[k..]) == Threads(q)
  {
  }

  lemma TailDistinct(a: seq<nat>, b: seq<nat>)
    requires Distinct(a + b)
    ensures Distinct(b)
  {
    assert forall i :: 0 <= i < |b| ==> b[i] == (a + b)[|a| + i];
  }

  /** Taking an entry out moves nobody else's time. */
  lemma {:induction false} RemoveDue(q: seq<Sleeper>, k: nat, now: nat)
    requires Distinct(Nodes(q)) && k < |q|
    ensures DueFrom(Remove(q, k), now) == DueFrom(q, now) - {q[k].node}
    decreases k
  {
    hide Remove, Distinct, DueFrom;
    WokenStep(q, now);
    if k > 0 {
      NodesDiffer(q, k);
      RemoveDue(q[1..], k - 1, now + q[0].delta);
      RemoveTail(q, k);
      DueCons(q[0], Remove(q[1..], k - 1), now);
      DueCons(q[0], q[1..], now);
      assert q == [q[0]] + q[1..];
    } else {
      RemoveHead(q, now);
    }
  }

  lemma DueCons(y: Sleeper, q: seq<Sleeper>, now: nat)
    ensures DueFrom([y] + q, now) == DueFrom(q, now + y.delta)[y.node := now + y.delta]
  {
    assert ([y] + q)[1..] == q;
  }

  lemma NodesDiffer(q: seq<Sleeper>, k: nat)
    requires Distinct(Nodes(q)) && 0 < k < |q|
    ensures q[k].node != q[0].node
  {
    assert Nodes(q)[k] == q[k].node;
  }

  lemma RemoveTail(q: seq<Sleeper>, k: nat)
    requires 0 < k < |q|
    ensures Remove(q, k) == [q[0]] + Remove(q[1..], k - 1)
  {
    var t := q[1..];
    assert q[..k] == [q[0]] + t[..k - 1];
    if k + 1 < |q| { assert q[k + 2..] == t[k + 1..]; }
  }

  lemma RemoveHead(q: seq<Sleeper>, now: nat)
    requires q != []
    ensures DueFrom(Remove(q, 0), now) == DueFrom(q[1..], now + q[0].delta)
  {
    var r := Remove(q, 0);
    if |q| > 1 { assert r[1..] == q[1..][1..]; }
  }

  /* ---- the walk of __scheduler_timeout ---- */

  /** The sum of the first k delays. */
  function Elapsed(q: seq<Sleeper>, k: nat): nat
    requires k <= |q|
  {
    if k == 0 then 0 else Elapsed(q, k - 1) + q[k - 1].delta
  }

  lemma ElapsedNext(q: seq<Sleeper>, k: nat)
    requires k < |q|
    ensures Elapsed(q, k + 1) == Elapsed(q, k) + q[k].delta && Elapsed(q, 0) == 0
  {
  }

  lemma {:induction false} ElapsedTail(q: seq<Sleeper>, k: nat)
    requires 1 <= k <= |q|
    ensures Elapsed(q, k) == q[0].delta + Elapsed(q[1..], k - 1)
    decreases k
  {
    if k > 1 { ElapsedTail(q, k - 1); }
  }

  /** An entry is due after all the delays up to its own. */
  lemma {:induction false} ElapsedDue(q: seq<Sleeper>, k: nat, now: nat)
    requires Distinct(Nodes(q)) && k < |q|
    ensures q[k].node in DueFrom(q, now) && DueFrom(q, now)[q[k].node] == now + Elapsed(q, k + 1)
    decreases k
  {
    ElapsedTail(q, k + 1);
    if k > 0 {
      DistinctTail(q);
      assert Nodes(q[1..])[k - 1] == q[k].node;
      ElapsedDue(q[1..], k - 1, now + q[0].delta);
    }
  }

  /** No partial sum overflows. */
  lemma ElapsedFits(q: seq<Sleeper>, k: nat)
    requires Fitting(q) && k <= |q|
    ensures Elapsed(q, k) < TWO64
  {
    if k > 0 {
      ElapsedDue(q, k - 1, 0);
      assert q[k - 1].node in Due(q) && Due(q)[q[k - 1].node] == Elapsed(q, k);
    }
  }

  lemma CutFirst(q: seq<Sleeper>, k: nat)
    requires 1 <= k <= |q|
    ensures q[..k] == [q[0]] + q[1..][..k - 1] && q[k..] == q[1..][k - 1..]
  {
  }

  /** Where the walk stops is where the entry belongs. */
  lemma {:induction false} BehindAt(q: seq<Sleeper>, x: Sleeper, k: nat)
    requires k <= |q| && (forall j :: 1 <= j <= k ==> Elapsed(q, j) < x.delta)
    requires k == |q| || x.delta <= Elapsed(q, k + 1)
    ensures Elapsed(q, k) <= x.delta
    ensures Behind(q, x) == q[..k] + Front(q[k..], x.(delta := x.delta - Elapsed(q, k)))
    decreases k
  {
    hide Front, Elapsed;
    if q != [] { ElapsedNext(q, 0); }
    if k > 0 {
      BehindStep(q, x, k);
      BehindAt(q[1..], x.(delta := x.delta - q[0].delta), k - 1);
      CutFirst(q, k);
    } else {
      EmptySum(q);
      assert q[..0] + Front(q, x) == Front(q, x);
    }
  }

  lemma EmptySum(q: seq<Sleeper>)
    ensures Elapsed(q, 0) == 0
  {
  }

  /** The walk seen from the second entry on. */
  lemma BehindStep(q: seq<Sleeper>, x: Sleeper, k: nat)
    requires 1 <= k <= |q| && q[0].delta <= x.delta && (forall j :: 2 <= j <= k ==> Elapsed(q, j) < x.delta)
    requires k == |q| || x.delta <= Elapsed(q, k + 1)
    ensures forall j :: 1 <= j <= k - 1 ==> Elapsed(q[1..], j) < x.delta - q[0].delta
    ensures k - 1 == |q[1..]| || x.delta - q[0].delta <= Elapsed(q[1..], k)
    ensures Elapsed(q, k) == q[0].delta + Elapsed(q[1..], k - 1)
  {
    hide Elapsed;
    forall j | 1 <= j <= k - 1 ensures Elapsed(q[1..], j) < x.delta - q[0].delta { ElapsedTail(q, j + 1); }
    ElapsedTail(q, k);
    if k < |q| { ElapsedTail(q, k + 1); }
  }

  lemma InsertAt(q: seq<Sleeper>, x: Sleeper, k: nat)
    requires 1 <= k <= |q| && q[0].delta <= x.delta && (forall j :: 2 <= j <= k ==> Elapsed(q, j) < x.delta)
    requires k == |q| || x.delta <= Elapsed(q, k + 1)
    ensures Elapsed(q, k) <= x.delta
    ensures Insert(q, x) == q[..k] + Front(q[k..], x.(delta := x.delta - Elapsed(q, k)))
  {
    hide Front, Elapsed, Behind;
    BehindStep(q, x, k);
    BehindAt(q[1..], x.(delta := x.delta - q[0].delta), k - 1);
    CutFirst(q, k);
  }
}
