/** The heap as a sequence of runs, the abstract value that `mem_index` encodes.
    A run is a maximal stretch of blocks that was handed out by one allocation,
    or a stretch of free blocks.  Everything here is about values: first fit with
    split, release with merge, and the map of live allocations. */
module Runs {
  datatype Run = Run(size: nat, used: bool)

  function Total(rs: seq<Run>): nat {
    if rs == [] then 0 else rs[0].size + Total(rs[1..])
  }

  /** First block of run k. */
  function Start(rs: seq<Run>, k: nat): nat
    requires k <= |rs|
  {
    Total(rs[..k])
  }

  /** No run is empty and no two free runs are adjacent. */
  ghost predicate Canonical(rs: seq<Run>) {
    && (forall k :: 0 <= k < |rs| ==> rs[k].size >= 1)
    && (forall k :: 0 < k < |rs| ==> rs[k - 1].used || rs[k].used)
  }

  predicate Sized(rs: seq<Run>) { forall i :: 0 <= i < |rs| ==> rs[i].size >= 1 }

  /** The allocations in use, first block to size, for runs laid out from block `off`. */
  function LiveFrom(rs: seq<Run>, off: nat): map<nat, nat> {
    if rs == [] then map[]
    else
      var rest := LiveFrom(rs[1..], off + rs[0].size);
      if rs[0].used then rest[off := rs[0].size] else rest
  }

  function Live(rs: seq<Run>): map<nat, nat> { LiveFrom(rs, 0) }

  ghost predicate Fits(r: Run, n: nat) { !r.used && r.size >= n }

  /** k is the first free run of at least n blocks. */
  ghost predicate IsFirstFit(rs: seq<Run>, k: nat, n: nat) {
    && k < |rs| && Fits(rs[k], n)
    && forall j :: 0 <= j < k ==> !Fits(rs[j], n)
  }

  ghost predicate CanAlloc(rs: seq<Run>, n: nat) {
    exists k :: 0 <= k < |rs| && Fits(rs[k], n)
  }

  /** Index of the first fit, or |rs|. */
  function FirstFit(rs: seq<Run>, n: nat): (k: nat)
    ensures k <= |rs|
    ensures forall j :: 0 <= j < k ==> !Fits(rs[j], n)
    ensures k < |rs| ==> IsFirstFit(rs, k, n)
    ensures k == |rs| <==> !CanAlloc(rs, n)
  {
    if rs == [] then 0
    else if !rs[0].used && rs[0].size >= n then assert Fits(rs[0], n); 0
    else
      var k := FirstFit(rs[1..], n);
      assert forall j :: 0 < j < |rs| ==> rs[j] == rs[1..][j - 1];
      assert k < |rs[1..]| ==> Fits(rs[k + 1], n);
      1 + k
  }

  /** What a free run becomes when its first n blocks are handed out. */
  function Taken(size: nat, n: nat): seq<Run>
    requires n <= size
  {
    if size == n then [Run(n, true)] else [Run(n, true), Run(size - n, false)]
  }

  /** Take the first n blocks of free run k. */
  function AllocAt(rs: seq<Run>, k: nat, n: nat): seq<Run>
    requires k < |rs| && rs[k].size >= n
  {
    rs[..k] + Taken(rs[k].size, n) + rs[k + 1..]
  }

  function FreeLo(rs: seq<Run>, k: nat): (lo: nat)
    requires k < |rs|
    ensures lo <= k
  {
    if k > 0 && !rs[k - 1].used then k - 1 else k
  }

  function FreeHi(rs: seq<Run>, k: nat): (hi: nat)
    requires k < |rs|
    ensures k < hi <= |rs|
  {
    if k + 1 < |rs| && !rs[k + 1].used then k + 2 else k + 1
  }

  /** Give run k back and merge it with its free neighbours. */
  function FreeAt(rs: seq<Run>, k: nat): seq<Run>
    requires k < |rs|
  {
    rs[..FreeLo(rs, k)]
    + [Run(Total(rs[FreeLo(rs, k)..FreeHi(rs, k)]), false)]
    + rs[FreeHi(rs, k)..]
  }

  /* ---- layout ---- */

  lemma {:induction false} TotalConcat(a: seq<Run>, b: seq<Run>)
    ensures Total(a + b) == Total(a) + Total(b)
  {
    if a == [] {
      assert a + b == b;
    } else {
      assert (a + b)[1..] == a[1..] + b;
      TotalConcat(a[1..], b);
    }
  }

  lemma TotalOne(r: Run)
    ensures Total([r]) == r.size
  {
    assert [r][1..] == [];
  }

  lemma Cut<T>(s: seq<T>, lo: nat, hi: nat)
    requires lo <= hi <= |s|
    ensures s[..hi] == s[..lo] + s[lo..hi]
    ensures s == s[..lo] + s[lo..hi] + s[hi..]
  {
  }

  lemma TotalParts(a: seq<Run>, r: Run, b: seq<Run>)
    ensures Total(a + [r]) == Total(a) + r.size
    ensures Total(a + [r] + b) == Total(a) + r.size + Total(b)
  {
    TotalConcat(a, [r]);
    TotalOne(r);
    TotalConcat(a + [r], b);
  }

  /** Split a run sequence around run k. */
  lemma SplitAt(rs: seq<Run>, k: nat)
    requires k < |rs|
    ensures rs == rs[..k] + [rs[k]] + rs[k + 1..]
    ensures Start(rs, k + 1) == Start(rs, k) + rs[k].size
    ensures Total(rs) == Start(rs, k) + rs[k].size + Total(rs[k + 1..])
  {
    hide Total;
    Cut(rs, k, k + 1);
    assert rs[k..k + 1] == [rs[k]];
    TotalParts(rs[..k], rs[k], rs[k + 1..]);
  }

  lemma {:induction false} StartMonotone(rs: seq<Run>, j: nat, k: nat)
    requires j <= k <= |rs|
    requires Sized(rs)
    ensures Start(rs, j) + (k - j) <= Start(rs, k) <= Total(rs)
    decreases k - j
  {
    if j < k {
      SplitAt(rs, j);
      StartMonotone(rs, j + 1, k);
    } else {
      assert rs == rs[..k] + rs[k..];
      TotalConcat(rs[..k], rs[k..]);
    }
  }

  lemma {:induction false} LiveConcat(a: seq<Run>, b: seq<Run>, off: nat)
    ensures LiveFrom(a + b, off) == LiveFrom(b, off + Total(a)) + LiveFrom(a, off)
    decreases |a|
  {
    if a == [] {
      assert a + b == b;
    } else {
      assert (a + b)[1..] == a[1..] + b;
      LiveConcat(a[1..], b, off + a[0].size);
    }
  }

  /** Every live allocation lies inside the laid-out blocks. */
  lemma {:induction false} LiveBounds(rs: seq<Run>, off: nat, b: nat)
    requires b in LiveFrom(rs, off)
    ensures off <= b && b + LiveFrom(rs, off)[b] <= off + Total(rs)
    decreases |rs|
  {
    if rs[0].used && b == off {
    } else {
      LiveBounds(rs[1..], off + rs[0].size, b);
    }
  }

  lemma StartNext(rs: seq<Run>, k: nat)
    requires 0 < k <= |rs|
    ensures Start(rs, k) == rs[0].size + Start(rs[1..], k - 1)
  {
    assert rs[..k][1..] == rs[1..][..k - 1];
  }

  lemma StartFirst(rs: seq<Run>)
    ensures Start(rs, 0) == 0
  {
  }

  /** The live map names exactly the used runs. */
  lemma {:induction false} LiveIsUsed(rs: seq<Run>, off: nat, b: nat)
    requires Sized(rs)
    ensures b in LiveFrom(rs, off) <==>
            exists k :: 0 <= k < |rs| && rs[k].used && off + Start(rs, k) == b
    ensures forall k :: 0 <= k < |rs| && rs[k].used && off + Start(rs, k) == b
              ==> b in LiveFrom(rs, off) && LiveFrom(rs, off)[b] == rs[k].size
    decreases |rs|
  {
    hide Start, Total;
    if rs != [] {
      var r, t := rs[0], rs[1..];
      LiveIsUsed(t, off + r.size, b);
      StartFirst(rs);
      forall k | 0 < k < |rs| ensures Start(rs, k) == r.size + Start(t, k - 1) && rs[k] == t[k - 1] {
        StartNext(rs, k);
      }
      if b in LiveFrom(t, off + r.size) {
        LiveBounds(t, off + r.size, b);
        var k :| 0 <= k < |t| && t[k].used && off + r.size + Start(t, k) == b;
        assert Start(rs, k + 1) == r.size + Start(t, k);
      }
    }
  }

  /** Distinct live allocations do not overlap. */
  lemma LiveDisjoint(rs: seq<Run>, a: nat, b: nat)
    requires Sized(rs)
    requires a in Live(rs) && b in Live(rs) && a < b
    ensures a + Live(rs)[a] <= b
  {
    LiveIsUsed(rs, 0, a);
    LiveIsUsed(rs, 0, b);
    var j :| 0 <= j < |rs| && rs[j].used && Start(rs, j) == a;
    var k :| 0 <= k < |rs| && rs[k].used && Start(rs, k) == b;
    if k <= j {
      StartMonotone(rs, k, j);
    } else {
      SplitAt(rs, j);
      StartMonotone(rs, j + 1, k);
    }
  }

  /* ---- splicing: allocation and release both replace a stretch of runs by another ---- */

  lemma CanonicalPair(a: seq<Run>, b: seq<Run>)
    requires Canonical(a + b)
    ensures Canonical(a) && Canonical(b)
    ensures a != [] && b != [] ==> a[|a| - 1].used || b[0].used
  {
    var rs := a + b;
    assert forall k :: 0 <= k < |a| ==> rs[k] == a[k];
    assert forall k :: 0 <= k < |b| ==> rs[|a| + k] == b[k];
    if a != [] && b != [] { assert rs[|a| - 1].used || rs[|a|].used; }
  }

  lemma CanonicalParts(a: seq<Run>, m: seq<Run>, b: seq<Run>)
    requires Canonical(a + m + b)
    ensures Canonical(a) && Canonical(m) && Canonical(b)
    ensures a != [] && m != [] ==> a[|a| - 1].used || m[0].used
    ensures b != [] && m != [] ==> m[|m| - 1].used || b[0].used
  {
    hide Canonical;
    CanonicalPair(a + m, b);
    CanonicalPair(a, m);
    assert m != [] ==> (a + m)[|a + m| - 1] == m[|m| - 1];
  }

  lemma CanonicalJoin(a: seq<Run>, b: seq<Run>)
    requires Canonical(a) && Canonical(b)
    requires a != [] && b != [] ==> a[|a| - 1].used || b[0].used
    ensures Canonical(a + b)
  {
  }

  /** Replacing a stretch by another of the same total size keeps the heap canonical,
      provided the ends still fit. */
  lemma Splice(a: seq<Run>, m: seq<Run>, m': seq<Run>, b: seq<Run>)
    requires Canonical(a + m + b) && Canonical(m') && m' != []
    requires Total(m) == Total(m')
    requires a != [] ==> a[|a| - 1].used || m'[0].used
    requires b != [] ==> m'[|m'| - 1].used || b[0].used
    ensures Canonical(a + m' + b) && Total(a + m' + b) == Total(a + m + b)
  {
    CanonicalParts(a, m, b);
    CanonicalJoin(a, m');
    CanonicalJoin(a + m', b);
    TotalConcat(a, m);
    TotalConcat(a + m, b);
    TotalConcat(a, m');
    TotalConcat(a + m', b);
  }

  lemma LiveThree(a: seq<Run>, m: seq<Run>, b: seq<Run>)
    ensures Live(a + m + b)
         == LiveFrom(b, Total(a) + Total(m)) + (LiveFrom(m, Total(a)) + LiveFrom(a, 0))
  {
    LiveConcat(a + m, b, 0);
    LiveConcat(a, m, 0);
    TotalConcat(a, m);
  }

  /** If one of two stretches of equal size holds nothing live and the other holds one entry,
      the heaps around them differ by exactly that entry. */
  lemma SpliceLive(a: seq<Run>, empty: seq<Run>, full: seq<Run>, z: seq<Run>, b: nat, n: nat)
    requires Canonical(a) && Total(empty) == Total(full)
    requires LiveFrom(empty, Total(a)) == map[]
    requires LiveFrom(full, Total(a)) == map[b := n]
    requires Total(a) <= b < Total(a) + Total(full)
    ensures b !in Live(a + empty + z)
    ensures Live(a + full + z) == Live(a + empty + z)[b := n]
    ensures Live(a + empty + z) == Live(a + full + z) - {b}
  {
    LiveThree(a, empty, z);
    LiveThree(a, full, z);
    var off := Total(a) + Total(full);
    assert b !in LiveFrom(z, off) by {
      if b in LiveFrom(z, off) { LiveBounds(z, off, b); }
    }
    assert b !in LiveFrom(a, 0) by {
      if b in LiveFrom(a, 0) { LiveBounds(a, 0, b); LiveSizes(a, 0, b); }
    }
  }

  lemma {:induction false} LiveSizes(rs: seq<Run>, off: nat, b: nat)
    requires Sized(rs)
    requires b in LiveFrom(rs, off)
    ensures LiveFrom(rs, off)[b] >= 1
    decreases |rs|
  {
    if !(rs[0].used && b == off) {
      LiveSizes(rs[1..], off + rs[0].size, b);
    }
  }

  /* ---- allocation ---- */

  lemma TakenFacts(size: nat, n: nat, off: nat)
    requires 1 <= n <= size
    ensures Canonical(Taken(size, n)) && Total(Taken(size, n)) == size
    ensures LiveFrom(Taken(size, n), off) == map[off := n]
  {
    var t := Taken(size, n);
    if size == n {
      SingleFacts(Run(n, true), off);
    } else {
      assert t[1..] == [Run(size - n, false)];
      SingleFacts(Run(size - n, false), off + n);
    }
  }

  lemma SingleFacts(r: Run, off: nat)
    ensures Total([r]) == r.size
    ensures LiveFrom([r], off) == if r.used then map[off := r.size] else map[]
  {
    assert [r][1..] == [];
  }

  lemma AllocCanonical(rs: seq<Run>, k: nat, n: nat)
    requires Canonical(rs) && n >= 1 && k < |rs| && Fits(rs[k], n)
    ensures Canonical(AllocAt(rs, k, n))
    ensures Total(AllocAt(rs, k, n)) == Total(rs)
  {
    SplitAt(rs, k);
    SingleFacts(rs[k], 0);
    TakenFacts(rs[k].size, n, 0);
    CanonicalParts(rs[..k], [rs[k]], rs[k + 1..]);
    Splice(rs[..k], [rs[k]], Taken(rs[k].size, n), rs[k + 1..]);
  }

  /** Allocation adds one live entry, at a block that starts no live allocation, and changes no other. */
  lemma AllocLive(rs: seq<Run>, k: nat, n: nat)
    requires Canonical(rs) && n >= 1 && k < |rs| && Fits(rs[k], n)
    ensures Start(rs, k) !in Live(rs)
    ensures Live(AllocAt(rs, k, n)) == Live(rs)[Start(rs, k) := n]
  {
    SplitAt(rs, k);
    var b := Start(rs, k);
    SingleFacts(rs[k], b);
    TakenFacts(rs[k].size, n, b);
    CanonicalParts(rs[..k], [rs[k]], rs[k + 1..]);
    SpliceLive(rs[..k], [rs[k]], Taken(rs[k].size, n), rs[k + 1..], b, n);
  }

  /* ---- release ---- */

  lemma TotalPositive(rs: seq<Run>)
    requires rs != [] && rs[0].size >= 1
    ensures Total(rs) >= 1
  {
  }

  lemma FreeCanonical(rs: seq<Run>, k: nat)
    requires Canonical(rs) && k < |rs| && rs[k].used
    ensures Canonical(FreeAt(rs, k))
    ensures Total(FreeAt(rs, k)) == Total(rs)
  {
    var lo, hi := FreeLo(rs, k), FreeHi(rs, k);
    var mid := rs[lo..hi];
    hide Total;
    Cut(rs, lo, hi);
    SingleFacts(Run(Total(mid), false), 0);
    TotalPositive(mid);
    Splice(rs[..lo], mid, [Run(Total(mid), false)], rs[hi..]);
  }

  /** Release removes exactly the entry of the released run. */
  lemma FreeLive(rs: seq<Run>, k: nat)
    requires Canonical(rs) && k < |rs| && rs[k].used
    ensures Start(rs, k) in Live(rs) && Live(rs)[Start(rs, k)] == rs[k].size
    ensures Live(FreeAt(rs, k)) == Live(rs) - {Start(rs, k)}
  {
    var lo, hi := FreeLo(rs, k), FreeHi(rs, k);
    var mid := rs[lo..hi];
    assert rs == rs[..lo] + mid + rs[hi..];
    MidLive(rs, k);
    SingleFacts(Run(Total(mid), false), Start(rs, lo));
    CanonicalParts(rs[..lo], mid, rs[hi..]);
    SpliceLive(rs[..lo], [Run(Total(mid), false)], mid, rs[hi..], Start(rs, k), rs[k].size);
  }

  /** The merged stretch holds just the released run. */
  lemma MidLive(rs: seq<Run>, k: nat)
    requires Canonical(rs) && k < |rs| && rs[k].used
    ensures var lo, hi := FreeLo(rs, k), FreeHi(rs, k);
            && LiveFrom(rs[lo..hi], Start(rs, lo)) == map[Start(rs, k) := rs[k].size]
            && Start(rs, lo) <= Start(rs, k) < Start(rs, lo) + Total(rs[lo..hi])
  {
    var lo, hi := FreeLo(rs, k), FreeHi(rs, k);
    var a, m, b := rs[lo..k], [rs[k]], rs[k + 1..hi];
    assert rs[lo..hi] == a + m + b;
    assert Start(rs, k) == Start(rs, lo) + Total(a) by {
      assert rs[..k] == rs[..lo] + a;
      TotalConcat(rs[..lo], a);
    }
    LiveConcat(a + m, b, Start(rs, lo));
    LiveConcat(a, m, Start(rs, lo));
    if a != [] { assert a == [rs[k - 1]]; SingleFacts(rs[k - 1], Start(rs, lo)); }
    if b != [] { assert b == [rs[k + 1]]; SingleFacts(rs[k + 1], Start(rs, lo) + Total(a + m)); }
    SingleFacts(rs[k], Start(rs, k));
    TotalConcat(a, m);
    TotalConcat(a + m, b);
  }

  /* ---- the live map determines the heap ---- */

  /** Two canonical heaps of the same size with the same live allocations are the same heap. */
  lemma {:induction false} CanonicalUnique(xs: seq<Run>, ys: seq<Run>, off: nat)
    requires Canonical(xs) && Canonical(ys)
    requires Total(xs) == Total(ys)
    requires LiveFrom(xs, off) == LiveFrom(ys, off)
    ensures xs == ys
    decreases |xs|
  {
    if xs == [] || ys == [] {
      assert xs == [] && ys == [];
    } else {
      HeadAgrees(xs, ys, off);
      HeadAgrees(ys, xs, off);
      var n := xs[0].size;
      TailLive(xs, off);
      TailLive(ys, off);
      assert Canonical(xs[1..]) by { assert forall k :: 0 <= k < |xs[1..]| ==> xs[1..][k] == xs[k + 1]; }
      assert Canonical(ys[1..]) by { assert forall k :: 0 <= k < |ys[1..]| ==> ys[1..][k] == ys[k + 1]; }
      CanonicalUnique(xs[1..], ys[1..], off + n);
      assert xs == [xs[0]] + xs[1..] && ys == [ys[0]] + ys[1..];
    }
  }

  lemma TailLive(xs: seq<Run>, off: nat)
    requires xs != [] && Canonical(xs)
    ensures LiveFrom(xs[1..], off + xs[0].size) == LiveFrom(xs, off) - {off}
  {
    if off in LiveFrom(xs[1..], off + xs[0].size) {
      LiveBounds(xs[1..], off + xs[0].size, off);
    }
  }

  /** The first run of one heap is no smaller than, and used like, that of the other. */
  lemma HeadAgrees(xs: seq<Run>, ys: seq<Run>, off: nat)
    requires Canonical(xs) && Canonical(ys) && xs != [] && ys != []
    requires Total(xs) == Total(ys)
    requires LiveFrom(xs, off) == LiveFrom(ys, off)
    ensures xs[0].used ==> ys[0].used && xs[0].size == ys[0].size
    ensures !xs[0].used && !ys[0].used ==> xs[0].size >= ys[0].size
  {
    if xs[0].used {
      assert off in LiveFrom(ys, off);
      if !ys[0].used { LiveBounds(ys[1..], off + ys[0].size, off); }
    } else if !ys[0].used && xs[0].size < ys[0].size {
      var b := off + xs[0].size;
      if |xs| > 1 {
        assert xs[1].used && xs[1..][0] == xs[1];
        assert b in LiveFrom(ys[1..], off + ys[0].size);
        LiveBounds(ys[1..], off + ys[0].size, b);
      }
    }
  }
}

/** Histories of allocations and releases over a booted heap. */
module HeapHistory {
  import opened Options
  import opened Runs

  /** What `__mem_init` sets up: the index's own run, then one free run. */
  function Boot(n: nat, index: nat): seq<Run>
    requires index <= n
  {
    [Run(index, true), Run(n - index, false)]
  }

  /** The heap between operations: canonical, of n blocks, with the index's run in front. */
  ghost predicate Heap(rs: seq<Run>, n: nat, index: nat) {
    && Canonical(rs) && Total(rs) == n
    && rs != [] && rs[0] == Run(index, true)
  }

  /** Which run starts at block b of a live allocation. */
  function RunAt(rs: seq<Run>, b: nat, off: nat): (k: nat)
    requires Sized(rs)
    requires b in LiveFrom(rs, off)
    ensures k < |rs| && rs[k].used && off + Start(rs, k) == b
    ensures rs[k].size == LiveFrom(rs, off)[b]
    decreases |rs|
  {
    if rs[0].used && b == off then 0
    else
      var k := RunAt(rs[1..], b, off + rs[0].size);
      assert rs[..k + 1][1..] == rs[1..][..k];
      1 + k
  }

  datatype Op = Take(n: nat) | Give(block: nat)

  /** `__mem_alloc` of at least one block. */
  function TakeRuns(rs: seq<Run>, n: nat): Option<(seq<Run>, nat)> {
    var k := FirstFit(rs, n);
    if k < |rs| then Some((AllocAt(rs, k, n), Start(rs, k))) else None
  }

  /** `__mem_free` of a live allocation. */
  function GiveRuns(rs: seq<Run>, b: nat): seq<Run>
    requires Sized(rs)
    requires b in Live(rs)
  {
    FreeAt(rs, RunAt(rs, b, 0))
  }

  /** A successful allocation returns a block that starts no live allocation and adds just that entry;
      it fails exactly when no free run is large enough. */
  lemma TakeFacts(rs: seq<Run>, n: nat, total: nat, index: nat)
    requires Heap(rs, total, index) && n >= 1
    ensures TakeRuns(rs, n).None? <==> !CanAlloc(rs, n)
    ensures TakeRuns(rs, n).Some? ==>
              var (rs', b) := TakeRuns(rs, n).value;
              && Heap(rs', total, index)
              && b !in Live(rs) && Live(rs') == Live(rs)[b := n]
              && index <= b && b + n <= total
  {
    var k := FirstFit(rs, n);
    if k < |rs| {
      AllocCanonical(rs, k, n);
      AllocLive(rs, k, n);
      LiveBounds(AllocAt(rs, k, n), 0, Start(rs, k));
      StartMonotone(rs, 1, k);
      assert rs[..1] == [Run(index, true)];
      TotalOne(rs[0]);
    }
  }

  /** Releasing a live allocation other than the index removes just its entry. */
  lemma GiveFacts(rs: seq<Run>, b: nat, total: nat, index: nat)
    requires Heap(rs, total, index)
    requires b in Live(rs) && b != 0
    ensures Heap(GiveRuns(rs, b), total, index)
    ensures Live(GiveRuns(rs, b)) == Live(rs) - {b}
  {
    var k := RunAt(rs, b, 0);
    FreeCanonical(rs, k);
    FreeLive(rs, k);
    assert k != 0 by { assert rs[..0] == []; }
    assert FreeLo(rs, k) >= 1;
  }

  ghost predicate Legal(rs: seq<Run>, op: Op) {
    match op
    case Take(n) => n >= 1
    case Give(b) => b != 0 && b in Live(rs)
  }

  ghost function Apply(rs: seq<Run>, op: Op): seq<Run>
    requires Sized(rs)
    requires Legal(rs, op)
  {
    match op
    case Take(n) => (match TakeRuns(rs, n) case Some(p) => p.0 case None => rs)
    case Give(b) => GiveRuns(rs, b)
  }

  /** `rs` is a heap some legal sequence of operations leads to from `from`. */
  ghost predicate Reaches(from: seq<Run>, ops: seq<Op>, rs: seq<Run>)
    decreases |ops|
  {
    if ops == [] then rs == from
    else
      && Sized(from)
      && Legal(from, ops[0]) && Reaches(Apply(from, ops[0]), ops[1..], rs)
  }

  lemma BootIsHeap(n: nat, index: nat)
    requires 1 <= index < n
    ensures Heap(Boot(n, index), n, index)
    ensures Live(Boot(n, index)) == map[0 := index]
  {
    var rs := Boot(n, index);
    assert rs == [rs[0]] + [rs[1]];
    TotalConcat([rs[0]], [rs[1]]);
    SingleFacts(rs[0], 0);
    SingleFacts(rs[1], index);
    LiveConcat([rs[0]], [rs[1]], 0);
  }

  /** Every legal history keeps the heap canonical, tiling all n blocks, with the index in place. */
  lemma {:induction false} HistoryKeepsHeap(from: seq<Run>, ops: seq<Op>, rs: seq<Run>, n: nat, index: nat)
    requires Heap(from, n, index) && Reaches(from, ops, rs)
    ensures Heap(rs, n, index)
    decreases |ops|
  {
    if ops != [] {
      match ops[0] {
        case Take(m) => TakeFacts(from, m, n, index);
        case Give(b) => GiveFacts(from, b, n, index);
      }
      HistoryKeepsHeap(Apply(from, ops[0]), ops[1..], rs, n, index);
    }
  }

  /** The order of operations leaves no trace: histories that end with the same live
      allocations end with the same runs. */
  lemma HistoriesConfluent(ops: seq<Op>, ops': seq<Op>, rs: seq<Run>, rs': seq<Run>, n: nat, index: nat)
    requires 1 <= index < n
    requires Reaches(Boot(n, index), ops, rs) && Reaches(Boot(n, index), ops', rs')
    requires Live(rs) == Live(rs')
    ensures rs == rs'
  {
    BootIsHeap(n, index);
    HistoryKeepsHeap(Boot(n, index), ops, rs, n, index);
    HistoryKeepsHeap(Boot(n, index), ops', rs', n, index);
    CanonicalUnique(rs, rs', 0);
  }

  /** Once everything allocated after boot is released, in any order, the boot heap is back. */
  lemma AllReleasedIsBoot(ops: seq<Op>, rs: seq<Run>, n: nat, index: nat)
    requires 1 <= index < n
    requires Reaches(Boot(n, index), ops, rs)
    requires Live(rs).Keys == {0}
    ensures rs == Boot(n, index)
  {
    BootIsHeap(n, index);
    HistoryKeepsHeap(Boot(n, index), ops, rs, n, index);
    LiveIsUsed(rs, 0, 0);
    assert rs[..0] == [];
    assert Live(rs)[0] == index;
    CanonicalUnique(rs, Boot(n, index), 0);
  }

  /** Releasing what was just allocated restores the heap before that allocation. */
  lemma TakeGiveRoundTrip(rs: seq<Run>, m: nat, n: nat, index: nat)
    requires Heap(rs, n, index) && m >= 1 && TakeRuns(rs, m).Some?
    ensures var (rs', b) := TakeRuns(rs, m).value;
            && b != 0 && Heap(rs', n, index) && b in Live(rs') && GiveRuns(rs', b) == rs
  {
    var (rs', b) := TakeRuns(rs, m).value;
    TakeFacts(rs, m, n, index);
    assert rs[0].size >= 1;
    GiveFacts(rs', b, n, index);
    assert Live(GiveRuns(rs', b)) == Live(rs);
    CanonicalUnique(GiveRuns(rs', b), rs, 0);
  }
}
