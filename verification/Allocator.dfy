/** How `mem_index` encodes a run sequence: a signed length at both ends of every run
    (positive when in use, negative when free) and zero in between. */
module IndexEncoding {
  import opened Runs

  function Tag(r: Run): int { if r.used then r.size as int else -(r.size as int) }

  function Cells(r: Run): (c: seq<int>)
    ensures |c| == r.size
    ensures forall k :: 0 <= k < r.size ==> c[k] == if k == 0 || k == r.size - 1 then Tag(r) else 0
  {
    seq(r.size, k => if k == 0 || k == r.size - 1 then Tag(r) else 0)
  }

  function Encode(rs: seq<Run>): (c: seq<int>)
    ensures |c| == Total(rs)
  {
    if rs == [] then [] else Cells(rs[0]) + Encode(rs[1..])
  }

  /** Some sequence of non-empty runs has these cells. */
  ghost predicate Encodable(c: seq<int>) { exists rs :: Sized(rs) && Encode(rs) == c }

  lemma {:induction false} EncodeConcat(a: seq<Run>, b: seq<Run>)
    ensures Encode(a + b) == Encode(a) + Encode(b)
  {
    if a == [] {
      assert a + b == b;
    } else {
      assert (a + b)[1..] == a[1..] + b;
      EncodeConcat(a[1..], b);
    }
  }

  lemma EncodeOne(r: Run)
    ensures Encode([r]) == Cells(r)
  {
    assert [r][1..] == [];
  }

  lemma EncodeThree(a: seq<Run>, m: seq<Run>, b: seq<Run>)
    ensures Encode(a + m + b) == Encode(a) + Encode(m) + Encode(b)
  {
    EncodeConcat(a + m, b);
    EncodeConcat(a, m);
  }

  /** The cells of run k. */
  lemma CellsOf(rs: seq<Run>, k: nat)
    requires k < |rs|
    ensures var i := Start(rs, k);
            && i + rs[k].size <= Total(rs)
            && Encode(rs)[i..i + rs[k].size] == Cells(rs[k])
            && Encode(rs)[..i] == Encode(rs[..k])
            && Encode(rs)[i + rs[k].size..] == Encode(rs[k + 1..])
  {
    hide Encode, Cells, Total;
    SplitAt(rs, k);
    EncodeOne(rs[k]);
    EncodeThree(rs[..k], [rs[k]], rs[k + 1..]);
  }

  lemma SliceAt(c: seq<int>, i: nat, r: Run)
    requires r.size >= 1 && i + r.size <= |c| && c[i..i + r.size] == Cells(r)
    ensures c[i] == Tag(r) && c[i + r.size - 1] == Tag(r)
    ensures forall j :: i < j < i + r.size - 1 ==> c[j] == 0
  {
    var e := c[i..i + r.size];
    assert c[i] == e[0] && c[i + r.size - 1] == e[r.size - 1];
    assert forall j :: i < j < i + r.size - 1 ==> c[j] == e[j - i];
  }

  /** Both ends of run k carry its tag. */
  lemma TagsOf(rs: seq<Run>, k: nat)
    requires k < |rs| && rs[k].size >= 1
    ensures var i := Start(rs, k);
            && i + rs[k].size <= Total(rs)
            && Encode(rs)[i] == Tag(rs[k]) && Encode(rs)[i + rs[k].size - 1] == Tag(rs[k])
            && forall j :: i < j < i + rs[k].size - 1 ==> Encode(rs)[j] == 0
  {
    CellsOf(rs, k);
    SliceAt(Encode(rs), Start(rs, k), rs[k]);
  }

  /** Every block belongs to one run. */
  lemma {:induction false} RunOf(rs: seq<Run>, j: nat) returns (k: nat)
    requires Sized(rs) && j < Total(rs)
    ensures k < |rs| && Start(rs, k) <= j < Start(rs, k) + rs[k].size
    decreases |rs|
  {
    if j < rs[0].size {
      k := 0;
    } else {
      var t := RunOf(rs[1..], j - rs[0].size);
      k := t + 1;
      assert rs[..k][1..] == rs[1..][..t];
    }
  }

  /** The cells determine the runs. */
  lemma {:induction false} EncodeInjective(xs: seq<Run>, ys: seq<Run>)
    requires Sized(xs) && Sized(ys) && Encode(xs) == Encode(ys)
    ensures xs == ys
  {
    if xs == [] || ys == [] {
      NoCells(xs);
      NoCells(ys);
    } else {
      var n := xs[0].size;
      FirstRun(xs);
      FirstRun(ys);
      EncodeInjective(xs[1..], ys[1..]);
      assert xs == [xs[0]] + xs[1..] && ys == [ys[0]] + ys[1..];
    }
  }

  lemma NoCells(rs: seq<Run>)
    requires Sized(rs)
    ensures |Encode(rs)| == 0 <==> rs == []
  {
  }

  /** The first run shows in the first cell, and the rest behind it. */
  lemma FirstRun(rs: seq<Run>)
    requires Sized(rs) && rs != []
    ensures var c := Encode(rs);
            && |c| >= rs[0].size >= 1
            && rs[0] == (if c[0] > 0 then Run(c[0], true) else Run(-c[0], false))
            && Encode(rs[1..]) == c[rs[0].size..]
  {
    TagsOf(rs, 0);
    assert rs[..0] == [];
  }

  /** A cell sequence that follows an encoding up to run k and then has no tag, or two
      different tags, at the ends of run k encodes nothing. */
  lemma {:induction false} NotEncodable(rs: seq<Run>, k: nat, c: seq<int>)
    requires Sized(rs) && k < |rs| && |c| == Total(rs)
    requires Start(rs, k) + rs[k].size <= |c|
    requires c[..Start(rs, k)] == Encode(rs)[..Start(rs, k)]
    requires var i := Start(rs, k);
             || c[i] == 0
             || (c[i] == Tag(rs[k]) && c[i + rs[k].size - 1] != Tag(rs[k]))
    ensures !Encodable(c)
  {
    CellsOf(rs, k);
    forall ts | Sized(ts) ensures Encode(ts) != c {
      DiffersAt(rs, k, c, ts);
    }
  }

  lemma {:induction false} DiffersAt(rs: seq<Run>, k: nat, c: seq<int>, ts: seq<Run>)
    requires Sized(rs) && Sized(ts) && k < |rs|
    requires Start(rs, k) + rs[k].size <= |c|
    requires c[..Start(rs, k)] == Encode(rs[..k])
    requires var i := Start(rs, k);
             || c[i] == 0
             || (c[i] == Tag(rs[k]) && c[i + rs[k].size - 1] != Tag(rs[k]))
    ensures Encode(ts) != c
    decreases k
  {
    if Encode(ts) == c {
      assert ts != [];
      TagsOf(ts, 0);
      assert ts[..0] == [] && rs[..0] == [];
      if k > 0 {
        SameFirst(rs, k, c, ts);
        DiffersAt(rs[1..], k - 1, c[rs[0].size..], ts[1..]);
      }
    }
  }

  lemma SameFirst(rs: seq<Run>, k: nat, c: seq<int>, ts: seq<Run>)
    requires Sized(rs) && Sized(ts) && 0 < k < |rs| && ts != []
    requires Start(rs, k) + rs[k].size <= |c|
    requires c[..Start(rs, k)] == Encode(rs[..k])
    requires Encode(ts) == c
    ensures rs[0].size <= |c| && ts[0] == rs[0] && Encode(ts[1..]) == c[rs[0].size..]
    ensures Start(rs, k) == rs[0].size + Start(rs[1..], k - 1)
    ensures Start(rs[1..], k - 1) <= |c[rs[0].size..]|
    ensures c[rs[0].size..][..Start(rs[1..], k - 1)] == Encode(rs[1..][..k - 1])
  {
    var a := rs[..k];
    TagsOf(ts, 0);
    TagsOf(a, 0);
    assert ts[..0] == [] && a[..0] == [];
    assert c[0] == c[..Start(rs, k)][0];
    assert a[1..] == rs[1..][..k - 1];
    var n := rs[0].size;
    assert c[n..][..Start(rs, k) - n] == c[..Start(rs, k)][n..];
  }

  /** Writing inside a stretch is writing to that stretch. */
  lemma WriteInside(a: seq<int>, m: seq<int>, b: seq<int>, p: nat, v: int)
    requires p < |m|
    ensures (a + m + b)[|a| + p := v] == a + m[p := v] + b
  {
  }

  /** The writes of a successful search at a stretch of `count` cells. */
  function TakeWrites(c: seq<int>, i: nat, count: nat, m: nat): seq<int>
    requires 1 <= count && m <= count && i + count <= |c| && 1 <= i + m
  {
    if count > m
    then c[i + count - 1 := -(count - m)][i + m := -(count - m)][i + m - 1 := m][i := m]
    else c[i := m][i + m - 1 := m]
  }

  lemma TakeWritesInside(a: seq<int>, e: seq<int>, b: seq<int>, m: nat)
    requires 1 <= m <= |e|
    ensures TakeWrites(a + e + b, |a|, |e|, m) == a + TakeWrites(e, 0, |e|, m) + b
  {
    var count := |e|;
    if count > m {
      WriteInside(a, e, b, count - 1, -(count - m));
      var e1 := e[count - 1 := -(count - m)];
      WriteInside(a, e1, b, m, -(count - m));
      var e2 := e1[m := -(count - m)];
      WriteInside(a, e2, b, m - 1, m);
      WriteInside(a, e2[m - 1 := m], b, 0, m);
    } else {
      WriteInside(a, e, b, 0, m);
      WriteInside(a, e[0 := m], b, m - 1, m);
    }
  }

  /** Taking n of c free blocks, as cells. */
  lemma TakeCells(c: nat, n: nat)
    requires 1 <= n <= c
    ensures TakeWrites(Cells(Run(c, false)), 0, c, n) == Encode(Taken(c, n))
  {
    var e := TakeWrites(Cells(Run(c, false)), 0, c, n);
    EncodeOne(Run(n, true));
    if c > n {
      EncodeConcat([Run(n, true)], [Run(c - n, false)]);
      EncodeOne(Run(c - n, false));
      assert Taken(c, n) == [Run(n, true)] + [Run(c - n, false)];
      var t := Cells(Run(n, true)) + Cells(Run(c - n, false));
      assert |e| == |t|;
      forall i | 0 <= i < |e| ensures e[i] == t[i] {
        if i >= n { assert t[i] == Cells(Run(c - n, false))[i - n]; }
      }
    }
  }

  /** Those writes turn the encoding of a heap into the encoding of the heap after the allocation. */
  lemma TookSome(rs: seq<Run>, k: nat, m: nat)
    requires k < |rs| && m >= 1 && Fits(rs[k], m)
    ensures Start(rs, k) + rs[k].size <= Total(rs)
    ensures TakeWrites(Encode(rs), Start(rs, k), rs[k].size, m) == Encode(AllocAt(rs, k, m))
  {
    SplitAt(rs, k);
    TookSomeBetween(rs[..k], rs[k].size, m, rs[k + 1..]);
  }

  lemma TookSomeBetween(a: seq<Run>, count: nat, m: nat, b: seq<Run>)
    requires 1 <= m <= count
    ensures Total(a) + count <= Total(a + [Run(count, false)] + b)
    ensures TakeWrites(Encode(a + [Run(count, false)] + b), Total(a), count, m)
         == Encode(a + Taken(count, m) + b)
  {
    EncodeThree(a, [Run(count, false)], b);
    EncodeOne(Run(count, false));
    TakeWritesInside(Encode(a), Cells(Run(count, false)), Encode(b), m);
    TakeCells(count, m);
    EncodeThree(a, Taken(count, m), b);
  }

  /** With nothing to hand out, the same writes wipe the tag in front of the free run. */
  lemma TookNone(rs: seq<Run>, k: nat)
    requires Sized(rs) && 0 < k < |rs| && rs[k - 1].used
    requires 0 < Start(rs, k) && Start(rs, k) + rs[k].size <= Total(rs)
    ensures !Encodable(TakeWrites(Encode(rs), Start(rs, k), rs[k].size, 0))
  {
    var was, i := Encode(rs), Start(rs, k);
    var c := TakeWrites(was, i, rs[k].size, 0);
    assert c[..i - 1] == was[..i - 1] && c[i - 1] == 0 && |c| == |was|;
    TagGone(rs, k, was, c);
  }

  lemma TagGone(rs: seq<Run>, k: nat, was: seq<int>, c: seq<int>)
    requires Sized(rs) && 0 < k <= |rs| && rs[k - 1].used
    requires was == Encode(rs) && |c| == |was|
    requires 0 < Start(rs, k) <= |was|
    requires c[..Start(rs, k) - 1] == was[..Start(rs, k) - 1] && c[Start(rs, k) - 1] == 0
    ensures !Encodable(c)
  {
    hide Total, Encode, Cells, Encodable;
    SplitAt(rs, k - 1);
    TagsOf(rs, k - 1);
    var i := Start(rs, k - 1);
    assert c[..i] == c[..Start(rs, k) - 1][..i];
    if rs[k - 1].size > 1 { assert c[i] == c[..Start(rs, k) - 1][i]; }
    NotEncodable(rs, k - 1, c);
  }

  /** Every cell of an index of n blocks lies between -n and n. */
  lemma TagsFit(rs: seq<Run>, n: int, c: seq<int>)
    requires Sized(rs) && Total(rs) == n && c == Encode(rs)
    ensures forall j :: 0 <= j < n ==> -n <= c[j] <= n
  {
    forall j | 0 <= j < n ensures -n <= c[j] <= n {
      var k := RunOf(rs, j);
      TagsOf(rs, k);
    }
  }

  /* ---- release ---- */

  /** The four writes that join the stretch before cell e with the one from e on into one
      free stretch of j cells from p. */
  function JoinWrites(c: seq<int>, p: nat, e: nat, j: int): seq<int>
    requires p < e < p + j <= |c|
  {
    c[e := 0][e - 1 := 0][p := -j][p + j - 1 := -j]
  }

  function PrevFree(c: seq<int>, e: nat): bool
    requires e < |c|
  {
    e > 0 && c[e - 1] < 0
  }

  function NextFree(c: seq<int>, n: nat, e: nat): bool
    requires e < |c| && n <= |c|
  {
    0 <= e + c[e] < n && c[e + c[e]] < 0
  }

  lemma JoinCells(x: Run, y: Run)
    requires x.size >= 1 && y.size >= 1
    ensures JoinWrites(Cells(x) + Cells(y), 0, x.size, x.size + y.size)
         == Cells(Run(x.size + y.size, false))
  {
    var e := JoinWrites(Cells(x) + Cells(y), 0, x.size, x.size + y.size);
    var t := Cells(Run(x.size + y.size, false));
    forall i | 0 <= i < |e| ensures e[i] == t[i] {
      if i >= x.size { assert (Cells(x) + Cells(y))[i] == Cells(y)[i - x.size]; }
    }
  }

  /** Joining two neighbouring runs into a free one, in place. */
  lemma JoinInside(a: seq<int>, x: Run, y: Run, z: seq<int>)
    requires x.size >= 1 && y.size >= 1
    ensures JoinWrites(a + (Cells(x) + Cells(y)) + z, |a|, |a| + x.size, x.size + y.size)
         == a + Cells(Run(x.size + y.size, false)) + z
  {
    var m, j: int := Cells(x) + Cells(y), x.size + y.size;
    WriteInside(a, m, z, x.size, 0);
    WriteInside(a, m[x.size := 0], z, x.size - 1, 0);
    WriteInside(a, m[x.size := 0][x.size - 1 := 0], z, 0, -j);
    WriteInside(a, m[x.size := 0][x.size - 1 := 0][0 := -j], z, j - 1, -j);
    JoinCells(x, y);
  }

  lemma FlipInside(a: seq<int>, s: int, z: seq<int>)
    requires s >= 1
    ensures (a + Cells(Run(s, true)) + z)[|a| := -s][|a| + s - 1 := -s] == a + Cells(Run(s, false)) + z
  {
    WriteInside(a, Cells(Run(s, true)), z, 0, -s);
    WriteInside(a, Cells(Run(s, true))[0 := -s], z, s - 1, -s);
    assert Cells(Run(s, true))[0 := -s][s - 1 := -s] == Cells(Run(s, false));
  }

  /** All that the writes of a release at cell e need to stay inside the memory. */
  ghost predicate Mergeable(c: seq<int>, n: int, e: nat) {
    && e < n && 3 * n <= |c| && c[e] > 0
    && (forall i :: 0 <= i < n ==> -n <= c[i] <= n)
    && (PrevFree(c, e) ==> e + c[e - 1] >= 0)
  }

  /** The writes of `__mem_free` once the block is accepted. */
  ghost function MergeWrites(c: seq<int>, n: int, e: nat): (c': seq<int>)
    requires Mergeable(c, n, e)
    ensures |c'| == |c|
  {
    var size := c[e];
    if !PrevFree(c, e) && !NextFree(c, n, e) then c[e := -size][e + size - 1 := -size]
    else
      var e' := if PrevFree(c, e) then e + c[e - 1] else e;
      var size' := if PrevFree(c, e) then size - c[e - 1] else size;
      var c' := if PrevFree(c, e) then JoinWrites(c, e', e, size') else c;
      if NextFree(c, n, e) then JoinWrites(c', e', e + size, size' - c[e + size]) else c'
  }

  /** The tags at run k and at its neighbours' near ends. */
  lemma TagsAround(rs: seq<Run>, k: nat)
    requires Sized(rs) && k < |rs|
    ensures var c, e, s := Encode(rs), Start(rs, k), rs[k].size;
            && e + s <= |c| && c[e] == Tag(rs[k])
            && (k == 0 ==> e == 0)
            && (k > 0 ==> 0 < e && c[e - 1] == Tag(rs[k - 1]) && rs[k - 1].size <= e)
            && (k + 1 < |rs| ==> e + s < |c| && c[e + s] == Tag(rs[k + 1]))
            && (k + 1 == |rs| ==> e + s == |c|)
  {
    hide Encode, Cells, Total;
    TagsOf(rs, k);
    SplitAt(rs, k);
    if k > 0 {
      TagsOf(rs, k - 1);
      SplitAt(rs, k - 1);
    }
    if k + 1 < |rs| {
      TagsOf(rs, k + 1);
    } else {
      assert rs[..k + 1] == rs;
    }
  }

  /** What a release at the first block of used run k reads. */
  lemma MergeReads(rs: seq<Run>, k: nat, n: int, z: seq<int>)
    requires Sized(rs) && k < |rs| && rs[k].used && n == Total(rs) && |z| >= 2 * n
    ensures var c, e := Encode(rs) + z, Start(rs, k);
            && Mergeable(c, n, e) && c[e] == rs[k].size
            && (PrevFree(c, e) <==> k > 0 && !rs[k - 1].used)
            && (PrevFree(c, e) ==> c[e - 1] == -(rs[k - 1].size as int))
            && (NextFree(c, n, e) <==> k + 1 < |rs| && !rs[k + 1].used)
            && (NextFree(c, n, e) ==> c[e + rs[k].size] == -(rs[k + 1].size as int))
  {
    hide Encode, Cells, Total, Mergeable;
    TagsAround(rs, k);
    TagsFit(rs, n, Encode(rs));
    ReadsAppend(Encode(rs), Start(rs, k), z);
  }

  lemma ReadsAppend(c: seq<int>, e: nat, z: seq<int>)
    requires e < |c| && 0 < c[e] <= |c| - e && |z| >= 2 * |c|
    requires forall i :: 0 <= i < |c| ==> -|c| <= c[i] <= |c|
    requires e > 0 ==> e + c[e - 1] >= 0
    ensures Mergeable(c + z, |c|, e) && (c + z)[e] == c[e]
    ensures PrevFree(c + z, e) <==> e > 0 && c[e - 1] < 0
    ensures e > 0 ==> (c + z)[e - 1] == c[e - 1]
    ensures NextFree(c + z, |c|, e) <==> e + c[e] < |c| && c[e + c[e]] < 0
    ensures e + c[e] < |c| ==> (c + z)[e + c[e]] == c[e + c[e]]
  {
  }

  lemma MergeNone(a: seq<int>, r: Run, y: seq<int>, n: int)
    requires r.used && r.size >= 1
    requires var c := a + Cells(r) + y;
             Mergeable(c, n, |a|) && !PrevFree(c, |a|) && !NextFree(c, n, |a|)
    ensures MergeWrites(a + Cells(r) + y, n, |a|) == a + Cells(Run(r.size, false)) + y
  {
    FlipInside(a, r.size, y);
  }

  lemma MergePrev(a: seq<int>, x: Run, r: Run, y: seq<int>, n: int)
    requires r.used && r.size >= 1 && x.size >= 1
    requires var c, e := a + (Cells(x) + Cells(r)) + y, |a| + x.size;
             Mergeable(c, n, e) && c[e] == r.size && c[e - 1] == -(x.size as int) && !NextFree(c, n, e)
    ensures MergeWrites(a + (Cells(x) + Cells(r)) + y, n, |a| + x.size)
         == a + Cells(Run(x.size + r.size, false)) + y
  {
    JoinInside(a, x, r, y);
  }

  lemma MergeNext(a: seq<int>, r: Run, w: Run, y: seq<int>, n: int)
    requires r.used && r.size >= 1 && w.size >= 1
    requires var c, e := a + (Cells(r) + Cells(w)) + y, |a|;
             Mergeable(c, n, e) && c[e] == r.size && !PrevFree(c, e)
             && NextFree(c, n, e) && c[e + r.size] == -(w.size as int)
    ensures MergeWrites(a + (Cells(r) + Cells(w)) + y, n, |a|)
         == a + Cells(Run(r.size + w.size, false)) + y
  {
    JoinInside(a, r, w, y);
  }

  lemma MergeBoth(a: seq<int>, x: Run, r: Run, w: Run, y: seq<int>, n: int)
    requires r.used && r.size >= 1 && x.size >= 1 && w.size >= 1
    requires var c, e := a + (Cells(x) + Cells(r)) + (Cells(w) + y), |a| + x.size;
             Mergeable(c, n, e) && c[e] == r.size && c[e - 1] == -(x.size as int)
             && NextFree(c, n, e) && c[e + r.size] == -(w.size as int)
    ensures MergeWrites(a + (Cells(x) + Cells(r)) + (Cells(w) + y), n, |a| + x.size)
         == a + Cells(Run(x.size + r.size + w.size, false)) + y
  {
    hide Cells, Mergeable, JoinWrites;
    var j := Run(x.size + r.size, false);
    JoinInside(a, x, r, Cells(w) + y);
    assert a + Cells(j) + (Cells(w) + y) == a + (Cells(j) + Cells(w)) + y;
    JoinInside(a, j, w, y);
  }

  lemma EncodeTwo(x: Run, y: Run)
    ensures Encode([x, y]) == Cells(x) + Cells(y) && Total([x, y]) == x.size + y.size
  {
    assert [x, y] == [x] + [y];
    EncodeConcat([x], [y]);
    EncodeOne(x);
    EncodeOne(y);
  }

  /** Encoding around a stretch, and what a release makes of it. */
  lemma Around(a: seq<Run>, m: seq<Run>, b: seq<Run>, size: nat, z: seq<int>)
    requires Total(m) == size
    ensures Encode(a + m + b) + z == Encode(a) + Encode(m) + (Encode(b) + z)
    ensures Encode(a + [Run(size, false)] + b) + z
         == Encode(a) + Cells(Run(size, false)) + (Encode(b) + z)
  {
    hide Encode, Total, Cells;
    EncodeThree(a, m, b);
    EncodeThree(a, [Run(size, false)], b);
    EncodeOne(Run(size, false));
  }

  lemma FreeNone(a: seq<Run>, r: Run, b: seq<Run>, n: int, z: seq<int>)
    requires r.used && r.size >= 1
    requires var c, e := Encode(a + [r] + b) + z, Total(a);
             Mergeable(c, n, e) && c[e] == r.size && !PrevFree(c, e) && !NextFree(c, n, e)
    ensures MergeWrites(Encode(a + [r] + b) + z, n, Total(a))
         == Encode(a + [Run(r.size, false)] + b) + z
  {
    hide Encode, Total, Cells, Mergeable, MergeWrites, NextFree, PrevFree;
    EncodeOne(r);
    Around(a, [r], b, r.size, z);
    MergeNone(Encode(a), r, Encode(b) + z, n);
  }

  lemma FreePrev(a: seq<Run>, x: Run, r: Run, b: seq<Run>, n: int, z: seq<int>)
    requires r.used && r.size >= 1 && x.size >= 1
    requires var c, e := Encode(a + [x, r] + b) + z, Total(a) + x.size;
             Mergeable(c, n, e) && c[e] == r.size && c[e - 1] == -(x.size as int) && !NextFree(c, n, e)
    ensures MergeWrites(Encode(a + [x, r] + b) + z, n, Total(a) + x.size)
         == Encode(a + [Run(x.size + r.size, false)] + b) + z
  {
    hide Encode, Total, Cells, Mergeable, MergeWrites, NextFree;
    EncodeTwo(x, r);
    Around(a, [x, r], b, x.size + r.size, z);
    MergePrev(Encode(a), x, r, Encode(b) + z, n);
  }

  lemma FreeNext(a: seq<Run>, r: Run, w: Run, b: seq<Run>, n: int, z: seq<int>)
    requires r.used && r.size >= 1 && w.size >= 1
    requires var c, e := Encode(a + [r, w] + b) + z, Total(a);
             Mergeable(c, n, e) && c[e] == r.size && !PrevFree(c, e)
             && NextFree(c, n, e) && c[e + r.size] == -(w.size as int)
    ensures MergeWrites(Encode(a + [r, w] + b) + z, n, Total(a))
         == Encode(a + [Run(r.size + w.size, false)] + b) + z
  {
    hide Encode, Total, Cells, Mergeable, MergeWrites, NextFree, PrevFree;
    EncodeTwo(r, w);
    Around(a, [r, w], b, r.size + w.size, z);
    MergeNext(Encode(a), r, w, Encode(b) + z, n);
  }

  lemma FreeBoth(a: seq<Run>, x: Run, r: Run, w: Run, b: seq<Run>, n: int, z: seq<int>)
    requires r.used && r.size >= 1 && x.size >= 1 && w.size >= 1
    requires var c, e := Encode(a + [x, r, w] + b) + z, Total(a) + x.size;
             Mergeable(c, n, e) && c[e] == r.size && c[e - 1] == -(x.size as int)
             && NextFree(c, n, e) && c[e + r.size] == -(w.size as int)
    ensures Total([x, r, w]) == x.size + r.size + w.size
    ensures MergeWrites(Encode(a + [x, r, w] + b) + z, n, Total(a) + x.size)
         == Encode(a + [Run(x.size + r.size + w.size, false)] + b) + z
  {
    hide Encode, Total, Cells, Mergeable, MergeWrites, NextFree;
    assert [x, r, w] == [x, r] + [w];
    EncodeTwo(x, r);
    EncodeConcat([x, r], [w]);
    EncodeOne(w);
    Around(a, [x, r, w], b, x.size + r.size + w.size, z);
    var y := Encode(b) + z;
    assert Encode(a) + (Cells(x) + Cells(r) + Cells(w)) + y
        == Encode(a) + (Cells(x) + Cells(r)) + (Cells(w) + y);
    MergeBoth(Encode(a), x, r, w, y, n);
  }

  /** The stretch that a release of run k makes one free run. */
  lemma FreeStretch(rs: seq<Run>, k: nat) returns (a: seq<Run>, m: seq<Run>, b: seq<Run>)
    requires k < |rs|
    ensures rs == a + m + b && FreeAt(rs, k) == a + [Run(Total(m), false)] + b
    ensures var lo, hi := FreeLo(rs, k), FreeHi(rs, k);
            && |a| == lo && |m| == hi - lo
            && (lo < k && hi > k + 1 ==> m == [rs[k - 1], rs[k], rs[k + 1]])
            && (lo < k && hi == k + 1 ==> m == [rs[k - 1], rs[k]])
            && (lo == k && hi > k + 1 ==> m == [rs[k], rs[k + 1]])
            && (lo == k && hi == k + 1 ==> m == [rs[k]])
            && Start(rs, k) == Total(a) + (if lo < k then rs[k - 1].size else 0)
  {
    var lo, hi := FreeLo(rs, k), FreeHi(rs, k);
    a, m, b := rs[..lo], rs[lo..hi], rs[hi..];
    if lo < k { SplitAt(rs, k - 1); }
  }

  lemma CaseNone(rs: seq<Run>, k: nat, n: int, z: seq<int>, a: seq<Run>, m: seq<Run>, b: seq<Run>)
    requires Sized(rs) && k < |rs| && rs[k].used && n == Total(rs) && |z| >= 2 * n
    requires !(k > 0 && !rs[k - 1].used) && !(k + 1 < |rs| && !rs[k + 1].used)
    requires rs == a + m + b && m == [rs[k]] && Start(rs, k) == Total(a)
    ensures Mergeable(Encode(rs) + z, n, Start(rs, k))
    ensures MergeWrites(Encode(rs) + z, n, Start(rs, k)) == Encode(a + [Run(Total(m), false)] + b) + z
  {
    hide Encode, Total, Cells, Mergeable, MergeWrites, NextFree, PrevFree, Start;
    MergeReads(rs, k, n, z);
    TotalOne(rs[k]);
    FreeNone(a, rs[k], b, n, z);
  }

  lemma CasePrev(rs: seq<Run>, k: nat, n: int, z: seq<int>, a: seq<Run>, m: seq<Run>, b: seq<Run>)
    requires Sized(rs) && k < |rs| && rs[k].used && n == Total(rs) && |z| >= 2 * n
    requires k > 0 && !rs[k - 1].used && !(k + 1 < |rs| && !rs[k + 1].used)
    requires rs == a + m + b && m == [rs[k - 1], rs[k]] && Start(rs, k) == Total(a) + rs[k - 1].size
    ensures Mergeable(Encode(rs) + z, n, Start(rs, k))
    ensures MergeWrites(Encode(rs) + z, n, Start(rs, k)) == Encode(a + [Run(Total(m), false)] + b) + z
  {
    hide Encode, Total, Cells, Mergeable, MergeWrites, NextFree, PrevFree, Start;
    MergeReads(rs, k, n, z);
    EncodeTwo(rs[k - 1], rs[k]);
    FreePrev(a, rs[k - 1], rs[k], b, n, z);
  }

  lemma CaseNext(rs: seq<Run>, k: nat, n: int, z: seq<int>, a: seq<Run>, m: seq<Run>, b: seq<Run>)
    requires Sized(rs) && k < |rs| && rs[k].used && n == Total(rs) && |z| >= 2 * n
    requires !(k > 0 && !rs[k - 1].used) && k + 1 < |rs| && !rs[k + 1].used
    requires rs == a + m + b && m == [rs[k], rs[k + 1]] && Start(rs, k) == Total(a)
    ensures Mergeable(Encode(rs) + z, n, Start(rs, k))
    ensures MergeWrites(Encode(rs) + z, n, Start(rs, k)) == Encode(a + [Run(Total(m), false)] + b) + z
  {
    hide Encode, Total, Cells, Mergeable, MergeWrites, NextFree, PrevFree, Start;
    MergeReads(rs, k, n, z);
    EncodeTwo(rs[k], rs[k + 1]);
    FreeNext(a, rs[k], rs[k + 1], b, n, z);
  }

  lemma CaseBoth(rs: seq<Run>, k: nat, n: int, z: seq<int>, a: seq<Run>, m: seq<Run>, b: seq<Run>)
    requires Sized(rs) && k < |rs| && rs[k].used && n == Total(rs) && |z| >= 2 * n
    requires k > 0 && !rs[k - 1].used && k + 1 < |rs| && !rs[k + 1].used
    requires rs == a + m + b && m == [rs[k - 1], rs[k], rs[k + 1]] && Start(rs, k) == Total(a) + rs[k - 1].size
    ensures Mergeable(Encode(rs) + z, n, Start(rs, k))
    ensures MergeWrites(Encode(rs) + z, n, Start(rs, k)) == Encode(a + [Run(Total(m), false)] + b) + z
  {
    hide Encode, Total, Cells, Mergeable, MergeWrites, NextFree, PrevFree, Start;
    MergeReads(rs, k, n, z);
    FreeBoth(a, rs[k - 1], rs[k], rs[k + 1], b, n, z);
  }

  /** On the first block of used run k, the writes are mark-and-merge. */
  lemma MergeIsFree(rs: seq<Run>, k: nat, n: int, z: seq<int>)
    requires Canonical(rs) && k < |rs| && rs[k].used && n == Total(rs) && |z| >= 2 * n
    ensures Mergeable(Encode(rs) + z, n, Start(rs, k))
    ensures MergeWrites(Encode(rs) + z, n, Start(rs, k)) == Encode(FreeAt(rs, k)) + z
  {
    hide Encode, Total, Cells, Mergeable, MergeWrites, Start, FreeAt;
    var a, m, b := FreeStretch(rs, k);
    if FreeLo(rs, k) < k {
      if FreeHi(rs, k) > k + 1 { CaseBoth(rs, k, n, z, a, m, b); } else { CasePrev(rs, k, n, z, a, m, b); }
    } else {
      if FreeHi(rs, k) > k + 1 { CaseNext(rs, k, n, z, a, m, b); } else { CaseNone(rs, k, n, z, a, m, b); }
    }
  }

  /** Block e is the last block, and not the first, of used run k. */
  ghost predicate IsFooter(rs: seq<Run>, k: nat, e: nat) {
    k < |rs| && rs[k].used && rs[k].size >= 2 && e + 1 == Start(rs, k) + rs[k].size
  }

  ghost predicate FooterAt(rs: seq<Run>, e: nat) { exists k :: IsFooter(rs, k, e) }

  /** The tests of `__mem_free` on the tag at block e. */
  predicate Accepts(c: seq<int>, e: nat) {
    e < |c| && c[e] > 0 && e + c[e] <= |c| && c[e + c[e] - 1] == c[e]
  }

  /** A positive tag sits at the two ends of used runs and nowhere else. */
  lemma PositiveTags(rs: seq<Run>, e: nat) returns (k: nat)
    requires Sized(rs) && e < Total(rs)
    ensures k < |rs| && Start(rs, k) <= e < Start(rs, k) + rs[k].size
    ensures Encode(rs)[e] > 0 <==> rs[k].used && (e == Start(rs, k) || IsFooter(rs, k, e))
    ensures Encode(rs)[e] > 0 ==> Encode(rs)[e] == rs[k].size
    ensures e in Live(rs) <==> rs[k].used && e == Start(rs, k)
    ensures e in Live(rs) ==> Live(rs)[e] == rs[k].size
  {
    k := RunOf(rs, e);
    TagsOf(rs, k);
    LiveIsUsed(rs, 0, e);
    if e in Live(rs) {
      var j :| 0 <= j < |rs| && rs[j].used && Start(rs, j) == e;
      SameRun(rs, j, k, e);
    }
  }

  lemma SameRun(rs: seq<Run>, j: nat, k: nat, e: nat)
    requires Sized(rs) && j < |rs| && k < |rs|
    requires Start(rs, j) <= e < Start(rs, j) + rs[j].size
    requires Start(rs, k) <= e < Start(rs, k) + rs[k].size
    ensures j == k
  {
    if j < k {
      SplitAt(rs, j);
      StartMonotone(rs, j + 1, k);
    } else if k < j {
      SplitAt(rs, k);
      StartMonotone(rs, k + 1, j);
    }
  }

  /** The tests accept the last block e of a run of s blocks exactly when another run of s
      blocks starts s - 1 blocks further on. */
  lemma FooterAccepted(rs: seq<Run>, k: nat, e: nat)
    requires Sized(rs) && IsFooter(rs, k, e) && e + rs[k].size <= Total(rs)
    ensures Encode(rs)[e] == rs[k].size
    ensures Accepts(Encode(rs), e)
       <==> e + rs[k].size - 1 in Live(rs) && Live(rs)[e + rs[k].size - 1] == rs[k].size
  {
    TagsOf(rs, k);
    var s := rs[k].size;
    var j := PositiveTags(rs, e + s - 1);
    if IsFooter(rs, j, e + s - 1) && rs[j].size == s {
      SameRun(rs, j, k, e);
    }
  }

  /** Releasing the last block of a run leaves cells that encode no heap. */
  lemma FooterRelease(rs: seq<Run>, k: nat, e: nat, n: int, z: seq<int>)
    requires Sized(rs) && IsFooter(rs, k, e) && n == Total(rs) && |z| >= 2 * n
    ensures Mergeable(Encode(rs) + z, n, e)
    ensures !Encodable(MergeWrites(Encode(rs) + z, n, e)[..n])
  {
    TagsOf(rs, k);
    TagsFit(rs, n, Encode(rs));
    var c := Encode(rs) + z;
    var c' := MergeWrites(c, n, e);
    assert c[e] == rs[k].size && c[e - 1] >= 0;
    FooterWrites(c, n, e);
    assert c'[..n][..Start(rs, k)] == Encode(rs)[..Start(rs, k)];
    assert c'[..n][Start(rs, k)] == Encode(rs)[Start(rs, k)];
    NotEncodable(rs, k, c'[..n]);
  }

  /** With no free stretch before e, the writes stay at e and behind, and leave a negative tag at e. */
  lemma FooterWrites(c: seq<int>, n: int, e: nat)
    requires Mergeable(c, n, e) && !PrevFree(c, e)
    ensures forall i :: 0 <= i < e ==> MergeWrites(c, n, e)[i] == c[i]
    ensures MergeWrites(c, n, e)[e] < 0
  {
  }
}

/** `src/mem.c`: the allocator itself, rewriting the index in place. */
module Memory {
  import opened Options
  import opened Words
  import opened Runs
  import opened IndexEncoding
  import opened HeapHistory

  const BLOCK: nat := 64

  /** What a call of `__mem_alloc` comes to.  `Outside` is a call that goes on to read or write
      outside the heap. */
  datatype AllocResult = Block(addr: nat) | Null | Panic | Outside

  datatype SearchResult = Found(block: nat, count: nat) | NotFound | Corrupted | BeyondHeap

  /** How a search over n blocks ends that has found nothing: it has read the words behind the
      index.  If the last run is free, only whether the first of them is zero matters; if it is in
      use, a negative one is taken for the tag of one more free run. */
  function AtEnd(lastFree: bool, n: nat, m: nat, behind: seq<int>): SearchResult {
    var f := if behind == [] then TWO31 else -behind[0];
    if f == 0 then Corrupted
    else if f < 0 || lastFree then NotFound
    else if f >= TWO31 then BeyondHeap
    else if f >= m then (if f <= |behind| then Found(n, f) else BeyondHeap)
    else if f >= |behind| then BeyondHeap
    else if behind[f] == 0 then Corrupted
    else NotFound
  }

  /** A search that finds nothing comes out as it should, whatever was asked for, exactly when the
      word behind the index is positive, or negative behind a free last run. */
  lemma QuietEnd(lastFree: bool, n: nat, behind: seq<int>)
    requires behind != []
    ensures (forall m: nat :: AtEnd(lastFree, n, m, behind) == NotFound)
            <==> behind[0] > 0 || (behind[0] < 0 && lastFree)
  {
    if !(behind[0] > 0 || (behind[0] < 0 && lastFree)) {
      assert AtEnd(lastFree, n, 0, behind) != NotFound;
    }
  }

  /** The search over runs: the first fit from run k on, or how it ends without one. */
  ghost function SearchFrom(rs: seq<Run>, k: nat, m: nat, behind: seq<int>): SearchResult
    requires k <= |rs|
    decreases |rs| - k
  {
    if k == |rs| then AtEnd(rs != [] && !rs[|rs| - 1].used, Total(rs), m, behind)
    else if Fits(rs[k], m) then Found(Start(rs, k), rs[k].size)
    else SearchFrom(rs, k + 1, m, behind)
  }

  /** The search finds the first fit if there is one. */
  lemma {:induction false} SearchIsFirstFit(rs: seq<Run>, k: nat, m: nat, behind: seq<int>)
    requires k <= FirstFit(rs, m)
    ensures SearchFrom(rs, k, m, behind)
         == if FirstFit(rs, m) < |rs|
            then Found(Start(rs, FirstFit(rs, m)), rs[FirstFit(rs, m)].size)
            else AtEnd(rs != [] && !rs[|rs| - 1].used, Total(rs), m, behind)
    decreases |rs| - k
  {
    if k < FirstFit(rs, m) {
      SearchIsFirstFit(rs, k + 1, m, behind);
    }
  }

  /** What the caller of `__mem_alloc` sees of such an end. */
  function Refusal(base: nat, end: SearchResult): AllocResult {
    match end
    case NotFound => Null
    case Corrupted => Panic
    case BeyondHeap => Outside
    case Found(b, _) => Block(AddrOf(base, b))
  }

  const FREE_OUT_OF_HEAP: int := -1
  const FREE_NOT_BLOCK_ALIGNED: int := -2
  const FREE_NOT_ALLOCED: int := -3
  const FREE_NOT_START_OF_ALLOC: int := -4

  function IndexBlocks(n: nat): nat { (4 * n + BLOCK - 1) / BLOCK }

  function AddrOf(base: nat, b: nat): nat { base + b * BLOCK }

  function BlockOf(base: nat, addr: nat): nat
    requires base <= addr
  {
    (addr - base) / BLOCK
  }

  /** Block numbers and block addresses are the same thing. */
  lemma AddrRoundTrip(base: nat, b: nat)
    ensures BlockOf(base, AddrOf(base, b)) == b
    ensures (AddrOf(base, b) - base) % BLOCK == 0
  {
  }

  lemma BlockRoundTrip(base: nat, addr: nat)
    requires base <= addr && (addr - base) % BLOCK == 0
    ensures AddrOf(base, BlockOf(base, addr)) == addr
  {
  }

  /** The reserved blocks hold the whole index and leave room for at least one more block. */
  lemma IndexFits(n: nat)
    requires n >= 2
    ensures 1 <= IndexBlocks(n) < n
    ensures n <= 16 * IndexBlocks(n)
  {
  }

  /** What the tests of `__mem_free` see at block e. */
  lemma Tests(rs: seq<Run>, e: nat, n: int, z: seq<int>)
    requires Sized(rs) && n == Total(rs) && e < n && |z| >= 2 * n
    ensures var c := Encode(rs) + z;
            && (c[e] > 0 <==> e in Live(rs) || FooterAt(rs, e))
            && (c[e] > 0 ==> c[e] <= n && Mergeable(c, n, e))
            && (e in Live(rs) ==> Accepts(c, e) && !FooterAt(rs, e))
  {
    var k := PositiveTags(rs, e);
    forall j | IsFooter(rs, j, e) ensures j == k { SameRun(rs, j, k, e); }
    TagsFit(rs, n, Encode(rs));
    if e in Live(rs) {
      TagsOf(rs, k);
      MergeReads(rs, k, n, z);
    } else if FooterAt(rs, e) {
      FooterRelease(rs, k, e, n, z);
    }
  }

  /** What the writes of `__mem_free` at an accepted block mean for the runs. */
  lemma MergeMeans(rs: seq<Run>, e: nat, n: nat, index: nat, z: seq<int>)
    requires Heap(rs, n, index) && e < n && |z| >= 2 * n
    requires e in Live(rs) || FooterAt(rs, e)
    ensures Mergeable(Encode(rs) + z, n, e)
    ensures e in Live(rs) ==>
              && MergeWrites(Encode(rs) + z, n, e) == Encode(GiveRuns(rs, e)) + z
              && Total(GiveRuns(rs, e)) == n
    ensures e !in Live(rs) ==> !Encodable(MergeWrites(Encode(rs) + z, n, e)[..n])
  {
    if e in Live(rs) {
      var k := RunAt(rs, e, 0);
      MergeIsFree(rs, k, n, z);
      FreeCanonical(rs, k);
    } else {
      var k :| IsFooter(rs, k, e);
      FooterRelease(rs, k, e, n, z);
    }
  }

  class Allocator {
    const base: nat
    const n: nat
    /** The heap as 32-bit words; the first n are `mem_index`. */
    const words: array<int>
    ghost var runs: seq<Run>

    ghost predicate Valid()
      reads this, words
    {
      && 2 <= n < TWO31 && 0 < base && base + n * BLOCK < TWO64
      && words.Length == 16 * n
      && Heap(runs, n, IndexBlocks(n))
      && words[..n] == Encode(runs)
      && forall i :: 0 <= i < words.Length ==> -TWO31 <= words[i] < TWO31
    }

    /** `__mem_init` on a heap with arbitrary contents. */
    constructor (base: nat, memory: array<int>)
      requires 32 <= memory.Length < 16 * TWO31 && memory.Length % 16 == 0
      requires 0 < base && base + 4 * memory.Length < TWO64
      requires forall i :: 0 <= i < memory.Length ==> -TWO31 <= memory[i] < TWO31
      modifies memory
      ensures Valid()
      ensures this.base == base && words == memory && n == memory.Length / 16
      ensures runs == Boot(n, IndexBlocks(n))
      ensures forall i :: n <= i < memory.Length ==> memory[i] == old(memory[i])
    {
      this.base := base;
      n := memory.Length / 16;
      words := memory;
      new;
      var len := IndexBlocks(n);
      IndexFits(n);
      var i := 0;
      while i < n
        invariant 0 <= i <= n
        invariant forall j :: 0 <= j < i ==> words[j] == 0
        invariant forall j :: i <= j < words.Length ==> words[j] == old(memory[j])
      {
        words[i] := 0;
        i := i + 1;
      }
      words[0] := len;
      words[len - 1] := len;
      words[len] := -(n - len);
      words[n - 1] := -(n - len);
      runs := Boot(n, len);
      BootIsHeap(n, len);
      BootCells(n, len, words[..n]);
    }

    static lemma BootCells(n: nat, len: nat, c: seq<int>)
      requires 1 <= len < n && |c| == n
      requires c[0] == len && c[len - 1] == len && c[len] == -(n - len) && c[n - 1] == -(n - len)
      requires forall j :: 0 < j < n - 1 && j != len - 1 && j != len ==> c[j] == 0
      ensures c == Encode(Boot(n, len))
    {
      var x, y := Run(len, true), Run(n - len, false);
      assert Boot(n, len) == [x] + [y];
      EncodeConcat([x], [y]);
      EncodeOne(x);
      EncodeOne(y);
      assert c[..len] == Cells(x);
      assert c[len..] == Cells(y);
    }

    /** `i` is the first block of run k, or the end of the index. */
    ghost predicate At(i: nat, k: nat)
      reads this
    {
      k <= |runs| && i == Start(runs, k) && i <= n && (i == n <==> k == |runs|)
    }

    /** What the loop of `__mem_alloc` sees at run k. */
    lemma AtRun(i: nat, k: nat, m: nat)
      requires Valid() && At(i, k)
      ensures words.Length == 16 * n && n >= 2 && Total(runs) == n
      ensures i < n ==>
                && words[i] == Tag(runs[k]) && words[i] != 0 && -TWO31 < words[i]
                && At(if words[i] > 0 then i + words[i] else i - words[i], k + 1)
                && (words[i] > 0 <==> runs[k].used)
                && SearchFrom(runs, k, m, words[n..])
                   == (if words[i] < 0 && -words[i] >= m then Found(i, -words[i])
                       else SearchFrom(runs, k + 1, m, words[n..]))
      ensures i == n ==>
                SearchFrom(runs, k, m, words[n..]) == AtEnd(runs != [] && !runs[|runs| - 1].used, n, m, words[n..])
    {
      StartMonotone(runs, k, |runs|);
      assert runs[..|runs|] == runs;
      if k < |runs| {
        SplitAt(runs, k);
        TagsOf(runs, k);
        assert words[i] == words[..n][i];
        StartMonotone(runs, k + 1, |runs|);
      }
    }

    /** The rest of an iteration of the search loop that a used last run has brought to the end of
        the index. */
    method Overrun(nblocks: nat) returns (s: SearchResult)
      requires Valid()
      ensures s == AtEnd(false, n, nblocks, words[n..])
    {
      hide Encode, Heap;
      var i := n;
      assert words.Length == 16 * n && words[n..][0] == words[n];
      if words[i] < 0 {
        var count := -words[i];
        // in 32 bits this negation does nothing, and the count ends up as a huge unsigned number
        if count == TWO31 { return BeyondHeap; }
        if count >= nblocks { return if i + count > words.Length then BeyondHeap else Found(i, count); }
        i := i + count;
      }
      if i >= words.Length { return BeyondHeap; }
      assert words[n..][i - n] == words[i];
      return if words[i] == 0 then Corrupted else NotFound;
    }

    /** The search loop of `__mem_alloc`. */
    method Search(nblocks: nat) returns (s: SearchResult)
      requires Valid()
      ensures s == SearchFrom(runs, 0, nblocks, words[n..])
    {
      hide SearchFrom, Encode, Tag;
      var i := 0;
      ghost var k := 0;
      ghost var goal := SearchFrom(runs, 0, nblocks, words[n..]);
      AtRun(0, 0, nblocks);
      while i < n
        invariant At(i, k) && goal == SearchFrom(runs, k, nblocks, words[n..])
        invariant i == n ==> goal == NotFound
        decreases n - i
      {
        AtRun(i, k, nblocks);
        if words[i] > 0 {
          i, k := i + words[i], k + 1;
          AtRun(i, k, nblocks);
          if i == n {
            s := Overrun(nblocks);
            return;
          }
        }
        if words[i] < 0 {
          if -words[i] >= nblocks { return Found(i, -words[i]); }
          i, k := i - words[i], k + 1;
          AtRun(i, k, nblocks);
          assert words[n..][0] == words[n];
        }
        if words[i] == 0 { return Corrupted; }
      }
      return NotFound;
    }

    /** The writes of `__mem_alloc` on finding `count` blocks at block i. */
    method WriteTags(i: nat, count: nat, nblocks: nat)
      requires 1 <= i && 1 <= count && nblocks <= count && i + count <= words.Length
      modifies words
      ensures words[..] == TakeWrites(old(words[..]), i, count, nblocks)
    {
      if count > nblocks {
        words[i + count - 1] := -(count - nblocks);
        words[i + nblocks] := -(count - nblocks);
        words[i + nblocks - 1] := nblocks;
        words[i] := nblocks;
      } else {
        words[i] := nblocks;
        words[i + nblocks - 1] := nblocks;
      }
    }

    /** Writes inside the index are writes to the index. */
    static lemma WritesInIndex(c: seq<int>, n: nat, i: nat, count: nat, m: nat)
      requires 1 <= count && m <= count && 1 <= i && i + count <= n <= |c|
      ensures TakeWrites(c, i, count, m)[..n] == TakeWrites(c[..n], i, count, m)
      ensures TakeWrites(c, i, count, m)[n..] == c[n..]
    {
    }

    /** Free run k, `count` blocks from block i, is handed out. */
    method Carve(i: nat, count: nat, nblocks: nat, ghost k: nat)
      requires Valid() && k < |runs| && Fits(runs[k], nblocks)
      requires i == Start(runs, k) && count == runs[k].size
      modifies this`runs, words
      ensures nblocks >= 1 ==> Valid() && runs == AllocAt(old(runs), k, nblocks)
      ensures nblocks == 0 ==> runs == old(runs) && !Encodable(words[..n])
      ensures words[n..] == old(words[n..])
    {
      CarveBounds(i, k);
      WritesInIndex(words[..], n, i, count, nblocks);
      ghost var was := words[..];
      assert was[..n] == words[..n] && was[n..] == words[n..];
      WriteTags(i, count, nblocks);
      assert words[..n] == words[..][..n] && words[n..] == words[..][n..];
      if nblocks >= 1 {
        TookSome(runs, k, nblocks);
        AllocCanonical(runs, k, nblocks);
        runs := AllocAt(runs, k, nblocks);
        TagsFit(runs, n, words[..n]);
        assert forall j :: 0 <= j < n ==> words[j] == words[..n][j];
        assert forall j :: n <= j < words.Length ==> words[j] == words[n..][j - n] == old(words[j]);
      } else {
        TookNone(runs, k);
      }
    }

    lemma CarveBounds(i: nat, k: nat)
      requires Valid() && k < |runs| && !runs[k].used && i == Start(runs, k)
      ensures 0 < k && 0 < i && i + runs[k].size <= n && runs[k - 1].used && runs[k].size >= 1
    {
      StartMonotone(runs, 0, k);
      StartMonotone(runs, k + 1, |runs|);
      SplitAt(runs, k);
    }

    /** The word behind the index is taken for the tag of `count` free blocks there. */
    method CarveBehind(count: nat, nblocks: nat)
      requires Valid() && 1 <= count < TWO31 && nblocks <= count && n + count <= words.Length && runs[|runs| - 1].used
      modifies words
      ensures words[..] == TakeWrites(old(words[..]), n, count, nblocks)
      ensures nblocks >= 1 ==> Valid()
      ensures nblocks == 0 ==> !Encodable(words[..n])
    {
      ghost var was := words[..n];
      WriteTags(n, count, nblocks);
      if nblocks >= 1 {
        assert words[..n] == was;
        assert forall j :: 0 <= j < n ==> words[j] == was[j];
      } else {
        assert runs[..|runs|] == runs;
        assert words[..n][..n - 1] == was[..n - 1] && words[..n][n - 1] == 0;
        TagGone(runs, |runs|, was, words[..n]);
      }
    }

    /** `__mem_alloc`. */
    method Alloc(nblocks: nat) returns (r: AllocResult)
      requires Valid()
      modifies this`runs, words
      // the first fit is taken and split
      ensures nblocks >= 1 && CanAlloc(old(runs), nblocks) ==>
                && Valid()
                && TakeRuns(old(runs), nblocks).Some?
                && runs == TakeRuns(old(runs), nblocks).value.0
                && r == Block(AddrOf(base, TakeRuns(old(runs), nblocks).value.1))
                && words[n..] == old(words[n..])
      // without a fit, what the caller sees hangs on the words behind the index and on the last run
      ensures !CanAlloc(old(runs), nblocks) ==>
                && old(runs) != [] && runs == old(runs)
                && r == Refusal(base, AtEnd(!runs[|runs| - 1].used, n, nblocks, old(words[n..])))
      // either nothing changes, or those words do, and the end of the heap is handed out
      ensures !CanAlloc(old(runs), nblocks) && !r.Block? ==> Valid() && words[..] == old(words[..])
      ensures !CanAlloc(old(runs), nblocks) && r.Block? ==>
                && 1 <= -old(words[n]) && nblocks <= -old(words[n]) && n - old(words[n]) <= words.Length
                && words[..] == TakeWrites(old(words[..]), n, -old(words[n]), nblocks)
                && (nblocks >= 1 ==> Valid())
      // a request for no blocks breaks the index whenever it is granted
      ensures nblocks == 0 && r.Block? ==> !Encodable(words[..n])
      ensures nblocks == 0 && CanAlloc(old(runs), 0) ==> r.Block?
    {
      hide AtEnd, SearchFrom, Encode, TakeWrites, Encodable, TakeRuns;
      var s := Search(nblocks);
      SearchIsFirstFit(runs, 0, nblocks, words[n..]);
      HeapNotEmpty();
      match s {
        case NotFound => return Null;
        case Corrupted => return Panic;
        case BeyondHeap => return Outside;
        case Found(i, count) =>
          FoundWhere(i, count, nblocks);
          if i < n { Carve(i, count, nblocks, FirstFit(runs, nblocks)); } else { CarveBehind(count, nblocks); }
          return Block(base + i * BLOCK);
      }
    }

    lemma HeapNotEmpty()
      requires Valid()
      ensures words.Length == 16 * n && n >= 2 && runs != [] && Total(runs) == n
    {
    }

    /** What a search finds is a free run of the heap, or what is behind the index. */
    lemma FoundWhere(i: nat, count: nat, nblocks: nat)
      requires Valid()
      requires Found(i, count) == SearchFrom(runs, 0, nblocks, words[n..])
      ensures words.Length == 16 * n && n >= 2 && runs != []
      ensures CanAlloc(runs, nblocks) ==>
                var k := FirstFit(runs, nblocks);
                && i < n && k < |runs| && i == Start(runs, k) && count == runs[k].size && Fits(runs[k], nblocks)
                && TakeRuns(runs, nblocks) == Some((if nblocks <= count then AllocAt(runs, k, nblocks) else runs, i))
      ensures !CanAlloc(runs, nblocks) ==>
                && runs[|runs| - 1].used && i == n && count == -words[n] && 1 <= count < TWO31 && nblocks <= count
                   && n + count <= words.Length
    {
      SearchIsFirstFit(runs, 0, nblocks, words[n..]);
      if CanAlloc(runs, nblocks) { CarveBounds(i, FirstFit(runs, nblocks)); }
      assert words[n..][0] == words[n];
    }

    /** Join the stretch before block e with the one from e on into j free blocks from p. */
    method Join(p: nat, e: nat, j: int)
      requires p < e < p + j <= words.Length
      modifies words
      ensures words[..] == JoinWrites(old(words[..]), p, e, j)
    {
      words[e] := 0;
      words[e - 1] := 0;
      words[p] := -j;
      words[p + j - 1] := -j;
    }

    /** The writes of `__mem_free` at an accepted block. */
    method Merge(entry: nat)
      requires Mergeable(words[..], n, entry)
      modifies words
      ensures words[..] == MergeWrites(old(words[..]), n, entry)
    {
      var e, size := entry, words[entry];
      var prevFree := e > 0 && words[e - 1] < 0;
      var nextFree := e + size < n && words[e + size] < 0;
      assert PrevFree(words[..], e) == prevFree && NextFree(words[..], n, e) == nextFree;
      if !prevFree && !nextFree {
        words[e] := -size;
        words[e + size - 1] := -size;
      }
      if prevFree {
        var prev := e + words[e - 1];
        var joined := size - words[e - 1];
        Join(prev, e, joined);
        e, size := prev, joined;
      }
      if nextFree {
        Join(e, e + size, size - words[e + size]);
      }
    }

    predicate IsBlock(ptr: nat) {
      base <= ptr < AddrOf(base, n) && (ptr - base) % BLOCK == 0
    }

    lemma BlockTests(e: nat)
      requires Valid() && e < n
      ensures words.Length == 16 * n && words[..] == Encode(runs) + words[n..]
      ensures words[e] > 0 ==> words[e] <= n && Mergeable(words[..], n, e)
      ensures words[e] > 0 <==> e in Live(runs) || FooterAt(runs, e)
      ensures e in Live(runs) ==> Accepts(words[..], e) && !FooterAt(runs, e)
    {
      assert words[..] == words[..n] + words[n..];
      Tests(runs, e, n, words[n..]);
    }

    lemma Settled(was: seq<Run>, e: nat, rest: seq<int>)
      requires 2 <= n < TWO31 && 0 < base && base + n * BLOCK < TWO64 && words.Length == 16 * n
      requires Heap(was, n, IndexBlocks(n)) && e != 0 && e in Live(was) && runs == GiveRuns(was, e)
      requires words[..n] == Encode(runs) && words[n..] == rest
      requires forall i :: 0 <= i < |rest| ==> -TWO31 <= rest[i] < TWO31
      ensures Valid()
    {
      GiveFacts(was, e, n, IndexBlocks(n));
      TagsFit(runs, n, words[..n]);
      forall i | 0 <= i < words.Length ensures -TWO31 <= words[i] < TWO31 {
        if i < n { assert words[i] == words[..n][i]; } else { assert words[i] == rest[i - n]; }
      }
    }

    /** `__mem_free` past its tests. */
    method Release(e: nat)
      requires Valid() && e < n && (e in Live(runs) || FooterAt(runs, e))
      modifies this`runs, words
      ensures e in Live(old(runs)) ==>
                && runs == GiveRuns(old(runs), e)
                && words[..n] == Encode(runs) && words[n..] == old(words[n..])
                && (e != 0 ==> Valid())
      ensures e !in Live(old(runs)) ==> !Encodable(words[..n])
    {
      ghost var z := words[n..];
      BlockTests(e);
      Merge(e);
      MergeMeans(runs, e, n, IndexBlocks(n), z);
      if e in Live(runs) {
        ghost var next := GiveRuns(runs, e);
        assert words[..n] == Encode(next) && words[n..] == z;
        assert forall i :: 0 <= i < |z| ==> z[i] == old(words[n + i]);
        runs := next;
        if e != 0 { Settled(old(runs), e, z); }
      }
    }

    /** `__mem_free`. */
    method Free(ptr: nat) returns (code: int)
      requires Valid() && ptr < TWO64
      modifies this`runs, words
      ensures code == FREE_OUT_OF_HEAP <==> ptr < base || ptr >= AddrOf(base, n)
      ensures code == FREE_NOT_BLOCK_ALIGNED <==>
                base <= ptr < AddrOf(base, n) && (ptr - base) % BLOCK != 0
      ensures code != 0 ==> Valid() && runs == old(runs) && words[..] == old(words[..])
      // a live allocation is always released, and nothing else is touched
      ensures IsBlock(ptr) && BlockOf(base, ptr) in Live(old(runs)) ==>
                && code == 0 && runs == GiveRuns(old(runs), BlockOf(base, ptr))
                && words[..n] == Encode(runs) && words[n..] == old(words[n..])
                && (BlockOf(base, ptr) != 0 ==> Valid())
      // any other block is refused, except a last block behind which the test is fooled
      ensures IsBlock(ptr) && BlockOf(base, ptr) !in Live(old(runs)) ==>
                var e := BlockOf(base, ptr);
                && (code == FREE_NOT_ALLOCED <==> !FooterAt(old(runs), e))
                && (code == FREE_NOT_START_OF_ALLOC || code == 0 <==> FooterAt(old(runs), e))
                && (code == 0 <==> Accepts(old(words[..]), e))
                && (code == 0 ==> !Encodable(words[..n]))
    {
      if ptr < base || ptr >= base + n * BLOCK { return FREE_OUT_OF_HEAP; }
      if (ptr - base) % BLOCK != 0 { return FREE_NOT_BLOCK_ALIGNED; }
      var e := (ptr - base) / BLOCK;
      BlockTests(e);
      if words[e] <= 0 { return FREE_NOT_ALLOCED; }
      if words[e] != words[e + words[e] - 1] { return FREE_NOT_START_OF_ALLOC; }
      Release(e);
      return 0;
    }
  }

  /** The allocator has this heap, with these words behind the index. */
  ghost predicate Stands(h: Allocator, base: nat, n: nat, runs: seq<Run>, behind: seq<int>)
    reads h, h.words
  {
    h.Valid() && h.base == base && h.n == n && h.runs == runs && h.words[n..] == behind
  }
}
