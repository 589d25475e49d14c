/** Circular doubly linked rings: the intrusive `list_t` of `h/list.h`, with the links of all
    nodes as two maps from a node to its neighbours.  Node 0 is the null pointer. */
module Rings {
  import DeltaQueue
  import Sequences

  type Links = map<nat, nat>

  /** From head on, the next-links run through s and back, and the prev-links are their inverse. */
  ghost predicate Circle(next: Links, prev: Links, head: nat, s: seq<nat>) {
    if s == [] then head == 0
    else
      && head == s[0] && 0 !in s && Sequences.Distinct(s)
      && (forall n :: n in s ==> n in next && n in prev)
      && (forall i :: 0 <= i < |s| - 1 ==> next[s[i]] == s[i + 1] && prev[s[i + 1]] == s[i])
      && next[s[|s| - 1]] == s[0] && prev[s[0]] == s[|s| - 1]
  }

  /** Links outside s are as before. */
  ghost predicate SameOutside(links: Links, links': Links, s: seq<nat>) {
    links.Keys <= links'.Keys && forall n :: n in links && n !in s ==> links'[n] == links[n]
  }

  lemma RingFrame(next: Links, prev: Links, next': Links, prev': Links, head: nat, s: seq<nat>, t: seq<nat>)
    requires Circle(next, prev, head, s) && SameOutside(next, next', t) && SameOutside(prev, prev', t)
    requires forall n :: n in s ==> n !in t
    ensures Circle(next', prev', head, s)
  {
    if s != [] {
      assert s[0] in s && s[|s| - 1] in s;
      forall i | 0 <= i < |s| - 1 ensures next'[s[i]] == s[i + 1] && prev'[s[i + 1]] == s[i] {
        assert s[i] in s && s[i + 1] in s;
      }
    }
  }

  /** Following the links is walking along s. */
  lemma RingAt(next: Links, prev: Links, head: nat, s: seq<nat>, k: nat)
    requires Circle(next, prev, head, s) && k < |s|
    ensures s[k] in next && s[k] in prev && s[k] != 0
    ensures next[s[k]] == if k + 1 < |s| then s[k + 1] else head
    ensures prev[s[k]] == if k > 0 then s[k - 1] else s[|s| - 1]
    ensures next[s[k]] == s[k] <==> |s| == 1
    ensures s[k] == head <==> k == 0
  {
    assert s[k] in s;
    if k > 0 { assert next[s[k - 1]] == s[k]; }
  }

  lemma RingSingle(next: Links, prev: Links, n: nat)
    requires n != 0 && n in next && n in prev && next[n] == n && prev[n] == n
    ensures Circle(next, prev, n, [n])
  {
  }

  /** The four writes of `list_insert(at, n)` put n in front of `at`, for any entry `at` of the
      ring; in front of the head is behind the last. */
  function InsertedNext(next: Links, prev: Links, at: nat, n: nat): Links
    requires at in prev
  {
    next[n := at][prev[at] := n]
  }

  function InsertedPrev(prev: Links, at: nat, n: nat): Links
    requires at in prev
  {
    prev[n := prev[at]][at := n]
  }

  lemma InsertLinks(next: Links, prev: Links, s: seq<nat>, k: nat, n: nat)
    requires s != [] && Circle(next, prev, s[0], s) && 1 <= k <= |s| && n != 0 && n !in s
    ensures var at := if k < |s| then s[k] else s[0];
            && at in prev
            && var next', prev', s' := InsertedNext(next, prev, at, n), InsertedPrev(prev, at, n),
               s[..k] + [n] + s[k..];
               Circle(next', prev', s[0], s') && SameOutside(next, next', s') && SameOutside(prev, prev', s')
  {
    var at := if k < |s| then s[k] else s[0];
    RingAt(next, prev, s[0], s, if k < |s| then k else 0);
    assert prev[at] == s[k - 1];
    DeltaQueue.PutDistinct(s, n, k);
    InsertInner(next, prev, s, k, n);
    InsertEnds(next, prev, s, k, n);
  }

  lemma InsertEnds(next: Links, prev: Links, s: seq<nat>, k: nat, n: nat)
    requires s != [] && Circle(next, prev, s[0], s) && 1 <= k <= |s| && n != 0 && n !in s
    requires (if k < |s| then s[k] else s[0]) in prev
    ensures var at := if k < |s| then s[k] else s[0];
            var next', prev', s' := InsertedNext(next, prev, at, n), InsertedPrev(prev, at, n), s[..k] + [n] + s[k..];
            && s'[0] == s[0] && s'[|s|] in next' && s[0] in prev'
            && next'[s'[|s|]] == s[0] && prev'[s[0]] == s'[|s|]
            && (forall m :: m in s || m == n ==> m in next' && m in prev')
            && SameOutside(next, next', s') && SameOutside(prev, prev', s')
  {
    var at := if k < |s| then s[k] else s[0];
    RingAt(next, prev, s[0], s, if k < |s| then k else 0);
    RingAt(next, prev, s[0], s, |s| - 1);
    var s' := s[..k] + [n] + s[k..];
    assert prev[at] == s[k - 1] && s'[k - 1] == s[k - 1] && s'[k] == n;
    assert k < |s| ==> s'[k + 1] == at && s'[|s|] == s[|s| - 1];
  }

  lemma InsertInner(next: Links, prev: Links, s: seq<nat>, k: nat, n: nat)
    requires s != [] && Circle(next, prev, s[0], s) && 1 <= k <= |s| && n != 0 && n !in s
    requires (if k < |s| then s[k] else s[0]) in prev
    ensures var at := if k < |s| then s[k] else s[0];
            var next', prev', s' := InsertedNext(next, prev, at, n), InsertedPrev(prev, at, n), s[..k] + [n] + s[k..];
            forall i {:trigger s'[i]} :: 0 <= i < |s'| - 1 ==>
              s'[i] in next' && s'[i + 1] in prev' && next'[s'[i]] == s'[i + 1] && prev'[s'[i + 1]] == s'[i]
  {
    var at := if k < |s| then s[k] else s[0];
    RingAt(next, prev, s[0], s, if k < |s| then k else 0);
    assert prev[at] == s[k - 1];
    var next', prev', s' := InsertedNext(next, prev, at, n), InsertedPrev(prev, at, n), s[..k] + [n] + s[k..];
    forall i {:trigger s'[i]} | 0 <= i < |s'| - 1
      ensures s'[i] in next' && s'[i + 1] in prev' && next'[s'[i]] == s'[i + 1] && prev'[s'[i + 1]] == s'[i]
    {
      if i < k - 1 { assert s'[i] == s[i] && s'[i + 1] == s[i + 1]; }
      if i > k { assert s'[i] == s[i - 1] && s'[i + 1] == s[i]; }
    }
  }

  /** A ring can be entered anywhere. */
  lemma Rotate(next: Links, prev: Links, s: seq<nat>, n: nat)
    requires s != [] && Circle(next, prev, s[0], s + [n])
    ensures Circle(next, prev, n, [n] + s)
  {
    var a, b := s + [n], [n] + s;
    assert forall i :: 0 <= i < |s| ==> a[i] == s[i] && b[i + 1] == s[i];
    assert a[|s|] == n;
    assert Sequences.Distinct(b) by { RotateDistinct(s, n); }
    assert forall m :: m in b <==> m in a;
    forall i | 0 <= i < |b| - 1 ensures next[b[i]] == b[i + 1] && prev[b[i + 1]] == b[i] {
      if i > 0 { assert next[a[i - 1]] == a[i]; }
    }
    assert next[a[|s| - 1]] == a[|s|];
  }

  lemma RotateDistinct(s: seq<nat>, n: nat)
    requires Sequences.Distinct(s + [n])
    ensures Sequences.Distinct([n] + s)
  {
    var a := s + [n];
    assert forall i :: 0 <= i < |s| ==> a[i] == s[i];
    assert a[|s|] == n;
  }

  /** The two writes that take a node out. */
  function RemovedNext(next: Links, prev: Links, n: nat): Links
    requires n in next && n in prev
  {
    next[prev[n] := next[n]]
  }

  function RemovedPrev(next: Links, prev: Links, n: nat): Links
    requires n in next && n in prev
  {
    prev[next[n] := prev[n]]
  }

  lemma RemoveLinks(next: Links, prev: Links, s: seq<nat>, k: nat)
    requires |s| >= 2 && Circle(next, prev, s[0], s) && k < |s|
    ensures s[k] in next && s[k] in prev
    ensures var next', prev', s' := RemovedNext(next, prev, s[k]), RemovedPrev(next, prev, s[k]), s[..k] + s[k + 1..];
            Circle(next', prev', s'[0], s') && SameOutside(next, next', s) && SameOutside(prev, prev', s)
  {
    var s' := s[..k] + s[k + 1..];
    RingAt(next, prev, s[0], s, k);
    RemoveDistinct(s, k);
    RemoveInner(next, prev, s, k);
    RemoveEnds(next, prev, s, k);
  }

  lemma RemoveDistinct(s: seq<nat>, k: nat)
    requires Sequences.Distinct(s) && k < |s|
    ensures Sequences.Distinct(s[..k] + s[k + 1..])
    ensures forall n :: n in s[..k] + s[k + 1..] <==> n in s && n != s[k]
  {
    var s' := s[..k] + s[k + 1..];
    assert forall i :: 0 <= i < |s'| ==> s'[i] == s[if i < k then i else i + 1];
    forall n | n in s && n != s[k] ensures n in s' {
      var i :| 0 <= i < |s| && s[i] == n;
      assert s'[if i < k then i else i - 1] == n;
    }
  }

  lemma RemoveInner(next: Links, prev: Links, s: seq<nat>, k: nat)
    requires |s| >= 2 && Circle(next, prev, s[0], s) && k < |s|
    requires s[k] in next && s[k] in prev
    ensures var next', prev', s' := RemovedNext(next, prev, s[k]), RemovedPrev(next, prev, s[k]), s[..k] + s[k + 1..];
            && (forall n :: n in s ==> n in next' && n in prev')
            && forall i {:trigger s'[i]} :: 0 <= i < |s'| - 1 ==> next'[s'[i]] == s'[i + 1] && prev'[s'[i + 1]] == s'[i]
  {
    var next', prev', s' := RemovedNext(next, prev, s[k]), RemovedPrev(next, prev, s[k]), s[..k] + s[k + 1..];
    RingAt(next, prev, s[0], s, k);
    assert forall i :: 0 <= i < |s'| ==> s'[i] == s[if i < k then i else i + 1];
    forall i | 0 <= i < |s'| - 1 ensures next'[s'[i]] == s'[i + 1] && prev'[s'[i + 1]] == s'[i] {
      var j := if i < k then i else i + 1;
      assert s[j] in s && next[s[j]] == s[j + 1];
      if i + 1 == k { assert s'[i] == s[k - 1] && s'[i + 1] == s[k + 1]; }
    }
  }

  lemma RemoveEnds(next: Links, prev: Links, s: seq<nat>, k: nat)
    requires |s| >= 2 && Circle(next, prev, s[0], s) && k < |s|
    requires s[k] in next && s[k] in prev
    ensures var next', prev', s' := RemovedNext(next, prev, s[k]), RemovedPrev(next, prev, s[k]), s[..k] + s[k + 1..];
            && s'[0] in s && s'[|s'| - 1] in s && s'[0] in prev' && s'[|s'| - 1] in next'
            && next'[s'[|s'| - 1]] == s'[0] && prev'[s'[0]] == s'[|s'| - 1]
  {
    var s' := s[..k] + s[k + 1..];
    RingAt(next, prev, s[0], s, k);
    var m := |s| - 1;
    assert s'[0] == (if k == 0 then s[1] else s[0]) && s'[m - 1] == (if k == m then s[m - 1] else s[m]);
    RingAt(next, prev, s[0], s, 0);
    RingAt(next, prev, s[0], s, 1);
    RingAt(next, prev, s[0], s, m);
    RingAt(next, prev, s[0], s, m - 1);
  }

  /* ---- queues ---- */

  /** Pushing a node: linked to itself if the ring was empty, else behind the last. */
  ghost predicate Pushed(next: Links, prev: Links, head: nat, n: nat, next': Links, prev': Links, head': nat) {
    if head == 0 then next' == next[n := n] && prev' == prev[n := n] && head' == n
    else
      && head in prev && head' == head
      && next' == InsertedNext(next, prev, head, n) && prev' == InsertedPrev(prev, head, n)
  }

  lemma PushCircle(next: Links, prev: Links, head: nat, s: seq<nat>, n: nat, next': Links, prev': Links, head': nat)
    requires Circle(next, prev, head, s) && n != 0 && n !in s
    requires Pushed(next, prev, head, n, next', prev', head')
    ensures Circle(next', prev', head', s + [n])
    ensures SameOutside(next, next', s + [n]) && SameOutside(prev, prev', s + [n])
  {
    if s == [] {
      assert s + [n] == [n];
    } else {
      InsertLinks(next, prev, s, |s|, n);
      assert s[..|s|] + [n] + s[|s|..] == s + [n];
    }
  }

  /** Popping the head: the ring becomes empty if the head is linked to itself. */
  ghost predicate Popped(next: Links, prev: Links, head: nat, next': Links, prev': Links, head': nat) {
    && head in next && head in prev
    && if next[head] == head then next' == next && prev' == prev && head' == 0
       else next' == RemovedNext(next, prev, head) && prev' == RemovedPrev(next, prev, head) && head' == next[head]
  }

  lemma PopCircle(next: Links, prev: Links, head: nat, s: seq<nat>, next': Links, prev': Links, head': nat)
    requires Circle(next, prev, head, s) && s != [] && Popped(next, prev, head, next', prev', head')
    ensures Circle(next', prev', head', s[1..])
    ensures SameOutside(next, next', s) && SameOutside(prev, prev', s)
  {
    RingAt(next, prev, head, s, 0);
    if |s| > 1 {
      RemoveLinks(next, prev, s, 0);
      assert s[..0] + s[1..] == s[1..];
    }
  }
}
