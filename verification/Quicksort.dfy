/** The oblivious quicksort (include/core/operators/quicksort.h): each round compares every element with the pivot of
    its segment and partitions all segments at once. Marked positions are the starts of segments, and the element at
    the start is the segment's pivot. */
module Quicksort {
  import opened Bags

  // ----- Pivots -----

  /** A mark holds its own position, every other cell -1; the first position is always marked. */
  ghost predicate Marks(pivots: seq<int>) {
    && pivots != [] && pivots[0] == 0
    && forall p :: 0 <= p < |pivots| ==> pivots[p] == p || pivots[p] == -1
  }

  /** The start of the segment of position j: the nearest mark at or before it. */
  ghost function StartOf(pivots: seq<int>, j: nat): (p: nat)
    requires Marks(pivots) && j < |pivots|
    ensures p <= j && pivots[p] == p && forall x :: p < x <= j ==> pivots[x] < 0
  {
    if pivots[j] >= 0 then j else StartOf(pivots, j - 1)
  }

  /** Nothing before a mark exceeds anything from the mark on. */
  ghost predicate Bounded(v: seq<int>, pivots: seq<int>) {
    |v| == |pivots| && forall m :: 0 <= m < |pivots| && pivots[m] >= 0 ==> SplitAt(v, m)
  }

  ghost predicate SplitAt(v: seq<int>, m: nat) {
    forall a, b :: 0 <= a < m <= b < |v| ==> v[a] <= v[b]
  }

  predicate Marked(p: int) { p >= 0 }

  /** How many positions are marked. */
  function Count(pivots: seq<int>): nat { |Select(pivots, Marked)| }

  lemma {:induction false} CountGrows(before: seq<int>, after: seq<int>)
    requires |before| == |after| && forall x :: 0 <= x < |before| && Marked(before[x]) ==> Marked(after[x])
    ensures Count(before) <= Count(after) <= |after|
    ensures (exists x :: NewMark(before, after, x)) ==> Count(before) < Count(after)
    ensures Count(after) == |after| <==> forall x :: 0 <= x < |after| ==> Marked(after[x])
  {
    if before != [] {
      var n := |before| - 1;
      CountGrows(before[..n], after[..n]);
      if x :| NewMark(before, after, x) {
        assert x < n ==> NewMark(before[..n], after[..n], x);
      }
      assert Count(after) == Count(after[..n]) + if Marked(after[n]) then 1 else 0;
      assert forall x :: 0 <= x < n ==> after[..n][x] == after[x];
    }
  }

  ghost predicate NewMark(before: seq<int>, after: seq<int>, x: int) {
    0 <= x < |before| == |after| && !Marked(before[x]) && Marked(after[x])
  }

  // ----- One segment -----

  /** The cells lo to hi hold w's cells lo to hi in some order, and all others w's. */
  ghost predicate Rearranged(v: seq<int>, w: seq<int>, lo: nat, hi: nat)
    requires lo <= hi < |v|
  {
    && |w| == |v| && v[..lo] == w[..lo] && v[hi + 1..] == w[hi + 1..]
    && Perm(v[lo..hi + 1], w[lo..hi + 1])
  }

  lemma {:induction false} PermCancel(a: seq<int>, m: seq<int>, n: seq<int>, b: seq<int>)
    requires Perm(a + m + b, a + n + b)
    ensures Perm(m, n)
  {
    assert multiset(a + m + b) == multiset(a) + multiset(m) + multiset(b);
    assert multiset(a + n + b) == multiset(a) + multiset(n) + multiset(b);
    assert multiset(m) == multiset(a + m + b) - multiset(a) - multiset(b);
    assert multiset(n) == multiset(a + n + b) - multiset(a) - multiset(b);
  }

  lemma {:induction false} MiddlePerm(v: seq<int>, w: seq<int>, lo: nat, hi: nat)
    requires lo <= hi < |v| == |w| && v[..lo] == w[..lo] && v[hi + 1..] == w[hi + 1..] && Perm(v, w)
    ensures Rearranged(v, w, lo, hi)
  {
    assert v == v[..lo] + v[lo..hi + 1] + v[hi + 1..];
    assert w == v[..lo] + w[lo..hi + 1] + v[hi + 1..];
    PermCancel(v[..lo], v[lo..hi + 1], w[lo..hi + 1], v[hi + 1..]);
  }

  /** Where a cell of the rearranged sequence comes from. */
  lemma {:induction false} Source(v: seq<int>, w: seq<int>, lo: nat, hi: nat, a: nat) returns (a': nat)
    requires lo <= hi < |v| && a < |v| && Rearranged(v, w, lo, hi)
    ensures a' < |w| && w[a'] == v[a] && if lo <= a <= hi then lo <= a' <= hi else a' == a
  {
    if lo <= a <= hi {
      assert v[lo..hi + 1][a - lo] == v[a];
      PermMember(v[lo..hi + 1], w[lo..hi + 1], v[a]);
      var k :| 0 <= k < |w[lo..hi + 1]| && w[lo..hi + 1][k] == v[a];
      a' := lo + k;
    } else {
      a' := a;
      assert a < lo ==> v[..lo][a] == v[a] && w[..lo][a] == w[a];
      assert a > hi ==> v[hi + 1..][a - hi - 1] == v[a] && w[hi + 1..][a - hi - 1] == w[a];
    }
  }

  /** The segment stands around its pivot, now at i. */
  ghost predicate Around(v: seq<int>, lo: nat, hi: nat, i: nat) {
    && lo <= i <= hi < |v|
    && (forall x :: lo <= x < i ==> v[x] <= v[i]) && (forall x :: i < x <= hi ==> v[i] < v[x])
  }

  /** The marks that partition sets. */
  function NextMarks(pivots: seq<int>, i: nat, hi: nat): seq<int>
    requires i <= hi < |pivots|
  {
    if i + 1 <= hi then pivots[i := i][i + 1 := i + 1] else pivots[i := i]
  }

  method Swap(v: array<int>, i: nat, j: nat)
    requires i < v.Length && j < v.Length
    modifies v
    ensures v[..] == old(v[..])[i := old(v[j])][j := old(v[i])] && Perm(v[..], old(v[..]))
  {
    v[i], v[j] := v[j], v[i];
  }

  /** Before element j is looked at: the pivot, the elements not above it, those above it, and the rest as it was. */
  ghost predicate PartlyAround(v: seq<int>, was: seq<int>, start: nat, at: nat, j: nat)
    requires |v| == |was|
  {
    && start <= at < j <= |v| && v[start] == was[start] && Perm(v, was)
    && (forall x :: start < x <= at ==> v[x] <= was[start])
    && (forall x :: at < x < j ==> was[start] < v[x])
    && (forall x :: 0 <= x < |v| && (x < start || j <= x) ==> v[x] == was[x])
  }

  /** Element j is above the pivot, or goes to the end of those that are not. */
  lemma {:induction false} ElementPlaced(v: seq<int>, w: seq<int>, was: seq<int>, start: nat, at: nat, j: nat)
    requires |v| == |w| == |was| && PartlyAround(v, was, start, at, j) && j < |v|
    requires if was[j] <= was[start] then w == v[j := v[at + 1]][at + 1 := v[j]] && Perm(w, v) else w == v
    ensures PartlyAround(w, was, start, if was[j] <= was[start] then at + 1 else at, j + 1)
  {
  }

  /** The pivot goes behind the elements not above it. */
  lemma {:induction false} PivotMoved(v: seq<int>, w: seq<int>, was: seq<int>, start: nat, at: nat, end: nat)
    requires |v| == |w| == |was| && start <= end < |v| && PartlyAround(v, was, start, at, end + 1)
    requires w == v[start := v[at]][at := v[start]] && Perm(w, v)
    ensures Around(w, start, end, at) && Rearranged(w, was, start, end)
  {
    assert w[..start] == was[..start] && w[end + 1..] == was[end + 1..];
    MiddlePerm(w, was, start, end);
  }

  /** The loop of partition. */
  method ToFront(v: array<int>, comparisons: array<int>, start: nat, end: nat) returns (at: nat)
    requires start <= end < v.Length == comparisons.Length && v != comparisons
    requires forall j :: start < j <= end ==> (comparisons[j] == 0 <==> v[j] <= v[start])
    modifies v
    ensures start <= at <= end && PartlyAround(v[..], old(v[..]), start, at, end + 1)
  {
    ghost var was := v[..];
    at := start;
    for j := start + 1 to end + 1
      invariant start <= at < j && PartlyAround(v[..], was, start, at, j)
    {
      ghost var before := v[..];
      assert comparisons[j] == 0 <==> was[j] <= was[start];
      if comparisons[j] == 0 {
        Swap(v, j, at + 1);
        ElementPlaced(before, v[..], was, start, at, j);
        at := at + 1;
      } else {
        ElementPlaced(before, v[..], was, start, at, j);
      }
    }
  }

  /** partition: the elements compared as 0 to the front, the pivot behind them. */
  method PartitionSegment(v: array<int>, comparisons: array<int>, start: nat, end: nat, pivots: array<int>)
    returns (ghost i: nat)
    requires start <= end < v.Length == comparisons.Length == pivots.Length
    requires v != comparisons && v != pivots && comparisons != pivots
    requires forall j :: start < j <= end ==> (comparisons[j] == 0 <==> v[j] <= v[start])
    modifies v, pivots
    ensures Around(v[..], start, end, i) && Rearranged(v[..], old(v[..]), start, end)
    ensures pivots[..] == NextMarks(old(pivots[..]), i, end)
  {
    ghost var was, marks := v[..], pivots[..];
    var at := ToFront(v, comparisons, start, end);
    ghost var before := v[..];
    Swap(v, start, at);
    PivotMoved(before, v[..], was, start, at, end);
    i := at;
    pivots[at] := at;
    if at + 1 <= end {
      pivots[at + 1] := at + 1;
    }
    assert pivots[..] == NextMarks(marks, i, end);
  }

  /** Partitioning a segment keeps all bounds and earns the new ones. */
  lemma {:induction false} BoundsKept(v: seq<int>, w: seq<int>, pivots: seq<int>, lo: nat, hi: nat, i: nat)
    requires Bounded(w, pivots) && Marks(pivots) && |v| == |w| && lo <= hi < |v|
    requires Rearranged(v, w, lo, hi) && Around(v, lo, hi, i)
    requires Marked(pivots[lo]) && (hi + 1 < |v| ==> Marked(pivots[hi + 1]))
    requires forall x :: lo < x <= hi ==> !Marked(pivots[x])
    ensures Marks(NextMarks(pivots, i, hi)) && Bounded(v, NextMarks(pivots, i, hi))
  {
    var next := NextMarks(pivots, i, hi);
    forall m | 0 <= m < |v| && Marked(next[m]) ensures SplitAt(v, m) {
      forall a, b | 0 <= a < m <= b < |v| ensures v[a] <= v[b] {
        var a' := Source(v, w, lo, hi, a);
        var b' := Source(v, w, lo, hi, b);
        if m <= lo || hi < m {
          assert SplitAt(w, m);
        } else if a < lo {
          assert SplitAt(w, lo);
        } else if hi < b {
          assert SplitAt(w, hi + 1);
        } else {
          assert m == i || m == i + 1;
        }
      }
    }
  }

  // ----- One round -----

  /** The running maximum of the marks: every position's segment start. */
  method SegmentStarts(pivots: seq<int>) returns (starts: seq<nat>)
    requires Marks(pivots)
    ensures |starts| == |pivots| && forall j :: 0 <= j < |starts| ==> starts[j] == StartOf(pivots, j)
  {
    var temp := new int[|pivots|](i requires 0 <= i < |pivots| => pivots[i]);
    for j := 1 to temp.Length
      invariant forall x :: 0 <= x < j ==> temp[x] == StartOf(pivots, x)
      invariant forall x :: j <= x < temp.Length ==> temp[x] == pivots[x]
    {
      temp[j] := if temp[j - 1] >= temp[j] then temp[j - 1] else temp[j];
    }
    starts := seq(temp.Length, i requires 0 <= i < temp.Length && temp[i] >= 0 reads temp => temp[i]);
  }

  /** Compared as 0: not above the pivot of its segment. */
  ghost predicate Compared(v: seq<int>, pivots: seq<int>, comparisons: seq<int>)
    requires Marks(pivots) && |v| == |pivots| == |comparisons|
  {
    forall j :: 0 <= j < |v| && !Marked(pivots[j]) ==> (comparisons[j] == 0 <==> v[j] <= v[StartOf(pivots, j)])
  }

  /** reduced_vec > pivot_vec, for all positions that are no pivots. */
  method Compare(v: array<int>, pivots: array<int>, comparisons: array<int>)
    requires v.Length == pivots.Length == comparisons.Length && comparisons != v && comparisons != pivots
    requires Marks(pivots[..])
    modifies comparisons
    ensures Compared(v[..], pivots[..], comparisons[..])
  {
    ghost var v0, pivots0 := v[..], pivots[..];
    var starts := SegmentStarts(pivots[..]);
    for j := 0 to v.Length
      invariant v[..] == v0 && pivots[..] == pivots0
      invariant forall x :: 0 <= x < j && !Marked(pivots0[x]) ==> (comparisons[x] == 0 <==> v0[x] <= v0[starts[x]])
    {
      if pivots[j] < 0 {
        comparisons[j] := if v[j] > v[starts[j]] then 1 else 0;
      }
    }
  }

  /** The round has come to position `index`, a mark or an end (-1 before it starts): what lies before is done, what
      follows is as it was at the start of the round. */
  ghost predicate Reached(v: seq<int>, pivots: seq<int>, v0: seq<int>, pivots0: seq<int>, index: int) {
    && |v| == |v0| == |pivots| == |pivots0| && -1 <= index <= |v| && Marks(pivots) && Marks(pivots0)
    && Bounded(v, pivots) && Perm(v, v0)
    && (forall x :: 0 <= x < |v| && Marked(pivots0[x]) ==> Marked(pivots[x]))
    && (forall x :: 0 <= x < |v| && index <= x ==> v[x] == v0[x] && pivots[x] == pivots0[x])
    && (0 <= index < |v| ==> Marked(pivots0[index]))
    && ((exists x :: 0 <= x < index && !Marked(pivots0[x])) ==> exists x :: NewMark(pivots0, pivots, x))
  }

  /** One more segment done. */
  lemma {:induction false} SegmentDone(v: seq<int>, pivots: seq<int>, w: seq<int>, next: seq<int>, v0: seq<int>,
                                       pivots0: seq<int>, lo: nat, hi: nat, i: nat)
    requires Reached(v, pivots, v0, pivots0, lo) && lo <= hi < |v| == |w|
    requires forall x :: lo < x <= hi ==> !Marked(pivots0[x])
    requires hi + 1 < |v| ==> Marked(pivots0[hi + 1])
    requires Rearranged(w, v, lo, hi) && Around(w, lo, hi, i) && next == NextMarks(pivots, i, hi)
    ensures Reached(w, next, v0, pivots0, hi + 1)
  {
    BoundsKept(w, v, pivots, lo, hi, i);
    AllPerm(w, v, lo, hi);
    if x :| 0 <= x < hi + 1 && !Marked(pivots0[x]) {
      if x < lo {
        var y :| NewMark(pivots0, pivots, y);
        assert NewMark(pivots0, next, y);
      } else {
        assert NewMark(pivots0, next, if i == lo then i + 1 else i);
      }
    }
  }

  lemma {:induction false} AllPerm(v: seq<int>, w: seq<int>, lo: nat, hi: nat)
    requires lo <= hi < |v| && Rearranged(v, w, lo, hi)
    ensures Perm(v, w) && forall x :: hi < x < |v| ==> v[x] == w[x]
  {
    assert v == v[..lo] + v[lo..hi + 1] + v[hi + 1..] && w == w[..lo] + w[lo..hi + 1] + w[hi + 1..];
    forall x | hi < x < |v| ensures v[x] == w[x] {
      assert v[hi + 1..][x - hi - 1] == w[hi + 1..][x - hi - 1];
    }
  }

  lemma {:induction false} RoundStarts(v: seq<int>, pivots: seq<int>)
    requires Marks(pivots) && Bounded(v, pivots)
    ensures Reached(v, pivots, v, pivots, -1)
  {
  }

  /** A segment of its pivot alone is done. */
  lemma {:induction false} Adjacent(v: seq<int>, pivots: seq<int>, v0: seq<int>, pivots0: seq<int>, index: int)
    requires Reached(v, pivots, v0, pivots0, index) && index + 1 < |v| && Marked(pivots0[index + 1])
    ensures Reached(v, pivots, v0, pivots0, index + 1)
  {
    if x :| 0 <= x < index + 1 && !Marked(pivots0[x]) {
      assert x < index;
    }
  }

  lemma {:induction false} NotYet(v: seq<int>, pivots: seq<int>, v0: seq<int>, pivots0: seq<int>, index: int, p: nat)
    requires Reached(v, pivots, v0, pivots0, index) && index < p < |v|
    ensures pivots[p] == pivots0[p] && (p == 0 ==> Marked(pivots[p]))
  {
  }

  /** The segment from `index` to `end`. */
  method DoSegment(v: array<int>, comparisons: array<int>, pivots: array<int>, index: nat, end: nat,
                   ghost v0: seq<int>, ghost pivots0: seq<int>)
    requires v != comparisons && v != pivots && comparisons != pivots
    requires v.Length == comparisons.Length == pivots.Length && index <= end < v.Length
    requires Reached(v[..], pivots[..], v0, pivots0, index) && Compared(v0, pivots0, comparisons[..])
    requires forall x :: index < x <= end ==> !Marked(pivots0[x])
    requires end + 1 < v.Length ==> Marked(pivots0[end + 1])
    modifies v, pivots
    ensures Reached(v[..], pivots[..], v0, pivots0, end + 1)
  {
    ghost var was, marks := v[..], pivots[..];
    forall j | index < j <= end ensures comparisons[j] == 0 <==> v[j] <= v[index] {
      assert StartOf(pivots0, j) == index;
    }
    ghost var i := PartitionSegment(v, comparisons, index, end, pivots);
    SegmentDone(was, marks, v[..], pivots[..], v0, pivots0, index, end, i);
  }

  /** `index` is the last mark the round started with before position p. */
  ghost predicate LastMark(pivots0: seq<int>, index: int, p: int) {
    -1 <= index < p <= |pivots0| && forall x :: index < x < p ==> !Marked(pivots0[x])
  }

  /** Position p: nothing to do unless a segment of several elements ends before it. */
  method Visit(v: array<int>, comparisons: array<int>, pivots: array<int>, index: int, p: nat, ghost v0: seq<int>,
               ghost pivots0: seq<int>) returns (next: int)
    requires v != comparisons && v != pivots && comparisons != pivots
    requires v.Length == comparisons.Length == pivots.Length == |pivots0|
    requires p < v.Length && LastMark(pivots0, index, p)
    requires Reached(v[..], pivots[..], v0, pivots0, index) && Compared(v0, pivots0, comparisons[..])
    modifies v, pivots
    ensures Reached(v[..], pivots[..], v0, pivots0, next) && LastMark(pivots0, next, p + 1) && next >= 0
  {
    next := index;
    NotYet(v[..], pivots[..], v0, pivots0, index, p);
    if pivots[p] < 0 {
    } else if p - index == 1 {
      Adjacent(v[..], pivots[..], v0, pivots0, index);
      next := index + 1;
    } else {
      DoSegment(v, comparisons, pivots, index, p - 1, v0, pivots0);
      next := p;
    }
  }

  /** One round: all segments between the marks it started with. */
  method Round(v: array<int>, comparisons: array<int>, pivots: array<int>)
    requires v != comparisons && v != pivots && comparisons != pivots
    requires v.Length == comparisons.Length == pivots.Length
    requires Marks(pivots[..]) && Bounded(v[..], pivots[..])
    modifies v, comparisons, pivots
    ensures Perm(v[..], old(v[..])) && Marks(pivots[..]) && Bounded(v[..], pivots[..])
    ensures Count(old(pivots[..])) < Count(pivots[..]) || Count(pivots[..]) == v.Length
  {
    ghost var v0, pivots0 := v[..], pivots[..];
    Compare(v, pivots, comparisons);
    ghost var compared := comparisons[..];
    RoundStarts(v0, pivots0);
    var index := -1;
    for p := 0 to v.Length
      invariant LastMark(pivots0, index, p) && (p > 0 ==> index >= 0) && comparisons[..] == compared
      invariant Reached(v[..], pivots[..], v0, pivots0, index)
    {
      index := Visit(v, comparisons, pivots, index, p, v0, pivots0);
    }
    DoSegment(v, comparisons, pivots, index, v.Length - 1, v0, pivots0);
    RoundProgress(v[..], pivots[..], v0, pivots0);
  }

  lemma {:induction false} RoundProgress(v: seq<int>, pivots: seq<int>, v0: seq<int>, pivots0: seq<int>)
    requires Reached(v, pivots, v0, pivots0, |v|)
    ensures Perm(v, v0) && Marks(pivots) && Bounded(v, pivots)
    ensures Count(pivots0) < Count(pivots) || Count(pivots) == |v|
  {
    CountGrows(pivots0, pivots);
    if Count(pivots) < |v| {
      var x :| 0 <= x < |v| && !Marked(pivots[x]);
      assert !Marked(pivots0[x]);
    }
  }

  // ----- The sort -----

  /** v.shuffle(): any order. */
  method Shuffle(v: array<int>)
    modifies v
    ensures Perm(v[..], old(v[..]))
  {
    for i := 0 to v.Length
      invariant Perm(v[..], old(v[..]))
    {
      var k :| i <= k < v.Length;
      v[i], v[k] := v[k], v[i];
    }
  }

  ghost predicate Ascending(v: seq<int>) { forall a, b :: 0 <= a <= b < |v| ==> v[a] <= v[b] }

  /** Every position a mark: sorted. */
  lemma {:induction false} AllMarked(v: seq<int>, pivots: seq<int>)
    requires Bounded(v, pivots) && Count(pivots) == |v|
    ensures Ascending(v)
  {
    CountGrows(pivots, pivots);
    forall a, b | 0 <= a <= b < |v| ensures v[a] <= v[b] {
      assert Marked(pivots[b]) && SplitAt(v, b);
    }
  }

  /** quicksort_body, for elements that need not be distinct. */
  method QuicksortBody(v: array<int>)
    requires v.Length >= 1
    modifies v
    ensures Perm(v[..], old(v[..])) && Ascending(v[..])
  {
    Shuffle(v);
    var n := v.Length;
    var pivots := new int[n](_ => -1);
    var comparisons := new int[n](_ => 0);
    pivots[0] := 0;
    var numPivots := 1;
    CountGrows(pivots[..], pivots[..]);
    OneMark(pivots[..]);
    while true
      invariant fresh(pivots) && fresh(comparisons) && Marks(pivots[..]) && Bounded(v[..], pivots[..])
      invariant Perm(v[..], old(v[..])) && numPivots == Count(pivots[..])
      decreases n - numPivots
    {
      CountGrows(pivots[..], pivots[..]);
      Round(v, comparisons, pivots);
      numPivots := Count(pivots[..]);
      CountGrows(pivots[..], pivots[..]);
      if numPivots >= n {
        AllMarked(v[..], pivots[..]);
        return;
      }
    }
  }

  lemma {:induction false} OneMark(pivots: seq<int>)
    requires pivots != [] && Marked(pivots[0]) && forall p :: 1 <= p < |pivots| ==> !Marked(pivots[p])
    ensures Count(pivots) == 1
  {
    assert pivots == [pivots[0]] + pivots[1..];
    SelectAppend([pivots[0]], pivots[1..], Marked);
    SelectedAll([pivots[0]], Marked);
    SelectNone(pivots[1..], Marked);
  }
}
