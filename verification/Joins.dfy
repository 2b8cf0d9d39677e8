/** Joins by sorting (include/core/operators/join.h): both tables are concatenated, sorted on
    VALID, the join keys and the table id, and matched by adjacent comparisons and the aggregation network.
    A joined row is a row of the right table that has taken over columns of a left row. */
module Joins {
  import opened Bags
  import opened PrefixNetworks
  import opened Tables
  import opened Traces

  /** A row of the concatenated table; `fromRight` is the table id. */
  datatype Tagged<O> = Tagged(valid: bool, fromRight: bool, data: O)

  function FromLeft<L, O>(inL: L -> O): Row<L> -> Tagged<O> {
    (r: Row<L>) => Tagged(r.valid, false, inL(r.data))
  }

  function FromRight<R, O>(inR: R -> O): Row<R> -> Tagged<O> {
    (r: Row<R>) => Tagged(r.valid, true, inR(r.data))
  }

  function Concatenate<L, R, O>(left: seq<Row<L>>, right: seq<Row<R>>, inL: L -> O, inR: R -> O): seq<Tagged<O>> {
    Map(left, FromLeft(inL)) + Map(right, FromRight(inR))
  }

  /** VALID and the join keys: the cells that make a group. */
  function GroupCell<O>(key: O -> Key): Tagged<O> -> Key {
    (t: Tagged<O>) => [if t.valid then 1 else 0] + key(t.data)
  }

  /** The same with the table id last: what the concatenated table is sorted on. */
  function TableCell<O>(key: O -> Key): Tagged<O> -> Key {
    (t: Tagged<O>) => GroupCell(key)(t) + [if t.fromRight then 1 else 0]
  }

  /** Every row has the same number of key columns. */
  ghost predicate FixedWidth<O(!new)>(key: O -> Key) {
    forall a, b :: |key(a)| == |key(b)|
  }

  /** copy(a, b) is b with some columns taken from a; the join keys are not among them. */
  ghost predicate CopyColumns<O(!new)>(copy: (O, O) -> O, key: O -> Key) {
    && (forall a, b, c :: copy(copy(a, b), c) == copy(a, c))
    && (forall a, b, c :: copy(a, copy(b, c)) == copy(a, c))
    && (forall a, b :: key(copy(a, b)) == key(b))
  }

  // ----- The relational meaning -----

  /** The match of one right row: one row when the left table has the key, none otherwise. */
  ghost function JoinOne<O>(ll: seq<O>, key: O -> Key, copy: (O, O) -> O, r: O): seq<O> {
    var m := WithKey(ll, key, key(r));
    if m == [] then [] else [copy(m[0], r)]
  }

  ghost function InnerJoin<O>(ll: seq<O>, rr: seq<O>, key: O -> Key, copy: (O, O) -> O): seq<O> {
    FlatMap(rr, r => JoinOne(ll, key, copy, r))
  }

  ghost function Unmatched<O>(ll: seq<O>, key: O -> Key): O -> bool {
    r => WithKey(ll, key, key(r)) == []
  }

  ghost function Matched<O>(ll: seq<O>, key: O -> Key): O -> bool {
    r => WithKey(ll, key, key(r)) != []
  }

  /** The right rows without a match on the left. */
  ghost function AntiJoin<O>(ll: seq<O>, rr: seq<O>, key: O -> Key): seq<O> {
    Select(rr, Unmatched(ll, key))
  }

  /** The right rows with a match on the left. */
  ghost function SemiJoin<O>(ll: seq<O>, rr: seq<O>, key: O -> Key): seq<O> {
    Select(rr, Matched(ll, key))
  }

  // ----- Order of the concatenated table -----

  lemma {:induction false} LeqLastColumn(p: Key, q: Key, x: int, y: int)
    requires |p| == |q| && Leq(p + [x], q + [y])
    ensures Leq(p, q) && (p == q ==> x <= y)
  {
    if p != [] {
      assert (p + [x])[1..] == p[1..] + [x] && (q + [y])[1..] == q[1..] + [y];
      if p[0] == q[0] { LeqLastColumn(p[1..], q[1..], x, y); }
    }
  }

  lemma {:induction false} CellParts<O>(key: O -> Key, a: Tagged<O>, b: Tagged<O>)
    ensures GroupCell(key)(a) == GroupCell(key)(b) <==> a.valid == b.valid && key(a.data) == key(b.data)
    ensures TableCell(key)(a) == TableCell(key)(b)
       <==> GroupCell(key)(a) == GroupCell(key)(b) && a.fromRight == b.fromRight
  {
    var ga, gb := GroupCell(key)(a), GroupCell(key)(b);
    assert ga[1..] == key(a.data) && gb[1..] == key(b.data);
    assert ga == [ga[0]] + ga[1..] && gb == [gb[0]] + gb[1..];
    var ta, tb := TableCell(key)(a), TableCell(key)(b);
    assert ta[..|ta| - 1] == ga && tb[..|tb| - 1] == gb;
    assert ta == ga + [ta[|ta| - 1]] && tb == gb + [tb[|tb| - 1]];
  }

  /** Sorted on the table cells: also sorted on the group cells, and left rows come first in a group. */
  lemma {:induction false} TableOrder<O(!new)>(s: seq<Tagged<O>>, key: O -> Key)
    requires SortedBy(s, TableCell(key)) && FixedWidth(key)
    ensures SortedBy(s, GroupCell(key))
    ensures forall i, j :: 0 <= i <= j < |s| && GroupCell(key)(s[i]) == GroupCell(key)(s[j]) ==>
      s[i].fromRight ==> s[j].fromRight
  {
    forall i, j | 0 <= i <= j < |s|
      ensures Leq(GroupCell(key)(s[i]), GroupCell(key)(s[j]))
      ensures GroupCell(key)(s[i]) == GroupCell(key)(s[j]) && s[i].fromRight ==> s[j].fromRight
    {
      assert |key(s[i].data)| == |key(s[j].data)|;
      LeqLastColumn(GroupCell(key)(s[i]), GroupCell(key)(s[j]), if s[i].fromRight then 1 else 0,
                    if s[j].fromRight then 1 else 0);
    }
  }

  ghost predicate IsLeft<O>(t: Tagged<O>, key: O -> Key, k: Key) {
    t.valid && !t.fromRight && key(t.data) == k
  }

  ghost predicate HasLeft<O>(s: seq<Tagged<O>>, key: O -> Key, k: Key) {
    exists h :: 0 <= h < |s| && IsLeft(s[h], key, k)
  }

  /** ENC_TABLE_UNIQ: the row opens its group. */
  predicate Opens(cells: seq<Key>, i: nat)
    requires i < |cells|
  {
    i == 0 || cells[i - 1] != cells[i]
  }

  /** A left row of the key of a valid right row lies above it, so the right row does not open the group. */
  lemma {:induction false} LeftAbove<O(!new)>(s: seq<Tagged<O>>, key: O -> Key, h: nat, i: nat)
    requires SortedBy(s, TableCell(key)) && FixedWidth(key) && h < |s| && i < |s|
    requires s[i].valid && s[i].fromRight && IsLeft(s[h], key, key(s[i].data))
    ensures h < i && !Opens(Map(s, GroupCell(key)), i)
  {
    TableOrder(s, key);
    CellParts(key, s[h], s[i]);
    assert h < i;
    SortedConvex(s, GroupCell(key), i);
    var cells := Map(s, GroupCell(key));
    assert cells[h] == cells[i] && cells[i - 1] == GroupCell(key)(s[i - 1]);
  }

  /** The inner join's match bit, before and after its `valid` aggregation over the table cells. */
  ghost function MatchSeed<O>(s: seq<Tagged<O>>, key: O -> Key): seq<bool> {
    seq(|s|, i requires 0 <= i < |s| => s[i].valid && !Opens(Map(s, GroupCell(key)), i))
  }

  lemma {:induction false} MatchBit<O(!new)>(s: seq<Tagged<O>>, key: O -> Key, seed: seq<bool>, i: nat)
    requires SortedBy(s, TableCell(key)) && FixedWidth(key) && i < |s| && s[i].valid && seed == MatchSeed(s, key)
    ensures Segment(Map(s, TableCell(key)), seed, (a, b) => a && b, 0, i)
         == (s[i].fromRight && HasLeft(s, key, key(s[i].data)))
  {
    var groups, cells := Map(s, GroupCell(key)), Map(s, TableCell(key));
    if i > 0 {
      CellParts(key, s[i - 1], s[i]);
    }
    if i > 0 && cells[i - 1] == cells[i] {
      MatchBit(s, key, seed, i - 1);
    } else if !Opens(groups, i) {
      TableOrder(s, key);
      assert IsLeft(s[i - 1], key, key(s[i].data));
    } else if s[i].fromRight && HasLeft(s, key, key(s[i].data)) {
      var h :| 0 <= h < |s| && IsLeft(s[h], key, key(s[i].data));
      LeftAbove(s, key, h, i);
      assert false;
    }
  }

  /** The first cell of the run of i. */
  ghost function RunStart(cells: seq<Key>, i: nat): (f: nat)
    requires i < |cells|
    ensures f <= i && cells[f] == cells[i] && Opens(cells, f)
  {
    if Opens(cells, i) then i else RunStart(cells, i - 1)
  }

  /** The copied columns of a row come from the first row of its group. */
  lemma {:induction false} CopySegment<O(!new)>(cells: seq<Key>, data: seq<O>, copy: (O, O) -> O, key: O -> Key, i: nat)
    requires i < |cells| == |data| && CopyColumns(copy, key)
    ensures var f := RunStart(cells, i);
            Segment(cells, data, copy, 0, i) == if f == i then data[i] else copy(data[f], data[i])
  {
    if !Opens(cells, i) { CopySegment(cells, data, copy, key, i - 1); }
  }

  /** The first row of a group that has a left row is a left row. */
  lemma {:induction false} FirstIsLeft<O(!new)>(s: seq<Tagged<O>>, key: O -> Key, i: nat)
    requires SortedBy(s, TableCell(key)) && FixedWidth(key) && i < |s|
    requires s[i].valid && s[i].fromRight && HasLeft(s, key, key(s[i].data))
    ensures var f := RunStart(Map(s, GroupCell(key)), i); f < i && IsLeft(s[f], key, key(s[i].data))
  {
    var cells := Map(s, GroupCell(key));
    var h :| 0 <= h < |s| && IsLeft(s[h], key, key(s[i].data));
    LeftAbove(s, key, h, i);
    var f := RunStart(cells, i);
    CellParts(key, s[f], s[i]);
    CellParts(key, s[h], s[i]);
    TableOrder(s, key);
    SortedConvex(s, GroupCell(key), f);
    assert cells[h] == cells[f];
  }

  /** The anti join's bit: the table id of the first row of the group, copied down. */
  lemma {:induction false} FirstBit(cells: seq<Key>, seed: seq<bool>, i: nat)
    requires i < |cells| == |seed|
    ensures Segment(cells, seed, (a, b) => a, 0, i) == seed[RunStart(cells, i)]
  {
    if !Opens(cells, i) { FirstBit(cells, seed, i - 1); }
  }

  lemma {:induction false} AntiBit<O(!new)>(s: seq<Tagged<O>>, key: O -> Key, i: nat)
    requires SortedBy(s, TableCell(key)) && FixedWidth(key) && i < |s| && s[i].valid
    ensures var f := RunStart(Map(s, GroupCell(key)), i);
            s[f].valid && (s[f].fromRight <==> !HasLeft(s, key, key(s[i].data)))
    ensures !s[i].fromRight ==> HasLeft(s, key, key(s[i].data))
  {
    var f := RunStart(Map(s, GroupCell(key)), i);
    CellParts(key, s[f], s[i]);
    if !s[f].fromRight {
      assert IsLeft(s[f], key, key(s[i].data));
    } else {
      TableOrder(s, key);
      if HasLeft(s, key, key(s[i].data)) {
        FirstIsLeft(s, key, i);
        assert false;
      }
    }
  }

  // ----- From positions to relations -----

  function LeftOne<O>(t: Tagged<O>): seq<O> {
    if t.valid && !t.fromRight then [t.data] else []
  }

  /** The valid left rows of a concatenated table. */
  ghost function LeftRows<O>(s: seq<Tagged<O>>): seq<O> {
    FlatMap(s, (t: Tagged<O>) => LeftOne(t))
  }

  lemma {:induction false} FlatMapTagged<A, O, B>(rows: seq<Row<A>>, tag: Row<A> -> Tagged<O>, inA: A -> O,
                                                  g: Tagged<O> -> seq<B>, f: O -> seq<B>)
    requires forall r :: r in rows ==> g(tag(r)) == if r.valid then f(inA(r.data)) else []
    ensures FlatMap(Map(rows, tag), g) == FlatMap(Map(Live(rows), inA), f)
  {
    if rows != [] {
      var n := |rows| - 1;
      FlatMapTagged(rows[..n], tag, inA, g, f);
      MapLast(rows, tag);
      var live := Live(rows[..n]);
      FlatMapAppend(Map(rows[..n], tag), [tag(rows[n])], g);
      assert FlatMap([tag(rows[n])], g) == g(tag(rows[n]));
      if rows[n].valid {
        assert Live(rows) == live + [rows[n].data];
        MapLast(Live(rows), inA);
        assert Live(rows)[..|live|] == live;
        FlatMapAppend(Map(live, inA), [inA(rows[n].data)], f);
        assert FlatMap([inA(rows[n].data)], f) == f(inA(rows[n].data));
      } else {
        assert Live(rows) == live;
      }
    }
  }

  lemma {:induction false} FlatMapSingle<O>(s: seq<O>)
    ensures FlatMap(s, x => [x]) == s
  {
    if s != [] { FlatMapSingle(s[..|s| - 1]); LastSplit(s); }
  }

  lemma {:induction false} FlatMapEmpty<A, B>(s: seq<A>, f: A -> seq<B>)
    requires forall x :: x in s ==> f(x) == []
    ensures FlatMap(s, f) == []
  {
    if s != [] { FlatMapEmpty(s[..|s| - 1], f); }
  }

  /** Sorting and tagging keep the valid left rows. */
  lemma {:induction false} LeftRowsOf<L, R, O(!new)>(left: seq<Row<L>>, right: seq<Row<R>>, inL: L -> O, inR: R -> O,
                                                     s: seq<Tagged<O>>, key: O -> Key)
    requires Perm(s, Concatenate(left, right, inL, inR))
    ensures Perm(LeftRows(s), Map(Live(left), inL))
    ensures forall k :: HasLeft(s, key, k) <==> WithKey(Map(Live(left), inL), key, k) != []
  {
    var g := (t: Tagged<O>) => LeftOne(t);
    var cl, cr := Map(left, FromLeft(inL)), Map(right, FromRight(inR));
    FlatMapPerm(s, cl + cr, g);
    FlatMapAppend(cl, cr, g);
    FlatMapEmpty(cr, g);
    FlatMapTagged(left, FromLeft(inL), inL, g, x => [x]);
    FlatMapSingle(Map(Live(left), inL));
    forall k
      ensures HasLeft(s, key, k) <==> WithKey(Map(Live(left), inL), key, k) != []
    {
      HasLeftRows(s, Map(Live(left), inL), key, k);
    }
  }

  lemma {:induction false} HasLeftRows<O>(s: seq<Tagged<O>>, ll: seq<O>, key: O -> Key, k: Key)
    requires Perm(LeftRows(s), ll)
    ensures HasLeft(s, key, k) <==> WithKey(ll, key, k) != []
  {
    var g := (t: Tagged<O>) => LeftOne(t);
    var m := WithKey(ll, key, k);
    if HasLeft(s, key, k) {
      var h :| 0 <= h < |s| && IsLeft(s[h], key, k);
      FlatMapMember(s, g, s[h].data);
      assert s[h] in s && s[h].data in LeftOne(s[h]);
      PermMember(LeftRows(s), ll, s[h].data);
      WithKeyMember(ll, key, k, s[h].data);
    }
    if m != [] {
      WithKeyMember(ll, key, k, m[0]);
      PermMember(LeftRows(s), ll, m[0]);
      FlatMapMember(s, g, m[0]);
      var t :| t in s && m[0] in LeftOne(t);
      var h :| 0 <= h < |s| && s[h] == t;
      assert IsLeft(s[h], key, k);
    }
  }

  lemma {:induction false} LiveOfTagged<O>(s: seq<Tagged<O>>, out: seq<Row<O>>, g: Tagged<O> -> seq<O>)
    requires |out| == |s| && forall i :: 0 <= i < |s| ==> LiveOne(out[i]) == g(s[i])
    ensures Live(out) == FlatMap(s, g)
  {
    if s != [] { LiveOfTagged(s[..|s| - 1], out[..|s| - 1], g); }
  }

  /** A per-row effect that keeps no left row depends on the right table alone. */
  lemma {:induction false} RightOnly<L, R, O>(left: seq<Row<L>>, right: seq<Row<R>>, inL: L -> O, inR: R -> O,
                           s: seq<Tagged<O>>, g: Tagged<O> -> seq<O>, f: O -> seq<O>)
    requires Perm(s, Concatenate(left, right, inL, inR))
    requires forall t :: t in Map(left, FromLeft(inL)) ==> g(t) == []
    requires forall r :: r in right ==> g(FromRight(inR)(r)) == if r.valid then f(inR(r.data)) else []
    ensures Perm(FlatMap(s, g), FlatMap(Map(Live(right), inR), f))
  {
    var cl, cr := Map(left, FromLeft(inL)), Map(right, FromRight(inR));
    FlatMapPerm(s, cl + cr, g);
    FlatMapAppend(cl, cr, g);
    FlatMapEmpty(cl, g);
    FlatMapTagged(right, FromRight(inR), inR, g, f);
  }

  // ----- Trimming -----

  /** Rows with the valid ones first. */
  function ValidFirst<T>(r: Row<T>): Key {
    [if r.valid then 0 else 1]
  }

  predicate IsValid<T>(r: Row<T>) { r.valid }
  predicate IsInvalid<T>(r: Row<T>) { !r.valid }

  /** Cutting off rows below all valid rows loses nothing. */
  lemma {:induction false} HeadKeepsLive<T>(rows: seq<Row<T>>, n: nat)
    requires SortedBy(rows, (r: Row<T>) => ValidFirst(r)) && |Live(rows)| <= n <= |rows|
    ensures Live(rows[..n]) == Live(rows)
  {
    assert rows == rows[..n] + rows[n..];
    LiveAppend(rows[..n], rows[n..]);
    LiveLength(rows[..n]);
    LiveLength(rows[n..]);
    forall i | n <= i < |rows| && rows[i].valid
      ensures Live(rows[n..]) == []
    {
      forall j | 0 <= j < n ensures rows[..n][j].valid {
        assert Leq(ValidFirst(rows[j]), ValidFirst(rows[i]));
      }
      assert |Live(rows[..n])| == n;
    }
  }

  /** The valid rows in order, then the invalid rows in order. */
  ghost function ValidRowsFirst<T>(rows: seq<Row<T>>): (r: seq<Row<T>>)
    ensures |r| == |rows|
  {
    ValidOrInvalid(rows);
    Select(rows, IsValid) + Select(rows, IsInvalid)
  }

  lemma {:induction false} ValidOrInvalid<T>(rows: seq<Row<T>>)
    ensures |Select(rows, IsValid)| + |Select(rows, IsInvalid)| == |rows|
    ensures |Select(rows, IsValid)| == |Live(rows)|
  {
    if rows != [] { ValidOrInvalid(rows[..|rows| - 1]); }
  }

  /** The one-bit sort is stable, so it moves the valid rows up and changes no other order. */
  lemma {:induction false} ValidSortIs<T>(rows: seq<Row<T>>, sorted: seq<Row<T>>)
    requires SortedBy(sorted, (r: Row<T>) => ValidFirst(r)) && Stable(rows, sorted, (r: Row<T>) => ValidFirst(r))
    ensures sorted == ValidRowsFirst(rows)
  {
    var vf := (r: Row<T>) => ValidFirst(r);
    forall i, j | 0 <= i <= j < |sorted| && IsValid(sorted[j]) ensures IsValid(sorted[i]) {
      assert Leq(vf(sorted[i]), vf(sorted[j]));
    }
    SelectSteps(sorted, IsValid, IsInvalid);
    assert WithKey(sorted, vf, [0]) == WithKey(rows, vf, [0]) && WithKey(sorted, vf, [1]) == WithKey(rows, vf, [1]);
    SelectSame(sorted, KeyIs(vf, [0]), IsValid);
    SelectSame(rows, KeyIs(vf, [0]), IsValid);
    SelectSame(sorted, KeyIs(vf, [1]), IsInvalid);
    SelectSame(rows, KeyIs(vf, [1]), IsInvalid);
  }

  predicate Trims(left: nat, right: nat, columns: nat) {
    right < left * (64 + columns - 1) / (columns + 2)
  }

  /** The decision without the quotient: the right table, with one row more, fits w + c - 1 over c + 2 times into the
      left one. */
  lemma {:induction false} TrimsIff(left: nat, right: nat, columns: nat)
    ensures Trims(left, right, columns) <==> (right + 1) * (columns + 2) <= left * (63 + columns)
  {
    var x, d := left * (63 + columns), columns + 2;
    var q := x / d;
    assert x == d * q + x % d;
    ProductOrder(d, right + 1, q);
    ProductOrder(d, q + 1, right + 1);
    assert d * (q + 1) == d * q + d;
  }

  /** An empty left table is never a reason to cut. */
  lemma {:induction false} NothingToTrim(left: nat, right: nat, columns: nat)
    ensures Trims(left, right, columns) ==> left > 0
  {
    TrimsIff(left, right, columns);
  }

  lemma {:induction false} ProductOrder(m: nat, a: int, b: int)
    ensures a <= b ==> m * a <= m * b
  {
    if a <= b { assert m * (b - a) == m * b - m * a; }
  }

  /** More columns make the extra sort dearer: a table that is cut would also be cut with fewer columns, but not the
      other way round. */
  lemma {:induction false} TrimsLess(left: nat, right: nat, few: nat, many: nat)
    requires few <= many && Trims(left, right, many)
    ensures Trims(left, right, few)
    ensures Trims(2, 30, 1) && !Trims(2, 30, 3)
  {
    TrimsIff(left, right, few);
    TrimsIff(left, right, many);
    FitsFewer(left, right + 1, few + 2, many + 2);
  }

  lemma {:induction false} FitsFewer(left: nat, rows: nat, few: nat, many: nat)
    requires few <= many && rows * many <= left * (61 + many)
    ensures rows * few <= left * (61 + few)
  {
    var over := rows - left;
    assert rows * many == over * many + left * many && left * (61 + many) == 61 * left + left * many;
    assert rows * few == over * few + left * few && left * (61 + few) == 61 * left + left * few;
    if over >= 0 {
      ProductOrder(over, few, many);
    } else {
      assert over * few <= 0;
    }
  }

  /** The output of a join is at most as large as the right table, so it may be cut to that size; the source
      does so when its cost estimate for 64-bit columns says the extra sort pays. */
  method Trim<T>(rows: seq<Row<T>>, left: nat, right: nat, columns: nat) returns (out: seq<Row<T>>)
    requires right <= |rows| && |Live(rows)| <= right
    ensures Perm(Live(out), Live(rows)) && right <= |out|
    ensures out == if Trims(left, right, columns) then ValidRowsFirst(rows)[..right] else rows
  {
    if Trims(left, right, columns) {
      var sorted := Sort(rows, (r: Row<T>) => ValidFirst(r));
      ValidSortIs(rows, sorted);
      LivePerm(sorted, rows);
      PermLength(Live(sorted), Live(rows));
      HeadKeepsLive(sorted, right);
      out := sorted[..right];
    } else {
      out := rows;
    }
  }

  // ----- Which invalid rows a cut keeps -----

  predicate Below(a: Key, b: Key) { a != b && Leq(a, b) }
  function BelowOne(a: Key, b: Key): int { if Below(a, b) then 1 else 0 }
  ghost function BelowTo(g: Key): Key -> int { (x: Key) => BelowOne(x, g) }

  lemma {:induction false} BelowSteps(q: seq<Key>, g: Key)
    requires SortedBy(q, Itself)
    ensures 0 <= Sum(q, BelowTo(g)) <= |q|
    ensures forall i :: 0 <= i < |q| ==> (Below(q[i], g) <==> i < Sum(q, BelowTo(g)))
    ensures forall n :: 0 <= n <= |q| ==> Sum(q[..n], BelowTo(g)) == Min(n, Sum(q, BelowTo(g)))
  {
    forall i, j | 0 <= i <= j < |q| ensures BelowOne(q[j], g) <= BelowOne(q[i], g) {
      assert Leq(Itself(q[i]), Itself(q[j]));
      if Below(q[j], g) {
        LeqTransitive(q[i], q[j], g);
        if q[i] == g { LeqAntisymmetric(g, q[j]); }
      }
    }
    Steps(q, BelowTo(g));
    forall i | 0 <= i < |q| ensures Below(q[i], g) <==> i < Sum(q, BelowTo(g)) {
      assert BelowTo(g)(q[i]) == BelowOne(q[i], g);
    }
  }

  /** A key is among the first n of a sorted listing exactly when it is listed and fewer than n keys lie below it. */
  lemma {:induction false} AmongFirst(q: seq<Key>, g: Key, n: nat)
    requires SortedBy(q, Itself) && n <= |q|
    ensures g in q[..n] <==> g in q && Sum(q, BelowTo(g)) < n
  {
    BelowSteps(q, g);
    var b := Sum(q, BelowTo(g));
    if i :| 0 <= i < |q| && q[i] == g {
      assert b <= i && !Below(q[b], g) && Leq(Itself(q[b]), Itself(q[i]));
      assert q[b] == g;
    }
  }

  predicate Validated<T, B>(z: (Row<T>, B)) { z.0.valid }
  predicate NotValid<T, B>(z: (Row<T>, B)) { !z.0.valid }

  /** The invalid rows in order, with tags. */
  ghost function Rest<T, B>(rows: seq<Row<T>>, tags: seq<B>): seq<(Row<T>, B)>
    requires |rows| == |tags|
  {
    Select(Zip(rows, tags), NotValid)
  }

  lemma {:induction false} RestSplits<T, B>(rows: seq<Row<T>>, tags: seq<B>)
    requires |rows| == |tags|
    ensures Map(Select(Zip(rows, tags), Validated), First) == Select(rows, IsValid)
    ensures Map(Rest(rows, tags), First) == Select(rows, IsInvalid)
    ensures |Rest(rows, tags)| + |Live(rows)| == |rows| && |Select(Zip(rows, tags), Validated)| == |Live(rows)|
  {
    Unzip(rows, tags);
    SelectMap(Zip(rows, tags), First, IsValid, Validated);
    SelectMap(Zip(rows, tags), First, IsInvalid, NotValid);
    ValidOrInvalid(rows);
  }

  /** The invalid rows of the cut table. */
  lemma {:induction false} CutIs<T, B>(z: seq<(Row<T>, B)>, m: nat)
    requires m <= |Select(z, NotValid)|
    ensures Select(Select(z, Validated) + Select(z, NotValid)[..m], NotValid) == Select(z, NotValid)[..m]
  {
    var v, r := Select(z, Validated), Select(z, NotValid)[..m];
    SelectAppend(v, r, NotValid);
    forall x | x in v ensures !NotValid(x) { SelectMember(z, Validated, x); }
    forall x | x in r ensures NotValid(x) { SelectMember(z, NotValid, x); }
    SelectNone(v, NotValid);
    SelectedAll(r, NotValid);
  }

  /** Tags follow their rows through the cut, which keeps the valid rows and the first of the invalid ones. */
  lemma {:induction false} CutRest<T, B>(rows: seq<Row<T>>, tags: seq<B>, n: nat) returns (tags': seq<B>)
    requires |rows| == |tags| && |Live(rows)| <= n <= |rows|
    ensures |tags'| == n && n - |Live(rows)| <= |Rest(rows, tags)|
    ensures Zip(ValidRowsFirst(rows)[..n], tags')
         == Select(Zip(rows, tags), Validated) + Rest(rows, tags)[..n - |Live(rows)|]
    ensures Rest(ValidRowsFirst(rows)[..n], tags') == Rest(rows, tags)[..n - |Live(rows)|]
  {
    RestSplits(rows, tags);
    var v, r, m := Select(Zip(rows, tags), Validated), Rest(rows, tags), n - |Live(rows)|;
    var z, out := v + r[..m], ValidRowsFirst(rows)[..n];
    tags' := Map(z, Second);
    Rezip(z);
    FirstsOfCut(v, r, m);
    assert out == Select(rows, IsValid) + Select(rows, IsInvalid)[..m];
    CutIs(Zip(rows, tags), m);
  }

  lemma {:induction false} FirstsOfCut<A, B>(v: seq<(A, B)>, r: seq<(A, B)>, m: nat)
    requires m <= |r|
    ensures Map(v + r[..m], First) == Map(v, First) + Map(r, First)[..m]
  {
  }

  lemma {:induction false} FlatMapLength<A, B>(s: seq<A>, f: A -> seq<B>)
    requires forall x :: x in s ==> |f(x)| <= 1
    ensures |FlatMap(s, f)| <= |s|
  {
    if s != [] { FlatMapLength(s[..|s| - 1], f); }
  }

  // ----- The inner join -----

  /** One joined row: valid exactly for a matched right row, with the columns of its match. */
  lemma {:induction false} JoinedRow<O(!new)>(s: seq<Tagged<O>>, ll: seq<O>, key: O -> Key, copy: (O, O) -> O, i: nat)
    requires SortedBy(s, TableCell(key)) && FixedWidth(key) && CopyColumns(copy, key) && i < |s| && s[i].valid
    requires Perm(LeftRows(s), ll)
    requires UniqueBy(ll, key) || forall a, b :: copy(a, b) == b
    ensures HasLeft(s, key, key(s[i].data)) <==> WithKey(ll, key, key(s[i].data)) != []
    ensures s[i].fromRight && HasLeft(s, key, key(s[i].data)) ==>
              var data := Map(s, (t: Tagged<O>) => t.data);
              [Segment(Map(s, GroupCell(key)), data, copy, 0, i)] == JoinOne(ll, key, copy, s[i].data)
  {
    var k := key(s[i].data);
    HasLeftRows(s, ll, key, k);
    if s[i].fromRight && HasLeft(s, key, k) {
      var cells, data := Map(s, GroupCell(key)), Map(s, (t: Tagged<O>) => t.data);
      FirstIsLeft(s, key, i);
      CopySegment(cells, data, copy, key, i);
      var f := RunStart(cells, i);
      FlatMapMember(s, (t: Tagged<O>) => LeftOne(t), s[f].data);
      assert s[f] in s && s[f].data in LeftOne(s[f]);
      PermMember(LeftRows(s), ll, s[f].data);
      if UniqueBy(ll, key) { UniqueWithKey(ll, key, s[f].data); }
    }
  }

  ghost function JoinEffect<O>(ll: seq<O>, key: O -> Key, copy: (O, O) -> O): Tagged<O> -> seq<O> {
    (t: Tagged<O>) => if t.valid && t.fromRight then JoinOne(ll, key, copy, t.data) else []
  }

  /** The sorted, matched table stands for the inner join. */
  lemma {:induction false} InnerJoinMeans<L, R, O(!new)>(left: seq<Row<L>>, right: seq<Row<R>>, inL: L -> O,
                                                         inR: R -> O,
                                      s: seq<Tagged<O>>, out: seq<Row<O>>, key: O -> Key, copy: (O, O) -> O)
    requires Perm(s, Concatenate(left, right, inL, inR)) && SortedBy(s, TableCell(key))
    requires FixedWidth(key) && CopyColumns(copy, key)
    requires UniqueBy(Map(Live(left), inL), key) || forall a, b :: copy(a, b) == b
    requires |out| == |s|
    requires forall i :: 0 <= i < |s| ==>
      out[i].valid == (s[i].valid && s[i].fromRight && HasLeft(s, key, key(s[i].data)))
    requires forall i :: 0 <= i < |s| && out[i].valid ==>
      out[i].data == Segment(Map(s, GroupCell(key)), Map(s, (t: Tagged<O>) => t.data), copy, 0, i)
    ensures Perm(Live(out), InnerJoin(Map(Live(left), inL), Map(Live(right), inR), key, copy))
  {
    var ll := Map(Live(left), inL);
    var g := JoinEffect(ll, key, copy);
    LeftRowsOf(left, right, inL, inR, s, key);
    forall i | 0 <= i < |s|
      ensures LiveOne(out[i]) == g(s[i])
    {
      if s[i].valid { JoinedRow(s, ll, key, copy, i); }
    }
    LiveOfTagged(s, out, g);
    RightOnly(left, right, inL, inR, s, g, r => JoinOne(ll, key, copy, r));
    assert FlatMap(Map(Live(right), inR), r => JoinOne(ll, key, copy, r))
         == InnerJoin(ll, Map(Live(right), inR), key, copy);
  }

  lemma {:induction false} InnerJoinLength<O>(ll: seq<O>, rr: seq<O>, key: O -> Key, copy: (O, O) -> O)
    ensures |InnerJoin(ll, rr, key, copy)| <= |rr|
  {
    FlatMapLength(rr, r => JoinOne(ll, key, copy, r));
  }

  lemma {:induction false} JoinFits<L, R, O>(left: seq<Row<L>>, right: seq<Row<R>>, inL: L -> O, inR: R -> O,
                                             rows: seq<Row<O>>,
                          key: O -> Key, copy: (O, O) -> O)
    requires Perm(Live(rows), InnerJoin(Map(Live(left), inL), Map(Live(right), inR), key, copy))
    ensures |Live(rows)| <= |right|
  {
    InnerJoinLength(Map(Live(left), inL), Map(Live(right), inR), key, copy);
    PermLength(Live(rows), InnerJoin(Map(Live(left), inL), Map(Live(right), inR), key, copy));
    LiveLength(right);
  }

  /** The steps every inner join shares: concatenate, sort, mark the matched right rows with the `valid`
      aggregation over the table cells, and copy the left columns down each group. */
  method MatchRows<L, R, O(!new)>(left: seq<Row<L>>, right: seq<Row<R>>, inL: L -> O, inR: R -> O,
                                  key: O -> Key, copy: (O, O) -> O, zero: O)
    returns (s: seq<Tagged<O>>, joined: seq<Row<O>>)
    requires |left| + |right| >= 2 && FixedWidth(key) && CopyColumns(copy, key)
    requires UniqueBy(Map(Live(left), inL), key) || forall a, b :: copy(a, b) == b
    ensures Perm(s, Concatenate(left, right, inL, inR)) && SortedBy(s, TableCell(key))
    ensures Stable(Concatenate(left, right, inL, inR), s, TableCell(key))
    ensures |joined| == |s| == |left| + |right|
    ensures forall i :: 0 <= i < |s| ==>
      joined[i].valid == (s[i].valid && s[i].fromRight && HasLeft(s, key, key(s[i].data)))
    ensures forall i :: 0 <= i < |s| ==>
      joined[i].data == Segment(Map(s, GroupCell(key)), Map(s, (t: Tagged<O>) => t.data), copy, 0, i)
    ensures forall i :: 0 <= i < |s| ==> key(joined[i].data) == key(s[i].data)
    ensures Perm(Live(joined), InnerJoin(Map(Live(left), inL), Map(Live(right), inR), key, copy))
    ensures |Live(joined)| <= |right|
  {
    s := Sort(Concatenate(left, right, inL, inR), TableCell(key));
    TableOrder(s, key);
    var groups, cells := Map(s, GroupCell(key)), Map(s, TableCell(key));
    forall i | 0 <= i < |s|
      ensures LeftConvex(groups, i) && LeftConvex(cells, i)
    {
      SortedConvex(s, GroupCell(key), i);
      SortedConvex(s, TableCell(key), i);
    }
    var pad := Tagged(false, false, zero);
    var seed := seq(|s|, i requires 0 <= i < |s| => s[i].valid && !Opens(groups, i));
    assert seed == MatchSeed(s, key);
    var bits := NetworkColumn(cells, seed, (a, b) => a && b, TableCell(key)(pad), false);
    var data := NetworkColumn(groups, Map(s, (t: Tagged<O>) => t.data), copy, GroupCell(key)(pad), zero);
    joined := seq(|s|, i requires 0 <= i < |s| => Row(s[i].valid && bits[i], data[i]));
    LeftRowsOf(left, right, inL, inR, s, key);
    forall i | 0 <= i < |s| && s[i].valid
      ensures bits[i] == (s[i].fromRight && HasLeft(s, key, key(s[i].data)))
    {
      MatchBit(s, key, seed, i);
    }
    forall i | 0 <= i < |s| ensures key(joined[i].data) == key(s[i].data) {
      CopySegment(groups, Map(s, (t: Tagged<O>) => t.data), copy, key, i);
    }
    InnerJoinMeans(left, right, inL, inR, s, joined, key, copy);
    JoinFits(left, right, inL, inR, joined, key, copy);
  }

  /** left.inner_join(right, keys) with copied columns only. The left key must be unique among the valid left
      rows, unless no column is copied. `columns` is the left table's column count without VALID. */
  method InnerJoinTables<L, R, O(!new)>(left: seq<Row<L>>, right: seq<Row<R>>, inL: L -> O, inR: R -> O,
                                        key: O -> Key, copy: (O, O) -> O, zero: O, columns: nat)
    returns (out: seq<Row<O>>)
    requires |left| + |right| >= 2 && FixedWidth(key) && CopyColumns(copy, key)
    requires UniqueBy(Map(Live(left), inL), key) || forall a, b :: copy(a, b) == b
    ensures |right| <= |out|
    ensures Perm(Live(out), InnerJoin(Map(Live(left), inL), Map(Live(right), inR), key, copy))
  {
    var s, joined := MatchRows(left, right, inL, inR, key, copy, zero);
    out := Trim(joined, |left|, |right|, columns);
  }

  // ----- Semi and anti joins -----

  /** Nothing is copied. */
  function KeepRight<T>(a: T, b: T): T { b }

  /** A join that copies nothing selects the right rows with a match. */
  lemma {:induction false} KeepRightSelects<O(!new)>(ll: seq<O>, rr: seq<O>, key: O -> Key, p: O -> bool)
    requires forall r :: r in rr ==> (p(r) <==> WithKey(ll, key, key(r)) != [])
    ensures InnerJoin(ll, rr, key, KeepRight) == Select(rr, p)
  {
    SelectIsFlatMap(rr, p);
    FlatMapSame(rr, r => JoinOne(ll, key, KeepRight, r), x => if p(x) then [x] else []);
  }

  /** A row that the join leaves invalid: it comes from the other table, or was invalid, or found no match. */
  ghost predicate StaysInvalid<O>(t: Tagged<O>, ll: seq<O>, key: O -> Key) {
    !t.fromRight || !t.valid || Unmatched(ll, key)(t.data)
  }

  // ----- The invalid rows of a semi join -----

  /** A row's place in the sorted table: its cell, then a tag that follows the row through the sort. */
  ghost function Place<O>(key: O -> Key): ((Tagged<O>, Key)) -> Key {
    (z: (Tagged<O>, Key)) => TableCell(key)(z.0) + z.1
  }

  ghost function Rejects<O>(ll: seq<O>, key: O -> Key): ((Tagged<O>, Key)) -> bool {
    (z: (Tagged<O>, Key)) => StaysInvalid(z.0, ll, key)
  }

  /** The places of the rows that the join leaves invalid. */
  ghost function RejectedPlaces<O>(table: seq<(Tagged<O>, Key)>, ll: seq<O>, key: O -> Key): seq<Key> {
    Map(Select(table, Rejects(ll, key)), Place(key))
  }

  /** Some rejected place with c in its last column is among the first m. */
  ghost predicate KeptPlace(places: seq<Key>, m: int, c: int) {
    exists g :: g in places && Sum(places, BelowTo(g)) < m && LastIs(g, c)
  }

  /** Tags of one width whose last column is the row's column. */
  ghost predicate TagsFit<O>(z: seq<(Tagged<O>, Key)>, column: O -> int, w: nat) {
    forall x :: x in z ==> |x.1| == w >= 1 && x.1[w - 1] == column(x.0.data)
  }

  lemma {:induction false} LeqConcat(a: Key, b: Key, c: Key, d: Key)
    requires |a| == |b| && Leq(a, b) && (a == b ==> Leq(c, d))
    ensures Leq(a + c, b + d)
  {
    if a == [] {
      assert a + c == c && b + d == d;
    } else {
      assert (a + c)[1..] == a[1..] + c && (b + d)[1..] == b[1..] + d;
      if a[0] == b[0] {
        if a[1..] == b[1..] { assert a == [a[0]] + a[1..] && b == [b[0]] + b[1..]; }
        LeqConcat(a[1..], b[1..], c, d);
      }
    }
  }

  /** Places grow along the sorted table. */
  lemma {:induction false} PlacesSorted<O(!new)>(s: seq<Tagged<O>>, tags: seq<Key>, key: O -> Key, i: nat, j: nat)
    requires SortedBy(s, TableCell(key)) && TagsInOrder(s, TableCell(key), tags) && FixedWidth(key) && i <= j < |s|
    ensures Leq(TableCell(key)(s[i]) + tags[i], TableCell(key)(s[j]) + tags[j])
  {
    assert |key(s[i].data)| == |key(s[j].data)|;
    assert |GroupCell(key)(s[i])| == |GroupCell(key)(s[j])|;
    assert |TableCell(key)(s[i])| == |TableCell(key)(s[j])|;
    LeqTotal(tags[i], tags[i]);
    LeqConcat(TableCell(key)(s[i]), TableCell(key)(s[j]), tags[i], tags[j]);
  }

  /** The places of the sorted table's invalid rows are those of its rejected rows. */
  lemma {:induction false} RestPlaces<O>(s: seq<Tagged<O>>, tags: seq<Key>, joined: seq<Row<O>>, places: seq<Key>,
                                         ll: seq<O>, key: O -> Key)
    requires |s| == |tags| == |joined| == |places|
    requires forall i :: 0 <= i < |s| ==>
      joined[i].valid == !StaysInvalid(s[i], ll, key) && places[i] == TableCell(key)(s[i]) + tags[i]
    ensures Map(Rest(joined, places), Second) == RejectedPlaces(Zip(s, tags), ll, key)
  {
    var z, r := Zip(s, tags), Zip(joined, places);
    forall i | 0 <= i < |s| ensures NotValid(r[i]) == Rejects(ll, key)(z[i]) && Second(r[i]) == Place(key)(z[i]) {
      assert z[i] == (s[i], tags[i]) && r[i] == (joined[i], places[i]);
    }
    SelectAlike(r, z, NotValid, Rejects(ll, key), Second, Place(key));
  }

  /** The facts about the sorted, matched table that a cut depends on. */
  ghost predicate Traced<O(!new)>(table: seq<(Tagged<O>, Key)>, s: seq<Tagged<O>>, tags: seq<Key>, joined: seq<Row<O>>,
                                  places: seq<Key>, ll: seq<O>, key: O -> Key)
  {
    && |s| == |tags| == |joined| == |places| && Perm(Zip(s, tags), table)
    && SortedBy(s, TableCell(key)) && TagsInOrder(s, TableCell(key), tags)
    && (forall i :: 0 <= i < |s| ==> joined[i].data == s[i].data && joined[i].valid == !StaysInvalid(s[i], ll, key))
    && (forall i :: 0 <= i < |s| ==> places[i] == TableCell(key)(s[i]) + tags[i])
  }

  lemma {:induction false} PlaceColumn<O(!new)>(table: seq<(Tagged<O>, Key)>, s: seq<Tagged<O>>, tags: seq<Key>,
                                                joined: seq<Row<O>>, places: seq<Key>, ll: seq<O>, key: O -> Key,
                                                column: O -> int, w: nat, i: nat)
    requires Traced(table, s, tags, joined, places, ll, key) && TagsFit(table, column, w) && i < |s|
    ensures places[i] != [] && places[i][|places[i]| - 1] == column(joined[i].data)
  {
    var z := Zip(s, tags)[i];
    assert z in Zip(s, tags);
    PermMember(Zip(s, tags), table, z);
  }

  /** The places of the invalid rows are in order, and they are the rejected places of the concatenated table. */
  lemma {:induction false} PlacesInOrder<O(!new)>(table: seq<(Tagged<O>, Key)>, s: seq<Tagged<O>>, tags: seq<Key>,
                                                  joined: seq<Row<O>>, places: seq<Key>, ll: seq<O>, key: O -> Key)
    requires Traced(table, s, tags, joined, places, ll, key) && FixedWidth(key)
    ensures SortedBy(Map(Rest(joined, places), Second), Itself)
    ensures Perm(Map(Rest(joined, places), Second), RejectedPlaces(table, ll, key))
  {
    RestPlaces(s, tags, joined, places, ll, key);
    SelectPerm(Zip(s, tags), table, Rejects(ll, key));
    MapPerm(Select(Zip(s, tags), Rejects(ll, key)), Select(table, Rejects(ll, key)), Place(key));
    var second := (z: (Row<O>, Key)) => Second(z);
    forall i, j | 0 <= i <= j < |places| ensures Leq(second(Zip(joined, places)[i]), second(Zip(joined, places)[j])) {
      PlacesSorted(s, tags, key, i, j);
    }
    SelectSorted(Zip(joined, places), NotValid, second);
    forall i, j | 0 <= i <= j < |Rest(joined, places)|
      ensures Leq(Map(Rest(joined, places), Second)[i], Map(Rest(joined, places), Second)[j])
    {
      assert Leq(second(Rest(joined, places)[i]), second(Rest(joined, places)[j]));
    }
  }

  /** An invalid row's column value ends its place. */
  ghost predicate EndsWith<O>(rest: seq<(Row<O>, Key)>, column: O -> int) {
    forall z :: z in rest ==> z.1 != [] && z.1[|z.1| - 1] == column(z.0.data)
  }

  ghost predicate LastIs(g: Key, c: int) { g != [] && g[|g| - 1] == c }

  lemma {:induction false} ValueEnds<O(!new)>(out: seq<Row<O>>, tags: seq<Key>, column: O -> int, c: int)
    requires |out| == |tags| && EndsWith(Rest(out, tags), column)
    ensures InvalidValue(out, column, c) <==> exists g :: g in Map(Rest(out, tags), Second) && LastIs(g, c)
  {
    var z := Zip(out, tags);
    MapMember(Rest(out, tags), Second);
    if r :| r in out && !r.valid && column(r.data) == c {
      var i :| 0 <= i < |out| && out[i] == r;
      assert z[i] in z;
      SelectMember(z, NotValid, z[i]);
      assert Second(z[i]) == tags[i] && LastIs(tags[i], c);
    }
    if g :| g in Map(Rest(out, tags), Second) && LastIs(g, c) {
      var x :| x in Rest(out, tags) && Second(x) == g;
      SelectMember(z, NotValid, x);
      var i :| 0 <= i < |z| && z[i] == x;
      assert out[i] == x.0;
    }
  }

  /** A column value has an invalid row among the first m exactly when one of its places is among the first m. */
  lemma {:induction false} ColumnKept<O(!new)>(table: seq<(Tagged<O>, Key)>, s: seq<Tagged<O>>, tags: seq<Key>,
                                               joined: seq<Row<O>>, places: seq<Key>, ll: seq<O>, key: O -> Key,
                                               column: O -> int, w: nat, out: seq<Row<O>>, kept: seq<Key>, m: nat,
                                               c: int)
    requires Traced(table, s, tags, joined, places, ll, key) && FixedWidth(key) && TagsFit(table, column, w)
    requires |kept| == |out| && m <= |Rest(joined, places)| && Rest(out, kept) == Rest(joined, places)[..m]
    ensures InvalidValue(out, column, c) <==> KeptPlace(RejectedPlaces(table, ll, key), m, c)
  {
    var rest, q, rejected := Rest(joined, places), Map(Rest(joined, places), Second), RejectedPlaces(table, ll, key);
    forall z | z in rest ensures z.1 != [] && z.1[|z.1| - 1] == column(z.0.data) {
      SelectMember(Zip(joined, places), NotValid, z);
      var i :| 0 <= i < |joined| && Zip(joined, places)[i] == z;
      PlaceColumn(table, s, tags, joined, places, ll, key, column, w, i);
    }
    ValueEnds(out, kept, column, c);
    assert Map(Rest(out, kept), Second) == q[..m];
    PlacesInOrder(table, s, tags, joined, places, ll, key);
    forall g ensures g in q[..m] <==> g in rejected && Sum(rejected, BelowTo(g)) < m {
      AmongFirst(q, g, m);
      PermMember(q, rejected, g);
      SumPerm(q, rejected, BelowTo(g));
    }
  }

  ghost predicate InvalidValue<O>(rows: seq<Row<O>>, column: O -> int, c: int) {
    exists r :: r in rows && !r.valid && column(r.data) == c
  }

  /** The concatenated table with a tag for every row: `pad` for the other table's rows. */
  ghost function TaggedTable<L, R, O>(rows: seq<Row<R>>, other: seq<Row<L>>, inR: R -> O, inL: L -> O,
                                      order: seq<Key>, pad: Key): seq<(Tagged<O>, Key)>
    requires |order| == |rows|
  {
    Zip(Concatenate(other, rows, inL, inR), seq(|other|, _ => pad) + order)
  }

  predicate SameCell<R, O>(a: Row<R>, b: Row<R>, inR: R -> O, key: O -> Key) {
    a.valid == b.valid && key(inR(a.data)) == key(inR(b.data))
  }

  /** The tags of the rows respect the order that rows with one valid bit and key have. */
  ghost predicate RowsInOrder<R, O>(rows: seq<Row<R>>, inR: R -> O, key: O -> Key, order: seq<Key>) {
    && |order| == |rows|
    && forall x, y :: 0 <= x < y < |rows| && SameCell(rows[x], rows[y], inR, key) ==> Leq(order[x], order[y])
  }

  lemma {:induction false} TableInOrder<L, R, O>(rows: seq<Row<R>>, other: seq<Row<L>>, inR: R -> O, inL: L -> O,
                                                 key: O -> Key, order: seq<Key>, pad: Key)
    requires RowsInOrder(rows, inR, key, order)
    ensures TagsInOrder(Concatenate(other, rows, inL, inR), TableCell(key), seq(|other|, _ => pad) + order)
  {
    var table, tags, n := Concatenate(other, rows, inL, inR), seq(|other|, _ => pad) + order, |other|;
    LeqTotal(pad, pad);
    forall x, y | 0 <= x < y < |table| && TableCell(key)(table[x]) == TableCell(key)(table[y])
      ensures Leq(tags[x], tags[y])
    {
      CellParts(key, table[x], table[y]);
      if n <= x {
        assert table[x] == FromRight(inR)(rows[x - n]) && table[y] == FromRight(inR)(rows[y - n]);
      } else {
        assert table[x] == FromLeft(inL)(other[x]);
        assert y >= n ==> table[y] == FromRight(inR)(rows[y - n]);
      }
    }
  }

  /** this.semi_join(other), with a tag and a column to follow the rows that it leaves invalid. */
  method TracedSemiJoin<L, R, O(!new)>(rows: seq<Row<R>>, other: seq<Row<L>>, inR: R -> O, inL: L -> O, key: O -> Key,
                                       zero: O, columns: nat, ghost order: seq<Key>, ghost pad: Key,
                                       ghost column: O -> int, ghost w: nat)
    returns (out: seq<Row<O>>)
    requires |other| + |rows| >= 2 && FixedWidth(key) && RowsInOrder(rows, inR, key, order)
    requires TagsFit(TaggedTable(rows, other, inR, inL, order, pad), column, w)
    ensures |rows| <= |out|
    ensures Perm(Live(out), SemiJoin(Map(Live(other), inL), Map(Live(rows), inR), key))
    ensures |out| == if Trims(|other|, |rows|, columns) then |rows| else |other| + |rows|
    ensures var places := RejectedPlaces(TaggedTable(rows, other, inR, inL, order, pad), Map(Live(other), inL), key);
      forall c :: InvalidValue(out, column, c)
        <==> KeptPlace(places, |places| - if Trims(|other|, |rows|, columns) then |other| else 0, c)
  {
    var s, joined := MatchRows(other, rows, inL, inR, key, KeepRight, zero);
    forall i | 0 <= i < |s| ensures joined[i].data == s[i].data {
      CopySegment(Map(s, GroupCell(key)), Map(s, (t: Tagged<O>) => t.data), KeepRight, key, i);
    }
    out := Trim(joined, |other|, |rows|, columns);
    KeepRightSelects(Map(Live(other), inL), Map(Live(rows), inR), key, Matched(Map(Live(other), inL), key));
    TracedRows(rows, other, inR, inL, key, order, pad, column, w, s, joined, out, |rows|);
  }

  /** this.semi_join(other) is other.inner_join(this) with nothing copied: `other` may repeat keys. */
  method SemiJoinTables<L, R, O(!new)>(rows: seq<Row<R>>, other: seq<Row<L>>, inR: R -> O, inL: L -> O,
                                       key: O -> Key, zero: O, columns: nat) returns (out: seq<Row<O>>)
    requires |other| + |rows| >= 2 && FixedWidth(key)
    ensures |rows| <= |out|
    ensures Perm(Live(out), SemiJoin(Map(Live(other), inL), Map(Live(rows), inR), key))
  {
    LeqTotal([0], [0]);
    out := TracedSemiJoin(rows, other, inR, inL, key, zero, columns, seq(|rows|, _ => [0]), [0], _ => 0, 1);
  }

  lemma {:induction false} TracedRows<L, R, O(!new)>(rows: seq<Row<R>>, other: seq<Row<L>>, inR: R -> O, inL: L -> O,
                                                     key: O -> Key, order: seq<Key>, pad: Key, column: O -> int, w: nat,
                                                     s: seq<Tagged<O>>, joined: seq<Row<O>>, out: seq<Row<O>>, n: nat)
    requires FixedWidth(key) && RowsInOrder(rows, inR, key, order)
    requires TagsFit(TaggedTable(rows, other, inR, inL, order, pad), column, w)
    requires Perm(s, Concatenate(other, rows, inL, inR)) && SortedBy(s, TableCell(key))
    requires Stable(Concatenate(other, rows, inL, inR), s, TableCell(key)) && |joined| == |s|
    requires forall i :: 0 <= i < |s| ==>
      && joined[i].data == s[i].data
      && joined[i].valid == (s[i].valid && s[i].fromRight && HasLeft(s, key, key(s[i].data)))
    requires |Live(joined)| <= n <= |joined| && (out == joined || out == ValidRowsFirst(joined)[..n])
    ensures var places := RejectedPlaces(TaggedTable(rows, other, inR, inL, order, pad), Map(Live(other), inL), key);
      forall c :: InvalidValue(out, column, c) <==> KeptPlace(places, |places| - (|joined| - |out|), c)
  {
    var conc, ll := Concatenate(other, rows, inL, inR), Map(Live(other), inL);
    var table := TaggedTable(rows, other, inR, inL, order, pad);
    TableInOrder(rows, other, inR, inL, key, order, pad);
    var tags := TracedSort(conc, s, TableCell(key), seq(|other|, _ => pad) + order);
    LeftRowsOf(other, rows, inL, inR, s, key);
    var places := seq(|s|, i requires 0 <= i < |s| && |tags| == |s| => TableCell(key)(s[i]) + tags[i]);
    assert Traced(table, s, tags, joined, places, ll, key);
    PlacesInOrder(table, s, tags, joined, places, ll, key);
    PermLength(Map(Rest(joined, places), Second), RejectedPlaces(table, ll, key));
    RestSplits(joined, places);
    var kept, m := places, |Rest(joined, places)|;
    if out == ValidRowsFirst(joined)[..n] {
      kept := CutRest(joined, places, n);
      m := n - |Live(joined)|;
    }
    forall c
      ensures InvalidValue(out, column, c) <==> KeptPlace(RejectedPlaces(table, ll, key), m, c)
    {
      ColumnKept(table, s, tags, joined, places, ll, key, column, w, out, kept, m, c);
    }
  }

  ghost function AntiEffect<O>(ll: seq<O>, key: O -> Key): Tagged<O> -> seq<O> {
    (t: Tagged<O>) => if t.valid && t.fromRight && WithKey(ll, key, key(t.data)) == [] then [t.data] else []
  }

  /** The sorted table whose rows carry their group's first table id stands for the anti join. */
  lemma {:induction false} AntiJoinMeans<L, R, O(!new)>(left: seq<Row<L>>, right: seq<Row<R>>, inL: L -> O, inR: R -> O,
                                     s: seq<Tagged<O>>, out: seq<Row<O>>, key: O -> Key)
    requires Perm(s, Concatenate(left, right, inL, inR)) && SortedBy(s, TableCell(key)) && FixedWidth(key)
    requires |out| == |s|
    requires forall i :: 0 <= i < |s| ==>
      out[i] == Row(s[i].valid && s[i].fromRight && !HasLeft(s, key, key(s[i].data)), s[i].data)
    ensures Perm(Live(out), AntiJoin(Map(Live(left), inL), Map(Live(right), inR), key))
  {
    var ll, rr := Map(Live(left), inL), Map(Live(right), inR);
    var g := AntiEffect(ll, key);
    LeftRowsOf(left, right, inL, inR, s, key);
    LiveOfTagged(s, out, g);
    var p := Unmatched(ll, key);
    RightOnly(left, right, inL, inR, s, g, r => if p(r) then [r] else []);
    SelectIsFlatMap(rr, p);
  }

  /** this.anti_join(other): other.right_outer_join(this) in anti mode; `other` may repeat keys. */
  method AntiJoinTables<L, R, O(!new)>(rows: seq<Row<R>>, other: seq<Row<L>>, inR: R -> O, inL: L -> O,
                                       key: O -> Key, zero: O, columns: nat) returns (out: seq<Row<O>>)
    requires |other| + |rows| >= 2 && FixedWidth(key)
    ensures |rows| <= |out|
    ensures Perm(Live(out), AntiJoin(Map(Live(other), inL), Map(Live(rows), inR), key))
  {
    var s := Sort(Concatenate(other, rows, inL, inR), TableCell(key));
    TableOrder(s, key);
    var groups := Map(s, GroupCell(key));
    forall i | 0 <= i < |s|
      ensures LeftConvex(groups, i)
    {
      SortedConvex(s, GroupCell(key), i);
    }
    var seed := seq(|s|, i requires 0 <= i < |s| => s[i].valid && s[i].fromRight);
    var bits := NetworkColumn(groups, seed, (a, b) => a, GroupCell(key)(Tagged(false, false, zero)), false);
    var table := seq(|s|, i requires 0 <= i < |s| => Row(s[i].valid && bits[i], s[i].data));
    forall i | 0 <= i < |s| && s[i].valid
      ensures bits[i] == (s[i].fromRight && !HasLeft(s, key, key(s[i].data)))
    {
      FirstBit(groups, seed, i);
      AntiBit(s, key, i);
    }
    AntiJoinMeans(other, rows, inL, inR, s, table, key);
    SelectedAll(Map(Live(rows), inR), Unmatched(Map(Live(other), inL), key));
    PermLength(Live(table), AntiJoin(Map(Live(other), inL), Map(Live(rows), inR), key));
    LiveLength(rows);
    out := Trim(table, |other|, |rows|, columns);
  }

  // ----- The aggregating inner join -----

  /** Joined rows of one table cell form the groups of the aggregation that follows. */
  lemma {:induction false} JoinedGrouped<O(!new)>(s: seq<Tagged<O>>, joined: seq<Row<O>>, key: O -> Key)
    requires SortedBy(s, TableCell(key)) && |joined| == |s|
    requires forall i :: 0 <= i < |s| ==>
      joined[i].valid == (s[i].valid && s[i].fromRight && HasLeft(s, key, key(s[i].data)))
    requires forall i :: 0 <= i < |s| && joined[i].valid ==> key(joined[i].data) == key(s[i].data)
    ensures Grouped(joined, Map(s, TableCell(key)), key)
  {
    forall i | 0 <= i < |s|
      ensures LeftConvex(Map(s, TableCell(key)), i)
    {
      SortedConvex(s, TableCell(key), i);
    }
    forall i, j | 0 <= i < |s| && 0 <= j < |s|
      ensures TableCell(key)(s[i]) == TableCell(key)(s[j])
         <==> s[i].valid == s[j].valid && s[i].fromRight == s[j].fromRight && key(s[i].data) == key(s[j].data)
    {
      CellParts(key, s[i], s[j]);
    }
  }

  /** For a right row, closing the group and closing the table cell's run are the same. */
  lemma {:induction false} GroupCloses<O(!new)>(s: seq<Tagged<O>>, key: O -> Key, i: nat)
    requires SortedBy(s, TableCell(key)) && FixedWidth(key) && i < |s| && s[i].fromRight
    ensures LastOfRun(Map(s, GroupCell(key)), i) <==> LastOfRun(Map(s, TableCell(key)), i)
  {
    if i + 1 < |s| {
      TableOrder(s, key);
      CellParts(key, s[i], s[i + 1]);
    }
  }

  /** VALID and the key columns of a group. */
  function CellOf(valid: bool, k: Key): Key { [if valid then 1 else 0] + k }

  /** The group cell that a row had, from its key and the valid bit it had. */
  ghost function RowCell<O>(key: O -> Key): ((Row<O>, bool)) -> Key {
    (z: (Row<O>, bool)) => CellOf(z.1, key(z.0.data))
  }

  ghost function LiveCell<O>(key: O -> Key): O -> Key { (x: O) => CellOf(true, key(x)) }

  /** Cells in order; in a table cut after moving the valid rows up, among the valid and among the invalid ones. */
  ghost predicate CellsInOrder<O>(rows: seq<Row<O>>, was: seq<bool>, key: O -> Key, cut: bool)
    requires |rows| == |was|
  {
    && (cut ==> forall i, j :: 0 <= i <= j < |rows| && rows[j].valid ==> rows[i].valid)
    && forall i, j :: 0 <= i <= j < |rows| && (cut ==> rows[i].valid == rows[j].valid) ==>
         Leq(RowCell(key)(Zip(rows, was)[i]), RowCell(key)(Zip(rows, was)[j]))
  }

  /** The invalid rows of a join result: `was` are the valid bits its rows had in the concatenated table, and `rest`
      lists in order the group cells of all rows of that table but the live ones; the last `cut` of them are gone. */
  ghost predicate LeavesRest<O>(table: seq<Tagged<O>>, out: seq<Row<O>>, was: seq<bool>, rest: seq<Key>, key: O -> Key,
                                cut: nat)
  {
    && |was| == |out| && cut <= |rest| && SortedBy(rest, Itself)
    && Perm(rest + Map(Live(out), LiveCell(key)), Map(table, GroupCell(key)))
    && Map(Rest(out, was), RowCell(key)) == rest[..|rest| - cut]
    && CellsInOrder(out, was, key, cut > 0)
    && forall i :: 0 <= i < |out| && out[i].valid ==> was[i]
  }

  function WasValid<O>(t: Tagged<O>): bool { t.valid }

  /** What a join leaves row by row: keys unchanged, and only valid rows valid. */
  ghost predicate Leaves<O>(s: seq<Tagged<O>>, rows: seq<Row<O>>, key: O -> Key) {
    && |rows| == |s|
    && forall i :: 0 <= i < |s| ==> key(rows[i].data) == key(s[i].data) && (rows[i].valid ==> s[i].valid)
  }

  function DataOf<T>(r: Row<T>): T { r.data }

  lemma {:induction false} LiveSelects<T>(rows: seq<Row<T>>)
    ensures Live(rows) == Map(Select(rows, IsValid), DataOf)
  {
    if rows != [] {
      var n := |rows| - 1;
      LiveSelects(rows[..n]);
      if rows[n].valid { MapLast(Select(rows, IsValid), DataOf); }
    }
  }

  lemma {:induction false} LiveCells<O>(rows: seq<Row<O>>, was: seq<bool>, key: O -> Key)
    requires |rows| == |was| && forall i :: 0 <= i < |rows| && rows[i].valid ==> was[i]
    ensures Map(Select(Zip(rows, was), Validated), RowCell(key)) == Map(Live(rows), LiveCell(key))
  {
    LiveSelects(rows);
    var cell := (r: Row<O>) => LiveCell(key)(r.data);
    MapMap(Select(rows, IsValid), DataOf, LiveCell(key), cell);
    var z := Zip(rows, was);
    forall i | 0 <= i < |rows|
      ensures Validated(z[i]) == IsValid(rows[i]) && (Validated(z[i]) ==> RowCell(key)(z[i]) == cell(rows[i]))
    {
      assert z[i] == (rows[i], was[i]);
    }
    SelectAlike(z, rows, Validated, IsValid, RowCell(key), cell);
  }

  lemma {:induction false} CellsSplit<O>(s: seq<Tagged<O>>, rows: seq<Row<O>>, key: O -> Key)
    requires Leaves(s, rows, key)
    ensures Perm(Map(Rest(rows, Map(s, WasValid)), RowCell(key)) + Map(Live(rows), LiveCell(key)),
                 Map(s, GroupCell(key)))
  {
    var was, f := Map(s, WasValid), RowCell(key);
    var z := Zip(rows, was);
    MapSplit(z, NotValid, Validated, f);
    LiveCells(rows, was, key);
    CellsOfRows(s, rows, key);
  }

  lemma {:induction false} CellsOfRows<O>(s: seq<Tagged<O>>, rows: seq<Row<O>>, key: O -> Key)
    requires Leaves(s, rows, key)
    ensures Map(Zip(rows, Map(s, WasValid)), RowCell(key)) == Map(s, GroupCell(key))
  {
    var z := Zip(rows, Map(s, WasValid));
    forall i | 0 <= i < |s| ensures RowCell(key)(z[i]) == GroupCell(key)(s[i]) {
      assert Map(s, WasValid)[i] == s[i].valid;
    }
  }

  /** The sorted table before the cut. */
  lemma {:induction false} RestOf<O(!new)>(table: seq<Tagged<O>>, s: seq<Tagged<O>>, rows: seq<Row<O>>, key: O -> Key)
    requires Perm(s, table) && SortedBy(s, GroupCell(key)) && Leaves(s, rows, key)
    ensures LeavesRest(table, rows, Map(s, WasValid), Map(Rest(rows, Map(s, WasValid)), RowCell(key)), key, 0)
    ensures SortedBy(Zip(rows, Map(s, WasValid)), RowCell(key))
  {
    var was := Map(s, WasValid);
    var z, rest := Zip(rows, was), Rest(rows, was);
    forall i | 0 <= i < |s| ensures RowCell(key)(z[i]) == GroupCell(key)(s[i]) {
      assert was[i] == s[i].valid;
    }
    SelectSorted(z, NotValid, RowCell(key));
    var cells := Map(rest, RowCell(key));
    forall i, j | 0 <= i <= j < |cells| ensures Leq(Itself(cells[i]), Itself(cells[j])) {
      assert cells[i] == RowCell(key)(rest[i]) && cells[j] == RowCell(key)(rest[j]);
    }
    CellsSplit(s, rows, key);
    MapPerm(s, table, GroupCell(key));
    assert cells[..|cells|] == cells;
  }

  /** After the cut, if there is one. */
  lemma {:induction false} CutLeaves<O(!new)>(table: seq<Tagged<O>>, s: seq<Tagged<O>>, rows: seq<Row<O>>,
                                              key: O -> Key, n: nat, cut: bool, out: seq<Row<O>>)
    returns (was: seq<bool>, rest: seq<Key>)
    requires Perm(s, table) && SortedBy(s, GroupCell(key)) && Leaves(s, rows, key) && |Live(rows)| <= n <= |rows|
    requires (cut ==> n < |rows|) && Perm(Live(out), Live(rows))
    requires out == if cut then ValidRowsFirst(rows)[..n] else rows
    ensures LeavesRest(table, out, was, rest, key, if cut then |rows| - n else 0)
  {
    var before := Map(s, WasValid);
    RestOf(table, s, rows, key);
    rest := Map(Rest(rows, before), RowCell(key));
    if !cut { return before, rest; }
    was := CutRest(rows, before, n);
    RestSplits(rows, before);
    MapPerm(Live(out), Live(rows), LiveCell(key));
    assert Map(Rest(rows, before)[..n - |Live(rows)|], RowCell(key)) == rest[..n - |Live(rows)|];
    CutInOrder(rows, before, key, n, out, was);
  }

  lemma {:induction false} CutInOrder<O>(rows: seq<Row<O>>, before: seq<bool>, key: O -> Key, n: nat,
                                         out: seq<Row<O>>, was: seq<bool>)
    requires |rows| == |before| && |out| == |was| == n && |Live(rows)| <= n <= |rows|
    requires SortedBy(Zip(rows, before), RowCell(key)) && n - |Live(rows)| <= |Rest(rows, before)|
    requires forall i :: 0 <= i < |rows| && rows[i].valid ==> before[i]
    requires Zip(out, was) == Select(Zip(rows, before), Validated) + Rest(rows, before)[..n - |Live(rows)|]
    ensures CellsInOrder(out, was, key, true) && forall i :: 0 <= i < |out| && out[i].valid ==> was[i]
  {
    var z, z' := Zip(rows, before), Zip(out, was);
    var v, r := Select(z, Validated), Rest(rows, before);
    SelectSorted(z, Validated, RowCell(key));
    SelectSorted(z, NotValid, RowCell(key));
    forall i | 0 <= i < |out|
      ensures out[i].valid == (i < |v|) && (out[i].valid ==> was[i])
      ensures z'[i] == if i < |v| then v[i] else r[i - |v|]
    {
      SelectMember(z, Validated, z'[i]);
      SelectMember(z, NotValid, z'[i]);
      assert z'[i] in z && z'[i] == (out[i], was[i]);
    }
  }

  /** The aggregation inside a join: values run over the table cells, and the row closing a group stays. */
  method AggregateMatched<O(!new)>(s: seq<Tagged<O>>, joined: seq<Row<O>>, key: O -> Key, init: O -> O, op: (O, O) -> O,
                                   zero: O)
    returns (rows: seq<Row<O>>)
    requires |s| == |joined| >= 2 && SortedBy(s, TableCell(key)) && FixedWidth(key)
    requires Associative(op) && KeyStable(key, init, op)
    requires forall i :: 0 <= i < |s| ==>
      joined[i].valid == (s[i].valid && s[i].fromRight && HasLeft(s, key, key(s[i].data)))
    requires forall i :: 0 <= i < |s| ==> key(joined[i].data) == key(s[i].data)
    ensures |rows| == |s| && IsGroupBy(Live(joined), Live(rows), key, init, op)
    ensures forall i :: 0 <= i < |s| ==> key(rows[i].data) == key(s[i].data)
    ensures forall i :: 0 <= i < |s| && rows[i].valid ==> joined[i].valid
  {
    var groups, cells := Map(s, GroupCell(key)), Map(s, TableCell(key));
    forall i | 0 <= i < |s| ensures LeftConvex(cells, i) {
      SortedConvex(s, TableCell(key), i);
    }
    var data := NetworkColumn(cells, Map(joined, (r: Row<O>) => init(r.data)), op,
                              TableCell(key)(Tagged(false, false, zero)), init(zero));
    rows := seq(|s|,
                i requires 0 <= i < |s| => Row(joined[i].valid && (i == |s| - 1 || Opens(groups, i + 1)), data[i]));
    forall i | 0 <= i < |s| ensures rows[i].valid == (joined[i].valid && LastOfRun(cells, i)) {
      if joined[i].valid { GroupCloses(s, key, i); }
    }
    JoinedGrouped(s, joined, key);
    AggregateGroups(joined, cells, rows, key, init, op);
    forall i | 0 <= i < |s| ensures key(rows[i].data) == key(s[i].data) {
      assert data[i] == Segment(cells, Map(joined, (r: Row<O>) => init(r.data)), op, 0, i);
    }
  }

  /** left.inner_join(right, keys) whose specification also aggregates right columns: the result is the
      group-by, on the join keys, of the plain inner join. */
  method AggregatingJoin<L, R, O(!new)>(left: seq<Row<L>>, right: seq<Row<R>>, inL: L -> O, inR: R -> O, key: O -> Key,
                                        copy: (O, O) -> O, init: O -> O, op: (O, O) -> O, zero: O, columns: nat)
    returns (out: seq<Row<O>>, ghost was: seq<bool>, ghost rest: seq<Key>)
    requires |left| + |right| >= 2 && FixedWidth(key) && CopyColumns(copy, key)
    requires UniqueBy(Map(Live(left), inL), key)
    requires Associative(op) && KeyStable(key, init, op)
    ensures |right| <= |out|
    ensures IsGroupBy(InnerJoin(Map(Live(left), inL), Map(Live(right), inR), key, copy), Live(out), key, init, op)
    ensures |out| == if Trims(|left|, |right|, columns) then |right| else |left| + |right|
    ensures LeavesRest(Concatenate(left, right, inL, inR), out, was, rest, key,
                       if Trims(|left|, |right|, columns) then |left| else 0)
  {
    var s, joined := MatchRows(left, right, inL, inR, key, copy, zero);
    var rows := AggregateMatched(s, joined, key, init, op, zero);
    FewerLive(joined, rows);
    assert Leaves(s, rows, key);
    out := Trim(rows, |left|, |right|, columns);
    NothingToTrim(|left|, |right|, columns);
    was, rest := AfterTrim(left, right, inL, inR, key, copy, init, op, s, joined, rows, out,
                           Trims(|left|, |right|, columns));
  }

  lemma {:induction false} AfterTrim<L, R, O(!new)>(left: seq<Row<L>>, right: seq<Row<R>>, inL: L -> O, inR: R -> O,
                                                    key: O -> Key, copy: (O, O) -> O, init: O -> O, op: (O, O) -> O,
                                                    s: seq<Tagged<O>>, joined: seq<Row<O>>, rows: seq<Row<O>>,
                                                    out: seq<Row<O>>, cut: bool)
    returns (was: seq<bool>, rest: seq<Key>)
    requires Perm(s, Concatenate(left, right, inL, inR)) && SortedBy(s, TableCell(key)) && FixedWidth(key)
    requires |s| == |rows| == |left| + |right| && Leaves(s, rows, key) && |Live(rows)| <= |right|
    requires Perm(Live(joined), InnerJoin(Map(Live(left), inL), Map(Live(right), inR), key, copy))
    requires IsGroupBy(Live(joined), Live(rows), key, init, op) && (cut ==> |left| > 0)
    requires Perm(Live(out), Live(rows)) && out == if cut then ValidRowsFirst(rows)[..|right|] else rows
    ensures IsGroupBy(InnerJoin(Map(Live(left), inL), Map(Live(right), inR), key, copy), Live(out), key, init, op)
    ensures |out| == if cut then |right| else |left| + |right|
    ensures LeavesRest(Concatenate(left, right, inL, inR), out, was, rest, key, if cut then |left| else 0)
  {
    var plain := InnerJoin(Map(Live(left), inL), Map(Live(right), inR), key, copy);
    AggregateMeans(plain, Live(joined), Live(rows), Live(out), key, init, op);
    TableOrder(s, key);
    was, rest := CutLeaves(Concatenate(left, right, inL, inR), s, rows, key, |right|, cut, out);
  }

  lemma {:induction false} AggregateMeans<O(!new)>(plain: seq<O>, joined: seq<O>, rows: seq<O>, out: seq<O>,
                                                   key: O -> Key, init: O -> O, op: (O, O) -> O)
    requires Perm(joined, plain) && IsGroupBy(joined, rows, key, init, op) && Perm(out, rows)
    ensures IsGroupBy(plain, out, key, init, op)
  {
    GroupByPerm(joined, plain, rows, key, init, op);
    GroupByResultPerm(plain, rows, out, key, init, op);
  }

  lemma {:induction false} FewerLive<O>(a: seq<Row<O>>, b: seq<Row<O>>)
    requires |a| == |b| && forall i :: 0 <= i < |a| && b[i].valid ==> a[i].valid
    ensures |Live(b)| <= |Live(a)|
  {
    if a != [] { FewerLive(a[..|a| - 1], b[..|a| - 1]); }
  }

  // ----- Sums over joins -----

  lemma {:induction false} JoinOneSum<O>(ll: seq<O>, key: O -> Key, copy: (O, O) -> O, f: O -> int, r: O, w: int,
                                         h: O -> int)
    requires UniqueBy(ll, key)
    requires forall l :: l in ll && key(l) == key(r) ==> f(copy(l, r)) == w * h(l)
    ensures Sum(JoinOne(ll, key, copy, r), f) == w * Sum(WithKey(ll, key, key(r)), h)
  {
    var m := WithKey(ll, key, key(r));
    if m != [] {
      WithKeyMember(ll, key, key(r), m[0]);
      UniqueWithKey(ll, key, m[0]);
      SumSingle(m[0], h);
      SumSingle(copy(m[0], r), f);
    }
  }

  /** A sum over a join with unique left keys is a sum over all matching pairs: a column that is a weight from
      the right row times a value from the left row sums to the weighted keyed sums of the left table. */
  lemma {:induction false} JoinSum<O>(ll: seq<O>, rr: seq<O>, key: O -> Key, copy: (O, O) -> O, f: O -> int,
                                      w: O -> int, h: O -> int, g: O -> int)
    requires UniqueBy(ll, key)
    requires forall l, r :: l in ll && r in rr && key(l) == key(r) ==> f(copy(l, r)) == w(r) * h(l)
    requires forall r :: r in rr ==> g(r) == w(r) * Sum(WithKey(ll, key, key(r)), h)
    ensures Sum(InnerJoin(ll, rr, key, copy), f) == Sum(rr, g)
  {
    forall r | r in rr
      ensures Sum(JoinOne(ll, key, copy, r), f) == g(r)
    {
      JoinOneSum(ll, key, copy, f, r, w(r), h);
    }
    SumFlatMap(rr, r => JoinOne(ll, key, copy, r), f, g);
  }

  lemma {:induction false} WithKeySome<O, K>(s: seq<O>, key: O -> K, k: K)
    ensures WithKey(s, key, k) != [] <==> HasKey(s, key, k)
  {
    if WithKey(s, key, k) != [] {
      WithKeyMember(s, key, k, WithKey(s, key, k)[0]);
    } else if HasKey(s, key, k) {
      var x :| x in s && key(x) == k;
      WithKeyMember(s, key, k, x);
    }
  }

  /** The values of a right column in the join are those of the right rows whose key the left table has. */
  lemma {:induction false} JoinColumn<O, K>(ll: seq<O>, rr: seq<O>, key: O -> Key, copy: (O, O) -> O, column: O -> K,
                                            k: K)
    requires forall l, r :: l in ll && r in rr ==> column(copy(l, r)) == column(r)
    ensures HasKey(InnerJoin(ll, rr, key, copy), column, k)
       <==> exists r :: r in rr && column(r) == k && HasKey(ll, key, key(r))
  {
    var one := r => JoinOne(ll, key, copy, r);
    forall r | r in rr
      ensures WithKey(ll, key, key(r)) != [] <==> HasKey(ll, key, key(r))
      ensures forall y :: y in one(r) ==> column(y) == column(r)
    {
      WithKeySome(ll, key, key(r));
      if one(r) != [] { WithKeyMember(ll, key, key(r), WithKey(ll, key, key(r))[0]); }
    }
    if HasKey(InnerJoin(ll, rr, key, copy), column, k) {
      var y :| y in InnerJoin(ll, rr, key, copy) && column(y) == k;
      FlatMapMember(rr, one, y);
    }
    if r :| r in rr && column(r) == k && HasKey(ll, key, key(r)) {
      FlatMapMember(rr, one, one(r)[0]);
      assert one(r)[0] in one(r);
    }
  }

  lemma {:induction false} HasKeyPerm<O, K>(s: seq<O>, t: seq<O>, key: O -> K, k: K)
    requires Perm(s, t)
    ensures HasKey(s, key, k) <==> HasKey(t, key, k)
  {
    forall x ensures x in s <==> x in t { PermMember(s, t, x); }
  }

  lemma {:induction false} HasKeyMap<A, B, K>(s: seq<A>, f: A -> B, ka: A -> K, kb: B -> K, k: K)
    requires forall x :: x in s ==> kb(f(x)) == ka(x)
    ensures HasKey(Map(s, f), kb, k) <==> HasKey(s, ka, k)
  {
    if HasKey(s, ka, k) {
      var x :| x in s && ka(x) == k;
      var i :| 0 <= i < |s| && s[i] == x;
      assert Map(s, f)[i] in Map(s, f);
    }
  }

  /** The same with the right table's stored rows. */
  lemma {:induction false} JoinColumnOf<R, O, K>(ll: seq<O>, rs: seq<R>, inR: R -> O, key: O -> Key, copy: (O, O) -> O,
                                                 column: O -> K, k: K)
    requires forall l, r :: l in ll && r in rs ==> column(copy(l, inR(r))) == column(inR(r))
    ensures HasKey(InnerJoin(ll, Map(rs, inR), key, copy), column, k)
       <==> exists r :: r in rs && column(inR(r)) == k && HasKey(ll, key, key(inR(r)))
  {
    var rr := Map(rs, inR);
    JoinColumn(ll, rr, key, copy, column, k);
    if r :| r in rs && column(inR(r)) == k && HasKey(ll, key, key(inR(r))) {
      var i :| 0 <= i < |rs| && rs[i] == r;
      assert rr[i] in rr;
    }
    if r :| r in rr && column(r) == k && HasKey(ll, key, key(r)) {
      var i :| 0 <= i < |rs| && rr[i] == r;
      assert rs[i] in rs;
    }
  }

  // ----- Copying upwards -----

  /** The padded columns seen from below. */
  function PaddedUp<V>(pads: nat, pad: V, column: seq<V>): (r: seq<V>)
    ensures |r| == pads + |column|
    ensures forall h :: 0 <= h < |r| ==> r[h] == if h < pads then pad else column[pads + |column| - 1 - h]
  {
    seq(pads + |column|, h requires 0 <= h < pads + |column| =>
      if h < pads then pad else column[pads + |column| - 1 - h])
  }

  /** The run of row i ends in row e, and its cell does not come back below. */
  ghost predicate RunTo(cells: seq<Key>, i: int, e: int) {
    && 0 <= i <= e < |cells|
    && (forall h :: i <= h <= e ==> cells[h] == cells[i])
    && (forall h :: e < h < |cells| ==> cells[h] != cells[i])
  }

  /** Row i with the copied columns of row e. */
  ghost function CopiedFrom<T>(copy: (T, T) -> T, data: seq<T>, i: int, e: int): T
    requires 0 <= i < |data| && 0 <= e < |data|
  {
    if i == e then data[i] else copy(data[e], data[i])
  }

  /** How many rows a reversed column of n rows is padded with. */
  ghost function Padding(n: nat): int
    requires n >= 1
  {
    Exp2(BitWidth(n - 1)) - n
  }

  lemma {:induction false} UpRun(cells: seq<Key>, pads: nat, padCell: Key, i: nat, e: nat)
    requires RunTo(cells, i, e) && (cells[i] == padCell ==> pads == 0)
    ensures var m, up := pads + |cells| - 1 - i, PaddedUp(pads, padCell, cells);
            LeftConvex(up, m) && RunStart(up, m) == pads + |cells| - 1 - e
  {
    var n, m, up := |cells|, pads + |cells| - 1 - i, PaddedUp(pads, padCell, cells);
    RunFrom(up, pads + n - 1 - e, m);
  }

  /** Away from the padding's cell, the value copied up is that of the last row of the run. */
  lemma {:induction false} CopyUpValue<T(!new)>(cells: seq<Key>, data: seq<T>, copy: (T, T) -> T, key: T -> Key,
                                                pads: nat, padCell: Key, zero: T, i: nat, e: nat, v: T)
    requires |cells| == |data| && RunTo(cells, i, e) && CopyColumns(copy, key)
    requires (cells[i] == padCell ==> pads == 0) && UpValue(cells, data, copy, pads, padCell, zero, i, v)
    ensures v == CopiedFrom(copy, data, i, e)
  {
    var n, m, up, vals := |cells|, pads + |cells| - 1 - i, PaddedUp(pads, padCell, cells), PaddedUp(pads, zero, data);
    UpRun(cells, pads, padCell, i, e);
    CopySegment(up, vals, copy, key, m);
    assert vals[pads + n - 1 - e] == data[e] && vals[m] == data[i];
  }

  /** In the padding's cell it is the padding's. */
  lemma {:induction false} CopyUpPadding<T(!new)>(cells: seq<Key>, data: seq<T>, copy: (T, T) -> T, key: T -> Key,
                                                  pads: nat, zero: T, i: nat, v: T)
    requires |cells| == |data| && RunTo(cells, i, |cells| - 1) && CopyColumns(copy, key) && pads > 0
    requires UpValue(cells, data, copy, pads, cells[i], zero, i, v)
    ensures v == copy(zero, data[i])
  {
    var n, m, up, vals := |cells|, pads + |cells| - 1 - i, PaddedUp(pads, cells[i], cells), PaddedUp(pads, zero, data);
    RunFrom(up, 0, m);
    CopySegment(up, vals, copy, key, m);
    assert vals[0] == zero && vals[m] == data[i];
  }

  lemma {:induction false} CopyAssociative<T(!new)>(copy: (T, T) -> T, key: T -> Key)
    requires CopyColumns(copy, key)
    ensures Associative(copy)
  {
  }

  /** v is what the network leaves for row i in the reversed, padded columns. */
  ghost predicate UpValue<T>(cells: seq<Key>, data: seq<T>, copy: (T, T) -> T, pads: nat, padCell: Key, zero: T, i: nat,
                             v: T)
    requires i < |cells| == |data|
  {
    var m, up := pads + |cells| - 1 - i, PaddedUp(pads, padCell, cells);
    LeftConvex(up, m) ==> v == Segment(up, PaddedUp(pads, zero, data), copy, 0, m)
  }

  /** The network on the reversed, padded columns. */
  method RunUpwards<T(!new)>(cells: seq<Key>, data: seq<T>, copy: (T, T) -> T, ghost key: T -> Key, padCell: Key,
                             zero: T)
    returns (ghost pads: nat, out: seq<T>)
    requires |cells| == |data| >= 2 && CopyColumns(copy, key)
    ensures |out| == |data| && pads == Padding(|data|)
    ensures forall i :: 0 <= i < |data| ==> UpValue(cells, data, copy, pads, padCell, zero, i, out[i])
  {
    var d, n := BitWidth(|data| - 1), |data|;
    BitWidthBound(n - 1);
    var p := Exp2(d) - n;
    CopyAssociative(copy, key);
    var result := RunNetwork(PaddedUp(p, padCell, cells), PaddedUp(p, zero, data), copy, d);
    out := seq(n, i requires 0 <= i < n => result[p + n - 1 - i]);
    pads := p;
  }

  /** aggregate(keys, copy, {.reverse = true, .do_sort = false, .mark_valid = false}): the network on the reversed
      view of the padded columns. Every row takes the copied columns of the last row of its run, which itself stays
      as it is; the run of the padding's cell at the bottom takes the padding's zeros, if there is padding. */
  method CopyUp<T(!new)>(cells: seq<Key>, data: seq<T>, copy: (T, T) -> T, ghost key: T -> Key, padCell: Key, zero: T)
    returns (out: seq<T>)
    requires |cells| == |data| >= 2 && CopyColumns(copy, key)
    ensures |out| == |data|
    ensures forall i, e :: RunTo(cells, i, e) && cells[i] != padCell ==> out[i] == CopiedFrom(copy, data, i, e)
    ensures forall i :: RunTo(cells, i, |cells| - 1) && cells[i] == padCell ==>
      out[i] == if Padding(|data|) > 0 then copy(zero, data[i]) else CopiedFrom(copy, data, i, |data| - 1)
  {
    ghost var pads;
    pads, out := RunUpwards(cells, data, copy, key, padCell, zero);
    forall i, e | RunTo(cells, i, e) && cells[i] != padCell ensures out[i] == CopiedFrom(copy, data, i, e) {
      CopyUpValue(cells, data, copy, key, pads, padCell, zero, i, e, out[i]);
    }
    forall i | RunTo(cells, i, |cells| - 1) && cells[i] == padCell
      ensures out[i] == if Padding(|data|) > 0 then copy(zero, data[i]) else CopiedFrom(copy, data, i, |data| - 1)
    {
      if pads > 0 {
        CopyUpPadding(cells, data, copy, key, pads, zero, i, out[i]);
      } else {
        CopyUpValue(cells, data, copy, key, pads, padCell, zero, i, |data| - 1, out[i]);
      }
    }
  }

  /** A run known to start at lo. */
  lemma {:induction false} RunFrom(cells: seq<Key>, lo: nat, m: nat)
    requires lo <= m < |cells| && (forall h :: lo <= h <= m ==> cells[h] == cells[m])
    requires forall h :: 0 <= h < lo ==> cells[h] != cells[m]
    ensures LeftConvex(cells, m) && RunStart(cells, m) == lo
  {
    if lo < m { RunFrom(cells, lo, m - 1); }
  }
}
