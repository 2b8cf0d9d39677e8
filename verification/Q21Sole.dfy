/** TPC-H Q21, the EXISTS / NOT EXISTS half (bench/queries/tpch/q21.cpp:146-199): per order, find the only late
    supplier of several by two aggregations and a bitwise OR over masked supplier keys. */
module Q21Sole {
  import opened Bags
  import opened Bits
  import opened PrefixNetworks
  import opened Tables

  datatype LineItem = LineItem(orderKey: int, suppKey: int, receiptDate: int, commitDate: int)

  /** The working rows of table L2. */
  datatype Lateness = Lateness(orderKey: int, suppKey: int, late: bool, anyLate: bool, numLate: int, countSupp: int)

  // ----- The SQL subqueries -----

  /** exists: another supplier has an item in the order. */
  ghost predicate OtherSupplier(ls: seq<LineItem>, orderKey: int, suppKey: int) {
    exists l2 :: l2 in ls && l2.orderKey == orderKey && l2.suppKey != suppKey
  }

  /** not exists, negated: another supplier is late in the order. */
  ghost predicate OtherLate(ls: seq<LineItem>, orderKey: int, suppKey: int) {
    exists l3 :: l3 in ls && l3.orderKey == orderKey && l3.suppKey != suppKey && l3.receiptDate > l3.commitDate
  }

  ghost predicate LateIn(ls: seq<LineItem>, orderKey: int, suppKey: int) {
    exists l :: l in ls && l.orderKey == orderKey && l.suppKey == suppKey && l.receiptDate > l.commitDate
  }

  ghost predicate SoleLate(ls: seq<LineItem>, orderKey: int, suppKey: int) {
    LateIn(ls, orderKey, suppKey) && OtherSupplier(ls, orderKey, suppKey) && !OtherLate(ls, orderKey, suppKey)
  }

  // ----- The columns -----

  /** The comparison of both tables: the filter of L1 and the column [Late] of L2. */
  predicate IsLate(l: LineItem) { l.receiptDate > l.commitDate }

  function ToLateness(l: LineItem): Lateness { Lateness(l.orderKey, l.suppKey, IsLate(l), false, 0, 0) }
  function PairKey(x: Lateness): Key { [x.orderKey, x.suppKey] }
  function OrderKey(x: Lateness): Key { [x.orderKey] }
  function StartAny(x: Lateness): Lateness { x.(anyLate := x.late) }
  function OrAny(a: Lateness, b: Lateness): Lateness { b.(anyLate := a.anyLate || b.anyLate) }

  /** [SuppKey] &= extend_lsb([AnyLate]). */
  function Mask(x: Lateness): Lateness { x.(suppKey := if x.anyLate then x.suppKey else 0) }

  function StartCounts(x: Lateness): Lateness { x.(numLate := if x.anyLate then 1 else 0, countSupp := 1) }
  function AddCounts(a: Lateness, b: Lateness): Lateness {
    b.(numLate := a.numLate + b.numLate, countSupp := a.countSupp + b.countSupp, suppKey := BitOr(a.suppKey, b.suppKey))
  }
  predicate Sole(x: Lateness) { x.numLate == 1 && x.countSupp > 1 }

  lemma {:induction false} Ops()
    ensures Associative(OrAny) && KeyStable(PairKey, StartAny, OrAny)
    ensures Associative(AddCounts) && KeyStable(OrderKey, StartCounts, AddCounts)
  {
    forall a, b, c ensures AddCounts(AddCounts(a, b), c) == AddCounts(a, AddCounts(b, c)) {
      OrAssociative(a.suppKey, b.suppKey, c.suppKey);
    }
  }

  // ----- First aggregation: one row per order and supplier -----

  lemma {:induction false} FoldAny(g: seq<Lateness>)
    requires g != []
    ensures Fold(OrAny, Map(g, StartAny)).anyLate <==> exists x :: x in g && x.late
  {
    LastSplit(g);
    var g', y := g[..|g| - 1], g[|g| - 1];
    FoldStep(OrAny, StartAny, g', y);
    if g' != [] { FoldAny(g'); }
  }

  /** A row of the first group-by: the supplier's lateness in the order. */
  lemma {:induction false} PairRow(ls: seq<LineItem>, pairs: seq<Lateness>, x: Lateness)
    requires IsGroupBy(Map(ls, ToLateness), pairs, PairKey, StartAny, OrAny) && x in pairs
    ensures x.anyLate <==> LateIn(ls, x.orderKey, x.suppKey)
  {
    var rows := Map(ls, ToLateness);
    assert FromGroup(rows, x, PairKey, StartAny, OrAny);
    var g: seq<Lateness> :|
      g != [] && Perm(g, WithKey(rows, PairKey, PairKey(x))) && x == Fold(OrAny, Map(g, StartAny));
    FoldAny(g);
    GroupMembers(g, rows, PairKey, PairKey(x));
    LateRows(ls, x.orderKey, x.suppKey);
  }

  /** Lateness in the line items and in the rows made of them. */
  lemma {:induction false} LateRows(ls: seq<LineItem>, orderKey: int, suppKey: int)
    ensures LateIn(ls, orderKey, suppKey)
       <==> exists y :: y in Map(ls, ToLateness) && PairKey(y) == [orderKey, suppKey] && y.late
  {
    MapMember(ls, ToLateness);
    if LateIn(ls, orderKey, suppKey) {
      var l :| l in ls && l.orderKey == orderKey && l.suppKey == suppKey && IsLate(l);
      TwoColumns(ToLateness(l).orderKey, ToLateness(l).suppKey, orderKey, suppKey);
      assert ToLateness(l) in Map(ls, ToLateness);
    }
    if y :| y in Map(ls, ToLateness) && PairKey(y) == [orderKey, suppKey] && y.late {
      TwoColumns(y.orderKey, y.suppKey, orderKey, suppKey);
    }
  }

  /** The pairs present are the (order, supplier) pairs of the line items. */
  lemma {:induction false} PairPresent(ls: seq<LineItem>, pairs: seq<Lateness>, orderKey: int, suppKey: int)
    requires IsGroupBy(Map(ls, ToLateness), pairs, PairKey, StartAny, OrAny)
    ensures HasKey(pairs, PairKey, [orderKey, suppKey])
       <==> exists l :: l in ls && l.orderKey == orderKey && l.suppKey == suppKey
  {
    var rows := Map(ls, ToLateness);
    GroupByKeys(rows, pairs, PairKey, StartAny, OrAny, [orderKey, suppKey]);
    MapMember(ls, ToLateness);
    if l :| l in ls && l.orderKey == orderKey && l.suppKey == suppKey {
      TwoColumns(ToLateness(l).orderKey, ToLateness(l).suppKey, orderKey, suppKey);
      assert ToLateness(l) in rows;
      assert HasKey(rows, PairKey, [orderKey, suppKey]);
    }
    if HasKey(rows, PairKey, [orderKey, suppKey]) {
      var x :| x in rows && PairKey(x) == [orderKey, suppKey];
      TwoColumns(x.orderKey, x.suppKey, orderKey, suppKey);
    }
  }

  // ----- Second aggregation: one row per order -----

  function LateCount(x: Lateness): int { if x.anyLate then 1 else 0 }
  ghost predicate Masked(x: Lateness) { !x.anyLate ==> x.suppKey == 0 }

  /** The OR of masked keys is the key of the late row when there is just one, whatever that key is. */
  lemma {:induction false} FoldOr(g: seq<Lateness>)
    requires g != [] && forall x :: x in g ==> Masked(x)
    ensures var f := Fold(AddCounts, Map(g, StartCounts));
            && f.numLate == Sum(g, LateCount) && f.countSupp == |g|
            && (Sum(g, LateCount) == 0 ==> f.suppKey == 0)
            && (Sum(g, LateCount) == 1 ==> forall y :: y in g && y.anyLate ==> f.suppKey == y.suppKey)
  {
    LastSplit(g);
    var g', z := g[..|g| - 1], g[|g| - 1];
    FoldStep(AddCounts, StartCounts, g', z);
    SumZeroIff(g', LateCount);
    assert Masked(z);
    if g' != [] {
      FoldOr(g');
    } else {
      assert Map(g, StartCounts) == [StartCounts(z)];
    }
  }

  /** The rows of one order after the first aggregation. */
  ghost function OrderPairs(pairs: seq<Lateness>, orderKey: int): seq<Lateness> {
    WithKey(pairs, OrderKey, [orderKey])
  }

  /** What the second aggregation finds for an order. */
  lemma {:induction false} OrderRow(pairs: seq<Lateness>, orders: seq<Lateness>, x: Lateness)
    requires IsGroupBy(Map(pairs, Mask), orders, OrderKey, StartCounts, AddCounts) && x in orders
    ensures var r := OrderPairs(pairs, x.orderKey);
            && x.numLate == Sum(r, LateCount) && x.countSupp == |r|
            && (x.numLate == 1 ==> forall y :: y in r && y.anyLate ==> x.suppKey == y.suppKey)
  {
    var masked, r := Map(pairs, Mask), OrderPairs(pairs, x.orderKey);
    assert FromGroup(masked, x, OrderKey, StartCounts, AddCounts);
    assert OrderKey(x) == [x.orderKey];
    var g: seq<Lateness> :|
      g != [] && Perm(g, WithKey(masked, OrderKey, [x.orderKey])) && x == Fold(AddCounts, Map(g, StartCounts));
    WithKeyMap(pairs, Mask, OrderKey, OrderKey, [x.orderKey]);
    MaskedGroup(r, g);
    FoldOr(g);
  }

  /** Masking changes neither the number of rows nor which of them are late. */
  lemma {:induction false} MaskedGroup(r: seq<Lateness>, g: seq<Lateness>)
    requires Perm(g, Map(r, Mask))
    ensures |g| == |r| && Sum(g, LateCount) == Sum(r, LateCount)
    ensures forall y :: y in g ==> Masked(y)
    ensures forall y :: y in r && y.anyLate ==> y in g
  {
    var m := Map(r, Mask);
    PermLength(g, m);
    SumPerm(g, m, LateCount);
    SumMap(r, Mask, LateCount, LateCount);
    MapMember(r, Mask);
    forall y ensures y in g <==> y in m { PermMember(g, m, y); }
    forall y | y in r && y.anyLate ensures y in g {
      assert Mask(y) == y;
    }
  }

  /** With one late row y at hand: the count is one exactly when no other row is late. */
  lemma {:induction false} OneLate(r: seq<Lateness>, y: Lateness)
    requires UniqueBy(r, PairKey) && y in r && y.anyLate
    ensures Sum(r, LateCount) >= 1
    ensures Sum(r, LateCount) == 1 <==> forall z :: z in r && z.anyLate ==> z == y
  {
    LastSplit(r);
    var r', z := r[..|r| - 1], r[|r| - 1];
    SumZeroIff(r', LateCount);
    if z == y {
      assert forall w :: w in r' ==> PairKey(w) != PairKey(y);
    } else {
      OneLate(r', y);
    }
  }

  /** Several rows exactly when some row differs from y. */
  lemma {:induction false} Several(r: seq<Lateness>, y: Lateness)
    requires UniqueBy(r, PairKey) && y in r
    ensures |r| > 1 <==> exists z :: z in r && z != y
  {
    if |r| > 1 {
      assert PairKey(r[0]) != PairKey(r[1]);
      assert r[0] in r && r[1] in r && (r[0] != y || r[1] != y);
    }
    if z :| z in r && z != y {
      var i :| 0 <= i < |r| && r[i] == z;
      var j :| 0 <= j < |r| && r[j] == y;
    }
  }

  lemma {:induction false} OrderPairMember(pairs: seq<Lateness>, orderKey: int, z: Lateness)
    ensures z in OrderPairs(pairs, orderKey) <==> z in pairs && z.orderKey == orderKey
  {
    WithKeyMember(pairs, OrderKey, [orderKey], z);
    assert OrderKey(z)[0] == z.orderKey && [orderKey][0] == orderKey;
  }

  /** Counting suppliers decides both subqueries: for a late supplier, being the only late one of several is
      NumLate = 1 and CountSupp > 1 on the order's row. */
  lemma {:induction false} CountsDecide(ls: seq<LineItem>, pairs: seq<Lateness>, y: Lateness)
    requires IsGroupBy(Map(ls, ToLateness), pairs, PairKey, StartAny, OrAny) && y in pairs && y.anyLate
    ensures var r := OrderPairs(pairs, y.orderKey);
            && (Sum(r, LateCount) == 1 <==> !OtherLate(ls, y.orderKey, y.suppKey))
            && (|r| > 1 <==> OtherSupplier(ls, y.orderKey, y.suppKey))
  {
    var r := OrderPairs(pairs, y.orderKey);
    UniqueSelect(pairs, KeyIs(OrderKey, [y.orderKey]), PairKey);
    OrderPairMember(pairs, y.orderKey, y);
    OneLate(r, y);
    Several(r, y);
    if OtherLate(ls, y.orderKey, y.suppKey) {
      var l :| l in ls && l.orderKey == y.orderKey && l.suppKey != y.suppKey && IsLate(l);
      var z := PairOf(ls, pairs, l);
      OrderPairMember(pairs, y.orderKey, z);
    }
    if OtherSupplier(ls, y.orderKey, y.suppKey) {
      var l :| l in ls && l.orderKey == y.orderKey && l.suppKey != y.suppKey;
      var z := PairOf(ls, pairs, l);
      OrderPairMember(pairs, y.orderKey, z);
    }
    forall z | z in r && z != y
      ensures OtherSupplier(ls, y.orderKey, y.suppKey)
      ensures z.anyLate ==> OtherLate(ls, y.orderKey, y.suppKey)
    {
      OrderPairMember(pairs, y.orderKey, z);
      TwoColumns(z.orderKey, z.suppKey, z.orderKey, z.suppKey);
      TwoColumns(y.orderKey, y.suppKey, z.orderKey, z.suppKey);
      UniqueRow(pairs, PairKey, y, z);
      PairPresent(ls, pairs, z.orderKey, z.suppKey);
      PairRow(ls, pairs, z);
    }
  }

  /** The pair row of a line item. */
  lemma {:induction false} PairOf(ls: seq<LineItem>, pairs: seq<Lateness>, l: LineItem) returns (z: Lateness)
    requires IsGroupBy(Map(ls, ToLateness), pairs, PairKey, StartAny, OrAny) && l in ls
    ensures z in pairs && z.orderKey == l.orderKey && z.suppKey == l.suppKey && (IsLate(l) ==> z.anyLate)
  {
    PairPresent(ls, pairs, l.orderKey, l.suppKey);
    z :| z in pairs && PairKey(z) == [l.orderKey, l.suppKey];
    TwoColumns(z.orderKey, z.suppKey, l.orderKey, l.suppKey);
    PairRow(ls, pairs, z);
  }

  /** A surviving row names a sole late supplier. */
  lemma {:induction false} SoleRowIsLate(ls: seq<LineItem>, pairs: seq<Lateness>, orders: seq<Lateness>, x: Lateness)
    requires IsGroupBy(Map(ls, ToLateness), pairs, PairKey, StartAny, OrAny)
    requires IsGroupBy(Map(pairs, Mask), orders, OrderKey, StartCounts, AddCounts) && x in orders && Sole(x)
    ensures SoleLate(ls, x.orderKey, x.suppKey)
  {
    var r := OrderPairs(pairs, x.orderKey);
    OrderRow(pairs, orders, x);
    SumZeroIff(r, LateCount);
    var y :| y in r && y.anyLate;
    OrderPairMember(pairs, x.orderKey, y);
    PairRow(ls, pairs, y);
    CountsDecide(ls, pairs, y);
  }

  /** A sole late supplier has a surviving row. */
  lemma {:induction false} SoleLateHasRow(ls: seq<LineItem>, pairs: seq<Lateness>, orders: seq<Lateness>, orderKey: int,
                                          suppKey: int)
    returns (x: Lateness)
    requires IsGroupBy(Map(ls, ToLateness), pairs, PairKey, StartAny, OrAny)
    requires IsGroupBy(Map(pairs, Mask), orders, OrderKey, StartCounts, AddCounts)
    requires SoleLate(ls, orderKey, suppKey)
    ensures x in orders && Sole(x) && x.orderKey == orderKey && x.suppKey == suppKey
  {
    var l :| l in ls && l.orderKey == orderKey && l.suppKey == suppKey && IsLate(l);
    var y := PairOf(ls, pairs, l);
    CountsDecide(ls, pairs, y);
    OrderPairMember(pairs, orderKey, y);
    MapMember(pairs, Mask);
    assert Mask(y) in Map(pairs, Mask);
    x :| x in orders && OrderKey(x) == OrderKey(Mask(y));
    assert OrderKey(x)[0] == orderKey;
    OrderRow(pairs, orders, x);
  }

  /** The filtered rows are the (order, supplier) pairs of the two subqueries. */
  lemma {:induction false} SoleRows(ls: seq<LineItem>, pairs: seq<Lateness>, orders: seq<Lateness>, orderKey: int,
                                    suppKey: int)
    requires IsGroupBy(Map(ls, ToLateness), pairs, PairKey, StartAny, OrAny)
    requires IsGroupBy(Map(pairs, Mask), orders, OrderKey, StartCounts, AddCounts)
    ensures HasKey(Select(orders, Sole), PairKey, [orderKey, suppKey]) <==> SoleLate(ls, orderKey, suppKey)
  {
    if HasKey(Select(orders, Sole), PairKey, [orderKey, suppKey]) {
      var x :| x in Select(orders, Sole) && PairKey(x) == [orderKey, suppKey];
      SelectMember(orders, Sole, x);
      TwoColumns(x.orderKey, x.suppKey, orderKey, suppKey);
      SoleRowIsLate(ls, pairs, orders, x);
    }
    if SoleLate(ls, orderKey, suppKey) {
      var x := SoleLateHasRow(ls, pairs, orders, orderKey, suppKey);
      SelectMember(orders, Sole, x);
      TwoColumns(x.orderKey, x.suppKey, orderKey, suppKey);
    }
  }

  /** Lines 146-160: lateness per order and supplier; the freshly sorted table needs no VALID column in its keys. */
  method LatePairs(ls: seq<LineItem>) returns (rows: seq<Row<Lateness>>)
    requires |ls| >= 2
    ensures |rows| == |ls| && IsGroupBy(Map(ls, ToLateness), Live(rows), PairKey, StartAny, OrAny)
  {
    Ops();
    var l2 := new EncodedTable(Map(ls, ToLateness), Lateness(0, 0, false, false, 0, 0));
    l2.SortValid(PairKey);
    ghost var sorted := l2.rows;
    LivePerm(sorted, ValidRows(Map(ls, ToLateness)));
    AllValidSorted(sorted, Map(ls, ToLateness), PairKey);
    l2.AggregateSorted((r: Row<Lateness>) => PairKey(r.data), StartAny, OrAny);
    AggregateGroups(sorted, Map(sorted, (r: Row<Lateness>) => PairKey(r.data)), l2.rows, PairKey, StartAny, OrAny);
    GroupByPerm(Live(sorted), Map(ls, ToLateness), Live(l2.rows), PairKey, StartAny, OrAny);
    rows := l2.rows;
  }

  /** Lines 146-199: the rows of L2 that stay valid. */
  method FindSoleLate(ls: seq<LineItem>) returns (rows: seq<Row<Lateness>>)
    requires |ls| >= 2
    ensures |rows| == |ls|
    ensures UniqueBy(Live(rows), OrderKey)
    ensures forall o, s :: HasKey(Live(rows), PairKey, [o, s]) <==> SoleLate(ls, o, s)
  {
    Ops();
    var late := LatePairs(ls);
    ghost var pairs := Live(late);
    var l2 := new EncodedTable.FromRows(late, Lateness(0, 0, false, false, 0, 0));
    l2.Assign((r: Row<Lateness>) => Mask(r.data));
    assert Live(l2.rows) == Map(pairs, Mask);
    l2.Aggregate(OrderKey, StartCounts, AddCounts);
    ghost var orders := Live(l2.rows);
    l2.Filter(Sole);
    UniqueSelect(orders, Sole, OrderKey);
    rows := l2.rows;
    forall o, s
      ensures HasKey(Live(rows), PairKey, [o, s]) <==> SoleLate(ls, o, s)
    {
      SoleRows(ls, pairs, orders, o, s);
    }
  }
}
