/** TPC-H Q22 (bench/queries/tpch/q22.cpp): global sales opportunity, clause 2.4.22 of the TPC-H Specification
    v3.0.1. The average is one private division; both filters stay on the outer table. */
module Q22 {
  import opened Bags
  import opened PrefixNetworks
  import opened Tables
  import opened Joins
  import opened Division

  datatype Customer = Customer(custKey: int, cntryCode: int, acctBal: int)

  /** The working rows of the plan. */
  datatype Acct = Acct(custKey: int, cntryCode: int, acctBal: int, totalBal: int, countBal: int, avgBal: int,
                       numCust: int, totBal: int)

  // ----- The SQL -----

  /** cntrycode in (...). */
  predicate Listed(code: int) { code in {13, 31, 23, 29, 30, 18, 17} }

  predicate Averaged(c: Customer) { c.acctBal > 0 && Listed(c.cntryCode) }

  ghost function AvgTotal(cs: seq<Customer>): int { Sum(Select(cs, Averaged), (c: Customer) => c.acctBal) }
  ghost function AvgCount(cs: seq<Customer>): int { |Select(cs, Averaged)| }

  /** acctbal > avg(acctbal), exactly; the average of no rows is NULL and the comparison fails. */
  ghost predicate AboveAverage(cs: seq<Customer>, c: Customer) {
    AvgCount(cs) > 0 && c.acctBal * AvgCount(cs) > AvgTotal(cs)
  }

  ghost predicate Qualifies(cs: seq<Customer>, c: Customer) {
    Listed(c.cntryCode) && AboveAverage(cs, c)
  }

  ghost predicate Chosen(cs: seq<Customer>, orders: seq<int>, c: Customer) {
    Qualifies(cs, c) && c.custKey !in orders
  }

  ghost function CountTerm(cs: seq<Customer>, orders: seq<int>, code: int, c: Customer): int {
    if Chosen(cs, orders, c) && c.cntryCode == code then 1 else 0
  }

  ghost function BalTerm(cs: seq<Customer>, orders: seq<int>, code: int, c: Customer): int {
    if Chosen(cs, orders, c) && c.cntryCode == code then c.acctBal else 0
  }

  ghost function NumCust(cs: seq<Customer>, orders: seq<int>, code: int): int {
    Sum(cs, c => CountTerm(cs, orders, code, c))
  }

  ghost function TotAcctBal(cs: seq<Customer>, orders: seq<int>, code: int): int {
    Sum(cs, c => BalTerm(cs, orders, code, c))
  }

  // ----- The columns -----

  function ToAcct(c: Customer): Acct { Acct(c.custKey, c.cntryCode, c.acctBal, 0, 0, 0, 0, 0) }
  const ZERO := Acct(0, 0, 0, 0, 0, 0, 0, 0)
  function NoKey(a: Acct): Key { [] }
  function StartAvg(a: Acct): Acct { a.(totalBal := a.acctBal, countBal := 1) }
  function AddAvg(a: Acct, b: Acct): Acct {
    b.(totalBal := a.totalBal + b.totalBal, countBal := a.countBal + b.countBal)
  }
  function CopyAvg(a: Acct, b: Acct): Acct { b.(totalBal := a.totalBal, countBal := a.countBal) }
  function CustKey(a: Acct): Key { [a.custKey] }
  function OrderAcct(k: int): Acct { ZERO.(custKey := k) }
  function CodeKey(a: Acct): Key { [a.cntryCode] }
  function StartGroup(a: Acct): Acct { a.(numCust := 1, totBal := a.acctBal) }
  function AddGroup(a: Acct, b: Acct): Acct { b.(numCust := a.numCust + b.numCust, totBal := a.totBal + b.totBal) }
  function Total(a: Acct): int { a.totalBal }
  function Count(a: Acct): int { a.countBal }
  function NumCustOf(a: Acct): int { a.numCust }
  function TotBalOf(a: Acct): int { a.totBal }
  function Bal(a: Acct): int { a.acctBal }

  // ----- Integer average against exact average -----

  /** For integers, exceeding the average and exceeding its floor are the same. */
  lemma {:induction false} FloorAverage(bal: int, total: int, count: int)
    requires count > 0
    ensures bal > total / count <==> bal * count > total
  {
    var q, r := total / count, total % count;
    assert total == count * q + r && 0 <= r < count;
    assert count * (bal - q) == bal * count - count * q;
    MulAtLeast(count, bal - q);
  }

  /** The balances averaged are positive, so their sum is. */
  lemma {:induction false} AveragePositive(cs: seq<Customer>)
    requires AvgCount(cs) > 0
    ensures AvgTotal(cs) > 0
  {
    var pos := Select(cs, Averaged);
    forall c | c in pos ensures c.acctBal > 0 {
      SelectMember(cs, Averaged, c);
    }
    SumNonNegative(pos, (c: Customer) => c.acctBal);
    assert pos[0] in pos;
  }

  /** Filtering the outer table to positive balances loses nothing. */
  lemma {:induction false} PositiveSuffices(cs: seq<Customer>, c: Customer)
    requires AvgCount(cs) > 0
    ensures Qualifies(cs, c) <==> Averaged(c) && c.acctBal > AvgTotal(cs) / AvgCount(cs)
  {
    FloorAverage(c.acctBal, AvgTotal(cs), AvgCount(cs));
    AveragePositive(cs);
    if c.acctBal <= 0 {
      assert c.acctBal * AvgCount(cs) <= 0 by { assert (-c.acctBal) * AvgCount(cs) >= 0; }
    }
  }

  // ----- The average -----

  /** The stored columns of a working row. */
  function Base(a: Acct): Customer { Customer(a.custKey, a.cntryCode, a.acctBal) }
  predicate PositiveBal(a: Acct) { a.acctBal > 0 }
  predicate InCodes(code: int) {
    code == 13 || code == 31 || code == 23 || code == 29 || code == 30 || code == 18 || code == 17
  }

  predicate CodeOk(a: Acct) { InCodes(a.cntryCode) }

  lemma {:induction false} LiveBase(a: seq<Row<Acct>>, b: seq<Row<Acct>>)
    requires |a| == |b|
    requires forall i :: 0 <= i < |a| ==>
      a[i].valid == b[i].valid && (a[i].valid ==> Base(a[i].data) == Base(b[i].data))
    ensures Map(Live(a), Base) == Map(Live(b), Base)
  {
    if a != [] {
      var n := |a| - 1;
      LiveBase(a[..n], b[..n]);
      if a[n].valid {
        assert Map(Live(a), Base) == Map(Live(a[..n]), Base) + [Base(a[n].data)];
        assert Map(Live(b), Base) == Map(Live(b[..n]), Base) + [Base(b[n].data)];
      } else {
        assert Live(a) == Live(a[..n]) && Live(b) == Live(b[..n]);
      }
    }
  }

  /** After both filters the live rows are the customers the average is taken over. */
  lemma {:induction false} Filters(cs: seq<Customer>)
    ensures Map(Select(Select(Map(cs, ToAcct), CodeOk), PositiveBal), Base) == Select(cs, Averaged)
  {
    var accts := Map(cs, ToAcct);
    SelectBoth(accts, CodeOk, PositiveBal, a => CodeOk(a) && PositiveBal(a));
    SelectMap(accts, Base, Averaged, a => CodeOk(a) && PositiveBal(a));
    MapMap(cs, ToAcct, Base, Itself);
    MapItself(cs);
  }

  /** The last row of the sorted table, when valid, carries the sum and the count of all valid rows. */
  lemma {:induction false} LastRowTotals(sorted: seq<Row<Acct>>, last: Acct)
    requires sorted != [] && SortedBy(sorted, RowKey(NoKey)) && sorted[|sorted| - 1].valid
    requires last == AggregatedRow(sorted, Map(sorted, RowKey(NoKey)), StartAvg, AddAvg, |sorted| - 1).data
    ensures last.totalBal == Sum(Live(sorted), Bal) && last.countBal == |Live(sorted)|
  {
    var n := |sorted| - 1;
    SortedGrouped(sorted, NoKey);
    SegmentIsFold(sorted, Map(sorted, RowKey(NoKey)), NoKey, StartAvg, AddAvg, n);
    assert sorted[..n + 1] == sorted;
    var live := Live(sorted);
    SelectedAll(live, KeyIs(NoKey, []));
    FoldSum(AddAvg, Map(live, StartAvg), Total);
    FoldSum(AddAvg, Map(live, StartAvg), Count);
    SumMap(live, StartAvg, Total, Bal);
    SumMap(live, StartAvg, Count, x => 1);
    SumOne(live);
  }

  lemma {:induction false} AvgOps()
    ensures Associative(AddAvg) && CopyColumns(CopyAvg, NoKey)
  {
  }

  /** Valid rows come last, so a valid row's run reaches the last row. */
  lemma {:induction false} ValidSuffix(sorted: seq<Row<Acct>>, i: nat)
    requires SortedBy(sorted, RowKey(NoKey)) && i < |sorted| && sorted[i].valid
    ensures forall h :: i <= h < |sorted| ==> sorted[h].valid
  {
    forall h | i <= h < |sorted| ensures sorted[h].valid {
      ValidLast(sorted, NoKey, i, h);
    }
  }

  /** The running totals leave the stored columns alone. */
  lemma {:induction false} RunningBase(sorted: seq<Row<Acct>>, i: nat)
    requires i < |sorted|
    ensures Base(AggregatedRow(sorted, Map(sorted, RowKey(NoKey)), StartAvg, AddAvg, i).data) == Base(sorted[i].data)
  {
    var vals := Map(sorted, (r: Row<Acct>) => StartAvg(r.data));
    assert vals[i] == StartAvg(sorted[i].data);
  }

  /** Lines 127-139: filters and running totals. */
  method RunningTotals(cs: seq<Customer>) returns (running: seq<Row<Acct>>, ghost sorted: seq<Row<Acct>>)
    requires |cs| >= 2
    ensures |running| == |sorted| == |cs| && SortedBy(sorted, RowKey(NoKey))
    ensures Perm(Map(Live(sorted), Base), Select(cs, Averaged))
    ensures forall i :: 0 <= i < |running| ==>
      running[i] == Row(sorted[i].valid, AggregatedRow(sorted, Map(sorted, RowKey(NoKey)), StartAvg, AddAvg, i).data)
  {
    AvgOps();
    var customer := new EncodedTable(Map(cs, ToAcct), ZERO);
    customer.Filter(CodeOk);
    customer.Filter(PositiveBal);
    ghost var filtered := customer.rows;
    Filters(cs);
    sorted := customer.RunningAggregate(NoKey, StartAvg, AddAvg);
    running := customer.rows;
    LivePerm(sorted, filtered);
    MapPerm(Live(sorted), Live(filtered), Base);
  }

  /** The rows of the last run have taken the totals of the last row. */
  ghost predicate Copied(running: seq<Row<Acct>>, data: seq<Acct>)
    requires |running| == |data| >= 1
  {
    var cells, n := Map(running, RowKey(NoKey)), |data|;
    forall i :: RunTo(cells, i, n - 1) && cells[i] != RowKey(NoKey)(Row(false, ZERO)) ==>
      data[i] == if i == n - 1 then running[i].data else CopyAvg(running[n - 1].data, running[i].data)
  }

  /** Copying the totals up leaves every valid row its stored columns, and the last row its totals. */
  lemma {:induction false} CopiedRows(sorted: seq<Row<Acct>>, running: seq<Row<Acct>>, data: seq<Acct>, i: nat)
    requires |sorted| == |running| == |data| && i < |sorted| && SortedBy(sorted, RowKey(NoKey)) && sorted[i].valid
    requires forall i :: 0 <= i < |running| ==>
      running[i] == Row(sorted[i].valid, AggregatedRow(sorted, Map(sorted, RowKey(NoKey)), StartAvg, AddAvg, i).data)
    requires Copied(running, data)
    ensures Base(data[i]) == Base(sorted[i].data)
    ensures data[|data| - 1] == running[|data| - 1].data && sorted[|data| - 1].valid
  {
    ValidSuffix(sorted, i);
    var cells, n := Map(running, RowKey(NoKey)), |data|;
    forall h | i <= h < n ensures cells[h] == [1] {
      assert cells[h] == [1] + NoKey(running[h].data);
    }
    assert RowKey(NoKey)(Row(false, ZERO))[0] == 0;
    RunningBase(sorted, i);
    assert RunTo(cells, i, n - 1) && RunTo(cells, n - 1, n - 1);
  }

  /** What the copied rows hold: the stored columns, and the SQL's totals in the last row. */
  lemma {:induction false} CopiedTable(cs: seq<Customer>, sorted: seq<Row<Acct>>, running: seq<Row<Acct>>,
                                       data: seq<Acct>, rows: seq<Row<Acct>>)
    requires |sorted| == |running| == |data| == |rows| >= 1 && SortedBy(sorted, RowKey(NoKey))
    requires Perm(Map(Live(sorted), Base), Select(cs, Averaged))
    requires forall i :: 0 <= i < |running| ==>
      running[i] == Row(sorted[i].valid, AggregatedRow(sorted, Map(sorted, RowKey(NoKey)), StartAvg, AddAvg, i).data)
    requires Copied(running, data)
    requires forall i :: 0 <= i < |rows| ==> rows[i] == Row(running[i].valid, data[i])
    ensures Perm(Map(Live(rows), Base), Select(cs, Averaged))
    ensures AvgCount(cs) > 0 ==> data[|data| - 1].totalBal == AvgTotal(cs) && data[|data| - 1].countBal == AvgCount(cs)
  {
    var n := |data|;
    forall i | 0 <= i < n && sorted[i].valid
      ensures Base(data[i]) == Base(sorted[i].data)
      ensures data[n - 1] == running[n - 1].data && sorted[n - 1].valid
    {
      CopiedRows(sorted, running, data, i);
    }
    LiveBase(rows, sorted);
    if AvgCount(cs) > 0 {
      AverageValue(cs, sorted);
      assert sorted[n - 1].valid;
    }
  }

  /** Lines 140-143: the totals copied upwards. */
  method CopyTotals(running: seq<Row<Acct>>) returns (data: seq<Acct>)
    requires |running| >= 2
    ensures |data| == |running|
    ensures Copied(running, data)
  {
    AvgOps();
    data := CopyUp(Map(running, RowKey(NoKey)), Map(running, (r: Row<Acct>) => r.data), CopyAvg, NoKey,
                   RowKey(NoKey)(Row(false, ZERO)), ZERO);
  }

  /** The average of a row's totals. */
  function AverageOf(a: Acct): int { Quotient(a.totalBal, if a.countBal < 0 then 0 else a.countBal) }

  /** Lines 140-159: totals copied to all valid rows, read off the last row, and one division. */
  method WithAverage(cs: seq<Customer>) returns (rows: seq<Row<Acct>>, avg: int)
    requires |cs| >= 2
    ensures |rows| >= 2
    ensures Perm(Map(Live(rows), Base), Select(cs, Averaged))
    ensures AvgCount(cs) > 0 ==> avg == AvgTotal(cs) / AvgCount(cs)
  {
    var running, sorted := RunningTotals(cs);
    var n := |running|;
    var data := CopyTotals(running);
    rows := seq(n, i requires 0 <= i < n && n == |running| == |data| => Row(running[i].valid, data[i]));
    CopiedTable(cs, sorted, running, data, rows);
    avg := AverageOf(data[n - 1]);
    if AvgCount(cs) > 0 { AverageIs(data[n - 1], AvgTotal(cs), AvgCount(cs)); }
  }

  lemma {:induction false} AverageIs(a: Acct, total: int, count: int)
    requires a.totalBal == total && a.countBal == count > 0
    ensures AverageOf(a) == total / count
  {
  }

  /** The totals of the last row are those of the SQL average. */
  lemma {:induction false} AverageValue(cs: seq<Customer>, sorted: seq<Row<Acct>>)
    requires sorted != [] && SortedBy(sorted, RowKey(NoKey)) && Perm(Map(Live(sorted), Base), Select(cs, Averaged))
    requires AvgCount(cs) > 0
    ensures sorted[|sorted| - 1].valid
    ensures var last := AggregatedRow(sorted, Map(sorted, RowKey(NoKey)), StartAvg, AddAvg, |sorted| - 1).data;
            last.totalBal == AvgTotal(cs) && last.countBal == AvgCount(cs)
  {
    var live := Live(sorted);
    PermLength(Map(live, Base), Select(cs, Averaged));
    LiveMember(sorted, live[0]);
    var i :| 0 <= i < |sorted| && sorted[i].valid && sorted[i].data == live[0];
    ValidSuffix(sorted, i);
    LastRowTotals(sorted, AggregatedRow(sorted, Map(sorted, RowKey(NoKey)), StartAvg, AddAvg, |sorted| - 1).data);
    SumPerm(Map(live, Base), Select(cs, Averaged), (c: Customer) => c.acctBal);
    SumMap(live, Base, (c: Customer) => c.acctBal, Bal);
  }

  // ----- Anti join and grouping -----

  predicate Above(avg: int, a: Acct) { a.acctBal > avg }

  /** The filtered outer table holds the customers above the average, whether or not there are any. */
  lemma {:induction false} OuterRows(cs: seq<Customer>, live: seq<Acct>, avg: int)
    requires Perm(Map(live, Base), Select(cs, Averaged))
    requires AvgCount(cs) > 0 ==> avg == AvgTotal(cs) / AvgCount(cs)
    ensures Perm(Map(Select(live, a => Above(avg, a)), Base), Select(cs, c => Qualifies(cs, c)))
  {
    var p := (c: Customer) => c.acctBal > avg;
    SelectMap(live, Base, p, a => Above(avg, a));
    SelectPerm(Map(live, Base), Select(cs, Averaged), p);
    if AvgCount(cs) > 0 {
      forall c | c in cs ensures Qualifies(cs, c) <==> Averaged(c) && p(c) {
        PositiveSuffices(cs, c);
      }
      SelectBoth(cs, Averaged, p, c => Qualifies(cs, c));
    } else {
      SelectNone(cs, c => Qualifies(cs, c));
    }
  }

  lemma {:induction false} NoOrder(orders: seq<int>, a: Acct)
    ensures WithKey(Map(orders, OrderAcct), CustKey, CustKey(a)) == [] <==> a.custKey !in orders
  {
    WithKeySome(Map(orders, OrderAcct), CustKey, CustKey(a));
    HasKeyMap(orders, OrderAcct, k => [k], CustKey, CustKey(a));
    assert forall k: int :: [k] == CustKey(a) <==> k == a.custKey;
    if a.custKey in orders { assert HasKey(orders, k => [k], CustKey(a)); }
  }

  predicate Orderless(orders: seq<int>, a: Acct) { a.custKey !in orders }

  lemma {:induction false} AntiRows(orders: seq<int>, outer: seq<Acct>)
    ensures AntiJoin(Map(orders, OrderAcct), outer, CustKey) == Select(outer, a => Orderless(orders, a))
  {
    forall a ensures WithKey(Map(orders, OrderAcct), CustKey, CustKey(a)) == [] <==> Orderless(orders, a) {
      NoOrder(orders, a);
    }
    SelectSame(outer, Unmatched(Map(orders, OrderAcct), CustKey), a => Orderless(orders, a));
  }

  /** A sum over the chosen accounts is the sum over the chosen customers. */
  lemma {:induction false} ChosenSum(cs: seq<Customer>, orders: seq<int>, outer: seq<Acct>, chosen: seq<Acct>,
                                     f: Acct -> int, g: Customer -> int, h: Customer -> int)
    requires Perm(Map(outer, Base), Select(cs, c => Qualifies(cs, c)))
    requires Perm(chosen, Select(outer, a => Orderless(orders, a)))
    requires forall a :: f(a) == if Orderless(orders, a) then g(Base(a)) else 0
    requires forall c :: h(c) == if Chosen(cs, orders, c) then g(c) else 0
    ensures Sum(chosen, f) == Sum(cs, h)
  {
    SumPerm(chosen, Select(outer, a => Orderless(orders, a)), f);
    SumSelect(outer, a => Orderless(orders, a), f, f);
    var g' := (c: Customer) => if c.custKey !in orders then g(c) else 0;
    SumMap(outer, Base, g', f);
    SumPerm(Map(outer, Base), Select(cs, c => Qualifies(cs, c)), g');
    SumSelect(cs, c => Qualifies(cs, c), g', h);
  }

  lemma {:induction false} GroupOps()
    ensures FixedWidth(CustKey) && Associative(AddGroup) && KeyStable(CodeKey, StartGroup, AddGroup)
  {
  }

  /** For every code, present or not, the group's count and total are the SQL's. */
  lemma {:induction false} CodeTotals(cs: seq<Customer>, orders: seq<int>, outer: seq<Acct>, chosen: seq<Acct>,
                                      groups: seq<Acct>, code: int)
    requires Perm(Map(outer, Base), Select(cs, c => Qualifies(cs, c)))
    requires Perm(chosen, AntiJoin(Map(orders, OrderAcct), outer, CustKey))
    requires IsGroupBy(chosen, groups, CodeKey, StartGroup, AddGroup)
    ensures Sum(WithKey(groups, CodeKey, [code]), NumCustOf) == NumCust(cs, orders, code)
    ensures Sum(WithKey(groups, CodeKey, [code]), TotBalOf) == TotAcctBal(cs, orders, code)
  {
    AntiRows(orders, outer);
    var one := (a: Acct) => if Orderless(orders, a) then (if a.cntryCode == code then 1 else 0) else 0;
    var bal := (a: Acct) => if Orderless(orders, a) then (if a.cntryCode == code then a.acctBal else 0) else 0;
    forall a | a in chosen ensures Orderless(orders, a) {
      PermMember(chosen, Select(outer, a => Orderless(orders, a)), a);
      SelectMember(outer, a => Orderless(orders, a), a);
    }
    RollUp(chosen, groups, CodeKey, StartGroup, AddGroup, NumCustOf, [code], one);
    RollUp(chosen, groups, CodeKey, StartGroup, AddGroup, TotBalOf, [code], bal);
    ChosenSum(cs, orders, outer, chosen, one, (c: Customer) => if c.cntryCode == code then 1 else 0,
              c => CountTerm(cs, orders, code, c));
    ChosenSum(cs, orders, outer, chosen, bal, (c: Customer) => if c.cntryCode == code then c.acctBal else 0,
              c => BalTerm(cs, orders, code, c));
  }

  /** A group exists exactly when its count is positive. */
  lemma {:induction false} GroupCounts(chosen: seq<Acct>, groups: seq<Acct>, x: Acct)
    requires IsGroupBy(chosen, groups, CodeKey, StartGroup, AddGroup) && x in groups
    ensures x.numCust >= 1
  {
    GroupByKeys(chosen, groups, CodeKey, StartGroup, AddGroup, CodeKey(x));
    var one := (y: Acct) => if CodeKey(y) == CodeKey(x) then 1 else 0;
    GroupTotal(chosen, groups, CodeKey, StartGroup, AddGroup, NumCustOf, x, one);
    SumNonNegative(chosen, one);
  }

  /** The whole query: one row per country code with a positive count, in code order, with the SQL's count and
      total. */
  method Plan(cs: seq<Customer>, orders: seq<int>) returns (result: seq<Acct>)
    requires |cs| >= 2
    ensures SortedBy(result, CodeKey) && UniqueBy(result, CodeKey)
    ensures forall x :: x in result ==>
      x.numCust == NumCust(cs, orders, x.cntryCode) > 0 && x.totBal == TotAcctBal(cs, orders, x.cntryCode)
    ensures forall code :: NumCust(cs, orders, code) > 0 ==> HasKey(result, CodeKey, [code])
  {
    GroupOps();
    var rows, avg := WithAverage(cs);
    var customer := new EncodedTable.FromRows(rows, ZERO);
    customer.Filter(a => Above(avg, a));
    OuterRows(cs, Live(rows), avg);
    ghost var outer := Live(customer.rows);
    var order := new EncodedTable(orders, 0);
    MapItself(outer);
    var remaining := AntiJoinTables(customer.rows, order.rows, Itself, OrderAcct, CustKey, ZERO, 1);
    ghost var chosen := Live(remaining);
    var aj := new EncodedTable.FromRows(remaining, ZERO);
    aj.Aggregate(CodeKey, StartGroup, AddGroup);
    result := Live(aj.rows);
    ResultRows(cs, orders, outer, chosen, result);
  }

  lemma {:induction false} ResultRows(cs: seq<Customer>, orders: seq<int>, outer: seq<Acct>, chosen: seq<Acct>,
                                      groups: seq<Acct>)
    requires Perm(Map(outer, Base), Select(cs, c => Qualifies(cs, c)))
    requires Perm(chosen, AntiJoin(Map(orders, OrderAcct), outer, CustKey))
    requires IsGroupBy(chosen, groups, CodeKey, StartGroup, AddGroup)
    ensures forall x :: x in groups ==>
      x.numCust == NumCust(cs, orders, x.cntryCode) > 0 && x.totBal == TotAcctBal(cs, orders, x.cntryCode)
    ensures forall code :: NumCust(cs, orders, code) > 0 ==> HasKey(groups, CodeKey, [code])
  {
    forall x | x in groups
      ensures x.numCust == NumCust(cs, orders, x.cntryCode) > 0 && x.totBal == TotAcctBal(cs, orders, x.cntryCode)
    {
      assert CodeKey(x) == [x.cntryCode];
      CodeTotals(cs, orders, outer, chosen, groups, x.cntryCode);
      UniqueWithKey(groups, CodeKey, x);
      SumSingle(x, NumCustOf);
      SumSingle(x, TotBalOf);
      GroupCounts(chosen, groups, x);
    }
    forall code | NumCust(cs, orders, code) > 0
      ensures HasKey(groups, CodeKey, [code])
    {
      CodeTotals(cs, orders, outer, chosen, groups, code);
      WithKeySome(groups, CodeKey, [code]);
    }
  }
}
