/** Market concentration (bench/queries/other/market-share.cpp): the Herfindahl-Hirschman index of airport taxi
    companies, from two masked prefix sums read off the last row. */
module MarketShare {
  import opened Bags
  import opened PrefixNetworks
  import opened Tables
  import opened Division

  datatype Trip = Trip(company: int, fare: int, tripType: int)

  /** The working rows. */
  datatype Taxi = Taxi(company: int, fare: int, tripType: int, revenue: int, total: int, sumSq: int)

  // ----- The SQL -----

  predicate AtAirport(t: Trip) { t.tripType == 0 }
  function FareTerm(c: int, t: Trip): int { if AtAirport(t) && t.company == c then t.fare else 0 }
  function AnyFare(t: Trip): int { if AtAirport(t) then t.fare else 0 }

  /** SUM(Fare) of one company. */
  ghost function CompanyRevenue(ts: seq<Trip>, c: int): int { Sum(ts, t => FareTerm(c, t)) }

  ghost function SquareTerm(ts: seq<Trip>, c: int): int { 10000 * CompanyRevenue(ts, c) * CompanyRevenue(ts, c) }

  /** cs lists the companies of GROUP BY, each once, in any order. */
  ghost predicate Companies(ts: seq<Trip>, cs: seq<int>) {
    UniqueBy(cs, Itself) && forall c :: c in cs <==> Serves(ts, c)
  }

  ghost predicate Serves(ts: seq<Trip>, c: int) {
    exists t :: t in ts && AtAirport(t) && t.company == c
  }

  /** SUM(SUM(Fare)) OVER (): the revenues of all companies. */
  ghost function Market(ts: seq<Trip>, cs: seq<int>): int { Sum(cs, c => CompanyRevenue(ts, c)) }

  ghost function Squares(ts: seq<Trip>, cs: seq<int>): int { Sum(cs, c => SquareTerm(ts, c)) }

  /** SUM(10000 * R * R) / (T * T), as SQLite divides, for a market with revenue. */
  ghost predicate IsIndex(ts: seq<Trip>, cs: seq<int>, hhi: int) {
    var t := Market(ts, cs);
    t != 0 ==> t * t > 0 && hhi == Truncated(Squares(ts, cs), t * t)
  }

  // ----- Columns -----

  function ToTaxi(t: Trip): Taxi { Taxi(t.company, t.fare, t.tripType, 0, 0, 0) }
  const AIRPORT := 0
  predicate TaxiAtAirport(x: Taxi) { x.tripType == AIRPORT }
  function Company(x: Taxi): Key { [x.company] }
  function StartRevenue(x: Taxi): Taxi { x.(revenue := x.fare) }
  function AddRevenue(a: Taxi, b: Taxi): Taxi { b.(revenue := a.revenue + b.revenue) }
  function Revenue(x: Taxi): int { x.revenue }
  function Square(x: Taxi): int { x.revenue * x.revenue }
  function GetTotal(x: Taxi): int { x.total }
  function SetTotal(x: Taxi, v: int): Taxi { x.(total := v) }
  function GetSq(x: Taxi): int { x.sumSq }
  function SetSq(x: Taxi, v: int): Taxi { x.(sumSq := v) }
  function CompanyOf(x: Taxi): int { x.company }
  const ZERO := Taxi(0, 0, 0, 0, 0, 0)

  ghost function Airport(ts: seq<Trip>): seq<Taxi> { Select(Map(ts, ToTaxi), TaxiAtAirport) }

  /** A company's row holds its revenue. */
  lemma {:induction false} RevenueRow(ts: seq<Trip>, groups: seq<Taxi>, x: Taxi)
    requires IsGroupBy(Airport(ts), groups, Company, StartRevenue, AddRevenue) && x in groups
    ensures x.revenue == CompanyRevenue(ts, x.company)
  {
    var c := x.company;
    forall y: Taxi ensures Company(y) == Company(x) <==> y.company == c { OneColumn(y.company, c); }
    GroupTotal(Airport(ts), groups, Company, StartRevenue, AddRevenue, Revenue, x, y => TaxiFare(c, y));
    AirportFares(ts, c);
  }

  function TaxiFare(c: int, y: Taxi): int { if y.company == c then y.fare else 0 }

  lemma {:induction false} AirportFares(ts: seq<Trip>, c: int)
    ensures Sum(Airport(ts), y => TaxiFare(c, y)) == CompanyRevenue(ts, c)
  {
    var h := (y: Taxi) => if TaxiAtAirport(y) then TaxiFare(c, y) else 0;
    SumSelect(Map(ts, ToTaxi), TaxiAtAirport, y => TaxiFare(c, y), h);
    SumMap(ts, ToTaxi, h, t => FareTerm(c, t));
  }

  lemma {:induction false} AirportHas(ts: seq<Trip>, c: int)
    ensures HasKey(Airport(ts), Company, [c]) <==> Serves(ts, c)
  {
    MapMember(ts, ToTaxi);
    forall y: Taxi
      ensures y in Airport(ts) <==> y in Map(ts, ToTaxi) && TaxiAtAirport(y)
      ensures Company(y) == [c] <==> y.company == c
    {
      SelectMember(Map(ts, ToTaxi), TaxiAtAirport, y);
      OneColumn(y.company, c);
    }
    if t :| t in ts && AtAirport(t) && t.company == c {
      assert ToTaxi(t) in Airport(ts) && Company(ToTaxi(t)) == [c];
    }
    if HasKey(Airport(ts), Company, [c]) {
      var y :| y in Airport(ts) && Company(y) == [c];
      var t :| t in ts && ToTaxi(t) == y;
    }
  }

  /** The rows that stay valid list the companies. */
  lemma {:induction false} GroupsListCompanies(ts: seq<Trip>, groups: seq<Taxi>)
    requires IsGroupBy(Airport(ts), groups, Company, StartRevenue, AddRevenue)
    ensures Companies(ts, Map(groups, CompanyOf))
  {
    var cs := Map(groups, CompanyOf);
    forall i, j | 0 <= i < j < |cs| ensures Itself(cs[i]) != Itself(cs[j]) {
      assert Company(groups[i]) != Company(groups[j]);
      assert Company(groups[i]) == [cs[i]] && Company(groups[j]) == [cs[j]];
    }
    MapMember(groups, CompanyOf);
    forall c ensures c in cs <==> Serves(ts, c) {
      GroupByKeys(Airport(ts), groups, Company, StartRevenue, AddRevenue, [c]);
      AirportHas(ts, c);
      forall x: Taxi ensures Company(x) == [c] <==> x.company == c { OneColumn(x.company, c); }
      if c in cs {
        var x :| x in groups && CompanyOf(x) == c;
        assert HasKey(groups, Company, [c]);
      }
      if HasKey(groups, Company, [c]) {
        var x :| x in groups && Company(x) == [c];
        assert CompanyOf(x) == c;
      }
    }
  }

  lemma {:induction false} ListingPerm(ts: seq<Trip>, a: seq<int>, b: seq<int>)
    requires Companies(ts, a) && Companies(ts, b)
    ensures Perm(a, b)
  {
    forall c ensures c in a <==> c in b {
      assert c in a <==> Serves(ts, c);
    }
    SameListing(a, b);
  }

  function Square10000(x: Taxi): int { 10000 * Square(x) }

  /** Sums over the groups are the SQL's sums over any listing of the companies. */
  lemma {:induction false} GroupSums(ts: seq<Trip>, groups: seq<Taxi>, cs: seq<int>)
    requires IsGroupBy(Airport(ts), groups, Company, StartRevenue, AddRevenue) && Companies(ts, cs)
    ensures Sum(groups, Revenue) == Market(ts, cs)
    ensures 10000 * Sum(groups, Square) == Squares(ts, cs)
  {
    var listed := Map(groups, CompanyOf);
    GroupsListCompanies(ts, groups);
    ListingPerm(ts, listed, cs);
    forall x | x in groups
      ensures Revenue(x) == CompanyRevenue(ts, CompanyOf(x)) && Square10000(x) == SquareTerm(ts, CompanyOf(x))
    {
      RevenueRow(ts, groups, x);
    }
    SumMap(groups, CompanyOf, c => CompanyRevenue(ts, c), Revenue);
    SumPerm(listed, cs, c => CompanyRevenue(ts, c));
    SumScale(groups, 10000, Square, Square10000);
    SumMap(groups, CompanyOf, c => SquareTerm(ts, c), Square10000);
    SumPerm(listed, cs, c => SquareTerm(ts, c));
  }

  lemma {:induction false} MarketTotal(ts: seq<Trip>, cs: seq<int>)
    requires Companies(ts, cs)
    ensures Market(ts, cs) == Sum(ts, AnyFare)
  {
    var term := (c: int, t: Trip) => FareTerm(c, t);
    SumSame(cs, c => CompanyRevenue(ts, c), RowSums(ts, term)) by {
      forall c ensures CompanyRevenue(ts, c) == RowSums(ts, term)(c) {
        SumSame(ts, t => FareTerm(c, t), Across(term, c));
      }
    }
    SumSwap(cs, ts, term);
    forall t | t in ts ensures ColumnSums(cs, term)(t) == AnyFare(t) {
      if AtAirport(t) {
        assert t.company in cs;
        UniqueWithKey(cs, Itself, t.company);
        SumSelect(cs, KeyIs(Itself, t.company), _ => t.fare, Down(term, t));
        SumSingle(t.company, _ => t.fare);
      } else {
        SumSame(cs, Down(term, t), c => 0);
        SumZero(cs);
      }
    }
    SumSame(ts, ColumnSums(cs, term), AnyFare);
  }

  // ----- The plan -----

  lemma {:induction false} Ops()
    ensures Associative(AddRevenue) && KeyStable(Company, StartRevenue, AddRevenue)
  {
  }

  /** Lines 78-92: both masked prefix sums and the last row, for any contents of the invalid rows. */
  method LastSums(rows: seq<Row<Taxi>>) returns (total: int, sumSq: int)
    requires |rows| >= 1
    ensures total == Sum(Live(rows), Revenue) && sumSq == Sum(Live(rows), Square)
  {
    var t := new EncodedTable.FromRows(rows, ZERO);
    t.Assign((r: Row<Taxi>) => SetTotal(r.data, (if r.valid then 1 else 0) * r.data.revenue));
    ghost var masked := t.rows;
    SumMasked(rows, masked, GetTotal, Revenue);
    t.PrefixSum(GetTotal, SetTotal);
    assert masked[..|rows|] == masked;
    ghost var summed := t.rows;
    t.Assign((r: Row<Taxi>) => SetSq(r.data, (if r.valid then 1 else 0) * r.data.revenue * r.data.revenue));
    ghost var squared := t.rows;
    SumMasked(rows, squared, GetSq, Square);
    t.PrefixSum(GetSq, SetSq);
    assert squared[..|rows|] == squared;
    t.Tail(1);
    total, sumSq := t.rows[0].data.total, t.rows[0].data.sumSq;
  }

  /** Lines 71-76: revenue per company. */
  method CompanyTable(ts: seq<Trip>) returns (rows: seq<Row<Taxi>>)
    requires |ts| >= 2
    ensures |rows| == |ts| && IsGroupBy(Airport(ts), Live(rows), Company, StartRevenue, AddRevenue)
  {
    Ops();
    var t := new EncodedTable(Map(ts, ToTaxi), ZERO);
    t.Filter(TaxiAtAirport);
    t.Aggregate(Company, StartRevenue, AddRevenue);
    rows := t.rows;
  }

  lemma {:induction false} SquarePositive(x: int)
    ensures x * x >= 0 && (x != 0 ==> x * x > 0)
  {
  }

  /** The whole query: for every market with revenue, SUM(10000 * R * R) / (T * T) over the companies. */
  method Plan(ts: seq<Trip>) returns (hhi: int)
    requires |ts| >= 2
    ensures exists cs :: Companies(ts, cs)
    ensures forall cs :: Companies(ts, cs) ==> IsIndex(ts, cs, hhi)
  {
    var rows := CompanyTable(ts);
    var total, sumSq := LastSums(rows);
    SquarePositive(total);
    hhi := Quotient(sumSq * 10000, total * total);
    GroupsListCompanies(ts, Live(rows));
    forall cs | Companies(ts, cs) ensures IsIndex(ts, cs, hhi) {
      IndexOf(ts, Live(rows), cs);
    }
  }

  lemma {:induction false} IndexOf(ts: seq<Trip>, groups: seq<Taxi>, cs: seq<int>)
    requires IsGroupBy(Airport(ts), groups, Company, StartRevenue, AddRevenue) && Companies(ts, cs)
    ensures var total := Sum(groups, Revenue);
            total * total >= 0 && IsIndex(ts, cs, Quotient(Sum(groups, Square) * 10000, total * total))
  {
    GroupSums(ts, groups, cs);
    SquarePositive(Sum(groups, Revenue));
    forall x | x in groups ensures Square(x) >= 0 { SquarePositive(x.revenue); }
    SumNonNegative(groups, Square);
  }
}
