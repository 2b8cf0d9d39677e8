/** TPC-H Q17 (bench/queries/tpch/q17.cpp): small-quantity-order revenue, clause 2.4.17 of the TPC-H
    Specification v3.0.1. The correlated average is a group-by joined back, with two integer divisions. */
module Q17 {
  import opened Bags
  import opened PrefixNetworks
  import opened Tables
  import opened Joins
  import opened Division

  datatype LineItem = LineItem(partKey: int, quantity: int, extendedPrice: int)
  datatype Part = Part(partKey: int, brand: int, container: int)

  /** A line item joined with its part, with the columns the plan adds. */
  datatype Item = Item(partKey: int, quantity: int, extendedPrice: int, brand: int, container: int,
                       sumQuantity: int, countQuantity: int, avgQuantity: int, sumExtendedPrice: int)

  // ----- The SQL -----

  function QtyTerm(k: int, l: LineItem): int { if l.partKey == k then l.quantity else 0 }
  function OneTerm(k: int, l: LineItem): int { if l.partKey == k then 1 else 0 }
  ghost function SumQty(ls: seq<LineItem>, k: int): int { Sum(ls, l => QtyTerm(k, l)) }
  ghost function CountQty(ls: seq<LineItem>, k: int): int { Sum(ls, l => OneTerm(k, l)) }

  /** CAST(x AS INTEGER): toward zero. */
  function Cast(x: real): int { if x >= 0.0 then x.Floor else -((-x).Floor) }

  /** l.Quantity < CAST(0.2 * avg(...) AS INTEGER); the average of no rows is NULL. */
  ghost predicate Small(ls: seq<LineItem>, k: int, quantity: int) {
    CountQty(ls, k) > 0 && quantity < Cast(0.2 * (SumQty(ls, k) as real / CountQty(ls, k) as real))
  }

  /** One tuple of the FROM clause: its price when it satisfies the WHERE clause, with `small` for the last test. */
  ghost function Term(small: (int, int) -> bool, brand: int, container: int, l: LineItem, p: Part): int {
    if p.partKey == l.partKey && p.brand == brand && p.container == container && small(p.partKey, l.quantity)
    then l.extendedPrice else 0
  }

  ghost function OverParts(small: (int, int) -> bool, ps: seq<Part>, brand: int, container: int, l: LineItem): int {
    Sum(ps, p => Term(small, brand, container, l, p))
  }

  /** Prices summed over FROM lineitem, part. */
  ghost function PriceSum(small: (int, int) -> bool, ls: seq<LineItem>, ps: seq<Part>, brand: int,
                          container: int): int
  {
    Sum(ls, l => OverParts(small, ps, brand, container, l))
  }

  ghost function SmallTest(ls: seq<LineItem>): (int, int) -> bool { (k, q) => Small(ls, k, q) }

  /** sum(l.ExtendedPrice). */
  ghost function Revenue(ls: seq<LineItem>, ps: seq<Part>, brand: int, container: int): int {
    PriceSum(SmallTest(ls), ls, ps, brand, container)
  }

  // ----- Rounding down instead of casting -----

  /** The test of the plan: the fifth of the average rounded down. */
  ghost predicate FloorSmall(ls: seq<LineItem>, k: int, quantity: int) {
    CountQty(ls, k) > 0 && quantity < SumQty(ls, k) / (5 * CountQty(ls, k))
  }

  /** The quantities the cast includes and rounding down does not: the rounded-down fifth itself, of a negative sum
      that does not divide. */
  ghost predicate RoundsUp(ls: seq<LineItem>, k: int, quantity: int) {
    var s, d := SumQty(ls, k), 5 * CountQty(ls, k);
    d > 0 && s < 0 && s % d != 0 && quantity == s / d
  }

  ghost function FloorTest(ls: seq<LineItem>): (int, int) -> bool { (k, q) => FloorSmall(ls, k, q) }
  ghost function RoundTest(ls: seq<LineItem>): (int, int) -> bool { (k, q) => RoundsUp(ls, k, q) }

  /** The prices of the tuples that only the cast includes. */
  ghost function Missed(ls: seq<LineItem>, ps: seq<Part>, brand: int, container: int): int {
    PriceSum(RoundTest(ls), ls, ps, brand, container)
  }

  lemma {:induction false} CastIs(s: int, c: int)
    requires c > 0
    ensures Cast(0.2 * (s as real / c as real)) == Truncated(s, 5 * c)
  {
    if s >= 0 {
      FifthOfAverage(s, c);
    } else {
      FifthOfAverage(-s, c);
      Negated(s as real, c as real);
      assert (-s) as real == -(s as real);
      QuotientSign(s, 5 * c);
    }
  }

  lemma {:induction false} Negated(s: real, c: real)
    requires c > 0.0
    ensures 0.2 * ((-s) / c) == -(0.2 * (s / c))
    ensures s < 0.0 ==> 0.2 * (s / c) < 0.0
  {
    assert ((-s) / c) * c == -s && (s / c) * c == s;
    assert (-s) / c == -(s / c);
  }

  lemma {:induction false} QuotientSign(s: int, d: int)
    requires s < 0 && d > 0
    ensures Truncated(s, d) == -((-s) / d)
  {
  }

  lemma {:induction false} SmallIs(ls: seq<LineItem>, k: int, q: int)
    ensures Small(ls, k, q) <==> FloorSmall(ls, k, q) || RoundsUp(ls, k, q)
    ensures !(FloorSmall(ls, k, q) && RoundsUp(ls, k, q))
  {
    if CountQty(ls, k) > 0 {
      CastIs(SumQty(ls, k), CountQty(ls, k));
      RoundingAgrees(SumQty(ls, k), 5 * CountQty(ls, k));
    }
  }

  /** The plan's sum and what it misses make up the SQL's sum. */
  lemma {:induction false} RevenueSplit(ls: seq<LineItem>, ps: seq<Part>, brand: int, container: int)
    ensures Revenue(ls, ps, brand, container)
         == PriceSum(FloorTest(ls), ls, ps, brand, container) + Missed(ls, ps, brand, container)
  {
    forall l: LineItem
      ensures OverParts(SmallTest(ls), ps, brand, container, l)
           == OverParts(FloorTest(ls), ps, brand, container, l) + OverParts(RoundTest(ls), ps, brand, container, l)
    {
      forall p: Part
        ensures Term(SmallTest(ls), brand, container, l, p)
             == Term(FloorTest(ls), brand, container, l, p) + Term(RoundTest(ls), brand, container, l, p)
      {
        SmallIs(ls, p.partKey, l.quantity);
      }
      SumPlus(ps, p => Term(FloorTest(ls), brand, container, l, p), p => Term(RoundTest(ls), brand, container, l, p),
              p => Term(SmallTest(ls), brand, container, l, p));
    }
    SumPlus(ls, l => OverParts(FloorTest(ls), ps, brand, container, l),
            l => OverParts(RoundTest(ls), ps, brand, container, l),
            l => OverParts(SmallTest(ls), ps, brand, container, l));
  }

  /** Nothing is missed when no line item has a quantity the two tests disagree on. */
  lemma {:induction false} NothingMissed(ls: seq<LineItem>, ps: seq<Part>, brand: int, container: int)
    requires forall l :: l in ls ==> !RoundsUp(ls, l.partKey, l.quantity)
    ensures Missed(ls, ps, brand, container) == 0
  {
    forall l | l in ls ensures OverParts(RoundTest(ls), ps, brand, container, l) == 0 {
      SumSame(ps, p => Term(RoundTest(ls), brand, container, l, p), p => 0);
      SumZero(ps);
    }
    SumSame(ls, l => OverParts(RoundTest(ls), ps, brand, container, l), l => 0);
    SumZero(ls);
  }

  /** Non-negative quantities never round up. */
  lemma {:induction false} NonNegativeSame(ls: seq<LineItem>, k: int, q: int)
    requires forall l :: l in ls ==> l.quantity >= 0
    ensures !RoundsUp(ls, k, q)
  {
    SumNonNegative(ls, l => QtyTerm(k, l));
  }

  // ----- The two divisions -----

  lemma {:induction false} NestedDivision(s: int, c: int)
    requires c > 0
    ensures (s / 5) / c == s / (5 * c)
  {
    var q := s / 5;
    var a, r := q / c, q % c;
    assert q == c * a + r && 0 <= r < c;
    var r' := 5 * r + s % 5;
    assert 5 * q == 5 * (c * a) + 5 * r;
    assert (5 * c) * a == 5 * (c * a);
    DivideIs(s, 5 * c, a, r');
  }

  lemma {:induction false} FloorIs(x: real, q: int)
    requires q as real <= x < q as real + 1.0
    ensures x.Floor == q
  {
  }

  lemma {:induction false} FifthOfAverage(s: int, c: int)
    requires c > 0 && s >= 0
    ensures Cast(0.2 * (s as real / c as real)) == s / (5 * c)
  {
    var q, r := s / (5 * c), s % (5 * c);
    var x, d := 0.2 * (s as real / c as real), (5 * c) as real;
    assert s == (5 * c) * q + r;
    Ratio(s as real, c as real, x);
    assert d == 5.0 * c as real;
    assert d * x == s as real;
    assert s as real == d * q as real + r as real by {
      assert ((5 * c) * q) as real == (5 * c) as real * q as real;
    }
    Bracket(d, x, q as real, r as real);
    FloorIs(x, q);
    assert q >= 0 by {
      if q <= -1 { MulAtLeast(5 * c, q); }
    }
  }

  lemma {:induction false} Ratio(s: real, c: real, x: real)
    requires c > 0.0 && x == 0.2 * (s / c)
    ensures (5.0 * c) * x == s
  {
    assert (s / c) * c == s;
  }

  lemma {:induction false} Below1(d: real, t: real, r: real)
    requires d > 0.0 && d * t == r && 0.0 <= r < d
    ensures 0.0 <= t < 1.0
  {
    if t >= 1.0 {
      assert false;
    }
  }

  lemma {:induction false} Bracket(d: real, x: real, q: real, r: real)
    requires d > 0.0 && d * x == d * q + r && 0.0 <= r < d
    ensures q <= x < q + 1.0
  {
    var t := x - q;
    assert d * t == d * x - d * q;
    Below1(d, t, r);
  }

  // ----- Columns -----

  function PartItem(p: Part): Item { Item(p.partKey, 0, 0, p.brand, p.container, 0, 0, 0, 0) }
  function LineOf(l: LineItem): Item { Item(l.partKey, l.quantity, l.extendedPrice, 0, 0, 0, 0, 0, 0) }
  function PartKey(x: Item): Key { [x.partKey] }
  function PartKeyOf(p: Part): int { p.partKey }
  function CopyPart(a: Item, b: Item): Item { b.(brand := a.brand, container := a.container) }
  function StartSum(x: Item): Item { x.(sumQuantity := x.quantity, countQuantity := 1) }
  function AddSum(a: Item, b: Item): Item {
    b.(sumQuantity := a.sumQuantity + b.sumQuantity, countQuantity := a.countQuantity + b.countQuantity)
  }
  function SumOf(x: Item): int { x.sumQuantity }
  function CountOf(x: Item): int { x.countQuantity }
  function NoKey(x: Item): Key { [] }
  function Fifth(x: Item): Item { x.(sumQuantity := x.sumQuantity / 5) }
  function Average(x: Item): Item {
    x.(avgQuantity := Quotient(x.sumQuantity, if x.countQuantity < 0 then 0 else x.countQuantity))
  }
  function CopyAvg(a: Item, b: Item): Item { b.(avgQuantity := a.avgQuantity) }
  predicate Below(x: Item) { x.quantity < x.avgQuantity }
  function Price(x: Item): int { x.extendedPrice }
  function GetSum(x: Item): int { x.sumExtendedPrice }
  function SetSum(x: Item, v: int): Item { x.(sumExtendedPrice := v) }
  predicate IsBrand(brand: int, x: Item) { x.brand == brand }
  predicate IsContainer(container: int, x: Item) { x.container == container }
  const ZERO := Item(0, 0, 0, 0, 0, 0, 0, 0, 0)

  // ----- The first join -----

  ghost function Plain(ps: seq<Part>, ls: seq<LineItem>): seq<Item> {
    InnerJoin(Map(ps, PartItem), Map(ls, LineOf), PartKey, CopyPart)
  }

  lemma {:induction false} PartsUnique(ps: seq<Part>)
    requires UniqueBy(ps, PartKeyOf)
    ensures UniqueBy(Map(ps, PartItem), PartKey)
  {
    UniqueMap(ps, PartItem, (p: Part) => [p.partKey], PartKey);
  }

  function OfPart(k: int, f: Item -> int): Item -> int { (x: Item) => if x.partKey == k then f(x) else 0 }

  /** Over the rows of a part that the part table has, a sum over the join is the sum over its line items. */
  lemma {:induction false} PlainSum(ps: seq<Part>, ls: seq<LineItem>, k: int, f: Item -> int, g: LineItem -> int)
    requires UniqueBy(ps, PartKeyOf) && HasKey(ps, PartKeyOf, k)
    requires forall a, b :: f(CopyPart(a, b)) == f(b)
    requires forall l :: g(l) == if l.partKey == k then f(LineOf(l)) else 0
    ensures Sum(Plain(ps, ls), OfPart(k, f)) == Sum(ls, g)
  {
    var ll, rr := Map(ps, PartItem), Map(ls, LineOf);
    PartsUnique(ps);
    var p :| p in ps && p.partKey == k;
    MapMember(ps, PartItem);
    assert PartItem(p) in ll;
    UniqueWithKey(ll, PartKey, PartItem(p));
    SumSingle(PartItem(p), x => 1);
    var w := OfPart(k, f);
    forall r: Item ensures w(r) == w(r) * Sum(WithKey(ll, PartKey, PartKey(r)), x => 1) {
      OneColumn(r.partKey, k);
    }
    JoinSum(ll, rr, PartKey, CopyPart, w, w, x => 1, w);
    SumMap(ls, LineOf, w, g);
  }

  /** The parts that occur in the join. */
  lemma {:induction false} PlainHas(ps: seq<Part>, ls: seq<LineItem>, k: int)
    ensures HasKey(Plain(ps, ls), PartKey, [k]) <==> HasKey(ps, PartKeyOf, k) && exists l :: l in ls && l.partKey == k
  {
    JoinColumnOf(Map(ps, PartItem), ls, LineOf, PartKey, CopyPart, PartKey, [k]);
    HasKeyMap(ps, PartItem, (p: Part) => [p.partKey], PartKey, [k]);
    assert forall p: Part :: [p.partKey] == [k] <==> p.partKey == k;
    forall l: LineItem ensures PartKey(LineOf(l)) == [k] <==> l.partKey == k { OneColumn(LineOf(l).partKey, k); }
    if HasKey(ps, PartKeyOf, k) {
      var p :| p in ps && p.partKey == k;
      assert HasKey(ps, (p: Part) => [p.partKey], [k]);
    }
  }

  // ----- The averages -----

  /** What the subquery table holds for a part, after the divisions. */
  ghost predicate HasAverage(ls: seq<LineItem>, x: Item) {
    && CountQty(ls, x.partKey) > 0
    && forall q :: q < x.avgQuantity <==> FloorSmall(ls, x.partKey, q)
  }

  lemma {:induction false} GroupPart(ps: seq<Part>, ls: seq<LineItem>, joined: seq<Item>, groups: seq<Item>, x: Item)
    requires Perm(joined, Plain(ps, ls)) && IsGroupBy(joined, groups, PartKey, StartSum, AddSum) && x in groups
    ensures HasKey(ps, PartKeyOf, x.partKey) && exists l :: l in ls && l.partKey == x.partKey
  {
    var k := x.partKey;
    assert PartKey(x) == [k];
    GroupByKeys(joined, groups, PartKey, StartSum, AddSum, [k]);
    HasKeyPerm(joined, Plain(ps, ls), PartKey, [k]);
    PlainHas(ps, ls, k);
  }

  function Quantity(x: Item): int { x.quantity }
  function One(x: Item): int { 1 }

  lemma {:induction false} GroupColumn(ps: seq<Part>, ls: seq<LineItem>, joined: seq<Item>, groups: seq<Item>, x: Item,
                                       h: Item -> int, f: Item -> int, g: LineItem -> int)
    requires UniqueBy(ps, PartKeyOf) && Perm(joined, Plain(ps, ls)) && HasKey(ps, PartKeyOf, x.partKey)
    requires IsGroupBy(joined, groups, PartKey, StartSum, AddSum) && x in groups
    requires forall a, b :: h(AddSum(a, b)) == h(a) + h(b)
    requires forall y :: h(StartSum(y)) == f(y)
    requires forall a, b :: f(CopyPart(a, b)) == f(b)
    requires forall l :: g(l) == if l.partKey == x.partKey then f(LineOf(l)) else 0
    ensures h(x) == Sum(ls, g)
  {
    var k := x.partKey;
    forall y: Item ensures PartKey(y) == PartKey(x) <==> y.partKey == k { OneColumn(y.partKey, k); }
    GroupTotal(joined, groups, PartKey, StartSum, AddSum, h, x, OfPart(k, f));
    SumPerm(joined, Plain(ps, ls), OfPart(k, f));
    PlainSum(ps, ls, k, f, g);
  }

  lemma {:induction false} GroupSums(ps: seq<Part>, ls: seq<LineItem>, joined: seq<Item>, groups: seq<Item>, x: Item)
    requires UniqueBy(ps, PartKeyOf) && Perm(joined, Plain(ps, ls))
    requires IsGroupBy(joined, groups, PartKey, StartSum, AddSum) && x in groups
    ensures x.sumQuantity == SumQty(ls, x.partKey) && x.countQuantity == CountQty(ls, x.partKey)
    ensures HasKey(ps, PartKeyOf, x.partKey) && CountQty(ls, x.partKey) > 0
  {
    var k := x.partKey;
    GroupPart(ps, ls, joined, groups, x);
    GroupColumn(ps, ls, joined, groups, x, SumOf, Quantity, l => QtyTerm(k, l));
    GroupColumn(ps, ls, joined, groups, x, CountOf, One, l => OneTerm(k, l));
    var l :| l in ls && l.partKey == k;
    SumNonNegative(ls, l => OneTerm(k, l));
    assert OneTerm(k, l) == 1;
  }

  lemma {:induction false} AverageOf(ps: seq<Part>, ls: seq<LineItem>, joined: seq<Item>, groups: seq<Item>, x: Item)
    requires UniqueBy(ps, PartKeyOf) && Perm(joined, Plain(ps, ls))
    requires IsGroupBy(joined, groups, PartKey, StartSum, AddSum) && x in groups
    ensures HasAverage(ls, Average(Fifth(x))) && Average(Fifth(x)).partKey == x.partKey
  {
    GroupSums(ps, ls, joined, groups, x);
    NestedDivision(x.sumQuantity, x.countQuantity);
  }

  /** At most one valid row per part: the last |Part| rows hold them all. */
  lemma {:induction false} GroupsFit(ps: seq<Part>, ls: seq<LineItem>, joined: seq<Item>, groups: seq<Item>)
    requires UniqueBy(ps, PartKeyOf) && Perm(joined, Plain(ps, ls))
    requires IsGroupBy(joined, groups, PartKey, StartSum, AddSum)
    ensures |groups| <= |ps|
  {
    forall x | x in groups ensures HasKey(ps, (p: Part) => [p.partKey], PartKey(x)) {
      GroupSums(ps, ls, joined, groups, x);
      var p :| p in ps && p.partKey == x.partKey;
      assert [p.partKey] == PartKey(x);
    }
    UniqueBound(groups, PartKey, ps, (p: Part) => [p.partKey]);
  }

  // ----- Joining back -----

  function SetAvg(avg: int -> int): Item -> Item { (x: Item) => x.(avgQuantity := avg(x.partKey)) }

  /** A part's average as the subquery table has it. */
  ghost function AvgFrom(table: seq<Item>): int -> int {
    k => var m := WithKey(table, PartKey, [k]); if m == [] then 0 else m[0].avgQuantity
  }

  lemma {:induction false} JoinBackRow(table: seq<Item>, y: Item)
    requires HasKey(table, PartKey, PartKey(y))
    ensures JoinOne(table, PartKey, CopyAvg, y) == [SetAvg(AvgFrom(table))(y)]
  {
    WithKeySome(table, PartKey, PartKey(y));
    assert PartKey(y) == [y.partKey];
  }

  /** Every joined line item finds its part's row, so joining back only writes the average. */
  lemma {:induction false} JoinBack(table: seq<Item>, items: seq<Item>)
    requires forall y :: y in items ==> HasKey(table, PartKey, PartKey(y))
    ensures InnerJoin(table, items, PartKey, CopyAvg) == Map(items, SetAvg(AvgFrom(table)))
  {
    forall y | y in items ensures JoinOne(table, PartKey, CopyAvg, y) == [SetAvg(AvgFrom(table))(y)] {
      JoinBackRow(table, y);
    }
    FlatMapMaps(items, y => JoinOne(table, PartKey, CopyAvg, y), SetAvg(AvgFrom(table)));
  }

  ghost predicate SmallItem(ls: seq<LineItem>, x: Item) { FloorSmall(ls, x.partKey, x.quantity) }

  /** Comparing with the copied average is the SQL comparison. */
  lemma {:induction false} BelowIsSmall(ls: seq<LineItem>, table: seq<Item>, y: Item)
    requires HasKey(table, PartKey, PartKey(y)) && forall x :: x in table ==> HasAverage(ls, x)
    ensures Below(SetAvg(AvgFrom(table))(y)) <==> SmallItem(ls, y)
  {
    WithKeySome(table, PartKey, PartKey(y));
    assert PartKey(y) == [y.partKey];
    var x := WithKey(table, PartKey, [y.partKey])[0];
    WithKeyMember(table, PartKey, [y.partKey], x);
    OneColumn(x.partKey, y.partKey);
  }

  predicate Picked(brand: int, container: int, x: Item) { IsBrand(brand, x) && IsContainer(container, x) }

  ghost function SmallPrice(ls: seq<LineItem>, x: Item): int { if SmallItem(ls, x) then x.extendedPrice else 0 }
  function PickBit(brand: int, container: int, x: Item): int { if Picked(brand, container, x) then 1 else 0 }

  ghost function PickedPrice(ls: seq<LineItem>, brand: int, container: int, x: Item): int {
    if Picked(brand, container, x) then SmallPrice(ls, x) else 0
  }

  function PickedPart(brand: int, container: int, k: int, p: Part): int {
    if p.partKey == k && p.brand == brand && p.container == container then 1 else 0
  }

  /** Prices summed over the first join are the sum over line items and parts. */
  lemma {:induction false} RevenueOfJoin(ls: seq<LineItem>, ps: seq<Part>, brand: int, container: int)
    requires UniqueBy(ps, PartKeyOf)
    ensures Sum(Plain(ps, ls), x => PickedPrice(ls, brand, container, x))
         == PriceSum(FloorTest(ls), ls, ps, brand, container)
  {
    var ll, rr := Map(ps, PartItem), Map(ls, LineOf);
    PartsUnique(ps);
    var g := r => PickedOf(ls, ll, brand, container, r);
    JoinSum(ll, rr, PartKey, CopyPart, x => PickedPrice(ls, brand, container, x), x => SmallPrice(ls, x),
            x => PickBit(brand, container, x), g);
    forall l: LineItem ensures g(LineOf(l)) == OverParts(FloorTest(ls), ps, brand, container, l) {
      PartsOf(ls, ps, brand, container, l);
    }
    SumMap(ls, LineOf, g, l => OverParts(FloorTest(ls), ps, brand, container, l));
  }

  ghost function PickedOf(ls: seq<LineItem>, ll: seq<Item>, brand: int, container: int, r: Item): int {
    SmallPrice(ls, r) * Sum(WithKey(ll, PartKey, PartKey(r)), x => PickBit(brand, container, x))
  }

  function BitOf(brand: int, container: int, k: int, x: Item): int {
    if x.partKey == k then PickBit(brand, container, x) else 0
  }

  lemma {:induction false} TermProduct(ls: seq<LineItem>, brand: int, container: int, l: LineItem, p: Part)
    ensures Term(FloorTest(ls), brand, container, l, p)
         == SmallPrice(ls, LineOf(l)) * PickedPart(brand, container, l.partKey, p)
  {
  }

  /** The parts of a key that are picked, counted in the join's left rows. */
  lemma {:induction false} PickedParts(ps: seq<Part>, brand: int, container: int, k: int)
    ensures Sum(WithKey(Map(ps, PartItem), PartKey, [k]), x => PickBit(brand, container, x))
         == Sum(ps, p => PickedPart(brand, container, k, p))
  {
    forall x: Item
      ensures BitOf(brand, container, k, x) == if KeyIs(PartKey, [k])(x) then PickBit(brand, container, x) else 0
    {
      OneColumn(x.partKey, k);
      assert PartKey(x) == [x.partKey];
    }
    SumSelect(Map(ps, PartItem), KeyIs(PartKey, [k]), x => PickBit(brand, container, x),
              x => BitOf(brand, container, k, x));
    SumMap(ps, PartItem, x => BitOf(brand, container, k, x), p => PickedPart(brand, container, k, p));
  }

  lemma {:induction false} PartsOf(ls: seq<LineItem>, ps: seq<Part>, brand: int, container: int, l: LineItem)
    ensures PickedOf(ls, Map(ps, PartItem), brand, container, LineOf(l))
         == OverParts(FloorTest(ls), ps, brand, container, l)
  {
    var k := l.partKey;
    assert PartKey(LineOf(l)) == [k];
    PickedParts(ps, brand, container, k);
    forall p: Part
      ensures Term(FloorTest(ls), brand, container, l, p)
           == SmallPrice(ls, LineOf(l)) * PickedPart(brand, container, k, p)
    {
      TermProduct(ls, brand, container, l, p);
    }
    SumScale(ps, SmallPrice(ls, LineOf(l)), p => PickedPart(brand, container, k, p),
             p => Term(FloorTest(ls), brand, container, l, p));
  }

  /** The rows that reach the final sum carry the SQL's revenue. */
  lemma {:induction false} FinalSum(ls: seq<LineItem>, ps: seq<Part>, brand: int, container: int, joined: seq<Item>,
                                    picked: seq<Item>, table: seq<Item>, final: seq<Item>)
    requires UniqueBy(ps, PartKeyOf) && Perm(joined, Plain(ps, ls))
    requires picked == Select(joined, x => Picked(brand, container, x))
    requires forall y :: y in joined ==> HasKey(table, PartKey, PartKey(y))
    requires forall x :: x in table ==> HasAverage(ls, x)
    requires Perm(final, InnerJoin(table, picked, PartKey, CopyAvg))
    ensures Sum(Select(final, Below), Price) == PriceSum(FloorTest(ls), ls, ps, brand, container)
  {
    forall y ensures y in picked <==> y in joined && Picked(brand, container, y) {
      SelectMember(joined, x => Picked(brand, container, x), y);
    }
    var price := (x: Item) => if Below(x) then x.extendedPrice else 0;
    SumSelect(final, Below, Price, price);
    SumPerm(final, InnerJoin(table, picked, PartKey, CopyAvg), price);
    JoinBack(table, picked);
    forall y | y in picked ensures SmallPrice(ls, y) == price(SetAvg(AvgFrom(table))(y)) {
      BelowIsSmall(ls, table, y);
    }
    SumMap(picked, SetAvg(AvgFrom(table)), price, x => SmallPrice(ls, x));
    SumSelect(joined, x => Picked(brand, container, x), x => SmallPrice(ls, x),
              x => PickedPrice(ls, brand, container, x));
    SumPerm(joined, Plain(ps, ls), x => PickedPrice(ls, brand, container, x));
    RevenueOfJoin(ls, ps, brand, container);
  }

  // ----- The plan -----

  lemma {:induction false} Ops()
    ensures FixedWidth(PartKey) && CopyColumns(CopyPart, PartKey) && CopyColumns(CopyAvg, PartKey)
    ensures Associative(AddSum) && KeyStable(PartKey, StartSum, AddSum)
  {
  }

  /** Lines 108-110: parts joined with their line items. */
  method JoinParts(ls: seq<LineItem>, ps: seq<Part>) returns (rows: seq<Row<Item>>)
    requires |ls| >= 2 && UniqueBy(ps, PartKeyOf)
    ensures |rows| >= |ls| && Perm(Live(rows), Plain(ps, ls))
  {
    Ops();
    PartsUnique(ps);
    var part := new EncodedTable(ps, Part(0, 0, 0));
    var item := new EncodedTable(ls, LineItem(0, 0, 0));
    rows := InnerJoinTables(part.rows, item.rows, PartItem, LineOf, PartKey, CopyPart, ZERO, 3);
  }

  lemma {:induction false} AveragedRows(ls: seq<LineItem>, ps: seq<Part>, joined: seq<Item>, groups: seq<Item>,
                                        table: seq<Item>)
    requires UniqueBy(ps, PartKeyOf) && Perm(joined, Plain(ps, ls))
    requires IsGroupBy(joined, groups, PartKey, StartSum, AddSum)
    requires Perm(table, Map(groups, x => Average(Fifth(x))))
    ensures UniqueBy(table, PartKey) && forall x :: x in table ==> HasAverage(ls, x)
    ensures forall y :: y in joined ==> HasKey(table, PartKey, PartKey(y))
  {
    var m := Map(groups, x => Average(Fifth(x)));
    UniqueMap(groups, x => Average(Fifth(x)), PartKey, PartKey);
    UniquePerm(m, table, PartKey);
    MapMember(groups, x => Average(Fifth(x)));
    forall x | x in table ensures HasAverage(ls, x) {
      PermMember(table, m, x);
      var y :| y in groups && Average(Fifth(y)) == x;
      AverageOf(ps, ls, joined, groups, y);
    }
    forall y | y in joined ensures HasKey(table, PartKey, PartKey(y)) {
      HasKeyMap(groups, x => Average(Fifth(x)), PartKey, PartKey, PartKey(y));
      HasKeyPerm(table, m, PartKey, PartKey(y));
    }
  }

  /** Sorting on VALID and cutting to n rows keeps at most n valid rows. */
  method SortAndCut(rows: seq<Row<Item>>, n: nat) returns (table: seq<Row<Item>>)
    requires |Live(rows)| <= n <= |rows|
    ensures Perm(Live(table), Live(rows))
  {
    var sub := new EncodedTable.FromRows(rows, ZERO);
    sub.SortValid(NoKey);
    LivePerm(sub.rows, rows);
    PermLength(Live(sub.rows), Live(rows));
    TailKeepsLive(sub.rows, NoKey, n);
    sub.Tail(n);
    table := sub.rows;
  }

  /** Lines 127-132: sums and counts per part, cut to the size of the part table. */
  method PartGroups(rows: seq<Row<Item>>, ghost ls: seq<LineItem>, ps: seq<Part>)
    returns (table: seq<Row<Item>>, ghost groups: seq<Item>)
    requires |rows| >= 2 && |rows| >= |ps| && UniqueBy(ps, PartKeyOf) && Perm(Live(rows), Plain(ps, ls))
    ensures IsGroupBy(Live(rows), groups, PartKey, StartSum, AddSum) && Perm(Live(table), groups)
  {
    Ops();
    var sub := new EncodedTable.FromRows(rows, ZERO);
    sub.Aggregate(PartKey, StartSum, AddSum);
    groups := Live(sub.rows);
    GroupsFit(ps, ls, Live(rows), groups);
    table := SortAndCut(sub.rows, |ps|);
  }

  /** Lines 134-135: both divisions. */
  method PartAverages(rows: seq<Row<Item>>) returns (table: seq<Row<Item>>)
    ensures Live(table) == Map(Live(rows), x => Average(Fifth(x)))
  {
    var sub := new EncodedTable.FromRows(rows, ZERO);
    sub.Assign((r: Row<Item>) => Fifth(r.data));
    sub.Assign((r: Row<Item>) => Average(r.data));
    table := sub.rows;
  }

  /** Lines 155-159: the valid bit times the price, summed down the table, read from the last row. */
  method MaskedTotal(rows: seq<Row<Item>>) returns (total: int)
    requires |rows| >= 1
    ensures total == Sum(Live(rows), Price)
  {
    var table := new EncodedTable.FromRows(rows, ZERO);
    table.Assign((r: Row<Item>) => SetSum(r.data, (if r.valid then 1 else 0) * r.data.extendedPrice));
    ghost var masked := table.rows;
    SumMasked(rows, masked, GetSum, Price);
    table.PrefixSum(GetSum, SetSum);
    assert masked[..|rows|] == masked;
    table.Tail(1);
    total := table.rows[0].data.sumExtendedPrice;
  }

  /** Lines 108-159: the prices of the tuples that pass the plan's test. */
  method SmallItemTotal(ls: seq<LineItem>, ps: seq<Part>) returns (total: int)
    requires 1 <= |ps| <= |ls| && |ls| >= 2 && UniqueBy(ps, PartKeyOf)
    ensures total == PriceSum(FloorTest(ls), ls, ps, 10, 10)
  {
    Ops();
    var rows := JoinParts(ls, ps);
    var grouped, groups := PartGroups(rows, ls, ps);
    var table := PartAverages(grouped);
    MapPerm(Live(grouped), groups, x => Average(Fifth(x)));
    AveragedRows(ls, ps, Live(rows), groups, Live(table));
    var items := new EncodedTable.FromRows(rows, ZERO);
    items.Filter(x => IsBrand(10, x));
    items.Filter(x => IsContainer(10, x));
    SelectBoth(Live(rows), x => IsBrand(10, x), x => IsContainer(10, x), x => Picked(10, 10, x));
    ghost var picked := Live(items.rows);
    MapItself(Live(table));
    MapItself(picked);
    var back := InnerJoinTables(table, items.rows, Itself, Itself, PartKey, CopyAvg, ZERO, 8);
    FinalSum(ls, ps, 10, 10, Live(rows), picked, Live(table), Live(back));
    var final := new EncodedTable.FromRows(back, ZERO);
    final.Filter(Below);
    total := MaskedTotal(final.rows);
  }

  /** When a seventh of `revenue - missed`, rounded down, is the truncated seventh of `revenue`: the missed part takes
      the dividend into another seventh no more than truncating does. */
  predicate SameSeventh(revenue: int, missed: int) {
    if revenue >= 0 || revenue % 7 == 0
    then revenue % 7 - 6 <= missed <= revenue % 7
    else revenue % 7 - 13 <= missed <= revenue % 7 - 7
  }

  lemma {:induction false} SeventhAgrees(revenue: int, missed: int)
    ensures (revenue - missed) / 7 == Truncated(revenue, 7) <==> SameSeventh(revenue, missed)
  {
    RoundingAgrees(revenue, 7);
  }

  /** The whole query: a seventh, rounded down, of the SQL's sum less what its cast alone includes, and exactly when
      that is the SQL's. The divisions by 5 and 7 are the secret-sharing protocols' corrected ones. The part table must
      not be larger than the line item table, whose size the join may be cut to before tail(Part.size()). */
  method Plan(ls: seq<LineItem>, ps: seq<Part>) returns (avgYearly: int)
    requires 1 <= |ps| <= |ls| && |ls| >= 2 && UniqueBy(ps, PartKeyOf)
    ensures avgYearly == (Revenue(ls, ps, 10, 10) - Missed(ls, ps, 10, 10)) / 7
    ensures var revenue, missed := Revenue(ls, ps, 10, 10), Missed(ls, ps, 10, 10);
      avgYearly == Truncated(revenue, 7) <==> SameSeventh(revenue, missed)
    ensures (forall l :: l in ls ==> !RoundsUp(ls, l.partKey, l.quantity)) ==>
      var revenue := Revenue(ls, ps, 10, 10);
      avgYearly == Truncated(revenue, 7) <==> revenue >= 0 || revenue % 7 == 0
    ensures (forall l :: l in ls ==> l.quantity >= 0) && Revenue(ls, ps, 10, 10) >= 0 ==>
      avgYearly == Truncated(Revenue(ls, ps, 10, 10), 7)
  {
    var total := SmallItemTotal(ls, ps);
    avgYearly := total / 7;
    RevenueSplit(ls, ps, 10, 10);
    SeventhAgrees(Revenue(ls, ps, 10, 10), Missed(ls, ps, 10, 10));
    NothingRoundsUp(ls, ps);
  }

  /** Without a quantity that only the cast includes nothing is missed; non-negative quantities are never such. */
  lemma {:induction false} NothingRoundsUp(ls: seq<LineItem>, ps: seq<Part>)
    ensures (forall l :: l in ls ==> l.quantity >= 0) ==> forall l :: l in ls ==> !RoundsUp(ls, l.partKey, l.quantity)
    ensures (forall l :: l in ls ==> !RoundsUp(ls, l.partKey, l.quantity)) ==> Missed(ls, ps, 10, 10) == 0
  {
    if forall l :: l in ls ==> !RoundsUp(ls, l.partKey, l.quantity) {
      NothingMissed(ls, ps, 10, 10);
    }
    if forall l :: l in ls ==> l.quantity >= 0 {
      forall l | l in ls ensures !RoundsUp(ls, l.partKey, l.quantity) {
        NonNegativeSame(ls, l.partKey, l.quantity);
      }
    }
  }

  /** Two returned items of one part: a fifth of the average is -0.2, cast to 0 and rounded down to -1, so the SQL
      counts both and the plan neither: it returns 0 instead of 2. */
  lemma {:induction false} NegativeQuantities()
    ensures var ls, ps := [LineItem(1, -1, 7), LineItem(1, -1, 7)], [Part(1, 10, 10)];
            && Revenue(ls, ps, 10, 10) == 14 && Missed(ls, ps, 10, 10) == 14
            && (14 - 14) / 7 == 0 && Truncated(14, 7) == 2
  {
    var ls, ps := [LineItem(1, -1, 7), LineItem(1, -1, 7)], [Part(1, 10, 10)];
    var l := LineItem(1, -1, 7);
    PairSum(l, x => QtyTerm(1, x));
    PairSum(l, x => OneTerm(1, x));
    assert SumQty(ls, 1) == -2 && CountQty(ls, 1) == 2;
    SmallIs(ls, 1, -1);
    assert RoundsUp(ls, 1, -1) && Small(ls, 1, -1);
    SumSingle(ps[0], p => Term(SmallTest(ls), 10, 10, l, p));
    SumSingle(ps[0], p => Term(RoundTest(ls), 10, 10, l, p));
    PairSum(l, x => OverParts(SmallTest(ls), ps, 10, 10, x));
    PairSum(l, x => OverParts(RoundTest(ls), ps, 10, 10, x));
  }

  lemma {:induction false} PairSum<T>(x: T, f: T -> int)
    ensures Sum([x, x], f) == 2 * f(x)
  {
    assert [x, x] == [x] + [x];
    SumAppend([x], [x], f);
    SumSingle(x, f);
  }
}
