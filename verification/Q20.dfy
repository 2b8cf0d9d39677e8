/** TPC-H Q20 (bench/queries/tpch/q20.cpp): potential part promotion, clause 2.4.20 of the TPC-H Specification
    v3.0.1. The correlated sum is a join with aggregation, IN is a chain of semi joins. */
module Q20 {
  import opened Bags
  import opened PrefixNetworks
  import opened Tables
  import opened Joins
  import opened Traces

  datatype Supplier = Supplier(suppKey: int, name: int, address: int, nationKey: int)
  datatype PartSupp = PartSupp(partKey: int, suppKey: int, availQty: int)
  datatype Part = Part(partKey: int, name: int)
  datatype Nation = Nation(nationKey: int, name: int)
  datatype LineItem = LineItem(partKey: int, suppKey: int, shipDate: int, quantity: int)
  datatype Answer = Answer(name: int, address: int)

  /** The rows of tables PSL and T1. */
  datatype Stock = Stock(partKey: int, suppKey: int, availQty: int, quantity: int)

  // ----- The SQL -----

  predicate InWindow(l: LineItem) { 42 <= l.shipDate < 42 + 17 }
  predicate ItemOf(partKey: int, suppKey: int, l: LineItem) {
    l.partKey == partKey && l.suppKey == suppKey && InWindow(l)
  }

  function QtyTerm(partKey: int, suppKey: int, l: LineItem): int {
    if ItemOf(partKey, suppKey, l) then l.quantity else 0
  }

  ghost function TotalQty(ls: seq<LineItem>, partKey: int, suppKey: int): int {
    Sum(ls, l => QtyTerm(partKey, suppKey, l))
  }

  ghost predicate AnyItem(ls: seq<LineItem>, partKey: int, suppKey: int) {
    exists l :: l in ls && ItemOf(partKey, suppKey, l)
  }

  /** availqty > (select 0.5 * sum(quantity) ...): over no line items the sum is NULL and the comparison fails. */
  ghost predicate Exceeds(ls: seq<LineItem>, ps: PartSupp) {
    AnyItem(ls, ps.partKey, ps.suppKey) && ps.availQty as real > 0.5 * TotalQty(ls, ps.partKey, ps.suppKey) as real
  }

  ghost predicate Coloured(parts: seq<Part>, partKey: int) {
    exists p :: p in parts && p.partKey == partKey && p.name == 11
  }

  ghost predicate Supplies(parts: seq<Part>, ls: seq<LineItem>, suppKey: int, ps: PartSupp) {
    ps.suppKey == suppKey && Coloured(parts, ps.partKey) && Exceeds(ls, ps)
  }

  /** suppkey in (select ps.suppkey ...). */
  ghost predicate Listed(pss: seq<PartSupp>, parts: seq<Part>, ls: seq<LineItem>, suppKey: int) {
    exists ps :: ps in pss && Supplies(parts, ls, suppKey, ps)
  }

  predicate Home(s: Supplier, n: Nation) { s.nationKey == n.nationKey && n.name == 7 }

  /** The rows of one supplier: one for each nation row it matches. */
  ghost function SupplierRows(pss: seq<PartSupp>, parts: seq<Part>, ns: seq<Nation>, ls: seq<LineItem>,
                              s: Supplier): seq<Supplier>
  {
    FlatMap(ns, n => if Home(s, n) && Listed(pss, parts, ls, s.suppKey) then [s] else [])
  }

  /** The rows of FROM supplier, nation that satisfy the WHERE clause. */
  ghost function Query(ss: seq<Supplier>, pss: seq<PartSupp>, parts: seq<Part>, ns: seq<Nation>,
                       ls: seq<LineItem>): seq<Supplier>
  {
    FlatMap(ss, s => SupplierRows(pss, parts, ns, ls, s))
  }

  /** SELECT s_name, s_address. */
  function Output(s: Supplier): Answer { Answer(s.name, s.address) }

  // ----- Columns -----

  const NATION := 7
  const COLOR := 11
  const DATE := 42
  const DATE_INTERVAL := 17

  function StockOfPart(ps: PartSupp): Stock { Stock(ps.partKey, ps.suppKey, ps.availQty, 0) }
  function StockOfItem(l: LineItem): Stock { Stock(l.partKey, l.suppKey, 0, l.quantity) }
  function PairKey(x: Stock): Key { [x.partKey, x.suppKey] }
  function PsKey(ps: PartSupp): Key { [ps.partKey, ps.suppKey] }
  function NationKeyOf(n: Nation): int { n.nationKey }
  function CopyAvail(a: Stock, b: Stock): Stock { b.(availQty := a.availQty) }
  function AddQty(a: Stock, b: Stock): Stock { b.(quantity := a.quantity + b.quantity) }
  function Qty(x: Stock): int { x.quantity }
  function Double(x: Stock): Stock { x.(availQty := 2 * x.availQty) }
  predicate Enough(x: Stock) { x.availQty > x.quantity }
  function PartOf(x: Stock): Key { [x.partKey] }
  function StockOfColour(p: Part): Stock { Stock(p.partKey, 0, 0, 0) }
  function SuppOf(x: Stock): Key { [x.suppKey] }
  predicate IsColour(p: Part) { p.name == COLOR }
  predicate IsNation(n: Nation) { n.name == NATION }
  function NationSupplier(n: Nation): Supplier { Supplier(0, 0, 0, n.nationKey) }
  function SupplierNation(s: Supplier): Key { [s.nationKey] }
  function SupplierKey(s: Supplier): Key { [s.suppKey] }
  function StockSupplier(x: Stock): Supplier { Supplier(x.suppKey, 0, 0, 0) }
  function ToAnswer(s: Supplier): Answer { Answer(s.name, s.address) }
  function NameOf(a: Answer): Key { [a.name] }

  const NOSTOCK := Stock(0, 0, 0, 0)
  const NOBODY := Supplier(0, 0, 0, 0)

  // ----- The join with aggregation -----

  ghost function Plain(pss: seq<PartSupp>, ls: seq<LineItem>): seq<Stock> {
    InnerJoin(Map(pss, StockOfPart), Map(Select(ls, InWindow), StockOfItem), PairKey, CopyAvail)
  }

  function PairQty(k: Key, x: Stock): int { if PairKey(x) == k then x.quantity else 0 }

  /** The pair of a stored row occurs once on the left. */
  lemma {:induction false} LeftOnce(pss: seq<PartSupp>, ps: PartSupp)
    requires UniqueBy(pss, PsKey) && ps in pss
    ensures UniqueBy(Map(pss, StockOfPart), PairKey)
    ensures WithKey(Map(pss, StockOfPart), PairKey, PsKey(ps)) == [StockOfPart(ps)]
  {
    UniqueMap(pss, StockOfPart, PsKey, PairKey);
    MapMember(pss, StockOfPart);
    assert StockOfPart(ps) in Map(pss, StockOfPart);
    UniqueWithKey(Map(pss, StockOfPart), PairKey, StockOfPart(ps));
  }

  /** The quantity of a pair, summed over the join, is the subquery's sum. */
  lemma {:induction false} PlainQty(pss: seq<PartSupp>, ls: seq<LineItem>, ps: PartSupp)
    requires UniqueBy(pss, PsKey) && ps in pss
    ensures Sum(Plain(pss, ls), x => PairQty(PsKey(ps), x)) == TotalQty(ls, ps.partKey, ps.suppKey)
  {
    var k, ll := PsKey(ps), Map(pss, StockOfPart);
    var items := Select(ls, InWindow);
    var rr := Map(items, StockOfItem);
    LeftOnce(pss, ps);
    var w := x => PairQty(k, x);
    SumSingle(StockOfPart(ps), x => 1);
    JoinSum(ll, rr, PairKey, CopyAvail, w, w, x => 1, w);
    var inKey := (l: LineItem) => if l.partKey == ps.partKey && l.suppKey == ps.suppKey then l.quantity else 0;
    forall l: LineItem ensures w(StockOfItem(l)) == inKey(l) {
      TwoColumns(StockOfItem(l).partKey, StockOfItem(l).suppKey, ps.partKey, ps.suppKey);
    }
    SumMap(items, StockOfItem, w, inKey);
    SumSelect(ls, InWindow, inKey, l => QtyTerm(ps.partKey, ps.suppKey, l));
  }

  /** A joined row carries the availability of its stored row. */
  lemma {:induction false} PlainAvail(pss: seq<PartSupp>, ls: seq<LineItem>, ps: PartSupp, y: Stock)
    requires UniqueBy(pss, PsKey) && ps in pss && y in Plain(pss, ls) && PairKey(y) == PsKey(ps)
    ensures y.availQty == ps.availQty
  {
    var ll, rr := Map(pss, StockOfPart), Map(Select(ls, InWindow), StockOfItem);
    FlatMapMember(rr, r => JoinOne(ll, PairKey, CopyAvail, r), y);
    var r :| r in rr && y in JoinOne(ll, PairKey, CopyAvail, r);
    assert PairKey(y) == PairKey(r);
    LeftOnce(pss, ps);
  }

  /** Which pairs the join has. */
  lemma {:induction false} PlainHas(pss: seq<PartSupp>, ls: seq<LineItem>, partKey: int, suppKey: int)
    ensures HasKey(Plain(pss, ls), PairKey, [partKey, suppKey])
       <==> HasKey(pss, PsKey, [partKey, suppKey]) && AnyItem(ls, partKey, suppKey)
  {
    var ll, items, k := Map(pss, StockOfPart), Select(ls, InWindow), [partKey, suppKey];
    JoinColumnOf(ll, items, StockOfItem, PairKey, CopyAvail, PairKey, k);
    HasKeyMap(pss, StockOfPart, PsKey, PairKey, k);
    forall l: LineItem
      ensures (l in items && PairKey(StockOfItem(l)) == k) <==> l in ls && ItemOf(partKey, suppKey, l)
    {
      SelectMember(ls, InWindow, l);
      TwoColumns(StockOfItem(l).partKey, StockOfItem(l).suppKey, partKey, suppKey);
    }
  }

  /** An aggregated row has its stored row's availability and the subquery's sum. */
  lemma {:induction false} StockRow(pss: seq<PartSupp>, ls: seq<LineItem>, after: seq<Stock>, ps: PartSupp, x: Stock)
    requires UniqueBy(pss, PsKey) && ps in pss
    requires IsGroupBy(Plain(pss, ls), after, PairKey, Itself, AddQty) && x in after && PairKey(x) == PsKey(ps)
    ensures x.availQty == ps.availQty && x.quantity == TotalQty(ls, ps.partKey, ps.suppKey)
  {
    var plain := Plain(pss, ls);
    GroupTotal(plain, after, PairKey, Itself, AddQty, Qty, x, y => PairQty(PsKey(ps), y));
    PlainQty(pss, ls, ps);
    assert FromGroup(plain, x, PairKey, Itself, AddQty);
    var g: seq<Stock> :| g != [] && Perm(g, WithKey(plain, PairKey, PsKey(ps))) && x == Fold(AddQty, Map(g, Itself));
    MapItself(g);
    GroupMembers(g, plain, PairKey, PsKey(ps));
    forall y | y in g ensures y.availQty == ps.availQty {
      PlainAvail(pss, ls, ps, y);
    }
    FoldKeeps(AddQty, g, (y: Stock) => y.availQty == ps.availQty);
  }

  /** Doubling the availability decides the comparison with half the sum. */
  lemma {:induction false} HalfSum(avail: int, total: int)
    ensures 2 * avail > total <==> avail as real > 0.5 * total as real
  {
    assert (2 * avail) as real == 2.0 * avail as real;
  }

  /** The rows that pass the quantity filter. */
  ghost predicate Passes(pss: seq<PartSupp>, ls: seq<LineItem>, partKey: int, suppKey: int) {
    exists ps :: ps in pss && ps.partKey == partKey && ps.suppKey == suppKey && Exceeds(ls, ps)
  }

  lemma {:induction false} PassingRow(pss: seq<PartSupp>, ls: seq<LineItem>, after: seq<Stock>, ps: PartSupp)
    returns (x: Stock)
    requires UniqueBy(pss, PsKey) && ps in pss && Exceeds(ls, ps)
    requires IsGroupBy(Plain(pss, ls), after, PairKey, Itself, AddQty)
    ensures x in after && PairKey(x) == PsKey(ps) && Enough(Double(x))
  {
    PlainHas(pss, ls, ps.partKey, ps.suppKey);
    GroupByKeys(Plain(pss, ls), after, PairKey, Itself, AddQty, PsKey(ps));
    assert HasKey(pss, PsKey, PsKey(ps));
    x :| x in after && PairKey(x) == PsKey(ps);
    StockRow(pss, ls, after, ps, x);
    HalfSum(ps.availQty, x.quantity);
  }

  lemma {:induction false} RowPasses(pss: seq<PartSupp>, ls: seq<LineItem>, after: seq<Stock>, x: Stock)
    requires UniqueBy(pss, PsKey) && IsGroupBy(Plain(pss, ls), after, PairKey, Itself, AddQty)
    requires x in after && Enough(Double(x))
    ensures Passes(pss, ls, x.partKey, x.suppKey)
  {
    GroupByKeys(Plain(pss, ls), after, PairKey, Itself, AddQty, PairKey(x));
    PlainHas(pss, ls, x.partKey, x.suppKey);
    var ps :| ps in pss && PsKey(ps) == [x.partKey, x.suppKey];
    TwoColumns(ps.partKey, ps.suppKey, x.partKey, x.suppKey);
    StockRow(pss, ls, after, ps, x);
    HalfSum(ps.availQty, x.quantity);
  }

  lemma {:induction false} StockPasses(pss: seq<PartSupp>, ls: seq<LineItem>, after: seq<Stock>, partKey: int,
                                       suppKey: int)
    requires UniqueBy(pss, PsKey) && IsGroupBy(Plain(pss, ls), after, PairKey, Itself, AddQty)
    ensures HasKey(Select(Map(after, Double), Enough), PairKey, [partKey, suppKey])
       <==> Passes(pss, ls, partKey, suppKey)
  {
    var doubled := Map(after, Double);
    MapMember(after, Double);
    if HasKey(Select(doubled, Enough), PairKey, [partKey, suppKey]) {
      var y :| y in Select(doubled, Enough) && PairKey(y) == [partKey, suppKey];
      SelectMember(doubled, Enough, y);
      var x :| x in after && Double(x) == y;
      TwoColumns(y.partKey, y.suppKey, partKey, suppKey);
      RowPasses(pss, ls, after, x);
    }
    if ps :| ps in pss && ps.partKey == partKey && ps.suppKey == suppKey && Exceeds(ls, ps) {
      var x := PassingRow(pss, ls, after, ps);
      assert Double(x) in doubled;
      SelectMember(doubled, Enough, Double(x));
      TwoColumns(ps.partKey, ps.suppKey, partKey, suppKey);
      assert PairKey(Double(x)) == PairKey(x);
    }
  }

  // ----- The semi joins -----

  lemma {:induction false} ColourBit(parts: seq<Part>, x: Stock)
    ensures Matched(Map(Select(parts, IsColour), StockOfColour), PartOf)(x) <==> Coloured(parts, x.partKey)
  {
    var named := Select(parts, IsColour);
    WithKeySome(Map(named, StockOfColour), PartOf, PartOf(x));
    HasKeyMap(named, StockOfColour, (p: Part) => [p.partKey], PartOf, PartOf(x));
    assert forall p: Part :: [p.partKey] == PartOf(x) <==> p.partKey == x.partKey;
    forall p ensures p in named <==> p in parts && p.name == COLOR { SelectMember(parts, IsColour, p); }
    if Coloured(parts, x.partKey) {
      var p :| p in parts && p.partKey == x.partKey && p.name == COLOR;
      assert HasKey(named, (p: Part) => [p.partKey], PartOf(x));
    }
  }

  ghost predicate Local(ns: seq<Nation>, s: Supplier) {
    exists n :: n in ns && Home(s, n)
  }

  lemma {:induction false} LocalBit(ns: seq<Nation>, s: Supplier)
    ensures Matched(Map(Select(ns, IsNation), NationSupplier), SupplierNation)(s) <==> Local(ns, s)
  {
    var named := Select(ns, IsNation);
    WithKeySome(Map(named, NationSupplier), SupplierNation, SupplierNation(s));
    HasKeyMap(named, NationSupplier, (n: Nation) => [n.nationKey], SupplierNation, SupplierNation(s));
    assert forall n: Nation :: [n.nationKey] == SupplierNation(s) <==> n.nationKey == s.nationKey;
    forall n ensures n in named <==> n in ns && n.name == NATION { SelectMember(ns, IsNation, n); }
    if Local(ns, s) {
      var n :| n in ns && Home(s, n);
      assert HasKey(named, (n: Nation) => [n.nationKey], SupplierNation(s));
    }
  }

  /** With unique nation keys a supplier appears at most once in the query. */
  lemma {:induction false} HomeOnce(ns: seq<Nation>, s: Supplier, listed: bool, f: Nation -> seq<Supplier>)
    requires UniqueBy(ns, NationKeyOf) && forall n :: f(n) == if Home(s, n) && listed then [s] else []
    ensures FlatMap(ns, f) == if Local(ns, s) && listed then [s] else []
  {
    if ns != [] {
      LastSplit(ns);
      var ns', n := ns[..|ns| - 1], ns[|ns| - 1];
      HomeOnce(ns', s, listed, f);
      assert Local(ns, s) <==> Local(ns', s) || Home(s, n);
      if Home(s, n) {
        assert forall m :: m in ns' ==> NationKeyOf(m) != NationKeyOf(n);
        assert !Local(ns', s);
      }
    }
  }

  ghost predicate Chosen(pss: seq<PartSupp>, parts: seq<Part>, ns: seq<Nation>, ls: seq<LineItem>, s: Supplier) {
    Local(ns, s) && Listed(pss, parts, ls, s.suppKey)
  }

  lemma {:induction false} QuerySelects(ss: seq<Supplier>, pss: seq<PartSupp>, parts: seq<Part>, ns: seq<Nation>,
                                        ls: seq<LineItem>)
    requires UniqueBy(ns, NationKeyOf)
    ensures Query(ss, pss, parts, ns, ls) == Select(ss, s => Chosen(pss, parts, ns, ls, s))
  {
    forall s: Supplier
      ensures SupplierRows(pss, parts, ns, ls, s) == if Chosen(pss, parts, ns, ls, s) then [s] else []
    {
      HomeOnce(ns, s, Listed(pss, parts, ls, s.suppKey),
               n => if Home(s, n) && Listed(pss, parts, ls, s.suppKey) then [s] else []);
    }
    FlatMapSelects(ss, s => SupplierRows(pss, parts, ns, ls, s), s => Chosen(pss, parts, ns, ls, s));
  }

  /** The suppliers of T1 are those of the IN subquery. */
  lemma {:induction false} ListedRows(pss: seq<PartSupp>, parts: seq<Part>, ls: seq<LineItem>, stock: seq<Stock>,
                                      live: seq<Stock>, k: int)
    requires forall p, s :: HasKey(stock, PairKey, [p, s]) <==> Passes(pss, ls, p, s)
    requires Perm(live, SemiJoin(Map(Select(parts, IsColour), StockOfColour), stock, PartOf))
    ensures HasKey(live, SuppOf, [k]) <==> Listed(pss, parts, ls, k)
  {
    var colours := Map(Select(parts, IsColour), StockOfColour);
    var semi := SemiJoin(colours, stock, PartOf);
    HasKeyPerm(live, semi, SuppOf, [k]);
    if HasKey(semi, SuppOf, [k]) {
      var x :| x in semi && SuppOf(x) == [k];
      OneColumn(x.suppKey, k);
      OneColumn(k, x.suppKey);
      SelectMember(stock, Matched(colours, PartOf), x);
      ColourBit(parts, x);
      assert PairKey(x) == [x.partKey, x.suppKey];
      assert HasKey(stock, PairKey, [x.partKey, x.suppKey]);
      var ps :| ps in pss && ps.partKey == x.partKey && ps.suppKey == x.suppKey && Exceeds(ls, ps);
      assert Supplies(parts, ls, k, ps);
    }
    if ps :| ps in pss && Supplies(parts, ls, k, ps) {
      assert Passes(pss, ls, ps.partKey, ps.suppKey);
      var x :| x in stock && PairKey(x) == [ps.partKey, ps.suppKey];
      TwoColumns(x.partKey, x.suppKey, ps.partKey, ps.suppKey);
      ColourBit(parts, x);
      SelectMember(stock, Matched(colours, PartOf), x);
      OneColumn(x.suppKey, k);
      OneColumn(k, x.suppKey);
    }
  }

  // ----- What distinct loses -----

  /** Distinct drops this supplier key from the table. */
  ghost predicate Lost(t1: seq<Row<Stock>>, k: int) { Shadowed(t1, SuppOf, [k]) }

  lemma {:induction false} DistinctKeysOf(t1: seq<Row<Stock>>, after: seq<Stock>, k: int)
    requires IsDistinct(t1, after, SuppOf)
    ensures HasKey(after, SuppOf, [k]) <==> HasKey(Live(t1), SuppOf, [k]) && !Lost(t1, k)
  {
    if HasKey(Live(t1), SuppOf, [k]) {
      var x :| x in Live(t1) && SuppOf(x) == [k];
    }
  }

  // ----- Which rows the two trimmed joins leave invalid -----

  ghost predicate HasItem(ls: seq<LineItem>, ps: PartSupp) { AnyItem(ls, ps.partKey, ps.suppKey) }

  predicate Outside(l: LineItem) { !InWindow(l) }
  ghost function Busy(ls: seq<LineItem>): PartSupp -> bool { ps => HasItem(ls, ps) }
  ghost function Idle(ls: seq<LineItem>): PartSupp -> bool { ps => !HasItem(ls, ps) }

  /** A stored pair with line items that the filters turn down. */
  ghost function Refused(parts: seq<Part>, ls: seq<LineItem>): PartSupp -> bool {
    ps => HasItem(ls, ps) && !(Coloured(parts, ps.partKey) && Exceeds(ls, ps))
  }

  /** Where the join with the parts puts a row of either table: the filters' bit, the part, the table, and for a row
      of PSL its class there and its supplier. */
  function PartPlace(p: Part): Key { [if IsColour(p) then 1 else 0, p.partKey, 0, 0, 0] }
  function StockPlace(passes: bool, class_: int, partKey: int, suppKey: int): Key {
    [if passes then 1 else 0, partKey, 1, class_, suppKey]
  }

  /** PSL starts with its line items outside the window and goes on with the other rows; trimmed, it has its live
      rows before both. */
  const OUTSIDE := 1
  const POOL := 2
  function LiveClass(pss: seq<PartSupp>, ls: seq<LineItem>): int { if Trims(|pss|, |ls|, 3) then 0 else POOL }

  function OutPlace(l: LineItem): Key { StockPlace(false, OUTSIDE, l.partKey, l.suppKey) }
  function ItemPlace(l: LineItem): Key { StockPlace(false, POOL, l.partKey, l.suppKey) }
  function IdlePlace(ps: PartSupp): Key { StockPlace(false, POOL, ps.partKey, ps.suppKey) }
  ghost function DownPlace(pss: seq<PartSupp>, ls: seq<LineItem>): PartSupp -> Key {
    ps => StockPlace(Exceeds(ls, ps), LiveClass(pss, ls), ps.partKey, ps.suppKey)
  }

  /** The line items outside the window. */
  function OutPlaces(ls: seq<LineItem>): seq<Key> { Map(Select(ls, Outside), OutPlace) }

  /** The other rows that the first join leaves invalid: stored pairs without line items, and for the pairs with line
      items as many rows as line items, the last of them being live. */
  ghost function PoolPlaces(pss: seq<PartSupp>, ls: seq<LineItem>): seq<Key> {
    Map(Select(pss, Idle(ls)), IdlePlace) + Map(Select(ls, InWindow), ItemPlace)
  }

  /** The live pairs that the filters turn down. */
  ghost function DownPlaces(pss: seq<PartSupp>, parts: seq<Part>, ls: seq<LineItem>): seq<Key> {
    Map(Select(pss, Refused(parts, ls)), DownPlace(pss, ls))
  }

  ghost function CountBelow(places: seq<Key>, g: Key): int { Sum(places, BelowTo(g)) }

  /** How many rows of the pool the first join keeps: trimmed, it drops the last |pss|. */
  ghost function PoolSize(pss: seq<PartSupp>, ls: seq<LineItem>): int {
    |PoolPlaces(pss, ls)| - if Trims(|pss|, |ls|, 3) then |pss| else 0
  }

  ghost predicate InPool(pss: seq<PartSupp>, ls: seq<LineItem>, g: Key) {
    g in PoolPlaces(pss, ls) && CountBelow(PoolPlaces(pss, ls), g) < PoolSize(pss, ls)
  }

  /** How many rows PSL has. */
  function StockSize(pss: seq<PartSupp>, ls: seq<LineItem>): nat {
    if Trims(|pss|, |ls|, 3) then |ls| else |pss| + |ls|
  }

  /** The join of PSL with the parts is trimmed as well. */
  predicate TrimsAgain(pss: seq<PartSupp>, parts: seq<Part>, ls: seq<LineItem>) {
    Trims(|parts|, StockSize(pss, ls), 1)
  }

  /** The places of the rows that the second join leaves invalid, before it is trimmed. */
  ghost predicate HasPlace(pss: seq<PartSupp>, parts: seq<Part>, ls: seq<LineItem>, g: Key) {
    g in Map(parts, PartPlace) || g in DownPlaces(pss, parts, ls) || g in OutPlaces(ls) || InPool(pss, ls, g)
  }

  ghost function RejectsBelow(pss: seq<PartSupp>, parts: seq<Part>, ls: seq<LineItem>, g: Key): int {
    CountBelow(Map(parts, PartPlace), g) + CountBelow(DownPlaces(pss, parts, ls), g) + CountBelow(OutPlaces(ls), g)
    + Min(PoolSize(pss, ls), CountBelow(PoolPlaces(pss, ls), g))
  }

  /** How many of them it keeps: trimmed, it drops the last |parts|. */
  ghost function RejectSize(pss: seq<PartSupp>, parts: seq<Part>, ls: seq<LineItem>): int {
    |DownPlaces(pss, parts, ls)| + |OutPlaces(ls)| + PoolSize(pss, ls)
    + if TrimsAgain(pss, parts, ls) then 0 else |parts|
  }

  /** The supplier key has an invalid row in T1: a place early enough to be kept. */
  ghost predicate Rejected(pss: seq<PartSupp>, parts: seq<Part>, ls: seq<LineItem>, suppKey: int) {
    exists g :: HasPlace(pss, parts, ls, g) && RejectsBelow(pss, parts, ls, g) < RejectSize(pss, parts, ls) &&
                LastIs(g, suppKey)
  }

  // ----- The valid rows of PSL -----

  /** PSL has one valid row for every stored pair with a line item in the window. */
  lemma {:induction false} LivePairs(pss: seq<PartSupp>, ls: seq<LineItem>, live: seq<Stock>)
    requires UniqueBy(pss, PsKey) && IsGroupBy(Plain(pss, ls), live, PairKey, Itself, AddQty)
    ensures Perm(Map(live, PairKey), Map(Select(pss, Busy(ls)), PsKey))
  {
    var busy := Select(pss, Busy(ls));
    UniqueSelect(pss, Busy(ls), PsKey);
    UniqueKeys(live, PairKey);
    UniqueKeys(busy, PsKey);
    MapMember(live, PairKey);
    MapMember(busy, PsKey);
    forall k ensures k in Map(live, PairKey) <==> k in Map(busy, PsKey) {
      PairLive(pss, ls, live, k);
    }
    SameListing(Map(live, PairKey), Map(busy, PsKey));
  }

  lemma {:induction false} UniqueKeys<T>(s: seq<T>, key: T -> Key)
    requires UniqueBy(s, key)
    ensures UniqueBy(Map(s, key), Itself)
  {
  }

  lemma {:induction false} PairLive(pss: seq<PartSupp>, ls: seq<LineItem>, live: seq<Stock>, k: Key)
    requires IsGroupBy(Plain(pss, ls), live, PairKey, Itself, AddQty)
    ensures HasKey(live, PairKey, k) <==> HasKey(Select(pss, Busy(ls)), PsKey, k)
  {
    GroupByKeys(Plain(pss, ls), live, PairKey, Itself, AddQty, k);
    if HasKey(live, PairKey, k) {
      var x :| x in live && PairKey(x) == k;
      PlainHas(pss, ls, x.partKey, x.suppKey);
      var ps :| ps in pss && PsKey(ps) == k;
      TwoColumns(ps.partKey, ps.suppKey, x.partKey, x.suppKey);
      SelectMember(pss, Busy(ls), ps);
    }
    if HasKey(Select(pss, Busy(ls)), PsKey, k) {
      var ps :| ps in Select(pss, Busy(ls)) && PsKey(ps) == k;
      SelectMember(pss, Busy(ls), ps);
      PlainHas(pss, ls, ps.partKey, ps.suppKey);
      assert HasKey(pss, PsKey, [ps.partKey, ps.suppKey]);
    }
  }

  /** No more pairs with a line item than line items: the first cut drops no more than the pool has. */
  lemma {:induction false} PoolSuffices(pss: seq<PartSupp>, ls: seq<LineItem>)
    requires UniqueBy(pss, PsKey)
    ensures PoolSize(pss, ls) >= 0
  {
    var busy := Select(pss, Busy(ls));
    var itemKey := (l: LineItem) => [l.partKey, l.suppKey];
    UniqueSelect(pss, Busy(ls), PsKey);
    forall ps | ps in busy ensures HasKey(Select(ls, InWindow), itemKey, PsKey(ps)) {
      SelectMember(pss, Busy(ls), ps);
      var l :| l in ls && ItemOf(ps.partKey, ps.suppKey, l);
      SelectMember(ls, InWindow, l);
      assert itemKey(l) == PsKey(ps);
    }
    UniqueBound(busy, PsKey, Select(ls, InWindow), itemKey);
    SelectSplit(pss, Busy(ls), Idle(ls));
    PermLength(pss, busy + Select(pss, Idle(ls)));
  }

  // ----- The invalid rows of PSL -----

  /** The concatenated table of the join. */
  ghost function JoinTable(pss: seq<PartSupp>, items: seq<Row<LineItem>>): seq<Tagged<Stock>> {
    Concatenate(ValidRows(pss), items, StockOfPart, StockOfItem)
  }

  /** The rows of the line items: valid exactly inside the window. */
  ghost predicate WindowRows(ls: seq<LineItem>, items: seq<Row<LineItem>>) {
    |items| == |ls| && forall i :: 0 <= i < |ls| ==> items[i] == Row(InWindow(ls[i]), ls[i])
  }

  function StoredCell(ps: PartSupp): Key { CellOf(true, PsKey(ps)) }
  function LineCell(l: LineItem): Key { CellOf(InWindow(l), [l.partKey, l.suppKey]) }

  /** The place of an invalid row of PSL, from the group cell it had. */
  function CellPlace(c: Key): Key {
    if |c| == 3 then StockPlace(false, if c[0] == 0 then OUTSIDE else POOL, c[1], c[2]) else []
  }

  lemma {:induction false} TableCells(pss: seq<PartSupp>, ls: seq<LineItem>, items: seq<Row<LineItem>>)
    requires WindowRows(ls, items)
    ensures Map(JoinTable(pss, items), GroupCell(PairKey)) == Map(pss, StoredCell) + Map(ls, LineCell)
  {
    var table, cell := JoinTable(pss, items), GroupCell(PairKey);
    var cells := Map(pss, StoredCell) + Map(ls, LineCell);
    forall i | 0 <= i < |table| ensures cell(table[i]) == cells[i] {
      if i < |pss| {
        assert ValidRows(pss)[i] == Row(true, pss[i]);
        assert table[i] == Tagged(true, false, StockOfPart(pss[i])) && cells[i] == StoredCell(pss[i]);
        assert PairKey(StockOfPart(pss[i])) == PsKey(pss[i]);
      } else {
        var l := ls[i - |pss|];
        assert table[i] == Tagged(InWindow(l), true, StockOfItem(l)) && cells[i] == LineCell(l);
        assert PairKey(StockOfItem(l)) == [l.partKey, l.suppKey];
      }
    }
  }

  lemma {:induction false} Cancel<T>(a: seq<T>, b: seq<T>, c: seq<T>, d: seq<T>)
    requires Perm(a + b, c + d) && Perm(b, c)
    ensures Perm(a, d)
  {
    assert multiset(a) == multiset(a + b) - multiset(b) && multiset(d) == multiset(c + d) - multiset(c);
  }

  /** The cells that the first join leaves invalid are those of the pool and of the line items outside. */
  lemma {:induction false} RestCells(pss: seq<PartSupp>, ls: seq<LineItem>, items: seq<Row<LineItem>>,
                                     live: seq<Stock>, rest: seq<Key>)
    requires UniqueBy(pss, PsKey) && WindowRows(ls, items)
    requires IsGroupBy(Plain(pss, ls), live, PairKey, Itself, AddQty)
    requires Perm(rest + Map(live, LiveCell(PairKey)), Map(JoinTable(pss, items), GroupCell(PairKey)))
    ensures Perm(rest, Map(Select(pss, Idle(ls)), StoredCell) +
                       (Map(Select(ls, Outside), LineCell) + Map(Select(ls, InWindow), LineCell)))
  {
    var busy, idle := Select(pss, Busy(ls)), Select(pss, Idle(ls));
    TableCells(pss, ls, items);
    MapSplit(pss, Busy(ls), Idle(ls), StoredCell);
    MapSplit(ls, Outside, InWindow, LineCell);
    LivePairs(pss, ls, live);
    var valid := (k: Key) => CellOf(true, k);
    MapPerm(Map(live, PairKey), Map(busy, PsKey), valid);
    MapMap(live, PairKey, valid, LiveCell(PairKey));
    MapMap(busy, PsKey, valid, StoredCell);
    var d := Map(idle, StoredCell) + (Map(Select(ls, Outside), LineCell) + Map(Select(ls, InWindow), LineCell));
    Cancel(rest, Map(live, LiveCell(PairKey)), Map(busy, StoredCell), d);
  }

  /** VALID and two key columns. */
  predicate CellShape(c: Key) { |c| == 3 && (c[0] == 0 || c[0] == 1) }

  lemma {:induction false} RestPlacesAre(pss: seq<PartSupp>, ls: seq<LineItem>, rest: seq<Key>)
    requires Perm(rest, Map(Select(pss, Idle(ls)), StoredCell) +
                        (Map(Select(ls, Outside), LineCell) + Map(Select(ls, InWindow), LineCell)))
    ensures Perm(Map(rest, CellPlace), OutPlaces(ls) + PoolPlaces(pss, ls))
    ensures forall c :: c in rest ==> CellShape(c)
  {
    var idle := Select(pss, Idle(ls));
    var a, b, c := Map(idle, StoredCell), Map(Select(ls, Outside), LineCell), Map(Select(ls, InWindow), LineCell);
    PermOfThree(rest, a, b, c, CellPlace);
    LinePlaces(ls);
    MapMap(idle, StoredCell, CellPlace, IdlePlace);
    forall x | x in rest ensures CellShape(x) {
      PermMember(rest, a + (b + c), x);
      assert x in a || x in b || x in c;
    }
  }

  lemma {:induction false} PermOfThree<A, B>(s: seq<A>, a: seq<A>, b: seq<A>, c: seq<A>, f: A -> B)
    requires Perm(s, a + (b + c))
    ensures Perm(Map(s, f), Map(b, f) + (Map(a, f) + Map(c, f)))
  {
    MapPerm(s, a + (b + c), f);
    MapAppend(a, b + c, f);
    MapAppend(b, c, f);
    SwapParts(Map(a, f), Map(b, f), Map(c, f));
  }

  lemma {:induction false} SwapParts<T>(a: seq<T>, b: seq<T>, c: seq<T>)
    ensures Perm(a + (b + c), b + (a + c))
  {
  }

  lemma {:induction false} LinePlaces(ls: seq<LineItem>)
    ensures Map(Map(Select(ls, Outside), LineCell), CellPlace) == OutPlaces(ls)
    ensures Map(Map(Select(ls, InWindow), LineCell), CellPlace) == Map(Select(ls, InWindow), ItemPlace)
  {
    var outs, window := Select(ls, Outside), Select(ls, InWindow);
    forall l | l in outs ensures CellPlace(LineCell(l)) == OutPlace(l) { SelectMember(ls, Outside, l); }
    forall l | l in window ensures CellPlace(LineCell(l)) == ItemPlace(l) { SelectMember(ls, InWindow, l); }
    MapMap(outs, LineCell, CellPlace, OutPlace);
    MapMap(window, LineCell, CellPlace, ItemPlace);
  }

  predicate OutCell(c: Key) { c != [] && c[0] == 0 }
  predicate PoolCell(c: Key) { !OutCell(c) }
  predicate AtOutside(g: Key) { |g| == 5 && g[3] == OUTSIDE }
  predicate AtPool(g: Key) { !AtOutside(g) }

  lemma {:induction false} PoolOrder(a: Key, b: Key)
    requires |a| == |b| == 3 && PoolCell(a) && PoolCell(b) && a[0] == b[0] && Leq(a, b)
    ensures Leq(CellPlace(a), CellPlace(b))
  {
    assert a[1..] == [a[1], a[2]] && b[1..] == [b[1], b[2]];
    TwoColumns(a[1], a[2], b[1], b[2]);
    var g, h := CellPlace(a), CellPlace(b);
    assert g[1..] == [a[1], 1, POOL, a[2]] && h[1..] == [b[1], 1, POOL, b[2]];
    assert g[1..][1..] == [1, POOL, a[2]] && h[1..][1..] == [1, POOL, b[2]];
    assert g[1..][1..][1..] == [POOL, a[2]] && h[1..][1..][1..] == [POOL, b[2]];
    TwoColumns(POOL, a[2], POOL, b[2]);
  }

  /** The listed cells are those outside, then those of the pool in the order of their places. */
  lemma {:induction false} RestInOrder(rest: seq<Key>)
    requires SortedBy(rest, Itself) && forall c :: c in rest ==> CellShape(c)
    ensures rest == Select(rest, OutCell) + Select(rest, PoolCell)
    ensures SortedBy(Map(Select(rest, PoolCell), CellPlace), Itself)
  {
    forall i, j | 0 <= i <= j < |rest| && OutCell(rest[j]) ensures OutCell(rest[i]) {
      assert rest[i] in rest && rest[j] in rest && Leq(Itself(rest[i]), Itself(rest[j]));
      assert CellShape(rest[i]) && CellShape(rest[j]);
    }
    SelectSteps(rest, OutCell, PoolCell);
    SelectSorted(rest, PoolCell, Itself);
    var pool := Select(rest, PoolCell);
    forall i, j | 0 <= i <= j < |pool| ensures Leq(CellPlace(pool[i]), CellPlace(pool[j])) {
      SelectMember(rest, PoolCell, pool[i]);
      SelectMember(rest, PoolCell, pool[j]);
      assert Leq(Itself(pool[i]), Itself(pool[j]));
      PoolOrder(pool[i], pool[j]);
    }
  }

  /** What the first join leaves invalid, as places: their number, how many are below any place, and which they are. */
  ghost predicate StockPlaces(pss: seq<PartSupp>, ls: seq<LineItem>, places: seq<Key>) {
    && |places| == |OutPlaces(ls)| + PoolSize(pss, ls)
    && (forall g :: CountBelow(places, g)
                 == CountBelow(OutPlaces(ls), g) + Min(PoolSize(pss, ls), CountBelow(PoolPlaces(pss, ls), g)))
    && forall g :: g in places <==> g in OutPlaces(ls) || InPool(pss, ls, g)
  }

  lemma {:induction false} KeptPlaces(pss: seq<PartSupp>, ls: seq<LineItem>, rest: seq<Key>, cut: nat)
    requires SortedBy(rest, Itself) && Perm(Map(rest, CellPlace), OutPlaces(ls) + PoolPlaces(pss, ls))
    requires forall c :: c in rest ==> CellShape(c)
    requires PoolSize(pss, ls) == |PoolPlaces(pss, ls)| - cut >= 0
    ensures cut <= |rest| && StockPlaces(pss, ls, Map(rest[..|rest| - cut], CellPlace))
  {
    var o, q := Map(Select(rest, OutCell), CellPlace), Map(Select(rest, PoolCell), CellPlace);
    RestInOrder(rest);
    ClassesAre(pss, ls, rest);
    PermLength(o, OutPlaces(ls));
    PermLength(q, PoolPlaces(pss, ls));
    MapAppend(Select(rest, OutCell), Select(rest, PoolCell), CellPlace);
    var n, all, places := PoolSize(pss, ls), Map(rest, CellPlace), Map(rest[..|rest| - cut], CellPlace);
    assert all == o + q && |all| == |o| + |q|;
    assert places == all[..|all| - cut];
    assert places == o + q[..n];
    KeptMeans(pss, ls, o, q, n);
  }

  lemma {:induction false} KeptMeans(pss: seq<PartSupp>, ls: seq<LineItem>, o: seq<Key>, q: seq<Key>, n: nat)
    requires Perm(o, OutPlaces(ls)) && Perm(q, PoolPlaces(pss, ls)) && SortedBy(q, Itself) && n <= |q|
    requires |o| == |OutPlaces(ls)| && n == PoolSize(pss, ls)
    ensures StockPlaces(pss, ls, o + q[..n])
  {
    var places := o + q[..n];
    forall g
      ensures CountBelow(places, g) == CountBelow(OutPlaces(ls), g) + Min(n, CountBelow(PoolPlaces(pss, ls), g))
      ensures g in places <==> g in OutPlaces(ls) || InPool(pss, ls, g)
    {
      SumAppend(o, q[..n], BelowTo(g));
      SumPerm(o, OutPlaces(ls), BelowTo(g));
      SumPerm(q, PoolPlaces(pss, ls), BelowTo(g));
      BelowSteps(q, g);
      AmongFirst(q, g, n);
      PermMember(o, OutPlaces(ls), g);
      PermMember(q, PoolPlaces(pss, ls), g);
    }
  }

  lemma {:induction false} ClassesAre(pss: seq<PartSupp>, ls: seq<LineItem>, rest: seq<Key>)
    requires Perm(Map(rest, CellPlace), OutPlaces(ls) + PoolPlaces(pss, ls))
    requires forall c :: c in rest ==> CellShape(c)
    ensures Perm(Map(Select(rest, OutCell), CellPlace), OutPlaces(ls))
    ensures Perm(Map(Select(rest, PoolCell), CellPlace), PoolPlaces(pss, ls))
  {
    var o, q := OutPlaces(ls), PoolPlaces(pss, ls);
    forall g | g in o ensures AtOutside(g) { MapMember(Select(ls, Outside), OutPlace); }
    forall g | g in q ensures AtPool(g) {
      MapMember(Select(pss, Idle(ls)), IdlePlace);
      MapMember(Select(ls, InWindow), ItemPlace);
    }
    SelectMap(rest, CellPlace, AtOutside, OutCell);
    SelectMap(rest, CellPlace, AtPool, PoolCell);
    SelectParts(Map(rest, CellPlace), o, q, AtOutside, AtPool);
  }

  lemma {:induction false} SelectParts<T>(s: seq<T>, a: seq<T>, b: seq<T>, p: T -> bool, q: T -> bool)
    requires Perm(s, a + b) && (forall x :: x in a ==> p(x) && !q(x)) && forall x :: x in b ==> q(x) && !p(x)
    ensures Perm(Select(s, p), a) && Perm(Select(s, q), b)
  {
    SelectPerm(s, a + b, p);
    SelectPerm(s, a + b, q);
    SelectAppend(a, b, p);
    SelectAppend(a, b, q);
    SelectedAll(a, p);
    SelectNone(a, q);
    SelectNone(b, p);
    SelectedAll(b, q);
  }

  // ----- The rows that the second join leaves invalid -----

  /** The table PSL after the quantity filter, from the rows the join returned. */
  function WithEnough(psl: seq<Row<Stock>>): (r: seq<Row<Stock>>)
    ensures |r| == |psl|
  {
    Filtered(Assigned(psl, (r: Row<Stock>) => Double(r.data)), Enough)
  }

  lemma {:induction false} EnoughRow(psl: seq<Row<Stock>>, i: nat)
    requires i < |psl|
    ensures WithEnough(psl)[i] == Row(psl[i].valid && Enough(Double(psl[i].data)), Double(psl[i].data))
  {
  }

  /** The class of a row of PSL, from its valid bit and the one it had in the first join. */
  function ClassOf(class_: int, valid: bool, was: bool): int {
    if !was then OUTSIDE else if valid then class_ else POOL
  }

  /** The tags that follow the rows of PSL through the second join. */
  ghost function Order(psl: seq<Row<Stock>>, was: seq<bool>, class_: int): (r: seq<Key>)
    requires |was| == |psl|
    ensures |r| == |psl|
  {
    seq(|psl|, i requires 0 <= i < |psl| == |was| => [ClassOf(class_, psl[i].valid, was[i]), psl[i].data.suppKey])
  }

  /** What PSL holds. */
  ghost predicate IsStock(pss: seq<PartSupp>, ls: seq<LineItem>, psl: seq<Row<Stock>>, was: seq<bool>) {
    && IsGroupBy(Plain(pss, ls), Live(psl), PairKey, Itself, AddQty)
    && |was| == |psl| == StockSize(pss, ls) && (forall i :: 0 <= i < |psl| && psl[i].valid ==> was[i])
    && CellsInOrder(psl, was, PairKey, Trims(|pss|, |ls|, 3))
    && StockPlaces(pss, ls, Map(Map(Rest(psl, was), RowCell(PairKey)), CellPlace))
  }

  lemma {:induction false} TagOrder(x: (Row<Stock>, bool), y: (Row<Stock>, bool), c: int, d: int)
    requires x.0.data.partKey == y.0.data.partKey && Leq(RowCell(PairKey)(x), RowCell(PairKey)(y))
    requires (x.1 && y.1 ==> c == d) && (!x.1 && y.1 ==> d == POOL)
    requires (!x.1 ==> c == OUTSIDE) && (!y.1 ==> d == OUTSIDE)
    ensures Leq([c, x.0.data.suppKey], [d, y.0.data.suppKey])
  {
    TwoColumns(c, x.0.data.suppKey, d, y.0.data.suppKey);
    var a, b := RowCell(PairKey)(x), RowCell(PairKey)(y);
    assert a[1..] == PairKey(x.0.data) && b[1..] == PairKey(y.0.data);
    TwoColumns(x.0.data.partKey, x.0.data.suppKey, y.0.data.partKey, y.0.data.suppKey);
  }

  lemma {:induction false} TagsOf(psl: seq<Row<Stock>>, was: seq<bool>, class_: int, cut: bool, x: nat, y: nat)
    requires |was| == |psl| && CellsInOrder(psl, was, PairKey, cut) && x < y < |psl|
    requires forall i :: 0 <= i < |psl| && psl[i].valid ==> was[i]
    requires psl[x].data.partKey == psl[y].data.partKey && class_ == if cut then 0 else POOL
    ensures Leq(Order(psl, was, class_)[x], Order(psl, was, class_)[y])
  {
    var z := Zip(psl, was);
    var c, d := ClassOf(class_, psl[x].valid, was[x]), ClassOf(class_, psl[y].valid, was[y]);
    assert z[x] == (psl[x], was[x]) && z[y] == (psl[y], was[y]);
    if cut && psl[x].valid != psl[y].valid {
      TwoColumns(c, psl[x].data.suppKey, d, psl[y].data.suppKey);
    } else {
      assert Leq(RowCell(PairKey)(z[x]), RowCell(PairKey)(z[y]));
      TagOrder(z[x], z[y], c, d);
    }
  }

  lemma {:induction false} OrderRespected(pss: seq<PartSupp>, ls: seq<LineItem>, psl: seq<Row<Stock>>, was: seq<bool>)
    requires IsStock(pss, ls, psl, was)
    ensures RowsInOrder(WithEnough(psl), Itself, PartOf, Order(psl, was, LiveClass(pss, ls)))
  {
    var order, rows := Order(psl, was, LiveClass(pss, ls)), WithEnough(psl);
    forall x, y | 0 <= x < y < |psl| && SameCell(rows[x], rows[y], Itself, PartOf) ensures Leq(order[x], order[y]) {
      EnoughRow(psl, x);
      EnoughRow(psl, y);
      OneColumn(psl[x].data.partKey, psl[y].data.partKey);
      TagsOf(psl, was, LiveClass(pss, ls), Trims(|pss|, |ls|, 3), x, y);
    }
  }

  ghost function ColourRows(colours: seq<Row<Part>>): seq<Stock> { Map(Live(colours), StockOfColour) }

  /** The rows of both tables with their tags. */
  ghost function BothTables(colours: seq<Row<Part>>, psl: seq<Row<Stock>>, order: seq<Key>): seq<(Tagged<Stock>, Key)>
    requires |order| == |psl|
  {
    TaggedTable(WithEnough(psl), colours, Itself, StockOfColour, order, [0, 0])
  }

  function SuppKeyOf(x: Stock): int { x.suppKey }

  lemma {:induction false} RightRow(r: Row<Stock>)
    ensures FromRight<Stock, Stock>(Itself)(r) == Tagged(r.valid, true, r.data)
  {
    var f: Stock -> Stock := Itself;
    assert f(r.data) == Itself(r.data);
  }

  lemma {:induction false} BothTablesAt(colours: seq<Row<Part>>, psl: seq<Row<Stock>>, order: seq<Key>, i: nat)
    requires |order| == |psl| && i < |colours| + |psl|
    ensures BothTables(colours, psl, order)[i] ==
            if i < |colours| then (Tagged(colours[i].valid, false, StockOfColour(colours[i].data)), [0, 0])
            else var r := WithEnough(psl)[i - |colours|]; (Tagged(r.valid, true, r.data), order[i - |colours|])
  {
    if i >= |colours| { RightRow(WithEnough(psl)[i - |colours|]); }
  }

  lemma {:induction false} TagsAreKeys(colours: seq<Row<Part>>, psl: seq<Row<Stock>>, was: seq<bool>, class_: int)
    requires |was| == |psl|
    ensures TagsFit(BothTables(colours, psl, Order(psl, was, class_)), SuppKeyOf, 2)
  {
    var order := Order(psl, was, class_);
    var table := BothTables(colours, psl, order);
    forall i | 0 <= i < |table| ensures |table[i].1| == 2 && table[i].1[1] == SuppKeyOf(table[i].0.data) {
      BothTablesAt(colours, psl, order, i);
      if i >= |colours| { EnoughRow(psl, i - |colours|); }
    }
  }

  /** A row of PSL that is invalid in T1, and its place there. */
  ghost function TurnedDown(parts: seq<Part>): ((Row<Stock>, bool)) -> bool {
    (z: (Row<Stock>, bool)) => !(z.0.valid && Enough(Double(z.0.data)) && Coloured(parts, z.0.data.partKey))
  }

  ghost function PlaceDown(class_: int): ((Row<Stock>, bool)) -> Key {
    (z: (Row<Stock>, bool)) =>
      StockPlace(z.0.valid && Enough(Double(z.0.data)), ClassOf(class_, z.0.valid, z.1), z.0.data.partKey,
                 z.0.data.suppKey)
  }

  /** The rows of the parts. */
  ghost predicate ColouredRows(parts: seq<Part>, colours: seq<Row<Part>>) {
    |colours| == |parts| && forall i :: 0 <= i < |parts| ==> colours[i] == Row(IsColour(parts[i]), parts[i])
  }

  lemma {:induction false} PartCell(t: Tagged<Stock>)
    ensures TableCell(PartOf)(t) == [if t.valid then 1 else 0, t.data.partKey, if t.fromRight then 1 else 0]
  {
    assert PartOf(t.data) == [t.data.partKey];
    assert GroupCell(PartOf)(t) == [if t.valid then 1 else 0] + [t.data.partKey];
  }

  lemma {:induction false} PartRejected(p: Part, ll: seq<Stock>)
    ensures var z := (Tagged(IsColour(p), false, StockOfColour(p)), [0, 0]);
            Rejects(ll, PartOf)(z) && Place(PartOf)(z) == PartPlace(p)
  {
    PartCell(Tagged(IsColour(p), false, StockOfColour(p)));
  }

  lemma {:induction false} PartsRejected(parts: seq<Part>, colours: seq<Row<Part>>, ll: seq<Stock>)
    requires ColouredRows(parts, colours)
    ensures RejectedPlaces(Zip(Map(colours, FromLeft(StockOfColour)), seq(|colours|, _ => [0, 0])), ll, PartOf)
         == Map(parts, PartPlace)
  {
    var z := Zip(Map(colours, FromLeft(StockOfColour)), seq(|colours|, _ => [0, 0]));
    var all := (p: Part) => true;
    SelectedAll(parts, all);
    forall i | 0 <= i < |parts| ensures Rejects(ll, PartOf)(z[i]) && Place(PartOf)(z[i]) == PartPlace(parts[i]) {
      assert z[i] == (Tagged(IsColour(parts[i]), false, StockOfColour(parts[i])), [0, 0]);
      PartRejected(parts[i], ll);
    }
    SelectAlike(z, parts, Rejects(ll, PartOf), all, Place(PartOf), PartPlace);
  }

  lemma {:induction false} RowRejected(parts: seq<Part>, ll: seq<Stock>, r: Row<Stock>, was: bool, class_: int)
    requires ll == Map(Select(parts, IsColour), StockOfColour)
    ensures var x := Double(r.data);
            var z := (Tagged(r.valid && Enough(x), true, x), [ClassOf(class_, r.valid, was), x.suppKey]);
            && Rejects(ll, PartOf)(z) == TurnedDown(parts)((r, was))
            && Place(PartOf)(z) == PlaceDown(class_)((r, was))
  {
    var x := Double(r.data);
    PartCell(Tagged(r.valid && Enough(x), true, x));
    ColourBit(parts, x);
  }

  lemma {:induction false} RowsRejected(parts: seq<Part>, ll: seq<Stock>, psl: seq<Row<Stock>>, was: seq<bool>,
                                        class_: int)
    requires |was| == |psl| && ll == Map(Select(parts, IsColour), StockOfColour)
    ensures RejectedPlaces(Zip(Map(WithEnough(psl), FromRight(Itself)), Order(psl, was, class_)), ll, PartOf)
         == Map(Select(Zip(psl, was), TurnedDown(parts)), PlaceDown(class_))
  {
    var order, z := Order(psl, was, class_), Zip(psl, was);
    var t := Zip(Map(WithEnough(psl), FromRight(Itself)), order);
    forall i | 0 <= i < |psl|
      ensures Rejects(ll, PartOf)(t[i]) == TurnedDown(parts)(z[i]) && Place(PartOf)(t[i]) == PlaceDown(class_)(z[i])
    {
      EnoughRow(psl, i);
      RightRow(WithEnough(psl)[i]);
      var x := Double(psl[i].data);
      assert t[i] == (Tagged(psl[i].valid && Enough(x), true, x), order[i]) && z[i] == (psl[i], was[i]);
      RowRejected(parts, ll, psl[i], was[i], class_);
    }
    SelectAlike(t, z, Rejects(ll, PartOf), TurnedDown(parts), Place(PartOf), PlaceDown(class_));
  }

  // ----- Live rows turned down -----

  /** By its pair, a live row passes the quantity filter exactly when its stored row exceeds half the sum. */
  lemma {:induction false} LivePasses(pss: seq<PartSupp>, ls: seq<LineItem>, live: seq<Stock>, x: Stock)
    requires UniqueBy(pss, PsKey) && IsGroupBy(Plain(pss, ls), live, PairKey, Itself, AddQty) && x in live
    ensures Enough(Double(x)) <==> Passes(pss, ls, x.partKey, x.suppKey)
  {
    if Enough(Double(x)) { RowPasses(pss, ls, live, x); }
    if ps :| ps in pss && ps.partKey == x.partKey && ps.suppKey == x.suppKey && Exceeds(ls, ps) {
      StockRow(pss, ls, live, ps, x);
      HalfSum(ps.availQty, x.quantity);
    }
  }

  lemma {:induction false} StoredPasses(pss: seq<PartSupp>, ls: seq<LineItem>, ps: PartSupp)
    requires UniqueBy(pss, PsKey) && ps in pss
    ensures Exceeds(ls, ps) <==> Passes(pss, ls, ps.partKey, ps.suppKey)
  {
    if ps' :| ps' in pss && ps'.partKey == ps.partKey && ps'.suppKey == ps.suppKey && Exceeds(ls, ps') {
      UniqueRow(pss, PsKey, ps, ps');
    }
  }

  ghost function KeyDown(pss: seq<PartSupp>, parts: seq<Part>, ls: seq<LineItem>): Key -> bool {
    (k: Key) => |k| == 2 && !(Coloured(parts, k[0]) && Passes(pss, ls, k[0], k[1]))
  }

  ghost function KeyPlace(pss: seq<PartSupp>, ls: seq<LineItem>): Key -> Key {
    (k: Key) => if |k| == 2 then StockPlace(Passes(pss, ls, k[0], k[1]), LiveClass(pss, ls), k[0], k[1]) else []
  }

  lemma {:induction false} LiveDown(pss: seq<PartSupp>, parts: seq<Part>, ls: seq<LineItem>, psl: seq<Row<Stock>>,
                                    was: seq<bool>)
    requires UniqueBy(pss, PsKey) && IsGroupBy(Plain(pss, ls), Live(psl), PairKey, Itself, AddQty)
    requires |was| == |psl| && forall i :: 0 <= i < |psl| && psl[i].valid ==> was[i]
    ensures Map(Select(Select(Zip(psl, was), Validated), TurnedDown(parts)), PlaceDown(LiveClass(pss, ls)))
         == Map(Select(Map(Live(psl), PairKey), KeyDown(pss, parts, ls)), KeyPlace(pss, ls))
  {
    var v, live := Select(Zip(psl, was), Validated), Live(psl);
    RestSplits(psl, was);
    forall i | 0 <= i < |v|
      ensures TurnedDown(parts)(v[i]) == KeyDown(pss, parts, ls)(Map(live, PairKey)[i])
      ensures PlaceDown(LiveClass(pss, ls))(v[i]) == KeyPlace(pss, ls)(Map(live, PairKey)[i])
    {
      LiveZipped(psl, was, i);
      assert live[i] in live;
      LivePasses(pss, ls, live, live[i]);
      assert Map(live, PairKey)[i] == [live[i].partKey, live[i].suppKey];
    }
    SelectAlike(v, Map(live, PairKey), TurnedDown(parts), KeyDown(pss, parts, ls), PlaceDown(LiveClass(pss, ls)),
                KeyPlace(pss, ls));
  }

  lemma {:induction false} LiveZipped(psl: seq<Row<Stock>>, was: seq<bool>, i: nat)
    requires |was| == |psl| && i < |Live(psl)| == |Select(Zip(psl, was), Validated)|
    requires forall i :: 0 <= i < |psl| && psl[i].valid ==> was[i]
    ensures Select(Zip(psl, was), Validated)[i] == (Row(true, Live(psl)[i]), true)
  {
    var v := Select(Zip(psl, was), Validated);
    RestSplits(psl, was);
    LiveSelects(psl);
    SelectMember(Zip(psl, was), Validated, v[i]);
    assert Map(v, First)[i] == First(v[i]);
    assert Live(psl)[i] == DataOf(Select(psl, IsValid)[i]);
  }

  lemma {:induction false} StoredDown(pss: seq<PartSupp>, parts: seq<Part>, ls: seq<LineItem>)
    requires UniqueBy(pss, PsKey)
    ensures Map(Select(Map(Select(pss, Busy(ls)), PsKey), KeyDown(pss, parts, ls)), KeyPlace(pss, ls))
         == DownPlaces(pss, parts, ls)
  {
    var busy := Select(pss, Busy(ls));
    forall ps | ps in pss
      ensures KeyDown(pss, parts, ls)(PsKey(ps)) <==> !(Coloured(parts, ps.partKey) && Exceeds(ls, ps))
      ensures KeyPlace(pss, ls)(PsKey(ps)) == DownPlace(pss, ls)(ps)
    {
      StoredPasses(pss, ls, ps);
    }
    forall ps | ps in busy ensures ps in pss && HasItem(ls, ps) { SelectMember(pss, Busy(ls), ps); }
    forall i | 0 <= i < |busy|
      ensures KeyDown(pss, parts, ls)(Map(busy, PsKey)[i]) == Refused(parts, ls)(busy[i])
      ensures KeyPlace(pss, ls)(Map(busy, PsKey)[i]) == DownPlace(pss, ls)(busy[i])
    {
      assert busy[i] in busy;
    }
    SelectAlike(Map(busy, PsKey), busy, KeyDown(pss, parts, ls), Refused(parts, ls), KeyPlace(pss, ls),
                DownPlace(pss, ls));
    SelectBoth(pss, Busy(ls), Refused(parts, ls), Refused(parts, ls));
  }

  /** The rows of PSL that the second join leaves invalid. */
  lemma {:induction false} DownSplit(pss: seq<PartSupp>, parts: seq<Part>, ls: seq<LineItem>, psl: seq<Row<Stock>>,
                                     was: seq<bool>)
    requires UniqueBy(pss, PsKey) && IsStock(pss, ls, psl, was)
    ensures Perm(Map(Select(Zip(psl, was), TurnedDown(parts)), PlaceDown(LiveClass(pss, ls))),
                 DownPlaces(pss, parts, ls) + Map(Map(Rest(psl, was), RowCell(PairKey)), CellPlace))
  {
    var z, down, place := Zip(psl, was), TurnedDown(parts), PlaceDown(LiveClass(pss, ls));
    MapSplit(Select(z, down), Validated, NotValid, place);
    SelectBoth(z, down, NotValid, NotValid);
    var both := (x: (Row<Stock>, bool)) => down(x) && Validated(x);
    SelectBoth(z, down, Validated, both);
    SelectBoth(z, Validated, down, both);
    LiveDown(pss, parts, ls, psl, was);
    DownPairs(pss, parts, ls, Live(psl));
    RestDown(psl, was, LiveClass(pss, ls));
  }

  lemma {:induction false} RestDown(psl: seq<Row<Stock>>, was: seq<bool>, class_: int)
    requires |was| == |psl|
    ensures Map(Rest(psl, was), PlaceDown(class_)) == Map(Map(Rest(psl, was), RowCell(PairKey)), CellPlace)
  {
    forall x | x in Rest(psl, was) ensures CellPlace(RowCell(PairKey)(x)) == PlaceDown(class_)(x) {
      SelectMember(Zip(psl, was), NotValid, x);
      assert PairKey(x.0.data) == [x.0.data.partKey, x.0.data.suppKey];
      assert RowCell(PairKey)(x) == CellOf(x.1, PairKey(x.0.data));
    }
    MapMap(Rest(psl, was), RowCell(PairKey), CellPlace, PlaceDown(class_));
  }

  /** The live rows turned down are the stored pairs turned down. */
  lemma {:induction false} DownPairs(pss: seq<PartSupp>, parts: seq<Part>, ls: seq<LineItem>, live: seq<Stock>)
    requires UniqueBy(pss, PsKey) && IsGroupBy(Plain(pss, ls), live, PairKey, Itself, AddQty)
    ensures Perm(Map(Select(Map(live, PairKey), KeyDown(pss, parts, ls)), KeyPlace(pss, ls)),
                 DownPlaces(pss, parts, ls))
  {
    StoredDown(pss, parts, ls);
    LivePairs(pss, ls, live);
    var k, p := KeyDown(pss, parts, ls), KeyPlace(pss, ls);
    var a, b := Map(live, PairKey), Map(Select(pss, Busy(ls)), PsKey);
    SelectPerm(a, b, k);
    MapPerm(Select(a, k), Select(b, k), p);
  }

  /** All the rejected places of the second join. */
  lemma {:induction false} RejectedAre(pss: seq<PartSupp>, parts: seq<Part>, ls: seq<LineItem>,
                                       colours: seq<Row<Part>>, psl: seq<Row<Stock>>, was: seq<bool>)
    requires UniqueBy(pss, PsKey) && IsStock(pss, ls, psl, was) && ColouredRows(parts, colours)
    requires Live(colours) == Select(parts, IsColour)
    ensures Perm(RejectedPlaces(BothTables(colours, psl, Order(psl, was, LiveClass(pss, ls))), ColourRows(colours),
                                PartOf),
                 Map(parts, PartPlace) +
                 (DownPlaces(pss, parts, ls) + Map(Map(Rest(psl, was), RowCell(PairKey)), CellPlace)))
  {
    var order, ll := Order(psl, was, LiveClass(pss, ls)), ColourRows(colours);
    var a := Zip(Map(colours, FromLeft(StockOfColour)), seq(|colours|, _ => [0, 0]));
    var b := Zip(Map(WithEnough(psl), FromRight(Itself)), order);
    assert BothTables(colours, psl, order) == a + b;
    SelectAppend(a, b, Rejects(ll, PartOf));
    MapAppend(Select(a, Rejects(ll, PartOf)), Select(b, Rejects(ll, PartOf)), Place(PartOf));
    PartsRejected(parts, colours, ll);
    RowsRejected(parts, ll, psl, was, LiveClass(pss, ls));
    DownSplit(pss, parts, ls, psl, was);
  }

  /** Exactly the rejected keys. */
  lemma {:induction false} RejectedKeys(pss: seq<PartSupp>, parts: seq<Part>, ls: seq<LineItem>, places: seq<Key>,
                                        rest: seq<Key>, k: int)
    requires StockPlaces(pss, ls, rest)
    requires Perm(places, Map(parts, PartPlace) + (DownPlaces(pss, parts, ls) + rest))
    ensures KeptPlace(places, |places| - if TrimsAgain(pss, parts, ls) then |parts| else 0, k)
       <==> Rejected(pss, parts, ls, k)
  {
    var a, b := Map(parts, PartPlace), DownPlaces(pss, parts, ls);
    PermLength(places, a + (b + rest));
    forall g
      ensures g in places <==> HasPlace(pss, parts, ls, g)
      ensures Sum(places, BelowTo(g)) == RejectsBelow(pss, parts, ls, g)
    {
      PermMember(places, a + (b + rest), g);
      SumPerm(places, a + (b + rest), BelowTo(g));
      SumAppend(a, b + rest, BelowTo(g));
      SumAppend(b, rest, BelowTo(g));
      assert CountBelow(rest, g) == Sum(rest, BelowTo(g));
    }
  }

  // ----- The lost key -----

  /** The smallest key of the subquery is also the largest rejected key. */
  ghost predicate Loses(pss: seq<PartSupp>, parts: seq<Part>, ls: seq<LineItem>, k: int) {
    && Listed(pss, parts, ls, k) && (forall j :: Listed(pss, parts, ls, j) ==> k <= j)
    && Rejected(pss, parts, ls, k) && (forall j :: Rejected(pss, parts, ls, j) ==> j <= k)
  }

  /** What T1 holds before distinct. */
  ghost predicate IsT1(pss: seq<PartSupp>, parts: seq<Part>, ls: seq<LineItem>, t1: seq<Row<Stock>>) {
    && (forall k :: HasKey(Live(t1), SuppOf, [k]) <==> Listed(pss, parts, ls, k))
    && (forall k :: InvalidValue(t1, SuppKeyOf, k) <==> Rejected(pss, parts, ls, k))
  }

  lemma {:induction false} RowKeyed(pss: seq<PartSupp>, parts: seq<Part>, ls: seq<LineItem>, t1: seq<Row<Stock>>,
                                    r: Row<Stock>)
    requires IsT1(pss, parts, ls, t1) && r in t1
    ensures if r.valid then Listed(pss, parts, ls, r.data.suppKey) else Rejected(pss, parts, ls, r.data.suppKey)
  {
    assert SuppOf(r.data) == [r.data.suppKey];
    if r.valid {
      var i :| 0 <= i < |t1| && t1[i] == r;
      LiveMember(t1, r.data);
      assert HasKey(Live(t1), SuppOf, [r.data.suppKey]);
    } else {
      assert InvalidValue(t1, SuppKeyOf, r.data.suppKey);
    }
  }

  /** A listed or rejected key has its row. */
  lemma {:induction false} KeyedRow(pss: seq<PartSupp>, parts: seq<Part>, ls: seq<LineItem>, t1: seq<Row<Stock>>,
                                    valid: bool, k: int)
    returns (r: Row<Stock>)
    requires IsT1(pss, parts, ls, t1) && if valid then Listed(pss, parts, ls, k) else Rejected(pss, parts, ls, k)
    ensures r in t1 && r.valid == valid && r.data.suppKey == k && SuppOf(r.data) == [k]
  {
    if valid {
      assert HasKey(Live(t1), SuppOf, [k]);
      var x :| x in Live(t1) && SuppOf(x) == [k];
      LiveMember(t1, x);
      var i :| 0 <= i < |t1| && t1[i].valid && t1[i].data == x;
      r := t1[i];
    } else {
      assert InvalidValue(t1, SuppKeyOf, k);
      r :| r in t1 && !r.valid && SuppKeyOf(r.data) == k;
    }
    OneColumn(r.data.suppKey, k);
  }

  /** Exactly which key is lost, from the stored tables. */
  lemma {:induction false} LostIff(pss: seq<PartSupp>, parts: seq<Part>, ls: seq<LineItem>, t1: seq<Row<Stock>>, k: int)
    requires IsT1(pss, parts, ls, t1)
    ensures Lost(t1, k) <==> Loses(pss, parts, ls, k)
  {
    if Lost(t1, k) {
      LostLoses(pss, parts, ls, t1, k);
    }
    if Loses(pss, parts, ls, k) {
      var a := KeyedRow(pss, parts, ls, t1, true, k);
      var b := KeyedRow(pss, parts, ls, t1, false, k);
      forall r | r in t1 ensures if r.valid then Leq([k], SuppOf(r.data)) else Leq(SuppOf(r.data), [k]) {
        RowKeyed(pss, parts, ls, t1, r);
        OneColumn(r.data.suppKey, k);
        OneColumn(k, r.data.suppKey);
      }
    }
  }

  lemma {:induction false} LostLoses(pss: seq<PartSupp>, parts: seq<Part>, ls: seq<LineItem>, t1: seq<Row<Stock>>,
                                     k: int)
    requires IsT1(pss, parts, ls, t1) && Lost(t1, k)
    ensures Loses(pss, parts, ls, k)
  {
    var a :| a in t1 && a.valid && SuppOf(a.data) == [k];
    var b :| b in t1 && !b.valid && SuppOf(b.data) == [k];
    OneColumn(a.data.suppKey, k);
    OneColumn(b.data.suppKey, k);
    RowKeyed(pss, parts, ls, t1, a);
    RowKeyed(pss, parts, ls, t1, b);
    forall j | Listed(pss, parts, ls, j) ensures k <= j {
      var r := KeyedRow(pss, parts, ls, t1, true, j);
      OneColumn(k, j);
    }
    forall j | Rejected(pss, parts, ls, j) ensures j <= k {
      var r := KeyedRow(pss, parts, ls, t1, false, j);
      OneColumn(j, k);
    }
  }

  // ----- For callers -----

  lemma {:induction false} BelowFits(q: seq<Key>, g: Key)
    ensures CountBelow(q, g) <= |q| && (g in q ==> CountBelow(q, g) < |q|)
  {
    if q != [] { BelowFits(q[..|q| - 1], g); }
  }

  /** Where the second join is not trimmed, every place stays. */
  lemma {:induction false} PlaceStays(pss: seq<PartSupp>, parts: seq<Part>, ls: seq<LineItem>, g: Key, k: int)
    requires !TrimsAgain(pss, parts, ls) && HasPlace(pss, parts, ls, g) && LastIs(g, k)
    ensures Rejected(pss, parts, ls, k)
  {
    BelowFits(Map(parts, PartPlace), g);
    BelowFits(DownPlaces(pss, parts, ls), g);
    BelowFits(OutPlaces(ls), g);
  }

  lemma {:induction false} OutsideHasPlace(pss: seq<PartSupp>, parts: seq<Part>, ls: seq<LineItem>, l: LineItem)
    requires l in ls && !InWindow(l)
    ensures HasPlace(pss, parts, ls, OutPlace(l)) && LastIs(OutPlace(l), l.suppKey)
  {
    SelectMember(ls, Outside, l);
    MapMember(Select(ls, Outside), OutPlace);
  }

  /** One line item outside the window, of a supplier above some key of the subquery, saves them all; if the second
      join is trimmed too, one that this trim keeps. */
  lemma {:induction false} OutsideSaves(pss: seq<PartSupp>, parts: seq<Part>, ls: seq<LineItem>, l: LineItem, j: int)
    requires l in ls && !InWindow(l) && Listed(pss, parts, ls, j) && j < l.suppKey
    requires TrimsAgain(pss, parts, ls) ==> RejectsBelow(pss, parts, ls, OutPlace(l)) < RejectSize(pss, parts, ls)
    ensures forall k :: !Loses(pss, parts, ls, k)
  {
    OutsideHasPlace(pss, parts, ls, l);
    if !TrimsAgain(pss, parts, ls) { PlaceStays(pss, parts, ls, OutPlace(l), l.suppKey); }
    assert Rejected(pss, parts, ls, l.suppKey);
  }

  /** No supplier key of the stored tables, nor the zero of the part rows, exceeds k. */
  ghost predicate TopKey(pss: seq<PartSupp>, ls: seq<LineItem>, k: int) {
    0 <= k && (forall ps :: ps in pss ==> ps.suppKey <= k) && (forall l :: l in ls ==> l.suppKey <= k)
  }

  /** Where neither join is trimmed, every stored key is rejected. */
  lemma {:induction false} ItemRejected(pss: seq<PartSupp>, parts: seq<Part>, ls: seq<LineItem>, l: LineItem)
    requires !Trims(|pss|, |ls|, 3) && !TrimsAgain(pss, parts, ls) && l in ls
    ensures Rejected(pss, parts, ls, l.suppKey)
  {
    if InWindow(l) {
      SelectMember(ls, InWindow, l);
      MapMember(Select(ls, InWindow), ItemPlace);
      BelowFits(PoolPlaces(pss, ls), ItemPlace(l));
      PlaceStays(pss, parts, ls, ItemPlace(l), l.suppKey);
    } else {
      OutsideHasPlace(pss, parts, ls, l);
      PlaceStays(pss, parts, ls, OutPlace(l), l.suppKey);
    }
  }

  lemma {:induction false} StoredRejected(pss: seq<PartSupp>, parts: seq<Part>, ls: seq<LineItem>, ps: PartSupp)
    requires !Trims(|pss|, |ls|, 3) && !TrimsAgain(pss, parts, ls) && ps in pss
    ensures Rejected(pss, parts, ls, ps.suppKey)
  {
    if HasItem(ls, ps) {
      var l :| l in ls && ItemOf(ps.partKey, ps.suppKey, l);
      ItemRejected(pss, parts, ls, l);
    } else {
      SelectMember(pss, Idle(ls), ps);
      MapMember(Select(pss, Idle(ls)), IdlePlace);
      BelowFits(PoolPlaces(pss, ls), IdlePlace(ps));
      PlaceStays(pss, parts, ls, IdlePlace(ps), ps.suppKey);
    }
  }

  lemma {:induction false} ZeroRejected(pss: seq<PartSupp>, parts: seq<Part>, ls: seq<LineItem>)
    requires !TrimsAgain(pss, parts, ls) && parts != []
    ensures Rejected(pss, parts, ls, 0)
  {
    MapMember(parts, PartPlace);
    PlaceStays(pss, parts, ls, PartPlace(parts[0]), 0);
  }

  /** Where neither join is trimmed, only a sole key that is also the largest one stored is lost. */
  lemma {:induction false} UntrimmedLoses(pss: seq<PartSupp>, parts: seq<Part>, ls: seq<LineItem>, k: int)
    requires !Trims(|pss|, |ls|, 3) && !TrimsAgain(pss, parts, ls)
    ensures Loses(pss, parts, ls, k) <==>
      Listed(pss, parts, ls, k) && TopKey(pss, ls, k) && forall j :: Listed(pss, parts, ls, j) ==> j == k
  {
    forall ps | ps in pss ensures Rejected(pss, parts, ls, ps.suppKey) { StoredRejected(pss, parts, ls, ps); }
    forall l | l in ls ensures Rejected(pss, parts, ls, l.suppKey) { ItemRejected(pss, parts, ls, l); }
    forall j | Listed(pss, parts, ls, j) ensures Rejected(pss, parts, ls, j) && parts != [] {
      var ps :| ps in pss && Supplies(parts, ls, j, ps);
      assert ps.suppKey == j;
    }
    if parts != [] { ZeroRejected(pss, parts, ls); }
    forall j | Rejected(pss, parts, ls, j) ensures j == 0 || StoredKey(pss, ls, j) {
      RejectedStored(pss, parts, ls, j);
    }
  }

  ghost predicate StoredKey(pss: seq<PartSupp>, ls: seq<LineItem>, k: int) {
    (exists ps :: ps in pss && ps.suppKey == k) || (exists l :: l in ls && l.suppKey == k)
  }

  lemma {:induction false} RejectedStored(pss: seq<PartSupp>, parts: seq<Part>, ls: seq<LineItem>, k: int)
    requires Rejected(pss, parts, ls, k)
    ensures k == 0 || StoredKey(pss, ls, k)
  {
    var g :| HasPlace(pss, parts, ls, g) && RejectsBelow(pss, parts, ls, g) < RejectSize(pss, parts, ls) &&
             LastIs(g, k);
    PlaceStored(pss, parts, ls, g);
  }

  lemma {:induction false} PlaceStored(pss: seq<PartSupp>, parts: seq<Part>, ls: seq<LineItem>, g: Key)
    requires HasPlace(pss, parts, ls, g)
    ensures |g| == 5 && (g[4] == 0 || StoredKey(pss, ls, g[4]))
  {
    MapMember(parts, PartPlace);
    MapMember(Select(pss, Refused(parts, ls)), DownPlace(pss, ls));
    MapMember(Select(pss, Idle(ls)), IdlePlace);
    MapMember(Select(ls, Outside), OutPlace);
    MapMember(Select(ls, InWindow), ItemPlace);
    forall ps | ps in Select(pss, Refused(parts, ls)) || ps in Select(pss, Idle(ls)) ensures ps in pss {
      SelectMember(pss, Refused(parts, ls), ps);
      SelectMember(pss, Idle(ls), ps);
    }
    forall l | l in Select(ls, Outside) || l in Select(ls, InWindow) ensures l in ls {
      SelectMember(ls, Outside, l);
      SelectMember(ls, InWindow, l);
    }
  }

  // ----- The plan -----

  lemma {:induction false} Ops()
    ensures FixedWidth(PairKey) && CopyColumns(CopyAvail, PairKey)
    ensures Associative(AddQty) && KeyStable(PairKey, Itself, AddQty)
  {
  }

  lemma {:induction false} Widths()
    ensures FixedWidth(PartOf) && FixedWidth(SupplierNation) && FixedWidth(SupplierKey)
  {
  }

  predicate FromDate(l: LineItem) { l.shipDate >= DATE }
  predicate UntilDate(l: LineItem) { l.shipDate < DATE + DATE_INTERVAL }

  lemma {:induction false} DateRows(ls: seq<LineItem>, items: seq<Row<LineItem>>)
    requires items == Filtered(Filtered(ValidRows(ls), FromDate), UntilDate)
    ensures Live(items) == Select(ls, InWindow) && WindowRows(ls, items)
  {
    LiveValidRows(ls);
    LiveFiltered(ValidRows(ls), FromDate);
    LiveFiltered(Filtered(ValidRows(ls), FromDate), UntilDate);
    SelectBoth(ls, FromDate, UntilDate, InWindow);
    forall i | 0 <= i < |ls| ensures items[i] == Row(InWindow(ls[i]), ls[i]) {
      assert ValidRows(ls)[i] == Row(true, ls[i]);
      assert Filtered(ValidRows(ls), FromDate)[i] == Row(FromDate(ls[i]), ls[i]);
    }
  }

  /** Lines 116-117: the line items of the window. */
  method ShippedItems(ls: seq<LineItem>) returns (items: seq<Row<LineItem>>)
    ensures Live(items) == Select(ls, InWindow) && WindowRows(ls, items)
  {
    var l := new EncodedTable(ls, LineItem(0, 0, 0, 0));
    l.Filter(FromDate);
    l.Filter(UntilDate);
    items := l.rows;
    DateRows(ls, items);
  }

  /** What the join leaves, from its contract. */
  lemma {:induction false} StockMeans(pss: seq<PartSupp>, ls: seq<LineItem>, items: seq<Row<LineItem>>,
                                      psl: seq<Row<Stock>>, was: seq<bool>, rest: seq<Key>)
    requires UniqueBy(pss, PsKey) && WindowRows(ls, items) && |psl| == StockSize(pss, ls)
    requires IsGroupBy(Plain(pss, ls), Live(psl), PairKey, Itself, AddQty)
    requires LeavesRest(JoinTable(pss, items), psl, was, rest, PairKey, if Trims(|pss|, |ls|, 3) then |pss| else 0)
    ensures IsStock(pss, ls, psl, was)
  {
    RestCells(pss, ls, items, Live(psl), rest);
    RestPlacesAre(pss, ls, rest);
    PoolSuffices(pss, ls);
    KeptPlaces(pss, ls, rest, if Trims(|pss|, |ls|, 3) then |pss| else 0);
  }

  /** Lines 127-128: the join with aggregation. */
  method StockTable(pss: seq<PartSupp>, ls: seq<LineItem>) returns (psl: seq<Row<Stock>>, ghost was: seq<bool>)
    requires |pss| + |ls| >= 2 && UniqueBy(pss, PsKey)
    ensures IsStock(pss, ls, psl, was)
  {
    Ops();
    var ps := new EncodedTable(pss, PartSupp(0, 0, 0));
    var items := ShippedItems(ls);
    UniqueMap(pss, StockOfPart, PsKey, PairKey);
    ghost var rest;
    psl, was, rest :=
      AggregatingJoin(ps.rows, items, StockOfPart, StockOfItem, PairKey, CopyAvail, Itself, AddQty, NOSTOCK, 3);
    StockMeans(pss, ls, items, psl, was, rest);
  }

  /** Lines 112 and 138-140: doubled availability against the sum; part names against the colour. */
  method PassingRows(psl: seq<Row<Stock>>, parts: seq<Part>) returns (rows: seq<Row<Stock>>, colours: seq<Row<Part>>)
    ensures rows == WithEnough(psl) && Live(rows) == Select(Map(Live(psl), Double), Enough)
    ensures ColouredRows(parts, colours) && Live(colours) == Select(parts, IsColour)
  {
    var table := new EncodedTable.FromRows(psl, NOSTOCK);
    table.Assign((r: Row<Stock>) => Double(r.data));
    assert Live(table.rows) == Map(Live(psl), Double);
    table.Filter(Enough);
    rows := table.rows;
    var p := new EncodedTable(parts, Part(0, 0));
    p.Filter(IsColour);
    colours := p.rows;
  }

  /** What T1 holds, from the facts about the tables it was made of. */
  lemma {:induction false} ListedMeans(pss: seq<PartSupp>, parts: seq<Part>, ls: seq<LineItem>, psl: seq<Row<Stock>>,
                                       t1: seq<Row<Stock>>)
    requires UniqueBy(pss, PsKey) && IsGroupBy(Plain(pss, ls), Live(psl), PairKey, Itself, AddQty)
    requires Perm(Live(t1),
                  SemiJoin(Map(Select(parts, IsColour), StockOfColour), Select(Map(Live(psl), Double), Enough), PartOf))
    ensures forall k :: HasKey(Live(t1), SuppOf, [k]) <==> Listed(pss, parts, ls, k)
  {
    var stock := Select(Map(Live(psl), Double), Enough);
    forall a, b ensures HasKey(stock, PairKey, [a, b]) <==> Passes(pss, ls, a, b) {
      StockPasses(pss, ls, Live(psl), a, b);
    }
    forall k ensures HasKey(Live(t1), SuppOf, [k]) <==> Listed(pss, parts, ls, k) {
      ListedRows(pss, parts, ls, stock, Live(t1), k);
    }
  }

  /** Lines 127-152: the rows of T1 before distinct. */
  method ListedTable(pss: seq<PartSupp>, parts: seq<Part>, ls: seq<LineItem>) returns (t1: seq<Row<Stock>>)
    requires |pss| + |ls| >= 2 && |ls| >= 1 && |parts| >= 1 && UniqueBy(pss, PsKey)
    ensures |t1| >= 1 && IsT1(pss, parts, ls, t1)
  {
    Widths();
    ghost var was;
    var psl;
    psl, was := StockTable(pss, ls);
    var rows, colours := PassingRows(psl, parts);
    MapItself(Live(rows));
    ghost var order := Order(psl, was, LiveClass(pss, ls));
    OrderRespected(pss, ls, psl, was);
    TagsAreKeys(colours, psl, was, LiveClass(pss, ls));
    t1 := TracedSemiJoin(rows, colours, Itself, StockOfColour, PartOf, NOSTOCK, 1, order, [0, 0], SuppKeyOf, 2);
    ListedMeans(pss, parts, ls, psl, t1);
    RejectedAre(pss, parts, ls, colours, psl, was);
    ghost var places := RejectedPlaces(BothTables(colours, psl, order), ColourRows(colours), PartOf);
    forall k ensures InvalidValue(t1, SuppKeyOf, k) <==> Rejected(pss, parts, ls, k) {
      RejectedKeys(pss, parts, ls, places, Map(Map(Rest(psl, was), RowCell(PairKey)), CellPlace), k);
    }
  }

  lemma {:induction false} KeptBit(after: seq<Stock>, s: Supplier)
    ensures Matched(Map(after, StockSupplier), SupplierKey)(s) <==> HasKey(after, SuppOf, [s.suppKey])
  {
    WithKeySome(Map(after, StockSupplier), SupplierKey, SupplierKey(s));
    HasKeyMap(after, StockSupplier, SuppOf, SupplierKey, SupplierKey(s));
  }

  /** A supplier whose key the plan does not lose. */
  ghost predicate Returned(pss: seq<PartSupp>, parts: seq<Part>, ls: seq<LineItem>, s: Supplier) {
    !Loses(pss, parts, ls, s.suppKey)
  }

  /** The last semi join returns the query's suppliers that distinct did not lose. */
  lemma {:induction false} FinalRows(ss: seq<Supplier>, pss: seq<PartSupp>, parts: seq<Part>, ns: seq<Nation>,
                                     ls: seq<LineItem>, sn: seq<Supplier>, t1: seq<Row<Stock>>, after: seq<Stock>,
                                     t2: seq<Supplier>)
    requires UniqueBy(ns, NationKeyOf)
    requires Perm(sn, SemiJoin(Map(Select(ns, IsNation), NationSupplier), ss, SupplierNation))
    requires IsT1(pss, parts, ls, t1) && IsDistinct(t1, after, SuppOf)
    requires Perm(t2, SemiJoin(Map(after, StockSupplier), sn, SupplierKey))
    ensures Perm(t2, Select(Query(ss, pss, parts, ns, ls), s => Returned(pss, parts, ls, s)))
  {
    var m := Matched(Map(after, StockSupplier), SupplierKey);
    var local := Matched(Map(Select(ns, IsNation), NationSupplier), SupplierNation);
    SelectPerm(sn, Select(ss, local), m);
    forall s: Supplier ensures local(s) && m(s) <==> Chosen(pss, parts, ns, ls, s) && Returned(pss, parts, ls, s) {
      LocalBit(ns, s);
      KeptBit(after, s);
      DistinctKeysOf(t1, after, s.suppKey);
      LostIff(pss, parts, ls, t1, s.suppKey);
    }
    SelectBoth(ss, local, m, s => local(s) && m(s));
    QuerySelects(ss, pss, parts, ns, ls);
    SelectBoth(ss, s => Chosen(pss, parts, ns, ls, s), s => Returned(pss, parts, ls, s), s => local(s) && m(s));
  }

  /** Nothing is missing exactly when no supplier of the query is lost. */
  lemma {:induction false} CompleteIff(query: seq<Supplier>, p: Supplier -> bool, result: seq<Answer>)
    requires Perm(result, Map(Select(query, p), ToAnswer))
    ensures Perm(result, Map(Select(query, p), Output))
    ensures Perm(result, Map(query, Output)) <==> forall s :: s in query ==> p(s)
  {
    var some := Select(query, p);
    forall i | 0 <= i < |some| ensures Map(some, ToAnswer)[i] == Map(some, Output)[i] {
      assert ToAnswer(some[i]) == Output(some[i]);
    }
    assert Map(some, ToAnswer) == Map(some, Output);
    PermLength(result, Map(Select(query, p), Output));
    SelectedAll(query, p);
    if Perm(result, Map(query, Output)) { PermLength(result, Map(query, Output)); }
  }

  /** The whole query. The opened rows, in name order, are the query's less the suppliers whose key distinct loses:
      the key `Loses` names from the stored tables. */
  method Plan(ss: seq<Supplier>, pss: seq<PartSupp>, parts: seq<Part>, ns: seq<Nation>, ls: seq<LineItem>)
    returns (result: seq<Answer>)
    requires |ss| >= 1 && |pss| >= 1 && |parts| >= 1 && |ns| >= 1 && |ls| >= 1
    requires UniqueBy(pss, PsKey) && UniqueBy(ns, NationKeyOf)
    ensures SortedBy(result, NameOf)
    ensures var query := Query(ss, pss, parts, ns, ls);
      && Perm(result, Map(Select(query, s => Returned(pss, parts, ls, s)), Output))
      && (Perm(result, Map(query, Output)) <==> forall s :: s in query ==> Returned(pss, parts, ls, s))
  {
    Widths();
    var s := new EncodedTable(ss, NOBODY);
    var n := new EncodedTable(ns, Nation(0, 0));
    n.Filter(IsNation);
    MapItself(ss);
    var sn := SemiJoinTables(s.rows, n.rows, Itself, NationSupplier, SupplierNation, NOBODY, 1);
    var t1 := ListedTable(pss, parts, ls);
    var table := new EncodedTable.FromRows(t1, NOSTOCK);
    table.Distinct(SuppOf);
    MapItself(Live(sn));
    var t2 := SemiJoinTables(sn, table.rows, Itself, StockSupplier, SupplierKey, NOBODY, 1);
    ghost var query, kept := Query(ss, pss, parts, ns, ls), s => Returned(pss, parts, ls, s);
    FinalRows(ss, pss, parts, ns, ls, Live(sn), t1, Live(table.rows), Live(t2));
    result := InNameOrder(t2);
    MapPerm(Live(t2), Select(query, kept), ToAnswer);
    CompleteIff(query, kept, result);
  }

  function SupplierName(s: Supplier): Key { [s.name] }

  /** Line 161: sort by name, then open. */
  method InNameOrder(t2: seq<Row<Supplier>>) returns (result: seq<Answer>)
    ensures SortedBy(result, NameOf) && Perm(result, Map(Live(t2), ToAnswer))
  {
    var sorted := Sort(t2, (r: Row<Supplier>) => SupplierName(r.data));
    LiveOrder(sorted, SupplierName);
    LivePerm(sorted, t2);
    MapPerm(Live(sorted), Live(t2), ToAnswer);
    result := Map(Live(sorted), ToAnswer);
    forall i | 0 <= i < |result| ensures NameOf(result[i]) == SupplierName(Live(sorted)[i]) {
    }
  }

  /** The sizes the generator gives: LINEITEM has one to seven rows per order and one more, PARTSUPP four rows for
      every part, and there are 15 orders for every two parts. The first join is always trimmed; the second is not
      once there are 64 line items for every three parts. */
  lemma {:induction false} GeneratedSizes(parts: nat, lines: nat)
    requires parts >= 10 && 2 * lines <= 7 * 15 * parts + 2
    ensures Trims(4 * parts, lines, 3)
    ensures 3 * lines >= 64 * parts ==> !Trims(parts, lines, 1)
  {
  }

  const LOST_PAIRS := [PartSupp(1, 2, 0), PartSupp(1, 3, 5)]
  function LostItems(n: nat): (r: seq<LineItem>)
    ensures |r| == n
  {
    seq(n, i => LineItem(1, 3, DATE, 0))
  }

  /** A part of two suppliers, only one of them with line items, all inside the window: the first join is trimmed,
      the second one up to 20 line items, and the one supplier the query has is lost. */
  lemma {:induction false} LostSupplier(n: nat)
    requires 3 <= n <= 25
    ensures var ss, ns, parts, ls := [Supplier(3, 1, 1, 0)], [Nation(0, NATION)], [Part(1, COLOR)], LostItems(n);
            && Trims(|LOST_PAIRS|, |ls|, 3) && (TrimsAgain(LOST_PAIRS, parts, ls) <==> n <= 20)
            && Query(ss, LOST_PAIRS, parts, ns, ls) == ss && Loses(LOST_PAIRS, parts, ls, 3)
  {
    var ss, ns, parts, ls := [Supplier(3, 1, 1, 0)], [Nation(0, NATION)], [Part(1, COLOR)], LostItems(n);
    LostListed(parts, n);
    assert Home(ss[0], ns[0]) && ns[0] in ns;
    QuerySelects(ss, LOST_PAIRS, parts, ns, ls);
    SelectedAll(ss, s => Chosen(LOST_PAIRS, parts, ns, ls, s));
    LostRejected(parts, n);
  }

  lemma {:induction false} LostListed(parts: seq<Part>, n: nat)
    requires parts == [Part(1, COLOR)] && n >= 1
    ensures forall k :: Listed(LOST_PAIRS, parts, LostItems(n), k) <==> k == 3
  {
    var pss, ls := LOST_PAIRS, LostItems(n);
    assert ls[0] in ls && ItemOf(1, 3, ls[0]);
    SumSame(ls, l => QtyTerm(1, 3, l), l => 0);
    SumZero(ls);
    assert pss[1] in pss && parts[0] in parts;
    assert Coloured(parts, 1) && Supplies(parts, ls, 3, pss[1]);
    assert !AnyItem(ls, 1, 2);
  }

  lemma {:induction false} LostPool(n: nat)
    requires n >= 1
    ensures PoolPlaces(LOST_PAIRS, LostItems(n)) == [IdlePlace(LOST_PAIRS[0])] + Map(LostItems(n), ItemPlace)
  {
    var pss, ls := LOST_PAIRS, LostItems(n);
    SelectedAll(ls, InWindow);
    assert ls[0] in ls && ItemOf(1, 3, ls[0]);
    assert HasItem(ls, pss[1]) && !HasItem(ls, pss[0]);
    SelectAppend([pss[0]], [pss[1]], Idle(ls));
    SelectedAll([pss[0]], Idle(ls));
    SelectNone([pss[1]], Idle(ls));
    assert pss == [pss[0]] + [pss[1]];
    assert Map([pss[0]], IdlePlace) == [IdlePlace(pss[0])];
  }

  lemma {:induction false} LostRejected(parts: seq<Part>, n: nat)
    requires parts == [Part(1, COLOR)] && 3 <= n <= 25
    ensures Rejected(LOST_PAIRS, parts, LostItems(n), 3)
    ensures forall j :: Rejected(LOST_PAIRS, parts, LostItems(n), j) ==> j <= 3
  {
    var pss, ls := LOST_PAIRS, LostItems(n);
    var idle, items := IdlePlace(pss[0]), Map(ls, ItemPlace);
    LostPool(n);
    var g := items[0];
    assert g in items;
    SumAppend([idle], items, BelowTo(g));
    SumSingle(idle, BelowTo(g));
    SumSame(items, BelowTo(g), x => 0);
    SumZero(items);
    assert Map(parts, PartPlace) == [PartPlace(parts[0])];
    SumSingle(PartPlace(parts[0]), BelowTo(g));
    BelowFits(DownPlaces(pss, parts, ls), g);
    BelowFits(OutPlaces(ls), g);
    assert HasPlace(pss, parts, ls, g);
    forall j | Rejected(pss, parts, ls, j) ensures j <= 3 {
      RejectedStored(pss, parts, ls, j);
    }
  }
}
