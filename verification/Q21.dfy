/** TPC-H Q21 (bench/queries/tpch/q21.cpp): suppliers who kept orders waiting, clause 2.4.21 of the TPC-H
    Specification v3.0.1. */
module Q21 {
  import opened Bags
  import opened PrefixNetworks
  import opened Tables
  import opened Joins
  import opened Q21Sole

  datatype Supplier = Supplier(suppKey: int, name: int, nationKey: int)
  datatype Order = Order(orderKey: int, orderStatus: int)
  datatype Nation = Nation(nationKey: int, name: int)

  /** A late line item joined with its supplier: tables NSOL and W. */
  datatype Wait = Wait(orderKey: int, suppKey: int, name: int, nationKey: int, orderCount: int, numWait: int)

  // ----- The SQL -----

  ghost predicate Waiting(ls: seq<LineItem>, l: LineItem) {
    l.receiptDate > l.commitDate && OtherSupplier(ls, l.orderKey, l.suppKey) && !OtherLate(ls, l.orderKey, l.suppKey)
  }

  /** One tuple of the FROM clause: 1 when it satisfies the WHERE clause and belongs to the group `name`. */
  ghost function Term(ls: seq<LineItem>, nation: int, name: int, l: LineItem, s: Supplier, o: Order, n: Nation): int {
    if s.suppKey == l.suppKey && o.orderKey == l.orderKey && o.orderStatus == 0 && Waiting(ls, l) &&
       s.nationKey == n.nationKey && n.name == nation && s.name == name then 1 else 0
  }

  ghost function OverNations(ls: seq<LineItem>, ns: seq<Nation>, nation: int, name: int, l: LineItem, s: Supplier,
                             o: Order): int {
    Sum(ns, n => Term(ls, nation, name, l, s, o, n))
  }

  ghost function OverOrders(ls: seq<LineItem>, os: seq<Order>, ns: seq<Nation>, nation: int, name: int, l: LineItem,
                            s: Supplier): int {
    Sum(os, o => OverNations(ls, ns, nation, name, l, s, o))
  }

  ghost function OverSuppliers(ss: seq<Supplier>, ls: seq<LineItem>, os: seq<Order>, ns: seq<Nation>, nation: int,
                               name: int, l: LineItem): int {
    Sum(ss, s => OverOrders(ls, os, ns, nation, name, l, s))
  }

  /** count(*) of the group `name`; the group appears in the result when this is positive. */
  ghost function NumWait(ss: seq<Supplier>, ls: seq<LineItem>, os: seq<Order>, ns: seq<Nation>, nation: int,
                         name: int): int {
    Sum(ls, l => OverSuppliers(ss, ls, os, ns, nation, name, l))
  }

  // ----- The same count, factor by factor -----

  function OrderTerm(k: int, o: Order): int { if o.orderKey == k && o.orderStatus == 0 then 1 else 0 }
  function NationTerm(nation: int, k: int, n: Nation): int { if n.nationKey == k && n.name == nation then 1 else 0 }

  ghost function OpenOrders(os: seq<Order>, k: int): int { Sum(os, o => OrderTerm(k, o)) }
  ghost function Nations(ns: seq<Nation>, nation: int, k: int): int { Sum(ns, n => NationTerm(nation, k, n)) }

  ghost function SupplierTerm(ns: seq<Nation>, nation: int, name: int, k: int, s: Supplier): int {
    if s.suppKey == k && s.name == name then Nations(ns, nation, s.nationKey) else 0
  }

  ghost function NamedSuppliers(ss: seq<Supplier>, ns: seq<Nation>, nation: int, name: int, k: int): int {
    Sum(ss, s => SupplierTerm(ns, nation, name, k, s))
  }

  ghost function ItemTerm(ss: seq<Supplier>, ls: seq<LineItem>, os: seq<Order>, ns: seq<Nation>, nation: int, name: int,
                          l: LineItem): int {
    if Waiting(ls, l) then OpenOrders(os, l.orderKey) * NamedSuppliers(ss, ns, nation, name, l.suppKey) else 0
  }

  lemma {:induction false} FactorOrders(ls: seq<LineItem>, os: seq<Order>, ns: seq<Nation>, nation: int, name: int,
                                        l: LineItem, s: Supplier)
    ensures OverOrders(ls, os, ns, nation, name, l, s)
         == if Waiting(ls, l) then OpenOrders(os, l.orderKey) * SupplierTerm(ns, nation, name, l.suppKey, s) else 0
  {
    var c := if Waiting(ls, l) then SupplierTerm(ns, nation, name, l.suppKey, s) else 0;
    forall o
      ensures OverNations(ls, ns, nation, name, l, s, o) == c * OrderTerm(l.orderKey, o)
    {
      var d := if Waiting(ls, l) && s.suppKey == l.suppKey && s.name == name then OrderTerm(l.orderKey, o) else 0;
      SumScale(ns, d, n => NationTerm(nation, s.nationKey, n), n => Term(ls, nation, name, l, s, o, n));
    }
    SumScale(os, c, o => OrderTerm(l.orderKey, o), o => OverNations(ls, ns, nation, name, l, s, o));
  }

  lemma {:induction false} Factored(ss: seq<Supplier>, ls: seq<LineItem>, os: seq<Order>, ns: seq<Nation>, nation: int,
                                    name: int)
    ensures NumWait(ss, ls, os, ns, nation, name) == Sum(ls, l => ItemTerm(ss, ls, os, ns, nation, name, l))
  {
    forall l
      ensures OverSuppliers(ss, ls, os, ns, nation, name, l) == ItemTerm(ss, ls, os, ns, nation, name, l)
    {
      var c := if Waiting(ls, l) then OpenOrders(os, l.orderKey) else 0;
      forall s
        ensures OverOrders(ls, os, ns, nation, name, l, s) == c * SupplierTerm(ns, nation, name, l.suppKey, s)
      {
        FactorOrders(ls, os, ns, nation, name, l, s);
      }
      SumScale(ss, c, s => SupplierTerm(ns, nation, name, l.suppKey, s),
               s => OverOrders(ls, os, ns, nation, name, l, s));
    }
    SumSame(ls, l => OverSuppliers(ss, ls, os, ns, nation, name, l), l => ItemTerm(ss, ls, os, ns, nation, name, l));
  }

  // ----- The columns of the plan -----

  function OrderAsItem(o: Order): LineItem { LineItem(o.orderKey, 0, 0, 0) }
  function ItemOrder(l: LineItem): Key { [l.orderKey] }
  function NationAsSupplier(n: Nation): Supplier { Supplier(0, 0, n.nationKey) }
  function SupplierNation(s: Supplier): Key { [s.nationKey] }
  function SuppKeyOf(s: Supplier): int { s.suppKey }
  function OrderKeyOf(o: Order): int { o.orderKey }
  function NationKeyOf(n: Nation): int { n.nationKey }
  predicate IsOpen(o: Order) { o.orderStatus == 0 }
  predicate IsNation(nation: int, n: Nation) { n.name == nation }

  function SupplierWait(s: Supplier): Wait { Wait(0, s.suppKey, s.name, s.nationKey, 0, 0) }
  function ItemWait(l: LineItem): Wait { Wait(l.orderKey, l.suppKey, 0, 0, 0, 0) }
  function WaitSupp(w: Wait): Key { [w.suppKey] }
  function CopySupplier(a: Wait, b: Wait): Wait { b.(name := a.name, nationKey := a.nationKey) }
  function WaitPair(w: Wait): Key { [w.orderKey, w.suppKey] }
  function StartOrders(w: Wait): Wait { w.(orderCount := 1) }
  function AddOrders(a: Wait, b: Wait): Wait { b.(orderCount := a.orderCount + b.orderCount) }
  function SoleWait(x: Lateness): Wait { Wait(x.orderKey, x.suppKey, 0, 0, 0, 0) }
  function WaitName(w: Wait): Key { [w.name] }
  function StartWait(w: Wait): Wait { w.(numWait := w.orderCount) }
  function AddWait(a: Wait, b: Wait): Wait { b.(numWait := a.numWait + b.numWait) }
  function OrderCount(w: Wait): int { w.orderCount }
  function NumWaitOf(w: Wait): int { w.numWait }

  // ----- Bits of the unique tables -----

  ghost predicate OrderMatches(os: seq<Order>, l: LineItem) {
    WithKey(Map(Select(os, IsOpen), OrderAsItem), ItemOrder, ItemOrder(l)) != []
  }

  ghost predicate NationMatches(ns: seq<Nation>, nation: int, s: Supplier) {
    WithKey(Map(Select(ns, n => IsNation(nation, n)), NationAsSupplier), SupplierNation, SupplierNation(s)) != []
  }

  lemma {:induction false} OrderBit(os: seq<Order>, l: LineItem)
    requires UniqueBy(os, OrderKeyOf)
    ensures OpenOrders(os, l.orderKey) == if OrderMatches(os, l) then 1 else 0
  {
    UniqueCount(os, IsOpen, OrderKeyOf, l.orderKey, o => OrderTerm(l.orderKey, o));
    var open := Select(os, IsOpen);
    WithKeySome(Map(open, OrderAsItem), ItemOrder, ItemOrder(l));
    HasKeyMap(open, OrderAsItem, (o: Order) => [o.orderKey], ItemOrder, ItemOrder(l));
    assert forall o: Order :: [o.orderKey] == ItemOrder(l) <==> o.orderKey == l.orderKey;
  }

  lemma {:induction false} NationBit(ns: seq<Nation>, nation: int, s: Supplier)
    requires UniqueBy(ns, NationKeyOf)
    ensures Nations(ns, nation, s.nationKey) == if NationMatches(ns, nation, s) then 1 else 0
  {
    var p := n => IsNation(nation, n);
    UniqueCount(ns, p, NationKeyOf, s.nationKey, n => NationTerm(nation, s.nationKey, n));
    var named := Select(ns, p);
    WithKeySome(Map(named, NationAsSupplier), SupplierNation, SupplierNation(s));
    HasKeyMap(named, NationAsSupplier, (n: Nation) => [n.nationKey], SupplierNation, SupplierNation(s));
    assert forall n: Nation :: [n.nationKey] == SupplierNation(s) <==> n.nationKey == s.nationKey;
  }

  // ----- Counting through the stages -----

  ghost function SoleTerm(ls: seq<LineItem>, name: int, w: Wait): int {
    if SoleLate(ls, w.orderKey, w.suppKey) && w.name == name then 1 else 0
  }

  ghost function SoleBit(ls: seq<LineItem>, w: Wait): int {
    if SoleLate(ls, w.orderKey, w.suppKey) then 1 else 0
  }

  function NameBit(name: int, w: Wait): int { if w.name == name then 1 else 0 }

  ghost function OlTerm(ss: seq<Supplier>, ls: seq<LineItem>, ns: seq<Nation>, nation: int, name: int,
                        l: LineItem): int
  {
    if SoleLate(ls, l.orderKey, l.suppKey) then NamedSuppliers(ss, ns, nation, name, l.suppKey) else 0
  }

  /** The suppliers of the nation that carry a name and a key. */
  lemma {:induction false} NamedCount(ss: seq<Supplier>, ns: seq<Nation>, nation: int, name: int, k: int,
                                      nsr: seq<Supplier>)
    requires UniqueBy(ns, NationKeyOf) && Perm(nsr, Select(ss, s => NationMatches(ns, nation, s)))
    ensures Sum(WithKey(Map(nsr, SupplierWait), WaitSupp, [k]), w => NameBit(name, w))
         == NamedSuppliers(ss, ns, nation, name, k)
  {
    var f := (s: Supplier) => if s.suppKey == k && s.name == name then 1 else 0;
    SumSelect(Map(nsr, SupplierWait), KeyIs(WaitSupp, [k]), w => NameBit(name, w),
              (w: Wait) => if w.suppKey == k && w.name == name then 1 else 0);
    SumMap(nsr, SupplierWait, (w: Wait) => if w.suppKey == k && w.name == name then 1 else 0, f);
    SumPerm(nsr, Select(ss, s => NationMatches(ns, nation, s)), f);
    forall s ensures SupplierTerm(ns, nation, name, k, s) == if NationMatches(ns, nation, s) then f(s) else 0 {
      NationBit(ns, nation, s);
    }
    SumSelect(ss, s => NationMatches(ns, nation, s), f, s => SupplierTerm(ns, nation, name, k, s));
  }

  /** Summing over the join of suppliers and late items. */
  lemma {:induction false} JoinedCount(ss: seq<Supplier>, ls: seq<LineItem>, ns: seq<Nation>, nation: int, name: int,
                    ol: seq<LineItem>, nsr: seq<Supplier>, joined: seq<Wait>)
    requires UniqueBy(ns, NationKeyOf) && UniqueBy(nsr, SuppKeyOf)
    requires Perm(nsr, Select(ss, s => NationMatches(ns, nation, s)))
    requires Perm(joined, InnerJoin(Map(nsr, SupplierWait), Map(ol, ItemWait), WaitSupp, CopySupplier))
    ensures Sum(joined, w => SoleTerm(ls, name, w)) == Sum(ol, l => OlTerm(ss, ls, ns, nation, name, l))
  {
    var ll, rr := Map(nsr, SupplierWait), Map(ol, ItemWait);
    SumPerm(joined, InnerJoin(ll, rr, WaitSupp, CopySupplier), w => SoleTerm(ls, name, w));
    UniqueMap(nsr, SupplierWait, (s: Supplier) => [s.suppKey], WaitSupp);
    var g := (w: Wait) => SoleBit(ls, w) * NamedSuppliers(ss, ns, nation, name, w.suppKey);
    forall r: Wait
      ensures g(r) == SoleBit(ls, r) * Sum(WithKey(ll, WaitSupp, WaitSupp(r)), w => NameBit(name, w))
    {
      assert WaitSupp(r) == [r.suppKey];
      NamedCount(ss, ns, nation, name, r.suppKey, nsr);
    }
    JoinSum(ll, rr, WaitSupp, CopySupplier, w => SoleTerm(ls, name, w), w => SoleBit(ls, w), w => NameBit(name, w), g);
    SumMap(ol, ItemWait, g, l => OlTerm(ss, ls, ns, nation, name, l));
  }

  /** Summing over the late items of open orders. */
  lemma {:induction false} ItemCount(ss: seq<Supplier>, ls: seq<LineItem>, os: seq<Order>, ns: seq<Nation>, nation: int,
                                     name: int, ol: seq<LineItem>)
    requires UniqueBy(os, OrderKeyOf)
    requires Perm(ol, Select(Select(ls, IsLate), l => OrderMatches(os, l)))
    ensures Sum(ol, l => OlTerm(ss, ls, ns, nation, name, l)) == NumWait(ss, ls, os, ns, nation, name)
  {
    var f := l => OlTerm(ss, ls, ns, nation, name, l);
    SumPerm(ol, Select(Select(ls, IsLate), l => OrderMatches(os, l)), f);
    var g := l => if OrderMatches(os, l) then OlTerm(ss, ls, ns, nation, name, l) else 0;
    SumSelect(Select(ls, IsLate), l => OrderMatches(os, l), f, g);
    forall l | l in ls
      ensures ItemTerm(ss, ls, os, ns, nation, name, l) == if IsLate(l) then g(l) else 0
    {
      OrderBit(os, l);
      assert IsLate(l) ==> LateIn(ls, l.orderKey, l.suppKey);
    }
    SumSelect(ls, IsLate, g, l => ItemTerm(ss, ls, os, ns, nation, name, l));
    Factored(ss, ls, os, ns, nation, name);
  }

  /** A joined row's name is its supplier's. */
  lemma {:induction false} JoinedName(nsr: seq<Supplier>, ol: seq<LineItem>, joined: seq<Wait>, y: Wait)
    requires Perm(joined, InnerJoin(Map(nsr, SupplierWait), Map(ol, ItemWait), WaitSupp, CopySupplier)) && y in joined
    ensures exists s :: s in nsr && s.suppKey == y.suppKey && s.name == y.name
  {
    var ll, rr := Map(nsr, SupplierWait), Map(ol, ItemWait);
    PermMember(joined, InnerJoin(ll, rr, WaitSupp, CopySupplier), y);
    FlatMapMember(rr, r => JoinOne(ll, WaitSupp, CopySupplier, r), y);
    var r :| r in rr && y in JoinOne(ll, WaitSupp, CopySupplier, r);
    var m := WithKey(ll, WaitSupp, WaitSupp(r));
    WithKeyMember(ll, WaitSupp, WaitSupp(r), m[0]);
    MapMember(nsr, SupplierWait);
    assert WaitSupp(m[0])[0] == WaitSupp(r)[0];
  }

  /** The fold of a group takes its plain columns from the group's last row. */
  lemma {:induction false} FoldLast(g: seq<Wait>)
    requires g != []
    ensures Fold(AddOrders, Map(g, StartOrders)).name == g[|g| - 1].name
  {
    LastSplit(g);
    FoldStep(AddOrders, StartOrders, g[..|g| - 1], g[|g| - 1]);
  }

  /** Grouping per order and supplier keeps the count. */
  lemma {:induction false} LateCounts(ls: seq<LineItem>, name: int, nsr: seq<Supplier>, ol: seq<LineItem>,
                                      joined: seq<Wait>, late: seq<Wait>)
    requires UniqueBy(nsr, SuppKeyOf)
    requires Perm(joined, InnerJoin(Map(nsr, SupplierWait), Map(ol, ItemWait), WaitSupp, CopySupplier))
    requires IsGroupBy(joined, late, WaitPair, StartOrders, AddOrders)
    ensures Sum(late, w => SoleTerm(ls, name, w) * w.orderCount) == Sum(joined, w => SoleTerm(ls, name, w))
  {
    var g := w => SoleTerm(ls, name, w);
    forall x | x in late
      ensures SoleTerm(ls, name, x) * x.orderCount == Sum(joined, Across(SameKeyTerm(WaitPair, g), x))
    {
      var one := (y: Wait) => if WaitPair(y) == WaitPair(x) then 1 else 0;
      GroupTotal(joined, late, WaitPair, StartOrders, AddOrders, OrderCount, x, one);
      forall y | y in joined && WaitPair(y) == WaitPair(x)
        ensures SoleTerm(ls, name, y) == SoleTerm(ls, name, x)
      {
        SameWait(nsr, ol, joined, late, x, y);
      }
      SumScale(joined, SoleTerm(ls, name, x), one, Across(SameKeyTerm(WaitPair, g), x));
    }
    GroupSum(joined, late, WaitPair, w => SoleTerm(ls, name, w) * w.orderCount, g);
  }

  /** All rows of a group, and the group's row, agree on the order, the supplier and the name. */
  lemma {:induction false} SameWait(nsr: seq<Supplier>, ol: seq<LineItem>, joined: seq<Wait>, late: seq<Wait>, x: Wait,
                                    y: Wait)
    requires UniqueBy(nsr, SuppKeyOf)
    requires Perm(joined, InnerJoin(Map(nsr, SupplierWait), Map(ol, ItemWait), WaitSupp, CopySupplier))
    requires IsGroupBy(joined, late, WaitPair, StartOrders, AddOrders)
    requires x in late && y in joined && WaitPair(y) == WaitPair(x)
    ensures x.orderKey == y.orderKey && x.suppKey == y.suppKey && x.name == y.name
  {
    TwoColumns(x.orderKey, x.suppKey, y.orderKey, y.suppKey);
    assert FromGroup(joined, x, WaitPair, StartOrders, AddOrders);
    var g: seq<Wait> :|
      g != [] && Perm(g, WithKey(joined, WaitPair, WaitPair(x))) && x == Fold(AddOrders, Map(g, StartOrders));
    FoldLast(g);
    GroupMembers(g, joined, WaitPair, WaitPair(x));
    var z := g[|g| - 1];
    assert z in g;
    TwoColumns(x.orderKey, x.suppKey, z.orderKey, z.suppKey);
    JoinedName(nsr, ol, joined, y);
    JoinedName(nsr, ol, joined, z);
    var sy :| sy in nsr && sy.suppKey == y.suppKey && sy.name == y.name;
    var sz :| sz in nsr && sz.suppKey == z.suppKey && sz.name == z.name;
    UniqueRow(nsr, SuppKeyOf, sy, sz);
  }

  // ----- The last join and the result -----

  ghost predicate SoleMatches(sole: seq<Lateness>, w: Wait) {
    WithKey(Map(sole, SoleWait), WaitPair, WaitPair(w)) != []
  }

  lemma {:induction false} SoleMatch(ls: seq<LineItem>, sole: seq<Lateness>, w: Wait)
    requires forall o, s :: HasKey(sole, PairKey, [o, s]) <==> SoleLate(ls, o, s)
    ensures SoleMatches(sole, w) <==> SoleLate(ls, w.orderKey, w.suppKey)
  {
    WithKeySome(Map(sole, SoleWait), WaitPair, WaitPair(w));
    HasKeyMap(sole, SoleWait, PairKey, WaitPair, WaitPair(w));
    assert WaitPair(w) == [w.orderKey, w.suppKey];
  }

  /** Everything the plan's tables hold, stage by stage. */
  ghost predicate Stages(ss: seq<Supplier>, ls: seq<LineItem>, os: seq<Order>, ns: seq<Nation>, nation: int,
                         ol: seq<LineItem>, nsr: seq<Supplier>, joined: seq<Wait>, late: seq<Wait>,
                         sole: seq<Lateness>, waits: seq<Wait>, totals: seq<Wait>) {
    && Perm(ol, Select(Select(ls, IsLate), l => OrderMatches(os, l)))
    && Perm(nsr, Select(ss, s => NationMatches(ns, nation, s)))
    && Perm(joined, InnerJoin(Map(nsr, SupplierWait), Map(ol, ItemWait), WaitSupp, CopySupplier))
    && IsGroupBy(joined, late, WaitPair, StartOrders, AddOrders)
    && (forall o, s :: HasKey(sole, PairKey, [o, s]) <==> SoleLate(ls, o, s))
    && Perm(waits, Select(late, w => SoleMatches(sole, w)))
    && IsGroupBy(waits, totals, WaitName, StartWait, AddWait)
  }

  function WaitTerm(name: int, w: Wait): int { if w.name == name then w.orderCount else 0 }

  /** For every name, present or not, the plan's total is the SQL count. */
  lemma {:induction false} NameTotal(ss: seq<Supplier>, ls: seq<LineItem>, os: seq<Order>, ns: seq<Nation>, nation: int,
                  ol: seq<LineItem>, nsr: seq<Supplier>, joined: seq<Wait>, late: seq<Wait>,
                  sole: seq<Lateness>, waits: seq<Wait>, totals: seq<Wait>, name: int)
    requires Stages(ss, ls, os, ns, nation, ol, nsr, joined, late, sole, waits, totals)
    requires UniqueBy(ss, SuppKeyOf) && UniqueBy(os, OrderKeyOf) && UniqueBy(ns, NationKeyOf)
    ensures UniqueBy(nsr, SuppKeyOf)
    ensures Sum(WithKey(totals, WaitName, [name]), NumWaitOf) == NumWait(ss, ls, os, ns, nation, name)
  {
    UniqueSelect(ss, s => NationMatches(ns, nation, s), SuppKeyOf);
    UniquePerm(Select(ss, s => NationMatches(ns, nation, s)), nsr, SuppKeyOf);
    RollUp(waits, totals, WaitName, StartWait, AddWait, NumWaitOf, [name], w => WaitTerm(name, w));
    SumPerm(waits, Select(late, w => SoleMatches(sole, w)), w => WaitTerm(name, w));
    forall w ensures SoleTerm(ls, name, w) * w.orderCount == if SoleMatches(sole, w) then WaitTerm(name, w) else 0 {
      SoleMatch(ls, sole, w);
    }
    SumSelect(late, w => SoleMatches(sole, w), w => WaitTerm(name, w), w => SoleTerm(ls, name, w) * w.orderCount);
    LateCounts(ls, name, nsr, ol, joined, late);
    JoinedCount(ss, ls, ns, nation, name, ol, nsr, joined);
    ItemCount(ss, ls, os, ns, nation, name, ol);
  }

  /** A row of `late` counts at least one item and carries the name of a supplier. */
  lemma {:induction false} LateRow(nsr: seq<Supplier>, ol: seq<LineItem>, joined: seq<Wait>, late: seq<Wait>, x: Wait)
    requires UniqueBy(nsr, SuppKeyOf)
    requires Perm(joined, InnerJoin(Map(nsr, SupplierWait), Map(ol, ItemWait), WaitSupp, CopySupplier))
    requires IsGroupBy(joined, late, WaitPair, StartOrders, AddOrders) && x in late
    ensures x.orderCount >= 1 && exists s :: s in nsr && s.name == x.name
  {
    GroupByKeys(joined, late, WaitPair, StartOrders, AddOrders, WaitPair(x));
    var y :| y in joined && WaitPair(y) == WaitPair(x);
    var one := (z: Wait) => if WaitPair(z) == WaitPair(x) then 1 else 0;
    GroupTotal(joined, late, WaitPair, StartOrders, AddOrders, OrderCount, x, one);
    SumNonNegative(joined, one);
    SameWait(nsr, ol, joined, late, x, y);
    JoinedName(nsr, ol, joined, y);
  }

  /** A row of the result counts at least one item and carries the name of a supplier. */
  lemma {:induction false} TotalRow(ss: seq<Supplier>, ls: seq<LineItem>, os: seq<Order>, ns: seq<Nation>, nation: int,
                 ol: seq<LineItem>, nsr: seq<Supplier>, joined: seq<Wait>, late: seq<Wait>,
                 sole: seq<Lateness>, waits: seq<Wait>, totals: seq<Wait>, x: Wait)
    requires Stages(ss, ls, os, ns, nation, ol, nsr, joined, late, sole, waits, totals)
    requires UniqueBy(nsr, SuppKeyOf) && x in totals
    ensures x.numWait >= 1 && HasKey(ss, (s: Supplier) => [s.name], WaitName(x))
  {
    var p := w => SoleMatches(sole, w);
    forall w | w in waits
      ensures w.orderCount >= 1 && exists s :: s in nsr && s.name == w.name
    {
      PermMember(waits, Select(late, p), w);
      SelectMember(late, p, w);
      LateRow(nsr, ol, joined, late, w);
    }
    GroupByKeys(waits, totals, WaitName, StartWait, AddWait, WaitName(x));
    var w :| w in waits && WaitName(w) == WaitName(x);
    assert WaitName(w)[0] == WaitName(x)[0];
    var term := (z: Wait) => if WaitName(z) == WaitName(x) then z.orderCount else 0;
    GroupTotal(waits, totals, WaitName, StartWait, AddWait, NumWaitOf, x, term);
    SumNonNegative(waits, term);
    var s :| s in nsr && s.name == w.name;
    PermMember(nsr, Select(ss, s => NationMatches(ns, nation, s)), s);
    SelectMember(ss, s => NationMatches(ns, nation, s), s);
    assert [s.name] == WaitName(x);
  }

  /** The totals are the SQL result. */
  lemma {:induction false} TotalsAreResult(ss: seq<Supplier>, ls: seq<LineItem>, os: seq<Order>, ns: seq<Nation>,
                                           nation: int,
                        ol: seq<LineItem>, nsr: seq<Supplier>, joined: seq<Wait>, late: seq<Wait>,
                        sole: seq<Lateness>, waits: seq<Wait>, totals: seq<Wait>)
    requires Stages(ss, ls, os, ns, nation, ol, nsr, joined, late, sole, waits, totals)
    requires UniqueBy(ss, SuppKeyOf) && UniqueBy(os, OrderKeyOf) && UniqueBy(ns, NationKeyOf)
    ensures forall x :: x in totals ==> x.numWait == NumWait(ss, ls, os, ns, nation, x.name) > 0
    ensures forall name :: NumWait(ss, ls, os, ns, nation, name) > 0 ==> HasKey(totals, WaitName, [name])
    ensures |totals| <= |ss|
  {
    forall x | x in totals
      ensures x.numWait == NumWait(ss, ls, os, ns, nation, x.name) > 0
      ensures HasKey(ss, (s: Supplier) => [s.name], WaitName(x))
    {
      assert WaitName(x) == [x.name];
      NameTotal(ss, ls, os, ns, nation, ol, nsr, joined, late, sole, waits, totals, x.name);
      TotalRow(ss, ls, os, ns, nation, ol, nsr, joined, late, sole, waits, totals, x);
      UniqueWithKey(totals, WaitName, x);
      SumSingle(x, NumWaitOf);
    }
    forall name | NumWait(ss, ls, os, ns, nation, name) > 0
      ensures HasKey(totals, WaitName, [name])
    {
      NameTotal(ss, ls, os, ns, nation, ol, nsr, joined, late, sole, waits, totals, name);
      WithKeySome(totals, WaitName, [name]);
    }
    UniqueBound(totals, WaitName, ss, (s: Supplier) => [s.name]);
  }

  // ----- The plan -----

  /** Lines 113-114 and 129: late items of open orders. */
  method OpenLateItems(ls: seq<LineItem>, os: seq<Order>) returns (rows: seq<Row<LineItem>>)
    requires |ls| >= 2
    ensures |rows| >= |ls|
    ensures Perm(Live(rows), Select(Select(ls, IsLate), l => OrderMatches(os, l)))
  {
    var l1 := new EncodedTable(ls, LineItem(0, 0, 0, 0));
    l1.Filter(IsLate);
    var o := new EncodedTable(os, Order(0, 0));
    o.Filter(IsOpen);
    MapItself(Live(l1.rows));
    rows := InnerJoinTables(o.rows, l1.rows, OrderAsItem, Itself, ItemOrder, KeepRight, LineItem(0, 0, 0, 0), 1);
    KeepRightSelects(Map(Select(os, IsOpen), OrderAsItem), Select(ls, IsLate), ItemOrder, l => OrderMatches(os, l));
  }

  /** Lines 115 and 130: suppliers of the nation. */
  method NationSuppliers(ss: seq<Supplier>, ns: seq<Nation>, nation: int) returns (rows: seq<Row<Supplier>>)
    requires |ss| + |ns| >= 2
    ensures Perm(Live(rows), Select(ss, s => NationMatches(ns, nation, s)))
  {
    var n := new EncodedTable(ns, Nation(0, 0));
    n.Filter(n => IsNation(nation, n));
    var s := new EncodedTable(ss, Supplier(0, 0, 0));
    MapItself(Live(s.rows));
    rows := InnerJoinTables(n.rows, s.rows, NationAsSupplier, Itself, SupplierNation, KeepRight, Supplier(0, 0, 0), 1);
    KeepRightSelects(Map(Select(ns, n => IsNation(nation, n)), NationAsSupplier), ss, SupplierNation,
                     s => NationMatches(ns, nation, s));
  }

  lemma {:induction false} LateOps()
    ensures FixedWidth(WaitSupp) && CopyColumns(CopySupplier, WaitSupp)
    ensures Associative(AddOrders) && KeyStable(WaitPair, StartOrders, AddOrders)
  {
  }

  /** Lines 133-142: late items joined with their suppliers, counted per order and supplier. */
  method LateBySupplier(nsr: seq<Row<Supplier>>, ol: seq<Row<LineItem>>)
    returns (rows: seq<Row<Wait>>, ghost joined: seq<Wait>)
    requires |ol| >= 2 && UniqueBy(Live(nsr), SuppKeyOf)
    ensures |rows| >= |ol|
    ensures Perm(joined, InnerJoin(Map(Live(nsr), SupplierWait), Map(Live(ol), ItemWait), WaitSupp, CopySupplier))
    ensures IsGroupBy(joined, Live(rows), WaitPair, StartOrders, AddOrders)
  {
    LateOps();
    UniqueMap(Live(nsr), SupplierWait, (s: Supplier) => [s.suppKey], WaitSupp);
    var table := InnerJoinTables(nsr, ol, SupplierWait, ItemWait, WaitSupp, CopySupplier, Wait(0, 0, 0, 0, 0, 0), 3);
    var nsol := new EncodedTable.FromRows(table, Wait(0, 0, 0, 0, 0, 0));
    joined := Live(nsol.rows);
    nsol.Aggregate(WaitPair, StartOrders, AddOrders);
    rows := nsol.rows;
  }

  lemma {:induction false} WaitOps()
    ensures FixedWidth(WaitPair) && CopyColumns<Wait>(KeepRight, WaitPair)
    ensures Associative(AddWait) && KeyStable(WaitName, StartWait, AddWait)
  {
  }

  /** Lines 205-210: keep the pairs of sole late suppliers, total per supplier name. */
  method WaitPerName(sole: seq<Row<Lateness>>, late: seq<Row<Wait>>)
    returns (rows: seq<Row<Wait>>, ghost waits: seq<Wait>)
    requires |late| >= 2
    ensures |rows| >= |late|
    ensures Perm(waits, Select(Live(late), w => SoleMatches(Live(sole), w)))
    ensures IsGroupBy(waits, Live(rows), WaitName, StartWait, AddWait)
  {
    WaitOps();
    MapItself(Live(late));
    var table := InnerJoinTables(sole, late, SoleWait, Itself, WaitPair, KeepRight, Wait(0, 0, 0, 0, 0, 0), 2);
    KeepRightSelects(Map(Live(sole), SoleWait), Live(late), WaitPair, w => SoleMatches(Live(sole), w));
    var w := new EncodedTable.FromRows(table, Wait(0, 0, 0, 0, 0, 0));
    waits := Live(w.rows);
    w.Aggregate(WaitName, StartWait, AddWait);
    rows := w.rows;
  }

  /** ORDER BY numwait DESC, name. */
  function ResultOrder(w: Wait): Key { [-w.numWait, w.name] }

  /** Lines 212-219: cut to the supplier table's size, order, open. */
  method CutAndOrder(rows: seq<Row<Wait>>, n: nat) returns (result: seq<Wait>)
    requires |Live(rows)| <= n <= |rows|
    ensures Perm(result, Live(rows)) && SortedBy(result, ResultOrder)
  {
    var w := new EncodedTable.FromRows(rows, Wait(0, 0, 0, 0, 0, 0));
    w.SortValid(x => []);
    LivePerm(w.rows, rows);
    PermLength(Live(w.rows), Live(rows));
    TailKeepsLive(w.rows, x => [], n);
    w.Tail(n);
    ghost var cut := w.rows;
    var sorted := Sort(w.rows, (r: Row<Wait>) => ResultOrder(r.data));
    LivePerm(sorted, cut);
    LiveOrder(sorted, ResultOrder);
    result := Live(sorted);
  }

  /** The whole query. The opened rows are the SQL result in its order: one row per supplier name with a positive
      count, holding that count. Keys of orders, suppliers and nations are unique; the tail step needs at least as
      many line items as suppliers. */
  method Plan(ss: seq<Supplier>, ls: seq<LineItem>, os: seq<Order>, ns: seq<Nation>, nation: int)
    returns (result: seq<Wait>)
    requires UniqueBy(ss, SuppKeyOf) && UniqueBy(os, OrderKeyOf) && UniqueBy(ns, NationKeyOf)
    requires |ls| >= 2 && |ls| >= |ss| && |ss| + |ns| >= 2
    ensures UniqueBy(result, WaitName) && SortedBy(result, ResultOrder)
    ensures forall x :: x in result ==> x.numWait == NumWait(ss, ls, os, ns, nation, x.name) > 0
    ensures forall name :: NumWait(ss, ls, os, ns, nation, name) > 0 ==> HasKey(result, WaitName, [name])
  {
    var ol := OpenLateItems(ls, os);
    var nsr := NationSuppliers(ss, ns, nation);
    UniqueSelect(ss, s => NationMatches(ns, nation, s), SuppKeyOf);
    UniquePerm(Select(ss, s => NationMatches(ns, nation, s)), Live(nsr), SuppKeyOf);
    var late, joined := LateBySupplier(nsr, ol);
    var sole := FindSoleLate(ls);
    var totals, waits := WaitPerName(sole, late);
    TotalsAreResult(ss, ls, os, ns, nation, Live(ol), Live(nsr), joined, Live(late), Live(sole), waits, Live(totals));
    result := CutAndOrder(totals, |ss|);
    UniquePerm(Live(totals), result, WaitName);
    forall x ensures x in result <==> x in Live(totals) {
      PermMember(result, Live(totals), x);
    }
    forall name | NumWait(ss, ls, os, ns, nation, name) > 0
      ensures HasKey(result, WaitName, [name])
    {
      HasKeyPerm(Live(totals), result, WaitName, [name]);
    }
  }
}
