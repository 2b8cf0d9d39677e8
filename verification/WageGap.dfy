/** Wage gaps (examples/ex4_wagegap.cpp): four analyses on one table. An aggregation only marks rows invalid, so
    revalidating all rows brings the original data back for the next analysis. */
module WageGap {
  import opened Bags
  import opened PrefixNetworks
  import opened Tables
  import opened Joins
  import opened Division

  datatype Person = Person(salary: int, degree: int, years: int, region: int, academia: int)

  /** A person with the columns for intermediates. */
  datatype Wage = Wage(person: Person, groupSum: int, groupCount: int, yearGroup: int, average: int, outTable: int)

  // ----- What an analysis asks for -----

  ghost function SalaryTerm(group: Person -> Key, k: Key): Person -> int {
    (p: Person) => if group(p) == k then p.salary else 0
  }
  ghost function OneTerm(group: Person -> Key, k: Key): Person -> int { (p: Person) => if group(p) == k then 1 else 0 }
  ghost function TotalSalary(ps: seq<Person>, group: Person -> Key, k: Key): int { Sum(ps, SalaryTerm(group, k)) }
  ghost function Headcount(ps: seq<Person>, group: Person -> Key, k: Key): int { Sum(ps, OneTerm(group, k)) }

  /** One row per group of the original data, with the group's average salary rounded down. */
  ghost predicate Answers(out: seq<Wage>, ps: seq<Person>, key: Wage -> Key, group: Person -> Key) {
    && UniqueBy(out, key)
    && (forall p :: p in ps ==> HasKey(out, key, group(p)))
    && (forall x :: x in out ==>
          var count := Headcount(ps, group, key(x));
          count > 0 && x.average == TotalSalary(ps, group, key(x)) / count)
  }

  // ----- Columns -----

  function PersonOf(w: Wage): Person { w.person }
  function Start(w: Wage): Wage { w.(groupSum := w.person.salary, groupCount := 1) }
  function Add(a: Wage, b: Wage): Wage {
    b.(groupSum := a.groupSum + b.groupSum, groupCount := a.groupCount + b.groupCount)
  }
  function SumOf(w: Wage): int { w.groupSum }
  function CountOf(w: Wage): int { w.groupCount }
  function Averaged(w: Wage): Wage { w.(average := Quotient(w.groupSum, if w.groupCount < 0 then 0 else w.groupCount)) }
  function ToWage(p: Person): Wage { Wage(p, 0, 0, 0, 0, 0) }
  const ZERO := Wage(Person(0, 0, 0, 0, 0), 0, 0, 0, 0, 0)

  // ----- The data survives -----

  function Data(rows: seq<Row<Wage>>): seq<Wage> { Map(rows, (r: Row<Wage>) => r.data) }

  /** The base columns of all rows, valid or not, are those of the original data. */
  ghost predicate Holds(rows: seq<Row<Wage>>, ps: seq<Person>) {
    Perm(Map(Data(rows), PersonOf), ps)
  }

  lemma {:induction false} HoldsPerm(rows: seq<Row<Wage>>, rows': seq<Row<Wage>>, ps: seq<Person>)
    requires Holds(rows, ps) && Perm(rows', rows)
    ensures Holds(rows', ps)
  {
    MapPerm(rows', rows, (r: Row<Wage>) => r.data);
    MapPerm(Data(rows'), Data(rows), PersonOf);
  }

  /** Anything done to the added columns and the valid bits leaves the base columns alone. */
  lemma {:induction false} HoldsSame(rows: seq<Row<Wage>>, rows': seq<Row<Wage>>, ps: seq<Person>)
    requires Holds(rows, ps) && |rows'| == |rows|
    requires forall i :: 0 <= i < |rows| ==> rows'[i].data.person == rows[i].data.person
    ensures Holds(rows', ps)
  {
    assert Map(Data(rows'), PersonOf) == Map(Data(rows), PersonOf);
  }

  lemma {:induction false} AllLive(rows: seq<Row<Wage>>)
    requires forall i :: 0 <= i < |rows| ==> rows[i].valid
    ensures Live(rows) == Data(rows)
  {
    assert rows == ValidRows(Data(rows));
    LiveValidRows(Data(rows));
  }

  // ----- One analysis -----

  /** A group's row holds the group's total and head count over the original data. */
  lemma {:induction false} GroupRow(ps: seq<Person>, live: seq<Wage>, groups: seq<Wage>, key: Wage -> Key,
                                    group: Person -> Key, x: Wage)
    requires IsGroupBy(live, groups, key, Start, Add) && x in groups
    requires Perm(Map(live, PersonOf), ps) && forall w :: w in live ==> key(w) == group(w.person)
    ensures x.groupSum == TotalSalary(ps, group, key(x)) && x.groupCount == Headcount(ps, group, key(x)) > 0
  {
    var k := key(x);
    var salary, one := SalaryTerm(group, k), OneTerm(group, k);
    var salary', one' := (w: Wage) => salary(w.person), (w: Wage) => one(w.person);
    GroupTotal(live, groups, key, Start, Add, SumOf, x, salary');
    GroupTotal(live, groups, key, Start, Add, CountOf, x, one');
    SumMap(live, PersonOf, salary, salary');
    SumMap(live, PersonOf, one, one');
    SumPerm(Map(live, PersonOf), ps, salary);
    SumPerm(Map(live, PersonOf), ps, one);
    GroupByKeys(live, groups, key, Start, Add, k);
    var w :| w in live && key(w) == k;
    SumNonNegative(live, one');
    assert one'(w) == 1;
  }

  lemma {:induction false} AnalysisAnswers(ps: seq<Person>, live: seq<Wage>, groups: seq<Wage>, out: seq<Wage>,
                                           key: Wage -> Key, group: Person -> Key)
    requires IsGroupBy(live, groups, key, Start, Add) && Perm(out, Map(groups, Averaged))
    requires Perm(Map(live, PersonOf), ps) && forall w :: w in live ==> key(w) == group(w.person)
    requires forall w :: key(Averaged(w)) == key(w)
    ensures Answers(out, ps, key, group)
  {
    var m := Map(groups, Averaged);
    UniqueMap(groups, Averaged, key, key);
    UniquePerm(m, out, key);
    MapMember(groups, Averaged);
    forall x | x in out
      ensures Headcount(ps, group, key(x)) > 0
      ensures x.average == TotalSalary(ps, group, key(x)) / Headcount(ps, group, key(x))
    {
      PermMember(out, m, x);
      var y :| y in groups && Averaged(y) == x;
      GroupRow(ps, live, groups, key, group, y);
    }
    MapMember(live, PersonOf);
    forall p | p in ps ensures HasKey(out, key, group(p)) {
      PermMember(Map(live, PersonOf), ps, p);
      var w :| w in live && PersonOf(w) == p;
      HasKeyMap(groups, Averaged, key, key, group(p));
      HasKeyPerm(out, m, key, group(p));
    }
  }

  /** At most as many groups as there can be keys. */
  lemma {:induction false} GroupsFit(ps: seq<Person>, live: seq<Wage>, groups: seq<Wage>, key: Wage -> Key,
                                     group: Person -> Key, keys: seq<Key>)
    requires IsGroupBy(live, groups, key, Start, Add)
    requires Perm(Map(live, PersonOf), ps) && forall w :: w in live ==> key(w) == group(w.person)
    requires forall p :: p in ps ==> group(p) in keys
    ensures |groups| <= |keys|
  {
    MapMember(live, PersonOf);
    forall x | x in groups ensures HasKey(keys, Itself, key(x)) {
      GroupByKeys(live, groups, key, Start, Add, key(x));
      var w :| w in live && key(w) == key(x);
      PermMember(Map(live, PersonOf), ps, w.person);
      assert group(w.person) in keys;
    }
    UniqueBound(groups, key, keys, Itself);
  }

  /** head(n) of rows with the valid ones on top keeps them, also when it pads. */
  method TopRows(rows: seq<Row<Wage>>, n: nat) returns (out: seq<Wage>)
    requires SortedBy(rows, (r: Row<Wage>) => ValidFirst(r)) && |Live(rows)| <= n
    ensures out == Map(Live(rows), Averaged)
  {
    var t := new EncodedTable.FromRows(rows, ZERO);
    t.Head(n);
    if n <= |rows| {
      HeadKeepsLive(rows, n);
    } else {
      var pad := seq(n - |rows|, _ => Row(false, ZERO));
      LiveAppend(rows, pad);
      LiveLength(pad);
    }
    t.Assign((r: Row<Wage>) => Averaged(r.data));
    out := Live(t.rows);
  }

  /** The aggregation on a table whose rows are all valid: groups of the original data, base columns kept. */
  method GroupTable(t: EncodedTable<Wage>, ghost ps: seq<Person>, key: Wage -> Key) returns (ghost live: seq<Wage>)
    requires |t.rows| >= 2 && Associative(Add) && KeyStable(key, Start, Add)
    requires Holds(t.rows, ps) && forall i :: 0 <= i < |t.rows| ==> t.rows[i].valid
    modifies t`rows
    ensures |t.rows| == |old(t.rows)| && Holds(t.rows, ps)
    ensures Perm(live, Data(old(t.rows))) && IsGroupBy(live, Live(t.rows), key, Start, Add)
  {
    ghost var before := t.rows;
    t.SortValid(key);
    ghost var sorted := t.rows;
    HoldsPerm(before, sorted, ps);
    live := Live(sorted);
    LivePerm(sorted, before);
    AllLive(before);
    t.AggregateSorted(RowKey(key), Start, Add);
    SortedGrouped(sorted, key);
    AggregateGroups(sorted, Map(sorted, RowKey(key)), t.rows, key, Start, Add);
    forall i | 0 <= i < |sorted| ensures t.rows[i].data.person == sorted[i].data.person {
      PersonKept(sorted, Map(sorted, RowKey(key)), i);
    }
    HoldsSame(sorted, t.rows, ps);
  }

  lemma {:induction false} PersonKept(rows: seq<Row<Wage>>, keys: seq<Key>, i: nat)
    requires i < |rows| == |keys|
    ensures AggregatedRow(rows, keys, Start, Add, i).data.person == rows[i].data.person
  {
    var vals := Map(rows, (r: Row<Wage>) => Start(r.data));
    assert vals[i] == Start(rows[i].data);
  }

  /** Aggregate, valid rows to the top, read off the averages, revalidate: the answer of the original data, and a
      table ready for the next analysis. */
  method Analyse(t: EncodedTable<Wage>, ghost ps: seq<Person>, key: Wage -> Key, ghost group: Person -> Key,
                 ghost keys: seq<Key>, n: nat)
    returns (out: seq<Wage>)
    requires |t.rows| >= 2 && Associative(Add) && KeyStable(key, Start, Add) && forall w :: key(Averaged(w)) == key(w)
    requires Holds(t.rows, ps) && forall i :: 0 <= i < |t.rows| ==> t.rows[i].valid
    requires forall i :: 0 <= i < |t.rows| ==> key(t.rows[i].data) == group(t.rows[i].data.person)
    requires |keys| <= n && forall p :: p in ps ==> group(p) in keys
    modifies t`rows
    ensures |t.rows| == |old(t.rows)| && Holds(t.rows, ps) && forall i :: 0 <= i < |t.rows| ==> t.rows[i].valid
    ensures Answers(out, ps, key, group)
  {
    ghost var before := t.rows;
    var live := GroupTable(t, ps, key);
    ghost var groups := Live(t.rows);
    LiveIsData(before, live, ps, key, group);
    GroupsFit(ps, live, groups, key, group, keys);
    ghost var aggregated := t.rows;
    t.rows := Sort(t.rows, (r: Row<Wage>) => ValidFirst(r));
    HoldsPerm(aggregated, t.rows, ps);
    LivePerm(t.rows, aggregated);
    PermLength(Live(t.rows), groups);
    out := TopRows(t.rows, n);
    MapPerm(Live(t.rows), groups, Averaged);
    AnalysisAnswers(ps, live, groups, out, key, group);
    ghost var sorted := t.rows;
    t.ConfigureValid();
    HoldsSame(sorted, t.rows, ps);
  }

  lemma {:induction false} LiveIsData(before: seq<Row<Wage>>, live: seq<Wage>, ps: seq<Person>, key: Wage -> Key,
                                      group: Person -> Key)
    requires Perm(live, Data(before)) && Holds(before, ps)
    requires forall i :: 0 <= i < |before| ==> key(before[i].data) == group(before[i].data.person)
    ensures Perm(Map(live, PersonOf), ps) && forall w :: w in live ==> key(w) == group(w.person)
  {
    MapPerm(live, Data(before), PersonOf);
    forall w | w in live ensures key(w) == group(w.person) {
      PermMember(live, Data(before), w);
      var i :| 0 <= i < |before| && Data(before)[i] == w;
    }
  }

  // ----- The four analyses -----

  /** Lines 162-166: one bit per threshold reached; XOR of bits in different places is their sum. */
  function YearLabel(years: int): int {
    (if years >= 0 then 1 else 0) + (if years >= 1 then 2 else 0) + (if years >= 5 then 4 else 0) +
    (if years >= 11 then 8 else 0) + (if years >= 21 then 16 else 0)
  }

  /** The experience bins: school, 1-4, 5-10, 11-20, 21 and more. */
  function Bin(years: nat): nat {
    if years == 0 then 0 else if years <= 4 then 1 else if years <= 10 then 2 else if years <= 20 then 3 else 4
  }

  /** Equal labels mean the same bin. */
  lemma {:induction false} LabelsAreBins(a: nat, b: nat)
    ensures YearLabel(a) == YearLabel(b) <==> Bin(a) == Bin(b)
  {
  }

  function ByDegree(w: Wage): Key { [w.person.academia, w.person.degree] }
  function ByYears(w: Wage): Key { [w.person.academia, w.yearGroup] }
  function ByRegion(w: Wage): Key { [w.person.academia, w.person.region] }
  function ByField(w: Wage): Key { [w.person.academia] }
  function DegreeOf(p: Person): Key { [p.academia, p.degree] }
  function YearsOf(p: Person): Key { [p.academia, YearLabel(p.years)] }
  function RegionOf(p: Person): Key { [p.academia, p.region] }
  function FieldOf(p: Person): Key { [p.academia] }

  /** The generated data: five degrees, eight regions, one bit, years from zero up. */
  predicate InDomain(p: Person) {
    0 <= p.degree < 5 && 0 <= p.years && 0 <= p.region < 8 && 0 <= p.academia < 2
  }

  lemma {:induction false} Ops()
    ensures Associative(Add) && KeyStable(ByDegree, Start, Add) && KeyStable(ByYears, Start, Add)
    ensures KeyStable(ByRegion, Start, Add) && KeyStable(ByField, Start, Add)
  {
  }

  /** The possible keys with a second column from a list of values. */
  ghost function Pairs(values: seq<int>): seq<Key> {
    Map(values, (v: int) => [0, v]) + Map(values, (v: int) => [1, v])
  }

  lemma {:induction false} PairListed(values: seq<int>, a: int, v: int)
    requires 0 <= a < 2 && v in values
    ensures [a, v] in Pairs(values) && |Pairs(values)| == 2 * |values|
  {
    MapMember(values, (v: int) => [0, v]);
    MapMember(values, (v: int) => [1, v]);
    assert a == 0 || a == 1;
  }

  lemma {:induction false} KeysListed(ps: seq<Person>)
    requires forall p :: p in ps ==> InDomain(p)
    ensures forall p :: p in ps ==> DegreeOf(p) in Pairs(UpTo(5)) && RegionOf(p) in Pairs(UpTo(8))
    ensures forall p :: p in ps ==> YearsOf(p) in Pairs([1, 3, 7, 15, 31]) && FieldOf(p) in [[0], [1]]
  {
    forall p | p in ps
      ensures DegreeOf(p) in Pairs(UpTo(5)) && RegionOf(p) in Pairs(UpTo(8)) && YearsOf(p) in Pairs([1, 3, 7, 15, 31])
      ensures FieldOf(p) in [[0], [1]]
    {
      assert UpTo(5)[p.degree] == p.degree && UpTo(8)[p.region] == p.region;
      PairListed(UpTo(5), p.academia, p.degree);
      PairListed(UpTo(8), p.academia, p.region);
      PairListed([1, 3, 7, 15, 31], p.academia, YearLabel(p.years));
      assert p.academia == 0 || p.academia == 1;
    }
  }

  lemma {:induction false} SetUp(ps: seq<Person>, rows: seq<Row<Wage>>)
    requires rows == ValidRows(Map(ps, ToWage))
    ensures Holds(rows, ps)
  {
    LiveValidRows(Map(ps, ToWage));
    AllLive(rows);
    MapMap(ps, ToWage, PersonOf, Itself);
    MapItself(ps);
  }

  /** All four analyses in sequence on one table: each answers for the original data. */
  method Plan(ps: seq<Person>) returns (degrees: seq<Wage>, years: seq<Wage>, regions: seq<Wage>, fields: seq<Wage>)
    requires |ps| >= 2 && forall p :: p in ps ==> InDomain(p)
    ensures Answers(degrees, ps, ByDegree, DegreeOf)
    ensures Answers(years, ps, ByYears, YearsOf)
    ensures Answers(regions, ps, ByRegion, RegionOf)
    ensures Answers(fields, ps, ByField, FieldOf)
  {
    Ops();
    KeysListed(ps);
    var t := new EncodedTable(Map(ps, ToWage), ZERO);
    SetUp(ps, t.rows);
    degrees := Analyse(t, ps, ByDegree, DegreeOf, Pairs(UpTo(5)), 10);
    ghost var before := t.rows;
    t.Assign((r: Row<Wage>) => r.data.(yearGroup := YearLabel(r.data.person.years)));
    HoldsSame(before, t.rows, ps);
    years := Analyse(t, ps, ByYears, YearsOf, Pairs([1, 3, 7, 15, 31]), 10);
    regions := Analyse(t, ps, ByRegion, RegionOf, Pairs(UpTo(8)), 16);
    fields := Analyse(t, ps, ByField, FieldOf, [[0], [1]], 2);
  }
}
