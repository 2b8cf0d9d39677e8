/** The custom aggregation query (bench/queries/other/custom_agg.cpp): sums pushed through two joins. */
module CustomAgg {
  import opened Bags
  import opened PrefixNetworks
  import opened Tables
  import opened Joins
  import opened Division

  // The stored tables; keys may repeat in every one of them.
  datatype Policy = Policy(person: int, coinsurance: int)
  datatype Treatment = Treatment(person: int, disease: int, cost: int)
  datatype Disease = Disease(disease: int, class_: int)

  // The working tables of the plan.
  datatype T1 = T1(person: int, coinsurance: int, percentage: int)
  datatype T12 = T12(person: int, disease: int, cost: int, percentage: int, insCost: int)
  datatype T123 = T123(disease: int, class_: int, insCost: int)

  // ----- The SQL: SUM(cost * (100 - coinsurance)) over the three-way join, per class -----

  predicate Joined(p: Policy, t: Treatment, d: Disease) {
    p.person == t.person && t.disease == d.disease
  }

  function Term(c: int, p: Policy, t: Treatment, d: Disease): int {
    if Joined(p, t, d) && d.class_ == c then t.cost * (100 - p.coinsurance) else 0
  }

  ghost function PolicySum(ps: seq<Policy>, c: int, t: Treatment, d: Disease): int {
    Sum(ps, p => Term(c, p, t, d))
  }

  ghost function TreatmentSum(ps: seq<Policy>, ts: seq<Treatment>, c: int, d: Disease): int {
    Sum(ts, t => PolicySum(ps, c, t, d))
  }

  /** The sum over all triples. */
  ghost function Total(ps: seq<Policy>, ts: seq<Treatment>, ds: seq<Disease>, c: int): int {
    Sum(ds, d => TreatmentSum(ps, ts, c, d))
  }

  ghost predicate Present(ps: seq<Policy>, ts: seq<Treatment>, ds: seq<Disease>, c: int) {
    exists p, t, d :: p in ps && t in ts && d in ds && Joined(p, t, d) && d.class_ == c
  }

  // ----- The plan's columns -----

  function PersonKey1(x: T1): Key { [x.person] }
  function AddPercentage(a: T1, b: T1): T1 { b.(percentage := a.percentage + b.percentage) }
  function LeftT12(x: T1): T12 { T12(x.person, 0, 0, x.percentage, 0) }
  function RightT12(x: Treatment): T12 { T12(x.person, x.disease, x.cost, 0, 0) }
  function PersonKey12(x: T12): Key { [x.person] }
  function CopyPercentage(a: T12, b: T12): T12 { b.(percentage := a.percentage) }
  function DiseaseKey12(x: T12): Key { [x.disease] }
  function AddCost12(a: T12, b: T12): T12 { b.(insCost := a.insCost + b.insCost) }
  function LeftT123(x: T12): T123 { T123(x.disease, 0, x.insCost) }
  function RightT123(x: Disease): T123 { T123(x.disease, x.class_, 0) }
  function DiseaseKey123(x: T123): Key { [x.disease] }
  function CopyCost(a: T123, b: T123): T123 { b.(insCost := a.insCost) }
  function ClassKey(x: T123): Key { [x.class_] }
  function AddCost123(a: T123, b: T123): T123 { b.(insCost := a.insCost + b.insCost) }

  // ----- What each stage's column means -----

  function PolicyTerm(person: int, p: Policy): int {
    if p.person == person then 100 - p.coinsurance else 0
  }

  /** SUM(100 - coinsurance) of one person. */
  ghost function PersonShare(ps: seq<Policy>, person: int): int {
    Sum(ps, p => PolicyTerm(person, p))
  }

  ghost function TreatmentTerm(ps: seq<Policy>, disease: int, t: Treatment): int {
    if t.disease == disease then t.cost * PersonShare(ps, t.person) else 0
  }

  /** SUM(share * cost) of one disease. */
  ghost function DiseaseCost(ps: seq<Policy>, ts: seq<Treatment>, disease: int): int {
    Sum(ts, t => TreatmentTerm(ps, disease, t))
  }

  ghost function DiseaseTerm(ps: seq<Policy>, ts: seq<Treatment>, c: int, d: Disease): int {
    if d.class_ == c then DiseaseCost(ps, ts, d.disease) else 0
  }

  ghost function ClassCost(ps: seq<Policy>, ts: seq<Treatment>, ds: seq<Disease>, c: int): int {
    Sum(ds, d => DiseaseTerm(ps, ts, c, d))
  }

  /** One treatment under one disease row: the cost distributes over the person's policies. */
  lemma {:induction false} TreatmentTotal(ps: seq<Policy>, t: Treatment, d: Disease, c: int)
    ensures PolicySum(ps, c, t, d) == if d.class_ == c then TreatmentTerm(ps, d.disease, t) else 0
  {
    if d.class_ == c && t.disease == d.disease {
      SumScale(ps, t.cost, p => PolicyTerm(t.person, p), p => Term(c, p, t, d));
    } else {
      SumSame(ps, p => Term(c, p, t, d), p => 0);
      SumZero(ps);
    }
  }

  /** Distributing the cost over the sums: the staged total is the SQL total. */
  lemma {:induction false} StagedTotal(ps: seq<Policy>, ts: seq<Treatment>, ds: seq<Disease>, c: int)
    ensures ClassCost(ps, ts, ds, c) == Total(ps, ts, ds, c)
  {
    forall d
      ensures DiseaseTerm(ps, ts, c, d) == TreatmentSum(ps, ts, c, d)
    {
      forall t ensures PolicySum(ps, c, t, d) == if d.class_ == c then TreatmentTerm(ps, d.disease, t) else 0 {
        TreatmentTotal(ps, t, d, c);
      }
      if d.class_ == c {
        SumSame(ts, t => TreatmentTerm(ps, d.disease, t), t => PolicySum(ps, c, t, d));
      } else {
        SumSame(ts, t => PolicySum(ps, c, t, d), t => 0);
        SumZero(ts);
      }
    }
    SumSame(ds, d => DiseaseTerm(ps, ts, c, d), d => TreatmentSum(ps, ts, c, d));
  }

  // ----- Stage by stage -----

  function PolicyRow(p: Policy): T1 { T1(p.person, p.coinsurance, 100 - p.coinsurance) }
  function Percentage(x: T1): int { x.percentage }
  function Percentage12(x: T12): int { x.percentage }
  function InsCost12(x: T12): int { x.insCost }
  function InsCost123(x: T123): int { x.insCost }

  /** After the first aggregation: a person's row carries the sum of the person's percentages. */
  lemma {:induction false} PersonStage(ps: seq<Policy>, before: seq<T1>, after: seq<T1>, person: int)
    requires before == Map(ps, PolicyRow)
    requires IsGroupBy(before, after, PersonKey1, Itself, AddPercentage)
    ensures Sum(WithKey(Map(after, LeftT12), PersonKey12, [person]), Percentage12) == PersonShare(ps, person)
  {
    var g := (x: T1) => if x.person == person then x.percentage else 0;
    RollUp(before, after, PersonKey1, Itself, AddPercentage, Percentage, [person], g);
    SumMap(ps, PolicyRow, g, p => PolicyTerm(person, p));
    WithKeyMap(after, LeftT12, PersonKey1, PersonKey12, [person]);
    SumMap(WithKey(after, PersonKey1, [person]), LeftT12, Percentage12, Percentage);
  }

  function Charge(x: T12): T12 { x.(insCost := x.percentage * x.cost) }
  function Charged(disease: int, x: T12): int { if x.disease == disease then x.percentage * x.cost else 0 }
  function CostWeight(disease: int, x: T12): int { if x.disease == disease then x.cost else 0 }

  ghost function ShareOf(ps: seq<Policy>, disease: int, x: T12): int {
    CostWeight(disease, x) * PersonShare(ps, x.person)
  }

  lemma {:induction false} ChargedProduct(disease: int, l: T12, r: T12)
    ensures Charged(disease, CopyPercentage(l, r)) == CostWeight(disease, r) * Percentage12(l)
  {
  }

  /** The insured cost of a disease, summed over the join with the persons' rows. */
  lemma {:induction false} DiseaseJoin(ps: seq<Policy>, ts: seq<Treatment>, left: seq<T12>, disease: int)
    requires UniqueBy(left, PersonKey12)
    requires forall person: int :: Sum(WithKey(left, PersonKey12, [person]), Percentage12) == PersonShare(ps, person)
    ensures Sum(InnerJoin(left, Map(ts, RightT12), PersonKey12, CopyPercentage), x => Charged(disease, x))
         == DiseaseCost(ps, ts, disease)
  {
    var share := (x: T12) => ShareOf(ps, disease, x);
    forall r: T12
      ensures ShareOf(ps, disease, r)
           == CostWeight(disease, r) * Sum(WithKey(left, PersonKey12, PersonKey12(r)), Percentage12)
    {
      assert PersonKey12(r) == [r.person];
    }
    forall l, r ensures Charged(disease, CopyPercentage(l, r)) == CostWeight(disease, r) * Percentage12(l) {
      ChargedProduct(disease, l, r);
    }
    JoinSum(left, Map(ts, RightT12), PersonKey12, CopyPercentage, x => Charged(disease, x), x => CostWeight(disease, x),
            Percentage12, share);
    SumMap(ts, RightT12, share, t => TreatmentTerm(ps, disease, t));
  }

  /** After the second aggregation: a disease's row carries the insured cost of all its treatments. */
  lemma {:induction false} DiseaseStage(ps: seq<Policy>, ts: seq<Treatment>, left: seq<T12>, joined: seq<T12>,
                                        after: seq<T12>, disease: int)
    requires UniqueBy(left, PersonKey12)
    requires forall person: int :: Sum(WithKey(left, PersonKey12, [person]), Percentage12) == PersonShare(ps, person)
    requires Perm(joined, InnerJoin(left, Map(ts, RightT12), PersonKey12, CopyPercentage))
    requires IsGroupBy(Map(joined, Charge), after, DiseaseKey12, Itself, AddCost12)
    ensures Sum(WithKey(Map(after, LeftT123), DiseaseKey123, [disease]), InsCost123) == DiseaseCost(ps, ts, disease)
  {
    var g := (x: T12) => if x.disease == disease then x.insCost else 0;
    RollUp(Map(joined, Charge), after, DiseaseKey12, Itself, AddCost12, InsCost12, [disease], g);
    SumMap(joined, Charge, g, x => Charged(disease, x));
    SumPerm(joined, InnerJoin(left, Map(ts, RightT12), PersonKey12, CopyPercentage), x => Charged(disease, x));
    DiseaseJoin(ps, ts, left, disease);
    WithKeyMap(after, LeftT123, DiseaseKey12, DiseaseKey123, [disease]);
    SumMap(WithKey(after, DiseaseKey12, [disease]), LeftT123, InsCost123, InsCost12);
  }

  function ClassWeight(c: int, x: T123): int { if x.class_ == c then 1 else 0 }
  function ClassedCost(c: int, x: T123): int { if x.class_ == c then x.insCost else 0 }

  ghost function CostOf(ps: seq<Policy>, ts: seq<Treatment>, c: int, y: T123): int {
    ClassWeight(c, y) * DiseaseCost(ps, ts, y.disease)
  }

  lemma {:induction false} ClassedProduct(c: int, l: T123, r: T123)
    ensures ClassedCost(c, CopyCost(l, r)) == ClassWeight(c, r) * InsCost123(l)
  {
  }

  lemma {:induction false} ClassJoin(ps: seq<Policy>, ts: seq<Treatment>, ds: seq<Disease>, left: seq<T123>, c: int)
    requires UniqueBy(left, DiseaseKey123)
    requires forall disease: int :: Sum(WithKey(left, DiseaseKey123, [disease]), InsCost123) == DiseaseCost(ps, ts,
        disease)
    ensures Sum(InnerJoin(left, Map(ds, RightT123), DiseaseKey123, CopyCost), y => ClassedCost(c, y))
         == ClassCost(ps, ts, ds, c)
  {
    var g := (y: T123) => CostOf(ps, ts, c, y);
    forall r: T123
      ensures CostOf(ps, ts, c, r)
           == ClassWeight(c, r) * Sum(WithKey(left, DiseaseKey123, DiseaseKey123(r)), InsCost123)
    {
      assert DiseaseKey123(r) == [r.disease];
    }
    forall l, r ensures ClassedCost(c, CopyCost(l, r)) == ClassWeight(c, r) * InsCost123(l) {
      ClassedProduct(c, l, r);
    }
    JoinSum(left, Map(ds, RightT123), DiseaseKey123, CopyCost, y => ClassedCost(c, y), y => ClassWeight(c, y),
            InsCost123, g);
    SumMap(ds, RightT123, g, d => DiseaseTerm(ps, ts, c, d));
  }

  /** After the last aggregation: a class's row carries the SQL total. */
  lemma {:induction false} ClassStage(ps: seq<Policy>, ts: seq<Treatment>, ds: seq<Disease>, left: seq<T123>,
                                      joined: seq<T123>, after: seq<T123>, x: T123)
    requires UniqueBy(left, DiseaseKey123)
    requires forall disease: int :: Sum(WithKey(left, DiseaseKey123, [disease]), InsCost123) == DiseaseCost(ps, ts,
        disease)
    requires Perm(joined, InnerJoin(left, Map(ds, RightT123), DiseaseKey123, CopyCost))
    requires IsGroupBy(joined, after, ClassKey, Itself, AddCost123) && x in after
    ensures x.insCost == Total(ps, ts, ds, x.class_)
  {
    var c := x.class_;
    GroupTotal(joined, after, ClassKey, Itself, AddCost123, InsCost123, x, y => ClassedCost(c, y));
    SumPerm(joined, InnerJoin(left, Map(ds, RightT123), DiseaseKey123, CopyCost), y => ClassedCost(c, y));
    ClassJoin(ps, ts, ds, left, c);
    StagedTotal(ps, ts, ds, c);
  }

  // ----- Which classes appear -----

  ghost predicate PersonHas(ps: seq<Policy>, person: int) {
    exists p :: p in ps && p.person == person
  }

  ghost predicate DiseaseHas(ps: seq<Policy>, ts: seq<Treatment>, disease: int) {
    exists t :: t in ts && t.disease == disease && PersonHas(ps, t.person)
  }

  lemma {:induction false} PersonPresent(ps: seq<Policy>, after: seq<T1>, person: int)
    requires IsGroupBy(Map(ps, PolicyRow), after, PersonKey1, Itself, AddPercentage)
    ensures HasKey(Map(after, LeftT12), PersonKey12, [person]) <==> PersonHas(ps, person)
  {
    HasKeyMap(after, LeftT12, PersonKey1, PersonKey12, [person]);
    GroupByKeys(Map(ps, PolicyRow), after, PersonKey1, Itself, AddPercentage, [person]);
    HasKeyMap(ps, PolicyRow, (p: Policy) => [p.person], PersonKey1, [person]);
  }

  lemma {:induction false} DiseasePresent(ps: seq<Policy>, ts: seq<Treatment>, left: seq<T12>, joined: seq<T12>,
                                          after: seq<T12>, disease: int)
    requires forall person: int :: HasKey(left, PersonKey12, [person]) <==> PersonHas(ps, person)
    requires Perm(joined, InnerJoin(left, Map(ts, RightT12), PersonKey12, CopyPercentage))
    requires IsGroupBy(Map(joined, Charge), after, DiseaseKey12, Itself, AddCost12)
    ensures HasKey(Map(after, LeftT123), DiseaseKey123, [disease]) <==> DiseaseHas(ps, ts, disease)
  {
    HasKeyMap(after, LeftT123, DiseaseKey12, DiseaseKey123, [disease]);
    GroupByKeys(Map(joined, Charge), after, DiseaseKey12, Itself, AddCost12, [disease]);
    HasKeyMap(joined, Charge, DiseaseKey12, DiseaseKey12, [disease]);
    HasKeyPerm(joined, InnerJoin(left, Map(ts, RightT12), PersonKey12, CopyPercentage), DiseaseKey12, [disease]);
    JoinColumnOf(left, ts, RightT12, PersonKey12, CopyPercentage, DiseaseKey12, [disease]);
    assert forall t: Treatment ::
      PersonKey12(RightT12(t)) == [t.person] && (DiseaseKey12(RightT12(t)) == [disease] <==> t.disease == disease);
  }

  lemma {:induction false} ClassPresent(ps: seq<Policy>, ts: seq<Treatment>, ds: seq<Disease>, left: seq<T123>,
                                        joined: seq<T123>, after: seq<T123>, c: int)
    requires forall disease: int :: HasKey(left, DiseaseKey123, [disease]) <==> DiseaseHas(ps, ts, disease)
    requires Perm(joined, InnerJoin(left, Map(ds, RightT123), DiseaseKey123, CopyCost))
    requires IsGroupBy(joined, after, ClassKey, Itself, AddCost123)
    ensures HasKey(after, ClassKey, [c]) <==> Present(ps, ts, ds, c)
  {
    GroupByKeys(joined, after, ClassKey, Itself, AddCost123, [c]);
    HasKeyPerm(joined, InnerJoin(left, Map(ds, RightT123), DiseaseKey123, CopyCost), ClassKey, [c]);
    JoinColumnOf(left, ds, RightT123, DiseaseKey123, CopyCost, ClassKey, [c]);
    assert forall d: Disease ::
      DiseaseKey123(RightT123(d)) == [d.disease] && (ClassKey(RightT123(d)) == [c] <==> d.class_ == c);
    PresentByDisease(ps, ts, ds, c);
  }

  lemma {:induction false} PresentByDisease(ps: seq<Policy>, ts: seq<Treatment>, ds: seq<Disease>, c: int)
    ensures Present(ps, ts, ds, c) <==> exists d :: d in ds && d.class_ == c && DiseaseHas(ps, ts, d.disease)
  {
    if d :| d in ds && d.class_ == c && DiseaseHas(ps, ts, d.disease) {
      var t :| t in ts && t.disease == d.disease && PersonHas(ps, t.person);
      var p :| p in ps && p.person == t.person;
      assert Joined(p, t, d);
    }
    if Present(ps, ts, ds, c) {
      var p, t, d :| p in ps && t in ts && d in ds && Joined(p, t, d) && d.class_ == c;
      assert PersonHas(ps, t.person) && DiseaseHas(ps, ts, d.disease);
    }
  }

  // ----- The plan -----

  /** The stage facts put together. */
  lemma {:induction false} PlanMeans(ps: seq<Policy>, ts: seq<Treatment>, ds: seq<Disease>, persons: seq<T1>,
                                     joined12: seq<T12>,
                  diseases: seq<T12>, joined123: seq<T123>, totals: seq<T123>)
    requires IsGroupBy(Map(ps, PolicyRow), persons, PersonKey1, Itself, AddPercentage)
    requires Perm(joined12, InnerJoin(Map(persons, LeftT12), Map(ts, RightT12), PersonKey12, CopyPercentage))
    requires IsGroupBy(Map(joined12, Charge), diseases, DiseaseKey12, Itself, AddCost12)
    requires Perm(joined123, InnerJoin(Map(diseases, LeftT123), Map(ds, RightT123), DiseaseKey123, CopyCost))
    requires IsGroupBy(joined123, totals, ClassKey, Itself, AddCost123)
    ensures forall x :: x in totals ==> x.insCost == Total(ps, ts, ds, x.class_)
    ensures forall c :: HasKey(totals, ClassKey, [c]) <==> Present(ps, ts, ds, c)
  {
    var left12, left123 := Map(persons, LeftT12), Map(diseases, LeftT123);
    UniqueMap(persons, LeftT12, PersonKey1, PersonKey12);
    UniqueMap(diseases, LeftT123, DiseaseKey12, DiseaseKey123);
    forall person: int
      ensures Sum(WithKey(left12, PersonKey12, [person]), Percentage12) == PersonShare(ps, person)
      ensures HasKey(left12, PersonKey12, [person]) <==> PersonHas(ps, person)
    {
      PersonStage(ps, Map(ps, PolicyRow), persons, person);
      PersonPresent(ps, persons, person);
    }
    forall disease: int
      ensures Sum(WithKey(left123, DiseaseKey123, [disease]), InsCost123) == DiseaseCost(ps, ts, disease)
      ensures HasKey(left123, DiseaseKey123, [disease]) <==> DiseaseHas(ps, ts, disease)
    {
      DiseaseStage(ps, ts, left12, joined12, diseases, disease);
      DiseasePresent(ps, ts, left12, joined12, diseases, disease);
    }
    forall x | x in totals
      ensures x.insCost == Total(ps, ts, ds, x.class_)
    {
      ClassStage(ps, ts, ds, left123, joined123, totals, x);
    }
    forall c
      ensures HasKey(totals, ClassKey, [c]) <==> Present(ps, ts, ds, c)
    {
      ClassPresent(ps, ts, ds, left123, joined123, totals, c);
    }
  }

  function Hundredth(x: T123): T123 { x.(insCost := x.insCost / 100) }

  lemma {:induction false} DivideRows(totals: seq<T123>, result: seq<T123>)
    requires result == Map(totals, Hundredth) && SortedBy(totals, ClassKey) && UniqueBy(totals, ClassKey)
    ensures SortedBy(result, ClassKey) && UniqueBy(result, ClassKey)
    ensures forall x :: x in result ==> exists y :: y in totals && x == Hundredth(y)
    ensures forall k :: HasKey(result, ClassKey, k) <==> HasKey(totals, ClassKey, k)
  {
    forall i | 0 <= i < |totals| ensures totals[i] in totals && ClassKey(result[i]) == ClassKey(totals[i]) {
      assert result[i] == Hundredth(totals[i]);
      assert ClassKey(result[i]) == [totals[i].class_];
    }
    forall k ensures HasKey(result, ClassKey, k) <==> HasKey(totals, ClassKey, k) {
      HasKeyMap(totals, Hundredth, ClassKey, ClassKey, k);
    }
  }

  /** Lines 79-88: percentages per person. */
  method SumPerPerson(ps: seq<Policy>) returns (rows: seq<Row<T1>>)
    requires |ps| >= 2
    ensures |rows| == |ps| && IsGroupBy(Map(ps, PolicyRow), Live(rows), PersonKey1, Itself, AddPercentage)
  {
    var t1 := new EncodedTable(Map(ps, (p: Policy) => T1(p.person, p.coinsurance, 0)), T1(0, 0, 0));
    t1.Assign((r: Row<T1>) => r.data.(percentage := -r.data.coinsurance + 100));
    assert Live(t1.rows) == Map(ps, PolicyRow) by {
      MapMap(ps, (p: Policy) => T1(p.person, p.coinsurance, 0), (x: T1) => x.(percentage := -x.coinsurance + 100),
             PolicyRow);
    }
    t1.Aggregate(PersonKey1, Itself, AddPercentage);
    rows := t1.rows;
  }

  lemma {:induction false} DiseaseOps()
    ensures FixedWidth(PersonKey12) && CopyColumns(CopyPercentage, PersonKey12)
    ensures Associative(AddCost12) && KeyStable(DiseaseKey12, Itself, AddCost12)
  {
  }

  lemma {:induction false} ClassOps()
    ensures FixedWidth(DiseaseKey123) && CopyColumns(CopyCost, DiseaseKey123)
    ensures Associative(AddCost123) && KeyStable(ClassKey, Itself, AddCost123)
  {
  }

  /** Lines 90-102: join with the treatments, insured cost per disease. */
  method SumPerDisease(persons: seq<Row<T1>>, ts: seq<Treatment>) returns (rows: seq<Row<T12>>, ghost joined: seq<T12>)
    requires |ts| >= 2 && UniqueBy(Live(persons), PersonKey1)
    ensures |rows| >= 2
    ensures Perm(joined, InnerJoin(Map(Live(persons), LeftT12), Map(ts, RightT12), PersonKey12, CopyPercentage))
    ensures IsGroupBy(Map(joined, Charge), Live(rows), DiseaseKey12, Itself, AddCost12)
  {
    DiseaseOps();
    UniqueMap(Live(persons), LeftT12, PersonKey1, PersonKey12);
    var t2 := new EncodedTable(ts, Treatment(0, 0, 0));
    var joinedRows := InnerJoinTables(persons, t2.rows, LeftT12, RightT12, PersonKey12, CopyPercentage,
                                      T12(0, 0, 0, 0, 0), 2);
    var t12 := new EncodedTable.FromRows(joinedRows, T12(0, 0, 0, 0, 0));
    joined := Live(t12.rows);
    t12.Assign((r: Row<T12>) => Charge(r.data));
    assert Live(t12.rows) == Map(joined, Charge);
    t12.Aggregate(DiseaseKey12, Itself, AddCost12);
    rows := t12.rows;
  }

  /** Lines 104-113: join with the disease classes, total per class, one division. */
  method SumPerClass(diseases: seq<Row<T12>>, ds: seq<Disease>)
    returns (rows: seq<Row<T123>>, ghost joined: seq<T123>, ghost totals: seq<T123>)
    requires |ds| >= 2 && UniqueBy(Live(diseases), DiseaseKey12)
    ensures Perm(joined, InnerJoin(Map(Live(diseases), LeftT123), Map(ds, RightT123), DiseaseKey123, CopyCost))
    ensures IsGroupBy(joined, totals, ClassKey, Itself, AddCost123) && SortedBy(totals, ClassKey)
    ensures Live(rows) == Map(totals, Hundredth)
  {
    ClassOps();
    UniqueMap(Live(diseases), LeftT123, DiseaseKey12, DiseaseKey123);
    var t3 := new EncodedTable(ds, Disease(0, 0));
    var joinedRows := InnerJoinTables(diseases, t3.rows, LeftT123, RightT123, DiseaseKey123, CopyCost, T123(0, 0, 0),
                                      2);
    var t123 := new EncodedTable.FromRows(joinedRows, T123(0, 0, 0));
    joined := Live(t123.rows);
    t123.Aggregate(ClassKey, Itself, AddCost123);
    totals := Live(t123.rows);
    t123.Assign((r: Row<T123>) => Hundredth(r.data));
    assert Live(t123.rows) == Map(totals, Hundredth);
    rows := t123.rows;
  }

  /** The opened result: one row per class that has a joined triple, in class order, holding the class's SQL
      total divided once by 100. The division is the secret-sharing protocols' corrected one, which rounds down
      (`SharedQuotientIff` says for which shares); the plaintext protocol truncates. */
  method Plan(ps: seq<Policy>, ts: seq<Treatment>, ds: seq<Disease>) returns (result: seq<T123>)
    requires |ps| >= 2 && |ts| >= 2 && |ds| >= 2
    ensures SortedBy(result, ClassKey) && UniqueBy(result, ClassKey)
    ensures forall c :: HasKey(result, ClassKey, [c]) <==> Present(ps, ts, ds, c)
    ensures forall x :: x in result ==> x.insCost == Total(ps, ts, ds, x.class_) / 100
    ensures forall x :: x in result ==>
      var total := Total(ps, ts, ds, x.class_);
      x.insCost == Truncated(total, 100) <==> total >= 0 || total % 100 == 0
  {
    var t1 := SumPerPerson(ps);
    var t12, joined12 := SumPerDisease(t1, ts);
    var t123, joined123, totals := SumPerClass(t12, ds);
    PlanMeans(ps, ts, ds, Live(t1), joined12, Live(t12), joined123, totals);
    result := Live(t123);
    DivideRows(totals, result);
    forall x | x in result
      ensures var total := Total(ps, ts, ds, x.class_);
              x.insCost == Truncated(total, 100) <==> total >= 0 || total % 100 == 0
    {
      RoundingAgrees(Total(ps, ts, ds, x.class_), 100);
    }
  }

  /** A coinsurance above 100 percent: the total is -1, which the plan rounds down to -1 and SQLite truncates to 0. */
  lemma {:induction false} NegativeTotal()
    ensures var ps, ds := [Policy(1, 101), Policy(2, 0)], [Disease(1, 1), Disease(2, 2)];
            var ts := [Treatment(1, 1, 1), Treatment(3, 1, 1)];
            Present(ps, ts, ds, 1) && Total(ps, ts, ds, 1) == -1 && -1 / 100 == -1 && Truncated(-1, 100) == 0
  {
    var ps, ds := [Policy(1, 101), Policy(2, 0)], [Disease(1, 1), Disease(2, 2)];
    var ts := [Treatment(1, 1, 1), Treatment(3, 1, 1)];
    assert ps[0] in ps && ts[0] in ts && ds[0] in ds && Joined(ps[0], ts[0], ds[0]);
    forall t, d ensures PolicySum(ps, 1, t, d) == Term(1, ps[0], t, d) + Term(1, ps[1], t, d) {
      TwoTerms(ps, p => Term(1, p, t, d));
    }
    forall d ensures TreatmentSum(ps, ts, 1, d) == PolicySum(ps, 1, ts[0], d) + PolicySum(ps, 1, ts[1], d) {
      TwoTerms(ts, t => PolicySum(ps, 1, t, d));
    }
    TwoTerms(ds, d => TreatmentSum(ps, ts, 1, d));
  }

  lemma {:induction false} TwoTerms<T>(s: seq<T>, f: T -> int)
    requires |s| == 2
    ensures Sum(s, f) == f(s[0]) + f(s[1])
  {
    assert s == [s[0]] + [s[1]];
    SumAppend([s[0]], [s[1]], f);
    SumSingle(s[0], f);
    SumSingle(s[1], f);
  }
}
