/** Aspirin count (bench/queries/other/aspirin.cpp): patients with some diagnosis no later than some
    medication. The test over all pairs is a test on the earliest diagnosis and the latest medication. */
module Aspirin {
  import opened Bags
  import opened PrefixNetworks
  import opened Tables
  import opened Joins

  datatype Diagnosis = Diagnosis(pid: int, time: int, diag: int)
  datatype Medication = Medication(pid: int, time: int, med: int)

  /** A patient's earliest diagnosis and latest medication: table T. */
  datatype Times = Times(pid: int, dTime: int, mTime: int, count: int)

  // ----- The SQL -----

  predicate Joined(d: Diagnosis, m: Medication) {
    d.pid == m.pid && d.time <= m.time && d.diag == 3 && m.med == 5
  }

  ghost predicate Treated(ms: seq<Medication>, d: Diagnosis) {
    exists m :: m in ms && Joined(d, m)
  }

  /** The distinct pids over all pairs. */
  ghost function Patients(ds: seq<Diagnosis>, ms: seq<Medication>): set<int> {
    set d | d in ds && Treated(ms, d) :: d.pid
  }

  // ----- Columns -----

  predicate IsDiag(d: Diagnosis) { d.diag == 3 }
  predicate IsMed(m: Medication) { m.med == 5 }
  function DiagPid(d: Diagnosis): Key { [d.pid] }
  function MedPid(m: Medication): Key { [m.pid] }
  function Earlier(a: Diagnosis, b: Diagnosis): Diagnosis { b.(time := Min(a.time, b.time)) }
  function Later(a: Medication, b: Medication): Medication { b.(time := if a.time >= b.time then a.time else b.time) }
  function FromDiag(d: Diagnosis): Times { Times(d.pid, d.time, 0, 0) }
  function FromMed(m: Medication): Times { Times(m.pid, 0, m.time, 0) }
  function Pid(t: Times): Key { [t.pid] }
  function CopyDiag(a: Times, b: Times): Times { b.(dTime := a.dTime) }
  predicate InOrder(t: Times) { t.dTime <= t.mTime }
  function GetCount(t: Times): int { t.count }
  function SetCount(t: Times, v: int): Times { t.(count := v) }
  function One(t: Times): int { 1 }
  const ZERO := Times(0, 0, 0, 0)

  // ----- Earliest and latest -----

  /** A patient's row holds a lower bound of the diagnosis times that is itself one of them. */
  lemma {:induction false} EarliestRow(ds: seq<Diagnosis>, firsts: seq<Diagnosis>, x: Diagnosis)
    requires IsGroupBy(Select(ds, IsDiag), firsts, DiagPid, Itself, Earlier) && x in firsts
    ensures forall d :: d in ds && IsDiag(d) && d.pid == x.pid ==> x.time <= d.time
    ensures exists d :: d in ds && IsDiag(d) && d.pid == x.pid && d.time == x.time
  {
    var rows := Select(ds, IsDiag);
    assert FromGroup(rows, x, DiagPid, Itself, Earlier);
    var g: seq<Diagnosis> :|
      g != [] && Perm(g, WithKey(rows, DiagPid, DiagPid(x))) && x == Fold(Earlier, Map(g, Itself));
    MapItself(g);
    GroupMembers(g, rows, DiagPid, DiagPid(x));
    forall d ensures d in g <==> d in ds && IsDiag(d) && d.pid == x.pid {
      SelectMember(ds, IsDiag, d);
      assert DiagPid(d)[0] == d.pid && DiagPid(x)[0] == x.pid;
    }
    FoldLeast(Earlier, g, (d: Diagnosis) => d.time);
    var d :| d in g && d.time == x.time;
  }

  lemma {:induction false} LatestRow(ms: seq<Medication>, lasts: seq<Medication>, x: Medication)
    requires IsGroupBy(Select(ms, IsMed), lasts, MedPid, Itself, Later) && x in lasts
    ensures forall m :: m in ms && IsMed(m) && m.pid == x.pid ==> x.time >= m.time
    ensures exists m :: m in ms && IsMed(m) && m.pid == x.pid && m.time == x.time
  {
    var rows := Select(ms, IsMed);
    assert FromGroup(rows, x, MedPid, Itself, Later);
    var g: seq<Medication> :| g != [] && Perm(g, WithKey(rows, MedPid, MedPid(x))) && x == Fold(Later, Map(g, Itself));
    MapItself(g);
    GroupMembers(g, rows, MedPid, MedPid(x));
    forall m ensures m in g <==> m in ms && IsMed(m) && m.pid == x.pid {
      SelectMember(ms, IsMed, m);
      assert MedPid(m)[0] == m.pid && MedPid(x)[0] == x.pid;
    }
    FoldLeast(Later, g, (m: Medication) => -m.time);
    var m :| m in g && m.time == x.time;
  }

  /** The min/max test on the two rows of a patient is the test over all pairs. */
  lemma {:induction false} PairTest(ds: seq<Diagnosis>, ms: seq<Medication>, firsts: seq<Diagnosis>,
                                    lasts: seq<Medication>, x: Diagnosis, y: Medication)
    requires IsGroupBy(Select(ds, IsDiag), firsts, DiagPid, Itself, Earlier) && x in firsts
    requires IsGroupBy(Select(ms, IsMed), lasts, MedPid, Itself, Later) && y in lasts
    requires x.pid == y.pid
    ensures x.time <= y.time <==> x.pid in Patients(ds, ms)
  {
    EarliestRow(ds, firsts, x);
    LatestRow(ms, lasts, y);
    if x.time <= y.time {
      var d :| d in ds && IsDiag(d) && d.pid == x.pid && d.time == x.time;
      var m :| m in ms && IsMed(m) && m.pid == y.pid && m.time == y.time;
      assert Joined(d, m);
      assert Treated(ms, d);
    }
  }

  // ----- The join -----

  ghost function Plain(firsts: seq<Diagnosis>, lasts: seq<Medication>): seq<Times> {
    InnerJoin(Map(firsts, FromDiag), Map(lasts, FromMed), Pid, CopyDiag)
  }

  lemma {:induction false} PlainRow(firsts: seq<Diagnosis>, lasts: seq<Medication>, t: Times)
    ensures t in Plain(firsts, lasts) ==>
      exists x, y :: x in firsts && y in lasts && x.pid == y.pid == t.pid && x.time == t.dTime && y.time == t.mTime
  {
    var ll, rr := Map(firsts, FromDiag), Map(lasts, FromMed);
    if t in Plain(firsts, lasts) {
      FlatMapMember(rr, r => JoinOne(ll, Pid, CopyDiag, r), t);
      var r :| r in rr && t in JoinOne(ll, Pid, CopyDiag, r);
      var m := WithKey(ll, Pid, Pid(r))[0];
      WithKeyMember(ll, Pid, Pid(r), m);
      assert Pid(m)[0] == m.pid && Pid(r)[0] == r.pid;
      MapMember(firsts, FromDiag);
      MapMember(lasts, FromMed);
      var x :| x in firsts && FromDiag(x) == m;
      var y :| y in lasts && FromMed(y) == r;
    }
  }

  /** The join keeps the patients of both tables. */
  lemma {:induction false} PlainHas(firsts: seq<Diagnosis>, lasts: seq<Medication>, x: Diagnosis, y: Medication)
    requires x in firsts && y in lasts && x.pid == y.pid
    ensures HasKey(Plain(firsts, lasts), Pid, [x.pid])
  {
    var ll := Map(firsts, FromDiag);
    MapMember(firsts, FromDiag);
    assert FromDiag(x) in ll && Pid(FromDiag(x)) == [x.pid];
    JoinColumnOf(ll, lasts, FromMed, Pid, CopyDiag, Pid, [x.pid]);
    assert Pid(FromMed(y)) == [x.pid];
    assert HasKey(ll, Pid, Pid(FromMed(y)));
  }

  /** Right rows with distinct keys join to rows with distinct keys. */
  lemma {:induction false} JoinUnique(ll: seq<Times>, rr: seq<Times>)
    requires UniqueBy(rr, Pid)
    ensures UniqueBy(InnerJoin(ll, rr, Pid, CopyDiag), Pid)
    ensures forall t :: t in InnerJoin(ll, rr, Pid, CopyDiag) ==> HasKey(rr, Pid, Pid(t))
  {
    if rr != [] {
      var rr', r := rr[..|rr| - 1], rr[|rr| - 1];
      LastSplit(rr);
      JoinUnique(ll, rr');
      var before, one := InnerJoin(ll, rr', Pid, CopyDiag), JoinOne(ll, Pid, CopyDiag, r);
      assert InnerJoin(ll, rr, Pid, CopyDiag) == before + one;
      assert forall t :: t in one ==> Pid(t) == Pid(r);
      forall t | t in before ensures Pid(t) != Pid(r) && HasKey(rr, Pid, Pid(t)) {
        var q :| q in rr' && Pid(q) == Pid(t);
        assert q in rr;
      }
      assert r in rr;
    }
  }

  /** The rows that stay valid: one for each patient of the query. */
  lemma {:induction false} FinalPatients(ds: seq<Diagnosis>, ms: seq<Medication>, firsts: seq<Diagnosis>,
                                         lasts: seq<Medication>, joined: seq<Times>, k: int)
    requires IsGroupBy(Select(ds, IsDiag), firsts, DiagPid, Itself, Earlier)
    requires IsGroupBy(Select(ms, IsMed), lasts, MedPid, Itself, Later)
    requires Perm(joined, Plain(firsts, lasts))
    ensures k in Patients(ds, ms) <==> HasKey(Select(joined, InOrder), PidOf, k)
  {
    if HasKey(Select(joined, InOrder), PidOf, k) {
      var t :| t in Select(joined, InOrder) && PidOf(t) == k;
      SelectMember(joined, InOrder, t);
      PermMember(joined, Plain(firsts, lasts), t);
      PlainRow(firsts, lasts, t);
      var x, y :| x in firsts && y in lasts && x.pid == y.pid == t.pid && x.time == t.dTime && y.time == t.mTime;
      PairTest(ds, ms, firsts, lasts, x, y);
    }
    if k in Patients(ds, ms) {
      var d :| d in ds && Treated(ms, d) && d.pid == k;
      var m :| m in ms && Joined(d, m);
      SelectMember(ds, IsDiag, d);
      SelectMember(ms, IsMed, m);
      var x :| x in firsts && DiagPid(x) == DiagPid(d);
      var y :| y in lasts && MedPid(y) == MedPid(m);
      assert DiagPid(x)[0] == x.pid && DiagPid(d)[0] == d.pid && MedPid(y)[0] == y.pid && MedPid(m)[0] == m.pid;
      PlainHas(firsts, lasts, x, y);
      var t :| t in Plain(firsts, lasts) && Pid(t) == [k];
      RowOfPatient(ds, ms, firsts, lasts, joined, t, k);
    }
  }

  lemma {:induction false} RowOfPatient(ds: seq<Diagnosis>, ms: seq<Medication>, firsts: seq<Diagnosis>,
                                        lasts: seq<Medication>, joined: seq<Times>, t: Times, k: int)
    requires IsGroupBy(Select(ds, IsDiag), firsts, DiagPid, Itself, Earlier)
    requires IsGroupBy(Select(ms, IsMed), lasts, MedPid, Itself, Later)
    requires Perm(joined, Plain(firsts, lasts)) && k in Patients(ds, ms) && t in Plain(firsts, lasts) && Pid(t) == [k]
    ensures HasKey(Select(joined, InOrder), PidOf, k)
  {
    OneColumn(t.pid, k);
    PlainRow(firsts, lasts, t);
    var x, y :| x in firsts && y in lasts && x.pid == y.pid == t.pid && x.time == t.dTime && y.time == t.mTime;
    PairTest(ds, ms, firsts, lasts, x, y);
    PermMember(joined, Plain(firsts, lasts), t);
    SelectMember(joined, InOrder, t);
  }

  function PidOf(t: Times): int { t.pid }

  lemma {:induction false} FinalUnique(firsts: seq<Diagnosis>, lasts: seq<Medication>, joined: seq<Times>)
    requires UniqueBy(lasts, MedPid) && Perm(joined, Plain(firsts, lasts))
    ensures UniqueBy(Select(joined, InOrder), PidOf)
  {
    UniqueMap(lasts, FromMed, MedPid, Pid);
    JoinUnique(Map(firsts, FromDiag), Map(lasts, FromMed));
    UniquePerm(Plain(firsts, lasts), joined, Pid);
    UniqueSelect(joined, InOrder, Pid);
    var final := Select(joined, InOrder);
    forall i, j | 0 <= i < j < |final| ensures PidOf(final[i]) != PidOf(final[j]) {
      assert Pid(final[i]) != Pid(final[j]);
      assert Pid(final[i]) == [final[i].pid] && Pid(final[j]) == [final[j].pid];
    }
  }

  // ----- The plan -----

  lemma {:induction false} Ops()
    ensures Associative(Earlier) && KeyStable(DiagPid, Itself, Earlier)
    ensures Associative(Later) && KeyStable(MedPid, Itself, Later)
    ensures FixedWidth(Pid) && CopyColumns(CopyDiag, Pid)
  {
  }

  /** Lines 60-77: filters, and the earliest and latest times per patient. */
  method FirstsAndLasts(ds: seq<Diagnosis>, ms: seq<Medication>)
    returns (d: seq<Row<Diagnosis>>, m: seq<Row<Medication>>)
    requires |ds| >= 2 && |ms| >= 2
    ensures |d| >= 2 && IsGroupBy(Select(ds, IsDiag), Live(d), DiagPid, Itself, Earlier)
    ensures |m| >= 2 && IsGroupBy(Select(ms, IsMed), Live(m), MedPid, Itself, Later)
  {
    Ops();
    var dt := new EncodedTable(ds, Diagnosis(0, 0, 0));
    dt.Filter(IsDiag);
    dt.Aggregate(DiagPid, Itself, Earlier);
    d := dt.rows;
    var mt := new EncodedTable(ms, Medication(0, 0, 0));
    mt.Filter(IsMed);
    mt.Aggregate(MedPid, Itself, Later);
    m := mt.rows;
  }

  /** Lines 88-92: the valid bits summed down the table and read from the last row, valid or not. */
  method CountValid(rows: seq<Row<Times>>) returns (count: int)
    requires |rows| >= 1
    ensures count == |Live(rows)|
  {
    var t := new EncodedTable.FromRows(rows, ZERO);
    t.Assign((r: Row<Times>) => SetCount(r.data, if r.valid then 1 else 0));
    ghost var masked := t.rows;
    SumMasked(rows, masked, GetCount, One);
    SumSame(Live(rows), One, x => 1);
    SumOne(Live(rows));
    t.PrefixSum(GetCount, SetCount);
    assert masked[..|rows|] == masked;
    t.Tail(1);
    count := t.rows[0].data.count;
  }

  /** The whole query: the number of distinct patients of the join over all pairs. */
  method Plan(ds: seq<Diagnosis>, ms: seq<Medication>) returns (count: int)
    requires |ds| >= 2 && |ms| >= 2
    ensures count == |Patients(ds, ms)|
  {
    Ops();
    var d, m := FirstsAndLasts(ds, ms);
    UniqueMap(Live(d), FromDiag, DiagPid, Pid);
    var rows := InnerJoinTables(d, m, FromDiag, FromMed, Pid, CopyDiag, ZERO, 2);
    ghost var joined := Live(rows);
    var t := new EncodedTable.FromRows(rows, ZERO);
    t.Filter(InOrder);
    count := CountValid(t.rows);
    FinalUnique(Live(d), Live(m), joined);
    forall k ensures k in Patients(ds, ms) <==> HasKey(Select(joined, InOrder), PidOf, k) {
      FinalPatients(ds, ms, Live(d), Live(m), joined, k);
    }
    UniqueCardinality(Select(joined, InOrder), PidOf, Patients(ds, ms));
  }
}
