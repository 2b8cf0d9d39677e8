/** Recurrent C. diff (bench/queries/other/rcdiff.cpp): patients with two consecutive diagnoses 15 to 56 days
    apart. The self-join on row numbers is a shift of two columns by one row. */
module RcDiff {
  import opened Bags
  import opened Tables

  datatype Diagnosis = Diagnosis(pid: int, time: int, diag: int)

  /** A diagnosis with the columns of the row below it. */
  datatype Visit = Visit(pid: int, time: int, diag: int, pid2: int, time2: int)

  // ----- The SQL -----

  /** WHERE diag = 8. */
  predicate Cdiff(d: Diagnosis) { d.diag == 8 }

  function PidTime(d: Diagnosis): Key { [d.pid, d.time] }

  /** The common table expression in some row-number order: time ties may be numbered either way. */
  ghost predicate Numbered(ds: seq<Diagnosis>, rcd: seq<Diagnosis>) {
    Perm(rcd, Select(ds, Cdiff)) && SortedBy(rcd, PidTime)
  }

  /** Row i and the next are a pair of pid in range. */
  ghost predicate Pair(rcd: seq<Diagnosis>, pid: int, i: int) {
    0 <= i < |rcd| - 1 && rcd[i].pid == pid && rcd[i + 1].pid == pid && 15 <= rcd[i + 1].time - rcd[i].time <= 56
  }

  /** The self-join has a row for pid. */
  ghost predicate SelfJoin(rcd: seq<Diagnosis>, pid: int) {
    exists i :: Pair(rcd, pid, i)
  }

  // ----- The same without row numbers -----

  ghost predicate Between(ds: seq<Diagnosis>, a: Diagnosis, b: Diagnosis) {
    exists c :: c in ds && Cdiff(c) && c.pid == a.pid && a.time < c.time < b.time
  }

  /** Two diagnoses of pid in range with none of that pid strictly between them. */
  ghost predicate Consecutive(ds: seq<Diagnosis>, pid: int, a: Diagnosis, b: Diagnosis) {
    && a in ds && b in ds && Cdiff(a) && Cdiff(b) && a.pid == pid && b.pid == pid
    && 15 <= b.time - a.time <= 56 && !Between(ds, a, b)
  }

  ghost predicate Recurs(ds: seq<Diagnosis>, pid: int) {
    exists a, b :: Consecutive(ds, pid, a, b)
  }

  lemma {:induction false} NumberedMember(ds: seq<Diagnosis>, rcd: seq<Diagnosis>, d: Diagnosis)
    requires Numbered(ds, rcd)
    ensures d in rcd <==> d in ds && Cdiff(d)
  {
    PermMember(rcd, Select(ds, Cdiff), d);
    SelectMember(ds, Cdiff, d);
  }

  /** The last row numbered at the pid and time of row i. */
  lemma {:induction false} LastAt(rcd: seq<Diagnosis>, i: nat) returns (k: nat)
    requires i < |rcd|
    ensures i <= k < |rcd| && rcd[k].pid == rcd[i].pid && rcd[k].time == rcd[i].time
    ensures k + 1 < |rcd| ==> rcd[k + 1].pid != rcd[i].pid || rcd[k + 1].time != rcd[i].time
  {
    k := i;
    while k + 1 < |rcd| && rcd[k + 1].pid == rcd[i].pid && rcd[k + 1].time == rcd[i].time
      invariant i <= k < |rcd| && rcd[k].pid == rcd[i].pid && rcd[k].time == rcd[i].time
    {
      k := k + 1;
    }
  }

  lemma {:induction false} NumberedOrder(rcd: seq<Diagnosis>)
    requires SortedBy(rcd, PidTime)
    ensures forall i, j :: 0 <= i <= j < |rcd| ==>
      rcd[i].pid < rcd[j].pid || (rcd[i].pid == rcd[j].pid && rcd[i].time <= rcd[j].time)
  {
    forall i, j | 0 <= i <= j < |rcd|
      ensures rcd[i].pid < rcd[j].pid || (rcd[i].pid == rcd[j].pid && rcd[i].time <= rcd[j].time)
    {
      TwoColumns(rcd[i].pid, rcd[i].time, rcd[j].pid, rcd[j].time);
    }
  }

  lemma {:induction false} PairIsConsecutive(ds: seq<Diagnosis>, rcd: seq<Diagnosis>, pid: int, i: nat)
    requires Numbered(ds, rcd) && Pair(rcd, pid, i)
    ensures Consecutive(ds, pid, rcd[i], rcd[i + 1])
  {
    var a, b := rcd[i], rcd[i + 1];
    NumberedMember(ds, rcd, a);
    NumberedMember(ds, rcd, b);
    NumberedOrder(rcd);
    forall c | c in ds && Cdiff(c) && c.pid == a.pid ensures !(a.time < c.time < b.time) {
      NumberedMember(ds, rcd, c);
      var k :| 0 <= k < |rcd| && rcd[k] == c;
      assert k <= i || i + 1 <= k;
    }
  }

  lemma {:induction false} ConsecutiveIsPair(ds: seq<Diagnosis>, rcd: seq<Diagnosis>, pid: int, a: Diagnosis,
                                             b: Diagnosis)
    requires Numbered(ds, rcd) && Consecutive(ds, pid, a, b)
    ensures SelfJoin(rcd, pid)
  {
    NumberedMember(ds, rcd, a);
    NumberedMember(ds, rcd, b);
    NumberedOrder(rcd);
    var i :| 0 <= i < |rcd| && rcd[i] == a;
    var j :| 0 <= j < |rcd| && rcd[j] == b;
    var k := LastAt(rcd, i);
    assert k < j;
    var c := rcd[k + 1];
    NumberedMember(ds, rcd, c);
    assert c.pid == pid && a.time < c.time <= b.time;
    assert c.time == b.time;
    assert Pair(rcd, pid, k);
  }

  /** However ties are numbered, the self-join finds the same patients. */
  lemma {:induction false} SelfJoinIsRecurs(ds: seq<Diagnosis>, rcd: seq<Diagnosis>, pid: int)
    requires Numbered(ds, rcd)
    ensures SelfJoin(rcd, pid) <==> Recurs(ds, pid)
  {
    if i :| Pair(rcd, pid, i) {
      PairIsConsecutive(ds, rcd, pid, i);
    }
    if a, b :| Consecutive(ds, pid, a, b) {
      ConsecutiveIsPair(ds, rcd, pid, a, b);
    }
  }

  // ----- The table -----

  function ToVisit(d: Diagnosis): Visit { Visit(d.pid, d.time, d.diag, 0, 0) }
  function Base(v: Visit): Diagnosis { Diagnosis(v.pid, v.time, v.diag) }
  predicate VisitCdiff(v: Visit) { v.diag == 8 }
  function VisitPidTime(v: Visit): Key { [v.pid, v.time] }
  function PidKey(v: Visit): Key { [v.pid] }

  predicate InRange(delta: int) { 15 <= delta <= 56 }
  predicate Matches(v: Visit) { InRange(v.time2 - v.time) && v.pid2 == v.pid }

  /** Lines 82-84: the suffix of two columns copied into the prefix of two others; the last row keeps zeros. */
  function Shifted(rows: seq<Row<Visit>>): (r: seq<Row<Visit>>)
    ensures |r| == |rows|
  {
    seq(|rows|, i requires 0 <= i < |rows| =>
      if i + 1 < |rows| then Row(rows[i].valid,
                                 rows[i].data.(pid2 := rows[i + 1].data.pid, time2 := rows[i + 1].data.time))
      else rows[i])
  }

  /** The table sorted after the first filter. */
  ghost predicate SortedTable(ds: seq<Diagnosis>, rows: seq<Row<Visit>>) {
    Perm(rows, Filtered(ValidRows(Map(ds, ToVisit)), VisitCdiff)) && SortedBy(rows, RowKey(VisitPidTime))
  }

  lemma {:induction false} TableRows(ds: seq<Diagnosis>, rows: seq<Row<Visit>>, r: Row<Visit>)
    requires SortedTable(ds, rows)
    ensures r in rows <==> exists d :: d in ds && r == Row(VisitCdiff(ToVisit(d)), ToVisit(d))
  {
    var valid := ValidRows(Map(ds, ToVisit));
    var table := Filtered(valid, VisitCdiff);
    PermMember(rows, table, r);
    forall i | 0 <= i < |ds| ensures table[i] == Row(VisitCdiff(ToVisit(ds[i])), ToVisit(ds[i])) {
      assert valid[i] == Row(true, Map(ds, ToVisit)[i]);
      assert table[i] == Row(valid[i].valid && VisitCdiff(valid[i].data), valid[i].data);
    }
    if r in table {
      var i :| 0 <= i < |table| && table[i] == r;
      assert ds[i] in ds;
    }
    if d :| d in ds && r == Row(VisitCdiff(ToVisit(d)), ToVisit(d)) {
      var i :| 0 <= i < |ds| && ds[i] == d;
      assert table[i] == r;
    }
  }

  /** The valid rows, in table order, are the numbered diagnoses. */
  lemma {:induction false} TableNumbered(ds: seq<Diagnosis>, rows: seq<Row<Visit>>)
    requires SortedTable(ds, rows)
    ensures Numbered(ds, Map(Live(rows), Base))
  {
    var visits := Map(ds, ToVisit);
    var table := Filtered(ValidRows(visits), VisitCdiff);
    LiveFiltered(ValidRows(visits), VisitCdiff);
    LiveValidRows(visits);
    LivePerm(rows, table);
    MapPerm(Live(rows), Live(table), Base);
    SelectMap(visits, Base, Cdiff, VisitCdiff);
    MapMap(ds, ToVisit, Base, Itself);
    MapItself(ds);
    LiveSorted(rows, rows, VisitPidTime);
    var rcd := Map(Live(rows), Base);
    forall i, j | 0 <= i <= j < |rcd| ensures Leq(PidTime(rcd[i]), PidTime(rcd[j])) {
      assert PidTime(rcd[i]) == VisitPidTime(Live(rows)[i]) && PidTime(rcd[j]) == VisitPidTime(Live(rows)[j]);
    }
  }

  /** The rows that reach the distinct step. */
  function Candidates(rows: seq<Row<Visit>>): (r: seq<Row<Visit>>)
    ensures |r| == |rows|
  {
    Filtered(Shifted(rows), Matches)
  }

  ghost predicate Found(rows: seq<Row<Visit>>, pid: int) {
    exists i :: FoundAt(rows, pid, i)
  }

  ghost predicate FoundAt(rows: seq<Row<Visit>>, pid: int, i: int) {
    0 <= i < |rows| && Candidates(rows)[i].valid && rows[i].data.pid == pid
  }

  lemma {:induction false} CandidateRow(rows: seq<Row<Visit>>, i: nat)
    requires i < |rows| && rows[i].data.time2 == 0 && rows[i].data.time >= 0
    ensures var c := Candidates(rows)[i];
            && c.data.pid == rows[i].data.pid
            && (c.valid <==> rows[i].valid && i + 1 < |rows| && rows[i + 1].data.pid == rows[i].data.pid &&
                             InRange(rows[i + 1].data.time - rows[i].data.time))
  {
    var s := Shifted(rows)[i];
    assert Candidates(rows)[i] == Row(s.valid && Matches(s.data), s.data);
  }

  lemma {:induction false} TableFacts(ds: seq<Diagnosis>, rows: seq<Row<Visit>>, i: nat)
    requires SortedTable(ds, rows) && i < |rows| && forall d :: d in ds ==> d.time >= 0
    ensures rows[i].data.time2 == 0 && rows[i].data.time >= 0
    ensures exists d :: d in ds && d.pid == rows[i].data.pid
  {
    assert rows[i] in rows;
    TableRows(ds, rows, rows[i]);
  }

  /** The shifted row test finds the patients of the self-join; the last row and the invalid rows, which lie
      above all valid rows, are harmless. */
  lemma {:induction false} FoundIsPair(ds: seq<Diagnosis>, rows: seq<Row<Visit>>, rcd: seq<Diagnosis>, k: nat, pid: int,
                                       i: int)
    requires SortedTable(ds, rows) && forall d :: d in ds ==> d.time >= 0
    requires k <= i < |rows| && rows[i].valid && |rcd| == |rows| - k
    requires forall h :: 0 <= h < |rcd| ==> rcd[h] == Base(rows[k + h].data)
    ensures FoundAt(rows, pid, i) <==> Pair(rcd, pid, i - k)
  {
    TableFacts(ds, rows, i);
    CandidateRow(rows, i);
    assert rcd[i - k] == Base(rows[i].data);
    if i + 1 < |rows| { assert rcd[i - k + 1] == Base(rows[i + 1].data); }
  }

  /** The numbered diagnoses lie at the end of the table. */
  lemma {:induction false} RcdRows(rows: seq<Row<Visit>>) returns (k: nat)
    requires SortedBy(rows, RowKey(VisitPidTime))
    ensures k <= |rows| && forall i :: 0 <= i < |rows| ==> (rows[i].valid <==> i >= k)
    ensures var rcd := Map(Live(rows), Base);
            |rcd| == |rows| - k && forall h :: 0 <= h < |rcd| ==> rcd[h] == Base(rows[k + h].data)
  {
    k := ValidSuffix(rows, VisitPidTime);
    var rcd := Map(Live(rows), Base);
    forall h | 0 <= h < |rcd| ensures rcd[h] == Base(rows[k + h].data) {
      assert rcd[h] == Base(Live(rows)[h]);
    }
  }

  lemma {:induction false} FoundIsSelfJoin(ds: seq<Diagnosis>, rows: seq<Row<Visit>>, rcd: seq<Diagnosis>, k: nat,
                                           pid: int)
    requires SortedTable(ds, rows) && forall d :: d in ds ==> d.time >= 0
    requires k <= |rows| && (forall i :: 0 <= i < |rows| ==> (rows[i].valid <==> i >= k))
    requires |rcd| == |rows| - k && forall h :: 0 <= h < |rcd| ==> rcd[h] == Base(rows[k + h].data)
    ensures Found(rows, pid) <==> SelfJoin(rcd, pid)
  {
    if i :| FoundAt(rows, pid, i) {
      TableFacts(ds, rows, i);
      CandidateRow(rows, i);
      FoundIsPair(ds, rows, rcd, k, pid, i);
    }
    if i :| Pair(rcd, pid, i) {
      FoundIsPair(ds, rows, rcd, k, pid, k + i);
    }
  }

  /** Every patient keeps an invalid row: the last of a run of rows of the patient never matches. */
  lemma {:induction false} InvalidRow(ds: seq<Diagnosis>, rows: seq<Row<Visit>>, d: Diagnosis) returns (i: nat)
    requires SortedTable(ds, rows) && d in ds && forall d :: d in ds ==> d.time >= 0
    ensures i < |rows| && rows[i].data.pid == d.pid && !Candidates(rows)[i].valid
  {
    TableRows(ds, rows, Row(VisitCdiff(ToVisit(d)), ToVisit(d)));
    i :| 0 <= i < |rows| && rows[i] == Row(VisitCdiff(ToVisit(d)), ToVisit(d));
    while i + 1 < |rows| && rows[i + 1].data.pid == d.pid
      invariant i < |rows| && rows[i].data.pid == d.pid
    {
      i := i + 1;
    }
    TableFacts(ds, rows, i);
    CandidateRow(rows, i);
  }

  // ----- What distinct does to it -----

  ghost predicate Largest(ds: seq<Diagnosis>, pid: int) {
    forall d :: d in ds ==> d.pid <= pid
  }

  /** The SQL answer is the one pid that is the largest of the whole table, whatever the diagnosis. */
  ghost predicate OnlyLargest(ds: seq<Diagnosis>) {
    exists pid :: Recurs(ds, pid) && Largest(ds, pid) && forall other :: Recurs(ds, other) ==> other == pid
  }

  ghost predicate InTable(ds: seq<Diagnosis>, pid: int) {
    exists d :: d in ds && d.pid == pid
  }

  ghost predicate HasRow(cs: seq<Row<Visit>>, valid: bool, pid: int) {
    exists i :: RowAt(cs, valid, pid, i)
  }

  ghost predicate RowAt(cs: seq<Row<Visit>>, valid: bool, pid: int, i: int) {
    0 <= i < |cs| && cs[i].valid == valid && cs[i].data.pid == pid
  }

  /** The rows distinct starts from: every pid of the table has an invalid one, those of the query a valid one. */
  ghost predicate Spread(ds: seq<Diagnosis>, cs: seq<Row<Visit>>) {
    && (forall pid :: HasRow(cs, false, pid) <==> InTable(ds, pid))
    && (forall pid :: HasRow(cs, true, pid) <==> Recurs(ds, pid))
  }

  lemma {:induction false} CandidatesSpread(ds: seq<Diagnosis>, rows: seq<Row<Visit>>)
    requires SortedTable(ds, rows) && forall d :: d in ds ==> d.time >= 0
    ensures Spread(ds, Candidates(rows))
  {
    var cs := Candidates(rows);
    TableNumbered(ds, rows);
    forall pid
      ensures HasRow(cs, false, pid) <==> InTable(ds, pid)
      ensures HasRow(cs, true, pid) <==> Recurs(ds, pid)
    {
      InvalidRows(ds, rows, pid);
      ValidRowsOf(ds, rows, pid);
    }
  }

  lemma {:induction false} InvalidRows(ds: seq<Diagnosis>, rows: seq<Row<Visit>>, pid: int)
    requires SortedTable(ds, rows) && forall d :: d in ds ==> d.time >= 0
    ensures HasRow(Candidates(rows), false, pid) <==> InTable(ds, pid)
  {
    var cs := Candidates(rows);
    if d :| d in ds && d.pid == pid {
      var i := InvalidRow(ds, rows, d);
      TableFacts(ds, rows, i);
      CandidateRow(rows, i);
      assert RowAt(cs, false, pid, i);
    }
    if i :| RowAt(cs, false, pid, i) {
      TableFacts(ds, rows, i);
      CandidateRow(rows, i);
    }
  }

  lemma {:induction false} ValidRowsOf(ds: seq<Diagnosis>, rows: seq<Row<Visit>>, pid: int)
    requires SortedTable(ds, rows) && forall d :: d in ds ==> d.time >= 0
    requires Numbered(ds, Map(Live(rows), Base))
    ensures HasRow(Candidates(rows), true, pid) <==> Recurs(ds, pid)
  {
    var cs := Candidates(rows);
    var k := RcdRows(rows);
    FoundIsSelfJoin(ds, rows, Map(Live(rows), Base), k, pid);
    SelfJoinIsRecurs(ds, Map(Live(rows), Base), pid);
    if i :| RowAt(cs, true, pid, i) {
      TableFacts(ds, rows, i);
      CandidateRow(rows, i);
      assert FoundAt(rows, pid, i);
    }
    if i :| FoundAt(rows, pid, i) {
      TableFacts(ds, rows, i);
      CandidateRow(rows, i);
      assert RowAt(cs, true, pid, i);
    }
  }

  lemma {:induction false} RecursInTable(ds: seq<Diagnosis>, pid: int)
    requires Recurs(ds, pid)
    ensures InTable(ds, pid)
  {
  }

  lemma {:induction false} ShadowedOnly(ds: seq<Diagnosis>, cs: seq<Row<Visit>>, pid: int)
    requires Spread(ds, cs) && Recurs(ds, pid) && Shadowed(cs, PidKey, [pid])
    ensures OnlyLargest(ds)
  {
    forall d | d in ds ensures d.pid <= pid {
      assert HasRow(cs, false, d.pid);
      var i :| RowAt(cs, false, d.pid, i);
      assert cs[i] in cs;
      OneColumn(cs[i].data.pid, pid);
      OneColumn(pid, cs[i].data.pid);
    }
    assert Largest(ds, pid);
    forall other | Recurs(ds, other) ensures other == pid {
      assert HasRow(cs, true, other);
      var i :| RowAt(cs, true, other, i);
      assert cs[i] in cs;
      OneColumn(cs[i].data.pid, pid);
      OneColumn(pid, cs[i].data.pid);
      RecursInTable(ds, other);
    }
  }

  lemma {:induction false} OnlyShadowed(ds: seq<Diagnosis>, cs: seq<Row<Visit>>, pid: int)
    requires Spread(ds, cs) && Recurs(ds, pid) && OnlyLargest(ds)
    ensures Shadowed(cs, PidKey, [pid])
  {
    RecursInTable(ds, pid);
    assert HasRow(cs, true, pid) && HasRow(cs, false, pid);
    var i :| RowAt(cs, true, pid, i);
    var j :| RowAt(cs, false, pid, j);
    assert cs[i] in cs && cs[j] in cs;
    OneColumn(cs[i].data.pid, pid);
      OneColumn(pid, cs[i].data.pid);
    OneColumn(cs[j].data.pid, pid);
      OneColumn(pid, cs[j].data.pid);
    forall r | r in cs ensures if r.valid then Leq([pid], PidKey(r.data)) else Leq(PidKey(r.data), [pid]) {
      var h :| 0 <= h < |cs| && cs[h] == r;
      assert RowAt(cs, r.valid, r.data.pid, h);
      OneColumn(r.data.pid, pid);
      OneColumn(pid, r.data.pid);
      if !r.valid { assert HasRow(cs, false, r.data.pid); } else { assert HasRow(cs, true, r.data.pid); }
    }
  }

  /** The patients left by distinct. */
  lemma {:induction false} ResultPids(ds: seq<Diagnosis>, cs: seq<Row<Visit>>, result: seq<Visit>, pid: int)
    requires Spread(ds, cs) && IsDistinct(cs, result, PidKey)
    ensures HasKey(result, PidKey, [pid]) <==> Recurs(ds, pid) && !OnlyLargest(ds)
  {
    if Recurs(ds, pid) {
      assert HasRow(cs, true, pid);
      var i :| RowAt(cs, true, pid, i);
      LiveMember(cs, cs[i].data);
      OneColumn(cs[i].data.pid, pid);
      OneColumn(pid, cs[i].data.pid);
      if OnlyLargest(ds) { OnlyShadowed(ds, cs, pid); }
      if Shadowed(cs, PidKey, [pid]) { ShadowedOnly(ds, cs, pid); }
    } else if HasKey(result, PidKey, [pid]) {
      var x :| x in result && PidKey(x) == [pid];
      OneColumn(x.pid, pid);
      OneColumn(pid, x.pid);
      LiveMember(cs, x);
      var i :| 0 <= i < |cs| && cs[i].valid && cs[i].data == x;
      assert RowAt(cs, true, pid, i);
      assert HasRow(cs, true, pid);
      assert false;
    }
  }

  /** The plan: the opened pids, in order and without repetition, are those of the query, except that a query
      answer consisting of just the largest pid of the table is lost. */
  method Plan(ds: seq<Diagnosis>) returns (result: seq<Visit>)
    requires |ds| >= 1 && forall d :: d in ds ==> d.time >= 0
    ensures SortedBy(result, PidKey) && UniqueBy(result, PidKey)
    ensures forall pid :: HasKey(result, PidKey, [pid]) <==> Recurs(ds, pid) && !OnlyLargest(ds)
    ensures (forall pid :: HasKey(result, PidKey, [pid]) <==> Recurs(ds, pid)) <==> !OnlyLargest(ds)
  {
    var d := new EncodedTable(Map(ds, ToVisit), Visit(0, 0, 0, 0, 0));
    d.Filter(VisitCdiff);
    d.SortValid(VisitPidTime);
    ghost var sorted := d.rows;
    d := new EncodedTable.FromRows(Shifted(d.rows), d.zero);
    d.Filter(Matches);
    d.Distinct(PidKey);
    result := Live(d.rows);
    CandidatesSpread(ds, sorted);
    forall pid ensures HasKey(result, PidKey, [pid]) <==> Recurs(ds, pid) && !OnlyLargest(ds) {
      ResultPids(ds, Candidates(sorted), result, pid);
    }
  }

  /** One patient with two diagnoses twenty days apart: in the query's answer, lost by the plan. */
  lemma {:induction false} LostPatient()
    ensures var ds := [Diagnosis(1, 0, 8), Diagnosis(1, 20, 8)]; Recurs(ds, 1) && OnlyLargest(ds)
  {
    var ds := [Diagnosis(1, 0, 8), Diagnosis(1, 20, 8)];
    assert Consecutive(ds, 1, ds[0], ds[1]);
    assert Largest(ds, 1);
  }
}
