/** Grouping of experiment records (scripts/run_experiment.py): runs of one configuration are collected in run
    order and their profile metrics aggregated. */
module Grouping {
  import opened Options
  import opened Bags

  /** A JSON value: what float() makes of it, if anything. */
  datatype Json = Json(text: string, number: Option<real>)
  type Config = map<string, Json>

  /** A stopwatch record; `entries` is the nested profile where there is one, else the record itself. */
  datatype Stopwatch = NoDict | Run(timedOut: bool, entries: map<string, Json>)

  datatype Record = Record(config: Config, stopwatch: Option<Stopwatch>)
  datatype Stats = Stats(mean: real, min: real, max: real, median: real, stdev: Option<real>, count: nat)

  /** round(x, 6) and the square root. */
  datatype Rounding = Rounding(round: real -> real, root: real -> real)

  datatype Group = Group(config: Config, raw: seq<Option<Stopwatch>>, aggregated: map<string, Stats>)

  /** _select_group_config: the fields that vary per repetition go. */
  function GroupConfig(config: Config): Config { config - {"repetition_index", "command"} }

  function ConfigOf(r: Record): Config { GroupConfig(r.config) }
  function StopwatchOf(r: Record): Option<Stopwatch> { r.stopwatch }

  /** Every field stays as it was but the two that differ between repetitions, and those go. */
  lemma {:induction false} FieldsKept(r: Record, field: string)
    ensures field in ConfigOf(r) <==> field in r.config && field != "repetition_index" && field != "command"
    ensures field in ConfigOf(r) ==> ConfigOf(r)[field] == r.config[field]
  {
  }

  predicate Varies(field: string) { field == "repetition_index" || field == "command" }

  ghost predicate SameField(a: Config, b: Config, field: string) {
    (field in a <==> field in b) && (field in a ==> a[field] == b[field])
  }

  lemma {:induction false} MapsEqual<K, V>(a: map<K, V>, b: map<K, V>)
    requires forall k :: (k in a <==> k in b) && (k in a ==> a[k] == b[k])
    ensures a == b
  {
    assert forall k :: k in a.Keys <==> k in b.Keys;
  }

  /** Two runs belong to one group exactly when they agree on all fields but the repetition's number and command. */
  lemma {:induction false} SameGroup(r: Record, r': Record)
    ensures ConfigOf(r) == ConfigOf(r') <==>
      forall field :: field != "repetition_index" && field != "command" ==> SameField(r.config, r'.config, field)
  {
    var a, b, ga, gb := r.config, r'.config, ConfigOf(r), ConfigOf(r');
    forall field
      ensures SameField(ga, gb, field) <==> Varies(field) || SameField(a, b, field)
    {
      FieldsKept(r, field);
      FieldsKept(r', field);
    }
    if forall field :: field != "repetition_index" && field != "command" ==> SameField(a, b, field) {
      forall field ensures (field in ga <==> field in gb) && (field in ga ==> ga[field] == gb[field]) {
        assert SameField(ga, gb, field);
      }
      MapsEqual(ga, gb);
    } else {
      var field :| !Varies(field) && !SameField(a, b, field);
      assert !SameField(ga, gb, field);
    }
  }

  // ----- Which groups, in which order -----

  /** The configurations in order of first occurrence. */
  function Configs(rs: seq<Record>): seq<Config> {
    if rs == [] then []
    else
      var before, c := Configs(rs[..|rs| - 1]), ConfigOf(rs[|rs| - 1]);
      if c in before then before else before + [c]
  }

  /** The stopwatches of one configuration, in run order. */
  function Raw(rs: seq<Record>, c: Config): seq<Option<Stopwatch>> {
    if rs == [] then []
    else Raw(rs[..|rs| - 1], c) + (if ConfigOf(rs[|rs| - 1]) == c then [rs[|rs| - 1].stopwatch] else [])
  }

  /** A group's raw data are the stopwatches of the records with its configuration. */
  lemma {:induction false} RawIs(rs: seq<Record>, c: Config)
    ensures Raw(rs, c) == Map(WithKey(rs, ConfigOf, c), StopwatchOf)
  {
    if rs != [] {
      RawIs(rs[..|rs| - 1], c);
      if ConfigOf(rs[|rs| - 1]) == c { MapLast(WithKey(rs, ConfigOf, c), StopwatchOf); }
    }
  }

  ghost predicate FirstAt(rs: seq<Record>, c: Config, i: nat) {
    i < |rs| && ConfigOf(rs[i]) == c && forall j :: 0 <= j < i ==> ConfigOf(rs[j]) != c
  }

  /** Groups have distinct configurations, exactly those of the records. */
  lemma {:induction false} ConfigsListed(rs: seq<Record>)
    ensures UniqueBy(Configs(rs), Itself)
    ensures forall c :: c in Configs(rs) <==> HasKey(rs, ConfigOf, c)
  {
    if rs != [] {
      ConfigsListed(rs[..|rs| - 1]);
      forall c ensures c in Configs(rs) <==> HasKey(rs, ConfigOf, c) {
        HasKeyLast(rs, ConfigOf, c);
      }
    }
  }

  /** A later group's configuration first occurs later. */
  lemma {:induction false} ConfigsInOrder(rs: seq<Record>, g: nat, h: nat, i: nat, j: nat)
    requires g < h < |Configs(rs)| && FirstAt(rs, Configs(rs)[g], i) && FirstAt(rs, Configs(rs)[h], j)
    ensures i < j
  {
    var n := |rs| - 1;
    var before := Configs(rs[..n]);
    ConfigsListed(rs[..n]);
    if h < |before| {
      FirstBefore(rs, Configs(rs)[g], i);
      FirstBefore(rs, Configs(rs)[h], j);
      ConfigsInOrder(rs[..n], g, h, i, j);
    } else {
      FirstBefore(rs, Configs(rs)[g], i);
      assert !HasKey(rs[..n], ConfigOf, Configs(rs)[h]);
      assert forall k :: 0 <= k < n ==> rs[k] in rs[..n];
    }
  }

  /** A configuration met among the first records first occurs there. */
  lemma {:induction false} FirstBefore(rs: seq<Record>, c: Config, i: nat)
    requires rs != [] && c in Configs(rs[..|rs| - 1]) && FirstAt(rs, c, i)
    ensures i < |rs| - 1 && FirstAt(rs[..|rs| - 1], c, i)
  {
    var n := |rs| - 1;
    ConfigsListed(rs[..n]);
    var r :| r in rs[..n] && ConfigOf(r) == c;
    var k :| 0 <= k < n && rs[k] == r;
  }

  // ----- Every run in exactly one group -----

  function AllRaw(rs: seq<Record>, cs: seq<Config>): seq<Option<Stopwatch>> {
    FlatMap(cs, c => Raw(rs, c))
  }

  lemma {:induction false} AddRun(rs: seq<Record>, cs: seq<Config>)
    requires rs != [] && UniqueBy(cs, Itself)
    ensures var n := |rs| - 1;
            var added := if ConfigOf(rs[n]) in cs then multiset{rs[n].stopwatch} else multiset{};
            multiset(AllRaw(rs, cs)) == multiset(AllRaw(rs[..n], cs)) + added
  {
    if cs != [] {
      var n, m := |rs| - 1, |cs| - 1;
      LastSplit(cs);
      AddRun(rs, cs[..m]);
      assert ConfigOf(rs[n]) == cs[m] ==> ConfigOf(rs[n]) !in cs[..m] by {
        assert forall i :: 0 <= i < m ==> Itself(cs[i]) != Itself(cs[m]);
      }
    }
  }

  lemma {:induction false} NoRun(rs: seq<Record>, c: Config)
    requires !HasKey(rs, ConfigOf, c)
    ensures Raw(rs, c) == []
  {
    if rs != [] {
      HasKeyLast(rs, ConfigOf, c);
      NoRun(rs[..|rs| - 1], c);
    }
  }

  /** A configuration without runs adds nothing. */
  lemma {:induction false} AddConfig(rs: seq<Record>, cs: seq<Config>, c: Config)
    requires !HasKey(rs, ConfigOf, c)
    ensures AllRaw(rs, cs + [c]) == AllRaw(rs, cs)
  {
    NoRun(rs, c);
    assert (cs + [c])[..|cs|] == cs;
    FlatMapAppend(cs, [c], d => Raw(rs, d));
    assert FlatMap([c], d => Raw(rs, d)) == [];
  }

  /** Grouping partitions the records: the raw data of all groups together are the stopwatches of all runs. */
  lemma {:induction false} Partition(rs: seq<Record>)
    ensures Perm(AllRaw(rs, Configs(rs)), Map(rs, StopwatchOf))
  {
    if rs != [] {
      var n := |rs| - 1;
      var before, c := Configs(rs[..n]), ConfigOf(rs[n]);
      Partition(rs[..n]);
      ConfigsListed(rs[..n]);
      ConfigsListed(rs);
      AddRun(rs, Configs(rs));
      if c !in before { AddConfig(rs[..n], before, c); }
      MapLast(rs, StopwatchOf);
    }
  }

  // ----- Aggregation -----

  /** The value a run contributes to a metric. */
  function Contribution(sw: Stopwatch, metric: string): seq<real> {
    if sw.Run? && !sw.timedOut && metric in sw.entries && sw.entries[metric].number.Some?
    then [sw.entries[metric].number.value] else []
  }

  function Values(sws: seq<Stopwatch>, metric: string): seq<real> {
    FlatMap(sws, sw => Contribution(sw, metric))
  }

  /** Runs without a stopwatch are dropped before aggregating. */
  function Present(raw: seq<Option<Stopwatch>>): seq<Stopwatch> {
    if raw == [] then []
    else Present(raw[..|raw| - 1]) + (if raw[|raw| - 1].Some? then [raw[|raw| - 1].value] else [])
  }

  predicate HasStopwatch(sw: Option<Stopwatch>) { sw.Some? }

  lemma {:induction false} PresentIs(raw: seq<Option<Stopwatch>>)
    ensures Map(Present(raw), (sw: Stopwatch) => Some(sw)) == Select(raw, HasStopwatch)
  {
    if raw != [] {
      PresentIs(raw[..|raw| - 1]);
      if raw[|raw| - 1].Some? { MapLast(Present(raw), (sw: Stopwatch) => Some(sw)); }
    }
  }

  /** The runs that are no timeout markers and have a number for the metric. */
  ghost function Counted(metric: string): Stopwatch -> bool {
    (sw: Stopwatch) => sw.Run? && !sw.timedOut && metric in sw.entries && sw.entries[metric].number.Some?
  }

  /** A metric has one value for every run that is no timeout marker and has a number for it: that number, in the order
      of the runs. */
  lemma {:induction false} ValuesCount(sws: seq<Stopwatch>, metric: string)
    ensures var runs := Select(sws, Counted(metric));
            && |Values(sws, metric)| == |runs|
            && forall j :: 0 <= j < |runs| ==>
                 && runs[j].Run? && !runs[j].timedOut && metric in runs[j].entries
                 && runs[j].entries[metric].number == Some(Values(sws, metric)[j])
  {
    if sws != [] { ValuesCount(sws[..|sws| - 1], metric); }
  }

  /** A run killed by the timeout, or one without a dictionary, changes no metric. */
  lemma {:induction false} TimedOutIgnored(before: seq<Stopwatch>, sw: Stopwatch, after: seq<Stopwatch>, metric: string)
    requires sw.NoDict? || sw.timedOut
    ensures Values(before + [sw] + after, metric) == Values(before + after, metric)
  {
    var f := sw => Contribution(sw, metric);
    FlatMapAppend(before + [sw], after, f);
    FlatMapAppend(before, [sw], f);
    FlatMapAppend(before, after, f);
    assert [sw][..0] == [];
  }

  /** So the marker of a killed run can be left out of the aggregation. */
  lemma {:induction false} AggregateWithout(fmt: Rounding, table: map<string, Stats>, before: seq<Stopwatch>,
                                            sw: Stopwatch, after: seq<Stopwatch>)
    requires sw.NoDict? || sw.timedOut
    ensures Aggregates(fmt, table, before + [sw] + after) <==> Aggregates(fmt, table, before + after)
  {
    forall metric ensures Values(before + [sw] + after, metric) == Values(before + after, metric) {
      TimedOutIgnored(before, sw, after, metric);
    }
  }

  function RealSum(values: seq<real>): real {
    if values == [] then 0.0 else RealSum(values[..|values| - 1]) + values[|values| - 1]
  }

  /** The sum of the squared distances from m. */
  function Deviation(values: seq<real>, m: real): real {
    if values == [] then 0.0
    else
      var d := values[|values| - 1] - m;
      Deviation(values[..|values| - 1], m) + d * d
  }

  function Mean(values: seq<real>): real
    requires values != []
  {
    RealSum(values) / |values| as real
  }

  ghost predicate Ascending(s: seq<real>) { forall i, j :: 0 <= i <= j < |s| ==> s[i] <= s[j] }

  /** The middle value of a sorted list, or the mean of the two middle values. */
  function Middle(sorted: seq<real>): real
    requires sorted != []
  {
    var h := |sorted| / 2;
    if |sorted| % 2 == 1 then sorted[h] else (sorted[h - 1] + sorted[h]) / 2.0
  }

  ghost predicate IsMedian(values: seq<real>, m: real) {
    exists sorted :: sorted != [] && Perm(sorted, values) && Ascending(sorted) && m == Middle(sorted)
  }

  ghost predicate Summarises(fmt: Rounding, s: Stats, values: seq<real>) {
    && s.count == |values| > 0
    && s.min in values && s.max in values
    && (forall v :: v in values ==> s.min <= v <= s.max)
    && s.mean == fmt.round(Mean(values))
    && (exists m :: IsMedian(values, m) && s.median == fmt.round(m))
    && s.stdev == if |values| < 2 then None
                  else Some(fmt.round(fmt.root(Deviation(values, Mean(values)) / (|values| - 1) as real)))
  }

  /** Sums and deviations go value by value. */
  lemma {:induction false} SumLaws(a: seq<real>, x: real, m: real)
    ensures RealSum(a + [x]) == RealSum(a) + x && RealSum([]) == 0.0
    ensures Deviation(a + [x], m) == Deviation(a, m) + (x - m) * (x - m) && Deviation([], m) == 0.0
  {
    assert (a + [x])[..|a|] == a;
  }

  /** The statistics of two values. */
  lemma {:induction false} TwoValues(fmt: Rounding, s: Stats, x: real, y: real)
    requires Summarises(fmt, s, [x, y]) && x <= y
    ensures s.count == 2 && s.min == x && s.max == y
    ensures s.mean == fmt.round((x + y) / 2.0) && s.median == fmt.round((x + y) / 2.0)
    ensures s.stdev == Some(fmt.round(fmt.root((y - x) * (y - x) / 2.0)))
  {
    TwoCentres(x, y);
    assert x in [x, y] && y in [x, y];
    var m :| IsMedian([x, y], m) && s.median == fmt.round(m);
    TwoMedian(x, y, m);
  }

  lemma {:induction false} TwoCentres(x: real, y: real)
    ensures Mean([x, y]) == (x + y) / 2.0 && Deviation([x, y], Mean([x, y])) == (y - x) * (y - x) / 2.0
  {
    assert [x, y] == ([] + [x]) + [y];
    SumLaws([], x, 0.0);
    SumLaws([] + [x], y, 0.0);
    var mid := (x + y) / 2.0;
    assert Mean([x, y]) == mid;
    SumLaws([], x, mid);
    SumLaws([] + [x], y, mid);
    Halves(x, y, mid);
  }

  lemma {:induction false} Halves(x: real, y: real, mid: real)
    requires 2.0 * mid == x + y
    ensures (x - mid) * (x - mid) + (y - mid) * (y - mid) == (y - x) * (y - x) / 2.0
  {
    var h := (y - x) / 2.0;
    assert x - mid == -h && y - mid == h && y - x == 2.0 * h;
  }

  lemma {:induction false} TwoMedian(x: real, y: real, m: real)
    requires IsMedian([x, y], m) && x <= y
    ensures m == (x + y) / 2.0
  {
    var sorted :| sorted != [] && Perm(sorted, [x, y]) && Ascending(sorted) && m == Middle(sorted);
    PermLength(sorted, [x, y]);
    assert sorted == [sorted[0], sorted[1]];
    assert multiset(sorted) == multiset{sorted[0], sorted[1]} && multiset([x, y]) == multiset{x, y};
    PermMember(sorted, [x, y], x);
    PermMember(sorted, [x, y], y);
    assert sorted[0] in sorted && sorted[1] in sorted;
    PermMember(sorted, [x, y], sorted[0]);
    PermMember(sorted, [x, y], sorted[1]);
  }

  lemma {:induction false} OneMore(x: real, n: nat)
    ensures x * (n + 1) as real == x * n as real + x
  {
    assert (n + 1) as real == n as real + 1.0;
  }

  lemma {:induction false} SumBetween(values: seq<real>, lo: real, hi: real)
    requires forall i :: 0 <= i < |values| ==> lo <= values[i] <= hi
    ensures lo * |values| as real <= RealSum(values) <= hi * |values| as real
  {
    if values != [] {
      var n := |values| - 1;
      SumBetween(values[..n], lo, hi);
      OneMore(lo, n);
      OneMore(hi, n);
    }
  }

  lemma {:induction false} QuotientBetween(x: real, n: real, lo: real, hi: real)
    requires n > 0.0 && lo * n <= x <= hi * n
    ensures lo <= x / n <= hi
  {
    var q := x / n;
    assert q * n == x;
  }

  lemma {:induction false} MiddleBetween(values: seq<real>, sorted: seq<real>, lo: real, hi: real)
    requires sorted != [] && Perm(sorted, values) && forall v :: v in values ==> lo <= v <= hi
    ensures lo <= Middle(sorted) <= hi
  {
    forall i | 0 <= i < |sorted| ensures lo <= sorted[i] <= hi {
      PermMember(sorted, values, sorted[i]);
    }
  }

  /** The mean and the median of a metric lie between its least and greatest value. */
  lemma {:induction false} CentresBetween(values: seq<real>, lo: real, hi: real, m: real)
    requires values != [] && (forall v :: v in values ==> lo <= v <= hi) && IsMedian(values, m)
    ensures lo <= Mean(values) <= hi && lo <= m <= hi
  {
    var sorted :| sorted != [] && Perm(sorted, values) && Ascending(sorted) && m == Middle(sorted);
    MiddleBetween(values, sorted, lo, hi);
    MeanBetween(values, lo, hi);
  }

  ghost function AtMost(m: real): real -> bool { v => v <= m }
  ghost function AtLeast(m: real): real -> bool { v => v >= m }

  /** At least half of the values are on either side of the median. */
  lemma {:induction false} MedianHalves(values: seq<real>, m: real)
    requires IsMedian(values, m)
    ensures 2 * |Select(values, AtMost(m))| >= |values| && 2 * |Select(values, AtLeast(m))| >= |values|
  {
    var sorted :| sorted != [] && Perm(sorted, values) && Ascending(sorted) && m == Middle(sorted);
    PermLength(sorted, values);
    SortedHalves(sorted);
    SelectPerm(sorted, values, AtMost(m));
    SelectPerm(sorted, values, AtLeast(m));
    PermLength(Select(sorted, AtMost(m)), Select(values, AtMost(m)));
    PermLength(Select(sorted, AtLeast(m)), Select(values, AtLeast(m)));
  }

  lemma {:induction false} SortedHalves(sorted: seq<real>)
    requires sorted != [] && Ascending(sorted)
    ensures 2 * |Select(sorted, AtMost(Middle(sorted)))| >= |sorted|
    ensures 2 * |Select(sorted, AtLeast(Middle(sorted)))| >= |sorted|
  {
    var n, m := |sorted|, Middle(sorted);
    var low, high := sorted[..(n + 1) / 2], sorted[n / 2..];
    assert sorted == low + sorted[(n + 1) / 2..] && sorted == sorted[..n / 2] + high;
    forall v | v in low ensures v <= m { }
    forall v | v in high ensures v >= m { }
    SelectAppend(low, sorted[(n + 1) / 2..], AtMost(m));
    SelectAppend(sorted[..n / 2], high, AtLeast(m));
    SelectedAll(low, AtMost(m));
    SelectedAll(high, AtLeast(m));
  }

  function Negated(v: real): real { -v }

  /** Read downwards the median is the same: the values negated have the median negated. For an even number of values
      that is the mean of the two middle ones, and neither of them. */
  lemma {:induction false} MedianMirrored(values: seq<real>, m: real)
    requires IsMedian(values, m)
    ensures IsMedian(Map(values, Negated), -m)
  {
    var sorted :| sorted != [] && Perm(sorted, values) && Ascending(sorted) && m == Middle(sorted);
    var n := |sorted|;
    var down := seq(n, i requires 0 <= i < n => -sorted[n - 1 - i]);
    MapPerm(sorted, values, Negated);
    MirrorPerm(sorted, down);
    assert Ascending(down);
    assert Middle(down) == -m;
  }

  lemma {:induction false} MirrorPerm(s: seq<real>, down: seq<real>)
    requires |down| == |s| && forall i :: 0 <= i < |s| ==> down[i] == -s[|s| - 1 - i]
    ensures Perm(down, Map(s, Negated))
  {
    if s != [] {
      var n := |s| - 1;
      MirrorPerm(s[..n], down[1..]);
      assert down == [down[0]] + down[1..];
      MapLast(s, Negated);
    }
  }

  lemma {:induction false} MeanBetween(values: seq<real>, lo: real, hi: real)
    requires values != [] && forall v :: v in values ==> lo <= v <= hi
    ensures lo <= Mean(values) <= hi
  {
    forall i | 0 <= i < |values| ensures lo <= values[i] <= hi {
      assert values[i] in values;
    }
    SumBetween(values, lo, hi);
    QuotientBetween(RealSum(values), |values| as real, lo, hi);
  }

  /** Every metric with a value is summarised, and no other. */
  ghost predicate Aggregates(fmt: Rounding, table: map<string, Stats>, sws: seq<Stopwatch>) {
    && (forall metric :: metric in table <==> Values(sws, metric) != [])
    && (forall metric :: metric in table ==> Summarises(fmt, table[metric], Values(sws, metric)))
  }

  /** The lists once all entries of sw outside `rest` are in. */
  ghost predicate Entered(lists: map<string, seq<real>>, sw: Stopwatch, rest: map<string, Json>, out: map<string,
                          seq<real>>) {
    forall m :: ValuesIn(out, m) == ValuesIn(lists, m) + (if m in rest then [] else Contribution(sw, m))
  }

  ghost predicate NoneEmpty(lists: map<string, seq<real>>) { forall m :: m in lists ==> lists[m] != [] }

  function Put(out: map<string, seq<real>>, metric: string, j: Json): map<string, seq<real>> {
    if j.number.Some? then out[metric := ValuesIn(out, metric) + [j.number.value]] else out
  }

  lemma {:induction false} EnterOne(lists: map<string, seq<real>>, sw: Stopwatch, rest: map<string, Json>,
                                    out: map<string, seq<real>>, metric: string)
    requires sw.Run? && !sw.timedOut && metric in rest && metric in sw.entries && Entered(lists, sw, rest, out)
    ensures Entered(lists, sw, rest - {metric}, Put(out, metric, sw.entries[metric]))
    ensures NoneEmpty(out) ==> NoneEmpty(Put(out, metric, sw.entries[metric]))
    ensures |rest - {metric}| < |rest|
  {
    var out' := Put(out, metric, sw.entries[metric]);
    forall m
      ensures ValuesIn(out', m) == ValuesIn(lists, m) + (if m in rest - {metric} then [] else Contribution(sw, m))
    {
      assert ValuesIn(out, m) == ValuesIn(lists, m) + (if m in rest then [] else Contribution(sw, m));
      if m == metric { assert ValuesIn(out, m) == ValuesIn(lists, m); }
    }
    assert (rest - {metric}).Keys == rest.Keys - {metric};
  }

  lemma {:induction false} EnterNone(lists: map<string, seq<real>>, sw: Stopwatch)
    requires sw.Run? && !sw.timedOut
    ensures Entered(lists, sw, sw.entries, lists)
  {
    forall m ensures ValuesIn(lists, m) == ValuesIn(lists, m) + (if m in sw.entries then [] else Contribution(sw, m)) {
    }
  }

  /** One run's metrics appended to the lists collected so far. */
  method AddMetrics(lists: map<string, seq<real>>, sw: Stopwatch) returns (out: map<string, seq<real>>)
    ensures forall m :: ValuesIn(out, m) == ValuesIn(lists, m) + Contribution(sw, m)
    ensures NoneEmpty(lists) ==> NoneEmpty(out)
  {
    out := lists;
    if sw.NoDict? || sw.timedOut {
      return;
    }
    var rest := sw.entries;
    EnterNone(lists, sw);
    while rest != map[]
      invariant forall m :: m in rest ==> m in sw.entries && rest[m] == sw.entries[m]
      invariant Entered(lists, sw, rest, out) && (NoneEmpty(lists) ==> NoneEmpty(out))
      decreases |rest|
    {
      var metric :| metric in rest.Keys;
      EnterOne(lists, sw, rest, out, metric);
      out := Put(out, metric, rest[metric]);
      rest := rest - {metric};
    }
  }

  function ValuesIn(lists: map<string, seq<real>>, metric: string): seq<real> {
    if metric in lists then lists[metric] else []
  }

  method Extremes(values: seq<real>) returns (lo: real, hi: real)
    requires values != []
    ensures lo in values && hi in values && forall v :: v in values ==> lo <= v <= hi
  {
    lo, hi := values[0], values[0];
    for i := 1 to |values|
      invariant lo in values && hi in values && forall j :: 0 <= j < i ==> lo <= values[j] <= hi
    {
      if values[i] < lo { lo := values[i]; }
      if values[i] > hi { hi := values[i]; }
    }
  }

  /** A value inserted at its place in a sorted list. */
  method InsertValue(sorted: seq<real>, v: real) returns (out: seq<real>)
    requires Ascending(sorted)
    ensures Perm(out, sorted + [v]) && Ascending(out)
  {
    var k := |sorted|;
    while k > 0 && sorted[k - 1] > v
      invariant 0 <= k <= |sorted| && (k < |sorted| ==> v <= sorted[k])
    {
      k := k - 1;
    }
    assert sorted == sorted[..k] + sorted[k..];
    out := sorted[..k] + [v] + sorted[k..];
    InsertedAscending(sorted, v, k, out);
  }

  lemma {:induction false} InsertedAscending(sorted: seq<real>, v: real, k: nat, out: seq<real>)
    requires Ascending(sorted) && k <= |sorted| && out == sorted[..k] + [v] + sorted[k..]
    requires (k > 0 ==> sorted[k - 1] <= v) && (k < |sorted| ==> v <= sorted[k])
    ensures Ascending(out)
  {
    forall i, j | 0 <= i <= j < |out| ensures out[i] <= out[j] {
      if i < k && j == k { assert sorted[i] <= sorted[k - 1]; }
      if i == k && j > k { assert sorted[k] <= sorted[j - 1]; }
      if i < k && j > k { assert sorted[i] <= sorted[j - 1]; }
    }
  }

  method SortValues(values: seq<real>) returns (sorted: seq<real>)
    ensures Perm(sorted, values) && Ascending(sorted)
  {
    sorted := [];
    for i := 0 to |values|
      invariant Perm(sorted, values[..i]) && Ascending(sorted)
    {
      assert values[..i + 1] == values[..i] + [values[i]];
      sorted := InsertValue(sorted, values[i]);
    }
    assert values[..|values|] == values;
  }

  method SumValues(values: seq<real>, m: real) returns (total: real, squares: real)
    ensures total == RealSum(values) && squares == Deviation(values, m)
  {
    total, squares := 0.0, 0.0;
    for i := 0 to |values|
      invariant total == RealSum(values[..i]) && squares == Deviation(values[..i], m)
    {
      assert values[..i + 1][..i] == values[..i];
      var d := values[i] - m;
      total, squares := total + values[i], squares + d * d;
    }
    assert values[..|values|] == values;
  }

  /** The statistics of a metric's values. */
  method Summarise(fmt: Rounding, values: seq<real>) returns (s: Stats)
    requires values != []
    ensures Summarises(fmt, s, values)
  {
    var lo, hi := Extremes(values);
    var sorted := SortValues(values);
    PermLength(sorted, values);
    assert IsMedian(values, Middle(sorted));
    var total, _ := SumValues(values, 0.0);
    var mean := total / |values| as real;
    var _, squares := SumValues(values, mean);
    var stdev := None;
    if |values| >= 2 {
      stdev := Some(fmt.round(fmt.root(squares / (|values| - 1) as real)));
    }
    s := Stats(fmt.round(mean), lo, hi, fmt.round(Middle(sorted)), stdev, |values|);
  }

  /** _aggregate_profiles. */
  method AggregateProfiles(fmt: Rounding, sws: seq<Stopwatch>) returns (table: map<string, Stats>)
    ensures Aggregates(fmt, table, sws)
  {
    var lists: map<string, seq<real>> := map[];
    for i := 0 to |sws|
      invariant forall m :: ValuesIn(lists, m) == Values(sws[..i], m)
      invariant NoneEmpty(lists)
    {
      assert sws[..i + 1][..i] == sws[..i];
      lists := AddMetrics(lists, sws[i]);
    }
    assert sws[..|sws|] == sws;
    table := map[];
    var rest := lists;
    while rest != map[]
      invariant forall m :: m in rest ==> m in lists
      invariant forall m :: m in table <==> m in lists && m !in rest
      invariant forall m :: m in table ==> Summarises(fmt, table[m], lists[m])
      decreases |rest|
    {
      var metric :| metric in rest.Keys;
      var s := Summarise(fmt, lists[metric]);
      table := table[metric := s];
      assert (rest - {metric}).Keys == rest.Keys - {metric};
      rest := rest - {metric};
    }
    forall m ensures m in table <==> Values(sws, m) != [] {
      assert ValuesIn(lists, m) == Values(sws, m);
    }
    forall m | m in table ensures Summarises(fmt, table[m], Values(sws, m)) {
      assert ValuesIn(lists, m) == Values(sws, m);
    }
  }

  // ----- The grouping loop -----

  /** The first loop: a dictionary of raw data and the order of its keys. */
  method Collect(rs: seq<Record>) returns (groups: map<Config, seq<Option<Stopwatch>>>, order: seq<Config>)
    ensures order == Configs(rs)
    ensures forall i :: 0 <= i < |order| ==> order[i] in groups && groups[order[i]] == Raw(rs, order[i])
  {
    groups, order := map[], [];
    for i := 0 to |rs|
      invariant order == Configs(rs[..i]) && forall c :: c in order <==> c in groups
      invariant forall c :: c in groups ==> groups[c] == Raw(rs[..i], c)
    {
      assert rs[..i + 1][..i] == rs[..i];
      var c := ConfigOf(rs[i]);
      if c !in groups {
        ConfigsListed(rs[..i]);
        NoRun(rs[..i], c);
        groups := groups[c := []];
        order := order + [c];
      }
      groups := groups[c := groups[c] + [rs[i].stopwatch]];
    }
    assert rs[..|rs|] == rs;
  }

  method WithoutMissing(raw: seq<Option<Stopwatch>>) returns (sws: seq<Stopwatch>)
    ensures sws == Present(raw)
  {
    sws := [];
    for i := 0 to |raw|
      invariant sws == Present(raw[..i])
    {
      assert raw[..i + 1][..i] == raw[..i];
      if raw[i].Some? { sws := sws + [raw[i].value]; }
    }
    assert raw[..|raw|] == raw;
  }

  /** A group as it should be: its configuration's runs in run order, with their metrics summarised. */
  ghost predicate IsGroup(fmt: Rounding, g: Group, rs: seq<Record>, c: Config) {
    g.config == c && g.raw == Raw(rs, c) && Aggregates(fmt, g.aggregated, Present(g.raw))
  }

  method MakeGroup(fmt: Rounding, c: Config, raw: seq<Option<Stopwatch>>) returns (g: Group)
    ensures g.config == c && g.raw == raw && Aggregates(fmt, g.aggregated, Present(raw))
  {
    var sws := WithoutMissing(raw);
    var table := AggregateProfiles(fmt, sws);
    g := Group(c, raw, table);
  }

  /** _group_experiment_records: one group per configuration, in order of first occurrence. */
  method GroupRecords(fmt: Rounding, rs: seq<Record>) returns (result: seq<Group>)
    ensures |result| == |Configs(rs)|
    ensures forall i :: 0 <= i < |result| ==> IsGroup(fmt, result[i], rs, Configs(rs)[i])
  {
    var groups, order := Collect(rs);
    result := [];
    for i := 0 to |order|
      invariant |result| == i
      invariant forall j :: 0 <= j < i ==> IsGroup(fmt, result[j], rs, order[j])
    {
      var c := order[i];
      var g := MakeGroup(fmt, c, groups[c]);
      assert IsGroup(fmt, g, rs, c);
      result := result + [g];
    }
  }
}
