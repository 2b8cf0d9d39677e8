/** Oblivious tables (include/core/containers/tabular/encoded_table.h) on opened values: a table is a
    sequence of rows, each with a valid bit. Rows are never deleted by a filter, only marked. */
module Tables {
  import opened Bags
  import opened PrefixNetworks

  /** The values of the key columns, in the order given to the operator. */
  type Key = seq<int>

  datatype Row<T> = Row(valid: bool, data: T)

  function LiveOne<T>(r: Row<T>): seq<T> {
    if r.valid then [r.data] else []
  }

  /** The relation a table stands for: the data of its valid rows (what opening the table reveals). */
  function Live<T>(rows: seq<Row<T>>): seq<T> {
    FlatMap(rows, (r: Row<T>) => LiveOne(r))
  }

  /** A key with the valid bit in front, as aggregation, distinct and joins sort on. */
  function RowKey<T>(key: T -> Key): Row<T> -> Key {
    (r: Row<T>) => [if r.valid then 1 else 0] + key(r.data)
  }

  lemma {:induction false} LiveAppend<T>(s: seq<Row<T>>, t: seq<Row<T>>)
    ensures Live(s + t) == Live(s) + Live(t)
  {
    FlatMapAppend(s, t, (r: Row<T>) => LiveOne(r));
  }

  lemma {:induction false} LivePerm<T>(s: seq<Row<T>>, t: seq<Row<T>>)
    requires Perm(s, t)
    ensures Perm(Live(s), Live(t))
  {
    FlatMapPerm(s, t, (r: Row<T>) => LiveOne(r));
  }

  lemma {:induction false} LiveMember<T>(rows: seq<Row<T>>, x: T)
    ensures x in Live(rows) <==> exists i :: 0 <= i < |rows| && rows[i].valid && rows[i].data == x
  {
    if rows != [] {
      var n := |rows| - 1;
      LiveMember(rows[..n], x);
      if x in Live(rows[..n]) {
        var i :| 0 <= i < n && rows[..n][i].valid && rows[..n][i].data == x;
        assert rows[i].valid && rows[i].data == x;
      }
    }
  }

  // ----- Sorting -----

  /** Column-by-column comparison of keys. */
  predicate Leq(a: Key, b: Key) {
    a == [] || (b != [] && (a[0] < b[0] || (a[0] == b[0] && Leq(a[1..], b[1..]))))
  }

  ghost predicate SortedBy<R>(s: seq<R>, key: R -> Key) {
    forall i, j :: 0 <= i <= j < |s| ==> Leq(key(s[i]), key(s[j]))
  }

  lemma {:induction false} LeqTotal(a: Key, b: Key)
    ensures Leq(a, b) || Leq(b, a)
    ensures Leq(a, a)
  {
    if a != [] {
      LeqTotal(a[1..], if b == [] then [] else b[1..]);
    }
  }

  lemma {:induction false} LeqAntisymmetric(a: Key, b: Key)
    requires Leq(a, b) && Leq(b, a)
    ensures a == b
  {
    if a != [] {
      LeqAntisymmetric(a[1..], b[1..]);
      assert a == [a[0]] + a[1..] && b == [b[0]] + b[1..];
    }
  }

  lemma {:induction false} LeqTransitive(a: Key, b: Key, c: Key)
    requires Leq(a, b) && Leq(b, c)
    ensures Leq(a, c)
  {
    if a != [] && a[0] == b[0] == c[0] { LeqTransitive(a[1..], b[1..], c[1..]); }
  }

  /** Keys of one column. */
  lemma {:induction false} OneColumn(a: int, b: int)
    ensures [a] == [b] <==> a == b
    ensures Leq([a], [b]) <==> a <= b
  {
    assert [a][0] == a && [b][0] == b;
    assert [a][1..] == [] && [b][1..] == [];
  }

  /** Keys of two columns. */
  lemma {:induction false} TwoColumns(a: int, b: int, c: int, d: int)
    ensures [a, b] == [c, d] <==> a == c && b == d
    ensures Leq([a, b], [c, d]) <==> a < c || (a == c && b <= d)
  {
    assert [a, b][0] == a && [a, b][1] == b && [c, d][0] == c && [c, d][1] == d;
    assert [a, b][1..] == [b] && [c, d][1..] == [d];
    OneColumn(b, d);
  }

  /** In a sorted table equal keys are adjacent. */
  lemma {:induction false} SortedConvex<R>(s: seq<R>, key: R -> Key, j: nat)
    requires SortedBy(s, key) && j < |s|
    ensures LeftConvex(Map(s, key), j)
  {
    var keys := Map(s, key);
    forall i, k | 0 <= i <= k <= j && keys[i] == keys[j]
      ensures keys[k] == keys[j]
    {
      LeqAntisymmetric(key(s[i]), key(s[k]));
    }
  }

  lemma {:induction false} InsertSorted<R>(s: seq<R>, x: R, k: nat, key: R -> Key)
    requires SortedBy(s, key) && k <= |s|
    requires k > 0 ==> Leq(key(s[k - 1]), key(x))
    requires k < |s| ==> Leq(key(x), key(s[k]))
    ensures SortedBy(s[..k] + [x] + s[k..], key)
  {
    var r := s[..k] + [x] + s[k..];
    LeqTotal(key(x), key(x));
    forall i, j | 0 <= i <= j < |r|
      ensures Leq(key(r[i]), key(r[j]))
    {
      if i < k && j == k { LeqTransitive(key(s[i]), key(s[k - 1]), key(x)); }
      if i == k && j > k { LeqTransitive(key(x), key(s[k]), key(s[j - 1])); }
    }
  }

  /** Rows with equal keys keep their order. */
  ghost predicate Stable<R>(s: seq<R>, r: seq<R>, key: R -> Key) {
    forall k :: WithKey(r, key, k) == WithKey(s, key, k)
  }

  /** Past its place no row has the key of x. */
  lemma {:induction false} KeysPast<R>(s: seq<R>, x: R, k: nat, key: R -> Key)
    requires SortedBy(s, key) && k <= |s| && (k < |s| ==> !Leq(key(s[k]), key(x)))
    ensures WithKey(s[k..], key, key(x)) == []
  {
    forall y | y in s[k..] ensures key(y) != key(x) {
      var i :| 0 <= i < |s| - k && s[k..][i] == y;
      assert Leq(key(s[k]), key(s[k + i]));
    }
    SelectNone(s[k..], KeyIs(key, key(x)));
  }

  lemma {:induction false} InsertKeyed<R>(s: seq<R>, x: R, k: nat, key: R -> Key, kk: Key)
    requires k <= |s| && WithKey(s[k..], key, key(x)) == []
    ensures WithKey(s[..k] + [x] + s[k..], key, kk) == WithKey(s + [x], key, kk)
  {
    var p, front, back := KeyIs(key, kk), s[..k], s[k..];
    assert front + back == s;
    SelectAppend(front + [x], back, p);
    SelectAppend(front, [x], p);
    SelectAppend(s, [x], p);
    SelectAppend(front, back, p);
    if key(x) == kk {
      assert Select(back, p) == [];
    } else {
      SelectNone([x], p);
    }
  }

  lemma {:induction false} InsertStable<R>(s: seq<R>, x: R, k: nat, key: R -> Key)
    requires SortedBy(s, key) && k <= |s| && (k < |s| ==> !Leq(key(s[k]), key(x)))
    ensures Stable(s + [x], s[..k] + [x] + s[k..], key)
  {
    KeysPast(s, x, k, key);
    forall kk ensures WithKey(s[..k] + [x] + s[k..], key, kk) == WithKey(s + [x], key, kk) {
      InsertKeyed(s, x, k, key, kk);
    }
  }

  /** Insertion of one row into a sorted table, after the rows with its key. */
  method Insert<R>(s: seq<R>, x: R, key: R -> Key) returns (r: seq<R>)
    requires SortedBy(s, key)
    ensures Perm(r, s + [x]) && SortedBy(r, key) && Stable(s + [x], r, key)
  {
    var k := |s|;
    while k > 0 && !Leq(key(s[k - 1]), key(x))
      invariant 0 <= k <= |s|
      invariant k < |s| ==> Leq(key(x), key(s[k])) && !Leq(key(s[k]), key(x))
    {
      LeqTotal(key(s[k - 1]), key(x));
      k := k - 1;
    }
    InsertSorted(s, x, k, key);
    InsertStable(s, x, k, key);
    r := s[..k] + [x] + s[k..];
    assert s == s[..k] + s[k..];
  }

  lemma {:induction false} StableStep<R>(s: seq<R>, t: seq<R>, r: seq<R>, x: R, key: R -> Key)
    requires Stable(s, t, key) && Stable(t + [x], r, key)
    ensures Stable(s + [x], r, key)
  {
    forall k ensures WithKey(r, key, k) == WithKey(s + [x], key, k) {
      assert WithKey(r, key, k) == WithKey(t + [x], key, k) && WithKey(t, key, k) == WithKey(s, key, k);
      SelectAppend(s, [x], KeyIs(key, k));
      SelectAppend(t, [x], KeyIs(key, k));
    }
  }

  /** The table sort by contract: the permutation in key order that keeps rows with equal keys in their order. */
  method Sort<R>(s: seq<R>, key: R -> Key) returns (r: seq<R>)
    ensures Perm(r, s) && SortedBy(r, key) && |r| == |s| && Stable(s, r, key)
  {
    r := [];
    for i := 0 to |s|
      invariant Perm(r, s[..i]) && SortedBy(r, key) && Stable(s[..i], r, key)
    {
      ghost var before := r;
      r := Insert(r, s[i], key);
      StableStep(s[..i], before, r, s[i], key);
      assert s[..i + 1] == s[..i] + [s[i]];
    }
    assert s[..|s|] == s;
    PermLength(r, s);
  }

  // ----- Aggregation -----

  /** Padding to the next power of two, the network, and cutting back to the table's size. */
  method NetworkColumn<V(!new)>(keys: seq<Key>, vals: seq<V>, op: (V, V) -> V, padKey: Key, padVal: V)
    returns (out: seq<V>)
    requires |keys| == |vals| >= 2 && Associative(op)
    ensures |out| == |vals|
    ensures forall j :: 0 <= j < |out| && LeftConvex(keys, j) ==> out[j] == Segment(keys, vals, op, 0, j)
  {
    var d := BitWidth(|keys| - 1);
    BitWidthBound(|keys| - 1);
    var n := Exp2(d);
    var padded := keys + seq(n - |keys|, _ => padKey);
    var cells := vals + seq(n - |keys|, _ => padVal);
    var column := RunNetwork(padded, cells, op, d);
    out := column[..|vals|];
    forall j | 0 <= j < |out| && LeftConvex(keys, j)
      ensures out[j] == Segment(keys, vals, op, 0, j)
    {
      assert LeftConvex(padded, j);
      SegmentPrefix(keys, padded, vals, cells, op, j);
    }
  }

  lemma {:induction false} BitWidthBound(m: nat)
    requires m >= 1
    ensures m < Exp2(BitWidth(m)) && BitWidth(m) >= 1
  {
    if m >= 2 { BitWidthBound(m / 2); } else { assert BitWidth(1) == 1 + BitWidth(0); }
  }

  lemma {:induction false} SegmentPrefix<V>(keys: seq<Key>, keys': seq<Key>, vals: seq<V>, vals': seq<V>,
                                            op: (V, V) -> V, j: nat)
    requires j < |keys| == |vals| && |keys'| == |vals'| && keys <= keys' && vals <= vals'
    ensures Segment(keys', vals', op, 0, j) == Segment(keys, vals, op, 0, j)
  {
    if j > 0 && keys[j - 1] == keys[j] { SegmentPrefix(keys, keys', vals, vals', op, j - 1); }
  }

  /** Cell i ends its run: the only row of its group that stays valid after an aggregation. */
  ghost predicate LastOfRun(keys: seq<Key>, i: nat)
    requires i < |keys|
  {
    i == |keys| - 1 || keys[i] != keys[i + 1]
  }

  /** Row i after an aggregation in which row h carries the grouping cell keys[h]. */
  ghost function AggregatedRow<T>(rows: seq<Row<T>>, keys: seq<Key>, init: T -> T, op: (T, T) -> T, i: nat): Row<T>
    requires i < |rows| == |keys|
  {
    Row(rows[i].valid && LastOfRun(keys, i), Segment(keys, Map(rows, (r: Row<T>) => init(r.data)), op, 0, i))
  }

  /** The aggregation columns leave the group-by columns alone. */
  ghost predicate KeyStable<T(!new)>(key: T -> Key, init: T -> T, op: (T, T) -> T) {
    (forall a :: key(init(a)) == key(a)) && (forall a, b :: key(op(a, b)) == key(b))
  }

  /** The grouping cells fit the key: runs are unbroken and wholly valid or wholly invalid, and two valid
      rows share a cell exactly when they share the key. */
  ghost predicate Grouped<T>(rows: seq<Row<T>>, keys: seq<Key>, key: T -> Key) {
    && |rows| == |keys|
    && (forall i :: 0 <= i < |rows| && rows[i].valid ==> LeftConvex(keys, i))
    && (forall i, j :: 0 <= i < |rows| && 0 <= j < |rows| && keys[i] == keys[j] ==> rows[i].valid == rows[j].valid)
    && (forall i, j :: 0 <= i < |rows| && 0 <= j < |rows| && rows[i].valid && rows[j].valid ==>
          (keys[i] == keys[j] <==> key(rows[i].data) == key(rows[j].data)))
  }

  lemma {:induction false} SortedGrouped<T>(rows: seq<Row<T>>, key: T -> Key)
    requires SortedBy(rows, RowKey(key))
    ensures Grouped(rows, Map(rows, RowKey(key)), key)
  {
    forall i | 0 <= i < |rows|
      ensures LeftConvex(Map(rows, RowKey(key)), i)
    {
      SortedConvex(rows, RowKey(key), i);
    }
    forall i, j | 0 <= i < |rows| && 0 <= j < |rows|
      ensures RowKey(key)(rows[i]) == RowKey(key)(rows[j])
         <==> rows[i].valid == rows[j].valid && key(rows[i].data) == key(rows[j].data)
    {
      RowKeyParts(key, rows[i], rows[j]);
    }
  }

  lemma {:induction false} RowKeyParts<T>(key: T -> Key, a: Row<T>, b: Row<T>)
    ensures RowKey(key)(a) == RowKey(key)(b) <==> a.valid == b.valid && key(a.data) == key(b.data)
  {
    var ka, kb := RowKey(key)(a), RowKey(key)(b);
    assert ka[1..] == key(a.data) && kb[1..] == key(b.data);
    assert ka == [ka[0]] + ka[1..] && kb == [kb[0]] + kb[1..];
  }

  /** Valid rows of one key before row i exist only if row i - 1 is one of them. */
  lemma {:induction false} RunStarts<T>(rows: seq<Row<T>>, keys: seq<Key>, key: T -> Key, i: nat)
    requires Grouped(rows, keys, key) && i < |rows| && rows[i].valid
    requires i > 0 ==> keys[i - 1] != keys[i]
    ensures WithKey(Live(rows[..i]), key, key(rows[i].data)) == []
  {
    forall x | x in Live(rows[..i])
      ensures key(x) != key(rows[i].data)
    {
      LiveMember(rows[..i], x);
      var h :| 0 <= h < i && rows[..i][h].valid && rows[..i][h].data == x;
      assert keys[h] != keys[i];
    }
    SelectNone(Live(rows[..i]), KeyIs(key, key(rows[i].data)));
  }

  lemma {:induction false} LiveStep<T>(rows: seq<Row<T>>, i: nat)
    requires i < |rows|
    ensures Live(rows[..i + 1]) == Live(rows[..i]) + LiveOne(rows[i])
  {
    assert rows[..i + 1] == rows[..i] + [rows[i]];
    LiveAppend(rows[..i], [rows[i]]);
    assert Live([rows[i]]) == LiveOne(rows[i]);
  }

  lemma {:induction false} WithKeyStep<T>(rows: seq<Row<T>>, key: T -> Key, k: Key, i: nat)
    requires i < |rows|
    ensures WithKey(Live(rows[..i + 1]), key, k)
         == WithKey(Live(rows[..i]), key, k) + (if rows[i].valid && key(rows[i].data) == k then [rows[i].data] else [])
  {
    LiveStep(rows, i);
    SelectAppend(Live(rows[..i]), LiveOne(rows[i]), KeyIs(key, k));
    var one := LiveOne(rows[i]);
    assert one != [] ==> one[..0] == [];
  }

  lemma {:induction false} FoldStep<T>(op: (T, T) -> T, init: T -> T, g: seq<T>, y: T)
    ensures Fold(op, Map(g + [y], init)) == if g == [] then init(y) else op(Fold(op, Map(g, init)), init(y))
  {
    assert Map(g + [y], init)[..|g|] == Map(g, init);
  }

  /** The running value at a valid row is the fold of its group so far. */
  lemma {:induction false} SegmentIsFold<T>(rows: seq<Row<T>>, keys: seq<Key>, key: T -> Key, init: T -> T,
                                            op: (T, T) -> T, i: nat)
    requires Grouped(rows, keys, key) && i < |rows| && rows[i].valid
    ensures var g := WithKey(Live(rows[..i + 1]), key, key(rows[i].data));
            g != [] && AggregatedRow(rows, keys, init, op, i).data == Fold(op, Map(g, init))
  {
    var k := key(rows[i].data);
    WithKeyStep(rows, key, k, i);
    FoldStep(op, init, WithKey(Live(rows[..i]), key, k), rows[i].data);
    if i > 0 && keys[i - 1] == keys[i] {
      SegmentIsFold(rows, keys, key, init, op, i - 1);
    } else {
      RunStarts(rows, keys, key, i);
    }
  }

  lemma {:induction false} RunBreaks(keys: seq<Key>, i: nat, j: nat)
    requires i < j < |keys| && LeftConvex(keys, j) && LastOfRun(keys, i)
    ensures keys[i] != keys[j]
  {
    assert keys[i + 1] == keys[i + 1];
  }

  /** Past the last row of its run no row has the key. */
  lemma {:induction false} RunEnds<T>(rows: seq<Row<T>>, keys: seq<Key>, key: T -> Key, i: nat, m: nat)
    requires Grouped(rows, keys, key) && i < m <= |rows| && rows[i].valid
    requires LastOfRun(keys, i)
    ensures WithKey(Live(rows[..m]), key, key(rows[i].data)) == WithKey(Live(rows[..i + 1]), key, key(rows[i].data))
  {
    if m > i + 1 {
      RunEnds(rows, keys, key, i, m - 1);
      WithKeyStep(rows, key, key(rows[i].data), m - 1);
      if rows[m - 1].valid { RunBreaks(keys, i, m - 1); }
    }
  }

  /** Some row of the run of row i is its last. */
  lemma {:induction false} RunHasLast(keys: seq<Key>, i: nat) returns (j: nat)
    requires i < |keys|
    ensures i <= j < |keys| && keys[j] == keys[i] && LastOfRun(keys, j)
  {
    j := i;
    while !LastOfRun(keys, j)
      invariant i <= j < |keys| && keys[j] == keys[i]
      decreases |keys| - j
    {
      j := j + 1;
    }
  }

  lemma {:induction false} LiveUnique<T, K>(rows: seq<Row<T>>, key: T -> K)
    requires forall i, j :: 0 <= i < j < |rows| && rows[i].valid && rows[j].valid ==>
      key(rows[i].data) != key(rows[j].data)
    ensures UniqueBy(Live(rows), key)
  {
    if rows != [] {
      var n := |rows| - 1;
      LiveUnique(rows[..n], key);
      forall x | x in Live(rows[..n])
        ensures rows[n].valid ==> key(x) != key(rows[n].data)
      {
        LiveMember(rows[..n], x);
        var h :| 0 <= h < n && rows[..n][h].valid && rows[..n][h].data == x;
        assert rows[h].valid && rows[h].data == x;
      }
    }
  }

  /** A row left valid is the fold of its group. */
  lemma {:induction false} AggregatedGroup<T(!new)>(rows: seq<Row<T>>, keys: seq<Key>, key: T -> Key, init: T -> T,
                                                    op: (T, T) -> T, x: T, i: nat)
    requires Grouped(rows, keys, key) && i < |rows| && rows[i].valid && LastOfRun(keys, i)
    requires x == AggregatedRow(rows, keys, init, op, i).data && key(x) == key(rows[i].data)
    ensures FromGroup(Live(rows), x, key, init, op)
  {
    SegmentIsFold(rows, keys, key, init, op, i);
    RunEnds(rows, keys, key, i, |rows|);
    assert rows[..|rows|] == rows;
  }

  lemma {:induction false} AggregatedKey<T(!new)>(rows: seq<Row<T>>, keys: seq<Key>, key: T -> Key, init: T -> T,
                                                  op: (T, T) -> T, i: nat)
    requires KeyStable(key, init, op) && i < |rows| == |keys|
    ensures key(AggregatedRow(rows, keys, init, op, i).data) == key(rows[i].data)
  {
    var vals := Map(rows, (r: Row<T>) => init(r.data));
    assert vals[i] == init(rows[i].data);
  }

  /** The operator's meaning: the valid rows left are the group-by of the valid rows before. */
  lemma {:induction false} AggregateGroups<T(!new)>(rows: seq<Row<T>>, keys: seq<Key>, out: seq<Row<T>>, key: T -> Key,
                                                    init: T -> T, op: (T, T) -> T)
    requires Grouped(rows, keys, key) && KeyStable(key, init, op) && |out| == |rows|
    requires forall i :: 0 <= i < |rows| ==> out[i].valid == (rows[i].valid && LastOfRun(keys, i))
    requires forall i :: 0 <= i < |rows| && out[i].valid ==> out[i].data == AggregatedRow(rows, keys, init, op, i).data
    ensures IsGroupBy(Live(rows), Live(out), key, init, op)
  {
    forall i | 0 <= i < |rows| && out[i].valid ensures key(out[i].data) == key(rows[i].data) {
      AggregatedKey(rows, keys, key, init, op, i);
    }
    forall i, j | 0 <= i < j < |out| && out[i].valid && out[j].valid
      ensures key(out[i].data) != key(out[j].data)
    {
      RunBreaks(keys, i, j);
    }
    LiveUnique(out, key);
    forall x | x in Live(out)
      ensures FromGroup(Live(rows), x, key, init, op)
    {
      LiveMember(out, x);
      var i :| 0 <= i < |out| && out[i].valid && out[i].data == x;
      AggregatedGroup(rows, keys, key, init, op, x, i);
    }
    forall y | y in Live(rows)
      ensures HasKey(Live(out), key, key(y))
    {
      LiveMember(rows, y);
      var i :| 0 <= i < |rows| && rows[i].valid && rows[i].data == y;
      var j := RunHasLast(keys, i);
      LiveMember(out, out[j].data);
    }
  }

  /** The valid rows of a table in (VALID, key) order are in key order, also after some were invalidated. */
  lemma {:induction false} LiveSorted<T>(sorted: seq<Row<T>>, out: seq<Row<T>>, key: T -> Key)
    requires SortedBy(sorted, RowKey(key)) && |out| == |sorted|
    requires forall i :: 0 <= i < |out| ==>
      (out[i].valid ==> sorted[i].valid) && key(out[i].data) == key(sorted[i].data)
    ensures SortedBy(Live(out), key)
  {
    if out != [] {
      var n := |out| - 1;
      LiveSorted(sorted[..n], out[..n], key);
      LeqTotal(key(out[n].data), key(out[n].data));
      forall x | x in Live(out[..n])
        ensures out[n].valid ==> Leq(key(x), key(out[n].data))
      {
        LiveMember(out[..n], x);
        var h :| 0 <= h < n && out[..n][h].valid && out[..n][h].data == x;
        ValidLast(sorted, key, h, n);
      }
    }
  }

  /** Opening a table that is in order gives its valid rows in that order. */
  lemma {:induction false} LiveOrder<T>(rows: seq<Row<T>>, key: T -> Key)
    requires SortedBy(rows, (r: Row<T>) => key(r.data))
    ensures SortedBy(Live(rows), key)
  {
    if rows != [] {
      var n := |rows| - 1;
      LiveOrder(rows[..n], key);
      LeqTotal(key(rows[n].data), key(rows[n].data));
      forall x | x in Live(rows[..n]) ensures Leq(key(x), key(rows[n].data)) {
        LiveMember(rows[..n], x);
        var h :| 0 <= h < n && rows[..n][h].valid && rows[..n][h].data == x;
        assert rows[h].data == x;
      }
    }
  }

  // ----- Distinct -----

  /** The key k is shadowed: it is the largest key of an invalid row and the smallest key of a valid row. */
  ghost predicate Shadowed<T>(rows: seq<Row<T>>, key: T -> Key, k: Key) {
    && (exists r :: r in rows && !r.valid && key(r.data) == k)
    && (exists r :: r in rows && r.valid && key(r.data) == k)
    && (forall r :: r in rows && !r.valid ==> Leq(key(r.data), k))
    && (forall r :: r in rows && r.valid ==> Leq(k, key(r.data)))
  }

  /** What distinct leaves of sorted rows: a row survives when its key columns differ from those of the row
      above, whether or not that row is valid. */
  ghost predicate DistinctRow<T>(s: seq<Row<T>>, key: T -> Key, i: nat)
    requires i < |s|
  {
    s[i].valid && (i == 0 || key(s[i - 1].data) != key(s[i].data))
  }

  /** The order that (VALID, key) sorting gives. */
  lemma {:induction false} ValidLast<T>(s: seq<Row<T>>, key: T -> Key, i: nat, j: nat)
    requires SortedBy(s, RowKey(key)) && i <= j < |s|
    ensures s[i].valid ==> s[j].valid
    ensures s[i].valid == s[j].valid ==> Leq(key(s[i].data), key(s[j].data))
  {
    var a, b := RowKey(key)(s[i]), RowKey(key)(s[j]);
    assert Leq(a, b);
    assert a[1..] == key(s[i].data) && b[1..] == key(s[j].data);
  }

  /** The first valid row of a key, if it has one. */
  lemma {:induction false} FirstOfKey<T>(s: seq<Row<T>>, key: T -> Key, k: Key, i: nat) returns (f: nat)
    requires i < |s| && s[i].valid && key(s[i].data) == k
    ensures f <= i && s[f].valid && key(s[f].data) == k
    ensures f > 0 ==> !(s[f - 1].valid && key(s[f - 1].data) == k)
  {
    f := i;
    while f > 0 && s[f - 1].valid && key(s[f - 1].data) == k
      invariant f <= i && s[f].valid && key(s[f].data) == k
    {
      f := f - 1;
    }
  }

  /** A key survives exactly when it is not shadowed. */
  lemma {:induction false} DistinctKeys<T>(s: seq<Row<T>>, key: T -> Key, k: Key)
    requires SortedBy(s, RowKey(key))
    ensures (exists i :: 0 <= i < |s| && DistinctRow(s, key, i) && key(s[i].data) == k)
       <==> (exists i :: 0 <= i < |s| && s[i].valid && key(s[i].data) == k) && !Shadowed(s, key, k)
  {
    if i :| 0 <= i < |s| && s[i].valid && key(s[i].data) == k {
      var f := FirstOfKey(s, key, k, i);
      if f > 0 && key(s[f - 1].data) == k {
        ShadowHides(s, key, f);
      } else {
        assert DistinctRow(s, key, f);
        NotShadowed(s, key, f);
      }
    }
  }

  /** When the row above the first valid row of a key is an invalid row of that key, the key is shadowed and
      no row of it survives. */
  lemma {:induction false} ShadowHides<T>(s: seq<Row<T>>, key: T -> Key, f: nat)
    requires SortedBy(s, RowKey(key)) && 0 < f < |s| && s[f].valid && !s[f - 1].valid
    requires key(s[f - 1].data) == key(s[f].data)
    ensures Shadowed(s, key, key(s[f].data))
    ensures forall i :: 0 <= i < |s| && key(s[i].data) == key(s[f].data) ==> !DistinctRow(s, key, i)
  {
    var k := key(s[f].data);
    assert s[f - 1] in s && s[f] in s;
    forall r | r in s
      ensures if r.valid then Leq(k, key(r.data)) else Leq(key(r.data), k)
    {
      var i :| 0 <= i < |s| && s[i] == r;
      if i < f { ValidLast(s, key, i, f - 1); } else { ValidLast(s, key, f, i); }
    }
    forall i | 0 <= i < |s| && s[i].valid && key(s[i].data) == k
      ensures i > 0 && key(s[i - 1].data) == k
    {
      if i > f {
        ValidLast(s, key, f, i - 1);
        ValidLast(s, key, i - 1, i);
        LeqAntisymmetric(k, key(s[i - 1].data));
      }
    }
  }

  lemma {:induction false} NotShadowed<T>(s: seq<Row<T>>, key: T -> Key, f: nat)
    requires SortedBy(s, RowKey(key)) && f < |s| && DistinctRow(s, key, f)
    ensures !Shadowed(s, key, key(s[f].data))
  {
    var k := key(s[f].data);
    if Shadowed(s, key, k) {
      var r :| r in s && !r.valid && key(r.data) == k;
      var i :| 0 <= i < |s| && s[i] == r;
      if f <= i { ValidLast(s, key, f, i); }
      assert i < f && s[f - 1] in s;
      if s[f - 1].valid {
        ValidLast(s, key, f - 1, f);
      } else {
        ValidLast(s, key, i, f - 1);
      }
      LeqAntisymmetric(k, key(s[f - 1].data));
      assert false;
    }
  }

  lemma {:induction false} ShadowedPerm<T>(s: seq<Row<T>>, t: seq<Row<T>>, key: T -> Key, k: Key)
    requires Perm(s, t)
    ensures Shadowed(s, key, k) <==> Shadowed(t, key, k)
  {
    forall r ensures r in s <==> r in t { PermMember(s, t, r); }
  }

  /** Distinct keeps one row of every key that is not shadowed, and invents none. */
  ghost predicate IsDistinct<T>(before: seq<Row<T>>, after: seq<T>, key: T -> Key) {
    && UniqueBy(after, key)
    && (forall x :: x in after ==> x in Live(before))
    && (forall x :: x in Live(before) ==> (HasKey(after, key, key(x)) <==> !Shadowed(before, key, key(x))))
  }

  lemma {:induction false} DistinctMeans<T>(before: seq<Row<T>>, s: seq<Row<T>>, out: seq<Row<T>>, key: T -> Key)
    requires Perm(s, before) && SortedBy(s, RowKey(key)) && |out| == |s|
    requires forall i :: 0 <= i < |s| ==> out[i] == Row(DistinctRow(s, key, i), s[i].data)
    ensures IsDistinct(before, Live(out), key)
  {
    forall i, j | 0 <= i < j < |out| && out[i].valid && out[j].valid
      ensures key(out[i].data) != key(out[j].data)
    {
      ValidLast(s, key, i, j - 1);
      ValidLast(s, key, j - 1, j);
      if key(s[i].data) == key(s[j].data) { LeqAntisymmetric(key(s[i].data), key(s[j - 1].data)); }
    }
    LiveUnique(out, key);
    forall x | x in Live(out)
      ensures x in Live(before)
    {
      LiveMember(out, x);
      LiveMember(s, x);
      LivePerm(s, before);
      PermMember(Live(s), Live(before), x);
    }
    forall x | x in Live(before)
      ensures HasKey(Live(out), key, key(x)) <==> !Shadowed(before, key, key(x))
    {
      LivePerm(s, before);
      PermMember(Live(s), Live(before), x);
      LiveMember(s, x);
      DistinctKeys(s, key, key(x));
      ShadowedPerm(s, before, key, key(x));
      if i :| 0 <= i < |s| && DistinctRow(s, key, i) && key(s[i].data) == key(x) {
        LiveMember(out, out[i].data);
      }
      if HasKey(Live(out), key, key(x)) {
        var y :| y in Live(out) && key(y) == key(x);
        LiveMember(out, y);
      }
    }
  }

  // ----- The table class -----

  function ValidRows<T>(data: seq<T>): seq<Row<T>> {
    Map(data, x => Row(true, x))
  }

  lemma {:induction false} LiveValidRows<T>(data: seq<T>)
    ensures Live(ValidRows(data)) == data
  {
    if data != [] {
      var n := |data| - 1;
      LiveValidRows(data[..n]);
      assert ValidRows(data)[..n] == ValidRows(data[..n]);
      LastSplit(data);
    }
  }

  function Filtered<T>(rows: seq<Row<T>>, p: T -> bool): seq<Row<T>> {
    Map(rows, (r: Row<T>) => Row(r.valid && p(r.data), r.data))
  }

  lemma {:induction false} LiveFiltered<T>(rows: seq<Row<T>>, p: T -> bool)
    ensures Live(Filtered(rows, p)) == Select(Live(rows), p)
  {
    if rows != [] {
      var n := |rows| - 1;
      LiveFiltered(rows[..n], p);
      assert Filtered(rows, p)[..n] == Filtered(rows[..n], p);
      SelectAppend(Live(rows[..n]), LiveOne(rows[n]), p);
      assert rows[n].valid ==> LiveOne(rows[n])[..0] == [];
    }
  }

  function Assigned<T>(rows: seq<Row<T>>, f: Row<T> -> T): seq<Row<T>> {
    Map(rows, (r: Row<T>) => Row(r.valid, f(r)))
  }

  lemma {:induction false} LiveAssigned<T>(rows: seq<Row<T>>, f: Row<T> -> T)
    ensures Live(Assigned(rows, f)) == Map(Live(rows), x => f(Row(true, x)))
  {
    if rows != [] {
      var n := |rows| - 1;
      LiveAssigned(rows[..n], f);
      assert Assigned(rows, f)[..n] == Assigned(rows[..n], f);
    }
  }

  ghost function Column<T>(get: T -> int): Row<T> -> int {
    (r: Row<T>) => get(r.data)
  }

  /** A column masked by the valid bit sums, over all rows, to its sum over the valid rows, whatever the invalid
      rows hold. */
  lemma {:induction false} SumMasked<T>(rows: seq<Row<T>>, masked: seq<Row<T>>, get: T -> int, f: T -> int)
    requires |masked| == |rows|
    requires forall i :: 0 <= i < |rows| ==> get(masked[i].data) == if rows[i].valid then f(rows[i].data) else 0
    ensures Sum(masked, Column(get)) == Sum(Live(rows), f)
  {
    if rows != [] {
      var n := |rows| - 1;
      SumMasked(rows[..n], masked[..n], get, f);
      SumAppend(Live(rows[..n]), LiveOne(rows[n]), f);
      assert rows[n].valid ==> LiveOne(rows[n])[..0] == [];
    }
  }

  lemma {:induction false} LiveLength<T>(rows: seq<Row<T>>)
    ensures |Live(rows)| <= |rows|
    ensures (forall i :: 0 <= i < |rows| ==> rows[i].valid) ==> |Live(rows)| == |rows|
    ensures (forall i :: 0 <= i < |rows| ==> !rows[i].valid) ==> Live(rows) == []
  {
    if rows != [] { LiveLength(rows[..|rows| - 1]); }
  }

  /** After an ascending sort on VALID the last n rows hold all valid rows, if there are at most n. */
  lemma {:induction false} TailKeepsLive<T>(rows: seq<Row<T>>, key: T -> Key, n: nat)
    requires SortedBy(rows, RowKey(key)) && |Live(rows)| <= n <= |rows|
    ensures Live(rows[|rows| - n..]) == Live(rows)
  {
    var k := |rows| - n;
    assert rows == rows[..k] + rows[k..];
    LiveAppend(rows[..k], rows[k..]);
    LiveLength(rows[..k]);
    LiveLength(rows[k..]);
    forall i | 0 <= i < k && rows[i].valid
      ensures Live(rows[..k]) == []
    {
      forall j | 0 <= j < n ensures rows[k..][j].valid {
        ValidLast(rows, key, i, k + j);
      }
      assert |Live(rows[k..])| == n;
    }
  }

  lemma {:induction false} LiveSuffix<T>(rows: seq<Row<T>>, k: nat)
    requires k <= |rows| && (forall i :: 0 <= i < k ==> !rows[i].valid) && forall i :: k <= i < |rows| ==> rows[i].valid
    ensures |Live(rows)| == |rows| - k && forall i :: 0 <= i < |rows| - k ==> Live(rows)[i] == rows[k + i].data
  {
    var n := |rows| - 1;
    if k <= n {
      LiveSuffix(rows[..n], k);
      assert Live(rows) == Live(rows[..n]) + [rows[n].data];
    } else {
      LiveLength(rows);
    }
  }

  /** After an ascending sort on VALID the valid rows are a suffix. */
  lemma {:induction false} ValidSuffix<T>(rows: seq<Row<T>>, key: T -> Key) returns (k: nat)
    requires SortedBy(rows, RowKey(key))
    ensures k <= |rows| && forall i :: 0 <= i < |rows| ==> (rows[i].valid <==> i >= k)
    ensures |Live(rows)| == |rows| - k && forall i :: 0 <= i < |rows| - k ==> Live(rows)[i] == rows[k + i].data
  {
    k := 0;
    while k < |rows| && !rows[k].valid
      invariant k <= |rows| && forall i :: 0 <= i < k ==> !rows[i].valid
    {
      k := k + 1;
    }
    forall i | k <= i < |rows| ensures rows[i].valid {
      ValidLast(rows, key, k, i);
    }
    LiveSuffix(rows, k);
  }

  /** A table all of whose rows are valid needs no valid bit in its grouping cells. */
  lemma {:induction false} AllValidSorted<T>(rows: seq<Row<T>>, data: seq<T>, key: T -> Key)
    requires Perm(rows, ValidRows(data)) && SortedBy(rows, RowKey(key))
    ensures SortedBy(rows, (r: Row<T>) => key(r.data))
    ensures Grouped(rows, Map(rows, (r: Row<T>) => key(r.data)), key)
  {
    forall i | 0 <= i < |rows| ensures rows[i].valid {
      assert rows[i] in rows;
      PermMember(rows, ValidRows(data), rows[i]);
    }
    forall i, j | 0 <= i <= j < |rows| ensures Leq(key(rows[i].data), key(rows[j].data)) {
      ValidLast(rows, key, i, j);
    }
    var cells := Map(rows, (r: Row<T>) => key(r.data));
    forall i | 0 <= i < |rows| ensures LeftConvex(cells, i) {
      SortedConvex(rows, (r: Row<T>) => key(r.data), i);
    }
  }

  class EncodedTable<T(!new)> {
    /** A row with every column zero, as padding and fresh columns hold. */
    const zero: T
    var rows: seq<Row<T>>

    /** A freshly shared table: every row valid. */
    constructor (data: seq<T>, zero: T)
      ensures this.zero == zero && rows == ValidRows(data) && Live(rows) == data
    {
      this.zero := zero;
      rows := ValidRows(data);
      LiveValidRows(data);
    }

    /** A table taken over from an operator's result. */
    constructor FromRows(rows: seq<Row<T>>, zero: T)
      ensures this.zero == zero && this.rows == rows
    {
      this.zero := zero;
      this.rows := rows;
    }

    /** Clears the valid bit of the rows that fail the condition; nothing moves and nothing is revalidated. */
    method Filter(p: T -> bool)
      modifies this`rows
      ensures rows == Filtered(old(rows), p) && Live(rows) == Select(Live(old(rows)), p)
    {
      LiveFiltered(rows, p);
      rows := Filtered(rows, p);
    }

    /** A column assignment, on valid and invalid rows alike; it may read the valid bit. */
    method Assign(f: Row<T> -> T)
      modifies this`rows
      ensures rows == Assigned(old(rows), f) && Live(rows) == Map(Live(old(rows)), x => f(Row(true, x)))
    {
      LiveAssigned(rows, f);
      rows := Assigned(rows, f);
    }

    /** Marks every row valid again. */
    method ConfigureValid()
      modifies this`rows
      ensures |rows| == |old(rows)| && forall i :: 0 <= i < |rows| ==> rows[i] == Row(true, old(rows)[i].data)
    {
      rows := Map(rows, (r: Row<T>) => Row(true, r.data));
    }

    /** An inclusive prefix sum of the column `get`, written to the column `set`, over all rows. */
    method PrefixSum(get: T -> int, set_: (T, int) -> T)
      modifies this`rows
      ensures |rows| == |old(rows)|
      ensures forall i :: 0 <= i < |rows| ==>
        rows[i] == Row(old(rows)[i].valid, set_(old(rows)[i].data, Sum(old(rows)[..i + 1], Column(get))))
    {
      var total, out := 0, [];
      for i := 0 to |rows|
        invariant |out| == i && total == Sum(rows[..i], Column(get))
        invariant forall j :: 0 <= j < i ==>
          out[j] == Row(rows[j].valid, set_(rows[j].data, Sum(rows[..j + 1], Column(get))))
      {
        assert rows[..i + 1][..i] == rows[..i];
        total := total + get(rows[i].data);
        out := out + [Row(rows[i].valid, set_(rows[i].data, total))];
      }
      rows := out;
    }

    /** Ascending sort on the valid bit and the given columns. */
    method SortValid(key: T -> Key)
      modifies this`rows
      ensures Perm(rows, old(rows)) && SortedBy(rows, RowKey(key)) && |rows| == |old(rows)|
    {
      rows := Sort(rows, RowKey(key));
    }

    /** Keep the last n rows. */
    method Tail(n: nat)
      requires n <= |rows|
      modifies this`rows
      ensures rows == old(rows)[|old(rows)| - n..]
    {
      rows := rows[|rows| - n..];
    }

    /** Keep the first n rows; a shorter table is extended with invalid rows. */
    method Head(n: nat)
      modifies this`rows
      ensures |rows| == n
      ensures rows == if n <= |old(rows)| then old(rows)[..n]
                      else old(rows) + seq(n - |old(rows)|, _ => Row(false, zero))
    {
      if n <= |rows| {
        rows := rows[..n];
      } else {
        rows := rows + seq(n - |rows|, _ => Row(false, zero));
      }
    }

    /** Aggregation over rows already in key order: the network on the padded columns, then only the last row
        of each run keeps its valid bit. */
    method AggregateSorted(rowKey: Row<T> -> Key, init: T -> T, op: (T, T) -> T)
      requires |rows| >= 2 && Associative(op) && SortedBy(rows, rowKey)
      modifies this`rows
      ensures |rows| == |old(rows)|
      ensures forall i :: 0 <= i < |rows| ==> rows[i] == AggregatedRow(old(rows), Map(old(rows), rowKey), init, op, i)
    {
      var keys := Map(rows, rowKey);
      var uniq := seq(|rows|, i requires 0 <= i < |keys| => i == 0 || keys[i - 1] != keys[i]);
      var out := NetworkColumn(keys, Map(rows, (r: Row<T>) => init(r.data)), op, rowKey(Row(false, zero)), init(zero));
      forall i | 0 <= i < |rows|
        ensures LeftConvex(keys, i)
      {
        SortedConvex(rows, rowKey, i);
      }
      var n := |rows|;
      rows := seq(n, i requires 0 <= i < n && n == |rows| == |out| == |uniq| reads this =>
                  Row(rows[i].valid && (i == n - 1 || uniq[i + 1]), out[i]));
    }

    /** aggregate(keys, spec, {.mark_valid = false}): every row keeps its valid bit and gets its running value. */
    method RunningAggregate(key: T -> Key, init: T -> T, op: (T, T) -> T) returns (ghost sorted: seq<Row<T>>)
      requires |rows| >= 2 && Associative(op)
      modifies this`rows
      ensures Perm(sorted, old(rows)) && SortedBy(sorted, RowKey(key)) && |rows| == |sorted| == |old(rows)|
      ensures forall i :: 0 <= i < |rows| ==>
        rows[i] == Row(sorted[i].valid, AggregatedRow(sorted, Map(sorted, RowKey(key)), init, op, i).data)
    {
      SortValid(key);
      sorted := rows;
      var keys := Map(rows, RowKey(key));
      var out := NetworkColumn(keys, Map(rows, (r: Row<T>) => init(r.data)), op, RowKey(key)(Row(false, zero)),
                               init(zero));
      forall i | 0 <= i < |rows| ensures LeftConvex(keys, i) {
        SortedConvex(rows, RowKey(key), i);
      }
      var n := |rows|;
      rows := seq(n, i requires 0 <= i < n && n == |rows| == |out| reads this => Row(rows[i].valid, out[i]));
    }

    /** aggregate(keys, spec) with its defaults: sort on VALID and the keys, then aggregate. */
    method Aggregate(key: T -> Key, init: T -> T, op: (T, T) -> T)
      requires |rows| >= 2 && Associative(op) && KeyStable(key, init, op)
      modifies this`rows
      ensures |rows| == |old(rows)|
      ensures IsGroupBy(Live(old(rows)), Live(rows), key, init, op)
      ensures SortedBy(Live(rows), key)
    {
      SortValid(key);
      ghost var sorted := rows;
      AggregateSorted(RowKey(key), init, op);
      assert forall i :: 0 <= i < |rows| ==> key(rows[i].data) == key(sorted[i].data) by {
        forall i | 0 <= i < |rows| ensures key(rows[i].data) == key(sorted[i].data) {
          assert rows[i] == AggregatedRow(sorted, Map(sorted, RowKey(key)), init, op, i);
        }
      }
      LiveSorted(sorted, rows, key);
      SortedGrouped(sorted, key);
      AggregateGroups(sorted, Map(sorted, RowKey(key)), rows, key, init, op);
      LivePerm(sorted, old(rows));
      GroupByPerm(Live(sorted), Live(old(rows)), Live(rows), key, init, op);
    }

    /** distinct(keys): sort on VALID and the keys, keep the rows whose key columns differ from the row above. */
    method Distinct(key: T -> Key)
      modifies this`rows
      ensures |rows| == |old(rows)| && IsDistinct(old(rows), Live(rows), key)
      ensures SortedBy(Live(rows), key)
    {
      SortValid(key);
      ghost var s := rows;
      var n := |rows|;
      rows := seq(n, i requires 0 <= i < n && n == |rows| reads this =>
                  Row(rows[i].valid && (i == 0 || key(rows[i - 1].data) != key(rows[i].data)), rows[i].data));
      DistinctMeans(old(rows), s, rows, key);
      LiveSorted(s, rows, key);
    }
  }
}
