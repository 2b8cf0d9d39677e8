/** Key columns of the TPC-H generator (bench/queries/tpch/tpch_dbgen.h), clause 4.2.3 of the TPC-H
    Specification: the joins of the queries rely on the compound keys built here being unique. */
module Generator {
  import opened Division
  import opened PrefixSums

  // ----- LINEITEM: one to seven rows per order -----

  ghost predicate Counts(counts: seq<int>) {
    forall k :: 0 <= k < |counts| ==> 1 <= counts[k] <= 7
  }

  lemma {:induction false} StartGrows(counts: seq<int>, i: nat, j: nat)
    requires Counts(counts) && i < j <= |counts|
    ensures 0 <= SumTo(counts, i) < SumTo(counts, j) && j <= SumTo(counts, j)
  {
    if i + 1 < j { StartGrows(counts, i, j - 1); } else if i > 0 { StartGrows(counts, i - 1, i); }
  }

  /** The row after the last row of order i. */
  ghost function End(counts: seq<int>, i: nat): int
    requires i < |counts|
  {
    SumTo(counts, i + 1)
  }

  /** Row r belongs to order k; the key |counts| belongs to the row after all orders. */
  ghost predicate InOrder(counts: seq<int>, r: int, k: nat)
    requires k <= |counts|
  {
    SumTo(counts, k) <= r && (k < |counts| ==> r < End(counts, k))
  }

  /** The scattered ones: row r opens a new order exactly when some order ends just above it. */
  ghost predicate Scattered(counts: seq<int>, bits: seq<int>) {
    && Counts(counts) && |bits| == SumTo(counts, |counts|) + 1
    && (forall r :: 0 <= r < |bits| ==> bits[r] == if EndsAt(counts, |counts|, r) then 1 else 0)
  }

  ghost predicate EndsAt(counts: seq<int>, n: nat, r: int)
    requires n <= |counts|
  {
    exists i: nat :: i < n && End(counts, i) == r
  }

  /** Inside order k only its first row opens it, and for the first order none does. */
  lemma {:induction false} OpensAt(counts: seq<int>, r: nat, k: nat)
    requires Counts(counts) && k <= |counts| && InOrder(counts, r, k)
    ensures EndsAt(counts, |counts|, r) <==> k > 0 && r == SumTo(counts, k)
  {
    if k > 0 && r == SumTo(counts, k) {
      assert End(counts, k - 1) == r;
    }
    if EndsAt(counts, |counts|, r) {
      var i: nat :| i < |counts| && End(counts, i) == r;
      if i + 1 < k { StartGrows(counts, i + 1, k); }
      if k + 1 < i + 1 { StartGrows(counts, k + 1, i + 1); }
      StartGrows(counts, i, i + 1);
    }
  }

  /** The number of ones up to a row is the order the row belongs to. */
  lemma {:induction false} KeyAt(counts: seq<int>, bits: seq<int>, r: nat, k: nat)
    requires Scattered(counts, bits) && k <= |counts| && r < |bits| && InOrder(counts, r, k)
    ensures SumTo(bits, r + 1) == k
  {
    OpensAt(counts, r, k);
    assert SumTo(bits, r + 1) == SumTo(bits, r) + bits[r];
    if k > 0 { StartGrows(counts, k - 1, k); }
    if k > 0 && r == SumTo(counts, k) {
      assert InOrder(counts, r - 1, k - 1);
      KeyAt(counts, bits, r - 1, k - 1);
    } else if r > 0 {
      assert InOrder(counts, r - 1, k);
      KeyAt(counts, bits, r - 1, k);
    }
  }

  /** Every row belongs to some order, or to the trailing key. */
  lemma {:induction false} OrderOf(counts: seq<int>, r: nat, n: nat) returns (k: nat)
    requires Counts(counts) && n <= |counts|
    ensures k <= n && SumTo(counts, k) <= r && (k < n ==> r < End(counts, k))
  {
    k := 0;
    while k < n && SumTo(counts, k + 1) <= r
      invariant k <= n && SumTo(counts, k) <= r
    {
      k := k + 1;
    }
  }

  /** The column: order k fills exactly the counts[k] rows from SumTo(k) on, in order, and one further row holds
      the key |counts|. */
  ghost predicate KeyColumn(counts: seq<int>, keys: seq<int>) {
    && |keys| == SumTo(counts, |counts|) + 1
    && forall r, k: nat :: 0 <= r < |keys| && k <= |counts| ==> (keys[r] == k <==> InOrder(counts, r, k))
  }

  lemma {:induction false} KeysOfBits(counts: seq<int>, bits: seq<int>, keys: seq<int>)
    requires Scattered(counts, bits) && |keys| == |bits|
    requires forall r :: 0 <= r < |keys| ==> keys[r] == SumTo(bits, r + 1)
    ensures KeyColumn(counts, keys)
  {
    forall r, k: nat | 0 <= r < |keys| && k <= |counts|
      ensures keys[r] == k <==> InOrder(counts, r, k)
    {
      var h := OrderOf(counts, r, |counts|);
      KeyAt(counts, bits, r, h);
      if InOrder(counts, r, k) { KeyAt(counts, bits, r, k); }
    }
  }

  /** The scatter loop. */
  method Scatter(ends: array<int>, ghost counts: seq<int>, bits: array<int>)
    requires ends != bits && Counts(counts) && ends.Length == |counts| && bits.Length == SumTo(counts, |counts|) + 1
    requires forall i :: 0 <= i < ends.Length ==> ends[i] == End(counts, i)
    requires forall r :: 0 <= r < bits.Length ==> bits[r] == 0
    modifies bits
    ensures Scattered(counts, bits[..])
  {
    for i := 0 to ends.Length
      invariant forall r :: 0 <= r < bits.Length ==> bits[r] == if EndsAt(counts, i, r) then 1 else 0
    {
      EndsNext(counts, i);
      EndInside(counts, i);
      bits[ends[i]] := 1;
    }
  }

  lemma {:induction false} EndsNext(counts: seq<int>, n: nat)
    requires n < |counts|
    ensures forall r :: EndsAt(counts, n + 1, r) <==> EndsAt(counts, n, r) || r == End(counts, n)
  {
    forall r ensures EndsAt(counts, n + 1, r) <==> EndsAt(counts, n, r) || r == End(counts, n) {
      if EndsAt(counts, n, r) {
        var i: nat :| i < n && End(counts, i) == r;
        assert i < n + 1;
      }
    }
  }

  lemma {:induction false} EndInside(counts: seq<int>, i: nat)
    requires Counts(counts) && i < |counts|
    ensures 0 <= End(counts, i) <= SumTo(counts, |counts|)
  {
    StartGrows(counts, i, i + 1);
    if i + 1 < |counts| { StartGrows(counts, i + 1, |counts|); }
  }

  /** Lines 267-296: sizes by prefix sum, scatter, prefix sum. The counts are drawn by the caller. */
  method OrderKeys(counts: array<int>) returns (orderKey: array<int>)
    requires counts.Length >= 1 && Counts(counts[..])
    modifies counts
    ensures fresh(orderKey) && KeyColumn(old(counts[..]), orderKey[..])
  {
    ghost var drawn := counts[..];
    PrefixSum(counts);
    var n := counts.Length;
    StartGrows(drawn, n - 1, n);
    orderKey := new int[counts[n - 1] + 1](_ => 0);
    Scatter(counts, drawn, orderKey);
    ghost var bits := orderKey[..];
    PrefixSum(orderKey);
    KeysOfBits(drawn, bits, orderKey[..]);
  }

  /** The rows of order k are counts[k] consecutive rows; the trailing key has exactly one. */
  lemma {:induction false} OrderRun(counts: seq<int>, keys: seq<int>, k: nat)
    requires Counts(counts) && KeyColumn(counts, keys) && k <= |counts|
    ensures 0 <= SumTo(counts, k) < |keys|
    ensures k < |counts| ==>
      forall r :: 0 <= r < |keys| ==> (keys[r] == k <==> SumTo(counts, k) <= r < SumTo(counts, k) + counts[k])
    ensures k == |counts| ==> forall r :: 0 <= r < |keys| ==> (keys[r] == k <==> r == |keys| - 1)
  {
    if k > 0 { StartGrows(counts, k - 1, k); }
    if k < |counts| { StartGrows(counts, k, |counts|); }
    forall r | 0 <= r < |keys| ensures keys[r] == k <==> InOrder(counts, r, k) {
    }
  }

  lemma {:induction false} KeysNonDecreasing(counts: seq<int>, keys: seq<int>, r: nat, r': nat)
    requires Counts(counts) && KeyColumn(counts, keys) && r <= r' < |keys|
    ensures 0 <= keys[r] <= keys[r'] <= |counts|
  {
    var k := OrderOf(counts, r, |counts|);
    var k' := OrderOf(counts, r', |counts|);
    assert InOrder(counts, r, k) && InOrder(counts, r', k');
    if k' < k {
      if k' + 1 < k { StartGrows(counts, k' + 1, k); }
      assert false;
    }
  }

  lemma {:induction false} SameResidue(r: int, r': int)
    requires r < r' < r + 7
    ensures r % 7 != r' % 7
  {
  }

  /** With line number = row mod 7 the pairs (OrderKey, LineNumber) are distinct. */
  lemma {:induction false} LineKeysUnique(counts: seq<int>, keys: seq<int>, r: nat, r': nat)
    requires Counts(counts) && KeyColumn(counts, keys) && r < r' < |keys|
    ensures keys[r] != keys[r'] || r % 7 != r' % 7
  {
    if keys[r] == keys[r'] {
      KeysNonDecreasing(counts, keys, r, r');
      OrderRun(counts, keys, keys[r]);
      SameResidue(r, r');
    }
  }

  // ----- PARTSUPP: four suppliers per part -----

  const WORD: int := 0x1_0000_0000_0000_0000

  /** S/4 + (partkey - 1)/S; the subtraction goes through a 64-bit unsigned conversion. */
  function Step(partKey: nat, suppliers: nat): nat
    requires suppliers >= 1
  {
    suppliers / 4 + (if partKey == 0 then WORD - 1 else partKey - 1) / suppliers
  }

  /** The supplier formula in 64-bit unsigned arithmetic. */
  function SuppKey(partKey: nat, i: nat, suppliers: nat): (k: nat)
    requires suppliers >= 1
    ensures 1 <= k <= suppliers
  {
    ((partKey + i * Step(partKey, suppliers) % WORD) % WORD) % suppliers + 1
  }

  /** Sizes for which no intermediate value leaves 64 bits. */
  predicate InWords(partKey: nat, suppliers: nat) {
    4 <= suppliers < 0x8000_0000 && partKey < 0x8000_0000
  }

  lemma {:induction false} QuotientAtMost(x: nat, d: nat, c: nat)
    requires d >= c >= 1
    ensures 0 <= x / d <= x / c
  {
    var q, r := x / d, x % d;
    assert x == d * q + r;
    QuotientNonNegative(x, d);
    assert d * q >= c * q by { assert (d - c) * q >= 0; }
    var q', r' := x / c, x % c;
    assert x == c * q' + r';
    MulAtLeast(c, q - q');
    assert c * (q - q') == c * q - c * q';
  }

  lemma {:induction false} QuotientNonNegative(x: nat, d: nat)
    requires d >= 1
    ensures x / d >= 0
  {
    var q, r := x / d, x % d;
    assert x == d * q + r;
    if q <= -1 { MulAtLeast(d, q); }
  }

  lemma {:induction false} NoWrap(partKey: nat, i: nat, suppliers: nat)
    requires InWords(partKey, suppliers) && i <= 3
    ensures SuppKey(partKey, i, suppliers) == (partKey + i * Step(partKey, suppliers)) % suppliers + 1
  {
    StepBound(partKey, suppliers);
    var s := Step(partKey, suppliers);
    var t := i * s;
    Times3(i, s);
    DivideIs(t, WORD, 0, t);
    DivideIs(partKey + t, WORD, 0, partKey + t);
  }

  lemma {:induction false} Times3(i: nat, s: nat)
    requires i <= 3
    ensures 0 <= i * s <= 3 * s
  {
    assert (3 - i) * s >= 0;
  }

  lemma {:induction false} StepBound(partKey: nat, suppliers: nat)
    requires InWords(partKey, suppliers)
    ensures Step(partKey, suppliers) <= 0x2000_0000 + 0x4000_0000_0000_0000
  {
    var x := if partKey == 0 then WORD - 1 else partKey - 1;
    QuotientAtMost(x, suppliers, 4);
  }

  ghost predicate Divides(d: nat, x: int) { d >= 1 && x % d == 0 }

  /** Two numbers leave the same remainder exactly when the divisor divides their difference. */
  lemma {:induction false} SameRemainder(a: int, b: int, d: nat)
    requires d >= 1
    ensures a % d == b % d <==> Divides(d, b - a)
  {
    var qa, ra, qb, rb := a / d, a % d, b / d, b % d;
    assert a == d * qa + ra && b == d * qb + rb;
    assert d * (qb - qa) == d * qb - d * qa;
    if ra == rb {
      DivideIs(b - a, d, qb - qa, 0);
    } else if rb > ra {
      DivideIs(b - a, d, qb - qa, rb - ra);
    } else {
      assert d * (qb - qa - 1) == d * (qb - qa) - d;
      DivideIs(b - a, d, qb - qa - 1, rb - ra + d);
    }
  }

  /** Among the first S parts the suppliers are a quarter of the suppliers apart. */
  lemma {:induction false} FirstBlock(partKey: nat, i: nat, suppliers: nat)
    requires InWords(partKey, suppliers) && i <= 3 && 1 <= partKey <= suppliers
    ensures SuppKey(partKey, i, suppliers) == (partKey + i * (suppliers / 4)) % suppliers + 1
  {
    NoWrap(partKey, i, suppliers);
    DivideIs(partKey - 1, suppliers, 0, partKey - 1);
  }

  /** From one block of S parts to the next the i-th supplier moves on by i. */
  lemma {:induction false} NextBlock(partKey: nat, i: nat, suppliers: nat)
    requires InWords(partKey + suppliers, suppliers) && i <= 3 && 1 <= partKey
    ensures SuppKey(partKey + suppliers, i, suppliers) - 1 == (SuppKey(partKey, i, suppliers) - 1 + i) % suppliers
  {
    NoWrap(partKey, i, suppliers);
    NoWrap(partKey + suppliers, i, suppliers);
    StepMoves(partKey, suppliers);
    NextRemainder(partKey, i, Step(partKey, suppliers), suppliers);
  }

  lemma {:induction false} NextRemainder(p: int, i: int, step: int, d: nat)
    requires d >= 1
    ensures (p + d + i * (step + 1)) % d == ((p + i * step) % d + i) % d
  {
    OneTimeMore(i, step);
    RemainderMoves(p + i * step, i, d);
    assert p + d + i * (step + 1) == (p + i * step) + d + i;
  }

  lemma {:induction false} StepMoves(partKey: nat, suppliers: nat)
    requires suppliers >= 1 && partKey >= 1
    ensures Step(partKey + suppliers, suppliers) == Step(partKey, suppliers) + 1
  {
    var q, r := (partKey - 1) / suppliers, (partKey - 1) % suppliers;
    assert suppliers * (q + 1) == suppliers * q + suppliers;
    DivideIs(partKey + suppliers - 1, suppliers, q + 1, r);
  }

  lemma {:induction false} OneTimeMore(i: int, x: int)
    ensures i * (x + 1) == i * x + i
  {
  }

  lemma {:induction false} RemainderMoves(x: int, i: int, d: nat)
    requires d >= 1
    ensures (x + d + i) % d == (x % d + i) % d
  {
    var q := x / d;
    assert x == d * q + x % d;
    assert d * (q + 1) == d * q + d;
    SameRemainder(x % d + i, x + d + i, d);
    DivideIs(x + d - x % d, d, q + 1, 0);
  }

  /** Part key 0, whose predecessor is the largest 64-bit number. */
  lemma {:induction false} PartZero(i: nat, suppliers: nat)
    requires InWords(0, suppliers) && i <= 3
    ensures SuppKey(0, i, suppliers) == (i * (suppliers / 4 + 0xFFFF_FFFF_FFFF_FFFF / suppliers)) % suppliers + 1
  {
    NoWrap(0, i, suppliers);
  }

  /** The four suppliers of a part are pairwise different. */
  ghost predicate FourDistinct(partKey: nat, suppliers: nat)
    requires suppliers >= 1
  {
    forall i: nat, j: nat :: i < j < 4 ==> SuppKey(partKey, i, suppliers) != SuppKey(partKey, j, suppliers)
  }

  ghost predicate StepFits(partKey: nat, suppliers: nat)
    requires suppliers >= 1
  {
    var s := Step(partKey, suppliers);
    !Divides(suppliers, s) && !Divides(suppliers, 2 * s) && !Divides(suppliers, 3 * s)
  }

  lemma {:induction false} PairDistinct(partKey: nat, suppliers: nat, i: nat, j: nat)
    requires InWords(partKey, suppliers) && i < j < 4
    ensures SuppKey(partKey, i, suppliers) == SuppKey(partKey, j, suppliers)
       <==> Divides(suppliers, (j - i) * Step(partKey, suppliers))
  {
    var s := Step(partKey, suppliers);
    NoWrap(partKey, i, suppliers);
    NoWrap(partKey, j, suppliers);
    SameRemainder(partKey + i * s, partKey + j * s, suppliers);
    assert (partKey + j * s) - (partKey + i * s) == (j - i) * s;
  }

  /** With fewer than four suppliers two of the four are the same, and the count divides a multiple of the step. */
  lemma {:induction false} FewSuppliers(partKey: nat, suppliers: nat)
    requires 1 <= suppliers <= 3
    ensures !FourDistinct(partKey, suppliers) && !StepFits(partKey, suppliers)
  {
    var k0, k1 := SuppKey(partKey, 0, suppliers), SuppKey(partKey, 1, suppliers);
    var k2, k3 := SuppKey(partKey, 2, suppliers), SuppKey(partKey, 3, suppliers);
    assert k0 == k1 || k0 == k2 || k0 == k3 || k1 == k2 || k1 == k3 || k2 == k3;
    var s := Step(partKey, suppliers);
    DivideIs(suppliers * s, suppliers, s, 0);
  }

  /** Exactly when the four suppliers differ: the supplier count divides none of the first three multiples of
      the step. Part key 0 is covered, with its wrapped step. */
  lemma {:induction false} FourDistinctIff(partKey: nat, suppliers: nat)
    requires 1 <= suppliers < 0x8000_0000 && partKey < 0x8000_0000
    ensures FourDistinct(partKey, suppliers) <==> StepFits(partKey, suppliers)
  {
    if suppliers < 4 {
      FewSuppliers(partKey, suppliers);
    } else {
      ManySuppliers(partKey, suppliers);
    }
  }

  lemma {:induction false} ManySuppliers(partKey: nat, suppliers: nat)
    requires InWords(partKey, suppliers)
    ensures FourDistinct(partKey, suppliers) <==> StepFits(partKey, suppliers)
  {
    SixPairs(partKey, suppliers);
    if StepFits(partKey, suppliers) {
      forall i: nat, j: nat | i < j < 4 ensures SuppKey(partKey, i, suppliers) != SuppKey(partKey, j, suppliers) {
        assert (i == 0 || i == 1 || i == 2) && (j == 1 || j == 2 || j == 3);
      }
    }
  }

  /** The six pairs of a part's suppliers and the multiples of the step they compare. */
  lemma {:induction false} SixPairs(partKey: nat, suppliers: nat)
    requires InWords(partKey, suppliers)
    ensures SuppKey(partKey, 0, suppliers) == SuppKey(partKey, 1, suppliers)
       <==> Divides(suppliers, Step(partKey, suppliers))
    ensures SuppKey(partKey, 1, suppliers) == SuppKey(partKey, 2, suppliers)
       <==> Divides(suppliers, Step(partKey, suppliers))
    ensures SuppKey(partKey, 2, suppliers) == SuppKey(partKey, 3, suppliers)
       <==> Divides(suppliers, Step(partKey, suppliers))
    ensures SuppKey(partKey, 0, suppliers) == SuppKey(partKey, 2, suppliers)
       <==> Divides(suppliers, 2 * Step(partKey, suppliers))
    ensures SuppKey(partKey, 1, suppliers) == SuppKey(partKey, 3, suppliers)
       <==> Divides(suppliers, 2 * Step(partKey, suppliers))
    ensures SuppKey(partKey, 0, suppliers) == SuppKey(partKey, 3, suppliers)
       <==> Divides(suppliers, 3 * Step(partKey, suppliers))
  {
    PairDistinct(partKey, suppliers, 0, 1);
    PairDistinct(partKey, suppliers, 1, 2);
    PairDistinct(partKey, suppliers, 2, 3);
    PairDistinct(partKey, suppliers, 0, 2);
    PairDistinct(partKey, suppliers, 1, 3);
    PairDistinct(partKey, suppliers, 0, 3);
  }

  /** A positive step of which three fit below the supplier count is enough. */
  lemma {:induction false} SmallStepFits(partKey: nat, suppliers: nat)
    requires 1 <= suppliers && 1 <= Step(partKey, suppliers) && 3 * Step(partKey, suppliers) < suppliers
    ensures StepFits(partKey, suppliers)
  {
    var s := Step(partKey, suppliers);
    DivideIs(s, suppliers, 0, s);
    DivideIs(2 * s, suppliers, 0, 2 * s);
    DivideIs(3 * s, suppliers, 0, 3 * s);
  }

  /** The specification's sizes, twenty parts for every supplier, meet it from 229 suppliers on. */
  lemma {:induction false} SpecificationFits(partKey: nat, suppliers: nat)
    requires 229 <= suppliers && 1 <= partKey <= 20 * suppliers
    ensures StepFits(partKey, suppliers)
  {
    var x := partKey - 1;
    var q, r := x / suppliers, x % suppliers;
    assert x == suppliers * q + r;
    QuotientNonNegative(x, suppliers);
    MulAtLeast(suppliers, q - 19);
    assert suppliers * (q - 19) == suppliers * q - 19 * suppliers;
    assert q <= 19;
    SmallStepFits(partKey, suppliers);
  }

  /** Below four suppliers the bound 3 * step < S alone is not enough: the step can be zero. */
  lemma {:induction false} TooFewSuppliers()
    ensures 3 * Step(1, 3) < 3 && SuppKey(1, 0, 3) == SuppKey(1, 1, 3)
  {
  }

  ghost function SuppOfRow(row: nat, suppliers: nat): (k: nat)
    requires suppliers >= 1
    ensures 1 <= k <= suppliers
  {
    SuppKey(row / 4, row % 4, suppliers)
  }

  /** The loop with its counter that wraps at four, for any formula of the part key and the counter. */
  method FourPerPart(partKey: seq<nat>, formula: (nat, nat) -> nat) returns (column: array<nat>)
    ensures column.Length == |partKey|
    ensures forall row :: 0 <= row < |partKey| ==> column[row] == formula(partKey[row], row % 4)
  {
    column := new nat[|partKey|](_ => 0);
    var row, i := 0, 0;
    while row < |partKey|
      invariant 0 <= row <= |partKey| && i == row % 4
      invariant forall r :: 0 <= r < row ==> column[r] == formula(partKey[r], r % 4)
    {
      column[row] := formula(partKey[row], i);
      row, i := row + 1, (i + 1) % 4;
    }
  }

  /** Lines 912-924: part keys and their suppliers. */
  method SupplierKeys(rows: nat, suppliers: nat) returns (partKey: seq<nat>, suppKey: array<nat>)
    requires suppliers >= 1
    ensures |partKey| == suppKey.Length == rows
    ensures forall row :: 0 <= row < rows ==> partKey[row] == row / 4 && suppKey[row] == SuppOfRow(row, suppliers)
  {
    partKey := seq(rows, row requires 0 <= row => row / 4);
    suppKey := FourPerPart(partKey, (p, i) => if suppliers >= 1 then SuppKey(p, i, suppliers) else 0);
  }

  /** The pairs (PartKey, SuppKey) of the first rows are distinct. */
  ghost predicate PairsUnique(rows: nat, suppliers: nat)
    requires suppliers >= 1
  {
    forall r: nat, r': nat :: r < r' < rows ==> !SamePair(r, r', suppliers)
  }

  ghost predicate SamePair(r: nat, r': nat, suppliers: nat)
    requires suppliers >= 1
  {
    r / 4 == r' / 4 && SuppOfRow(r, suppliers) == SuppOfRow(r', suppliers)
  }

  /** Whole parts: all pairs are distinct exactly when every part's step fits. */
  lemma {:induction false} PairsUniqueIff(parts: nat, suppliers: nat)
    requires 1 <= suppliers < 0x8000_0000 && parts <= 0x8000_0000
    ensures PairsUnique(4 * parts, suppliers)
       <==> forall partKey: nat :: partKey < parts ==> StepFits(partKey, suppliers)
  {
    forall partKey: nat | partKey < parts
      ensures FourDistinct(partKey, suppliers) <==> StepFits(partKey, suppliers)
      ensures PairsUnique(4 * parts, suppliers) ==> FourDistinct(partKey, suppliers)
    {
      FourDistinctIff(partKey, suppliers);
      if PairsUnique(4 * parts, suppliers) { PartUnique(parts, partKey, suppliers); }
    }
    if forall partKey: nat :: partKey < parts ==> FourDistinct(partKey, suppliers) {
      forall r: nat, r': nat | r < r' < 4 * parts ensures !SamePair(r, r', suppliers) {
        assert FourDistinct(r / 4, suppliers);
      }
    }
  }

  lemma {:induction false} PartUnique(parts: nat, partKey: nat, suppliers: nat)
    requires suppliers >= 1 && partKey < parts && PairsUnique(4 * parts, suppliers)
    ensures FourDistinct(partKey, suppliers)
  {
    forall i: nat, j: nat | i < j < 4
      ensures SuppKey(partKey, i, suppliers) != SuppKey(partKey, j, suppliers)
    {
      var r, r' := 4 * partKey + i, 4 * partKey + j;
      assert r / 4 == partKey && r % 4 == i && r' / 4 == partKey && r' % 4 == j;
      assert !SamePair(r, r', suppliers);
    }
  }
}
