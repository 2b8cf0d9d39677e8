/** The table sort (include/core/operators/radixsort.h, quicksort.h and sorting.h): a radix sort of one column by prefix
    sums over its bits, or the quicksort of its padded words, and the table sort that runs one of them column by column,
    last key first, composing the permutations. The result is the order the table operators rely on, with ties in their
    old order. */
module Sorting {
  import opened Bags
  import opened PrefixNetworks
  import opened Division
  import opened PrefixSums
  import Quicksort
  import opened Tables

  /** A value with the index it is padded with. */
  datatype Padded = Padded(value: int, rank: int)

  // ----- One bit -----

  ghost function Not<T>(p: T -> bool): T -> bool { x => !p(x) }

  /** The rows without the bit, then the rows with it, each part in its old order. */
  ghost function Partition<T>(v: seq<T>, bit: T -> bool): seq<T> {
    Select(v, Not(bit)) + Select(v, bit)
  }

  /** Where the bit sort sends element i: after the earlier elements of its half. */
  ghost function Place<T>(v: seq<T>, bit: T -> bool, i: nat): nat
    requires i < |v|
  {
    if bit(v[i]) then |Select(v, Not(bit))| + CountUpTo(v, bit, i) else CountUpTo(v, Not(bit), i)
  }

  lemma {:induction false} PlaceHolds<T>(v: seq<T>, bit: T -> bool, i: nat)
    requires i < |v|
    ensures Place(v, bit, i) < |Partition(v, bit)| && Partition(v, bit)[Place(v, bit, i)] == v[i]
  {
    if bit(v[i]) { SelectPlace(v, bit, i); } else { SelectPlace(v, Not(bit), i); }
  }

  lemma {:induction false} PlaceCovers<T>(v: seq<T>, bit: T -> bool, k: nat) returns (i: nat)
    requires k < |Partition(v, bit)|
    ensures i < |v| && Place(v, bit, i) == k
  {
    var zeros := |Select(v, Not(bit))|;
    if k < zeros { i := PlaceTaken(v, Not(bit), k); } else { i := PlaceTaken(v, bit, k - zeros); }
  }

  lemma {:induction false} PartitionPerm<T>(v: seq<T>, bit: T -> bool)
    ensures Perm(Partition(v, bit), v) && |Partition(v, bit)| == |v|
  {
    if v != [] {
      PartitionPerm(v[..|v| - 1], bit);
      LastSplit(v);
    }
    PermLength(Partition(v, bit), v);
  }

  // ----- The bit permutation by prefix sums -----

  ghost function Zeros(f: seq<int>, i: nat): int
    requires i <= |f|
  {
    if i == 0 then 0 else Zeros(f, i - 1) + (1 - f[i - 1])
  }

  ghost function Ones(f: seq<int>, i: nat): int
    requires i <= |f|
  {
    if i == 0 then 0 else Ones(f, i - 1) + f[i - 1]
  }

  /** Both halves at once: 1 - f, then f, the first cell lowered by one. */
  ghost predicate Halves(f: seq<int>, s: seq<int>) {
    && |f| >= 1 && |s| == 2 * |f|
    && (forall i :: 0 <= i < |f| ==> s[i] == 1 - f[i] - (if i == 0 then 1 else 0))
    && (forall i :: 0 <= i < |f| ==> s[|f| + i] == f[i])
  }

  lemma {:induction false} FirstHalf(f: seq<int>, s: seq<int>, i: nat)
    requires Halves(f, s) && 1 <= i <= |f|
    ensures SumTo(s, i) == Zeros(f, i) - 1
  {
    if i > 1 { FirstHalf(f, s, i - 1); } else { assert SumTo(s, 0) == 0 && Zeros(f, 0) == 0; }
  }

  lemma {:induction false} SecondHalf(f: seq<int>, s: seq<int>, i: nat)
    requires Halves(f, s) && i <= |f|
    ensures SumTo(s, |f| + i) == Zeros(f, |f|) + Ones(f, i) - 1
  {
    if i == 0 {
      FirstHalf(f, s, |f|);
    } else {
      SecondHalf(f, s, i - 1);
      assert s[|f| + i - 1] == s[|f| + (i - 1)] == f[i - 1];
    }
  }

  /** Where the prefix sums send element i. */
  ghost function Destination(f: seq<int>, i: nat): int
    requires i < |f|
  {
    (if f[i] == 1 then Zeros(f, |f|) + Ones(f, i + 1) else Zeros(f, i + 1)) - 1
  }

  lemma {:induction false} Multiplexed(f: seq<int>, s: seq<int>, sums: seq<int>, i: nat)
    requires Halves(f, s) && |sums| == |s| && i < |f| && (f[i] == 0 || f[i] == 1)
    requires forall j :: 0 <= j < |s| ==> sums[j] == SumTo(s, j + 1)
    ensures sums[i] + f[i] * (sums[|f| + i] - sums[i]) == Destination(f, i)
  {
    FirstHalf(f, s, i + 1);
    SecondHalf(f, s, i + 1);
    assert sums[|f| + i] == SumTo(s, |f| + (i + 1));
  }

  /** The prefix sums over both halves. */
  method HalfSums(f: seq<int>) returns (sums: seq<int>, ghost halves: seq<int>)
    requires |f| >= 1
    ensures Halves(f, halves) && |sums| == |halves| && forall j :: 0 <= j < |halves| ==> sums[j] == SumTo(halves, j + 1)
  {
    var n := |f|;
    var s := new int[2 * n](i requires 0 <= i < 2 * n && n == |f| => if i < n then 1 - f[i] else f[i - n]);
    s[0] := s[0] - 1;
    halves := s[..];
    PrefixSum(s);
    sums := s[..];
  }

  /** The destinations of all elements: zeros in front, then ones, multiplexed by the bit itself. */
  method BitPermutation(f: seq<int>) returns (dest: seq<int>)
    requires |f| >= 1 && forall i :: 0 <= i < |f| ==> f[i] == 0 || f[i] == 1
    ensures |dest| == |f| && forall i :: 0 <= i < |f| ==> dest[i] == Destination(f, i)
  {
    var sums, halves := HalfSums(f);
    dest := seq(|f|, i requires 0 <= i < |f| && |sums| == 2 * |f| => sums[i] + f[i] * (sums[|f| + i] - sums[i]));
    forall i | 0 <= i < |f| ensures dest[i] == Destination(f, i) {
      Multiplexed(f, halves, sums, i);
    }
  }

  lemma {:induction false} CountBits<T>(v: seq<T>, bit: T -> bool, f: seq<int>, i: nat)
    requires |f| == |v| && i <= |v| && forall j :: 0 <= j < |v| ==> f[j] == if bit(v[j]) then 1 else 0
    ensures Ones(f, i) == CountUpTo(v, bit, i) && Zeros(f, i) == CountUpTo(v, Not(bit), i)
  {
    if i > 0 {
      CountBits(v, bit, f, i - 1);
      assert v[..i][..i - 1] == v[..i - 1];
    }
  }

  /** Prefix sums of the bits send every element to its place. */
  lemma {:induction false} DestinationIsPlace<T>(v: seq<T>, bit: T -> bool, f: seq<int>, i: nat)
    requires |f| == |v| && i < |v| && forall j :: 0 <= j < |v| ==> f[j] == if bit(v[j]) then 1 else 0
    ensures Destination(f, i) == Place(v, bit, i)
  {
    CountBits(v, bit, f, i + 1);
    CountBits(v, bit, f, |v|);
    assert v[..|v|] == v;
    if bit(v[i]) { SelectPlace(v, bit, i); } else { SelectPlace(v, Not(bit), i); }
  }

  /** local_apply_perm: element i goes to cell dest[i]. */
  method BitSort<T(0)>(v: array<T>, bit: T -> bool)
    requires v.Length >= 1
    modifies v
    ensures v[..] == Partition(old(v[..]), bit)
  {
    ghost var was := v[..];
    var n, before := v.Length, v[..];
    var f := seq(n, i requires 0 <= i < n && n == |before| => if bit(before[i]) then 1 else 0);
    var dest := BitPermutation(f);
    PartitionPerm(was, bit);
    forall i | 0 <= i < n ensures dest[i] == Place(was, bit, i) < n && Partition(was, bit)[dest[i]] == was[i] {
      DestinationIsPlace(was, bit, f, i);
      PlaceHolds(was, bit, i);
    }
    for i := 0 to n
      invariant forall j :: 0 <= j < i ==> v[dest[j]] == was[j]
    {
      assert forall j :: 0 <= j < i && dest[j] == dest[i] ==> was[j] == was[i];
      v[dest[i]] := before[i];
    }
    forall k | 0 <= k < n ensures v[k] == Partition(was, bit)[k] {
      var i := PlaceCovers(was, bit, k);
      assert v[dest[i]] == was[i];
    }
  }

  // ----- All bits of one column -----

  /** Bit i of a two's-complement value. */
  predicate Bit(x: int, i: nat) { (x / Exp2(i)) % 2 == 1 }

  function Low(x: int, i: nat): int { x % Exp2(i) }

  lemma {:induction false} LowStep(x: int, i: nat)
    ensures Low(x, i + 1) == Low(x, i) + (if Bit(x, i) then Exp2(i) else 0)
    ensures 0 <= Low(x, i) < Exp2(i)
  {
    var p := Exp2(i);
    var q, r := x / p, x % p;
    var h, b := q / 2, q % 2;
    assert x == p * q + r && q == 2 * h + b;
    HalfStep(x, p, q, r, h, b);
    DivideIs(x, 2 * p, h, p * b + r);
    assert b == 0 || b == 1;
  }

  lemma {:induction false} HalfStep(x: int, p: int, q: int, r: int, h: int, b: int)
    requires x == p * q + r && q == 2 * h + b
    ensures x == (2 * p) * h + (p * b + r)
  {
    assert p * (2 * h + b) == (2 * p) * h + p * b;
  }

  /** Sorted on key, ties by rank. */
  ghost predicate Ordered(v: seq<Padded>, key: Padded -> int) {
    forall a, b :: 0 <= a < b < |v| ==> InOrder(v[a], v[b], key)
  }

  ghost predicate InOrder(x: Padded, y: Padded, key: Padded -> int) {
    key(x) < key(y) || (key(x) == key(y) && x.rank < y.rank)
  }

  lemma {:induction false} SelectOrdered(v: seq<Padded>, key: Padded -> int, p: Padded -> bool)
    requires Ordered(v, key)
    ensures Ordered(Select(v, p), key)
  {
    if v != [] {
      var n := |v| - 1;
      SelectOrdered(v[..n], key, p);
      forall x | x in Select(v[..n], p) ensures InOrder(x, v[n], key) {
        SelectMember(v[..n], p, x);
        var a :| 0 <= a < n && v[a] == x;
      }
    }
  }

  /** Partitioning on the next bit extends the order by that bit. */
  lemma {:induction false} PartitionOrdered(v: seq<Padded>, key: Padded -> int, bit: Padded -> bool,
                                            next: Padded -> int, step: int)
    requires Ordered(v, key)
    requires forall x :: x in v ==> 0 <= key(x) < step && next(x) == key(x) + if bit(x) then step else 0
    ensures Ordered(Partition(v, bit), next)
  {
    var zero, one := Select(v, Not(bit)), Select(v, bit);
    SelectOrdered(v, key, Not(bit));
    SelectOrdered(v, key, bit);
    forall x ensures (x in zero <==> x in v && !bit(x)) && (x in one <==> x in v && bit(x)) {
      SelectMember(v, Not(bit), x);
      SelectMember(v, bit, x);
    }
    var w := Partition(v, bit);
    forall a, b | 0 <= a < b < |w| ensures InOrder(w[a], w[b], next) {
      if b < |zero| {
        assert InOrder(zero[a], zero[b], key) && zero[a] in zero && zero[b] in zero;
      } else if a >= |zero| {
        assert InOrder(one[a - |zero|], one[b - |zero|], key) && one[a - |zero|] in one && one[b - |zero|] in one;
      } else {
        assert zero[a] in zero && one[b - |zero|] in one;
      }
    }
  }

  ghost function LowKey(i: nat): Padded -> int { (x: Padded) => Low(x.value, i) }
  ghost function ValueKey(): Padded -> int { (x: Padded) => x.value }

  /** The bit that step i of a sort on `bits` bits uses: the sign bit of a full-width sort is inverted. */
  function StepBit(i: nat, bits: nat, full: bool): Padded -> bool {
    (x: Padded) => if full && i == bits - 1 then !Bit(x.value, i) else Bit(x.value, i)
  }

  /** The values a sort on `bits` bits can tell apart: signed in full width, unsigned otherwise. */
  predicate FitsBits(x: int, bits: nat, full: bool) {
    bits >= 1 && if full then 0 - Exp2(bits - 1) <= x < Exp2(bits - 1) else 0 <= x < Exp2(bits)
  }

  /** In full width exactly the words. */
  lemma {:induction false} WordsFit(x: int, bits: nat)
    ensures FitsBits(x, bits, true) <==> IsWord(x, bits)
  {
  }

  lemma {:induction false} SignBit(x: int, bits: nat)
    requires bits >= 1 && 0 - Exp2(bits - 1) <= x < Exp2(bits - 1)
    ensures Low(x, bits - 1) + (if Bit(x, bits - 1) then 0 else Exp2(bits - 1)) == x + Exp2(bits - 1)
  {
    var p := Exp2(bits - 1);
    if x >= 0 { DivideIs(x, p, 0, x); } else { DivideIs(x, p, -1, x + p); }
  }

  lemma {:induction false} LastStep(v: seq<Padded>, bits: nat, full: bool)
    requires bits >= 1 && Ordered(v, LowKey(bits - 1)) && forall x :: x in v ==> FitsBits(x.value, bits, full)
    ensures Ordered(Partition(v, StepBit(bits - 1, bits, full)), ValueKey())
  {
    var p := Exp2(bits - 1);
    var bit := StepBit(bits - 1, bits, full);
    var shift := if full then p else 0;
    var next := (x: Padded) => x.value + shift;
    forall x | x in v ensures 0 <= LowKey(bits - 1)(x) < p && next(x) == LowKey(bits - 1)(x) + if bit(x) then p else 0 {
      LowStep(x.value, bits - 1);
      if full {
        SignBit(x.value, bits);
      } else {
        DivideIs(x.value, Exp2(bits), 0, x.value);
      }
    }
    PartitionOrdered(v, LowKey(bits - 1), bit, next, p);
    var w := Partition(v, bit);
    forall a, b | 0 <= a < b < |w| ensures InOrder(w[a], w[b], ValueKey()) {
      assert InOrder(w[a], w[b], next);
    }
  }

  lemma {:induction false} MiddleStep(v: seq<Padded>, i: nat, bits: nat, full: bool)
    requires i < bits - 1 && Ordered(v, LowKey(i))
    ensures Ordered(Partition(v, StepBit(i, bits, full)), LowKey(i + 1))
  {
    forall x | x in v
      ensures 0 <= LowKey(i)(x) < Exp2(i)
      ensures LowKey(i + 1)(x) == LowKey(i)(x) + if StepBit(i, bits, full)(x) then Exp2(i) else 0
    {
      LowStep(x.value, i);
    }
    PartitionOrdered(v, LowKey(i), StepBit(i, bits, full), LowKey(i + 1), Exp2(i));
  }

  lemma {:induction false} FirstStep(v: seq<Padded>)
    requires forall a, b :: 0 <= a < b < |v| ==> v[a].rank < v[b].rank
    ensures Ordered(v, LowKey(0))
  {
  }

  /** radix_sort_body: from the lowest bit up, in place. */
  method RadixSort(v: array<Padded>, bits: nat, full: bool)
    requires v.Length >= 1 && bits >= 1
    requires forall i :: 0 <= i < v.Length ==> FitsBits(v[i].value, bits, full)
    requires forall a, b :: 0 <= a < b < v.Length ==> v[a].rank < v[b].rank
    modifies v
    ensures Perm(v[..], old(v[..])) && Ordered(v[..], ValueKey())
  {
    ghost var was := v[..];
    FirstStep(was);
    for i := 0 to bits
      invariant Perm(v[..], was)
      invariant Ordered(v[..], if i < bits then LowKey(i) else ValueKey())
    {
      ghost var before := v[..];
      BitSort(v, StepBit(i, bits, full));
      PartitionPerm(before, StepBit(i, bits, full));
      if i < bits - 1 {
        MiddleStep(before, i, bits, full);
      } else {
        forall x | x in before ensures FitsBits(x.value, bits, full) {
          PermMember(before, was, x);
        }
        LastStep(before, bits, full);
      }
    }
  }

  // ----- One column, either direction -----

  ghost predicate ColumnBefore(values: seq<int>, desc: bool, x: nat, y: nat)
    requires x < |values| && y < |values|
  {
    (if desc then values[x] > values[y] else values[x] < values[y]) || (values[x] == values[y] && x < y)
  }

  /** src lists all rows in column order, ties in row order. */
  ghost predicate Sorts(values: seq<int>, desc: bool, src: seq<nat>) {
    && |src| == |values| && (forall k :: 0 <= k < |src| ==> src[k] < |values|)
    && (forall x :: 0 <= x < |values| ==> x in src)
    && (forall a, b :: 0 <= a < b < |src| ==> ColumnBefore(values, desc, src[a], src[b]))
  }

  function RankOf(k: int, desc: bool): int { if desc then -1 - k else k }

  /** pad_input: reversed for a descending sort. */
  function PadInput(values: seq<int>, desc: bool): seq<Padded> {
    var n := |values|;
    seq(n, p requires 0 <= p < n && n == |values| =>
      var k := if desc then n - 1 - p else p;
      Padded(values[k], RankOf(k, desc)))
  }

  /** x is the padded form of the row its rank names. */
  ghost predicate PaddedRow(values: seq<int>, desc: bool, x: Padded) {
    0 <= RankOf(x.rank, desc) < |values| && x.value == values[RankOf(x.rank, desc)]
  }

  lemma {:induction false} PaddedRows(values: seq<int>, desc: bool, w: seq<Padded>)
    requires Perm(w, PadInput(values, desc))
    ensures |w| == |values| && forall j :: 0 <= j < |w| ==> PaddedRow(values, desc, w[j])
    ensures forall k :: 0 <= k < |values| ==> Padded(values[k], RankOf(k, desc)) in w
  {
    var v, n := PadInput(values, desc), |values|;
    PermLength(w, v);
    forall j | 0 <= j < |w| ensures PaddedRow(values, desc, w[j]) {
      assert w[j] in w;
      PermMember(w, v, w[j]);
    }
    forall k | 0 <= k < n ensures Padded(values[k], RankOf(k, desc)) in w {
      assert v[if desc then n - 1 - k else k] == Padded(values[k], RankOf(k, desc));
      PermMember(w, v, Padded(values[k], RankOf(k, desc)));
    }
  }

  /** Where the k-th row of the result stands, from the end for a descending sort. */
  function Slot(k: int, n: int, desc: bool): int { if desc then n - 1 - k else k }

  lemma {:induction false} UnpaddedBefore(values: seq<int>, desc: bool, w: seq<Padded>, a: nat, b: nat, x: nat, y: nat)
    requires Ordered(w, ValueKey()) && a < b < |w|
    requires PaddedRow(values, desc, w[Slot(a, |w|, desc)]) && PaddedRow(values, desc, w[Slot(b, |w|, desc)])
    requires x == RankOf(w[Slot(a, |w|, desc)].rank, desc) && y == RankOf(w[Slot(b, |w|, desc)].rank, desc)
    ensures ColumnBefore(values, desc, x, y)
  {
    var p, q := if desc then Slot(b, |w|, desc) else a, if desc then Slot(a, |w|, desc) else b;
    assert InOrder(w[p], w[q], ValueKey());
  }

  /** Reading the indices off the sorted rows. */
  lemma {:induction false} UnpaddedSorts(values: seq<int>, desc: bool, w: seq<Padded>, src: seq<nat>)
    requires Perm(w, PadInput(values, desc)) && Ordered(w, ValueKey()) && |src| == |w|
    requires forall k :: 0 <= k < |src| ==> src[k] == RankOf(w[Slot(k, |w|, desc)].rank, desc)
    ensures Sorts(values, desc, src)
  {
    PaddedRows(values, desc, w);
    var n := |w|;
    forall k | 0 <= k < n ensures PaddedRow(values, desc, w[Slot(k, n, desc)]) && src[k] < |values| {
      assert PaddedRow(values, desc, w[Slot(k, n, desc)]);
    }
    forall a, b | 0 <= a < b < n ensures ColumnBefore(values, desc, src[a], src[b]) {
      UnpaddedBefore(values, desc, w, a, b, src[a], src[b]);
    }
    forall x | 0 <= x < |values| ensures x in src {
      assert Padded(values[x], RankOf(x, desc)) in w;
      var j :| 0 <= j < n && w[j] == Padded(values[x], RankOf(x, desc));
      assert Slot(Slot(j, n, desc), n, desc) == j;
      assert src[Slot(j, n, desc)] == x;
    }
  }

  /** The ranks are the indices of the rows in listing order. */
  function Unpadded(w: seq<Padded>, desc: bool): (src: seq<nat>)
    requires forall j :: 0 <= j < |w| ==> RankOf(w[j].rank, desc) >= 0
    ensures |src| == |w| && forall k :: 0 <= k < |w| ==> src[k] == RankOf(w[Slot(k, |w|, desc)].rank, desc)
  {
    seq(|w|, k requires 0 <= k < |w| => RankOf(w[Slot(k, |w|, desc)].rank, desc))
  }

  /** radix_sort: pad, sort, unpad. */
  method SortColumn(values: seq<int>, desc: bool, bits: nat, full: bool) returns (src: seq<nat>)
    requires |values| >= 1 && forall k :: 0 <= k < |values| ==> FitsBits(values[k], bits, full)
    ensures Sorts(values, desc, src)
  {
    var padded := PadInput(values, desc);
    var v := new Padded[|padded|](i requires 0 <= i < |padded| => padded[i]);
    assert v[..] == padded;
    assert FitsBits(values[0], bits, full);
    RadixSort(v, bits, full);
    PaddedRows(values, desc, v[..]);
    forall j | 0 <= j < v.Length ensures RankOf(v[j].rank, desc) >= 0 {
      assert PaddedRow(values, desc, v[..][j]);
    }
    src := Unpadded(v[..], desc);
    UnpaddedSorts(values, desc, v[..], src);
  }

  // ----- The column by quicksort -----

  const PAD := 0x1_0000_0000

  /** Indices are 32-bit signed integers. */
  const MAX_ROWS := 0x8000_0000

  /** The padded word: the value above, the low 32 bits of the index below. */
  function Code(x: Padded): int { x.value * PAD + x.rank % PAD }

  /** The value and the index back; the indices of a descending sort are negative. */
  function Decode(desc: bool): int -> Padded {
    code => Padded(code / PAD, if desc then code % PAD - PAD else code % PAD)
  }

  lemma {:induction false} DecodeCode(x: Padded, desc: bool)
    requires if desc then -PAD <= x.rank < 0 else 0 <= x.rank < PAD
    ensures Decode(desc)(Code(x)) == x
  {
    var low := if desc then x.rank + PAD else x.rank;
    DivideIs(x.rank, PAD, if desc then -1 else 0, low);
    DivideIs(Code(x), PAD, x.value, low);
  }

  lemma {:induction false} PadInputCodes(values: seq<int>, desc: bool)
    requires |values| <= MAX_ROWS
    ensures Map(Map(PadInput(values, desc), Code), Decode(desc)) == PadInput(values, desc)
  {
    var padded := PadInput(values, desc);
    forall i | 0 <= i < |padded| ensures Decode(desc)(Code(padded[i])) == padded[i] {
      DecodeCode(padded[i], desc);
    }
  }

  lemma {:induction false} CodeOrder(a: int, b: int, desc: bool)
    requires a <= b && Decode(desc)(a) != Decode(desc)(b)
    ensures InOrder(Decode(desc)(a), Decode(desc)(b), ValueKey())
  {
    var q, r := a / PAD, b / PAD;
    assert a == PAD * q + a % PAD && b == PAD * r + b % PAD;
  }

  /** Sorted codes are the padded rows in order, no two alike. */
  lemma {:induction false} CodesOrdered(values: seq<int>, desc: bool, codes: seq<int>, w: seq<Padded>)
    requires |values| <= MAX_ROWS && w == Map(codes, Decode(desc))
    requires Perm(codes, Map(PadInput(values, desc), Code)) && Quicksort.Ascending(codes)
    ensures Perm(w, PadInput(values, desc)) && Ordered(w, ValueKey())
  {
    var padded := PadInput(values, desc);
    MapPerm(codes, Map(padded, Code), Decode(desc));
    PadInputCodes(values, desc);
    forall i, j | 0 <= i < j < |padded| ensures Itself(padded[i]) != Itself(padded[j]) {
      assert padded[i].rank != padded[j].rank;
    }
    UniquePerm(padded, w, Itself);
    forall a, b | 0 <= a < b < |w| ensures InOrder(w[a], w[b], ValueKey()) {
      assert Itself(w[a]) != Itself(w[b]) && codes[a] <= codes[b];
      CodeOrder(codes[a], codes[b], desc);
    }
  }

  /** quicksort: pad, sort the words, unpad. */
  method QuicksortColumn(values: seq<int>, desc: bool) returns (src: seq<nat>)
    requires 1 <= |values| <= MAX_ROWS
    ensures Sorts(values, desc, src)
  {
    var padded := PadInput(values, desc);
    var codes := Map(padded, Code);
    var v := new int[|codes|](i requires 0 <= i < |codes| => codes[i]);
    assert v[..] == codes;
    Quicksort.QuicksortBody(v);
    var w := Map(v[..], Decode(desc));
    CodesOrdered(values, desc, v[..], w);
    PaddedRows(values, desc, w);
    forall j | 0 <= j < |w| ensures RankOf(w[j].rank, desc) >= 0 {
      assert PaddedRow(values, desc, w[j]);
    }
    src := Unpadded(w, desc);
    UnpaddedSorts(values, desc, w, src);
  }

  /** sort_sub: single-bit columns by one radix step, all others by the chosen protocol. */
  method SortOne(values: seq<int>, desc: bool, bits: nat, full: bool, quick: bool) returns (src: seq<nat>)
    requires |values| >= 1 && forall k :: 0 <= k < |values| ==> FitsBits(values[k], bits, full)
    requires quick ==> |values| <= MAX_ROWS
    ensures Sorts(values, desc, src)
  {
    if full && quick {
      src := QuicksortColumn(values, desc);
    } else {
      src := SortColumn(values, desc, bits, full);
    }
  }

  // ----- Permutations -----

  /** dest sends every row to its place, src says which row a place holds. */
  ghost predicate Inverse(dest: seq<nat>, src: seq<nat>) {
    && |dest| == |src|
    && (forall k :: 0 <= k < |src| ==> src[k] < |dest| && dest[src[k]] == k)
    && (forall x :: 0 <= x < |dest| ==> dest[x] < |src| && src[dest[x]] == x)
  }

  ghost predicate Distinct(src: seq<nat>) {
    && (forall k :: 0 <= k < |src| ==> src[k] < |src|)
    && (forall a, b :: 0 <= a < b < |src| ==> src[a] != src[b])
    && (forall x :: 0 <= x < |src| ==> x in src)
  }

  method Invert(src: seq<nat>) returns (dest: seq<nat>)
    requires Distinct(src)
    ensures Inverse(dest, src)
  {
    var n := |src|;
    var d := new nat[n](_ => 0);
    for k := 0 to n
      invariant forall j :: 0 <= j < k ==> d[src[j]] == j
    {
      d[src[k]] := k;
    }
    dest := d[..];
    forall x | 0 <= x < n ensures dest[x] < n && src[dest[x]] == x {
      assert x in src;
      var k :| 0 <= k < n && src[k] == x;
    }
  }

  /** Applying a permutation: element x goes to cell dest[x]. */
  method Apply<T(0)>(v: seq<T>, dest: seq<nat>, ghost src: seq<nat>) returns (out: seq<T>)
    requires |v| == |dest| >= 1 && Inverse(dest, src)
    ensures |out| == |v| && forall k :: 0 <= k < |v| ==> out[k] == v[src[k]]
  {
    var n := |v|;
    var cells := new T[n](_ => v[0]);
    for x := 0 to n
      invariant forall y :: 0 <= y < x ==> cells[dest[y]] == v[y]
    {
      assert forall y :: 0 <= y < x ==> src[dest[y]] != src[dest[x]];
      cells[dest[x]] := v[x];
    }
    out := cells[..];
    forall k | 0 <= k < n ensures out[k] == v[src[k]] {
      assert dest[src[k]] == k;
    }
  }

  function Compose(sigma: seq<nat>, rho: seq<nat>): seq<nat>
    requires forall x :: 0 <= x < |sigma| ==> sigma[x] < |rho|
  {
    seq(|sigma|, x requires 0 <= x < |sigma| => rho[sigma[x]])
  }

  ghost function After(src: seq<nat>, next: seq<nat>): seq<nat>
    requires forall k :: 0 <= k < |next| ==> next[k] < |src|
  {
    seq(|next|, k requires 0 <= k < |next| => src[next[k]])
  }

  lemma {:induction false} ComposeInverse(sigma: seq<nat>, src: seq<nat>, rho: seq<nat>, next: seq<nat>)
    requires Inverse(sigma, src) && Inverse(rho, next) && |sigma| == |rho|
    ensures Inverse(Compose(sigma, rho), After(src, next))
  {
    var c, s := Compose(sigma, rho), After(src, next);
    forall k | 0 <= k < |s| ensures s[k] < |c| && c[s[k]] == k {
      assert sigma[src[next[k]]] == next[k];
    }
    forall x | 0 <= x < |c| ensures c[x] < |s| && s[c[x]] == x {
      assert next[rho[sigma[x]]] == sigma[x];
    }
  }

  // ----- All key columns -----

  /** Row x comes before row y in the columns from c on; rows equal in all of them keep their order. */
  ghost predicate Before(columns: seq<seq<int>>, desc: seq<bool>, c: nat, x: nat, y: nat)
    requires |desc| == |columns| && c <= |columns|
    requires forall j :: 0 <= j < |columns| ==> x < |columns[j]| && y < |columns[j]|
    decreases |columns| - c
  {
    if c == |columns| then x < y
    else
      || (if desc[c] then columns[c][x] > columns[c][y] else columns[c][x] < columns[c][y])
      || (columns[c][x] == columns[c][y] && Before(columns, desc, c + 1, x, y))
  }

  /** src lists all rows in the order of the columns from c on. */
  ghost predicate SortsFrom(columns: seq<seq<int>>, desc: seq<bool>, c: nat, n: nat, src: seq<nat>)
    requires |desc| == |columns| && c <= |columns| && forall j :: 0 <= j < |columns| ==> |columns[j]| == n
  {
    && |src| == n && (forall k :: 0 <= k < n ==> src[k] < n)
    && forall a, b :: 0 <= a < b < n ==> Before(columns, desc, c, src[a], src[b])
  }

  lemma {:induction false} SortsDistinct(values: seq<int>, desc: bool, src: seq<nat>)
    requires Sorts(values, desc, src)
    ensures Distinct(src)
  {
    forall a, b | 0 <= a < b < |src| ensures src[a] != src[b] {
      assert ColumnBefore(values, desc, src[a], src[b]);
    }
  }

  /** A stable sort on one more column in front extends the order. */
  lemma {:induction false} NextColumn(columns: seq<seq<int>>, desc: seq<bool>, c: nat, n: nat, src: seq<nat>,
                                      applied: seq<int>, next: seq<nat>)
    requires |desc| == |columns| && c < |columns| && forall j :: 0 <= j < |columns| ==> |columns[j]| == n
    requires SortsFrom(columns, desc, c + 1, n, src) && |applied| == n && Sorts(applied, desc[c], next)
    requires forall k :: 0 <= k < n ==> applied[k] == columns[c][src[k]]
    ensures SortsFrom(columns, desc, c, n, After(src, next))
  {
    var s := After(src, next);
    forall a, b | 0 <= a < b < n ensures Before(columns, desc, c, s[a], s[b]) {
      assert ColumnBefore(applied, desc[c], next[a], next[b]);
      if next[a] < next[b] {
        assert Before(columns, desc, c + 1, src[next[a]], src[next[b]]);
      }
    }
  }

  lemma {:induction false} LastColumn(columns: seq<seq<int>>, desc: seq<bool>, n: nat, src: seq<nat>)
    requires |desc| == |columns| >= 1 && forall j :: 0 <= j < |columns| ==> |columns[j]| == n
    requires Sorts(columns[|columns| - 1], desc[|columns| - 1], src)
    ensures SortsFrom(columns, desc, |columns| - 1, n, src)
  {
    var c := |columns| - 1;
    forall a, b | 0 <= a < b < n ensures Before(columns, desc, c, src[a], src[b]) {
      assert ColumnBefore(columns[c], desc[c], src[a], src[b]);
    }
  }

  /** One round: the column in the order so far, its sort, and both permutations composed. */
  method SortNext(column: seq<int>, perm: seq<nat>, ghost src: seq<nat>, desc: bool, bits: nat, full: bool,
                  quick: bool)
    returns (total: seq<nat>, ghost applied: seq<int>, ghost next: seq<nat>)
    requires |column| == |perm| >= 1 && Inverse(perm, src)
    requires forall k :: 0 <= k < |column| ==> FitsBits(column[k], bits, full)
    requires quick ==> |column| <= MAX_ROWS
    ensures |applied| == |column| && (forall k :: 0 <= k < |column| ==> applied[k] == column[src[k]])
    ensures Sorts(applied, desc, next) && Inverse(total, After(src, next))
  {
    var ordered := Apply(column, perm, src);
    var listed := SortOne(ordered, desc, bits, full, quick);
    SortsDistinct(ordered, desc, listed);
    var rho := Invert(listed);
    total := Compose(perm, rho);
    applied, next := ordered, listed;
    ComposeInverse(perm, src, rho, next);
  }

  /** table_sort: the last key column first, by quicksort or by radix sort. */
  method TableSort(columns: seq<seq<int>>, desc: seq<bool>, bits: seq<nat>, full: seq<bool>, n: nat, quick: bool)
    returns (perm: seq<nat>, ghost src: seq<nat>)
    requires n >= 1 && |columns| == |desc| == |bits| == |full| >= 1
    requires forall j :: 0 <= j < |columns| ==> |columns[j]| == n
    requires forall j, k :: 0 <= j < |columns| && 0 <= k < n ==> FitsBits(columns[j][k], bits[j], full[j])
    requires quick ==> n <= MAX_ROWS
    ensures Inverse(perm, src) && SortsFrom(columns, desc, 0, n, src)
    ensures |perm| == n && (forall x :: 0 <= x < n ==> perm[x] < n)
    ensures forall x, y :: 0 <= x < n && 0 <= y < n && perm[x] < perm[y] ==> Before(columns, desc, 0, x, y)
  {
    var c := |columns| - 1;
    var listed := SortOne(columns[c], desc[c], bits[c], full[c], quick);
    SortsDistinct(columns[c], desc[c], listed);
    LastColumn(columns, desc, n, listed);
    perm := Invert(listed);
    src := listed;
    while c > 0
      invariant 0 <= c < |columns| && Inverse(perm, src) && SortsFrom(columns, desc, c, n, src)
    {
      c := c - 1;
      ghost var applied, next;
      ghost var before := src;
      perm, applied, next := SortNext(columns[c], perm, src, desc[c], bits[c], full[c], quick);
      NextColumn(columns, desc, c, n, before, applied, next);
      src := After(before, next);
    }
    PlacesSorted(columns, desc, n, perm, src);
  }

  /** Read as destinations: a row sent to an earlier place comes before in the order. */
  lemma {:induction false} PlacesSorted(columns: seq<seq<int>>, desc: seq<bool>, n: nat, perm: seq<nat>, src: seq<nat>)
    requires |desc| == |columns| && forall j :: 0 <= j < |columns| ==> |columns[j]| == n
    requires Inverse(perm, src) && SortsFrom(columns, desc, 0, n, src)
    ensures |perm| == n && (forall x :: 0 <= x < n ==> perm[x] < n)
    ensures forall x, y :: 0 <= x < n && 0 <= y < n && perm[x] < perm[y] ==> Before(columns, desc, 0, x, y)
  {
    forall x, y | 0 <= x < n && 0 <= y < n && perm[x] < perm[y] ensures Before(columns, desc, 0, x, y) {
      assert src[perm[x]] == x && src[perm[y]] == y;
      assert Before(columns, desc, 0, src[perm[x]], src[perm[y]]);
    }
  }

  // ----- The contract of the table operators -----

  lemma {:induction false} InversePerm(dest: seq<nat>, src: seq<nat>)
    requires Inverse(dest, src)
    ensures Perm(src, UpTo(|src|))
  {
    forall a, b | 0 <= a < b < |src| ensures Itself(src[a]) != Itself(src[b]) {
      assert dest[src[a]] != dest[src[b]];
    }
    forall x ensures x in src <==> x in UpTo(|src|) {
      if x in UpTo(|src|) {
        assert src[dest[x]] == x;
      }
      if x in src {
        assert UpTo(|src|)[x] == x;
      }
    }
    SameListing(src, UpTo(|src|));
  }

  lemma {:induction false} AppliedPerm<R>(rows: seq<R>, out: seq<R>, dest: seq<nat>, src: seq<nat>)
    requires Inverse(dest, src) && |rows| == |src| == |out| >= 1
    requires forall k :: 0 <= k < |out| ==> out[k] == rows[src[k]]
    ensures Perm(out, rows)
  {
    var at := (i: nat) => if i < |rows| then rows[i] else rows[0];
    InversePerm(dest, src);
    MapPerm(src, UpTo(|src|), at);
    assert Map(src, at) == out;
    assert Map(UpTo(|src|), at) == rows;
  }

  /** Ascending columns in turn are the key order. */
  lemma {:induction false} BeforeIsLeq(columns: seq<seq<int>>, desc: seq<bool>, c: nat, x: nat, y: nat, kx: Key,
                                       ky: Key)
    requires |desc| == |columns| == |kx| == |ky| && c <= |columns|
    requires forall j :: 0 <= j < |columns| ==> x < |columns[j]| && y < |columns[j]|
    requires forall j :: 0 <= j < |columns| ==> !desc[j] && columns[j][x] == kx[j] && columns[j][y] == ky[j]
    requires Before(columns, desc, c, x, y)
    ensures Leq(kx[c..], ky[c..])
    decreases |columns| - c
  {
    if c < |columns| {
      assert kx[c..][1..] == kx[c + 1..] && ky[c..][1..] == ky[c + 1..];
      if columns[c][x] == columns[c][y] { BeforeIsLeq(columns, desc, c + 1, x, y, kx, ky); }
    }
  }

  ghost predicate Increasing(s: seq<nat>) { forall i, j :: 0 <= i < j < |s| ==> s[i] < s[j] }

  lemma {:induction false} SelectIncreasing(s: seq<nat>, p: nat -> bool)
    requires forall i, j :: 0 <= i < j < |s| && p(s[i]) && p(s[j]) ==> s[i] < s[j]
    ensures Increasing(Select(s, p))
  {
    if s != [] {
      var n := |s| - 1;
      SelectIncreasing(s[..n], p);
      forall x | x in Select(s[..n], p) && p(s[n]) ensures x < s[n] {
        SelectMember(s[..n], p, x);
        var i :| 0 <= i < n && s[i] == x;
        assert p(s[i]) && s[i] < s[n];
      }
      var front, all := Select(s[..n], p), Select(s, p);
      assert all == front + if p(s[n]) then [s[n]] else [];
      forall i, j | 0 <= i < j < |all| ensures all[i] < all[j] {
        assert front[i] in front;
      }
    }
  }

  lemma {:induction false} LargestLast(s: seq<nat>, t: seq<nat>)
    requires Increasing(s) && Increasing(t) && Perm(s, t) && s != [] && t != []
    ensures s[|s| - 1] <= t[|t| - 1]
  {
    var x := s[|s| - 1];
    PermMember(s, t, x);
    var i :| 0 <= i < |t| && t[i] == x;
  }

  lemma {:induction false} DropLast(s: seq<nat>, t: seq<nat>)
    requires Perm(s, t) && s != [] && t != [] && s[|s| - 1] == t[|t| - 1]
    ensures Perm(s[..|s| - 1], t[..|t| - 1])
  {
    LastSplit(s);
    LastSplit(t);
    var x := s[|s| - 1];
    assert multiset(s[..|s| - 1]) == multiset(s) - multiset{x};
    assert multiset(t[..|t| - 1]) == multiset(t) - multiset{x};
  }

  /** An increasing listing is determined by its elements. */
  lemma {:induction false} IncreasingSame(s: seq<nat>, t: seq<nat>)
    requires Increasing(s) && Increasing(t) && Perm(s, t)
    ensures s == t
  {
    PermLength(s, t);
    if s != [] {
      LargestLast(s, t);
      LargestLast(t, s);
      DropLast(s, t);
      IncreasingSame(s[..|s| - 1], t[..|t| - 1]);
    }
  }

  lemma {:induction false} UpToIncreasing(n: nat)
    ensures Increasing(UpTo(n))
  {
  }

  /** Rows with one key come out in row order. */
  lemma {:induction false} AppliedStable<R>(rows: seq<R>, out: seq<R>, dest: seq<nat>, src: seq<nat>, key: R -> Key,
                                            k: Key)
    requires Inverse(dest, src) && |rows| == |src| == |out| >= 1
    requires forall j :: 0 <= j < |out| ==> out[j] == rows[src[j]]
    requires forall i, j :: 0 <= i < j < |src| && key(rows[src[i]]) == key(rows[src[j]]) ==> src[i] < src[j]
    ensures WithKey(out, key, k) == WithKey(rows, key, k)
  {
    var at := (i: nat) => if i < |rows| then rows[i] else rows[0];
    var p := (i: nat) => i < |rows| && key(rows[i]) == k;
    InversePerm(dest, src);
    SelectPerm(src, UpTo(|src|), p);
    SelectIncreasing(src, p);
    UpToIncreasing(|src|);
    SelectIncreasing(UpTo(|src|), p);
    IncreasingSame(Select(src, p), Select(UpTo(|src|), p));
    SelectMap(src, at, KeyIs(key, k), p);
    SelectMap(UpTo(|src|), at, KeyIs(key, k), p);
    assert Map(src, at) == out;
    assert Map(UpTo(|src|), at) == rows;
  }

  /** Equal keys are ties, which keep their row order. */
  lemma {:induction false} BeforeTie(columns: seq<seq<int>>, desc: seq<bool>, c: nat, x: nat, y: nat)
    requires |desc| == |columns| && c <= |columns|
    requires forall j :: 0 <= j < |columns| ==> x < |columns[j]| && y < |columns[j]|
    requires Before(columns, desc, c, x, y) && forall j :: c <= j < |columns| ==> columns[j][x] == columns[j][y]
    ensures x < y
    decreases |columns| - c
  {
    if c < |columns| { BeforeTie(columns, desc, c + 1, x, y); }
  }

  /** Rows with key columns of w bits each, sorted ascending: what the operators assume of a sort. */
  method SortRows<R(0)>(rows: seq<R>, key: R -> Key, width: nat, w: nat, quick: bool) returns (out: seq<R>)
    requires |rows| >= 1 && width >= 1 && (quick ==> |rows| <= MAX_ROWS)
    requires forall r :: r in rows ==> |key(r)| == width && forall j :: 0 <= j < width ==> FitsBits(key(r)[j], w, true)
    ensures Perm(out, rows) && SortedBy(out, key) && Stable(rows, out, key)
  {
    var n := |rows|;
    var keys := Map(rows, key);
    forall k | 0 <= k < n ensures |keys[k]| == width && forall j :: 0 <= j < width ==> FitsBits(keys[k][j], w, true) {
      assert rows[k] in rows;
    }
    var columns := Transposed(keys, width);
    var desc := seq(width, _ => false);
    var perm, src := TableSort(columns, desc, seq(width, _ => w), seq(width, _ => true), n, quick);
    out := Apply(rows, perm, src);
    AppliedPerm(rows, out, perm, src);
    forall i, j | 0 <= i < j < n && key(rows[src[i]]) == key(rows[src[j]]) ensures src[i] < src[j] {
      assert keys[src[i]] == keys[src[j]];
      BeforeTie(columns, desc, 0, src[i], src[j]);
    }
    forall k ensures WithKey(out, key, k) == WithKey(rows, key, k) {
      AppliedStable(rows, out, perm, src, key, k);
    }
    forall a, b | 0 <= a <= b < n ensures Leq(key(out[a]), key(out[b])) {
      if a == b {
        LeqTotal(key(out[a]), key(out[a]));
      } else {
        var x, y := src[a], src[b];
        assert Before(columns, desc, 0, x, y);
        BeforeIsLeq(columns, desc, 0, x, y, keys[x], keys[y]);
        assert keys[x][0..] == key(out[a]) && keys[y][0..] == key(out[b]);
      }
    }
  }

  function Transposed(keys: seq<Key>, width: nat): (columns: seq<seq<int>>)
    requires forall k :: 0 <= k < |keys| ==> |keys[k]| == width
    ensures |columns| == width && forall j :: 0 <= j < width ==> |columns[j]| == |keys|
    ensures forall j, k :: 0 <= j < width && 0 <= k < |keys| ==> columns[j][k] == keys[k][j]
  {
    seq(width, j requires 0 <= j < width => seq(|keys|, k requires 0 <= k < |keys| => keys[k][j]))
  }
}
