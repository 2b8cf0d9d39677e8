/** The Brent-Kung prefix network (include/core/operators/prefix_network.h) as the aggregation
    operator drives it (include/core/operators/aggregation.h): every gate compares two key cells and,
    where they agree, folds the earlier value into the later one. */
module PrefixNetworks {

  // ----- What an aggregation column must hold at the end -----

  ghost predicate Associative<V(!new)>(op: (V, V) -> V) {
    forall a, b, c :: op(op(a, b), c) == op(a, op(b, c))
  }

  /** The keys equal to keys[j] that occur up to j form one unbroken run ending in j. */
  ghost predicate LeftConvex<K>(keys: seq<K>, j: nat)
    requires j < |keys|
  {
    forall i, k :: 0 <= i <= k <= j && keys[i] == keys[j] ==> keys[k] == keys[j]
  }

  /** op over the cells lo..j that belong to the run of j, left to right. */
  ghost function Segment<K, V>(keys: seq<K>, vals: seq<V>, op: (V, V) -> V, lo: nat, j: nat): V
    requires lo <= j < |keys| == |vals|
  {
    if lo < j && keys[j - 1] == keys[j] then op(Segment(keys, vals, op, lo, j - 1), vals[j]) else vals[j]
  }

  /** A segment splits at any inner cell; the left part counts only when it is in the same run. */
  lemma {:induction false} SegmentSplit<K, V(!new)>(keys: seq<K>, vals: seq<V>, op: (V, V) -> V, lo: nat, i: nat,
                                                    j: nat)
    requires lo <= i < j < |keys| == |vals|
    requires LeftConvex(keys, j) && Associative(op)
    ensures Segment(keys, vals, op, lo, j)
         == if keys[i] == keys[j] then op(Segment(keys, vals, op, lo, i), Segment(keys, vals, op, i + 1, j))
            else Segment(keys, vals, op, i + 1, j)
  {
    if i + 1 < j && keys[j - 1] == keys[j] {
      SegmentSplit(keys, vals, op, lo, i, j - 1);
    }
  }

  // ----- Sizes and positions of the network -----

  function Exp2(e: nat): (p: nat)
    ensures p >= 1
  {
    if e == 0 then 1 else 2 * Exp2(e - 1)
  }

  function BitWidth(n: nat): nat {
    if n == 0 then 0 else 1 + BitWidth(n / 2)
  }

  /** The number of reduce levels. */
  function HalfDepth(n: nat): nat
    requires n >= 1
  {
    BitWidth(n - 1)
  }

  /** The number of levels; -1 for a single row, where the source's own assertion stops the program. */
  function Depth(n: nat): int
    requires n >= 1
  {
    2 * HalfDepth(n) - 1
  }

  lemma {:induction false} BitWidthOfPower(e: nat)
    ensures BitWidth(Exp2(e) - 1) == e
  {
    if e > 0 {
      BitWidthOfPower(e - 1);
      assert (Exp2(e) - 1) / 2 == Exp2(e - 1) - 1;
    }
  }

  /** m is a multiple of 2^e. */
  ghost predicate Multiple(m: nat, e: nat) {
    e == 0 || (m % 2 == 0 && Multiple(m / 2, e - 1))
  }

  lemma {:induction false} MultipleStep(m: nat, e: nat)
    requires Multiple(m, e)
    ensures Multiple(m + Exp2(e), e)
    ensures m >= 1 ==> m >= Exp2(e) && Multiple(m - Exp2(e), e)
  {
    if e > 0 {
      MultipleStep(m / 2, e - 1);
      assert (m + Exp2(e)) / 2 == m / 2 + Exp2(e - 1);
      if m >= 1 { assert (m - Exp2(e)) / 2 == m / 2 - Exp2(e - 1); }
    }
  }

  /** Multiples of 2^e are 2^e apart. */
  lemma {:induction false} MultipleGap(m: nat, m': nat, e: nat)
    requires Multiple(m, e) && Multiple(m', e) && m < m'
    ensures m + Exp2(e) <= m'
  {
    if e > 0 { MultipleGap(m / 2, m' / 2, e - 1); }
  }

  lemma {:induction false} MultipleWeaken(m: nat, e: nat)
    requires Multiple(m, e + 1)
    ensures Multiple(m, e)
  {
    if e > 0 { MultipleWeaken(m / 2, e - 1); }
  }

  /** Of two neighbouring multiples of 2^e exactly one is a multiple of 2^(e+1). */
  lemma {:induction false} MultipleAlternate(m: nat, e: nat)
    requires Multiple(m, e)
    ensures Multiple(m, e + 1) <==> !Multiple(m + Exp2(e), e + 1)
  {
    if e > 0 {
      MultipleAlternate(m / 2, e - 1);
      assert (m + Exp2(e)) / 2 == m / 2 + Exp2(e - 1);
    }
  }

  lemma {:induction false} MultipleOfPower(e: nat, d: nat)
    requires e <= d
    ensures Multiple(Exp2(d), e) && Multiple(0, e)
  {
    if e > 0 {
      MultipleOfPower(e - 1, d - 1);
      assert Exp2(d) / 2 == Exp2(d - 1) && Exp2(d) % 2 == 0;
    }
  }

  /** How many cells the value at position m - 1 covers once the reduce levels below e have run. */
  ghost function Width(m: nat, e: nat): nat {
    if e == 0 then 1 else if Multiple(m, e) then Exp2(e) else Width(m, e - 1)
  }

  lemma {:induction false} WidthOfMultiple(m: nat, e: nat)
    requires m >= 1
    ensures 1 <= Width(m, e) <= m
    ensures Multiple(m, e) ==> Width(m, e) == Exp2(e)
  {
    if Multiple(m, e) { MultipleStep(m, e); } else { WidthOfMultiple(m, e - 1); }
  }

  // ----- The gates -----

  /** One gate as a step on the column: the cell at a is folded into the one at b when their keys agree. */
  ghost function GateStep<K, V>(keys: seq<K>, op: (V, V) -> V, cur: seq<V>, a: nat, b: nat): seq<V>
    requires a < b < |keys| == |cur|
  {
    cur[b := if keys[a] == keys[b] then op(cur[a], cur[b]) else cur[b]]
  }

  /** Cell j holds the segment that starts at lo(j), for every cell whose run is unbroken. */
  ghost predicate Covers<K, V>(keys: seq<K>, vals: seq<V>, op: (V, V) -> V, cur: seq<V>, lo: nat -> nat)
    requires |keys| == |vals| == |cur|
  {
    forall j {:trigger cur[j]} :: 0 <= j < |cur| && LeftConvex(keys, j) ==>
      lo(j) <= j && cur[j] == Segment(keys, vals, op, lo(j), j)
  }

  /** A gate from a, covering lo'(b)..a, to b, covering a + 1..b, makes b cover lo'(b)..b. */
  lemma {:induction false} GateCovers<K, V(!new)>(keys: seq<K>, vals: seq<V>, op: (V, V) -> V, cur: seq<V>,
                               a: nat, b: nat, lo: nat -> nat, lo': nat -> nat)
    requires a < b < |keys| == |vals| == |cur|
    requires Associative(op) && Covers(keys, vals, op, cur, lo)
    requires lo(b) == a + 1 && lo(a) == lo'(b) <= a
    requires forall j: nat :: j < |cur| && j != b ==> lo'(j) == lo(j)
    ensures Covers(keys, vals, op, GateStep(keys, op, cur, a, b), lo')
  {
    var next := GateStep(keys, op, cur, a, b);
    forall j: nat | j < |next| && LeftConvex(keys, j)
      ensures lo'(j) <= j && next[j] == Segment(keys, vals, op, lo'(j), j)
    {
      if j == b {
        SegmentSplit(keys, vals, op, lo'(b), a, b);
        assert cur[b] == Segment(keys, vals, op, a + 1, b);
        if keys[a] == keys[b] {
          assert LeftConvex(keys, a);
          assert cur[a] == Segment(keys, vals, op, lo(a), a);
        }
      } else {
        assert next[j] == cur[j];
      }
    }
  }

  // ----- The two phases -----

  /** Where cell j's segment starts in reduce level i, once the gates up to cell `done` have fired. */
  ghost function ReduceLo(i: nat, done: nat): nat -> nat {
    (j: nat) => Minus(j + 1, if Multiple(j + 1, i + 1) && j + 1 <= done then Exp2(i + 1) else Width(j + 1, i))
  }

  /** Where it starts in the distribute level of gap 2^i. */
  ghost function DistributeLo(i: nat, done: nat): nat -> nat {
    (j: nat) => if Multiple(j + 1, i + 1) || (Multiple(j + 1, i) && j + 1 <= done)
                then 0 else Minus(j + 1, Width(j + 1, i))
  }

  ghost function Minus(a: nat, b: nat): nat {
    if a < b then 0 else a - b
  }

  /** The cells of a reduce gate: both cover 2^i cells, and only the later one goes on. */
  lemma {:induction false} ReducePosition(i: nat, done: nat, a: nat, b: nat)
    requires Multiple(done, i + 1) && b + 1 == done + 2 * Exp2(i) && a + Exp2(i) == b
    ensures Multiple(b + 1, i + 1) && !Multiple(a + 1, i + 1)
    ensures Width(a + 1, i) == Width(b + 1, i) == Exp2(i)
  {
    MultipleStep(done, i + 1);
    MultipleWeaken(b + 1, i);
    MultipleStep(b + 1, i);
    MultipleAlternate(a + 1, i);
    WidthOfMultiple(b + 1, i);
    WidthOfMultiple(a + 1, i);
  }

  /** What the reduce gate into cell b = done + 2^(i+1) - 1 finds and leaves. */
  lemma {:induction false} ReduceStarts(i: nat, done: nat)
    requires Multiple(done, i + 1)
    ensures var b := done + Exp2(i + 1) - 1; var a := b - Exp2(i);
            a >= 0 && Multiple(b + 1, i + 1) && ReduceLo(i, done)(b) == a + 1 &&
            ReduceLo(i, done)(a) == ReduceLo(i, b + 1)(b) == done
  {
    ReducePosition(i, done, done + Exp2(i) - 1, done + 2 * Exp2(i) - 1);
  }

  lemma {:induction false} ReduceElsewhere(i: nat, done: nat, j: nat)
    requires Multiple(done, i + 1) && j != done + Exp2(i + 1) - 1
    ensures ReduceLo(i, done + Exp2(i + 1))(j) == ReduceLo(i, done)(j)
  {
    if Multiple(j + 1, i + 1) && done < j + 1 { MultipleGap(done, j + 1, i + 1); }
  }

  lemma {:induction false} ReduceGate<K, V(!new)>(keys: seq<K>, vals: seq<V>, op: (V, V) -> V, cur: seq<V>, i: nat,
                                                  done: nat, a: nat, b: nat)
    requires |keys| == |vals| == |cur| && Associative(op)
    requires Multiple(done, i + 1) && b + 1 == done + Exp2(i + 1) <= |cur| && a + Exp2(i) == b
    requires Covers(keys, vals, op, cur, ReduceLo(i, done))
    ensures Multiple(b + 1, i + 1)
    ensures Covers(keys, vals, op, GateStep(keys, op, cur, a, b), ReduceLo(i, b + 1))
  {
    ReduceStarts(i, done);
    forall j: nat | j < |cur| && j != b
      ensures ReduceLo(i, b + 1)(j) == ReduceLo(i, done)(j)
    {
      ReduceElsewhere(i, done, j);
    }
    GateCovers(keys, vals, op, cur, a, b, ReduceLo(i, done), ReduceLo(i, b + 1));
  }

  /** What the distribute gate into cell b = done + 2^(i+1) - 1 finds and leaves. */
  lemma {:induction false} DistributeStarts(i: nat, done: nat)
    requires done >= 1 && Multiple(done, i) && !Multiple(done, i + 1)
    ensures var b := done + Exp2(i + 1) - 1; var a := b - Exp2(i);
            Multiple(b + 1, i) && !Multiple(b + 1, i + 1) && DistributeLo(i, done)(b) == a + 1 &&
            DistributeLo(i, done)(a) == DistributeLo(i, b + 1)(b) == 0
  {
    var gap := Exp2(i);
    MultipleStep(done, i);
    MultipleStep(done + gap, i);
    MultipleAlternate(done, i);
    MultipleAlternate(done + gap, i);
    WidthOfMultiple(done + 2 * gap, i);
  }

  lemma {:induction false} DistributeElsewhere(i: nat, done: nat, j: nat)
    requires Multiple(done, i) && !Multiple(done, i + 1) && j != done + Exp2(i + 1) - 1
    ensures DistributeLo(i, done + Exp2(i + 1))(j) == DistributeLo(i, done)(j)
  {
    var m := j + 1;
    if Multiple(m, i) && !Multiple(m, i + 1) && done < m < done + Exp2(i + 1) {
      MultipleStep(done, i);
      MultipleAlternate(done, i);
      MultipleGap(done, m, i);
      if m != done + Exp2(i) { MultipleGap(done + Exp2(i), m, i); }
    }
  }

  lemma {:induction false} DistributeGate<K, V(!new)>(keys: seq<K>, vals: seq<V>, op: (V, V) -> V, cur: seq<V>, i: nat,
                                                      done: nat, a: nat, b: nat)
    requires |keys| == |vals| == |cur| && Associative(op)
    requires done >= 1 && Multiple(done, i) && !Multiple(done, i + 1)
    requires b + 1 == done + Exp2(i + 1) <= |cur| && a + Exp2(i) == b
    requires Covers(keys, vals, op, cur, DistributeLo(i, done))
    ensures Multiple(b + 1, i) && !Multiple(b + 1, i + 1)
    ensures Covers(keys, vals, op, GateStep(keys, op, cur, a, b), DistributeLo(i, b + 1))
  {
    DistributeStarts(i, done);
    forall j: nat | j < |cur| && j != b
      ensures DistributeLo(i, b + 1)(j) == DistributeLo(i, done)(j)
    {
      DistributeElsewhere(i, done, j);
    }
    GateCovers(keys, vals, op, cur, a, b, DistributeLo(i, done), DistributeLo(i, b + 1));
  }

  /** Two starting maps that agree on every cell describe the same column. */
  lemma {:induction false} CoversSame<K, V>(keys: seq<K>, vals: seq<V>, op: (V, V) -> V, cur: seq<V>, lo: nat -> nat,
                                            lo': nat -> nat)
    requires |keys| == |vals| == |cur| && Covers(keys, vals, op, cur, lo)
    requires forall j: nat :: j < |cur| ==> lo(j) == lo'(j)
    ensures Covers(keys, vals, op, cur, lo')
  {
  }

  /** When no room is left for another reduce gate, the next level's map describes the column. */
  lemma {:induction false} ReduceDone(i: nat, done: nat, n: nat, j: nat)
    requires Multiple(done, i + 1) && Multiple(n, i + 1) && n < done + Exp2(i + 1) && j < n
    ensures ReduceLo(i, done)(j) == ReduceLo(i + 1, 0)(j)
  {
    if done < n { MultipleGap(done, n, i + 1); }
  }

  /** When no room is left for another distribute gate of gap 2^i, its multiples are final. */
  lemma {:induction false} DistributeDone(i: nat, done: nat, n: nat, j: nat)
    requires Multiple(done, i) && !Multiple(done, i + 1) && n < done + Exp2(i + 1) && j < n
    ensures Multiple(j + 1, i) ==> DistributeLo(i, done)(j) == 0
    ensures i >= 1 ==> DistributeLo(i, done)(j) == DistributeLo(i - 1, Exp2(i - 1))(j)
  {
    var m := j + 1;
    if Multiple(m, i) && !Multiple(m, i + 1) && done < m {
      MultipleStep(done, i);
      MultipleAlternate(done, i);
      MultipleGap(done, m, i);
      if m != done + Exp2(i) { MultipleGap(done + Exp2(i), m, i); }
    }
    if i >= 1 {
      if Multiple(m, i + 1) { MultipleWeaken(m, i); }
      WidthOfMultiple(m, i);
      if Multiple(m, i - 1) { WidthOfMultiple(m, i - 1); }
    }
  }

  method Gate<K(==), V>(keys: seq<K>, op: (V, V) -> V, out: array<V>, a: nat, b: nat)
    requires a < b < |keys| == out.Length
    modifies out
    ensures out[..] == GateStep(keys, op, old(out[..]), a, b)
  {
    if keys[a] == keys[b] {
      out[b] := op(out[a], out[b]);
    }
  }

  /** One level from the gate into cell b on: gates of the given gap, two gaps apart. */
  ghost function Level<K, V>(keys: seq<K>, op: (V, V) -> V, cur: seq<V>, b: nat, gap: nat): (r: seq<V>)
    requires |keys| == |cur| && 1 <= gap <= b
    ensures |r| == |cur|
    decreases |cur| - b
  {
    if b >= |cur| then cur else Level(keys, op, GateStep(keys, op, cur, b - gap, b), b + 2 * gap, gap)
  }

  method RunLevel<K(==), V>(keys: seq<K>, op: (V, V) -> V, out: array<V>, first: nat, gap: nat)
    requires |keys| == out.Length && 1 <= gap <= first
    modifies out
    ensures out[..] == Level(keys, op, old(out[..]), first, gap)
  {
    var b := first;
    while b < out.Length
      invariant b >= gap && Level(keys, op, out[..], b, gap) == Level(keys, op, old(out[..]), first, gap)
      decreases out.Length - b
    {
      Gate(keys, op, out, b - gap, b);
      b := b + 2 * gap;
    }
  }

  /** Level i < HalfDepth(n): gap 2^i, left cells gap - 1, 3*gap - 1, ..., right cells 2*gap - 1, 4*gap - 1, ... */
  lemma {:induction false} ReduceLevel<K, V(!new)>(keys: seq<K>, vals: seq<V>, op: (V, V) -> V, cur: seq<V>, i: nat,
                                                   done: nat, b: nat)
    requires |keys| == |vals| == |cur| && Associative(op) && Multiple(|cur|, i + 1)
    requires Multiple(done, i + 1) && b + 1 == done + Exp2(i + 1)
    requires Covers(keys, vals, op, cur, ReduceLo(i, done))
    ensures Covers(keys, vals, op, Level(keys, op, cur, b, Exp2(i)), ReduceLo(i + 1, 0))
    decreases |cur| - b
  {
    var gap := Exp2(i);
    if b < |cur| {
      ReduceGate(keys, vals, op, cur, i, done, b - gap, b);
      ReduceLevel(keys, vals, op, GateStep(keys, op, cur, b - gap, b), i, b + 1, b + 2 * gap);
    } else {
      forall j: nat | j < |cur|
        ensures ReduceLo(i, done)(j) == ReduceLo(i + 1, 0)(j)
      {
        ReduceDone(i, done, |cur|, j);
      }
      CoversSame(keys, vals, op, cur, ReduceLo(i, done), ReduceLo(i + 1, 0));
    }
  }

  /** Every segment starts at the first cell: the column is final. */
  ghost function Start(j: nat): nat { 0 }

  /** The map the column must follow when `left` distribute levels are still to run. */
  ghost function ToDistribute(left: nat): nat -> nat {
    if left == 0 then Start else DistributeLo(left - 1, Exp2(left - 1))
  }

  lemma {:induction false} DistributeEnds<K, V>(keys: seq<K>, vals: seq<V>, op: (V, V) -> V, cur: seq<V>, i: nat,
                                                done: nat)
    requires |keys| == |vals| == |cur|
    requires Multiple(done, i) && !Multiple(done, i + 1) && |cur| < done + Exp2(i + 1)
    requires Covers(keys, vals, op, cur, DistributeLo(i, done))
    ensures Covers(keys, vals, op, cur, ToDistribute(i))
  {
    forall j: nat | j < |cur|
      ensures DistributeLo(i, done)(j) == ToDistribute(i)(j)
    {
      DistributeDone(i, done, |cur|, j);
    }
    CoversSame(keys, vals, op, cur, DistributeLo(i, done), ToDistribute(i));
  }

  lemma {:induction false} FirstDistributeGate(i: nat)
    ensures Multiple(Exp2(i), i) && !Multiple(Exp2(i), i + 1)
  {
    MultipleOfPower(i, i);
    MultipleOfPower(i + 1, i + 1);
    MultipleAlternate(0, i);
  }

  /** The level of gap 2^i on the way down: left cells 2*gap - 1, 4*gap - 1, ..., right cells 3*gap - 1, ... */
  lemma {:induction false} DistributeLevel<K, V(!new)>(keys: seq<K>, vals: seq<V>, op: (V, V) -> V, cur: seq<V>, i: nat,
                                                       done: nat, b: nat)
    requires |keys| == |vals| == |cur| && Associative(op)
    requires done >= 1 && Multiple(done, i) && !Multiple(done, i + 1) && b + 1 == done + Exp2(i + 1)
    requires Covers(keys, vals, op, cur, DistributeLo(i, done))
    ensures Covers(keys, vals, op, Level(keys, op, cur, b, Exp2(i)), ToDistribute(i))
    decreases |cur| - b
  {
    var gap := Exp2(i);
    if b < |cur| {
      DistributeGate(keys, vals, op, cur, i, done, b - gap, b);
      assert b + 2 * gap + 1 == b + 1 + Exp2(i + 1);
      var next := GateStep(keys, op, cur, b - gap, b);
      DistributeLevel(keys, vals, op, next, i, b + 1, b + 2 * gap);
      assert Level(keys, op, cur, b, gap) == Level(keys, op, next, b + 2 * gap, gap);
    } else {
      DistributeEnds(keys, vals, op, cur, i, done);
    }
  }

  /** Before any level: every cell covers itself. */
  lemma {:induction false} ReduceBegins<K, V>(keys: seq<K>, vals: seq<V>, op: (V, V) -> V)
    requires |keys| == |vals|
    ensures Covers(keys, vals, op, vals, ReduceLo(0, 0))
  {
  }

  /** After the last reduce level: a column of 2^d cells is ready for the distribute level of gap 2^(d-2). */
  lemma {:induction false} ReduceEnds(d: nat, j: nat)
    requires j < Exp2(d)
    ensures d <= 1 ==> ReduceLo(d, 0)(j) == 0
    ensures d >= 2 ==> ReduceLo(d, 0)(j) == DistributeLo(d - 2, Exp2(d - 2))(j)
  {
    var m := j + 1;
    MultipleOfPower(d, d);
    WidthOfMultiple(m, d);
    if Multiple(m, d) { MultipleGap(0, m, d); }
    if d >= 1 {
      MultipleOfPower(d - 1, d - 1);
      MultipleOfPower(d - 1, d);
      WidthOfMultiple(m, d - 1);
      if Multiple(m, d - 1) && m != Exp2(d) {
        MultipleGap(0, m, d - 1);
        MultipleGap(m, Exp2(d), d - 1);
      }
    }
    if d >= 2 {
      MultipleOfPower(d - 2, d - 2);
      WidthOfMultiple(m, d - 2);
      if Multiple(m, d - 2) && m <= Exp2(d - 2) { MultipleGap(0, m, d - 2); }
    }
  }

  lemma {:induction false} ReduceToDistribute<K, V>(keys: seq<K>, vals: seq<V>, op: (V, V) -> V, cur: seq<V>, d: nat)
    requires |keys| == |vals| == |cur| == Exp2(d) && d >= 1
    requires Covers(keys, vals, op, cur, ReduceLo(d, 0))
    ensures Covers(keys, vals, op, cur, ToDistribute(d - 1))
  {
    forall j: nat | j < |keys|
      ensures ReduceLo(d, 0)(j) == ToDistribute(d - 1)(j)
    {
      ReduceEnds(d, j);
    }
    CoversSame(keys, vals, op, cur, ReduceLo(d, 0), ToDistribute(d - 1));
  }

  lemma {:induction false} DepthOfPower(d: nat)
    requires d >= 1
    ensures HalfDepth(Exp2(d)) == d && Depth(Exp2(d)) == 2 * d - 1
  {
    BitWidthOfPower(d);
  }

  /** When nothing is left to distribute the column is final. */
  lemma {:induction false} Distributed<K, V>(keys: seq<K>, vals: seq<V>, op: (V, V) -> V, cur: seq<V>)
    requires |keys| == |vals| == |cur| && Covers(keys, vals, op, cur, ToDistribute(0))
    ensures forall j :: 0 <= j < |cur| && LeftConvex(keys, j) ==> cur[j] == Segment(keys, vals, op, 0, j)
  {
    forall j: nat | j < |cur| && LeftConvex(keys, j) ensures cur[j] == Segment(keys, vals, op, 0, j) {
      assert ToDistribute(0)(j) == 0;
    }
  }

  /** The reduce levels from i on. */
  ghost function Reduced<K, V>(keys: seq<K>, op: (V, V) -> V, cur: seq<V>, i: nat, levels: nat): (r: seq<V>)
    requires |keys| == |cur|
    ensures |r| == |cur|
    decreases levels - i
  {
    if i >= levels then cur else Reduced(keys, op, Level(keys, op, cur, 2 * Exp2(i) - 1, Exp2(i)), i + 1, levels)
  }

  /** The last `left` distribute levels. */
  ghost function Spread<K, V>(keys: seq<K>, op: (V, V) -> V, cur: seq<V>, left: nat): (r: seq<V>)
    requires |keys| == |cur|
    ensures |r| == |cur|
    decreases left
  {
    if left == 0 then cur else Spread(keys, op, Level(keys, op, cur, 3 * Exp2(left - 1) - 1, Exp2(left - 1)), left - 1)
  }

  lemma {:induction false} ReducedCovers<K, V(!new)>(keys: seq<K>, vals: seq<V>, op: (V, V) -> V, cur: seq<V>, i: nat,
                                                     d: nat)
    requires |keys| == |vals| == |cur| == Exp2(d) && i <= d && Associative(op)
    requires Covers(keys, vals, op, cur, ReduceLo(i, 0))
    ensures Covers(keys, vals, op, Reduced(keys, op, cur, i, d), ReduceLo(d, 0))
    decreases d - i
  {
    if i < d {
      MultipleOfPower(i + 1, d);
      ReduceLevel(keys, vals, op, cur, i, 0, 2 * Exp2(i) - 1);
      ReducedCovers(keys, vals, op, Level(keys, op, cur, 2 * Exp2(i) - 1, Exp2(i)), i + 1, d);
    }
  }

  lemma {:induction false} SpreadCovers<K, V(!new)>(keys: seq<K>, vals: seq<V>, op: (V, V) -> V, cur: seq<V>, left: nat)
    requires |keys| == |vals| == |cur| && Associative(op)
    requires Covers(keys, vals, op, cur, ToDistribute(left))
    ensures Covers(keys, vals, op, Spread(keys, op, cur, left), ToDistribute(0))
    decreases left
  {
    if left > 0 {
      var i := left - 1;
      FirstDistributeGate(i);
      DistributeLevel(keys, vals, op, cur, i, Exp2(i), 3 * Exp2(i) - 1);
      SpreadCovers(keys, vals, op, Level(keys, op, cur, 3 * Exp2(i) - 1, Exp2(i)), i);
    }
  }

  /** On every unbroken run the log-depth tree and the sequential scan agree. */
  lemma {:induction false} NetworkIsScan<K, V(!new)>(keys: seq<K>, vals: seq<V>, op: (V, V) -> V, d: nat)
    requires |keys| == |vals| == Exp2(d) && d >= 1 && Associative(op)
    ensures var out := Spread(keys, op, Reduced(keys, op, vals, 0, d), d - 1);
            forall j :: 0 <= j < |out| && LeftConvex(keys, j) ==> out[j] == Segment(keys, vals, op, 0, j)
  {
    var up := Reduced(keys, op, vals, 0, d);
    ReduceBegins(keys, vals, op);
    ReducedCovers(keys, vals, op, vals, 0, d);
    ReduceToDistribute(keys, vals, op, up, d);
    SpreadCovers(keys, vals, op, up, d - 1);
    Distributed(keys, vals, op, Spread(keys, op, up, d - 1));
  }

  /** The network in place, level by level. */
  method RunLevels<K(==), V(!new)>(keys: seq<K>, op: (V, V) -> V, out: array<V>, ghost d: nat)
    requires |keys| == out.Length == Exp2(d) && d >= 1
    modifies out
    ensures out[..] == Spread(keys, op, Reduced(keys, op, old(out[..]), 0, d), d - 1)
  {
    ghost var vals := out[..];
    DepthOfPower(d);
    var hd, depth := HalfDepth(out.Length), Depth(out.Length);
    for i := 0 to hd
      invariant Reduced(keys, op, out[..], i, d) == Reduced(keys, op, vals, 0, d)
    {
      RunLevel(keys, op, out, 2 * Exp2(i) - 1, Exp2(i));
    }
    ghost var up := out[..];
    for i := hd to depth
      invariant Spread(keys, op, out[..], depth - i) == Spread(keys, op, up, d - 1)
    {
      var gap := Exp2(depth - 1 - i);
      RunLevel(keys, op, out, 3 * gap - 1, gap);
    }
  }

  /** The whole network: on every unbroken run the left-to-right fold of the run. */
  method BrentKung<K(==), V(!new)>(keys: seq<K>, op: (V, V) -> V, out: array<V>, ghost d: nat)
    requires |keys| == out.Length == Exp2(d) && d >= 1
    requires Associative(op)
    modifies out
    ensures forall j :: 0 <= j < out.Length && LeftConvex(keys, j) ==>
              out[..][j] == Segment(keys, old(out[..]), op, 0, j)
  {
    NetworkIsScan(keys, out[..], op, d);
    RunLevels(keys, op, out, d);
  }

  /** The network on a column given by value. */
  method RunNetwork<K(==), V(!new)>(keys: seq<K>, cells: seq<V>, op: (V, V) -> V, ghost d: nat) returns (out: seq<V>)
    requires |keys| == |cells| == Exp2(d) && d >= 1 && Associative(op)
    ensures |out| == |cells|
    ensures forall j :: 0 <= j < |out| && LeftConvex(keys, j) ==> out[j] == Segment(keys, cells, op, 0, j)
  {
    var column := new V[|cells|](i requires 0 <= i < |cells| => cells[i]);
    assert column[..] == cells;
    BrentKung(keys, op, column, d);
    out := column[..];
  }
}
