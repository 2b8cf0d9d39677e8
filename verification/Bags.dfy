/** Bag algebra on sequences: sums, selections and keyed sums that do not depend on row order.
    A relation is a sequence whose order carries no meaning; `Perm` is equality of relations. */
module Bags {

  ghost predicate Perm<T>(s: seq<T>, t: seq<T>) {
    multiset(s) == multiset(t)
  }

  function Sum<T>(s: seq<T>, f: T -> int): int {
    if s == [] then 0 else Sum(s[..|s| - 1], f) + f(s[|s| - 1])
  }

  function Select<T>(s: seq<T>, p: T -> bool): seq<T> {
    if s == [] then [] else Select(s[..|s| - 1], p) + (if p(s[|s| - 1]) then [s[|s| - 1]] else [])
  }

  function Map<A, B>(s: seq<A>, f: A -> B): (r: seq<B>)
    ensures |r| == |s|
  {
    seq(|s|, i requires 0 <= i < |s| => f(s[i]))
  }

  /** Every element replaced by the elements f gives for it. */
  function FlatMap<A, B>(s: seq<A>, f: A -> seq<B>): seq<B> {
    if s == [] then [] else FlatMap(s[..|s| - 1], f) + f(s[|s| - 1])
  }

  ghost predicate UniqueBy<T, K>(s: seq<T>, key: T -> K) {
    forall i, j :: 0 <= i < j < |s| ==> key(s[i]) != key(s[j])
  }

  ghost predicate HasKey<T, K>(s: seq<T>, key: T -> K, k: K) {
    exists x :: x in s && key(x) == k
  }

  function Itself<T>(x: T): T { x }

  lemma {:induction false} MapItself<T>(s: seq<T>)
    ensures Map(s, Itself) == s
  {
    var f: T -> T := Itself;
    forall i | 0 <= i < |s| ensures Map(s, f)[i] == s[i] {
      assert f(s[i]) == Itself(s[i]);
    }
  }

  lemma {:induction false} MapMap<A, B, C>(s: seq<A>, f: A -> B, g: B -> C, h: A -> C)
    requires forall x :: x in s ==> g(f(x)) == h(x)
    ensures Map(Map(s, f), g) == Map(s, h)
  {
  }

  lemma {:induction false} MapLast<A, B>(s: seq<A>, f: A -> B)
    requires s != []
    ensures Map(s, f) == Map(s[..|s| - 1], f) + [f(s[|s| - 1])]
  {
  }

  // ----- Permutations -----

  lemma {:induction false} LastSplit<T>(s: seq<T>)
    requires s != []
    ensures s == s[..|s| - 1] + [s[|s| - 1]]
    ensures multiset(s) == multiset(s[..|s| - 1]) + multiset{s[|s| - 1]}
  {
  }

  /** A permutation of a + [x] has x somewhere; taking it out leaves a permutation of a. */
  lemma {:induction false} PermSplit<T>(s: seq<T>, t: seq<T>) returns (k: nat)
    requires Perm(s, t) && s != []
    ensures k < |t| && t[k] == s[|s| - 1]
    ensures t == t[..k] + [t[k]] + t[k + 1..]
    ensures Perm(s[..|s| - 1], t[..k] + t[k + 1..])
  {
    LastSplit(s);
    var x := s[|s| - 1];
    assert x in multiset(t);
    k :| 0 <= k < |t| && t[k] == x;
    assert t == t[..k] + [x] + t[k + 1..];
    assert multiset(t) == multiset(t[..k]) + multiset{x} + multiset(t[k + 1..]);
    assert multiset(t[..k] + t[k + 1..]) == multiset(t[..k]) + multiset(t[k + 1..]);
    assert multiset(s[..|s| - 1]) == multiset(s) - multiset{x};
  }

  lemma {:induction false} PermLength<T>(s: seq<T>, t: seq<T>)
    requires Perm(s, t)
    ensures |s| == |t|
  {
    assert |multiset(s)| == |s|;
    assert |multiset(t)| == |t|;
  }

  lemma {:induction false} PermMember<T>(s: seq<T>, t: seq<T>, x: T)
    requires Perm(s, t)
    ensures x in s <==> x in t
  {
    assert x in s <==> x in multiset(s);
  }

  lemma {:induction false} FlatMapAppend<A, B>(s: seq<A>, t: seq<A>, f: A -> seq<B>)
    ensures FlatMap(s + t, f) == FlatMap(s, f) + FlatMap(t, f)
  {
    if t == [] {
      assert s + t == s;
    } else {
      assert (s + t)[..|s + t| - 1] == s + t[..|t| - 1];
      FlatMapAppend(s, t[..|t| - 1], f);
    }
  }

  lemma {:induction false} FlatMapPerm<A, B>(s: seq<A>, t: seq<A>, f: A -> seq<B>)
    requires Perm(s, t)
    ensures Perm(FlatMap(s, f), FlatMap(t, f))
  {
    if s == [] {
      PermLength(s, t);
    } else {
      var k := PermSplit(s, t);
      FlatMapPerm(s[..|s| - 1], t[..k] + t[k + 1..], f);
      FlatMapAppend(t[..k], t[k + 1..], f);
      FlatMapAppend(t[..k] + [t[k]], t[k + 1..], f);
      FlatMapAppend(t[..k], [t[k]], f);
      assert FlatMap([t[k]], f) == f(t[k]);
    }
  }

  /** Equal results element by element. */
  lemma {:induction false} FlatMapSame<A, B>(s: seq<A>, f: A -> seq<B>, g: A -> seq<B>)
    requires forall x :: x in s ==> f(x) == g(x)
    ensures FlatMap(s, f) == FlatMap(s, g)
  {
    if s != [] { FlatMapSame(s[..|s| - 1], f, g); }
  }

  lemma {:induction false} FlatMapMember<A, B>(s: seq<A>, f: A -> seq<B>, y: B)
    ensures y in FlatMap(s, f) <==> exists x :: x in s && y in f(x)
  {
    if s != [] {
      FlatMapMember(s[..|s| - 1], f, y);
      LastSplit(s);
    }
  }

  // ----- Sums -----

  lemma {:induction false} SumAppend<T>(s: seq<T>, t: seq<T>, f: T -> int)
    ensures Sum(s + t, f) == Sum(s, f) + Sum(t, f)
  {
    if t == [] {
      assert s + t == s;
    } else {
      assert (s + t)[..|s + t| - 1] == s + t[..|t| - 1];
      SumAppend(s, t[..|t| - 1], f);
    }
  }

  lemma {:induction false} SumSingle<T>(x: T, f: T -> int)
    ensures Sum([x], f) == f(x)
  {
    assert [x][..0] == [];
  }

  lemma {:induction false} SumPerm<T>(s: seq<T>, t: seq<T>, f: T -> int)
    requires Perm(s, t)
    ensures Sum(s, f) == Sum(t, f)
  {
    if s == [] {
      PermLength(s, t);
    } else {
      var k := PermSplit(s, t);
      SumPerm(s[..|s| - 1], t[..k] + t[k + 1..], f);
      SumAppend(t[..k], t[k + 1..], f);
      SumAppend(t[..k] + [t[k]], t[k + 1..], f);
      SumAppend(t[..k], [t[k]], f);
      assert Sum([t[k]], f) == f(t[k]);
    }
  }

  lemma {:induction false} SumSame<T>(s: seq<T>, f: T -> int, g: T -> int)
    requires forall x :: x in s ==> f(x) == g(x)
    ensures Sum(s, f) == Sum(s, g)
  {
    if s != [] { SumSame(s[..|s| - 1], f, g); }
  }

  // The next lemmas take the summand of the right-hand side as an argument of its own, so that a caller may
  // write it in any form that agrees with the required one element by element.

  lemma {:induction false} SumMap<A, B>(s: seq<A>, g: A -> B, f: B -> int, h: A -> int)
    requires forall x :: x in s ==> h(x) == f(g(x))
    ensures Sum(Map(s, g), f) == Sum(s, h)
  {
    if s != [] {
      assert Map(s, g)[..|s| - 1] == Map(s[..|s| - 1], g);
      SumMap(s[..|s| - 1], g, f, h);
    }
  }

  lemma {:induction false} SumFlatMap<A, B>(s: seq<A>, g: A -> seq<B>, f: B -> int, h: A -> int)
    requires forall x :: x in s ==> h(x) == Sum(g(x), f)
    ensures Sum(FlatMap(s, g), f) == Sum(s, h)
  {
    if s != [] {
      SumFlatMap(s[..|s| - 1], g, f, h);
      SumAppend(FlatMap(s[..|s| - 1], g), g(s[|s| - 1]), f);
    }
  }

  lemma {:induction false} SumSelect<T>(s: seq<T>, p: T -> bool, f: T -> int, h: T -> int)
    requires forall x :: x in s ==> h(x) == if p(x) then f(x) else 0
    ensures Sum(Select(s, p), f) == Sum(s, h)
  {
    if s != [] {
      SumSelect(s[..|s| - 1], p, f, h);
      SumAppend(Select(s[..|s| - 1], p), if p(s[|s| - 1]) then [s[|s| - 1]] else [], f);
    }
  }

  lemma {:induction false} SumScale<T>(s: seq<T>, c: int, f: T -> int, g: T -> int)
    requires forall x :: x in s ==> g(x) == c * f(x)
    ensures Sum(s, g) == c * Sum(s, f)
  {
    if s != [] { SumScale(s[..|s| - 1], c, f, g); }
  }

  lemma {:induction false} SumPlus<T>(s: seq<T>, f: T -> int, g: T -> int, h: T -> int)
    requires forall x :: x in s ==> h(x) == f(x) + g(x)
    ensures Sum(s, h) == Sum(s, f) + Sum(s, g)
  {
    if s != [] { SumPlus(s[..|s| - 1], f, g, h); }
  }

  ghost function Across<A, B>(h: (A, B) -> int, x: A): B -> int { y => h(x, y) }
  ghost function Down<A, B>(h: (A, B) -> int, y: B): A -> int { x => h(x, y) }
  ghost function RowSums<A, B>(t: seq<B>, h: (A, B) -> int): A -> int { x => Sum(t, Across(h, x)) }
  ghost function ColumnSums<A, B>(s: seq<A>, h: (A, B) -> int): B -> int { y => Sum(s, Down(h, y)) }

  /** Two nested sums may be taken in either order. */
  lemma {:induction false} SumSwap<A, B>(s: seq<A>, t: seq<B>, h: (A, B) -> int)
    ensures Sum(s, RowSums(t, h)) == Sum(t, ColumnSums(s, h))
  {
    if s == [] {
      SumSame(t, ColumnSums(s, h), y => 0);
      SumZero(t);
    } else {
      var s', x := s[..|s| - 1], s[|s| - 1];
      SumSwap(s', t, h);
      SumPlus(t, ColumnSums(s', h), Across(h, x), ColumnSums(s, h));
    }
  }

  lemma {:induction false} SumZero<T>(s: seq<T>)
    ensures Sum(s, x => 0) == 0
  {
    if s != [] { SumZero(s[..|s| - 1]); }
  }

  lemma {:induction false} SumNonNegative<T>(s: seq<T>, f: T -> int)
    requires forall x :: x in s ==> f(x) >= 0
    ensures Sum(s, f) >= 0
    ensures forall x :: x in s ==> Sum(s, f) >= f(x)
  {
    if s != [] { SumNonNegative(s[..|s| - 1], f); }
  }

  lemma {:induction false} SelectMember<T>(s: seq<T>, p: T -> bool, x: T)
    ensures x in Select(s, p) <==> x in s && p(x)
  {
    if s != [] { SelectMember(s[..|s| - 1], p, x); }
  }

  // ----- Keys and groups -----

  /** The elements of s whose key is k, in order. */
  ghost function WithKey<T, K>(s: seq<T>, key: T -> K, k: K): seq<T> {
    Select(s, KeyIs(key, k))
  }

  ghost function KeyIs<T, K>(key: T -> K, k: K): T -> bool {
    x => key(x) == k
  }

  lemma {:induction false} SelectAppend<T>(s: seq<T>, t: seq<T>, p: T -> bool)
    ensures Select(s + t, p) == Select(s, p) + Select(t, p)
  {
    if t == [] {
      assert s + t == s;
    } else {
      assert (s + t)[..|s + t| - 1] == s + t[..|t| - 1];
      SelectAppend(s, t[..|t| - 1], p);
    }
  }

  lemma {:induction false} SelectPerm<T>(s: seq<T>, t: seq<T>, p: T -> bool)
    requires Perm(s, t)
    ensures Perm(Select(s, p), Select(t, p))
  {
    SelectIsFlatMap(s, p);
    SelectIsFlatMap(t, p);
    FlatMapPerm(s, t, x => if p(x) then [x] else []);
  }

  lemma {:induction false} SelectIsFlatMap<T>(s: seq<T>, p: T -> bool)
    ensures Select(s, p) == FlatMap(s, x => if p(x) then [x] else [])
  {
    if s != [] { SelectIsFlatMap(s[..|s| - 1], p); }
  }

  lemma {:induction false} FlatMapSelects<T>(s: seq<T>, f: T -> seq<T>, p: T -> bool)
    requires forall x :: x in s ==> f(x) == if p(x) then [x] else []
    ensures FlatMap(s, f) == Select(s, p)
  {
    if s != [] { FlatMapSelects(s[..|s| - 1], f, p); }
  }

  lemma {:induction false} FlatMapMaps<A, B>(s: seq<A>, f: A -> seq<B>, g: A -> B)
    requires forall x :: x in s ==> f(x) == [g(x)]
    ensures FlatMap(s, f) == Map(s, g)
  {
    if s != [] {
      FlatMapMaps(s[..|s| - 1], f, g);
      assert Map(s, g) == Map(s[..|s| - 1], g) + [g(s[|s| - 1])];
    }
  }

  lemma {:induction false} SelectNone<T>(s: seq<T>, p: T -> bool)
    requires forall x :: x in s ==> !p(x)
    ensures Select(s, p) == []
  {
    if s != [] { SelectNone(s[..|s| - 1], p); }
  }

  lemma {:induction false} SelectSame<T>(s: seq<T>, p: T -> bool, q: T -> bool)
    requires forall x :: x in s ==> p(x) == q(x)
    ensures Select(s, p) == Select(s, q)
  {
    if s != [] { SelectSame(s[..|s| - 1], p, q); }
  }

  /** A unique key singles out its row. */
  lemma {:induction false} UniqueWithKey<T, K>(s: seq<T>, key: T -> K, x: T)
    requires UniqueBy(s, key) && x in s
    ensures WithKey(s, key, key(x)) == [x]
  {
    var s', y := s[..|s| - 1], s[|s| - 1];
    if y == x {
      SelectNone(s', KeyIs(key, key(x)));
    } else {
      assert key(y) != key(x);
      UniqueWithKey(s', key, x);
    }
  }

  lemma {:induction false} WithKeyNone<T, K>(s: seq<T>, key: T -> K, k: K)
    requires !HasKey(s, key, k)
    ensures WithKey(s, key, k) == []
  {
    SelectNone(s, KeyIs(key, k));
  }

  lemma {:induction false} WithKeyMember<T, K>(s: seq<T>, key: T -> K, k: K, x: T)
    ensures x in WithKey(s, key, k) <==> x in s && key(x) == k
  {
    SelectMember(s, KeyIs(key, k), x);
  }

  lemma {:induction false} GroupMembers<T, K>(g: seq<T>, s: seq<T>, key: T -> K, k: K)
    requires Perm(g, WithKey(s, key, k))
    ensures forall y :: y in g <==> y in s && key(y) == k
  {
    forall y ensures y in g <==> y in s && key(y) == k {
      PermMember(g, WithKey(s, key, k), y);
      WithKeyMember(s, key, k, y);
    }
  }

  lemma {:induction false} MapMember<A, B>(s: seq<A>, f: A -> B)
    ensures forall y :: y in Map(s, f) <==> exists x :: x in s && f(x) == y
  {
    forall x | x in s ensures f(x) in Map(s, f) {
      var i :| 0 <= i < |s| && s[i] == x;
      assert Map(s, f)[i] == f(x);
    }
  }

  lemma {:induction false} WithKeyMap<A, B, K>(s: seq<A>, f: A -> B, ka: A -> K, kb: B -> K, k: K)
    requires forall x :: x in s ==> kb(f(x)) == ka(x)
    ensures WithKey(Map(s, f), kb, k) == Map(WithKey(s, ka, k), f)
  {
    if s != [] {
      WithKeyMap(s[..|s| - 1], f, ka, kb, k);
      assert Map(s, f)[..|s| - 1] == Map(s[..|s| - 1], f);
    }
  }

  lemma {:induction false} UniqueMap<A, B, K>(s: seq<A>, f: A -> B, ka: A -> K, kb: B -> K)
    requires UniqueBy(s, ka) && forall x :: x in s ==> kb(f(x)) == ka(x)
    ensures UniqueBy(Map(s, f), kb)
  {
    forall i | 0 <= i < |s| ensures kb(Map(s, f)[i]) == ka(s[i]) {
      assert s[i] in s;
    }
  }

  /** op over a non-empty sequence, left to right. */
  ghost function Fold<T>(op: (T, T) -> T, s: seq<T>): T
    requires s != []
  {
    if |s| == 1 then s[0] else op(Fold(op, s[..|s| - 1]), s[|s| - 1])
  }

  /** A column on which op adds ends up with the column's sum. */
  lemma {:induction false} FoldSum<T(!new)>(op: (T, T) -> T, s: seq<T>, h: T -> int)
    requires s != [] && forall a, b :: h(op(a, b)) == h(a) + h(b)
    ensures h(Fold(op, s)) == Sum(s, h)
  {
    if |s| == 1 {
      assert s[..0] == [];
    } else {
      FoldSum(op, s[..|s| - 1], h);
    }
  }

  /** A property of rows that op preserves holds of the fold. */
  lemma {:induction false} FoldKeeps<T(!new)>(op: (T, T) -> T, s: seq<T>, good: T -> bool)
    requires s != [] && (forall x :: x in s ==> good(x)) && forall a, b :: good(a) && good(b) ==> good(op(a, b))
    ensures good(Fold(op, s))
  {
    if |s| > 1 { FoldKeeps(op, s[..|s| - 1], good); }
  }

  /** `after` is the group-by of `before`: one row per key, each the fold of its group in some order. */
  ghost predicate IsGroupBy<T(!new), K>(before: seq<T>, after: seq<T>, key: T -> K, init: T -> T, op: (T, T) -> T) {
    && UniqueBy(after, key)
    && (forall x :: x in after ==> FromGroup(before, x, key, init, op))
    && (forall y :: y in before ==> HasKey(after, key, key(y)))
  }

  ghost predicate FromGroup<T(!new), K>(before: seq<T>, x: T, key: T -> K, init: T -> T, op: (T, T) -> T) {
    exists g: seq<T> :: g != [] && Perm(g, WithKey(before, key, key(x))) && x == Fold(op, Map(g, init))
  }

  lemma {:induction false} GroupByPerm<T(!new), K>(before: seq<T>, before': seq<T>, after: seq<T>, key: T -> K,
                                                   init: T -> T, op: (T, T) -> T)
    requires IsGroupBy(before, after, key, init, op) && Perm(before, before')
    ensures IsGroupBy(before', after, key, init, op)
  {
    forall x | x in after
      ensures FromGroup(before', x, key, init, op)
    {
      var g: seq<T> :| g != [] && Perm(g, WithKey(before, key, key(x))) && x == Fold(op, Map(g, init));
      SelectPerm(before, before', KeyIs(key, key(x)));
    }
    forall y | y in before'
      ensures HasKey(after, key, key(y))
    {
      PermMember(before, before', y);
    }
  }

  lemma {:induction false} UniquePerm<T, K>(s: seq<T>, t: seq<T>, key: T -> K)
    requires UniqueBy(s, key) && Perm(s, t)
    ensures UniqueBy(t, key)
  {
    if s == [] {
      PermLength(s, t);
    } else {
      var s' := s[..|s| - 1];
      var k := PermSplit(s, t);
      var rest := t[..k] + t[k + 1..];
      UniquePerm(s', rest, key);
      forall y | y in rest
        ensures key(y) != key(t[k])
      {
        PermMember(s', rest, y);
      }
      forall i, j | 0 <= i < j < |t|
        ensures key(t[i]) != key(t[j])
      {
        if i == k {
          assert t[j] == rest[j - 1];
        } else if j == k {
          assert t[i] == rest[i];
        } else {
          assert t[i] == rest[if i < k then i else i - 1] && t[j] == rest[if j < k then j else j - 1];
        }
      }
    }
  }

  lemma {:induction false} GroupByResultPerm<T(!new), K>(before: seq<T>, after: seq<T>, after': seq<T>, key: T -> K,
                                                         init: T -> T, op: (T, T) -> T)
    requires IsGroupBy(before, after, key, init, op) && Perm(after, after')
    ensures IsGroupBy(before, after', key, init, op)
  {
    UniquePerm(after, after', key);
    forall x ensures x in after <==> x in after' {
      PermMember(after, after', x);
    }
    forall y | y in before
      ensures HasKey(after', key, key(y))
    {
      var x :| x in after && key(x) == key(y);
    }
  }

  /** Grouping creates no key and loses none. */
  lemma {:induction false} GroupByKeys<T(!new), K>(before: seq<T>, after: seq<T>, key: T -> K, init: T -> T,
                                                   op: (T, T) -> T, k: K)
    requires IsGroupBy(before, after, key, init, op)
    ensures HasKey(after, key, k) <==> HasKey(before, key, k)
  {
    if HasKey(after, key, k) {
      var x :| x in after && key(x) == k;
      var g: seq<T> :| g != [] && Perm(g, WithKey(before, key, k)) && x == Fold(op, Map(g, init));
      PermMember(g, WithKey(before, key, k), g[0]);
      WithKeyMember(before, key, k, g[0]);
    }
  }

  /** A summed column of a group's row is the sum over the group. */
  lemma {:induction false} GroupTotal<T(!new), K>(before: seq<T>, after: seq<T>, key: T -> K, init: T -> T,
                                                  op: (T, T) -> T, h: T -> int,
                               x: T, g: T -> int)
    requires IsGroupBy(before, after, key, init, op) && x in after
    requires forall a, b :: h(op(a, b)) == h(a) + h(b)
    requires forall y :: y in before ==> g(y) == if key(y) == key(x) then h(init(y)) else 0
    ensures h(x) == Sum(before, g)
  {
    assert FromGroup(before, x, key, init, op);
    var group: seq<T> :| group != [] && Perm(group, WithKey(before, key, key(x))) && x == Fold(op, Map(group, init));
    FoldSum(op, Map(group, init), h);
    SumMap(group, init, h, y => h(init(y)));
    SumPerm(group, WithKey(before, key, key(x)), y => h(init(y)));
    SumSelect(before, KeyIs(key, key(x)), y => h(init(y)), g);
  }

  /** Grouping preserves the keyed sums of a summed column, for every key, present or not. */
  lemma {:induction false} RollUp<T(!new), K>(before: seq<T>, after: seq<T>, key: T -> K, init: T -> T, op: (T, T) -> T,
                                              h: T -> int,
                           k: K, g: T -> int)
    requires IsGroupBy(before, after, key, init, op)
    requires forall a, b :: h(op(a, b)) == h(a) + h(b)
    requires forall y :: y in before ==> g(y) == if key(y) == k then h(init(y)) else 0
    ensures Sum(WithKey(after, key, k), h) == Sum(before, g)
  {
    GroupByKeys(before, after, key, init, op, k);
    if HasKey(after, key, k) {
      var x :| x in after && key(x) == k;
      UniqueWithKey(after, key, x);
      GroupTotal(before, after, key, init, op, h, x, g);
      SumSingle(x, h);
    } else {
      WithKeyNone(after, key, k);
      SumSame(before, g, y => 0);
      SumZero(before);
    }
  }

  ghost function SameKeyTerm<T, K>(key: T -> K, g: T -> int): (T, T) -> int {
    (x, y) => if key(x) == key(y) then g(y) else 0
  }

  /** Each key of `before` has one row in `after`: a sum over `before` may be taken group by group. */
  lemma {:induction false} GroupSum<T(!new), K>(before: seq<T>, after: seq<T>, key: T -> K, h: T -> int, g: T -> int)
    requires UniqueBy(after, key) && forall y :: y in before ==> HasKey(after, key, key(y))
    requires forall x :: x in after ==> h(x) == Sum(before, Across(SameKeyTerm(key, g), x))
    ensures Sum(after, h) == Sum(before, g)
  {
    var term := SameKeyTerm(key, g);
    SumSame(after, h, RowSums(before, term));
    SumSwap(after, before, term);
    forall y | y in before
      ensures ColumnSums(after, term)(y) == g(y)
    {
      var x :| x in after && key(x) == key(y);
      UniqueWithKey(after, key, x);
      SumSelect(after, KeyIs(key, key(y)), _ => g(y), Down(term, y));
      SumSingle(x, _ => g(y));
    }
    SumSame(before, ColumnSums(after, term), g);
  }

  /** A sequence without repeated keys is no longer than any sequence that has all its keys. */
  lemma {:induction false} UniqueBound<A, B, K>(s: seq<A>, ks: A -> K, t: seq<B>, kt: B -> K)
    requires UniqueBy(s, ks) && forall x :: x in s ==> HasKey(t, kt, ks(x))
    ensures |s| <= |t|
  {
    if s != [] {
      var s', x := s[..|s| - 1], s[|s| - 1];
      var y :| y in t && kt(y) == ks(x);
      var i :| 0 <= i < |t| && t[i] == y;
      var t' := t[..i] + t[i + 1..];
      forall z | z in s'
        ensures HasKey(t', kt, ks(z))
      {
        var w :| w in t && kt(w) == ks(z);
        var j :| 0 <= j < |t| && t[j] == w;
        assert ks(z) != ks(x);
        assert w == t'[if j < i then j else j - 1];
      }
      UniqueBound(s', ks, t', kt);
    }
  }

  lemma {:induction false} SumZeroIff<T>(s: seq<T>, f: T -> int)
    requires forall x :: x in s ==> f(x) >= 0
    ensures Sum(s, f) >= 0 && (Sum(s, f) == 0 <==> forall x :: x in s ==> f(x) == 0)
  {
    if s != [] {
      SumZeroIff(s[..|s| - 1], f);
      LastSplit(s);
    }
  }

  lemma {:induction false} SumOne<T>(s: seq<T>)
    ensures Sum(s, x => 1) == |s|
  {
    if s != [] { SumOne(s[..|s| - 1]); }
  }

  /** With unique keys, counting the selected rows of a key tells whether there is one. */
  lemma {:induction false} UniqueCount<T, K>(s: seq<T>, p: T -> bool, key: T -> K, k: K, g: T -> int)
    requires UniqueBy(s, key)
    requires forall x :: x in s ==> g(x) == if p(x) && key(x) == k then 1 else 0
    ensures Sum(s, g) == if HasKey(Select(s, p), key, k) then 1 else 0
  {
    if HasKey(Select(s, p), key, k) {
      var x :| x in Select(s, p) && key(x) == k;
      SelectMember(s, p, x);
      UniqueWithKey(s, key, x);
      SumSelect(s, KeyIs(key, k), g, g);
      SumSingle(x, g);
    } else {
      forall x | x in s ensures g(x) == 0 {
        SelectMember(s, p, x);
      }
      SumSame(s, g, x => 0);
      SumZero(s);
    }
  }

  lemma {:induction false} UniqueSelect<T, K>(s: seq<T>, p: T -> bool, key: T -> K)
    requires UniqueBy(s, key)
    ensures UniqueBy(Select(s, p), key)
  {
    if s != [] {
      var s', x := s[..|s| - 1], s[|s| - 1];
      UniqueSelect(s', p, key);
      forall y | y in Select(s', p) ensures key(y) != key(x) {
        SelectMember(s', p, y);
      }
    }
  }

  lemma {:induction false} UniqueRow<T, K>(s: seq<T>, key: T -> K, x: T, y: T)
    requires UniqueBy(s, key) && x in s && y in s
    ensures key(x) == key(y) <==> x == y
  {
    var i :| 0 <= i < |s| && s[i] == x;
    var j :| 0 <= j < |s| && s[j] == y;
  }

  lemma {:induction false} SelectMap<A, B>(s: seq<A>, f: A -> B, p: B -> bool, q: A -> bool)
    requires forall x :: x in s ==> (q(x) <==> p(f(x)))
    ensures Map(Select(s, q), f) == Select(Map(s, f), p)
  {
    if s != [] {
      SelectMap(s[..|s| - 1], f, p, q);
      assert Map(s, f)[..|s| - 1] == Map(s[..|s| - 1], f);
    }
  }

  lemma {:induction false} SelectBoth<T>(s: seq<T>, p: T -> bool, q: T -> bool, pq: T -> bool)
    requires forall x :: x in s ==> (pq(x) <==> p(x) && q(x))
    ensures Select(Select(s, p), q) == Select(s, pq)
  {
    if s != [] {
      var s', x := s[..|s| - 1], s[|s| - 1];
      SelectBoth(s', p, q, pq);
      SelectAppend(Select(s', p), if p(x) then [x] else [], q);
      assert [x][..0] == [];
    }
  }

  lemma {:induction false} SelectedAll<T>(s: seq<T>, p: T -> bool)
    ensures |Select(s, p)| <= |s| && (|Select(s, p)| == |s| <==> forall x :: x in s ==> p(x))
    ensures (forall x :: x in s ==> p(x)) ==> Select(s, p) == s
  {
    if s != [] { SelectedAll(s[..|s| - 1], p); LastSplit(s); }
  }

  lemma {:induction false} MapPerm<A, B>(s: seq<A>, t: seq<A>, f: A -> B)
    requires Perm(s, t)
    ensures Perm(Map(s, f), Map(t, f))
  {
    MapIsFlatMap(s, f);
    MapIsFlatMap(t, f);
    FlatMapPerm(s, t, x => [f(x)]);
  }

  lemma {:induction false} MapIsFlatMap<A, B>(s: seq<A>, f: A -> B)
    ensures Map(s, f) == FlatMap(s, x => [f(x)])
  {
    if s != [] {
      MapIsFlatMap(s[..|s| - 1], f);
      assert Map(s, f) == Map(s[..|s| - 1], f) + [f(s[|s| - 1])];
    }
  }

  function Min(a: int, b: int): int { if a <= b then a else b }

  /** A column on which op takes the minimum ends up with the least value of the column. */
  lemma {:induction false} FoldLeast<T(!new)>(op: (T, T) -> T, s: seq<T>, h: T -> int)
    requires s != [] && forall a, b :: h(op(a, b)) == Min(h(a), h(b))
    ensures (forall x :: x in s ==> h(Fold(op, s)) <= h(x)) && exists x :: x in s && h(x) == h(Fold(op, s))
  {
    LastSplit(s);
    if |s| > 1 {
      var s', z := s[..|s| - 1], s[|s| - 1];
      FoldLeast(op, s', h);
      var x :| x in s' && h(x) == h(Fold(op, s'));
      assert x in s && z in s;
    } else {
      assert s[0] in s;
    }
  }

  lemma {:induction false} HasKeyLast<T, K>(s: seq<T>, key: T -> K, k: K)
    requires s != []
    ensures HasKey(s, key, k) <==> HasKey(s[..|s| - 1], key, k) || key(s[|s| - 1]) == k
  {
    LastSplit(s);
    if HasKey(s, key, k) {
      var x :| x in s && key(x) == k;
    }
    if HasKey(s[..|s| - 1], key, k) {
      var x :| x in s[..|s| - 1] && key(x) == k;
      assert x in s;
    }
    assert s[|s| - 1] in s;
  }

  lemma {:induction false} UniqueCardinality<T, K>(s: seq<T>, key: T -> K, keys: set<K>)
    requires UniqueBy(s, key) && forall k :: k in keys <==> HasKey(s, key, k)
    ensures |keys| == |s|
  {
    if s == [] {
      assert keys == {};
    } else {
      var s', last := s[..|s| - 1], key(s[|s| - 1]);
      assert !HasKey(s', key, last);
      forall k ensures k in keys - {last} <==> HasKey(s', key, k) {
        HasKeyLast(s, key, k);
      }
      HasKeyLast(s, key, last);
      UniqueCardinality(s', key, keys - {last});
    }
  }

  /** Two listings of the same elements without repetition are permutations of each other. */
  lemma {:induction false} SameListing<T>(s: seq<T>, t: seq<T>)
    requires UniqueBy(s, Itself) && UniqueBy(t, Itself) && forall x :: x in s <==> x in t
    ensures Perm(s, t)
  {
    forall x ensures multiset(s)[x] == multiset(t)[x] {
      ListedOnce(s, x);
      ListedOnce(t, x);
    }
  }

  lemma {:induction false} ListedOnce<T>(s: seq<T>, x: T)
    requires UniqueBy(s, Itself)
    ensures multiset(s)[x] == if x in s then 1 else 0
  {
    if s != [] {
      LastSplit(s);
      ListedOnce(s[..|s| - 1], x);
    }
  }

  /** The first n numbers. */
  ghost function UpTo(n: nat): seq<nat> { seq(n, i => i) }

  // ----- Places in a selection -----

  ghost function CountUpTo<T>(v: seq<T>, p: T -> bool, i: nat): nat
    requires i <= |v|
  {
    |Select(v[..i], p)|
  }

  /** Selecting from a prefix gives a prefix of the selection. */
  lemma {:induction false} SelectPrefix<T>(v: seq<T>, p: T -> bool, i: nat)
    requires i <= |v|
    ensures Select(v[..i], p) <= Select(v, p)
  {
    if i < |v| {
      SelectPrefix(v[..|v| - 1], p, i);
      assert v[..|v| - 1][..i] == v[..i];
    } else {
      assert v[..i] == v;
    }
  }

  /** A selected element lands at the number of selected elements before it. */
  lemma {:induction false} SelectPlace<T>(v: seq<T>, p: T -> bool, i: nat)
    requires i < |v| && p(v[i])
    ensures CountUpTo(v, p, i + 1) == CountUpTo(v, p, i) + 1 <= |Select(v, p)|
    ensures Select(v, p)[CountUpTo(v, p, i)] == v[i]
  {
    SelectPrefix(v, p, i + 1);
    assert v[..i + 1][..i] == v[..i];
    assert Select(v[..i + 1], p)[CountUpTo(v, p, i)] == v[i];
  }

  /** Every place of the selection is some element's. */
  lemma {:induction false} PlaceTaken<T>(v: seq<T>, p: T -> bool, k: nat) returns (i: nat)
    requires k < |Select(v, p)|
    ensures i < |v| && p(v[i]) && CountUpTo(v, p, i) == k
  {
    var n := |v| - 1;
    if k < |Select(v[..n], p)| {
      i := PlaceTaken(v[..n], p, k);
      assert v[..n][..i] == v[..i];
    } else {
      i := n;
    }
  }

  // ----- Prefixes -----

  /** A zero-one summand that never grows along the sequence counts from the front. */
  lemma {:induction false} Steps<T>(q: seq<T>, f: T -> int)
    requires forall i :: 0 <= i < |q| ==> f(q[i]) == 0 || f(q[i]) == 1
    requires forall i, j :: 0 <= i <= j < |q| ==> f(q[j]) <= f(q[i])
    ensures 0 <= Sum(q, f) <= |q|
    ensures forall i :: 0 <= i < |q| ==> f(q[i]) == if i < Sum(q, f) then 1 else 0
    ensures forall n :: 0 <= n <= |q| ==> Sum(q[..n], f) == Min(n, Sum(q, f))
  {
    if q != [] {
      var m := |q| - 1;
      Steps(q[..m], f);
      var sum := Sum(q[..m], f);
      assert sum < m ==> f(q[..m][sum]) == 0;
      forall n | 0 <= n <= |q| ensures Sum(q[..n], f) == Min(n, Sum(q, f)) {
        if n <= m { assert q[..m][..n] == q[..n]; } else { assert q[..n] == q; }
      }
    }
  }

  /** A sequence is its selection and the rest, mapped or not. */
  lemma {:induction false} SelectSplit<T>(s: seq<T>, p: T -> bool, q: T -> bool)
    requires forall x :: x in s ==> (q(x) <==> !p(x))
    ensures Perm(s, Select(s, p) + Select(s, q))
  {
    if s != [] {
      SelectSplit(s[..|s| - 1], p, q);
      LastSplit(s);
    }
  }

  /** A selection from the front and the rest behind it. */
  lemma {:induction false} SelectSteps<T>(s: seq<T>, p: T -> bool, q: T -> bool)
    requires forall x :: x in s ==> (q(x) <==> !p(x))
    requires forall i, j :: 0 <= i <= j < |s| && p(s[j]) ==> p(s[i])
    ensures s == Select(s, p) + Select(s, q)
  {
    if s != [] {
      var n := |s| - 1;
      SelectSteps(s[..n], p, q);
      LastSplit(s);
      if p(s[n]) { SelectNone(s[..n], q); }
    }
  }

  lemma {:induction false} MapSplit<A, B>(s: seq<A>, p: A -> bool, q: A -> bool, f: A -> B)
    requires forall x :: x in s ==> (q(x) <==> !p(x))
    ensures Perm(Map(s, f), Map(Select(s, p), f) + Map(Select(s, q), f))
  {
    SelectSplit(s, p, q);
    MapPerm(s, Select(s, p) + Select(s, q), f);
    MapAppend(Select(s, p), Select(s, q), f);
  }

  /** Two sequences selected and mapped alike. */
  lemma {:induction false} SelectAlike<A, B, C>(s: seq<A>, t: seq<B>, p: A -> bool, q: B -> bool, f: A -> C, g: B -> C)
    requires |s| == |t| && forall i :: 0 <= i < |s| ==> p(s[i]) == q(t[i]) && (p(s[i]) ==> f(s[i]) == g(t[i]))
    ensures Map(Select(s, p), f) == Map(Select(t, q), g)
  {
    if s != [] {
      var n := |s| - 1;
      SelectAlike(s[..n], t[..n], p, q, f, g);
      if p(s[n]) {
        assert Select(s, p) == Select(s[..n], p) + [s[n]] && Select(t, q) == Select(t[..n], q) + [t[n]];
        MapAppend(Select(s[..n], p), [s[n]], f);
        MapAppend(Select(t[..n], q), [t[n]], g);
        assert Map([s[n]], f) == Map([t[n]], g);
      } else {
        assert Select(s, p) == Select(s[..n], p) && Select(t, q) == Select(t[..n], q);
      }
    }
  }

  lemma {:induction false} MapAppend<A, B>(s: seq<A>, t: seq<A>, f: A -> B)
    ensures Map(s + t, f) == Map(s, f) + Map(t, f)
  {
  }
}
