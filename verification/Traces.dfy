/** Following rows through a stable sort: any order that rows with equal keys had before, they have after. */
module Traces {
  import opened Bags
  import opened Tables

  function Zip<A, B>(s: seq<A>, t: seq<B>): (z: seq<(A, B)>)
    requires |s| == |t|
    ensures |z| == |s|
  {
    seq(|s|, i requires 0 <= i < |s| => (s[i], t[i]))
  }

  function First<A, B>(p: (A, B)): A { p.0 }
  function Second<A, B>(p: (A, B)): B { p.1 }

  lemma {:induction false} Unzip<A, B>(s: seq<A>, t: seq<B>)
    requires |s| == |t|
    ensures Map(Zip(s, t), First) == s && Map(Zip(s, t), Second) == t
  {
    var z := Zip(s, t);
    forall i | 0 <= i < |s| ensures Map(z, First)[i] == s[i] && Map(z, Second)[i] == t[i] {
      assert First(z[i]) == s[i] && Second(z[i]) == t[i];
    }
  }

  lemma {:induction false} Rezip<A, B>(z: seq<(A, B)>)
    ensures Zip(Map(z, First), Map(z, Second)) == z
  {
    forall i | 0 <= i < |z| ensures Zip(Map(z, First), Map(z, Second))[i] == z[i] {
      assert First(z[i]) == z[i].0 && Second(z[i]) == z[i].1;
    }
  }

  /** Every sequence has a stable sorted form. */
  lemma {:induction false} StableSortOf<R>(s: seq<R>, key: R -> Key) returns (r: seq<R>)
    ensures Perm(r, s) && SortedBy(r, key) && Stable(s, r, key)
  {
    if s == [] {
      r := [];
    } else {
      var n := |s| - 1;
      var x := s[n];
      var t := StableSortOf(s[..n], key);
      var k := |t|;
      while k > 0 && !Leq(key(t[k - 1]), key(x))
        invariant 0 <= k <= |t|
        invariant k < |t| ==> Leq(key(x), key(t[k])) && !Leq(key(t[k]), key(x))
      {
        LeqTotal(key(t[k - 1]), key(x));
        k := k - 1;
      }
      InsertSorted(t, x, k, key);
      InsertStable(t, x, k, key);
      r := t[..k] + [x] + t[k..];
      StableStep(s[..n], t, r, x, key);
      LastSplit(s);
      assert t == t[..k] + t[k..];
    }
  }

  /** The last element of a sorted sequence is the last of its key. */
  lemma {:induction false} LastOfKey<R>(r: seq<R>, key: R -> Key)
    requires r != []
    ensures var n := |r| - 1; var k := key(r[n]);
            WithKey(r, key, k) == WithKey(r[..n], key, k) + [r[n]]
    ensures forall k :: k != key(r[|r| - 1]) ==> WithKey(r, key, k) == WithKey(r[..|r| - 1], key, k)
  {
  }

  /** A sorted sequence is determined by its elements of each key. */
  lemma {:induction false} SortedUnique<R>(r: seq<R>, t: seq<R>, key: R -> Key)
    requires SortedBy(r, key) && SortedBy(t, key) && Stable(r, t, key)
    ensures r == t
  {
    if r == [] {
      if t != [] { SameLast(t, r, key); }
    } else {
      var n, k := |r| - 1, key(r[|r| - 1]);
      LastOfKey(r, key);
      assert WithKey(t, key, k) == WithKey(r, key, k) != [];
      SameLast(r, t, key);
      LastOfKey(t, key);
      forall kk ensures WithKey(t[..|t| - 1], key, kk) == WithKey(r[..n], key, kk) {
        assert WithKey(t, key, kk) == WithKey(r, key, kk);
        DropLastKey(WithKey(r[..n], key, k), WithKey(t[..|t| - 1], key, k), r[n]);
      }
      SortedUnique(r[..n], t[..|t| - 1], key);
      LastSplit(r);
      LastSplit(t);
    }
  }

  lemma {:induction false} DropLastKey<R>(a: seq<R>, b: seq<R>, x: R)
    ensures a + [x] == b + [x] ==> a == b
  {
    if a + [x] == b + [x] {
      assert (a + [x])[..|a|] == a && (b + [x])[..|b|] == b;
      assert |a + [x]| == |b + [x]|;
    }
  }

  lemma {:induction false} SameLast<R>(r: seq<R>, t: seq<R>, key: R -> Key)
    requires SortedBy(r, key) && SortedBy(t, key) && Stable(r, t, key) && r != []
    ensures t != [] && t[|t| - 1] == r[|r| - 1]
  {
    var k := key(r[|r| - 1]);
    LastOfKey(r, key);
    var m := WithKey(t, key, k);
    assert m == WithKey(r, key, k) && m != [];
    WithKeyMember(t, key, k, m[0]);
    assert m[0] in t;
    var k' := key(t[|t| - 1]);
    LastOfKey(t, key);
    var m' := WithKey(r, key, k');
    assert m' == WithKey(t, key, k') && m' != [];
    WithKeyMember(r, key, k', m'[0]);
    var i :| 0 <= i < |r| && r[i] == m'[0];
    var j :| 0 <= j < |t| && t[j] == m[0];
    LeqAntisymmetric(k, k');
    assert m[|m| - 1] == r[|r| - 1] == t[|t| - 1];
  }

  lemma {:induction false} CountGrows<T>(s: seq<T>, p: T -> bool, i: nat, j: nat)
    requires i <= j <= |s|
    ensures CountUpTo(s, p, i) <= CountUpTo(s, p, j)
  {
    SelectPrefix(s[..j], p, i);
    assert s[..j][..i] == s[..i];
  }

  /** Two elements of a selection keep their order in it. */
  lemma {:induction false} SelectPair<T>(s: seq<T>, p: T -> bool, i: nat, j: nat) returns (a: nat, b: nat)
    requires i < j < |s| && p(s[i]) && p(s[j])
    ensures a < b < |Select(s, p)| && Select(s, p)[a] == s[i] && Select(s, p)[b] == s[j]
  {
    SelectPlace(s, p, i);
    SelectPlace(s, p, j);
    a, b := CountUpTo(s, p, i), CountUpTo(s, p, j);
    CountGrows(s, p, i + 1, j);
  }

  /** A selection from sorted elements is sorted. */
  lemma {:induction false} SelectSorted<T>(s: seq<T>, p: T -> bool, key: T -> Key)
    requires SortedBy(s, key)
    ensures SortedBy(Select(s, p), key)
  {
    var c := Select(s, p);
    forall a, b | 0 <= a <= b < |c| ensures Leq(key(c[a]), key(c[b])) {
      var x := PlaceTaken(s, p, a);
      var y := PlaceTaken(s, p, b);
      SelectPlace(s, p, x);
      SelectPlace(s, p, y);
      if y < x { CountGrows(s, p, y + 1, x); }
    }
  }

  ghost function KeyOfFirst<R, B>(key: R -> Key): ((R, B)) -> Key { (p: (R, B)) => key(p.0) }

  /** Elements with equal keys carry their tags in order. */
  ghost predicate TagsInOrder<R>(s: seq<R>, key: R -> Key, tags: seq<Key>) {
    |tags| == |s| && forall x, y :: 0 <= x < y < |s| && key(s[x]) == key(s[y]) ==> Leq(tags[x], tags[y])
  }

  lemma {:induction false} ClassInOrder<R>(z: seq<(R, Key)>, key: R -> Key, k: Key)
    requires forall x, y :: 0 <= x < y < |z| && key(z[x].0) == key(z[y].0) ==> Leq(z[x].1, z[y].1)
    ensures var c := WithKey(z, KeyOfFirst(key), k);
            forall a, b :: 0 <= a < b < |c| ==> Leq(c[a].1, c[b].1)
  {
    var p := KeyIs(KeyOfFirst<R, Key>(key), k);
    var c := WithKey(z, KeyOfFirst(key), k);
    forall a, b | 0 <= a < b < |c| ensures Leq(c[a].1, c[b].1) {
      var x := PlaceTaken(z, p, a);
      var y := PlaceTaken(z, p, b);
      SelectPlace(z, p, x);
      SelectPlace(z, p, y);
      if y <= x { CountGrows(z, p, y, x); }
    }
  }

  /** Tags follow their rows through a stable sort and stay in order within each key. */
  lemma {:induction false} TracedSort<R>(s: seq<R>, r: seq<R>, key: R -> Key, tags: seq<Key>) returns (tags': seq<Key>)
    requires SortedBy(r, key) && Stable(s, r, key) && TagsInOrder(s, key, tags)
    ensures TagsInOrder(r, key, tags') && Perm(Zip(r, tags'), Zip(s, tags))
  {
    var z, kz := Zip(s, tags), KeyOfFirst<R, Key>(key);
    var z' := StableSortOf(z, kz);
    tags' := Map(z', Second);
    SortedFirst(s, r, key, tags, z');
    Rezip(z');
    forall i, j | 0 <= i < j < |r| && key(r[i]) == key(r[j]) ensures Leq(tags'[i], tags'[j]) {
      var k := key(r[i]);
      assert r[i] == First(z'[i]) && r[j] == First(z'[j]);
      var a, b := SelectPair(z', KeyIs(kz, k), i, j);
      ClassInOrder(z, key, k);
      assert WithKey(z', kz, k) == WithKey(z, kz, k);
    }
  }

  lemma {:induction false} SortedFirst<R>(s: seq<R>, r: seq<R>, key: R -> Key, tags: seq<Key>, z': seq<(R, Key)>)
    requires |tags| == |s| && SortedBy(r, key) && Stable(s, r, key)
    requires SortedBy(z', KeyOfFirst(key)) && Stable(Zip(s, tags), z', KeyOfFirst(key))
    ensures Map(z', First) == r
  {
    var z, kz, t := Zip(s, tags), KeyOfFirst<R, Key>(key), Map(z', First);
    Unzip(s, tags);
    forall i, j | 0 <= i <= j < |t| ensures Leq(key(t[i]), key(t[j])) {
      assert key(t[i]) == kz(z'[i]) && key(t[j]) == kz(z'[j]);
    }
    forall k ensures WithKey(t, key, k) == WithKey(r, key, k) {
      WithKeyMap(z', First, kz, key, k);
      WithKeyMap(z, First, kz, key, k);
      assert WithKey(z', kz, k) == WithKey(z, kz, k);
      assert WithKey(r, key, k) == WithKey(s, key, k);
    }
    SortedUnique(r, t, key);
  }
}
