/** Inclusive prefix sums of a vector, in place. */
module PrefixSums {
  /** The sum of the first k elements. */
  function SumTo(s: seq<int>, k: nat): int
    requires k <= |s|
  {
    if k == 0 then 0 else SumTo(s, k - 1) + s[k - 1]
  }

  /** Vector::prefix_sum(): every element becomes the sum up to and including itself. */
  method PrefixSum(a: array<int>)
    modifies a
    ensures forall i :: 0 <= i < a.Length ==> a[i] == SumTo(old(a[..]), i + 1)
  {
    ghost var s := a[..];
    var total := 0;
    for i := 0 to a.Length
      invariant total == SumTo(s, i)
      invariant forall j :: 0 <= j < i ==> a[j] == SumTo(s, j + 1)
      invariant forall j :: i <= j < a.Length ==> a[j] == s[j]
    {
      total := total + a[i];
      a[i] := total;
    }
  }
}
