/** The two generic helpers at the top of visualization/index.js. Arrays are
    modelled as sequences; a missing array (`null`) as `None`. */
module Helpers {
  import opened Timeline

  /** `newArray(n, fn)`: the array whose i-th element is `fn(i)`. */
  method NewArray<T>(n: nat, fn: nat -> T) returns (arr: seq<T>)
    ensures |arr| == n
    ensures forall i :: 0 <= i < n ==> arr[i] == fn(i)
  {
    arr := [];
    for i := 0 to n
      invariant |arr| == i
      invariant forall k :: 0 <= k < i ==> arr[k] == fn(k)
    {
      arr := arr + [fn(i)];
    }
  }

  /** `arrayEq(a, b)`: element-wise strict equality of two possibly-null
      arrays; two nulls are equal, a null and an array are not. */
  method ArrayEq<T(==)>(a: Option<seq<T>>, b: Option<seq<T>>) returns (eq: bool)
    ensures eq <==> a == b
  {
    if a.None? || b.None? {
      return a.None? && b.None?;
    }
    var xs, ys := a.value, b.value;
    if |xs| != |ys| {
      return false;
    }
    for i := 0 to |xs|
      invariant xs[..i] == ys[..i]
    {
      if xs[i] != ys[i] {
        return false;
      }
      assert xs[..i + 1] == xs[..i] + [xs[i]] && ys[..i + 1] == ys[..i] + [ys[i]];
    }
    assert xs == xs[..|xs|] && ys == ys[..|ys|];
    return true;
  }
}
