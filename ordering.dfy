/** Orders used by `render`: numeric order on timestamps (`sort((a, b) => a - b)`)
    and the default JavaScript string order on annotation tags (`sort()`).
    A JavaScript `Set` that is later turned into an array is an
    insertion-ordered sequence without duplicates; sorting it yields a
    strictly increasing sequence with the same members. */
module Ordering {

  /** Strictly increasing, hence also duplicate-free. */
  predicate Increasing(s: seq<real>)
  {
    forall i, j :: 0 <= i < j < |s| ==> s[i] < s[j]
  }

  /** `set.add(x)` on an insertion-ordered set. */
  function SetAdd<T(==, !new)>(s: seq<T>, x: T): (r: seq<T>)
    ensures forall y :: y in r <==> y in s || y == x
    ensures |s| <= |r| <= |s| + 1 && r[..|s|] == s
  {
    if x in s then s else s + [x]
  }

  /** Lexicographic order on strings, comparing characters by value: a proper
      prefix comes first. */
  predicate StrLess(a: string, b: string)
    decreases |a|
  {
    |b| > 0 && (|a| == 0 || a[0] < b[0] || (a[0] == b[0] && StrLess(a[1..], b[1..])))
  }

  /** Strictly increasing in `StrLess`. */
  predicate StrSorted(s: seq<string>)
  {
    forall i, j :: 0 <= i < j < |s| ==> StrLess(s[i], s[j])
  }

  lemma {:induction false} StrLessIrreflexive(a: string)
    ensures !StrLess(a, a)
    decreases |a|
  {
    if |a| > 0 {
      StrLessIrreflexive(a[1..]);
    }
  }

  lemma {:induction false} StrLessTransitive(a: string, b: string, c: string)
    requires StrLess(a, b) && StrLess(b, c)
    ensures StrLess(a, c)
    decreases |a|
  {
    if |a| > 0 && a[0] == b[0] && b[0] == c[0] {
      StrLessTransitive(a[1..], b[1..], c[1..]);
    }
  }

  lemma {:induction false} StrLessTotal(a: string, b: string)
    ensures a == b || StrLess(a, b) || StrLess(b, a)
    decreases |a|
  {
    if |a| > 0 && |b| > 0 && a[0] == b[0] {
      StrLessTotal(a[1..], b[1..]);
      if a[1..] == b[1..] {
        assert a == [a[0]] + a[1..] && b == [b[0]] + b[1..];
      }
    }
  }

  lemma StrLessAsymmetric(a: string, b: string)
    requires StrLess(a, b)
    ensures !StrLess(b, a) && a != b
  {
    StrLessIrreflexive(a);
    if StrLess(b, a) {
      StrLessTransitive(a, b, a);
    }
  }

  /** Inserts `x` into a strictly increasing sequence, unless it is there. */
  function InsertReal(r: seq<real>, x: real): (r': seq<real>)
    requires Increasing(r)
    ensures Increasing(r')
    ensures forall y :: y in r' <==> y in r || y == x
    decreases |r|
  {
    if r == [] || x < r[0] then [x] + r
    else if x == r[0] then r
    else
      var tail := InsertReal(r[1..], x);
      InsertRealCons(r[0], tail, r[1..], x);
      [r[0]] + tail
  }

  lemma InsertRealCons(head: real, tail: seq<real>, rest: seq<real>, x: real)
    requires Increasing(tail) && head < x
    requires forall y :: y in rest ==> head < y
    requires forall y :: y in tail ==> y in rest || y == x
    ensures Increasing([head] + tail)
  {
    forall i, j | 0 <= i < j < |tail| + 1
      ensures ([head] + tail)[i] < ([head] + tail)[j]
    {
      if i == 0 {
        assert tail[j - 1] in tail;
      }
    }
  }

  /** Inserts `x` into a `StrLess`-sorted sequence, unless it is there. */
  function InsertStr(r: seq<string>, x: string): (r': seq<string>)
    requires StrSorted(r)
    ensures StrSorted(r')
    ensures forall y :: y in r' <==> y in r || y == x
    decreases |r|
  {
    if r == [] || StrLess(x, r[0]) then
      InsertStrFront(r, x);
      [x] + r
    else if x == r[0] then r
    else
      StrLessTotal(x, r[0]);
      var tail := InsertStr(r[1..], x);
      InsertStrCons(r[0], tail, r[1..], x);
      [r[0]] + tail
  }

  lemma InsertStrFront(r: seq<string>, x: string)
    requires StrSorted(r) && (r == [] || StrLess(x, r[0]))
    ensures StrSorted([x] + r)
  {
    forall j | 0 < j < |r| + 1
      ensures StrLess(([x] + r)[0], ([x] + r)[j])
    {
      if j > 1 {
        StrLessTransitive(x, r[0], r[j - 1]);
      }
    }
  }

  lemma InsertStrCons(head: string, tail: seq<string>, rest: seq<string>, x: string)
    requires StrSorted(tail) && StrLess(head, x)
    requires forall y :: y in rest ==> StrLess(head, y)
    requires forall y :: y in tail ==> y in rest || y == x
    ensures StrSorted([head] + tail)
  {
    forall i, j | 0 <= i < j < |tail| + 1
      ensures StrLess(([head] + tail)[i], ([head] + tail)[j])
    {
      if i == 0 {
        assert tail[j - 1] in tail;
      }
    }
  }

  /** `Array.from(set).sort((a, b) => a - b)` */
  method SortReals(s: seq<real>) returns (r: seq<real>)
    ensures Increasing(r)
    ensures forall x :: x in r <==> x in s
  {
    r := [];
    for k := 0 to |s|
      invariant Increasing(r)
      invariant forall x :: x in r <==> x in s[..k]
    {
      r := InsertReal(r, s[k]);
      assert s[..k + 1] == s[..k] + [s[k]];
    }
    assert s[..|s|] == s;
  }

  /** `Array.from(set).sort()` on strings. */
  method SortStrings(s: seq<string>) returns (r: seq<string>)
    ensures StrSorted(r)
    ensures forall x :: x in r <==> x in s
  {
    r := [];
    for k := 0 to |s|
      invariant StrSorted(r)
      invariant forall x :: x in r <==> x in s[..k]
    {
      r := InsertStr(r, s[k]);
      assert s[..k + 1] == s[..k] + [s[k]];
    }
    assert s[..|s|] == s;
  }

  /** In a strictly sorted sequence, position order and string order agree. */
  lemma StrSortedIndexOrder(s: seq<string>, i: nat, j: nat)
    requires StrSorted(s) && i < |s| && j < |s|
    ensures i < j <==> StrLess(s[i], s[j])
    ensures i == j <==> s[i] == s[j]
  {
    if i < j {
      StrLessAsymmetric(s[i], s[j]);
    } else if j < i {
      StrLessAsymmetric(s[j], s[i]);
    } else {
      StrLessIrreflexive(s[i]);
    }
  }
}
