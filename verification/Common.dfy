// Small vocabulary shared by the models: optional and JSON values, the
// rounding the service uses everywhere, and counting the members of a finite set.
module Common {

  datatype Option<+T> = None | Some(value: T)

  datatype Json =
    | Null | Bool(b: bool) | Num(n: real) | Str(s: string)
    | Arr(items: seq<Json>) | Obj(fields: map<string, Json>)

  function Max(a: int, b: int): int { if a < b then b else a }

  function Min(a: int, b: int): int { if a < b then a else b }

  function MaxReal(a: real, b: real): real { if a < b then b else a }

  function MinReal(a: real, b: real): real { if a < b then a else b }

  /** `Math.round`: halves go up, also below zero. */
  function Round(x: real): int { (x + 0.5).Floor }

  lemma RoundIsNearest(x: real)
    ensures x - 0.5 < Round(x) as real <= x + 0.5
  {
  }

  lemma RoundMonotone(x: real, y: real)
    requires x <= y
    ensures Round(x) <= Round(y)
  {
  }

  ghost predicate Distinct<T>(s: seq<T>) { forall i, j | 0 <= i < j < |s| :: s[i] != s[j] }

  lemma {:induction false} SubsetCard<T>(small: set<T>, large: set<T>)
    requires small <= large
    ensures |small| <= |large|
  {
    if small != {} {
      var x :| x in small;
      SubsetCard(small - {x}, large - {x});
    }
  }

  lemma MultisetCancel<T>(a: multiset<T>, b: multiset<T>, x: T)
    requires a + multiset{x} == b + multiset{x}
    ensures a == b
  {
    assert a == (a + multiset{x}) - multiset{x};
    assert b == (b + multiset{x}) - multiset{x};
  }

  /** Where in a rearrangement the last element went; the rest is a rearrangement again. */
  lemma FindLast<T>(xs: seq<T>, ys: seq<T>) returns (i: nat)
    requires xs != [] && multiset(xs) == multiset(ys)
    ensures i < |ys| && ys == ys[..i] + [xs[|xs| - 1]] + ys[i + 1..]
    ensures multiset(xs[..|xs| - 1]) == multiset(ys[..i] + ys[i + 1..])
  {
    var n := |xs| - 1;
    assert xs == xs[..n] + [xs[n]];
    assert xs[n] in multiset(ys);
    i :| 0 <= i < |ys| && ys[i] == xs[n];
    assert ys == ys[..i] + [xs[n]] + ys[i + 1..];
    assert multiset(ys) == multiset(ys[..i] + ys[i + 1..]) + multiset{xs[n]};
    MultisetCancel(multiset(xs[..n]), multiset(ys[..i] + ys[i + 1..]), xs[n]);
  }

  function SumOf<T>(xs: seq<T>, weight: T -> nat): nat {
    if xs == [] then 0 else SumOf(xs[..|xs| - 1], weight) + weight(xs[|xs| - 1])
  }

  lemma {:induction false} SumSplits<T>(xs: seq<T>, ys: seq<T>, weight: T -> nat)
    ensures SumOf(xs + ys, weight) == SumOf(xs, weight) + SumOf(ys, weight)
  {
    if ys == [] {
      assert xs + ys == xs;
    } else {
      var n := |ys| - 1;
      SumSplits(xs, ys[..n], weight);
      assert (xs + ys)[..|xs| + n] == xs + ys[..n];
    }
  }

  lemma {:induction false} SumIgnoresOrder<T>(xs: seq<T>, ys: seq<T>, weight: T -> nat)
    requires multiset(xs) == multiset(ys)
    ensures SumOf(xs, weight) == SumOf(ys, weight)
    decreases |xs|
  {
    if xs == [] {
      assert |multiset(ys)| == 0;
    } else {
      var i := FindLast(xs, ys);
      var n := |xs| - 1;
      var front, back := ys[..i], ys[i + 1..];
      SumIgnoresOrder(xs[..n], front + back, weight);
      SumSplits(front, back, weight);
      SumSplits(front + [xs[n]], back, weight);
      SumSplits(front, [xs[n]], weight);
      assert [xs[n]][..0] == [];
    }
  }
}
