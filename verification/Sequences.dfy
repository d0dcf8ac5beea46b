/** Facts about sequences shared by the models. */
module Sequences {

  ghost predicate NoRepeats<T>(xs: seq<T>) {
    forall i, j :: 0 <= i < j < |xs| ==> xs[i] != xs[j]
  }

  lemma NoRepeatsConcat<T>(a: seq<T>, b: seq<T>)
    requires NoRepeats(a) && NoRepeats(b)
    requires forall x :: x in a ==> x !in b
    ensures NoRepeats(a + b)
  {
    var c := a + b;
    forall i, j | 0 <= i < j < |c| ensures c[i] != c[j] {
      if i < |a| && j >= |a| {
        assert c[i] in a && c[j] in b;
      }
    }
  }

  lemma HeadIsMember<T>(s: seq<T>)
    ensures s != [] ==> s[0] in s
  {
  }

  lemma Regroup<T>(a: seq<T>, b: seq<T>, c: seq<T>, d: seq<T>)
    ensures a + b + c + d == a + (b + c + d)
  {
  }

  /** A sequence without repetitions is no longer than any sequence covering it. */
  lemma {:induction false} CoveredIsShorter<T>(xs: seq<T>, ys: seq<T>)
    requires NoRepeats(xs) && forall x :: x in xs ==> x in ys
    ensures |xs| <= |ys|
    ensures |xs| == |ys| ==> forall y :: y in ys ==> y in xs
  {
    if xs != [] {
      var n := |xs| - 1;
      assert xs[n] in xs;
      var i :| 0 <= i < |ys| && ys[i] == xs[n];
      var rest := ys[..i] + ys[i + 1..];
      forall x | x in xs[..n] ensures x in rest {
        assert x in ys && x != xs[n];
      }
      CoveredIsShorter(xs[..n], rest);
      assert xs == xs[..n] + [xs[n]];
      assert ys == ys[..i] + [ys[i]] + ys[i + 1..];
    }
  }

  /** The newest `n` entries. */
  function Last<T>(s: seq<T>, n: nat): seq<T> {
    if |s| <= n then s else s[|s| - n..]
  }

  /** The newest `n` entries sit where they did, counted from the end. */
  lemma LastAt<T>(s: seq<T>, n: nat, k: int)
    requires 0 <= k < |Last(s, n)|
    ensures Last(s, n)[k] == s[k + |s| - |Last(s, n)|]
  {
  }

  function Map<T, U>(f: T -> U, xs: seq<T>): seq<U> {
    seq(|xs|, i requires 0 <= i < |xs| => f(xs[i]))
  }

  lemma MapCons<T, U>(f: T -> U, x: T, xs: seq<T>)
    ensures Map(f, [x] + xs) == [f(x)] + Map(f, xs)
  {
  }

  lemma MapSnoc<T, U>(f: T -> U, xs: seq<T>, x: T)
    ensures Map(f, xs + [x]) == Map(f, xs) + [f(x)]
  {
  }

  /** `needle` stands in `s` at index `i`. */
  predicate OccursAt<T(==)>(s: seq<T>, needle: seq<T>, i: int) {
    0 <= i <= |s| - |needle| && s[i..i + |needle|] == needle
  }

  lemma OccursInside<T>(a: seq<T>, b: seq<T>, c: seq<T>, needle: seq<T>, i: int)
    requires OccursAt(b, needle, i)
    ensures OccursAt(a + b + c, needle, |a| + i)
  {
    var s, j := a + b + c, |a| + i;
    assert s[j..j + |needle|] == b[i..i + |needle|];
  }

  lemma OccursOutside<T>(a: seq<T>, b: seq<T>, c: seq<T>, needle: seq<T>, i: int)
    requires OccursAt(a + b + c, needle, |a| + i) && 0 <= i <= |b| - |needle|
    ensures OccursAt(b, needle, i)
  {
    var s, j := a + b + c, |a| + i;
    assert s[j..j + |needle|] == b[i..i + |needle|];
  }
}
