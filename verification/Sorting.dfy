/** Rust's stable `sort_by` on a string key, as an order on positions. */
module Sorting {
  import opened Ordering
  import opened Sequences

  /** Position `i` comes before position `j` in the stable order: by key, ties by position. */
  predicate Before<T>(key: T -> string, s: seq<T>, i: nat, j: nat)
    requires i < |s| && j < |s|
  {
    StrLess(key(s[i]), key(s[j])) || (key(s[i]) == key(s[j]) && i < j)
  }

  lemma BeforeTotal<T>(key: T -> string, s: seq<T>, i: nat, j: nat)
    requires i < |s| && j < |s| && i != j
    ensures Before(key, s, i, j) <==> !Before(key, s, j, i)
  {
    StrLessTotal(key(s[i]), key(s[j]));
  }

  lemma BeforeTransitive<T>(key: T -> string, s: seq<T>, i: nat, j: nat, k: nat)
    requires i < |s| && j < |s| && k < |s| && Before(key, s, i, j) && Before(key, s, j, k)
    ensures Before(key, s, i, k)
  {
    if StrLess(key(s[i]), key(s[j])) && StrLess(key(s[j]), key(s[k])) {
      StrLessTransitive(key(s[i]), key(s[j]), key(s[k]));
    }
  }

  lemma BeforeIrreflexive<T>(key: T -> string, s: seq<T>, i: nat, j: nat)
    requires i < |s| && j < |s| && Before(key, s, i, j)
    ensures i != j
  {
    StrLessTotal(key(s[i]), key(s[j]));
  }

  ghost predicate InRange<T>(s: seq<T>, g: seq<nat>) {
    forall a :: 0 <= a < |g| ==> g[a] < |s|
  }

  ghost predicate SortedBy<T>(key: T -> string, s: seq<T>, g: seq<nat>)
    requires InRange(s, g)
  {
    forall a, b :: 0 <= a < b < |g| ==> Before(key, s, g[a], g[b])
  }

  ghost predicate Increasing(g: seq<nat>) {
    forall a, b :: 0 <= a < b < |g| ==> g[a] < g[b]
  }

  lemma InsertSorted<T>(key: T -> string, s: seq<T>, g: seq<nat>, k: nat, x: nat)
    requires InRange(s, g) && SortedBy(key, s, g) && x < |s| && k <= |g|
    requires k < |g| ==> Before(key, s, x, g[k])
    requires k > 0 ==> Before(key, s, g[k - 1], x)
    ensures InRange(s, g[..k] + [x] + g[k..]) && SortedBy(key, s, g[..k] + [x] + g[k..])
  {
    var r := g[..k] + [x] + g[k..];
    forall a | 0 <= a < k ensures Before(key, s, g[a], x) {
      if a < k - 1 {
        BeforeTransitive(key, s, g[a], g[k - 1], x);
      }
    }
    forall b | k <= b < |g| ensures Before(key, s, x, g[b]) {
      if b > k {
        BeforeTransitive(key, s, x, g[k], g[b]);
      }
    }
    assert forall a :: 0 <= a < |r| ==> r[a] == if a < k then g[a] else if a == k then x else g[a - 1];
  }

  /** Insertion of a later position, after every entry whose key is not greater. */
  method InsertByKey<T>(key: T -> string, s: seq<T>, g: seq<nat>, x: nat) returns (r: seq<nat>)
    requires InRange(s, g) && SortedBy(key, s, g) && x < |s| && forall i :: i in g ==> i < x
    ensures InRange(s, r) && SortedBy(key, s, r)
    ensures forall i :: i in r <==> i in g || i == x
  {
    var k := |g|;
    while k > 0 && StrLess(key(s[x]), key(s[g[k - 1]]))
      invariant 0 <= k <= |g|
      invariant k < |g| ==> Before(key, s, x, g[k])
    {
      k := k - 1;
    }
    if k > 0 {
      StrLessTotal(key(s[x]), key(s[g[k - 1]]));
      assert g[k - 1] in g;
    }
    InsertSorted(key, s, g, k, x);
    r := g[..k] + [x] + g[k..];
    assert g == g[..k] + g[k..];
  }

  /** The stable sort of some positions given in order. */
  method StableSort<T>(key: T -> string, s: seq<T>, g: seq<nat>) returns (r: seq<nat>)
    requires Increasing(g) && InRange(s, g)
    ensures InRange(s, r) && SortedBy(key, s, r)
    ensures forall i :: i in r <==> i in g
  {
    r := [];
    for n := 0 to |g|
      invariant InRange(s, r) && SortedBy(key, s, r)
      invariant forall i :: i in r <==> i in g[..n]
    {
      assert g[..n + 1] == g[..n] + [g[n]];
      r := InsertByKey(key, s, r, g[n]);
    }
    assert g[..|g|] == g;
  }

  // ---------------------------------------------------------------- strictly sorted sequences

  ghost predicate StrictlySorted<T>(key: T -> string, s: seq<T>) {
    forall a, b :: 0 <= a < b < |s| ==> StrLess(key(s[a]), key(s[b]))
  }

  lemma HeadIsLeast<T>(key: T -> string, s: seq<T>, x: T)
    requires StrictlySorted(key, s) && x in s
    ensures x == s[0] || StrLess(key(s[0]), key(x))
  {
    var k :| 0 <= k < |s| && s[k] == x;
  }

  /** A strictly sorted sequence is determined by its elements. */
  lemma {:induction false} StrictlySortedUnique<T>(key: T -> string, s: seq<T>, t: seq<T>)
    requires StrictlySorted(key, s) && StrictlySorted(key, t)
    requires forall x :: x in s <==> x in t
    ensures s == t
    decreases |s|
  {
    if s == [] {
      HeadIsMember(t);
    } else {
      assert s[0] in t;
      assert t[0] in s;
      HeadIsLeast(key, s, t[0]);
      HeadIsLeast(key, t, s[0]);
      StrLessTotal(key(s[0]), key(t[0]));
      assert s[0] == t[0];
      forall x ensures x in s[1..] <==> x in t[1..] {
        TailWithoutHead(key, s, x);
        TailWithoutHead(key, t, x);
      }
      StrictlySortedUnique(key, s[1..], t[1..]);
      assert s == [s[0]] + s[1..] && t == [t[0]] + t[1..];
    }
  }

  lemma TailWithoutHead<T>(key: T -> string, s: seq<T>, x: T)
    requires StrictlySorted(key, s) && s != []
    ensures x in s[1..] <==> x in s && x != s[0]
  {
    if x in s[1..] {
      var k :| 0 <= k < |s| - 1 && s[1..][k] == x;
      assert s[k + 1] == x;
      StrLessTotal(key(s[0]), key(x));
    }
    if x in s && x != s[0] {
      var k :| 0 <= k < |s| && s[k] == x;
      assert s[1..][k - 1] == x;
    }
  }
}
