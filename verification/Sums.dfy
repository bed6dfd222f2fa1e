/** Adding up a number over the elements of a sequence, as invariants over any number of threads do. */
module Sums {
  ghost function Sum<T>(s: seq<T>, f: T -> nat): nat {
    if s == [] then 0 else Sum(s[..|s| - 1], f) + f(s[|s| - 1])
  }

  lemma {:induction false} SumUpdate<T>(s: seq<T>, f: T -> nat, i: nat, x: T)
    requires i < |s|
    ensures Sum(s[i := x], f) + f(s[i]) == Sum(s, f) + f(x)
    decreases |s|
  {
    var n := |s| - 1;
    if i < n {
      assert s[i := x][..n] == s[..n][i := x];
      SumUpdate(s[..n], f, i, x);
    } else {
      assert s[i := x][..n] == s[..n];
    }
  }

  lemma SumPush<T>(s: seq<T>, f: T -> nat, x: T)
    ensures Sum(s + [x], f) == Sum(s, f) + f(x)
  {
  }

  lemma {:induction false} SumPop<T>(s: seq<T>, f: T -> nat)
    requires s != []
    ensures Sum(s, f) == f(s[0]) + Sum(s[1..], f)
    decreases |s|
  {
    var n := |s| - 1;
    if 0 < n {
      SumPop(s[..n], f);
      assert s[..n][1..] == s[1..][..n - 1];
    }
  }

  lemma {:induction false} SumHas<T>(s: seq<T>, f: T -> nat, i: nat)
    requires i < |s|
    ensures f(s[i]) <= Sum(s, f)
    decreases |s|
  {
    if i < |s| - 1 {
      SumHas(s[..|s| - 1], f, i);
    }
  }

  lemma {:induction false} SumIs<T>(s: seq<T>, f: T -> nat, each: nat)
    requires forall i :: 0 <= i < |s| ==> f(s[i]) == each
    ensures Sum(s, f) == |s| * each
  {
    if s != [] {
      SumIs(s[..|s| - 1], f, each);
      assert |s| * each == (|s| - 1) * each + each;
    }
  }
}
