/** Totals of a weight over a sequence, and how they change when one element does. */
module Totals {
  function Total<T>(xs: seq<T>, w: T -> nat): nat {
    if xs == [] then 0 else w(xs[0]) + Total(xs[1..], w)
  }

  lemma {:induction false} TotalUpdate<T>(xs: seq<T>, i: nat, x: T, w: T -> nat)
    requires i < |xs|
    ensures Total(xs[i := x], w) + w(xs[i]) == Total(xs, w) + w(x)
  {
    if i == 0 {
      assert xs[0 := x][1..] == xs[1..];
    } else {
      TotalUpdate(xs[1..], i - 1, x, w);
      assert xs[i := x][1..] == xs[1..][i - 1 := x];
    }
  }

  lemma {:induction false} TotalBound<T>(xs: seq<T>, w: T -> nat, v: T -> nat)
    requires forall i :: 0 <= i < |xs| ==> w(xs[i]) <= v(xs[i])
    ensures Total(xs, w) <= Total(xs, v)
  {
    if xs != [] {
      assert forall i :: 0 <= i < |xs[1..]| ==> xs[1..][i] == xs[i + 1];
      TotalBound(xs[1..], w, v);
    }
  }

  lemma {:induction false} TotalZero<T>(xs: seq<T>, w: T -> nat)
    requires forall i :: 0 <= i < |xs| ==> w(xs[i]) == 0
    ensures Total(xs, w) == 0
  {
    if xs != [] {
      assert forall i :: 0 <= i < |xs[1..]| ==> xs[1..][i] == xs[i + 1];
      TotalZero(xs[1..], w);
    }
  }

  /** One for each of the first `n`, nothing for the rest. */
  lemma {:induction false} TotalPrefix<T>(xs: seq<T>, w: T -> nat, n: nat)
    requires n <= |xs| && forall i :: 0 <= i < |xs| ==> w(xs[i]) == if i < n then 1 else 0
    ensures Total(xs, w) == n
  {
    if n == 0 {
      TotalZero(xs, w);
    } else {
      assert forall i :: 0 <= i < |xs[1..]| ==> xs[1..][i] == xs[i + 1];
      TotalPrefix(xs[1..], w, n - 1);
    }
  }

  /** The same for every element. */
  lemma {:induction false} TotalSame<T>(xs: seq<T>, w: T -> nat, n: nat)
    requires forall i :: 0 <= i < |xs| ==> w(xs[i]) == n
    ensures Total(xs, w) == |xs| * n
  {
    if xs != [] {
      assert forall i :: 0 <= i < |xs[1..]| ==> xs[1..][i] == xs[i + 1];
      TotalSame(xs[1..], w, n);
    }
  }

  /** Nothing but at one place. */
  lemma {:induction false} TotalOne<T>(xs: seq<T>, w: T -> nat, i: nat)
    requires i < |xs| && forall k :: 0 <= k < |xs| && k != i ==> w(xs[k]) == 0
    ensures Total(xs, w) == w(xs[i])
  {
    assert forall k :: 0 <= k < |xs[1..]| ==> xs[1..][k] == xs[k + 1];
    if i == 0 {
      TotalZero(xs[1..], w);
    } else {
      TotalOne(xs[1..], w, i - 1);
    }
  }

  /** A total of numbers. */
  function Sum(ns: seq<nat>): nat {
    if ns == [] then 0 else ns[0] + Sum(ns[1..])
  }

  lemma {:induction false} TotalIsSum<T>(xs: seq<T>, w: T -> nat, ns: seq<nat>)
    requires |xs| == |ns| && forall i :: 0 <= i < |xs| ==> w(xs[i]) == ns[i]
    ensures Total(xs, w) == Sum(ns)
  {
    if xs != [] {
      TotalIsSum(xs[1..], w, ns[1..]);
    }
  }

  lemma {:induction false} TotalAtMostSum<T>(xs: seq<T>, w: T -> nat, ns: seq<nat>)
    requires |xs| == |ns| && forall i :: 0 <= i < |xs| ==> w(xs[i]) <= ns[i]
    ensures Total(xs, w) <= Sum(ns)
  {
    if xs != [] {
      TotalAtMostSum(xs[1..], w, ns[1..]);
    }
  }

  /** One element is at most the total. */
  lemma {:induction false} TotalHas<T>(xs: seq<T>, i: nat, w: T -> nat)
    requires i < |xs|
    ensures w(xs[i]) <= Total(xs, w)
  {
    if i > 0 {
      assert xs[1..][i - 1] == xs[i];
      TotalHas(xs[1..], i - 1, w);
    }
  }

  /** A total is positive when some element weighs something. */
  lemma {:induction false} TotalPositive<T>(xs: seq<T>, w: T -> nat)
    ensures Total(xs, w) > 0 <==> exists i :: 0 <= i < |xs| && w(xs[i]) > 0
  {
    if xs != [] {
      TotalPositive(xs[1..], w);
      assert forall i :: 0 < i < |xs| ==> xs[i] == xs[1..][i - 1];
      if i :| 0 <= i < |xs[1..]| && w(xs[1..][i]) > 0 { assert w(xs[i + 1]) > 0; }
    }
  }

  lemma TotalFirst<T>(xs: seq<T>, w: T -> nat)
    requires xs != []
    ensures Total(xs, w) == w(xs[0]) + Total(xs[1..], w)
  {
  }

  /** A total after one more element. */
  lemma {:induction false} TotalSnoc<T>(xs: seq<T>, x: T, w: T -> nat)
    ensures Total(xs + [x], w) == Total(xs, w) + w(x)
  {
    if xs != [] {
      assert (xs + [x])[1..] == xs[1..] + [x];
      TotalSnoc(xs[1..], x, w);
    } else {
      assert (xs + [x])[1..] == [];
    }
  }

  /** A weight of at most one reaches the length exactly when every element has it. */
  lemma {:induction false} TotalFull<T>(xs: seq<T>, w: T -> nat)
    requires forall i :: 0 <= i < |xs| ==> w(xs[i]) <= 1
    ensures Total(xs, w) <= |xs|
    ensures Total(xs, w) == |xs| <==> forall i :: 0 <= i < |xs| ==> w(xs[i]) == 1
  {
    if xs != [] {
      assert forall i :: 0 <= i < |xs[1..]| ==> xs[1..][i] == xs[i + 1];
      TotalFull(xs[1..], w);
      if Total(xs, w) == |xs| {
        forall i | 0 <= i < |xs|
          ensures w(xs[i]) == 1
        {
          assert i > 0 ==> xs[1..][i - 1] == xs[i];
        }
      }
    }
  }

  /** A bounded demand can be met exactly: any amount up to the sum splits into parts within the bounds. */
  lemma {:induction false} Distribute(bounds: seq<nat>, amount: nat) returns (parts: seq<nat>)
    requires amount <= Sum(bounds)
    ensures |parts| == |bounds| && Sum(parts) == amount
    ensures forall i :: 0 <= i < |bounds| ==> parts[i] <= bounds[i]
  {
    if bounds == [] {
      parts := [];
    } else {
      var first := if amount < bounds[0] then amount else bounds[0];
      var rest := Distribute(bounds[1..], amount - first);
      parts := [first] + rest;
      assert parts[1..] == rest;
    }
  }
}
