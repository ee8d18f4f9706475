/** Finite counting arguments used by several models. */
module Counting {

  /** A subset is no larger, and smaller when it is a proper one. */
  lemma {:induction false} SubsetCard<T>(a: set<T>, b: set<T>)
    requires a <= b
    ensures |a| <= |b|
    ensures a != b ==> |a| < |b|
  {
    if a != {} {
      var x :| x in a;
      SubsetCard(a - {x}, b - {x});
    } else if b != {} {
      var y :| y in b;
    }
  }

  /** The numbers below n. */
  ghost function NumbersBelow(n: nat): (r: set<nat>)
    ensures |r| == n && forall x: nat :: x in r <==> x < n
  {
    if n == 0 then {} else NumbersBelow(n - 1) + {n - 1}
  }

  ghost function Elements<T(!new)>(a: seq<T>): (r: set<T>)
    ensures forall x :: x in r <==> x in a
  {
    if a == [] then {} else Elements(a[..|a| - 1]) + {a[|a| - 1]}
  }

  ghost predicate Distinct<T>(a: seq<T>) {
    forall i, j :: 0 <= i < j < |a| ==> a[i] != a[j]
  }

  lemma {:induction false} DistinctCard<T(!new)>(a: seq<T>)
    requires Distinct(a)
    ensures |Elements(a)| == |a|
  {
    if a != [] {
      DistinctCard(a[..|a| - 1]);
      assert a[|a| - 1] !in a[..|a| - 1];
    }
  }

  /** Distinct numbers below m that all differ from x are fewer than m. */
  lemma RoomLeft(a: seq<nat>, m: nat, x: nat)
    requires Distinct(a) && x < m
    requires forall i :: 0 <= i < |a| ==> a[i] < m && a[i] != x
    ensures |a| < m
  {
    DistinctCard(a);
    SubsetCard(Elements(a), NumbersBelow(m) - {x});
  }
}
