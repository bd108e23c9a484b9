/** Duplicate-free sequences, the contents of the intrusive rings.  Rings grow at the back,
    so everything here is defined from the back. */
module Sequences {
  function Front<T>(xs: seq<T>): seq<T>
    requires xs != []
  {
    xs[..|xs| - 1]
  }

  function Last<T>(xs: seq<T>): T
    requires xs != []
  {
    xs[|xs| - 1]
  }

  ghost predicate Distinct<T>(xs: seq<T>) {
    xs == [] || (Last(xs) !in Front(xs) && Distinct(Front(xs)))
  }

  /** What unlinking the node of `x` leaves of a ring. */
  function Without<T(==)>(xs: seq<T>, x: T): (r: seq<T>)
    ensures forall y :: y in r ==> y in xs && y != x
    ensures forall y :: y in xs && y != x ==> y in r
    ensures x !in xs ==> r == xs
  {
    if xs == [] then []
    else
      assert xs == Front(xs) + [Last(xs)];
      if Last(xs) == x then Without(Front(xs), x) else Without(Front(xs), x) + [Last(xs)]
  }

  lemma DistinctSnoc<T>(xs: seq<T>, x: T)
    ensures Distinct(xs + [x]) <==> Distinct(xs) && x !in xs
  {
  }

  lemma {:induction false} WithoutKeepsDistinct<T>(xs: seq<T>, x: T)
    requires Distinct(xs)
    ensures Distinct(Without(xs, x))
  {
    if xs != [] {
      WithoutKeepsDistinct(Front(xs), x);
      DistinctSnoc(Without(Front(xs), x), Last(xs));
    }
  }

  lemma {:induction false} DistinctIndices<T>(xs: seq<T>, i: nat, j: nat)
    requires Distinct(xs) && i < j < |xs|
    ensures xs[i] != xs[j]
  {
    if j == |xs| - 1 {
      assert xs[i] == Front(xs)[i];
    } else {
      DistinctIndices(Front(xs), i, j);
    }
  }

  /** In a ring without duplicates, unlinking is removal at the node's index. */
  lemma {:induction false} WithoutAt<T>(xs: seq<T>, i: nat)
    requires Distinct(xs) && i < |xs|
    ensures Without(xs, xs[i]) == xs[..i] + xs[i + 1..]
  {
    if i < |xs| - 1 {
      DistinctIndices(xs, i, |xs| - 1);
      WithoutAt(Front(xs), i);
      assert xs[..i] + xs[i + 1..] == (Front(xs)[..i] + Front(xs)[i + 1..]) + [Last(xs)];
    }
  }
}
