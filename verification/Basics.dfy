/** Values shared by every part of the model. */
module Basics {
  datatype Option<+T> = None | Some(value: T)

  datatype Result<+T, +E> = Success(value: T) | Failure(error: E)

  /** A Go slice of T: Nil is distinct from a slice of length zero. */
  datatype Slice<+T> = Nil | Items(items: seq<T>)
  {
    function Elems(): seq<T> {
      if Nil? then [] else items
    }
  }

  /** Go's append: appending nothing to nil leaves nil. */
  function Append<T>(s: Slice<T>, xs: seq<T>): Slice<T> {
    if s.Nil? && xs == [] then Nil else Items(s.Elems() + xs)
  }

  ghost predicate Distinct<T>(xs: seq<T>) {
    forall i, j :: 0 <= i < j < |xs| ==> xs[i] != xs[j]
  }

  lemma Single<T>(xs: seq<T>, x: T)
    requires Distinct(xs) && forall y :: y in xs <==> y == x
    ensures xs == [x]
  {
    assert x in xs;
    assert forall i :: 0 <= i < |xs| ==> xs[i] in xs;
    if |xs| > 1 {
      FirstTwo(xs);
    }
  }

  lemma FirstTwo<T>(xs: seq<T>)
    requires Distinct(xs) && |xs| > 1
    ensures xs[0] != xs[1]
  {
  }

  /** Two elements, in one order or the other. */
  lemma Pair<T>(xs: seq<T>, x: T, y: T)
    requires Distinct(xs) && x != y && forall z :: z in xs <==> z == x || z == y
    ensures xs == [x, y] || xs == [y, x]
  {
    assert x in xs && y in xs;
    assert forall i :: 0 <= i < |xs| ==> xs[i] in xs;
    if |xs| > 2 {
      FirstThree(xs);
    }
  }

  lemma FirstThree<T>(xs: seq<T>)
    requires Distinct(xs) && |xs| > 2
    ensures xs[0] != xs[1] && xs[0] != xs[2] && xs[1] != xs[2]
  {
  }

  lemma EmptyOrInhabited<T>(xs: seq<T>)
    ensures xs == [] || exists x :: x in xs
  {
    if xs != [] {
      assert xs[0] in xs;
    }
  }
}
