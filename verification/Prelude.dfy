/** Small shared vocabulary: optional values, minima and ordered enumerations of finite sets. */
module Prelude {

  datatype Option<+T> = None | Some(value: T) {
    function GetOr(default: T): T {
      match this
      case Some(v) => v
      case None => default
    }
  }

  function Min(a: int, b: int): int { if a <= b then a else b }

  function Max(a: int, b: int): int { if a <= b then b else a }

  /** Some element of a non-empty set. */
  ghost function Pick<T>(s: set<T>): (x: T)
    requires s != {}
    ensures x in s
  {
    var x :| x in s;
    x
  }

  ghost predicate IsMinOf(m: int, s: set<int>) {
    m in s && forall x | x in s :: m <= x
  }

  lemma {:induction false} MinExists(s: set<int>)
    requires s != {}
    ensures exists m: int :: IsMinOf(m, s)
  {
    var x := Pick(s);
    var rest := s - {x};
    assert |rest| == |s| - 1;
    if rest != {} {
      MinExists(rest);
      var m :| IsMinOf(m, rest);
      assert forall y | y in s :: y == x || y in rest;
      assert IsMinOf(if m <= x then m else x, s);
    } else {
      assert forall y | y in s :: y == x || y in rest;
      assert IsMinOf(x, s);
    }
  }

  /** The least element, as Python's `min` over a non-empty collection. */
  ghost function MinOf(s: set<int>): (m: int)
    requires s != {}
    ensures IsMinOf(m, s)
  {
    MinExists(s);
    var m :| IsMinOf(m, s);
    m
  }

  predicate StrictlySorted(xs: seq<int>) {
    forall i, j | 0 <= i < j < |xs| :: xs[i] < xs[j]
  }

  ghost function Elements<T(!new)>(xs: seq<T>): (s: set<T>)
    ensures forall x :: x in s <==> x in xs
  {
    set x | x in xs
  }

  /** The elements in increasing order, as Python's `sorted` over distinct integers. */
  ghost function SortedOf(s: set<int>): (xs: seq<int>)
    ensures StrictlySorted(xs)
    ensures Elements(xs) == s
  {
    if s == {} then []
    else
      var m := MinOf(s);
      var rest := SortedOf(s - {m});
      assert forall i | 0 <= i < |rest| :: rest[i] in Elements(rest);
      [m] + rest
  }

  /** There is only one increasing enumeration of a finite set. */
  lemma {:induction false} SortedUnique(xs: seq<int>, ys: seq<int>)
    requires StrictlySorted(xs) && StrictlySorted(ys)
    requires Elements(xs) == Elements(ys)
    ensures xs == ys
  {
    if xs == [] {
      assert forall i | 0 <= i < |ys| :: ys[i] in Elements(ys);
    } else {
      assert xs[0] in Elements(xs);
      assert ys != [];
      assert ys[0] in Elements(ys);
      assert xs[0] == ys[0];
      assert Elements(xs[1..]) == Elements(xs) - {xs[0]} by {
        forall x ensures x in xs[1..] <==> x in Elements(xs) - {xs[0]} {
          if x in xs && x != xs[0] { var i :| 0 <= i < |xs| && xs[i] == x; assert xs[1..][i - 1] == x; }
        }
      }
      assert Elements(ys[1..]) == Elements(ys) - {ys[0]} by {
        forall x ensures x in ys[1..] <==> x in Elements(ys) - {ys[0]} {
          if x in ys && x != ys[0] { var i :| 0 <= i < |ys| && ys[i] == x; assert ys[1..][i - 1] == x; }
        }
      }
      SortedUnique(xs[1..], ys[1..]);
      assert xs == [xs[0]] + xs[1..];
      assert ys == [ys[0]] + ys[1..];
    }
  }

  lemma SortedSingle(w: int)
    ensures SortedOf({w}) == [w]
  {
    assert Elements([w]) == {w};
    SortedUnique(SortedOf({w}), [w]);
  }

  lemma SortedPair(m: int, n: int)
    requires m < n
    ensures SortedOf({m, n}) == [m, n]
  {
    assert Elements([m, n]) == {m, n};
    SortedUnique(SortedOf({m, n}), [m, n]);
  }
}
