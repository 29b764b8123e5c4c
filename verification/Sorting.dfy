/** Listing a finite set in order, as the library function `sorted` does. */
module Sorting {

  ghost predicate TotalOrder<T(!new)>(le: (T, T) -> bool) {
    && (forall x, y :: le(x, y) || le(y, x))
    && (forall x, y :: le(x, y) && le(y, x) ==> x == y)
    && (forall x, y, z :: le(x, y) && le(y, z) ==> le(x, z))
  }

  /** Every element comes before the later ones and differs from them. */
  ghost predicate Increasing<T(!new)>(s: seq<T>, le: (T, T) -> bool) {
    forall i, j :: 0 <= i < j < |s| ==> le(s[i], s[j]) && s[i] != s[j]
  }

  /** The elements of `s`, each once, in the order `le`. */
  function InOrder<T(!new)>(s: set<T>, le: (T, T) -> bool): (r: seq<T>)
    requires TotalOrder(le)
    ensures Increasing(r, le)
    ensures forall x :: x in r <==> x in s
    ensures |r| == |s|
  {
    if s == {} then []
    else
      LeastExists(s, le);
      var least :| least in s && forall y :: y in s ==> le(least, y);
      [least] + InOrder(s - {least}, le)
  }

  lemma {:induction false} LeastExists<T(!new)>(s: set<T>, le: (T, T) -> bool)
    requires TotalOrder(le) && s != {}
    ensures exists x :: x in s && forall y :: y in s ==> le(x, y)
  {
    var x :| x in s;
    var least := x;
    if s - {x} != {} {
      LeastExists(s - {x}, le);
      var rest :| rest in s - {x} && forall y :: y in s - {x} ==> le(rest, y);
      if !le(x, rest) {
        least := rest;
      }
    }
    forall y | y in s
      ensures le(least, y)
    {
      assert y == x || y in s - {x};
    }
  }

  /** An ordered listing is determined by its elements. */
  lemma {:induction false} OrderIsUnique<T(!new)>(a: seq<T>, b: seq<T>, le: (T, T) -> bool)
    requires TotalOrder(le) && Increasing(a, le) && Increasing(b, le)
    requires forall x :: x in a <==> x in b
    ensures a == b
  {
    assert |a| > 0 ==> a[0] in b;
    assert |b| > 0 ==> b[0] in a;
    if |a| > 0 {
      assert a[0] == b[0];
      forall x
        ensures x in a[1..] <==> x in b[1..]
      {
        assert x in a[1..] <==> x in a && x != a[0];
        assert x in b[1..] <==> x in b && x != b[0];
      }
      OrderIsUnique(a[1..], b[1..], le);
      assert a == [a[0]] + a[1..] && b == [b[0]] + b[1..];
    }
  }
}
