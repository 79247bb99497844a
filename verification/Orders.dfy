/** The orders the board sorts by: text by code point, and sorting by any total order. */
module Orders {

  ghost predicate TotalOrder<T(!new)>(leq: (T, T) -> bool) {
    && (forall a, b :: leq(a, b) || leq(b, a))
    && (forall a, b :: leq(a, b) && leq(b, a) ==> a == b)
    && (forall a, b, c :: leq(a, b) && leq(b, c) ==> leq(a, c))
  }

  /** Text in code-point order, the order of Python's `sorted` on strings. */
  predicate TextLeq(a: string, b: string) {
    |a| == 0 || (|b| != 0 && (a[0] < b[0] || (a[0] == b[0] && TextLeq(a[1..], b[1..]))))
  }

  /** One text comes before another if it is where the other starts, or is less where they first differ. */
  lemma {:induction false} TextLeqIff(a: string, b: string)
    ensures TextLeq(a, b) <==>
            || a <= b
            || exists i :: 0 <= i < |a| && i < |b| && a[..i] == b[..i] && a[i] < b[i]
  {
    if |a| != 0 && |b| != 0 && a[0] == b[0] {
      TextLeqIff(a[1..], b[1..]);
      assert a == [a[0]] + a[1..] && b == [b[0]] + b[1..];
      if i :| 0 <= i < |a| && i < |b| && a[..i] == b[..i] && a[i] < b[i] {
        assert a[1..][..i - 1] == a[..i][1..] && b[1..][..i - 1] == b[..i][1..];
      }
      if i :| 0 <= i < |a| - 1 && i < |b| - 1 && a[1..][..i] == b[1..][..i] && a[1..][i] < b[1..][i] {
        assert a[..i + 1] == [a[0]] + a[1..][..i] && b[..i + 1] == [b[0]] + b[1..][..i];
        assert a[..i + 1] == b[..i + 1] && a[i + 1] < b[i + 1];
      }
    } else if |a| != 0 && |b| != 0 && a[0] < b[0] {
      assert a[..0] == b[..0];
    } else if |a| != 0 && |b| != 0 {
      assert forall i :: 0 < i < |a| && i < |b| ==> a[..i][0] == a[0] && b[..i][0] == b[0];
    }
  }

  lemma {:induction false} TextLeqTotal(a: string, b: string)
    ensures TextLeq(a, b) || TextLeq(b, a)
  {
    if |a| != 0 && |b| != 0 {
      TextLeqTotal(a[1..], b[1..]);
    }
  }

  lemma {:induction false} TextLeqAntisymmetric(a: string, b: string)
    requires TextLeq(a, b) && TextLeq(b, a)
    ensures a == b
  {
    if |a| != 0 && |b| != 0 {
      TextLeqAntisymmetric(a[1..], b[1..]);
      assert a == [a[0]] + a[1..] && b == [b[0]] + b[1..];
    }
  }

  lemma {:induction false} TextLeqTransitive(a: string, b: string, c: string)
    requires TextLeq(a, b) && TextLeq(b, c)
    ensures TextLeq(a, c)
  {
    if |a| != 0 && |b| != 0 && |c| != 0 && a[0] == b[0] == c[0] {
      TextLeqTransitive(a[1..], b[1..], c[1..]);
    }
  }

  lemma TextLeqIsTotalOrder()
    ensures TotalOrder(TextLeq)
  {
    forall a, b ensures TextLeq(a, b) || TextLeq(b, a) { TextLeqTotal(a, b); }
    forall a, b | TextLeq(a, b) && TextLeq(b, a) ensures a == b { TextLeqAntisymmetric(a, b); }
    forall a, b, c | TextLeq(a, b) && TextLeq(b, c) ensures TextLeq(a, c) { TextLeqTransitive(a, b, c); }
  }

  /** A finite non-empty set has a least element. */
  lemma {:induction false} LeastExists<T(!new)>(s: set<T>, leq: (T, T) -> bool)
    requires s != {} && TotalOrder(leq)
    ensures exists m :: m in s && forall x :: x in s ==> leq(m, x)
  {
    var e :| e in s;
    var rest := s - {e};
    if rest == {} {
      assert s == {e};
      assert leq(e, e);
    } else {
      LeastExists(rest, leq);
      var m :| m in rest && forall x :: x in rest ==> leq(m, x);
      var best := if leq(m, e) then m else e;
      forall x | x in s ensures leq(best, x) {
        assert x == e || x in rest;
        assert leq(x, x);
        assert leq(m, e) || leq(e, m);
      }
    }
  }

  ghost predicate Ordered<T>(s: seq<T>, leq: (T, T) -> bool) {
    forall i, j :: 0 <= i < j < |s| ==> leq(s[i], s[j])
  }

  /** Puts `x` before the first element it does not exceed. */
  function Insert<T(!new)>(x: T, s: seq<T>, leq: (T, T) -> bool): (r: seq<T>)
    ensures multiset(r) == multiset{x} + multiset(s)
  {
    if |s| == 0 then [x]
    else if leq(x, s[0]) then [x] + s
    else
      var r := [s[0]] + Insert(x, s[1..], leq);
      assert s == [s[0]] + s[1..];
      r
  }

  function Sort<T(!new)>(s: seq<T>, leq: (T, T) -> bool): (r: seq<T>)
    ensures multiset(r) == multiset(s)
  {
    if |s| == 0 then []
    else
      assert s == [s[0]] + s[1..];
      Insert(s[0], Sort(s[1..], leq), leq)
  }

  lemma {:induction false} InsertOrdered<T(!new)>(x: T, s: seq<T>, leq: (T, T) -> bool)
    requires TotalOrder(leq) && Ordered(s, leq)
    ensures Ordered(Insert(x, s, leq), leq)
  {
    if |s| != 0 && !leq(x, s[0]) {
      var tail := Insert(x, s[1..], leq);
      InsertOrdered(x, s[1..], leq);
      forall y | y in tail ensures leq(s[0], y) {
        assert y in multiset(tail);
        assert y == x || y in multiset(s[1..]);
        assert leq(x, s[0]) || leq(s[0], x);
      }
    }
  }

  lemma {:induction false} SortOrdered<T(!new)>(s: seq<T>, leq: (T, T) -> bool)
    requires TotalOrder(leq)
    ensures Ordered(Sort(s, leq), leq)
  {
    if |s| != 0 {
      SortOrdered(s[1..], leq);
      InsertOrdered(s[0], Sort(s[1..], leq), leq);
    }
  }

  lemma HeadsEqual<T(!new)>(a: seq<T>, b: seq<T>, leq: (T, T) -> bool)
    requires TotalOrder(leq) && Ordered(a, leq) && Ordered(b, leq) && |a| > 0 && |b| > 0
    requires a[0] in b && b[0] in a
    ensures a[0] == b[0]
  {
    var i :| 0 <= i < |a| && a[i] == b[0];
    var j :| 0 <= j < |b| && b[j] == a[0];
    assert leq(a[0], a[0]) && leq(b[0], b[0]);
    assert leq(a[0], b[0]) && leq(b[0], a[0]);
  }

  lemma TailElements<T>(a: seq<T>)
    requires |a| > 0
    ensures multiset(a[1..]) == multiset(a) - multiset{a[0]}
  {
    assert a == [a[0]] + a[1..];
  }

  /** Two ordered sequences with the same elements are the same sequence. */
  lemma {:induction false} OrderedUnique<T(!new)>(a: seq<T>, b: seq<T>, leq: (T, T) -> bool)
    requires TotalOrder(leq) && Ordered(a, leq) && Ordered(b, leq)
    requires multiset(a) == multiset(b)
    ensures a == b
  {
    assert |a| == |multiset(a)| == |multiset(b)| == |b|;
    if |a| != 0 {
      assert a[0] in multiset(b) && b[0] in multiset(a);
      HeadsEqual(a, b, leq);
      TailElements(a);
      TailElements(b);
      OrderedUnique(a[1..], b[1..], leq);
      assert a == [a[0]] + a[1..] && b == [b[0]] + b[1..];
    }
  }

  /** Sorting forgets exactly the order of its input. */
  lemma SortSameIffSameElements<T(!new)>(a: seq<T>, b: seq<T>, leq: (T, T) -> bool)
    requires TotalOrder(leq)
    ensures Sort(a, leq) == Sort(b, leq) <==> multiset(a) == multiset(b)
  {
    SortOrdered(a, leq);
    SortOrdered(b, leq);
    if multiset(a) == multiset(b) {
      OrderedUnique(Sort(a, leq), Sort(b, leq), leq);
    }
  }
}
