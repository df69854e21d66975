/** Names in the order Python's sorted() puts them. */
module Names {
  predicate Before(a: string, b: string) {
    |a| == 0 || (|b| > 0 && (a[0] < b[0] || (a[0] == b[0] && Before(a[1..], b[1..]))))
  }

  lemma {:induction false} BeforeTotal(a: string, b: string)
    ensures Before(a, b) || Before(b, a)
  {
    if |a| > 0 && |b| > 0 && a[0] == b[0] {
      BeforeTotal(a[1..], b[1..]);
    }
  }

  lemma {:induction false} BeforeTrans(a: string, b: string, c: string)
    requires Before(a, b) && Before(b, c)
    ensures Before(a, c)
  {
    if |a| > 0 && a[0] == b[0] && b[0] == c[0] {
      BeforeTrans(a[1..], b[1..], c[1..]);
    }
  }

  lemma {:induction false} BeforeAntisym(a: string, b: string)
    requires Before(a, b) && Before(b, a)
    ensures a == b
  {
    if |a| > 0 {
      BeforeAntisym(a[1..], b[1..]);
      assert a == [a[0]] + a[1..] && b == [b[0]] + b[1..];
    }
  }

  predicate IsFirst(m: string, s: set<string>) {
    m in s && forall x :: x in s ==> Before(m, x)
  }

  lemma {:induction false} FirstExists(s: set<string>)
    requires s != {}
    ensures exists m :: IsFirst(m, s)
  {
    var m :| m in s;
    BeforeTotal(m, m);
    if s == {m} {
      assert IsFirst(m, s);
    } else {
      FirstExists(s - {m});
      var rest :| IsFirst(rest, s - {m});
      BeforeTotal(m, rest);
      if Before(m, rest) {
        forall x | x in s ensures Before(m, x) {
          if x != m { BeforeTrans(m, rest, x); }
        }
        assert IsFirst(m, s);
      } else {
        assert IsFirst(rest, s);
      }
    }
  }

  // sorted(s): every element once, in ascending order.
  ghost function Sorted(s: set<string>): (q: seq<string>)
    ensures forall x :: x in q <==> x in s
    ensures forall i, j :: 0 <= i < j < |q| ==> q[i] != q[j] && Before(q[i], q[j])
  {
    if s == {} then [] else
      FirstExists(s);
      var m :| IsFirst(m, s);
      [m] + Sorted(s - {m})
  }

  lemma {:induction false} SortedUnfold(s: set<string>, m: string)
    requires IsFirst(m, s)
    ensures Sorted(s) == [m] + Sorted(s - {m})
  {
    var q := Sorted(s);
    assert m in q && q[0] in s;
    BeforeAntisym(m, q[0]);
    assert q == [q[0]] + Sorted(s - {q[0]});
  }

  method First(s: set<string>) returns (m: string)
    requires s != {}
    ensures IsFirst(m, s)
  {
    m :| m in s;
    var todo := s - {m};
    BeforeTotal(m, m);
    while todo != {}
      invariant todo <= s
      invariant IsFirst(m, s - todo)
      decreases todo
    {
      var x :| x in todo;
      BeforeTotal(x, m);
      BeforeTotal(x, x);
      todo := todo - {x};
      if Before(x, m) {
        forall y | y in s - todo ensures Before(x, y) {
          if y != x { BeforeTrans(x, m, y); }
        }
        m := x;
      }
    }
    assert s - todo == s;
  }

  lemma TakeFirst(q: seq<string>, rest: set<string>, m: string)
    requires IsFirst(m, rest)
    ensures q + Sorted(rest) == (q + [m]) + Sorted(rest - {m})
  {
    SortedUnfold(rest, m);
    hide Sorted, IsFirst;
  }

  lemma SortedNone(q: seq<string>)
    ensures q + Sorted({}) == q
  {}

  // Selection sort of a set of names; the result depends on the set alone.
  method SortNames(s: set<string>) returns (q: seq<string>)
    ensures q == Sorted(s)
  {
    hide *;
    q := [];
    var rest := s;
    while rest != {}
      invariant q + Sorted(rest) == Sorted(s)
      decreases rest
    {
      var m := First(rest);
      TakeFirst(q, rest, m);
      q, rest := q + [m], rest - {m};
    }
    SortedNone(q);
  }
}
