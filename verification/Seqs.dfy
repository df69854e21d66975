/** Small facts about sequences of names and columns. */
module Seqs {
  ghost predicate NoDup<T>(s: seq<T>) {
    forall i, j :: 0 <= i < j < |s| ==> s[i] != s[j]
  }

  function Elems<T(==)>(s: seq<T>): set<T> {
    set x | x in s
  }

  // [v for v in s if v in keep]
  function KeepIn<T(==,!new)>(s: seq<T>, keep: set<T>): (r: seq<T>)
    ensures forall x :: x in r <==> x in s && x in keep
  {
    if |s| == 0 then [] else
      KeepIn(s[..|s| - 1], keep) + if s[|s| - 1] in keep then [s[|s| - 1]] else []
  }

  lemma {:induction false} KeepInNoDup<T(!new)>(s: seq<T>, keep: set<T>)
    requires NoDup(s)
    ensures NoDup(KeepIn(s, keep))
  {
    if |s| > 0 {
      var init := s[..|s| - 1];
      KeepInNoDup(init, keep);
      assert s[|s| - 1] !in init;
    }
  }

  lemma {:induction false} KeepInAppend<T(!new)>(a: seq<T>, b: seq<T>, keep: set<T>)
    ensures KeepIn(a + b, keep) == KeepIn(a, keep) + KeepIn(b, keep)
  {
    if |b| == 0 {
      assert a + b == a;
    } else {
      var init := b[..|b| - 1];
      KeepInAppend(a, init, keep);
      assert (a + b)[..|a + b| - 1] == a + init;
    }
  }

  lemma {:induction false} KeepInAll<T(!new)>(s: seq<T>, keep: set<T>)
    requires forall x :: x in s ==> x in keep
    ensures KeepIn(s, keep) == s
  {
    if |s| > 0 {
      KeepInAll(s[..|s| - 1], keep);
      assert s == s[..|s| - 1] + [s[|s| - 1]];
    }
  }

  lemma {:induction false} KeepInNone<T(!new)>(s: seq<T>, keep: set<T>)
    requires forall x :: x in s ==> x !in keep
    ensures KeepIn(s, keep) == []
  {
    if |s| > 0 {
      KeepInNone(s[..|s| - 1], keep);
    }
  }

  // Two filters that agree on the elements of s.
  lemma {:induction false} KeepInSame<T(!new)>(s: seq<T>, a: set<T>, b: set<T>)
    requires forall x :: x in s ==> (x in a <==> x in b)
    ensures KeepIn(s, a) == KeepIn(s, b)
  {
    if |s| > 0 {
      KeepInSame(s[..|s| - 1], a, b);
    }
  }

  lemma {:induction false} KeepInTwice<T(!new)>(s: seq<T>, a: set<T>, b: set<T>)
    ensures KeepIn(KeepIn(s, a), b) == KeepIn(s, a * b)
  {
    if |s| > 0 {
      var init, last := s[..|s| - 1], s[|s| - 1];
      KeepInTwice(init, a, b);
      KeepInAppend(KeepIn(init, a), if last in a then [last] else [], b);
      if last in a {
        assert [last][..0] == [];
        assert KeepIn([last], b) == KeepIn([], b) + if last in b then [last] else [];
      }
    }
  }

  lemma {:induction false} NoDupCard<T(!new)>(s: seq<T>)
    requires NoDup(s)
    ensures |Elems(s)| == |s|
  {
    if |s| > 0 {
      var init, last := s[..|s| - 1], s[|s| - 1];
      NoDupCard(init);
      assert Elems(s) == Elems(init) + {last};
    }
  }

  // A filter that keeps exactly a prefix.
  lemma KeepInPrefix<T(!new)>(prefix: seq<T>, s: seq<T>, keep: set<T>)
    requires prefix <= s && forall x :: x in prefix ==> x in keep
    requires forall x :: x in s[|prefix|..] ==> x !in keep
    ensures KeepIn(s, keep) == prefix
  {
    var rest := s[|prefix|..];
    assert s == prefix + rest;
    KeepInAppend(prefix, rest, keep);
    KeepInAll(prefix, keep);
    KeepInNone(rest, keep);
  }

  // A permutation of 0..n.
  ghost predicate IsPermutation(cols: seq<nat>, n: nat) {
    && |cols| == n && NoDup(cols)
    && forall c :: c in cols <==> 0 <= c < n
  }

  lemma PermutationInRange(cols: seq<nat>, n: nat)
    requires IsPermutation(cols, n)
    ensures forall k :: 0 <= k < |cols| ==> cols[k] < n
  {
    forall k | 0 <= k < |cols| ensures cols[k] < n {
      assert cols[k] in cols;
    }
  }

  function Range(n: nat): (r: set<nat>)
    ensures forall i: nat :: i in r <==> i < n
    ensures |r| == n
  {
    if n == 0 then {} else Range(n - 1) + {n - 1}
  }
}
