/** Stratification: when the strata are in order, that they then compute the stable model, what shape they have,
    which rules never run, and a program on which merging breaks the order. */
module StratifyCorrect {
  import opened Datalog
  import opened Graph
  import Tarjan
  import opened Dependencies
  import opened StableModel
  import opened SemiNaive
  import opened Stratify
  import opened Variants

  // ========== Stratify correct ==========

  // Stratification: when the strata are in order, that they then compute the stable model, what shape they have, and
  // which rules never run.

  // ========== Stratify correct ==========

  // Stratification puts every relation before its readers, so its strata compute the stable model.

  // What a rule negates in the group it feeds is derived only by rules that do not read the group.
  ghost predicate NegationStratified(groups: seq<set<string>>, rules: seq<Rule>) {
    forall i, j, k :: 0 <= i < |groups| && 0 <= j < |rules| && 0 <= k < |rules| && Feeds(rules[j], groups[i]) ==>
      NegatesBaseOf(rules[j], rules[k], groups[i])
  }

  // If r negates a head of q in the group, then q does not read the group.
  ghost predicate NegatesBaseOf(r: Rule, q: Rule, group: set<string>) {
    NegRels(r) * HeadRels(q) * group != {} ==> !ReadsAny(q, group)
  }

  // The stratum runs rules of the program that write only into group, and whose reads of program relations stay
  // within known.
  ghost predicate FromGroup(s: Stratum, rules: seq<Rule>, group: set<string>, known: set<string>) {
    && s.members == group
    && forall r :: r in s.rules ==> r in rules && HeadRels(r) <= group && BodyRels(r) * Idbs(rules) <= known
  }

  lemma HeadsOfGroup(s: Stratum, rules: seq<Rule>, group: set<string>, known: set<string>)
    requires FromGroup(s, rules, group, known)
    ensures Heads(s.rules) <= group * Idbs(rules)
  {
    forall x | x in Heads(s.rules) ensures x in group && x in Idbs(rules) {
      var k, h :| 0 <= k < |s.rules| && 0 <= h < |s.rules[k].heads| && s.rules[k].heads[h].rel == x;
      assert s.rules[k] in s.rules;
      assert x in HeadRels(s.rules[k]);
      var j :| 0 <= j < |rules| && rules[j] == s.rules[k];
      assert rules[j].heads[h].rel == x;
    }
  }

  lemma FeederReadsKnown(rules: seq<Rule>, g: Graph, groups: seq<set<string>>, i: nat, r: Rule)
    requires IsDepGraph(rules, g) && Tarjan.DependenciesFirst(g, groups)
    requires i < |groups| && r in rules && Feeds(r, groups[i])
    ensures BodyRels(r) * Idbs(rules) <= Tarjan.Members(groups[..i + 1])
  {
    var x :| x in HeadRels(r) && x in groups[i];
    var k :| 0 <= k < |rules| && rules[k] == r;
    forall b | b in BodyRels(r) && b in Idbs(rules) ensures b in Tarjan.Members(groups[..i + 1]) {
      assert Uses(rules, x, b);
      assert DependsOn(rules, x, b);
      assert Edge(g, x, b);
    }
  }

  // They are listed dependencies first, and negation is stratified.
  ghost predicate Stratifiable(rules: seq<Rule>, g: Graph, groups: seq<set<string>>) {
    && IsGrouping(rules, g, groups)
    && Tarjan.DependenciesFirst(g, groups) && NegationStratified(groups, rules)
  }

  lemma FeederOfGroup(rules: seq<Rule>, g: Graph, groups: seq<set<string>>, i: nat, r: Rule)
    requires Stratifiable(rules, g, groups) && i < |groups| && r in rules && Feeds(r, groups[i])
    ensures HeadRels(r) <= groups[i]
    ensures BodyRels(r) * Idbs(rules) <= Tarjan.Members(groups[..i + 1])
  {
    hide IsDepGraph, Tarjan.DependenciesFirst, NegationStratified;
    var k :| 0 <= k < |rules| && rules[k] == r;
    assert HeadRels(rules[k]) <= groups[i] || HeadRels(rules[k]) !! groups[i];
    FeederReadsKnown(rules, g, groups, i, r);
  }

  lemma FeedersOfGroup(rules: seq<Rule>, g: Graph, groups: seq<set<string>>, i: nat, some: seq<Rule>, recursive: bool)
    requires Stratifiable(rules, g, groups) && i < |groups|
    requires forall r :: r in some ==> r in rules && Feeds(r, groups[i])
    ensures FromGroup(Stratum(groups[i], recursive, some), rules, groups[i], Tarjan.Members(groups[..i + 1]))
  {
    hide Stratifiable;
    forall r | r in some
      ensures HeadRels(r) <= groups[i] && BodyRels(r) * Idbs(rules) <= Tarjan.Members(groups[..i + 1])
    {
      FeederOfGroup(rules, g, groups, i, r);
    }
  }

  // Rules that all read the group negate none of their heads.
  lemma ReadersNegateNoHead(s: Stratum, rules: seq<Rule>, groups: seq<set<string>>, i: nat)
    requires NegationStratified(groups, rules) && i < |groups|
    requires forall r ::
        r in s.rules ==> r in rules && Feeds(r, groups[i]) && ReadsAny(r, groups[i]) && HeadRels(r) <= groups[i]
    ensures NegatesNoneOf(s.rules, Heads(s.rules))
  {
    hide Feeds, NegatesBaseOf, ReadsAny, NegRels, HeadRels, NegatesNoneOf, Heads;
    forall r, q | r in s.rules && q in s.rules ensures NegRels(r) !! HeadRels(q) {
      var j :| 0 <= j < |rules| && rules[j] == r;
      var k :| 0 <= k < |rules| && rules[k] == q;
      assert NegatesBaseOf(rules[j], rules[k], groups[i]);
      NegatesNoReader(r, q, groups[i]);
    }
    NegatesNoOwnIff(s);
  }

  lemma NegatesNoReader(r: Rule, q: Rule, group: set<string>)
    requires NegatesBaseOf(r, q, group) && ReadsAny(q, group) && HeadRels(q) <= group
    ensures NegRels(r) !! HeadRels(q)
  {
    hide ReadsAny, HeadRels, NegRels;
    assert NegRels(r) * HeadRels(q) == NegRels(r) * HeadRels(q) * group;
    forall x | x in NegRels(r) ensures x !in HeadRels(q) { assert x !in NegRels(r) * HeadRels(q); }
  }

  // Rules that read no head of their own negate none either.
  lemma NonReadersNegateNoHead(s: Stratum)
    requires ReadsNoneOf(s.rules, Heads(s.rules))
    ensures NegatesNoneOf(s.rules, Heads(s.rules))
  {
    forall k | 0 <= k < |s.rules| ensures NegRels(s.rules[k]) !! Heads(s.rules) { NegRelsAreRead(s.rules[k]); }
  }

  // A rule that does not read the group reads none of its strata's heads.
  lemma NonReaders(some: seq<Rule>, group: set<string>, t: Stratum, rules: seq<Rule>, known: set<string>)
    requires forall r :: r in some ==> !ReadsAny(r, group)
    requires FromGroup(t, rules, group, known)
    ensures ReadsNoneOf(some, Heads(t.rules))
  {
    HeadsOfGroup(t, rules, group, known);
    forall k | 0 <= k < |some| ensures BodyRels(some[k]) !! Heads(t.rules) {
      assert some[k] in some && !ReadsAny(some[k], group);
      forall b | b in BodyRels(some[k]) ensures b !in group {
        assert b !in BodyRels(some[k]) * group;
      }
    }
  }

  lemma StrataOfGroup(rules: seq<Rule>, g: Graph, groups: seq<set<string>>, i: nat)
    requires Stratifiable(rules, g, groups) && i < |groups|
    ensures WellStratified(StrataFor(groups[i], rules, g))
    ensures forall s ::
        s in StrataFor(groups[i], rules, g) ==> FromGroup(s, rules, groups[i], Tarjan.Members(groups[..i + 1]))
  {
    var scc, known := groups[i], Tarjan.Members(groups[..i + 1]);
    var mine := RulesFor(rules, scc);
    var base, rec := Stratum(scc, false, Readers(mine, scc, false)), Stratum(scc, true, Readers(mine, scc, true));
    var whole := Stratum(scc, false, mine);
    hide Stratifiable, IsGrouping, FromGroup, IsRecursive, ReadsNoneOf, NegatesNoneOf, Heads, Feeds, ReadsAny, RulesFor,
        Readers, WellStratified;
    FeedersOfGroup(rules, g, groups, i, base.rules, false);
    FeedersOfGroup(rules, g, groups, i, rec.rules, true);
    FeedersOfGroup(rules, g, groups, i, mine, false);
    if IsRecursive(scc, g) {
      NonReaders(base.rules, scc, base, rules, known);
      NonReadersNegateNoHead(base);
      NonReaders(base.rules, scc, rec, rules, known);
      LoopNegatesNoHead(rules, g, groups, i, rec);
      TwoStrata(base, rec);
    } else {
      assert IsGrouping(rules, g, groups) by { GroupingOf(rules, g, groups); }
      forall r | r in mine ensures !ReadsAny(r, scc) {
        NonRecursiveReadsNothing(rules, g, groups, i, r);
      }
      NonReaders(mine, scc, whole, rules, known);
      NonReadersNegateNoHead(whole);
      OneStratum(whole);
    }
  }

  lemma GroupingOf(rules: seq<Rule>, g: Graph, groups: seq<set<string>>)
    requires Stratifiable(rules, g, groups)
    ensures IsGrouping(rules, g, groups)
  {}

  lemma OneStratum(s: Stratum)
    requires ReadsNoneOf(s.rules, Heads(s.rules)) && NegatesNoneOf(s.rules, Heads(s.rules))
    ensures WellStratified(Nonempty(s))
  {
    hide ReadsNoneOf, NegatesNoneOf, Heads;
  }

  lemma TwoStrata(base: Stratum, rec: Stratum)
    requires ReadsNoneOf(base.rules, Heads(base.rules)) && NegatesNoneOf(base.rules, Heads(base.rules))
    requires ReadsNoneOf(base.rules, Heads(rec.rules)) && NegatesNoneOf(rec.rules, Heads(rec.rules)) && rec.recursive
    ensures WellStratified(Nonempty(base) + Nonempty(rec))
  {
    hide ReadsNoneOf, NegatesNoneOf, Heads;
  }

  lemma LoopNegatesNoHead(rules: seq<Rule>, g: Graph, groups: seq<set<string>>, i: nat, rec: Stratum)
    requires Stratifiable(rules, g, groups) && i < |groups|
    requires rec.rules == Readers(RulesFor(rules, groups[i]), groups[i], true)
    ensures NegatesNoneOf(rec.rules, Heads(rec.rules))
  {
    assert NegationStratified(groups, rules);
    forall r | r in rec.rules ensures HeadRels(r) <= groups[i] { FeederOfGroup(rules, g, groups, i, r); }
    hide Stratifiable, NegationStratified, NegatesNoneOf, Heads, RulesFor, Readers;
    ReadersNegateNoHead(rec, rules, groups, i);
  }

  lemma NonRecursiveReadsNothing(rules: seq<Rule>, g: Graph, groups: seq<set<string>>, i: nat, r: Rule)
    requires IsGrouping(rules, g, groups) && i < |groups| && !IsRecursive(groups[i], g)
    requires r in rules && Feeds(r, groups[i])
    ensures !ReadsAny(r, groups[i])
  {
    hide HeadsTogether;
    var k :| 0 <= k < |rules| && rules[k] == r;
    var x :| x in HeadRels(r) && x in groups[i];
    assert !Edge(g, x, x) && !DependsOn(rules, x, x);
    assert x in g.Keys;
    forall b | b in groups[i] ensures b == x {
      OnlyMember(groups[i], x, b);
    }
    assert x in BodyRels(r) ==> Uses(rules, x, x);
  }

  lemma OnlyMember(s: set<string>, x: string, y: string)
    requires |s| <= 1 && x in s && y in s
    ensures x == y
  {
    assert |s - {x}| + 1 == |s|;
    assert y !in s - {x};
  }

  // --- All the strata before fusion ---

  ghost predicate EarlyStratum(s: Stratum, rules: seq<Rule>, groups: seq<set<string>>, n: nat)
    requires n <= |groups|
  {
    exists i :: 0 <= i < n && FromGroup(s, rules, groups[i], Tarjan.Members(groups[..i + 1]))
  }

  lemma WellStratifiedAppend(a: seq<Stratum>, b: seq<Stratum>)
    requires WellStratified(a) && WellStratified(b)
    requires forall s, t :: s in a && t in b ==> ReadsNoneOf(s.rules, Heads(t.rules))
    ensures WellStratified(a + b)
  {
    hide ReadsNoneOf, NegatesNoneOf, Heads;
    var all := a + b;
    forall i, j | 0 <= i < j < |all| ensures ReadsNoneOf(all[i].rules, Heads(all[j].rules)) {
      if j < |a| {
        assert ReadsNoneOf(a[i].rules, Heads(a[j].rules));
      } else if i < |a| {
        assert all[i] in a && all[j] in b;
      } else {
        assert ReadsNoneOf(b[i - |a|].rules, Heads(b[j - |a|].rules));
      }
    }
  }

  lemma EarlierGroupReadsNoLater(rules: seq<Rule>, g: Graph, groups: seq<set<string>>, n: nat, s: Stratum, t: Stratum)
    requires Stratifiable(rules, g, groups) && n < |groups| && EarlyStratum(s, rules, groups, n)
    requires FromGroup(t, rules, groups[n], Tarjan.Members(groups[..n + 1]))
    ensures ReadsNoneOf(s.rules, Heads(t.rules))
  {
    hide IsDepGraph, HeadsTogether, NegationStratified, Tarjan.DependenciesFirst;
    var i :| 0 <= i < n && FromGroup(s, rules, groups[i], Tarjan.Members(groups[..i + 1]));
    HeadsOfGroup(t, rules, groups[n], Tarjan.Members(groups[..n + 1]));
    forall k | 0 <= k < |s.rules| ensures BodyRels(s.rules[k]) !! Heads(t.rules) {
      assert s.rules[k] in s.rules;
      forall b | b in BodyRels(s.rules[k]) && b in Idbs(rules) ensures b !in groups[n] {
        assert b in Tarjan.Members(groups[..i + 1]);
      }
    }
  }

  lemma {:induction false} InitialWellStratified(rules: seq<Rule>, g: Graph, groups: seq<set<string>>, n: nat)
    requires Stratifiable(rules, g, groups) && n <= |groups|
    ensures WellStratified(InitialStrata(groups[..n], rules, g))
    ensures forall s :: s in InitialStrata(groups[..n], rules, g) ==> EarlyStratum(s, rules, groups, n)
  {
    hide Stratifiable, FromGroup, StrataFor, ReadsNoneOf, WellStratified;
    if n == 0 {
      EmptyWellStratified();
    } else {
      InitialWellStratified(rules, g, groups, n - 1);
      assert groups[..n][..n - 1] == groups[..n - 1];
      var a, b := InitialStrata(groups[..n - 1], rules, g), StrataFor(groups[n - 1], rules, g);
      StrataOfGroup(rules, g, groups, n - 1);
      forall s, t | s in a && t in b ensures ReadsNoneOf(s.rules, Heads(t.rules)) {
        EarlierGroupReadsNoLater(rules, g, groups, n - 1, s, t);
      }
      WellStratifiedAppend(a, b);
    }
  }

  lemma EmptyWellStratified()
    ensures WellStratified([])
  {}

  predicate Holds(strata: seq<Stratum>, r: Rule) {
    exists i :: 0 <= i < |strata| && r in strata[i].rules
  }

  lemma {:induction false} InitialHolds(groups: seq<set<string>>, rules: seq<Rule>, g: Graph, r: Rule)
    ensures Holds(InitialStrata(groups, rules, g), r)
        <==> r in rules && exists i :: 0 <= i < |groups| && Feeds(r, groups[i])
  {
    hide Holds, Feeds, StrataFor;
    NothingHolds(r);
    if |groups| > 0 {
      var n := |groups| - 1;
      InitialHolds(groups[..n], rules, g, r);
      GroupHolds(groups[n], rules, g, r);
      HoldsAppend(InitialStrata(groups[..n], rules, g), StrataFor(groups[n], rules, g), r);
    }
  }

  lemma NothingHolds(r: Rule)
    ensures !Holds([], r)
  {}

  lemma HoldsAppend(a: seq<Stratum>, b: seq<Stratum>, r: Rule)
    ensures Holds(a + b, r) <==> Holds(a, r) || Holds(b, r)
  {
    if Holds(a, r) {
      var i :| 0 <= i < |a| && r in a[i].rules;
      assert (a + b)[i] == a[i];
    }
    if Holds(b, r) {
      var i :| 0 <= i < |b| && r in b[i].rules;
      assert (a + b)[|a| + i] == b[i];
    }
  }

  lemma NonemptyHolds(s: Stratum, r: Rule)
    ensures Holds(Nonempty(s), r) <==> r in s.rules
  {
    if r in s.rules {
      assert r in Nonempty(s)[0].rules;
    }
  }

  lemma GroupHolds(scc: set<string>, rules: seq<Rule>, g: Graph, r: Rule)
    ensures Holds(StrataFor(scc, rules, g), r) <==> r in rules && Feeds(r, scc)
  {
    hide Holds, Nonempty, Feeds, ReadsAny, IsRecursive;
    var mine := RulesFor(rules, scc);
    var base, rec := Stratum(scc, false, Readers(mine, scc, false)), Stratum(scc, true, Readers(mine, scc, true));
    NonemptyHolds(base, r);
    NonemptyHolds(rec, r);
    NonemptyHolds(Stratum(scc, false, mine), r);
    HoldsAppend(Nonempty(base), Nonempty(rec), r);
  }

  // --- Fusion ---

  // No rule of a reads a head of a rule of b.
  ghost predicate Apart(a: Stratum, b: Stratum) {
    forall r, q :: r in a.rules && q in b.rules ==> BodyRels(r) !! HeadRels(q)
  }

  lemma ApartIffReadsNone(a: Stratum, b: Stratum)
    ensures Apart(a, b) <==> ReadsNoneOf(a.rules, Heads(b.rules))
  {
    hide BodyRels;
    if Apart(a, b) {
      forall k | 0 <= k < |a.rules| ensures BodyRels(a.rules[k]) !! Heads(b.rules) {
        forall x | x in Heads(b.rules) ensures x !in BodyRels(a.rules[k]) {
          var j, h :| 0 <= j < |b.rules| && 0 <= h < |b.rules[j].heads| && b.rules[j].heads[h].rel == x;
          assert x in HeadRels(b.rules[j]) && a.rules[k] in a.rules && b.rules[j] in b.rules;
        }
      }
    }
    if ReadsNoneOf(a.rules, Heads(b.rules)) {
      forall r, q | r in a.rules && q in b.rules ensures BodyRels(r) !! HeadRels(q) {
        var k :| 0 <= k < |a.rules| && a.rules[k] == r;
        var j :| 0 <= j < |b.rules| && b.rules[j] == q;
        forall x | x in HeadRels(q) ensures x in Heads(b.rules) {
          var h :| 0 <= h < |q.heads| && q.heads[h].rel == x;
          assert b.rules[j].heads[h].rel == x;
        }
      }
    }
  }

  ghost predicate NegatesNoOwn(s: Stratum) {
    forall r, q :: r in s.rules && q in s.rules ==> NegRels(r) !! HeadRels(q)
  }

  lemma NegatesNoOwnIff(s: Stratum)
    ensures NegatesNoOwn(s) <==> NegatesNoneOf(s.rules, Heads(s.rules))
  {
    hide NegRels;
    if NegatesNoOwn(s) {
      forall k | 0 <= k < |s.rules| ensures NegRels(s.rules[k]) !! Heads(s.rules) {
        forall x | x in Heads(s.rules) ensures x !in NegRels(s.rules[k]) {
          var j, h :| 0 <= j < |s.rules| && 0 <= h < |s.rules[j].heads| && s.rules[j].heads[h].rel == x;
          assert x in HeadRels(s.rules[j]) && s.rules[k] in s.rules && s.rules[j] in s.rules;
        }
      }
    }
    if NegatesNoneOf(s.rules, Heads(s.rules)) {
      forall r, q | r in s.rules && q in s.rules ensures NegRels(r) !! HeadRels(q) {
        var k :| 0 <= k < |s.rules| && s.rules[k] == r;
        var j :| 0 <= j < |s.rules| && s.rules[j] == q;
        forall x | x in HeadRels(q) ensures x in Heads(s.rules) {
          var h :| 0 <= h < |q.heads| && q.heads[h].rel == x;
          assert s.rules[j].heads[h].rel == x;
        }
      }
    }
  }

  // WellStratified, rule by rule.
  ghost predicate InOrder(strata: seq<Stratum>) {
    && (forall i, j :: 0 <= i < j < |strata| ==> Apart(strata[i], strata[j]))
    && (forall i ::
        0 <= i < |strata| ==> NegatesNoOwn(strata[i]) && (strata[i].recursive || Apart(strata[i], strata[i])))
  }

  lemma InOrderIffWellStratified(strata: seq<Stratum>)
    ensures InOrder(strata) <==> WellStratified(strata)
  {
    hide Apart, ReadsNoneOf, NegatesNoOwn, NegatesNoneOf, Heads;
    forall i, j | 0 <= i < |strata| && 0 <= j < |strata|
      ensures Apart(strata[i], strata[j]) <==> ReadsNoneOf(strata[i].rules, Heads(strata[j].rules))
    {
      ApartIffReadsNone(strata[i], strata[j]);
    }
    forall i | 0 <= i < |strata|
      ensures NegatesNoOwn(strata[i]) <==> NegatesNoneOf(strata[i].rules, Heads(strata[i].rules)) {
      NegatesNoOwnIff(strata[i]);
    }
  }

  // Every head of the stratum is among its members.
  ghost predicate Owned(s: Stratum) {
    forall q :: q in s.rules ==> HeadRels(q) <= s.members
  }

  ghost predicate AllOwned(strata: seq<Stratum>) {
    forall s :: s in strata ==> Owned(s)
  }

  lemma IndependentIsApart(a: Stratum, b: Stratum)
    requires Owned(a) && !StratumDependsOn(b, a.members)
    ensures Apart(b, a)
  {
    forall r, q | r in b.rules && q in a.rules ensures BodyRels(r) !! HeadRels(q) {
      var k :| 0 <= k < |b.rules| && b.rules[k] == r;
      assert !ReadsAny(b.rules[k], a.members);
      forall x | x in BodyRels(r) ensures x !in HeadRels(q) {
        assert x !in BodyRels(r) * a.members;
      }
    }
  }

  lemma MergeKeepsOrder(a: Stratum, b: Stratum, tail: seq<Stratum>)
    requires InOrder([a, b] + tail) && AllOwned([a, b] + tail)
    requires !a.recursive && !b.recursive && Apart(b, a)
    ensures InOrder([Merged(a, b)] + tail) && AllOwned([Merged(a, b)] + tail)
  {
    hide NegatesNoOwn, Owned;
    var all, out := [a, b] + tail, [Merged(a, b)] + tail;
    assert all[0] == a && all[1] == b;
    assert Apart(a, b) && Apart(a, a) && Apart(b, b) && NegatesNoOwn(a) && NegatesNoOwn(b);
    MergedIsSound(a, b);
    forall i, j | 0 <= i < j < |out| ensures Apart(out[i], out[j]) {
      assert Apart(all[i + 1], all[j + 1]);
      if i == 0 {
        assert Apart(all[0], all[j + 1]);
      }
    }
    forall i | 1 <= i < |out| ensures out[i] == all[i + 1] {}
  }

  lemma MergedIsSound(a: Stratum, b: Stratum)
    requires Apart(a, b) && Apart(b, a) && Apart(a, a) && Apart(b, b) && Owned(a) && Owned(b)
    ensures Apart(Merged(a, b), Merged(a, b)) && NegatesNoOwn(Merged(a, b)) && Owned(Merged(a, b))
  {
    var m := Merged(a, b);
    forall r, q | r in m.rules && q in m.rules ensures BodyRels(r) !! HeadRels(q) && NegRels(r) !! HeadRels(q) {
      NegRelsAreRead(r);
    }
  }

  lemma {:induction false} AbsorbKeepsOrder(cur: Stratum, rest: seq<Stratum>, recursiveMembers: set<string>)
    requires !cur.recursive && InOrder([cur] + rest) && AllOwned([cur] + rest)
    ensures var r := Absorb(cur, rest, recursiveMembers);
      && !r.0.recursive && InOrder([r.0] + rest[r.1..]) && AllOwned([r.0] + rest[r.1..])
      && forall q :: Holds([r.0] + rest[r.1..], q) <==> Holds([cur] + rest, q)
    decreases |rest|
  {
    hide Apart, InOrder, AllOwned, Owned, StratumDependsOn, Holds;
    if rest != [] && Fusable(rest[0], recursiveMembers) && !StratumDependsOn(rest[0], cur.members) {
      var next, tail := rest[0], rest[1..];
      assert [cur] + rest == [cur, next] + tail;
      OwnedFirst(cur, rest);
      IndependentIsApart(cur, next);
      MergeKeepsOrder(cur, next, tail);
      AbsorbKeepsOrder(Merged(cur, next), tail, recursiveMembers);
      forall q ensures Holds([Merged(cur, next)] + tail, q) <==> Holds([cur, next] + tail, q) {
        MergedHolds(cur, next, tail, q);
      }
      var r := Absorb(Merged(cur, next), tail, recursiveMembers);
      assert rest[r.1 + 1..] == tail[r.1..];
    }
  }

  lemma OwnedFirst(cur: Stratum, rest: seq<Stratum>)
    requires AllOwned([cur] + rest)
    ensures Owned(cur) && AllOwned(rest)
  {
    assert ([cur] + rest)[0] == cur;
  }

  lemma MergedHolds(a: Stratum, b: Stratum, tail: seq<Stratum>, q: Rule)
    ensures Holds([Merged(a, b)] + tail, q) <==> Holds([a, b] + tail, q)
  {
    HoldsAppend([Merged(a, b)], tail, q);
    HoldsAppend([a, b], tail, q);
    if Holds([a, b], q) {
      assert q in [Merged(a, b)][0].rules;
    }
    if Holds([Merged(a, b)], q) {
      assert q in [a, b][0].rules || q in [a, b][1].rules;
    }
  }

  // Prepending a stratum that is apart from every rule of the rest.
  lemma ConsInOrder(c: Stratum, rest: seq<Stratum>, out: seq<Stratum>)
    requires InOrder([c] + rest) && InOrder(out)
    requires forall q :: Holds(out, q) ==> Holds(rest, q)
    ensures InOrder([c] + out)
  {
    hide HeadRels, BodyRels;
    var before, after := [c] + rest, [c] + out;
    assert before[0] == c;
    forall j | 0 < j < |after| ensures Apart(c, after[j]) {
      forall r, q | r in c.rules && q in after[j].rules ensures BodyRels(r) !! HeadRels(q) {
        assert q in out[j - 1].rules && Holds(out, q);
        var i :| 0 <= i < |rest| && q in rest[i].rules;
        assert Apart(before[0], before[i + 1]);
      }
    }
    forall i, j | 0 <= i < j < |after| ensures Apart(after[i], after[j]) {
      if i > 0 { assert Apart(out[i - 1], out[j - 1]); }
    }
  }

  lemma DropInOrder(strata: seq<Stratum>, n: nat)
    requires n <= |strata| && InOrder(strata) && AllOwned(strata)
    ensures InOrder(strata[n..]) && AllOwned(strata[n..])
  {
    var rest := strata[n..];
    forall i, j | 0 <= i < j < |rest| ensures Apart(rest[i], rest[j]) {
      assert Apart(strata[n + i], strata[n + j]);
    }
  }

  // Fusion keeps the order and the rules.
  lemma {:induction false} FuseKeepsOrder(strata: seq<Stratum>, recursiveMembers: set<string>)
    requires InOrder(strata) && AllOwned(strata)
    ensures InOrder(FuseAll(strata, recursiveMembers))
    ensures forall q :: Holds(FuseAll(strata, recursiveMembers), q) <==> Holds(strata, q)
    decreases |strata|
  {
    hide Apart, InOrder, AllOwned, Holds, Absorb;
    if strata == [] {
    } else {
      var first, tail := strata[0], strata[1..];
      assert strata == [first] + tail;
      var c, n := first, 0;
      if Fusable(first, recursiveMembers) {
        AbsorbKeepsOrder(first, tail, recursiveMembers);
        c, n := Absorb(first, tail, recursiveMembers).0, Absorb(first, tail, recursiveMembers).1;
      }
      var rest := tail[n..];
      assert strata[1 + n..] == rest;
      assert InOrder([c] + rest) && AllOwned([c] + rest);
      DropInOrder([c] + rest, 1);
      assert ([c] + rest)[1..] == rest;
      FuseKeepsOrder(rest, recursiveMembers);
      var out := FuseAll(rest, recursiveMembers);
      ConsInOrder(c, rest, out);
      forall q ensures Holds([c] + out, q) <==> Holds([c] + rest, q) {
        HoldsAppend([c], out, q);
        HoldsAppend([c], rest, q);
      }
    }
  }

  // --- The whole pass ---

  lemma InitialOwned(rules: seq<Rule>, g: Graph, groups: seq<set<string>>)
    requires Stratifiable(rules, g, groups)
    ensures AllOwned(InitialStrata(groups, rules, g))
  {
    InitialWellStratified(rules, g, groups, |groups|);
    assert groups[..|groups|] == groups;
    forall s | s in InitialStrata(groups, rules, g) ensures Owned(s) {
      assert EarlyStratum(s, rules, groups, |groups|);
    }
  }

  lemma {:induction false} InitialSplit(groups: seq<set<string>>, rules: seq<Rule>, g: Graph, n: nat)
    returns (later: seq<Stratum>)
    requires n <= |groups|
    ensures InitialStrata(groups, rules, g) == InitialStrata(groups[..n], rules, g) + later
    decreases |groups|
  {
    hide StrataFor;
    if n == |groups| {
      assert groups[..n] == groups;
      later := [];
    } else {
      var m := |groups| - 1;
      var init := groups[..m];
      var before := InitialSplit(init, rules, g, n);
      assert init[..n] == groups[..n];
      var last := StrataFor(groups[m], rules, g);
      later := before + last;
      assert InitialStrata(groups, rules, g) == InitialStrata(init, rules, g) + last;
    }
  }

  lemma HolderBeforeHolder(a: seq<Stratum>, b: seq<Stratum>, r: Rule, q: Rule)
    requires InOrder(a + b) && Holds(a, r) && Holds(b, q)
    ensures BodyRels(r) !! HeadRels(q)
  {
    var i :| 0 <= i < |a| && r in a[i].rules;
    var j :| 0 <= j < |b| && q in b[j].rules;
    assert (a + b)[i] == a[i] && (a + b)[|a| + j] == b[j];
    assert Apart((a + b)[i], (a + b)[|a| + j]);
  }

  lemma FeedsOneGroup(rules: seq<Rule>, groups: seq<set<string>>, q: Rule, y: string, n: nat)
    requires Disjoint(groups) && HeadsTogether(groups, rules) && n <= |groups|
    requires q in rules && y in HeadRels(q) && y in Tarjan.Members(groups) && y !in Tarjan.Members(groups[..n])
    ensures !exists i :: 0 <= i < n && Feeds(q, groups[i])
  {
    var k :| 0 <= k < |rules| && rules[k] == q;
    forall i | 0 <= i < n ensures !Feeds(q, groups[i]) {
      assert groups[..n][i] == groups[i];
      assert y !in groups[i];
      assert HeadRels(rules[k]) !! groups[i];
    }
  }

  lemma OrderedEdge(rules: seq<Rule>, g: Graph, groups: seq<set<string>>, i: nat, x: string, y: string)
    requires IsGrouping(rules, g, groups) && InOrder(InitialStrata(groups, rules, g))
    requires i < |groups| && x in groups[i] && Edge(g, x, y)
    ensures y in Tarjan.Members(groups[..i + 1])
  {
    hide InitialStrata, HeadsTogether, BodyRels, Edge, Disjoint;
    assert DependsOn(rules, x, y);
    var k :| 0 <= k < |rules| && x in HeadRels(rules[k]) && y in BodyRels(rules[k]);
    var j, h :| 0 <= j < |rules| && 0 <= h < |rules[j].heads| && rules[j].heads[h].rel == y;
    var r, q := rules[k], rules[j];
    assert y in HeadRels(q) && y in Tarjan.Members(groups);
    var later := InitialSplit(groups, rules, g, i + 1);
    if y !in Tarjan.Members(groups[..i + 1]) {
      OrderedEdgeClash(rules, g, groups, i, x, y, r, q, later);
    }
  }

  lemma OrderedEdgeClash(rules: seq<Rule>, g: Graph, groups: seq<set<string>>, i: nat, x: string, y: string,
                         r: Rule, q: Rule, later: seq<Stratum>)
    requires Disjoint(groups) && HeadsTogether(groups, rules) && i < |groups|
    requires InOrder(InitialStrata(groups, rules, g))
    requires InitialStrata(groups, rules, g) == InitialStrata(groups[..i + 1], rules, g) + later
    requires r in rules && x in HeadRels(r) && x in groups[i] && y in BodyRels(r)
    requires q in rules && y in HeadRels(q) && y in Tarjan.Members(groups)
    ensures y in Tarjan.Members(groups[..i + 1])
  {
    hide InOrder, Holds, HeadsTogether, InitialStrata, Tarjan.Members;
    if y !in Tarjan.Members(groups[..i + 1]) {
      var early := groups[..i + 1];
      FeedsOneGroup(rules, groups, q, y, i + 1);
      InitialHolds(early, rules, g, r);
      assert x in HeadRels(r) * early[i];
      InitialHolds(early, rules, g, q);
      InitialHolds(groups, rules, g, q);
      HoldsAppend(InitialStrata(early, rules, g), later, q);
      var m :| 0 <= m < |groups| && y in groups[m];
      assert y in HeadRels(q) * groups[m];
      HolderBeforeHolder(InitialStrata(early, rules, g), later, r, q);
    }
  }

  // --- Negation in strata that are in order ---

  lemma NonemptyInside(s: Stratum, r: Rule)
    requires r in s.rules
    ensures s in Nonempty(s)
  {}

  // Two readers of a group that feed it are in one loop.
  lemma TogetherInLoop(rules: seq<Rule>, g: Graph, groups: seq<set<string>>, i: nat, r: Rule, q: Rule)
    requires IsGrouping(rules, g, groups) && i < |groups| && r in rules && q in rules
    requires Feeds(r, groups[i]) && ReadsAny(r, groups[i]) && Feeds(q, groups[i]) && ReadsAny(q, groups[i])
    ensures exists s :: s in StrataFor(groups[i], rules, g) && r in s.rules && q in s.rules
  {
    var mine := RulesFor(rules, groups[i]);
    var rec := Stratum(groups[i], true, Readers(mine, groups[i], true));
    hide IsGrouping, Feeds, ReadsAny, IsRecursive;
    if !IsRecursive(groups[i], g) { NonRecursiveReadsNothing(rules, g, groups, i, r); }
    NonemptyInside(rec, r);
    assert rec in StrataFor(groups[i], rules, g);
  }

  lemma {:induction false} GroupStratumListed(groups: seq<set<string>>, rules: seq<Rule>, g: Graph, i: nat, s: Stratum)
    requires i < |groups| && s in StrataFor(groups[i], rules, g)
    ensures s in InitialStrata(groups, rules, g)
  {
    hide StrataFor;
    if i < |groups| - 1 { GroupStratumListed(groups[..|groups| - 1], rules, g, i, s); }
  }

  lemma OrderStratifiesNegation(rules: seq<Rule>, g: Graph, groups: seq<set<string>>)
    requires IsGrouping(rules, g, groups) && InOrder(InitialStrata(groups, rules, g))
    ensures NegationStratified(groups, rules)
  {
    hide HeadRels, BodyRels, NegRels;
    hide IsGrouping, StrataFor, InitialStrata;
    forall i, j, k | 0 <= i < |groups| && 0 <= j < |rules| && 0 <= k < |rules| && Feeds(rules[j], groups[i])
      ensures NegatesBaseOf(rules[j], rules[k], groups[i])
    {
      var r, q := rules[j], rules[k];
      if x :| x in NegRels(r) * HeadRels(q) * groups[i] && ReadsAny(q, groups[i]) {
        NegRelsAreRead(r);
        assert x in BodyRels(r) * groups[i] && x in HeadRels(q) * groups[i];
        TogetherInLoop(rules, g, groups, i, r, q);
        var s :| s in StrataFor(groups[i], rules, g) && r in s.rules && q in s.rules;
        GroupStratumListed(groups, rules, g, i, s);
        OrderedNegatesNoOwn(InitialStrata(groups, rules, g), s, r, q);
      }
    }
  }

  lemma OrderedNegatesNoOwn(strata: seq<Stratum>, s: Stratum, r: Rule, q: Rule)
    requires InOrder(strata) && s in strata && r in s.rules && q in s.rules
    ensures NegRels(r) !! HeadRels(q)
  {
    var n :| 0 <= n < |strata| && strata[n] == s;
    assert NegatesNoOwn(strata[n]);
  }

  // The strata are in order exactly when the groups come dependencies first and what a rule negates in its own group is
  // derived without reading the group.
  lemma InOrderIffDependenciesFirst(rules: seq<Rule>, g: Graph, groups: seq<set<string>>)
    requires IsGrouping(rules, g, groups)
    ensures WellStratified(InitialStrata(groups, rules, g))
        <==> Tarjan.DependenciesFirst(g, groups) && NegationStratified(groups, rules)
  {
    hide IsDepGraph, WellStratified, NegationStratified;
    assert groups[..|groups|] == groups;
    if Tarjan.DependenciesFirst(g, groups) && NegationStratified(groups, rules) {
      InitialWellStratified(rules, g, groups, |groups|);
    }
    if WellStratified(InitialStrata(groups, rules, g)) {
      InOrderIffWellStratified(InitialStrata(groups, rules, g));
      OrderStratifiesNegation(rules, g, groups);
      forall i, x, y | 0 <= i < |groups| && x in groups[i] && Edge(g, x, y)
        ensures y in Tarjan.Members(groups[..i + 1]) {
        OrderedEdge(rules, g, groups, i, x, y);
      }
    }
  }

  // --- From strata back to the program ---

  // Two rule lists with the same rules, up to rules without heads, close the same sets.
  ghost predicate SameRules(a: seq<Rule>, b: seq<Rule>) {
    forall r: Rule :: r.heads != [] ==> (r in a <==> r in b)
  }

  lemma SameRulesClose(a: seq<Rule>, b: seq<Rule>, sem: Interp, db: Facts, neg: Facts)
    requires SameRules(a, b) && ClosedUnder(a, sem, db, neg)
    ensures ClosedUnder(b, sem, db, neg)
  {
    forall k, f | 0 <= k < |b| && DerivesFrom(b[k], sem, db, neg, f) ensures f in db {
      assert b[k].heads != [];
      assert b[k] in a;
      var j :| 0 <= j < |a| && a[j] == b[k];
    }
  }

  lemma SameRulesStable(a: seq<Rule>, b: seq<Rule>, sem: Interp, edb: Facts, m: Facts)
    requires SameRules(a, b)
    ensures IsStable(a, sem, edb, m) <==> IsStable(b, sem, edb, m)
  {
    forall db: Facts ensures ClosedUnder(a, sem, db, m) <==> ClosedUnder(b, sem, db, m) {
      if ClosedUnder(a, sem, db, m) { SameRulesClose(a, b, sem, db, m); }
      if ClosedUnder(b, sem, db, m) { SameRulesClose(b, a, sem, db, m); }
    }
    assert LeastClosed(a, sem, edb, m) == LeastClosed(b, sem, edb, m);
  }

  lemma AllRulesHolds(strata: seq<Stratum>, r: Rule)
    ensures r in AllRules(strata) <==> Holds(strata, r)
  {
    if r in AllRules(strata) {
      var k :| 0 <= k < |AllRules(strata)| && AllRules(strata)[k] == r;
      var i := RuleOfStratum(strata, k);
    }
    if Holds(strata, r) {
      var i :| 0 <= i < |strata| && r in strata[i].rules;
      StratumRuleListed(strata, i, r);
    }
  }

  lemma StrataKeepRules(rules: seq<Rule>, g: Graph, groups: seq<set<string>>)
    requires IsDepGraph(rules, g) && Tarjan.Members(groups) == g.Keys
    ensures SameRules(AllRules(InitialStrata(groups, rules, g)), rules)
  {
    forall r: Rule | r.heads != [] ensures r in AllRules(InitialStrata(groups, rules, g)) <==> r in rules {
      AllRulesHolds(InitialStrata(groups, rules, g), r);
      InitialHolds(groups, rules, g, r);
      if r in rules {
        var k :| 0 <= k < |rules| && rules[k] == r;
        var x := r.heads[0].rel;
        assert rules[k].heads[0].rel == x;
        assert x in Tarjan.Members(groups);
        var i :| 0 <= i < |groups| && x in groups[i];
        assert x in HeadRels(r) * groups[i];
      }
    }
  }

  // Running the fused strata in list order computes the one stable model of the whole program.
  lemma StrataComputeTheStableModel(rules: seq<Rule>, g: Graph, groups: seq<set<string>>, strata: seq<Stratum>,
                                    sem: Interp, edb: Facts, m: Facts)
    requires Stratifiable(rules, g, groups)
    requires strata == FuseAll(InitialStrata(groups, rules, g), RecursiveMembers(InitialStrata(groups, rules, g)))
    ensures WellStratified(strata)
    ensures IsStable(rules, sem, edb, m) <==> m == Run(strata, sem, edb)
  {
    hide *;
    var initial := InitialStrata(groups, rules, g);
    InitialWellStratified(rules, g, groups, |groups|);
    assert groups[..|groups|] == groups;
    InOrderIffWellStratified(initial);
    InitialOwned(rules, g, groups);
    FuseKeepsOrder(initial, RecursiveMembers(initial));
    InOrderIffWellStratified(strata);
    RunIsTheStableModel(strata, sem, edb, m);
    FusedSameRules(rules, g, groups, strata);
    SameRulesStable(AllRules(strata), rules, sem, edb, m);
  }

  lemma FusedSameRules(rules: seq<Rule>, g: Graph, groups: seq<set<string>>, strata: seq<Stratum>)
    requires Stratifiable(rules, g, groups)
    requires forall q :: Holds(strata, q) <==> Holds(InitialStrata(groups, rules, g), q)
    ensures SameRules(AllRules(strata), rules)
  {
    hide InitialStrata, HeadsTogether, NegationStratified, Tarjan.DependenciesFirst;
    StrataKeepRules(rules, g, groups);
    forall r: Rule ensures r in AllRules(strata) <==> r in AllRules(InitialStrata(groups, rules, g)) {
      AllRulesHolds(strata, r);
      AllRulesHolds(InitialStrata(groups, rules, g), r);
    }
  }

  // Without negation the stable model is the least model.
  lemma PositiveStableIsLeast(rules: seq<Rule>, sem: Interp, edb: Facts, m: Facts)
    requires forall k :: 0 <= k < |rules| ==> NegRels(rules[k]) == {}
    ensures IsStable(rules, sem, edb, m) <==>
      && edb <= m && ClosedUnder(rules, sem, m, m)
      && forall db: Facts :: edb <= db && ClosedUnder(rules, sem, db, db) ==> m <= db
  {
    forall db: Facts ensures ClosedUnder(rules, sem, db, db) <==> ClosedUnder(rules, sem, db, m) {
      forall k, f | 0 <= k < |rules|
        ensures DerivesFrom(rules[k], sem, db, db, f) <==> DerivesFrom(rules[k], sem, db, m, f) {
        if DerivesFrom(rules[k], sem, db, db, f) { DerivesReads(rules[k], sem, db, db, db, m, f); }
        if DerivesFrom(rules[k], sem, db, m, f) { DerivesReads(rules[k], sem, db, m, db, db, f); }
      }
    }
    LeastClosedIsClosed(rules, sem, edb, m);
  }

  // ========== Merge order ==========

  // When merging the components of multi-head rules keeps the strata in order: a condition on the components before
  // the merge.

  // --- The condition ---

  // Component i holds a relation linked with x.
  ghost predicate LinkedAt(sccs: seq<set<string>>, rules: seq<Rule>, x: string, i: nat) {
    i < |sccs| && exists z :: z in sccs[i] && Chained(sccs, rules, x, z)
  }

  // Component i is the first one linked with x.
  ghost predicate FirstAt(sccs: seq<set<string>>, rules: seq<Rule>, x: string, i: nat) {
    LinkedAt(sccs, rules, x, i) && forall j: nat :: j < i ==> !LinkedAt(sccs, rules, x, j)
  }

  // Wherever x depends on a relation y it is not linked with, something linked with y comes before everything linked
  // with x.
  ghost predicate OrderSurvives(g: Graph, sccs: seq<set<string>>, rules: seq<Rule>) {
    forall x, y, i, j ::
        Edge(g, x, y) && !Chained(sccs, rules, x, y) && FirstAt(sccs, rules, x, i) && FirstAt(sccs, rules, y, j) ==>
        j < i
  }

  // Whatever a rule negates and is linked with one of its heads is derived only by rules that read nothing linked with
  // it.
  ghost predicate NegationApart(sccs: seq<set<string>>, rules: seq<Rule>) {
    forall j, k, x, y, b ::
        NegatesHead(rules, j, k, x, y) && Chained(sccs, rules, x, y) && ReadsIn(rules, k, b) && b in Members(sccs) ==>
      !Chained(sccs, rules, y, b)
  }

  // Rule j with head x negates y, which heads rule k.
  ghost predicate NegatesHead(rules: seq<Rule>, j: int, k: int, x: string, y: string) {
    0 <= j < |rules| && 0 <= k < |rules| && x in HeadRels(rules[j]) && y in NegRels(rules[j]) && y in HeadRels(rules[k])
  }

  ghost predicate ReadsIn(rules: seq<Rule>, k: int, b: string) {
    0 <= k < |rules| && b in BodyRels(rules[k])
  }

  // --- Groups and first components ---

  lemma InGroup(sccs: seq<set<string>>, rules: seq<Rule>, m: Merge, x: string, a: nat)
    requires IsMerge(sccs, rules, m) && x in Members(sccs) && a < |RootOrder(m.root, |sccs|)|
    ensures x in Grouped(sccs, m.root, |sccs|)[a] <==> m.root[m.sccOf[x]] == RootOrder(m.root, |sccs|)[a]
  {
    hide Members, RootOrder;
    hide Stratify.RootsAreLinks, HeadsJoined, LinksFromRules;
    forall i | 0 <= i < |sccs| && x in sccs[i] ensures i == m.sccOf[x] {}
  }

  lemma LinkedIffRoot(sccs: seq<set<string>>, rules: seq<Rule>, m: Merge, x: string, i: nat)
    requires IsMerge(sccs, rules, m) && x in Members(sccs) && i < |sccs| && sccs[i] != {}
    ensures LinkedAt(sccs, rules, x, i) <==> m.root[i] == m.root[m.sccOf[x]]
  {
    hide Stratify.RootsAreLinks, HeadsJoined, LinksFromRules, Chained;
    forall z | z in sccs[i]
      ensures m.sccOf[z] == i && (m.root[i] == m.root[m.sccOf[x]] <==> Chained(sccs, rules, x, z)) {
      assert z in Members(sccs);
      RootsAreChains(sccs, rules, m.sccOf, m.root, m.links, x, z);
    }
    if m.root[i] == m.root[m.sccOf[x]] {
      var z :| z in sccs[i];
      assert Chained(sccs, rules, x, z);
    }
  }

  lemma {:induction false} FirstBelow(sccs: seq<set<string>>, rules: seq<Rule>, x: string, n: nat) returns (i: nat)
    requires LinkedAt(sccs, rules, x, n)
    ensures FirstAt(sccs, rules, x, i)
  {
    hide Chained;
    if j: nat :| j < n && LinkedAt(sccs, rules, x, j) {
      i := FirstBelow(sccs, rules, x, j);
    } else {
      i := n;
    }
  }

  lemma FirstExists(sccs: seq<set<string>>, rules: seq<Rule>, x: string) returns (i: nat)
    requires x in Members(sccs)
    ensures FirstAt(sccs, rules, x, i)
  {
    var n :| 0 <= n < |sccs| && x in sccs[n];
    assert Chained(sccs, rules, x, x);
    i := FirstBelow(sccs, rules, x, n);
  }

  ghost predicate NoneEmpty(sccs: seq<set<string>>) {
    forall i :: 0 <= i < |sccs| ==> sccs[i] != {}
  }

  // Groups are listed in the order of their first components.
  lemma GroupsFollowFirst(sccs: seq<set<string>>, rules: seq<Rule>, m: Merge, x: string, y: string, a: nat, b: nat,
                          i: nat, j: nat)
    requires IsMerge(sccs, rules, m) && NoneEmpty(sccs) && x in Members(sccs) && y in Members(sccs)
    requires a < b < |Grouped(sccs, m.root, |sccs|)| && x in Grouped(sccs, m.root, |sccs|)[a]
    requires y in Grouped(sccs, m.root, |sccs|)[b]
    requires FirstAt(sccs, rules, x, i) && FirstAt(sccs, rules, y, j)
    ensures i < j
  {
    hide Members, Grouped;
    hide Stratify.RootsAreLinks, HeadsJoined, LinksFromRules, Chained, LinkedAt;
    InGroup(sccs, rules, m, x, a);
    InGroup(sccs, rules, m, y, b);
    GroupsInFirstOrder(m.root, |sccs|, a, b);
    var order := RootOrder(m.root, |sccs|);
    var p: nat :| p < |sccs| && m.root[p] == order[a] && forall q :: 0 <= q < |sccs| && m.root[q] == order[b] ==> p < q;
    LinkedIffRoot(sccs, rules, m, x, p);
    FirstIsBelow(sccs, rules, y, j);
    LinkedIffRoot(sccs, rules, m, y, j);
    assert m.root[j] == order[b];
    assert i <= p;
  }

  lemma FirstIsBelow(sccs: seq<set<string>>, rules: seq<Rule>, x: string, i: nat)
    requires FirstAt(sccs, rules, x, i)
    ensures i < |sccs| && LinkedAt(sccs, rules, x, i)
  {}

  lemma SameGroupIff(sccs: seq<set<string>>, rules: seq<Rule>, m: Merge, x: string, y: string, a: nat, b: nat)
    requires IsMerge(sccs, rules, m) && x in Members(sccs) && y in Members(sccs)
    requires a < |Grouped(sccs, m.root, |sccs|)| && b < |Grouped(sccs, m.root, |sccs|)|
    requires x in Grouped(sccs, m.root, |sccs|)[a] && y in Grouped(sccs, m.root, |sccs|)[b]
    ensures a == b <==> Chained(sccs, rules, x, y)
  {
    InGroup(sccs, rules, m, x, a);
    InGroup(sccs, rules, m, y, b);
    InGroup(sccs, rules, m, y, a);
    RootsAreChains(sccs, rules, m.sccOf, m.root, m.links, x, y);
    hide Stratify.RootsAreLinks, HeadsJoined, LinksFromRules, Chained;
  }

  // The groups come dependencies first exactly when the order survives the merge.
  lemma GroupsInOrderIff(g: Graph, sccs: seq<set<string>>, rules: seq<Rule>, m: Merge)
    requires IsMerge(sccs, rules, m) && NoneEmpty(sccs) && IsGraph(g) && Members(sccs) == g.Keys
    ensures Tarjan.DependenciesFirst(g, Grouped(sccs, m.root, |sccs|)) <==> OrderSurvives(g, sccs, rules)
  {
    hide Disjoint;
    var groups := Grouped(sccs, m.root, |sccs|);
    GroupsPartition(sccs, m.root);
    hide IsMerge, Grouped, FirstAt, Chained, NoneEmpty;
    if Tarjan.DependenciesFirst(g, groups) {
      forall x, y, i, j | Edge(g, x, y) && !Chained(sccs, rules, x, y) && FirstAt(sccs, rules, x, i)
          && FirstAt(sccs, rules, y, j) ensures j < i {
        var a: nat :| a < |groups| && x in groups[a];
        assert y in Tarjan.Members(groups[..a + 1]);
        var b: nat :| b < |groups[..a + 1]| && y in groups[..a + 1][b];
        SameGroupIff(sccs, rules, m, x, y, a, b);
        GroupsFollowFirst(sccs, rules, m, y, x, b, a, j, i);
      }
    }
    if OrderSurvives(g, sccs, rules) {
      forall a: nat, x, y | a < |groups| && x in groups[a] && Edge(g, x, y)
        ensures y in Tarjan.Members(groups[..a + 1]) {
        GoesBack(g, sccs, rules, m, groups, a, x, y);
      }
    }
  }

  lemma GoesBack(g: Graph, sccs: seq<set<string>>, rules: seq<Rule>, m: Merge, groups: seq<set<string>>, a: nat,
                 x: string, y: string)
    requires IsMerge(sccs, rules, m) && NoneEmpty(sccs) && IsGraph(g) && Members(sccs) == g.Keys
    requires OrderSurvives(g, sccs, rules)
    requires groups == Grouped(sccs, m.root, |sccs|) && Members(groups) == g.Keys && a < |groups| && x in groups[a]
    requires Edge(g, x, y)
    ensures y in Tarjan.Members(groups[..a + 1])
  {
    hide IsMerge, Grouped, FirstAt, Chained, NoneEmpty;
    assert y in Members(groups);
    var b: nat :| b < |groups| && y in groups[b];
    if b > a {
      var i := FirstExists(sccs, rules, x);
      var j := FirstExists(sccs, rules, y);
      SameGroupIff(sccs, rules, m, x, y, a, b);
      GroupsFollowFirst(sccs, rules, m, x, y, a, b, i, j);
    } else {
      assert groups[..a + 1][b] == groups[b];
    }
  }

  // Negation is stratified over the groups exactly when it is apart before the merge.
  lemma NegationStratifiedIff(sccs: seq<set<string>>, rules: seq<Rule>, m: Merge)
    requires IsMerge(sccs, rules, m) && forall k :: 0 <= k < |rules| ==> HeadRels(rules[k]) <= Members(sccs)
    ensures NegationStratified(Grouped(sccs, m.root, |sccs|), rules) <==> NegationApart(sccs, rules)
  {
    var groups := Grouped(sccs, m.root, |sccs|);
    TogetherAll(sccs, rules, m);
    GroupsPartition(sccs, m.root);
    NegationOfGroups(groups, rules);
    hide NegationStratified, Together, IsMerge, Grouped, Chained, HeadRels, NegRels, BodyRels;
    forall j, k, x, y | NegatesHead(rules, j, k, x, y) ensures x in Members(sccs) && y in Members(sccs) {}
    hide NegatesHead, ReadsIn;
  }

  lemma TogetherAll(sccs: seq<set<string>>, rules: seq<Rule>, m: Merge)
    requires IsMerge(sccs, rules, m)
    ensures forall x, y :: Together(Grouped(sccs, m.root, |sccs|), x, y) ==> x in Members(sccs) && y in Members(sccs)
    ensures forall x, y ::
        x in Members(sccs) && y in Members(sccs) ==>
        (Together(Grouped(sccs, m.root, |sccs|), x, y) <==> Chained(sccs, rules, x, y))
  {
    GroupsPartition(sccs, m.root);
    hide Grouped, Stratify.RootsAreLinks, HeadsJoined, LinksFromRules, Chained;
    var groups := Grouped(sccs, m.root, |sccs|);
    forall x, y | Together(groups, x, y) ensures x in Members(groups) && y in Members(groups) {}
    forall x, y | x in Members(sccs) && y in Members(sccs)
      ensures Together(groups, x, y) <==> Chained(sccs, rules, x, y) {
      TogetherIffLinked(sccs, rules, m, x, y);
    }
  }

  ghost predicate Together(groups: seq<set<string>>, x: string, y: string) {
    exists a :: 0 <= a < |groups| && x in groups[a] && y in groups[a]
  }

  lemma TogetherIffLinked(sccs: seq<set<string>>, rules: seq<Rule>, m: Merge, x: string, y: string)
    requires IsMerge(sccs, rules, m) && x in Members(sccs) && y in Members(sccs)
    ensures Together(Grouped(sccs, m.root, |sccs|), x, y) <==> Chained(sccs, rules, x, y)
  {
    TogetherIffChained(sccs, rules, m.root, m.sccOf, m.links, x, y);
  }

  // The same condition on groups.
  ghost predicate ApartIn(groups: seq<set<string>>, rules: seq<Rule>) {
    forall j, k, x, y, b ::
        NegatesHead(rules, j, k, x, y) && Together(groups, x, y) && ReadsIn(rules, k, b) ==> !Together(groups, y, b)
  }

  lemma NegationOfGroups(groups: seq<set<string>>, rules: seq<Rule>)
    requires Disjoint(groups)
    ensures NegationStratified(groups, rules) <==> ApartIn(groups, rules)
  {
    hide Disjoint, Together;
    if NegationStratified(groups, rules) {
      forall j, k, x, y, b | NegatesHead(rules, j, k, x, y) && Together(groups, x, y) && ReadsIn(rules, k, b)
        ensures !Together(groups, y, b) {
        NegatedIsBase(groups, rules, j, k, x, y, b);
      }
    }
    if ApartIn(groups, rules) {
      forall i, j, k | 0 <= i < |groups| && 0 <= j < |rules| && 0 <= k < |rules| && Feeds(rules[j], groups[i])
        ensures NegatesBaseOf(rules[j], rules[k], groups[i]) {
        ApartIsBase(groups, rules, i, j, k);
      }
    }
  }

  lemma ApartIsBase(groups: seq<set<string>>, rules: seq<Rule>, i: nat, j: nat, k: nat)
    requires ApartIn(groups, rules) && i < |groups| && j < |rules| && k < |rules| && Feeds(rules[j], groups[i])
    ensures NegatesBaseOf(rules[j], rules[k], groups[i])
  {
    var both := NegRels(rules[j]) * HeadRels(rules[k]) * groups[i];
    var x :| x in HeadRels(rules[j]) * groups[i];
    hide NegRels, HeadRels, BodyRels;
    if y :| y in both {
      assert NegatesHead(rules, j, k, x, y) && Together(groups, x, y);
      forall b | b in BodyRels(rules[k]) ensures b !in groups[i] {
        assert ReadsIn(rules, k, b);
        assert b in groups[i] ==> Together(groups, y, b);
      }
    }
  }

  lemma NegatedIsBase(groups: seq<set<string>>, rules: seq<Rule>, j: nat, k: nat, x: string, y: string, b: string)
    requires Disjoint(groups) && NegationStratified(groups, rules) && NegatesHead(rules, j, k, x, y)
    requires Together(groups, x, y) && ReadsIn(rules, k, b)
    ensures !Together(groups, y, b)
  {
    var a :| 0 <= a < |groups| && x in groups[a] && y in groups[a];
    assert x in HeadRels(rules[j]) * groups[a];
    assert NegatesBaseOf(rules[j], rules[k], groups[a]);
    assert y in NegRels(rules[j]) * HeadRels(rules[k]) * groups[a];
    assert b !in BodyRels(rules[k]) * groups[a];
    hide HeadRels, NegRels, NegationStratified;
    forall c | 0 <= c < |groups| && y in groups[c] ensures b !in groups[c] { assert c == a; }
  }

  // --- Fusion shows a broken order ---

  lemma MergeReflectsOrder(a: Stratum, b: Stratum, tail: seq<Stratum>)
    requires InOrder([Merged(a, b)] + tail) && !a.recursive && !b.recursive
    ensures InOrder([a, b] + tail)
  {
    hide Apart;
    var out, all := [Merged(a, b)] + tail, [a, b] + tail;
    assert out[0] == Merged(a, b);
    assert Apart(out[0], out[0]) && NegatesNoOwn(out[0]);
    forall i, j | 0 <= i < |all| && 0 <= j < |all| && (i < j || (i == j && !all[i].recursive))
      ensures Apart(all[i], all[j]) {
      var p, q := if i < 2 then 0 else i - 1, if j < 2 then 0 else j - 1;
      assert Apart(out[p], out[q]);
      PartApart(out[p], out[q], all[i], all[j]);
    }
    forall i | 0 <= i < |all| ensures NegatesNoOwn(all[i]) {
      var p := if i < 2 then 0 else i - 1;
      assert NegatesNoOwn(out[p]);
    }
  }

  lemma PartApart(a: Stratum, b: Stratum, c: Stratum, d: Stratum)
    requires Apart(a, b) && (forall r :: r in c.rules ==> r in a.rules) && forall r :: r in d.rules ==> r in b.rules
    ensures Apart(c, d)
  {}

  lemma {:induction false} AbsorbReflectsOrder(cur: Stratum, rest: seq<Stratum>, recursiveMembers: set<string>)
    requires !cur.recursive
    requires var r := Absorb(cur, rest, recursiveMembers); InOrder([r.0] + rest[r.1..])
    ensures InOrder([cur] + rest)
    decreases |rest|
  {
    hide Apart, InOrder, StratumDependsOn;
    if rest != [] && Fusable(rest[0], recursiveMembers) && !StratumDependsOn(rest[0], cur.members) {
      var next, tail := rest[0], rest[1..];
      assert [cur] + rest == [cur, next] + tail;
      var r := Absorb(Merged(cur, next), tail, recursiveMembers);
      assert rest[r.1 + 1..] == tail[r.1..];
      AbsorbReflectsOrder(Merged(cur, next), tail, recursiveMembers);
      MergeReflectsOrder(cur, next, tail);
    }
  }

  lemma {:induction false} AbsorbHolds(cur: Stratum, rest: seq<Stratum>, recursiveMembers: set<string>, q: Rule)
    ensures var r := Absorb(cur, rest, recursiveMembers); Holds([r.0] + rest[r.1..], q) <==> Holds([cur] + rest, q)
    decreases |rest|
  {
    hide StratumDependsOn, Holds;
    if rest != [] && Fusable(rest[0], recursiveMembers) && !StratumDependsOn(rest[0], cur.members) {
      var next, tail := rest[0], rest[1..];
      assert [cur] + rest == [cur, next] + tail;
      var r := Absorb(Merged(cur, next), tail, recursiveMembers);
      assert rest[r.1 + 1..] == tail[r.1..];
      AbsorbHolds(Merged(cur, next), tail, recursiveMembers, q);
      MergedHolds(cur, next, tail, q);
    }
  }

  // The stratum that fusing puts first, and what is left.
  function FusedFirst(strata: seq<Stratum>, recursiveMembers: set<string>): (r: (Stratum, seq<Stratum>))
    requires strata != []
    ensures |r.1| < |strata|
    ensures FuseAll(strata, recursiveMembers) == [r.0] + FuseAll(r.1, recursiveMembers)
  {
    if !Fusable(strata[0], recursiveMembers) then (strata[0], strata[1..]) else
      var r := Absorb(strata[0], strata[1..], recursiveMembers);
      (r.0, strata[1 + r.1..])
  }

  lemma FusedFirstHolds(strata: seq<Stratum>, recursiveMembers: set<string>, q: Rule)
    requires strata != []
    ensures var r := FusedFirst(strata, recursiveMembers); Holds([r.0] + r.1, q) <==> Holds(strata, q)
  {
    assert strata == [strata[0]] + strata[1..];
    AbsorbHolds(strata[0], strata[1..], recursiveMembers, q);
    hide Holds, Absorb;
    var n := Absorb(strata[0], strata[1..], recursiveMembers).1;
    assert strata[1..][n..] == strata[1 + n..];
  }

  lemma FusedFirstReflects(strata: seq<Stratum>, recursiveMembers: set<string>)
    requires strata != [] && var r := FusedFirst(strata, recursiveMembers); InOrder([r.0] + r.1)
    ensures InOrder(strata)
  {
    hide InOrder, Absorb;
    assert strata == [strata[0]] + strata[1..];
    if Fusable(strata[0], recursiveMembers) {
      var n := Absorb(strata[0], strata[1..], recursiveMembers).1;
      assert strata[1..][n..] == strata[1 + n..];
      AbsorbReflectsOrder(strata[0], strata[1..], recursiveMembers);
    }
  }

  lemma {:induction false} FuseHolds(strata: seq<Stratum>, recursiveMembers: set<string>, q: Rule)
    ensures Holds(FuseAll(strata, recursiveMembers), q) <==> Holds(strata, q)
    decreases |strata|
  {
    hide Holds, Absorb;
    if strata != [] {
      var r := FusedFirst(strata, recursiveMembers);
      FusedFirstHolds(strata, recursiveMembers, q);
      hide FuseAll, FusedFirst;
      FuseHolds(r.1, recursiveMembers, q);
      HoldsAppend([r.0], r.1, q);
      HoldsAppend([r.0], FuseAll(r.1, recursiveMembers), q);
    }
  }

  // Strata that are in order after fusing were in order before.
  lemma {:induction false} FuseReflectsOrder(strata: seq<Stratum>, recursiveMembers: set<string>)
    requires InOrder(FuseAll(strata, recursiveMembers))
    ensures InOrder(strata)
    decreases |strata|
  {
    if strata != [] {
      var r := FusedFirst(strata, recursiveMembers);
      var out := FuseAll(r.1, recursiveMembers);
      TailInOrder(r.0, out);
      hide Apart, InOrder, Holds, Absorb, FuseAll, FusedFirst;
      FuseReflectsOrder(r.1, recursiveMembers);
      forall q | Holds(r.1, q) ensures Holds(out, q) { FuseHolds(r.1, recursiveMembers, q); }
      ConsInOrder(r.0, out, r.1);
      FusedFirstReflects(strata, recursiveMembers);
    }
  }

  lemma TailInOrder(c: Stratum, rest: seq<Stratum>)
    requires InOrder([c] + rest)
    ensures InOrder(rest)
  {
    var all := [c] + rest;
    forall i, j | 0 <= i < j < |rest| ensures Apart(rest[i], rest[j]) { assert Apart(all[i + 1], all[j + 1]); }
    forall i | 0 <= i < |rest| ensures NegatesNoOwn(rest[i]) && (rest[i].recursive || Apart(rest[i], rest[i])) {
      assert all[i + 1] == rest[i];
    }
  }

  // --- The whole pass ---

  // What stratify returns for the rules: strata fused from those of the merged components.
  ghost predicate IsStratification(rules: seq<Rule>, g: Graph, sccs: seq<set<string>>, strata: seq<Stratum>) {
    && IsDepGraph(rules, g) && Tarjan.IsComponentList(g, sccs) && Members(sccs) == g.Keys
    && exists groups :: MergedFrom(sccs, rules, groups) && strata == Fused(rules, g, groups)
  }

  function Fused(rules: seq<Rule>, g: Graph, groups: seq<set<string>>): seq<Stratum> {
    FuseAll(InitialStrata(groups, rules, g), RecursiveMembers(InitialStrata(groups, rules, g)))
  }

  lemma FusedInOrderIff(rules: seq<Rule>, g: Graph, groups: seq<set<string>>)
    requires IsGrouping(rules, g, groups)
    ensures WellStratified(Fused(rules, g, groups))
        <==> Tarjan.DependenciesFirst(g, groups) && NegationStratified(groups, rules)
  {
    hide IsGrouping, FuseAll;
    var initial := InitialStrata(groups, rules, g);
    InOrderIffDependenciesFirst(rules, g, groups);
    InOrderIffWellStratified(initial);
    InOrderIffWellStratified(Fused(rules, g, groups));
    hide IsDepGraph, WellStratified, InOrder, InitialStrata, RecursiveMembers, Tarjan.DependenciesFirst, HeadsTogether,
        NegationStratified;
    if Tarjan.DependenciesFirst(g, groups) && NegationStratified(groups, rules) {
      InitialOwned(rules, g, groups);
      FuseKeepsOrder(initial, RecursiveMembers(initial));
    }
    if WellStratified(Fused(rules, g, groups)) {
      FuseReflectsOrder(initial, RecursiveMembers(initial));
    }
  }

  // The pass puts the strata in order exactly when two things hold of the components before the merge: every dependency
  // between unlinked relations goes from a later first component to an earlier one, and negation is apart. Then running
  // the strata computes the one stable model, whatever the facts.
  lemma StratifiedIff(rules: seq<Rule>, g: Graph, sccs: seq<set<string>>, strata: seq<Stratum>)
    requires IsStratification(rules, g, sccs, strata)
    ensures WellStratified(strata) <==> OrderSurvives(g, sccs, rules) && NegationApart(sccs, rules)
    ensures WellStratified(strata) ==> forall sem, edb, m :: IsStable(rules, sem, edb, m)
                                         <==> m == Run(strata, sem, edb)
  {
    hide MergedFrom, Fused, WellStratified;
    var groups :| MergedFrom(sccs, rules, groups) && strata == Fused(rules, g, groups);
    GroupsFit(rules, g, sccs, groups);
    hide *;
    FusedInOrderIff(rules, g, groups);
    if OrderSurvives(g, sccs, rules) && NegationApart(sccs, rules) {
      FusedIsStable(rules, g, groups);
    }
  }

  lemma GroupsFit(rules: seq<Rule>, g: Graph, sccs: seq<set<string>>, groups: seq<set<string>>)
    requires IsDepGraph(rules, g) && Tarjan.IsComponentList(g, sccs) && Members(sccs) == g.Keys
    requires MergedFrom(sccs, rules, groups)
    ensures IsGrouping(rules, g, groups)
    ensures NegationStratified(groups, rules) <==> NegationApart(sccs, rules)
    ensures Tarjan.DependenciesFirst(g, groups) <==> OrderSurvives(g, sccs, rules)
  {
    MergeIsGrouping(rules, g, sccs, groups);
    ListFacts(rules, g, sccs);
    hide *;
    var m := MergeBehind(sccs, rules, groups);
    GroupsInOrderIff(g, sccs, rules, m);
    NegationStratifiedIff(sccs, rules, m);
  }

  lemma MergeBehind(sccs: seq<set<string>>, rules: seq<Rule>, groups: seq<set<string>>) returns (m: Merge)
    requires MergedFrom(sccs, rules, groups)
    ensures IsMerge(sccs, rules, m) && |m.root| == |sccs| && groups == Grouped(sccs, m.root, |sccs|)
  {
    hide Grouped, Stratify.RootsAreLinks, HeadsJoined, LinksFromRules;
    m :| IsMerge(sccs, rules, m) && groups == Grouped(sccs, m.root, |sccs|);
  }

  lemma FusedIsStable(rules: seq<Rule>, g: Graph, groups: seq<set<string>>)
    requires IsGrouping(rules, g, groups) && NegationStratified(groups, rules) && Tarjan.DependenciesFirst(g, groups)
    ensures forall sem, edb, m :: IsStable(rules, sem, edb, m) <==> m == Run(Fused(rules, g, groups), sem, edb)
  {
    hide IsGrouping, WellStratified;
    assert Stratifiable(rules, g, groups);
    forall sem, edb, m ensures IsStable(rules, sem, edb, m) <==> m == Run(Fused(rules, g, groups), sem, edb) {
      hide IsStable, Run, FuseAll, InitialStrata;
      StrataComputeTheStableModel(rules, g, groups, Fused(rules, g, groups), sem, edb, m);
    }
  }

  lemma ListFacts(rules: seq<Rule>, g: Graph, sccs: seq<set<string>>)
    requires IsDepGraph(rules, g) && Tarjan.IsComponentList(g, sccs) && Members(sccs) == g.Keys
    ensures IsGraph(g) && NoneEmpty(sccs) && forall k :: 0 <= k < |rules| ==> HeadRels(rules[k]) <= Members(sccs)
  {
    HeadsAreMembers(rules, g);
  }

  // ========== Dropped rules ==========

  // Which rules of a program never run, because their loop has no variant of them: a condition on the rule and on the
  // components before the merge.

  // --- In strata ---

  // The stratum holds the rule, and runs it or not: a loop runs only the rules that read a member positively.
  ghost predicate HasIn(s: Stratum, r: Rule, runs: bool) {
    r in s.rules && (s.recursive ==> ReadsPositively(r, s.members)) == runs
  }

  ghost predicate InSome(strata: seq<Stratum>, r: Rule, runs: bool) {
    exists i :: 0 <= i < |strata| && HasIn(strata[i], r, runs)
  }

  lemma InSomeAppend(a: seq<Stratum>, b: seq<Stratum>, r: Rule, runs: bool)
    ensures InSome(a + b, r, runs) <==> InSome(a, r, runs) || InSome(b, r, runs)
  {
    hide HasIn;
    if i :| 0 <= i < |a| && HasIn(a[i], r, runs) { assert HasIn((a + b)[i], r, runs); }
    if i :| 0 <= i < |b| && HasIn(b[i], r, runs) { assert HasIn((a + b)[|a| + i], r, runs); }
  }

  lemma InOne(s: Stratum, r: Rule, runs: bool)
    ensures InSome([s], r, runs) <==> HasIn(s, r, runs)
  {
    hide HasIn;
    if HasIn(s, r, runs) { assert HasIn([s][0], r, runs); }
  }

  // --- Through fusion ---

  lemma MergedHas(a: Stratum, b: Stratum, r: Rule, runs: bool)
    requires !a.recursive && !b.recursive
    ensures HasIn(Merged(a, b), r, runs) <==> HasIn(a, r, runs) || HasIn(b, r, runs)
  {}

  lemma {:induction false} AbsorbHas(cur: Stratum, rest: seq<Stratum>, recursiveMembers: set<string>, r: Rule,
                                     runs: bool)
    requires !cur.recursive
    ensures var a := Absorb(cur, rest, recursiveMembers);
    InSome([a.0] + rest[a.1..], r, runs) <==> InSome([cur] + rest, r, runs)
    decreases |rest|
  {
    hide StratumDependsOn, InSome, HasIn;
    if rest != [] && Fusable(rest[0], recursiveMembers) && !StratumDependsOn(rest[0], cur.members) {
      var next, tail := rest[0], rest[1..];
      AbsorbHas(Merged(cur, next), tail, recursiveMembers, r, runs);
      var a := Absorb(Merged(cur, next), tail, recursiveMembers);
      assert rest[a.1 + 1..] == tail[a.1..];
      assert [cur] + rest == [cur] + ([next] + tail);
      InSomeAppend([cur], [next] + tail, r, runs);
      InSomeAppend([next], tail, r, runs);
      InSomeAppend([Merged(cur, next)], tail, r, runs);
      InOne(cur, r, runs);
      InOne(next, r, runs);
      InOne(Merged(cur, next), r, runs);
      MergedHas(cur, next, r, runs);
    }
  }

  lemma FirstHas(strata: seq<Stratum>, recursiveMembers: set<string>, r: Rule, runs: bool)
    requires strata != []
    ensures var a := FusedFirst(strata, recursiveMembers); InSome([a.0] + a.1, r, runs) <==> InSome(strata, r, runs)
  {
    assert strata == [strata[0]] + strata[1..];
    hide InSome, Absorb;
    if Fusable(strata[0], recursiveMembers) {
      AbsorbHas(strata[0], strata[1..], recursiveMembers, r, runs);
      var n := Absorb(strata[0], strata[1..], recursiveMembers).1;
      assert strata[1..][n..] == strata[1 + n..];
    }
  }

  // Fusing changes neither which rules run nor which do not.
  lemma {:induction false} FuseHas(strata: seq<Stratum>, recursiveMembers: set<string>, r: Rule, runs: bool)
    ensures InSome(FuseAll(strata, recursiveMembers), r, runs) <==> InSome(strata, r, runs)
    decreases |strata|
  {
    hide InSome, Absorb;
    if strata != [] {
      var a := FusedFirst(strata, recursiveMembers);
      FirstHas(strata, recursiveMembers, r, runs);
      hide FuseAll, FusedFirst;
      FuseHas(a.1, recursiveMembers, r, runs);
      InSomeAppend([a.0], a.1, r, runs);
      InSomeAppend([a.0], FuseAll(a.1, recursiveMembers), r, runs);
    }
  }

  // --- In groups ---

  // The rule does not read the group, or reads it positively.
  ghost predicate RunsFor(r: Rule, group: set<string>) {
    !ReadsAny(r, group) || ReadsPositively(r, group)
  }

  lemma NonemptyHas(s: Stratum, r: Rule, runs: bool)
    ensures InSome(Nonempty(s), r, runs) <==> HasIn(s, r, runs)
  {
    InOne(s, r, runs);
  }

  lemma PositiveIsRead(r: Rule, group: set<string>)
    requires ReadsPositively(r, group)
    ensures ReadsAny(r, group)
  {
    var i :| IsSccClause(r, group, i);
    assert r.body[i].atom.rel in BodyRels(r) * group;
  }

  lemma GroupHas(rules: seq<Rule>, g: Graph, groups: seq<set<string>>, j: nat, r: Rule, runs: bool)
    requires IsGrouping(rules, g, groups) && j < |groups|
    ensures InSome(StrataFor(groups[j], rules, g), r, runs)
        <==> r in rules && Feeds(r, groups[j]) && RunsFor(r, groups[j]) == runs
  {
    var scc := groups[j];
    var mine := RulesFor(rules, scc);
    var base, rec, whole :=
        Stratum(scc, false, Readers(mine, scc, false)), Stratum(scc, true, Readers(mine, scc, true)),
        Stratum(scc, false, mine);
    hide InSome, Nonempty, ReadsAny, Feeds, ReadsPositively, IsRecursive, IsGrouping;
    NonemptyHas(base, r, runs);
    NonemptyHas(rec, r, runs);
    NonemptyHas(whole, r, runs);
    InSomeAppend(Nonempty(base), Nonempty(rec), r, runs);
    if !IsRecursive(scc, g) && r in mine { NonRecursiveReadsNothing(rules, g, groups, j, r); }
    if ReadsPositively(r, scc) { PositiveIsRead(r, scc); }
  }

  lemma {:induction false} InitialHas(rules: seq<Rule>, g: Graph, groups: seq<set<string>>, n: nat, r: Rule, runs: bool)
    requires IsGrouping(rules, g, groups) && n <= |groups|
    ensures InSome(InitialStrata(groups[..n], rules, g), r, runs) <==>
      r in rules && exists j :: 0 <= j < n && Feeds(r, groups[j]) && RunsFor(r, groups[j]) == runs
  {
    hide IsGrouping, Feeds, RunsFor, StrataFor, HasIn;
    if n == 0 {
      assert InitialStrata(groups[..0], rules, g) == [];
    } else {
      InitialHas(rules, g, groups, n - 1, r, runs);
      GroupHas(rules, g, groups, n - 1, r, runs);
      assert groups[..n][..n - 1] == groups[..n - 1];
      hide InSome;
      InSomeAppend(InitialStrata(groups[..n - 1], rules, g), StrataFor(groups[n - 1], rules, g), r, runs);
    }
  }

  // --- On the components before the merge ---

  ghost predicate LinkedTo(sccs: seq<set<string>>, rules: seq<Rule>, x: string, y: string) {
    y in Members(sccs) && Chained(sccs, rules, x, y)
  }

  // The rule, with head x, reads nothing linked with it, or reads something linked with it positively.
  ghost predicate Running(sccs: seq<set<string>>, rules: seq<Rule>, r: Rule, x: string) {
    || (forall y :: y in BodyRels(r) ==> !LinkedTo(sccs, rules, x, y))
    || exists i :: 0 <= i < |r.body| && r.body[i].Pos? && LinkedTo(sccs, rules, x, r.body[i].atom.rel)
  }

  lemma RunsForIff(sccs: seq<set<string>>, rules: seq<Rule>, r: Rule, x: string, group: set<string>)
    requires forall y :: y in group <==> LinkedTo(sccs, rules, x, y)
    ensures RunsFor(r, group) <==> Running(sccs, rules, r, x)
  {
    hide LinkedTo, BodyRels;
    if ReadsAny(r, group) {
      var y :| y in BodyRels(r) * group;
      assert LinkedTo(sccs, rules, x, y);
    } else {
      forall y | y in BodyRels(r) ensures !LinkedTo(sccs, rules, x, y) { assert y !in BodyRels(r) * group; }
    }
    if i :| 0 <= i < |r.body| && r.body[i].Pos? && LinkedTo(sccs, rules, x, r.body[i].atom.rel) {
      assert IsSccClause(r, group, i);
    }
  }

  lemma GroupIsLinked(sccs: seq<set<string>>, rules: seq<Rule>, m: Merge, j: nat, x: string, y: string)
    requires IsMerge(sccs, rules, m) && j < |Grouped(sccs, m.root, |sccs|)| && x in Grouped(sccs, m.root, |sccs|)[j]
    requires x in Members(sccs)
    ensures y in Grouped(sccs, m.root, |sccs|)[j] <==> LinkedTo(sccs, rules, x, y)
  {
    hide Disjoint;
    var groups := Grouped(sccs, m.root, |sccs|);
    GroupsPartition(sccs, m.root);
    hide Grouped, IsMerge, Chained;
    if y in groups[j] {
      assert y in Members(groups);
      SameGroupIff(sccs, rules, m, x, y, j, j);
    }
    if LinkedTo(sccs, rules, x, y) {
      assert y in Members(groups);
      var k :| 0 <= k < |groups| && y in groups[k];
      SameGroupIff(sccs, rules, m, x, y, j, k);
    }
  }

  lemma FedGroup(rules: seq<Rule>, g: Graph, groups: seq<set<string>>, r: Rule, x: string, runs: bool)
    requires IsGrouping(rules, g, groups) && r in rules && x in HeadRels(r)
    ensures exists j :: 0 <= j < |groups| && x in groups[j]
    ensures forall j :: 0 <= j < |groups| ==> (Feeds(r, groups[j]) <==> x in groups[j])
  {
    HeadsAreMembers(rules, g);
    var k :| 0 <= k < |rules| && rules[k] == r;
    assert x in g.Keys && x in Tarjan.Members(groups);
    hide IsDepGraph;
    forall j | 0 <= j < |groups| ensures Feeds(r, groups[j]) <==> x in groups[j] {
      assert HeadRels(rules[k]) <= groups[j] || HeadRels(rules[k]) !! groups[j];
      if x in groups[j] { assert x in HeadRels(r) * groups[j]; }
    }
  }

  lemma GroupsBehind(rules: seq<Rule>, g: Graph, sccs: seq<set<string>>, strata: seq<Stratum>)
    returns (groups: seq<set<string>>, m: Merge)
    requires IsStratification(rules, g, sccs, strata)
    ensures strata == Fused(rules, g, groups) && IsGrouping(rules, g, groups)
    ensures IsMerge(sccs, rules, m) && |m.root| == |sccs| && groups == Grouped(sccs, m.root, |sccs|)
    ensures forall r, x :: r in rules && x in HeadRels(r) ==> x in Members(sccs)
  {
    hide Fused, IsGrouping, IsMerge, Grouped, Tarjan.IsComponentList;
    groups :| MergedFrom(sccs, rules, groups) && strata == Fused(rules, g, groups);
    HeadsAreMembers(rules, g);
    GroupsFit(rules, g, sccs, groups);
    hide MergedFrom;
    m := MergeBehind(sccs, rules, groups);
  }

  // A rule that stratification keeps runs in its stratum if and only if it reads nothing linked with its head or reads
  // some such relation positively. One that only negates relations linked with its head is kept and never runs.
  lemma RunsIff(rules: seq<Rule>, g: Graph, sccs: seq<set<string>>, strata: seq<Stratum>, r: Rule, x: string)
    requires IsStratification(rules, g, sccs, strata) && r in rules && x in HeadRels(r)
    ensures InSome(strata, r, true) <==> Running(sccs, rules, r, x)
    ensures InSome(strata, r, false) <==> !Running(sccs, rules, r, x)
  {
    hide *;
    var groups, m := GroupsBehind(rules, g, sccs, strata);
    FedGroup(rules, g, groups, r, x, true);
    var j :| 0 <= j < |groups| && x in groups[j];
    forall y ensures y in groups[j] <==> LinkedTo(sccs, rules, x, y) { GroupIsLinked(sccs, rules, m, j, x, y); }
    RunsForIff(sccs, rules, r, x, groups[j]);
    forall k | 0 <= k < |groups| && x in groups[k] ensures k == j { OneGroup(rules, g, groups, x, j, k); }
    FusedHasIff(rules, g, groups, r, j, true);
    FusedHasIff(rules, g, groups, r, j, false);
  }

  lemma OneGroup(rules: seq<Rule>, g: Graph, groups: seq<set<string>>, x: string, j: nat, k: nat)
    requires IsGrouping(rules, g, groups) && j < |groups| && k < |groups| && x in groups[j] && x in groups[k]
    ensures j == k
  {
    hide IsDepGraph, HeadsTogether;
  }

  lemma FusedHasIff(rules: seq<Rule>, g: Graph, groups: seq<set<string>>, r: Rule, j: nat, runs: bool)
    requires IsGrouping(rules, g, groups) && r in rules && j < |groups|
    requires forall k :: 0 <= k < |groups| ==> (Feeds(r, groups[k]) <==> k == j)
    ensures InSome(Fused(rules, g, groups), r, runs) <==> RunsFor(r, groups[j]) == runs
  {
    assert groups[..|groups|] == groups;
    hide IsGrouping, InSome, RunsFor, Feeds, InitialStrata, RecursiveMembers, FuseAll;
    InitialHas(rules, g, groups, |groups|, r, runs);
    FuseHas(InitialStrata(groups, rules, g), RecursiveMembers(InitialStrata(groups, rules, g)), r, runs);
  }

  // No rule that a loop drops could derive anything: on the strata, and on the components.
  ghost predicate LoopsRead(strata: seq<Stratum>) {
    forall r :: InSome(strata, r, false) ==> !CanDerive(r)
  }

  ghost predicate RulesRun(sccs: seq<set<string>>, rules: seq<Rule>) {
    forall r, x :: r in rules && x in HeadRels(r) && !Running(sccs, rules, r, x) ==> !CanDerive(r)
  }

  lemma KeptRule(rules: seq<Rule>, g: Graph, sccs: seq<set<string>>, strata: seq<Stratum>, r: Rule, runs: bool)
    requires IsStratification(rules, g, sccs, strata) && InSome(strata, r, runs)
    ensures r in rules && HeadRels(r) != {}
  {
    hide *;
    var groups, m := GroupsBehind(rules, g, sccs, strata);
    assert groups[..|groups|] == groups;
    InitialHas(rules, g, groups, |groups|, r, runs);
    FuseHas(InitialStrata(groups, rules, g), RecursiveMembers(InitialStrata(groups, rules, g)), r, runs);
    FusedIs(rules, g, groups);
    var j :| 0 <= j < |groups| && Feeds(r, groups[j]);
    FeederHasHead(r, groups[j]);
  }

  lemma FusedIs(rules: seq<Rule>, g: Graph, groups: seq<set<string>>)
    ensures Fused(rules, g, groups) ==
        FuseAll(InitialStrata(groups, rules, g), RecursiveMembers(InitialStrata(groups, rules, g)))
  {}

  lemma FeederHasHead(r: Rule, group: set<string>)
    requires Feeds(r, group)
    ensures HeadRels(r) != {}
  {
    var x :| x in HeadRels(r) * group;
    assert x in HeadRels(r);
  }

  lemma LoopsReadIff(rules: seq<Rule>, g: Graph, sccs: seq<set<string>>, strata: seq<Stratum>)
    requires IsStratification(rules, g, sccs, strata)
    ensures LoopsRead(strata) <==> RulesRun(sccs, rules)
  {
    hide IsStratification, InSome, Running, CanDerive, HeadRels;
    if LoopsRead(strata) {
      forall r, x | r in rules && x in HeadRels(r) && !Running(sccs, rules, r, x) ensures !CanDerive(r) {
        RunsIff(rules, g, sccs, strata, r, x);
      }
    }
    if RulesRun(sccs, rules) {
      forall r | InSome(strata, r, false) ensures !CanDerive(r) {
        KeptRule(rules, g, sccs, strata, r, false);
        var x :| x in HeadRels(r);
        RunsIff(rules, g, sccs, strata, r, x);
      }
    }
  }

  // ========== Strata shape ==========

  // What stratification guarantees of each stratum: loops negate nothing they derive, every stratum owns its heads,
  // and no later stratum holds a loop's members.

  ghost predicate LoopsLast(strata: seq<Stratum>) {
    forall i, j :: 0 <= i < j < |strata| && strata[i].recursive ==> strata[i].members !! strata[j].members
  }

  ghost predicate StratumOk(s: Stratum) {
    s.rules != [] && Owned(s) && (s.recursive ==> LoopShaped(s.rules, s.members))
  }

  ghost predicate StrataOk(strata: seq<Stratum>) {
    forall i :: 0 <= i < |strata| ==> StratumOk(strata[i])
  }

  // --- Before fusion ---

  // A rule that feeds a group of a stratifiable program writes only into it; if all read it, they negate none of their
  // heads.
  lemma GroupStratumOk(rules: seq<Rule>, g: Graph, groups: seq<set<string>>, i: nat, s: Stratum)
    requires Stratifiable(rules, g, groups) && i < |groups| && s.members == groups[i] && s.rules != []
    requires forall r :: r in s.rules ==> r in rules && Feeds(r, groups[i]) && (s.recursive ==> ReadsAny(r, groups[i]))
    ensures StratumOk(s)
  {
    assert NegationStratified(groups, rules);
    hide Stratifiable, Feeds, ReadsAny, NegationStratified;
    forall r | r in s.rules ensures HeadRels(r) <= s.members {
      FeederOfGroup(rules, g, groups, i, r);
    }
    if s.recursive {
      ReadersNegateNoHead(s, rules, groups, i);
      ShapedLoop(s);
    }
  }

  lemma ShapedLoop(s: Stratum)
    requires NegatesNoneOf(s.rules, Heads(s.rules)) && forall r :: r in s.rules ==> HeadRels(r) <= s.members
    ensures LoopShaped(s.rules, s.members)
  {
    hide Idbs, HeadRels, NegRels;
    forall r | r in s.rules ensures NegRels(r) !! Idbs(s.rules) {
      var k :| 0 <= k < |s.rules| && s.rules[k] == r;
    }
  }

  lemma GroupStrataOk(rules: seq<Rule>, g: Graph, groups: seq<set<string>>, i: nat)
    requires Stratifiable(rules, g, groups) && i < |groups|
    ensures StrataOk(StrataFor(groups[i], rules, g)) && LoopsLast(StrataFor(groups[i], rules, g))
    ensures forall s :: s in StrataFor(groups[i], rules, g) ==> s.members == groups[i]
  {
    var scc := groups[i];
    var mine := RulesFor(rules, scc);
    var base, rec, whole :=
        Stratum(scc, false, Readers(mine, scc, false)), Stratum(scc, true, Readers(mine, scc, true)),
        Stratum(scc, false, mine);
    hide Stratifiable, Feeds, ReadsAny, IsRecursive, StratumOk;
    if base.rules != [] { GroupStratumOk(rules, g, groups, i, base); }
    if rec.rules != [] { GroupStratumOk(rules, g, groups, i, rec); }
    if mine != [] { GroupStratumOk(rules, g, groups, i, whole); }
  }

  ghost predicate FromGroups(strata: seq<Stratum>, groups: seq<set<string>>) {
    forall s :: s in strata ==> s.members in groups
  }

  lemma AppendShape(a: seq<Stratum>, b: seq<Stratum>)
    requires StrataOk(a) && StrataOk(b) && LoopsLast(a) && LoopsLast(b)
    requires forall s, t :: s in a && t in b ==> s.members !! t.members
    ensures StrataOk(a + b) && LoopsLast(a + b)
  {
    hide StratumOk;
    var all := a + b;
    forall i, j | 0 <= i < j < |all| && all[i].recursive ensures all[i].members !! all[j].members {
      if i < |a| <= j { assert all[i] in a && all[j] in b; }
    }
  }

  lemma GroupsApart(groups: seq<set<string>>, n: nat, a: seq<Stratum>, b: seq<Stratum>)
    requires 0 < n <= |groups| && Disjoint(groups) && FromGroups(a, groups[..n - 1])
    requires forall s :: s in b ==> s.members == groups[n - 1]
    ensures forall s, t :: s in a && t in b ==> s.members !! t.members
    ensures FromGroups(a + b, groups[..n])
  {
    forall s, t | s in a && t in b ensures s.members !! t.members {
      var i :| 0 <= i < n - 1 && groups[..n - 1][i] == s.members;
      assert groups[i] !! groups[n - 1];
    }
    forall s | s in a + b ensures s.members in groups[..n] {
      if s in a {
        var i :| 0 <= i < n - 1 && groups[..n - 1][i] == s.members;
        assert groups[..n][i] == s.members;
      } else {
        assert groups[..n][n - 1] == s.members;
      }
    }
  }

  lemma InitialNone(rules: seq<Rule>, g: Graph, groups: seq<set<string>>)
    ensures StrataOk(InitialStrata(groups[..0], rules, g)) && LoopsLast(InitialStrata(groups[..0], rules, g))
    ensures FromGroups(InitialStrata(groups[..0], rules, g), groups[..0])
  {}

  lemma {:induction false} InitialShape(rules: seq<Rule>, g: Graph, groups: seq<set<string>>, n: nat)
    requires Stratifiable(rules, g, groups) && n <= |groups|
    ensures StrataOk(InitialStrata(groups[..n], rules, g)) && LoopsLast(InitialStrata(groups[..n], rules, g))
    ensures FromGroups(InitialStrata(groups[..n], rules, g), groups[..n])
  {
    hide *;
    if n == 0 {
      InitialNone(rules, g, groups);
    } else {
      var a, b := InitialStrata(groups[..n - 1], rules, g), StrataFor(groups[n - 1], rules, g);
      InitialShape(rules, g, groups, n - 1);
      GroupStrataOk(rules, g, groups, n - 1);
      GroupsDisjoint(rules, g, groups);
      GroupsApart(groups, n, a, b);
      AppendShape(a, b);
      InitialAppend(groups, rules, g, n - 1);
    }
  }

  lemma GroupsDisjoint(rules: seq<Rule>, g: Graph, groups: seq<set<string>>)
    requires Stratifiable(rules, g, groups)
    ensures Disjoint(groups)
  {}

  // --- Fusion keeps it ---

  // x is a member of one of the strata.
  ghost predicate MemberOfSome(strata: seq<Stratum>, x: string) {
    exists i :: 0 <= i < |strata| && x in strata[i].members
  }

  lemma MergedOk(a: Stratum, b: Stratum)
    requires StratumOk(a) && StratumOk(b) && !a.recursive && !b.recursive
    ensures StratumOk(Merged(a, b))
  {}

  lemma MergeShape(a: Stratum, b: Stratum, tail: seq<Stratum>)
    requires StrataOk([a, b] + tail) && LoopsLast([a, b] + tail) && !a.recursive && !b.recursive
    ensures StrataOk([Merged(a, b)] + tail) && LoopsLast([Merged(a, b)] + tail)
    ensures forall x :: MemberOfSome([Merged(a, b)] + tail, x) ==> MemberOfSome([a, b] + tail, x)
  {
    var all, out := [a, b] + tail, [Merged(a, b)] + tail;
    assert StratumOk(all[0]) && StratumOk(all[1]);
    MergedOk(a, b);
    hide StratumOk;
    assert forall i :: 0 < i < |out| ==> out[i] == all[i + 1];
    forall x | MemberOfSome(out, x) ensures MemberOfSome(all, x) {
      var i :| 0 <= i < |out| && x in out[i].members;
      if i == 0 {
        assert x in all[0].members || x in all[1].members;
      } else {
        assert x in all[i + 1].members;
      }
    }
  }

  lemma {:induction false} AbsorbShape(cur: Stratum, rest: seq<Stratum>, recursiveMembers: set<string>)
    requires !cur.recursive && StrataOk([cur] + rest) && LoopsLast([cur] + rest)
    ensures var r := Absorb(cur, rest, recursiveMembers);
      StrataOk([r.0] + rest[r.1..]) && LoopsLast([r.0] + rest[r.1..]) && forall x ::
          MemberOfSome([r.0] + rest[r.1..], x) ==> MemberOfSome([cur] + rest, x)
    decreases |rest|
  {
    hide StratumOk, StrataOk, LoopsLast, StratumDependsOn, MemberOfSome;
    if rest != [] && Fusable(rest[0], recursiveMembers) && !StratumDependsOn(rest[0], cur.members) {
      var next, tail := rest[0], rest[1..];
      assert [cur] + rest == [cur, next] + tail;
      MergeShape(cur, next, tail);
      AbsorbShape(Merged(cur, next), tail, recursiveMembers);
      var r := Absorb(Merged(cur, next), tail, recursiveMembers);
      assert rest[r.1 + 1..] == tail[r.1..];
    }
  }

  lemma FirstShape(strata: seq<Stratum>, recursiveMembers: set<string>)
    requires strata != [] && StrataOk(strata) && LoopsLast(strata)
    ensures var r := FusedFirst(strata, recursiveMembers);
      StrataOk([r.0] + r.1) && LoopsLast([r.0] + r.1) && forall x ::
          MemberOfSome([r.0] + r.1, x) ==> MemberOfSome(strata, x)
  {
    hide StratumOk, StrataOk, LoopsLast, MemberOfSome, Absorb;
    assert strata == [strata[0]] + strata[1..];
    if Fusable(strata[0], recursiveMembers) {
      AbsorbShape(strata[0], strata[1..], recursiveMembers);
      var n := Absorb(strata[0], strata[1..], recursiveMembers).1;
      assert strata[1..][n..] == strata[1 + n..];
    }
  }

  lemma TailShape(c: Stratum, rest: seq<Stratum>)
    requires StrataOk([c] + rest) && LoopsLast([c] + rest)
    ensures StratumOk(c) && StrataOk(rest) && LoopsLast(rest)
    ensures c.recursive ==> forall x :: MemberOfSome(rest, x) ==> x !in c.members
  {
    var all := [c] + rest;
    hide StratumOk;
    assert all[0] == c && forall i :: 0 <= i < |rest| ==> all[i + 1] == rest[i];
    forall i, j | 0 <= i < j < |rest| && rest[i].recursive ensures rest[i].members !! rest[j].members {
      assert all[i + 1].members !! all[j + 1].members;
    }
    if c.recursive {
      forall x | MemberOfSome(rest, x) ensures x !in c.members {
        var i :| 0 <= i < |rest| && x in rest[i].members;
        assert all[0].members !! all[i + 1].members;
      }
    }
  }

  lemma ConsShape(c: Stratum, rest: seq<Stratum>)
    requires StratumOk(c) && StrataOk(rest) && LoopsLast(rest)
    requires c.recursive ==> forall x :: MemberOfSome(rest, x) ==> x !in c.members
    ensures StrataOk([c] + rest) && LoopsLast([c] + rest)
  {
    var all := [c] + rest;
    hide StratumOk;
    forall i, j | 0 <= i < j < |all| && all[i].recursive ensures all[i].members !! all[j].members {
      if i == 0 {
        forall x | x in all[j].members ensures x !in c.members {
          assert x in rest[j - 1].members && MemberOfSome(rest, x);
        }
      } else {
        assert rest[i - 1].members !! rest[j - 1].members;
      }
    }
  }

  lemma MemberOfCons(c: Stratum, rest: seq<Stratum>, x: string)
    ensures MemberOfSome([c] + rest, x) <==> x in c.members || MemberOfSome(rest, x)
  {
    var all := [c] + rest;
    if i :| 0 <= i < |rest| && x in rest[i].members { assert x in all[i + 1].members; }
    if x in c.members { assert x in all[0].members; }
  }

  lemma {:induction false} FuseShape(strata: seq<Stratum>, recursiveMembers: set<string>)
    requires StrataOk(strata) && LoopsLast(strata)
    ensures StrataOk(FuseAll(strata, recursiveMembers)) && LoopsLast(FuseAll(strata, recursiveMembers))
    ensures forall x :: MemberOfSome(FuseAll(strata, recursiveMembers), x) ==> MemberOfSome(strata, x)
    decreases |strata|
  {
    if strata != [] {
      var r := FusedFirst(strata, recursiveMembers);
      FirstShape(strata, recursiveMembers);
      hide *;
      TailShape(r.0, r.1);
      FuseShape(r.1, recursiveMembers);
      var out := FuseAll(r.1, recursiveMembers);
      ConsShape(r.0, out);
      forall x | MemberOfSome([r.0] + out, x) ensures MemberOfSome(strata, x) {
        MemberOfCons(r.0, out, x);
        MemberOfCons(r.0, r.1, x);
      }
    }
  }

  // --- The strata of a program ---

  lemma FusedShape(rules: seq<Rule>, g: Graph, groups: seq<set<string>>)
    requires Stratifiable(rules, g, groups)
    ensures StrataOk(Fused(rules, g, groups)) && LoopsLast(Fused(rules, g, groups))
  {
    assert groups[..|groups|] == groups;
    hide StrataOk, LoopsLast, InitialStrata, FuseAll, RecursiveMembers, Stratifiable;
    InitialShape(rules, g, groups, |groups|);
    FuseShape(InitialStrata(groups, rules, g), RecursiveMembers(InitialStrata(groups, rules, g)));
  }

  // Where the order survives the merge and negation is apart, every stratum has this shape, and the strata are in
  // order.
  lemma StratificationShape(rules: seq<Rule>, g: Graph, sccs: seq<set<string>>, strata: seq<Stratum>)
    requires IsStratification(rules, g, sccs, strata) && NegationApart(sccs, rules) && OrderSurvives(g, sccs, rules)
    ensures StrataOk(strata) && LoopsLast(strata) && WellStratified(strata)
  {
    hide MergedFrom, Fused;
    var groups :| MergedFrom(sccs, rules, groups) && strata == Fused(rules, g, groups);
    GroupsFit(rules, g, sccs, groups);
    StratifiedIff(rules, g, sccs, strata);
    MakeStratifiable(rules, g, groups);
    hide *;
    FusedShape(rules, g, groups);
  }

  lemma MakeStratifiable(rules: seq<Rule>, g: Graph, groups: seq<set<string>>)
    requires IsGrouping(rules, g, groups) && Tarjan.DependenciesFirst(g, groups) && NegationStratified(groups, rules)
    ensures Stratifiable(rules, g, groups)
  {}

  // ========== Merge counterexample ==========

  // A program whose multi-head rule spans two components, on which stratification misses a fact.

  const X: Arg := LVar("x")
  const Y: Arg := LVar("y")
  const FEED: Rule := Rule([Atom("A", [X]), Atom("B", [Y])], [Pos(Atom("E", [X, Y]))])
  const COPY_AC: Rule := Rule([Atom("C", [X])], [Pos(Atom("A", [X]))])
  const COPY_CB: Rule := Rule([Atom("B", [X])], [Pos(Atom("C", [X]))])

  // A(x), B(y) :- E(x, y).  C(x) :- A(x).  B(x) :- C(x).
  const RULES: seq<Rule> := [FEED, COPY_AC, COPY_CB]
  const FACTS: Facts := iset{Fact("E", [1, 2])}

  // The components A, C, B are in order, but merging A with B lists B before C, so B's last rule runs before C has any
  // fact: B(1) follows from E(1, 2) and is never derived, whatever components the search finds and fusion does.
  lemma MergingCanBreakOrder(sem: Interp, g: Graph, sccs: seq<set<string>>, strata: seq<Stratum>, m: Facts)
    requires IsStratification(RULES, g, sccs, strata) && IsStable(RULES, sem, FACTS, m)
    ensures sccs == [{"A"}, {"C"}, {"B"}]
    ensures strata == [Stratum({"A", "B"}, false, [FEED, COPY_CB]), Stratum({"C"}, false, [COPY_AC])]
    ensures Fact("B", [1]) in m && Fact("B", [1]) !in Run(strata, sem, FACTS)
    ensures NegationApart(sccs, RULES) && !OrderSurvives(g, sccs, RULES)
  {
    hide WellStratified, NegationApart;
    hide IsDepGraph, InitialStrata, Run, IsStable, Grouped, Fused, MergedFrom, Tarjan.IsComponentList, OrderSurvives,
        Tarjan.Members;
    var groups :| MergedFrom(sccs, RULES, groups) && strata == Fused(RULES, g, groups);
    ExampleComponents(g, sccs);
    ExampleGroups(sccs, groups);
    ChainDerivesB(sem, FACTS, m);
    ExampleFused(g);
    BrokenRun(sem, FACTS);
    NothingNegated(sccs);
    StratifiedIff(RULES, g, sccs, strata);
  }

  lemma NothingNegated(sccs: seq<set<string>>)
    ensures NegationApart(sccs, RULES)
  {
    assert NegRels(FEED) == {} && NegRels(COPY_AC) == {} && NegRels(COPY_CB) == {};
  }

  // --- The components ---

  // B depends on C, C on A.
  ghost predicate ExampleGraph(g: Graph) {
    g.Keys == {"A", "B", "C"} && forall x, y :: Edge(g, x, y) <==> (x == "C" && y == "A") || (x == "B" && y == "C")
  }

  lemma ExampleEdges(g: Graph)
    requires IsDepGraph(RULES, g)
    ensures ExampleGraph(g)
  {
    ExampleRels();
    ExampleIdbs();
    hide HeadRels, BodyRels, Idbs;
    forall x, y ensures Edge(g, x, y) <==> (x == "C" && y == "A") || (x == "B" && y == "C") {
      ExampleUses(x, y);
      assert Edge(g, x, y) <==> DependsOn(RULES, x, y);
    }
  }

  lemma ExampleIdbs()
    ensures Idbs(RULES) == {"A", "B", "C"}
  {
    assert RULES[0].heads[0].rel == "A" && RULES[0].heads[1].rel == "B" && RULES[1].heads[0].rel == "C"
        && RULES[2].heads[0].rel == "B";
  }

  lemma ExampleUses(x: string, y: string)
    ensures Uses(RULES, x, y)
        <==> ((x == "A" || x == "B") && y == "E") || (x == "C" && y == "A") || (x == "B" && y == "C")
  {
    ExampleRels();
    hide HeadRels, BodyRels;
    assert RULES[0] == FEED && RULES[1] == COPY_AC && RULES[2] == COPY_CB;
  }

  lemma NoCycle(g: Graph, x: string, y: string)
    requires ExampleGraph(g)
    requires x in g && y in g && Mutual(g, x, y)
    ensures x == y
  {
    assert Closed(g, {"A"}) && Closed(g, {"A", "C"});
    assert Reach(g, x, y) && Reach(g, y, x);
  }

  lemma SingleComponent(g: Graph, c: set<string>) returns (x: string)
    requires ExampleGraph(g)
    requires Tarjan.IsComponent(g, c)
    ensures x in g && c == {x}
  {
    x :| x in c;
    forall y | y in c ensures y == x {
      assert Mutual(g, x, y);
      NoCycle(g, x, y);
    }
  }

  ghost predicate IsSingle(c: set<string>) {
    c == {"A"} || c == {"B"} || c == {"C"}
  }

  ghost predicate Singles(sccs: seq<set<string>>) {
    forall i :: 0 <= i < |sccs| ==> IsSingle(sccs[i])
  }

  lemma ExampleComponents(g: Graph, sccs: seq<set<string>>)
    requires IsDepGraph(RULES, g) && Tarjan.IsComponentList(g, sccs) && Members(sccs) == g.Keys
    ensures sccs == [{"A"}, {"C"}, {"B"}]
  {
    hide *;
    ExampleEdges(g);
    AllSingles(g, sccs);
    ExampleNodes(g);
    PlaceComponents(g, sccs);
  }

  lemma AllSingles(g: Graph, sccs: seq<set<string>>)
    requires ExampleGraph(g) && Tarjan.IsComponentList(g, sccs)
    ensures Singles(sccs)
  {
    hide ExampleGraph, Tarjan.IsComponent, Tarjan.DependenciesFirst;
    forall i | 0 <= i < |sccs| ensures IsSingle(sccs[i]) {
      var x := SingleComponent(g, sccs[i]);
      ExampleNodes(g);
    }
  }

  lemma ExampleNodes(g: Graph)
    requires ExampleGraph(g)
    ensures g.Keys == {"A", "B", "C"} && Edge(g, "C", "A") && Edge(g, "B", "C")
  {}

  lemma PlaceComponents(g: Graph, sccs: seq<set<string>>)
    requires Tarjan.IsComponentList(g, sccs) && Members(sccs) == {"A", "B", "C"} && Singles(sccs) && Edge(g, "C", "A")
    requires Edge(g, "B", "C")
    ensures sccs == [{"A"}, {"C"}, {"B"}]
  {
    NamesDiffer();
    assert "A" in Members(sccs) && "C" in Members(sccs) && "B" in Members(sccs);
    PlaceThree(g, sccs, "A", "C", "B");
  }

  lemma NamesDiffer()
    ensures "A" != "B" && "A" != "C" && "B" != "C"
  {}

  lemma PlaceThree(g: Graph, sccs: seq<set<string>>, x: string, y: string, z: string)
    requires Tarjan.IsComponentList(g, sccs) && x in Members(sccs) && y in Members(sccs) && z in Members(sccs) && x != y
    requires y != z && x != z
    requires (forall i :: 0 <= i < |sccs| ==> sccs[i] == {x} || sccs[i] == {y} || sccs[i] == {z}) && Edge(g, y, x)
    requires Edge(g, z, y)
    ensures sccs == [{x}, {y}, {z}]
  {
    hide Tarjan.IsComponentList, Edge, Members;
    DisjointList(g, sccs);
    var a := WhereIs(sccs, x, y, z, x);
    var c := WhereIs(sccs, x, y, z, y);
    var b := WhereIs(sccs, x, y, z, z);
    EarlierBy(g, sccs, y, x, c, a);
    EarlierBy(g, sccs, z, y, b, c);
    forall i: nat | i < |sccs| ensures OneOf(i, a, c, b) {
      SameSingle(sccs, i, a, x);
      SameSingle(sccs, i, c, y);
      SameSingle(sccs, i, b, z);
    }
    ThreePositions(a, c, b, |sccs|);
  }

  lemma DisjointList(g: Graph, sccs: seq<set<string>>)
    requires Tarjan.IsComponentList(g, sccs)
    ensures Stratify.Disjoint(sccs)
  {}

  lemma WhereIs(sccs: seq<set<string>>, x: string, y: string, z: string, w: string) returns (i: nat)
    requires w in Members(sccs) && (w == x || w == y || w == z)
    requires forall i :: 0 <= i < |sccs| ==> sccs[i] == {x} || sccs[i] == {y} || sccs[i] == {z}
    ensures i < |sccs| && sccs[i] == {w}
  {
    i :| i < |sccs| && w in sccs[i];
  }

  lemma SameSingle(sccs: seq<set<string>>, i: nat, j: nat, x: string)
    requires Stratify.Disjoint(sccs) && i < |sccs| && j < |sccs| && sccs[j] == {x}
    ensures sccs[i] == {x} ==> i == j
  {
    assert x in sccs[j];
    assert x in sccs[i] ==> i == j;
  }

  lemma EarlierBy(g: Graph, sccs: seq<set<string>>, x: string, y: string, i: nat, j: nat)
    requires Tarjan.IsComponentList(g, sccs) && Edge(g, x, y) && i < |sccs| && j < |sccs| && x in sccs[i]
    requires y in sccs[j] && sccs[i] == {x} && x != y
    ensures j < i
  {
    assert y in Tarjan.Members(sccs[..i + 1]);
    var k: nat :| k < |sccs[..i + 1]| && y in sccs[..i + 1][k];
    assert sccs[k] == sccs[..i + 1][k];
    assert k == j;
  }

  predicate OneOf(i: nat, a: nat, b: nat, c: nat) {
    i == a || i == b || i == c
  }

  lemma ThreePositions(a: nat, b: nat, c: nat, n: nat)
    requires a < b < c < n && forall i: nat :: i < n ==> OneOf(i, a, b, c)
    ensures a == 0 && b == 1 && c == 2 && n == 3
  {
    assert OneOf(0, a, b, c) && OneOf(1, a, b, c) && OneOf(2, a, b, c);
    assert n > 3 ==> OneOf(3, a, b, c);
  }

  // --- The groups ---

  lemma ExampleGroups(sccs: seq<set<string>>, groups: seq<set<string>>)
    requires sccs == [{"A"}, {"C"}, {"B"}] && MergedFrom(sccs, RULES, groups)
    ensures groups == [{"A", "B"}, {"C"}]
  {
    hide *;
    var m := MergeBehind(sccs, RULES, groups);
    LookedUp(sccs, m, 0, "A");
    LookedUp(sccs, m, 1, "C");
    LookedUp(sccs, m, 2, "B");
    ExampleRoots(m);
    BrokenGroups(m.root);
  }

  lemma LookedUp(sccs: seq<set<string>>, m: Merge, i: nat, x: string)
    requires IsMerge(sccs, RULES, m) && i < |sccs| && x in sccs[i]
    ensures x in m.sccOf && m.sccOf[x] == i
  {
    hide Stratify.RootsAreLinks, HeadsJoined, LinksFromRules;
  }

  lemma ExampleRoots(m: Merge)
    requires IsMerge([{"A"}, {"C"}, {"B"}], RULES, m)
    requires "A" in m.sccOf && "B" in m.sccOf && "C" in m.sccOf && m.sccOf["A"] == 0 && m.sccOf["C"] == 1
    requires m.sccOf["B"] == 2
    ensures |m.root| == 3 && m.root[0] == m.root[2] && m.root[0] != m.root[1]
  {
    ExampleRels();
    hide HeadRels, BodyRels;
    assert RULES[0] == FEED && RULES[1] == COPY_AC && RULES[2] == COPY_CB;
    assert "A" in HeadRels(RULES[0]) && "B" in HeadRels(RULES[0]);
    assert SameRoot(m.sccOf, m.root, "A", "B");
    forall k | 0 <= k < |m.links| ensures m.links[k].0 == 1 <==> m.links[k].1 == 1 {
      assert LinkFromRule(RULES, m.sccOf, m.links[k]);
    }
    assert Stratify.Saturated(m.links, {1});
    assert !Stratify.Linked(m.links, 1, 0);
    assert m.root[1] != m.root[0];
  }

  lemma ExampleFused(g: Graph)
    requires IsDepGraph(RULES, g)
    ensures Fused(RULES, g, [{"A", "B"}, {"C"}]) ==
        [Stratum({"A", "B"}, false, [FEED, COPY_CB]), Stratum({"C"}, false, [COPY_AC])]
  {
    BrokenStrata(RULES, g);
    CopyReadsA();
    hide *;
    FuseTwo(Stratum({"A", "B"}, false, [FEED, COPY_CB]), Stratum({"C"}, false, [COPY_AC]));
    ExampleFusedIs(g);
  }

  lemma ExampleFusedIs(g: Graph)
    ensures Fused(RULES, g, [{"A", "B"}, {"C"}]) ==
      FuseAll(InitialStrata([{"A", "B"}, {"C"}], RULES, g),
              RecursiveMembers(InitialStrata([{"A", "B"}, {"C"}], RULES, g)))
  {}

  lemma CopyReadsA()
    ensures StratumDependsOn(Stratum({"C"}, false, [COPY_AC]), {"A", "B"})
  {
    ExampleRels();
    hide HeadRels, BodyRels;
    assert "A" in BodyRels(COPY_AC) * {"A", "B"};
    assert ReadsAny([COPY_AC][0], {"A", "B"});
  }

  // Of two strata of which the second reads the first, nothing is fused.
  lemma FuseTwo(a: Stratum, b: Stratum)
    requires !a.recursive && !b.recursive && StratumDependsOn(b, a.members)
    ensures FuseAll([a, b], RecursiveMembers([a, b])) == [a, b]
  {
    hide StratumDependsOn;
    assert RecursiveMembers([a, b]) == {};
    assert [a, b][1..] == [b] && [b][1..] == [] && [a, b][0] == a && [b][0] == b;
    assert Absorb(a, [b], {}) == (a, 0);
    assert Absorb(b, [], {}) == (b, 0);
    assert FuseAll([], {}) == [];
    assert [b][1 + 0..] == [];
    assert FuseAll([b], {}) == [b] + FuseAll([b][1..], {});
    assert [a, b][1 + 0..] == [b];
  }

  lemma ChainDerivesB(sem: Interp, edb: Facts, m: Facts)
    requires edb == iset{Fact("E", [1, 2])} && IsStable([FEED, COPY_AC, COPY_CB], sem, edb, m)
    ensures Fact("B", [1]) in m
  {
    var rules := [FEED, COPY_AC, COPY_CB];
    LeastClosedIsClosed(rules, sem, edb, m);
    var env: Env := map["x" := 1, "y" := 2];
    assert Ground(Atom("E", [X, Y]), env) == [1, 2] && Ground(Atom("A", [X]), env) == [1];
    assert Ground(Atom("B", [X]), env) == [1] && Ground(Atom("C", [X]), env) == [1];
    assert SatBody(FEED.body, sem, m, m, -1, m, env)
        && IsHeadFact(FEED, env, Fact(FEED.heads[0].rel, Ground(FEED.heads[0], env)));
    assert DerivesFrom(rules[0], sem, m, m, Fact("A", [1]));
    assert SatBody(COPY_AC.body, sem, m, m, -1, m, env)
        && IsHeadFact(COPY_AC, env, Fact(COPY_AC.heads[0].rel, Ground(COPY_AC.heads[0], env)));
    assert DerivesFrom(rules[1], sem, m, m, Fact("C", [1]));
    assert SatBody(COPY_CB.body, sem, m, m, -1, m, env)
        && IsHeadFact(COPY_CB, env, Fact(COPY_CB.heads[0].rel, Ground(COPY_CB.heads[0], env)));
    assert DerivesFrom(rules[2], sem, m, m, Fact("B", [1]));
  }

  lemma ExampleRels()
    ensures HeadRels(FEED) == {"A", "B"} && HeadRels(COPY_AC) == {"C"} && HeadRels(COPY_CB) == {"B"}
    ensures BodyRels(FEED) == {"E"} && BodyRels(COPY_AC) == {"A"} && BodyRels(COPY_CB) == {"C"}
  {
    assert FEED.heads[0].rel == "A" && FEED.heads[1].rel == "B";
    assert COPY_AC.heads[0].rel == "C" && COPY_CB.heads[0].rel == "B";
    assert FEED.body[0].atom.rel == "E" && COPY_AC.body[0].atom.rel == "A" && COPY_CB.body[0].atom.rel == "C";
  }

  lemma ThreeRulesFor(a: Rule, b: Rule, c: Rule, scc: set<string>)
    ensures RulesFor([a, b, c], scc) ==
      (if Feeds(a, scc) then [a] else []) + (if Feeds(b, scc) then [b] else []) + (if Feeds(c, scc) then [c] else [])
  {
    var rules := [a, b, c];
    assert rules[..2][..1] == rules[..1] && rules[..1][..0] == rules[..0];
    assert RulesFor(rules[..1], scc) == if Feeds(a, scc) then [a] else [];
    assert RulesFor(rules[..2], scc) == RulesFor(rules[..1], scc) + if Feeds(b, scc) then [b] else [];
  }

  lemma TwoReaders(a: Rule, b: Rule, scc: set<string>)
    requires !ReadsAny(a, scc) && !ReadsAny(b, scc)
    ensures Readers([a, b], scc, false) == [a, b] && Readers([a, b], scc, true) == []
  {
    var rules := [a, b];
    assert rules[..1][..0] == rules[..0];
    assert Readers(rules[..1], scc, false) == [a] && Readers(rules[..1], scc, true) == [];
  }

  lemma NotSelfReading(rules: seq<Rule>, g: Graph)
    requires rules == [FEED, COPY_AC, COPY_CB] && IsDepGraph(rules, g)
    ensures !IsRecursive({"C"}, g)
  {
    ExampleRels();
    assert !Uses(rules, "C", "C");
    assert !DependsOn(rules, "C", "C");
  }

  lemma BrokenGroups(root: seq<nat>)
    requires |root| == 3 && root[0] == root[2] && root[0] != root[1]
    ensures Grouped([{"A"}, {"C"}, {"B"}], root, 3) == [{"A", "B"}, {"C"}]
  {
    hide Group;
    assert RootOrder(root, 1) == [root[0]];
    assert RootOrder(root, 2) == [root[0], root[1]];
    assert RootOrder(root, 3) == [root[0], root[1]];
    BrokenGroup(root);
  }

  lemma BrokenGroup(root: seq<nat>)
    requires |root| == 3 && root[0] == root[2] && root[0] != root[1]
    ensures Group([{"A"}, {"C"}, {"B"}], root, 3, root[0]) == {"A", "B"}
    ensures Group([{"A"}, {"C"}, {"B"}], root, 3, root[1]) == {"C"}
  {
    var sccs: seq<set<string>> := [{"A"}, {"C"}, {"B"}];
    assert Group(sccs, root, 3, root[0]) == {"A", "B"} by {
      assert "A" in sccs[0] && "B" in sccs[2];
    }
    assert Group(sccs, root, 3, root[1]) == {"C"} by {
      assert "C" in sccs[1];
    }
  }

  lemma FeedersOfEach()
    ensures RulesFor([FEED, COPY_AC, COPY_CB], {"A", "B"}) == [FEED, COPY_CB]
    ensures RulesFor([FEED, COPY_AC, COPY_CB], {"C"}) == [COPY_AC]
  {
    var ab: set<string>, c: set<string> := {"A", "B"}, {"C"};
    ExampleRels();
    ThreeRulesFor(FEED, COPY_AC, COPY_CB, ab);
    ThreeRulesFor(FEED, COPY_AC, COPY_CB, c);
    hide HeadRels, BodyRels, RulesFor;
    assert "A" in HeadRels(FEED) * ab && "B" in HeadRels(COPY_CB) * ab && "C" in HeadRels(COPY_AC) * c;
    assert HeadRels(COPY_AC) * ab == {} && HeadRels(FEED) * c == {} && HeadRels(COPY_CB) * c == {};
  }

  lemma StrataOfAB(rules: seq<Rule>, g: Graph)
    requires rules == [FEED, COPY_AC, COPY_CB]
    ensures StrataFor({"A", "B"}, rules, g) == [Stratum({"A", "B"}, false, [FEED, COPY_CB])]
  {
    var ab: set<string> := {"A", "B"};
    FeedersOfEach();
    ExampleRels();
    hide HeadRels, BodyRels, RulesFor, Feeds;
    assert BodyRels(FEED) * ab == {} && BodyRels(COPY_CB) * ab == {};
    TwoReaders(FEED, COPY_CB, ab);
    hide Readers, ReadsAny;
    assert |ab| == 2;
  }

  lemma StrataOfC(rules: seq<Rule>, g: Graph)
    requires rules == [FEED, COPY_AC, COPY_CB] && IsDepGraph(rules, g)
    ensures StrataFor({"C"}, rules, g) == [Stratum({"C"}, false, [COPY_AC])]
  {
    NotSelfReading(rules, g);
    FeedersOfEach();
    hide IsDepGraph, IsRecursive, RulesFor, Readers;
  }

  lemma BrokenStrata(rules: seq<Rule>, g: Graph)
    requires rules == [FEED, COPY_AC, COPY_CB] && IsDepGraph(rules, g)
    ensures InitialStrata([{"A", "B"}, {"C"}], rules, g) ==
            [Stratum({"A", "B"}, false, [FEED, COPY_CB]), Stratum({"C"}, false, [COPY_AC])]
  {
    var ab: set<string>, c: set<string> := {"A", "B"}, {"C"};
    StrataOfAB(rules, g);
    StrataOfC(rules, g);
    hide IsDepGraph, StrataFor;
    assert [ab, c][..1] == [ab] && [ab][..0] == [];
    assert InitialStrata([ab], rules, g) == StrataFor(ab, rules, g);
  }

  lemma BrokenRun(sem: Interp, edb: Facts)
    requires edb == iset{Fact("E", [1, 2])}
    ensures Fact("B", [1]) !in Run([Stratum({"A", "B"}, false, [FEED, COPY_CB]), Stratum({"C"}, false, [COPY_AC])], sem,
                                   edb)
  {
    var s1, s2 := Stratum({"A", "B"}, false, [FEED, COPY_CB]), Stratum({"C"}, false, [COPY_AC]);
    assert [s1, s2][..1] == [s1] && [s1][..0] == [];
    var mid := RunStratum(s1, sem, edb);
    assert Run([s1], sem, edb) == mid;
    FirstStratumNoB(sem, edb);
    SecondStratumNoB(sem, mid);
  }

  lemma FirstStratumNoB(sem: Interp, edb: Facts)
    requires edb == iset{Fact("E", [1, 2])}
    ensures Fact("B", [1]) !in RunStratum(Stratum({"A", "B"}, false, [FEED, COPY_CB]), sem, edb)
  {
    forall k | 0 <= k < 2 ensures !DerivesFrom([FEED, COPY_CB][k], sem, edb, edb, Fact("B", [1])) {
      NoFirstB(k, sem, edb);
    }
  }

  lemma SecondStratumNoB(sem: Interp, mid: Facts)
    requires Fact("B", [1]) !in mid
    ensures Fact("B", [1]) !in RunStratum(Stratum({"C"}, false, [COPY_AC]), sem, mid)
  {
    ImmediateRelIsHead([COPY_AC], sem, mid, mid, Fact("B", [1]));
    assert "B" !in Heads([COPY_AC]);
  }

  lemma NoFirstB(k: nat, sem: Interp, edb: Facts)
    requires k < 2 && edb == iset{Fact("E", [1, 2])}
    ensures !DerivesFrom([FEED, COPY_CB][k], sem, edb, edb, Fact("B", [1]))
  {
    var r := [FEED, COPY_CB][k];
    forall env | SatBody(r.body, sem, edb, edb, -1, edb, env) ensures !IsHeadFact(r, env, Fact("B", [1])) {
      assert SatClause(r.body[0], sem, edb, edb, env);
      assert k == 0;
      assert Ground(Atom("E", [X, Y]), env) == [Look(env, "x"), Look(env, "y")];
      assert Ground(r.heads[1], env)[0] == 2;
    }
  }

  // --- Negation inside a component ---

  const SELF: Rule := Rule([Atom("P", [X])], [Pos(Atom("E", [X])), Neg(Atom("P", [X]))])

  // P(x) :- E(x), !P(x) is accepted, but no set of facts is a stable model of it, so nothing the strata compute can be
  // one.
  lemma NegationInComponentHasNoModel(sem: Interp, m: Facts)
    ensures !IsStable([SELF], sem, iset{Fact("E", [1])}, m)
  {
    SelfWithout(sem, m);
    SelfWith(sem, m);
  }

  lemma SelfWithout(sem: Interp, m: Facts)
    ensures Fact("P", [1]) in m ==> Fact("P", [1]) !in LeastClosed([SELF], sem, iset{Fact("E", [1])}, m)
  {
    var edb := iset{Fact("E", [1])};
    if Fact("P", [1]) in m {
      forall f ensures !DerivesFrom(SELF, sem, edb, m, f) { SelfBlocked(sem, edb, m, f); }
      assert ClosedUnder([SELF], sem, edb, m);
      ClosingStaysInside([SELF], sem, edb, m, edb);
      assert "P"[0] != "E"[0];
    }
  }

  lemma SelfWith(sem: Interp, m: Facts)
    ensures Fact("P", [1]) !in m ==> Fact("P", [1]) in LeastClosed([SELF], sem, iset{Fact("E", [1])}, m)
  {
    var edb := iset{Fact("E", [1])};
    var least := LeastClosed([SELF], sem, edb, m);
    LeastClosedIsClosed([SELF], sem, edb, m);
    if Fact("P", [1]) !in m {
      SelfDerives(sem, least, m);
      assert DerivesFrom([SELF][0], sem, least, m, Fact("P", [1]));
    }
  }

  lemma SelfBlocked(sem: Interp, edb: Facts, m: Facts, f: Fact)
    requires edb == iset{Fact("E", [1])} && Fact("P", [1]) in m
    ensures !DerivesFrom(SELF, sem, edb, m, f)
  {
    hide Look;
    forall env ensures !SatBody(SELF.body, sem, edb, edb, -1, m, env) {
      assert Ground(Atom("E", [X]), env) == [Look(env, "x")];
      assert SatBody(SELF.body, sem, edb, edb, -1, m, env) ==>
        SatClause(SELF.body[0], sem, View(edb, edb, -1, 0), m, env)
            && SatClause(SELF.body[1], sem, View(edb, edb, -1, 1), m, env);
      assert [Look(env, "x")] == [1] ==> Matches(Atom("P", [X]), [1], env);
    }
  }

  lemma SelfDerives(sem: Interp, db: Facts, m: Facts)
    requires Fact("E", [1]) in db && Fact("P", [1]) !in m
    ensures DerivesFrom(SELF, sem, db, m, Fact("P", [1]))
  {
    var env: Env := map["x" := 1];
    assert Ground(Atom("E", [X]), env) == [1] && Ground(Atom("P", [X]), env) == [1];
    forall row ensures Matches(Atom("P", [X]), row, env) ==> row == [1] {}
    assert SatBody(SELF.body, sem, db, db, -1, m, env);
    assert IsHeadFact(SELF, env, Fact(SELF.heads[0].rel, Ground(SELF.heads[0], env)));
  }
}
