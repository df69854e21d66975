/** Delta variants and why one per positive component clause is enough: semi-naive equals naive, step by step. */
module SemiNaive {
  import opened Datalog
  import opened Dependencies
  import opened StableModel

  datatype Version = FULL | DELTA | NEW

  // A rule with the version each body clause reads; deltaIdx is -1 for a base variant.
  datatype Variant = Variant(rule: Rule, deltaIdx: int, versions: seq<Version>)

  // Positions of the positive body clauses over the component.
  function FindSccClauseIndices(rule: Rule, members: set<string>): (out: seq<nat>)
    ensures forall i :: i in out <==> IsSccClause(rule, members, i)
    ensures forall m :: 0 <= m < |out| ==> out[m] < |rule.body|
  {
    Indices(rule, members, |rule.body|)
  }

  function Indices(rule: Rule, members: set<string>, n: nat): (out: seq<nat>)
    requires n <= |rule.body|
    ensures forall i :: i in out <==> i < n && IsSccClause(rule, members, i)
    ensures forall m :: 0 <= m < |out| ==> out[m] < n
  {
    if n == 0 then [] else
      Indices(rule, members, n - 1) + if IsSccClause(rule, members, n - 1) then [n - 1] else []
  }

  predicate IsSccClause(rule: Rule, members: set<string>, i: int) {
    0 <= i < |rule.body| && rule.body[i].Pos? && rule.body[i].atom.rel in members
  }

  function CreateBaseVariant(rule: Rule): Variant {
    Variant(rule, -1, seq(|rule.body|, i => FULL))
  }

  function CreateDeltaVariant(rule: Rule, deltaIdx: nat): Variant
    requires deltaIdx < |rule.body|
  {
    Variant(rule, deltaIdx, seq(|rule.body|, i => FULL)[deltaIdx := DELTA])
  }

  // --- The rules a recursive stratum may hold ---

  // Every rule reads the component positively, writes only to it, and negates nothing that the stratum derives.
  ghost predicate IsRecursiveStratum(rules: seq<Rule>, members: set<string>) {
    forall k :: 0 <= k < |rules| ==>
      && HeadRels(rules[k]) <= members && NegRels(rules[k]) !! Idbs(rules)
      && ReadsPositively(rules[k], members)
  }

  ghost predicate ReadsPositively(rule: Rule, members: set<string>) {
    exists i :: IsSccClause(rule, members, i)
  }

  ghost predicate DerivedByVariant(rules: seq<Rule>, members: set<string>, sem: Interp, full: Facts, delta: Facts,
                                   f: Fact) {
    exists k, i ::
        0 <= k < |rules| && IsSccClause(rules[k], members, i) && Derives(rules[k], sem, full, delta, i, full, f)
  }

  // What all delta variants derive together.
  ghost function NewFacts(rules: seq<Rule>, members: set<string>, sem: Interp, full: Facts, delta: Facts): Facts {
    iset f: Fact | DerivedByVariant(rules, members, sem, full, delta, f)
  }

  datatype Loop = Loop(full: Facts, delta: Facts)

  // One iteration: DELTA becomes what is new, and FULL takes it in.
  ghost function Advance(rules: seq<Rule>, members: set<string>, sem: Interp, loop: Loop): Loop {
    var added := NewFacts(rules, members, sem, loop.full, loop.delta) - loop.full;
    Loop(loop.full + added, added)
  }

  // Iteration n: on the first one DELTA reads FULL.
  ghost function Iterate(rules: seq<Rule>, members: set<string>, sem: Interp, base: Facts, n: nat): Loop {
    if n == 0 then Loop(base, base) else
      Advance(rules, members, sem, Iterate(rules, members, sem, base, n - 1))
  }

  ghost function Naive(rules: seq<Rule>, sem: Interp, base: Facts, n: nat): Facts {
    if n == 0 then base else
      var before := Naive(rules, sem, base, n - 1);
      before + Immediate(rules, sem, before, before)
  }

  ghost predicate OnlyMembers(facts: Facts, members: set<string>) {
    forall f: Fact :: f in facts ==> f.rel in members
  }

  // A derivation from old and new facts either uses old facts only or puts a new fact in some component clause.
  lemma SplitDerivation(rule: Rule, members: set<string>, sem: Interp, old_: Facts, delta: Facts, neg: Facts, f: Fact)
    requires OnlyMembers(delta, members)
    requires DerivesFrom(rule, sem, old_ + delta, neg, f)
    ensures DerivesFrom(rule, sem, old_, neg, f)
         || exists i :: IsSccClause(rule, members, i) && Derives(rule, sem, old_ + delta, delta, i, neg, f)
  {
    hide IsHeadFact;
    var all := old_ + delta;
    var env :| SatBody(rule.body, sem, all, all, -1, neg, env) && IsHeadFact(rule, env, f);
    forall j | 0 <= j < |rule.body| ensures SatClause(rule.body[j], sem, all, neg, env) {
      assert SatClause(rule.body[j], sem, View(all, all, -1, j), neg, env);
    }
    if i :| IsSccClause(rule, members, i) && Fact(rule.body[i].atom.rel, Ground(rule.body[i].atom, env)) in delta {
      assert SatBody(rule.body, sem, all, delta, i, neg, env);
    } else {
      forall j | 0 <= j < |rule.body| ensures SatClause(rule.body[j], sem, View(old_, old_, -1, j), neg, env) {
        if rule.body[j].Pos? {
          assert Fact(rule.body[j].atom.rel, Ground(rule.body[j].atom, env)) in all;
        }
      }
      assert SatBody(rule.body, sem, old_, old_, -1, neg, env);
    }
  }

  lemma VariantIsSound(rule: Rule, sem: Interp, full: Facts, delta: Facts, i: int, neg: Facts, f: Fact)
    requires delta <= full && Derives(rule, sem, full, delta, i, neg, f)
    ensures DerivesFrom(rule, sem, full, neg, f)
  {
    var env :| SatBody(rule.body, sem, full, delta, i, neg, env) && IsHeadFact(rule, env, f);
    forall j | 0 <= j < |rule.body| ensures SatClause(rule.body[j], sem, View(full, full, -1, j), neg, env) {
      assert SatClause(rule.body[j], sem, View(full, delta, i, j), neg, env);
    }
  }

  ghost predicate LoopInv(rules: seq<Rule>, members: set<string>, sem: Interp, base: Facts, before: Facts, loop: Loop) {
    && base <= before <= loop.full && loop.full == before + loop.delta && OnlyMembers(loop.delta, members)
    && Immediate(rules, sem, before, base) <= loop.full
    && forall f: Fact :: f.rel !in Idbs(rules) ==> (f in loop.full <==> f in base)
  }

  // One step of either kind from a state whose older derivations are all in.
  lemma StepsAgree(rules: seq<Rule>, members: set<string>, sem: Interp, base: Facts, before: Facts, loop: Loop)
    requires IsRecursiveStratum(rules, members) && LoopInv(rules, members, sem, base, before, loop)
    ensures loop.full + NewFacts(rules, members, sem, loop.full, loop.delta) ==
        loop.full + Immediate(rules, sem, loop.full, loop.full)
  {
    hide Derives, IsSccClause, DerivesFrom;
    var full, delta := loop.full, loop.delta;
    forall f | f in Immediate(rules, sem, full, full)
      ensures f in full || f in NewFacts(rules, members, sem, full, delta) {
      var k :| 0 <= k < |rules| && DerivesFrom(rules[k], sem, full, full, f);
      SplitDerivation(rules[k], members, sem, before, delta, full, f);
      if DerivesFrom(rules[k], sem, before, full, f) {
        DerivesReads(rules[k], sem, before, full, before, base, f);
        assert DerivedBySome(rules, sem, before, base, f);
      } else {
        assert full == before + delta;
      }
    }
    forall f | f in NewFacts(rules, members, sem, full, delta) ensures f in Immediate(rules, sem, full, full) {
      var k, i :| 0 <= k < |rules| && IsSccClause(rules[k], members, i)
          && Derives(rules[k], sem, full, delta, i, full, f);
      VariantIsSound(rules[k], sem, full, delta, i, full, f);
    }
  }

  // On the first iteration DELTA reads FULL, and every rule has a clause to read it.
  lemma FirstStepAgrees(rules: seq<Rule>, members: set<string>, sem: Interp, base: Facts)
    requires IsRecursiveStratum(rules, members)
    ensures NewFacts(rules, members, sem, base, base) == Immediate(rules, sem, base, base)
  {
    hide IsSccClause, SatClause, IsHeadFact;
    forall f | f in Immediate(rules, sem, base, base) ensures f in NewFacts(rules, members, sem, base, base) {
      var k :| 0 <= k < |rules| && DerivesFrom(rules[k], sem, base, base, f);
      assert ReadsPositively(rules[k], members);
      var i :| IsSccClause(rules[k], members, i);
      var env :| SatBody(rules[k].body, sem, base, base, -1, base, env) && IsHeadFact(rules[k], env, f);
      forall j | 0 <= j < |rules[k].body| ensures SatClause(rules[k].body[j], sem, View(base, base, i, j), base, env) {
        assert SatClause(rules[k].body[j], sem, View(base, base, -1, j), base, env);
      }
      assert Derives(rules[k], sem, base, base, i, base, f);
    }
    forall f | f in NewFacts(rules, members, sem, base, base) ensures f in Immediate(rules, sem, base, base) {
      var k, i :| 0 <= k < |rules| && IsSccClause(rules[k], members, i)
          && Derives(rules[k], sem, base, base, i, base, f);
      VariantIsSound(rules[k], sem, base, base, i, base, f);
    }
  }

  lemma ImmediateOnlyMembers(rules: seq<Rule>, members: set<string>, sem: Interp, full: Facts, neg: Facts, f: Fact)
    requires IsRecursiveStratum(rules, members) && f in Immediate(rules, sem, full, neg)
    ensures f.rel in members && f.rel in Idbs(rules)
  {
    var k :| 0 <= k < |rules| && DerivesFrom(rules[k], sem, full, neg, f);
    DerivedRelIsHead(rules, k, sem, full, neg, f);
    var env :| SatBody(rules[k].body, sem, full, full, -1, neg, env) && IsHeadFact(rules[k], env, f);
    assert f.rel in HeadRels(rules[k]);
  }

  lemma NegReadsBase(rules: seq<Rule>, members: set<string>, sem: Interp, full: Facts, neg: Facts, base: Facts)
    requires IsRecursiveStratum(rules, members)
    requires forall f: Fact :: f.rel !in Idbs(rules) ==> (f in neg <==> f in base)
    ensures Immediate(rules, sem, full, neg) == Immediate(rules, sem, full, base)
  {
    hide DerivesFrom;
    forall f ensures f in Immediate(rules, sem, full, neg) <==> f in Immediate(rules, sem, full, base) {
      if f in Immediate(rules, sem, full, neg) {
        var k :| 0 <= k < |rules| && DerivesFrom(rules[k], sem, full, neg, f);
        DerivesReads(rules[k], sem, full, neg, full, base, f);
        assert DerivedBySome(rules, sem, full, base, f);
      }
      if f in Immediate(rules, sem, full, base) {
        var k :| 0 <= k < |rules| && DerivesFrom(rules[k], sem, full, base, f);
        DerivesReads(rules[k], sem, full, base, full, neg, f);
        assert DerivedBySome(rules, sem, full, neg, f);
      }
    }
  }

  lemma AdvanceKeepsInv(rules: seq<Rule>, members: set<string>, sem: Interp, base: Facts, loop: Loop)
    requires IsRecursiveStratum(rules, members)
    requires loop.full + NewFacts(rules, members, sem, loop.full, loop.delta) ==
        loop.full + Immediate(rules, sem, loop.full, loop.full)
    requires base <= loop.full && forall f: Fact :: f.rel !in Idbs(rules) ==> (f in loop.full <==> f in base)
    ensures var next := Advance(rules, members, sem, loop);
      && next.full == loop.full + Immediate(rules, sem, loop.full, loop.full)
      && LoopInv(rules, members, sem, base, loop.full, next)
  {
    forall f | f in Immediate(rules, sem, loop.full, loop.full) ensures f.rel in members && f.rel in Idbs(rules) {
      ImmediateOnlyMembers(rules, members, sem, loop.full, loop.full, f);
    }
    NegReadsBase(rules, members, sem, loop.full, loop.full, base);
    hide Immediate, NewFacts, IsRecursiveStratum, Idbs;
    var next := Advance(rules, members, sem, loop);
    assert next.full == loop.full + Immediate(rules, sem, loop.full, loop.full);
    forall f | f in next.delta ensures f.rel in members {
      assert f in loop.full + NewFacts(rules, members, sem, loop.full, loop.delta);
    }
  }

  // After every iteration FULL is what naive evaluation has, and DELTA is exactly what the iteration added.
  lemma {:induction false} SemiNaiveIsNaive(rules: seq<Rule>, members: set<string>, sem: Interp, base: Facts, n: nat)
    requires IsRecursiveStratum(rules, members)
    ensures Iterate(rules, members, sem, base, n).full == Naive(rules, sem, base, n)
    ensures n > 0 ==>
        Iterate(rules, members, sem, base, n).delta == Naive(rules, sem, base, n) - Naive(rules, sem, base, n - 1)
    ensures n > 0 ==>
        LoopInv(rules, members, sem, base, Naive(rules, sem, base, n - 1), Iterate(rules, members, sem, base, n))
  {
    hide IsRecursiveStratum, Immediate, NewFacts, Idbs;
    if n > 0 {
      var before := Iterate(rules, members, sem, base, n - 1);
      SemiNaiveIsNaive(rules, members, sem, base, n - 1);
      if n == 1 {
        FirstStepAgrees(rules, members, sem, base);
      } else {
        StepsAgree(rules, members, sem, base, Naive(rules, sem, base, n - 2), before);
      }
      AdvanceKeepsInv(rules, members, sem, base, before);
      assert Iterate(rules, members, sem, base, n) == Advance(rules, members, sem, before);
    }
  }

  // --- Where the loop stops ---

  // The loop stops on the first empty DELTA after an iteration, and FULL is then the least closed set.
  lemma StopsAtLeast(rules: seq<Rule>, members: set<string>, sem: Interp, base: Facts, n: nat)
    requires IsRecursiveStratum(rules, members)
    requires n > 0 && Iterate(rules, members, sem, base, n).delta == iset{}
    ensures Iterate(rules, members, sem, base, n).full == LeastClosed(rules, sem, base, base)
  {
    SemiNaiveIsNaive(rules, members, sem, base, n);
    SemiNaiveIsNaive(rules, members, sem, base, n - 1);
    var loop, before := Iterate(rules, members, sem, base, n), Naive(rules, sem, base, n - 1);
    assert loop.full == before;
    forall k, f | 0 <= k < |rules| && DerivesFrom(rules[k], sem, loop.full, base, f) ensures f in loop.full {
      assert DerivedBySome(rules, sem, before, base, f);
    }
    assert ClosedUnder(rules, sem, loop.full, base);
    NaiveInsideLeast(rules, members, sem, base, n);
    ClosingStaysInside(rules, sem, base, base, loop.full);
  }

  lemma NaiveKeepsOthers(rules: seq<Rule>, members: set<string>, sem: Interp, base: Facts, n: nat)
    requires IsRecursiveStratum(rules, members)
    ensures forall f: Fact :: f.rel !in Idbs(rules) ==> (f in Naive(rules, sem, base, n) <==> f in base)
  {
    hide IsRecursiveStratum, Immediate, NewFacts, Iterate, Idbs;
    if n > 0 {
      SemiNaiveIsNaive(rules, members, sem, base, n);
    }
  }

  lemma {:induction false} NaiveInsideLeast(rules: seq<Rule>, members: set<string>, sem: Interp, base: Facts, n: nat)
    requires IsRecursiveStratum(rules, members)
    ensures Naive(rules, sem, base, n) <= LeastClosed(rules, sem, base, base)
  {
    hide DerivesFrom, Idbs, ClosedUnder;
    hide IsRecursiveStratum, LeastClosed, Iterate, LoopInv;
    LeastClosedIsClosed(rules, sem, base, base);
    if n > 0 {
      NaiveInsideLeast(rules, members, sem, base, n - 1);
      var before, least := Naive(rules, sem, base, n - 1), LeastClosed(rules, sem, base, base);
      NaiveKeepsOthers(rules, members, sem, base, n - 1);
      NegReadsBase(rules, members, sem, before, before, base);
      forall f | f in Immediate(rules, sem, before, base) ensures f in least {
        var k :| 0 <= k < |rules| && DerivesFrom(rules[k], sem, before, base, f);
        DerivesMonotone(rules[k], sem, before, least, base, f);
      }
    }
  }

  // It has not stopped by iteration n only if every iteration so far added a fact.
  lemma {:induction false} EveryIterationAdds(rules: seq<Rule>, members: set<string>, sem: Interp, base: Facts,
                                              universe: set<Fact>, n: nat) returns (seen: set<Fact>)
    requires IsRecursiveStratum(rules, members)
    requires forall f :: f in LeastClosed(rules, sem, base, base) ==> f in universe
    requires forall m :: 0 < m <= n ==> Iterate(rules, members, sem, base, m).delta != iset{}
    ensures |seen| >= n && seen <= universe
    ensures forall f :: f in seen ==> f in Iterate(rules, members, sem, base, n).full
  {
    hide IsRecursiveStratum, LoopInv, Immediate, NewFacts, LeastClosed;
    if n == 0 {
      seen := {};
    } else {
      seen := EveryIterationAdds(rules, members, sem, base, universe, n - 1);
      SemiNaiveIsNaive(rules, members, sem, base, n);
      SemiNaiveIsNaive(rules, members, sem, base, n - 1);
      NaiveInsideLeast(rules, members, sem, base, n);
      var f :| f in Iterate(rules, members, sem, base, n).delta;
      assert f !in seen;
      seen := seen + {f};
    }
  }

  // Over a finite set of derivable facts the loop stops within one iteration more than there are facts.
  lemma LoopTerminates(rules: seq<Rule>, members: set<string>, sem: Interp, base: Facts, universe: set<Fact>)
    requires IsRecursiveStratum(rules, members)
    requires forall f :: f in LeastClosed(rules, sem, base, base) ==> f in universe
    ensures exists n :: 0 < n <= |universe| + 1 && Iterate(rules, members, sem, base, n).delta == iset{}
  {
    if forall m :: 0 < m <= |universe| + 1 ==> Iterate(rules, members, sem, base, m).delta != iset{} {
      var seen := EveryIterationAdds(rules, members, sem, base, universe, |universe| + 1);
      SubsetSmaller(seen, universe);
    }
  }

  lemma SubsetSmaller(a: set<Fact>, b: set<Fact>)
    requires a <= b
    ensures |a| <= |b|
  {
    assert b == a + (b - a);
  }
}
