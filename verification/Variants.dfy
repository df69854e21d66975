/** `generate_variants`: one delta variant per positive component clause, what their versions read, and the loop
    rules that get none. */
module Variants {
  import opened Datalog
  import opened Seqs
  import opened Dependencies
  import opened StableModel
  import opened SemiNaive
  import opened Stratify

  // ========== Variants ==========

  // `generate_variants`: one delta variant per positive component clause, and what their versions read.

  function DeltaVariantsOf(rule: Rule, idxs: seq<nat>): seq<Variant>
    requires forall m :: 0 <= m < |idxs| ==> idxs[m] < |rule.body|
  {
    if |idxs| == 0 then [] else
      DeltaVariantsOf(rule, idxs[..|idxs| - 1]) + [CreateDeltaVariant(rule, idxs[|idxs| - 1])]
  }

  function DeltaVariants(rules: seq<Rule>, members: set<string>): seq<Variant> {
    if |rules| == 0 then [] else
      var last := rules[|rules| - 1];
      DeltaVariants(rules[..|rules| - 1], members) + DeltaVariantsOf(last, FindSccClauseIndices(last, members))
  }

  function BaseVariants(rules: seq<Rule>): seq<Variant> {
    seq(|rules|, k requires 0 <= k < |rules| => CreateBaseVariant(rules[k]))
  }

  method AddDeltaVariants(stratum: HirStratum, rule: Rule, idxs: seq<nat>)
    requires forall m :: 0 <= m < |idxs| ==> idxs[m] < |rule.body|
    modifies stratum`recursiveVariants
    ensures stratum.recursiveVariants == old(stratum.recursiveVariants) + DeltaVariantsOf(rule, idxs)
  {
    for m := 0 to |idxs|
      invariant stratum.recursiveVariants == old(stratum.recursiveVariants) + DeltaVariantsOf(rule, idxs[..m])
    {
      assert idxs[..m + 1][..m] == idxs[..m];
      stratum.recursiveVariants := stratum.recursiveVariants + [CreateDeltaVariant(rule, idxs[m])];
    }
    assert idxs[..|idxs|] == idxs;
  }

  // Fills in one stratum.
  method GenerateFor(stratum: HirStratum)
    modifies stratum`recursiveVariants, stratum`baseVariants
    ensures stratum.View() == old(stratum.View())
    ensures stratum.isRecursive ==>
      && stratum.recursiveVariants == old(stratum.recursiveVariants) +
          DeltaVariants(stratum.stratumRules, stratum.sccMembers)
      && stratum.baseVariants == old(stratum.baseVariants)
    ensures !stratum.isRecursive ==>
      && stratum.baseVariants == old(stratum.baseVariants) + BaseVariants(stratum.stratumRules)
      && stratum.recursiveVariants == old(stratum.recursiveVariants)
  {
    var rules, members := stratum.stratumRules, stratum.sccMembers;
    if stratum.isRecursive {
      for k := 0 to |rules|
        invariant stratum.baseVariants == old(stratum.baseVariants)
        invariant stratum.recursiveVariants == old(stratum.recursiveVariants) + DeltaVariants(rules[..k], members)
      {
        AddDeltaVariants(stratum, rules[k], FindSccClauseIndices(rules[k], members));
        assert rules[..k + 1][..k] == rules[..k];
      }
      assert rules[..|rules|] == rules;
    } else {
      for k := 0 to |rules|
        invariant stratum.recursiveVariants == old(stratum.recursiveVariants)
        invariant stratum.baseVariants == old(stratum.baseVariants) + BaseVariants(rules)[..k]
      {
        stratum.baseVariants := stratum.baseVariants + [CreateBaseVariant(rules[k])];
      }
    }
  }

  // --- What a variant derives, read off its version list ---

  ghost function VersionFacts(v: Version, full: Facts, delta: Facts): Facts {
    if v == DELTA then delta else full
  }

  ghost predicate SatVersions(v: Variant, sem: Interp, full: Facts, delta: Facts, env: Env)
    requires |v.versions| == |v.rule.body|
  {
    forall i ::
        0 <= i < |v.rule.body| ==> SatClause(v.rule.body[i], sem, VersionFacts(v.versions[i], full, delta), full, env)
  }

  ghost predicate VariantDerives(v: Variant, sem: Interp, full: Facts, delta: Facts, f: Fact) {
    |v.versions| == |v.rule.body| && exists env: Env ::
        SatVersions(v, sem, full, delta, env) && IsHeadFact(v.rule, env, f)
  }

  lemma DeltaVariantDerives(rule: Rule, i: nat, sem: Interp, full: Facts, delta: Facts, f: Fact)
    requires i < |rule.body|
    ensures VariantDerives(CreateDeltaVariant(rule, i), sem, full, delta, f)
        <==> Derives(rule, sem, full, delta, i, full, f)
  {
    var v := CreateDeltaVariant(rule, i);
    forall env ensures SatVersions(v, sem, full, delta, env) <==> SatBody(rule.body, sem, full, delta, i, full, env) {
      forall j | 0 <= j < |rule.body|
        ensures SatClause(rule.body[j], sem, VersionFacts(v.versions[j], full, delta), full, env) <==>
                SatClause(rule.body[j], sem, View(full, delta, i, j), full, env) {}
    }
  }

  lemma BaseVariantDerives(rule: Rule, sem: Interp, full: Facts, delta: Facts, f: Fact)
    ensures VariantDerives(CreateBaseVariant(rule), sem, full, delta, f) <==> DerivesFrom(rule, sem, full, full, f)
  {
    var v := CreateBaseVariant(rule);
    forall env ensures SatVersions(v, sem, full, delta, env) <==> SatBody(rule.body, sem, full, full, -1, full, env) {
      forall j | 0 <= j < |rule.body|
        ensures SatClause(rule.body[j], sem, VersionFacts(v.versions[j], full, delta), full, env) <==>
                SatClause(rule.body[j], sem, View(full, full, -1, j), full, env) {}
    }
  }

  lemma {:induction false} VariantListed(rule: Rule, idxs: seq<nat>, v: Variant)
    requires forall m :: 0 <= m < |idxs| ==> idxs[m] < |rule.body|
    ensures v in DeltaVariantsOf(rule, idxs) <==> exists i :: i in idxs && v == CreateDeltaVariant(rule, i)
  {
    hide CreateDeltaVariant;
    if |idxs| > 0 {
      var init, last := idxs[..|idxs| - 1], idxs[|idxs| - 1];
      VariantListed(rule, init, v);
      assert idxs == init + [last];
    }
  }

  lemma {:induction false} DeltaVariantListed(rules: seq<Rule>, members: set<string>, v: Variant)
    ensures v in DeltaVariants(rules, members) <==>
            exists k, i :: 0 <= k < |rules| && IsSccClause(rules[k], members, i) && v == CreateDeltaVariant(rules[k], i)
  {
    hide FindSccClauseIndices, CreateDeltaVariant;
    if |rules| > 0 {
      var init, last := rules[..|rules| - 1], rules[|rules| - 1];
      DeltaVariantListed(init, members, v);
      VariantListed(last, FindSccClauseIndices(last, members), v);
      if k, i :| 0 <= k < |init| && IsSccClause(init[k], members, i) && v == CreateDeltaVariant(init[k], i) {
        assert rules[k] == init[k];
      }
      if i :| IsSccClause(last, members, i) && v == CreateDeltaVariant(last, i) {
        assert rules[|rules| - 1] == last;
      }
    }
  }

  // The generated variants together derive exactly one semi-naive step.
  lemma GeneratedVariantsDeriveTheStep(rules: seq<Rule>, members: set<string>, sem: Interp, full: Facts, delta: Facts,
                                       f: Fact)
    ensures (exists v :: v in DeltaVariants(rules, members) && VariantDerives(v, sem, full, delta, f))
            <==> f in NewFacts(rules, members, sem, full, delta)
  {
    hide DeltaVariants, Derives, CreateDeltaVariant, VariantDerives;
    if v :| v in DeltaVariants(rules, members) && VariantDerives(v, sem, full, delta, f) {
      DeltaVariantListed(rules, members, v);
      var k, i :| 0 <= k < |rules| && IsSccClause(rules[k], members, i) && v == CreateDeltaVariant(rules[k], i);
      DeltaVariantDerives(rules[k], i, sem, full, delta, f);
    }
    if f in NewFacts(rules, members, sem, full, delta) {
      var k, i :| 0 <= k < |rules| && IsSccClause(rules[k], members, i)
          && Derives(rules[k], sem, full, delta, i, full, f);
      var v := CreateDeltaVariant(rules[k], i);
      DeltaVariantListed(rules, members, v);
      DeltaVariantDerives(rules[k], i, sem, full, delta, f);
    }
  }

  // ========== Loop rules ==========

  // A loop runs only the rules that read a member positively: the others have no delta variant. What that loses, and
  // when.

  // The rules of a loop that have a variant.
  function Looping(rules: seq<Rule>, members: set<string>): seq<Rule> {
    if |rules| == 0 then [] else
      var last := rules[|rules| - 1];
      Looping(rules[..|rules| - 1], members) + if HasScc(last, members) then [last] else []
  }

  predicate HasScc(rule: Rule, members: set<string>) {
    FindSccClauseIndices(rule, members) != []
  }

  lemma HasSccIff(rule: Rule, members: set<string>)
    ensures HasScc(rule, members) <==> ReadsPositively(rule, members)
  {
    var idxs := FindSccClauseIndices(rule, members);
    if idxs != [] { assert idxs[0] in idxs && IsSccClause(rule, members, idxs[0]); }
    if i: nat :| IsSccClause(rule, members, i) { assert i in idxs; }
  }

  lemma {:induction false} LoopingListed(rules: seq<Rule>, members: set<string>, r: Rule)
    ensures r in Looping(rules, members) <==> r in rules && ReadsPositively(r, members)
  {
    hide HasScc, ReadsPositively;
    if |rules| > 0 {
      LoopingListed(rules[..|rules| - 1], members, r);
      HasSccIff(rules[|rules| - 1], members);
    }
  }

  lemma {:induction false} AllLooping(rules: seq<Rule>, members: set<string>)
    requires forall r :: r in rules ==> ReadsPositively(r, members)
    ensures Looping(rules, members) == rules
  {
    hide HasScc, ReadsPositively;
    if |rules| > 0 {
      AllLooping(rules[..|rules| - 1], members);
      HasSccIff(rules[|rules| - 1], members);
      assert rules[|rules| - 1] in rules;
    }
  }

  // --- Variants come from these rules alone ---

  // A rule has a delta variant if and only if it reads a member positively.
  lemma VariantIffReads(rule: Rule, members: set<string>)
    ensures DeltaVariantsOf(rule, FindSccClauseIndices(rule, members)) != [] <==> ReadsPositively(rule, members)
  {
    HasSccIff(rule, members);
  }

  // Generating variants for the whole stratum or for these rules gives the same list.
  lemma {:induction false} SameVariants(rules: seq<Rule>, members: set<string>)
    ensures DeltaVariants(Looping(rules, members), members) == DeltaVariants(rules, members)
  {
    if |rules| > 0 {
      var init, last := rules[..|rules| - 1], rules[|rules| - 1];
      SameVariants(init, members);
      if HasScc(last, members) {
        var some, all := Looping(init, members), Looping(rules, members);
        assert all == some + [last];
        assert all[..|all| - 1] == some && all[|all| - 1] == last;
      } else {
        assert Looping(rules, members) == Looping(init, members);
        assert DeltaVariantsOf(last, FindSccClauseIndices(last, members)) == [];
      }
    }
  }

  // So one iteration of the loop derives what it would without the others.
  lemma SameStep(rules: seq<Rule>, members: set<string>, sem: Interp, full: Facts, delta: Facts)
    ensures NewFacts(Looping(rules, members), members, sem, full, delta) == NewFacts(rules, members, sem, full, delta)
  {
    var some := Looping(rules, members);
    SameVariants(rules, members);
    hide *;
    forall f: Fact
      ensures f in NewFacts(some, members, sem, full, delta) <==> f in NewFacts(rules, members, sem, full, delta) {
      GeneratedVariantsDeriveTheStep(some, members, sem, full, delta, f);
      GeneratedVariantsDeriveTheStep(rules, members, sem, full, delta, f);
    }
  }

  // --- The shape of a loop ---

  ghost predicate LoopShaped(rules: seq<Rule>, members: set<string>) {
    forall r :: r in rules ==> HeadRels(r) <= members && NegRels(r) !! Idbs(rules)
  }

  lemma HeadsListed(rules: seq<Rule>, x: string)
    ensures x in Idbs(rules) <==> exists r :: r in rules && x in HeadRels(r)
  {
    if x in Idbs(rules) {
      var k, h :| 0 <= k < |rules| && 0 <= h < |rules[k].heads| && rules[k].heads[h].rel == x;
      assert rules[k] in rules && x in HeadRels(rules[k]);
    }
    if r :| r in rules && x in HeadRels(r) {
      var k :| 0 <= k < |rules| && rules[k] == r;
      var h :| 0 <= h < |r.heads| && r.heads[h].rel == x;
      assert rules[k].heads[h].rel == x;
    }
  }

  lemma FewerHeads(some: seq<Rule>, all: seq<Rule>)
    requires forall r :: r in some ==> r in all
    ensures Idbs(some) <= Idbs(all)
  {
    hide Idbs, HeadRels;
    forall x | x in Idbs(some) ensures x in Idbs(all) {
      HeadsListed(some, x);
      HeadsListed(all, x);
    }
  }

  lemma LoopingIsRecursive(rules: seq<Rule>, members: set<string>)
    requires LoopShaped(rules, members)
    ensures IsRecursiveStratum(Looping(rules, members), members)
  {
    var some := Looping(rules, members);
    forall r ensures r in some <==> r in rules && ReadsPositively(r, members) { LoopingListed(rules, members, r); }
    FewerHeads(some, rules);
    hide Looping, Idbs, HeadRels, ReadsPositively;
    forall k | 0 <= k < |some|
      ensures HeadRels(some[k]) <= members && NegRels(some[k]) !! Idbs(some) && ReadsPositively(some[k], members)
    {
      assert some[k] in some;
    }
  }

  // --- What the loop loses ---

  // Some facts make the rule derive something.
  ghost predicate CanDerive(rule: Rule) {
    exists sem, full, f :: DerivesFrom(rule, sem, full, full, f)
  }

  // Dropping the other rules from the loop never changes what it computes.
  ghost predicate LosesNothing(rules: seq<Rule>, members: set<string>) {
    forall sem, full :: LeastClosed(Looping(rules, members), sem, full, full) == LeastClosed(rules, sem, full, full)
  }

  ghost function Outside(full: Facts, members: set<string>): Facts {
    iset f: Fact | f in full && f.rel !in members
  }

  // Without facts of the members a rule that reads one positively derives nothing.
  lemma ReaderNeedsMembers(rule: Rule, members: set<string>, sem: Interp, full: Facts, neg: Facts, f: Fact)
    requires ReadsPositively(rule, members) && forall g: Fact :: g in full ==> g.rel !in members
    ensures !DerivesFrom(rule, sem, full, neg, f)
  {
    var i :| IsSccClause(rule, members, i);
    forall env ensures !SatBody(rule.body, sem, full, full, -1, neg, env) {
      assert !SatClause(rule.body[i], sem, View(full, full, -1, i), neg, env);
    }
  }

  lemma LoopersStay(rules: seq<Rule>, members: set<string>, sem: Interp, full: Facts)
    requires forall g: Fact :: g in full ==> g.rel !in members
    ensures LeastClosed(Looping(rules, members), sem, full, full) == full
  {
    var some := Looping(rules, members);
    forall k, f | 0 <= k < |some| ensures !DerivesFrom(some[k], sem, full, full, f) {
      LoopingListed(rules, members, some[k]);
      ReaderNeedsMembers(some[k], members, sem, full, full, f);
    }
    assert ClosedUnder(some, sem, full, full);
    ClosingStaysInside(some, sem, full, full, full);
    LeastClosedIsClosed(some, sem, full, full);
  }

  // Taking the members' facts away cannot stop a rule that reads none positively.
  lemma StillDerives(rule: Rule, members: set<string>, sem: Interp, full: Facts, f: Fact)
    requires !ReadsPositively(rule, members) && DerivesFrom(rule, sem, full, full, f)
    ensures DerivesFrom(rule, sem, Outside(full, members), Outside(full, members), f)
  {
    var less := Outside(full, members);
    var env :| SatBody(rule.body, sem, full, full, -1, full, env) && IsHeadFact(rule, env, f);
    forall i | 0 <= i < |rule.body| ensures SatClause(rule.body[i], sem, View(less, less, -1, i), less, env) {
      assert SatClause(rule.body[i], sem, View(full, full, -1, i), full, env);
      assert !IsSccClause(rule, members, i);
    }
    assert SatBody(rule.body, sem, less, less, -1, less, env);
  }

  lemma HeadIsMember(rule: Rule, members: set<string>, sem: Interp, full: Facts, neg: Facts, f: Fact)
    requires HeadRels(rule) <= members && DerivesFrom(rule, sem, full, neg, f)
    ensures f.rel in members
  {
    var env :| SatBody(rule.body, sem, full, full, -1, neg, env) && IsHeadFact(rule, env, f);
  }

  lemma DroppedIsLost(rules: seq<Rule>, members: set<string>, r: Rule)
    requires LoopShaped(rules, members) && LosesNothing(rules, members)
    requires r in rules && !ReadsPositively(r, members)
    ensures !CanDerive(r)
  {
    hide DerivesFrom, Looping, LoopShaped, ReadsPositively, LeastClosed;
    forall sem, full, f ensures !DerivesFrom(r, sem, full, full, f) {
      if DerivesFrom(r, sem, full, full, f) {
        ShapeOf(rules, members, r);
        DerivedOutside(rules, members, r, sem, full, f);
        LoopersStay(rules, members, sem, Outside(full, members));
      }
    }
  }

  lemma DerivedOutside(rules: seq<Rule>, members: set<string>, r: Rule, sem: Interp, full: Facts, f: Fact)
    requires HeadRels(r) <= members && r in rules && !ReadsPositively(r, members) && DerivesFrom(r, sem, full, full, f)
    ensures var less := Outside(full, members); f in LeastClosed(rules, sem, less, less) && f.rel in members
  {
    var less := Outside(full, members);
    StillDerives(r, members, sem, full, f);
    HeadIsMember(r, members, sem, less, less, f);
    LeastClosedIsClosed(rules, sem, less, less);
    hide DerivesFrom, LeastClosed, ReadsPositively;
    var k :| 0 <= k < |rules| && rules[k] == r;
    DerivesMonotone(r, sem, less, LeastClosed(rules, sem, less, less), less, f);
  }

  lemma ShapeOf(rules: seq<Rule>, members: set<string>, r: Rule)
    requires LoopShaped(rules, members) && r in rules
    ensures HeadRels(r) <= members && NegRels(r) !! Idbs(rules)
  {}

  lemma NothingDropped(rules: seq<Rule>, members: set<string>, sem: Interp, full: Facts)
    requires LoopShaped(rules, members) && forall r :: r in rules && !ReadsPositively(r, members) ==> !CanDerive(r)
    ensures LeastClosed(Looping(rules, members), sem, full, full) == LeastClosed(rules, sem, full, full)
  {
    var some := Looping(rules, members);
    forall r ensures r in some <==> r in rules && ReadsPositively(r, members) { LoopingListed(rules, members, r); }
    var least := LeastClosed(some, sem, full, full);
    LeastClosedIsClosed(some, sem, full, full);
    LeastClosedIsClosed(rules, sem, full, full);
    hide Looping, DerivesFrom, LoopShaped, ReadsPositively, LeastClosed;
    forall k, f | 0 <= k < |some| && DerivesFrom(some[k], sem, LeastClosed(rules, sem, full, full), full, f)
      ensures f in LeastClosed(rules, sem, full, full)
    {
      assert some[k] in some;
      var j :| 0 <= j < |rules| && rules[j] == some[k];
    }
    ClosingStaysInside(some, sem, full, full, LeastClosed(rules, sem, full, full));
    forall k, f | 0 <= k < |rules| && DerivesFrom(rules[k], sem, least, full, f) ensures f in least {
      assert rules[k] in rules;
      if ReadsPositively(rules[k], members) {
        var j :| 0 <= j < |some| && some[j] == rules[k];
      } else {
        NegationsShrink(rules, members, rules[k], sem, full, least, f);
      }
    }
    ClosingStaysInside(rules, sem, full, full, least);
  }

  // What the loop adds is not negated by its own rules.
  lemma NegationsShrink(rules: seq<Rule>, members: set<string>, r: Rule, sem: Interp, full: Facts, least: Facts,
                        f: Fact)
    requires LoopShaped(rules, members) && r in rules && least == LeastClosed(Looping(rules, members), sem, full, full)
    requires DerivesFrom(r, sem, least, full, f)
    ensures DerivesFrom(r, sem, least, least, f)
  {
    var some := Looping(rules, members);
    forall q | q in some ensures q in rules { LoopingListed(rules, members, q); }
    FewerHeads(some, rules);
    hide Looping, LeastClosed, Idbs;
    forall g: Fact | g.rel in NegRels(r) ensures g in full <==> g in least {
      ClosingKeepsOthers(some, sem, full, full, g);
    }
    DerivesReads(r, sem, least, full, least, least, f);
  }

  // A compiled loop computes what its stratum means, on all facts, if and only if every rule that reads no member
  // positively can derive nothing at all.
  lemma LosesNothingIff(rules: seq<Rule>, members: set<string>)
    requires LoopShaped(rules, members)
    ensures LosesNothing(rules, members) <==> forall r :: r in rules && !ReadsPositively(r, members) ==> !CanDerive(r)
  {
    hide CanDerive, Looping, LoopShaped, ReadsPositively, LeastClosed;
    if LosesNothing(rules, members) {
      forall r | r in rules && !ReadsPositively(r, members) ensures !CanDerive(r) { DroppedIsLost(rules, members, r); }
    }
    if forall r :: r in rules && !ReadsPositively(r, members) ==> !CanDerive(r) {
      forall sem, full
        ensures LeastClosed(Looping(rules, members), sem, full, full) == LeastClosed(rules, sem, full, full) {
        NothingDropped(rules, members, sem, full);
      }
    }
  }
}
