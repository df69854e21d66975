/** From a program's rules to what is stored at the end of a compiled run, and a stratified program that loses a
    fact because its loop drops a rule. */
module EndToEnd {
  import opened Datalog
  import opened Seqs
  import opened Graph
  import Names
  import opened Dependencies
  import opened StableModel
  import opened SemiNaive
  import opened ClauseOrder
  import opened Planner
  import opened Lowering
  import opened Freshness
  import opened Stratify
  import opened Variants
  import opened IndexSelection
  import opened Maintenance
  import opened CompiledProgram
  import opened WholeProgram
  import opened StratifyCorrect
  import opened LoweringTheorem

  // ========== End to end ==========

  // From a program's rules to what is stored at the end of a compiled run.

  // ========== Compile correct ==========

  // The compiled units meet everything the run theorems ask: WellCompiled units, and canonical indexes that every
  // earlier writer merges.

  // --- What selection gives a member ---

  ghost predicate MemberSelected(ds: seq<Draft>, d: Draft, u: Unit, rel: string) {
    var c := u.compiled;
    && rel in c.required && rel in c.canonical && c.canonical[rel] in c.required[rel]
    && FirstReads(d, rel) + SecondReads(d, rel) <= Elems(c.required[rel])
  }

  lemma ReadsPermute(ds: seq<Draft>, d: Draft, arity: map<string, nat>, rel: string)
    requires DraftsOk(ds, arity) && d in ds && rel in arity
    ensures Permuting(FirstReads(d, rel), arity[rel]) && Permuting(SecondReads(d, rel), arity[rel])
    ensures Permuting(GlobalReads(ds, rel), arity[rel])
  {
    var k :| 0 <= k < |ds| && ds[k] == d;
    assert DraftOk(ds[k], arity);
    hide DraftOk, ReadCols, IsPermutation;
    DraftReads(d, arity, rel, {DELTA});
    DraftReads(d, arity, rel, {FULL});
    DraftReads(d, arity, rel, ALL);
    GlobalPermutations(ds, arity, rel);
  }

  lemma UnitSelected(ds: seq<Draft>, d: Draft, arity: map<string, nat>, u: Unit, rel: string)
    requires IsUnitOf(ds, d, arity, u) && rel in d.members
    ensures rel in arity && rel in u.compiled.required && rel in u.compiled.canonical
    ensures Selected(ds, d, rel, arity[rel], u.compiled.required[rel], u.compiled.canonical[rel])
  {
    hide Selected, Names.Sorted;
  }

  lemma MemberIsSelected(ds: seq<Draft>, d: Draft, arity: map<string, nat>, u: Unit, rel: string)
    requires DraftsOk(ds, arity) && d in ds && IsUnitOf(ds, d, arity, u) && rel in d.members
    ensures MemberSelected(ds, d, u, rel)
  {
    hide *;
    UnitSelected(ds, d, arity, u, rel);
    ReadsPermute(ds, d, arity, rel);
    SelectedFacts(ds, d, rel, arity[rel], u.compiled.required[rel], u.compiled.canonical[rel]);
    MakeSelected(ds, d, u, rel);
  }

  lemma MakeSelected(ds: seq<Draft>, d: Draft, u: Unit, rel: string)
    requires rel in u.compiled.required && rel in u.compiled.canonical
    requires u.compiled.canonical[rel] in u.compiled.required[rel]
    requires FirstReads(d, rel) + SecondReads(d, rel) <= Elems(u.compiled.required[rel])
    ensures MemberSelected(ds, d, u, rel)
  {}

  lemma UnitFields(ds: seq<Draft>, d: Draft, arity: map<string, nat>, u: Unit)
    requires IsUnitOf(ds, d, arity, u)
    ensures u.recursive == d.recursive && u.compiled.rules == d.rules && u.compiled.members == d.members
    ensures u.compiled.plans == d.plans
    ensures u.compiled.order == Names.Sorted(d.members) && u.compiled.canonical.Keys == d.members
    ensures UnitVariants(u) == DraftVariants(d)
  {
    hide Selected, Names.Sorted, DeltaVariants, BaseVariants;
  }

  // --- Loop units ---

  lemma LoopPattern(ds: seq<Draft>, d: Draft, arity: map<string, nat>, u: Unit, k: nat, p: AccessPattern)
    requires DraftsOk(ds, arity) && d in ds && DraftOk(d, arity) && IsUnitOf(ds, d, arity, u) && d.recursive
    requires k < |d.plans| && p in d.plans[k].access
    ensures GoodPattern(u.compiled, p)
  {
    UnitFields(ds, d, arity, u);
    if p.rel in d.members {
      LoopVersion(d, arity, k, p);
      MemberIsSelected(ds, d, arity, u, p.rel);
      ReadColsListed(d.plans, p.rel, {p.version}, k, p);
      hide DraftOk, DraftsOk, IsUnitOf, ReadCols, FullNeeded;
      assert p.indexCols in FirstReads(d, p.rel) + SecondReads(d, p.rel);
      if p.version == FULL { FullIsNeeded(d.plans, p.rel, k, p); }
    }
  }

  lemma {:induction false} FullIsNeeded(plans: seq<Plan>, rel: string, k: nat, p: AccessPattern)
    requires k < |plans| && p in plans[k].access && p.rel == rel && p.version == FULL
    ensures p.indexCols in FullNeeded(plans, rel)
  {
    if k < |plans| - 1 { FullIsNeeded(plans[..|plans| - 1], rel, k, p); }
  }

  lemma {:induction false} LoopVersion(d: Draft, arity: map<string, nat>, k: nat, p: AccessPattern)
    requires DraftOk(d, arity) && d.recursive && k < |d.plans| && p in d.plans[k].access
    ensures p.version == FULL || p.version == DELTA
  {
    hide *;
    DraftPlan(d, arity, k);
    var v := DraftVariants(d)[k];
    AccessVersion(v, d.plans[k], p);
    LoopVersions(d, v, p.clauseIdx);
  }

  lemma LoopVersions(d: Draft, v: Variant, i: nat)
    requires d.recursive && v in DraftVariants(d) && i < |v.versions| == |v.rule.body|
    ensures v.versions[i] == FULL || v.versions[i] == DELTA
  {
    hide DeltaVariants;
    DeltaVariantListed(d.rules, d.members, v);
  }

  lemma LoopIsWell(ds: seq<Draft>, d: Draft, arity: map<string, nat>, u: Unit)
    requires DraftsOk(ds, arity) && d in ds && DraftOk(d, arity) && IsUnitOf(ds, d, arity, u) && d.recursive
    ensures WellCompiled(u.compiled, arity)
  {
    hide *;
    UnitFields(ds, d, arity, u);
    DraftParts(d, arity);
    LoopVariantsAre(u);
    forall k | 0 <= k < |d.plans| ensures GoodPlan(u.compiled, VariantsOf(u.compiled)[k], d.plans[k]) {
      DraftPlan(d, arity, k);
      forall p | p in d.plans[k].access ensures GoodPattern(u.compiled, p) { LoopPattern(ds, d, arity, u, k, p); }
      MakeGoodPlan(u.compiled, VariantsOf(u.compiled)[k], d.plans[k]);
    }
    forall rel | rel in d.members
      ensures rel in u.compiled.required && rel in u.compiled.canonical
      ensures u.compiled.canonical[rel] in u.compiled.required[rel] {
      MemberIsSelected(ds, d, arity, u, rel);
      SelectedMeans(ds, d, u, rel);
    }
    SortedIsList(d.members);
    MakeWell(u.compiled, arity);
  }

  lemma SelectedMeans(ds: seq<Draft>, d: Draft, u: Unit, rel: string)
    requires MemberSelected(ds, d, u, rel)
    ensures rel in u.compiled.required && rel in u.compiled.canonical
    ensures u.compiled.canonical[rel] in u.compiled.required[rel]
  {}

  lemma SortedIsList(s: set<string>)
    ensures NoDup(Names.Sorted(s)) && forall x :: x in Names.Sorted(s) <==> x in s
  {
    hide Names.Sorted;
  }

  lemma LoopVariantsAre(u: Unit)
    requires u.recursive
    ensures UnitVariants(u) == VariantsOf(u.compiled)
  {}

  lemma DraftParts(d: Draft, arity: map<string, nat>)
    requires DraftOk(d, arity)
    ensures |d.plans| == |DraftVariants(d)| && (if d.recursive then d.members != {} else d.rules != [])
    ensures forall k :: 0 <= k < |d.rules| ==> BaseRuleOk(d.rules[k], arity)
    ensures d.recursive ==> IsRecursiveStratum(d.rules, d.members)
    ensures !d.recursive ==> Idbs(d.rules) <= d.members
  {
    hide DraftVariants, BaseRuleOk, IsRecursiveStratum;
  }

  lemma DraftPlan(d: Draft, arity: map<string, nat>, k: nat)
    requires DraftOk(d, arity) && k < |d.plans|
    ensures k < |DraftVariants(d)| && |DraftVariants(d)[k].versions| == |DraftVariants(d)[k].rule.body|
    ensures IsDefaultPlan(DraftVariants(d)[k], d.plans[k])
  {
    assert DraftPlanned(d, k);
    hide DraftVariants, BaseRuleOk, IsDefaultPlan;
  }

  lemma MakeGoodPlan(c: Compiled, v: Variant, plan: Plan)
    requires |v.versions| == |v.rule.body| && IsDefaultPlan(v, plan)
    requires forall p :: p in plan.access ==> GoodPattern(c, p)
    ensures GoodPlan(c, v, plan)
  {
    hide IsDefaultPlan, GoodPattern;
  }

  lemma MakeWell(c: Compiled, arity: map<string, nat>)
    requires IsRecursiveStratum(c.rules, c.members)
    requires forall k :: 0 <= k < |c.rules| ==> BaseRuleOk(c.rules[k], arity)
    requires |c.plans| == |VariantsOf(c)|
    requires forall k :: 0 <= k < |c.plans| ==> GoodPlan(c, VariantsOf(c)[k], c.plans[k])
    requires NoDup(c.order) && (forall rel :: rel in c.order <==> rel in c.members)
    requires forall rel ::
        rel in c.members ==> rel in c.required && rel in c.canonical && c.canonical[rel] in c.required[rel]
    ensures WellCompiled(c, arity)
  {
    hide IsRecursiveStratum, GoodPlan, Lowerable, TypedRule, AllChecked, VariantsOf;
    forall k | 0 <= k < |c.rules|
      ensures Lowerable(c.rules[k]) && TypedRule(c.rules[k], arity) && AllChecked(c.rules[k]) {
      assert BaseRuleOk(c.rules[k], arity);
    }
  }

  // --- Base units ---

  lemma BaseIsWell(ds: seq<Draft>, d: Draft, arity: map<string, nat>, u: Unit)
    requires DraftsOk(ds, arity) && d in ds && DraftOk(d, arity) && IsUnitOf(ds, d, arity, u) && !d.recursive
    ensures WellCompiledBase(u.compiled, arity)
  {
    hide *;
    UnitFields(ds, d, arity, u);
    DraftParts(d, arity);
    BaseVariantsAre(d);
    forall k | 0 <= k < |d.rules| ensures k < |d.plans| && BasePlanned(u.compiled, k) {
      DraftPlan(d, arity, k);
      MakeBasePlanned(u.compiled, k);
    }
    forall rel | rel in Idbs(d.rules)
      ensures rel in u.compiled.required && rel in u.compiled.canonical
      ensures u.compiled.canonical[rel] in u.compiled.required[rel] {
      MemberIsSelected(ds, d, arity, u, rel);
      SelectedMeans(ds, d, u, rel);
    }
    MakeWellBase(u.compiled, arity);
  }

  lemma BaseVariantsAre(d: Draft)
    requires !d.recursive
    ensures |DraftVariants(d)| == |d.rules|
    ensures forall k :: 0 <= k < |d.rules| ==> DraftVariants(d)[k] == CreateBaseVariant(d.rules[k])
  {
    hide CreateBaseVariant;
  }

  lemma MakeBasePlanned(c: Compiled, k: nat)
    requires k < |c.rules| && k < |c.plans|
    requires var v := CreateBaseVariant(c.rules[k]); |v.versions| == |v.rule.body| && IsDefaultPlan(v, c.plans[k])
    ensures BasePlanned(c, k)
  {
    hide IsDefaultPlan;
  }

  lemma MakeWellBase(c: Compiled, arity: map<string, nat>)
    requires |c.plans| == |c.rules|
    requires forall k :: 0 <= k < |c.rules| ==> BaseRuleOk(c.rules[k], arity) && BasePlanned(c, k)
    requires forall rel ::
        rel in Idbs(c.rules) ==> rel in c.required && rel in c.canonical && c.canonical[rel] in c.required[rel]
    ensures WellCompiledBase(c, arity)
  {
    hide BaseRuleOk, BasePlanned;
  }

  // --- Every unit can be lowered ---

  // A base stratum has a rule to run, a loop a member to maintain.
  lemma HasPlan(u: Unit)
    requires |u.compiled.plans| == |UnitVariants(u)|
    requires |UnitVariants(u)| > 0 || exists rel ::
        rel in MaintainedRels(u) && rel in u.compiled.required && rel in u.compiled.canonical
    ensures PlanInstrs(u) != []
  {
    hide MaintInstrs, UnitVariants, MaintainedRels;
    if |UnitVariants(u)| > 0 {
      assert |UnitPipelines(u)| > 0;
      hide UnitPipelines;
    } else {
      var rel :| rel in MaintainedRels(u) && rel in u.compiled.required && rel in u.compiled.canonical;
      SomeMaintenance(u, MaintainedRels(u), rel);
    }
  }

  lemma {:induction false} SomeMaintenance(u: Unit, rels: seq<string>, rel: string)
    requires rel in rels && rel in u.compiled.required && rel in u.compiled.canonical
    ensures MaintInstrs(u, rels) != []
  {
    if rels[|rels| - 1] == rel {
      assert |UnitMaintenance(u, rel)| > 0;
      hide UnitMaintenance;
      assert |ToInstrs(UnitMaintenance(u, rel))| > 0;
    } else {
      hide UnitMaintenance;
      SomeMaintenance(u, rels[..|rels| - 1], rel);
    }
  }

  lemma HasWork(ds: seq<Draft>, d: Draft, arity: map<string, nat>, u: Unit)
    requires DraftsOk(ds, arity) && d in ds && DraftOk(d, arity) && IsUnitOf(ds, d, arity, u)
    ensures |UnitVariants(u)| > 0 || exists rel ::
        rel in MaintainedRels(u) && rel in u.compiled.required && rel in u.compiled.canonical
  {
    hide BaseRuleOk;
    UnitFields(ds, d, arity, u);
    DraftParts(d, arity);
    if d.recursive {
      var rel :| rel in d.members;
      SortedIsList(d.members);
      hide DraftOk, DraftsOk, IsUnitOf;
      MemberIsSelected(ds, d, arity, u, rel);
      SelectedMeans(ds, d, u, rel);
    } else {
      hide DraftOk, DraftsOk, IsUnitOf;
      BaseVariantsAre(d);
    }
  }

  lemma MergesCanonical(u: Unit, rel: string)
    requires rel in MaintainedRels(u) && rel in u.compiled.required && rel in u.compiled.canonical
    requires u.compiled.canonical[rel] in u.compiled.required[rel]
    ensures u.compiled.canonical[rel] in MergedOf(u, rel)
  {
    hide MaintainedRels, FullNeeded;
  }

  lemma HeadIsListed(ds: seq<Draft>, d: Draft, arity: map<string, nat>, u: Unit, rel: string)
    requires DraftOk(d, arity) && IsUnitOf(ds, d, arity, u) && rel in HeadSet(u)
    ensures rel in d.members && rel in MaintainedRels(u) && rel in ReconstructedRels(u)
  {
    hide BaseRuleOk;
    UnitFields(ds, d, arity, u);
    DraftParts(d, arity);
    if d.recursive {
      hide DraftOk, IsUnitOf, DeltaVariants, HeadList, IsRecursiveStratum;
      HeadOfVariant(d.rules, d.members, rel);
      VariantOfHead(d.rules, d.members, rel);
      SortedIsList(d.members);
    } else {
      hide DraftOk, IsUnitOf, BaseVariants, HeadList;
      BaseHeads(d.rules, rel);
    }
  }

  lemma NoDupReconstructed(ds: seq<Draft>, d: Draft, arity: map<string, nat>, u: Unit)
    requires IsUnitOf(ds, d, arity, u)
    ensures NoDup(ReconstructedRels(u))
  {
    UnitFields(ds, d, arity, u);
    SortedIsList(d.members);
    hide IsUnitOf, HeadList, Names.Sorted;
  }

  lemma UnitIsOk(ds: seq<Draft>, d: Draft, arity: map<string, nat>, u: Unit)
    requires DraftsOk(ds, arity) && d in ds && DraftOk(d, arity) && IsUnitOf(ds, d, arity, u)
    ensures UnitOk(u)
  {
    hide *;
    UnitFields(ds, d, arity, u);
    DraftParts(d, arity);
    HasWork(ds, d, arity, u);
    HasPlan(u);
    NoDupReconstructed(ds, d, arity, u);
    forall rel | rel in HeadSet(u)
      ensures rel in ReconstructedRels(u) && rel in u.compiled.canonical
      ensures u.compiled.canonical[rel] in MergedOf(u, rel) {
      HeadIsListed(ds, d, arity, u, rel);
      MemberIsSelected(ds, d, arity, u, rel);
      SelectedMeans(ds, d, u, rel);
      MergesCanonical(u, rel);
    }
    MakeUnitOk(u);
  }

  lemma MakeUnitOk(u: Unit)
    requires |u.compiled.plans| == |UnitVariants(u)| && PlanInstrs(u) != [] && NoDup(ReconstructedRels(u))
    requires forall rel ::
        rel in HeadSet(u) ==>
        rel in ReconstructedRels(u) && rel in u.compiled.canonical && u.compiled.canonical[rel] in MergedOf(u, rel)
    ensures UnitOk(u)
  {
    hide UnitVariants, PlanInstrs, ReconstructedRels, HeadSet, MergedOf;
  }

  // A unit made of a draft whose rules are in scope and planned by default is compiled as the run theorems ask.
  lemma UnitIsCompiled(ds: seq<Draft>, d: Draft, arity: map<string, nat>, u: Unit)
    requires DraftsOk(ds, arity) && d in ds && IsUnitOf(ds, d, arity, u)
    ensures UnitCompiled(u, arity)
  {
    var k :| 0 <= k < |ds| && ds[k] == d;
    assert DraftOk(ds[k], arity);
    hide DraftOk, IsUnitOf, WellCompiled, WellCompiledBase, UnitOk;
    UnitFields(ds, d, arity, u);
    UnitIsOk(ds, d, arity, u);
    if d.recursive { LoopIsWell(ds, d, arity, u); } else { BaseIsWell(ds, d, arity, u); }
  }

  // --- Canonical indexes of relations that two units share ---

  // Only a base stratum shares a relation with a later one, and it does not read the relation.
  ghost predicate SharedByBase(ds: seq<Draft>) {
    forall k, w, rel :: 0 <= k < w < |ds| && rel in Idbs(ds[k].rules) && rel in ds[w].members ==>
      !ds[k].recursive && forall r :: r in ds[k].rules ==> rel !in BodyRels(r)
  }

  lemma ReadsNothing(d: Draft, arity: map<string, nat>, rel: string, versions: set<Version>)
    requires DraftOk(d, arity) && forall r :: r in d.rules ==> rel !in BodyRels(r)
    ensures ReadCols(d.plans, rel, versions) == {}
  {
    hide DraftOk, ReadCols;
    forall c ensures c !in ReadCols(d.plans, rel, versions) {
      if c in ReadCols(d.plans, rel, versions) { ReadBySome(d, arity, rel, versions, c); }
    }
  }

  lemma ReadBySome(d: Draft, arity: map<string, nat>, rel: string, versions: set<Version>, c: Cols)
    requires DraftOk(d, arity) && c in ReadCols(d.plans, rel, versions)
    ensures exists r :: r in d.rules && rel in BodyRels(r)
  {
    hide *;
    ReadColsAre(d.plans, rel, versions, c);
    var k, p :| 0 <= k < |d.plans| && (p in d.plans[k].access || p in d.plans[k].negations) && p.rel == rel
        && p.version in versions && p.indexCols == c;
    PatternIsPermutation(d, arity, k, p);
    VariantRule(d, arity, k);
  }

  // The base stratum merges every index that any stratum reads, so also the later stratum's canonical one.
  lemma SharedIsKept(ds: seq<Draft>, arity: map<string, nat>, k: nat, w: nat, u: Unit, later: Unit, rel: string)
    requires DraftsOk(ds, arity) && k < |ds| && w < |ds| && IsUnitOf(ds, ds[k], arity, u)
    requires IsUnitOf(ds, ds[w], arity, later)
    requires rel in ds[k].members && rel in ds[w].members && rel in HeadSet(u)
    requires !ds[k].recursive && forall r :: r in ds[k].rules ==> rel !in BodyRels(r)
    ensures rel in later.compiled.canonical && later.compiled.canonical[rel] in MergedOf(u, rel)
  {
    hide DraftOk, SecondReads, IsUnitOf;
    var d, e := ds[k], ds[w];
    assert DraftOk(d, arity) && DraftOk(e, arity);
    hide *;
    UnitFields(ds, d, arity, u);
    UnitSelected(ds, d, arity, u, rel);
    UnitSelected(ds, e, arity, later, rel);
    ReadsPermute(ds, d, arity, rel);
    ReadsPermute(ds, e, arity, rel);
    ReadsNothing(d, arity, rel, ALL);
    BaseReadSets(d, rel);
    SelectedFacts(ds, d, rel, arity[rel], u.compiled.required[rel], u.compiled.canonical[rel]);
    SelectedFacts(ds, e, rel, arity[rel], later.compiled.required[rel], later.compiled.canonical[rel]);
    OwnAreGlobal(ds, w, rel);
    CanonicalAmong(later.compiled.required[rel], u.compiled.required[rel], later.compiled.canonical[rel],
                   FirstReads(e, rel) + SecondReads(e, rel), GlobalReads(ds, rel), Identity(arity[rel]));
    HeadIsListed(ds, d, arity, u, rel);
    BaseMerges(u, rel);
  }

  lemma BaseReadSets(d: Draft, rel: string)
    requires !d.recursive && ReadCols(d.plans, rel, ALL) == {}
    ensures FirstReads(d, rel) == {} && SecondReads(d, rel) == {}
  {}

  lemma OwnAreGlobal(ds: seq<Draft>, w: nat, rel: string)
    requires w < |ds|
    ensures FirstReads(ds[w], rel) + SecondReads(ds[w], rel) <= GlobalReads(ds, rel)
    ensures FirstReads(ds[w], rel) == {} && SecondReads(ds[w], rel) == {}
        <==> FirstReads(ds[w], rel) + SecondReads(ds[w], rel) == {}
  {
    GlobalHas(ds, rel, w);
    ReadColsGrow(ds[w].plans, rel, {DELTA}, ALL);
    ReadColsGrow(ds[w].plans, rel, {FULL}, ALL);
    hide ReadCols, GlobalReads;
  }

  lemma CanonicalAmong(later: seq<Cols>, all: seq<Cols>, canonical: Cols, own: set<Cols>, global: set<Cols>,
                       identity: Cols)
    requires canonical in later && own <= global
    requires own == {} ==> Elems(later) == if global == {} then {identity} else global
    requires Elems(later) <= own || own == {}
    requires Elems(all) == if global == {} then {identity} else global
    ensures canonical in all
  {
    assert canonical in Elems(later);
    assert canonical in Elems(all);
  }

  lemma BaseMerges(u: Unit, rel: string)
    requires !u.recursive && rel in MaintainedRels(u) && rel in u.compiled.required && rel in u.compiled.canonical
    ensures MergedOf(u, rel) == Elems(u.compiled.required[rel])
  {
    hide MaintainedRels;
  }

  lemma HeadsAreIdbs(ds: seq<Draft>, d: Draft, arity: map<string, nat>, u: Unit, rel: string)
    requires DraftOk(d, arity) && IsUnitOf(ds, d, arity, u) && rel in HeadSet(u)
    ensures rel in Idbs(d.rules)
  {
    UnitFields(ds, d, arity, u);
    if d.recursive {
      hide DraftOk, IsUnitOf, DeltaVariants, HeadList;
      HeadOfVariant(d.rules, d.members, rel);
    } else {
      hide DraftOk, IsUnitOf, BaseVariants, HeadList;
      BaseHeads(d.rules, rel);
    }
  }

  ghost predicate AreUnitsOf(ds: seq<Draft>, arity: map<string, nat>, us: seq<Unit>) {
    |us| == |ds| && forall k :: 0 <= k < |us| ==> IsUnitOf(ds, ds[k], arity, us[k])
  }

  lemma PairIsKept(ds: seq<Draft>, arity: map<string, nat>, us: seq<Unit>, k: nat, w: nat, rel: string)
    requires DraftsOk(ds, arity) && AreUnitsOf(ds, arity, us) && SharedByBase(ds) && k < w < |us|
    requires rel in HeadSet(us[k]) && rel in us[w].compiled.canonical
    ensures us[w].compiled.canonical[rel] in MergedOf(us[k], rel)
  {
    assert DraftOk(ds[k], arity) && IsUnitOf(ds, ds[k], arity, us[k]) && IsUnitOf(ds, ds[w], arity, us[w]);
    hide DraftOk, IsUnitOf, HeadSet, MergedOf, DraftsOk;
    UnitFields(ds, ds[w], arity, us[w]);
    HeadsAreIdbs(ds, ds[k], arity, us[k], rel);
    HeadIsListed(ds, ds[k], arity, us[k], rel);
    SharedIsKept(ds, arity, k, w, us[k], us[w], rel);
  }

  // So the emitted steps are laid out as the rebuild pass needs.
  lemma CompiledIsLaid(ds: seq<Draft>, arity: map<string, nat>, us: seq<Unit>)
    requires DraftsOk(ds, arity) && AreUnitsOf(ds, arity, us) && SharedByBase(ds)
    ensures UnitsOk(us) && CanonicalKept(us) && Planned(us) && Laid(ProgramSteps(us))
    ensures forall k :: 0 <= k < |us| ==> UnitCompiled(us[k], arity)
  {
    hide DraftOk, IsUnitOf, HeadSet, MergedOf, ReconstructedRels, UnitOk, WellCompiled, WellCompiledBase, Laid,
        ProgramSteps, SharedByBase;
    forall k | 0 <= k < |us| ensures UnitCompiled(us[k], arity) && UnitOk(us[k]) {
      UnitIsCompiled(ds, ds[k], arity, us[k]);
    }
    forall k, w, rel | 0 <= k < w < |us| && rel in HeadSet(us[k]) && rel in us[w].compiled.canonical
      ensures us[w].compiled.canonical[rel] in MergedOf(us[k], rel) {
      PairIsKept(ds, arity, us, k, w, rel);
    }
    forall k, w | 0 <= k < w < |us| ensures KeptBetween(us[k], us[w]) {}
    LaidIff(us);
  }

  // ========== Units ready ==========

  // The compiled units meet what the run theorem asks: required indexes are listed once, and what a unit relies on
  // without ensuring it was merged by every earlier writer.

  // --- Required indexes are listed once ---

  lemma SelectedOnce(ds: seq<Draft>, d: Draft, rel: string, arity: nat, required: seq<Cols>, canonical: Cols)
    requires Selected(ds, d, rel, arity, required, canonical)
    ensures NoDup(required)
  {
    hide Required, Canonical, FirstReads, SecondReads, GlobalReads, Lists;
    var first, second, global :| SelectedFrom(ds, d, rel, arity, required, canonical, first, second, global);
    RequiredOnceEach(first, second, global, arity, []);
  }

  lemma MemberRequiredOnce(ds: seq<Draft>, d: Draft, arity: map<string, nat>, u: Unit, rel: string)
    requires DraftsOk(ds, arity) && d in ds && IsUnitOf(ds, d, arity, u) && rel in d.members
    ensures RequiredOnce(u.compiled, rel)
  {
    hide *;
    UnitSelected(ds, d, arity, u, rel);
    SelectedOnce(ds, d, rel, arity[rel], u.compiled.required[rel], u.compiled.canonical[rel]);
    MemberIsSelected(ds, d, arity, u, rel);
    SelectedMeans(ds, d, u, rel);
    MakeRequiredOnce(u.compiled, rel);
  }

  lemma MakeRequiredOnce(c: Compiled, rel: string)
    requires rel in c.required && rel in c.canonical && c.canonical[rel] in c.required[rel] && NoDup(c.required[rel])
    ensures RequiredOnce(c, rel)
  {}

  lemma ReconstructedIsMember(ds: seq<Draft>, d: Draft, arity: map<string, nat>, u: Unit, rel: string)
    requires DraftOk(d, arity) && IsUnitOf(ds, d, arity, u) && rel in ReconstructedRels(u)
    ensures rel in d.members
  {
    hide BaseRuleOk;
    UnitFields(ds, d, arity, u);
    DraftParts(d, arity);
    if d.recursive {
      hide DraftOk, IsUnitOf;
      SortedIsList(d.members);
    } else {
      hide DraftOk, IsUnitOf, HeadList, BaseVariants;
      BaseHeads(d.rules, rel);
    }
  }

  lemma UnitIsFit(ds: seq<Draft>, d: Draft, arity: map<string, nat>, u: Unit)
    requires DraftsOk(ds, arity) && d in ds && IsUnitOf(ds, d, arity, u)
    ensures UnitFits(u, arity)
  {
    var k :| 0 <= k < |ds| && ds[k] == d;
    assert DraftOk(ds[k], arity);
    assert d.members <= arity.Keys;
    hide DraftOk, DraftsOk, IsUnitOf, UnitCompiled, RequiredOnce, UnitOk, ReconstructedRels;
    UnitFields(ds, d, arity, u);
    UnitIsCompiled(ds, d, arity, u);
    UnitIsOk(ds, d, arity, u);
    forall rel | rel in ReconstructedRels(u) ensures RequiredOnce(u.compiled, rel) {
      ReconstructedIsMember(ds, d, arity, u, rel);
      MemberRequiredOnce(ds, d, arity, u, rel);
    }
  }

  // --- Reads and selection over the whole program ---

  lemma ReadIsGlobal(ds: seq<Draft>, k: nat, j: nat, p: AccessPattern)
    requires k < |ds| && j < |ds[k].plans| && (p in ds[k].plans[j].access || p in ds[k].plans[j].negations)
    ensures p.indexCols in GlobalReads(ds, p.rel)
  {
    PlanReads(ds[k].plans, j, p);
    GlobalHas(ds, p.rel, k);
    hide ReadCols, GlobalReads;
  }

  lemma {:induction false} PlanReads(plans: seq<Plan>, j: nat, p: AccessPattern)
    requires j < |plans| && (p in plans[j].access || p in plans[j].negations)
    ensures p.indexCols in ReadCols(plans, p.rel, ALL)
  {
    assert p.version == FULL || p.version == DELTA || p.version == NEW;
    if j < |plans| - 1 { PlanReads(plans[..|plans| - 1], j, p); }
  }

  // A base stratum that does not read what it writes merges every index that any stratum reads.
  lemma BaseMergesAll(ds: seq<Draft>, arity: map<string, nat>, w: nat, u: Unit, rel: string, i: Cols)
    requires DraftsOk(ds, arity) && w < |ds| && IsUnitOf(ds, ds[w], arity, u) && !ds[w].recursive
    requires rel in HeadSet(u) && i in GlobalReads(ds, rel) && forall r :: r in ds[w].rules ==> rel !in BodyRels(r)
    ensures i in MergedOf(u, rel)
  {
    hide DraftOk;
    var d := ds[w];
    assert DraftOk(d, arity);
    hide *;
    UnitFields(ds, d, arity, u);
    HeadIsListed(ds, d, arity, u, rel);
    UnitSelected(ds, d, arity, u, rel);
    ReadsPermute(ds, d, arity, rel);
    ReadsNothing(d, arity, rel, ALL);
    BaseReadSets(d, rel);
    SelectedFacts(ds, d, rel, arity[rel], u.compiled.required[rel], u.compiled.canonical[rel]);
    BaseMerges(u, rel);
  }

  lemma AtomListed(access: seq<AccessPattern>, body: seq<Clause>, versions: seq<Version>, join: set<string>,
                   varOrder: seq<string>, i: nat)
    requires |body| == |versions| && ListsAtoms(access, body, versions, join, varOrder, |body|)
    requires i < |body| && body[i].Pos?
    ensures Pattern(body[i], versions[i], join, varOrder, i) in access
  {
    hide Pattern;
  }

  lemma OnlyPattern(v: Variant, plan: Plan, i: nat, p: AccessPattern)
    requires |v.versions| == |v.rule.body| && IsDefaultPlan(v, plan) && i < |v.rule.body| && v.rule.body[i].Pos?
    requires p in plan.access && |plan.access| == 1
    ensures p.rel == v.rule.body[i].atom.rel
  {
    hide *;
    PlanAccess(v, plan);
    var q := Pattern(v.rule.body[i], v.versions[i], plan.join, plan.varOrder, i);
    AtomListed(plan.access, v.rule.body, v.versions, plan.join, plan.varOrder, i);
    assert q == plan.access[0] && p == plan.access[0];
    PatternShape(v.rule.body[i], v.versions[i], plan.join, plan.varOrder, i);
  }

  // What a loop scans is one of its members: the clause that reads DELTA is the rule's only atom.
  lemma ScanIsMember(c: Compiled, arity: map<string, nat>, j: nat, p: AccessPattern)
    requires WellCompiled(c, arity) && j < |c.plans| && p in c.plans[j].access && |c.plans[j].access| == 1
    ensures p.rel in c.members
  {
    hide *;
    PlansMatch(c, arity);
    var r, i := VariantIs(c, arity, j);
    LoopPlan(c, arity, j);
    SccClause(c.rules[r], c.members, i);
    OnlyPattern(VariantsOf(c)[j], c.plans[j], i, p);
  }

  lemma SccClause(rule: Rule, members: set<string>, i: nat)
    requires i < |rule.body| && IsSccClause(rule, members, i)
    ensures rule.body[i].Pos? && rule.body[i].atom.rel in members && CreateDeltaVariant(rule, i).rule == rule
  {}

  lemma ScanKept(ds: seq<Draft>, arity: map<string, nat>, us: seq<Unit>, k: nat, w: nat, j: nat, p: AccessPattern)
    requires DraftsOk(ds, arity) && AreUnitsOf(ds, arity, us) && SharedByBase(ds) && w < k < |us|
    requires LoopScan(us[k], j, p) && p.rel in HeadSet(us[w])
    ensures p.indexCols in MergedOf(us[w], p.rel)
  {
    assert us[k].recursive && j < |us[k].compiled.plans| && p in us[k].compiled.plans[j].access
        && |us[k].compiled.plans[j].access| == 1;
    assert IsUnitOf(ds, ds[k], arity, us[k]) && IsUnitOf(ds, ds[w], arity, us[w]) && DraftOk(ds[w], arity);
    UnitFields(ds, ds[k], arity, us[k]);
    assert ds[k] in ds && ds[w] in ds;
    hide DraftsOk, DraftOk, AreUnitsOf, IsUnitOf, HeadSet, MergedOf, LoopScan, GlobalReads, WellCompiled;
    UnitIsCompiled(ds, ds[k], arity, us[k]);
    LoopCompiled(us[k], arity);
    ScanIsMember(us[k].compiled, arity, j, p);
    HeadsAreIdbs(ds, ds[w], arity, us[w], p.rel);
    ReadIsGlobal(ds, k, j, p);
    BaseMergesAll(ds, arity, w, us[w], p.rel, p.indexCols);
  }

  lemma ReliedIsKept(ds: seq<Draft>, arity: map<string, nat>, us: seq<Unit>, k: nat, rel: string, i: Cols)
    requires DraftsOk(ds, arity) && AreUnitsOf(ds, arity, us) && SharedByBase(ds) && CanonicalKept(us) && k < |us|
    requires Relied(us[k], rel, i)
    ensures KeptTo(us, k, rel, i)
  {
    hide DraftsOk, AreUnitsOf, SharedByBase, HeadSet, MergedOf, ReconstructedRels, LoopScan;
    forall w | 0 <= w < k && rel in HeadSet(us[w]) ensures i in MergedOf(us[w], rel) {
      if rel in ReconstructedRels(us[k]) && rel in us[k].compiled.canonical && i == us[k].compiled.canonical[rel] {
        assert KeptBetween(us[w], us[k]);
      } else {
        var j, p :| LoopScan(us[k], j, p) && p.rel == rel && p.indexCols == i;
        ScanKept(ds, arity, us, k, w, j, p);
      }
    }
  }

  // --- Together ---

  // The units that selection makes of drafts meet what the run theorem asks, whatever rebuilds are run.
  lemma ProgramIsOk(ds: seq<Draft>, arity: map<string, nat>, us: seq<Unit>, x: Machine)
    requires DraftsOk(ds, arity) && AreUnitsOf(ds, arity, us) && SharedByBase(ds)
    requires Planned(us) && FitBlocks(ProgramSteps(us), x.run)
    ensures ProgramOk(us, x, arity) && UnitsOk(us)
  {
    CompiledIsLaid(ds, arity, us);
    hide DraftsOk, AreUnitsOf, SharedByBase, UnitFits, UnitsOk, UnitOk, KeptTo, Relied, EnsuredCols, FitBlocks,
        ProgramSteps, CanonicalKept, Laid, UnitCompiled;
    forall k | 0 <= k < |us| ensures UnitFits(us[k], arity) {
      UnitOfDraft(ds, arity, us, k);
      UnitIsFit(ds, ds[k], arity, us[k]);
    }
    forall k, rel, i | 0 <= k < |us| && Relied(us[k], rel, i) && i !in EnsuredCols(us[k], rel)
      ensures KeptTo(us, k, rel, i) {
      ReliedIsKept(ds, arity, us, k, rel, i);
    }
  }

  lemma UnitOfDraft(ds: seq<Draft>, arity: map<string, nat>, us: seq<Unit>, k: nat)
    requires AreUnitsOf(ds, arity, us) && k < |us|
    ensures k < |ds| && ds[k] in ds && IsUnitOf(ds, ds[k], arity, us[k])
  {}

  // ========== End to end ==========

  // From a program's rules to what is stored at the end of a compiled run.

  // --- What the passes return ---

  // The dependency graph and its components, the strata, the planned drafts, the units with their indexes, the rebuilds
  // inserted after each step, and all the steps together.
  datatype Passes = Passes(g: Graph, sccs: seq<set<string>>, strata: seq<Stratum>, drafts: seq<Draft>,
                           units: seq<Unit>, blocks: seq<seq<Freshness.Step>>, out: seq<Freshness.Step>)

  // The rules that have a variant: in a loop, those that read a member positively.
  function RunRules(s: Stratum): seq<Rule> {
    if s.recursive then Looping(s.rules, s.members) else s.rules
  }

  function Looped(s: Stratum): Stratum {
    Stratum(s.members, s.recursive, RunRules(s))
  }

  function AllLooped(strata: seq<Stratum>): seq<Stratum> {
    seq(|strata|, k requires 0 <= k < |strata| => Looped(strata[k]))
  }

  // The draft is the stratum's, its variants planned by default.
  ghost predicate DraftFor(s: Stratum, d: Draft, arity: map<string, nat>) {
    && d.recursive == s.recursive && d.rules == RunRules(s) && d.members == s.members && s.members <= arity.Keys
    && |d.plans| == |DraftVariants(d)| && forall k :: 0 <= k < |d.plans| ==> DraftPlanned(d, k)
  }

  ghost predicate DraftsFor(strata: seq<Stratum>, ds: seq<Draft>, arity: map<string, nat>) {
    |ds| == |strata| && forall k :: 0 <= k < |ds| ==> DraftFor(strata[k], ds[k], arity)
  }

  // p is what stratification, planning, index selection, lowering and the rebuild pass make of the rules.
  ghost predicate PassesRan(rules: seq<Rule>, arity: map<string, nat>, p: Passes) {
    && IsStratification(rules, p.g, p.sccs, p.strata) && DraftsFor(p.strata, p.drafts, arity)
    && AreUnitsOf(p.drafts, arity, p.units)
    && UnitsOk(p.units) && Planned(p.units) && IsRebuilt(ProgramSteps(p.units), p.blocks, p.out)
  }

  // Every rule is in the lowering's scope, typed, and looks at every atom.
  ghost predicate RulesOk(rules: seq<Rule>, arity: map<string, nat>) {
    forall r :: r in rules ==> BaseRuleOk(r, arity)
  }

  // The order of components survives the merge, and negation is apart: by StratifiedIff, exactly when the strata are in
  // order.
  ghost predicate StrataInOrder(rules: seq<Rule>, p: Passes) {
    OrderSurvives(p.g, p.sccs, rules) && NegationApart(p.sccs, rules)
  }

  // --- The drafts meet what selection asks ---

  lemma OwnedHeads(s: Stratum)
    requires StratifyCorrect.Owned(s)
    ensures Idbs(s.rules) <= s.members
  {
    forall x | x in Idbs(s.rules) ensures x in s.members {
      var k, h :| 0 <= k < |s.rules| && 0 <= h < |s.rules[k].heads| && s.rules[k].heads[h].rel == x;
      assert s.rules[k] in s.rules && x in HeadRels(s.rules[k]);
    }
  }

  lemma RunRulesListed(s: Stratum)
    ensures forall r :: r in RunRules(s) ==> r in s.rules
    ensures Idbs(RunRules(s)) <= Idbs(s.rules)
  {
    forall r | r in RunRules(s) ensures r in s.rules {
      if s.recursive { LoopingListed(s.rules, s.members, r); }
    }
    FewerHeads(RunRules(s), s.rules);
  }

  lemma MembersExist(s: Stratum)
    requires StratumOk(s) && s.recursive && forall r :: r in s.rules ==> r.heads != []
    ensures s.members != {}
  {
    var r := s.rules[0];
    assert r in s.rules && r.heads[0].rel in HeadRels(r);
  }

  lemma DraftIsOk(s: Stratum, d: Draft, arity: map<string, nat>)
    requires DraftFor(s, d, arity) && StratumOk(s) && (forall r :: r in s.rules ==> BaseRuleOk(r, arity))
    requires s.recursive ==> s.members != {}
    ensures DraftOk(d, arity)
  {
    OwnedHeads(s);
    RunRulesListed(s);
    if s.recursive { LoopingIsRecursive(s.rules, s.members); }
    hide DraftVariants, DraftPlanned, BaseRuleOk, IsRecursiveStratum, StratifyCorrect.Owned, Idbs, Looping, LoopShaped;
    forall k | 0 <= k < |d.rules| ensures BaseRuleOk(d.rules[k], arity) { assert d.rules[k] in RunRules(s); }
  }

  // Strata in order share a relation with a later one only when they are the base part of its loop.
  lemma StrataShareByBase(strata: seq<Stratum>, k: nat, w: nat, rel: string)
    requires StrataOk(strata) && LoopsLast(strata) && WellStratified(strata) && k < w < |strata|
    requires rel in Idbs(strata[k].rules) && rel in strata[w].members
    ensures !strata[k].recursive && forall r :: r in strata[k].rules ==> rel !in BodyRels(r)
  {
    assert StratumOk(strata[k]);
    OwnedHeads(strata[k]);
    assert !strata[k].recursive;
    assert ReadsNoneOf(strata[k].rules, Heads(strata[k].rules));
    forall r | r in strata[k].rules ensures rel !in BodyRels(r) {
      var j :| 0 <= j < |strata[k].rules| && strata[k].rules[j] == r;
      assert BodyRels(strata[k].rules[j]) !! Heads(strata[k].rules);
    }
  }

  // Every stratum's rules are the program's, and have heads.
  ghost predicate RulesOf(strata: seq<Stratum>, rules: seq<Rule>) {
    forall i, r :: 0 <= i < |strata| && r in strata[i].rules ==> r in rules && r.heads != []
  }

  lemma StrataRules(rules: seq<Rule>, g: Graph, sccs: seq<set<string>>, strata: seq<Stratum>)
    requires IsStratification(rules, g, sccs, strata)
    ensures RulesOf(strata, rules)
  {
    hide IsStratification;
    forall i, r | 0 <= i < |strata| && r in strata[i].rules ensures r in rules && r.heads != [] {
      StratumRule(rules, g, sccs, strata, i, r);
    }
  }

  lemma StratumRule(rules: seq<Rule>, g: Graph, sccs: seq<set<string>>, strata: seq<Stratum>, i: nat, r: Rule)
    requires IsStratification(rules, g, sccs, strata) && i < |strata| && r in strata[i].rules
    ensures r in rules && r.heads != []
  {
    hide *;
    var groups := GroupsOf(rules, g, sccs, strata);
    HeldAt(strata, i, r);
    FusedHolds(rules, g, groups, r);
    HeldIsFed(rules, g, groups, r);
  }

  lemma HeldAt(strata: seq<Stratum>, i: nat, r: Rule)
    requires i < |strata| && r in strata[i].rules
    ensures StratifyCorrect.Holds(strata, r)
  {}

  lemma GroupsOf(rules: seq<Rule>, g: Graph, sccs: seq<set<string>>, strata: seq<Stratum>)
    returns (groups: seq<set<string>>)
    requires IsStratification(rules, g, sccs, strata)
    ensures strata == Fused(rules, g, groups)
  {
    hide Fused, Stratify.MergedFrom, IsDepGraph, Tarjan.IsComponentList;
    groups :| Stratify.MergedFrom(sccs, rules, groups) && strata == Fused(rules, g, groups);
  }

  lemma FusedHolds(rules: seq<Rule>, g: Graph, groups: seq<set<string>>, r: Rule)
    ensures StratifyCorrect.Holds(Fused(rules, g, groups), r)
        <==> StratifyCorrect.Holds(Stratify.InitialStrata(groups, rules, g), r)
  {
    FuseHolds(Stratify.InitialStrata(groups, rules, g),
              Stratify.RecursiveMembers(Stratify.InitialStrata(groups, rules, g)), r);
  }

  lemma HeldIsFed(rules: seq<Rule>, g: Graph, groups: seq<set<string>>, r: Rule)
    requires StratifyCorrect.Holds(Stratify.InitialStrata(groups, rules, g), r)
    ensures r in rules && r.heads != []
  {
    StratifyCorrect.InitialHolds(groups, rules, g, r);
    var i :| 0 <= i < |groups| && Stratify.Feeds(r, groups[i]);
    var x :| x in HeadRels(r) * groups[i];
  }

  lemma DraftsAreOk(strata: seq<Stratum>, ds: seq<Draft>, rules: seq<Rule>, arity: map<string, nat>)
    requires StrataOk(strata) && LoopsLast(strata) && WellStratified(strata) && DraftsFor(strata, ds, arity)
    requires RulesOf(strata, rules) && RulesOk(rules, arity)
    ensures DraftsOk(ds, arity) && SharedByBase(ds)
  {
    hide StratumOk, DraftOk, WellStratified, LoopsLast, DraftPlanned, BaseRuleOk, DraftVariants, Idbs, RunRules;
    forall k | 0 <= k < |ds| ensures DraftOk(ds[k], arity) {
      assert DraftFor(strata[k], ds[k], arity) && StratumOk(strata[k]);
      if strata[k].recursive { MembersExist(strata[k]); }
      DraftIsOk(strata[k], ds[k], arity);
    }
    forall k, w, rel | 0 <= k < w < |ds| && rel in Idbs(ds[k].rules) && rel in ds[w].members
      ensures !ds[k].recursive && forall r :: r in ds[k].rules ==> rel !in BodyRels(r)
    {
      assert DraftFor(strata[k], ds[k], arity) && DraftFor(strata[w], ds[w], arity);
      RunRulesListed(strata[k]);
      StrataShareByBase(strata, k, w, rel);
    }
  }

  lemma UnitStrata(strata: seq<Stratum>, ds: seq<Draft>, arity: map<string, nat>, us: seq<Unit>)
    requires DraftsFor(strata, ds, arity) && AreUnitsOf(ds, arity, us)
    ensures StrataOf(us) == AllLooped(strata)
  {
    hide UnitVariants;
    hide DraftVariants, DraftPlanned, RunRules;
    forall k | 0 <= k < |us| ensures StratumOf(us[k]) == Looped(strata[k]) {
      assert DraftFor(strata[k], ds[k], arity) && IsUnitOf(ds, ds[k], arity, us[k]);
      UnitFields(ds, ds[k], arity, us[k]);
      hide IsUnitOf;
    }
  }

  lemma RanMeans(rules: seq<Rule>, arity: map<string, nat>, p: Passes)
    requires PassesRan(rules, arity, p)
    ensures IsStratification(rules, p.g, p.sccs, p.strata) && DraftsFor(p.strata, p.drafts, arity)
    ensures AreUnitsOf(p.drafts, arity, p.units)
    ensures UnitsOk(p.units) && Planned(p.units) && AllBlocks(ProgramSteps(p.units), p.blocks)
    ensures |p.blocks| == |ProgramSteps(p.units)|
  {
    hide ProgramSteps, IsBlock, UnitsOk, IsStratification, DraftsFor, AreUnitsOf;
  }

  // The outputs of the passes satisfy what the run theorem asks, whichever of the inserted rebuilds a run executes, and
  // hold the strata's rules that have variants. Read as steps of their own, the rebuilds keep every column source up to
  // date.
  lemma PassesCompile(rules: seq<Rule>, arity: map<string, nat>, p: Passes, x: Machine)
    requires PassesRan(rules, arity, p) && RulesOk(rules, arity) && StrataInOrder(rules, p)
    requires LeavesOut(p.blocks, x.run)
    ensures ProgramOk(p.units, x, arity) && UnitsOk(p.units) && Planned(p.units)
    ensures StrataOf(p.units) == AllLooped(p.strata)
    ensures |x.run| == |ProgramSteps(p.units)| && Laid(ProgramSteps(p.units))
  {
    assert OrderSurvives(p.g, p.sccs, rules) && NegationApart(p.sccs, rules);
    hide *;
    RanMeans(rules, arity, p);
    StratificationShape(rules, p.g, p.sccs, p.strata);
    StrataRules(rules, p.g, p.sccs, p.strata);
    DraftsAreOk(p.strata, p.drafts, rules, arity);
    CompiledIsLaid(p.drafts, arity, p.units);
    UnitStrata(p.strata, p.drafts, arity, p.units);
    LeftOutFit(ProgramSteps(p.units), p.blocks, x.run);
    ProgramIsOk(p.drafts, arity, p.units, x);
    OkMeans(p.units, x, arity);
  }

  // --- What is stored ---

  // In any run of the compiled program, column storage ends with what the strata compute, the rules of a loop without a
  // variant left aside.
  lemma CompiledProgramStores(rules: seq<Rule>, arity: map<string, nat>, p: Passes, x: Machine, start: World, w: World)
    requires PassesRan(rules, arity, p) && RulesOk(rules, arity) && StrataInOrder(rules, p)
    requires LeavesOut(p.blocks, x.run)
    requires |x.run| == |ProgramSteps(p.units)| && Starts(p.units, arity, start)
    requires ProgramRuns(p.units, x, |p.units|, start, w)
    ensures StoredFacts(w.db) == Run(AllLooped(p.strata), x.sem, FactsOf(start.truth))
  {
    hide *;
    PassesCompile(rules, arity, p, x);
    CompiledProgramComputes(p.units, x, arity, start, w);
  }

  lemma LoopedRuns(s: Stratum, sem: Interp, full: Facts)
    requires StratumOk(s)
    requires s.recursive ==> forall r :: r in s.rules && !ReadsPositively(r, s.members) ==> !CanDerive(r)
    ensures RunStratum(Looped(s), sem, full) == RunStratum(s, sem, full)
  {
    hide CanDerive, ReadsPositively, Looping, LeastClosed;
    if s.recursive { NothingDropped(s.rules, s.members, sem, full); }
  }

  lemma DropsNothing(strata: seq<Stratum>, i: nat, r: Rule)
    requires LoopsRead(strata) && i < |strata| && strata[i].recursive && r in strata[i].rules
    requires !ReadsPositively(r, strata[i].members)
    ensures !CanDerive(r)
  {
    assert HasIn(strata[i], r, false);
    assert InSome(strata, r, false);
  }

  lemma LoopsReadBefore(strata: seq<Stratum>, n: nat)
    requires LoopsRead(strata) && n <= |strata|
    ensures LoopsRead(strata[..n])
  {
    hide HasIn, CanDerive;
    forall r | InSome(strata[..n], r, false) ensures !CanDerive(r) {
      var i :| 0 <= i < n && HasIn(strata[..n][i], r, false);
      assert HasIn(strata[i], r, false);
    }
  }

  lemma {:induction false} AllLoopedRun(strata: seq<Stratum>, sem: Interp, edb: Facts)
    requires StrataOk(strata) && LoopsRead(strata)
    ensures Run(AllLooped(strata), sem, edb) == Run(strata, sem, edb)
  {
    if |strata| > 0 {
      var m: nat := |strata| - 1;
      var init, last := strata[..m], strata[m];
      assert AllLooped(strata)[..m] == AllLooped(init);
      assert StratumOk(last);
      LoopsReadBefore(strata, m);
      forall r | last.recursive && r in last.rules && !ReadsPositively(r, last.members) ensures !CanDerive(r) {
        DropsNothing(strata, m, r);
      }
      hide CanDerive, ReadsPositively, RunStratum, StratumOk, Looped, LoopsRead;
      AllLoopedRun(init, sem, edb);
      LoopedRuns(last, sem, Run(init, sem, edb));
    }
  }

  // The main theorem for rules in the lowering's scope. When the strata are in order and no loop drops a rule that
  // could derive something, what is stored at the end of a run is the program's one stable model.
  lemma CompiledProgramIsStable(rules: seq<Rule>, arity: map<string, nat>, p: Passes, x: Machine, start: World,
                                w: World, m: Facts)
    requires PassesRan(rules, arity, p) && RulesOk(rules, arity) && StrataInOrder(rules, p) && RulesRun(p.sccs, rules)
    requires LeavesOut(p.blocks, x.run)
    requires |x.run| == |ProgramSteps(p.units)| && Starts(p.units, arity, start)
    requires ProgramRuns(p.units, x, |p.units|, start, w)
    ensures IsStable(rules, x.sem, FactsOf(start.truth), m) <==> m == StoredFacts(w.db)
  {
    hide ProgramRuns;
    assert OrderSurvives(p.g, p.sccs, rules) && NegationApart(p.sccs, rules);
    hide *;
    CompiledProgramStores(rules, arity, p, x, start, w);
    RanMeans(rules, arity, p);
    StratificationShape(rules, p.g, p.sccs, p.strata);
    StratifiedIff(rules, p.g, p.sccs, p.strata);
    LoopsReadIff(rules, p.g, p.sccs, p.strata);
    AllLoopedRun(p.strata, x.sem, FactsOf(start.truth));
  }

  // --- The state a program starts from ---

  // Facts are loaded into column storage and nothing else is built; relations that the program writes are empty.
  ghost predicate Loaded(us: seq<Unit>, arity: map<string, nat>, start: World) {
    && start.db.Keys == start.truth.Keys == arity.Keys && TypedFacts(FactsOf(start.truth), arity)
    && forall rel ::
        rel in start.db ==>
        OnlyLoaded(start.db[rel], start.truth[rel]) && (WrittenBefore(us, |us|, rel) ==> start.truth[rel] == iset{})
  }

  // The counts of rows say nothing but whether there are any: a row may be loaded several times.
  ghost predicate OnlyLoaded(s: RelState, rows: iset<Row>) {
    && s.pending == iset{} && s.news == map[] && s.deltas == map[] && s.fulls == map[] && s.rows == map[]
    && s.base == rows
    && (rows == iset{} <==> s.interned == Rows(0))
  }

  lemma OnlyLoadedHolds(s: RelState, rows: iset<Row>, tight: bool)
    requires OnlyLoaded(s, rows) && (tight ==> rows == iset{})
    ensures HoldsTruth(s, rows, true, tight)
  {
    NoneIsAtLeast(iset{});
    hide AtLeast, SizeOf;
  }

  lemma LoadedIsReady(us: seq<Unit>, k: nat, arity: map<string, nat>, start: World)
    requires Loaded(us, arity, start) && ProgramNames(us, arity) && k < |us|
    ensures Ready(us[k], start)
  {
    hide ReconstructedRels, EnsuredCols, LoopScan, TypedFacts, FactsOf;
    forall rel, i | Relied(us[k], rel, i) && i !in EnsuredCols(us[k], rel) ensures IndexCurrent(start, rel, i) {
      assert rel in ReconstructedRels(us[k]) && rel in arity;
      assert WrittenBefore(us, |us|, rel);
    }
  }

  // A relation that a unit relies on is one that it reconstructs, and it is stored.
  ghost predicate ProgramNames(us: seq<Unit>, arity: map<string, nat>) {
    forall k, rel, i :: 0 <= k < |us| && Relied(us[k], rel, i) ==> rel in ReconstructedRels(us[k]) && rel in arity
  }

  lemma UnitNames(u: Unit, arity: map<string, nat>, rel: string, i: Cols)
    requires UnitFits(u, arity) && Relied(u, rel, i)
    ensures rel in ReconstructedRels(u) && rel in arity
  {
    FitsMean(u, arity);
    hide UnitFits, UnitOk, UnitCompiled, HeadSet, MergedOf, EnsuredCols;
    if j, p :| LoopScan(u, j, p) && p.rel == rel && p.indexCols == i {
      LoopCompiled(u, arity);
      ScanIsMember(u.compiled, arity, j, p);
      LoopSets(u, arity, rel);
    }
  }

  // From there the run theorem applies.
  lemma LoadedStarts(us: seq<Unit>, x: Machine, arity: map<string, nat>, start: World)
    requires ProgramOk(us, x, arity) && Loaded(us, arity, start)
    ensures Starts(us, arity, start)
  {
    OkMeans(us, x, arity);
    hide ProgramOk, UnitsOk, Planned, ReliedKept, FitBlocks, ProgramSteps, Ready, Relied, ReconstructedRels, UnitFits,
        TypedFacts, FactsOf, OnlyLoaded, HoldsTruth;
    forall k, rel, i | 0 <= k < |us| && Relied(us[k], rel, i) ensures rel in ReconstructedRels(us[k]) && rel in arity {
      UnitNames(us[k], arity, rel, i);
    }
    forall k | 0 <= k < |us| ensures Ready(us[k], start) { LoadedIsReady(us, k, arity, start); }
    forall rel | rel in start.db ensures HoldsAt(us, {}, 0, start, rel) {
      OnlyLoadedHolds(start.db[rel], start.truth[rel], TightAt(us, {}, rel));
    }
  }

  // ========== Dropped example ==========

  // A stratified program with one stable model, of which the compiled program loses a fact because its loop drops a
  // rule.

  const X: Arg := LVar("x")
  const Y: Arg := LVar("y")
  const FEED: Rule := Rule([Atom("A", [X]), Atom("B", [Y])], [Pos(Atom("E", [X, Y]))])
  const GUARD: Rule := Rule([Atom("A", [X])], [Pos(Atom("F", [X])), Neg(Atom("B", [X]))])

  // A(x), B(y) :- E(x, y).  A(x) :- F(x), !B(x).
  const RULES: seq<Rule> := [FEED, GUARD]
  const FACTS: Facts := iset{Fact("E", [1, 2]), Fact("F", [3])}
  const ARITY: map<string, nat> := map["E" := 2, "F" := 1, "A" := 1, "B" := 1]

  lemma Rels()
    ensures HeadRels(FEED) == {"A", "B"} && BodyRels(FEED) == {"E"} && NegRels(FEED) == {}
    ensures HeadRels(GUARD) == {"A"} && BodyRels(GUARD) == {"F", "B"} && NegRels(GUARD) == {"B"}
    ensures Idbs(RULES) == {"A", "B"}
  {
    assert FEED.heads[0].rel == "A" && FEED.heads[1].rel == "B" && GUARD.heads[0].rel == "A";
    assert FEED.body[0].atom.rel == "E" && GUARD.body[0].atom.rel == "F" && GUARD.body[1].atom.rel == "B";
    assert RULES[0].heads[0].rel == "A" && RULES[0].heads[1].rel == "B" && RULES[1].heads[0].rel == "A";
  }

  // --- It is in scope and stratified ---

  lemma OneArg(a: Arg)
    requires a.LVar?
    ensures ArgVars([a]) == [a.name]
  {
    assert ArgVars([a][..0]) == [];
  }

  lemma FeedIsOk()
    ensures BaseRuleOk(FEED, ARITY)
  {
    FeedIsLowerable();
    FeedIsTyped();
    hide Lowerable, TypedRule, AllChecked;
  }

  lemma FeedIsLowerable()
    ensures Lowerable(FEED)
  {
    assert "x" in ArgVars(FEED.body[0].atom.args) && "y" in ArgVars(FEED.body[0].atom.args);
    assert InAtom(FEED.body, "x") && InAtom(FEED.body, "y");
    OneArg(X);
    OneArg(Y);
    hide ArgVars;
  }

  lemma FeedIsTyped()
    ensures TypedRule(FEED, ARITY) && AllChecked(FEED)
  {}

  lemma GuardIsOk()
    ensures BaseRuleOk(GUARD, ARITY)
  {
    hide ArgVars;
    OneArg(X);
    assert "x" in ArgVars(GUARD.body[0].atom.args);
    assert InAtom(GUARD.body, "x");
    assert SafeNegation(GUARD.body, 1);
  }

  lemma RulesAreOk()
    ensures RulesOk(RULES, ARITY)
  {
    FeedIsOk();
    GuardIsOk();
    hide BaseRuleOk;
  }

  lemma HeadsChained(sccs: seq<set<string>>)
    requires Members(sccs) == {"A", "B"}
    ensures Chained(sccs, RULES, "A", "B")
  {
    Rels();
    hide HeadRels;
    assert RULES[0] == FEED;
    forall s: set<string> | Uncut(sccs, RULES, s) && "A" in s ensures "B" in s {
      assert "A" in HeadRels(RULES[0]) * Members(sccs) && "B" in HeadRels(RULES[0]) * Members(sccs);
    }
  }

  lemma OnlyEdge(g: Graph, x: string, y: string)
    requires IsDepGraph(RULES, g) && Edge(g, x, y)
    ensures x == "A" && y == "B"
  {
    hide Edge;
    Rels();
    assert DependsOn(RULES, x, y);
    hide HeadRels, BodyRels, Idbs;
    var k :| 0 <= k < |RULES| && x in HeadRels(RULES[k]) && y in BodyRels(RULES[k]);
    assert RULES[0] == FEED && RULES[1] == GUARD;
  }

  lemma IsInOrder(g: Graph, sccs: seq<set<string>>)
    requires IsDepGraph(RULES, g) && Members(sccs) == g.Keys
    ensures OrderSurvives(g, sccs, RULES) && NegationApart(sccs, RULES)
  {
    hide Members;
    Rels();
    assert Members(sccs) == {"A", "B"};
    HeadsChained(sccs);
    hide HeadRels, BodyRels, NegRels, Idbs, Chained;
    assert RULES[0] == FEED && RULES[1] == GUARD;
    forall x, y | Edge(g, x, y) ensures x == "A" && y == "B" { OnlyEdge(g, x, y); }
    forall k, b | ReadsIn(RULES, k, b) && k == 0 ensures b !in Members(sccs) {
      assert b == "E" && "E"[0] != "A"[0] && "E"[0] != "B"[0];
    }
    forall j, k, x, y | NegatesHead(RULES, j, k, x, y) ensures k == 0 {}
  }

  // --- The rule is dropped ---

  lemma GuardIsDropped(sccs: seq<set<string>>)
    requires Members(sccs) == {"A", "B"}
    ensures !Running(sccs, RULES, GUARD, "A")
  {
    HeadsChained(sccs);
    Rels();
    hide Chained, BodyRels;
    assert LinkedTo(sccs, RULES, "A", "B") && "B" in BodyRels(GUARD);
    forall i | 0 <= i < |GUARD.body| && GUARD.body[i].Pos? ensures !LinkedTo(sccs, RULES, "A", GUARD.body[i].atom.rel) {
      assert i == 0;
    }
  }

  // --- What the other rule derives ---

  const DERIVED: Facts := iset{Fact("A", [1]), Fact("B", [2])}

  // The only facts of E and F are the given ones, and A(3) is not there.
  ghost predicate Lacks(db: Facts) {
    db <= FACTS + DERIVED
  }

  lemma FeedDerives(sem: Interp, db: Facts, neg: Facts, f: Fact)
    requires db <= FACTS + DERIVED + iset{Fact("A", [3])} && DerivesFrom(FEED, sem, db, neg, f)
    ensures f in DERIVED
  {
    hide Look;
    var env :| SatBody(FEED.body, sem, db, db, -1, neg, env) && IsHeadFact(FEED, env, f);
    assert SatClause(FEED.body[0], sem, View(db, db, -1, 0), neg, env);
    var row := Ground(FEED.body[0].atom, env);
    assert row == [Look(env, "x"), Look(env, "y")] && Fact("E", row) in db;
    assert row == [1, 2];
    assert Ground(FEED.heads[0], env) == [1] && Ground(FEED.heads[1], env) == [2];
  }

  lemma StratumLacks(s: Stratum, sem: Interp, full: Facts)
    requires Lacks(full) && forall r :: r in s.rules ==> r == FEED
    ensures Lacks(RunStratum(s, sem, full))
  {
    hide Lacks, DerivesFrom;
    if s.recursive {
      var db := full + DERIVED;
      forall k, f | 0 <= k < |s.rules| && DerivesFrom(s.rules[k], sem, db, full, f) ensures f in db {
        assert s.rules[k] in s.rules;
        LacksGrows(full);
        FeedDerives(sem, db, full, f);
      }
      ClosingStaysInside(s.rules, sem, full, full, db);
      LacksGrows(full);
      LacksLess(LeastClosed(s.rules, sem, full, full), db);
    } else {
      forall f | f in Immediate(s.rules, sem, full, full) ensures f in DERIVED {
        var k :| 0 <= k < |s.rules| && DerivesFrom(s.rules[k], sem, full, full, f);
        assert s.rules[k] in s.rules;
        LacksGrows(full);
        FeedDerives(sem, full, full, f);
      }
      LacksGrows(full);
      LacksLess(full + Immediate(s.rules, sem, full, full), full + DERIVED);
    }
  }

  lemma LacksGrows(db: Facts)
    requires Lacks(db)
    ensures Lacks(db + DERIVED) && db <= FACTS + DERIVED + iset{Fact("A", [3])}
    ensures db + DERIVED <= FACTS + DERIVED + iset{Fact("A", [3])}
  {}

  lemma LacksLess(a: Facts, b: Facts)
    requires a <= b && Lacks(b)
    ensures Lacks(a)
  {}

  lemma {:induction false} RunLacks(strata: seq<Stratum>, sem: Interp)
    requires forall i, r :: 0 <= i < |strata| && r in strata[i].rules ==> r == FEED
    ensures Lacks(Run(strata, sem, FACTS))
  {
    if |strata| > 0 {
      var init := strata[..|strata| - 1];
      hide RunStratum, Lacks;
      forall i, r | 0 <= i < |init| && r in init[i].rules ensures r == FEED { assert init[i] == strata[i]; }
      RunLacks(init, sem);
      StratumLacks(strata[|strata| - 1], sem, Run(init, sem, FACTS));
    }
  }

  // Only the first rule is left in what runs.
  lemma OnlyFeedRuns(g: Graph, sccs: seq<set<string>>, strata: seq<Stratum>)
    requires IsStratification(RULES, g, sccs, strata)
    ensures forall i, r :: 0 <= i < |strata| && r in RunRules(strata[i]) ==> r == FEED
  {
    hide IsStratification, RunRules;
    GuardNeverRuns(g, sccs, strata);
    hide *;
    forall i, r | 0 <= i < |strata| && r in RunRules(strata[i]) ensures r == FEED {
      RunRulesListed(strata[i]);
      StratumRule(RULES, g, sccs, strata, i, r);
      assert r == RULES[0] || r == RULES[1];
      RunRuleRuns(strata, i, r);
    }
  }

  lemma MembersAre(g: Graph, sccs: seq<set<string>>, strata: seq<Stratum>)
    requires IsStratification(RULES, g, sccs, strata)
    ensures Members(sccs) == {"A", "B"}
  {
    Rels();
    hide Idbs, Fused, MergedFrom;
  }

  lemma GuardIsRule()
    ensures GUARD in RULES && "A" in HeadRels(GUARD)
  {
    Rels();
    assert RULES[1] == GUARD;
  }

  lemma GuardNeverRuns(g: Graph, sccs: seq<set<string>>, strata: seq<Stratum>)
    requires IsStratification(RULES, g, sccs, strata)
    ensures !InSome(strata, GUARD, true)
  {
    hide *;
    GuardIsRule();
    MembersAre(g, sccs, strata);
    GuardIsDropped(sccs);
    RunsIff(RULES, g, sccs, strata, GUARD, "A");
  }

  lemma RunRuleRuns(strata: seq<Stratum>, i: nat, r: Rule)
    requires i < |strata| && r in RunRules(strata[i])
    ensures InSome(strata, r, true)
  {
    RunRulesListed(strata[i]);
    if strata[i].recursive { LoopingListed(strata[i].rules, strata[i].members, r); }
    assert HasIn(strata[i], r, true);
  }

  // --- The stable model has the fact ---

  lemma BIsOnlyTwo(sem: Interp, m: Facts)
    requires IsStable(RULES, sem, FACTS, m)
    ensures Fact("B", [3]) !in m
  {
    hide DerivesFrom, LeastClosed, ClosedUnder;
    var db := FACTS + DERIVED + iset{Fact("A", [3])};
    forall k, f | 0 <= k < |RULES| && DerivesFrom(RULES[k], sem, db, m, f) ensures f in db {
      if k == 0 { FeedDerives(sem, db, m, f); } else { GuardDerives(sem, db, m, f); }
    }
    ClosingStaysInside(RULES, sem, FACTS, m, db);
    assert "B" != "A" && "B" != "E" && "B" != "F";
  }

  lemma GuardDerives(sem: Interp, db: Facts, neg: Facts, f: Fact)
    requires db <= FACTS + DERIVED + iset{Fact("A", [3])} && DerivesFrom(GUARD, sem, db, neg, f)
    ensures f == Fact("A", [3])
  {
    var env :| SatBody(GUARD.body, sem, db, db, -1, neg, env) && IsHeadFact(GUARD, env, f);
    assert SatClause(GUARD.body[0], sem, View(db, db, -1, 0), neg, env);
    var row := Ground(GUARD.body[0].atom, env);
    assert row == [Look(env, "x")] && Fact("F", row) in db;
    assert row == [3];
    assert Ground(GUARD.heads[0], env) == [3];
  }

  lemma ModelHasFact(sem: Interp, m: Facts)
    requires IsStable(RULES, sem, FACTS, m)
    ensures Fact("A", [3]) in m
  {
    hide LeastClosed, ClosedUnder;
    BIsOnlyTwo(sem, m);
    LeastClosedIsClosed(RULES, sem, FACTS, m);
    var env: Env := map["x" := 3];
    assert Ground(Atom("F", [X]), env) == [3] && Ground(Atom("A", [X]), env) == [3];
    forall row | Matches(Atom("B", [X]), row, env) ensures row == [3] {}
    assert SatClause(GUARD.body[0], sem, m, m, env) && SatClause(GUARD.body[1], sem, m, m, env);
    assert SatBody(GUARD.body, sem, m, m, -1, m, env)
        && IsHeadFact(GUARD, env, Fact(GUARD.heads[0].rel, Ground(GUARD.heads[0], env)));
    assert DerivesFrom(RULES[1], sem, m, m, Fact("A", [3]));
  }

  // --- The compiled program ---

  // Whatever the passes return, the strata are in order and running them gives the one stable model, which has A(3);
  // the compiled program ends without it.
  lemma CompiledProgramLosesFact(p: Passes, x: Machine, start: Freshness.World, w: Freshness.World, m: Facts)
    requires PassesRan(RULES, ARITY, p) && LeavesOut(p.blocks, x.run) && |x.run| == |ProgramSteps(p.units)|
    requires Starts(p.units, ARITY, start) && FactsOf(start.truth) == FACTS
    requires ProgramRuns(p.units, x, |p.units|, start, w)
    ensures StrataInOrder(RULES, p) && (IsStable(RULES, x.sem, FACTS, m) <==> m == Run(p.strata, x.sem, FACTS))
    ensures Fact("A", [3]) in Run(p.strata, x.sem, FACTS) && Fact("A", [3]) !in StoredFacts(w.db)
  {
    hide *;
    Stratified(p);
    RulesAreOk();
    RanMeans(RULES, ARITY, p);
    StratifiedIff(RULES, p.g, p.sccs, p.strata);
    InOrderMeans(p);
    ModelHasFact(x.sem, Run(p.strata, x.sem, FACTS));
    CompiledProgramStores(RULES, ARITY, p, x, start, w);
    OnlyFeedRuns(p.g, p.sccs, p.strata);
    LoopedRules(p.strata);
    RunLacks(AllLooped(p.strata), x.sem);
    LacksA3(Run(AllLooped(p.strata), x.sem, FACTS));
  }

  lemma Stratified(p: Passes)
    requires PassesRan(RULES, ARITY, p)
    ensures StrataInOrder(RULES, p)
  {
    hide IsDepGraph, OrderSurvives, NegationApart, UnitsOk, DraftsFor;
    IsInOrder(p.g, p.sccs);
  }

  lemma InOrderMeans(p: Passes)
    requires StrataInOrder(RULES, p)
    ensures OrderSurvives(p.g, p.sccs, RULES) && NegationApart(p.sccs, RULES)
  {}

  lemma LoopedRules(strata: seq<Stratum>)
    requires forall i, r :: 0 <= i < |strata| && r in RunRules(strata[i]) ==> r == FEED
    ensures forall i, r :: 0 <= i < |AllLooped(strata)| && r in AllLooped(strata)[i].rules ==> r == FEED
  {}

  lemma LacksA3(db: Facts)
    requires Lacks(db)
    ensures Fact("A", [3]) !in db
  {
    assert "A" != "E" && "A" != "F" && "A" != "B";
    assert [3] != [1] by { assert [3][0] != [1][0]; }
  }
}
