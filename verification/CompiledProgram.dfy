/** From plans to steps: index selection over the whole program, compiled loops and base strata, the emitted steps
    and their layout, and what one unit's plan does to the stored indexes. */
module CompiledProgram {
  import opened Datalog
  import opened Seqs
  import Names
  import opened Dependencies
  import opened StableModel
  import opened SemiNaive
  import opened ClauseOrder
  import opened Planner
  import opened Mir
  import opened Lowering
  import opened PipelineMeaning
  import opened Freshness
  import opened Variants
  import opened IndexSelection
  import opened Maintenance
  import opened LoweringTheorem

  // ========== Recursive stratum ==========

  // A recursive stratum as compiled: delta-variant pipelines and loop maintenance, iterated on stored indexes.
  // Iteration n holds exactly the state of the abstract semi-naive loop.

  // What lowering knows of a stratum: its rules, a plan per delta variant, its relations in sorted order, their
  // indexes.
  datatype Compiled = Compiled(rules: seq<Rule>, members: set<string>, order: seq<string>, plans: seq<Plan>,
                               required: map<string, seq<Cols>>, canonical: map<string, Cols>)

  function VariantsOf(c: Compiled): seq<Variant> {
    DeltaVariants(c.rules, c.members)
  }

  // The indexes of rel some variant reads as FULL.
  function FullNeeded(plans: seq<Plan>, rel: string): set<Cols> {
    if |plans| == 0 then {} else
      FullNeeded(plans[..|plans| - 1], rel) + FullRead(plans[|plans| - 1].access, rel)
  }

  // The indexes of rel some variant reads as either version; DELTA reads FULL on the first iteration.
  function AnyRead(plans: seq<Plan>, rel: string): set<Cols> {
    if |plans| == 0 then {} else
      AnyRead(plans[..|plans| - 1], rel) + VersionRead(plans[|plans| - 1].access, rel)
  }

  function VersionRead(patterns: seq<AccessPattern>, rel: string): set<Cols> {
    set p | p in patterns && p.rel == rel :: p.indexCols
  }

  lemma {:induction false} AnyReadListed(plans: seq<Plan>, rel: string, k: nat, p: AccessPattern)
    requires k < |plans| && p in plans[k].access && p.rel == rel
    ensures p.indexCols in AnyRead(plans, rel)
  {
    if k < |plans| - 1 { AnyReadListed(plans[..|plans| - 1], rel, k, p); }
  }

  function FullRead(patterns: seq<AccessPattern>, rel: string): set<Cols> {
    set p | p in patterns && p.rel == rel && p.version == FULL :: p.indexCols
  }

  function MaintenanceOf(c: Compiled, rel: string): seq<MaintOp> {
    if rel in c.required && rel in c.canonical then
      LoopMaintenance(rel, c.required[rel], c.canonical[rel], FullNeeded(c.plans, rel))
    else []
  }

  // --- Running it ---

  // On the first iteration DELTA reads FULL.
  ghost function ReadAt(db: Db, iter: nat): Reader {
    (rel: string, v: Version, cols: Cols) =>
      if rel !in db then iset{}
      else if v == DELTA && iter > 0 then At(db[rel].deltas, cols)
      else At(db[rel].fulls, cols)
  }

  ghost predicate Inserted(c: Compiled, sem: Interp, read: Reader, f: Fact) {
    var vs := VariantsOf(c);
    exists k :: 0 <= k < |vs| && k < |c.plans| && Emits(Pipeline(vs[k].rule, c.plans[k], c.canonical), sem, read, f)
  }

  // All variants' pipelines read the same state; what they insert waits in NEW.
  ghost function InsertAll(c: Compiled, sem: Interp, db: Db, iter: nat): Db {
    var read := ReadAt(db, iter);
    map rel | rel in db :: db[rel].(pending := db[rel].pending + iset row: Row | Inserted(c, sem, read, Fact(rel, row)))
  }

  ghost function MaintainAll(c: Compiled, rels: seq<string>, db: Db, skips: bool): Db {
    if |rels| == 0 then db else
      var before := MaintainAll(c, rels[..|rels| - 1], db, skips);
      var rel := rels[|rels| - 1];
      if rel in before then before[rel := Maintain(MaintenanceOf(c, rel), before[rel], skips)] else before
  }

  ghost function Rounds(c: Compiled, sem: Interp, db: Db, n: nat, skips: bool): Db {
    if n == 0 then db else
      var before := Rounds(c, sem, db, n - 1, skips);
      MaintainAll(c, c.order, InsertAll(c, sem, before, n - 1), skips)
  }

  // --- When it is well compiled ---

  ghost predicate TypedFacts(facts: Facts, arity: map<string, nat>) {
    forall f: Fact :: f in facts && f.rel in arity ==> |f.row| == arity[f.rel]
  }

  ghost predicate TypedAtom(a: Atom, arity: map<string, nat>) {
    a.rel in arity && |a.args| == arity[a.rel]
  }

  ghost predicate TypedRule(r: Rule, arity: map<string, nat>) {
    && (forall i :: 0 <= i < |r.body| && (r.body[i].Pos? || r.body[i].Neg?) ==> TypedAtom(r.body[i].atom, arity))
    && forall h :: 0 <= h < |r.heads| ==> TypedAtom(r.heads[h], arity)
  }

  ghost predicate GoodPattern(c: Compiled, p: AccessPattern) {
    p.rel in c.members ==>
      && p.rel in c.required && p.indexCols in c.required[p.rel]
      && (p.version == FULL ==> p.indexCols in FullNeeded(c.plans, p.rel))
  }

  ghost predicate GoodPlan(c: Compiled, v: Variant, plan: Plan) {
    && |v.versions| == |v.rule.body| && IsDefaultPlan(v, plan)
    && forall p :: p in plan.access ==> GoodPattern(c, p)
  }

  ghost predicate WellCompiled(c: Compiled, arity: map<string, nat>) {
    var vs := VariantsOf(c);
    && IsRecursiveStratum(c.rules, c.members)
    && (forall k ::
        0 <= k < |c.rules| ==> Lowerable(c.rules[k]) && TypedRule(c.rules[k], arity) && AllChecked(c.rules[k]))
    && |c.plans| == |vs| && (forall k :: 0 <= k < |vs| ==> GoodPlan(c, vs[k], c.plans[k]))
    && NoDup(c.order) && (forall rel :: rel in c.order <==> rel in c.members)
    && forall rel :: rel in c.members ==> rel in c.required && rel in c.canonical && c.canonical[rel] in c.required[rel]
  }

  // --- The state at the top of iteration n ---

  ghost predicate MemberState(c: Compiled, s: RelState, rel: string, loop: Loop, n: nat)
    requires rel in c.required && rel in c.canonical
  {
    && s.pending == iset{} && NewIndexesEmpty(s)
    && (forall i ::
        (n == 0 && i in AnyRead(c.plans, rel)) || i == c.canonical[rel]
        || (i in c.required[rel] && i in FullNeeded(c.plans, rel)) ==>
          At(s.fulls, i) == RowsIn(loop.full, rel))
    && (n > 0 ==> forall i :: i in c.required[rel] ==> At(s.deltas, i) == RowsIn(loop.delta, rel))
  }

  // The loop does not write what the pattern reads.
  ghost predicate ReadsBase(c: Compiled, k: nat, p: AccessPattern)
    requires k < |c.plans|
  {
    || (p in c.plans[k].access && p.rel !in c.members)
    || (p in c.plans[k].negations && p.rel !in Idbs(c.rules))
  }

  // Such patterns find their relation's base facts.
  ghost predicate OtherState(c: Compiled, db: Db, base: Facts) {
    forall k, p :: 0 <= k < |c.plans| && ReadsBase(c, k, p) ==>
      p.rel in db && At(db[p.rel].fulls, p.indexCols) == RowsIn(base, p.rel)
  }

  ghost predicate InState(c: Compiled, db: Db, base: Facts, loop: Loop, n: nat) {
    && (forall rel ::
        rel in c.members ==>
        rel in c.required && rel in c.canonical && rel in db && MemberState(c, db[rel], rel, loop, n))
    && OtherState(c, db, base)
  }

  // What the loop holds at iteration n.
  ghost predicate LoopOk(c: Compiled, base: Facts, loop: Loop, n: nat) {
    && (n == 0 ==> loop.delta == loop.full)
    && (n > 0 ==> OnlyMembers(loop.delta, c.members)) && base <= loop.full
    && forall f: Fact :: f.rel !in Idbs(c.rules) ==> (f in loop.full <==> f in base)
  }

  // A pattern on a relation that the loop writes reads DELTA or FULL of it, one on another relation reads its base
  // facts.
  lemma PatternIsFresh(c: Compiled, sem: Interp, db: Db, base: Facts, loop: Loop, n: nat, k: nat, p: AccessPattern)
    requires InState(c, db, base, loop, n) && LoopOk(c, base, loop, n)
    requires k < |c.plans| && (p in c.plans[k].access ==> GoodPattern(c, p))
    requires p !in c.plans[k].access ==> p in c.plans[k].negations && p.rel !in Idbs(c.rules)
    requires p.version == FULL || (p.version == DELTA && p.rel in c.members && p in c.plans[k].access)
    requires Idbs(c.rules) <= c.members
    ensures Fresh(p, ReadAt(db, n), loop.full, loop.delta)
  {
    var rows := ReadAt(db, n)(p.rel, p.version, p.indexCols);
    assert RowsOf(p, ReadAt(db, n)) == rows;
    if p in c.plans[k].access && p.rel in c.members {
      assert MemberState(c, db[p.rel], p.rel, loop, n);
      if p.version == DELTA { AnyReadListed(c.plans, p.rel, k, p); }
      assert rows == RowsIn(VersionFacts(p.version, loop.full, loop.delta), p.rel);
    } else {
      assert ReadsBase(c, k, p);
      assert rows == RowsIn(base, p.rel);
    }
  }

  lemma HeadsInside(c: Compiled, arity: map<string, nat>)
    requires WellCompiled(c, arity)
    ensures Idbs(c.rules) <= c.members
  {
    forall x | x in Idbs(c.rules) ensures x in c.members {
      var k, h :| 0 <= k < |c.rules| && 0 <= h < |c.rules[k].heads| && c.rules[k].heads[h].rel == x;
      assert x in HeadRels(c.rules[k]);
    }
  }

  // --- One round is one semi-naive step ---

  lemma VariantIs(c: Compiled, arity: map<string, nat>, k: nat) returns (r: nat, i: nat)
    requires WellCompiled(c, arity) && k < |VariantsOf(c)|
    ensures r < |c.rules| && i < |c.rules[r].body| && IsSccClause(c.rules[r], c.members, i)
    ensures VariantsOf(c)[k] == CreateDeltaVariant(c.rules[r], i)
    ensures Lowerable(c.rules[r]) && TypedRule(c.rules[r], arity) && AllChecked(c.rules[r])
  {
    hide CreateDeltaVariant, DeltaVariants, Lowerable, TypedRule, AllChecked;
    var v := VariantsOf(c)[k];
    DeltaVariantListed(c.rules, c.members, v);
    assert v in VariantsOf(c);
    r, i :| 0 <= r < |c.rules| && IsSccClause(c.rules[r], c.members, i) && v == CreateDeltaVariant(c.rules[r], i);
  }

  // Its DELTA pattern is on a component relation.
  lemma PatternVersion(c: Compiled, arity: map<string, nat>, k: nat, p: AccessPattern)
    requires WellCompiled(c, arity) && k < |VariantsOf(c)| && (p in c.plans[k].access || p in c.plans[k].negations)
    ensures p.version == FULL || (p.version == DELTA && p.rel in c.members && p in c.plans[k].access)
  {
    hide IsDefaultPlan;
    var r, i := VariantIs(c, arity, k);
    var v, plan := VariantsOf(c)[k], c.plans[k];
    assert GoodPlan(c, v, plan);
    hide WellCompiled, VariantsOf, Lowerable, TypedRule, AllChecked;
    if p in plan.access {
      AccessVersion(v, plan, p);
      assert v.versions[p.clauseIdx] == if p.clauseIdx == i then DELTA else FULL;
    } else {
      NegationVersion(v, plan, p);
    }
  }

  lemma AccessVersion(v: Variant, plan: Plan, p: AccessPattern)
    requires |v.versions| == |v.rule.body| && IsDefaultPlan(v, plan) && p in plan.access
    ensures p.clauseIdx < |v.rule.body| && v.rule.body[p.clauseIdx].Pos?
    ensures p.version == v.versions[p.clauseIdx] && p.rel == v.rule.body[p.clauseIdx].atom.rel
  {
    hide IsDefaultPlan, Pattern;
    PlanAccess(v, plan);
    assert IsAccess(p, v.rule.body, v.versions, plan.join, plan.varOrder);
    PatternShape(v.rule.body[p.clauseIdx], v.versions[p.clauseIdx], plan.join, plan.varOrder, p.clauseIdx);
  }

  lemma NegationVersion(v: Variant, plan: Plan, p: AccessPattern)
    requires |v.versions| == |v.rule.body| && IsDefaultPlan(v, plan) && p in plan.negations
    ensures p.version == FULL && p.rel in NegRels(v.rule)
  {
    hide Pattern, IsDefaultPlan;
    PlanNegations(v, plan);
    assert IsNegation(p, v.rule.body, plan.join, plan.varOrder);
    PatternShape(v.rule.body[p.clauseIdx], FULL, plan.join, plan.varOrder, p.clauseIdx);
  }

  lemma VariantIsFresh(c: Compiled, arity: map<string, nat>, sem: Interp, db: Db, base: Facts, loop: Loop, n: nat,
                       k: nat)
    requires WellCompiled(c, arity) && InState(c, db, base, loop, n) && LoopOk(c, base, loop, n) && k < |VariantsOf(c)|
    ensures AllFresh(c.plans[k], ReadAt(db, n), loop.full, loop.delta)
  {
    hide VariantsOf;
    assert GoodPlan(c, VariantsOf(c)[k], c.plans[k]);
    HeadsInside(c, arity);
    hide InState, WellCompiled, Fresh, LoopOk, IsDefaultPlan;
    forall p | p in c.plans[k].access || p in c.plans[k].negations
      ensures Fresh(p, ReadAt(db, n), loop.full, loop.delta) {
      PatternVersion(c, arity, k, p);
      assert |c.plans| == |VariantsOf(c)| by { PlansMatch(c, arity); }
      if p in c.plans[k].negations { NegationReads(c, arity, k, p); }
      PatternIsFresh(c, sem, db, base, loop, n, k, p);
    }
  }

  // A negated relation is not written by the loop.
  lemma NegationReads(c: Compiled, arity: map<string, nat>, k: nat, p: AccessPattern)
    requires WellCompiled(c, arity) && k < |VariantsOf(c)| && k < |c.plans| && p in c.plans[k].negations
    ensures p.rel !in Idbs(c.rules)
  {
    hide Lowerable, TypedRule, IsSccClause;
    var r, i := VariantIs(c, arity, k);
    assert GoodPlan(c, VariantsOf(c)[k], c.plans[k]);
    assert NegRels(c.rules[r]) !! Idbs(c.rules);
    hide WellCompiled, VariantsOf, IsDefaultPlan, Idbs, NegRels;
    NegationVersion(VariantsOf(c)[k], c.plans[k], p);
  }

  lemma PlansMatch(c: Compiled, arity: map<string, nat>)
    requires WellCompiled(c, arity)
    ensures |c.plans| == |VariantsOf(c)|
  {}

  lemma TypedIsWellTyped(r: Rule, arity: map<string, nat>, full: Facts, delta: Facts)
    requires TypedRule(r, arity) && TypedFacts(full, arity) && TypedFacts(delta, arity)
    ensures WellTyped(r.body, full, delta)
  {
    forall i | 0 <= i < |r.body| && (r.body[i].Pos? || r.body[i].Neg?)
      ensures RightArity(r.body[i].atom, full) && RightArity(r.body[i].atom, delta)
    {
      assert TypedAtom(r.body[i].atom, arity);
    }
  }

  lemma VariantEmits(c: Compiled, arity: map<string, nat>, sem: Interp, db: Db, base: Facts, loop: Loop, n: nat, k: nat,
                     f: Fact)
    requires WellCompiled(c, arity) && InState(c, db, base, loop, n) && LoopOk(c, base, loop, n) && k < |VariantsOf(c)|
    requires TypedFacts(loop.full, arity) && TypedFacts(loop.delta, arity) && k < |c.plans|
    ensures Emits(Pipeline(VariantsOf(c)[k].rule, c.plans[k], c.canonical), sem, ReadAt(db, n), f) <==>
            VariantDerives(VariantsOf(c)[k], sem, loop.full, loop.delta, f)
  {
    var v, plan := VariantsOf(c)[k], c.plans[k];
    assert GoodPlan(c, v, plan);
    var r, i := VariantIs(c, arity, k);
    VariantIsFresh(c, arity, sem, db, base, loop, n, k);
    hide InState, WellCompiled, LoopOk, IsDefaultPlan, AllFresh, Lowerable, Emits, Pipeline, VariantDerives;
    TypedIsWellTyped(v.rule, arity, loop.full, loop.delta);
    PipelineDerives(v, plan, c.canonical, sem, ReadAt(db, n), loop.full, loop.delta);
  }

  ghost predicate SomeVariantDerives(vs: seq<Variant>, sem: Interp, full: Facts, delta: Facts, f: Fact) {
    exists k :: 0 <= k < |vs| && VariantDerives(vs[k], sem, full, delta, f)
  }

  lemma StepIsSomeVariant(c: Compiled, sem: Interp, full: Facts, delta: Facts, f: Fact)
    ensures SomeVariantDerives(VariantsOf(c), sem, full, delta, f)
        <==> f in NewFacts(c.rules, c.members, sem, full, delta)
  {
    GeneratedVariantsDeriveTheStep(c.rules, c.members, sem, full, delta, f);
    hide VariantDerives, NewFacts, DeltaVariants;
    var vs := VariantsOf(c);
    assert vs == DeltaVariants(c.rules, c.members);
    if v :| v in vs && VariantDerives(v, sem, full, delta, f) {
      var k :| 0 <= k < |vs| && vs[k] == v;
    }
    if k :| 0 <= k < |vs| && VariantDerives(vs[k], sem, full, delta, f) {
      assert vs[k] in vs;
    }
  }

  // Together the pipelines insert exactly what the delta variants derive.
  lemma InsertedIsNew(c: Compiled, arity: map<string, nat>, sem: Interp, db: Db, base: Facts, loop: Loop, n: nat,
                      f: Fact)
    requires WellCompiled(c, arity) && InState(c, db, base, loop, n) && LoopOk(c, base, loop, n)
    requires TypedFacts(loop.full, arity) && TypedFacts(loop.delta, arity)
    ensures Inserted(c, sem, ReadAt(db, n), f) <==> f in NewFacts(c.rules, c.members, sem, loop.full, loop.delta)
  {
    PlansMatch(c, arity);
    StepIsSomeVariant(c, sem, loop.full, loop.delta, f);
    hide InState, WellCompiled, LoopOk, Emits, Pipeline, VariantDerives, NewFacts, VariantsOf, TypedFacts, ReadAt;
    var vs := VariantsOf(c);
    forall k | 0 <= k < |vs|
      ensures Emits(Pipeline(vs[k].rule, c.plans[k], c.canonical), sem, ReadAt(db, n), f)
          <==> VariantDerives(vs[k], sem, loop.full, loop.delta, f)
    {
      VariantEmits(c, arity, sem, db, base, loop, n, k, f);
    }
  }

  lemma {:induction false} MaintainAllMeaning(c: Compiled, rels: seq<string>, db: Db, skips: bool)
    requires NoDup(rels)
    ensures MaintainAll(c, rels, db, skips).Keys == db.Keys
    ensures forall rel :: rel in db ==>
      (MaintainAll(c, rels, db, skips)[rel] == if rel in rels then Maintain(MaintenanceOf(c, rel), db[rel], skips)
                                                 else db[rel])
  {
    hide Maintain, MaintenanceOf;
    if |rels| > 0 {
      var init, last := rels[..|rels| - 1], rels[|rels| - 1];
      MaintainAllMeaning(c, init, db, skips);
      assert last !in init && rels == init + [last];
    }
  }

  // The logical step, one relation at a time.
  lemma AdvanceRows(c: Compiled, sem: Interp, loop: Loop, rel: string)
    ensures var next := Advance(c.rules, c.members, sem, loop);
      var derived := RowsIn(NewFacts(c.rules, c.members, sem, loop.full, loop.delta), rel);
      && RowsIn(next.delta, rel) == derived - RowsIn(loop.full, rel)
      && RowsIn(next.full, rel) == RowsIn(loop.full, rel) + RowsIn(next.delta, rel)
  {}

  // One relation of the component through one round.
  lemma MemberRound(c: Compiled, s: RelState, rel: string, sem: Interp, loop: Loop, n: nat, skips: bool)
    requires rel in c.required && rel in c.canonical && c.canonical[rel] in c.required[rel]
    requires MemberState(c, s, rel, loop, n)
    ensures var derived := RowsIn(NewFacts(c.rules, c.members, sem, loop.full, loop.delta), rel);
      MemberState(c, Maintain(MaintenanceOf(c, rel), s.(pending := s.pending + derived), skips), rel,
                  Advance(c.rules, c.members, sem, loop), n + 1)
  {
    hide At;
    var derived := RowsIn(NewFacts(c.rules, c.members, sem, loop.full, loop.delta), rel);
    var s1 := s.(pending := s.pending + derived);
    var indices, canonical, needed := c.required[rel], c.canonical[rel], FullNeeded(c.plans, rel);
    LoopMaintenanceMeaning(rel, indices, canonical, needed, s1, skips);
    MaintainedAt(s1, Maintain(MaintenanceOf(c, rel), s1, skips), indices, canonical, needed);
    AdvanceRows(c, sem, loop, rel);
    hide Maintained, Maintain, LoopMaintenance, NewFacts, Advance, FullNeeded, RowsIn;
    assert s1.pending == derived && At(s1.fulls, canonical) == RowsIn(loop.full, rel);
  }

  lemma InsertAllMeaning(c: Compiled, arity: map<string, nat>, sem: Interp, db: Db, base: Facts, loop: Loop, n: nat)
    requires WellCompiled(c, arity) && InState(c, db, base, loop, n) && LoopOk(c, base, loop, n)
    requires TypedFacts(loop.full, arity) && TypedFacts(loop.delta, arity)
    ensures var db1 := InsertAll(c, sem, db, n); var facts := NewFacts(c.rules, c.members, sem, loop.full, loop.delta);
      db1.Keys == db.Keys && forall rel ::
          rel in db ==> db1[rel] == db[rel].(pending := db[rel].pending + RowsIn(facts, rel))
  {
    var facts := NewFacts(c.rules, c.members, sem, loop.full, loop.delta);
    forall f ensures Inserted(c, sem, ReadAt(db, n), f) <==> f in facts {
      InsertedIsNew(c, arity, sem, db, base, loop, n, f);
    }
    hide Inserted, NewFacts, ReadAt, WellCompiled, InState, LoopOk, TypedFacts;
  }

  lemma MembersListed(c: Compiled, arity: map<string, nat>)
    requires WellCompiled(c, arity)
    ensures NoDup(c.order) && forall rel :: rel in c.order <==> rel in c.members
    ensures forall rel ::
        rel in c.members ==> rel in c.required && rel in c.canonical && c.canonical[rel] in c.required[rel]
  {}

  // One iteration of the compiled stratum is one step of the abstract loop.
  lemma RoundAdvances(c: Compiled, arity: map<string, nat>, sem: Interp, db: Db, base: Facts, loop: Loop, n: nat,
                      skips: bool)
    requires WellCompiled(c, arity) && InState(c, db, base, loop, n) && LoopOk(c, base, loop, n)
    requires TypedFacts(loop.full, arity) && TypedFacts(loop.delta, arity)
    ensures InState(c, MaintainAll(c, c.order, InsertAll(c, sem, db, n), skips), base,
                    Advance(c.rules, c.members, sem, loop), n + 1)
  {
    hide WellCompiled, LoopOk, TypedFacts, InsertAll, NewFacts, Maintain, MaintenanceOf, MaintainAll, MemberState,
        NoDup, Advance, RowsIn, OtherState;
    MembersListed(c, arity);
    InsertAllMeaning(c, arity, sem, db, base, loop, n);
    var db1 := InsertAll(c, sem, db, n);
    MaintainAllMeaning(c, c.order, db1, skips);
    var db2 := MaintainAll(c, c.order, db1, skips);
    forall rel | rel in db && rel !in Idbs(c.rules) ensures SameRows(db[rel].fulls, db2[rel].fulls) {
      QuietRelation(c, arity, sem, db, base, loop, n, skips, rel);
    }
    HeadsInside(c, arity);
    OthersKept(c, db, db2, base);
    forall rel | rel in c.members
      ensures rel in c.required && rel in c.canonical && rel in db2
      ensures MemberState(c, db2[rel], rel, Advance(c.rules, c.members, sem, loop), n + 1)
    {
      MemberRound(c, db[rel], rel, sem, loop, n, skips);
    }
  }

  lemma OthersKept(c: Compiled, db: Db, db2: Db, base: Facts)
    requires OtherState(c, db, base) && db.Keys == db2.Keys && Idbs(c.rules) <= c.members
    requires forall rel :: rel in db && rel !in Idbs(c.rules) ==> SameRows(db[rel].fulls, db2[rel].fulls)
    ensures OtherState(c, db2, base)
  {
    hide Idbs;
    forall k, p | 0 <= k < |c.plans| && ReadsBase(c, k, p)
      ensures p.rel in db2 && At(db2[p.rel].fulls, p.indexCols) == RowsIn(base, p.rel) {
      assert p.rel in db && SameRows(db[p.rel].fulls, db2[p.rel].fulls);
    }
  }

  // New facts are of relations that the loop writes.
  lemma NewIsHead(c: Compiled, sem: Interp, loop: Loop, f: Fact)
    requires f in NewFacts(c.rules, c.members, sem, loop.full, loop.delta)
    ensures f.rel in Idbs(c.rules)
  {
    hide SatBody, IsSccClause, Ground;
    var k, i :| 0 <= k < |c.rules| && IsSccClause(c.rules[k], c.members, i)
        && Derives(c.rules[k], sem, loop.full, loop.delta, i, loop.full, f);
    var env :| SatBody(c.rules[k].body, sem, loop.full, loop.delta, i, loop.full, env)
        && IsHeadFact(c.rules[k], env, f);
    var h :| 0 <= h < |c.rules[k].heads| && f == Fact(c.rules[k].heads[h].rel, Ground(c.rules[k].heads[h], env));
  }

  lemma NewOnlyHeads(c: Compiled, arity: map<string, nat>, sem: Interp, loop: Loop)
    requires WellCompiled(c, arity)
    ensures forall rel ::
        rel !in Idbs(c.rules) || rel !in c.members ==>
        RowsIn(NewFacts(c.rules, c.members, sem, loop.full, loop.delta), rel) == iset{}
  {
    HeadsInside(c, arity);
    hide WellCompiled, NewFacts, Idbs;
    var facts := NewFacts(c.rules, c.members, sem, loop.full, loop.delta);
    forall f | f in facts ensures f.rel in Idbs(c.rules) { NewIsHead(c, sem, loop, f); }
  }

  lemma NothingTaken(s: RelState, t: RelState, indices: seq<Cols>, canonical: Cols, merged: set<Cols>)
    requires Maintained(s, t, indices, canonical, merged) && s.pending == iset{}
    ensures SameRows(s.fulls, t.fulls)
  {
    MaintainedAt(s, t, indices, canonical, merged);
    hide Maintained;
  }

  // A relation that the loop does not write keeps its rows, maintained or not.
  lemma QuietRelation(c: Compiled, arity: map<string, nat>, sem: Interp, db: Db, base: Facts, loop: Loop, n: nat,
                      skips: bool, rel: string)
    requires WellCompiled(c, arity) && InState(c, db, base, loop, n) && LoopOk(c, base, loop, n)
    requires TypedFacts(loop.full, arity) && TypedFacts(loop.delta, arity) && rel in db && rel !in Idbs(c.rules)
    ensures var after := MaintainAll(c, c.order, InsertAll(c, sem, db, n), skips);
    rel in after && SameRows(db[rel].fulls, after[rel].fulls)
  {
    var db1 := InsertAll(c, sem, db, n);
    hide *;
    InsertAllMeaning(c, arity, sem, db, base, loop, n);
    MembersListed(c, arity);
    MaintainAllMeaning(c, c.order, db1, skips);
    NewOnlyHeads(c, arity, sem, loop);
    if rel in c.members {
      StateOfMember(c, db, base, loop, n, rel);
      QuietMember(c, db[rel], rel, loop, n, skips);
      assert db1[rel] == db[rel].(pending := db[rel].pending + iset{});
    } else {
      SameFulls(db[rel], db1[rel]);
    }
  }

  lemma SameFulls(s: RelState, t: RelState)
    requires s.fulls == t.fulls
    ensures SameRows(s.fulls, t.fulls)
  {}

  lemma QuietMember(c: Compiled, s: RelState, rel: string, loop: Loop, n: nat, skips: bool)
    requires rel in c.required && rel in c.canonical && c.canonical[rel] in c.required[rel]
    requires MemberState(c, s, rel, loop, n)
    ensures SameRows(s.fulls, Maintain(MaintenanceOf(c, rel), s.(pending := s.pending + iset{}), skips).fulls)
  {
    assert s.(pending := s.pending + iset{}) == s;
    LoopMaintenanceMeaning(rel, c.required[rel], c.canonical[rel], FullNeeded(c.plans, rel), s, skips);
    hide Maintain, LoopMaintenance, FullNeeded, Maintained;
    NothingTaken(s, Maintain(MaintenanceOf(c, rel), s, skips), c.required[rel], c.canonical[rel],
                 FullNeeded(c.plans, rel));
  }

  lemma StateOfMember(c: Compiled, db: Db, base: Facts, loop: Loop, n: nat, rel: string)
    requires InState(c, db, base, loop, n) && rel in c.members
    ensures rel in c.required && rel in c.canonical && rel in db && MemberState(c, db[rel], rel, loop, n)
  {}

  // --- Whole runs ---

  lemma DerivedIsTyped(c: Compiled, arity: map<string, nat>, sem: Interp, loop: Loop, f: Fact)
    requires WellCompiled(c, arity) && f in NewFacts(c.rules, c.members, sem, loop.full, loop.delta) && f.rel in arity
    ensures |f.row| == arity[f.rel]
  {
    hide SatBody, IsSccClause;
    var k, i :| 0 <= k < |c.rules| && IsSccClause(c.rules[k], c.members, i)
        && Derives(c.rules[k], sem, loop.full, loop.delta, i, loop.full, f);
    var env :| SatBody(c.rules[k].body, sem, loop.full, loop.delta, i, loop.full, env)
        && IsHeadFact(c.rules[k], env, f);
    var h :| 0 <= h < |c.rules[k].heads| && f == Fact(c.rules[k].heads[h].rel, Ground(c.rules[k].heads[h], env));
    assert TypedRule(c.rules[k], arity) && TypedAtom(c.rules[k].heads[h], arity);
  }

  lemma {:induction false} IterateIsTyped(c: Compiled, arity: map<string, nat>, sem: Interp, base: Facts, n: nat)
    requires WellCompiled(c, arity) && TypedFacts(base, arity)
    ensures var loop := Iterate(c.rules, c.members, sem, base, n);
    TypedFacts(loop.full, arity) && TypedFacts(loop.delta, arity)
  {
    hide WellCompiled, NewFacts;
    if n > 0 {
      IterateIsTyped(c, arity, sem, base, n - 1);
      var loop := Iterate(c.rules, c.members, sem, base, n - 1);
      forall f: Fact | f in NewFacts(c.rules, c.members, sem, loop.full, loop.delta) && f.rel in arity
        ensures |f.row| == arity[f.rel] {
        DerivedIsTyped(c, arity, sem, loop, f);
      }
    }
  }

  lemma IterateIsOk(c: Compiled, arity: map<string, nat>, sem: Interp, base: Facts, n: nat)
    requires WellCompiled(c, arity)
    ensures LoopOk(c, base, Iterate(c.rules, c.members, sem, base, n), n)
  {
    assert IsRecursiveStratum(c.rules, c.members);
    hide WellCompiled, IsRecursiveStratum;
    SemiNaiveIsNaive(c.rules, c.members, sem, base, n);
    if n > 0 { hide Iterate; }
  }

  // At the top of every iteration the stored indexes hold the abstract loop's FULL and DELTA: each index a variant
  // reads agrees with the canonical one, whether or not CheckSize skips.
  lemma {:induction false} RoundsIterate(c: Compiled, arity: map<string, nat>, sem: Interp, db: Db, base: Facts, n: nat,
                                         skips: bool)
    requires WellCompiled(c, arity) && TypedFacts(base, arity) && InState(c, db, base, Loop(base, base), 0)
    ensures InState(c, Rounds(c, sem, db, n, skips), base, Iterate(c.rules, c.members, sem, base, n), n)
  {
    hide InsertAll, MaintainAll, TypedFacts;
    hide WellCompiled, InState, Advance;
    if n > 0 {
      RoundsIterate(c, arity, sem, db, base, n - 1, skips);
      IterateIsOk(c, arity, sem, base, n - 1);
      IterateIsTyped(c, arity, sem, base, n - 1);
      var before := Rounds(c, sem, db, n - 1, skips);
      RoundAdvances(c, arity, sem, before, base, Iterate(c.rules, c.members, sem, base, n - 1), n - 1, skips);
    }
  }

  // The test at the top of iteration n > 0: no relation's canonical DELTA holds a row.
  ghost predicate Stopped(c: Compiled, db: Db) {
    forall rel :: rel in c.members ==> rel in db && rel in c.canonical && At(db[rel].deltas, c.canonical[rel]) == iset{}
  }

  // The abstract loop is then at the least set.
  lemma StoppedAtLeast(c: Compiled, arity: map<string, nat>, sem: Interp, db: Db, base: Facts, n: nat, skips: bool)
    requires WellCompiled(c, arity) && TypedFacts(base, arity) && InState(c, db, base, Loop(base, base), 0)
    requires n > 0 && Stopped(c, Rounds(c, sem, db, n, skips))
    ensures Iterate(c.rules, c.members, sem, base, n).full == LeastClosed(c.rules, sem, base, base)
  {
    RoundsIterate(c, arity, sem, db, base, n, skips);
    IterateIsOk(c, arity, sem, base, n);
    MembersListed(c, arity);
    assert IsRecursiveStratum(c.rules, c.members);
    hide WellCompiled, IsRecursiveStratum, Rounds, Iterate, LeastClosed;
    var loop := Iterate(c.rules, c.members, sem, base, n);
    var t := Rounds(c, sem, db, n, skips);
    forall f: Fact | f.rel in c.members ensures f !in loop.delta {
      assert MemberState(c, t[f.rel], f.rel, loop, n);
      assert f.row in RowsIn(loop.delta, f.rel) <==> f in loop.delta;
    }
    StopsAtLeast(c.rules, c.members, sem, base, n);
  }

  // When the compiled loop stops, the canonical FULL indexes hold exactly the least model of the stratum above its
  // input.
  lemma CompiledStratumIsLeast(c: Compiled, arity: map<string, nat>, sem: Interp, db: Db, base: Facts, n: nat,
                               skips: bool)
    requires WellCompiled(c, arity) && TypedFacts(base, arity) && InState(c, db, base, Loop(base, base), 0)
    requires n > 0 && Stopped(c, Rounds(c, sem, db, n, skips))
    ensures forall rel :: rel in c.members ==>
      && rel in c.canonical && rel in Rounds(c, sem, db, n, skips)
      && At(Rounds(c, sem, db, n, skips)[rel].fulls, c.canonical[rel]) ==
          RowsIn(LeastClosed(c.rules, sem, base, base), rel)
  {
    hide WellCompiled, Rounds, Iterate, LeastClosed;
    RoundsIterate(c, arity, sem, db, base, n, skips);
    MembersListed(c, arity);
    StoppedAtLeast(c, arity, sem, db, base, n, skips);
    var loop, t := Iterate(c.rules, c.members, sem, base, n), Rounds(c, sem, db, n, skips);
    forall rel | rel in c.members
      ensures rel in t && rel in c.canonical && At(t[rel].fulls, c.canonical[rel]) == RowsIn(loop.full, rel) {
      assert MemberState(c, t[rel], rel, loop, n);
    }
  }

  // And it does stop, within one iteration more than there are derivable facts.
  lemma CompiledStratumStops(c: Compiled, arity: map<string, nat>, sem: Interp, db: Db, base: Facts,
                             universe: set<Fact>, skips: bool)
    requires WellCompiled(c, arity) && TypedFacts(base, arity) && InState(c, db, base, Loop(base, base), 0)
    requires forall f :: f in LeastClosed(c.rules, sem, base, base) ==> f in universe
    ensures exists n :: 0 < n <= |universe| + 1 && Stopped(c, Rounds(c, sem, db, n, skips))
  {
    hide Rounds, InState;
    assert IsRecursiveStratum(c.rules, c.members);
    LoopTerminates(c.rules, c.members, sem, base, universe);
    var n :| 0 < n <= |universe| + 1 && Iterate(c.rules, c.members, sem, base, n).delta == iset{};
    hide *;
    RoundsIterate(c, arity, sem, db, base, n, skips);
    NothingNewStops(c, arity, base, Rounds(c, sem, db, n, skips), Iterate(c.rules, c.members, sem, base, n), n);
  }

  lemma NothingNewStops(c: Compiled, arity: map<string, nat>, base: Facts, t: Db, loop: Loop, n: nat)
    requires WellCompiled(c, arity) && InState(c, t, base, loop, n) && n > 0 && loop.delta == iset{}
    ensures Stopped(c, t)
  {
    MembersListed(c, arity);
    hide WellCompiled;
    forall rel | rel in c.members
      ensures rel in t && rel in c.canonical && At(t[rel].deltas, c.canonical[rel]) == iset{} {
      assert MemberState(c, t[rel], rel, loop, n);
    }
  }

  // --- What the rounds leave alone ---

  lemma RoundLeaves(c: Compiled, arity: map<string, nat>, sem: Interp, db: Db, base: Facts, loop: Loop, n: nat,
                    skips: bool, rel: string)
    requires WellCompiled(c, arity) && InState(c, db, base, loop, n) && LoopOk(c, base, loop, n)
    requires TypedFacts(loop.full, arity) && TypedFacts(loop.delta, arity) && rel in db && rel !in c.members
    ensures MaintainAll(c, c.order, InsertAll(c, sem, db, n), skips).Keys == db.Keys
    ensures rel in MaintainAll(c, c.order, InsertAll(c, sem, db, n), skips)
    ensures MaintainAll(c, c.order, InsertAll(c, sem, db, n), skips)[rel] == db[rel]
  {
    hide *;
    InsertAllMeaning(c, arity, sem, db, base, loop, n);
    MembersListed(c, arity);
    MaintainAllMeaning(c, c.order, InsertAll(c, sem, db, n), skips);
    NewOnlyHeads(c, arity, sem, loop);
  }

  lemma RoundsUnfold(c: Compiled, sem: Interp, db: Db, n: nat, skips: bool)
    ensures Rounds(c, sem, db, 0, skips) == db
    ensures n > 0 ==>
        Rounds(c, sem, db, n, skips) == MaintainAll(c, c.order,
                                                    InsertAll(c, sem, Rounds(c, sem, db, n - 1, skips), n - 1), skips)
  {
    hide MaintainAll, InsertAll;
  }

  // A relation outside the component is not touched.
  lemma {:induction false} RoundsLeaveOthers(c: Compiled, arity: map<string, nat>, sem: Interp, db: Db, base: Facts,
                                             n: nat, skips: bool, rel: string)
    requires WellCompiled(c, arity) && TypedFacts(base, arity) && InState(c, db, base, Loop(base, base), 0)
    requires rel in db && rel !in c.members
    ensures Rounds(c, sem, db, n, skips).Keys == db.Keys && Rounds(c, sem, db, n, skips)[rel] == db[rel]
  {
    hide *;
    RoundsUnfold(c, sem, db, n, skips);
    if n > 0 {
      RoundsLeaveOthers(c, arity, sem, db, base, n - 1, skips, rel);
      RoundsIterate(c, arity, sem, db, base, n - 1, skips);
      IterateIsOk(c, arity, sem, base, n - 1);
      IterateIsTyped(c, arity, sem, base, n - 1);
      RoundLeaves(c, arity, sem, Rounds(c, sem, db, n - 1, skips), base, Iterate(c.rules, c.members, sem, base, n - 1),
                  n - 1, skips, rel);
    }
  }

  // ========== Emission ==========

  // `lower_hir_to_mir_steps`: one plan per stratum and the reconstruction of what it may have written; when the steps
  // it emits are laid out so that the rebuild pass keeps every read fresh.

  // A stratum after variants, plans and indexes were chosen.
  datatype Unit = Unit(recursive: bool, compiled: Compiled)

  function UnitVariants(u: Unit): seq<Variant> {
    if u.recursive then VariantsOf(u.compiled) else BaseVariants(u.compiled.rules)
  }

  function UnitPipelines(u: Unit): seq<seq<Op>>
    requires |u.compiled.plans| == |UnitVariants(u)|
  {
    var vs := UnitVariants(u);
    seq(|vs|, k requires 0 <= k < |vs| => Pipeline(vs[k].rule, u.compiled.plans[k], u.compiled.canonical))
  }

  // The heads of the variants' rules, in order of appearance.
  function HeadList(vs: seq<Variant>): seq<string> {
    if |vs| == 0 then [] else HeadList(vs[..|vs| - 1]) + AtomRels(vs[|vs| - 1].rule.heads)
  }

  function AtomRels(heads: seq<Atom>): seq<string> {
    seq(|heads|, h requires 0 <= h < |heads| => heads[h].rel)
  }

  // First occurrences.
  function Firsts(s: seq<string>): (r: seq<string>)
    ensures NoDup(r) && forall x :: x in r <==> x in s
  {
    if |s| == 0 then [] else
      var r := Firsts(s[..|s| - 1]);
      if s[|s| - 1] in r then r else r + [s[|s| - 1]]
  }

  // A recursive stratum maintains its members once each; the others maintain a relation after every head that names it.
  function MaintainedRels(u: Unit): seq<string> {
    if u.recursive then u.compiled.order else HeadList(UnitVariants(u))
  }

  function ReconstructedRels(u: Unit): seq<string> {
    if u.recursive then u.compiled.order else Firsts(HeadList(UnitVariants(u)))
  }

  function UnitMaintenance(u: Unit, rel: string): seq<MaintOp> {
    var c := u.compiled;
    if rel in c.required && rel in c.canonical then
      if u.recursive then MaintenanceOf(c, rel) else SimpleMaintenance(rel, c.required[rel], c.canonical[rel])
    else []
  }

  function ToInstrs(ops: seq<MaintOp>): seq<Instr> {
    seq(|ops|, k requires 0 <= k < |ops| => Maint(ops[k]))
  }

  function MaintInstrs(u: Unit, rels: seq<string>): seq<Instr> {
    if |rels| == 0 then [] else MaintInstrs(u, rels[..|rels| - 1]) + ToInstrs(UnitMaintenance(u, rels[|rels| - 1]))
  }

  function PipelineInstrs(ps: seq<seq<Op>>): seq<Instr> {
    if |ps| > 1 then [Parallel(ps)] else if |ps| == 1 then [Execute(ps[0])] else []
  }

  function PlanInstrs(u: Unit): seq<Instr>
    requires |u.compiled.plans| == |UnitVariants(u)|
  {
    PipelineInstrs(UnitPipelines(u)) + MaintInstrs(u, MaintainedRels(u))
  }

  function Reconstructs(c: Compiled, rels: seq<string>): seq<Step> {
    if |rels| == 0 then [] else
      var last := rels[|rels| - 1];
      Reconstructs(c, rels[..|rels| - 1]) + if last in c.canonical then [PostReconstruct(last, c.canonical[last])]
                                              else []
  }

  function UnitSteps(u: Unit): seq<Step>
    requires |u.compiled.plans| == |UnitVariants(u)|
  {
    if PlanInstrs(u) == [] then [] else [FixpointPlan(PlanInstrs(u))] + Reconstructs(u.compiled, ReconstructedRels(u))
  }

  ghost predicate Planned(us: seq<Unit>) {
    forall k :: 0 <= k < |us| ==> |us[k].compiled.plans| == |UnitVariants(us[k])|
  }

  function ProgramSteps(us: seq<Unit>): seq<Step>
    requires Planned(us)
  {
    if |us| == 0 then [] else ProgramSteps(us[..|us| - 1]) + UnitSteps(us[|us| - 1])
  }

  // --- The pass ---

  method LowerMaintenance(u: Unit, rels: seq<string>) returns (ops: seq<Instr>)
    ensures ops == MaintInstrs(u, rels)
  {
    ops := [];
    for k := 0 to |rels|
      invariant ops == MaintInstrs(u, rels[..k])
    {
      assert rels[..k + 1][..k] == rels[..k];
      ops := ops + ToInstrs(UnitMaintenance(u, rels[k]));
    }
    assert rels[..|rels|] == rels;
  }

  method LowerPipelines(u: Unit) returns (ps: seq<seq<Op>>)
    requires |u.compiled.plans| == |UnitVariants(u)|
    ensures ps == UnitPipelines(u)
  {
    hide UnitVariants, Pipeline;
    var vs := UnitVariants(u);
    ps := [];
    for k := 0 to |vs|
      invariant ps == UnitPipelines(u)[..k]
    {
      var p := LowerVariantToPipeline(vs[k], u.compiled.plans[k], u.compiled.canonical);
      ps := ps + [p];
    }
  }

  // The relations the variants' rules write, each at its first appearance, and every head as it comes.
  method ModifiedRels(vs: seq<Variant>) returns (modified: seq<string>, all: seq<string>)
    ensures all == HeadList(vs) && modified == Firsts(HeadList(vs))
  {
    modified, all := [], [];
    for k := 0 to |vs|
      invariant all == HeadList(vs[..k]) && modified == Firsts(all)
    {
      assert vs[..k + 1][..k] == vs[..k];
      hide Firsts;
      modified, all := AddHeads(vs[k].rule.heads, modified, all);
    }
    assert vs[..|vs|] == vs;
  }

  method AddHeads(heads: seq<Atom>, modified0: seq<string>, all0: seq<string>)
    returns (modified: seq<string>, all: seq<string>)
    requires modified0 == Firsts(all0)
    ensures all == all0 + AtomRels(heads) && modified == Firsts(all)
  {
    modified, all := modified0, all0;
    for h := 0 to |heads|
      invariant all == all0 + AtomRels(heads)[..h] && modified == Firsts(all)
    {
      var rel := heads[h].rel;
      FirstsNext(all, rel);
      hide Firsts;
      if rel !in modified { modified := modified + [rel]; }
      all := all + [rel];
    }
  }

  lemma FirstsNext(s: seq<string>, x: string)
    ensures Firsts(s + [x]) == if x in Firsts(s) then Firsts(s) else Firsts(s) + [x]
  {
    assert (s + [x])[..|s|] == s;
  }

  method LowerReconstructs(c: Compiled, rels: seq<string>) returns (steps: seq<Step>)
    ensures steps == Reconstructs(c, rels)
  {
    steps := [];
    for k := 0 to |rels|
      invariant steps == Reconstructs(c, rels[..k])
    {
      assert rels[..k + 1][..k] == rels[..k];
      if rels[k] in c.canonical {
        steps := steps + [PostReconstruct(rels[k], c.canonical[rels[k]])];
      }
    }
    assert rels[..|rels|] == rels;
  }

  method LowerUnit(u: Unit) returns (steps: seq<Step>)
    requires |u.compiled.plans| == |UnitVariants(u)|
    ensures steps == UnitSteps(u)
  {
    var ps := LowerPipelines(u);
    var maintained, reconstructed := u.compiled.order, u.compiled.order;
    if !u.recursive {
      reconstructed, maintained := ModifiedRels(UnitVariants(u));
    }
    var ops: seq<Instr> := [];
    if |ps| > 1 {
      ops := [Parallel(ps)];
    } else if |ps| == 1 {
      ops := [Execute(ps[0])];
    }
    var maintenance := LowerMaintenance(u, maintained);
    ops := ops + maintenance;
    steps := [];
    if ops != [] {
      var after := LowerReconstructs(u.compiled, reconstructed);
      steps := [FixpointPlan(ops)] + after;
    }
  }

  method LowerHirToMirSteps(us: seq<Unit>) returns (out: seq<Step>)
    requires Planned(us)
    ensures out == ProgramSteps(us)
  {
    out := [];
    for k := 0 to |us|
      invariant out == ProgramSteps(us[..k])
    {
      assert us[..k + 1][..k] == us[..k];
      var steps := LowerUnit(us[k]);
      out := out + steps;
    }
    assert us[..|us|] == us;
  }

  // --- What a plan writes and merges ---

  // The relations it writes.
  function HeadSet(u: Unit): set<string> {
    set x | x in HeadList(UnitVariants(u))
  }

  // The indexes of rel it merges.
  function MergedOf(u: Unit, rel: string): set<Cols> {
    var c := u.compiled;
    if rel in MaintainedRels(u) && rel in c.required && rel in c.canonical then
      set i | i in c.required[rel] && (!u.recursive || i == c.canonical[rel] || i in FullNeeded(c.plans, rel))
    else {}
  }

  lemma {:induction false} MergedInAppend(a: seq<Instr>, b: seq<Instr>, rel: string)
    ensures MergedIn(a + b, rel) == MergedIn(a, rel) + MergedIn(b, rel)
    ensures WrittenIn(a + b) == WrittenIn(a) + WrittenIn(b)
  {
    if |b| == 0 {
      assert a + b == a;
    } else {
      var init, last := b[..|b| - 1], b[|b| - 1];
      assert (a + b)[..|a + b| - 1] == a + init;
      MergedInAppend(a, init, rel);
    }
  }

  function OpMerges(ops: seq<MaintOp>, rel: string): set<Cols> {
    set k | 0 <= k < |ops| && ops[k].MergeIndex? && ops[k].rel == rel :: ops[k].index
  }

  lemma {:induction false} MaintMerges(ops: seq<MaintOp>, rel: string)
    ensures MergedIn(ToInstrs(ops), rel) == OpMerges(ops, rel) && WrittenIn(ToInstrs(ops)) == {}
  {
    if |ops| > 0 {
      var init := ops[..|ops| - 1];
      MaintMerges(init, rel);
      assert ToInstrs(ops)[..|ops| - 1] == ToInstrs(init);
      forall c ensures c in OpMerges(ops, rel)
          <==> c in OpMerges(init, rel) || c in InstrMerges(Maint(ops[|ops| - 1]), rel) {
        if c in OpMerges(init, rel) {
          var k :| 0 <= k < |init| && init[k].MergeIndex? && init[k].rel == rel && init[k].index == c;
          assert ops[k] == init[k];
        }
      }
    }
  }

  lemma OpMergesAppend(a: seq<MaintOp>, b: seq<MaintOp>, rel: string)
    ensures OpMerges(a + b, rel) == OpMerges(a, rel) + OpMerges(b, rel)
  {
    forall c ensures c in OpMerges(a + b, rel) <==> c in OpMerges(a, rel) || c in OpMerges(b, rel) {
      if k :| 0 <= k < |a| && a[k].MergeIndex? && a[k].rel == rel && a[k].index == c { assert (a + b)[k] == a[k]; }
      if k :| 0 <= k < |b| && b[k].MergeIndex? && b[k].rel == rel && b[k].index == c {
        assert (a + b)[|a| + k] == b[k];
      }
    }
  }

  lemma {:induction false} IndexOpsMerge(own: string, indices: seq<Cols>, canonical: Cols, merged: set<Cols>,
                                         rel: string)
    ensures OpMerges(IndexOps(own, indices, canonical, merged), rel) ==
      if rel == own then set i | i in indices && (i == canonical || i in merged) else {}
  {
    if |indices| > 0 {
      var init, i := indices[..|indices| - 1], indices[|indices| - 1];
      IndexOpsMerge(own, init, canonical, merged, rel);
      var before := IndexOps(own, init, canonical, merged);
      var copy := if i != canonical then [RebuildIndexFromIndex(own, canonical, i)] else [];
      var merge := if i == canonical || i in merged then [MergeIndex(own, i)] else [];
      assert IndexOps(own, indices, canonical, merged) == before + (copy + merge);
      hide IndexOps, OpMerges;
      OpMergesAppend(before, copy + merge, rel);
      OpMergesAppend(copy, merge, rel);
      OneMerge(own, i, canonical, merged, rel);
      assert indices == init + [i];
    }
  }

  lemma OneMerge(own: string, i: Cols, canonical: Cols, merged: set<Cols>, rel: string)
    ensures OpMerges(if i != canonical then [RebuildIndexFromIndex(own, canonical, i)] else [], rel) == {}
    ensures OpMerges(if i == canonical || i in merged then [MergeIndex(own, i)] else [], rel) ==
      if rel == own && (i == canonical || i in merged) then {i} else {}
  {
    var m := [MergeIndex(own, i)];
    assert m[0].MergeIndex? && m[0].rel == own && m[0].index == i;
  }

  lemma MaintenanceMerges(u: Unit, own: string, rel: string)
    ensures OpMerges(UnitMaintenance(u, own), rel) == if rel == own
                                                        && rel in MaintainedRels(u) then MergedOf(u, rel)
                                                        else OpMerges(UnitMaintenance(u, own), rel)
    ensures rel != own ==> OpMerges(UnitMaintenance(u, own), rel) == {}
  {
    var c := u.compiled;
    if own in c.required && own in c.canonical {
      var indices, canonical := c.required[own], c.canonical[own];
      var merged := if u.recursive then FullNeeded(c.plans, own) else set i | i in indices;
      var tail := IndexOps(own, indices, canonical, merged);
      var head :=
          if u.recursive then [RebuildNew(own, canonical), ClearRelation(own, DELTA), CheckSize(own),
                               ComputeDeltaIndex(own, canonical), ClearRelation(own, NEW)]
                  else [RebuildNew(own, canonical), CheckSize(own), ComputeDeltaIndex(own, canonical),
                        ClearRelation(own, NEW)];
      assert UnitMaintenance(u, own) == head + tail;
      assert OpMerges(head, rel) == {};
      hide IndexOps, OpMerges, UnitMaintenance, FullNeeded;
      OpMergesAppend(head, tail, rel);
      IndexOpsMerge(own, indices, canonical, merged, rel);
    }
  }

  lemma {:induction false} MaintInstrsMerge(u: Unit, rels: seq<string>, rel: string)
    requires forall x :: x in rels ==> x in MaintainedRels(u)
    ensures MergedIn(MaintInstrs(u, rels), rel) == (if rel in rels then MergedOf(u, rel) else {})
    ensures WrittenIn(MaintInstrs(u, rels)) == {}
  {
    hide UnitMaintenance, MergedOf, OpMerges, MaintainedRels;
    if |rels| > 0 {
      var init, last := rels[..|rels| - 1], rels[|rels| - 1];
      MaintInstrsMerge(u, init, rel);
      MergedInAppend(MaintInstrs(u, init), ToInstrs(UnitMaintenance(u, last)), rel);
      MaintMerges(UnitMaintenance(u, last), rel);
      MaintenanceMerges(u, last, rel);
      assert rels == init + [last];
    }
  }

  lemma PipelineWritesHeads(rule: Rule, plan: Plan, canonical: map<string, seq<nat>>)
    ensures OpsWrite(Pipeline(rule, plan, canonical)) == HeadRels(rule)
  {
    NoInsertInBody(rule, plan);
    var ops, front, inserts := Pipeline(rule, plan, canonical), BodyOps(rule, plan), Inserts(rule.heads, canonical);
    assert ops == front + inserts;
    hide Pipeline, BodyOps;
    forall x ensures x in OpsWrite(ops) <==> x in HeadRels(rule) {
      if k :| 0 <= k < |ops| && ops[k].InsertInto? && ops[k].rel == x {
        assert k >= |front| && ops[k] == inserts[k - |front|];
      }
      if h :| 0 <= h < |rule.heads| && rule.heads[h].rel == x {
        assert ops[|front| + h] == inserts[h];
      }
    }
  }

  lemma {:induction false} HeadListIs(vs: seq<Variant>, x: string)
    ensures x in HeadList(vs) <==> exists k :: 0 <= k < |vs| && x in HeadRels(vs[k].rule)
  {
    if |vs| > 0 {
      var init, last := vs[..|vs| - 1], vs[|vs| - 1];
      HeadListIs(init, x);
      AtomRelsAre(last.rule, x);
      hide HeadRels;
      if k :| 0 <= k < |vs| && x in HeadRels(vs[k].rule) {
        if k < |init| { assert init[k] == vs[k]; }
      }
      if k :| 0 <= k < |init| && x in HeadRels(init[k].rule) { assert vs[k] == init[k]; }
    }
  }

  lemma AtomRelsAre(r: Rule, x: string)
    ensures x in AtomRels(r.heads) <==> x in HeadRels(r)
  {
    if x in HeadRels(r) {
      var h :| 0 <= h < |r.heads| && r.heads[h].rel == x;
      assert AtomRels(r.heads)[h] == x;
    }
  }

  lemma {:induction false} AllWriteIs(ps: seq<seq<Op>>, x: string)
    ensures x in AllWrite(ps) <==> exists k :: 0 <= k < |ps| && x in OpsWrite(ps[k])
  {
    hide OpsWrite;
    if |ps| > 0 {
      var init := ps[..|ps| - 1];
      AllWriteIs(init, x);
      if k :| 0 <= k < |init| && x in OpsWrite(init[k]) { assert ps[k] == init[k]; }
      if k :| 0 <= k < |ps| && x in OpsWrite(ps[k]) {
        if k < |init| { assert init[k] == ps[k]; }
      }
    }
  }

  lemma PipelineInstrsWrite(ps: seq<seq<Op>>, rel: string)
    ensures WrittenIn(PipelineInstrs(ps)) == AllWrite(ps) && MergedIn(PipelineInstrs(ps), rel) == {}
  {
    var instrs := PipelineInstrs(ps);
    assert WrittenIn([]) == {} && MergedIn([], rel) == {};
    if |instrs| > 0 {
      assert instrs[..0] == [];
      assert WrittenIn(instrs) == {} + AllWrite(PipelinesOf(instrs[0]));
      assert MergedIn(instrs, rel) == {} + InstrMerges(instrs[0], rel);
      if |ps| == 1 { assert ps == [ps[0]]; }
    } else {
      assert ps == [];
    }
  }

  // The plan writes the heads of its variants' rules and merges what their maintenance does.
  lemma PlanWritesAndMerges(u: Unit, rel: string)
    requires |u.compiled.plans| == |UnitVariants(u)|
    ensures Writes(FixpointPlan(PlanInstrs(u))) == HeadSet(u)
    ensures MergedBy(FixpointPlan(PlanInstrs(u)), rel) == MergedOf(u, rel)
  {
    hide *;
    StepOfPlan(u, rel);
    MergedInAppend(PipelineInstrs(UnitPipelines(u)), MaintInstrs(u, MaintainedRels(u)), rel);
    PipelineInstrsWrite(UnitPipelines(u), rel);
    MaintInstrsMerge(u, MaintainedRels(u), rel);
    PipelinesWriteHeads(u);
    NotMaintained(u, rel);
  }

  lemma StepOfPlan(u: Unit, rel: string)
    requires |u.compiled.plans| == |UnitVariants(u)|
    ensures PlanInstrs(u) == PipelineInstrs(UnitPipelines(u)) + MaintInstrs(u, MaintainedRels(u))
    ensures Writes(FixpointPlan(PlanInstrs(u))) == WrittenIn(PlanInstrs(u))
    ensures MergedBy(FixpointPlan(PlanInstrs(u)), rel) == MergedIn(PlanInstrs(u), rel)
  {}

  lemma PipelinesWriteHeads(u: Unit)
    requires |u.compiled.plans| == |UnitVariants(u)|
    ensures AllWrite(UnitPipelines(u)) == HeadSet(u)
  {
    var ps, vs := UnitPipelines(u), UnitVariants(u);
    hide UnitVariants, HeadList, HeadRels, OpsWrite, AllWrite, Pipeline;
    forall k | 0 <= k < |vs| ensures OpsWrite(ps[k]) == HeadRels(vs[k].rule) {
      PipelineWritesHeads(vs[k].rule, u.compiled.plans[k], u.compiled.canonical);
    }
    forall x ensures x in AllWrite(ps) <==> x in HeadSet(u) {
      AllWriteIs(ps, x);
      HeadListIs(vs, x);
    }
  }

  lemma NotMaintained(u: Unit, rel: string)
    ensures rel !in MaintainedRels(u) ==> MergedOf(u, rel) == {}
  {}

  // ========== Base stratum ==========

  // A stratum outside any loop, as compiled: every rule's pipeline once, then maintenance of each head.

  // --- Running it ---

  ghost predicate BaseInserted(c: Compiled, sem: Interp, read: Reader, f: Fact) {
    exists k ::
        0 <= k < |c.rules| && k < |c.plans| && Emits(Pipeline(c.rules[k], c.plans[k], c.canonical), sem, read, f)
  }

  ghost function InsertBase(c: Compiled, sem: Interp, db: Db): Db {
    map rel | rel in db ::
        db[rel].(pending := db[rel].pending + iset row: Row | BaseInserted(c, sem, ReadAt(db, 0), Fact(rel, row)))
  }

  ghost function MaintainUnit(u: Unit, rels: seq<string>, db: Db, skips: bool): Db {
    if |rels| == 0 then db else
      var before := MaintainUnit(u, rels[..|rels| - 1], db, skips);
      var rel := rels[|rels| - 1];
      if rel in before then before[rel := Maintain(UnitMaintenance(u, rel), before[rel], skips)] else before
  }

  ghost function BaseRun(u: Unit, sem: Interp, db: Db, skips: bool): Db {
    MaintainUnit(u, MaintainedRels(u), InsertBase(u.compiled, sem, db), skips)
  }

  // --- When it is well compiled ---

  ghost predicate BasePlanned(c: Compiled, k: nat)
    requires k < |c.rules| && k < |c.plans|
  {
    var v := CreateBaseVariant(c.rules[k]);
    |v.versions| == |v.rule.body| && IsDefaultPlan(v, c.plans[k])
  }

  ghost predicate BaseRuleOk(r: Rule, arity: map<string, nat>) {
    Lowerable(r) && TypedRule(r, arity) && AllChecked(r)
  }

  ghost predicate WellCompiledBase(c: Compiled, arity: map<string, nat>) {
    && |c.plans| == |c.rules|
    && (forall k :: 0 <= k < |c.rules| ==> BaseRuleOk(c.rules[k], arity) && BasePlanned(c, k))
    && forall rel ::
        rel in Idbs(c.rules) ==> rel in c.required && rel in c.canonical && c.canonical[rel] in c.required[rel]
  }

  // Every index its patterns read holds the given facts.
  ghost predicate BaseReads(c: Compiled, db: Db, stage: Facts) {
    forall k, p :: 0 <= k < |c.plans| && (p in c.plans[k].access || p in c.plans[k].negations) ==>
      p.rel in db && At(db[p.rel].fulls, p.indexCols) == RowsIn(stage, p.rel)
  }

  // --- What it inserts ---

  lemma BaseVersions(c: Compiled, k: nat, p: AccessPattern)
    requires k < |c.rules| && k < |c.plans| && BasePlanned(c, k)
    requires p in c.plans[k].access || p in c.plans[k].negations
    ensures p.version == FULL
  {
    var v := CreateBaseVariant(c.rules[k]);
    hide IsDefaultPlan;
    if p in c.plans[k].access {
      AccessVersion(v, c.plans[k], p);
    } else {
      NegationVersion(v, c.plans[k], p);
    }
  }

  lemma BaseIsFresh(c: Compiled, db: Db, stage: Facts, k: nat)
    requires k < |c.rules| && k < |c.plans| && BasePlanned(c, k) && BaseReads(c, db, stage)
    ensures AllFresh(c.plans[k], ReadAt(db, 0), stage, stage)
  {
    hide BasePlanned;
    forall p | p in c.plans[k].access || p in c.plans[k].negations
      ensures LoweringTheorem.Fresh(p, ReadAt(db, 0), stage, stage) {
      BaseVersions(c, k, p);
      assert At(db[p.rel].fulls, p.indexCols) == RowsIn(stage, p.rel);
    }
  }

  lemma BaseRuleInserts(c: Compiled, arity: map<string, nat>, sem: Interp, db: Db, stage: Facts, k: nat, f: Fact)
    requires WellCompiledBase(c, arity) && BaseReads(c, db, stage) && TypedFacts(stage, arity) && k < |c.rules|
    ensures k < |c.plans|
    ensures Emits(Pipeline(c.rules[k], c.plans[k], c.canonical), sem, ReadAt(db, 0), f)
        <==> DerivesFrom(c.rules[k], sem, stage, stage, f)
  {
    var r := c.rules[k];
    assert BaseRuleOk(r, arity) && BasePlanned(c, k);
    BaseIsFresh(c, db, stage, k);
    TypedIsWellTyped(r, arity, stage, stage);
    hide WellCompiledBase, BaseReads, Lowerable, TypedRule, AllChecked, IsDefaultPlan, Emits, Pipeline, AllFresh,
        WellTyped, DerivesFrom, TypedFacts;
    CheckedDerives(CreateBaseVariant(r), c.plans[k], c.canonical, sem, ReadAt(db, 0), stage, stage, f);
    BaseVariantDerives(r, sem, stage, stage, f);
  }

  // Together the pipelines insert exactly what one application of the rules derives.
  lemma BaseInsertedIs(c: Compiled, arity: map<string, nat>, sem: Interp, db: Db, stage: Facts, f: Fact)
    requires WellCompiledBase(c, arity) && BaseReads(c, db, stage) && TypedFacts(stage, arity)
    ensures BaseInserted(c, sem, ReadAt(db, 0), f) <==> f in Immediate(c.rules, sem, stage, stage)
  {
    assert |c.plans| == |c.rules|;
    hide WellCompiledBase, BaseReads, TypedFacts, Emits, Pipeline, DerivesFrom;
    forall k | 0 <= k < |c.rules|
      ensures Emits(Pipeline(c.rules[k], c.plans[k], c.canonical), sem, ReadAt(db, 0), f)
          <==> DerivesFrom(c.rules[k], sem, stage, stage, f)
    {
      BaseRuleInserts(c, arity, sem, db, stage, k, f);
    }
  }

  // --- What its maintenance does ---

  // What waited in s was taken in by every required index; nothing waits any more.
  ghost predicate TakenIn(s: RelState, t: RelState, required: seq<Cols>, canonical: Cols) {
    && NewIsEmpty(t) && t.base == s.base && t.interned == s.interned
    && forall i :: Takes(s, t, i, if i in required then s.pending - At(s.fulls, canonical) else iset{})
  }

  lemma MaintainOnce(s: RelState, rel: string, indices: seq<Cols>, canonical: Cols, skips: bool)
    requires NewIndexesEmpty(s) && canonical in indices
    ensures TakenIn(s, Maintain(SimpleMaintenance(rel, indices, canonical), s, skips), indices, canonical)
  {
    var t, all := Maintain(SimpleMaintenance(rel, indices, canonical), s, skips), set i | i in indices;
    SimpleMaintenanceMeaning(rel, indices, canonical, s, skips);
    hide Maintain, SimpleMaintenance, Takes, NewIsEmpty, At;
    var added := s.pending - At(s.fulls, canonical);
    forall i ensures Takes(s, t, i, if i in indices then added else iset{}) {
      assert Takes(s, t, i, Gain(i, indices, canonical, all, added));
    }
  }

  lemma MaintainAgain(s: RelState, m: RelState, rel: string, indices: seq<Cols>, canonical: Cols, skips: bool)
    requires TakenIn(s, m, indices, canonical) && canonical in indices
    ensures TakenIn(s, Maintain(SimpleMaintenance(rel, indices, canonical), m, skips), indices, canonical)
  {
    hide At;
    var t := Maintain(SimpleMaintenance(rel, indices, canonical), m, skips);
    assert NewIndexesEmpty(m) && m.pending == iset{};
    MaintainOnce(m, rel, indices, canonical, skips);
    hide Maintain, SimpleMaintenance, NewIsEmpty;
    var added := s.pending - At(s.fulls, canonical);
    forall i ensures Takes(s, t, i, if i in indices then added else iset{}) {
      assert Takes(s, m, i, if i in indices then added else iset{});
      assert Takes(m, t, i, if i in indices then m.pending - At(m.fulls, canonical) else iset{});
    }
  }

  // Each listed relation is maintained at least once; the others are left alone.
  lemma {:induction false} MaintainUnitMeaning(u: Unit, rels: seq<string>, db: Db, skips: bool)
    requires !u.recursive
    requires forall rel :: rel in rels && rel in db ==>
      rel in u.compiled.required && rel in u.compiled.canonical && u.compiled.canonical[rel] in u.compiled.required[rel]
          && NewIndexesEmpty(db[rel])
    ensures MaintainUnit(u, rels, db, skips).Keys == db.Keys
    ensures forall rel :: rel in db && rel !in rels ==> MaintainUnit(u, rels, db, skips)[rel] == db[rel]
    ensures forall rel :: rel in db && rel in rels ==>
      TakenIn(db[rel], MaintainUnit(u, rels, db, skips)[rel], u.compiled.required[rel], u.compiled.canonical[rel])
  {
    if |rels| > 0 {
      var init, last := rels[..|rels| - 1], rels[|rels| - 1];
      assert rels == init + [last];
      MaintainUnitMeaning(u, init, db, skips);
      var before := MaintainUnit(u, init, db, skips);
      hide Maintain, TakenIn, SimpleMaintenance, NewIndexesEmpty;
      if last in db {
        var indices, canonical := u.compiled.required[last], u.compiled.canonical[last];
        assert UnitMaintenance(u, last) == SimpleMaintenance(last, indices, canonical);
        if last in init {
          MaintainAgain(db[last], before[last], last, indices, canonical, skips);
        } else {
          MaintainOnce(db[last], last, indices, canonical, skips);
        }
      }
    }
  }

  // ========== Step layout ==========

  // When the steps that lowering emits are laid out so that the rebuild pass keeps every read fresh.

  // --- Steps in segments: a plan, then the reconstruction of distinct relations ---

  function Concat(segs: seq<seq<Freshness.Step>>): seq<Freshness.Step> {
    if |segs| == 0 then [] else Concat(segs[..|segs| - 1]) + segs[|segs| - 1]
  }

  // Where segment k starts.
  function StartOf(segs: seq<seq<Freshness.Step>>, k: nat): nat
    requires k <= |segs|
  {
    |Concat(segs[..k])|
  }

  lemma StartNext(segs: seq<seq<Freshness.Step>>, k: nat)
    requires k < |segs|
    ensures StartOf(segs, k + 1) == StartOf(segs, k) + |segs[k]| && Concat(segs[..k + 1]) == Concat(segs[..k]) + segs[k]
  {
    assert segs[..k + 1][..k] == segs[..k];
  }

  lemma {:induction false} ConcatStartsWith(segs: seq<seq<Freshness.Step>>, k: nat, n: nat)
    requires k <= n <= |segs|
    ensures StartOf(segs, k) <= StartOf(segs, n) && Concat(segs[..n])[..StartOf(segs, k)] == Concat(segs[..k])
  {
    if k < n {
      ConcatStartsWith(segs, k, n - 1);
      StartNext(segs, n - 1);
    }
  }

  // Step j of segment k.
  lemma StepOfSegment(segs: seq<seq<Freshness.Step>>, k: nat, j: nat)
    requires k < |segs| && j < |segs[k]|
    ensures StartOf(segs, k) + j < StartOf(segs, k + 1) <= |Concat(segs)|
    ensures Concat(segs)[StartOf(segs, k) + j] == segs[k][j]
  {
    StartNext(segs, k);
    ConcatStartsWith(segs, k + 1, |segs|);
    assert segs[..|segs|] == segs;
    assert Concat(segs)[..StartOf(segs, k + 1)][StartOf(segs, k) + j] == Concat(segs)[StartOf(segs, k) + j];
  }

  lemma {:induction false} SegmentAt(segs: seq<seq<Freshness.Step>>, n: nat, q: nat) returns (k: nat, j: nat)
    requires n <= |segs| && q < StartOf(segs, n)
    ensures k < n && j < |segs[k]| && q == StartOf(segs, k) + j
  {
    StartNext(segs, n - 1);
    if q < StartOf(segs, n - 1) {
      k, j := SegmentAt(segs, n - 1, q);
    } else {
      k, j := n - 1, q - StartOf(segs, n - 1);
    }
  }

  // A plan; then reconstructions of distinct relations, among them each the plan writes, from an index it merges.
  ghost predicate SegmentOk(seg: seq<Freshness.Step>) {
    && |seg| > 0 && seg[0].FixpointPlan? && (forall j :: 0 < j < |seg| ==> seg[j].PostReconstruct?)
    && (forall i, j :: 0 < i < j < |seg| ==> seg[i].rel != seg[j].rel)
    && forall rel :: rel in Writes(seg[0]) ==> exists j ::
        0 < j < |seg| && seg[j].rel == rel && seg[j].canonical in MergedBy(seg[0], rel)
  }

  ghost predicate SegmentsOk(segs: seq<seq<Freshness.Step>>) {
    forall k :: 0 <= k < |segs| ==> SegmentOk(segs[k])
  }

  // Plan k merges the index that a later segment reconstructs a relation from, if plan k writes the relation.
  ghost predicate KeptFor(seg: seq<Freshness.Step>, step: Freshness.Step)
    requires |seg| > 0
  {
    step.PostReconstruct? && step.rel in Writes(seg[0]) ==> step.canonical in MergedBy(seg[0], step.rel)
  }

  ghost predicate CanonicalsMerged(segs: seq<seq<Freshness.Step>>)
    requires SegmentsOk(segs)
  {
    forall k, w :: 0 <= k < w < |segs| ==> KeptForAll(segs[k], segs[w])
  }

  ghost predicate KeptForAll(seg: seq<Freshness.Step>, later: seq<Freshness.Step>)
    requires |seg| > 0
  {
    forall j :: 0 < j < |later| ==> KeptFor(seg, later[j])
  }

  // --- What is pending where ---

  // rel is reconstructed in the segment before step j.
  ghost predicate Redone(seg: seq<Freshness.Step>, j: nat, rel: string) {
    exists i :: 0 < i < j && i < |seg| && seg[i].PostReconstruct? && seg[i].rel == rel
  }

  lemma AfterPlan(steps: seq<Freshness.Step>, p: nat, rel: string)
    requires p < |steps| && steps[p].FixpointPlan? && !Pending(steps, p, rel)
    ensures Pending(steps, p + 1, rel) <==> rel in Writes(steps[p])
    ensures rel in Writes(steps[p]) ==> LastMerged(steps, p + 1, rel) == MergedBy(steps[p], rel)
  {}

  lemma AfterReconstruct(steps: seq<Freshness.Step>, p: nat, rel: string)
    requires p < |steps| && steps[p].PostReconstruct?
    ensures Pending(steps, p + 1, rel) <==> Pending(steps, p, rel) && steps[p].rel != rel
    ensures LastMerged(steps, p + 1, rel) == LastMerged(steps, p, rel)
  {}

  lemma RedoneNext(seg: seq<Freshness.Step>, j: nat, rel: string)
    requires 0 < j < |seg| && seg[j].PostReconstruct?
    ensures Redone(seg, j + 1, rel) <==> Redone(seg, j, rel) || seg[j].rel == rel
  {
    if Redone(seg, j, rel) {
      var i :| 0 < i < j && i < |seg| && seg[i].PostReconstruct? && seg[i].rel == rel;
      assert 0 < i < j + 1;
    }
  }

  // Inside a segment, what its plan wrote and was not reconstructed is pending, and its merges are the last ones.
  lemma {:induction false} InsideSegment(segs: seq<seq<Freshness.Step>>, k: nat, j: nat, rel: string)
    requires k < |segs| && SegmentOk(segs[k]) && 0 < j <= |segs[k]|
    requires StartOf(segs, k) <= |Concat(segs)| && !Pending(Concat(segs), StartOf(segs, k), rel)
    ensures StartOf(segs, k) + j <= |Concat(segs)|
    ensures Pending(Concat(segs), StartOf(segs, k) + j, rel) <==> rel in Writes(segs[k][0]) && !Redone(segs[k], j, rel)
    ensures rel in Writes(segs[k][0]) ==>
        LastMerged(Concat(segs), StartOf(segs, k) + j, rel) == MergedBy(segs[k][0], rel)
  {
    var steps, p := Concat(segs), StartOf(segs, k) + j - 1;
    StepOfSegment(segs, k, j - 1);
    hide StartOf, Concat, Pending, LastMerged, Writes, MergedBy;
    if j == 1 {
      AfterPlan(steps, p, rel);
      assert !Redone(segs[k], 1, rel);
    } else {
      InsideSegment(segs, k, j - 1, rel);
      AfterReconstruct(steps, p, rel);
      RedoneNext(segs[k], j - 1, rel);
    }
  }

  // Between segments nothing is pending.
  lemma {:induction false} NothingPending(segs: seq<seq<Freshness.Step>>, k: nat, rel: string)
    requires SegmentsOk(segs) && k <= |segs|
    ensures StartOf(segs, k) <= |Concat(segs)| && !Pending(Concat(segs), StartOf(segs, k), rel)
  {
    if k == 0 {
      assert segs[..0] == [];
    } else {
      NothingPending(segs, k - 1, rel);
      assert SegmentOk(segs[k - 1]);
      StartNext(segs, k - 1);
      hide StartOf, Concat, Pending, Writes, MergedBy;
      var n := |segs[k - 1]|;
      InsideSegment(segs, k - 1, n, rel);
      if rel in Writes(segs[k - 1][0]) {
        var j :| 0 < j < n && segs[k - 1][j].rel == rel && segs[k - 1][j].canonical in MergedBy(segs[k - 1][0], rel);
        assert Redone(segs[k - 1], n, rel);
      }
    }
  }

  lemma {:induction false} CanonsAre(steps: seq<Freshness.Step>, p: nat, rel: string, c: Cols)
    requires p <= |steps|
    ensures c in CanonsFrom(steps, p, rel) <==> exists q :: p <= q < |steps| && steps[q] == PostReconstruct(rel, c)
    decreases |steps| - p
  {
    if p < |steps| {
      CanonsAre(steps, p + 1, rel, c);
      if q :| p <= q < |steps| && steps[q] == PostReconstruct(rel, c) {
        if q > p { assert p + 1 <= q; }
      }
      if steps[p].PostReconstruct? && steps[p].rel == rel && c == steps[p].canonical {
        assert steps[p] == PostReconstruct(rel, c);
      }
    }
  }

  // A later reconstruction of a segment's relation lies in a later segment.
  lemma LaterSegment(segs: seq<seq<Freshness.Step>>, k: nat, j: nat, q: nat) returns (w: nat, i: nat)
    requires SegmentsOk(segs) && k < |segs| && 0 < j < |segs[k]| && StartOf(segs, k) + j < q < |Concat(segs)|
    requires segs[k][j].PostReconstruct? && Concat(segs)[q].PostReconstruct? && Concat(segs)[q].rel == segs[k][j].rel
    ensures k < w < |segs| && 0 < i < |segs[w]| && Concat(segs)[q] == segs[w][i]
  {
    hide Concat;
    assert segs[..|segs|] == segs;
    w, i := SegmentAt(segs, |segs|, q);
    StepOfSegment(segs, w, i);
    assert SegmentOk(segs[w]);
    if w < k {
      ConcatStartsWith(segs, w + 1, k);
      StartNext(segs, w);
    }
  }

  // --- Layout ---

  // A segment reconstructs what its plan writes, from an index the plan merges.
  lemma WhereRebuilt(seg: seq<Freshness.Step>, rel: string) returns (j: nat)
    requires SegmentOk(seg) && rel in Writes(seg[0])
    ensures 0 < j < |seg| && seg[j].PostReconstruct? && seg[j].rel == rel && seg[j].canonical in MergedBy(seg[0], rel)
  {
    hide Writes, MergedBy;
    j :| 0 < j < |seg| && seg[j].rel == rel && seg[j].canonical in MergedBy(seg[0], rel);
  }

  lemma OwnCanonical(seg: seq<Freshness.Step>, j: nat)
    requires SegmentOk(seg) && 0 < j < |seg| && seg[j].rel in Writes(seg[0])
    ensures seg[j].PostReconstruct? && seg[j].canonical in MergedBy(seg[0], seg[j].rel)
  {
    var i := WhereRebuilt(seg, seg[j].rel);
    assert i == j;
  }

  // The reconstruction at step j is pending when the plan before it writes its relation.
  lemma PendingInSegment(segs: seq<seq<Freshness.Step>>, k: nat, j: nat)
    requires SegmentsOk(segs) && k < |segs| && 0 < j < |segs[k]|
    ensures SegmentOk(segs[k]) && segs[k][j].PostReconstruct? && StartOf(segs, k) + j < |Concat(segs)|
    ensures Concat(segs)[StartOf(segs, k) + j] == segs[k][j]
    ensures Pending(Concat(segs), StartOf(segs, k) + j, segs[k][j].rel) <==> segs[k][j].rel in Writes(segs[k][0])
    ensures segs[k][j].rel in Writes(segs[k][0]) ==>
        LastMerged(Concat(segs), StartOf(segs, k) + j, segs[k][j].rel) == MergedBy(segs[k][0], segs[k][j].rel)
  {
    var rel := segs[k][j].rel;
    assert SegmentOk(segs[k]);
    hide SegmentsOk, StartOf, Concat, Pending, Writes, MergedBy, LastMerged;
    StepOfSegment(segs, k, j);
    NothingPending(segs, k, rel);
    InsideSegment(segs, k, j, rel);
    assert !Redone(segs[k], j, rel);
  }

  lemma {:induction false} SegmentReconstruct(segs: seq<seq<Freshness.Step>>, k: nat, j: nat)
    requires SegmentsOk(segs) && CanonicalsMerged(segs) && k < |segs| && 0 < j < |segs[k]|
    requires segs[k][j].PostReconstruct?
    requires StartOf(segs, k) + j < |Concat(segs)| && Pending(Concat(segs), StartOf(segs, k) + j, segs[k][j].rel)
    ensures var steps, p, rel := Concat(segs), StartOf(segs, k) + j, segs[k][j].rel;
      segs[k][j].canonical in LastMerged(steps, p, rel) && CanonsFrom(steps, p + 1, rel) <= LastMerged(steps, p, rel)
  {
    hide *;
    PendingInSegment(segs, k, j);
    OwnCanonical(segs[k], j);
    forall c | c in CanonsFrom(Concat(segs), StartOf(segs, k) + j + 1, segs[k][j].rel)
      ensures c in MergedBy(segs[k][0], segs[k][j].rel) {
      LaterCanon(segs, k, j, c);
    }
  }

  lemma KeptAt(segs: seq<seq<Freshness.Step>>, k: nat, w: nat, m: nat)
    requires SegmentsOk(segs) && CanonicalsMerged(segs) && k < w < |segs| && 0 < m < |segs[w]|
    ensures |segs[k]| > 0
    ensures (segs[w][m].PostReconstruct? && segs[w][m].rel in Writes(segs[k][0]) ==>
             segs[w][m].canonical in MergedBy(segs[k][0], segs[w][m].rel))
  {
    hide Writes, MergedBy;
    assert SegmentOk(segs[k]);
    assert KeptForAll(segs[k], segs[w]);
    assert KeptFor(segs[k], segs[w][m]);
  }

  lemma {:induction false} LaterCanon(segs: seq<seq<Freshness.Step>>, k: nat, j: nat, c: Cols)
    requires SegmentsOk(segs) && CanonicalsMerged(segs) && k < |segs| && 0 < j < |segs[k]|
    requires segs[k][j].PostReconstruct?
    requires StartOf(segs, k) + j < |Concat(segs)| && segs[k][j].rel in Writes(segs[k][0])
    requires c in CanonsFrom(Concat(segs), StartOf(segs, k) + j + 1, segs[k][j].rel)
    ensures c in MergedBy(segs[k][0], segs[k][j].rel)
  {
    hide *;
    var steps, p, rel := Concat(segs), StartOf(segs, k) + j, segs[k][j].rel;
    CanonsAre(steps, p + 1, rel, c);
    var q :| p + 1 <= q < |steps| && steps[q] == PostReconstruct(rel, c);
    var w, m := LaterSegment(segs, k, j, q);
    KeptAt(segs, k, w, m);
  }

  lemma SegmentsLaid(segs: seq<seq<Freshness.Step>>)
    requires SegmentsOk(segs) && CanonicalsMerged(segs)
    ensures Laid(Concat(segs))
  {
    var steps := Concat(segs);
    assert segs[..|segs|] == segs;
    hide Concat, Pending, CanonsFrom, LastMerged, CanonicalsMerged;
    forall p: nat | p < |steps|
      ensures !steps[p].Rebuild? && (steps[p].FixpointPlan? ==> forall rel :: !Pending(steps, p, rel))
      ensures steps[p].PostReconstruct? && Pending(steps, p, steps[p].rel) ==>
        steps[p].canonical in LastMerged(steps, p, steps[p].rel)
            && CanonsFrom(steps, p + 1, steps[p].rel) <= LastMerged(steps, p, steps[p].rel)
    {
      var k, j := SegmentAt(segs, |segs|, p);
      StepOfSegment(segs, k, j);
      assert SegmentOk(segs[k]);
      if j == 0 {
        forall rel ensures !Pending(steps, p, rel) { NothingPending(segs, k, rel); }
      } else if Pending(steps, p, steps[p].rel) {
        SegmentReconstruct(segs, k, j);
      }
    }
  }

  lemma LaidReconstruct(steps: seq<Freshness.Step>, p: nat, rel: string, c: Cols, q: nat)
    requires Laid(steps) && p < q < |steps| && steps[p].PostReconstruct? && steps[p].rel == rel
    requires Pending(steps, p, rel) && steps[q] == PostReconstruct(rel, c)
    ensures c in LastMerged(steps, p, rel)
  {
    hide Pending, LastMerged;
    CanonsAre(steps, p + 1, rel, c);
  }

  lemma {:induction false} KeptWhenLaid(segs: seq<seq<Freshness.Step>>, k: nat, w: nat, i: nat)
    requires SegmentsOk(segs) && Laid(Concat(segs)) && k < w < |segs| && 0 < i < |segs[w]|
    requires |segs[k]| > 0 && segs[w][i].PostReconstruct? && segs[w][i].rel in Writes(segs[k][0])
    ensures segs[w][i].canonical in MergedBy(segs[k][0], segs[w][i].rel)
  {
    hide Writes, Laid, MergedBy;
    var rel := segs[w][i].rel;
    assert SegmentOk(segs[k]);
    hide *;
    StepOfSegment(segs, w, i);
    ConcatStartsWith(segs, k + 1, w);
    var j := WhereRebuilt(segs[k], rel);
    StepOfSegment(segs, k, j);
    PendingInSegment(segs, k, j);
    LaidReconstruct(Concat(segs), StartOf(segs, k) + j, rel, segs[w][i].canonical, StartOf(segs, w) + i);
  }

  lemma KeptForWhen(segs: seq<seq<Freshness.Step>>, k: nat, w: nat, i: nat)
    requires SegmentsOk(segs) && Laid(Concat(segs)) && k < w < |segs| && 0 < i < |segs[w]|
    ensures |segs[k]| > 0 && KeptFor(segs[k], segs[w][i])
  {
    assert SegmentOk(segs[k]);
    hide Laid, Concat, SegmentsOk, SegmentOk, Writes, MergedBy;
    if segs[w][i].PostReconstruct? && segs[w][i].rel in Writes(segs[k][0]) { KeptWhenLaid(segs, k, w, i); }
  }

  lemma SegmentsLaidIff(segs: seq<seq<Freshness.Step>>)
    requires SegmentsOk(segs)
    ensures Laid(Concat(segs)) <==> CanonicalsMerged(segs)
  {
    if CanonicalsMerged(segs) { SegmentsLaid(segs); }
    if Laid(Concat(segs)) {
      hide Laid, Concat, KeptFor, SegmentOk;
      forall k, w | 0 <= k < w < |segs| ensures KeptForAll(segs[k], segs[w]) {
        forall j | 0 < j < |segs[w]| ensures KeptFor(segs[k], segs[w][j]) { KeptForWhen(segs, k, w, j); }
      }
    }
  }

  // --- The units' steps are such segments ---

  function Segments(us: seq<Unit>): (r: seq<seq<Freshness.Step>>)
    requires Planned(us)
    ensures |r| == |us|
  {
    seq(|us|, k requires 0 <= k < |us| => UnitSteps(us[k]))
  }

  lemma {:induction false} ProgramIsConcat(us: seq<Unit>)
    requires Planned(us)
    ensures ProgramSteps(us) == Concat(Segments(us))
  {
    hide UnitSteps;
    if |us| > 0 {
      var init := us[..|us| - 1];
      ProgramIsConcat(init);
      assert Segments(us)[..|us| - 1] == Segments(init);
    }
  }

  // The list's relations that have a canonical index, each from it, in order.
  lemma {:induction false} ReconstructsAre(c: Compiled, rels: seq<string>)
    requires NoDup(rels)
    ensures Reconstructing(c, rels, Reconstructs(c, rels))
  {
    if |rels| > 0 {
      var init, last := rels[..|rels| - 1], rels[|rels| - 1];
      assert rels == init + [last] && last !in init;
      ReconstructsAre(c, init);
      var before := Reconstructs(c, init);
      var more := if last in c.canonical then [PostReconstruct(last, c.canonical[last])] else [];
      assert Reconstructs(c, rels) == before + more;
      hide Reconstructs;
      assert forall k :: 0 <= k < |before| ==> FromList(c, init, before[k]) && FromList(c, rels, before[k]);
    }
  }

  ghost predicate Reconstructing(c: Compiled, rels: seq<string>, out: seq<Freshness.Step>) {
    && (forall k :: 0 <= k < |out| ==> FromList(c, rels, out[k]))
    && (forall a, b ::
        0 <= a < b < |out| ==> FromList(c, rels, out[a]) && FromList(c, rels, out[b]) && out[a].rel != out[b].rel)
    && forall rel :: rel in rels && rel in c.canonical ==> PostReconstruct(rel, c.canonical[rel]) in out
  }

  ghost predicate FromList(c: Compiled, rels: seq<string>, s: Freshness.Step) {
    s.PostReconstruct? && s.rel in rels && s.rel in c.canonical && s.canonical == c.canonical[s.rel]
  }

  // A unit that is lowered: it has a plan, and every relation it writes has a canonical index, which it merges.
  ghost predicate UnitOk(u: Unit) {
    && |u.compiled.plans| == |UnitVariants(u)| && PlanInstrs(u) != [] && NoDup(ReconstructedRels(u))
    && forall rel ::
        rel in HeadSet(u) ==>
        rel in ReconstructedRels(u) && rel in u.compiled.canonical && u.compiled.canonical[rel] in MergedOf(u, rel)
  }

  ghost predicate UnitsOk(us: seq<Unit>) {
    forall k :: 0 <= k < |us| ==> UnitOk(us[k])
  }

  lemma UnitsPlanned(us: seq<Unit>)
    requires UnitsOk(us)
    ensures Planned(us)
  {
    hide UnitVariants, PlanInstrs, ReconstructedRels, HeadSet, MergedOf;
  }

  lemma UnitIsSegment(u: Unit)
    requires UnitOk(u)
    ensures SegmentOk(UnitSteps(u)) && UnitSteps(u)[0] == FixpointPlan(PlanInstrs(u))
    ensures Writes(UnitSteps(u)[0]) == HeadSet(u) && forall rel :: MergedBy(UnitSteps(u)[0], rel) == MergedOf(u, rel)
    ensures forall j :: 0 < j < |UnitSteps(u)| ==> FromList(u.compiled, ReconstructedRels(u), UnitSteps(u)[j])
    ensures forall rel :: rel in ReconstructedRels(u) && rel in u.compiled.canonical ==>
      exists j :: 0 < j < |UnitSteps(u)| && UnitSteps(u)[j] == PostReconstruct(rel, u.compiled.canonical[rel])
  {
    hide *;
    UnitStepsAre(u);
    ReconstructsAre(u.compiled, ReconstructedRels(u));
    PlanWritesAndMerges(u, "");
    forall rel ensures MergedBy(UnitSteps(u)[0], rel) == MergedOf(u, rel) {
      PlanWritesAndMerges(u, rel);
    }
    SegmentFrom(u, UnitSteps(u), Reconstructs(u.compiled, ReconstructedRels(u)));
  }

  lemma UnitStepsAre(u: Unit)
    requires UnitOk(u)
    ensures |u.compiled.plans| == |UnitVariants(u)| && NoDup(ReconstructedRels(u))
    ensures |UnitSteps(u)| > 0 && UnitSteps(u)[0] == FixpointPlan(PlanInstrs(u))
    ensures UnitSteps(u)[1..] == Reconstructs(u.compiled, ReconstructedRels(u))
    ensures forall rel ::
        rel in HeadSet(u) ==>
        rel in ReconstructedRels(u) && rel in u.compiled.canonical && u.compiled.canonical[rel] in MergedOf(u, rel)
  {
    hide Reconstructs, PlanInstrs, ReconstructedRels, HeadSet, MergedOf, UnitVariants;
  }

  lemma SegmentFrom(u: Unit, seg: seq<Freshness.Step>, out: seq<Freshness.Step>)
    requires |seg| > 0 && seg[0].FixpointPlan? && seg[1..] == out
    requires Reconstructing(u.compiled, ReconstructedRels(u), out)
    requires Writes(seg[0]) == HeadSet(u) && forall rel :: MergedBy(seg[0], rel) == MergedOf(u, rel)
    requires forall rel ::
        rel in HeadSet(u) ==>
        rel in ReconstructedRels(u) && rel in u.compiled.canonical && u.compiled.canonical[rel] in MergedOf(u, rel)
    ensures SegmentOk(seg)
    ensures forall j :: 0 < j < |seg| ==> FromList(u.compiled, ReconstructedRels(u), seg[j])
    ensures forall rel :: rel in ReconstructedRels(u) && rel in u.compiled.canonical ==>
      exists j :: 0 < j < |seg| && seg[j] == PostReconstruct(rel, u.compiled.canonical[rel])
  {
    hide ReconstructedRels, HeadSet, MergedOf, Writes, MergedBy;
    assert forall j :: 0 < j < |seg| ==> seg[j] == out[j - 1];
    forall rel | rel in ReconstructedRels(u) && rel in u.compiled.canonical
      ensures exists j :: 0 < j < |seg| && seg[j] == PostReconstruct(rel, u.compiled.canonical[rel])
    {
      var i :| 0 <= i < |out| && out[i] == PostReconstruct(rel, u.compiled.canonical[rel]);
      assert seg[i + 1] == out[i];
    }
    forall rel | rel in Writes(seg[0])
      ensures exists j :: 0 < j < |seg| && seg[j].rel == rel && seg[j].canonical in MergedBy(seg[0], rel) {
      var j :| 0 < j < |seg| && seg[j] == PostReconstruct(rel, u.compiled.canonical[rel]);
    }
  }

  // A unit's plan merges the canonical index of every later reconstruction of what it writes.
  ghost predicate KeptBetween(u: Unit, w: Unit) {
    forall rel ::
        rel in HeadSet(u) && rel in ReconstructedRels(w) && rel in w.compiled.canonical ==>
        w.compiled.canonical[rel] in MergedOf(u, rel)
  }

  ghost predicate CanonicalKept(us: seq<Unit>) {
    forall k, w :: 0 <= k < w < |us| ==> KeptBetween(us[k], us[w])
  }

  lemma KeptBetweenIff(u: Unit, w: Unit)
    requires UnitOk(u) && UnitOk(w)
    ensures |UnitSteps(u)| > 0
    ensures KeptBetween(u, w) <==> KeptForAll(UnitSteps(u), UnitSteps(w))
  {
    UnitIsSegment(u);
    UnitIsSegment(w);
    hide UnitSteps, PlanInstrs, ReconstructedRels, HeadSet, MergedOf, UnitVariants, Writes, MergedBy, UnitOk, SegmentOk;
    if KeptForAll(UnitSteps(u), UnitSteps(w)) {
      forall rel | rel in HeadSet(u) && rel in ReconstructedRels(w) && rel in w.compiled.canonical
        ensures w.compiled.canonical[rel] in MergedOf(u, rel) {
        var j :| 0 < j < |UnitSteps(w)| && UnitSteps(w)[j] == PostReconstruct(rel, w.compiled.canonical[rel]);
        assert KeptFor(UnitSteps(u), UnitSteps(w)[j]);
      }
    }
  }

  // The emitted steps are laid out exactly when every plan merges the canonical index of each later reconstruction of
  // what it writes. A member without a rule in the loop, reconstructed though nothing wrote it, does no harm.
  lemma LaidIff(us: seq<Unit>)
    requires UnitsOk(us)
    ensures Planned(us) && (Laid(ProgramSteps(us)) <==> CanonicalKept(us))
  {
    UnitsPlanned(us);
    var segs := Segments(us);
    ProgramIsConcat(us);
    hide UnitSteps, Laid, KeptFor, ProgramSteps, UnitOk, SegmentOk, KeptBetween;
    forall k | 0 <= k < |segs| ensures SegmentOk(segs[k]) && |segs[k]| > 0 { SegmentIsOk(us, k); }
    SegmentsLaidIff(segs);
    MergedIffKept(us);
  }

  ghost predicate PairAgrees(us: seq<Unit>, segs: seq<seq<Freshness.Step>>, k: nat, w: nat)
    requires k < |us| == |segs| && w < |us|
  {
    |segs[k]| > 0 && (KeptBetween(us[k], us[w]) <==> KeptForAll(segs[k], segs[w]))
  }

  lemma PairOfUnits(us: seq<Unit>, k: nat, w: nat)
    requires UnitsOk(us) && Planned(us) && k < w < |us|
    ensures PairAgrees(us, Segments(us), k, w)
  {
    assert UnitOk(us[k]) && UnitOk(us[w]);
    hide UnitSteps, KeptForAll, UnitOk, KeptBetween, UnitVariants;
    KeptBetweenIff(us[k], us[w]);
  }

  lemma MergedIffKept(us: seq<Unit>)
    requires UnitsOk(us) && Planned(us) && SegmentsOk(Segments(us))
    ensures CanonicalsMerged(Segments(us)) <==> CanonicalKept(us)
  {
    hide *;
    forall k, w | 0 <= k < w < |us| ensures PairAgrees(us, Segments(us), k, w) { PairOfUnits(us, k, w); }
    PairsAgree(us, Segments(us));
  }

  lemma PairsAgree(us: seq<Unit>, segs: seq<seq<Freshness.Step>>)
    requires |us| == |segs| && SegmentsOk(segs) && forall k, w :: 0 <= k < w < |us| ==> PairAgrees(us, segs, k, w)
    ensures CanonicalsMerged(segs) <==> CanonicalKept(us)
  {
    hide KeptForAll, KeptBetween, SegmentOk;
    if CanonicalsMerged(segs) {
      forall k, w | 0 <= k < w < |us| ensures KeptBetween(us[k], us[w]) {
        assert PairAgrees(us, segs, k, w) && KeptForAll(segs[k], segs[w]);
      }
    }
    if CanonicalKept(us) {
      forall k, w | 0 <= k < w < |segs| ensures |segs[k]| > 0 && KeptForAll(segs[k], segs[w]) {
        assert PairAgrees(us, segs, k, w) && KeptBetween(us[k], us[w]);
      }
    }
  }

  lemma SegmentIsOk(us: seq<Unit>, k: nat)
    requires UnitsOk(us) && Planned(us) && k < |us|
    ensures SegmentOk(Segments(us)[k]) && |Segments(us)[k]| > 0
  {
    hide PlanInstrs;
    assert UnitOk(us[k]);
    UnitIsSegment(us[k]);
  }

  // ========== Compile ==========

  // From planned strata to compiled units: index selection over the whole program, and what it guarantees.

  // A stratum with its variants planned, before indexes are selected.
  datatype Draft = Draft(recursive: bool, rules: seq<Rule>, members: set<string>, plans: seq<Plan>)

  function DraftVariants(d: Draft): seq<Variant> {
    if d.recursive then DeltaVariants(d.rules, d.members) else BaseVariants(d.rules)
  }

  const ALL: set<Version> := {FULL, DELTA, NEW}

  // --- select_indices ---

  // The indexes of rel that any stratum reads.
  function GlobalReads(ds: seq<Draft>, rel: string): set<Cols> {
    if |ds| == 0 then {} else GlobalReads(ds[..|ds| - 1], rel) + ReadCols(ds[|ds| - 1].plans, rel, ALL)
  }

  // What the stratum itself reads: in a loop the delta reads come first, the full ones second.
  function FirstReads(d: Draft, rel: string): set<Cols> {
    ReadCols(d.plans, rel, if d.recursive then {DELTA} else ALL)
  }

  function SecondReads(d: Draft, rel: string): set<Cols> {
    if d.recursive then ReadCols(d.plans, rel, {FULL}) else {}
  }

  ghost predicate Lists(q: seq<Cols>, s: set<Cols>) {
    forall c :: c in q <==> c in s
  }

  // The indexes chosen for rel, the reads listed in some order.
  ghost predicate SelectedFrom(ds: seq<Draft>, d: Draft, rel: string, arity: nat, required: seq<Cols>, canonical: Cols,
                               first: seq<Cols>, second: seq<Cols>, global: seq<Cols>) {
    && Lists(first, FirstReads(d, rel)) && Lists(second, SecondReads(d, rel)) && Lists(global, GlobalReads(ds, rel))
    && required == Required(first, second, global, arity, [])
    && canonical == Canonical(required, arity, SecondReads(d, rel))
  }

  ghost predicate Selected(ds: seq<Draft>, d: Draft, rel: string, arity: nat, required: seq<Cols>, canonical: Cols) {
    exists first, second, global :: SelectedFrom(ds, d, rel, arity, required, canonical, first, second, global)
  }

  // The unit made of a draft, with indexes for each of its members.
  ghost predicate IsUnitOf(ds: seq<Draft>, d: Draft, arity: map<string, nat>, u: Unit) {
    var c := u.compiled;
    && u.recursive == d.recursive && c.rules == d.rules && c.members == d.members && c.plans == d.plans
    && c.order == Names.Sorted(d.members)
    && c.required.Keys == c.canonical.Keys == d.members
    && forall rel ::
        rel in d.members ==> rel in arity && Selected(ds, d, rel, arity[rel], c.required[rel], c.canonical[rel])
  }

  method ListCols(s: set<Cols>) returns (q: seq<Cols>)
    ensures Lists(q, s)
  {
    q := [];
    var rest := s;
    while rest != {}
      invariant rest <= s && forall c :: c in q <==> c in s && c !in rest
      decreases rest
    {
      var c :| c in rest;
      q, rest := q + [c], rest - {c};
    }
  }

  method CollectGlobal(ds: seq<Draft>, rel: string) returns (s: set<Cols>)
    ensures s == GlobalReads(ds, rel)
  {
    s := {};
    for k := 0 to |ds|
      invariant s == GlobalReads(ds[..k], rel)
    {
      assert ds[..k + 1][..k] == ds[..k];
      s := s + ReadCols(ds[k].plans, rel, ALL);
    }
    assert ds[..|ds|] == ds;
  }

  method SelectRelation(ds: seq<Draft>, d: Draft, rel: string, arity: nat)
    returns (required: seq<Cols>, canonical: Cols)
    ensures Selected(ds, d, rel, arity, required, canonical)
  {
    var first := ListCols(FirstReads(d, rel));
    var second := ListCols(SecondReads(d, rel));
    var all := CollectGlobal(ds, rel);
    var global := ListCols(all);
    required, canonical := SelectFor(first, second, global, arity, [], SecondReads(d, rel));
    assert SelectedFrom(ds, d, rel, arity, required, canonical, first, second, global);
  }

  method SelectUnit(ds: seq<Draft>, d: Draft, arity: map<string, nat>) returns (u: Unit)
    requires d.members <= arity.Keys
    ensures IsUnitOf(ds, d, arity, u)
  {
    hide Selected, Names.Sorted;
    var required: map<string, seq<Cols>>, canonical: map<string, Cols> := map[], map[];
    var order := Names.SortNames(d.members);
    var rest := d.members;
    while rest != {}
      invariant rest <= d.members && required.Keys == canonical.Keys == d.members - rest
      invariant forall rel ::
          rel in required ==> rel in arity && Selected(ds, d, rel, arity[rel], required[rel], canonical[rel])
      decreases rest
    {
      var rel :| rel in rest;
      var indices, canon := SelectRelation(ds, d, rel, arity[rel]);
      required, canonical, rest := required[rel := indices], canonical[rel := canon], rest - {rel};
    }
    u := Unit(d.recursive, Compiled(d.rules, d.members, order, d.plans, required, canonical));
  }

  method SelectIndices(ds: seq<Draft>, arity: map<string, nat>) returns (us: seq<Unit>)
    requires forall k :: 0 <= k < |ds| ==> ds[k].members <= arity.Keys
    ensures |us| == |ds| && forall k :: 0 <= k < |us| ==> IsUnitOf(ds, ds[k], arity, us[k])
  {
    us := [];
    hide IsUnitOf;
    for k := 0 to |ds|
      invariant |us| == k && forall j :: 0 <= j < k ==> IsUnitOf(ds, ds[j], arity, us[j])
    {
      var u := SelectUnit(ds, ds[k], arity);
      us := us + [u];
    }
  }

  // --- Patterns of a typed rule read permutations of their relation's columns ---

  lemma AccessIsPermutation(v: Variant, plan: Plan, arity: map<string, nat>, p: AccessPattern)
    requires |v.versions| == |v.rule.body| && IsDefaultPlan(v, plan) && Lowerable(v.rule) && TypedRule(v.rule, arity)
    requires p in plan.access
    ensures p.rel in arity && IsPermutation(p.indexCols, arity[p.rel]) && p.rel in BodyRels(v.rule)
  {
    PlanAccess(v, plan);
    var body, i := v.rule.body, p.clauseIdx;
    assert IsAccess(p, body, v.versions, plan.join, plan.varOrder);
    assert PlainAtom(body[i].atom) && TypedAtom(body[i].atom, arity);
    var n := VarsListed(v, plan);
    AtomVarsListed(v, plan, i);
    assert ReadsRelation(body[i]);
    hide IsDefaultPlan, Lowerable, TypedRule, Pattern, IsPermutation;
    PatternShape(body[i], v.versions[i], plan.join, plan.varOrder, i);
    PatternFits(body[i], v.versions[i], plan.join, plan.varOrder, i);
  }

  lemma NegationIsPermutation(v: Variant, plan: Plan, arity: map<string, nat>, p: AccessPattern)
    requires |v.versions| == |v.rule.body| && IsDefaultPlan(v, plan) && Lowerable(v.rule) && TypedRule(v.rule, arity)
    requires p in plan.negations
    ensures p.rel in arity && IsPermutation(p.indexCols, arity[p.rel]) && p.rel in BodyRels(v.rule)
    ensures p.rel in NegRels(v.rule)
  {
    PlanNegations(v, plan);
    var body, i := v.rule.body, p.clauseIdx;
    assert IsNegation(p, body, plan.join, plan.varOrder);
    assert SafeNegation(body, i) && TypedAtom(body[i].atom, arity);
    assert ReadsRelation(body[i]);
    hide Lowerable, TypedRule, Pattern, IsPermutation, IsGreedy, VarOrder, SafeNegation;
    PatternShape(body[i], FULL, plan.join, plan.varOrder, i);
    NegationPatternFits(body, v.deltaIdx, plan.clauseOrder, plan.join, i);
  }

  // --- Drafts that compile ---

  // Its rules are in the lowering's scope and typed, its variants planned by default.
  ghost predicate DraftOk(d: Draft, arity: map<string, nat>) {
    && d.members <= arity.Keys && |d.plans| == |DraftVariants(d)|
    && (if d.recursive then d.members != {} else d.rules != [])
    && (forall k :: 0 <= k < |d.rules| ==> BaseRuleOk(d.rules[k], arity))
    && (forall k :: 0 <= k < |d.plans| ==> DraftPlanned(d, k))
    && if d.recursive then IsRecursiveStratum(d.rules, d.members) else Idbs(d.rules) <= d.members
  }

  ghost predicate DraftPlanned(d: Draft, k: nat)
    requires k < |d.plans| == |DraftVariants(d)|
  {
    |DraftVariants(d)[k].versions| == |DraftVariants(d)[k].rule.body| && IsDefaultPlan(DraftVariants(d)[k], d.plans[k])
  }

  ghost predicate DraftsOk(ds: seq<Draft>, arity: map<string, nat>) {
    forall k :: 0 <= k < |ds| ==> DraftOk(ds[k], arity)
  }

  // Every variant's rule is one of the stratum's.
  lemma VariantRule(d: Draft, arity: map<string, nat>, k: nat)
    requires DraftOk(d, arity) && k < |d.plans|
    ensures DraftVariants(d)[k].rule in d.rules
    ensures BaseRuleOk(DraftVariants(d)[k].rule, arity) && DraftPlanned(d, k)
  {
    hide DraftPlanned, BaseRuleOk, DeltaVariants;
    var v := DraftVariants(d)[k];
    if d.recursive {
      DeltaVariantListed(d.rules, d.members, v);
      assert v in DraftVariants(d);
      var r, i :| 0 <= r < |d.rules| && IsSccClause(d.rules[r], d.members, i) && v == CreateDeltaVariant(d.rules[r], i);
      assert BaseRuleOk(d.rules[r], arity);
    } else {
      assert v == CreateBaseVariant(d.rules[k]);
      assert BaseRuleOk(d.rules[k], arity);
    }
  }

  lemma PatternIsPermutation(d: Draft, arity: map<string, nat>, k: nat, p: AccessPattern)
    requires DraftOk(d, arity) && k < |d.plans| && (p in d.plans[k].access || p in d.plans[k].negations)
    ensures p.rel in arity && IsPermutation(p.indexCols, arity[p.rel])
    ensures k < |DraftVariants(d)| && p.rel in BodyRels(DraftVariants(d)[k].rule)
    ensures p in d.plans[k].negations ==> p.rel in NegRels(DraftVariants(d)[k].rule)
  {
    VariantRule(d, arity, k);
    var v := DraftVariants(d)[k];
    hide DraftOk, IsDefaultPlan, Lowerable, TypedRule, AllChecked, IsPermutation, DraftVariants;
    if p in d.plans[k].negations { NegationIsPermutation(v, d.plans[k], arity, p); }
    if p in d.plans[k].access { AccessIsPermutation(v, d.plans[k], arity, p); }
  }

  lemma {:induction false} ReadColsAre(plans: seq<Plan>, rel: string, versions: set<Version>, c: Cols)
    requires c in ReadCols(plans, rel, versions)
    ensures exists k, p ::
        0 <= k < |plans| && (p in plans[k].access || p in plans[k].negations) && p.rel == rel && p.version in versions
        && p.indexCols == c
  {
    var init, last := plans[..|plans| - 1], plans[|plans| - 1];
    if c in ReadCols(init, rel, versions) {
      ReadColsAre(init, rel, versions, c);
      var k, p :| 0 <= k < |init| && (p in init[k].access || p in init[k].negations) && p.rel == rel
          && p.version in versions && p.indexCols == c;
      assert plans[k] == init[k];
    } else if c in PatternCols(last.access, rel, versions) {
      var p :| p in last.access && p.rel == rel && p.version in versions && p.indexCols == c;
    } else {
      var p :| p in last.negations && p.rel == rel && p.version in versions && p.indexCols == c;
    }
  }

  lemma DraftReads(d: Draft, arity: map<string, nat>, rel: string, versions: set<Version>)
    requires DraftOk(d, arity) && rel in arity
    ensures forall c :: c in ReadCols(d.plans, rel, versions) ==> IsPermutation(c, arity[rel])
  {
    hide *;
    forall c | c in ReadCols(d.plans, rel, versions) ensures IsPermutation(c, arity[rel]) {
      ReadColsAre(d.plans, rel, versions, c);
      var k, p :| 0 <= k < |d.plans| && (p in d.plans[k].access || p in d.plans[k].negations) && p.rel == rel
          && p.version in versions && p.indexCols == c;
      PatternIsPermutation(d, arity, k, p);
    }
  }

  lemma {:induction false} GlobalPermutations(ds: seq<Draft>, arity: map<string, nat>, rel: string)
    requires DraftsOk(ds, arity) && rel in arity
    ensures forall c :: c in GlobalReads(ds, rel) ==> IsPermutation(c, arity[rel])
  {
    hide DraftOk, ReadCols, IsPermutation;
    if |ds| > 0 {
      GlobalPermutations(ds[..|ds| - 1], arity, rel);
      DraftReads(ds[|ds| - 1], arity, rel, ALL);
    }
  }

  lemma {:induction false} GlobalHas(ds: seq<Draft>, rel: string, k: nat)
    requires k < |ds|
    ensures ReadCols(ds[k].plans, rel, ALL) <= GlobalReads(ds, rel)
  {
    hide ReadCols;
    if k < |ds| - 1 { GlobalHas(ds[..|ds| - 1], rel, k); }
  }

  lemma {:induction false} ReadColsGrow(plans: seq<Plan>, rel: string, some: set<Version>, all: set<Version>)
    requires some <= all
    ensures ReadCols(plans, rel, some) <= ReadCols(plans, rel, all)
  {
    if |plans| > 0 { ReadColsGrow(plans[..|plans| - 1], rel, some, all); }
  }

  // --- What selection gives one relation ---

  ghost predicate Permuting(s: set<Cols>, n: nat) {
    forall c :: c in s ==> IsPermutation(c, n)
  }

  lemma ListsPermute(q: seq<Cols>, s: set<Cols>, n: nat)
    requires Lists(q, s) && Permuting(s, n)
    ensures Permutations(q, n)
  {
    hide IsPermutation;
    forall k | 0 <= k < |q| ensures IsPermutation(q[k], n) { assert q[k] in q; }
  }

  // The stratum's own reads are required, the canonical index is one of the required ones; without reads of its own the
  // relation gets every index that any stratum reads.
  lemma {:induction false} SelectedFacts(ds: seq<Draft>, d: Draft, rel: string, arity: nat, required: seq<Cols>,
                                         canonical: Cols)
    requires Selected(ds, d, rel, arity, required, canonical)
    requires Permuting(FirstReads(d, rel), arity) && Permuting(SecondReads(d, rel), arity)
    requires Permuting(GlobalReads(ds, rel), arity)
    ensures canonical in required && FirstReads(d, rel) + SecondReads(d, rel) <= Elems(required)
    ensures FirstReads(d, rel) == {} && SecondReads(d, rel) == {} ==>
        Elems(required) == if GlobalReads(ds, rel) == {} then {Identity(arity)} else GlobalReads(ds, rel)
    ensures Elems(required) <= FirstReads(d, rel) + SecondReads(d, rel)
        || (FirstReads(d, rel) == {} && SecondReads(d, rel) == {})
  {
    var first, second, global :| SelectedFrom(ds, d, rel, arity, required, canonical, first, second, global);
    hide FirstReads, SecondReads, GlobalReads, Permuting, IsPermutation;
    ListsPermute(first, FirstReads(d, rel), arity);
    ListsPermute(second, SecondReads(d, rel), arity);
    ListsPermute(global, GlobalReads(ds, rel), arity);
    hide *;
    SelectionFacts(first, second, global, arity, [], SecondReads(d, rel));
    CanonicalIsRequired(required, arity, SecondReads(d, rel), canonical);
    RequiredIs(first, second, global, arity);
    SelectedSets(first, second, global, arity, required, FirstReads(d, rel), SecondReads(d, rel), GlobalReads(ds, rel));
  }

  lemma SelectedSets(first: seq<Cols>, second: seq<Cols>, global: seq<Cols>, arity: nat, required: seq<Cols>,
                     f: set<Cols>, s: set<Cols>, g: set<Cols>)
    requires Lists(first, f) && Lists(second, s) && Lists(global, g)
    requires forall c :: c in required <==>
      if first != [] || second != [] then c in first || c in second
      else if global != [] then c in global else c == Identity(arity)
    ensures f + s <= Elems(required)
    ensures f == {} && s == {} ==> Elems(required) == if g == {} then {Identity(arity)} else g
    ensures Elems(required) <= f + s || (f == {} && s == {})
  {
    EmptyList(first, f);
    EmptyList(second, s);
    EmptyList(global, g);
    hide Identity;
  }

  lemma CanonicalIsRequired(required: seq<Cols>, arity: nat, full: set<Cols>, canonical: Cols)
    requires canonical == Canonical(required, arity, full)
    requires exists k: nat :: FirstRead(required, full, k) && required[k] == Canonical(required, arity, full)
    ensures canonical in required
  {
    hide Canonical;
  }

  lemma EmptyList(q: seq<Cols>, s: set<Cols>)
    requires Lists(q, s)
    ensures q == [] <==> s == {}
  {
    if q != [] { assert q[0] in q; }
    if c :| c in s { assert c in q; }
  }

  lemma RequiredIs(first: seq<Cols>, second: seq<Cols>, global: seq<Cols>, arity: nat)
    requires Permutations(first, arity) && Permutations(second, arity) && Permutations(global, arity)
    ensures var required := Required(first, second, global, arity, []);
      forall c :: c in required <==>
        if first != [] || second != [] then c in first || c in second
        else if global != [] then c in global else c == Identity(arity)
  {
    forall c ensures c in Required(first, second, global, arity, []) <==> Wished(first, second, global, arity, c) {
      RequiredIff(first, second, global, arity, [], c);
    }
    forall c ensures IsIdentity(c, arity) <==> c == Identity(arity) {}
    hide IsPermutation, Required, IsIdentity, Identity;
  }

  // ========== Compiled program ==========

  // A whole compiled program: the strata's plans in order, with reconstructions and rebuilds between them, computes
  // what the strata mean.

  // --- Stored rows and facts ---

  // The facts that the relations really hold.
  ghost function FactsOf(truth: map<string, iset<Row>>): Facts {
    iset f: Fact | f.rel in truth && f.row in truth[f.rel]
  }

  lemma RowsOfFacts(truth: map<string, iset<Row>>, rel: string)
    requires rel in truth
    ensures RowsIn(FactsOf(truth), rel) == truth[rel]
  {}

  ghost predicate Clean(w: World) {
    forall rel :: rel in w.db ==> NewIsEmpty(w.db[rel])
  }

  function StratumOf(u: Unit): Stratum {
    Stratum(u.compiled.members, u.recursive, u.compiled.rules)
  }

  function StrataOf(us: seq<Unit>): seq<Stratum> {
    seq(|us|, k requires 0 <= k < |us| => StratumOf(us[k]))
  }

  ghost predicate UnitCompiled(u: Unit, arity: map<string, nat>) {
    && UnitOk(u) && if u.recursive then WellCompiled(u.compiled, arity) else WellCompiledBase(u.compiled, arity)
  }

  // --- One plan ---

  // What the relations hold after the stratum.
  ghost function TruthAfter(u: Unit, sem: Interp, truth: map<string, iset<Row>>): map<string, iset<Row>> {
    map rel | rel in truth :: RowsIn(RunStratum(StratumOf(u), sem, FactsOf(truth)), rel)
  }

  // The plan runs: once, or round after round until its test stops it.
  ghost predicate PlanRuns(u: Unit, sem: Interp, skips: bool, db: Db, after: Db) {
    if u.recursive then exists n :: LoopStops(u.compiled, sem, skips, db, after, n)
    else after == BaseRun(u, sem, db, skips)
  }

  ghost predicate LoopStops(c: Compiled, sem: Interp, skips: bool, db: Db, after: Db, n: nat) {
    n > 0 && after == Rounds(c, sem, db, n, skips) && Stopped(c, after)
  }

  ghost predicate PlanExec(u: Unit, sem: Interp, skips: bool, a: World, m: World) {
    m.truth == TruthAfter(u, sem, a.truth) && PlanRuns(u, sem, skips, a.db, m.db)
  }

  // Every index a pattern reads, and every canonical index of a maintained relation, holds the relation's rows.
  ghost predicate ReadsCurrent(u: Unit, w: World) {
    && w.db.Keys == w.truth.Keys
    && (forall k, p ::
        0 <= k < |u.compiled.plans| && (p in u.compiled.plans[k].access || p in u.compiled.plans[k].negations) ==>
        IndexCurrent(w, p.rel, p.indexCols))
    && forall rel ::
        rel in ReconstructedRels(u) && rel in u.compiled.canonical ==> IndexCurrent(w, rel, u.compiled.canonical[rel])
  }

  // --- A stratum outside any loop ---

  lemma BaseReadsStage(u: Unit, w: World)
    requires ReadsCurrent(u, w)
    ensures BaseReads(u.compiled, w.db, FactsOf(w.truth))
  {
    forall k, p | 0 <= k < |u.compiled.plans| && (p in u.compiled.plans[k].access || p in u.compiled.plans[k].negations)
      ensures p.rel in w.db && At(w.db[p.rel].fulls, p.indexCols) == RowsIn(FactsOf(w.truth), p.rel)
    {
      assert IndexCurrent(w, p.rel, p.indexCols);
      RowsOfFacts(w.truth, p.rel);
    }
  }

  lemma {:induction false} BaseHeads(rules: seq<Rule>, x: string)
    ensures x in HeadList(BaseVariants(rules)) <==> x in Idbs(rules)
  {
    HeadListIs(BaseVariants(rules), x);
    if x in Idbs(rules) {
      var k, h :| 0 <= k < |rules| && 0 <= h < |rules[k].heads| && rules[k].heads[h].rel == x;
      assert x in HeadRels(BaseVariants(rules)[k].rule);
    }
    if k :| 0 <= k < |BaseVariants(rules)| && x in HeadRels(BaseVariants(rules)[k].rule) {
      var h :| 0 <= h < |rules[k].heads| && rules[k].heads[h].rel == x;
    }
  }

  // What the pipelines insert when every index they read holds the given facts.
  lemma BaseInsertMeaning(u: Unit, arity: map<string, nat>, sem: Interp, w: World, stage: Facts)
    requires !u.recursive && WellCompiledBase(u.compiled, arity) && BaseReads(u.compiled, w.db, stage)
    requires TypedFacts(stage, arity) && Clean(w)
    ensures var db1 := InsertBase(u.compiled, sem, w.db); var derived := Immediate(u.compiled.rules, sem, stage, stage);
      db1.Keys == w.db.Keys && forall rel :: rel in w.db ==> db1[rel] == w.db[rel].(pending := RowsIn(derived, rel))
  {
    var derived := Immediate(u.compiled.rules, sem, stage, stage);
    forall f ensures BaseInserted(u.compiled, sem, ReadAt(w.db, 0), f) <==> f in derived {
      BaseInsertedIs(u.compiled, arity, sem, w.db, stage, f);
    }
    hide BaseInserted, Immediate, WellCompiledBase, BaseReads, TypedFacts, FactsOf, ReadAt;
    forall rel | rel in w.db
      ensures w.db[rel].pending + (iset row: Row | BaseInserted(u.compiled, sem, ReadAt(w.db, 0), Fact(rel, row))) ==
      RowsIn(derived, rel) {
      assert NewIsEmpty(w.db[rel]);
    }
  }

  // A relation that heads no rule gets nothing.
  lemma NoHeadNothing(rules: seq<Rule>, sem: Interp, stage: Facts, rel: string)
    requires rel !in Idbs(rules)
    ensures RowsIn(Immediate(rules, sem, stage, stage), rel) == iset{}
  {
    forall row ensures Fact(rel, row) !in Immediate(rules, sem, stage, stage) {
      ImmediateRelIsHead(rules, sem, stage, stage, Fact(rel, row));
    }
  }

  lemma TakenGrows(s: RelState, t: RelState, required: seq<Cols>, canonical: Cols, before: iset<Row>,
                   derived: iset<Row>, merged: set<Cols>)
    requires TakenIn(s.(pending := derived), t, required, canonical) && At(s.fulls, canonical) == before
    requires merged == set i | i in required
    ensures Grew(s, t, before, before + derived, merged)
  {
    var added := derived - before;
    assert before + added == before + derived;
    hide NewIsEmpty;
    forall i ensures Takes(s, t, i, if i in merged then added else iset{}) {
      assert Takes(s.(pending := derived), t, i, if i in required then derived - At(s.fulls, canonical) else iset{});
    }
    assert GrewBy(s, t, before, before + derived, merged, added);
  }

  // One relation through a base plan.
  lemma BaseRelation(u: Unit, arity: map<string, nat>, sem: Interp, skips: bool, a: World, m: World, rel: string)
    requires !u.recursive && UnitCompiled(u, arity) && ReadsCurrent(u, a) && TypedFacts(FactsOf(a.truth), arity)
    requires Clean(a) && PlanExec(u, sem, skips, a, m)
    requires rel in a.db
    ensures rel in m.db && rel in m.truth && NewIsEmpty(m.db[rel])
    ensures if rel in HeadSet(u) then Grew(a.db[rel], m.db[rel], a.truth[rel], m.truth[rel], MergedOf(u, rel))
            else m.truth[rel] == a.truth[rel] && m.db[rel] == a.db[rel]
  {
    hide *;
    BaseSets(u, arity, rel);
    ReadsHasKeys(u, a);
    BaseReadsStage(u, a);
    BaseStored(u, arity, sem, skips, a, m, rel, FactsOf(a.truth));
    BaseTruth(u, sem, skips, a, m, rel);
    var c, derived := u.compiled, RowsIn(Immediate(u.compiled.rules, sem, FactsOf(a.truth), FactsOf(a.truth)), rel);
    NewsEmpty(a, rel);
    if rel in HeadSet(u) {
      CanonicalIsCurrent(u, a, rel);
      TakenGrows(a.db[rel], m.db[rel], c.required[rel], c.canonical[rel], a.truth[rel], derived, MergedOf(u, rel));
      TakenEmpties(a.db[rel].(pending := derived), m.db[rel], c.required[rel], c.canonical[rel]);
    } else {
      NoHeadNothing(c.rules, sem, FactsOf(a.truth), rel);
    }
  }

  lemma CanonicalIsCurrent(u: Unit, w: World, rel: string)
    requires ReadsCurrent(u, w) && rel in ReconstructedRels(u) && rel in u.compiled.canonical
    ensures rel in w.db && rel in w.truth && At(w.db[rel].fulls, u.compiled.canonical[rel]) == w.truth[rel]
  {
    assert IndexCurrent(w, rel, u.compiled.canonical[rel]);
  }

  lemma BaseTruth(u: Unit, sem: Interp, skips: bool, a: World, m: World, rel: string)
    requires !u.recursive && PlanExec(u, sem, skips, a, m) && rel in a.truth
    ensures rel in m.truth
    ensures m.truth[rel] == a.truth[rel] +
        RowsIn(Immediate(u.compiled.rules, sem, FactsOf(a.truth), FactsOf(a.truth)), rel)
  {
    RowsOfFacts(a.truth, rel);
    hide Immediate, FactsOf;
  }

  lemma ReadsHasKeys(u: Unit, w: World)
    requires ReadsCurrent(u, w)
    ensures w.db.Keys == w.truth.Keys
  {}

  // What is stored after the base plan, when every index it reads holds the given facts.
  lemma BaseStored(u: Unit, arity: map<string, nat>, sem: Interp, skips: bool, a: World, m: World, rel: string,
                   stage: Facts)
    requires !u.recursive && UnitCompiled(u, arity) && BaseReads(u.compiled, a.db, stage) && TypedFacts(stage, arity)
    requires Clean(a) && PlanExec(u, sem, skips, a, m)
    requires rel in a.db
    ensures rel in m.db
    ensures var derived := RowsIn(Immediate(u.compiled.rules, sem, stage, stage), rel);
      if rel in HeadSet(u) && rel in u.compiled.required && rel in u.compiled.canonical then
        TakenIn(a.db[rel].(pending := derived), m.db[rel], u.compiled.required[rel], u.compiled.canonical[rel])
      else rel !in HeadSet(u) ==> m.db[rel] == a.db[rel].(pending := derived)
  {
    hide *;
    var db1 := InsertBase(u.compiled, sem, a.db);
    BaseCompiled(u, arity);
    BaseInsertMeaning(u, arity, sem, a, stage);
    CleanNews(a);
    BaseListOk(u, arity, a.db, db1);
    MaintainUnitMeaning(u, MaintainedRels(u), db1, skips);
    BaseSets(u, arity, rel);
    BaseRuns(u, sem, skips, a, m);
  }

  lemma BaseRuns(u: Unit, sem: Interp, skips: bool, a: World, m: World)
    requires !u.recursive && PlanExec(u, sem, skips, a, m)
    ensures m.db == MaintainUnit(u, MaintainedRels(u), InsertBase(u.compiled, sem, a.db), skips)
  {}

  lemma BaseCompiled(u: Unit, arity: map<string, nat>)
    requires !u.recursive && UnitCompiled(u, arity)
    ensures WellCompiledBase(u.compiled, arity)
  {}

  lemma CleanNews(w: World)
    requires Clean(w)
    ensures forall rel :: rel in w.db ==> NewIsEmpty(w.db[rel])
  {}

  lemma TakenEmpties(s: RelState, t: RelState, required: seq<Cols>, canonical: Cols)
    requires TakenIn(s, t, required, canonical)
    ensures NewIsEmpty(t)
  {}

  lemma NewsEmpty(w: World, rel: string)
    requires Clean(w) && rel in w.db
    ensures NewIsEmpty(w.db[rel]) && NewIndexesEmpty(w.db[rel]) && w.db[rel].pending == iset{}
  {
    assert NewIsEmpty(w.db[rel]);
  }

  lemma BaseSets(u: Unit, arity: map<string, nat>, rel: string)
    requires !u.recursive && UnitCompiled(u, arity)
    ensures rel in MaintainedRels(u) <==> rel in HeadSet(u)
    ensures rel in HeadSet(u) <==> rel in Idbs(u.compiled.rules)
    ensures rel in HeadSet(u) ==>
        rel in ReconstructedRels(u) && rel in u.compiled.canonical && rel in u.compiled.required
    ensures rel in HeadSet(u) ==> MergedOf(u, rel) == set i | i in u.compiled.required[rel]
  {
    hide Idbs, HeadList, BaseVariants;
    BaseHeads(u.compiled.rules, rel);
  }

  lemma BaseListOk(u: Unit, arity: map<string, nat>, db: Db, db1: Db)
    requires !u.recursive && UnitCompiled(u, arity) && db1.Keys == db.Keys
    requires forall rel :: rel in db ==> NewIsEmpty(db[rel]) && db1[rel].news == db[rel].news
    ensures forall rel :: rel in MaintainedRels(u) && rel in db1 ==>
      rel in u.compiled.required && rel in u.compiled.canonical && u.compiled.canonical[rel] in u.compiled.required[rel]
          && NewIndexesEmpty(db1[rel])
  {
    forall rel | rel in MaintainedRels(u) && rel in db1
      ensures rel in u.compiled.required && rel in u.compiled.canonical
      ensures u.compiled.canonical[rel] in u.compiled.required[rel] && NewIndexesEmpty(db1[rel])
    {
      BaseHeads(u.compiled.rules, rel);
    }
  }

  // --- A stratum in a loop ---

  lemma {:induction false} FullNeededListed(plans: seq<Plan>, rel: string, i: Cols)
    ensures i in FullNeeded(plans, rel) || i in AnyRead(plans, rel) ==> exists k, p ::
        0 <= k < |plans| && p in plans[k].access && p.rel == rel && p.indexCols == i
  {
    if |plans| > 0 && (i in FullNeeded(plans, rel) || i in AnyRead(plans, rel)) {
      var init, last := plans[..|plans| - 1], plans[|plans| - 1];
      FullNeededListed(init, rel, i);
      if i in FullNeeded(init, rel) || i in AnyRead(init, rel) {
        var k, p :| 0 <= k < |init| && p in init[k].access && p.rel == rel && p.indexCols == i;
        assert init[k] == plans[k];
      } else {
        var p :| p in last.access && p.rel == rel && p.indexCols == i;
      }
    }
  }

  lemma NeededIsCurrent(u: Unit, w: World, rel: string, i: Cols)
    requires ReadsCurrent(u, w) && (i in FullNeeded(u.compiled.plans, rel) || i in AnyRead(u.compiled.plans, rel))
    ensures IndexCurrent(w, rel, i)
  {
    FullNeededListed(u.compiled.plans, rel, i);
    var k, p :| 0 <= k < |u.compiled.plans| && p in u.compiled.plans[k].access && p.rel == rel && p.indexCols == i;
  }

  lemma MemberStarts(u: Unit, arity: map<string, nat>, w: World, rel: string)
    requires u.recursive && UnitCompiled(u, arity) && ReadsCurrent(u, w) && Clean(w) && rel in u.compiled.members
    ensures rel in u.compiled.required && rel in u.compiled.canonical && rel in w.db
    ensures MemberState(u.compiled, w.db[rel], rel, Loop(FactsOf(w.truth), FactsOf(w.truth)), 0)
  {
    var c, base := u.compiled, FactsOf(w.truth);
    MembersListed(c, arity);
    hide WellCompiled, UnitOk, FactsOf, AnyRead, FullNeeded;
    CanonicalIsCurrent(u, w, rel);
    RowsOfFacts(w.truth, rel);
    NewsEmpty(w, rel);
    forall i | i in AnyRead(c.plans, rel) || i == c.canonical[rel]
        || (i in c.required[rel] && i in FullNeeded(c.plans, rel))
      ensures At(w.db[rel].fulls, i) == RowsIn(base, rel)
    {
      if i != c.canonical[rel] { NeededIsCurrent(u, w, rel, i); }
    }
  }

  // The stored state is the loop's starting state.
  lemma LoopStarts(u: Unit, arity: map<string, nat>, w: World)
    requires u.recursive && UnitCompiled(u, arity) && ReadsCurrent(u, w) && Clean(w)
    ensures WellCompiled(u.compiled, arity)
    ensures InState(u.compiled, w.db, FactsOf(w.truth), Loop(FactsOf(w.truth), FactsOf(w.truth)), 0)
  {
    hide *;
    var c, base := u.compiled, FactsOf(w.truth);
    LoopCompiled(u, arity);
    BaseReadsStage(u, w);
    forall rel | rel in c.members ensures MemberStartsAt(c, w.db, rel, base) {
      MemberStarts(u, arity, w, rel);
      MemberStartsIs(c, w.db, rel, base);
    }
    StateFrom(c, w.db, base);
  }

  lemma LoopCompiled(u: Unit, arity: map<string, nat>)
    requires u.recursive && UnitCompiled(u, arity)
    ensures WellCompiled(u.compiled, arity)
  {}

  ghost predicate MemberStartsAt(c: Compiled, db: Db, rel: string, base: Facts) {
    rel in c.required && rel in c.canonical && rel in db && MemberState(c, db[rel], rel, Loop(base, base), 0)
  }

  lemma MemberStartsIs(c: Compiled, db: Db, rel: string, base: Facts)
    requires rel in c.required && rel in c.canonical && rel in db && MemberState(c, db[rel], rel, Loop(base, base), 0)
    ensures MemberStartsAt(c, db, rel, base)
  {}

  lemma StateFrom(c: Compiled, db: Db, base: Facts)
    requires (forall rel :: rel in c.members ==> MemberStartsAt(c, db, rel, base)) && BaseReads(c, db, base)
    ensures InState(c, db, base, Loop(base, base), 0)
  {
    hide MemberState;
  }

  function LoopMerged(c: Compiled, rel: string): set<Cols>
    requires rel in c.required && rel in c.canonical
  {
    set i | i in c.required[rel] && (i == c.canonical[rel] || i in FullNeeded(c.plans, rel))
  }

  // One round grows a member's merged indexes.
  lemma RoundGrows(c: Compiled, s: RelState, rel: string, sem: Interp, loop: Loop, n: nat, skips: bool)
    requires rel in c.required && rel in c.canonical && c.canonical[rel] in c.required[rel]
    requires MemberState(c, s, rel, loop, n)
    ensures var derived := RowsIn(NewFacts(c.rules, c.members, sem, loop.full, loop.delta), rel);
      Grew(s, Maintain(MaintenanceOf(c, rel), s.(pending := s.pending + derived), skips), RowsIn(loop.full, rel),
           RowsIn(Advance(c.rules, c.members, sem, loop).full, rel), LoopMerged(c, rel))
  {
    hide MaintenanceOf, Maintain, NewFacts, Grew, FullNeeded, RowsIn;
    var derived := RowsIn(NewFacts(c.rules, c.members, sem, loop.full, loop.delta), rel);
    var s1 := s.(pending := s.pending + derived);
    assert s1 == s.(pending := derived);
    MemberRows(c, s, rel, loop, n);
    hide *;
    MemberMaintained(c, s, s1, rel, loop, n, skips);
    AdvanceRows(c, sem, loop, rel);
    MergedListed(c, rel);
    MaintainedGrows(s, s1, Maintain(MaintenanceOf(c, rel), s1, skips), c.required[rel], c.canonical[rel],
                    FullNeeded(c.plans, rel),
                    RowsIn(loop.full, rel), derived, LoopMerged(c, rel));
    assert RowsIn(loop.full, rel) + (derived - RowsIn(loop.full, rel)) == RowsIn(loop.full, rel) + derived;
  }

  lemma MemberRows(c: Compiled, s: RelState, rel: string, loop: Loop, n: nat)
    requires rel in c.required && rel in c.canonical && MemberState(c, s, rel, loop, n)
    ensures s.pending == iset{} && NewIndexesEmpty(s) && At(s.fulls, c.canonical[rel]) == RowsIn(loop.full, rel)
  {}

  lemma MergedListed(c: Compiled, rel: string)
    requires rel in c.required && rel in c.canonical
    ensures forall i :: i in LoopMerged(c, rel)
              <==> i in c.required[rel] && (i == c.canonical[rel] || i in FullNeeded(c.plans, rel))
  {}

  lemma MemberMaintained(c: Compiled, s: RelState, s1: RelState, rel: string, loop: Loop, n: nat, skips: bool)
    requires rel in c.required && rel in c.canonical && c.canonical[rel] in c.required[rel]
    requires MemberState(c, s, rel, loop, n)
    requires s1 == s.(pending := s1.pending)
    ensures Maintained(s1, Maintain(MaintenanceOf(c, rel), s1, skips), c.required[rel], c.canonical[rel],
                       FullNeeded(c.plans, rel))
  {
    LoopMaintenanceMeaning(rel, c.required[rel], c.canonical[rel], FullNeeded(c.plans, rel), s1, skips);
    hide Maintain, LoopMaintenance, Maintained, FullNeeded;
  }

  lemma MaintainedGrows(s: RelState, s1: RelState, t: RelState, indices: seq<Cols>, canonical: Cols, needed: set<Cols>,
                        before: iset<Row>, derived: iset<Row>, merged: set<Cols>)
    requires Maintained(s1, t, indices, canonical, needed) && s1 == s.(pending := derived)
    requires At(s.fulls, canonical) == before
    requires forall i :: i in merged <==> i in indices && (i == canonical || i in needed)
    ensures Grew(s, t, before, before + derived, merged)
  {
    var added := derived - before;
    assert before + added == before + derived;
    hide NewIsEmpty;
    forall i ensures Takes(s, t, i, if i in merged then added else iset{}) {
      assert Takes(s1, t, i, Gain(i, indices, canonical, needed, added));
    }
    assert GrewBy(s, t, before, before + derived, merged, added);
  }

  lemma GrewNone(s: RelState, rows: iset<Row>, merged: set<Cols>)
    ensures Grew(s, s, rows, rows, merged)
  {
    assert GrewBy(s, s, rows, rows, merged, iset{});
  }

  lemma RoundOfMember(c: Compiled, arity: map<string, nat>, sem: Interp, db: Db, base: Facts, loop: Loop, n: nat,
                      skips: bool, rel: string)
    requires WellCompiled(c, arity) && InState(c, db, base, loop, n) && LoopOk(c, base, loop, n)
    requires TypedFacts(loop.full, arity) && TypedFacts(loop.delta, arity) && rel in c.members
    ensures var after := MaintainAll(c, c.order, InsertAll(c, sem, db, n), skips);
      rel in db && rel in after && rel in c.required && rel in c.canonical &&
      Grew(db[rel], after[rel], RowsIn(loop.full, rel), RowsIn(Advance(c.rules, c.members, sem, loop).full, rel),
           LoopMerged(c, rel))
  {
    hide *;
    StateOfMember(c, db, base, loop, n, rel);
    MembersListed(c, arity);
    InsertAllMeaning(c, arity, sem, db, base, loop, n);
    MaintainAllMeaning(c, c.order, InsertAll(c, sem, db, n), skips);
    RoundGrows(c, db[rel], rel, sem, loop, n, skips);
  }

  // All the rounds together do.
  lemma {:induction false} RoundsGrow(c: Compiled, arity: map<string, nat>, sem: Interp, db: Db, base: Facts, n: nat,
                                      skips: bool, rel: string)
    requires WellCompiled(c, arity) && TypedFacts(base, arity) && InState(c, db, base, Loop(base, base), 0)
    requires rel in c.members
    ensures rel in db && rel in Rounds(c, sem, db, n, skips) && rel in c.required && rel in c.canonical
    ensures Grew(db[rel], Rounds(c, sem, db, n, skips)[rel], RowsIn(base, rel),
                 RowsIn(Iterate(c.rules, c.members, sem, base, n).full, rel), LoopMerged(c, rel))
  {
    hide *;
    StateOfMember(c, db, base, Loop(base, base), 0, rel);
    RoundsUnfold(c, sem, db, n, skips);
    IterateUnfold(c, sem, base, n);
    if n == 0 {
      GrewNone(db[rel], RowsIn(base, rel), LoopMerged(c, rel));
    } else {
      RoundsGrow(c, arity, sem, db, base, n - 1, skips, rel);
      RoundsIterate(c, arity, sem, db, base, n - 1, skips);
      IterateIsOk(c, arity, sem, base, n - 1);
      IterateIsTyped(c, arity, sem, base, n - 1);
      var before, loop := Rounds(c, sem, db, n - 1, skips), Iterate(c.rules, c.members, sem, base, n - 1);
      RoundOfMember(c, arity, sem, before, base, loop, n - 1, skips, rel);
      GrewTwice(db[rel], before[rel], Rounds(c, sem, db, n, skips)[rel], RowsIn(base, rel), RowsIn(loop.full, rel),
                RowsIn(Iterate(c.rules, c.members, sem, base, n).full, rel), LoopMerged(c, rel));
    }
  }

  lemma IterateUnfold(c: Compiled, sem: Interp, base: Facts, n: nat)
    ensures Iterate(c.rules, c.members, sem, base, 0).full == base
    ensures n > 0 ==>
        Iterate(c.rules, c.members, sem, base, n) ==
        Advance(c.rules, c.members, sem, Iterate(c.rules, c.members, sem, base, n - 1))
  {
    hide Advance;
  }

  // One relation through a loop plan.
  lemma LoopRelation(u: Unit, arity: map<string, nat>, sem: Interp, skips: bool, a: World, m: World, rel: string)
    requires u.recursive && UnitCompiled(u, arity) && ReadsCurrent(u, a) && TypedFacts(FactsOf(a.truth), arity)
    requires Clean(a) && PlanExec(u, sem, skips, a, m)
    requires rel in a.db
    ensures rel in m.db && rel in m.truth && rel in a.truth && NewIsEmpty(m.db[rel])
    ensures rel in u.compiled.members ==> rel in u.compiled.required && rel in u.compiled.canonical
    ensures rel in u.compiled.members ==>
        Grew(a.db[rel], m.db[rel], a.truth[rel], m.truth[rel], LoopMerged(u.compiled, rel))
    ensures rel !in u.compiled.members ==> m.db[rel] == a.db[rel]
  {
    hide *;
    var c, base := u.compiled, FactsOf(a.truth);
    ReadsHasKeys(u, a);
    LoopStarts(u, arity, a);
    NewsEmpty(a, rel);
    var n := LoopRuns(u, sem, skips, a, m);
    LoopTruth(u, sem, skips, a, m, rel);
    StoppedAtLeast(c, arity, sem, a.db, base, n, skips);
    RowsOfFacts(a.truth, rel);
    if rel in c.members {
      RoundsGrow(c, arity, sem, a.db, base, n, skips, rel);
      RoundsIterate(c, arity, sem, a.db, base, n, skips);
      StateOfMember(c, m.db, base, Iterate(c.rules, c.members, sem, base, n), n, rel);
      MemberIsEmpty(c, m.db[rel], rel, Iterate(c.rules, c.members, sem, base, n), n);
    } else {
      RoundsLeaveOthers(c, arity, sem, a.db, base, n, skips, rel);
    }
  }

  lemma LoopRuns(u: Unit, sem: Interp, skips: bool, a: World, m: World) returns (n: nat)
    requires u.recursive && PlanExec(u, sem, skips, a, m)
    ensures n > 0 && m.db == Rounds(u.compiled, sem, a.db, n, skips) && Stopped(u.compiled, m.db)
  {
    n :| LoopStops(u.compiled, sem, skips, a.db, m.db, n);
  }

  lemma LoopTruth(u: Unit, sem: Interp, skips: bool, a: World, m: World, rel: string)
    requires u.recursive && PlanExec(u, sem, skips, a, m) && rel in a.truth
    ensures rel in m.truth
    ensures m.truth[rel] == RowsIn(LeastClosed(u.compiled.rules, sem, FactsOf(a.truth), FactsOf(a.truth)), rel)
  {}

  lemma MemberIsEmpty(c: Compiled, s: RelState, rel: string, loop: Loop, n: nat)
    requires rel in c.required && rel in c.canonical && MemberState(c, s, rel, loop, n)
    ensures NewIsEmpty(s)
  {}

  // --- Either kind of plan has the effect that freshness rests on ---

  lemma LoopSets(u: Unit, arity: map<string, nat>, rel: string)
    requires u.recursive && UnitCompiled(u, arity)
    ensures rel in u.compiled.members <==> rel in ReconstructedRels(u)
    ensures rel in HeadSet(u) ==> rel in u.compiled.members && rel in Idbs(u.compiled.rules)
    ensures rel in u.compiled.members && rel !in HeadSet(u) ==> rel !in Idbs(u.compiled.rules)
    ensures rel in u.compiled.members ==>
        rel in u.compiled.required && rel in u.compiled.canonical && MergedOf(u, rel) == LoopMerged(u.compiled, rel)
  {
    hide WellCompiled;
    MembersListed(u.compiled, arity);
    LoopHeads(u, arity, rel);
  }

  // In a loop every rule has a variant.
  lemma VariantOfHead(rules: seq<Rule>, members: set<string>, rel: string)
    requires IsRecursiveStratum(rules, members) && rel in Idbs(rules)
    ensures rel in HeadList(DeltaVariants(rules, members)) && rel in members
  {
    var vs := DeltaVariants(rules, members);
    var k, h :| 0 <= k < |rules| && 0 <= h < |rules[k].heads| && rules[k].heads[h].rel == rel;
    var i: nat :| IsSccClause(rules[k], members, i);
    var v := CreateDeltaVariant(rules[k], i);
    assert rel in HeadRels(v.rule) && HeadRels(rules[k]) <= members;
    hide DeltaVariants, HeadRels, CreateDeltaVariant, IsRecursiveStratum, HeadList;
    DeltaVariantListed(rules, members, v);
    var j :| 0 <= j < |vs| && vs[j] == v;
    HeadListIs(vs, rel);
  }

  lemma HeadOfVariant(rules: seq<Rule>, members: set<string>, rel: string)
    requires rel in HeadList(DeltaVariants(rules, members))
    ensures rel in Idbs(rules)
  {
    var vs := DeltaVariants(rules, members);
    HeadListIs(vs, rel);
    var j :| 0 <= j < |vs| && rel in HeadRels(vs[j].rule);
    hide DeltaVariants, HeadList;
    DeltaVariantListed(rules, members, vs[j]);
    assert vs[j] in vs;
    var k, i :| 0 <= k < |rules| && IsSccClause(rules[k], members, i) && vs[j] == CreateDeltaVariant(rules[k], i);
    assert vs[j].rule == rules[k];
    var h :| 0 <= h < |rules[k].heads| && rules[k].heads[h].rel == rel;
  }

  lemma LoopHeads(u: Unit, arity: map<string, nat>, rel: string)
    requires u.recursive && UnitCompiled(u, arity)
    ensures rel in HeadSet(u) <==> rel in Idbs(u.compiled.rules)
    ensures rel in HeadSet(u) ==> rel in u.compiled.members
  {
    hide *;
    var c := u.compiled;
    LoopVariants(u, arity, rel);
    if rel in Idbs(c.rules) { VariantOfHead(c.rules, c.members, rel); }
    if rel in HeadList(DeltaVariants(c.rules, c.members)) {
      HeadOfVariant(c.rules, c.members, rel);
      VariantOfHead(c.rules, c.members, rel);
    }
  }

  lemma LoopVariants(u: Unit, arity: map<string, nat>, rel: string)
    requires u.recursive && UnitCompiled(u, arity)
    ensures IsRecursiveStratum(u.compiled.rules, u.compiled.members)
    ensures rel in HeadSet(u) <==> rel in HeadList(DeltaVariants(u.compiled.rules, u.compiled.members))
  {
    hide HeadList, DeltaVariants, IsRecursiveStratum;
  }

  lemma SameWhenNothingAdded(s: RelState, t: RelState, rows: iset<Row>, merged: set<Cols>)
    requires Grew(s, t, rows, rows, merged) && forall i :: i in merged ==> At(s.fulls, i) == rows
    ensures t.base == s.base && SameRows(s.fulls, t.fulls)
  {
    var added :| GrewBy(s, t, rows, rows, merged, added);
    assert added <= rows;
  }

  lemma MergedIsCurrent(u: Unit, arity: map<string, nat>, w: World, rel: string, i: Cols)
    requires u.recursive && UnitCompiled(u, arity) && ReadsCurrent(u, w) && rel in u.compiled.members
    requires rel in u.compiled.required && rel in u.compiled.canonical
    requires i in LoopMerged(u.compiled, rel)
    ensures IndexCurrent(w, rel, i)
  {
    hide UnitCompiled, ReadsCurrent, MergedOf, ReconstructedRels;
    if i == u.compiled.canonical[rel] {
      LoopSets(u, arity, rel);
      CanonicalIsCurrent(u, w, rel);
    } else {
      NeededIsCurrent(u, w, rel, i);
    }
  }

  lemma LoopEffect(u: Unit, arity: map<string, nat>, sem: Interp, skips: bool, a: World, m: World, rel: string)
    requires u.recursive && UnitCompiled(u, arity) && ReadsCurrent(u, a) && TypedFacts(FactsOf(a.truth), arity)
    requires Clean(a) && PlanExec(u, sem, skips, a, m)
    requires rel in a.db
    ensures rel in m.db && rel in m.truth && rel in a.truth && NewIsEmpty(m.db[rel])
    ensures if rel in HeadSet(u) then Grew(a.db[rel], m.db[rel], a.truth[rel], m.truth[rel], MergedOf(u, rel))
            else
              && m.truth[rel] == a.truth[rel] && m.db[rel].base == a.db[rel].base
              && SameRows(a.db[rel].fulls, m.db[rel].fulls)
  {
    hide *;
    LoopRelation(u, arity, sem, skips, a, m, rel);
    LoopSets(u, arity, rel);
    if rel !in HeadSet(u) {
      LoopHeads(u, arity, rel);
      LoopKeepsTruth(u, sem, skips, a, m, rel);
      if rel in u.compiled.members {
        forall i | i in LoopMerged(u.compiled, rel) ensures At(a.db[rel].fulls, i) == a.truth[rel] {
          MergedIsCurrent(u, arity, a, rel, i);
          CurrentMeans(a, rel, i);
        }
        SameWhenNothingAdded(a.db[rel], m.db[rel], a.truth[rel], LoopMerged(u.compiled, rel));
      } else {
        SameState(a.db[rel]);
      }
    }
  }

  lemma SameState(s: RelState)
    ensures SameRows(s.fulls, s.fulls)
  {}

  lemma CurrentMeans(w: World, rel: string, i: Cols)
    requires IndexCurrent(w, rel, i) && rel in w.db && rel in w.truth
    ensures At(w.db[rel].fulls, i) == w.truth[rel]
  {}

  lemma LoopKeepsTruth(u: Unit, sem: Interp, skips: bool, a: World, m: World, rel: string)
    requires u.recursive && PlanExec(u, sem, skips, a, m) && rel in a.truth && rel !in Idbs(u.compiled.rules)
    ensures rel in m.truth && m.truth[rel] == a.truth[rel]
  {
    var base := FactsOf(a.truth);
    LoopTruth(u, sem, skips, a, m, rel);
    RowsOfFacts(a.truth, rel);
    hide FactsOf, LeastClosed, PlanExec;
    forall row ensures Fact(rel, row) in LeastClosed(u.compiled.rules, sem, base, base) <==> Fact(rel, row) in base {
      ClosingKeepsOthers(u.compiled.rules, sem, base, base, Fact(rel, row));
    }
  }

  lemma {:induction false} MaintainAllKeys(c: Compiled, rels: seq<string>, db: Db, skips: bool)
    ensures MaintainAll(c, rels, db, skips).Keys == db.Keys
  {
    hide Maintain;
    if |rels| > 0 { MaintainAllKeys(c, rels[..|rels| - 1], db, skips); }
  }

  lemma {:induction false} RoundsKeys(c: Compiled, sem: Interp, db: Db, n: nat, skips: bool)
    ensures Rounds(c, sem, db, n, skips).Keys == db.Keys
  {
    hide *;
    RoundsUnfold(c, sem, db, n, skips);
    if n > 0 {
      RoundsKeys(c, sem, db, n - 1, skips);
      var before := Rounds(c, sem, db, n - 1, skips);
      InsertAllKeys(c, sem, before, n - 1);
      MaintainAllKeys(c, c.order, InsertAll(c, sem, before, n - 1), skips);
    }
  }

  lemma InsertAllKeys(c: Compiled, sem: Interp, db: Db, n: nat)
    ensures InsertAll(c, sem, db, n).Keys == db.Keys
  {
    hide Inserted, ReadAt;
  }

  lemma {:induction false} MaintainUnitKeys(u: Unit, rels: seq<string>, db: Db, skips: bool)
    ensures MaintainUnit(u, rels, db, skips).Keys == db.Keys
  {
    hide Maintain, UnitMaintenance;
    if |rels| > 0 { MaintainUnitKeys(u, rels[..|rels| - 1], db, skips); }
  }

  lemma PlanKeys(u: Unit, sem: Interp, skips: bool, a: World, m: World)
    requires PlanExec(u, sem, skips, a, m)
    ensures m.db.Keys == a.db.Keys && m.truth.Keys == a.truth.Keys
  {
    if u.recursive {
      var n := LoopRuns(u, sem, skips, a, m);
      RoundsKeys(u.compiled, sem, a.db, n, skips);
    } else {
      assert InsertBase(u.compiled, sem, a.db).Keys == a.db.Keys;
      hide InsertBase, MaintainUnit;
      MaintainUnitKeys(u, MaintainedRels(u), InsertBase(u.compiled, sem, a.db), skips);
    }
  }

  // What a plan does to one relation.
  ghost predicate UnitEffect(u: Unit, a: World, m: World, rel: string)
    requires rel in a.db && rel in a.truth && rel in m.db && rel in m.truth
  {
    if rel in HeadSet(u) then Grew(a.db[rel], m.db[rel], a.truth[rel], m.truth[rel], MergedOf(u, rel))
    else m.truth[rel] == a.truth[rel] && m.db[rel].base == a.db[rel].base && SameRows(a.db[rel].fulls, m.db[rel].fulls)
  }

  lemma UnitRelation(u: Unit, arity: map<string, nat>, sem: Interp, skips: bool, a: World, m: World, rel: string)
    requires UnitCompiled(u, arity) && ReadsCurrent(u, a) && TypedFacts(FactsOf(a.truth), arity) && Clean(a)
    requires PlanExec(u, sem, skips, a, m)
    requires rel in a.db
    ensures rel in m.db && rel in m.truth && rel in a.truth && NewIsEmpty(m.db[rel]) && UnitEffect(u, a, m, rel)
  {
    ReadsHasKeys(u, a);
    hide UnitCompiled, ReadsCurrent, TypedFacts, Clean, PlanExec, HeadSet, MergedOf, Grew, NewIsEmpty;
    if u.recursive {
      LoopEffect(u, arity, sem, skips, a, m, rel);
    } else {
      BaseRelation(u, arity, sem, skips, a, m, rel);
    }
  }

  // A plan grows exactly what it writes, in the indexes it merges, and leaves NEW empty.
  lemma PlanHasEffect(u: Unit, arity: map<string, nat>, sem: Interp, skips: bool, a: World, m: World)
    requires UnitCompiled(u, arity) && ReadsCurrent(u, a) && TypedFacts(FactsOf(a.truth), arity) && Clean(a)
    requires PlanExec(u, sem, skips, a, m)
    ensures |u.compiled.plans| == |UnitVariants(u)| && StepEffect(FixpointPlan(PlanInstrs(u)), a, m) && Clean(m)
  {
    UnitHasPlans(u, arity);
    PlanKeys(u, sem, skips, a, m);
    ReadsHasKeys(u, a);
    var step := FixpointPlan(PlanInstrs(u));
    hide UnitCompiled, ReadsCurrent, TypedFacts, PlanExec, HeadSet, MergedOf, Grew, NewIsEmpty, UnitVariants,
        PlanInstrs, Writes, MergedBy, SameRows;
    forall rel | rel in a.db ensures PlanEffect(step, rel, a.db[rel], m.db[rel], a.truth[rel], m.truth[rel]) {
      UnitRelation(u, arity, sem, skips, a, m, rel);
      PlanWritesAndMerges(u, rel);
    }
    forall rel | rel in m.db ensures NewIsEmpty(m.db[rel]) {
      UnitRelation(u, arity, sem, skips, a, m, rel);
    }
  }

  lemma UnitHasPlans(u: Unit, arity: map<string, nat>)
    requires UnitCompiled(u, arity)
    ensures |u.compiled.plans| == |UnitVariants(u)| && UnitOk(u)
  {
    hide UnitVariants;
  }

  // --- What the relations hold after a plan ---

  lemma TypedHead(r: Rule, arity: map<string, nat>, sem: Interp, db: Facts, neg: Facts, f: Fact)
    requires TypedRule(r, arity) && DerivesFrom(r, sem, db, neg, f)
    ensures f.rel in arity && |f.row| == arity[f.rel]
  {
    var env :| SatBody(r.body, sem, db, db, -1, neg, env) && IsHeadFact(r, env, f);
    var h :| 0 <= h < |r.heads| && f == Fact(r.heads[h].rel, Ground(r.heads[h], env));
    assert TypedAtom(r.heads[h], arity);
  }

  ghost predicate RulesTyped(rules: seq<Rule>, arity: map<string, nat>) {
    forall k :: 0 <= k < |rules| ==> TypedRule(rules[k], arity)
  }

  lemma UnitTyped(u: Unit, arity: map<string, nat>)
    requires UnitCompiled(u, arity)
    ensures RulesTyped(u.compiled.rules, arity)
  {
    hide UnitOk, Lowerable, TypedRule;
    var c := u.compiled;
    forall k | 0 <= k < |c.rules| ensures TypedRule(c.rules[k], arity) {
      if !u.recursive { assert BaseRuleOk(c.rules[k], arity); }
    }
  }

  // Where the facts a stratum adds come from.
  lemma StratumAdds(s: Stratum, sem: Interp, stage: Facts, f: Fact)
    requires f in RunStratum(s, sem, stage) && f !in stage
    ensures exists k, db :: 0 <= k < |s.rules| && DerivesFrom(s.rules[k], sem, db, stage, f)
    ensures f.rel in Idbs(s.rules)
  {
    hide DerivesFrom, Idbs;
    if s.recursive {
      Supported(s.rules, sem, stage, stage, f);
      var least := LeastClosed(s.rules, sem, stage, stage);
      var k :| 0 <= k < |s.rules| && DerivesFrom(s.rules[k], sem, least, stage, f);
      DerivedRelIsHead(s.rules, k, sem, least, stage, f);
    } else {
      var k :| 0 <= k < |s.rules| && DerivesFrom(s.rules[k], sem, stage, stage, f);
      DerivedRelIsHead(s.rules, k, sem, stage, stage, f);
    }
  }

  lemma StageTyped(u: Unit, arity: map<string, nat>, sem: Interp, stage: Facts)
    requires UnitCompiled(u, arity) && TypedFacts(stage, arity)
    ensures TypedFacts(RunStratum(StratumOf(u), sem, stage), arity)
  {
    UnitTyped(u, arity);
    var s := StratumOf(u);
    hide UnitCompiled, RunStratum, DerivesFrom, TypedRule;
    forall f: Fact | f in RunStratum(s, sem, stage) && f.rel in arity ensures |f.row| == arity[f.rel] {
      if f !in stage {
        StratumAdds(s, sem, stage, f);
        var k, db :| 0 <= k < |s.rules| && DerivesFrom(s.rules[k], sem, db, stage, f);
        TypedHead(s.rules[k], arity, sem, db, stage, f);
      }
    }
  }

  // The truth tracks the stratum's meaning, as long as its heads are stored.
  lemma TruthTracks(u: Unit, sem: Interp, truth: map<string, iset<Row>>)
    requires forall rel :: rel in Idbs(u.compiled.rules) ==> rel in truth
    ensures FactsOf(TruthAfter(u, sem, truth)) == RunStratum(StratumOf(u), sem, FactsOf(truth))
  {
    var stage := FactsOf(truth);
    var after := RunStratum(StratumOf(u), sem, stage);
    hide RunStratum, Idbs;
    forall f ensures f in FactsOf(TruthAfter(u, sem, truth)) <==> f in after {
      if f in after && f.rel !in truth {
        assert f !in stage;
        StratumAdds(StratumOf(u), sem, stage, f);
      }
    }
  }

  // ========== Plan counts ==========

  // A whole plan keeps every index below the canonical one, and every row count below its index.

  // The relation's required indexes are listed once each, the canonical one among them.
  ghost predicate RequiredOnce(c: Compiled, rel: string) {
    rel in c.required && rel in c.canonical && c.canonical[rel] in c.required[rel] && NoDup(c.required[rel])
  }

  // No NEW index holds rows, and every index is part of the canonical one.
  ghost predicate Settled(c: Compiled, db: Db, rel: string) {
    rel in db && rel in c.canonical && NewIndexesEmpty(db[rel]) && Below(db[rel], c.canonical[rel])
  }

  lemma StillSettled(s: RelState, more: iset<Row>, canonical: Cols)
    requires NewIndexesEmpty(s) && Below(s, canonical)
    ensures var t := s.(pending := s.pending + more); NewIndexesEmpty(t) && Below(t, canonical)
  {
    hide AtLeast;
  }

  lemma MaintainSettles(u: Unit, rel: string, s: RelState, skips: bool)
    requires RequiredOnce(u.compiled, rel) && NewIndexesEmpty(s) && Below(s, u.compiled.canonical[rel])
    ensures var t := Maintain(UnitMaintenance(u, rel), s, skips);
    NewIndexesEmpty(t) && Below(t, u.compiled.canonical[rel])
  {
    var c := u.compiled;
    hide Maintain, LoopMaintenance, SimpleMaintenance, Below, FullNeeded;
    if u.recursive {
      LoopMaintenanceMeaning(rel, c.required[rel], c.canonical[rel], FullNeeded(c.plans, rel), s, skips);
      LoopKeepsBelow(rel, c.required[rel], c.canonical[rel], FullNeeded(c.plans, rel), s, skips);
    } else {
      SimpleMaintenanceMeaning(rel, c.required[rel], c.canonical[rel], s, skips);
      SimpleKeepsBelow(rel, c.required[rel], c.canonical[rel], s, skips);
    }
  }

  lemma {:induction false} MaintainUnitSettles(u: Unit, rels: seq<string>, db: Db, skips: bool, rel: string)
    requires RequiredOnce(u.compiled, rel) && Settled(u.compiled, db, rel)
    ensures Settled(u.compiled, MaintainUnit(u, rels, db, skips), rel)
  {
    hide Maintain, UnitMaintenance, NewIndexesEmpty, Below;
    if |rels| > 0 {
      MaintainUnitSettles(u, rels[..|rels| - 1], db, skips, rel);
      var before := MaintainUnit(u, rels[..|rels| - 1], db, skips);
      if rels[|rels| - 1] == rel { MaintainSettles(u, rel, before[rel], skips); }
    }
  }

  lemma {:induction false} MaintainAllSettles(u: Unit, rels: seq<string>, db: Db, skips: bool, rel: string)
    requires u.recursive && RequiredOnce(u.compiled, rel) && Settled(u.compiled, db, rel)
    ensures Settled(u.compiled, MaintainAll(u.compiled, rels, db, skips), rel)
  {
    hide Maintain, NewIndexesEmpty, Below, LoopMaintenance, FullNeeded;
    if |rels| > 0 {
      MaintainAllSettles(u, rels[..|rels| - 1], db, skips, rel);
      var before := MaintainAll(u.compiled, rels[..|rels| - 1], db, skips);
      if rels[|rels| - 1] == rel {
        MaintainSettles(u, rel, before[rel], skips);
        assert UnitMaintenance(u, rel) == MaintenanceOf(u.compiled, rel);
      }
    }
  }

  lemma InsertSettles(c: Compiled, sem: Interp, db: Db, n: nat, rel: string)
    requires Settled(c, db, rel)
    ensures Settled(c, InsertAll(c, sem, db, n), rel)
  {
    var more := iset row: Row | Inserted(c, sem, ReadAt(db, n), Fact(rel, row));
    StillSettled(db[rel], more, c.canonical[rel]);
    hide Inserted, ReadAt, Below;
  }

  lemma {:induction false} RoundsSettle(u: Unit, sem: Interp, db: Db, n: nat, skips: bool, rel: string)
    requires u.recursive && RequiredOnce(u.compiled, rel) && Settled(u.compiled, db, rel)
    ensures Settled(u.compiled, Rounds(u.compiled, sem, db, n, skips), rel)
  {
    var c := u.compiled;
    hide *;
    RoundsUnfold(c, sem, db, n, skips);
    if n > 0 {
      var before := Rounds(c, sem, db, n - 1, skips);
      RoundsSettle(u, sem, db, n - 1, skips, rel);
      InsertSettles(c, sem, before, n - 1, rel);
      MaintainAllSettles(u, c.order, InsertAll(c, sem, before, n - 1), skips, rel);
    }
  }

  lemma BaseSettles(u: Unit, sem: Interp, db: Db, skips: bool, rel: string)
    requires RequiredOnce(u.compiled, rel) && Settled(u.compiled, db, rel)
    ensures Settled(u.compiled, BaseRun(u, sem, db, skips), rel)
  {
    var c := u.compiled;
    var more := iset row: Row | BaseInserted(c, sem, ReadAt(db, 0), Fact(rel, row));
    StillSettled(db[rel], more, c.canonical[rel]);
    hide BaseInserted, ReadAt, Below, MaintainUnit, NewIndexesEmpty, RequiredOnce;
    MaintainUnitSettles(u, MaintainedRels(u), InsertBase(c, sem, db), skips, rel);
  }

  // Before and after any plan.
  lemma PlanSettles(u: Unit, sem: Interp, skips: bool, a: World, m: World, rel: string)
    requires PlanExec(u, sem, skips, a, m) && RequiredOnce(u.compiled, rel) && Settled(u.compiled, a.db, rel)
    ensures Settled(u.compiled, m.db, rel)
  {
    hide Settled, RequiredOnce, Rounds, BaseRun, Stopped, TruthAfter;
    if u.recursive {
      var n :| LoopStops(u.compiled, sem, skips, a.db, m.db, n);
      RoundsSettle(u, sem, a.db, n, skips, rel);
    } else {
      BaseSettles(u, sem, a.db, skips, rel);
    }
  }

  // ========== Join reads ==========

  // Every index that a join's access pattern reads is one of the join's own column sources, so the rebuild pass sees
  // it.

  // --- Needs of a sequence of operations ---

  lemma {:induction false} OpsNeedAre(ops: seq<Op>, rel: string, k: nat)
    requires k < |ops|
    ensures OpNeeds(ops[k], rel) <= OpsNeed(ops, rel)
  {
    hide OpNeeds;
    if k < |ops| - 1 { OpsNeedAre(ops[..|ops| - 1], rel, k); }
  }

  lemma {:induction false} OpsNeedPrefix(a: seq<Op>, b: seq<Op>, rel: string)
    ensures OpsNeed(a, rel) <= OpsNeed(a + b, rel)
  {
    hide OpNeeds;
    if |b| == 0 {
      assert a + b == a;
    } else {
      assert (a + b)[..|a + b| - 1] == a + b[..|b| - 1];
      OpsNeedPrefix(a, b[..|b| - 1], rel);
    }
  }

  lemma {:induction false} OpsNeedSuffix(a: seq<Op>, b: seq<Op>, rel: string)
    ensures OpsNeed(b, rel) <= OpsNeed(a + b, rel)
  {
    hide OpNeeds;
    if |b| > 0 {
      assert (a + b)[..|a + b| - 1] == a + b[..|b| - 1];
      OpsNeedSuffix(a, b[..|b| - 1], rel);
    }
  }

  lemma SourceIsNeeded(sources: seq<ColumnSource>, s: ColumnSource)
    requires s in sources && s.version in {FULL, DELTA}
    ensures s.index in SourcesNeed(sources, s.rel)
  {}

  // --- A pattern with a join variable ---

  lemma {:induction false} JoinedIsNeeded(varOrder: seq<string>, join: set<string>, patterns: seq<AccessPattern>,
                                          p: AccessPattern, v: string)
    requires p in patterns && Joins(p, v) && v in join && v in varOrder && p.version in {FULL, DELTA}
    ensures p.indexCols in OpsNeed(JoinVars(varOrder, join, patterns).ops, p.rel)
  {
    hide Joins, SourcesNeed;
    var init, last := varOrder[..|varOrder| - 1], varOrder[|varOrder| - 1];
    var st := JoinVars(init, join, patterns);
    assert varOrder == init + [last];
    hide OpsNeed, OpNeeds, JoinSources, Record;
    if last == v {
      var sources := JoinSources(v, patterns, st.bound);
      JoinSourcesListed(v, patterns, st.bound);
      var s := JoinSource(p, st.bound);
      assert s in sources && s.index == p.indexCols && s.rel == p.rel && s.version == p.version;
      SourceIsNeeded(sources, s);
      var ops := st.ops + [ColumnJoin(v, sources)];
      assert JoinVars(varOrder, join, patterns).ops == ops;
      OpsNeedAre(ops, p.rel, |st.ops|);
      ColumnJoinNeeds(v, sources, p.rel);
    } else {
      JoinedIsNeeded(init, join, patterns, p, v);
      JoinVarGrows(st, last, join, patterns);
      var all := JoinVars(varOrder, join, patterns).ops;
      OpsNeedPrefix(st.ops, all[|st.ops|..], p.rel);
      assert st.ops + all[|st.ops|..] == all;
    }
  }

  lemma ColumnJoinNeeds(v: string, sources: seq<ColumnSource>, rel: string)
    ensures OpNeeds(ColumnJoin(v, sources), rel) == SourcesNeed(sources, rel)
  {}

  lemma JoinVarGrows(st: Lowering.Joined, v: string, join: set<string>, patterns: seq<AccessPattern>)
    ensures st.ops <= JoinVar(st, v, join, patterns).ops
  {}

  // --- A pattern with a variable of its own ---

  lemma {:induction false} SourcesHave(patterns: seq<AccessPattern>, st: Lowering.Joined, indep: set<string>,
                                       p: AccessPattern)
    requires p in patterns && Provides(p, indep)
    ensures CartesianSource(p, st) in CartesianSources(patterns, st, indep).0
  {
    hide CartesianSource, CartesianVars, Provides;
    if p in patterns[..|patterns| - 1] {
      SourcesHave(patterns[..|patterns| - 1], st, indep, p);
    } else {
      assert p == patterns[|patterns| - 1];
    }
  }

  lemma ProvidedIsNeeded(body: seq<Clause>, plan: Plan, st: Lowering.Joined, p: AccessPattern, v: string)
    requires p in plan.access && v in p.accessOrder && |p.rel| > 0 && v in Independent(body, plan)
    requires p.version in {FULL, DELTA}
    requires CartesianIndex(p, st) == p.indexCols
    ensures p.indexCols in OpsNeed(Cartesian(body, plan, st), p.rel)
  {
    var vars := Independent(body, plan);
    var sources := CartesianSources(plan.access, st, Elems(vars));
    assert v in Elems(vars) && Provides(p, Elems(vars));
    SourcesHave(plan.access, st, Elems(vars), p);
    var s := CartesianSource(p, st);
    hide Independent, CartesianSources, CartesianIndex, OpsNeed, OpNeeds;
    assert s.index == p.indexCols && s.rel == p.rel && s.version == p.version;
    SourceIsNeeded(sources.0, s);
    var op := CartesianJoin(vars, sources.0, sources.1);
    assert Cartesian(body, plan, st) == [op];
    OpsNeedAre([op], p.rel, 0);
    CartesianNeeds(vars, sources.0, sources.1, p.rel);
  }

  lemma CartesianNeeds(vars: seq<string>, sources: seq<ColumnSource>, from: seq<seq<string>>, rel: string)
    ensures OpNeeds(CartesianJoin(vars, sources, from), rel) == SourcesNeed(sources, rel)
  {}

  lemma OwnIsIndependent(body: seq<Clause>, plan: Plan, p: AccessPattern, v: string, i: nat)
    requires p in plan.access && v in p.accessOrder && v !in plan.join && i < |body| && body[i].Pos?
    requires v in ArgVars(body[i].atom.args)
    ensures v in Independent(body, plan)
  {
    InPatternVars(plan.access, v);
    hide PatternVars, LetVars, KeepIn;
  }

  // --- Either way ---

  // A reader and facts that put any planned rule in the setting the pattern lemmas speak of.
  lemma EmptySetting(v: Variant, plan: Plan)
    requires |v.versions| == |v.rule.body| && IsDefaultPlan(v, plan) && Lowerable(v.rule)
    ensures Setting(v, plan, (rel: string, version: Version, cols: seq<nat>) => iset{}, iset{}, iset{})
  {
    var read: Reader := (rel: string, version: Version, cols: seq<nat>) => iset{};
    LowerableBinds(v.rule);
    hide IsDefaultPlan, Lowerable, Bindable;
    forall p ensures LoweringTheorem.Fresh(p, read, iset{}, iset{}) {}
  }

  // Patterns of one clause are one pattern.
  lemma OnePattern(v: Variant, plan: Plan, p: AccessPattern)
    requires |v.versions| == |v.rule.body| && IsDefaultPlan(v, plan) && p in plan.access
    ensures forall q :: q in plan.access && q.clauseIdx == p.clauseIdx ==> q == p
  {
    PlanAccess(v, plan);
    hide IsDefaultPlan, Pattern;
    forall q | q in plan.access && q.clauseIdx == p.clauseIdx ensures q == p {
      assert IsAccess(q, v.rule.body, v.versions, plan.join, plan.varOrder)
          && IsAccess(p, v.rule.body, v.versions, plan.join, plan.varOrder);
    }
  }

  // In a body of several atoms, the index of every atom's pattern is needed by a column source of the rule's own
  // pipeline.
  lemma PatternIsNeeded(v: Variant, plan: Plan, canonical: map<string, seq<nat>>, p: AccessPattern)
    requires |v.versions| == |v.rule.body| && IsDefaultPlan(v, plan) && Lowerable(v.rule) && AllChecked(v.rule)
    requires |plan.access| > 1 && p in plan.access && p.version in {FULL, DELTA}
    ensures p.indexCols in OpsNeed(Pipeline(v.rule, plan, canonical), p.rel)
  {
    var read: Reader := (rel: string, version: Version, cols: seq<nat>) => iset{};
    EmptySetting(v, plan);
    AccessFacts(v, plan, read, iset{}, iset{}, p);
    var body, i := v.rule.body, p.clauseIdx;
    var x := SomeVariable(v, plan, p);
    AccessVarsAre(v, plan, read, iset{}, iset{}, p, x);
    AtomVarsListed(v, plan, i);
    OnePattern(v, plan, p);
    assert PlainAtom(body[i].atom);
    var st := JoinVars(plan.varOrder, plan.join, plan.access);
    hide Setting, IsDefaultPlan, Lowerable, AllChecked, OpsNeed, JoinVars, Cartesian, Pipeline, Fits, PatternOk, KeepIn;
    if x in plan.join {
      JoinedIsNeeded(plan.varOrder, plan.join, plan.access, p, x);
    } else {
      OwnIsIndependent(body, plan, p, x, i);
      BoundAreJoins(plan.varOrder, plan.join, plan.access);
      IndexIsKept(plan.varOrder, plan.join, plan.access, p);
      ProvidedIsNeeded(body, plan, st, p, x);
    }
    GeneratorsNeed(v.rule, plan, canonical, p.rel, p.indexCols);
  }

  // An atom beside others has arguments, so its pattern has a variable.
  lemma SomeVariable(v: Variant, plan: Plan, p: AccessPattern) returns (x: string)
    requires |v.versions| == |v.rule.body| && IsDefaultPlan(v, plan) && Lowerable(v.rule) && AllChecked(v.rule)
    requires |plan.access| > 1 && p in plan.access
    ensures x in p.accessOrder
  {
    hide *;
    var read: Reader := (rel: string, version: Version, cols: seq<nat>) => iset{};
    EmptySetting(v, plan);
    var i := CheckedArgs(v, plan, p);
    var args := v.rule.body[i].atom.args;
    x := args[0].name;
    FirstVar(args);
    AccessVarsAre(v, plan, read, iset{}, iset{}, p, x);
  }

  lemma FirstVar(args: seq<Arg>)
    requires |args| > 0 && args[0].LVar?
    ensures args[0].name in ArgVars(args)
  {
    assert args[0] == LVar(args[0].name);
  }

  lemma CheckedArgs(v: Variant, plan: Plan, p: AccessPattern) returns (i: nat)
    requires |v.versions| == |v.rule.body| && IsDefaultPlan(v, plan) && Lowerable(v.rule) && AllChecked(v.rule)
    requires |plan.access| > 1 && p in plan.access
    ensures i == p.clauseIdx && i < |v.rule.body| && v.rule.body[i].Pos? && |v.rule.body[i].atom.args| > 0
    ensures v.rule.body[i].atom.args[0].LVar?
  {
    PlanAccess(v, plan);
    hide IsDefaultPlan, Pattern;
    var body := v.rule.body;
    i := p.clauseIdx;
    var k :| 0 <= k < |plan.access| && plan.access[k] == p;
    var q := plan.access[if k == 0 then 1 else 0];
    assert q in plan.access && IsAccess(q, body, v.versions, plan.join, plan.varOrder)
        && IsAccess(p, body, v.versions, plan.join, plan.varOrder);
    assert q.clauseIdx != i && CheckedAtom(body, i) && body[q.clauseIdx].Pos?;
    assert PlainAtom(body[i].atom);
  }

  lemma {:induction false} BoundAreJoins(varOrder: seq<string>, join: set<string>, patterns: seq<AccessPattern>)
    ensures forall v :: v in JoinVars(varOrder, join, patterns).bound ==> v in varOrder && v in join
  {
    if |varOrder| > 0 {
      var init, last := varOrder[..|varOrder| - 1], varOrder[|varOrder| - 1];
      BoundAreJoins(init, join, patterns);
      hide JoinSources, Record;
    }
  }

  lemma GeneratorsNeed(rule: Rule, plan: Plan, canonical: map<string, seq<nat>>, rel: string, i: seq<nat>)
    requires |plan.access| > 1
    requires var st := JoinVars(plan.varOrder, plan.join, plan.access);
    i in OpsNeed(st.ops, rel) || i in OpsNeed(Cartesian(rule.body, plan, st), rel)
    ensures i in OpsNeed(Pipeline(rule, plan, canonical), rel)
  {
    var st := JoinVars(plan.varOrder, plan.join, plan.access);
    var gens, all := Generators(rule.body, plan), Pipeline(rule, plan, canonical);
    assert gens == st.ops + Cartesian(rule.body, plan, st);
    hide JoinVars, Cartesian, OpsNeed, Generators, FiltersAndLets, Negations, Inserts;
    OpsNeedPrefix(st.ops, Cartesian(rule.body, plan, st), rel);
    OpsNeedSuffix(st.ops, Cartesian(rule.body, plan, st), rel);
    var rest := Negations(plan.negations) + FiltersAndLets(rule.body) + Inserts(rule.heads, canonical);
    assert all == gens + rest;
    OpsNeedPrefix(gens, rest, rel);
  }

  // ========== Inserts and maintenance ==========

  // The index an insert names is the one its relation's NEW is built with.

  // The insert writes the head, into the canonical index if there is one, else into the columns as they are.
  ghost predicate InsertsHead(op: Op, head: Atom, canonical: map<string, Cols>) {
    && op.InsertInto? && op.rel == head.rel && op.vars == ArgVars(head.args)
    && if head.rel in canonical then op.index == canonical[head.rel]
       else |op.index| == |head.args| && forall c :: 0 <= c < |head.args| ==> op.index[c] == c
  }

  lemma PipelineInserts(rule: Rule, plan: Plan, canonical: map<string, Cols>, op: Op) returns (h: nat)
    requires op in Pipeline(rule, plan, canonical) && op.InsertInto?
    ensures h < |rule.heads| && InsertsHead(op, rule.heads[h], canonical)
  {
    var ops, front := Pipeline(rule, plan, canonical), BodyOps(rule, plan);
    var k :| 0 <= k < |ops| && ops[k] == op;
    InsertsAreLast(rule, plan, canonical, k);
    assert ops == front + Inserts(rule.heads, canonical);
    hide Pipeline, BodyOps;
    h := k - |front|;
    assert op == Inserts(rule.heads, canonical)[h];
  }

  lemma {:induction false} IndexOpsBuildNothing(rel: string, indices: seq<Cols>, canonical: Cols, merged: set<Cols>)
    ensures forall op :: op in IndexOps(rel, indices, canonical, merged) ==> !op.RebuildNew?
  {
    if |indices| > 0 { IndexOpsBuildNothing(rel, indices[..|indices| - 1], canonical, merged); }
  }

  lemma MaintenanceBuilds(u: Unit, rel: string, op: MaintOp)
    requires op in UnitMaintenance(u, rel) && op.RebuildNew?
    ensures rel in u.compiled.canonical && op == RebuildNew(rel, u.compiled.canonical[rel])
  {
    var c := u.compiled;
    if rel in c.required && rel in c.canonical {
      IndexOpsBuildNothing(rel, c.required[rel], c.canonical[rel], set i | i in c.required[rel]);
      IndexOpsBuildNothing(rel, c.required[rel], c.canonical[rel], FullNeeded(c.plans, rel));
    }
    hide IndexOps, FullNeeded;
  }

  lemma {:induction false} MaintFrom(u: Unit, rels: seq<string>, instr: Instr) returns (rel: string, op: MaintOp)
    requires instr in MaintInstrs(u, rels)
    ensures rel in rels && op in UnitMaintenance(u, rel) && instr == Maint(op)
  {
    hide UnitMaintenance;
    var init, last := rels[..|rels| - 1], rels[|rels| - 1];
    if instr in MaintInstrs(u, init) {
      rel, op := MaintFrom(u, init, instr);
    } else {
      var k :| 0 <= k < |ToInstrs(UnitMaintenance(u, last))| && ToInstrs(UnitMaintenance(u, last))[k] == instr;
      rel, op := last, UnitMaintenance(u, last)[k];
    }
  }

  lemma {:induction false} MaintListed(u: Unit, rels: seq<string>, rel: string, op: MaintOp)
    requires rel in rels && op in UnitMaintenance(u, rel)
    ensures Maint(op) in MaintInstrs(u, rels)
  {
    hide UnitMaintenance;
    var init, last := rels[..|rels| - 1], rels[|rels| - 1];
    if rel in init {
      MaintListed(u, init, rel, op);
    } else {
      var ops := UnitMaintenance(u, last);
      var k :| 0 <= k < |ops| && ops[k] == op;
      assert ToInstrs(ops)[k] == Maint(op);
    }
  }

  // Where an operation of the plan comes from.
  lemma OpFrom(u: Unit, op: Op) returns (k: nat)
    requires |u.compiled.plans| == |UnitVariants(u)| && InPlan(FixpointPlan(PlanInstrs(u)), op)
    ensures k < |UnitVariants(u)| && op in Pipeline(UnitVariants(u)[k].rule, u.compiled.plans[k], u.compiled.canonical)
  {
    hide UnitMaintenance, MaintainedRels;
    hide UnitVariants, Pipeline, MaintInstrs;
    var instr :| instr in PlanInstrs(u) && InInstr(instr, op);
    var ps := UnitPipelines(u);
    if instr in MaintInstrs(u, MaintainedRels(u)) {
      var rel, m := MaintFrom(u, MaintainedRels(u), instr);
    }
    assert instr in PipelineInstrs(ps);
    var ops: seq<Op> :| ops in ps && op in ops;
    k :| 0 <= k < |ps| && ps[k] == ops;
  }

  // An insert of a plan writes a head of one of its variants, and every rebuild of that relation's NEW in the plan
  // builds the index the insert names.
  lemma InsertsMatchMaintenance(u: Unit, op: Op)
    requires |u.compiled.plans| == |UnitVariants(u)|
    requires InPlan(FixpointPlan(PlanInstrs(u)), op) && op.InsertInto?
    ensures exists k, h ::
      0 <= k < |UnitVariants(u)| && 0 <= h < |UnitVariants(u)[k].rule.heads| &&
      InsertsHead(op, UnitVariants(u)[k].rule.heads[h], u.compiled.canonical)
    ensures forall i :: Maint(RebuildNew(op.rel, i)) in PlanInstrs(u) ==> i == op.index
  {
    hide UnitMaintenance, MaintainedRels;
    hide UnitVariants, Pipeline, MaintInstrs, UnitPipelines;
    var k := OpFrom(u, op);
    var h := PipelineInserts(UnitVariants(u)[k].rule, u.compiled.plans[k], u.compiled.canonical, op);
    forall i | Maint(RebuildNew(op.rel, i)) in PlanInstrs(u) ensures i == op.index {
      var rel, m := MaintFrom(u, MaintainedRels(u), Maint(RebuildNew(op.rel, i)));
      MaintenanceBuilds(u, rel, m);
    }
  }

  // In a compiled unit there is such a rebuild.
  lemma InsertedIsBuilt(u: Unit, arity: map<string, nat>, op: Op)
    requires UnitCompiled(u, arity) && |u.compiled.plans| == |UnitVariants(u)|
    requires InPlan(FixpointPlan(PlanInstrs(u)), op) && op.InsertInto?
    ensures Maint(RebuildNew(op.rel, op.index)) in PlanInstrs(u)
  {
    hide UnitCompiled, UnitPipelines;
    InsertedIsMaintained(u, arity, op);
    var rel, c := op.rel, u.compiled;
    assert RebuildNew(rel, c.canonical[rel]) in UnitMaintenance(u, rel) by {
      assert UnitMaintenance(u, rel)[0] == RebuildNew(rel, c.canonical[rel]);
    }
    hide *;
    MaintListed(u, MaintainedRels(u), rel, RebuildNew(rel, c.canonical[rel]));
    StepOfPlan(u, rel);
    InsertsMatchMaintenance(u, op);
  }

  lemma InsertedIsMaintained(u: Unit, arity: map<string, nat>, op: Op)
    requires UnitCompiled(u, arity) && |u.compiled.plans| == |UnitVariants(u)|
    requires InPlan(FixpointPlan(PlanInstrs(u)), op) && op.InsertInto?
    ensures op.rel in MaintainedRels(u) && op.rel in u.compiled.required && op.rel in u.compiled.canonical
  {
    hide *;
    PlanWritesAndMerges(u, op.rel);
    WritesIff(FixpointPlan(PlanInstrs(u)), op.rel);
    MakeInserts(FixpointPlan(PlanInstrs(u)), op);
    if u.recursive {
      LoopSets(u, arity, op.rel);
      LoopMaintains(u, op.rel);
    } else {
      BaseSets(u, arity, op.rel);
    }
  }

  lemma MakeInserts(step: Step, op: Op)
    requires InPlan(step, op) && op.InsertInto?
    ensures InsertsInto(step, op.rel)
  {}

  lemma LoopMaintains(u: Unit, rel: string)
    requires u.recursive
    ensures rel in MaintainedRels(u) <==> rel in ReconstructedRels(u)
  {}

  // An atom of plan k reads the index as FULL.
  ghost predicate FullReadAt(plans: seq<Plan>, k: nat, p: AccessPattern, rel: string, i: Cols) {
    k < |plans| && p in plans[k].access && p.rel == rel && p.version == FULL && p.indexCols == i
  }

  lemma {:induction false} FullNeededIff(plans: seq<Plan>, rel: string, i: Cols)
    ensures i in FullNeeded(plans, rel) <==> exists k, p :: FullReadAt(plans, k, p, rel, i)
  {
    if |plans| > 0 {
      var m: nat := |plans| - 1;
      var init, last := plans[..m], plans[m];
      FullNeededIff(init, rel, i);
      if k: nat, p :| FullReadAt(init, k, p, rel, i) { assert FullReadAt(plans, k, p, rel, i); }
      if i in FullRead(last.access, rel) {
        var p :| p in last.access && p.rel == rel && p.version == FULL && p.indexCols == i;
        assert FullReadAt(plans, m, p, rel, i);
      }
      if k: nat, p :| FullReadAt(plans, k, p, rel, i) {
        if k < m { assert FullReadAt(init, k, p, rel, i); }
      }
    }
  }

  // A plan merges exactly the required indexes of what it maintains; one of a loop those alone that are canonical or
  // that one of its atoms reads as FULL.
  lemma MergesIff(u: Unit, rel: string, i: Cols)
    requires |u.compiled.plans| == |UnitVariants(u)|
    ensures var c := u.compiled;
      MergesIndex(FixpointPlan(PlanInstrs(u)), rel, i) <==>
        && rel in MaintainedRels(u) && rel in c.required && rel in c.canonical && i in c.required[rel]
        && (u.recursive ==> i == c.canonical[rel] || exists k, p :: FullReadAt(c.plans, k, p, rel, i))
  {
    PlanWritesAndMerges(u, rel);
    MergedInIff(PlanInstrs(u), rel, i);
    FullNeededIff(u.compiled.plans, rel, i);
    hide UnitVariants, PlanInstrs, MergedIn, FullNeeded, FullReadAt, MaintainedRels;
  }
}
