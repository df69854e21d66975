/** A compiled program run: each unit ensures its indexes, runs its plan and reconstructs what it wrote. It computes
    what the strata mean, and comes to its end when that is finite. */
module WholeProgram {
  import opened Datalog
  import opened Seqs
  import opened Dependencies
  import opened StableModel
  import opened SemiNaive
  import opened Planner
  import opened Mir
  import opened Lowering
  import opened Freshness
  import opened Variants
  import opened Maintenance
  import opened CompiledProgram
  import opened LoweringTheorem

  // ========== Unit tails ==========

  // What happens between the plan of one unit and the next: its relations' column storage is rebuilt from their
  // canonical indexes, and the inserted rebuilds are run or not.

  // --- Rebuilds, run or left out ---

  // After a reconstruction only rebuilds of its relation, after other steps nothing.
  ghost predicate FitsBlock(step: Freshness.Step, block: seq<Freshness.Step>) {
    if step.PostReconstruct? then forall k :: 0 <= k < |block| ==> block[k].Rebuild? && block[k].rel == step.rel
    else block == []
  }

  ghost predicate FitBlocks(steps: seq<Freshness.Step>, blocks: seq<seq<Freshness.Step>>) {
    |blocks| == |steps| && forall q :: 0 <= q < |steps| ==> FitsBlock(steps[q], blocks[q])
  }

  // The blocks that are run: each that was inserted, or nothing in its place. Generated code runs none.
  ghost predicate LeavesOut(blocks: seq<seq<Freshness.Step>>, run: seq<seq<Freshness.Step>>) {
    |run| == |blocks| && forall q :: 0 <= q < |run| ==> run[q] == blocks[q] || run[q] == []
  }

  lemma LeftOutFit(steps: seq<Freshness.Step>, blocks: seq<seq<Freshness.Step>>, run: seq<seq<Freshness.Step>>)
    requires AllBlocks(steps, blocks) && LeavesOut(blocks, run)
    ensures FitBlocks(steps, run)
  {
    hide NeededFrom, LastMerged;
    forall q | 0 <= q < |steps| ensures FitsBlock(steps[q], run[q]) { assert IsBlock(steps, q, blocks[q]); }
  }

  // The indexes of rel that some block rebuilds.
  ghost function BuiltBy(blocks: seq<seq<Freshness.Step>>, rel: string): iset<Cols> {
    iset i: Cols | BuildsSome(blocks, rel, i)
  }

  ghost predicate BuildsSome(blocks: seq<seq<Freshness.Step>>, rel: string, i: Cols) {
    exists q :: 0 <= q < |blocks| && Rebuild(rel, i) in blocks[q]
  }

  // --- One reconstruction ---

  // Column storage is the canonical index; indexes stay as they were, or are built from it.
  ghost predicate Rebased(s: RelState, t: RelState, c: Cols, built: iset<Cols>) {
    && t.pending == s.pending && t.news == s.news && t.base == At(s.fulls, c) && t.interned == SizeOf(t.base)
    && forall i :: KeptOrBuilt(s, t, i, built)
  }

  ghost predicate KeptOrBuilt(s: RelState, t: RelState, i: Cols, built: iset<Cols>) {
    || (At(t.fulls, i) == At(s.fulls, i) && CountAt(t.rows, i) == CountAt(s.rows, i))
    || (i in built && At(t.fulls, i) == t.base && CountAt(t.rows, i) == t.interned)
  }

  // What a reconstruction with its block does to the stored relations.
  ghost predicate Reconstructs1(rel: string, c: Cols, built: iset<Cols>, a: World, b: World) {
    && b.truth == a.truth && b.db.Keys == a.db.Keys && rel in a.db && Rebased(a.db[rel], b.db[rel], c, built)
    && forall other :: other in a.db && other != rel ==> b.db[other] == a.db[other]
  }

  lemma BlockRebases(blocks: seq<seq<Freshness.Step>>, q: nat, rel: string, c: Cols, a: World, b: World)
    requires q < |blocks| && FitsBlock(PostReconstruct(rel, c), blocks[q])
    requires RunsTo([PostReconstruct(rel, c)] + blocks[q], a, b)
    ensures Reconstructs1(rel, c, BuiltBy(blocks, rel), a, b)
  {
    hide StepEffect, Rebuilt, Reconstructs1;
    var block := blocks[q];
    assert forall k :: 0 <= k < |block| ==> block[k].Rebuild? && block[k].rel == rel;
    hide RunsTo, FitsBlock;
    RunsToAppend([PostReconstruct(rel, c)], block, a, b);
    var mid :| RunsTo([PostReconstruct(rel, c)], a, mid) && RunsTo(block, mid, b);
    OneStep(PostReconstruct(rel, c), a, mid);
    RebuildsMeaning(rel, block, mid, b);
    assert forall i :: Rebuild(rel, i) in block ==> BuildsSome(blocks, rel, i);
    StepThenBlock(rel, c, block, BuiltBy(blocks, rel), a, mid, b);
  }

  lemma StepThenBlock(rel: string, c: Cols, block: seq<Freshness.Step>, built: iset<Cols>, a: World, mid: World,
                      b: World)
    requires StepEffect(PostReconstruct(rel, c), a, mid) && Rebuilt(rel, block, mid, b)
    requires forall i :: Rebuild(rel, i) in block ==> i in built
    ensures Reconstructs1(rel, c, built, a, b)
  {
    hide At, CountAt;
    var s, t := a.db[rel], b.db[rel];
    assert mid.db[rel] == ExecOn(Reconstruct(rel, c), s);
    forall i ensures KeptOrBuilt(s, t, i, built) {
      assert At(mid.db[rel].fulls, i) == At(s.fulls, i) && CountAt(mid.db[rel].rows, i) == CountAt(s.rows, i);
    }
  }

  // --- A stretch of them ---

  ghost predicate Distinct(steps: seq<Freshness.Step>, p: nat, n: nat) {
    && p <= n <= |steps| && (forall q :: p <= q < n ==> steps[q].PostReconstruct?)
    && forall q, r ::
        p <= q < r < n ==> steps[q].PostReconstruct? && steps[r].PostReconstruct? && steps[q].rel != steps[r].rel
  }

  // Steps p to n reconstruct rel, from c.
  ghost predicate ReconstructsFrom(steps: seq<Freshness.Step>, p: nat, n: nat, rel: string, c: Cols) {
    n <= |steps| && exists q :: p <= q < n && steps[q] == PostReconstruct(rel, c)
  }

  ghost predicate Untouched(steps: seq<Freshness.Step>, p: nat, n: nat, rel: string) {
    forall c :: !ReconstructsFrom(steps, p, n, rel, c)
  }

  ghost predicate StretchEffect(steps: seq<Freshness.Step>, blocks: seq<seq<Freshness.Step>>, p: nat, n: nat, a: World,
                                b: World) {
    && b.truth == a.truth && b.db.Keys == a.db.Keys
    && (forall rel, c ::
        ReconstructsFrom(steps, p, n, rel, c) ==> rel in a.db && Rebased(a.db[rel], b.db[rel], c, BuiltBy(blocks, rel)))
    && forall rel :: rel in a.db && Untouched(steps, p, n, rel) ==> b.db[rel] == a.db[rel]
  }

  lemma ReconstructsNext(steps: seq<Freshness.Step>, p: nat, n: nat, rel: string, c: Cols)
    requires p < n <= |steps|
    ensures ReconstructsFrom(steps, p, n, rel, c)
        <==> ReconstructsFrom(steps, p, n - 1, rel, c) || steps[n - 1] == PostReconstruct(rel, c)
  {}

  lemma NotBefore(steps: seq<Freshness.Step>, p: nat, n: nat)
    requires p < n && Distinct(steps, p, n)
    ensures Untouched(steps, p, n - 1, steps[n - 1].rel)
  {}

  lemma EffectThen(steps: seq<Freshness.Step>, blocks: seq<seq<Freshness.Step>>, p: nat, n: nat, a: World, mid: World,
                   b: World)
    requires p < n && Distinct(steps, p, n) && StretchEffect(steps, blocks, p, n - 1, a, mid)
    requires Reconstructs1(steps[n - 1].rel, steps[n - 1].canonical, BuiltBy(blocks, steps[n - 1].rel), mid, b)
    ensures StretchEffect(steps, blocks, p, n, a, b)
  {
    hide BuiltBy;
    var last, m: nat := steps[n - 1], n - 1;
    assert last == PostReconstruct(last.rel, last.canonical);
    NotBefore(steps, p, n);
    hide Distinct, Rebased, ReconstructsFrom;
    assert mid.db[last.rel] == a.db[last.rel];
    forall rel, c | ReconstructsFrom(steps, p, n, rel, c)
      ensures rel in a.db && Rebased(a.db[rel], b.db[rel], c, BuiltBy(blocks, rel)) {
      ReconstructsNext(steps, p, n, rel, c);
    }
    forall rel | rel in a.db && Untouched(steps, p, n, rel) ensures b.db[rel] == a.db[rel] {
      forall c ensures !ReconstructsFrom(steps, p, m, rel, c) { ReconstructsNext(steps, p, n, rel, c); }
      ReconstructsNext(steps, p, n, rel, last.canonical);
    }
  }

  lemma {:induction false} StretchMeaning(steps: seq<Freshness.Step>, blocks: seq<seq<Freshness.Step>>, p: nat, n: nat,
                                          a: World, b: World)
    requires Distinct(steps, p, n) && FitBlocks(steps, blocks) && |blocks| == |steps|
    requires RunsTo(Stretch(steps, blocks, p, n), a, b)
    ensures StretchEffect(steps, blocks, p, n, a, b)
  {
    if n == p {
    } else {
      var front, last := Stretch(steps, blocks, p, n - 1), [steps[n - 1]] + blocks[n - 1];
      assert steps[n - 1] == PostReconstruct(steps[n - 1].rel, steps[n - 1].canonical)
          && FitsBlock(steps[n - 1], blocks[n - 1]);
      assert Distinct(steps, p, n - 1);
      assert Stretch(steps, blocks, p, n) == front + last;
      hide RunsTo, Distinct, StretchEffect, FitsBlock, Stretch;
      RunsToAppend(front, last, a, b);
      var mid :| RunsTo(front, a, mid) && RunsTo(last, mid, b);
      StretchMeaning(steps, blocks, p, n - 1, a, mid);
      BlockRebases(blocks, n - 1, steps[n - 1].rel, steps[n - 1].canonical, mid, b);
      EffectThen(steps, blocks, p, n, a, mid, b);
    }
  }

  // --- The tail of a unit ---

  // Where unit k's steps lie.
  ghost predicate Places(us: seq<Unit>, k: nat) {
    && Planned(us) && k < |us| && StartOf(Segments(us), k) + 1 <= StartOf(Segments(us), k + 1) <= |ProgramSteps(us)|
  }

  // Between the plan of unit k and the next plan: its reconstructions, each with its block.
  function Tail(us: seq<Unit>, blocks: seq<seq<Freshness.Step>>, k: nat): seq<Freshness.Step>
    requires Planned(us) && k < |us| && |blocks| == |ProgramSteps(us)|
    requires StartOf(Segments(us), k) + 1 <= StartOf(Segments(us), k + 1) <= |ProgramSteps(us)|
  {
    Stretch(ProgramSteps(us), blocks, StartOf(Segments(us), k) + 1, StartOf(Segments(us), k + 1))
  }

  lemma SegmentSteps(segs: seq<seq<Freshness.Step>>, k: nat)
    requires k < |segs| && SegmentOk(segs[k])
    ensures StartOf(segs, k) + 1 <= StartOf(segs, k + 1) <= |Concat(segs)|
    ensures StartOf(segs, k + 1) == StartOf(segs, k) + |segs[k]|
    ensures Concat(segs)[StartOf(segs, k)..StartOf(segs, k + 1)] == segs[k]
  {
    hide Concat, StartOf, Writes, MergedBy;
    StepOfSegment(segs, k, 0);
    StartNext(segs, k);
    var p, part := StartOf(segs, k), Concat(segs)[StartOf(segs, k)..StartOf(segs, k + 1)];
    forall j | 0 <= j < |segs[k]| ensures part[j] == segs[k][j] { StepOfSegment(segs, k, j); }
  }

  lemma UnitPlaces(us: seq<Unit>, k: nat)
    requires UnitsOk(us) && k < |us|
    ensures Places(us, k)
  {
    hide *;
    UnitsPlanned(us);
    SegmentIsOk(us, k);
    ProgramIsConcat(us);
    SegmentSteps(Segments(us), k);
    MakePlaces(us, k);
  }

  lemma MakePlaces(us: seq<Unit>, k: nat)
    requires Planned(us) && k < |us|
    requires StartOf(Segments(us), k) + 1 <= StartOf(Segments(us), k + 1) <= |ProgramSteps(us)|
    ensures Places(us, k)
  {}

  lemma PlaceMeans(us: seq<Unit>, k: nat)
    requires Places(us, k)
    ensures Planned(us) && k < |us|
    ensures StartOf(Segments(us), k) + 1 <= StartOf(Segments(us), k + 1) <= |ProgramSteps(us)|
  {}

  // The segment reconstructs rel from c.
  ghost predicate InSegment(seg: seq<Freshness.Step>, rel: string, c: Cols) {
    exists j :: 0 < j < |seg| && seg[j] == PostReconstruct(rel, c)
  }

  // The segment as a stretch of steps.
  lemma TailIsDistinct(seg: seq<Freshness.Step>, steps: seq<Freshness.Step>, p: nat, n: nat)
    requires SegmentOk(seg) && p < n <= |steps| && steps[p..n] == seg
    ensures Distinct(steps, p + 1, n)
    ensures forall rel, c :: ReconstructsFrom(steps, p + 1, n, rel, c) <==> InSegment(seg, rel, c)
  {
    hide Writes, MergedBy;
    forall q | p <= q < n ensures steps[q] == seg[q - p] { assert steps[p..n][q - p] == steps[q]; }
    forall rel, c ensures ReconstructsFrom(steps, p + 1, n, rel, c) <==> InSegment(seg, rel, c) {
      if InSegment(seg, rel, c) {
        var j :| 0 < j < |seg| && seg[j] == PostReconstruct(rel, c);
        assert steps[p + j] == PostReconstruct(rel, c);
      }
      if ReconstructsFrom(steps, p + 1, n, rel, c) {
        var q :| p + 1 <= q < n && steps[q] == PostReconstruct(rel, c);
        assert seg[q - p] == PostReconstruct(rel, c);
      }
    }
  }

  // What the unit reconstructs is rebased on its canonical index, everything else is left as it was.
  ghost predicate TailEffect(u: Unit, blocks: seq<seq<Freshness.Step>>, m: World, b: World) {
    && b.truth == m.truth && b.db.Keys == m.db.Keys
    && forall rel :: rel in m.db ==>
         if rel in ReconstructedRels(u) && rel in u.compiled.canonical
             then Rebased(m.db[rel], b.db[rel], u.compiled.canonical[rel], BuiltBy(blocks, rel))
         else b.db[rel] == m.db[rel]
  }

  lemma TailMeaning(us: seq<Unit>, blocks: seq<seq<Freshness.Step>>, k: nat, m: World, b: World)
    requires UnitsOk(us) && Places(us, k) && FitBlocks(ProgramSteps(us), blocks) && |blocks| == |ProgramSteps(us)|
    requires RunsTo(Tail(us, blocks, k), m, b)
    ensures TailEffect(us[k], blocks, m, b)
  {
    hide RunsTo;
    var steps, p, n := ProgramSteps(us), StartOf(Segments(us), k), StartOf(Segments(us), k + 1);
    assert Tail(us, blocks, k) == Stretch(steps, blocks, p + 1, n);
    SegmentIsOk(us, k);
    UnitTailSteps(us, k);
    hide *;
    ProgramIsConcat(us);
    SegmentSteps(Segments(us), k);
    TailIsDistinct(Segments(us)[k], steps, p, n);
    StretchMeaning(steps, blocks, p + 1, n, m, b);
    EffectOfUnit(us[k], Segments(us)[k], steps, blocks, p + 1, n, m, b);
  }

  ghost predicate FromUnit(u: Unit, rel: string, c: Cols) {
    rel in ReconstructedRels(u) && rel in u.compiled.canonical && c == u.compiled.canonical[rel]
  }

  lemma UnitTailSteps(us: seq<Unit>, k: nat)
    requires UnitsOk(us) && Planned(us) && k < |us|
    ensures forall rel, c :: InSegment(Segments(us)[k], rel, c) <==> FromUnit(us[k], rel, c)
  {
    var u := us[k];
    assert UnitOk(u) && Segments(us)[k] == UnitSteps(u);
    hide UnitOk, UnitsOk, UnitSteps, Segments, PlanInstrs, ReconstructedRels, UnitVariants, SegmentOk, Writes, MergedBy,
        HeadSet, MergedOf;
    UnitIsSegment(u);
    forall rel, c | InSegment(UnitSteps(u), rel, c) ensures FromUnit(u, rel, c) {
      var j :| 0 < j < |UnitSteps(u)| && UnitSteps(u)[j] == PostReconstruct(rel, c);
      assert FromList(u.compiled, ReconstructedRels(u), UnitSteps(u)[j]);
    }
  }

  lemma EffectOfUnit(u: Unit, seg: seq<Freshness.Step>, steps: seq<Freshness.Step>, blocks: seq<seq<Freshness.Step>>,
                     p: nat, n: nat, m: World, b: World)
    requires StretchEffect(steps, blocks, p, n, m, b)
    requires forall rel, c :: ReconstructsFrom(steps, p, n, rel, c) <==> InSegment(seg, rel, c)
    requires forall rel, c :: InSegment(seg, rel, c) <==> FromUnit(u, rel, c)
    ensures TailEffect(u, blocks, m, b)
  {
    hide Rebased, ReconstructsFrom, ReconstructedRels, InSegment;
    forall rel | rel in m.db
      ensures if rel in ReconstructedRels(u)
                && rel in u.compiled.canonical then Rebased(m.db[rel], b.db[rel], u.compiled.canonical[rel],
                BuiltBy(blocks, rel))
              else b.db[rel] == m.db[rel]
    {
      if rel in ReconstructedRels(u) && rel in u.compiled.canonical {
        assert FromUnit(u, rel, u.compiled.canonical[rel]);
      } else {
        assert forall c :: !FromUnit(u, rel, c);
        assert Untouched(steps, p, n, rel);
      }
    }
  }

  // --- It can always be run ---

  lemma {:induction false} BlockRuns(rel: string, block: seq<Freshness.Step>, a: World) returns (b: World)
    requires rel in a.db && a.db.Keys == a.truth.Keys
    requires forall k :: 0 <= k < |block| ==> block[k].Rebuild? && block[k].rel == rel
    ensures RunsTo(block, a, b) && b.db.Keys == b.truth.Keys == a.db.Keys
  {
    if |block| == 0 {
      b := a;
    } else {
      var last := block[|block| - 1];
      var mid := BlockRuns(rel, block[..|block| - 1], a);
      b := World(mid.db[rel := ExecOn(RebuildFull(rel, last.index), mid.db[rel])], mid.truth);
      assert StepEffect(last, mid, b);
    }
  }

  lemma ReconstructRuns(step: Freshness.Step, block: seq<Freshness.Step>, a: World) returns (b: World)
    requires step.PostReconstruct? && FitsBlock(step, block) && step.rel in a.db && a.db.Keys == a.truth.Keys
    ensures RunsTo([step] + block, a, b) && b.db.Keys == b.truth.Keys == a.db.Keys
  {
    hide ExecOn;
    var mid := World(a.db[step.rel := ExecOn(Reconstruct(step.rel, step.canonical), a.db[step.rel])], a.truth);
    assert StepEffect(step, a, mid);
    SingleStep(step, a, mid);
    b := BlockRuns(step.rel, block, mid);
    hide RunsTo;
    RunsJoin([step], block, a, mid, b);
  }

  ghost predicate Doable(steps: seq<Freshness.Step>, p: nat, n: nat, names: set<string>) {
    p <= n <= |steps| && forall q :: p <= q < n ==> steps[q].PostReconstruct? && steps[q].rel in names
  }

  lemma DoableBack(steps: seq<Freshness.Step>, blocks: seq<seq<Freshness.Step>>, p: nat, n: nat, names: set<string>)
    requires Doable(steps, p, n, names) && FitBlocks(steps, blocks)
    ensures p <= n <= |steps| == |blocks|
    ensures n > p ==>
        Doable(steps, p, n - 1, names) && steps[n - 1].PostReconstruct? && steps[n - 1].rel in names
        && FitsBlock(steps[n - 1], blocks[n - 1])
    ensures Stretch(steps, blocks, p, n) == if n == p then []
                                              else Stretch(steps, blocks, p, n - 1) + ([steps[n - 1]] + blocks[n - 1])
  {
    hide FitsBlock;
  }

  lemma RunsNothing(a: World)
    ensures RunsTo([], a, a)
  {}

  lemma {:induction false} StretchRuns(steps: seq<Freshness.Step>, blocks: seq<seq<Freshness.Step>>, p: nat, n: nat,
                                       a: World) returns (b: World)
    requires Doable(steps, p, n, a.db.Keys) && FitBlocks(steps, blocks) && a.db.Keys == a.truth.Keys
    ensures p <= n <= |steps| == |blocks| && RunsTo(Stretch(steps, blocks, p, n), a, b)
    ensures b.db.Keys == b.truth.Keys == a.db.Keys
    decreases n - p
  {
    hide *;
    DoableBack(steps, blocks, p, n, a.db.Keys);
    if n == p {
      b := a;
      RunsNothing(a);
    } else {
      var mid := StretchRuns(steps, blocks, p, n - 1, a);
      b := ReconstructRuns(steps[n - 1], blocks[n - 1], mid);
      RunsJoin(Stretch(steps, blocks, p, n - 1), [steps[n - 1]] + blocks[n - 1], a, mid, b);
    }
  }

  lemma TailIs(us: seq<Unit>, blocks: seq<seq<Freshness.Step>>, k: nat)
    requires Places(us, k) && |blocks| == |ProgramSteps(us)|
    ensures Tail(us, blocks, k) == Stretch(ProgramSteps(us), blocks, StartOf(Segments(us), k) + 1,
                                           StartOf(Segments(us), k + 1))
  {}

  lemma TailRuns(us: seq<Unit>, blocks: seq<seq<Freshness.Step>>, k: nat, m: World) returns (b: World)
    requires UnitsOk(us) && Places(us, k) && FitBlocks(ProgramSteps(us), blocks) && |blocks| == |ProgramSteps(us)|
    requires m.db.Keys == m.truth.Keys
    requires forall rel :: rel in ReconstructedRels(us[k]) ==> rel in m.db
    ensures RunsTo(Tail(us, blocks, k), m, b)
  {
    hide *;
    PlaceMeans(us, k);
    var steps, p, n := ProgramSteps(us), StartOf(Segments(us), k), StartOf(Segments(us), k + 1);
    TailIs(us, blocks, k);
    SegmentIsOk(us, k);
    UnitTailSteps(us, k);
    ProgramIsConcat(us);
    SegmentSteps(Segments(us), k);
    TailIsDistinct(Segments(us)[k], steps, p, n);
    DistinctNamed(us[k], Segments(us)[k], steps, p + 1, n, m.db.Keys);
    b := StretchRuns(steps, blocks, p + 1, n, m);
  }

  lemma DistinctNamed(u: Unit, seg: seq<Freshness.Step>, steps: seq<Freshness.Step>, p: nat, n: nat, names: set<string>)
    requires Distinct(steps, p, n) && forall rel :: rel in ReconstructedRels(u) ==> rel in names
    requires forall rel, c :: ReconstructsFrom(steps, p, n, rel, c) <==> InSegment(seg, rel, c)
    requires forall rel, c :: InSegment(seg, rel, c) <==> FromUnit(u, rel, c)
    ensures Doable(steps, p, n, names)
  {
    hide ReconstructedRels, InSegment;
    forall q | p <= q < n ensures steps[q].PostReconstruct? && steps[q].rel in names {
      assert steps[q] == PostReconstruct(steps[q].rel, steps[q].canonical);
      assert ReconstructsFrom(steps, p, n, steps[q].rel, steps[q].canonical);
      assert FromUnit(u, steps[q].rel, steps[q].canonical);
    }
  }

  // ========== Ensures ==========

  // The indexes that generated code ensures before a plan runs, and why the plan then reads current rows.

  // --- Which indexes ---

  // Column sources and negations are ensured before every plan, scans only before one that runs once.
  function OpEnsures(op: Op, rel: string, scans: bool): set<Cols> {
    match op
    case Scan(_, s) => if scans && s.rel == rel then {s.index} else {}
    case Negation(s, _) => if s.rel == rel then {s.index} else {}
    case _ => OpNeeds(op, rel)
  }

  function OpsEnsure(ops: seq<Op>, rel: string, scans: bool): set<Cols> {
    if |ops| == 0 then {} else OpsEnsure(ops[..|ops| - 1], rel, scans) + OpEnsures(ops[|ops| - 1], rel, scans)
  }

  function AllEnsure(ps: seq<seq<Op>>, rel: string, scans: bool): set<Cols> {
    if |ps| == 0 then {} else AllEnsure(ps[..|ps| - 1], rel, scans) + OpsEnsure(ps[|ps| - 1], rel, scans)
  }

  function EnsuredCols(u: Unit, rel: string): set<Cols> {
    if |u.compiled.plans| == |UnitVariants(u)| then AllEnsure(UnitPipelines(u), rel, !u.recursive) else {}
  }

  // The operation makes the generated code ensure the index: a join that reads it as FULL or DELTA, a negation that
  // reads it, or, in a plan that runs once, a scan of it.
  ghost predicate EnsuresIndex(op: Op, rel: string, i: Cols, once: bool) {
    || (exists s :: OpReads(op, rel, i, s))
    || (op.Negation? && op.source.rel == rel && op.source.index == i)
    || (once && op.Scan? && op.source.rel == rel && op.source.index == i)
  }

  lemma {:induction false} OpsEnsureIff(ops: seq<Op>, rel: string, scans: bool, i: Cols)
    ensures i in OpsEnsure(ops, rel, scans) <==> exists op :: op in ops && EnsuresIndex(op, rel, i, scans)
  {
    hide OpReads;
    if |ops| > 0 {
      var init, last := ops[..|ops| - 1], ops[|ops| - 1];
      OpsEnsureIff(init, rel, scans, i);
      OpNeedsIff(last, rel, i);
      assert ops == init + [last];
      assert i in OpEnsures(last, rel, scans) <==> EnsuresIndex(last, rel, i, scans);
      hide OpEnsures, EnsuresIndex;
    }
  }

  lemma {:induction false} AllEnsureIff(ps: seq<seq<Op>>, rel: string, scans: bool, i: Cols)
    ensures i in AllEnsure(ps, rel, scans) <==> exists ops :: ops in ps && i in OpsEnsure(ops, rel, scans)
  {
    hide OpsEnsure;
    if |ps| > 0 {
      var init, last := ps[..|ps| - 1], ps[|ps| - 1];
      AllEnsureIff(init, rel, scans, i);
      assert ps == init + [last];
      if i in AllEnsure(init, rel, scans) {
        var ops: seq<Op> :| ops in init && i in OpsEnsure(ops, rel, scans);
        assert ops in ps;
      }
      if i in OpsEnsure(last, rel, scans) { assert last in ps; }
      if ops: seq<Op> :| ops in ps && i in OpsEnsure(ops, rel, scans) {
        if ops in init { assert i in AllEnsure(init, rel, scans); } else { assert ops == last; }
      }
    }
  }

  // An index is ensured before a unit's plan if and only if an operation of the plan asks for it.
  lemma EnsuredIff(u: Unit, rel: string, i: Cols)
    requires |u.compiled.plans| == |UnitVariants(u)|
    ensures i in EnsuredCols(u, rel) <==>
            exists op :: InPlan(FixpointPlan(PlanInstrs(u)), op) && EnsuresIndex(op, rel, i, !u.recursive)
  {
    var ps := UnitPipelines(u);
    AllEnsureIff(ps, rel, !u.recursive, i);
    hide UnitVariants, UnitPipelines, EnsuresIndex, AllEnsure, OpsEnsure, PlanInstrs, InPlan;
    if ops: seq<Op> :| ops in ps && i in OpsEnsure(ops, rel, !u.recursive) {
      OpsEnsureIff(ops, rel, !u.recursive, i);
      var op :| op in ops && EnsuresIndex(op, rel, i, !u.recursive);
      PipelineInPlan(u, ops, op);
    }
    if op: Op :| InPlan(FixpointPlan(PlanInstrs(u)), op) && EnsuresIndex(op, rel, i, !u.recursive) {
      var ops := PipelineOf(u, op);
      OpsEnsureIff(ops, rel, !u.recursive, i);
    }
  }

  lemma PipelineInPlan(u: Unit, ops: seq<Op>, op: Op)
    requires |u.compiled.plans| == |UnitVariants(u)| && ops in UnitPipelines(u) && op in ops
    ensures InPlan(FixpointPlan(PlanInstrs(u)), op)
  {
    var ps := UnitPipelines(u);
    hide UnitVariants, UnitPipelines, MaintInstrs, MaintainedRels;
    InstrHolds(ps, ops, op);
    hide PipelineInstrs, InInstr;
    var instr :| instr in PipelineInstrs(ps) && InInstr(instr, op);
    assert instr in PlanInstrs(u);
  }

  lemma InstrHolds(ps: seq<seq<Op>>, ops: seq<Op>, op: Op)
    requires ops in ps && op in ops
    ensures exists instr :: instr in PipelineInstrs(ps) && InInstr(instr, op)
  {
    var instr := if |ps| > 1 then Parallel(ps) else Execute(ps[0]);
    assert PipelineInstrs(ps) == [instr] && InInstr(instr, op);
  }

  lemma PipelineOf(u: Unit, op: Op) returns (ops: seq<Op>)
    requires |u.compiled.plans| == |UnitVariants(u)| && InPlan(FixpointPlan(PlanInstrs(u)), op)
    ensures ops in UnitPipelines(u) && op in ops
  {
    hide PlanInstrs;
    var k := OpFrom(u, op);
    hide UnitVariants, Pipeline;
    ops := UnitPipelines(u)[k];
  }

  method CollectPipeline(ops: seq<Op>, rel: string, scans: bool) returns (cols: set<Cols>)
    ensures cols == OpsEnsure(ops, rel, scans)
  {
    cols := {};
    for k := 0 to |ops|
      invariant cols == OpsEnsure(ops[..k], rel, scans)
    {
      assert ops[..k + 1][..k] == ops[..k];
      cols := cols + OpEnsures(ops[k], rel, scans);
    }
    assert ops[..|ops|] == ops;
  }

  method CollectEnsured(u: Unit, rel: string) returns (cols: set<Cols>)
    requires |u.compiled.plans| == |UnitVariants(u)|
    ensures cols == EnsuredCols(u, rel)
  {
    hide OpsEnsure, UnitPipelines;
    var ps := LowerPipelines(u);
    cols := {};
    for k := 0 to |ps|
      invariant cols == AllEnsure(ps[..k], rel, !u.recursive)
    {
      assert ps[..k + 1][..k] == ps[..k];
      var more := CollectPipeline(ps[k], rel, !u.recursive);
      cols := cols + more;
    }
    assert ps[..|ps|] == ps;
  }

  lemma {:induction false} NeedsAreEnsured(ops: seq<Op>, rel: string, scans: bool)
    ensures OpsNeed(ops, rel) <= OpsEnsure(ops, rel, scans)
  {
    if |ops| > 0 { NeedsAreEnsured(ops[..|ops| - 1], rel, scans); }
  }

  lemma {:induction false} OpsEnsureHas(ops: seq<Op>, rel: string, scans: bool, k: nat)
    requires k < |ops|
    ensures OpEnsures(ops[k], rel, scans) <= OpsEnsure(ops, rel, scans)
  {
    hide OpEnsures;
    if k < |ops| - 1 { OpsEnsureHas(ops[..|ops| - 1], rel, scans, k); }
  }

  lemma {:induction false} AllEnsureHas(ps: seq<seq<Op>>, rel: string, scans: bool, k: nat)
    requires k < |ps|
    ensures OpsEnsure(ps[k], rel, scans) <= AllEnsure(ps, rel, scans)
  {
    hide OpsEnsure;
    if k < |ps| - 1 { AllEnsureHas(ps[..|ps| - 1], rel, scans, k); }
  }

  // --- Every read but a loop's scan is ensured ---

  ghost predicate Reads(u: Unit, j: nat, p: AccessPattern) {
    j < |u.compiled.plans| && (p in u.compiled.plans[j].access || p in u.compiled.plans[j].negations)
  }

  // The pattern of a loop rule's only atom.
  ghost predicate LoopScan(u: Unit, j: nat, p: AccessPattern) {
    u.recursive && j < |u.compiled.plans| && p in u.compiled.plans[j].access && |u.compiled.plans[j].access| == 1
  }

  lemma NegationIsEnsured(rule: Rule, plan: Plan, canonical: map<string, seq<nat>>, p: AccessPattern, scans: bool)
    requires p in plan.negations
    ensures p.indexCols in OpsEnsure(Pipeline(rule, plan, canonical), p.rel, scans)
  {
    var k :| 0 <= k < |plan.negations| && plan.negations[k] == p;
    var gens, ops := Generators(rule.body, plan), Pipeline(rule, plan, canonical);
    hide Generators, FiltersAndLets, Inserts, OpsEnsure;
    assert ops[|gens| + k] == Negations(plan.negations)[k];
    OpsEnsureHas(ops, p.rel, scans, |gens| + k);
  }

  lemma ScanIsEnsured(rule: Rule, plan: Plan, canonical: map<string, seq<nat>>, p: AccessPattern)
    requires p in plan.access && |plan.access| == 1
    ensures p.indexCols in OpsEnsure(Pipeline(rule, plan, canonical), p.rel, true)
  {
    var ops := Pipeline(rule, plan, canonical);
    assert ops[0].Scan? && ops[0].source.index == p.indexCols && ops[0].source.rel == p.rel;
    hide Pipeline, OpsEnsure;
    OpsEnsureHas(ops, p.rel, true, 0);
  }

  // The rule behind a variant of a compiled unit.
  lemma UnitVariantOk(u: Unit, arity: map<string, nat>, j: nat)
    requires UnitCompiled(u, arity) && j < |u.compiled.plans|
    ensures |u.compiled.plans| == |UnitVariants(u)|
    ensures var v := UnitVariants(u)[j];
      |v.versions| == |v.rule.body| && IsDefaultPlan(v, u.compiled.plans[j]) && Lowerable(v.rule) && AllChecked(v.rule)
          && TypedRule(v.rule, arity)
  {
    hide IsDefaultPlan, Lowerable, TypedRule, WellCompiled, AllChecked;
    var c := u.compiled;
    UnitHasPlans(u, arity);
    if u.recursive {
      LoopCompiled(u, arity);
      var r, i := VariantIs(c, arity, j);
      LoopPlan(c, arity, j);
    } else {
      BaseCompiled(u, arity);
      assert BaseRuleOk(c.rules[j], arity) && BasePlanned(c, j);
    }
  }

  lemma LoopPlan(c: Compiled, arity: map<string, nat>, j: nat)
    requires WellCompiled(c, arity) && j < |VariantsOf(c)|
    ensures j < |c.plans| && |VariantsOf(c)[j].versions| == |VariantsOf(c)[j].rule.body|
    ensures IsDefaultPlan(VariantsOf(c)[j], c.plans[j])
  {
    assert GoodPlan(c, VariantsOf(c)[j], c.plans[j]);
    hide IsDefaultPlan, GoodPattern;
  }

  lemma AccessIsStored(u: Unit, arity: map<string, nat>, j: nat, p: AccessPattern)
    requires UnitCompiled(u, arity) && j < |u.compiled.plans| && p in u.compiled.plans[j].access
    ensures p.version in {FULL, DELTA}
  {
    hide *;
    var c := u.compiled;
    UnitHasPlans(u, arity);
    if u.recursive {
      LoopCompiled(u, arity);
      hide WellCompiled, UnitCompiled, UnitOk;
      PatternVersion(c, arity, j, p);
    } else {
      BaseCompiled(u, arity);
      assert BasePlanned(c, j);
      hide BasePlanned, UnitCompiled, UnitOk;
      BaseVersions(c, j, p);
    }
  }

  lemma PipelineEnsures(u: Unit, j: nat, rel: string)
    requires |u.compiled.plans| == |UnitVariants(u)| && j < |u.compiled.plans|
    ensures OpsEnsure(Pipeline(UnitVariants(u)[j].rule, u.compiled.plans[j], u.compiled.canonical), rel,
                      !u.recursive) <= EnsuredCols(u, rel)
  {
    AllEnsureHas(UnitPipelines(u), rel, !u.recursive, j);
    hide UnitVariants, Pipeline, OpsEnsure, AllEnsure;
  }

  // What any pattern reads is ensured, unless it is the scan of a loop.
  lemma ReadIsEnsured(u: Unit, arity: map<string, nat>, j: nat, p: AccessPattern)
    requires UnitCompiled(u, arity) && Reads(u, j, p) && !LoopScan(u, j, p)
    ensures p.indexCols in EnsuredCols(u, p.rel)
  {
    hide UnitCompiled, IsDefaultPlan, Pipeline, Lowerable, UnitVariants, TypedRule, OpsEnsure, AllChecked, EnsuredCols,
        OpsNeed;
    var plan := u.compiled.plans[j];
    assert p in plan.access || p in plan.negations;
    UnitVariantOk(u, arity, j);
    var v := UnitVariants(u)[j];
    assert !u.recursive || p in plan.negations || |plan.access| != 1;
    hide *;
    PipelineEnsures(u, j, p.rel);
    if p in plan.negations {
      NegationIsEnsured(v.rule, plan, u.compiled.canonical, p, !u.recursive);
    } else if |plan.access| == 1 {
      ScanIsEnsured(v.rule, plan, u.compiled.canonical, p);
    } else {
      AccessIsStored(u, arity, j, p);
      PatternIsNeeded(v, plan, u.compiled.canonical, p);
      NeedsAreEnsured(Pipeline(v.rule, plan, u.compiled.canonical), p.rel, !u.recursive);
    }
  }

  // --- Before the plan ---

  ghost function EnsureAll(u: Unit, w: World): World {
    World(map rel | rel in w.db :: Ensured(w.db[rel], EnsuredCols(u, rel)), w.truth)
  }

  // Indexes that the plan needs current without ensuring them: those it reconstructs from, and what a loop scans.
  ghost predicate Relied(u: Unit, rel: string, i: Cols) {
    || (rel in ReconstructedRels(u) && rel in u.compiled.canonical && i == u.compiled.canonical[rel])
    || exists j, p :: LoopScan(u, j, p) && p.rel == rel && p.indexCols == i
  }

  ghost predicate Ready(u: Unit, w: World) {
    forall rel, i :: Relied(u, rel, i) && i !in EnsuredCols(u, rel) ==> IndexCurrent(w, rel, i)
  }

  // Column storage holds every relation's rows, and no index that will be ensured wrongly looks up to date.
  ghost predicate Trusted(u: Unit, w: World) {
    && w.db.Keys == w.truth.Keys
    && forall rel :: rel in w.db ==> w.db[rel].base == w.truth[rel] && (EnsuredCols(u, rel) != {} ==> Sound(w.db[rel]))
  }

  // Every relation that the unit reads or writes is stored.
  ghost predicate Named(u: Unit, names: set<string>) {
    && (forall j, p :: Reads(u, j, p) ==> p.rel in names)
    && forall rel :: rel in ReconstructedRels(u) ==> rel in names
  }

  lemma EnsuredIsCurrent(u: Unit, w: World, rel: string, i: Cols)
    requires Trusted(u, w) && rel in w.db && i in EnsuredCols(u, rel)
    ensures IndexCurrent(EnsureAll(u, w), rel, i)
  {
    EnsuredKeepsSound(w.db[rel], EnsuredCols(u, rel));
    hide Sound, Ensured, EnsuredCols;
  }

  lemma CurrentStaysEnsured(u: Unit, w: World, rel: string, i: Cols)
    requires w.db.Keys == w.truth.Keys && IndexCurrent(w, rel, i) && w.db[rel].base == w.truth[rel]
    ensures IndexCurrent(EnsureAll(u, w), rel, i)
  {
    EnsuredAt(w.db[rel], EnsuredCols(u, rel), i);
    hide Ensured, EnsuredCols, Dirty;
  }

  lemma ReliedIsCurrent(u: Unit, w: World, rel: string, i: Cols)
    requires Trusted(u, w) && Ready(u, w) && Relied(u, rel, i) && rel in w.db
    ensures IndexCurrent(EnsureAll(u, w), rel, i)
  {
    hide EnsureAll, EnsuredCols, Relied, Sound;
    if i in EnsuredCols(u, rel) {
      EnsuredIsCurrent(u, w, rel, i);
    } else {
      CurrentStaysEnsured(u, w, rel, i);
    }
  }

  lemma ReadBecomesCurrent(u: Unit, arity: map<string, nat>, w: World, j: nat, p: AccessPattern)
    requires UnitCompiled(u, arity) && Trusted(u, w) && Ready(u, w) && Reads(u, j, p) && p.rel in w.db
    ensures IndexCurrent(EnsureAll(u, w), p.rel, p.indexCols)
  {
    hide UnitCompiled, Trusted, Ready, EnsureAll, IndexCurrent, EnsuredCols, LoopScan, Reads;
    if LoopScan(u, j, p) {
      assert Relied(u, p.rel, p.indexCols);
      ReliedIsCurrent(u, w, p.rel, p.indexCols);
    } else {
      ReadIsEnsured(u, arity, j, p);
      EnsuredIsCurrent(u, w, p.rel, p.indexCols);
    }
  }

  lemma CanonicalBecomesCurrent(u: Unit, w: World, rel: string)
    requires Trusted(u, w) && Ready(u, w) && rel in ReconstructedRels(u) && rel in u.compiled.canonical && rel in w.db
    ensures IndexCurrent(EnsureAll(u, w), rel, u.compiled.canonical[rel])
  {
    hide Trusted;
    assert Relied(u, rel, u.compiled.canonical[rel]);
    hide *;
    ReliedIsCurrent(u, w, rel, u.compiled.canonical[rel]);
  }

  lemma EnsureKeys(u: Unit, w: World)
    ensures EnsureAll(u, w).db.Keys == w.db.Keys && EnsureAll(u, w).truth == w.truth
  {}

  lemma NamedMeans(u: Unit, names: set<string>)
    requires Named(u, names)
    ensures forall j: nat, p :: Reads(u, j, p) ==> p.rel in names
    ensures forall rel :: rel in ReconstructedRels(u) ==> rel in names
  {}

  lemma TrustedKeys(u: Unit, w: World)
    requires Trusted(u, w)
    ensures w.db.Keys == w.truth.Keys
  {}

  // After ensuring, everything the plan reads and everything it will reconstruct from is current.
  lemma EnsuringMakesReady(u: Unit, arity: map<string, nat>, w: World)
    requires UnitCompiled(u, arity) && Trusted(u, w) && Ready(u, w) && Named(u, w.db.Keys)
    ensures ReadsCurrent(u, EnsureAll(u, w))
  {
    var a := EnsureAll(u, w);
    hide *;
    EnsureKeys(u, w);
    TrustedKeys(u, w);
    NamedMeans(u, w.db.Keys);
    forall j: nat, p | Reads(u, j, p) ensures IndexCurrent(a, p.rel, p.indexCols) {
      ReadBecomesCurrent(u, arity, w, j, p);
    }
    forall rel | rel in ReconstructedRels(u) && rel in u.compiled.canonical
      ensures IndexCurrent(a, rel, u.compiled.canonical[rel]) {
      CanonicalBecomesCurrent(u, w, rel);
    }
    ReadsCurrentFrom(u, a);
  }

  lemma ReadsCurrentFrom(u: Unit, w: World)
    requires w.db.Keys == w.truth.Keys && forall j: nat, p :: Reads(u, j, p) ==> IndexCurrent(w, p.rel, p.indexCols)
    requires forall rel ::
        rel in ReconstructedRels(u) && rel in u.compiled.canonical ==> IndexCurrent(w, rel, u.compiled.canonical[rel])
    ensures ReadsCurrent(u, w)
  {
    hide IndexCurrent, ReconstructedRels;
    forall k, p | 0 <= k < |u.compiled.plans| && (p in u.compiled.plans[k].access || p in u.compiled.plans[k].negations)
      ensures IndexCurrent(w, p.rel, p.indexCols)
    {
      assert Reads(u, k, p);
    }
  }

  // Typed rules read and write relations that have an arity.
  lemma TypedIsNamed(u: Unit, arity: map<string, nat>)
    requires UnitCompiled(u, arity) && u.compiled.members <= arity.Keys
    ensures Named(u, arity.Keys)
  {
    hide *;
    forall j: nat, p | Reads(u, j, p) ensures p.rel in arity {
      ReadsMean(u, j, p);
      UnitVariantOk(u, arity, j);
      var v := UnitVariants(u)[j];
      if p in u.compiled.plans[j].access {
        AccessIsPermutation(v, u.compiled.plans[j], arity, p);
      } else {
        NegationIsPermutation(v, u.compiled.plans[j], arity, p);
      }
    }
    forall rel | rel in ReconstructedRels(u) ensures rel in arity { ReconstructedIsTyped(u, arity, rel); }
    MakeNamed(u, arity.Keys);
  }

  lemma MakeNamed(u: Unit, names: set<string>)
    requires forall j: nat, p :: Reads(u, j, p) ==> p.rel in names
    requires forall rel :: rel in ReconstructedRels(u) ==> rel in names
    ensures Named(u, names)
  {
    hide Reads, ReconstructedRels;
  }

  lemma ReadsMean(u: Unit, j: nat, p: AccessPattern)
    requires Reads(u, j, p)
    ensures j < |u.compiled.plans| && (p in u.compiled.plans[j].access || p in u.compiled.plans[j].negations)
  {}

  lemma ReconstructedIsTyped(u: Unit, arity: map<string, nat>, rel: string)
    requires UnitCompiled(u, arity) && u.compiled.members <= arity.Keys && rel in ReconstructedRels(u)
    ensures rel in arity
  {
    hide UnitCompiled;
    if u.recursive {
      LoopSets(u, arity, rel);
    } else {
      var rules := u.compiled.rules;
      BaseHeads(rules, rel);
      var k, h :| 0 <= k < |rules| && 0 <= h < |rules[k].heads| && rules[k].heads[h].rel == rel;
      UnitTyped(u, arity);
      assert TypedRule(rules[k], arity) && TypedAtom(rules[k].heads[h], arity);
    }
  }

  // ========== Unit effects ==========

  // One unit of a compiled program: its indexes are ensured, its plan runs, its relations are reconstructed. What
  // that keeps of each relation.

  // What a run leaves open: what inline code means, whether the size check skips, which inserted rebuilds are executed.
  datatype Machine = Machine(sem: Interp, skips: bool, run: seq<seq<Freshness.Step>>)

  // From the state a, ensuring gives EnsureAll(us[k], a), the plan then gives m, and the tail b.
  ghost predicate Phases(us: seq<Unit>, x: Machine, k: nat, a: World, m: World, b: World)
    requires Places(us, k) && |x.run| == |ProgramSteps(us)|
  {
    PlanExec(us[k], x.sem, x.skips, EnsureAll(us[k], a), m) && RunsTo(Tail(us, x.run, k), m, b)
  }

  // What the run theorem asks of a unit.
  ghost predicate UnitFits(u: Unit, arity: map<string, nat>) {
    && UnitOk(u) && UnitCompiled(u, arity) && u.compiled.members <= arity.Keys
    && forall rel :: rel in ReconstructedRels(u) ==> RequiredOnce(u.compiled, rel)
  }

  // --- The plan on one relation ---

  lemma PlanLeaves(u: Unit, arity: map<string, nat>, sem: Interp, skips: bool, a: World, m: World, rel: string)
    requires UnitCompiled(u, arity) && ReadsCurrent(u, a) && TypedFacts(FactsOf(a.truth), arity) && Clean(a)
    requires PlanExec(u, sem, skips, a, m)
    requires rel in a.db && rel !in ReconstructedRels(u)
    ensures rel in m.db && rel in m.truth && rel in a.truth && m.db[rel] == a.db[rel] && m.truth[rel] == a.truth[rel]
  {
    hide *;
    ReadsHasKeys(u, a);
    if u.recursive {
      LoopSets(u, arity, rel);
      LoopRelation(u, arity, sem, skips, a, m, rel);
      LoopEffect(u, arity, sem, skips, a, m, rel);
    } else {
      BaseSets(u, arity, rel);
      BaseRelation(u, arity, sem, skips, a, m, rel);
    }
  }

  lemma EffectKeepsCurrent(u: Unit, a: World, m: World, rel: string, i: Cols)
    requires rel in a.db && rel in a.truth && rel in m.db && rel in m.truth && UnitEffect(u, a, m, rel)
    requires IndexCurrent(a, rel, i) && (rel in HeadSet(u) ==> i in MergedOf(u, rel))
    ensures IndexCurrent(m, rel, i)
  {
    hide HeadSet, MergedOf;
    if rel in HeadSet(u) {
      var added :| GrewBy(a.db[rel], m.db[rel], a.truth[rel], m.truth[rel], MergedOf(u, rel), added);
      assert Takes(a.db[rel], m.db[rel], i, added);
    }
  }

  // The counts of an index that is not merged stay.
  lemma EffectKeepsOther(u: Unit, a: World, m: World, rel: string, i: Cols)
    requires rel in a.db && rel in a.truth && rel in m.db && rel in m.truth && UnitEffect(u, a, m, rel)
    requires rel in HeadSet(u) && i !in MergedOf(u, rel)
    ensures At(m.db[rel].fulls, i) == At(a.db[rel].fulls, i) && CountAt(m.db[rel].rows, i) == CountAt(a.db[rel].rows, i)
  {
    hide HeadSet, MergedOf;
    var added :| GrewBy(a.db[rel], m.db[rel], a.truth[rel], m.truth[rel], MergedOf(u, rel), added);
    assert Takes(a.db[rel], m.db[rel], i, iset{});
  }

  lemma EffectOnCanonical(u: Unit, arity: map<string, nat>, a: World, m: World, rel: string)
    requires UnitFits(u, arity) && ReadsCurrent(u, a) && rel in ReconstructedRels(u)
    requires rel in a.db && rel in a.truth && rel in m.db && rel in m.truth && UnitEffect(u, a, m, rel)
    ensures rel in u.compiled.canonical && IndexCurrent(a, rel, u.compiled.canonical[rel])
    ensures IndexCurrent(m, rel, u.compiled.canonical[rel])
  {
    hide UnitOk;
    FitsMean(u, arity);
    assert RequiredOnce(u.compiled, rel);
    hide UnitFits, ReadsCurrent, UnitEffect, ReconstructedRels, UnitCompiled, HeadSet, MergedOf;
    CanonicalIsCurrent(u, a, rel);
    EffectKeepsCurrent(u, a, m, rel, u.compiled.canonical[rel]);
  }

  lemma FitsMean(u: Unit, arity: map<string, nat>)
    requires UnitFits(u, arity)
    ensures UnitOk(u) && UnitCompiled(u, arity) && Named(u, arity.Keys)
    ensures forall rel :: rel in ReconstructedRels(u) ==> RequiredOnce(u.compiled, rel)
    ensures forall rel ::
        rel in HeadSet(u) ==>
        rel in ReconstructedRels(u) && rel in u.compiled.canonical && u.compiled.canonical[rel] in MergedOf(u, rel)
  {
    hide UnitCompiled, HeadSet, MergedOf, ReconstructedRels, RequiredOnce, PlanInstrs, UnitVariants;
    TypedIsNamed(u, arity);
  }

  // --- Counts through the plan and the tail ---

  lemma TightIsSettled(u: Unit, a: World, rel: string)
    requires rel in a.db && rel in a.truth && rel in u.compiled.canonical && Tight(a.db[rel]) && NewIsEmpty(a.db[rel])
    requires a.db[rel].base == a.truth[rel] && IndexCurrent(a, rel, u.compiled.canonical[rel])
    ensures Settled(u.compiled, a.db, rel)
  {
    hide SizeOf, AtLeast;
  }

  lemma RebasedIsTight(s: RelState, t: RelState, c: Cols, built: iset<Cols>)
    requires Below(s, c) && Rebased(s, t, c, built)
    ensures Tight(t)
  {
    SizeIsAtLeast(t.base);
    hide SizeOf, AtLeast;
    forall i ensures AtLeast(At(t.fulls, i), CountAt(t.rows, i)) && At(t.fulls, i) <= t.base {
      assert KeptOrBuilt(s, t, i, built);
      assert AtLeast(At(s.fulls, i), CountAt(s.rows, i)) && At(s.fulls, i) <= At(s.fulls, c);
    }
  }

  lemma RebasedIsCurrent(s: RelState, t: RelState, c: Cols, built: iset<Cols>, truth: iset<Row>, i: Cols)
    requires Rebased(s, t, c, built) && At(s.fulls, c) == truth
    ensures t.base == truth && (At(s.fulls, i) == truth ==> At(t.fulls, i) == truth)
    ensures NewIsEmpty(s) ==> NewIsEmpty(t)
  {
    hide SizeOf;
    assert KeptOrBuilt(s, t, i, built);
  }

  // --- All three phases on one relation ---

  // The relation's stored rows are true; it is new to the program's plans and its counts sound, or its counts are
  // tight.
  ghost predicate HoldsTruth(s: RelState, truth: iset<Row>, sound: bool, tight: bool) {
    s.base == truth && NewIsEmpty(s) && (sound ==> Sound(s)) && (tight ==> Tight(s))
  }

  lemma EnsuringHolds(u: Unit, w: World, rel: string, sound: bool, tight: bool)
    requires rel in w.db && rel in w.truth && HoldsTruth(w.db[rel], w.truth[rel], sound, tight)
    ensures HoldsTruth(EnsureAll(u, w).db[rel], w.truth[rel], sound, tight)
  {
    var s, cols := w.db[rel], EnsuredCols(u, rel);
    EnsuredKeeps(s, cols);
    if Sound(s) { EnsuredKeepsSound(s, cols); }
    if Tight(s) { EnsuredKeepsTight(s, cols); }
    hide Ensured, Sound, Tight, EnsuredCols;
  }

  // A relation the unit reconstructs: its column storage is true afterwards, and its counts are tight if they were.
  lemma WrittenHolds(u: Unit, arity: map<string, nat>, x: Machine, a: World, m: World, b: World, rel: string,
                     tight: bool)
    requires UnitFits(u, arity) && ReadsCurrent(u, a) && PlanExec(u, x.sem, x.skips, a, m) && TailEffect(u, x.run, m, b)
    requires rel in ReconstructedRels(u) && rel in a.db && rel in a.truth && rel in m.db && rel in m.truth
    requires rel in b.db && rel in b.truth
    requires UnitEffect(u, a, m, rel) && NewIsEmpty(m.db[rel]) && HoldsTruth(a.db[rel], a.truth[rel], false, tight)
    ensures HoldsTruth(b.db[rel], b.truth[rel], tight, tight)
    ensures forall i :: IndexCurrent(m, rel, i) ==> IndexCurrent(b, rel, i)
  {
    EffectOnCanonical(u, arity, a, m, rel);
    TailOn(u, x.run, m, b, rel);
    FitsMean(u, arity);
    var c, built := u.compiled.canonical[rel], BuiltBy(x.run, rel);
    hide UnitFits, UnitCompiled, ReadsCurrent, PlanExec, TailEffect, UnitEffect, ReconstructedRels, Rebased, Sound,
        Tight, BuiltBy, NewIsEmpty, HeadSet, MergedOf, Settled;
    if tight {
      TightIsSettled(u, a, rel);
      PlanSettles(u, x.sem, x.skips, a, m, rel);
      SettledMeans(u.compiled, m.db, rel);
      RebasedIsTight(m.db[rel], b.db[rel], c, built);
      TightIsSound(b.db[rel]);
    }
    forall i ensures IndexCurrent(m, rel, i) ==> IndexCurrent(b, rel, i) {
      RebasedIsCurrent(m.db[rel], b.db[rel], c, built, m.truth[rel], i);
    }
    RebasedIsCurrent(m.db[rel], b.db[rel], c, built, m.truth[rel], c);
  }

  lemma SettledMeans(c: Compiled, db: Db, rel: string)
    requires Settled(c, db, rel)
    ensures rel in db && rel in c.canonical && Below(db[rel], c.canonical[rel])
  {}

  lemma TailOn(u: Unit, run: seq<seq<Freshness.Step>>, m: World, b: World, rel: string)
    requires TailEffect(u, run, m, b) && rel in m.db
    ensures b.truth == m.truth && b.db.Keys == m.db.Keys
    ensures rel in ReconstructedRels(u) && rel in u.compiled.canonical ==>
        Rebased(m.db[rel], b.db[rel], u.compiled.canonical[rel], BuiltBy(run, rel))
    ensures rel !in ReconstructedRels(u) ==> b.db[rel] == m.db[rel]
  {
    hide ReconstructedRels, Rebased;
  }

  // The unit's effect on one relation, from state to state.
  ghost predicate RelationStep(u: Unit, w: World, b: World, rel: string, sound: bool, tight: bool)
    requires rel in w.db && rel in w.truth
  {
    && rel in b.db && rel in b.truth
    && HoldsTruth(b.db[rel], b.truth[rel], if rel in ReconstructedRels(u) then tight else sound, tight)
    && forall i :: IndexCurrent(w, rel, i) && (rel in HeadSet(u) ==> i in MergedOf(u, rel)) ==> IndexCurrent(b, rel, i)
  }

  lemma UnitOnRelation(u: Unit, arity: map<string, nat>, x: Machine, w: World, m: World, b: World, rel: string,
                       sound: bool, tight: bool)
    requires UnitFits(u, arity) && ReadsCurrent(u, EnsureAll(u, w)) && TypedFacts(FactsOf(w.truth), arity) && Clean(w)
    requires PlanExec(u, x.sem, x.skips, EnsureAll(u, w), m) && TailEffect(u, x.run, m, b)
    requires rel in w.db && rel in w.truth && HoldsTruth(w.db[rel], w.truth[rel], sound, tight)
    ensures RelationStep(u, w, b, rel, sound, tight)
  {
    hide *;
    var a := EnsureAll(u, w);
    FitsMean(u, arity);
    EnsureKeys(u, w);
    EnsuredIsClean(u, w);
    EnsuringHolds(u, w, rel, sound, tight);
    ReadsHasKeys(u, a);
    PlanKeys(u, x.sem, x.skips, a, m);
    TailOn(u, x.run, m, b, rel);
    UnitRelation(u, arity, x.sem, x.skips, a, m, rel);
    if rel in ReconstructedRels(u) {
      WeakerHolds(a.db[rel], a.truth[rel], sound, tight);
      WrittenHolds(u, arity, x, a, m, b, rel, tight);
    } else {
      PlanLeaves(u, arity, x.sem, x.skips, a, m, rel);
      SameCurrent(a, b, rel);
    }
    forall i | IndexCurrent(w, rel, i) && (rel in HeadSet(u) ==> i in MergedOf(u, rel))
      ensures IndexCurrent(b, rel, i) {
      HoldsBase(w.db[rel], w.truth[rel], sound, tight);
      CurrentStaysEnsured(u, w, rel, i);
      EffectKeepsCurrent(u, a, m, rel, i);
      if rel !in ReconstructedRels(u) { MSame(a, m, b, rel, i); }
    }
    MakeStep(u, w, b, rel, sound, tight);
  }

  lemma MakeStep(u: Unit, w: World, b: World, rel: string, sound: bool, tight: bool)
    requires rel in w.db && rel in w.truth && rel in b.db && rel in b.truth
    requires HoldsTruth(b.db[rel], b.truth[rel], if rel in ReconstructedRels(u) then tight else sound, tight)
    requires forall i ::
        IndexCurrent(w, rel, i) && (rel in HeadSet(u) ==> i in MergedOf(u, rel)) ==> IndexCurrent(b, rel, i)
    ensures RelationStep(u, w, b, rel, sound, tight)
  {}

  lemma MSame(a: World, m: World, b: World, rel: string, i: Cols)
    requires rel in m.db && rel in m.truth && rel in b.db && rel in b.truth && b.db[rel] == m.db[rel]
    requires b.truth == m.truth && IndexCurrent(m, rel, i)
    ensures IndexCurrent(b, rel, i)
  {}

  lemma SameCurrent(a: World, b: World, rel: string)
    requires rel in a.db && rel in a.truth && rel in b.db && rel in b.truth && b.db[rel] == a.db[rel]
    requires b.truth[rel] == a.truth[rel]
    ensures forall i :: IndexCurrent(a, rel, i) <==> IndexCurrent(b, rel, i)
  {}

  lemma HoldsBase(s: RelState, truth: iset<Row>, sound: bool, tight: bool)
    requires HoldsTruth(s, truth, sound, tight)
    ensures s.base == truth
  {}

  lemma WeakerHolds(s: RelState, truth: iset<Row>, sound: bool, tight: bool)
    requires HoldsTruth(s, truth, sound, tight)
    ensures HoldsTruth(s, truth, false, tight)
  {}

  lemma EnsuredIsClean(u: Unit, w: World)
    requires Clean(w)
    ensures Clean(EnsureAll(u, w))
  {
    hide EnsuredCols;
    var a := EnsureAll(u, w);
    forall rel | rel in a.db ensures NewIsEmpty(a.db[rel]) {
      assert NewIsEmpty(w.db[rel]);
      EnsuredKeeps(w.db[rel], EnsuredCols(u, rel));
    }
  }

  // ========== Whole program ==========

  // A compiled program run: each unit ensures its indexes, runs its plan and reconstructs what it wrote. It computes
  // what the strata mean.

  // --- Runs ---

  // The first k units ran.
  ghost predicate ProgramRuns(us: seq<Unit>, x: Machine, k: nat, start: World, w: World)
    requires UnitsOk(us) && Planned(us) && k <= |us| && |x.run| == |ProgramSteps(us)|
  {
    if k == 0 then w == start else
      var j: nat := k - 1;
      Places(us, j) && exists mid :: ProgramRuns(us, x, j, start, mid) && UnitRuns(us, x, j, mid, w)
  }

  ghost predicate UnitRuns(us: seq<Unit>, x: Machine, k: nat, a: World, b: World)
    requires Places(us, k) && |x.run| == |ProgramSteps(us)|
  {
    exists m :: Phases(us, x, k, a, m, b)
  }

  // --- What the theorem asks ---

  // Some unit before the k-th one reconstructs rel.
  ghost predicate WrittenBefore(us: seq<Unit>, k: nat, rel: string) {
    exists j :: 0 <= j < k && j < |us| && rel in ReconstructedRels(us[j])
  }

  // Every earlier unit that writes the relation merges the index.
  ghost predicate KeptTo(us: seq<Unit>, k: nat, rel: string, i: Cols) {
    forall j :: 0 <= j < k && j < |us| && rel in HeadSet(us[j]) ==> i in MergedOf(us[j], rel)
  }

  // Every index that a unit relies on without ensuring it was merged by all who wrote the relation before.
  ghost predicate ReliedKept(us: seq<Unit>) {
    forall k, rel, i ::
        0 <= k < |us| && Relied(us[k], rel, i) && i !in EnsuredCols(us[k], rel) ==> KeptTo(us, k, rel, i)
  }

  ghost predicate ProgramOk(us: seq<Unit>, x: Machine, arity: map<string, nat>) {
    && UnitsOk(us) && Planned(us) && ReliedKept(us) && FitBlocks(ProgramSteps(us), x.run)
    && forall k :: 0 <= k < |us| ==> UnitFits(us[k], arity)
  }

  // Unit k ensures no index of a loose relation that was written before.
  ghost predicate LooseUnread(us: seq<Unit>, k: nat, loose: set<string>) {
    k < |us| && forall rel :: rel in loose && WrittenBefore(us, k, rel) ==> EnsuredCols(us[k], rel) == {}
  }

  // How far the counts of rel can be trusted before unit k. Only those of a relation that some unit writes must be
  // tight.
  ghost predicate SoundAt(us: seq<Unit>, loose: set<string>, k: nat, rel: string) {
    rel !in loose || !WrittenBefore(us, k, rel)
  }

  ghost predicate TightAt(us: seq<Unit>, loose: set<string>, rel: string) {
    rel !in loose && WrittenBefore(us, |us|, rel)
  }

  ghost predicate HoldsAt(us: seq<Unit>, loose: set<string>, k: nat, w: World, rel: string) {
    rel in w.db && rel in w.truth && HoldsTruth(w.db[rel], w.truth[rel], SoundAt(us, loose, k, rel),
                                                TightAt(us, loose, rel))
  }

  ghost predicate Stored(us: seq<Unit>, loose: set<string>, k: nat, arity: map<string, nat>, w: World) {
    && w.db.Keys == w.truth.Keys == arity.Keys && TypedFacts(FactsOf(w.truth), arity)
    && forall rel :: rel in w.db ==> HoldsAt(us, loose, k, w, rel)
  }

  // The start: column storage holds the facts, rows have their relation's arity, nothing waits, no index wrongly looks
  // up to date; relations that the program writes hold no row twice, and the indexes that it relies on without ensuring
  // them are current.
  ghost predicate Starts(us: seq<Unit>, arity: map<string, nat>, start: World) {
    StartsFor(us, {}, arity, |us|, start)
  }

  // The same for the first n units, trusting less of the loose relations' counts.
  ghost predicate StartsFor(us: seq<Unit>, loose: set<string>, arity: map<string, nat>, n: nat, start: World) {
    && Stored(us, loose, 0, arity, start)
    && forall k :: 0 <= k < n && k < |us| ==> Ready(us[k], start)
  }

  // --- From one unit to the next ---

  // After k units: what the relations hold is what the first k strata make of the start; indexes that were current and
  // that every writer merged still are.
  ghost predicate ReachedAt(us: seq<Unit>, sem: Interp, loose: set<string>, arity: map<string, nat>, k: nat,
                            start: World, w: World)
    requires k <= |us|
  {
    && Stored(us, loose, k, arity, w) && FactsOf(w.truth) == Run(StrataOf(us[..k]), sem, FactsOf(start.truth))
    && forall rel, i :: IndexCurrent(start, rel, i) && KeptTo(us, k, rel, i) ==> IndexCurrent(w, rel, i)
  }

  lemma StoredMeans(us: seq<Unit>, loose: set<string>, k: nat, arity: map<string, nat>, w: World)
    requires Stored(us, loose, k, arity, w)
    ensures w.db.Keys == w.truth.Keys == arity.Keys && TypedFacts(FactsOf(w.truth), arity) && Clean(w)
    ensures forall rel :: rel in w.db ==> HoldsAt(us, loose, k, w, rel)
  {
    hide TypedFacts, FactsOf, SoundAt, TightAt, Sound, Tight;
    forall rel | rel in w.db ensures NewIsEmpty(w.db[rel]) { assert HoldsAt(us, loose, k, w, rel); }
  }

  lemma StoredIsTrusted(us: seq<Unit>, loose: set<string>, k: nat, arity: map<string, nat>, w: World)
    requires k < |us| && Stored(us, loose, k, arity, w) && LooseUnread(us, k, loose)
    ensures Trusted(us[k], w)
  {
    hide TypedFacts, FactsOf, Sound, Tight, EnsuredCols, WrittenBefore;
    forall rel | rel in w.db
      ensures w.db[rel].base == w.truth[rel] && (EnsuredCols(us[k], rel) != {} ==> Sound(w.db[rel])) {
      assert HoldsAt(us, loose, k, w, rel);
    }
  }

  lemma ReachedIsReady(us: seq<Unit>, sem: Interp, loose: set<string>, arity: map<string, nat>, k: nat, start: World,
                       w: World)
    requires k < |us| && ReliedKept(us) && Ready(us[k], start) && ReachedAt(us, sem, loose, arity, k, start, w)
    ensures Ready(us[k], w)
  {
    hide Stored, IndexCurrent, KeptTo, Relied, EnsuredCols, Run;
  }

  lemma OkMeans(us: seq<Unit>, x: Machine, arity: map<string, nat>)
    requires ProgramOk(us, x, arity)
    ensures UnitsOk(us) && Planned(us) && ReliedKept(us) && FitBlocks(ProgramSteps(us), x.run)
    ensures |x.run| == |ProgramSteps(us)|
    ensures forall k :: 0 <= k < |us| ==> UnitFits(us[k], arity)
  {}

  lemma StartsMean(us: seq<Unit>, loose: set<string>, arity: map<string, nat>, n: nat, start: World)
    requires StartsFor(us, loose, arity, n, start)
    ensures Stored(us, loose, 0, arity, start) && forall k :: 0 <= k < n && k < |us| ==> Ready(us[k], start)
  {}

  lemma ReachedMeans(us: seq<Unit>, sem: Interp, loose: set<string>, arity: map<string, nat>, k: nat, start: World,
                     w: World)
    requires k <= |us| && ReachedAt(us, sem, loose, arity, k, start, w)
    ensures Stored(us, loose, k, arity, w) && FactsOf(w.truth) == Run(StrataOf(us[..k]), sem, FactsOf(start.truth))
    ensures forall rel, i :: IndexCurrent(start, rel, i) && KeptTo(us, k, rel, i) ==> IndexCurrent(w, rel, i)
  {}

  lemma MakeReached(us: seq<Unit>, sem: Interp, loose: set<string>, arity: map<string, nat>, k: nat, start: World,
                    w: World)
    requires k <= |us| && Stored(us, loose, k, arity, w)
    requires FactsOf(w.truth) == Run(StrataOf(us[..k]), sem, FactsOf(start.truth))
    requires forall rel, i :: IndexCurrent(start, rel, i) && KeptTo(us, k, rel, i) ==> IndexCurrent(w, rel, i)
    ensures ReachedAt(us, sem, loose, arity, k, start, w)
  {}

  // What unit k finds when it starts: after ensuring, everything that its plan reads is current.
  lemma UnitIsReady(us: seq<Unit>, x: Machine, loose: set<string>, arity: map<string, nat>, n: nat, k: nat,
                    start: World, w: World)
    requires ProgramOk(us, x, arity) && StartsFor(us, loose, arity, n, start) && k < n && k < |us|
    requires LooseUnread(us, k, loose)
    requires ReachedAt(us, x.sem, loose, arity, k, start, w)
    ensures UnitFits(us[k], arity) && UnitCompiled(us[k], arity) && ReadsCurrent(us[k], EnsureAll(us[k], w))
    ensures w.db.Keys == w.truth.Keys == arity.Keys && TypedFacts(FactsOf(w.truth), arity) && Clean(w)
  {
    hide *;
    OkMeans(us, x, arity);
    StartsMean(us, loose, arity, n, start);
    ReachedMeans(us, x.sem, loose, arity, k, start, w);
    StoredMeans(us, loose, k, arity, w);
    StoredIsTrusted(us, loose, k, arity, w);
    ReachedIsReady(us, x.sem, loose, arity, k, start, w);
    FitsMean(us[k], arity);
    EnsuringMakesReady(us[k], arity, w);
  }

  lemma SoundNext(us: seq<Unit>, loose: set<string>, k: nat, rel: string)
    requires k < |us|
    ensures SoundAt(us, loose, k + 1, rel) ==> SoundAt(us, loose, k, rel)
    ensures SoundAt(us, loose, k + 1, rel) && rel in ReconstructedRels(us[k]) ==> TightAt(us, loose, rel)
  {
    hide ReconstructedRels;
  }

  lemma HoldsWeaker(s: RelState, truth: iset<Row>, sound: bool, tight: bool, less: bool)
    requires HoldsTruth(s, truth, sound, tight) && (less ==> sound)
    ensures HoldsTruth(s, truth, less, tight)
  {}

  lemma RunNext(us: seq<Unit>, k: nat, sem: Interp, edb: Facts)
    requires k < |us|
    ensures Run(StrataOf(us[..k + 1]), sem, edb) == RunStratum(StratumOf(us[k]), sem, Run(StrataOf(us[..k]), sem, edb))
  {
    var s := StrataOf(us[..k + 1]);
    assert s[..k] == StrataOf(us[..k]) && s[k] == StratumOf(us[k]);
    hide RunStratum;
  }

  lemma TruthIs(u: Unit, sem: Interp, skips: bool, a: World, m: World)
    requires PlanExec(u, sem, skips, a, m)
    ensures m.truth == TruthAfter(u, sem, a.truth) && m.truth.Keys == a.truth.Keys
  {}

  // Every relation through the unit.
  lemma RelationsNext(us: seq<Unit>, x: Machine, loose: set<string>, arity: map<string, nat>, k: nat, w: World,
                      m: World, b: World)
    requires k < |us| && UnitFits(us[k], arity) && Stored(us, loose, k, arity, w)
    requires ReadsCurrent(us[k], EnsureAll(us[k], w))
    requires PlanExec(us[k], x.sem, x.skips, EnsureAll(us[k], w), m) && TailEffect(us[k], x.run, m, b)
    ensures forall rel :: rel in w.db ==> HoldsAt(us, loose, k + 1, b, rel)
    ensures forall rel, i ::
        IndexCurrent(w, rel, i) && (rel in HeadSet(us[k]) ==> i in MergedOf(us[k], rel)) ==> IndexCurrent(b, rel, i)
  {
    hide *;
    StoredMeans(us, loose, k, arity, w);
    forall rel | rel in w.db
      ensures rel in w.truth && RelationStep(us[k], w, b, rel, SoundAt(us, loose, k, rel), TightAt(us, loose, rel))
      ensures HoldsAt(us, loose, k + 1, b, rel)
    {
      HoldsAtMeans(us, loose, k, w, rel);
      UnitOnRelation(us[k], arity, x, w, m, b, rel, SoundAt(us, loose, k, rel), TightAt(us, loose, rel));
      StepMeans(us[k], w, b, rel, SoundAt(us, loose, k, rel), TightAt(us, loose, rel));
      SoundNext(us, loose, k, rel);
      HoldsWeaker(b.db[rel], b.truth[rel], if rel in ReconstructedRels(us[k]) then TightAt(us, loose, rel)
                                             else SoundAt(us, loose, k, rel),
                  TightAt(us, loose, rel), SoundAt(us, loose, k + 1, rel));
      MakeHoldsAt(us, loose, k + 1, b, rel);
    }
    forall rel, i | IndexCurrent(w, rel, i) && (rel in HeadSet(us[k]) ==> i in MergedOf(us[k], rel))
      ensures IndexCurrent(b, rel, i) {
      CurrentHas(w, rel, i);
      StepMeans(us[k], w, b, rel, SoundAt(us, loose, k, rel), TightAt(us, loose, rel));
    }
  }

  lemma HoldsAtMeans(us: seq<Unit>, loose: set<string>, k: nat, w: World, rel: string)
    requires HoldsAt(us, loose, k, w, rel)
    ensures rel in w.db && rel in w.truth
    ensures HoldsTruth(w.db[rel], w.truth[rel], SoundAt(us, loose, k, rel), TightAt(us, loose, rel))
  {}

  lemma MakeHoldsAt(us: seq<Unit>, loose: set<string>, k: nat, w: World, rel: string)
    requires rel in w.db && rel in w.truth
    requires HoldsTruth(w.db[rel], w.truth[rel], SoundAt(us, loose, k, rel), TightAt(us, loose, rel))
    ensures HoldsAt(us, loose, k, w, rel)
  {}

  lemma CurrentHas(w: World, rel: string, i: Cols)
    requires IndexCurrent(w, rel, i)
    ensures rel in w.db && rel in w.truth
  {}

  lemma StepMeans(u: Unit, w: World, b: World, rel: string, sound: bool, tight: bool)
    requires rel in w.db && rel in w.truth && RelationStep(u, w, b, rel, sound, tight)
    ensures rel in b.db && rel in b.truth
    ensures HoldsTruth(b.db[rel], b.truth[rel], if rel in ReconstructedRels(u) then tight else sound, tight)
    ensures forall i ::
        IndexCurrent(w, rel, i) && (rel in HeadSet(u) ==> i in MergedOf(u, rel)) ==> IndexCurrent(b, rel, i)
  {
    hide HoldsTruth, ReconstructedRels, HeadSet, MergedOf, IndexCurrent;
  }

  lemma MakeStored(us: seq<Unit>, loose: set<string>, k: nat, arity: map<string, nat>, w: World)
    requires w.db.Keys == w.truth.Keys == arity.Keys && TypedFacts(FactsOf(w.truth), arity)
    requires forall rel :: rel in w.db ==> HoldsAt(us, loose, k, w, rel)
    ensures Stored(us, loose, k, arity, w)
  {}

  lemma KeptBefore(us: seq<Unit>, k: nat, rel: string, i: Cols)
    requires k < |us| && KeptTo(us, k + 1, rel, i)
    ensures KeptTo(us, k, rel, i) && (rel in HeadSet(us[k]) ==> i in MergedOf(us[k], rel))
  {
    hide HeadSet, MergedOf;
  }

  lemma HeadsStored(us: seq<Unit>, arity: map<string, nat>, k: nat)
    requires k < |us| && UnitFits(us[k], arity)
    ensures forall rel :: rel in Idbs(us[k].compiled.rules) ==> rel in arity
  {
    hide UnitCompiled;
    var rules := us[k].compiled.rules;
    UnitTyped(us[k], arity);
    hide UnitFits;
    forall rel | rel in Idbs(rules) ensures rel in arity {
      var j, h :| 0 <= j < |rules| && 0 <= h < |rules[j].heads| && rules[j].heads[h].rel == rel;
      assert TypedRule(rules[j], arity) && TypedAtom(rules[j].heads[h], arity);
    }
  }

  lemma PhasesMean(us: seq<Unit>, x: Machine, k: nat, a: World, b: World) returns (m: World)
    requires Places(us, k) && |x.run| == |ProgramSteps(us)| && UnitRuns(us, x, k, a, b)
    ensures PlanExec(us[k], x.sem, x.skips, EnsureAll(us[k], a), m) && RunsTo(Tail(us, x.run, k), m, b)
  {
    hide Places;
    hide PlanExec, RunsTo, Tail, ProgramSteps, EnsureAll;
    m :| Phases(us, x, k, a, m, b);
  }

  lemma ReachNext(us: seq<Unit>, x: Machine, loose: set<string>, arity: map<string, nat>, n: nat, k: nat, start: World,
                  w: World, b: World)
    requires ProgramOk(us, x, arity) && StartsFor(us, loose, arity, n, start) && k < n && k < |us|
    requires LooseUnread(us, k, loose) && |x.run| == |ProgramSteps(us)|
    requires ReachedAt(us, x.sem, loose, arity, k, start, w) && Places(us, k) && UnitRuns(us, x, k, w, b)
    ensures ReachedAt(us, x.sem, loose, arity, k + 1, start, b)
  {
    hide *;
    OkMeans(us, x, arity);
    UnitIsReady(us, x, loose, arity, n, k, start, w);
    ReachedMeans(us, x.sem, loose, arity, k, start, w);
    var m := PhasesMean(us, x, k, w, b);
    TailMeaning(us, x.run, k, m, b);
    RelationsNext(us, x, loose, arity, k, w, m, b);
    EnsureKeys(us[k], w);
    TruthIs(us[k], x.sem, x.skips, EnsureAll(us[k], w), m);
    PlanKeys(us[k], x.sem, x.skips, EnsureAll(us[k], w), m);
    TailKeys(us[k], x.run, m, b);
    HeadsStored(us, arity, k);
    TruthTracks(us[k], x.sem, w.truth);
    RunNext(us, k, x.sem, FactsOf(start.truth));
    StageTyped(us[k], arity, x.sem, FactsOf(w.truth));
    MakeStored(us, loose, k + 1, arity, b);
    forall rel, i | IndexCurrent(start, rel, i) && KeptTo(us, k + 1, rel, i) ensures IndexCurrent(b, rel, i) {
      KeptBefore(us, k, rel, i);
    }
    MakeReached(us, x.sem, loose, arity, k + 1, start, b);
  }

  lemma TailKeys(u: Unit, run: seq<seq<Freshness.Step>>, m: World, b: World)
    requires TailEffect(u, run, m, b)
    ensures b.truth == m.truth && b.db.Keys == m.db.Keys
  {}

  lemma ReachedStart(us: seq<Unit>, sem: Interp, loose: set<string>, arity: map<string, nat>, start: World)
    requires Stored(us, loose, 0, arity, start)
    ensures ReachedAt(us, sem, loose, arity, 0, start, start)
  {
    hide Stored;
    assert us[..0] == [] && StrataOf(us[..0]) == [];
    hide FactsOf, TypedFacts, HoldsTruth, SoundAt, TightAt;
  }

  lemma RunsNone(us: seq<Unit>, x: Machine, start: World, w: World)
    requires UnitsOk(us) && Planned(us) && |x.run| == |ProgramSteps(us)| && ProgramRuns(us, x, 0, start, w)
    ensures w == start
  {}

  lemma RunsBack(us: seq<Unit>, x: Machine, j: nat, start: World, w: World) returns (mid: World)
    requires UnitsOk(us) && Planned(us) && j < |us| && |x.run| == |ProgramSteps(us)|
    requires ProgramRuns(us, x, j + 1, start, w)
    ensures Places(us, j) && ProgramRuns(us, x, j, start, mid) && UnitRuns(us, x, j, mid, w)
  {
    hide Places;
    hide UnitsOk, Planned, ProgramSteps, UnitRuns;
    mid :| ProgramRuns(us, x, j, start, mid) && UnitRuns(us, x, j, mid, w);
  }

  // Over any run of the first k units.
  lemma {:induction false} ReachAll(us: seq<Unit>, x: Machine, loose: set<string>, arity: map<string, nat>, n: nat,
                                    k: nat, start: World, w: World)
    requires ProgramOk(us, x, arity) && StartsFor(us, loose, arity, n, start) && k <= n && k <= |us|
    requires |x.run| == |ProgramSteps(us)|
    requires (forall j :: 0 <= j < k ==> LooseUnread(us, j, loose)) && ProgramRuns(us, x, k, start, w)
    ensures ReachedAt(us, x.sem, loose, arity, k, start, w)
  {
    hide *;
    OkMeans(us, x, arity);
    if k == 0 {
      RunsNone(us, x, start, w);
      StartsMean(us, loose, arity, n, start);
      ReachedStart(us, x.sem, loose, arity, start);
    } else {
      var j: nat := k - 1;
      var mid := RunsBack(us, x, j, start, w);
      ReachAll(us, x, loose, arity, n, j, start, mid);
      ReachNext(us, x, loose, arity, n, j, start, mid, w);
    }
  }

  // --- The theorem ---

  // What column storage holds.
  ghost function StoredFacts(db: Db): Facts {
    iset f: Fact | f.rel in db && f.row in db[f.rel].base
  }

  lemma StoredIsTruth(us: seq<Unit>, loose: set<string>, k: nat, arity: map<string, nat>, w: World)
    requires Stored(us, loose, k, arity, w)
    ensures StoredFacts(w.db) == FactsOf(w.truth)
  {
    hide Sound, Tight, SoundAt, TightAt, NewIsEmpty;
    forall rel | rel in w.db ensures w.db[rel].base == w.truth[rel] {
      assert HoldsAt(us, loose, k, w, rel);
    }
  }

  lemma NothingLoose(us: seq<Unit>, k: nat)
    requires k < |us|
    ensures LooseUnread(us, k, {})
  {}

  // When the whole program has run, column storage holds exactly what the units, run in list order, make of the facts
  // that it started from.
  lemma CompiledProgramComputes(us: seq<Unit>, x: Machine, arity: map<string, nat>, start: World, w: World)
    requires ProgramOk(us, x, arity) && Starts(us, arity, start) && |x.run| == |ProgramSteps(us)|
    requires ProgramRuns(us, x, |us|, start, w)
    ensures w.db.Keys == arity.Keys && StoredFacts(w.db) == Run(StrataOf(us), x.sem, FactsOf(start.truth))
  {
    hide ProgramRuns;
    assert us[..|us|] == us;
    OkMeans(us, x, arity);
    assert StartsFor(us, {}, arity, |us|, start);
    hide *;
    forall k | 0 <= k < |us| ensures LooseUnread(us, k, {}) { NothingLoose(us, k); }
    ReachAll(us, x, {}, arity, |us|, |us|, start, w);
    ReachedMeans(us, x.sem, {}, arity, |us|, start, w);
    StoredMeans(us, {}, |us|, arity, w);
    StoredIsTruth(us, {}, |us|, arity, w);
  }

  // ========== Program stops ==========

  // A compiled program comes to its end, when what it derives is finite: every loop stops, and every step can be
  // taken.

  // --- A plan stops ---

  lemma PlanStops(u: Unit, arity: map<string, nat>, sem: Interp, skips: bool, a: World, universe: set<Fact>)
    returns (m: World)
    requires UnitCompiled(u, arity) && ReadsCurrent(u, a) && TypedFacts(FactsOf(a.truth), arity) && Clean(a)
    requires forall f :: f in RunStratum(StratumOf(u), sem, FactsOf(a.truth)) ==> f in universe
    ensures PlanExec(u, sem, skips, a, m)
  {
    hide BaseRun;
    if u.recursive {
      LoopStarts(u, arity, a);
      var c, base := u.compiled, FactsOf(a.truth);
      assert RunStratum(StratumOf(u), sem, base) == LeastClosed(c.rules, sem, base, base);
      hide UnitCompiled, ReadsCurrent, Clean, TypedFacts, FactsOf, WellCompiled, InState, LeastClosed, Rounds, Stopped,
          TruthAfter;
      CompiledStratumStops(c, arity, sem, a.db, base, universe, skips);
      var n :| 0 < n <= |universe| + 1 && Stopped(c, Rounds(c, sem, a.db, n, skips));
      m := World(Rounds(c, sem, a.db, n, skips), TruthAfter(u, sem, a.truth));
      assert LoopStops(c, sem, skips, a.db, m.db, n);
    } else {
      m := World(BaseRun(u, sem, a.db, skips), TruthAfter(u, sem, a.truth));
    }
  }

  // --- The whole program ---

  lemma StratumGrows(s: Stratum, sem: Interp, full: Facts)
    ensures full <= RunStratum(s, sem, full)
  {
    LeastClosedIsClosed(s.rules, sem, full, full);
    hide LeastClosed, ClosedUnder, Immediate;
  }

  lemma {:induction false} RunPrefixGrows(strata: seq<Stratum>, k: nat, sem: Interp, edb: Facts)
    requires k <= |strata|
    ensures Run(strata[..k], sem, edb) <= Run(strata, sem, edb)
    decreases |strata|
  {
    hide *;
    if k < |strata| {
      var m: nat := |strata| - 1;
      assert strata[..m][..k] == strata[..k];
      RunPrefixGrows(strata[..m], k, sem, edb);
      RunLast(strata, m, sem, edb);
      StratumGrows(strata[m], sem, Run(strata[..m], sem, edb));
    } else {
      assert strata[..k] == strata;
    }
  }

  lemma RunLast(strata: seq<Stratum>, m: nat, sem: Interp, edb: Facts)
    requires |strata| == m + 1
    ensures Run(strata, sem, edb) == RunStratum(strata[m], sem, Run(strata[..m], sem, edb))
  {
    hide RunStratum;
  }

  lemma StageInside(us: seq<Unit>, k: nat, sem: Interp, edb: Facts)
    requires k < |us|
    ensures RunStratum(StratumOf(us[k]), sem, Run(StrataOf(us[..k]), sem, edb)) <= Run(StrataOf(us), sem, edb)
  {
    assert StrataOf(us)[..k + 1] == StrataOf(us[..k + 1]);
    hide RunStratum, Run;
    RunNext(us, k, sem, edb);
    RunPrefixGrows(StrataOf(us), k + 1, sem, edb);
  }

  // From what is reached, the next unit runs to its end.
  lemma UnitStops(us: seq<Unit>, x: Machine, arity: map<string, nat>, k: nat, start: World, w: World,
                  universe: set<Fact>) returns (b: World)
    requires ProgramOk(us, x, arity) && Starts(us, arity, start) && k < |us| && |x.run| == |ProgramSteps(us)|
    requires ReachedAt(us, x.sem, {}, arity, k, start, w)
    requires forall f :: f in Run(StrataOf(us), x.sem, FactsOf(start.truth)) ==> f in universe
    ensures Places(us, k) && UnitRuns(us, x, k, w, b)
  {
    hide *;
    OkMeans(us, x, arity);
    UnitPlaces(us, k);
    NothingLoose(us, k);
    StartsAll(us, arity, start);
    UnitIsReady(us, x, {}, arity, |us|, k, start, w);
    ReachedMeans(us, x.sem, {}, arity, k, start, w);
    StageInside(us, k, x.sem, FactsOf(start.truth));
    var a := EnsureAll(us[k], w);
    EnsureKeys(us[k], w);
    EnsuredIsClean(us[k], w);
    var m := PlanStops(us[k], arity, x.sem, x.skips, a, universe);
    PlanKeys(us[k], x.sem, x.skips, a, m);
    FitsMean(us[k], arity);
    NamedMeans(us[k], arity.Keys);
    b := TailRuns(us, x.run, k, m);
    MakeUnitRuns(us, x, k, w, m, b);
  }

  lemma StartsAll(us: seq<Unit>, arity: map<string, nat>, start: World)
    requires Starts(us, arity, start)
    ensures StartsFor(us, {}, arity, |us|, start)
  {}

  lemma MakeUnitRuns(us: seq<Unit>, x: Machine, k: nat, w: World, m: World, b: World)
    requires Places(us, k) && |x.run| == |ProgramSteps(us)|
    requires PlanExec(us[k], x.sem, x.skips, EnsureAll(us[k], w), m) && RunsTo(Tail(us, x.run, k), m, b)
    ensures UnitRuns(us, x, k, w, b)
  {
    hide PlanExec, RunsTo, Tail, ProgramSteps, StartOf, Segments, UnitVariants, EnsureAll;
    assert Phases(us, x, k, w, m, b);
  }

  lemma MakeProgramRuns(us: seq<Unit>, x: Machine, j: nat, start: World, mid: World, w: World)
    requires UnitsOk(us) && Planned(us) && j < |us| && |x.run| == |ProgramSteps(us)| && Places(us, j)
    requires ProgramRuns(us, x, j, start, mid) && UnitRuns(us, x, j, mid, w)
    ensures ProgramRuns(us, x, j + 1, start, w)
  {
    hide Places;
    hide UnitsOk, Planned, ProgramSteps, UnitRuns;
  }

  lemma {:induction false} FirstUnitsStop(us: seq<Unit>, x: Machine, arity: map<string, nat>, k: nat, start: World,
                                          universe: set<Fact>) returns (w: World)
    requires ProgramOk(us, x, arity) && Starts(us, arity, start) && k <= |us| && |x.run| == |ProgramSteps(us)|
    requires forall f :: f in Run(StrataOf(us), x.sem, FactsOf(start.truth)) ==> f in universe
    ensures UnitsOk(us) && Planned(us) && ProgramRuns(us, x, k, start, w)
  {
    hide *;
    OkMeans(us, x, arity);
    if k == 0 {
      w := start;
      NoUnitRuns(us, x, start);
    } else {
      var j: nat := k - 1;
      var mid := FirstUnitsStop(us, x, arity, j, start, universe);
      forall i | 0 <= i < j ensures LooseUnread(us, i, {}) { NothingLoose(us, i); }
      StartsAll(us, arity, start);
      ReachAll(us, x, {}, arity, |us|, j, start, mid);
      w := UnitStops(us, x, arity, j, start, mid, universe);
      MakeProgramRuns(us, x, j, start, mid, w);
    }
  }

  lemma NoUnitRuns(us: seq<Unit>, x: Machine, start: World)
    requires UnitsOk(us) && Planned(us) && |x.run| == |ProgramSteps(us)|
    ensures ProgramRuns(us, x, 0, start, start)
  {}

  // If the strata derive finitely many facts, the compiled program has a run that comes to its end; by
  // CompiledProgramComputes every such run stores the same facts.
  lemma CompiledProgramStops(us: seq<Unit>, x: Machine, arity: map<string, nat>, start: World, universe: set<Fact>)
    requires ProgramOk(us, x, arity) && Starts(us, arity, start) && |x.run| == |ProgramSteps(us)|
    requires forall f :: f in Run(StrataOf(us), x.sem, FactsOf(start.truth)) ==> f in universe
    ensures UnitsOk(us) && Planned(us) && exists w :: ProgramRuns(us, x, |us|, start, w)
  {
    hide *;
    var w := FirstUnitsStop(us, x, arity, |us|, start, universe);
  }
}
