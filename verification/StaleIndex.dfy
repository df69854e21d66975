/** Where the row counts mislead: facts loaded more than once into a relation that a loop then extends. Over whole
    runs, when an index is read out of date, when loaded facts are lost, and a program that loses one. */
module StaleIndex {
  import opened Datalog
  import opened Seqs
  import opened Graph
  import Tarjan
  import opened Dependencies
  import opened StableModel
  import opened SemiNaive
  import opened ClauseOrder
  import opened Planner
  import opened Lowering
  import opened Freshness
  import opened Stratify
  import opened Variants
  import opened IndexSelection
  import opened Maintenance
  import opened CompiledProgram
  import opened WholeProgram
  import opened EndToEnd
  import opened StratifyCorrect
  import opened LoweringTheorem

  // ========== Stale index ==========

  // Where the row counts mislead: facts loaded more than once into a relation that a loop then extends. Over whole
  // runs, when an index is read out of date, and when loaded facts are lost.

  // --- Units that do not touch a relation ---

  ghost predicate Ignores(u: Unit, rel: string) {
    rel !in ReconstructedRels(u) && EnsuredCols(u, rel) == {}
  }

  ghost predicate AllIgnore(us: seq<Unit>, j: nat, k: nat, rel: string) {
    forall i :: j <= i < k && i < |us| ==> Ignores(us[i], rel)
  }

  lemma EnsuringNothing(s: RelState)
    ensures Ensured(s, {}) == s
  {
    hide Dirty;
    assert s.fulls.Keys + {} == s.fulls.Keys && s.rows.Keys + {} == s.rows.Keys;
  }

  lemma UnitIgnores(us: seq<Unit>, x: Machine, loose: set<string>, arity: map<string, nat>, n: nat, k: nat,
                    start: World, w: World, b: World, rel: string)
    requires ProgramOk(us, x, arity) && StartsFor(us, loose, arity, n, start) && k < n && k < |us|
    requires LooseUnread(us, k, loose) && |x.run| == |ProgramSteps(us)|
    requires ReachedAt(us, x.sem, loose, arity, k, start, w) && Places(us, k) && UnitRuns(us, x, k, w, b)
    requires Ignores(us[k], rel) && rel in w.db
    ensures rel in w.truth && rel in b.db && rel in b.truth && b.db[rel] == w.db[rel] && b.truth[rel] == w.truth[rel]
  {
    hide *;
    IgnoresMeans(us[k], rel);
    OkMeans(us, x, arity);
    UnitIsReady(us, x, loose, arity, n, k, start, w);
    var m := PhasesMean(us, x, k, w, b);
    TailMeaning(us, x.run, k, m, b);
    var a := EnsureAll(us[k], w);
    EnsureKeys(us[k], w);
    EnsuredIsClean(us[k], w);
    PlanLeaves(us[k], arity, x.sem, x.skips, a, m, rel);
    TailOn(us[k], x.run, m, b, rel);
    EnsuredState(us[k], w, rel);
    EnsuringNothing(w.db[rel]);
  }

  lemma IgnoresMeans(u: Unit, rel: string)
    requires Ignores(u, rel)
    ensures rel !in ReconstructedRels(u) && EnsuredCols(u, rel) == {}
  {}

  lemma EnsuredState(u: Unit, w: World, rel: string)
    requires rel in w.db
    ensures rel in EnsureAll(u, w).db && EnsureAll(u, w).db[rel] == Ensured(w.db[rel], EnsuredCols(u, rel))
  {}

  lemma IgnoreBack(us: seq<Unit>, j: nat, k: nat, rel: string)
    requires j < k <= |us| && AllIgnore(us, j, k, rel)
    ensures AllIgnore(us, j, k - 1, rel) && Ignores(us[k - 1], rel)
  {
    hide Ignores;
  }

  // Over a stretch of units that ignore it, a relation's state does not change at all.
  lemma {:induction false} IgnoredStays(us: seq<Unit>, x: Machine, loose: set<string>, arity: map<string, nat>, n: nat,
                                        j: nat, k: nat,
                                        start: World, w: World, rel: string) returns (mid: World)
    requires ProgramOk(us, x, arity) && StartsFor(us, loose, arity, n, start) && j <= k <= n && k <= |us|
    requires |x.run| == |ProgramSteps(us)|
    requires (forall i :: 0 <= i < k ==> LooseUnread(us, i, loose)) && AllIgnore(us, j, k, rel) && rel in arity
    requires UnitsOk(us) && Planned(us) && ProgramRuns(us, x, k, start, w)
    ensures ProgramRuns(us, x, j, start, mid) && rel in mid.db && rel in mid.truth && rel in w.db && rel in w.truth
    ensures w.db[rel] == mid.db[rel] && w.truth[rel] == mid.truth[rel]
  {
    hide *;
    if j == k {
      mid := w;
      ReachAll(us, x, loose, arity, n, k, start, w);
      ReachedNames(us, x.sem, loose, arity, k, start, w);
    } else {
      var i: nat := k - 1;
      IgnoreBack(us, j, k, rel);
      var before := RunsBack(us, x, i, start, w);
      mid := IgnoredStays(us, x, loose, arity, n, j, i, start, before, rel);
      ReachAll(us, x, loose, arity, n, i, start, before);
      UnitIgnores(us, x, loose, arity, n, i, start, before, w, rel);
    }
  }

  lemma ReachedNames(us: seq<Unit>, sem: Interp, loose: set<string>, arity: map<string, nat>, k: nat, start: World,
                     w: World)
    requires k <= |us| && ReachedAt(us, sem, loose, arity, k, start, w)
    ensures w.db.Keys == w.truth.Keys == arity.Keys
  {
    hide HoldsAt;
    hide Stored;
    StoredMeans(us, loose, k, arity, w);
  }

  // --- An index that a loop ensures and does not merge ---

  // Unit n is the only one up to k that touches rel: it writes it, and ensures its index i without merging it.
  ghost predicate LeavesBehind(us: seq<Unit>, n: nat, k: nat, rel: string, i: Cols) {
    && n < k <= |us| && rel in HeadSet(us[n]) && i in EnsuredCols(us[n], rel) && i !in MergedOf(us[n], rel)
    && AllIgnore(us, 0, n, rel) && AllIgnore(us, n + 1, k, rel)
  }

  // Generated code runs no inserted rebuild.
  ghost predicate RunsNoRebuild(x: Machine) {
    forall q :: 0 <= q < |x.run| ==> x.run[q] == []
  }

  lemma NothingBuilt(x: Machine, rel: string)
    requires RunsNoRebuild(x)
    ensures BuiltBy(x.run, rel) == iset{}
  {}

  lemma LoadedIsEnsured(s: RelState, rows: iset<Row>, cols: set<Cols>, i: Cols)
    requires OnlyLoaded(s, rows) && i in cols
    ensures At(Ensured(s, cols).fulls, i) == rows && CountAt(Ensured(s, cols).rows, i) == s.interned
  {
    EnsuredAt(s, cols, i);
  }

  lemma RebasedKeeps(s: RelState, t: RelState, c: Cols, i: Cols)
    requires Rebased(s, t, c, iset{})
    ensures At(t.fulls, i) == At(s.fulls, i) && CountAt(t.rows, i) == CountAt(s.rows, i) && t.interned == SizeOf(t.base)
  {
    assert KeptOrBuilt(s, t, i, iset{});
  }

  // After unit n the index holds the rows that were loaded, and has processed as many as were loaded.
  lemma LeftBehind(us: seq<Unit>, x: Machine, arity: map<string, nat>, n: nat, k: nat, start: World, w: World, b: World,
                   rel: string, i: Cols)
    requires ProgramOk(us, x, arity) && StartsFor(us, {rel}, arity, k, start) && n < k <= |us|
    requires |x.run| == |ProgramSteps(us)|
    requires LooseUnread(us, n, {rel}) && ReachedAt(us, x.sem, {rel}, arity, n, start, w) && Places(us, n)
    requires UnitRuns(us, x, n, w, b)
    requires LeavesBehind(us, n, k, rel, i) && RunsNoRebuild(x) && rel in w.db && rel in w.truth
    requires OnlyLoaded(w.db[rel], w.truth[rel])
    ensures rel in b.db && rel in b.truth
    ensures At(b.db[rel].fulls, i) == w.truth[rel] && CountAt(b.db[rel].rows, i) == w.db[rel].interned
    ensures b.db[rel].base == b.truth[rel] && b.db[rel].interned == SizeOf(b.truth[rel])
  {
    hide *;
    BehindMeans(us, n, k, rel, i);
    var u, s, rows := us[n], w.db[rel], w.truth[rel];
    OkMeans(us, x, arity);
    UnitIsReady(us, x, {rel}, arity, k, n, start, w);
    FitsMean(u, arity);
    var m := PhasesMean(us, x, n, w, b);
    TailMeaning(us, x.run, n, m, b);
    var a := EnsureAll(u, w);
    EnsureKeys(u, w);
    EnsuredIsClean(u, w);
    EnsuredState(u, w, rel);
    LoadedIsEnsured(s, rows, EnsuredCols(u, rel), i);
    UnitRelation(u, arity, x.sem, x.skips, a, m, rel);
    EffectKeepsOther(u, a, m, rel, i);
    EffectOnCanonical(u, arity, a, m, rel);
    TailOn(u, x.run, m, b, rel);
    NothingBuilt(x, rel);
    var c := u.compiled.canonical[rel];
    RebasedKeeps(m.db[rel], b.db[rel], c, i);
    CurrentMeans(m, rel, c);
    RebasedIsCurrent(m.db[rel], b.db[rel], c, iset{}, m.truth[rel], c);
  }

  lemma BehindMeans(us: seq<Unit>, n: nat, k: nat, rel: string, i: Cols)
    requires LeavesBehind(us, n, k, rel, i)
    ensures n < k <= |us| && rel in HeadSet(us[n]) && i in EnsuredCols(us[n], rel) && i !in MergedOf(us[n], rel)
    ensures AllIgnore(us, 0, n, rel) && AllIgnore(us, n + 1, k, rel)
  {}

  lemma OnlyOneWriter(us: seq<Unit>, n: nat, k: nat, rel: string, i: Cols, j: nat)
    requires LeavesBehind(us, n, k, rel, i) && j < k
    ensures LooseUnread(us, j, {rel})
  {
    hide ReconstructedRels, EnsuredCols, HeadSet, MergedOf;
    if j <= n {
      forall q | 0 <= q < j ensures rel !in ReconstructedRels(us[q]) { assert Ignores(us[q], rel); }
    } else {
      assert Ignores(us[j], rel);
    }
  }

  lemma CurrentIff(u: Unit, w: World, rel: string, i: Cols)
    requires rel in w.db && rel in w.truth && i in EnsuredCols(u, rel) && w.db[rel].base == w.truth[rel]
    ensures IndexCurrent(EnsureAll(u, w), rel, i) <==> Dirty(w.db[rel], i) || At(w.db[rel].fulls, i) == w.truth[rel]
  {
    EnsuredIsCurrentIff(w.db[rel], EnsuredCols(u, rel), i);
    hide Dirty, Ensured, EnsuredCols;
  }

  // Over any run of the generated code up to unit k, which ensures the index again: it then reads current rows if and
  // only if the relation has not ended with as many rows as were loaded, repetitions included, or has gained none.
  lemma {:induction false} StaleIff(us: seq<Unit>, x: Machine, arity: map<string, nat>, n: nat, k: nat, start: World,
                                    w: World,
                 rel: string, i: Cols)
    requires ProgramOk(us, x, arity) && StartsFor(us, {rel}, arity, k, start) && k < |us|
    requires |x.run| == |ProgramSteps(us)|
    requires LeavesBehind(us, n, k, rel, i) && i in EnsuredCols(us[k], rel) && RunsNoRebuild(x)
    requires rel in arity && rel in start.db && rel in start.truth && OnlyLoaded(start.db[rel], start.truth[rel])
    requires UnitsOk(us) && Planned(us) && ProgramRuns(us, x, k, start, w)
    ensures rel in w.truth
    ensures IndexCurrent(EnsureAll(us[k], w), rel, i) <==>
      start.db[rel].interned != SizeOf(w.truth[rel]) || start.db[rel].interned.Uncounted?
          || w.truth[rel] == start.truth[rel]
  {
    hide *;
    BehindMeans(us, n, k, rel, i);
    forall j | 0 <= j < k ensures LooseUnread(us, j, {rel}) { OnlyOneWriter(us, n, k, rel, i, j); }
    var after := IgnoredStays(us, x, {rel}, arity, k, n + 1, k, start, w, rel);
    var before := RunsBack(us, x, n, start, after);
    var first := IgnoredStays(us, x, {rel}, arity, k, 0, n, start, before, rel);
    RunsNone(us, x, start, first);
    ReachAll(us, x, {rel}, arity, k, n, start, before);
    LeftBehind(us, x, arity, n, k, start, before, after, rel, i);
    CurrentIff(us[k], w, rel, i);
    DirtyIff(w.db[rel], start.db[rel].interned, SizeOf(w.truth[rel]), i);
  }

  lemma DirtyIff(s: RelState, rows: RowCount, size: RowCount, i: Cols)
    requires CountAt(s.rows, i) == rows && s.interned == size
    ensures Dirty(s, i) <==> rows != size || rows.Uncounted?
  {}

  // --- Facts loaded into a relation that a base stratum writes ---

  // Unit k is the first to touch rel, runs once, writes it, and does not ensure any of its indexes.
  ghost predicate WritesFirst(us: seq<Unit>, k: nat, rel: string) {
    && k < |us| && !us[k].recursive && rel in HeadSet(us[k]) && EnsuredCols(us[k], rel) == {}
    && AllIgnore(us, 0, k, rel)
  }

  lemma FirstIsUnread(us: seq<Unit>, k: nat, rel: string, j: nat)
    requires WritesFirst(us, k, rel) && j < k
    ensures LooseUnread(us, j, {rel})
  {
    hide ReconstructedRels, EnsuredCols, HeadSet;
    forall q | 0 <= q < j ensures rel !in ReconstructedRels(us[q]) { assert Ignores(us[q], rel); }
  }

  lemma ReadHolds(u: Unit, arity: map<string, nat>, w: World, k: nat, p: AccessPattern)
    requires UnitCompiled(u, arity) && !u.recursive && Trusted(u, w) && Reads(u, k, p) && p.rel in w.db
    ensures p.rel in w.truth && p.rel in EnsureAll(u, w).db
    ensures At(EnsureAll(u, w).db[p.rel].fulls, p.indexCols) == RowsIn(FactsOf(w.truth), p.rel)
  {
    hide *;
    NoLoopScan(u, k, p);
    ReadIsEnsured(u, arity, k, p);
    EnsuredIsCurrent(u, w, p.rel, p.indexCols);
    EnsureKeys(u, w);
    TrustedKeys(u, w);
    CurrentMeans(EnsureAll(u, w), p.rel, p.indexCols);
    RowsOfFacts(w.truth, p.rel);
  }

  lemma NoLoopScan(u: Unit, k: nat, p: AccessPattern)
    requires !u.recursive
    ensures !LoopScan(u, k, p)
  {}

  lemma ReadsWithout(u: Unit, arity: map<string, nat>, w: World)
    requires UnitCompiled(u, arity) && !u.recursive && Trusted(u, w) && Named(u, w.db.Keys)
    ensures BaseReads(u.compiled, EnsureAll(u, w).db, FactsOf(w.truth))
  {
    var a, stage := EnsureAll(u, w), FactsOf(w.truth);
    hide *;
    NamedMeans(u, w.db.Keys);
    forall k: nat, p | Reads(u, k, p)
      ensures p.rel in a.db && At(a.db[p.rel].fulls, p.indexCols) == RowsIn(stage, p.rel) {
      ReadHolds(u, arity, w, k, p);
    }
    MakeBaseReads(u, a.db, stage);
  }

  lemma MakeBaseReads(u: Unit, db: Db, stage: Facts)
    requires forall k: nat, p ::
        Reads(u, k, p) ==> p.rel in db && At(db[p.rel].fulls, p.indexCols) == RowsIn(stage, p.rel)
    ensures BaseReads(u.compiled, db, stage)
  {
    hide RowsIn, At;
    forall k, p | 0 <= k < |u.compiled.plans| && (p in u.compiled.plans[k].access || p in u.compiled.plans[k].negations)
      ensures p.rel in db && At(db[p.rel].fulls, p.indexCols) == RowsIn(stage, p.rel)
    {
      assert Reads(u, k, p);
    }
  }

  lemma TakenByEmpty(s: RelState, t: RelState, required: seq<Cols>, c: Cols, derived: iset<Row>)
    requires s.fulls == map[] && c in required && TakenIn(s.(pending := derived), t, required, c)
    ensures At(t.fulls, c) == derived
  {
    assert Takes(s.(pending := derived), t, c, if c in required then derived - At(s.fulls, c) else iset{});
  }

  lemma RebasedBase(s: RelState, t: RelState, c: Cols, built: iset<Cols>)
    requires Rebased(s, t, c, built)
    ensures t.base == At(s.fulls, c)
  {}

  // What such a unit stores of the relation is what its rules derive, and nothing of what was loaded.
  lemma StoresDerived(us: seq<Unit>, x: Machine, arity: map<string, nat>, k: nat, start: World, w: World, b: World,
                      rel: string)
    requires ProgramOk(us, x, arity) && StartsFor(us, {rel}, arity, k, start) && WritesFirst(us, k, rel)
    requires |x.run| == |ProgramSteps(us)|
    requires LooseUnread(us, k, {rel}) && ReachedAt(us, x.sem, {rel}, arity, k, start, w) && Places(us, k)
    requires UnitRuns(us, x, k, w, b)
    requires rel in w.db && rel in w.truth && OnlyLoaded(w.db[rel], w.truth[rel])
    ensures var derived := RowsIn(Immediate(us[k].compiled.rules, x.sem, FactsOf(w.truth), FactsOf(w.truth)), rel);
      rel in b.db && rel in b.truth && b.db[rel].base == derived && b.truth[rel] == w.truth[rel] + derived
  {
    hide *;
    FirstMeans(us, k, rel);
    LoadedFulls(w.db[rel], w.truth[rel]);
    var u, stage := us[k], FactsOf(w.truth);
    OkMeans(us, x, arity);
    ReachedMeans(us, x.sem, {rel}, arity, k, start, w);
    StoredMeans(us, {rel}, k, arity, w);
    StoredIsTrusted(us, {rel}, k, arity, w);
    FitsMean(u, arity);
    ReadsWithout(u, arity, w);
    var m := PhasesMean(us, x, k, w, b);
    TailMeaning(us, x.run, k, m, b);
    var a := EnsureAll(u, w);
    EnsureKeys(u, w);
    EnsuredIsClean(u, w);
    EnsuredState(u, w, rel);
    EnsuringNothing(w.db[rel]);
    BaseStored(u, arity, x.sem, x.skips, a, m, rel, stage);
    BaseTruth(u, x.sem, x.skips, a, m, rel);
    BaseSets(u, arity, rel);
    RequiredMeans(u, rel);
    TailOn(u, x.run, m, b, rel);
    TakenByEmpty(a.db[rel], m.db[rel], u.compiled.required[rel], u.compiled.canonical[rel],
                 RowsIn(Immediate(u.compiled.rules, x.sem, stage, stage), rel));
    RebasedBase(m.db[rel], b.db[rel], u.compiled.canonical[rel], BuiltBy(x.run, rel));
  }

  lemma FirstMeans(us: seq<Unit>, k: nat, rel: string)
    requires WritesFirst(us, k, rel)
    ensures k < |us| && !us[k].recursive && rel in HeadSet(us[k]) && EnsuredCols(us[k], rel) == {}
    ensures AllIgnore(us, 0, k, rel)
  {}

  lemma LoadedFulls(s: RelState, rows: iset<Row>)
    requires OnlyLoaded(s, rows)
    ensures s.fulls == map[]
  {}

  lemma RequiredMeans(u: Unit, rel: string)
    requires CompiledProgram.RequiredOnce(u.compiled, rel)
    ensures rel in u.compiled.required && rel in u.compiled.canonical
    ensures u.compiled.canonical[rel] in u.compiled.required[rel]
  {}

  // Over any run: facts loaded into a relation whose first writer is a base stratum are still stored after it if and
  // only if its rules derive them again.
  lemma {:induction false} LoadedFactsKeptIff(us: seq<Unit>, x: Machine, arity: map<string, nat>, k: nat, start: World,
                                              b: World,
                           rel: string)
    requires ProgramOk(us, x, arity) && StartsFor(us, {rel}, arity, k, start) && WritesFirst(us, k, rel)
    requires |x.run| == |ProgramSteps(us)|
    requires rel in arity && rel in start.db && rel in start.truth && OnlyLoaded(start.db[rel], start.truth[rel])
    requires UnitsOk(us) && Planned(us) && ProgramRuns(us, x, k + 1, start, b)
    ensures var stage := Run(StrataOf(us[..k]), x.sem, FactsOf(start.truth));
      var derived := RowsIn(Immediate(us[k].compiled.rules, x.sem, stage, stage), rel);
      && rel in b.db && rel in b.truth && b.db[rel].base == derived && b.truth[rel] == start.truth[rel] + derived
      && (b.db[rel].base == b.truth[rel] <==> start.truth[rel] <= derived)
  {
    hide *;
    FirstMeans(us, k, rel);
    forall j | 0 <= j < k ensures LooseUnread(us, j, {rel}) { FirstIsUnread(us, k, rel, j); }
    UnreadNow(us, k, rel);
    var w := RunsBack(us, x, k, start, b);
    var first := IgnoredStays(us, x, {rel}, arity, k, 0, k, start, w, rel);
    RunsNone(us, x, start, first);
    ReachAll(us, x, {rel}, arity, k, k, start, w);
    ReachedMeans(us, x.sem, {rel}, arity, k, start, w);
    StoresDerived(us, x, arity, k, start, w, b, rel);
  }

  lemma UnreadNow(us: seq<Unit>, k: nat, rel: string)
    requires k < |us| && EnsuredCols(us[k], rel) == {}
    ensures LooseUnread(us, k, {rel})
  {
    hide EnsuredCols, WrittenBefore;
  }

  // ========== Stale example ==========

  // A program on which the generated code reads an index out of date and loses a fact: the case of StaleIndex on a
  // rule list.

  const X: Arg := LVar("x")
  const Y: Arg := LVar("y")
  const Z: Arg := LVar("z")
  const EUCLID: Rule := Rule([Atom("R", [Y, Z])], [Pos(Atom("R", [X, Y])), Pos(Atom("R", [X, Z]))])
  const EXTEND: Rule := Rule([Atom("R", [X, Z])], [Pos(Atom("R", [X, Y])), Pos(Atom("E", [Y, Z]))])
  const COPY: Rule := Rule([Atom("Out", [X, Y])], [Pos(Atom("R", [X, Y])), Pos(Atom("H", [Y]))])

  // R(y, z) :- R(x, y), R(x, z).  R(x, z) :- R(x, y), E(y, z).  Out(x, y) :- R(x, y), H(y).
  const RULES: seq<Rule> := [EUCLID, EXTEND, COPY]
  const FACTS: Facts := iset{Fact("R", [1, 2]), Fact("H", [2])}
  const ARITY: map<string, nat> := map["R" := 2, "E" := 2, "H" := 1, "Out" := 2]
  const LOOP: Stratum := Stratum({"R"}, true, [EUCLID, EXTEND])
  const BASE: Stratum := Stratum({"Out"}, false, [COPY])
  const BACK: Cols := [1, 0]

  // --- Names ---

  lemma Differ()
    ensures "R" != "E" && "R" != "H" && "R" != "Out" && "E" != "H" && "E" != "Out" && "H" != "Out" && "x" != "y"
    ensures "x" != "z" && "y" != "z"
  {
    assert "R"[0] != "E"[0] && "R"[0] != "H"[0] && "E"[0] != "H"[0] && |"Out"| == 3;
    assert "x"[0] != "y"[0] && "x"[0] != "z"[0] && "y"[0] != "z"[0];
  }

  lemma Rels()
    ensures HeadRels(EUCLID) == {"R"} && BodyRels(EUCLID) == {"R"} && NegRels(EUCLID) == {}
    ensures HeadRels(EXTEND) == {"R"} && BodyRels(EXTEND) == {"R", "E"} && NegRels(EXTEND) == {}
    ensures HeadRels(COPY) == {"Out"} && BodyRels(COPY) == {"R", "H"} && NegRels(COPY) == {}
    ensures Idbs(RULES) == {"R", "Out"}
  {
    assert EUCLID.heads[0].rel == "R" && EXTEND.heads[0].rel == "R" && COPY.heads[0].rel == "Out";
    assert EUCLID.body[0].atom.rel == "R" && EUCLID.body[1].atom.rel == "R" && EXTEND.body[0].atom.rel == "R"
        && EXTEND.body[1].atom.rel == "E";
    assert COPY.body[0].atom.rel == "R" && COPY.body[1].atom.rel == "H";
    assert RULES[0].heads[0].rel == "R" && RULES[1].heads[0].rel == "R" && RULES[2].heads[0].rel == "Out";
  }

  // --- The strata ---

  lemma Edges(g: Graph)
    requires IsDepGraph(RULES, g)
    ensures g.Keys == {"R", "Out"} && forall x, y :: Edge(g, x, y) <==> (x == "R" || x == "Out") && y == "R"
  {
    Rels();
    Differ();
    hide HeadRels, BodyRels, Idbs;
    assert RULES[0] == EUCLID && RULES[1] == EXTEND && RULES[2] == COPY;
    forall x, y ensures Edge(g, x, y) <==> (x == "R" || x == "Out") && y == "R" {
      assert Edge(g, x, y) <==> DependsOn(RULES, x, y);
      if x == "R" && y == "R" { assert x in HeadRels(RULES[0]) && y in BodyRels(RULES[0]); }
      if x == "Out" && y == "R" { assert x in HeadRels(RULES[2]) && y in BodyRels(RULES[2]); }
    }
  }

  lemma NotMutual(g: Graph)
    requires IsDepGraph(RULES, g)
    ensures !Mutual(g, "R", "Out") && !Mutual(g, "Out", "R")
  {
    Edges(g);
    Differ();
    hide IsDepGraph;
    assert Closed(g, {"R"});
    assert !Reach(g, "R", "Out");
  }

  lemma OneEach(g: Graph, c: set<string>)
    requires IsDepGraph(RULES, g) && Tarjan.IsComponent(g, c)
    ensures c == {"R"} || c == {"Out"}
  {
    Edges(g);
    NotMutual(g);
    hide IsDepGraph, Edge;
    var x :| x in c;
    forall y | y in c ensures y == x { assert Mutual(g, x, y); }
    assert c == {x};
  }

  lemma ComponentsAre(g: Graph, sccs: seq<set<string>>)
    requires IsDepGraph(RULES, g) && Tarjan.IsComponentList(g, sccs) && Members(sccs) == g.Keys
    ensures sccs == [{"R"}, {"Out"}]
  {
    hide *;
    Edges(g);
    Differ();
    EachIsOne(g, sccs);
    assert "R" in Members(sccs) && "Out" in Members(sccs) && Edge(g, "Out", "R");
    PlaceTwo(g, sccs, "R", "Out");
  }

  lemma EachIsOne(g: Graph, sccs: seq<set<string>>)
    requires IsDepGraph(RULES, g) && Tarjan.IsComponentList(g, sccs)
    ensures forall i :: 0 <= i < |sccs| ==> sccs[i] == {"R"} || sccs[i] == {"Out"}
  {
    hide IsDepGraph, Tarjan.IsComponent, Tarjan.DependenciesFirst;
    forall i | 0 <= i < |sccs| ensures sccs[i] == {"R"} || sccs[i] == {"Out"} { OneEach(g, sccs[i]); }
  }

  lemma PlaceTwo(g: Graph, sccs: seq<set<string>>, x: string, y: string)
    requires Tarjan.IsComponentList(g, sccs) && x in Members(sccs) && y in Members(sccs) && x != y && Edge(g, y, x)
    requires forall i :: 0 <= i < |sccs| ==> sccs[i] == {x} || sccs[i] == {y}
    ensures sccs == [{x}, {y}]
  {
    hide Tarjan.IsComponentList, Edge, Members;
    StratifyCorrect.DisjointList(g, sccs);
    var i := StratifyCorrect.WhereIs(sccs, x, y, y, x);
    var j := StratifyCorrect.WhereIs(sccs, x, y, y, y);
    StratifyCorrect.EarlierBy(g, sccs, y, x, j, i);
    forall k: nat | k < |sccs| ensures IsEither(k, i, j) {
      StratifyCorrect.SameSingle(sccs, k, i, x);
      StratifyCorrect.SameSingle(sccs, k, j, y);
    }
    TwoPositions(i, j, |sccs|);
  }

  lemma TwoPositions(i: nat, j: nat, n: nat)
    requires i < j < n && forall k: nat :: k < n ==> IsEither(k, i, j)
    ensures i == 0 && j == 1 && n == 2
  {
    assert IsEither(0, i, j) && IsEither(1, i, j);
    assert n > 2 ==> IsEither(2, i, j);
  }

  predicate IsEither(k: nat, i: nat, j: nat) {
    k == i || k == j
  }

  lemma ApartHeads(sccs: seq<set<string>>)
    requires sccs == [{"R"}, {"Out"}]
    ensures HeadsTogether(sccs, RULES) && Stratify.Disjoint(sccs)
  {
    Rels();
    Differ();
    hide HeadRels, BodyRels;
    assert RULES[0] == EUCLID && RULES[1] == EXTEND && RULES[2] == COPY;
  }

  lemma GroupsAre(sccs: seq<set<string>>, groups: seq<set<string>>)
    requires sccs == [{"R"}, {"Out"}] && MergedFrom(sccs, RULES, groups)
    ensures groups == [{"R"}, {"Out"}]
  {
    ApartHeads(sccs);
    hide *;
    var m := MergeBehind(sccs, RULES, groups);
    MergeIsIdentity(sccs, RULES, m.root, m.sccOf, m.links);
  }

  lemma FeedersOfEach()
    ensures RulesFor(RULES, {"R"}) == [EUCLID, EXTEND] && RulesFor(RULES, {"Out"}) == [COPY]
  {
    Rels();
    Differ();
    StratifyCorrect.ThreeRulesFor(EUCLID, EXTEND, COPY, {"R"});
    StratifyCorrect.ThreeRulesFor(EUCLID, EXTEND, COPY, {"Out"});
    hide HeadRels, BodyRels, RulesFor;
    assert "R" in HeadRels(EUCLID) * {"R"} && "R" in HeadRels(EXTEND) * {"R"} && "Out" in HeadRels(COPY) * {"Out"};
    assert HeadRels(COPY) * {"R"} == {} && HeadRels(EUCLID) * {"Out"} == {} && HeadRels(EXTEND) * {"Out"} == {};
  }

  lemma TwoBothRead(a: Rule, b: Rule, scc: set<string>)
    requires ReadsAny(a, scc) && ReadsAny(b, scc)
    ensures Readers([a, b], scc, true) == [a, b] && Readers([a, b], scc, false) == []
  {
    var rules := [a, b];
    assert rules[..1][..0] == rules[..0];
    assert Readers(rules[..1], scc, true) == [a] && Readers(rules[..1], scc, false) == [];
  }

  lemma LoopStratum(g: Graph)
    requires IsDepGraph(RULES, g)
    ensures StrataFor({"R"}, RULES, g) == [LOOP]
  {
    Edges(g);
    Rels();
    FeedersOfEach();
    hide HeadRels, BodyRels, RulesFor, IsDepGraph;
    assert "R" in BodyRels(EUCLID) * {"R"} && "R" in BodyRels(EXTEND) * {"R"};
    TwoBothRead(EUCLID, EXTEND, {"R"});
    assert IsRecursive({"R"}, g);
  }

  lemma BaseStratumIs(g: Graph)
    requires IsDepGraph(RULES, g)
    ensures StrataFor({"Out"}, RULES, g) == [BASE]
  {
    Edges(g);
    Differ();
    FeedersOfEach();
    hide HeadRels, BodyRels, RulesFor, IsDepGraph;
    assert !IsRecursive({"Out"}, g);
  }

  lemma InitialAre(g: Graph)
    requires IsDepGraph(RULES, g)
    ensures InitialStrata([{"R"}, {"Out"}], RULES, g) == [LOOP, BASE]
  {
    LoopStratum(g);
    BaseStratumIs(g);
    hide IsDepGraph, StrataFor;
    var a: set<string>, b: set<string> := {"R"}, {"Out"};
    assert [a, b][..1] == [a] && [a][..0] == [];
    assert InitialStrata([a], RULES, g) == StrataFor(a, RULES, g);
  }

  lemma FusedAre(recursiveMembers: set<string>)
    requires recursiveMembers == {"R"}
    ensures FuseAll([LOOP, BASE], recursiveMembers) == [LOOP, BASE]
  {
    Differ();
    assert [LOOP, BASE][1..] == [BASE] && [BASE][1..] == [] && [BASE][1 + 0..] == [];
    assert Absorb(BASE, [], recursiveMembers) == (BASE, 0);
    assert FuseAll([], recursiveMembers) == [];
    assert FuseAll([BASE], recursiveMembers) == [BASE];
  }

  lemma LoopMembers()
    ensures RecursiveMembers([LOOP, BASE]) == {"R"}
  {
    assert [LOOP, BASE][0] == LOOP && [LOOP, BASE][1] == BASE;
  }

  lemma StrataAre(g: Graph, sccs: seq<set<string>>, strata: seq<Stratum>)
    requires IsStratification(RULES, g, sccs, strata)
    ensures strata == [LOOP, BASE]
  {
    hide InitialStrata, MergedFrom, FuseAll, RecursiveMembers, IsDepGraph, Tarjan.IsComponentList;
    var groups :| MergedFrom(sccs, RULES, groups) && strata == Fused(RULES, g, groups);
    ComponentsAre(g, sccs);
    GroupsAre(sccs, groups);
    InitialAre(g);
    LoopMembers();
    FusedAre({"R"});
  }

  lemma StrataInOrder()
    ensures WellStratified([LOOP, BASE])
  {
    Rels();
    Differ();
    assert LOOP.rules[0] == EUCLID && LOOP.rules[1] == EXTEND && BASE.rules[0] == COPY;
    assert Heads(LOOP.rules) <= {"R"} && Heads(BASE.rules) <= {"Out"} by { HeadsOfEach(); }
    hide HeadRels, BodyRels, NegRels, Heads;
  }

  lemma HeadsOfEach()
    ensures Heads(LOOP.rules) <= {"R"} && Heads(BASE.rules) <= {"Out"}
  {
    forall x | x in Heads(LOOP.rules) ensures x == "R" {
      var k, h :| 0 <= k < |LOOP.rules| && 0 <= h < |LOOP.rules[k].heads| && LOOP.rules[k].heads[h].rel == x;
      assert LOOP.rules[k] == EUCLID || LOOP.rules[k] == EXTEND;
    }
  }

  // --- Columns ---

  // In an atom of two variables of which one joins, the joining one's column leads the index.
  lemma JoinColumnFirst(v: Variant, plan: Plan, i: nat, rel: string, a: string, b: string)
    requires |v.versions| == |v.rule.body| && IsDefaultPlan(v, plan) && i < |v.rule.body| && a != b
    requires v.rule.body[i] == Pos(Atom(rel, [LVar(a), LVar(b)])) && (a in plan.join) != (b in plan.join)
    ensures Pattern(v.rule.body[i], v.versions[i], plan.join, plan.varOrder, i).indexCols == if a in plan.join
        then [0, 1] else [1, 0]
  {
    hide AddClauses, KeepIn;
    var body, args := v.rule.body, [LVar(a), LVar(b)];
    var n := VarOrderFacts(body, plan.clauseOrder, plan.join, v.deltaIdx);
    assert v.rule.body[i].atom.args == args && args[0] == LVar(a) && args[1] == LVar(b);
    forall w | w in ArgVars(args) ensures w in plan.varOrder { assert w in ClauseVars(body[i]); }
    PatternFits(body[i], v.versions[i], plan.join, plan.varOrder, i);
    JoinVarsLead(plan.varOrder, plan.join, Elems(ArgVars(args)), n);
    var p := Pattern(body[i], v.versions[i], plan.join, plan.varOrder, i);
    hide IsDefaultPlan, Pattern, VarOrder, IsPermutation;
    LeadingColumn(p.accessOrder, p.indexCols, args, plan.join, |KeepIn(p.accessOrder, plan.join)|, a, b);
  }

  lemma LeadingColumn(order: seq<string>, cols: seq<nat>, args: seq<Arg>, join: set<string>, m: nat, a: string,
                      b: string)
    requires args == [LVar(a), LVar(b)] && a != b && |order| == |cols| == 2 && order[0] != order[1]
    requires (a in join) != (b in join)
    requires cols[0] < 2 && cols[1] < 2 && args[cols[0]] == LVar(order[0]) && args[cols[1]] == LVar(order[1])
    requires m <= 2 && (order[0] in join <==> 0 < m) && (order[1] in join <==> 1 < m)
    ensures cols == if a in join then [0, 1] else [1, 0]
  {}

  lemma TwoVars(a: string, b: string)
    ensures ArgVars([LVar(a), LVar(b)]) == [a, b] && ArgVars([LVar(a)]) == [a]
  {
    var args := [LVar(a), LVar(b)];
    assert args[..1] == [LVar(a)] && args[..1][..0] == [];
    assert ArgVars([LVar(a)]) == [a];
  }

  lemma CountTwo(a: string, b: string, v: string)
    ensures CountOf([a, b], v) == (if a == v then 1 else 0) + if b == v then 1 else 0
    ensures CountOf([a], v) == if a == v then 1 else 0
  {
    assert [a, b][..1] == [a] && [a][..0] == [];
    assert CountOf([a], v) == CountOf([], v) + if a == v then 1 else 0;
  }

  // How often a variable occurs in a body of two positive atoms.
  lemma CountInTwo(p: Atom, q: Atom, v: string)
    ensures PositiveCount([Pos(p), Pos(q)], v) == CountOf(ArgVars(p.args), v) + CountOf(ArgVars(q.args), v)
  {
    var body := [Pos(p), Pos(q)];
    assert body[..1] == [Pos(p)] && [Pos(p)][..0] == [];
    assert PositiveCount([Pos(p)], v) == CountOf(ArgVars(p.args), v);
  }

  lemma JoinsOf(rule: Rule, join: set<string>)
    requires rule in RULES && IsJoinSet(rule.body, join)
    ensures rule == EUCLID ==> "x" in join && "y" !in join && "z" !in join
    ensures rule == EXTEND || rule == COPY ==> "x" !in join && "y" in join
  {
    hide ArgVars;
    Differ();
    TwoVars("x", "y");
    TwoVars("x", "z");
    TwoVars("y", "z");
    forall v ensures rule == EUCLID ==> PositiveCount(rule.body, v) == CountOf(["x", "y"], v) + CountOf(["x", "z"], v)
      ensures rule == EXTEND ==> PositiveCount(rule.body, v) == CountOf(["x", "y"], v) + CountOf(["y", "z"], v)
      ensures rule == COPY ==> PositiveCount(rule.body, v) == CountOf(["x", "y"], v) + CountOf(["y"], v)
    {
      CountInTwo(rule.body[0].atom, rule.body[1].atom, v);
    }
    hide PositiveCount, CountOf;
    forall v ensures CountOf(["x", "y"], v) == (if "x" == v then 1 else 0) + if "y" == v then 1 else 0 {
      CountTwo("x", "y", v);
    }
    forall v ensures CountOf(["x", "z"], v) == (if "x" == v then 1 else 0) + if "z" == v then 1 else 0 {
      CountTwo("x", "z", v);
    }
    forall v ensures CountOf(["y", "z"], v) == (if "y" == v then 1 else 0) + if "z" == v then 1 else 0 {
      CountTwo("y", "z", v);
    }
    forall v ensures CountOf(["y"], v) == if "y" == v then 1 else 0 { CountTwo("y", "y", v); }
  }

  lemma AccessOf(v: Variant, plan: Plan, p: AccessPattern)
    requires |v.versions| == |v.rule.body| && IsDefaultPlan(v, plan) && p in plan.access
    ensures p.clauseIdx < |v.rule.body| && v.rule.body[p.clauseIdx].Pos? && p.rel == v.rule.body[p.clauseIdx].atom.rel
    ensures p.version == v.versions[p.clauseIdx]
    ensures p == Pattern(v.rule.body[p.clauseIdx], v.versions[p.clauseIdx], plan.join, plan.varOrder, p.clauseIdx)
  {
    hide IsDefaultPlan, Pattern;
    PlanAccess(v, plan);
    assert IsAccess(p, v.rule.body, v.versions, plan.join, plan.varOrder);
    PatternShape(v.rule.body[p.clauseIdx], v.versions[p.clauseIdx], plan.join, plan.varOrder, p.clauseIdx);
  }

  lemma BodiesAre(rule: Rule, i: nat)
    requires rule in RULES && i < |rule.body| && rule.body[i].Pos? && rule.body[i].atom.rel == "R"
    ensures rule.body[i] == Pos(Atom("R", [LVar("x"), LVar("y")]))
        || (rule == EUCLID && rule.body[i] == Pos(Atom("R", [LVar("x"), LVar("z")])))
    ensures rule != EUCLID ==> i == 0
    ensures rule == EUCLID || rule == EXTEND || rule == COPY
  {
    Differ();
  }

  // The index of every access pattern on R.
  lemma IndexOfR(v: Variant, plan: Plan, p: AccessPattern)
    requires |v.versions| == |v.rule.body| && IsDefaultPlan(v, plan) && v.rule in RULES && p in plan.access
    requires p.rel == "R"
    ensures p.indexCols == if v.rule == EUCLID then [0, 1] else BACK
    ensures p.clauseIdx < |v.versions| && p.version == v.versions[p.clauseIdx]
    ensures v.rule != EUCLID ==> p.clauseIdx == 0
  {
    hide Pattern;
    assert IsJoinSet(v.rule.body, plan.join);
    assert BACK == [1, 0];
    hide *;
    AccessOf(v, plan, p);
    Differ();
    JoinsOf(v.rule, plan.join);
    BodiesAre(v.rule, p.clauseIdx);
    if v.rule.body[p.clauseIdx] == Pos(Atom("R", [LVar("x"), LVar("y")])) {
      JoinColumnFirst(v, plan, p.clauseIdx, "R", "x", "y");
    } else {
      JoinColumnFirst(v, plan, p.clauseIdx, "R", "x", "z");
    }
  }

  // --- The units ---

  // The loop's unit and the base unit.
  ghost predicate UnitShape(us: seq<Unit>) {
    && |us| == 2 && us[0].recursive && us[0].compiled.rules == [EUCLID, EXTEND] && us[0].compiled.members == {"R"}
    && !us[1].recursive && us[1].compiled.rules == [COPY] && us[1].compiled.members == {"Out"}
  }

  lemma BothLoop()
    ensures RunRules(LOOP) == [EUCLID, EXTEND] && RunRules(BASE) == [COPY]
  {
    assert IsSccClause(EUCLID, {"R"}, 0) && IsSccClause(EXTEND, {"R"}, 0);
    AllLooping([EUCLID, EXTEND], {"R"});
  }

  lemma UnitsAre(p: Passes)
    requires PassesRan(RULES, ARITY, p)
    ensures UnitShape(p.units) && p.strata == [LOOP, BASE] && EndToEnd.StrataInOrder(RULES, p)
  {
    hide *;
    RanMeans(RULES, ARITY, p);
    BothLoop();
    ShapeFrom(p.strata, p.drafts, p.units);
    StrataAre(p.g, p.sccs, p.strata);
    StrataInOrder();
    StratifiedIff(RULES, p.g, p.sccs, p.strata);
    MakeInOrder(p);
  }

  lemma MakeInOrder(p: Passes)
    requires OrderSurvives(p.g, p.sccs, RULES) && NegationApart(p.sccs, RULES)
    ensures EndToEnd.StrataInOrder(RULES, p)
  {}

  lemma ShapeFrom(strata: seq<Stratum>, ds: seq<Draft>, us: seq<Unit>)
    requires DraftsFor(strata, ds, ARITY) && AreUnitsOf(ds, ARITY, us)
    ensures strata == [LOOP, BASE] ==> UnitShape(us)
  {
    hide IsUnitOf, UnitVariants;
    BothLoop();
    hide DraftVariants, DraftPlanned, RunRules;
    if strata == [LOOP, BASE] {
      assert DraftFor(strata[0], ds[0], ARITY) && DraftFor(strata[1], ds[1], ARITY);
      UnitFields(ds, ds[0], ARITY, us[0]);
      UnitFields(ds, ds[1], ARITY, us[1]);
    }
  }

  // --- The rules are in scope ---

  lemma TwoAtoms(rule: Rule, p: Atom, q: Atom, h: Atom)
    requires rule == Rule([h], [Pos(p), Pos(q)]) && PlainAtom(p) && PlainAtom(q) && |p.args| > 0 && |q.args| > 0
    requires TypedAtom(p, ARITY) && TypedAtom(q, ARITY) && TypedAtom(h, ARITY)
    requires forall i :: 0 <= i < |h.args| ==> h.args[i].LVar? && (h.args[i] in p.args || h.args[i] in q.args)
    ensures BaseRuleOk(rule, ARITY)
  {
    hide TypedAtom, ArgVars;
    var body := rule.body;
    assert body[0].atom == p && body[1].atom == q;
    forall i | 0 <= i < |h.args| ensures InAtom(body, h.args[i].name) {
      if h.args[i] in p.args {
        assert h.args[i].name in ArgVars(body[0].atom.args);
      } else {
        assert h.args[i].name in ArgVars(body[1].atom.args);
      }
    }
    assert forall i :: 0 <= i < |body| ==> CheckedAtom(body, i);
    HeadsKnown(rule);
  }

  lemma HeadsKnown(rule: Rule)
    requires |rule.heads| == 1
    requires forall i ::
        0 <= i < |rule.heads[0].args| ==> rule.heads[0].args[i].LVar? && InAtom(rule.body, rule.heads[0].args[i].name)
    ensures HeadOk(rule, rule.heads[0])
  {}

  lemma RulesAreOk()
    ensures RulesOk(RULES, ARITY)
  {
    Differ();
    TwoAtoms(EUCLID, Atom("R", [X, Y]), Atom("R", [X, Z]), Atom("R", [Y, Z]));
    TwoAtoms(EXTEND, Atom("R", [X, Y]), Atom("E", [Y, Z]), Atom("R", [X, Z]));
    TwoAtoms(COPY, Atom("R", [X, Y]), Atom("H", [Y]), Atom("Out", [X, Y]));
    hide BaseRuleOk;
  }

  // --- What the units read, ensure and merge ---

  ghost predicate LoopUnit(u: Unit) {
    u.recursive && UnitCompiled(u, ARITY) && u.compiled.rules == [EUCLID, EXTEND] && u.compiled.members == {"R"}
  }

  ghost predicate BaseUnit(u: Unit) {
    !u.recursive && UnitCompiled(u, ARITY) && u.compiled.rules == [COPY] && u.compiled.members == {"Out"}
  }

  lemma LoopMeans(u: Unit)
    requires LoopUnit(u)
    ensures u.recursive && UnitCompiled(u, ARITY) && u.compiled.rules == [EUCLID, EXTEND] && u.compiled.members == {"R"}
    ensures |u.compiled.plans| == |UnitVariants(u)| && UnitVariants(u) == DeltaVariants([EUCLID, EXTEND], {"R"})
  {
    hide UnitOk;
    UnitHasPlans(u, ARITY);
    hide UnitCompiled, DeltaVariants;
  }

  lemma ClausesOnR(rule: Rule, i: nat)
    requires rule == EUCLID || rule == EXTEND
    requires IsSccClause(rule, {"R"}, i)
    ensures rule in RULES && |CreateDeltaVariant(rule, i).versions| == 2
    ensures rule != EUCLID ==> rule == EXTEND && CreateDeltaVariant(rule, i).versions == [DELTA, FULL]
  {
    Differ();
    assert RULES[0] == EUCLID && RULES[1] == EXTEND;
  }

  lemma VariantsOfLoop(u: Unit, j: nat)
    requires LoopUnit(u) && j < |u.compiled.plans|
    ensures j < |UnitVariants(u)| && UnitVariants(u)[j].rule in RULES && |UnitVariants(u)[j].versions| == 2
    ensures UnitVariants(u)[j].rule != EUCLID ==>
        UnitVariants(u)[j].rule == EXTEND && UnitVariants(u)[j].versions == [DELTA, FULL]
  {
    LoopMeans(u);
    var vs := DeltaVariants([EUCLID, EXTEND], {"R"});
    hide LoopUnit, DeltaVariants, UnitVariants, CreateDeltaVariant, IsSccClause;
    DeltaVariantListed([EUCLID, EXTEND], {"R"}, vs[j]);
    assert vs[j] in vs;
    var k, i: nat :| 0 <= k < 2 && IsSccClause([EUCLID, EXTEND][k], {"R"}, i)
        && vs[j] == CreateDeltaVariant([EUCLID, EXTEND][k], i);
    ClausesOnR([EUCLID, EXTEND][k], i);
    DeltaRule([EUCLID, EXTEND][k], i);
  }

  lemma DeltaRule(rule: Rule, i: nat)
    requires IsSccClause(rule, {"R"}, i)
    ensures i < |rule.body| && CreateDeltaVariant(rule, i).rule == rule
  {}

  lemma HasVariant(u: Unit, rule: Rule, i: nat) returns (j: nat)
    requires LoopUnit(u) && (rule == EUCLID || rule == EXTEND) && i < |rule.body| && IsSccClause(rule, {"R"}, i)
    ensures j < |u.compiled.plans| == |UnitVariants(u)| && UnitVariants(u)[j] == CreateDeltaVariant(rule, i)
  {
    hide *;
    LoopMeans(u);
    var v, vs := CreateDeltaVariant(rule, i), DeltaVariants([EUCLID, EXTEND], {"R"});
    DeltaVariantListed([EUCLID, EXTEND], {"R"}, v);
    assert [EUCLID, EXTEND][0] == EUCLID && [EUCLID, EXTEND][1] == EXTEND;
    assert v in vs;
    j :| 0 <= j < |vs| && vs[j] == v;
  }

  // A body of two positive atoms gives two patterns, and no negation.
  lemma TwoPatterns(v: Variant, plan: Plan)
    requires |v.versions| == |v.rule.body| == 2 && IsDefaultPlan(v, plan) && v.rule.body[0].Pos? && v.rule.body[1].Pos?
    ensures |plan.access| == 2 && plan.negations == []
    ensures plan.access[0] == Pattern(v.rule.body[0], v.versions[0], plan.join, plan.varOrder, 0)
    ensures plan.access[0].rel == v.rule.body[0].atom.rel
    ensures plan.access[1] == Pattern(v.rule.body[1], v.versions[1], plan.join, plan.varOrder, 1)
    ensures plan.access[1].rel == v.rule.body[1].atom.rel
    ensures plan.access[0].clauseIdx == 0 && plan.access[1].clauseIdx == 1
  {
    var body := v.rule.body;
    assert AccessPatterns(body, v.versions, plan.join, plan.varOrder, 1) ==
        [Pattern(body[0], v.versions[0], plan.join, plan.varOrder, 0)];
    assert NegationPatterns(body, plan.join, plan.varOrder, 1) == [];
    hide IsGreedy, VarOrder;
  }

  // The pattern on R of a variant of one of the rules, and where it is read.
  lemma FirstPattern(u: Unit, arity: map<string, nat>, j: nat) returns (p: AccessPattern)
    requires UnitCompiled(u, arity) && j < |u.compiled.plans| && j < |UnitVariants(u)|
    requires UnitVariants(u)[j].rule in RULES
    ensures p in u.compiled.plans[j].access && p.rel == "R"
        && p.indexCols == if UnitVariants(u)[j].rule == EUCLID then [0, 1] else BACK
    ensures Reads(u, j, p) && !LoopScan(u, j, p) && |u.compiled.plans[j].access| == 2
    ensures u.compiled.plans[j].negations == []
    ensures p.indexCols in EnsuredCols(u, "R")
  {
    UnitVariantOk(u, arity, j);
    var v, plan := UnitVariants(u)[j], u.compiled.plans[j];
    TwoBodies(v.rule);
    hide UnitCompiled, IsDefaultPlan, Lowerable, AllChecked, TypedRule, EnsuredCols, UnitVariants;
    TwoPatterns(v, plan);
    p := plan.access[0];
    IndexOfR(v, plan, p);
    ReadIsEnsured(u, arity, j, p);
  }

  lemma TwoBodies(rule: Rule)
    requires rule in RULES
    ensures |rule.body| == 2 && rule.body[0].Pos? && rule.body[1].Pos? && rule.body[0].atom.rel == "R"
  {}

  lemma {:induction false} FullNeededAre(plans: seq<Plan>, rel: string, i: Cols)
    requires i in FullNeeded(plans, rel)
    ensures exists k, p ::
        0 <= k < |plans| && p in plans[k].access && p.rel == rel && p.version == FULL && p.indexCols == i
  {
    var init, last := plans[..|plans| - 1], plans[|plans| - 1];
    if i in FullNeeded(init, rel) {
      FullNeededAre(init, rel, i);
      var k, p :| 0 <= k < |init| && p in init[k].access && p.rel == rel && p.version == FULL && p.indexCols == i;
      assert plans[k] == init[k];
    } else {
      var p :| p in last.access && p.rel == rel && p.version == FULL && p.indexCols == i;
    }
  }

  // The loop reads R as FULL through one index only.
  lemma FullReadsOfR(u: Unit, j: nat, p: AccessPattern)
    requires LoopUnit(u) && j < |u.compiled.plans|
    requires (p in u.compiled.plans[j].access || p in u.compiled.plans[j].negations) && p.rel == "R"
    requires p.version == FULL
    ensures p.indexCols == [0, 1] && p in u.compiled.plans[j].access
  {
    hide *;
    LoopMeans(u);
    VariantsOfLoop(u, j);
    UnitVariantOk(u, ARITY, j);
    var q := FirstPattern(u, ARITY, j);
    IndexOfR(UnitVariants(u)[j], u.compiled.plans[j], p);
  }

  lemma SecondReadsAre(d: Draft, c: Cols)
    requires d.recursive
    ensures c in SecondReads(d, "R") <==> c in ReadCols(d.plans, "R", {FULL})
  {}

  lemma FullReadIs(u: Unit, c: Cols)
    requires LoopUnit(u) && c in ReadCols(u.compiled.plans, "R", {FULL})
    ensures c == [0, 1]
  {
    var plans := u.compiled.plans;
    hide *;
    ReadColsAre(plans, "R", {FULL}, c);
    var k, p :| 0 <= k < |plans| && (p in plans[k].access || p in plans[k].negations) && p.rel == "R"
        && p.version in {FULL} && p.indexCols == c;
    FullReadsOfR(u, k, p);
  }

  lemma FullReadExists(u: Unit)
    requires LoopUnit(u)
    ensures [0, 1] in ReadCols(u.compiled.plans, "R", {FULL})
  {
    hide *;
    var j, q := SecondClauseReads(u);
    FullReadsOfR(u, j, q);
    ReadColsListed(u.compiled.plans, "R", {FULL}, j, q);
  }

  lemma FullReadsAre(ds: seq<Draft>, u: Unit, d: Draft)
    requires DraftsOk(ds, ARITY) && d in ds && IsUnitOf(ds, d, ARITY, u) && LoopUnit(u)
    ensures [0, 1] in SecondReads(d, "R") && d.recursive && "R" in d.members
    ensures forall c :: c in SecondReads(d, "R") ==> c == [0, 1]
  {
    hide *;
    LoopMeans(u);
    UnitFields(ds, d, ARITY, u);
    FullReadExists(u);
    SecondReadsAre(d, [0, 1]);
    forall c | c in SecondReads(d, "R") ensures c == [0, 1] {
      SecondReadsAre(d, c);
      FullReadIs(u, c);
    }
  }

  lemma FirstVariantOfEuclid() returns (v: Variant)
    ensures |EUCLID.body| == 2 && EUCLID.body[0].Pos? && EUCLID.body[1].Pos? && EUCLID.body[1].atom.rel == "R"
    ensures v == CreateDeltaVariant(EUCLID, 0) && v.versions == [DELTA, FULL] && v.rule == EUCLID
    ensures IsSccClause(EUCLID, {"R"}, 0)
  {
    v := CreateDeltaVariant(EUCLID, 0);
  }

  lemma SecondClauseReads(u: Unit) returns (j: nat, p: AccessPattern)
    requires LoopUnit(u)
    ensures j < |u.compiled.plans| && p in u.compiled.plans[j].access && p.rel == "R" && p.version == FULL
  {
    hide *;
    var v := FirstVariantOfEuclid();
    LoopMeans(u);
    j := HasVariant(u, EUCLID, 0);
    UnitVariantOk(u, ARITY, j);
    TwoPatterns(v, u.compiled.plans[j]);
    p := u.compiled.plans[j].access[1];
    AccessOf(v, u.compiled.plans[j], p);
  }

  lemma CanonicalOfR(ds: seq<Draft>, u: Unit, d: Draft)
    requires DraftsOk(ds, ARITY) && d in ds && IsUnitOf(ds, d, ARITY, u) && LoopUnit(u)
    ensures "R" in u.compiled.canonical && u.compiled.canonical["R"] == [0, 1]
  {
    ArityOfR();
    hide *;
    FullReadsAre(ds, u, d);
    UnitSelected(ds, d, ARITY, u, "R");
    ReadsPermute(ds, d, ARITY, "R");
    var required := u.compiled.required["R"];
    SelectedFacts(ds, d, "R", ARITY["R"], required, u.compiled.canonical["R"]);
    assert [0, 1] in FirstReads(d, "R") + SecondReads(d, "R");
    ElemsHas(required, [0, 1]);
    CanonicalRead(ds, d, "R", ARITY["R"], required, u.compiled.canonical["R"], [0, 1]);
  }

  lemma ElemsHas(required: seq<Cols>, c: Cols)
    ensures c in Elems(required) <==> c in required
  {}

  lemma ArityOfR()
    ensures "R" in ARITY && ARITY["R"] == 2
  {}

  lemma CanonicalRead(ds: seq<Draft>, d: Draft, rel: string, arity: nat, required: seq<Cols>, canonical: Cols, c: Cols)
    requires Selected(ds, d, rel, arity, required, canonical) && c in required && |c| == arity
    requires c in SecondReads(d, rel)
    ensures canonical in SecondReads(d, rel)
  {
    hide Required, Canonical, FirstReads, SecondReads, GlobalReads, Lists;
    var first, second, global :| SelectedFrom(ds, d, rel, arity, required, canonical, first, second, global);
    CanonicalIsRead(required, arity, SecondReads(d, rel));
  }

  // So the index that the EXTEND rule and the base rule join through is ensured by both units and not merged by the
  // loop.
  lemma BackIsLeft(ds: seq<Draft>, us: seq<Unit>)
    requires DraftsOk(ds, ARITY) && AreUnitsOf(ds, ARITY, us) && |us| == 2 && LoopUnit(us[0]) && BaseUnit(us[1])
    ensures LeavesBehind(us, 0, 1, "R", BACK) && BACK in EnsuredCols(us[1], "R")
    ensures "R" in us[0].compiled.canonical && us[0].compiled.canonical["R"] == [0, 1]
    ensures [0, 1] in EnsuredCols(us[0], "R")
  {
    hide *;
    UnitOfDraft(ds, ARITY, us, 0);
    CanonicalOfR(ds, us[0], ds[0]);
    BackUnmerged(us[0]);
    LoopEnsures(us[0]);
    BaseEnsures(us[1]);
    WritesR(us[0]);
    MakeBehind(us);
  }

  lemma UnitOfDraft(ds: seq<Draft>, arity: map<string, nat>, us: seq<Unit>, k: nat)
    requires AreUnitsOf(ds, arity, us) && k < |us|
    ensures k < |ds| && ds[k] in ds && IsUnitOf(ds, ds[k], arity, us[k])
  {}

  lemma MakeBehind(us: seq<Unit>)
    requires |us| == 2 && "R" in HeadSet(us[0]) && BACK in EnsuredCols(us[0], "R") && BACK !in MergedOf(us[0], "R")
    ensures LeavesBehind(us, 0, 1, "R", BACK)
  {
    hide HeadSet, EnsuredCols, MergedOf;
  }

  lemma WritesR(u: Unit)
    requires LoopUnit(u)
    ensures "R" in HeadSet(u)
  {
    LoopMeans(u);
    assert u.compiled.rules[0].heads[0].rel == "R";
    hide LoopUnit, UnitCompiled, HeadSet, UnitVariants, DeltaVariants;
    LoopHeads(u, ARITY, "R");
  }

  lemma BackUnmerged(u: Unit)
    requires LoopUnit(u) && "R" in u.compiled.canonical && u.compiled.canonical["R"] == [0, 1]
    ensures BACK !in MergedOf(u, "R")
  {
    LoopMeans(u);
    assert BACK[0] == 1;
    hide LoopUnit, UnitCompiled, FullNeeded, MaintainedRels, UnitVariants, DeltaVariants;
    if BACK in FullNeeded(u.compiled.plans, "R") {
      FullNeededAre(u.compiled.plans, "R", BACK);
      var k, p :| 0 <= k < |u.compiled.plans| && p in u.compiled.plans[k].access && p.rel == "R" && p.version == FULL
          && p.indexCols == BACK;
      FullReadsOfR(u, k, p);
    }
  }

  lemma FirstClauses()
    ensures IsSccClause(EUCLID, {"R"}, 0) && IsSccClause(EXTEND, {"R"}, 0) && |EUCLID.body| == |EXTEND.body| == 2
  {}

  lemma LoopEnsures(u: Unit)
    requires LoopUnit(u)
    ensures BACK in EnsuredCols(u, "R") && [0, 1] in EnsuredCols(u, "R")
  {
    hide *;
    LoopMeans(u);
    FirstClauses();
    ClausesOnR(EUCLID, 0);
    ClausesOnR(EXTEND, 0);
    DeltaRule(EUCLID, 0);
    DeltaRule(EXTEND, 0);
    NotEuclid();
    var j := HasVariant(u, EUCLID, 0);
    var p := FirstPattern(u, ARITY, j);
    var k := HasVariant(u, EXTEND, 0);
    var q := FirstPattern(u, ARITY, k);
  }

  lemma NotEuclid()
    ensures EXTEND != EUCLID && COPY != EUCLID && COPY in RULES
  {
    Differ();
    assert EXTEND.body[1].atom.rel == "E" && COPY.heads[0].rel == "Out" && RULES[2] == COPY;
  }

  lemma BaseMeans(u: Unit)
    requires BaseUnit(u)
    ensures !u.recursive && UnitCompiled(u, ARITY) && u.compiled.rules == [COPY] && u.compiled.members == {"Out"}
    ensures |u.compiled.plans| == |UnitVariants(u)| == 1 && UnitVariants(u) == [CreateBaseVariant(COPY)]
  {
    hide UnitOk;
    UnitHasPlans(u, ARITY);
    hide UnitCompiled;
  }

  lemma BaseEnsures(u: Unit)
    requires BaseUnit(u)
    ensures BACK in EnsuredCols(u, "R") && |u.compiled.plans| == 1 && u.compiled.plans[0].negations == []
  {
    hide UnitCompiled;
    BaseMeans(u);
    NotEuclid();
    assert CreateBaseVariant(COPY).rule == COPY;
    hide *;
    var p := FirstPattern(u, ARITY, 0);
  }

  lemma BaseReadsR(u: Unit, p: AccessPattern)
    requires BaseUnit(u) && |u.compiled.plans| == 1 && p in u.compiled.plans[0].access
    ensures (p.rel == "R" && p.indexCols == BACK) || p.rel == "H"
  {
    hide UnitCompiled, IsDefaultPlan, Pattern, UnitVariants, Lowerable, BaseUnit, AllChecked, TypedRule;
    BaseMeans(u);
    NotEuclid();
    var v := CreateBaseVariant(COPY);
    assert v.rule == COPY && COPY.body[0].atom.rel == "R" && COPY.body[1].atom.rel == "H" && |COPY.body| == 2;
    hide *;
    UnitVariantOk(u, ARITY, 0);
    AccessOf(v, u.compiled.plans[0], p);
    if p.rel == "R" { IndexOfR(v, u.compiled.plans[0], p); }
  }

  // --- The run ---

  // R(1, 2) was loaded twice and H(2) once; nothing else is stored, and no index is built.
  ghost predicate LoadedTwice(start: World) {
    && start.db.Keys == start.truth.Keys == ARITY.Keys
    && start.truth["R"] == iset{[1, 2]} && start.truth["H"] == iset{[2]} && start.truth["E"] == iset{}
    && start.truth["Out"] == iset{}
    && (forall rel :: rel in start.db ==> OnlyLoaded(start.db[rel], start.truth[rel]))
    && start.db["R"].interned == Maintenance.Rows(2)
  }

  lemma FactsAre(start: World)
    requires LoadedTwice(start)
    ensures FactsOf(start.truth) == FACTS && TypedFacts(FACTS, ARITY)
  {
    Differ();
  }

  ghost predicate Shaped(us: seq<Unit>) {
    |us| == 2 && LoopUnit(us[0]) && BaseUnit(us[1])
  }

  lemma ReconstructedIsHead(u: Unit, rel: string)
    requires !u.recursive
    ensures rel in ReconstructedRels(u) <==> rel in HeadSet(u)
  {
    hide UnitVariants, HeadList;
  }

  lemma LoopReconstructs(u: Unit, rel: string)
    requires LoopUnit(u)
    ensures rel in ReconstructedRels(u) <==> rel == "R"
  {
    hide *;
    LoopMeans(u);
    LoopSets(u, ARITY, rel);
  }

  lemma CopyHeads(rel: string)
    ensures rel in Idbs([COPY]) <==> rel == "Out"
  {
    assert [COPY][0].heads[0].rel == "Out";
  }

  lemma BaseReconstructs(u: Unit, rel: string)
    requires BaseUnit(u)
    ensures rel in ReconstructedRels(u) <==> rel == "Out"
  {
    hide *;
    BaseMeans(u);
    ReconstructedIsHead(u, rel);
    BaseSets(u, ARITY, rel);
    CopyHeads(rel);
  }

  lemma WrittenRels(us: seq<Unit>, k: nat, rel: string)
    requires Shaped(us) && k <= 2
    ensures WrittenBefore(us, k, rel) <==> (rel == "R" && k > 0) || (rel == "Out" && k > 1)
  {
    hide *;
    ShapedCount(us);
    LoopReconstructs(us[0], rel);
    BaseReconstructs(us[1], rel);
    WrittenOfTwo(us, k, rel);
  }

  lemma WrittenOfTwo(us: seq<Unit>, k: nat, rel: string)
    requires |us| == 2 && k <= 2
    ensures WrittenBefore(us, k, rel)
        <==> (k > 0 && rel in ReconstructedRels(us[0])) || (k > 1 && rel in ReconstructedRels(us[1]))
  {
    hide ReconstructedRels;
    if k > 0 && rel in ReconstructedRels(us[0]) { assert rel in ReconstructedRels(us[0]); }
    if k > 1 && rel in ReconstructedRels(us[1]) { assert rel in ReconstructedRels(us[1]); }
  }

  lemma TwiceMeans(start: World, rel: string)
    requires LoadedTwice(start) && rel in start.db
    ensures rel in start.truth && OnlyLoaded(start.db[rel], start.truth[rel])
    ensures rel == "Out" ==> start.truth[rel] == iset{}
  {
    hide OnlyLoaded;
  }

  lemma LoadedHoldsAt(us: seq<Unit>, start: World, rel: string)
    requires Shaped(us) && LoadedTwice(start) && rel in start.db
    ensures HoldsAt(us, {"R"}, 0, start, rel)
  {
    ShapedCount(us);
    WrittenRels(us, 2, rel);
    WrittenRels(us, 0, rel);
    TwiceMeans(start, rel);
    hide Shaped, OnlyLoaded, HoldsTruth, WrittenBefore, LoadedTwice;
    assert SoundAt(us, {"R"}, 0, rel);
    assert TightAt(us, {"R"}, rel) ==> rel == "Out";
    OnlyLoadedHolds(start.db[rel], start.truth[rel], TightAt(us, {"R"}, rel));
  }

  lemma TwiceKeys(start: World)
    requires LoadedTwice(start)
    ensures start.db.Keys == start.truth.Keys == ARITY.Keys
  {}

  lemma StartsStored(us: seq<Unit>, start: World)
    requires Shaped(us) && LoadedTwice(start)
    ensures Stored(us, {"R"}, 0, ARITY, start)
  {
    hide *;
    FactsAre(start);
    TwiceKeys(start);
    forall rel | rel in start.db ensures HoldsAt(us, {"R"}, 0, start, rel) { LoadedHoldsAt(us, start, rel); }
    MakeStored(us, {"R"}, 0, ARITY, start);
  }

  lemma ShapedCount(us: seq<Unit>)
    requires Shaped(us)
    ensures |us| == 2 && LoopUnit(us[0]) && BaseUnit(us[1])
  {}

  lemma LoopIsReady(u: Unit, start: World)
    requires LoopUnit(u) && "R" in u.compiled.canonical && u.compiled.canonical["R"] == [0, 1]
    requires [0, 1] in EnsuredCols(u, "R")
    ensures Ready(u, start)
  {
    LoopMeans(u);
    hide LoopUnit, UnitCompiled, EnsuredCols, ReconstructedRels, UnitVariants, DeltaVariants;
    forall rel, i | Relied(u, rel, i) && i !in EnsuredCols(u, rel) ensures false {
      if rel in ReconstructedRels(u) && rel in u.compiled.canonical && i == u.compiled.canonical[rel] {
        LoopSets(u, ARITY, rel);
      } else {
        var j: nat, p :| LoopScan(u, j, p) && p.rel == rel && p.indexCols == i;
        VariantsOfLoop(u, j);
        var q := FirstPattern(u, ARITY, j);
      }
    }
  }

  // --- What the strata derive ---

  const CLOSED: Facts := FACTS + iset{Fact("R", [2, 2])}

  lemma DerivedInside(sem: Interp, k: nat, db: Facts, neg: Facts, f: Fact)
    requires k < 2 && db <= CLOSED && DerivesFrom(LOOP.rules[k], sem, db, neg, f)
    ensures f == Fact("R", [2, 2])
  {
    hide Look;
    Differ();
    ExtendDerivesNothing(sem, db, neg, f);
    assert k == 0;
    var r := EUCLID;
    var env :| SatBody(r.body, sem, db, db, -1, neg, env) && IsHeadFact(r, env, f);
    assert SatClause(r.body[0], sem, View(db, db, -1, 0), neg, env)
        && SatClause(r.body[1], sem, View(db, db, -1, 1), neg, env);
    var a, b := Ground(r.body[0].atom, env), Ground(r.body[1].atom, env);
    assert a == [Look(env, "x"), Look(env, "y")] && b == [Look(env, "x"), Look(env, "z")];
    assert Fact("R", a) in CLOSED && Fact("R", b) in CLOSED;
    assert a[1] == 2 && b[1] == 2;
    assert Ground(r.heads[0], env) == [2, 2];
  }

  lemma ExtendDerivesNothing(sem: Interp, db: Facts, neg: Facts, f: Fact)
    requires db <= CLOSED
    ensures !DerivesFrom(EXTEND, sem, db, neg, f)
  {
    Differ();
    forall env ensures !SatBody(EXTEND.body, sem, db, db, -1, neg, env) {
      assert !SatClause(EXTEND.body[1], sem, View(db, db, -1, 1), neg, env);
    }
  }

  lemma DerivesTwoTwo(sem: Interp, db: Facts, neg: Facts)
    requires FACTS <= db
    ensures DerivesFrom(EUCLID, sem, db, neg, Fact("R", [2, 2]))
  {
    var env: Env := map["x" := 1, "y" := 2, "z" := 2];
    assert Ground(EUCLID.body[0].atom, env) == [1, 2] && Ground(EUCLID.body[1].atom, env) == [1, 2]
        && Ground(EUCLID.heads[0], env) == [2, 2];
    assert SatBody(EUCLID.body, sem, db, db, -1, neg, env);
    assert IsHeadFact(EUCLID, env, Fact(EUCLID.heads[0].rel, Ground(EUCLID.heads[0], env)));
  }

  lemma LoopDerives(sem: Interp)
    ensures LeastClosed([EUCLID, EXTEND], sem, FACTS, FACTS) == CLOSED
  {
    var rules := [EUCLID, EXTEND];
    var least := LeastClosed(rules, sem, FACTS, FACTS);
    assert LOOP.rules == rules;
    forall k, f | 0 <= k < |rules| && DerivesFrom(rules[k], sem, CLOSED, FACTS, f) ensures f in CLOSED {
      DerivedInside(sem, k, CLOSED, FACTS, f);
    }
    ClosingStaysInside(rules, sem, FACTS, FACTS, CLOSED);
    LeastClosedIsClosed(rules, sem, FACTS, FACTS);
    DerivesTwoTwo(sem, least, FACTS);
    assert rules[0] == EUCLID;
    assert Fact("R", [2, 2]) in least;
  }

  lemma RowsAfterLoop(facts: Facts)
    requires facts == CLOSED
    ensures RowsIn(facts, "R") == iset{[1, 2], [2, 2]} && SizeOf(RowsIn(facts, "R")) == Maintenance.Rows(2)
    ensures RowsIn(facts, "H") == iset{[2]} && RowsIn(facts, "Out") == iset{}
  {
    Differ();
    var rows: set<Row> := {[1, 2], [2, 2]};
    assert [1, 2][0] != [2, 2][0];
    assert |rows| == 2;
    assert Enumerates(rows, RowsIn(facts, "R"));
    SizeIsUnique(RowsIn(facts, "R"), rows);
  }

  // What the base unit sees: R without the row that the loop added.
  const SEEN: Facts := FACTS

  lemma SeenDerives(sem: Interp)
    ensures Fact("Out", [2, 2]) !in Immediate([COPY], sem, SEEN, SEEN)
  {
    Differ();
    forall k | 0 <= k < 1 ensures !DerivesFrom([COPY][k], sem, SEEN, SEEN, Fact("Out", [2, 2])) {
      var r := [COPY][k];
      forall env | SatBody(r.body, sem, SEEN, SEEN, -1, SEEN, env) ensures !IsHeadFact(r, env, Fact("Out", [2, 2])) {
        assert SatClause(r.body[0], sem, View(SEEN, SEEN, -1, 0), SEEN, env);
        var a := Ground(r.body[0].atom, env);
        assert a == [Look(env, "x"), Look(env, "y")] && Fact("R", a) in SEEN;
        assert a[0] == 1;
        assert Ground(r.heads[0], env) == a;
        assert [2, 2][0] == 2;
      }
    }
  }

  lemma ModelHasFact(sem: Interp, m: Facts)
    requires IsStable(RULES, sem, FACTS, m)
    ensures Fact("Out", [2, 2]) in m
  {
    hide LeastClosed, ClosedUnder;
    LeastClosedIsClosed(RULES, sem, FACTS, m);
    DerivesTwoTwo(sem, m, m);
    assert RULES[0] == EUCLID && RULES[2] == COPY;
    var env: Env := map["x" := 2, "y" := 2];
    assert Ground(COPY.body[0].atom, env) == [2, 2] && Ground(COPY.body[1].atom, env) == [2]
        && Ground(COPY.heads[0], env) == [2, 2];
    assert SatBody(COPY.body, sem, m, m, -1, m, env)
        && IsHeadFact(COPY, env, Fact(COPY.heads[0].rel, Ground(COPY.heads[0], env)));
    assert DerivesFrom(RULES[2], sem, m, m, Fact("Out", [2, 2]));
  }

  // --- The base unit reads the old rows ---

  // After the loop: R holds two rows, the index read by the base rule one, and the counts agree.
  ghost predicate Misled(w: World) {
    && w.db.Keys == w.truth.Keys == ARITY.Keys && FactsOf(w.truth) == CLOSED
    && At(w.db["R"].fulls, BACK) == iset{[1, 2]}
    && CountAt(w.db["R"].rows, BACK) == Maintenance.Rows(2) == w.db["R"].interned
    && Clean(w) && Sound(w.db["H"]) && w.db["H"].base == iset{[2]}
    && w.db["Out"].base == iset{} && forall i :: At(w.db["Out"].fulls, i) == iset{}
  }

  lemma EnsuredRows(u: Unit, w: World, p: AccessPattern)
    requires BaseUnit(u) && Misled(w) && |u.compiled.plans| == 1 && p in u.compiled.plans[0].access
    ensures p.rel in w.db && At(EnsureAll(u, w).db[p.rel].fulls, p.indexCols) == RowsIn(SEEN, p.rel)
  {
    hide *;
    MisledMeans(w);
    SeenRows();
    BaseMeans(u);
    BaseNegatesNothing(u, p);
    BaseReadsR(u, p);
    EnsuredState(u, w, p.rel);
    if p.rel == "R" {
      EnsuredAt(w.db["R"], EnsuredCols(u, "R"), BACK);
      NotDirty(w.db["R"], BACK);
    } else {
      ReadIsEnsured(u, ARITY, 0, p);
      EnsuredKeepsSound(w.db["H"], EnsuredCols(u, "H"));
    }
  }

  lemma BaseNegatesNothing(u: Unit, p: AccessPattern)
    requires BaseUnit(u) && |u.compiled.plans| == 1 && p in u.compiled.plans[0].access
    ensures Reads(u, 0, p) && !LoopScan(u, 0, p)
  {}

  lemma NotDirty(s: RelState, i: Cols)
    requires CountAt(s.rows, i) == Maintenance.Rows(2) == s.interned
    ensures !Dirty(s, i)
  {}

  lemma MisledMeans(w: World)
    requires Misled(w)
    ensures w.db.Keys == w.truth.Keys == ARITY.Keys && "R" in w.db && "H" in w.db && "Out" in w.db
    ensures FactsOf(w.truth) == CLOSED
    ensures At(w.db["R"].fulls, BACK) == iset{[1, 2]}
    ensures CountAt(w.db["R"].rows, BACK) == Maintenance.Rows(2) == w.db["R"].interned
    ensures Clean(w) && Sound(w.db["H"]) && w.db["H"].base == iset{[2]}
    ensures w.db["Out"].base == iset{} && forall i :: At(w.db["Out"].fulls, i) == iset{}
  {}

  lemma SeenRows()
    ensures RowsIn(SEEN, "R") == iset{[1, 2]} && RowsIn(SEEN, "H") == iset{[2]} && TypedFacts(SEEN, ARITY)
  {
    Differ();
  }

  lemma BaseSees(u: Unit, w: World)
    requires BaseUnit(u) && Misled(w)
    ensures BaseReads(u.compiled, EnsureAll(u, w).db, SEEN)
  {
    hide *;
    BaseEnsures(u);
    var a := EnsureAll(u, w);
    EnsureKeys(u, w);
    forall p | p in u.compiled.plans[0].access
      ensures p.rel in a.db && At(a.db[p.rel].fulls, p.indexCols) == RowsIn(SEEN, p.rel) {
      EnsuredRows(u, w, p);
    }
    OnePlanReads(u, a.db, SEEN);
  }

  lemma OnePlanReads(u: Unit, db: Db, stage: Facts)
    requires |u.compiled.plans| == 1 && u.compiled.plans[0].negations == []
    requires forall p ::
        p in u.compiled.plans[0].access ==> p.rel in db && At(db[p.rel].fulls, p.indexCols) == RowsIn(stage, p.rel)
    ensures BaseReads(u.compiled, db, stage)
  {
    hide At, RowsIn;
  }

  lemma OutStaysEmpty(s: RelState, cols: set<Cols>, i: Cols)
    requires s.base == iset{} && At(s.fulls, i) == iset{}
    ensures At(Ensured(s, cols).fulls, i) == iset{}
  {
    EnsuredAt(s, cols, i);
  }

  lemma TakesFromEmpty(s: RelState, t: RelState, required: seq<Cols>, c: Cols, derived: iset<Row>)
    requires At(s.fulls, c) == iset{} && c in required && TakenIn(s.(pending := derived), t, required, c)
    ensures At(t.fulls, c) == derived
  {
    assert Takes(s.(pending := derived), t, c, if c in required then derived - At(s.fulls, c) else iset{});
  }

  // The base plan leaves in Out's canonical index what its rule derives from what it sees.
  lemma OutAfterPlan(u: Unit, x: Machine, w: World, m: World)
    requires BaseUnit(u) && UnitFits(u, ARITY) && Misled(w) && PlanExec(u, x.sem, x.skips, EnsureAll(u, w), m)
    ensures "Out" in m.db && "Out" in u.compiled.canonical && "Out" in ReconstructedRels(u)
    ensures At(m.db["Out"].fulls, u.compiled.canonical["Out"]) ==
      RowsIn(Immediate([COPY], x.sem, SEEN, SEEN), "Out")
  {
    var derived := RowsIn(Immediate([COPY], x.sem, SEEN, SEEN), "Out");
    hide *;
    FitsMean(u, ARITY);
    MisledMeans(w);
    BaseMeans(u);
    BaseSees(u, w);
    SeenRows();
    var a := EnsureAll(u, w);
    EnsureKeys(u, w);
    EnsuredIsClean(u, w);
    EnsuredState(u, w, "Out");
    BaseStored(u, ARITY, x.sem, x.skips, a, m, "Out", SEEN);
    BaseSets(u, ARITY, "Out");
    CopyHeads("Out");
    RequiredMeans(u, "Out");
    var c := u.compiled.canonical["Out"];
    OutStaysEmpty(w.db["Out"], EnsuredCols(u, "Out"), c);
    TakesFromEmpty(a.db["Out"], m.db["Out"], u.compiled.required["Out"], c, derived);
  }

  // So it stores no Out(2, 2).
  lemma BaseLoses(us: seq<Unit>, x: Machine, w: World, b: World)
    requires Shaped(us) && ProgramOk(us, x, ARITY) && |x.run| == |ProgramSteps(us)| && Misled(w) && Places(us, 1)
    requires UnitRuns(us, x, 1, w, b)
    ensures Fact("Out", [2, 2]) !in StoredFacts(b.db)
  {
    hide *;
    ShapedCount(us);
    var u := us[1];
    OkMeans(us, x, ARITY);
    SeenDerives(x.sem);
    var m := PhasesMean(us, x, 1, w, b);
    TailMeaning(us, x.run, 1, m, b);
    OutAfterPlan(u, x, w, m);
    TailOn(u, x.run, m, b, "Out");
    RebasedBase(m.db["Out"], b.db["Out"], u.compiled.canonical["Out"], BuiltBy(x.run, "Out"));
    NotStored(b.db, b.db["Out"].base, x.sem);
  }

  lemma NotStored(db: Db, derived: iset<Row>, sem: Interp)
    requires "Out" in db && db["Out"].base == derived == RowsIn(Immediate([COPY], sem, SEEN, SEEN), "Out")
    requires Fact("Out", [2, 2]) !in Immediate([COPY], sem, SEEN, SEEN)
    ensures Fact("Out", [2, 2]) !in StoredFacts(db)
  {
    hide Immediate;
  }

  // --- The whole run ---

  lemma LoopMisleads(us: seq<Unit>, x: Machine, start: World, w: World)
    requires Shaped(us) && ProgramOk(us, x, ARITY) && |x.run| == |ProgramSteps(us)| && RunsNoRebuild(x)
    requires LoadedTwice(start)
    requires StartsFor(us, {"R"}, ARITY, 1, start) && LeavesBehind(us, 0, 1, "R", BACK) && Places(us, 0)
    requires UnitRuns(us, x, 0, start, w)
    ensures Misled(w)
  {
    hide *;
    ShapedCount(us);
    TwiceStart(start);
    StartsMean(us, {"R"}, ARITY, 1, start);
    ReachedStart(us, x.sem, {"R"}, ARITY, start);
    OnlyOneWriter(us, 0, 1, "R", BACK, 0);
    LeftBehind(us, x, ARITY, 0, 1, start, start, w, "R", BACK);
    ReachNext(us, x, {"R"}, ARITY, 1, 0, start, start, w);
    ReachedMeans(us, x.sem, {"R"}, ARITY, 1, start, w);
    StoredMeans(us, {"R"}, 1, ARITY, w);
    FirstRun(us, x.sem, start);
    LoopDerives(x.sem);
    RowsAfterLoop(FactsOf(w.truth));
    SoundHere(us, w);
    MakeMisled(w);
  }

  lemma TwiceStart(start: World)
    requires LoadedTwice(start)
    ensures start.db.Keys == start.truth.Keys == ARITY.Keys && "R" in start.db && "R" in start.truth
    ensures start.truth["R"] == iset{[1, 2]}
    ensures OnlyLoaded(start.db["R"], start.truth["R"]) && start.db["R"].interned == Maintenance.Rows(2)
  {
    hide OnlyLoaded;
  }

  lemma FirstRun(us: seq<Unit>, sem: Interp, start: World)
    requires Shaped(us) && LoadedTwice(start)
    ensures Run(StrataOf(us[..1]), sem, FactsOf(start.truth)) == LeastClosed([EUCLID, EXTEND], sem, FACTS, FACTS)
  {
    FactsAre(start);
    LoopMeans(us[0]);
    hide LeastClosed, LoopUnit, BaseUnit, UnitCompiled, UnitVariants, DeltaVariants, LoadedTwice, FactsOf;
    RunNext(us, 0, sem, FACTS);
    assert us[..0] == [] && StrataOf([]) == [];
    assert Run([], sem, FACTS) == FACTS;
  }

  // What the invariant says of H and Out after the loop.
  lemma SoundHere(us: seq<Unit>, w: World)
    requires Shaped(us) && Stored(us, {"R"}, 1, ARITY, w) && FactsOf(w.truth) == CLOSED
    ensures "H" in w.db && "Out" in w.db && Sound(w.db["H"]) && w.db["H"].base == iset{[2]}
    ensures w.db["Out"].base == iset{} && Tight(w.db["Out"])
  {
    hide *;
    Differ();
    WrittenRels(us, 2, "Out");
    ShapedCount(us);
    RowsAfterLoop(FactsOf(w.truth));
    ArityHas("H");
    ArityHas("Out");
    StoredHolds(us, 1, w, "H");
    StoredHolds(us, 1, w, "Out");
    LooseR(us, 1, "H");
    LooseR(us, 1, "Out");
    HoldMeans(us, 1, w, "H");
    HoldMeans(us, 1, w, "Out");
    RowsOfFacts(w.truth, "H");
    RowsOfFacts(w.truth, "Out");
  }

  lemma ArityHas(rel: string)
    requires rel in {"E", "H", "R", "Out"}
    ensures rel in ARITY
  {}

  lemma StoredHolds(us: seq<Unit>, k: nat, w: World, rel: string)
    requires Stored(us, {"R"}, k, ARITY, w) && rel in ARITY
    ensures HoldsAt(us, {"R"}, k, w, rel)
  {
    hide HoldsAt;
  }

  lemma LooseR(us: seq<Unit>, k: nat, rel: string)
    requires rel != "R"
    ensures SoundAt(us, {"R"}, k, rel) && (TightAt(us, {"R"}, rel) <==> WrittenBefore(us, |us|, rel))
  {
    hide WrittenBefore;
  }

  lemma HoldMeans(us: seq<Unit>, k: nat, w: World, rel: string)
    requires HoldsAt(us, {"R"}, k, w, rel) && SoundAt(us, {"R"}, k, rel)
    ensures rel in w.db && rel in w.truth && w.db[rel].base == w.truth[rel] && Sound(w.db[rel])
    ensures TightAt(us, {"R"}, rel) ==> Tight(w.db[rel])
  {
    hide Sound, Tight, SoundAt, TightAt, NewIsEmpty;
  }

  lemma MakeMisled(w: World)
    requires w.db.Keys == w.truth.Keys == ARITY.Keys && FactsOf(w.truth) == CLOSED && Clean(w) && "R" in w.db
    requires "H" in w.db && "Out" in w.db
    requires At(w.db["R"].fulls, BACK) == iset{[1, 2]} && CountAt(w.db["R"].rows, BACK) == Maintenance.Rows(2)
    requires w.db["R"].interned == SizeOf(w.truth["R"])
    requires SizeOf(RowsIn(FactsOf(w.truth), "R")) == Maintenance.Rows(2)
    requires Sound(w.db["H"]) && w.db["H"].base == iset{[2]} && w.db["Out"].base == iset{} && Tight(w.db["Out"])
    ensures Misled(w)
  {
    RowsOfFacts(w.truth, "R");
    hide SizeOf, FactsOf, Sound, AtLeast;
    forall i ensures At(w.db["Out"].fulls, i) == iset{} { assert At(w.db["Out"].fulls, i) <= w.db["Out"].base; }
  }

  lemma ShapeIs(rules: seq<Rule>, p: Passes, x: Machine)
    requires UnitShape(p.units) && ProgramOk(p.units, x, ARITY)
    ensures Shaped(p.units)
  {
    hide UnitCompiled, UnitOk, FitBlocks, ReliedKept, UnitsOk, Planned;
    assert UnitFits(p.units[0], ARITY) && UnitFits(p.units[1], ARITY);
  }

  // A row loaded twice: whatever the passes return, the generated code ends without Out(2, 2), which the one stable
  // model has.
  lemma GeneratedCodeLosesFact(p: Passes, x: Machine, start: World, w: World, m: Facts)
    requires PassesRan(RULES, ARITY, p) && LeavesOut(p.blocks, x.run) && |x.run| == |ProgramSteps(p.units)|
    requires RunsNoRebuild(x)
    requires LoadedTwice(start) && ProgramRuns(p.units, x, |p.units|, start, w)
    requires IsStable(RULES, x.sem, FactsOf(start.truth), m)
    ensures Fact("Out", [2, 2]) in m && Fact("Out", [2, 2]) !in StoredFacts(w.db)
  {
    hide *;
    FactsAre(start);
    ModelHasFact(x.sem, m);
    UnitsAre(p);
    RulesAreOk();
    PassesCompile(RULES, ARITY, p, x);
    ShapeIs(RULES, p, x);
    ShapedCount(p.units);
    RanMeans(RULES, ARITY, p);
    DraftsOfPasses(p);
    BackIsLeft(p.drafts, p.units);
    LoopIsReady(p.units[0], start);
    StartsStored(p.units, start);
    MakeStarts(p.units, start);
    var mid := RunsBack(p.units, x, 1, start, w);
    var first := RunsBack(p.units, x, 0, start, mid);
    RunsNone(p.units, x, start, first);
    LoopMisleads(p.units, x, start, mid);
    BaseLoses(p.units, x, mid, w);
  }

  lemma MakeStarts(us: seq<Unit>, start: World)
    requires Stored(us, {"R"}, 0, ARITY, start) && |us| == 2 && Ready(us[0], start)
    ensures StartsFor(us, {"R"}, ARITY, 1, start)
  {}

  lemma DraftsOfPasses(p: Passes)
    requires PassesRan(RULES, ARITY, p) && EndToEnd.StrataInOrder(RULES, p) && RulesOk(RULES, ARITY)
    ensures DraftsOk(p.drafts, ARITY)
  {
    hide IsStratification;
    assert OrderSurvives(p.g, p.sccs, RULES) && NegationApart(p.sccs, RULES);
    hide *;
    RanMeans(RULES, ARITY, p);
    StratificationShape(RULES, p.g, p.sccs, p.strata);
    StrataRules(RULES, p.g, p.sccs, p.strata);
    DraftsAreOk(p.strata, p.drafts, RULES, ARITY);
  }
}
