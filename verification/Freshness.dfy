/** `insert_pre_reconstruct_rebuilds`: between strata, every later column source finds its index up to date. */
module Freshness {
  import opened Datalog
  import opened SemiNaive
  import opened Mir
  import opened Maintenance

  datatype Instr =
    | Execute(pipeline: seq<Op>)
    | Parallel(pipelines: seq<seq<Op>>)
    | Maint(op: MaintOp)
    | LatticeMerge(rel: string, fullIndices: seq<Cols>)

  datatype Step =
    | FixpointPlan(instructions: seq<Instr>)
    | PostReconstruct(rel: string, canonical: Cols)
    | Rebuild(rel: string, index: Cols)

  // --- What a step merges, writes and reads ---

  function InstrMerges(i: Instr, rel: string): set<Cols> {
    match i
    case Maint(MergeIndex(r, index)) => if r == rel then {index} else {}
    case LatticeMerge(r, full) => if r == rel then set c | c in full else {}
    case _ => {}
  }

  function MergedIn(instrs: seq<Instr>, rel: string): set<Cols> {
    if |instrs| == 0 then {} else MergedIn(instrs[..|instrs| - 1], rel) + InstrMerges(instrs[|instrs| - 1], rel)
  }

  function MergedBy(step: Step, rel: string): set<Cols> {
    if step.FixpointPlan? then MergedIn(step.instructions, rel) else {}
  }

  function OpsWrite(ops: seq<Op>): set<string> {
    set k | 0 <= k < |ops| && ops[k].InsertInto? :: ops[k].rel
  }

  function PipelinesOf(i: Instr): seq<seq<Op>> {
    match i
    case Execute(p) => [p]
    case Parallel(ps) => ps
    case _ => []
  }

  function AllWrite(ps: seq<seq<Op>>): set<string> {
    if |ps| == 0 then {} else AllWrite(ps[..|ps| - 1]) + OpsWrite(ps[|ps| - 1])
  }

  function WrittenIn(instrs: seq<Instr>): set<string> {
    if |instrs| == 0 then {} else WrittenIn(instrs[..|instrs| - 1]) + AllWrite(PipelinesOf(instrs[|instrs| - 1]))
  }

  function Writes(step: Step): set<string> {
    if step.FixpointPlan? then WrittenIn(step.instructions) else {}
  }

  // Only column sources count; a DELTA read counts too, because it reads FULL on the first iteration.
  function SourcesNeed(sources: seq<ColumnSource>, rel: string): set<Cols> {
    set s | s in sources && s.rel == rel && s.version in {FULL, DELTA} :: s.index
  }

  function OpNeeds(op: Op, rel: string): set<Cols> {
    match op
    case ColumnJoin(_, sources) => SourcesNeed(sources, rel)
    case CartesianJoin(_, sources, _) => SourcesNeed(sources, rel)
    case _ => {}
  }

  function OpsNeed(ops: seq<Op>, rel: string): set<Cols> {
    if |ops| == 0 then {} else OpsNeed(ops[..|ops| - 1], rel) + OpNeeds(ops[|ops| - 1], rel)
  }

  function AllNeed(ps: seq<seq<Op>>, rel: string): set<Cols> {
    if |ps| == 0 then {} else AllNeed(ps[..|ps| - 1], rel) + OpsNeed(ps[|ps| - 1], rel)
  }

  function NeededIn(instrs: seq<Instr>, rel: string): set<Cols> {
    if |instrs| == 0 then {}
    else NeededIn(instrs[..|instrs| - 1], rel) + AllNeed(PipelinesOf(instrs[|instrs| - 1]), rel)
  }

  function NeededBy(step: Step, rel: string): set<Cols> {
    if step.FixpointPlan? then NeededIn(step.instructions, rel) else {}
  }

  // What steps from position p on need.
  function NeededFrom(steps: seq<Step>, p: nat, rel: string): set<Cols>
    requires p <= |steps|
    decreases |steps| - p
  {
    if p == |steps| then {} else NeededBy(steps[p], rel) + NeededFrom(steps, p + 1, rel)
  }

  // What the last plan before p that writes rel merged.
  function LastMerged(steps: seq<Step>, p: nat, rel: string): set<Cols>
    requires p <= |steps|
  {
    if p == 0 then {}
    else if rel in Writes(steps[p - 1]) then MergedBy(steps[p - 1], rel)
    else LastMerged(steps, p - 1, rel)
  }

  // --- The same, read off the steps ---

  // A pipeline of the plan, on its own or in a parallel group, holds the operation.
  ghost predicate InPlan(step: Step, op: Op) {
    step.FixpointPlan? && exists instr :: instr in step.instructions && InInstr(instr, op)
  }

  ghost predicate InInstr(instr: Instr, op: Op) {
    || (instr.Execute? && op in instr.pipeline)
    || (instr.Parallel? && exists ops :: ops in instr.pipelines && op in ops)
  }

  // A join of the plan has the column source, and reads it as FULL or as DELTA.
  ghost predicate JoinReads(step: Step, s: ColumnSource) {
    (s.version == FULL || s.version == DELTA) && exists op :: InPlan(step, op) && IsSourceOf(op, s)
  }

  ghost predicate IsSourceOf(op: Op, s: ColumnSource) {
    (op.ColumnJoin? || op.CartesianJoin?) && s in op.sources
  }

  ghost predicate InsertsInto(step: Step, rel: string) {
    exists op :: InPlan(step, op) && op.InsertInto? && op.rel == rel
  }

  ghost predicate MergesIndex(step: Step, rel: string, i: Cols) {
    step.FixpointPlan? && exists instr :: instr in step.instructions && InstrMergesIndex(instr, rel, i)
  }

  ghost predicate InstrMergesIndex(instr: Instr, rel: string, i: Cols) {
    || instr == Maint(MergeIndex(rel, i))
    || (instr.LatticeMerge? && instr.rel == rel && i in instr.fullIndices)
  }

  // Step j is the last before p that inserts into rel, and merges its index i.
  ghost predicate LastMergesAt(steps: seq<Step>, p: nat, rel: string, i: Cols, j: nat) {
    && j < p <= |steps| && InsertsInto(steps[j], rel) && MergesIndex(steps[j], rel, i)
    && forall k :: j < k < p ==> !InsertsInto(steps[k], rel)
  }

  ghost predicate LastWriterMerges(steps: seq<Step>, p: nat, rel: string, i: Cols) {
    exists j :: LastMergesAt(steps, p, rel, i, j)
  }

  ghost predicate ReadAtStep(steps: seq<Step>, p: nat, rel: string, i: Cols, q: nat, s: ColumnSource) {
    p <= q < |steps| && JoinReads(steps[q], s) && s.rel == rel && s.index == i
  }

  // Some join of a step from p on reads the index.
  ghost predicate ReadLater(steps: seq<Step>, p: nat, rel: string, i: Cols) {
    exists q, s :: ReadAtStep(steps, p, rel, i, q, s)
  }

  ghost predicate OpReads(op: Op, rel: string, i: Cols, s: ColumnSource) {
    IsSourceOf(op, s) && (s.version == FULL || s.version == DELTA) && s.rel == rel && s.index == i
  }

  lemma OpNeedsIff(op: Op, rel: string, i: Cols)
    ensures i in OpNeeds(op, rel) <==> exists s :: OpReads(op, rel, i, s)
  {
    if i in OpNeeds(op, rel) {
      var s: ColumnSource :| IsSourceOf(op, s) && s.rel == rel && s.version in {FULL, DELTA} && s.index == i;
      assert OpReads(op, rel, i, s);
    }
    if s: ColumnSource :| OpReads(op, rel, i, s) {
      assert s in op.sources && s.version in {FULL, DELTA};
      assert s.index in SourcesNeed(op.sources, rel);
    }
  }

  lemma {:induction false} OpsNeedIff(ops: seq<Op>, rel: string, i: Cols)
    ensures i in OpsNeed(ops, rel) <==> exists op :: op in ops && i in OpNeeds(op, rel)
  {
    if |ops| > 0 {
      OpsNeedIff(ops[..|ops| - 1], rel, i);
      assert ops == ops[..|ops| - 1] + [ops[|ops| - 1]];
    }
  }

  lemma {:induction false} AllNeedIff(ps: seq<seq<Op>>, rel: string, i: Cols)
    ensures i in AllNeed(ps, rel) <==> exists ops :: ops in ps && i in OpsNeed(ops, rel)
  {
    hide OpsNeed;
    if |ps| > 0 {
      var init, last := ps[..|ps| - 1], ps[|ps| - 1];
      AllNeedIff(init, rel, i);
      assert ps == init + [last];
      if i in AllNeed(ps, rel) {
        if i in OpsNeed(last, rel) {
          assert last in ps;
        } else {
          var ops: seq<Op> :| ops in init && i in OpsNeed(ops, rel);
          assert ops in ps;
        }
      }
      if ops: seq<Op> :| ops in ps && i in OpsNeed(ops, rel) {
        if ops in init { assert i in AllNeed(init, rel); } else { assert ops == last; }
      }
    }
  }

  lemma {:induction false} NeededInIff(instrs: seq<Instr>, rel: string, i: Cols)
    ensures i in NeededIn(instrs, rel) <==> exists instr :: instr in instrs && i in AllNeed(PipelinesOf(instr), rel)
  {
    hide AllNeed, PipelinesOf;
    if |instrs| > 0 {
      NeededInIff(instrs[..|instrs| - 1], rel, i);
      assert instrs == instrs[..|instrs| - 1] + [instrs[|instrs| - 1]];
    }
  }

  lemma InstrNeedsIff(instr: Instr, rel: string, i: Cols)
    ensures i in AllNeed(PipelinesOf(instr), rel) <==> exists op :: InInstr(instr, op) && i in OpNeeds(op, rel)
  {
    var ps := PipelinesOf(instr);
    AllNeedIff(ps, rel, i);
    hide AllNeed, OpsNeed, OpNeeds;
    if ops :| ops in ps && i in OpsNeed(ops, rel) {
      OpsNeedIff(ops, rel, i);
      var op :| op in ops && i in OpNeeds(op, rel);
      assert InInstr(instr, op);
    }
    if op :| InInstr(instr, op) && i in OpNeeds(op, rel) {
      var ops :| ops in ps && op in ops;
      OpsNeedIff(ops, rel, i);
    }
  }

  // What the pass collects is what the joins of the plan read.
  lemma NeededIff(step: Step, rel: string, i: Cols)
    ensures i in NeededBy(step, rel) <==> exists s :: JoinReads(step, s) && s.rel == rel && s.index == i
  {
    if step.FixpointPlan? {
      NeededInIff(step.instructions, rel, i);
      hide NeededIn, AllNeed, PipelinesOf, OpNeeds, InInstr, IsSourceOf;
      if i in NeededBy(step, rel) {
        var instr :| instr in step.instructions && i in AllNeed(PipelinesOf(instr), rel);
        InstrNeedsIff(instr, rel, i);
        var op :| InInstr(instr, op) && i in OpNeeds(op, rel);
        OpNeedsIff(op, rel, i);
        var s :| OpReads(op, rel, i, s);
        assert InPlan(step, op);
        assert JoinReads(step, s);
      }
      if s: ColumnSource :| JoinReads(step, s) && s.rel == rel && s.index == i {
        var op :| InPlan(step, op) && IsSourceOf(op, s);
        var instr :| instr in step.instructions && InInstr(instr, op);
        assert OpReads(op, rel, i, s);
        OpNeedsIff(op, rel, i);
        InstrNeedsIff(instr, rel, i);
      }
    }
  }

  lemma {:induction false} NeededFromIff(steps: seq<Step>, p: nat, rel: string, i: Cols)
    requires p <= |steps|
    ensures i in NeededFrom(steps, p, rel) <==> ReadLater(steps, p, rel, i)
    decreases |steps| - p
  {
    hide NeededBy, JoinReads;
    if p < |steps| {
      var next := p + 1;
      NeededFromIff(steps, next, rel, i);
      NeededIff(steps[p], rel, i);
      if s: ColumnSource :| JoinReads(steps[p], s) && s.rel == rel && s.index == i {
        assert ReadAtStep(steps, p, rel, i, p, s);
      }
      if q: nat, s :| ReadAtStep(steps, next, rel, i, q, s) { assert ReadAtStep(steps, p, rel, i, q, s); }
      if q: nat, s :| ReadAtStep(steps, p, rel, i, q, s) {
        if q > p { assert ReadAtStep(steps, next, rel, i, q, s); }
      }
    }
  }

  lemma {:induction false} AllWriteIff(ps: seq<seq<Op>>, rel: string)
    ensures rel in AllWrite(ps) <==> exists ops :: ops in ps && rel in OpsWrite(ops)
  {
    if |ps| > 0 {
      AllWriteIff(ps[..|ps| - 1], rel);
      assert ps == ps[..|ps| - 1] + [ps[|ps| - 1]];
    }
  }

  lemma {:induction false} WrittenInIff(instrs: seq<Instr>, rel: string)
    ensures rel in WrittenIn(instrs) <==> exists instr :: instr in instrs && rel in AllWrite(PipelinesOf(instr))
  {
    hide AllWrite, PipelinesOf;
    if |instrs| > 0 {
      WrittenInIff(instrs[..|instrs| - 1], rel);
      assert instrs == instrs[..|instrs| - 1] + [instrs[|instrs| - 1]];
    }
  }

  lemma WritesIff(step: Step, rel: string)
    ensures rel in Writes(step) <==> InsertsInto(step, rel)
  {
    if step.FixpointPlan? {
      WrittenInIff(step.instructions, rel);
      hide WrittenIn, AllWrite;
      if rel in Writes(step) {
        var instr :| instr in step.instructions && rel in AllWrite(PipelinesOf(instr));
        AllWriteIff(PipelinesOf(instr), rel);
        var ops: seq<Op> :| ops in PipelinesOf(instr) && rel in OpsWrite(ops);
        var k :| 0 <= k < |ops| && ops[k].InsertInto? && ops[k].rel == rel;
        assert InInstr(instr, ops[k]);
        assert InPlan(step, ops[k]);
      }
      if op: Op :| InPlan(step, op) && op.InsertInto? && op.rel == rel {
        var instr :| instr in step.instructions && InInstr(instr, op);
        var ops: seq<Op> :| ops in PipelinesOf(instr) && op in ops;
        assert rel in OpsWrite(ops);
        AllWriteIff(PipelinesOf(instr), rel);
      }
    }
  }

  lemma {:induction false} MergedInIff(instrs: seq<Instr>, rel: string, i: Cols)
    ensures i in MergedIn(instrs, rel) <==> exists instr :: instr in instrs && InstrMergesIndex(instr, rel, i)
  {
    if |instrs| > 0 {
      var last := instrs[|instrs| - 1];
      assert i in InstrMerges(last, rel) <==> InstrMergesIndex(last, rel, i);
      MergedInIff(instrs[..|instrs| - 1], rel, i);
      assert instrs == instrs[..|instrs| - 1] + [instrs[|instrs| - 1]];
    }
  }

  lemma {:induction false} LastMergedIff(steps: seq<Step>, p: nat, rel: string, i: Cols)
    requires p <= |steps|
    ensures i in LastMerged(steps, p, rel) <==> LastWriterMerges(steps, p, rel, i)
  {
    hide InstrMergesIndex;
    if p > 0 {
      var last: nat := p - 1;
      WritesIff(steps[last], rel);
      if steps[last].FixpointPlan? { MergedInIff(steps[last].instructions, rel, i); }
      hide MergedIn, Writes, InsertsInto;
      if rel in Writes(steps[last]) {
        if i in LastMerged(steps, p, rel) { assert LastMergesAt(steps, p, rel, i, last); }
        if j: nat :| LastMergesAt(steps, p, rel, i, j) { assert j == last; }
      } else {
        LastMergedIff(steps, last, rel, i);
        if j: nat :| LastMergesAt(steps, last, rel, i, j) { assert LastMergesAt(steps, p, rel, i, j); }
        if j: nat :| LastMergesAt(steps, p, rel, i, j) {
          assert j != last;
          assert LastMergesAt(steps, last, rel, i, j);
        }
      }
    }
  }

  // --- The pass ---

  // The rebuilds after step p, in any order.
  ghost predicate IsBlock(steps: seq<Step>, p: nat, block: seq<Step>)
    requires p < |steps|
  {
    if steps[p].PostReconstruct? then
      && (forall k :: 0 <= k < |block| ==> block[k].Rebuild? && block[k].rel == steps[p].rel)
      && forall c :: Rebuild(steps[p].rel, c) in block
           <==> c in NeededFrom(steps, p + 1, steps[p].rel) - LastMerged(steps, p, steps[p].rel)
    else block == []
  }

  ghost predicate IsRebuilt(steps: seq<Step>, blocks: seq<seq<Step>>, out: seq<Step>) {
    && |blocks| == |steps| && (forall p :: 0 <= p < |steps| ==> IsBlock(steps, p, blocks[p]))
    && out == Joined(steps, blocks, |steps|)
  }

  function Joined(steps: seq<Step>, blocks: seq<seq<Step>>, n: nat): seq<Step>
    requires n <= |steps| && n <= |blocks|
  {
    if n == 0 then [] else Joined(steps, blocks, n - 1) + ([steps[n - 1]] + blocks[n - 1])
  }

  method LastWriterMerged(steps: seq<Step>, p: nat, rel: string) returns (merged: set<Cols>)
    requires p <= |steps|
    ensures merged == LastMerged(steps, p, rel)
    ensures forall i :: i in merged <==> LastWriterMerges(steps, p, rel, i)
  {
    forall i ensures i in LastMerged(steps, p, rel) <==> LastWriterMerges(steps, p, rel, i) {
      LastMergedIff(steps, p, rel, i);
    }
    hide LastWriterMerges;
    var j: nat := p;
    while j > 0
      invariant j <= p && LastMerged(steps, p, rel) == LastMerged(steps, j, rel)
    {
      if rel in Writes(steps[j - 1]) {
        return MergedBy(steps[j - 1], rel);
      }
      j := j - 1;
    }
    merged := {};
  }

  method CollectNeeded(steps: seq<Step>, p: nat, rel: string) returns (needed: set<Cols>)
    requires p <= |steps|
    ensures needed == NeededFrom(steps, p, rel)
    ensures forall i :: i in needed <==> ReadLater(steps, p, rel, i)
  {
    forall i ensures i in NeededFrom(steps, p, rel) <==> ReadLater(steps, p, rel, i) {
      NeededFromIff(steps, p, rel, i);
    }
    hide ReadLater, NeededBy;
    needed := {};
    for j := p to |steps|
      invariant NeededFrom(steps, p, rel) == needed + NeededFrom(steps, j, rel)
    {
      needed := needed + NeededBy(steps[j], rel);
    }
  }

  method RebuildsFor(rel: string, missing: set<Cols>) returns (block: seq<Step>)
    ensures forall k :: 0 <= k < |block| ==> block[k].Rebuild? && block[k].rel == rel
    ensures forall c :: Rebuild(rel, c) in block <==> c in missing
  {
    block := [];
    var todo := missing;
    while todo != {}
      invariant todo <= missing
      invariant forall k :: 0 <= k < |block| ==> block[k].Rebuild? && block[k].rel == rel
      invariant forall c :: Rebuild(rel, c) in block <==> c in missing - todo
      decreases todo
    {
      var c :| c in todo;
      block := block + [Rebuild(rel, c)];
      todo := todo - {c};
    }
  }

  // After a reconstruction, an index is rebuilt if and only if a join of a later plan reads it and the last writer did
  // not merge it.
  lemma RebuildsIff(steps: seq<Step>, p: nat, block: seq<Step>, i: Cols)
    requires p < |steps| && IsBlock(steps, p, block) && steps[p].PostReconstruct?
    ensures Rebuild(steps[p].rel, i) in block <==>
            ReadLater(steps, p + 1, steps[p].rel, i) && !LastWriterMerges(steps, p, steps[p].rel, i)
  {
    NeededFromIff(steps, p + 1, steps[p].rel, i);
    LastMergedIff(steps, p, steps[p].rel, i);
    hide ReadLater, LastWriterMerges, NeededFrom, LastMerged;
  }

  method InsertPreReconstructRebuilds(steps: seq<Step>) returns (out: seq<Step>, ghost blocks: seq<seq<Step>>)
    ensures IsRebuilt(steps, blocks, out)
  {
    out := [];
    blocks := [];
    for p := 0 to |steps|
      invariant |blocks| == p && (forall q :: 0 <= q < p ==> IsBlock(steps, q, blocks[q]))
      invariant out == Joined(steps, blocks, p)
    {
      ghost var before := blocks;
      out := out + [steps[p]];
      if steps[p].PostReconstruct? {
        var merged := LastWriterMerged(steps, p, steps[p].rel);
        var needed := CollectNeeded(steps, p + 1, steps[p].rel);
        var block := RebuildsFor(steps[p].rel, needed - merged);
        out := out + block;
        blocks := blocks + [block];
      } else {
        blocks := blocks + [[]];
      }
      JoinedSame(steps, before, blocks, p);
    }
  }

  lemma {:induction false} JoinedSame(steps: seq<Step>, a: seq<seq<Step>>, b: seq<seq<Step>>, n: nat)
    requires n <= |steps| && n <= |a| <= |b| && a == b[..|a|]
    ensures Joined(steps, a, n) == Joined(steps, b, n)
  {
    if n > 0 {
      JoinedSame(steps, a, b, n - 1);
      assert a[n - 1] == b[n - 1];
    }
  }

  // --- What steps do to the stored indexes ---

  // The stored indexes, and the rows each relation really has.
  datatype World = World(db: Db, truth: map<string, iset<Row>>)

  ghost predicate GrewBy(s: RelState, t: RelState, before: iset<Row>, after: iset<Row>, merged: set<Cols>,
                         added: iset<Row>) {
    && after == before + added && t.base == s.base && t.interned == s.interned
    && forall i :: Takes(s, t, i, if i in merged then added else iset{})
  }

  // Some rows were added; the merged indexes took them in, the others did not change.
  ghost predicate Grew(s: RelState, t: RelState, before: iset<Row>, after: iset<Row>, merged: set<Cols>) {
    exists added: iset<Row> :: GrewBy(s, t, before, after, merged, added)
  }

  ghost predicate PlanEffect(step: Step, rel: string, s: RelState, t: RelState, before: iset<Row>, after: iset<Row>) {
    if rel in Writes(step) then Grew(s, t, before, after, MergedBy(step, rel))
    else after == before && t.base == s.base && SameRows(s.fulls, t.fulls)
  }

  ghost predicate StepEffect(step: Step, a: World, b: World) {
    && a.db.Keys == b.db.Keys == a.truth.Keys == b.truth.Keys
    && match step
       case FixpointPlan(_) => forall rel ::
           rel in a.db ==> PlanEffect(step, rel, a.db[rel], b.db[rel], a.truth[rel], b.truth[rel])
       case PostReconstruct(rel, c) => rel in a.db
           && b == World(a.db[rel := ExecOn(Reconstruct(rel, c), a.db[rel])], a.truth)
       case Rebuild(rel, i) => rel in a.db && b == World(a.db[rel := ExecOn(RebuildFull(rel, i), a.db[rel])], a.truth)
  }

  ghost predicate RunsTo(out: seq<Step>, a: World, b: World) {
    if |out| == 0 then a == b else
      var init, last := out[..|out| - 1], out[|out| - 1];
      exists mid :: RunsTo(init, a, mid) && StepEffect(last, mid, b)
  }

  lemma {:induction false} RunsToAppend(x: seq<Step>, y: seq<Step>, a: World, b: World)
    ensures RunsTo(x + y, a, b) <==> exists mid :: RunsTo(x, a, mid) && RunsTo(y, mid, b)
  {
    hide StepEffect;
    if |y| == 0 {
      assert x + y == x;
      assert RunsTo(y, b, b);
    } else {
      var init, last := y[..|y| - 1], y[|y| - 1];
      assert (x + y)[..|x + y| - 1] == x + init;
      if RunsTo(x + y, a, b) {
        var m :| RunsTo(x + init, a, m) && StepEffect(last, m, b);
        RunsToAppend(x, init, a, m);
      }
      if mid :| RunsTo(x, a, mid) && RunsTo(y, mid, b) {
        var m :| RunsTo(init, mid, m) && StepEffect(last, m, b);
        assert RunsTo(x + init, a, m) by {
          RunsToAppend(x, init, a, m);
          assert RunsTo(x, a, mid) && RunsTo(init, mid, m);
        }
        assert StepEffect((x + y)[|x + y| - 1], m, b);
      }
    }
  }

  lemma RunsJoin(x: seq<Step>, y: seq<Step>, a: World, mid: World, b: World)
    requires RunsTo(x, a, mid) && RunsTo(y, mid, b)
    ensures RunsTo(x + y, a, b)
  {
    hide *;
    RunsToAppend(x, y, a, b);
    assert RunsTo(x, a, mid) && RunsTo(y, mid, b);
  }

  lemma GrewTwice(s: RelState, m: RelState, t: RelState, a: iset<Row>, b: iset<Row>, c: iset<Row>, merged: set<Cols>)
    requires Grew(s, m, a, b, merged) && Grew(m, t, b, c, merged)
    ensures Grew(s, t, a, c, merged)
  {
    var x :| GrewBy(s, m, a, b, merged, x);
    var y :| GrewBy(m, t, b, c, merged, y);
    assert GrewBy(s, t, a, c, merged, x + y);
  }

  // --- The invariant between steps ---

  function CanonsFrom(steps: seq<Step>, p: nat, rel: string): set<Cols>
    requires p <= |steps|
    decreases |steps| - p
  {
    if p == |steps| then {} else
      CanonsFrom(steps, p + 1, rel) + if steps[p].PostReconstruct?
                                        && steps[p].rel == rel then {steps[p].canonical} else {}
  }

  // A plan wrote rel and column storage has not been reconstructed since.
  predicate Pending(steps: seq<Step>, p: nat, rel: string)
    requires p <= |steps|
  {
    if p == 0 then false
    else if rel in Writes(steps[p - 1]) then true
    else if steps[p - 1].PostReconstruct? && steps[p - 1].rel == rel then false
    else Pending(steps, p - 1, rel)
  }

  // How lowering lays steps out: everything a plan wrote is reconstructed before the next plan, from an index the plan
  // merged, and the plan also merges the canonical index of every later reconstruction.
  ghost predicate Laid(steps: seq<Step>) {
    && (forall p :: 0 <= p < |steps| ==> !steps[p].Rebuild?)
    && (forall p, rel :: 0 <= p < |steps| && steps[p].FixpointPlan? ==> !Pending(steps, p, rel))
    && forall p :: 0 <= p < |steps| && steps[p].PostReconstruct? && Pending(steps, p, steps[p].rel) ==>
         && steps[p].canonical in LastMerged(steps, p, steps[p].rel)
         && CanonsFrom(steps, p + 1, steps[p].rel) <= LastMerged(steps, p, steps[p].rel)
  }

  ghost predicate Wanted(steps: seq<Step>, p: nat, rel: string, i: Cols)
    requires p <= |steps|
  {
    i in NeededFrom(steps, p, rel) || i in CanonsFrom(steps, p, rel)
  }

  // While rel waits for its reconstruction only the merged indexes are current; otherwise all wanted ones and column
  // storage are.
  ghost predicate CurrentFor(steps: seq<Step>, p: nat, rel: string, s: RelState, truth: iset<Row>)
    requires p <= |steps|
  {
    && (!Pending(steps, p, rel) ==> s.base == truth)
    && forall i ::
        Wanted(steps, p, rel, i) && (Pending(steps, p, rel) ==> i in LastMerged(steps, p, rel)) ==>
        At(s.fulls, i) == truth
  }

  ghost predicate Current(steps: seq<Step>, p: nat, w: World)
    requires p <= |steps|
  {
    w.db.Keys == w.truth.Keys && forall rel :: rel in w.db ==> CurrentFor(steps, p, rel, w.db[rel], w.truth[rel])
  }

  lemma WantedBefore(steps: seq<Step>, p: nat, rel: string, i: Cols)
    requires p < |steps| && Wanted(steps, p + 1, rel, i)
    ensures Wanted(steps, p, rel, i)
  {}

  lemma PlanKeepsCurrent(steps: seq<Step>, p: nat, rel: string, s: RelState, t: RelState, before: iset<Row>,
                         after: iset<Row>)
    requires p < |steps| && steps[p].FixpointPlan? && !Pending(steps, p, rel)
    requires CurrentFor(steps, p, rel, s, before) && PlanEffect(steps[p], rel, s, t, before, after)
    ensures CurrentFor(steps, p + 1, rel, t, after)
  {
    hide NeededFrom, CanonsFrom, MergedBy, Writes;
    forall i | Wanted(steps, p + 1, rel, i) && (Pending(steps, p + 1, rel) ==> i in LastMerged(steps, p + 1, rel))
      ensures At(t.fulls, i) == after {
      WantedBefore(steps, p, rel, i);
    }
  }

  lemma {:induction false} RebuildsMeaning(rel: string, block: seq<Step>, a: World, b: World)
    requires RunsTo(block, a, b) && rel in a.db && a.db.Keys == a.truth.Keys
    requires forall k :: 0 <= k < |block| ==> block[k].Rebuild? && block[k].rel == rel
    ensures Rebuilt(rel, block, a, b)
  {
    hide StepEffect, Rebuilt;
    if |block| == 0 {
      RebuiltNone(rel, a);
    } else {
      var init, last := block[..|block| - 1], block[|block| - 1];
      var mid :| RunsTo(init, a, mid) && StepEffect(last, mid, b);
      RebuildsMeaning(rel, init, a, mid);
      hide RunsTo;
      RebuiltThen(rel, init, last, a, mid, b);
      assert block == init + [last];
    }
  }

  ghost predicate Rebuilt(rel: string, block: seq<Step>, a: World, b: World) {
    && b.truth == a.truth && b.db.Keys == a.db.Keys && rel in a.db && b.db[rel].base == a.db[rel].base
    && b.db[rel].interned == a.db[rel].interned && b.db[rel].pending == a.db[rel].pending
    && b.db[rel].news == a.db[rel].news
    && (forall i ::
        At(b.db[rel].fulls, i) == if Rebuild(rel, i) in block then a.db[rel].base else At(a.db[rel].fulls, i))
    && (forall i ::
        CountAt(b.db[rel].rows, i) == if Rebuild(rel, i) in block then a.db[rel].interned
                                        else CountAt(a.db[rel].rows, i))
    && forall other :: other in a.db && other != rel ==> b.db[other] == a.db[other]
  }

  lemma RebuiltNone(rel: string, a: World)
    requires rel in a.db
    ensures Rebuilt(rel, [], a, a)
  {}

  lemma RebuiltThen(rel: string, init: seq<Step>, last: Step, a: World, mid: World, b: World)
    requires Rebuilt(rel, init, a, mid) && last.Rebuild? && last.rel == rel && StepEffect(last, mid, b)
    ensures Rebuilt(rel, init + [last], a, b)
  {
    assert last == Rebuild(rel, last.index);
    assert forall i :: Rebuild(rel, i) in init + [last] <==> Rebuild(rel, i) in init || i == last.index;
    hide SizeOf, Plus;
  }

  lemma ReconstructMakesCurrent(steps: seq<Step>, p: nat, block: seq<Step>, a: World, mid: World, b: World)
    requires Laid(steps) && p < |steps| && steps[p].PostReconstruct? && IsBlock(steps, p, block)
    requires Current(steps, p, a) && StepEffect(steps[p], a, mid) && RunsTo(block, mid, b)
    ensures CurrentFor(steps, p + 1, steps[p].rel, b.db[steps[p].rel], b.truth[steps[p].rel])
    ensures b.db.Keys == a.db.Keys && b.truth == a.truth
    ensures forall other :: other in a.db && other != steps[p].rel ==> b.db[other] == a.db[other]
  {
    var rel, c := steps[p].rel, steps[p].canonical;
    RebuildsMeaning(rel, block, mid, b);
    var truth := a.truth[rel];
    assert Wanted(steps, p, rel, c);
    assert mid.db[rel].base == truth;
    hide RunsTo, NeededBy, LastMerged, CanonsFrom;
    forall i | Wanted(steps, p + 1, rel, i) ensures At(b.db[rel].fulls, i) == truth {
      WantedIsCovered(steps, p, block, rel, i);
    }
  }

  // What is wanted after the block was merged by the plan or rebuilt by the block.
  lemma WantedIsCovered(steps: seq<Step>, p: nat, block: seq<Step>, rel: string, i: Cols)
    requires Laid(steps) && p < |steps| && steps[p].PostReconstruct? && steps[p].rel == rel && IsBlock(steps, p, block)
    requires Wanted(steps, p + 1, rel, i)
    ensures Rebuild(rel, i) in block
        || ((Pending(steps, p, rel) ==> i in LastMerged(steps, p, rel)) && Wanted(steps, p, rel, i))
  {
    WantedBefore(steps, p, rel, i);
  }

  lemma OtherStays(steps: seq<Step>, p: nat, rel: string, s: RelState, truth: iset<Row>)
    requires p < |steps| && steps[p].PostReconstruct? && steps[p].rel != rel && CurrentFor(steps, p, rel, s, truth)
    ensures CurrentFor(steps, p + 1, rel, s, truth)
  {
    hide NeededFrom, CanonsFrom;
    forall i | Wanted(steps, p + 1, rel, i) && (Pending(steps, p + 1, rel) ==> i in LastMerged(steps, p + 1, rel))
      ensures At(s.fulls, i) == truth {
      WantedBefore(steps, p, rel, i);
    }
  }

  lemma StepKeepsCurrent(steps: seq<Step>, p: nat, block: seq<Step>, a: World, b: World)
    requires Laid(steps) && p < |steps| && IsBlock(steps, p, block) && Current(steps, p, a)
    requires RunsTo([steps[p]] + block, a, b)
    ensures Current(steps, p + 1, b)
  {
    hide StepEffect;
    RunsToAppend([steps[p]], block, a, b);
    var mid :| RunsTo([steps[p]], a, mid) && RunsTo(block, mid, b);
    OneStep(steps[p], a, mid);
    if steps[p].PostReconstruct? {
      ReconstructMakesCurrent(steps, p, block, a, mid, b);
      hide CurrentFor, IsBlock;
      forall rel | rel in b.db ensures CurrentFor(steps, p + 1, rel, b.db[rel], b.truth[rel]) {
        if rel != steps[p].rel { OtherStays(steps, p, rel, a.db[rel], a.truth[rel]); }
      }
    } else {
      assert steps[p].FixpointPlan? && block == [] && b == mid;
      hide CurrentFor, PlanEffect;
      forall rel | rel in b.db ensures CurrentFor(steps, p + 1, rel, b.db[rel], b.truth[rel]) {
        PlanKeepsCurrent(steps, p, rel, a.db[rel], b.db[rel], a.truth[rel], b.truth[rel]);
      }
    }
  }

  lemma OneStep(step: Step, a: World, b: World)
    requires RunsTo([step], a, b)
    ensures StepEffect(step, a, b)
  {
    assert [step][..0] == [];
    var mid :| RunsTo([], a, mid) && StepEffect(step, mid, b);
  }

  ghost predicate AllBlocks(steps: seq<Step>, blocks: seq<seq<Step>>) {
    |blocks| == |steps| && forall q :: 0 <= q < |steps| ==> IsBlock(steps, q, blocks[q])
  }

  lemma {:induction false} BlocksKeepCurrent(steps: seq<Step>, blocks: seq<seq<Step>>, p: nat, start: World, w: World)
    requires Laid(steps) && p <= |steps| == |blocks| && AllBlocks(steps, blocks)
    requires Current(steps, 0, start) && RunsTo(Joined(steps, blocks, p), start, w)
    ensures Current(steps, p, w)
  {
    hide Current, Laid, IsBlock, StepEffect;
    if p > 0 {
      var mid := BeforeBlock(steps, blocks, p - 1, start, w);
      BlocksKeepCurrent(steps, blocks, p - 1, start, mid);
      assert IsBlock(steps, p - 1, blocks[p - 1]);
      StepKeepsCurrent(steps, p - 1, blocks[p - 1], mid, w);
    }
  }

  lemma BeforeBlock(steps: seq<Step>, blocks: seq<seq<Step>>, p: nat, start: World, w: World) returns (mid: World)
    requires p < |steps| == |blocks| && RunsTo(Joined(steps, blocks, p + 1), start, w)
    ensures RunsTo(Joined(steps, blocks, p), start, mid) && RunsTo([steps[p]] + blocks[p], mid, w)
  {
    var front, last := Joined(steps, blocks, p), [steps[p]] + blocks[p];
    assert Joined(steps, blocks, p + 1) == front + last;
    hide Joined, RunsTo;
    RunsToAppend(front, last, start, w);
    mid :| RunsTo(front, start, mid) && RunsTo(last, mid, w);
  }

  // Over any run of the rewritten steps: an index that a join of a later plan reads holds its relation's rows, unless
  // the relation waits for its reconstruction and the plan that wrote it did not merge the index.
  lemma RunKeepsCurrent(steps: seq<Step>, blocks: seq<seq<Step>>, out: seq<Step>, p: nat, start: World, w: World,
                        rel: string, i: Cols)
    requires Laid(steps) && IsRebuilt(steps, blocks, out) && p <= |steps|
    requires Current(steps, 0, start) && RunsTo(Joined(steps, blocks, p), start, w)
    requires rel in w.db && ReadLater(steps, p, rel, i)
    requires Pending(steps, p, rel) ==> LastWriterMerges(steps, p, rel, i)
    ensures rel in w.truth && At(w.db[rel].fulls, i) == w.truth[rel]
  {
    hide RunsTo, Joined;
    BlocksKeepCurrent(steps, blocks, p, start, w);
    NeededFromIff(steps, p, rel, i);
    LastMergedIff(steps, p, rel, i);
    hide NeededFrom, LastMerged, ReadLater, LastWriterMerges, Pending;
    assert CurrentFor(steps, p, rel, w.db[rel], w.truth[rel]);
    assert Wanted(steps, p, rel, i);
  }

  // Whenever a plan of the rewritten program starts, every index that a join of one of its pipelines, alone or in a
  // parallel group, reads as FULL or DELTA holds the relation's current rows.
  lemma ColumnSourcesReadFresh(steps: seq<Step>, blocks: seq<seq<Step>>, out: seq<Step>, p: nat, start: World, w: World,
                               s: ColumnSource)
    requires Laid(steps) && IsRebuilt(steps, blocks, out) && p < |steps| && JoinReads(steps[p], s)
    requires Current(steps, 0, start) && RunsTo(Joined(steps, blocks, p), start, w)
    requires s.rel in w.db && s.rel in w.truth
    ensures At(w.db[s.rel].fulls, s.index) == w.truth[s.rel]
  {
    hide RunsTo, Joined;
    BlocksKeepCurrent(steps, blocks, p, start, w);
    NeededIff(steps[p], s.rel, s.index);
    assert CurrentFor(steps, p, s.rel, w.db[s.rel], w.truth[s.rel]);
    hide NeededBy, JoinReads;
    assert Wanted(steps, p, s.rel, s.index);
  }

  // Steps p to n, each with its rebuilds.
  function Stretch(steps: seq<Step>, blocks: seq<seq<Step>>, p: nat, n: nat): seq<Step>
    requires p <= n <= |steps| && n <= |blocks|
  {
    if n == p then [] else Stretch(steps, blocks, p, n - 1) + ([steps[n - 1]] + blocks[n - 1])
  }

  ghost predicate IndexCurrent(w: World, rel: string, i: Cols) {
    rel in w.db && rel in w.truth && At(w.db[rel].fulls, i) == w.truth[rel]
  }

  lemma SingleStep(step: Step, a: World, b: World)
    requires StepEffect(step, a, b)
    ensures RunsTo([step], a, b)
  {
    hide StepEffect;
    var run := [step];
    assert run[..|run| - 1] == [] && run[|run| - 1] == step;
    assert RunsTo(run[..|run| - 1], a, a) && StepEffect(run[|run| - 1], a, b);
  }
}
