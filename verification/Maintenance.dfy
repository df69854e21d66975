/** Index maintenance operations, what they do to the stored indexes, the generators that emit them, and the row
    counts by which the runtime tells whether an index is up to date. */
module Maintenance {
  import opened Datalog
  import opened Seqs
  import opened SemiNaive

  // ========== Maintenance ==========

  // Index maintenance operations, what they do to the stored indexes, and the generators that emit them.

  type Cols = seq<nat>
  type Indexes = map<Cols, iset<Row>>

  // The runtime counts rows in integers; the model's relations may be infinite, and those are uncounted.
  datatype RowCount = Rows(n: nat) | Uncounted

  type Counts = map<Cols, RowCount>

  // One relation: rows inserted and not yet indexed, the indexes of each version, FULL's column storage. Beside them
  // the numbers by which the runtime decides whether an index needs building: the rows in column storage, repetitions
  // included, and the rows each index has processed.
  datatype RelState = RelState(pending: iset<Row>, news: Indexes, deltas: Indexes, fulls: Indexes, base: iset<Row>,
                               interned: RowCount, rows: Counts, deltaRows: Counts)

  type Db = map<string, RelState>

  // RebuildIndex is emitted for NEW, from the pending rows, and for FULL, from column storage.
  datatype MaintOp =
    | RebuildNew(rel: string, index: Cols)
    | RebuildFull(rel: string, index: Cols)
    | ClearRelation(rel: string, version: Version)
    | CheckSize(rel: string)
    | ComputeDeltaIndex(rel: string, canonical: Cols)
    | RebuildIndexFromIndex(rel: string, source: Cols, target: Cols)
    | MergeIndex(rel: string, index: Cols)
    | Reconstruct(rel: string, canonical: Cols)

  function At(m: Indexes, i: Cols): iset<Row> {
    if i in m then m[i] else iset{}
  }

  function Emptied(m: Indexes): Indexes {
    map i | i in m :: iset{}
  }

  function CountAt(m: Counts, i: Cols): RowCount {
    if i in m then m[i] else Rows(0)
  }

  function Plus(a: RowCount, b: RowCount): RowCount {
    if a.Rows? && b.Rows? then Rows(a.n + b.n) else Uncounted
  }

  ghost predicate Enumerates(f: set<Row>, s: iset<Row>) {
    forall r :: r in f <==> r in s
  }

  // The number of rows, of a finite set.
  ghost function SizeOf(s: iset<Row>): RowCount {
    if exists f: set<Row> :: Enumerates(f, s) then
      var f: set<Row> :| Enumerates(f, s);
      Rows(|f|)
    else Uncounted
  }

  ghost function ExecOn(op: MaintOp, s: RelState): RelState {
    match op
    case RebuildNew(_, i) => s.(pending := iset{}, news := s.news[i := s.pending])
    case RebuildFull(_, i) => s.(fulls := s.fulls[i := s.base], rows := s.rows[i := s.interned])
    case ClearRelation(_, NEW) => s.(pending := iset{}, news := Emptied(s.news))
    case ClearRelation(_, DELTA) => s.(deltas := Emptied(s.deltas), deltaRows := map[])
    case ClearRelation(_, FULL) => s.(fulls := Emptied(s.fulls), base := iset{}, interned := Rows(0), rows := map[])
    case CheckSize(_) => s
    case ComputeDeltaIndex(_, c) => Difference(s, c)
    case RebuildIndexFromIndex(_, from, to) => s.(deltas := s.deltas[to := At(s.deltas, from)],
                                                  deltaRows := s.deltaRows[to := Rows(0)])
    case MergeIndex(_, i) => Merged(s, i)
    case Reconstruct(_, c) => s.(base := At(s.fulls, c), interned := SizeOf(At(s.fulls, c)))
  }

  // DELTA is cleared and takes what NEW adds to FULL; when FULL is empty it takes NEW as it is, which has processed
  // none.
  ghost function Difference(s: RelState, c: Cols): RelState {
    var added := At(s.news, c) - At(s.fulls, c);
    s.(deltas := Emptied(s.deltas)[c := added],
       deltaRows := map[c := if At(s.fulls, c) == iset{} then Rows(0) else SizeOf(added)])
  }

  // Merging an empty index does nothing, merging into an empty one copies it; otherwise the processed rows add up.
  ghost function Merged(s: RelState, i: Cols): RelState {
    var full, delta := At(s.fulls, i), At(s.deltas, i);
    if delta == iset{} then s.(fulls := s.fulls[i := full])
    else
      var before := if full == iset{} then Rows(0) else CountAt(s.rows, i);
      s.(fulls := s.fulls[i := full + delta], rows := s.rows[i := Plus(before, CountAt(s.deltaRows, i))])
  }

  ghost predicate NewIsEmpty(s: RelState) {
    s.pending == iset{} && forall i :: i in s.news ==> s.news[i] == iset{}
  }

  // One relation's maintenance. With skips, CheckSize ends it when NEW is empty; without, CheckSize does nothing.
  ghost function Maintain(ops: seq<MaintOp>, s: RelState, skips: bool): RelState {
    if |ops| == 0 then s
    else if ops[0].CheckSize? && skips && NewIsEmpty(s) then s
    else Maintain(ops[1..], ExecOn(ops[0], s), skips)
  }

  // --- Generators ---

  // The tail every generator shares: bring each index up to date from the canonical DELTA.
  function IndexOps(rel: string, indices: seq<Cols>, canonical: Cols, merged: set<Cols>): seq<MaintOp> {
    if |indices| == 0 then [] else
      var i := indices[|indices| - 1];
      IndexOps(rel, indices[..|indices| - 1], canonical, merged) + OneIndexOps(rel, i, canonical, merged)
  }

  function OneIndexOps(rel: string, i: Cols, canonical: Cols, merged: set<Cols>): seq<MaintOp> {
    (if i != canonical then [RebuildIndexFromIndex(rel, canonical, i)] else []) +
    if i == canonical || i in merged then [MergeIndex(rel, i)] else []
  }

  function SimpleMaintenance(rel: string, indices: seq<Cols>, canonical: Cols): seq<MaintOp> {
    [RebuildNew(rel, canonical), CheckSize(rel), ComputeDeltaIndex(rel, canonical), ClearRelation(rel, NEW)]
    + IndexOps(rel, indices, canonical, set i | i in indices)
  }

  function LoopMaintenance(rel: string, indices: seq<Cols>, canonical: Cols, fullNeeded: set<Cols>): seq<MaintOp> {
    [RebuildNew(rel, canonical), ClearRelation(rel, DELTA), CheckSize(rel), ComputeDeltaIndex(rel, canonical),
     ClearRelation(rel, NEW)]
    + IndexOps(rel, indices, canonical, fullNeeded)
  }

  method GenerateSimpleMaintenance(rel: string, indices: seq<Cols>, canonical: Cols, arity: nat)
    returns (ops: seq<MaintOp>)
    requires |canonical| == arity
    ensures ops == SimpleMaintenance(rel, indices, canonical)
  {
    ops := [RebuildNew(rel, canonical)];
    ops := ops + [CheckSize(rel)];
    ops := ops + [ComputeDeltaIndex(rel, canonical)];
    ops := ops + [ClearRelation(rel, NEW)];
    ghost var all := set i | i in indices;
    ghost var head := ops;
    for k := 0 to |indices|
      invariant ops == head + IndexOps(rel, indices[..k], canonical, all)
    {
      assert indices[..k + 1][..k] == indices[..k];
      if indices[k] != canonical {
        ops := ops + [RebuildIndexFromIndex(rel, canonical, indices[k])];
      }
      ops := ops + [MergeIndex(rel, indices[k])];
    }
    assert indices[..|indices|] == indices;
  }

  method GenerateLoopMaintenance(rel: string, indices: seq<Cols>, canonical: Cols, arity: nat, fullNeeded: set<Cols>)
    returns (ops: seq<MaintOp>)
    requires |canonical| == arity
    ensures ops == LoopMaintenance(rel, indices, canonical, fullNeeded)
  {
    ops := [RebuildNew(rel, canonical)];
    ops := ops + [ClearRelation(rel, DELTA)];
    ops := ops + [CheckSize(rel)];
    ops := ops + [ComputeDeltaIndex(rel, canonical)];
    ops := ops + [ClearRelation(rel, NEW)];
    ghost var head := ops;
    for k := 0 to |indices|
      invariant ops == head + IndexOps(rel, indices[..k], canonical, fullNeeded)
    {
      assert indices[..k + 1][..k] == indices[..k];
      if indices[k] != canonical {
        ops := ops + [RebuildIndexFromIndex(rel, canonical, indices[k])];
      }
      if indices[k] == canonical || indices[k] in fullNeeded {
        ops := ops + [MergeIndex(rel, indices[k])];
      }
    }
    assert indices[..|indices|] == indices;
  }

  // --- What a round of maintenance achieves ---

  // Indexes are compared by their rows; an absent index holds none.
  ghost predicate SameRows(a: Indexes, b: Indexes) {
    forall i :: At(a, i) == At(b, i)
  }

  lemma {:induction false} MaintainAppend(a: seq<MaintOp>, b: seq<MaintOp>, s: RelState)
    requires forall k :: 0 <= k < |b| ==> !b[k].CheckSize?
    requires forall k :: 0 <= k < |a| ==> !a[k].CheckSize?
    ensures forall skips :: Maintain(a + b, s, skips) == Maintain(b, Maintain(a, s, skips), skips)
    decreases |a|
  {
    if |a| == 0 {
      assert a + b == b;
    } else {
      assert (a + b)[1..] == a[1..] + b;
      MaintainAppend(a[1..], b, ExecOn(a[0], s));
    }
  }

  lemma {:induction false} NoCheckInIndexOps(rel: string, indices: seq<Cols>, canonical: Cols, merged: set<Cols>)
    ensures forall k ::
        0 <= k < |IndexOps(rel, indices, canonical, merged)| ==>
        !IndexOps(rel, indices, canonical, merged)[k].CheckSize?
  {
    if |indices| > 0 { NoCheckInIndexOps(rel, indices[..|indices| - 1], canonical, merged); }
  }

  // Rows of the listed indexes after the shared tail: every DELTA index copies the canonical one, the merged FULL ones
  // take it in.
  ghost predicate Updated(s: RelState, t: RelState, indices: seq<Cols>, canonical: Cols, merged: set<Cols>,
                          added: iset<Row>) {
    && t.pending == s.pending && t.news == s.news && t.base == s.base && t.interned == s.interned
    && (forall i :: At(t.deltas, i) == if i in indices then added else At(s.deltas, i))
    && forall i :: Takes(s, t, i, Gain(i, indices, canonical, merged, added))
  }

  // What index i gains: the added rows, if it is required and merged.
  ghost function Gain(i: Cols, indices: seq<Cols>, canonical: Cols, merged: set<Cols>, added: iset<Row>): iset<Row> {
    if i in indices && (i == canonical || i in merged) then added else iset{}
  }

  // Index i takes in the rows; its count changes only if there are some.
  ghost predicate Takes(s: RelState, t: RelState, i: Cols, added: iset<Row>) {
    At(t.fulls, i) == At(s.fulls, i) + added && (added == iset{} ==> CountAt(t.rows, i) == CountAt(s.rows, i))
  }

  ghost function Copied(s: RelState, i: Cols, canonical: Cols): RelState {
    if i == canonical then s else s.(deltas := s.deltas[i := At(s.deltas, canonical)],
                                     deltaRows := s.deltaRows[i := Rows(0)])
  }

  // The state after one index's operations.
  ghost function OneIndexState(s: RelState, i: Cols, canonical: Cols, merged: set<Cols>): RelState {
    if i == canonical || i in merged then Merged(Copied(s, i, canonical), i) else Copied(s, i, canonical)
  }

  lemma OneIndexRuns(rel: string, i: Cols, canonical: Cols, merged: set<Cols>, s: RelState, skips: bool)
    ensures Maintain(OneIndexOps(rel, i, canonical, merged), s, skips) == OneIndexState(s, i, canonical, merged)
  {
    var copy := if i != canonical then [RebuildIndexFromIndex(rel, canonical, i)] else [];
    var merge := if i == canonical || i in merged then [MergeIndex(rel, i)] else [];
    MaintainAppend(copy, merge, s);
    var mid := Maintain(copy, s, skips);
    hide Merged, At;
    if i != canonical { MaintainOne(copy[0], s, skips); }
    if i == canonical || i in merged { MaintainOne(merge[0], mid, skips); }
  }

  lemma MergedTakes(s: RelState, i: Cols, j: Cols)
    ensures Takes(s, Merged(s, i), j, if j == i then At(s.deltas, i) else iset{})
  {
    hide Plus;
    if j == i { assert At(s.fulls, i) + iset{} == At(s.fulls, i); }
  }

  lemma MergedKeeps(s: RelState, i: Cols)
    ensures var t := Merged(s, i);
      t.pending == s.pending && t.news == s.news && t.base == s.base && t.interned == s.interned && t.deltas == s.deltas
          && t.deltaRows == s.deltaRows
  {
    hide At, CountAt, Plus;
  }

  lemma TakesNothing(s: RelState, j: Cols)
    ensures Takes(s, s, j, iset{})
  {}

  lemma TakesFrom(s: RelState, mid: RelState, t: RelState, j: Cols, added: iset<Row>)
    requires mid.fulls == s.fulls && mid.rows == s.rows && Takes(mid, t, j, added)
    ensures Takes(s, t, j, added)
  {}

  lemma CopiedMeans(s: RelState, i: Cols, canonical: Cols)
    ensures var t := Copied(s, i, canonical);
      && t.pending == s.pending && t.news == s.news && t.base == s.base && t.interned == s.interned
      && t.fulls == s.fulls && t.rows == s.rows
      && forall j :: At(t.deltas, j) == if j == i then At(s.deltas, canonical) else At(s.deltas, j)
  {}

  lemma OneIndexUpdates(s: RelState, i: Cols, canonical: Cols, merged: set<Cols>)
    ensures Updated(s, OneIndexState(s, i, canonical, merged), [i], canonical, merged, At(s.deltas, canonical))
  {
    var added := At(s.deltas, canonical);
    var mid, t := Copied(s, i, canonical), OneIndexState(s, i, canonical, merged);
    CopiedMeans(s, i, canonical);
    MergedKeeps(mid, i);
    hide Merged, Copied, Takes, At;
    forall j ensures Takes(s, t, j, Gain(j, [i], canonical, merged, added)) {
      MergedTakes(mid, i, j);
      TakesNothing(mid, j);
      TakesFrom(s, mid, t, j, Gain(j, [i], canonical, merged, added));
    }
  }

  lemma MaintainOne(op: MaintOp, s: RelState, skips: bool)
    requires !op.CheckSize?
    ensures Maintain([op], s, skips) == ExecOn(op, s)
  {
    assert [op][1..] == [];
    assert Maintain([], ExecOn(op, s), skips) == ExecOn(op, s);
  }

  lemma TakesThen(s: RelState, mid: RelState, t: RelState, j: Cols, x: iset<Row>, y: iset<Row>)
    requires Takes(s, mid, j, x) && Takes(mid, t, j, y)
    ensures Takes(s, t, j, x + y)
  {
    assert x + y == iset{} ==> x == iset{} && y == iset{} by {
      if x + y == iset{} { assert forall r :: r in x || r in y ==> r in x + y; }
    }
  }

  lemma UpdatedThen(s: RelState, mid: RelState, t: RelState, init: seq<Cols>, i: Cols, canonical: Cols,
                    merged: set<Cols>, added: iset<Row>)
    requires Updated(s, mid, init, canonical, merged, added) && Updated(mid, t, [i], canonical, merged, added)
    ensures Updated(s, t, init + [i], canonical, merged, added)
  {
    assert forall j :: j in init + [i] <==> j in init || j == i;
    hide Takes;
    forall j ensures Takes(s, t, j, Gain(j, init + [i], canonical, merged, added)) {
      TakesThen(s, mid, t, j, Gain(j, init, canonical, merged, added), Gain(j, [i], canonical, merged, added));
      assert Gain(j, init, canonical, merged, added) + Gain(j, [i], canonical, merged, added) ==
          Gain(j, init + [i], canonical, merged, added);
    }
  }

  lemma {:induction false} IndexOpsMeaning(rel: string, indices: seq<Cols>, canonical: Cols, merged: set<Cols>,
                                           s: RelState, skips: bool)
    ensures Updated(s, Maintain(IndexOps(rel, indices, canonical, merged), s, skips), indices, canonical, merged,
                    At(s.deltas, canonical))
  {
    hide At;
    if |indices| > 0 {
      var init, i := indices[..|indices| - 1], indices[|indices| - 1];
      IndexOpsMeaning(rel, init, canonical, merged, s, skips);
      IndexOpsStep(rel, indices, canonical, merged, s, skips);
      var mid := Maintain(IndexOps(rel, init, canonical, merged), s, skips);
      OneIndexUpdates(mid, i, canonical, merged);
      assert At(mid.deltas, canonical) == At(s.deltas, canonical);
      hide Updated, Maintain, IndexOps, OneIndexState;
      UpdatedThen(s, mid, OneIndexState(mid, i, canonical, merged), init, i, canonical, merged,
                  At(s.deltas, canonical));
      assert indices == init + [i];
    } else {
      forall j ensures Takes(s, s, j, Gain(j, indices, canonical, merged, At(s.deltas, canonical))) {}
    }
  }

  // The last index's operations run on what the others left.
  lemma IndexOpsStep(rel: string, indices: seq<Cols>, canonical: Cols, merged: set<Cols>, s: RelState, skips: bool)
    requires |indices| > 0
    ensures var init, i := indices[..|indices| - 1], indices[|indices| - 1];
      Maintain(IndexOps(rel, indices, canonical, merged), s, skips) ==
          OneIndexState(Maintain(IndexOps(rel, init, canonical, merged), s, skips), i, canonical, merged)
  {
    var init, i := indices[..|indices| - 1], indices[|indices| - 1];
    var before, ops := IndexOps(rel, init, canonical, merged), OneIndexOps(rel, i, canonical, merged);
    assert IndexOps(rel, indices, canonical, merged) == before + ops;
    NoCheckInIndexOps(rel, init, canonical, merged);
    MaintainAppend(before, ops, s);
    hide Maintain, IndexOps, OneIndexOps, OneIndexState;
    OneIndexRuns(rel, i, canonical, merged, Maintain(before, s, skips), skips);
  }

  // Rows of a relation before and after one round of maintenance with the given merged indexes.
  ghost predicate Maintained(s: RelState, t: RelState, indices: seq<Cols>, canonical: Cols, merged: set<Cols>) {
    var added := s.pending - At(s.fulls, canonical);
    && NewIsEmpty(t) && t.base == s.base && t.interned == s.interned
    && forall i :: Takes(s, t, i, Gain(i, indices, canonical, merged, added))
  }

  lemma MaintainedAt(s: RelState, t: RelState, indices: seq<Cols>, canonical: Cols, merged: set<Cols>)
    requires Maintained(s, t, indices, canonical, merged)
    ensures forall i ::
        At(t.fulls, i) == At(s.fulls, i) + if i in indices
                                             && (i == canonical || i in merged) then s.pending - At(s.fulls, canonical)
                                             else iset{}
  {
    hide NewIsEmpty;
    var added := s.pending - At(s.fulls, canonical);
    forall i ensures At(t.fulls, i) == At(s.fulls, i) + if i in indices
        && (i == canonical || i in merged) then added else iset{} {
      assert Takes(s, t, i, Gain(i, indices, canonical, merged, added));
    }
  }

  ghost predicate NewIndexesEmpty(s: RelState) {
    forall i :: i in s.news ==> s.news[i] == iset{}
  }

  lemma Step(op: MaintOp, rest: seq<MaintOp>, s: RelState, skips: bool)
    requires !op.CheckSize?
    ensures Maintain([op] + rest, s, skips) == Maintain(rest, ExecOn(op, s), skips)
  {
    assert ([op] + rest)[1..] == rest;
  }

  lemma StepCheck(rel: string, rest: seq<MaintOp>, s: RelState, skips: bool)
    ensures Maintain([CheckSize(rel)] + rest, s, skips) == if skips
                                                             && NewIsEmpty(s) then s else Maintain(rest, s, skips)
  {
    assert ([CheckSize(rel)] + rest)[1..] == rest;
  }

  // From CheckSize on: nothing when NEW is empty and the check skips, else DELTA, the cleared NEW and the shared tail.
  lemma CheckedRest(rel: string, indices: seq<Cols>, canonical: Cols, merged: set<Cols>, s: RelState, skips: bool)
    ensures var rest :=
        [ComputeDeltaIndex(rel, canonical)] + ([ClearRelation(rel, NEW)] + IndexOps(rel, indices, canonical, merged));
      var t := Maintain([CheckSize(rel)] + rest, s, skips);
      if skips && NewIsEmpty(s) then t == s
      else Updated(ExecOn(ClearRelation(rel, NEW), ExecOn(ComputeDeltaIndex(rel, canonical), s)), t, indices, canonical,
                   merged, At(s.news, canonical) - At(s.fulls, canonical))
  {
    var tail := IndexOps(rel, indices, canonical, merged);
    var c := [ClearRelation(rel, NEW)] + tail;
    StepCheck(rel, [ComputeDeltaIndex(rel, canonical)] + c, s, skips);
    var s3 := ExecOn(ComputeDeltaIndex(rel, canonical), s);
    Step(ComputeDeltaIndex(rel, canonical), c, s, skips);
    Step(ClearRelation(rel, NEW), tail, s3, skips);
    IndexOpsMeaning(rel, indices, canonical, merged, ExecOn(ClearRelation(rel, NEW), s3), skips);
    hide IndexOps, Maintain, Updated;
  }

  // After one round at the end of an iteration, whether or not CheckSize skips: DELTA is what NEW adds to FULL, in
  // every required index; FULL takes it in, in the canonical index and those read; NEW is empty.
  lemma LoopMaintenanceMeaning(rel: string, indices: seq<Cols>, canonical: Cols, fullNeeded: set<Cols>, s: RelState,
                               skips: bool)
    requires NewIndexesEmpty(s) && canonical in indices
    ensures var t := Maintain(LoopMaintenance(rel, indices, canonical, fullNeeded), s, skips);
      && Maintained(s, t, indices, canonical, fullNeeded)
      && forall i :: At(t.deltas, i) == if i in indices then s.pending - At(s.fulls, canonical) else iset{}
  {
    hide Maintain, IndexOps;
    var rest :=
        [ComputeDeltaIndex(rel, canonical)] +
        ([ClearRelation(rel, NEW)] + IndexOps(rel, indices, canonical, fullNeeded));
    assert LoopMaintenance(rel, indices, canonical, fullNeeded) ==
        [RebuildNew(rel, canonical)] + ([ClearRelation(rel, DELTA)] + ([CheckSize(rel)] + rest));
    var s1 := ExecOn(RebuildNew(rel, canonical), s);
    var s2 := ExecOn(ClearRelation(rel, DELTA), s1);
    Step(RebuildNew(rel, canonical), [ClearRelation(rel, DELTA)] + ([CheckSize(rel)] + rest), s, skips);
    Step(ClearRelation(rel, DELTA), [CheckSize(rel)] + rest, s1, skips);
    CheckedRest(rel, indices, canonical, fullNeeded, s2, skips);
    var t := Maintain(LoopMaintenance(rel, indices, canonical, fullNeeded), s, skips);
    hide LoopMaintenance;
    assert s2.news[canonical] == s.pending && s2.fulls == s.fulls && s2.base == s.base && s2.rows == s.rows
        && s2.interned == s.interned;
    assert forall i :: At(s2.deltas, i) == iset{};
    LoopTaken(rel, indices, canonical, fullNeeded, s, s2, t, skips);
  }

  lemma LoopTaken(rel: string, indices: seq<Cols>, canonical: Cols, merged: set<Cols>, s: RelState, s2: RelState,
                  t: RelState, skips: bool)
    requires NewIndexesEmpty(s) && canonical in indices && s2.pending == iset{}
    requires s2.news == s.news[canonical := s.pending]
    requires s2.fulls == s.fulls && s2.base == s.base && s2.rows == s.rows && s2.interned == s.interned
    requires forall i :: At(s2.deltas, i) == iset{}
    requires if skips && NewIsEmpty(s2) then t == s2
             else Updated(ExecOn(ClearRelation(rel, NEW), ExecOn(ComputeDeltaIndex(rel, canonical), s2)), t, indices,
                          canonical, merged, At(s2.news, canonical) - At(s2.fulls, canonical))
    ensures Maintained(s, t, indices, canonical, merged)
    ensures forall i :: At(t.deltas, i) == if i in indices then s.pending - At(s.fulls, canonical) else iset{}
  {
    assert s2.news[canonical] == s.pending;
    var added := s.pending - At(s.fulls, canonical);
    if skips && NewIsEmpty(s2) {
      assert s.pending == iset{} && added == iset{};
    } else {
      var s3 := ExecOn(ComputeDeltaIndex(rel, canonical), s2);
      var s4 := ExecOn(ClearRelation(rel, NEW), s3);
      assert s4.deltas == s3.deltas == Emptied(s2.deltas)[canonical := added];
      assert forall i :: i !in indices ==> At(s4.deltas, i) == At(s2.deltas, i);
    }
  }

  // A non-recursive round does the same to FULL, and merges every required index.
  lemma SimpleMaintenanceMeaning(rel: string, indices: seq<Cols>, canonical: Cols, s: RelState, skips: bool)
    requires NewIndexesEmpty(s) && canonical in indices
    ensures Maintained(s, Maintain(SimpleMaintenance(rel, indices, canonical), s, skips), indices, canonical, set i |
                       i in indices)
  {
    hide NewIndexesEmpty;
    var all := set i | i in indices;
    var rest :=
        [ComputeDeltaIndex(rel, canonical)] + ([ClearRelation(rel, NEW)] + IndexOps(rel, indices, canonical, all));
    assert SimpleMaintenance(rel, indices, canonical) == [RebuildNew(rel, canonical)] + ([CheckSize(rel)] + rest);
    var s1 := ExecOn(RebuildNew(rel, canonical), s);
    Step(RebuildNew(rel, canonical), [CheckSize(rel)] + rest, s, skips);
    CheckedRest(rel, indices, canonical, all, s1, skips);
    hide IndexOps, SimpleMaintenance, Maintain;
    assert s1.news[canonical] == s.pending;
  }

  // ========== Row counts ==========

  // The numbers by which the runtime tells whether an index is up to date, and when they can be trusted.

  // --- Sizes ---

  // The set holds at least as many rows as the count says.
  ghost predicate AtLeast(s: iset<Row>, r: RowCount) {
    r.Rows? ==> exists f: set<Row> :: |f| == r.n && Inside(f, s)
  }

  ghost predicate Inside(f: set<Row>, s: iset<Row>) {
    forall x :: x in f ==> x in s
  }

  lemma SizeIsUnique(s: iset<Row>, f: set<Row>)
    requires Enumerates(f, s)
    ensures SizeOf(s) == Rows(|f|)
  {
    var g: set<Row> :| Enumerates(g, s) && SizeOf(s) == Rows(|g|);
    assert Enumerates(g, s);
    forall r ensures r in f <==> r in g { assert (r in f <==> r in s) && (r in g <==> r in s); }
    assert f == g;
  }

  lemma SizeIsAtLeast(s: iset<Row>)
    ensures AtLeast(s, SizeOf(s))
  {
    if f: set<Row> :| Enumerates(f, s) {
      SizeIsUnique(s, f);
      assert Inside(f, s);
    }
  }

  lemma NoneIsAtLeast(s: iset<Row>)
    ensures AtLeast(s, Rows(0)) && SizeOf(iset{}) == Rows(0)
  {
    var none: set<Row> := {};
    assert Inside(none, s);
    assert Enumerates(none, iset{});
    SizeIsUnique(iset{}, none);
  }

  lemma AtLeastPlus(a: iset<Row>, b: iset<Row>, r: RowCount, q: RowCount)
    requires a !! b && AtLeast(a, r) && AtLeast(b, q)
    ensures AtLeast(a + b, Plus(r, q))
  {
    if r.Rows? && q.Rows? {
      var f: set<Row> :| |f| == r.n && Inside(f, a);
      var g: set<Row> :| |g| == q.n && Inside(g, b);
      assert f !! g;
      assert |f + g| == |f| + |g| && Inside(f + g, a + b);
    }
  }

  // A subset that holds as many rows as a finite set is the whole set.
  lemma AsManyIsAll(part: iset<Row>, all: iset<Row>, r: RowCount)
    requires part <= all && r.Rows? && r == SizeOf(all) && AtLeast(part, r)
    ensures part == all
  {
    var whole: set<Row> :| Enumerates(whole, all);
    SizeIsUnique(all, whole);
    var f: set<Row> :| |f| == r.n && Inside(f, part);
    assert f <= whole;
    SubsetOfSize(f, whole);
    assert forall x :: x in all ==> x in f;
  }

  lemma SubsetOfSize(a: set<Row>, b: set<Row>)
    requires a <= b && |a| == |b|
    ensures a == b
  {
    assert b == a + (b - a);
    assert |b - a| == 0;
  }

  // --- One relation's counts ---

  ghost predicate Bounded(s: RelState) {
    forall i :: AtLeast(At(s.fulls, i), CountAt(s.rows, i))
  }

  // Every index is part of column storage and has not processed more rows than it holds; column storage has no
  // repetition.
  ghost predicate Tight(s: RelState) {
    s.interned == SizeOf(s.base) && Bounded(s) && forall i :: At(s.fulls, i) <= s.base
  }

  // An index that looks up to date is.
  ghost predicate Sound(s: RelState) {
    forall i :: !Dirty(s, i) ==> At(s.fulls, i) == s.base
  }

  // The runtime's test: the index has processed another number of rows than column storage holds.
  ghost predicate Dirty(s: RelState, i: Cols) {
    CountAt(s.rows, i) != s.interned || s.interned.Uncounted?
  }

  lemma TightIsSound(s: RelState)
    requires Tight(s)
    ensures Sound(s)
  {
    hide SizeOf, AtLeast;
    forall i | !Dirty(s, i) ensures At(s.fulls, i) == s.base {
      assert AtLeast(At(s.fulls, i), CountAt(s.rows, i));
      AsManyIsAll(At(s.fulls, i), s.base, s.interned);
    }
  }

  // --- Ensuring indexes ---

  // `create_index_fn` on each of the columns: the ones that look out of date are built from column storage.
  ghost function Ensured(s: RelState, cols: set<Cols>): RelState {
    s.(fulls := map i | i in s.fulls.Keys + cols :: if i in cols && Dirty(s, i) then s.base else At(s.fulls, i),
       rows := map i | i in s.rows.Keys + cols :: if i in cols && Dirty(s, i) then s.interned else CountAt(s.rows, i))
  }

  lemma EnsuredAt(s: RelState, cols: set<Cols>, i: Cols)
    ensures At(Ensured(s, cols).fulls, i) == if i in cols && Dirty(s, i) then s.base else At(s.fulls, i)
    ensures CountAt(Ensured(s, cols).rows, i) == if i in cols && Dirty(s, i) then s.interned else CountAt(s.rows, i)
  {
    hide Dirty;
  }

  lemma EnsuredKeeps(s: RelState, cols: set<Cols>)
    ensures var t := Ensured(s, cols);
      t.pending == s.pending && t.news == s.news && t.base == s.base && t.interned == s.interned && t.deltas == s.deltas
          && t.deltaRows == s.deltaRows
  {}

  // An ensured index is current exactly when it looked out of date or was current already.
  lemma EnsuredIsCurrentIff(s: RelState, cols: set<Cols>, i: Cols)
    requires i in cols
    ensures At(Ensured(s, cols).fulls, i) == s.base <==> Dirty(s, i) || At(s.fulls, i) == s.base
  {
    EnsuredAt(s, cols, i);
  }

  lemma EnsuredKeepsSound(s: RelState, cols: set<Cols>)
    requires Sound(s)
    ensures Sound(Ensured(s, cols)) && forall i :: i in cols ==> At(Ensured(s, cols).fulls, i) == s.base
  {
    var t := Ensured(s, cols);
    EnsuredKeeps(s, cols);
    hide Ensured;
    forall i ensures !Dirty(t, i) ==> At(t.fulls, i) == t.base { EnsuredAt(s, cols, i); }
    forall i | i in cols ensures At(t.fulls, i) == s.base { EnsuredAt(s, cols, i); }
  }

  lemma EnsuredKeepsTight(s: RelState, cols: set<Cols>)
    requires Tight(s)
    ensures Tight(Ensured(s, cols))
  {
    var t := Ensured(s, cols);
    EnsuredKeeps(s, cols);
    SizeIsAtLeast(s.base);
    hide Ensured, AtLeast, SizeOf, Dirty;
    forall i ensures AtLeast(At(t.fulls, i), CountAt(t.rows, i)) && At(t.fulls, i) <= t.base {
      EnsuredAt(s, cols, i);
      assert AtLeast(At(s.fulls, i), CountAt(s.rows, i)) && At(s.fulls, i) <= s.base;
    }
  }

  // --- Maintenance keeps the counts below the rows ---

  // Every index is part of the canonical one.
  ghost predicate Below(s: RelState, canonical: Cols) {
    Bounded(s) && forall i :: At(s.fulls, i) <= At(s.fulls, canonical)
  }

  lemma MergedCount(s: RelState, i: Cols)
    requires AtLeast(At(s.fulls, i), CountAt(s.rows, i)) && AtLeast(At(s.deltas, i), CountAt(s.deltaRows, i))
    requires At(s.deltas, i) !! At(s.fulls, i)
    ensures AtLeast(At(Merged(s, i).fulls, i), CountAt(Merged(s, i).rows, i))
    ensures forall j ::
        j != i ==> At(Merged(s, i).fulls, j) == At(s.fulls, j) && CountAt(Merged(s, i).rows, j) == CountAt(s.rows, j)
  {
    var full, delta := At(s.fulls, i), At(s.deltas, i);
    NoneIsAtLeast(full);
    hide AtLeast, Plus;
    AtLeastPlus(full, delta, if full == iset{} then Rows(0) else CountAt(s.rows, i), CountAt(s.deltaRows, i));
  }

  // The rows in the canonical DELTA are counted there, and new to every index in the list.
  ghost predicate FreshDelta(s: RelState, indices: seq<Cols>, canonical: Cols) {
    && AtLeast(At(s.deltas, canonical), CountAt(s.deltaRows, canonical))
    && forall i :: i in indices ==> At(s.deltas, canonical) !! At(s.fulls, i)
  }

  lemma CopiedCount(s: RelState, i: Cols, canonical: Cols)
    requires AtLeast(At(s.deltas, canonical), CountAt(s.deltaRows, canonical))
    ensures var mid := Copied(s, i, canonical);
      && At(mid.deltas, i) == At(s.deltas, canonical) && AtLeast(At(mid.deltas, i), CountAt(mid.deltaRows, i))
      && At(mid.deltas, canonical) == At(s.deltas, canonical)
      && CountAt(mid.deltaRows, canonical) == CountAt(s.deltaRows, canonical)
  {
    NoneIsAtLeast(At(s.deltas, canonical));
    hide AtLeast;
  }

  lemma BoundedAt(s: RelState, i: Cols)
    requires Bounded(s)
    ensures AtLeast(At(s.fulls, i), CountAt(s.rows, i))
  {}

  lemma FreshAt(s: RelState, i: Cols, canonical: Cols)
    requires FreshDelta(s, [i], canonical)
    ensures AtLeast(At(s.deltas, canonical), CountAt(s.deltaRows, canonical))
    ensures At(s.deltas, canonical) !! At(s.fulls, i)
  {
    assert i in [i];
    hide AtLeast;
  }

  // One index changed, and no count exceeds it.
  ghost predicate OneBounded(s: RelState, t: RelState, i: Cols) {
    && AtLeast(At(t.fulls, i), CountAt(t.rows, i))
    && forall j :: j != i ==> At(t.fulls, j) == At(s.fulls, j) && CountAt(t.rows, j) == CountAt(s.rows, j)
  }

  lemma OneKeepsBounded(s: RelState, t: RelState, i: Cols)
    requires Bounded(s) && OneBounded(s, t, i)
    ensures Bounded(t) && forall j :: j != i ==> At(t.fulls, j) == At(s.fulls, j)
  {
    hide AtLeast;
    forall j ensures AtLeast(At(t.fulls, j), CountAt(t.rows, j)) { BoundedAt(s, j); }
  }

  lemma OneIndexBounded(s: RelState, i: Cols, canonical: Cols, merged: set<Cols>)
    requires Bounded(s) && FreshDelta(s, [i], canonical)
    ensures var t := OneIndexState(s, i, canonical, merged);
      && Bounded(t) && At(t.deltas, canonical) == At(s.deltas, canonical)
      && CountAt(t.deltaRows, canonical) == CountAt(s.deltaRows, canonical)
      && forall j :: j != i ==> At(t.fulls, j) == At(s.fulls, j)
  {
    var mid, t := Copied(s, i, canonical), OneIndexState(s, i, canonical, merged);
    hide Merged, Copied, AtLeast, Bounded, FreshDelta;
    BoundedAt(s, i);
    FreshAt(s, i, canonical);
    CopiedMeans(s, i, canonical);
    CopiedCount(s, i, canonical);
    MergedKeeps(mid, i);
    MergedCount(mid, i);
    assert OneBounded(s, t, i);
    OneKeepsBounded(s, t, i);
  }

  lemma {:induction false} IndexOpsBounded(rel: string, indices: seq<Cols>, canonical: Cols, merged: set<Cols>,
                                           s: RelState, skips: bool)
    requires Bounded(s) && FreshDelta(s, indices, canonical) && NoDup(indices)
    ensures var t := Maintain(IndexOps(rel, indices, canonical, merged), s, skips);
      && Bounded(t) && At(t.deltas, canonical) == At(s.deltas, canonical)
      && CountAt(t.deltaRows, canonical) == CountAt(s.deltaRows, canonical)
      && forall j :: j !in indices ==> At(t.fulls, j) == At(s.fulls, j)
  {
    if |indices| > 0 {
      var init, i := indices[..|indices| - 1], indices[|indices| - 1];
      assert indices == init + [i] && i !in init;
      IndexOpsStep(rel, indices, canonical, merged, s, skips);
      hide Maintain, IndexOps, OneIndexState, Bounded;
      IndexOpsBounded(rel, init, canonical, merged, s, skips);
      OneIndexBounded(Maintain(IndexOps(rel, init, canonical, merged), s, skips), i, canonical, merged);
    }
  }

  // NEW indexed, the difference taken, NEW cleared: what is added is in no FULL index.
  lemma DifferenceIsFresh(s: RelState, indices: seq<Cols>, canonical: Cols, rel: string)
    requires Below(s, canonical)
    ensures var t := ExecOn(ClearRelation(rel, NEW), ExecOn(ComputeDeltaIndex(rel, canonical), s));
      Bounded(t) && FreshDelta(t, indices, canonical) && t.fulls == s.fulls && t.rows == s.rows
  {
    var t := ExecOn(ClearRelation(rel, NEW), ExecOn(ComputeDeltaIndex(rel, canonical), s));
    var added := At(s.news, canonical) - At(s.fulls, canonical);
    assert At(t.deltas, canonical) == added;
    NoneIsAtLeast(added);
    SizeIsAtLeast(added);
    hide AtLeast, SizeOf;
  }

  lemma CheckedBounded(rel: string, indices: seq<Cols>, canonical: Cols, merged: set<Cols>, s: RelState, skips: bool)
    requires Below(s, canonical) && NoDup(indices)
    ensures var rest :=
        [ComputeDeltaIndex(rel, canonical)] + ([ClearRelation(rel, NEW)] + IndexOps(rel, indices, canonical, merged));
      Bounded(Maintain([CheckSize(rel)] + rest, s, skips))
  {
    hide *;
    var tail := IndexOps(rel, indices, canonical, merged);
    var c := [ClearRelation(rel, NEW)] + tail;
    StepCheck(rel, [ComputeDeltaIndex(rel, canonical)] + c, s, skips);
    var s3 := ExecOn(ComputeDeltaIndex(rel, canonical), s);
    Step(ComputeDeltaIndex(rel, canonical), c, s, skips);
    Step(ClearRelation(rel, NEW), tail, s3, skips);
    DifferenceIsFresh(s, indices, canonical, rel);
    assert Bounded(s) by { BelowIsBounded(s, canonical); }
    if !(skips && NewIsEmpty(s)) {
      IndexOpsBounded(rel, indices, canonical, merged, ExecOn(ClearRelation(rel, NEW), s3), skips);
    }
  }

  lemma BelowIsBounded(s: RelState, canonical: Cols)
    requires Below(s, canonical)
    ensures Bounded(s)
  {}

  // Either kind of maintenance keeps every index below the canonical one and every count below its index.
  lemma LoopKeepsBelow(rel: string, indices: seq<Cols>, canonical: Cols, needed: set<Cols>, s: RelState, skips: bool)
    requires NewIndexesEmpty(s) && canonical in indices && NoDup(indices) && Below(s, canonical)
    ensures Below(Maintain(LoopMaintenance(rel, indices, canonical, needed), s, skips), canonical)
  {
    var rest :=
        [ComputeDeltaIndex(rel, canonical)] + ([ClearRelation(rel, NEW)] + IndexOps(rel, indices, canonical, needed));
    assert LoopMaintenance(rel, indices, canonical, needed) ==
        [RebuildNew(rel, canonical)] + ([ClearRelation(rel, DELTA)] + ([CheckSize(rel)] + rest));
    var s1 := ExecOn(RebuildNew(rel, canonical), s);
    var s2 := ExecOn(ClearRelation(rel, DELTA), s1);
    Step(RebuildNew(rel, canonical), [ClearRelation(rel, DELTA)] + ([CheckSize(rel)] + rest), s, skips);
    Step(ClearRelation(rel, DELTA), [CheckSize(rel)] + rest, s1, skips);
    assert Below(s2, canonical);
    LoopMaintenanceMeaning(rel, indices, canonical, needed, s, skips);
    hide Maintain, IndexOps, LoopMaintenance, ExecOn, Bounded;
    CheckedBounded(rel, indices, canonical, needed, s2, skips);
    StaysBelow(s, Maintain(LoopMaintenance(rel, indices, canonical, needed), s, skips), indices, canonical, needed);
  }

  lemma SimpleKeepsBelow(rel: string, indices: seq<Cols>, canonical: Cols, s: RelState, skips: bool)
    requires NewIndexesEmpty(s) && canonical in indices && NoDup(indices) && Below(s, canonical)
    ensures Below(Maintain(SimpleMaintenance(rel, indices, canonical), s, skips), canonical)
  {
    hide Maintained, NoDup, NewIndexesEmpty;
    var all := set i | i in indices;
    var rest :=
        [ComputeDeltaIndex(rel, canonical)] + ([ClearRelation(rel, NEW)] + IndexOps(rel, indices, canonical, all));
    assert SimpleMaintenance(rel, indices, canonical) == [RebuildNew(rel, canonical)] + ([CheckSize(rel)] + rest);
    var s1 := ExecOn(RebuildNew(rel, canonical), s);
    Step(RebuildNew(rel, canonical), [CheckSize(rel)] + rest, s, skips);
    assert Below(s1, canonical);
    SimpleMaintenanceMeaning(rel, indices, canonical, s, skips);
    hide Maintain, IndexOps, SimpleMaintenance, ExecOn, Bounded;
    CheckedBounded(rel, indices, canonical, all, s1, skips);
    StaysBelow(s, Maintain(SimpleMaintenance(rel, indices, canonical), s, skips), indices, canonical, all);
  }

  lemma StaysBelow(s: RelState, t: RelState, indices: seq<Cols>, canonical: Cols, merged: set<Cols>)
    requires Below(s, canonical) && Bounded(t) && Maintained(s, t, indices, canonical, merged) && canonical in indices
    ensures Below(t, canonical)
  {
    hide Bounded;
    forall i ensures At(t.fulls, i) <= At(t.fulls, canonical) {
      assert At(s.fulls, i) <= At(s.fulls, canonical);
      var added := s.pending - At(s.fulls, canonical);
      assert Takes(s, t, i, Gain(i, indices, canonical, merged, added))
          && Takes(s, t, canonical, Gain(canonical, indices, canonical, merged, added));
    }
  }
}
