/** Lattice-valued relations: the two joins, the keyed merge of NEW into FULL, and the loop on changed values. */
module Lattice {
  import opened Datalog
  import opened Seqs
  import opened Dependencies
  import opened StableModel
  import opened SemiNaive

  // ========== Lattice ==========

  // Lattice-valued relations: the two joins, the specification of a functional relation, and the keyed merge.

  // PLAIN is a relation without a value: all columns are the key.
  datatype JoinKind = PLAIN | INTERVAL | MAX_LOWER

  // [] for PLAIN, [lower, upper] for INTERVAL, [rank, lower, upper] for MAX_LOWER.
  type Val = seq<int>

  function Width(kind: JoinKind): nat {
    match kind
    case PLAIN => 0
    case INTERVAL => 2
    case MAX_LOWER => 3
  }

  predicate IsVal(kind: JoinKind, v: Val) {
    |v| == Width(kind)
  }

  function Max(a: int, b: int): int {
    if a > b then a else b
  }

  function Min(a: int, b: int): int {
    if a < b then a else b
  }

  // b has the greater lower bound, or the same one and the smaller rank.
  predicate Beats(b: Val, a: Val)
    requires |a| == |b| == 3
  {
    b[1] > a[1] || (b[1] == a[1] && b[0] < a[0])
  }

  function Join(kind: JoinKind, a: Val, b: Val): Val
    requires IsVal(kind, a) && IsVal(kind, b)
  {
    match kind
    case PLAIN => a
    case INTERVAL => [Max(a[0], b[0]), Min(a[1], b[1])]
    case MAX_LOWER => if Beats(b, a) then b else a
  }

  // --- The semilattice laws ---

  lemma JoinAssociative(kind: JoinKind, a: Val, b: Val, c: Val)
    requires IsVal(kind, a) && IsVal(kind, b) && IsVal(kind, c)
    ensures Join(kind, Join(kind, a, b), c) == Join(kind, a, Join(kind, b, c))
    ensures Join(kind, a, a) == a
  {
    if kind == INTERVAL { assert a == [a[0], a[1]]; }
  }

  // Interval intersection commutes; witness selection does exactly when lower bound and rank identify the payload.
  lemma JoinCommutesIff(kind: JoinKind, a: Val, b: Val)
    requires IsVal(kind, a) && IsVal(kind, b)
    ensures Join(kind, a, b) == Join(kind, b, a)
        <==> (kind == MAX_LOWER && a[0] == b[0] && a[1] == b[1] ==> a[2] == b[2])
  {
    if kind == PLAIN { assert a == [] && b == []; }
    if kind == MAX_LOWER { assert a == [a[0], a[1], a[2]] && b == [b[0], b[1], b[2]]; }
  }

  // Adding v to a leaves a as it is.
  predicate Absorbs(kind: JoinKind, a: Val, v: Val)
    requires IsVal(kind, a) && IsVal(kind, v)
  {
    Join(kind, a, v) == a
  }

  lemma AbsorbsTransitive(kind: JoinKind, a: Val, b: Val, c: Val)
    requires IsVal(kind, a) && IsVal(kind, b) && IsVal(kind, c) && Absorbs(kind, a, b) && Absorbs(kind, b, c)
    ensures Absorbs(kind, a, c)
  {
    if kind == INTERVAL { assert a == [a[0], a[1]] && b == [b[0], b[1]]; }
    if kind == MAX_LOWER { assert Beats(b, a) ==> b == a; assert Beats(c, b) ==> c == b; }
  }

  lemma JoinAbsorbs(kind: JoinKind, a: Val, b: Val)
    requires IsVal(kind, a) && IsVal(kind, b)
    ensures IsVal(kind, Join(kind, a, b)) && Absorbs(kind, Join(kind, a, b), a) && Absorbs(kind, Join(kind, a, b), b)
  {
    if kind == PLAIN { assert a == [] && b == []; }
  }

  // --- Joining a list of candidates ---

  // reduce_by_key: a left fold over the candidates of one key.
  function Fold(kind: JoinKind, first: Val, vs: seq<Val>): (r: Val)
    requires IsVal(kind, first) && forall v :: v in vs ==> IsVal(kind, v)
    ensures IsVal(kind, r)
  {
    if |vs| == 0 then first else Join(kind, Fold(kind, first, vs[..|vs| - 1]), vs[|vs| - 1])
  }

  // The same rank and lower bound mean the same payload.
  ghost predicate Functional(kind: JoinKind, vs: iset<Val>) {
    (forall v :: v in vs ==> IsVal(kind, v)) &&
    (kind == MAX_LOWER ==> forall v, w :: v in vs && w in vs && v[0] == w[0] && v[1] == w[1] ==> v == w)
  }

  // r is the join of the values: the greatest lower and least upper bound attained, or the selected witness itself.
  ghost predicate IsJoin(kind: JoinKind, vs: iset<Val>, r: Val) {
    && IsVal(kind, r) && (forall v :: v in vs ==> IsVal(kind, v))
    && match kind
       case PLAIN => vs != iset{}
       case INTERVAL => && (exists v :: v in vs && v[0] == r[0]) && (exists v :: v in vs && v[1] == r[1])
                        && forall v :: v in vs ==> v[0] <= r[0] && r[1] <= v[1]
       case MAX_LOWER => r in vs && forall v :: v in vs ==> !Beats(v, r)
  }

  lemma IsJoinUnique(kind: JoinKind, vs: iset<Val>, r: Val, s: Val)
    requires Functional(kind, vs) && IsJoin(kind, vs, r) && IsJoin(kind, vs, s)
    ensures r == s
  {
    if kind == INTERVAL { assert r == [r[0], r[1]] && s == [s[0], s[1]]; }
  }

  lemma IsJoinAdd(kind: JoinKind, vs: iset<Val>, r: Val, v: Val)
    requires IsJoin(kind, vs, r) && IsVal(kind, v)
    ensures IsJoin(kind, vs + iset{v}, Join(kind, r, v))
  {
    var more, t := vs + iset{v}, Join(kind, r, v);
    if kind == INTERVAL {
      var x :| x in vs && x[0] == r[0];
      var y :| y in vs && y[1] == r[1];
      assert exists w :: w in more && w[0] == t[0] by { assert x in more && v in more; }
      assert exists w :: w in more && w[1] == t[1] by { assert y in more && v in more; }
    }
  }

  ghost function Candidates(first: Val, vs: seq<Val>): iset<Val> {
    iset v | v == first || v in vs
  }

  lemma {:induction false} FoldIsJoin(kind: JoinKind, first: Val, vs: seq<Val>)
    requires IsVal(kind, first) && forall v :: v in vs ==> IsVal(kind, v)
    ensures IsJoin(kind, Candidates(first, vs), Fold(kind, first, vs))
  {
    hide IsVal, Join;
    if |vs| == 0 {
      assert first in Candidates(first, vs);
    } else {
      var init, last := vs[..|vs| - 1], vs[|vs| - 1];
      FoldIsJoin(kind, first, init);
      IsJoinAdd(kind, Candidates(first, init), Fold(kind, first, init), last);
      assert Candidates(first, vs) == Candidates(first, init) + iset{last};
    }
  }

  // The order and repetition of the candidates do not matter.
  lemma FoldIsOrderFree(kind: JoinKind, a: Val, vs: seq<Val>, b: Val, ws: seq<Val>)
    requires (forall v :: v in vs ==> IsVal(kind, v)) && (forall w :: w in ws ==> IsVal(kind, w)) && IsVal(kind, a)
    requires IsVal(kind, b)
    requires Candidates(a, vs) == Candidates(b, ws) && Functional(kind, Candidates(a, vs))
    ensures Fold(kind, a, vs) == Fold(kind, b, ws)
  {
    FoldIsJoin(kind, a, vs);
    FoldIsJoin(kind, b, ws);
    IsJoinUnique(kind, Candidates(a, vs), Fold(kind, a, vs), Fold(kind, b, ws));
  }

  // Without that, order matters: two witnesses with one rank and lower bound but different upper bounds.
  lemma FoldOrderMatters(rank: int, lower: int, upper: int, other: int)
    ensures var a: Val, b: Val := [rank, lower, upper], [rank, lower, other];
      Fold(MAX_LOWER, a, [b]) == Fold(MAX_LOWER, b, [a]) <==> upper == other
  {
    var a: Val, b: Val := [rank, lower, upper], [rank, lower, other];
    var none: seq<Val> := [];
    assert [b][..0] == none && [a][..0] == none;
    assert Fold(MAX_LOWER, a, [b]) == Join(MAX_LOWER, Fold(MAX_LOWER, a, none), b);
    assert Fold(MAX_LOWER, b, [a]) == Join(MAX_LOWER, Fold(MAX_LOWER, b, none), a);
    assert a[2] == upper && b[2] == other;
  }

  // --- Declarations ---

  datatype Spec = Spec(kind: JoinKind, keyCols: seq<nat>, valCols: seq<nat>)

  datatype SpecError = EmptyKey | EmptyValue | RepeatedColumn | NotAPartition | WrongWidth

  datatype Checked = Valid | Invalid(error: SpecError)

  function Validate(spec: Spec, arity: nat): Checked {
    var columns: seq<nat> := spec.keyCols + spec.valCols;
    var distinct: set<nat> := Elems(columns);
    if |spec.keyCols| == 0 then Invalid(EmptyKey)
    else if |spec.valCols| == 0 then Invalid(EmptyValue)
    else if |distinct| != |columns| then Invalid(RepeatedColumn)
    else if distinct != Range(arity) then Invalid(NotAPartition)
    else if spec.kind == INTERVAL && |spec.valCols| != 2 then Invalid(WrongWidth)
    else if spec.kind == MAX_LOWER && |spec.valCols| != 3 then Invalid(WrongWidth)
    else Valid
  }

  lemma {:induction false} DistinctIsNoDup(s: seq<nat>)
    ensures |Elems(s)| == |s| <==> NoDup(s)
    ensures |Elems(s)| <= |s|
  {
    if |s| > 0 {
      var init: seq<nat>, last: nat := s[..|s| - 1], s[|s| - 1];
      DistinctIsNoDup(init);
      assert Elems(s) == Elems(init) + {last};
      if last in init {
        var i :| 0 <= i < |init| && init[i] == last;
        assert s[i] == s[|s| - 1];
        assert Elems(s) == Elems(init);
      } else {
        assert last !in Elems(init);
        if NoDup(s) {
          assert forall i, j :: 0 <= i < j < |init| ==> s[i] != s[j];
        }
      }
    }
  }

  // A declaration is accepted exactly when its key and value columns, neither empty, are a permutation of the
  // relation's columns and the value has the join's width.
  lemma ValidIff(spec: Spec, arity: nat)
    requires spec.kind != PLAIN
    ensures Validate(spec, arity) == Valid <==>
      && |spec.keyCols| > 0 && IsPermutation(spec.keyCols + spec.valCols, arity) && |spec.valCols| == Width(spec.kind)
  {
    var columns: seq<nat> := spec.keyCols + spec.valCols;
    DistinctIsNoDup(columns);
    var distinct: set<nat> := Elems(columns);
    if distinct == Range(arity) {
      assert |distinct| == arity;
      forall c ensures c in columns <==> 0 <= c < arity { assert c in columns <==> c in distinct; }
    }
    if IsPermutation(columns, arity) {
      assert distinct == Range(arity);
    }
  }

  // What each function says about a row of arity columns.
  function Project(row: Row, cols: seq<nat>): seq<int> {
    seq(|cols|, k requires 0 <= k < |cols| => if cols[k] < |row| then row[cols[k]] else 0)
  }

  // ========== Lattice merge ==========

  // `LatticeMergeDelta`: one relation's keyed merge of NEW into FULL, with the new or changed keys as DELTA.

  type Key = seq<int>

  datatype Candidate = Candidate(key: Key, value: Val)

  predicate AllVals(kind: JoinKind, cands: seq<Candidate>) {
    forall c :: c in cands ==> IsVal(kind, c.value)
  }

  predicate Stores(kind: JoinKind, m: map<Key, Val>) {
    forall k :: k in m ==> IsVal(kind, m[k])
  }

  function KeysOf(cands: seq<Candidate>): set<Key> {
    set c | c in cands :: c.key
  }

  function MergeOne(kind: JoinKind, m: map<Key, Val>, c: Candidate): (r: map<Key, Val>)
    requires IsVal(kind, c.value) && Stores(kind, m)
    ensures Stores(kind, r) && r.Keys == m.Keys + {c.key}
  {
    m[c.key := if c.key in m then Join(kind, m[c.key], c.value) else c.value]
  }

  // The values joined per key, one candidate at a time, starting from m.
  function Absorb(kind: JoinKind, m: map<Key, Val>, cands: seq<Candidate>): (r: map<Key, Val>)
    requires AllVals(kind, cands) && Stores(kind, m)
    ensures Stores(kind, r) && r.Keys == m.Keys + KeysOf(cands)
  {
    if |cands| == 0 then m else
      var init, c := cands[..|cands| - 1], cands[|cands| - 1];
      assert cands == init + [c];
      MergeOne(kind, Absorb(kind, m, init), c)
  }

  // Each group's join: NEW reduced by key.
  function Reduced(kind: JoinKind, cands: seq<Candidate>): (r: map<Key, Val>)
    requires AllVals(kind, cands)
    ensures Stores(kind, r)
  {
    Absorb(kind, map[], cands)
  }

  function Merged(kind: JoinKind, reduced: map<Key, Val>, full: map<Key, Val>, k: Key): (r: Val)
    requires Stores(kind, reduced) && Stores(kind, full) && k in reduced
    ensures IsVal(kind, r)
  {
    if k in full then Join(kind, full[k], reduced[k]) else reduced[k]
  }

  function NewFull(kind: JoinKind, cands: seq<Candidate>, full: map<Key, Val>): (r: map<Key, Val>)
    requires AllVals(kind, cands) && Stores(kind, full)
    ensures Stores(kind, r)
  {
    var reduced := Reduced(kind, cands);
    map k | k in full.Keys + reduced.Keys :: if k in reduced then Merged(kind, reduced, full, k) else full[k]
  }

  function NewDelta(kind: JoinKind, cands: seq<Candidate>, full: map<Key, Val>): (r: map<Key, Val>)
    requires AllVals(kind, cands) && Stores(kind, full)
  {
    var reduced := Reduced(kind, cands);
    map k | k in reduced && (k !in full || Merged(kind, reduced, full, k) != full[k]) :: Merged(kind, reduced, full, k)
  }

  // One lattice-valued relation as stored.
  class LatticeRelation {
    const kind: JoinKind
    var pending: seq<Candidate>
    var full: map<Key, Val>
    var delta: map<Key, Val>

    ghost predicate Valid()
      reads this
    {
      AllVals(kind, pending) && Stores(kind, full)
    }

    constructor (kind: JoinKind)
      ensures Valid() && this.kind == kind && pending == [] && full == map[] && delta == map[]
    {
      this.kind := kind;
      pending := [];
      full := map[];
      delta := map[];
    }

    method Insert(key: Key, value: Val)
      requires Valid() && IsVal(kind, value)
      modifies `pending
      ensures Valid() && pending == old(pending) + [Candidate(key, value)]
    {
      pending := pending + [Candidate(key, value)];
    }

    // Groups the candidates by key and joins each group.
    method ReduceByKey() returns (reduced: map<Key, Val>)
      requires Valid()
      ensures reduced == Reduced(kind, pending)
    {
      reduced := map[];
      for i := 0 to |pending|
        invariant AllVals(kind, pending[..i]) && reduced == Absorb(kind, map[], pending[..i])
      {
        var c := pending[i];
        assert pending[..i + 1][..i] == pending[..i];
        assert c in pending;
        reduced := reduced[c.key := if c.key in reduced then Join(kind, reduced[c.key], c.value) else c.value];
      }
      assert pending[..|pending|] == pending;
    }

    // Joins one reduced value into FULL; a new or changed value goes to DELTA whole.
    method Probe(k: Key, value: Val)
      requires IsVal(kind, value) && Stores(kind, full)
      modifies `full, `delta
      ensures var joined := if k in old(full) then Join(kind, old(full)[k], value) else value;
        && full == old(full)[k := joined]
        && delta == if k in old(full) && joined == old(full)[k] then old(delta) else old(delta)[k := joined]
    {
      if k in full {
        var joined := Join(kind, full[k], value);
        if joined != full[k] {
          full := full[k := joined];
          delta := delta[k := joined];
        } else {
          assert full[k := joined] == full;
        }
      } else {
        full := full[k := value];
        delta := delta[k := value];
      }
    }

    // DELTA is replaced, FULL updated, NEW cleared.
    method MergeDelta()
      requires Valid()
      modifies this
      ensures Valid() && pending == []
      ensures full == NewFull(kind, old(pending), old(full))
      ensures delta == NewDelta(kind, old(pending), old(full))
    {
      var reduced := ReduceByKey();
      hide Absorb, Join, Probed, Reduced, Stores, AllVals, IsVal;
      ghost var full0 := full;
      delta := map[];
      var todo := reduced.Keys;
      ProbedNone(kind, reduced, full);
      while todo != {}
        invariant pending == old(pending) && todo <= reduced.Keys && Stores(kind, reduced) && Stores(kind, full0)
        invariant Stores(kind, full)
        invariant Probed(kind, reduced, full0, todo, full, delta)
        decreases todo
      {
        var k :| k in todo;
        ProbeKnown(kind, reduced, full0, todo, full, delta, k);
        ProbeStep(kind, reduced, full0, todo, full, delta, k);
        todo := todo - {k};
        Probe(k, reduced[k]);
      }
      ProbedAll(kind, reduced, full0, full, delta);
      pending := [];
      NoCandidates(kind);
    }
  }

  // After probing every reduced key but those still to do.
  ghost predicate Probed(kind: JoinKind, reduced: map<Key, Val>, full0: map<Key, Val>, todo: set<Key>, full: map<Key,
                         Val>, delta: map<Key, Val>)
    requires Stores(kind, reduced) && Stores(kind, full0)
  {
    && full.Keys == full0.Keys + (reduced.Keys - todo)
    && (forall k ::
        k in full ==> full[k] == if k in reduced && k !in todo then Merged(kind, reduced, full0, k) else full0[k])
    && (forall k :: k in delta
          <==> k in reduced && k !in todo && (k !in full0 || Merged(kind, reduced, full0, k) != full0[k]))
    && forall k :: k in delta ==> delta[k] == Merged(kind, reduced, full0, k)
  }

  lemma ProbedNone(kind: JoinKind, reduced: map<Key, Val>, full: map<Key, Val>)
    requires Stores(kind, reduced) && Stores(kind, full)
    ensures Probed(kind, reduced, full, reduced.Keys, full, map[])
  {
    hide Merged;
  }

  lemma ProbeKnown(kind: JoinKind, reduced: map<Key, Val>, full0: map<Key, Val>, todo: set<Key>, full: map<Key, Val>,
                   delta: map<Key, Val>, k: Key)
    requires Stores(kind, reduced) && Stores(kind, full0) && Probed(kind, reduced, full0, todo, full, delta)
    requires k in todo && todo <= reduced.Keys
    ensures k in full <==> k in full0
    ensures k in full ==> full[k] == full0[k]
    ensures IsVal(kind, reduced[k])
  {
    hide Merged;
  }

  lemma NoCandidates(kind: JoinKind)
    ensures AllVals(kind, [])
  {}

  lemma ProbeStep(kind: JoinKind, reduced: map<Key, Val>, full0: map<Key, Val>, todo: set<Key>, full: map<Key, Val>,
                  delta: map<Key, Val>, k: Key)
    requires Stores(kind, reduced) && Stores(kind, full0) && Probed(kind, reduced, full0, todo, full, delta)
    requires k in todo && todo <= reduced.Keys
    ensures var joined := Merged(kind, reduced, full0, k);
      Probed(kind, reduced, full0, todo - {k}, full[k := joined], if k in full0
                                                                    && joined == full0[k] then delta
                                                                    else delta[k := joined])
    ensures Stores(kind, full) ==> Stores(kind, full[k := Merged(kind, reduced, full0, k)])
  {
    hide Merged;
  }

  lemma ProbedAll(kind: JoinKind, reduced: map<Key, Val>, full0: map<Key, Val>, full: map<Key, Val>, delta: map<Key,
                  Val>)
    requires Stores(kind, reduced) && Stores(kind, full0) && Probed(kind, reduced, full0, {}, full, delta)
    ensures full == map k | k in full0.Keys + reduced.Keys ::
        if k in reduced then Merged(kind, reduced, full0, k) else full0[k]
    ensures delta == map k | k in reduced && (k !in full0 || Merged(kind, reduced, full0, k) != full0[k]) ::
        Merged(kind, reduced, full0, k)
  {
    hide Stores;
    hide Merged;
  }

  // --- What the merge means ---

  ghost function Own(cands: seq<Candidate>, k: Key): iset<Val> {
    iset v: Val | Candidate(k, v) in cands
  }

  ghost function Old(full: map<Key, Val>, k: Key): iset<Val> {
    if k in full then iset{full[k]} else iset{}
  }

  lemma MergeOneIsJoin(kind: JoinKind, m: map<Key, Val>, c: Candidate, own: iset<Val>, k: Key)
    requires IsVal(kind, c.value) && Stores(kind, m)
    requires if k in m then IsJoin(kind, own, m[k]) else own == iset{}
    requires k in m || k == c.key
    ensures IsJoin(kind, own + if c.key == k then iset{c.value} else iset{}, MergeOne(kind, m, c)[k])
  {
    if c.key != k {
      assert own + iset{} == own;
    } else if k in m {
      IsJoinAdd(kind, own, m[k], c.value);
    } else {
      assert own + iset{c.value} == iset{c.value};
    }
  }

  // Absorbing candidates joins them with what was there.
  lemma {:induction false} AbsorbIsJoin(kind: JoinKind, m: map<Key, Val>, cands: seq<Candidate>, k: Key)
    requires AllVals(kind, cands) && Stores(kind, m) && (k in m || k in KeysOf(cands))
    ensures IsJoin(kind, Own(cands, k) + Old(m, k), Absorb(kind, m, cands)[k])
  {
    hide IsJoin, MergeOne;
    if |cands| == 0 {
      assert Own(cands, k) + Old(m, k) == iset{m[k]};
      SingleIsJoin(kind, m[k]);
    } else {
      var init, c := cands[..|cands| - 1], cands[|cands| - 1];
      assert cands == init + [c];
      var own := Own(init, k) + Old(m, k);
      assert Own(cands, k) + Old(m, k) == own + if c.key == k then iset{c.value} else iset{} by { OwnLast(init, c, k); }
      if k in m || k in KeysOf(init) {
        AbsorbIsJoin(kind, m, init, k);
      } else {
        NoOwn(init, k);
      }
      MergeOneIsJoin(kind, Absorb(kind, m, init), c, own, k);
    }
  }

  lemma SingleIsJoin(kind: JoinKind, v: Val)
    requires IsVal(kind, v)
    ensures IsJoin(kind, iset{v}, v)
  {}

  lemma OwnLast(init: seq<Candidate>, c: Candidate, k: Key)
    ensures Own(init + [c], k) == Own(init, k) + if c.key == k then iset{c.value} else iset{}
  {}

  lemma NoOwn(cands: seq<Candidate>, k: Key)
    requires k !in KeysOf(cands)
    ensures Own(cands, k) == iset{}
  {
    forall v ensures Candidate(k, v) !in cands { assert Candidate(k, v).key == k; }
  }

  // Reduced NEW joined into FULL.
  function JoinInto(kind: JoinKind, full: map<Key, Val>, reduced: map<Key, Val>): (r: map<Key, Val>)
    requires Stores(kind, reduced) && Stores(kind, full)
  {
    map k | k in full.Keys + reduced.Keys :: if k in reduced then Merged(kind, reduced, full, k) else full[k]
  }

  lemma JoinIntoOne(kind: JoinKind, full: map<Key, Val>, reduced: map<Key, Val>, c: Candidate)
    requires Stores(kind, reduced) && Stores(kind, full) && IsVal(kind, c.value)
    requires Stores(kind, JoinInto(kind, full, reduced))
    ensures JoinInto(kind, full, MergeOne(kind, reduced, c)) == MergeOne(kind, JoinInto(kind, full, reduced), c)
  {
    if c.key in reduced && c.key in full {
      JoinAssociative(kind, full[c.key], reduced[c.key], c.value);
    }
    hide Join;
  }

  // Reducing NEW first and joining the result into FULL is absorbing the candidates into FULL one by one.
  lemma {:induction false} NewFullIsAbsorb(kind: JoinKind, cands: seq<Candidate>, full: map<Key, Val>)
    requires AllVals(kind, cands) && Stores(kind, full)
    ensures NewFull(kind, cands, full) == Absorb(kind, full, cands)
  {
    hide MergeOne, Merged;
    if |cands| > 0 {
      var init, c := cands[..|cands| - 1], cands[|cands| - 1];
      assert cands == init + [c];
      NewFullIsAbsorb(kind, init, full);
      JoinIntoOne(kind, full, Reduced(kind, init), c);
    }
  }

  // Key and rank fix the payload, among the candidates of a key and FULL's own value.
  ghost predicate KeyedFunctional(kind: JoinKind, cands: seq<Candidate>, full: map<Key, Val>) {
    forall k :: k in KeysOf(cands) ==> Functional(kind, Own(cands, k) + Old(full, k))
  }

  ghost predicate SameCandidates(a: seq<Candidate>, b: seq<Candidate>) {
    forall c :: c in a <==> c in b
  }

  lemma AbsorbIsOrderFree(kind: JoinKind, a: seq<Candidate>, b: seq<Candidate>, m: map<Key, Val>, k: Key)
    requires AllVals(kind, a) && AllVals(kind, b) && Stores(kind, m) && SameCandidates(a, b)
    requires k in KeysOf(a) && Functional(kind, Own(a, k) + Old(m, k))
    ensures k in KeysOf(b) && Absorb(kind, m, a)[k] == Absorb(kind, m, b)[k]
  {
    hide Absorb, Old, Stores, AllVals, Functional;
    AbsorbIsJoin(kind, m, a, k);
    AbsorbIsJoin(kind, m, b, k);
    assert Own(a, k) == Own(b, k);
    IsJoinUnique(kind, Own(a, k) + Old(m, k), Absorb(kind, m, a)[k], Absorb(kind, m, b)[k]);
  }

  // Any order and repetition of NEW gives the same FULL and the same DELTA.
  lemma MergeIsOrderFree(kind: JoinKind, a: seq<Candidate>, b: seq<Candidate>, full: map<Key, Val>)
    requires AllVals(kind, a) && AllVals(kind, b) && Stores(kind, full) && SameCandidates(a, b)
    requires KeyedFunctional(kind, a, full)
    ensures NewFull(kind, a, full) == NewFull(kind, b, full) && NewDelta(kind, a, full) == NewDelta(kind, b, full)
  {
    hide Absorb, Merged, Functional;
    assert KeysOf(a) == KeysOf(b);
    forall k | k in KeysOf(a) ensures Reduced(kind, a)[k] == Reduced(kind, b)[k] {
      FunctionalPart(kind, Own(a, k), Old(full, k));
      assert Own(a, k) + Old(map[], k) == Own(a, k);
      AbsorbIsOrderFree(kind, a, b, map[], k);
    }
    assert Reduced(kind, a) == Reduced(kind, b);
  }

  lemma FunctionalPart(kind: JoinKind, a: iset<Val>, b: iset<Val>)
    requires Functional(kind, a + b)
    ensures Functional(kind, a)
  {}

  // DELTA holds exactly the keys that are new or changed, each with its whole joined value; what FULL held is absorbed.
  lemma DeltaIsExact(kind: JoinKind, cands: seq<Candidate>, full: map<Key, Val>, k: Key)
    requires AllVals(kind, cands) && Stores(kind, full)
    ensures var after, delta := NewFull(kind, cands, full), NewDelta(kind, cands, full);
      && (k in delta <==> k in after && (k !in full || after[k] != full[k]))
      && (k in delta ==> delta[k] == after[k])
      && (k in full ==> k in after && Absorbs(kind, after[k], full[k]))
  {
    hide Absorb;
    var reduced := Reduced(kind, cands);
    if k in full {
      if k in reduced {
        JoinAbsorbs(kind, full[k], reduced[k]);
      } else {
        JoinAssociative(kind, full[k], full[k], full[k]);
      }
    }
  }

  // FULL after a merge is the join of every candidate and the old value, key by key.
  lemma FullIsJoin(kind: JoinKind, cands: seq<Candidate>, full: map<Key, Val>, k: Key)
    requires AllVals(kind, cands) && Stores(kind, full) && k in KeysOf(cands)
    ensures k in NewFull(kind, cands, full) && IsJoin(kind, Own(cands, k) + Old(full, k), NewFull(kind, cands, full)[k])
  {
    NewFullIsAbsorb(kind, cands, full);
    AbsorbIsJoin(kind, full, cands, k);
  }

  lemma AllValsAppend(kind: JoinKind, a: seq<Candidate>, b: seq<Candidate>)
    requires AllVals(kind, a) && AllVals(kind, b)
    ensures AllVals(kind, a + b)
  {}

  lemma {:induction false} AbsorbAppend(kind: JoinKind, m: map<Key, Val>, a: seq<Candidate>, b: seq<Candidate>)
    requires AllVals(kind, a) && AllVals(kind, b) && AllVals(kind, a + b) && Stores(kind, m)
    ensures Absorb(kind, m, a + b) == Absorb(kind, Absorb(kind, m, a), b)
    decreases |b|
  {
    hide Stores;
    hide MergeOne, KeysOf;
    if |b| == 0 {
      assert a + b == a;
    } else {
      var init, c := b[..|b| - 1], b[|b| - 1];
      assert a + b == (a + init) + [c] && (a + b)[..|a + b| - 1] == a + init;
      AbsorbAppend(kind, m, a, init);
    }
  }

  // Merging two batches one after the other is merging them together.
  lemma MergeInBatches(kind: JoinKind, a: seq<Candidate>, b: seq<Candidate>, full: map<Key, Val>)
    requires AllVals(kind, a) && AllVals(kind, b) && Stores(kind, full)
    ensures AllVals(kind, a + b) && NewFull(kind, a + b, full) == NewFull(kind, b, NewFull(kind, a, full))
  {
    AllValsAppend(kind, a, b);
    AbsorbAppend(kind, full, a, b);
    NewFullIsAbsorb(kind, a + b, full);
    NewFullIsAbsorb(kind, a, full);
    NewFullIsAbsorb(kind, b, NewFull(kind, a, full));
  }

  // ========== Lattice fixpoint ==========

  // A recursive stratum over lattice-valued relations: iterating on changed values equals inflationary evaluation on
  // all of FULL.

  // A logical fact of a functional relation: its key.
  type Slot = (string, Key)

  type State = imap<Slot, Val>

  type Specs = map<string, Spec>

  function SlotOf(specs: Specs, f: Fact): Slot
    requires f.rel in specs
  {
    (f.rel, Project(f.row, specs[f.rel].keyCols))
  }

  function ValOf(specs: Specs, f: Fact): Val
    requires f.rel in specs
  {
    Project(f.row, specs[f.rel].valCols)
  }

  // The rows a state stands for, as rules read them.
  ghost function MemberFacts(specs: Specs, arity: map<string, nat>, st: State): Facts {
    iset f: Fact | f.rel in specs && f.rel in arity && |f.row| == arity[f.rel] && SlotOf(specs, f) in st
        && st[SlotOf(specs, f)] == ValOf(specs, f)
  }

  ghost function FactsOf(specs: Specs, arity: map<string, nat>, st: State, edb: Facts): Facts {
    MemberFacts(specs, arity, st) + iset f: Fact | f in edb && f.rel !in specs
  }

  // The candidate values of one slot.
  ghost function CandidateVals(specs: Specs, cands: Facts, s: Slot): iset<Val> {
    iset f: Fact | f in cands && f.rel in specs && SlotOf(specs, f) == s :: ValOf(specs, f)
  }

  ghost function OldVal(st: State, s: Slot): iset<Val> {
    if s in st then iset{st[s]} else iset{}
  }

  // after is before with every candidate joined in, slot by slot.
  ghost predicate IsMerge(specs: Specs, before: State, cands: Facts, after: State) {
    forall s: Slot ::
      && (s in after <==> s in before || CandidateVals(specs, cands, s) != iset{})
      && (s in after && s.0 in specs ==> MergedTo(specs, before, cands, s, after[s]))
      && (s in after && s.0 !in specs ==> s in before && after[s] == before[s])
  }

  ghost predicate MergedTo(specs: Specs, before: State, cands: Facts, s: Slot, v: Val)
    requires s.0 in specs
  {
    IsJoin(specs[s.0].kind, CandidateVals(specs, cands, s) + OldVal(before, s), v)
  }

  // The slots that are new or changed, with their whole values.
  ghost function Changed(before: State, after: State): State {
    imap s: Slot | s in after && (s !in before || after[s] != before[s]) :: after[s]
  }

  ghost predicate FunctionalAt(specs: Specs, before: State, cands: Facts) {
    forall s: Slot :: s.0 in specs ==> Functional(specs[s.0].kind, CandidateVals(specs, cands, s) + OldVal(before, s))
  }

  // The state already accounts for the candidate.
  ghost predicate AbsorbedIn(specs: Specs, st: State, f: Fact) {
    f.rel in specs ==>
      && SlotOf(specs, f) in st
      && IsVal(specs[f.rel].kind, st[SlotOf(specs, f)]) && IsVal(specs[f.rel].kind, ValOf(specs, f))
      && Absorbs(specs[f.rel].kind, st[SlotOf(specs, f)], ValOf(specs, f))
  }

  lemma JoinAbsorbsMember(kind: JoinKind, vs: iset<Val>, r: Val, v: Val)
    requires IsJoin(kind, vs, r) && v in vs
    ensures IsVal(kind, v) && Absorbs(kind, r, v)
  {
    if kind == INTERVAL { assert r == [r[0], r[1]]; }
  }

  lemma MergeAbsorbs(specs: Specs, before: State, cands: Facts, after: State, f: Fact)
    requires IsMerge(specs, before, cands, after) && f in cands
    ensures AbsorbedIn(specs, after, f)
  {
    if f.rel in specs {
      var s := SlotOf(specs, f);
      var vals := CandidateVals(specs, cands, s);
      assert ValOf(specs, f) in vals;
      assert MergedTo(specs, before, cands, s, after[s]);
      JoinAbsorbsMember(specs[f.rel].kind, vals + OldVal(before, s), after[s], ValOf(specs, f));
    }
  }

  // Values a state absorbs make no difference to a join with it.
  lemma JoinWithAbsorbed(kind: JoinKind, some: iset<Val>, all: iset<Val>, old_: Val, r: Val)
    requires IsJoin(kind, some + iset{old_}, r) && some <= all
    requires forall v :: v in all ==> IsVal(kind, v)
    requires forall v :: v in all && v !in some ==> Absorbs(kind, old_, v)
    ensures IsJoin(kind, all + iset{old_}, r)
  {
    match kind
    case PLAIN => assert old_ in all + iset{old_};
    case INTERVAL =>
      var x :| x in some + iset{old_} && x[0] == r[0];
      var y :| y in some + iset{old_} && y[1] == r[1];
      assert x in all + iset{old_} && y in all + iset{old_};
      forall v | v in all ensures v[0] <= r[0] && r[1] <= v[1] {
        if v !in some { assert Join(INTERVAL, old_, v) == old_; assert old_ in some + iset{old_}; }
      }
    case MAX_LOWER =>
      forall v | v in all ensures !Beats(v, r) {
        if v !in some { assert Beats(v, old_) ==> v == old_; assert !Beats(old_, r); }
      }
  }

  // Leaving out candidates the state already accounts for gives the same merge.
  lemma MergeWithoutAbsorbed(specs: Specs, before: State, all: Facts, some: Facts, a: State, b: State)
    requires IsMerge(specs, before, all, a) && IsMerge(specs, before, some, b) && some <= all
    requires forall f :: f in all && f !in some ==> AbsorbedIn(specs, before, f)
    requires FunctionalAt(specs, before, all)
    ensures a == b
  {
    hide *;
    forall s: Slot ensures (s in a <==> s in b) && (s in a ==> a[s] == b[s]) {
      SlotWithoutAbsorbed(specs, before, all, some, a, b, s);
    }
  }

  lemma SlotWithoutAbsorbed(specs: Specs, before: State, all: Facts, some: Facts, a: State, b: State, s: Slot)
    requires IsMerge(specs, before, all, a) && IsMerge(specs, before, some, b) && some <= all
    requires forall f :: f in all && f !in some ==> AbsorbedIn(specs, before, f)
    requires FunctionalAt(specs, before, all)
    ensures (s in a <==> s in b) && (s in a ==> a[s] == b[s])
  {
    hide IsJoin, IsVal, ValOf;
    var allVals, someVals := CandidateVals(specs, all, s), CandidateVals(specs, some, s);
    forall v | v in allVals && v !in someVals
      ensures s in before && s.0 in specs && IsVal(specs[s.0].kind, before[s]) && IsVal(specs[s.0].kind, v)
      ensures Absorbs(specs[s.0].kind, before[s], v)
    {
      var f :| f in all && f.rel in specs && SlotOf(specs, f) == s && ValOf(specs, f) == v;
      assert AbsorbedIn(specs, before, f);
    }
    assert someVals <= allVals;
    if s in a && s.0 in specs {
      var kind := specs[s.0].kind;
      assert MergedTo(specs, before, all, s, a[s]) && MergedTo(specs, before, some, s, b[s]);
      if s in before {
        JoinWithAbsorbed(kind, someVals, allVals, before[s], b[s]);
      } else {
        assert allVals == someVals;
      }
      IsJoinUnique(kind, allVals + OldVal(before, s), a[s], b[s]);
    }
  }

  // --- Runs ---

  ghost predicate NaiveRun(rules: seq<Rule>, sem: Interp, specs: Specs, arity: map<string, nat>, edb: Facts,
                           run: seq<State>) {
    forall n: nat :: n + 1 < |run| ==> NaiveStep(rules, sem, specs, arity, edb, run, n)
  }

  ghost predicate NaiveStep(rules: seq<Rule>, sem: Interp, specs: Specs, arity: map<string, nat>, edb: Facts,
                            run: seq<State>, n: nat)
    requires n + 1 < |run|
  {
    var facts := FactsOf(specs, arity, run[n], edb);
    && IsMerge(specs, run[n], Immediate(rules, sem, facts, facts), run[n + 1])
    && FunctionalAt(specs, run[n], Immediate(rules, sem, facts, facts))
  }

  // DELTA as rules read it at iteration n: everything on the first iteration, then what the last merge changed.
  ghost function DeltaFacts(specs: Specs, arity: map<string, nat>, edb: Facts, run: seq<State>, n: nat): Facts
    requires n < |run|
  {
    if n == 0 then FactsOf(specs, arity, run[0], edb) else MemberFacts(specs, arity, Changed(run[n - 1], run[n]))
  }

  ghost predicate SemiNaiveRun(rules: seq<Rule>, sem: Interp, specs: Specs, arity: map<string, nat>, edb: Facts,
                               run: seq<State>) {
    forall n: nat :: n + 1 < |run| ==> SemiNaiveStep(rules, sem, specs, arity, edb, run, n)
  }

  ghost predicate SemiNaiveStep(rules: seq<Rule>, sem: Interp, specs: Specs, arity: map<string, nat>, edb: Facts,
                                run: seq<State>, n: nat)
    requires n + 1 < |run|
  {
    IsMerge(specs, run[n], NewFacts(rules, specs.Keys, sem, FactsOf(specs, arity, run[n], edb),
                                    DeltaFacts(specs, arity, edb, run, n)), run[n + 1])
  }

  // A derivation from the current rows uses a changed row, or was a candidate one iteration earlier.
  lemma OldDerivationsAbsorbed(rules: seq<Rule>, sem: Interp, specs: Specs, arity: map<string, nat>, edb: Facts,
                               before: State, now: State, f: Fact)
    requires IsRecursiveStratum(rules, specs.Keys)
    requires var old_ := FactsOf(specs, arity, before, edb);
    IsMerge(specs, before, Immediate(rules, sem, old_, old_), now)
    requires var full := FactsOf(specs, arity, now, edb);
      && f in Immediate(rules, sem, full, full)
      && f !in NewFacts(rules, specs.Keys, sem, full, MemberFacts(specs, arity, Changed(before, now)))
    ensures AbsorbedIn(specs, now, f)
  {
    hide IsRecursiveStratum, NewFacts;
    var old_, full := FactsOf(specs, arity, before, edb), FactsOf(specs, arity, now, edb);
    var delta := MemberFacts(specs, arity, Changed(before, now));
    var keep := full - delta;
    assert keep <= old_ by { UnchangedWasThere(specs, arity, edb, before, now); }
    ChangedIsThere(specs, arity, edb, before, now);
    assert keep + delta == full;
    var k :| 0 <= k < |rules| && DerivesFrom(rules[k], sem, full, full, f);
    hide IsMerge, FactsOf, MemberFacts, Changed, DerivesFrom, Immediate;
    OldBodyDerives(rules, k, specs.Keys, sem, keep, delta, full, f);
    NegSame(rules, sem, specs, arity, edb, before, now, old_);
    DerivedBefore(rules, k, specs.Keys, sem, keep, old_, full, f);
    MergeAbsorbs(specs, before, Immediate(rules, sem, old_, old_), now, f);
  }

  // What no variant derives, the kept facts derive.
  lemma OldBodyDerives(rules: seq<Rule>, k: nat, members: set<string>, sem: Interp, keep: Facts, delta: Facts,
                       full: Facts,
                       f: Fact)
    requires k < |rules| && keep + delta == full && OnlyMembers(delta, members)
    requires f !in NewFacts(rules, members, sem, full, delta) && DerivesFrom(rules[k], sem, full, full, f)
    ensures DerivesFrom(rules[k], sem, keep, full, f)
  {
    hide Derives, DerivesFrom;
    SplitDerivation(rules[k], members, sem, keep, delta, full, f);
    assert forall i :: IsSccClause(rules[k], members, i) ==> !Derives(rules[k], sem, full, delta, i, full, f);
  }

  // What the kept facts derive, the earlier rows derived: what the rules do not derive is the same.
  lemma DerivedBefore(rules: seq<Rule>, k: nat, members: set<string>, sem: Interp, keep: Facts, old_: Facts,
                      full: Facts,
                      f: Fact)
    requires IsRecursiveStratum(rules, members) && k < |rules| && keep <= old_
    requires forall g: Fact :: g.rel !in Idbs(rules) ==> (g in full <==> g in old_)
    requires DerivesFrom(rules[k], sem, keep, full, f)
    ensures f in Immediate(rules, sem, old_, old_)
  {
    hide Derives, DerivesFrom, Idbs;
    DerivesMonotone(rules[k], sem, keep, old_, full, f);
    DerivesReads(rules[k], sem, old_, full, old_, old_, f);
    assert DerivedBySome(rules, sem, old_, old_, f);
  }

  lemma ChangedIsThere(specs: Specs, arity: map<string, nat>, edb: Facts, before: State, now: State)
    ensures MemberFacts(specs, arity, Changed(before, now)) <= FactsOf(specs, arity, now, edb)
    ensures OnlyMembers(MemberFacts(specs, arity, Changed(before, now)), specs.Keys)
  {}

  lemma UnchangedWasThere(specs: Specs, arity: map<string, nat>, edb: Facts, before: State, now: State)
    ensures FactsOf(specs, arity, now, edb) - MemberFacts(specs, arity, Changed(before, now)) <= FactsOf(specs, arity,
        before, edb)
  {}

  lemma JoinOfOne(kind: JoinKind, v: Val, r: Val)
    requires IsJoin(kind, iset{v}, r)
    ensures r == v
  {
    assert IsVal(kind, v);
    if kind == INTERVAL { assert r == [r[0], r[1]] && v == [v[0], v[1]]; }
  }

  // A merge leaves the slots of a relation that the rules do not derive as they are.
  lemma UnderivedStays(rules: seq<Rule>, sem: Interp, specs: Specs, before: State, now: State, old_: Facts, s: Slot)
    requires IsMerge(specs, before, Immediate(rules, sem, old_, old_), now) && s.0 !in Idbs(rules)
    ensures (s in now <==> s in before) && (s in now ==> now[s] == before[s])
  {
    var cands := Immediate(rules, sem, old_, old_);
    assert CandidateVals(specs, cands, s) == iset{} by { NoneDerived(rules, sem, specs, old_, s); }
    hide Immediate, IsJoin;
    if s in now && s.0 in specs {
      assert CandidateVals(specs, cands, s) + OldVal(before, s) == iset{before[s]};
      JoinOfOne(specs[s.0].kind, before[s], now[s]);
    }
  }

  lemma NoneDerived(rules: seq<Rule>, sem: Interp, specs: Specs, old_: Facts, s: Slot)
    requires s.0 !in Idbs(rules)
    ensures CandidateVals(specs, Immediate(rules, sem, old_, old_), s) == iset{}
  {
    forall f | f in Immediate(rules, sem, old_, old_) ensures f.rel in Idbs(rules) {
      var k :| 0 <= k < |rules| && DerivesFrom(rules[k], sem, old_, old_, f);
      var env :| SatBody(rules[k].body, sem, old_, old_, -1, old_, env) && IsHeadFact(rules[k], env, f);
    }
  }

  lemma NegSame(rules: seq<Rule>, sem: Interp, specs: Specs, arity: map<string, nat>, edb: Facts, before: State,
                now: State,
                old_: Facts)
    requires IsMerge(specs, before, Immediate(rules, sem, old_, old_), now)
    ensures forall g: Fact :: g.rel !in Idbs(rules) ==>
      (g in FactsOf(specs, arity, now, edb) <==> g in FactsOf(specs, arity, before, edb))
  {
    hide IsMerge, Immediate, Idbs;
    forall g: Fact | g.rel !in Idbs(rules)
      ensures g in FactsOf(specs, arity, now, edb) <==> g in FactsOf(specs, arity, before, edb)
    {
      if g.rel in specs {
        UnderivedStays(rules, sem, specs, before, now, old_, SlotOf(specs, g));
      }
    }
  }

  lemma NewIsImmediate(rules: seq<Rule>, members: set<string>, sem: Interp, full: Facts, delta: Facts)
    requires delta <= full
    ensures NewFacts(rules, members, sem, full, delta) <= Immediate(rules, sem, full, full)
  {
    forall f | f in NewFacts(rules, members, sem, full, delta) ensures f in Immediate(rules, sem, full, full) {
      var k, i :| 0 <= k < |rules| && IsSccClause(rules[k], members, i)
          && Derives(rules[k], sem, full, delta, i, full, f);
      VariantIsSound(rules[k], sem, full, delta, i, full, f);
    }
  }

  // Iterating on the changed values reaches, at every iteration, the state that evaluating on all of FULL reaches.
  lemma {:induction false} LatticeSemiNaiveIsNaive(rules: seq<Rule>, sem: Interp, specs: Specs, arity: map<string, nat>,
                                                   edb: Facts,
                                                   naive: seq<State>, semi: seq<State>, n: nat)
    requires IsRecursiveStratum(rules, specs.Keys) && |naive| == |semi| && n < |semi| && naive[0] == semi[0]
    requires NaiveRun(rules, sem, specs, arity, edb, naive) && SemiNaiveRun(rules, sem, specs, arity, edb, semi)
    ensures semi[n] == naive[n]
  {
    hide NaiveStep, SemiNaiveStep, IsRecursiveStratum;
    if n > 0 {
      LatticeSemiNaiveIsNaive(rules, sem, specs, arity, edb, naive, semi, n - 1);
      if n > 1 { LatticeSemiNaiveIsNaive(rules, sem, specs, arity, edb, naive, semi, n - 2); }
      assert NaiveStep(rules, sem, specs, arity, edb, naive, n - 1)
          && SemiNaiveStep(rules, sem, specs, arity, edb, semi, n - 1);
      if n > 1 { assert NaiveStep(rules, sem, specs, arity, edb, naive, n - 2); }
      StepsAgreeAt(rules, sem, specs, arity, edb, naive, semi, n - 1);
    }
  }

  lemma StepsAgreeAt(rules: seq<Rule>, sem: Interp, specs: Specs, arity: map<string, nat>, edb: Facts,
                     naive: seq<State>, semi: seq<State>, n: nat)
    requires IsRecursiveStratum(rules, specs.Keys) && n + 1 < |naive| == |semi| && semi[n] == naive[n]
    requires NaiveStep(rules, sem, specs, arity, edb, naive, n) && SemiNaiveStep(rules, sem, specs, arity, edb, semi, n)
    requires n > 0 ==> semi[n - 1] == naive[n - 1] && NaiveStep(rules, sem, specs, arity, edb, naive, n - 1)
    ensures semi[n + 1] == naive[n + 1]
  {
    var full, delta := FactsOf(specs, arity, naive[n], edb), DeltaFacts(specs, arity, edb, semi, n);
    var all, some := Immediate(rules, sem, full, full), NewFacts(rules, specs.Keys, sem, full, delta);
    if n == 0 {
      FirstStepAgrees(rules, specs.Keys, sem, full);
    } else {
      forall f | f in all && f !in some ensures AbsorbedIn(specs, naive[n], f) {
        OldDerivationsAbsorbed(rules, sem, specs, arity, edb, naive[n - 1], naive[n], f);
      }
    }
    NewIsImmediate(rules, specs.Keys, sem, full, delta);
    hide IsMerge, FunctionalAt, Immediate, NewFacts, FactsOf, DeltaFacts;
    MergeWithoutAbsorbed(specs, naive[n], all, some, naive[n + 1], semi[n + 1]);
  }

  lemma NothingChanged(specs: Specs, before: State, cands: Facts, after: State)
    requires IsMerge(specs, before, cands, after) && Changed(before, after) == imap[]
    ensures after == before
  {
    hide MergedTo;
    forall s: Slot ensures (s in after <==> s in before) && (s in after ==> after[s] == before[s]) {
      assert s !in Changed(before, after);
    }
  }

  // When an iteration changes nothing, every value the rules derive from FULL is already joined into it.
  lemma LatticeStopsClosed(rules: seq<Rule>, sem: Interp, specs: Specs, arity: map<string, nat>, edb: Facts,
                           naive: seq<State>, semi: seq<State>, n: nat, f: Fact)
    requires IsRecursiveStratum(rules, specs.Keys) && |naive| == |semi| && n + 1 < |semi| && naive[0] == semi[0]
    requires NaiveRun(rules, sem, specs, arity, edb, naive) && SemiNaiveRun(rules, sem, specs, arity, edb, semi)
    requires Changed(semi[n], semi[n + 1]) == imap[]
    requires var full := FactsOf(specs, arity, semi[n + 1], edb); f in Immediate(rules, sem, full, full)
    ensures AbsorbedIn(specs, semi[n + 1], f)
  {
    LatticeSemiNaiveIsNaive(rules, sem, specs, arity, edb, naive, semi, n);
    LatticeSemiNaiveIsNaive(rules, sem, specs, arity, edb, naive, semi, n + 1);
    assert NaiveStep(rules, sem, specs, arity, edb, naive, n);
    hide NaiveRun, SemiNaiveRun, IsRecursiveStratum, Immediate, FactsOf, IsMerge, FunctionalAt, AbsorbedIn, Changed;
    var full := FactsOf(specs, arity, naive[n], edb);
    var cands := Immediate(rules, sem, full, full);
    NothingChanged(specs, naive[n], cands, naive[n + 1]);
    MergeAbsorbs(specs, naive[n], cands, naive[n + 1], f);
  }

  // --- The stored merge is the merge of the model ---

  // The stored candidates of rel are the facts' values, and its stored values are the state's.
  ghost predicate Stored(specs: Specs, rel: string, cands: seq<Candidate>, facts: Facts, full: map<Key, Val>,
                         st: State) {
    && (forall k, v :: Candidate(k, v) in cands <==> v in CandidateVals(specs, facts, (rel, k)))
    && (forall k :: k in full <==> (rel, k) in st) && forall k :: k in full ==> full[k] == st[(rel, k)]
  }

  lemma StoredMergeIsMerge(specs: Specs, rel: string, cands: seq<Candidate>, facts: Facts, full: map<Key, Val>,
                           st: State, k: Key)
    requires rel in specs && AllVals(specs[rel].kind, cands) && Stores(specs[rel].kind, full)
    requires Stored(specs, rel, cands, facts, full, st)
    ensures var after := NewFull(specs[rel].kind, cands, full); var s := (rel, k);
      && (k in after <==> s in st || CandidateVals(specs, facts, s) != iset{})
      && (k in after ==> k !in KeysOf(cands) ==> after[k] == full[k] && CandidateVals(specs, facts, s) == iset{})
      && (k in KeysOf(cands) ==> k in after && MergedTo(specs, st, facts, s, after[k]))
  {
    hide CandidateVals, IsJoin, AllVals;
    var kind, s := specs[rel].kind, (rel, k);
    if k in KeysOf(cands) {
      FullIsJoin(kind, cands, full, k);
      assert Own(cands, k) == CandidateVals(specs, facts, s);
      assert Old(full, k) == OldVal(st, s);
      var c :| c in cands && c.key == k;
      assert c == Candidate(k, c.value);
    } else {
      NoOwn(cands, k);
      assert Own(cands, k) == CandidateVals(specs, facts, s);
    }
  }

  // --- Maintenance of a lattice relation ---

  // RebuildIndex(NEW), CheckSize(NEW), LatticeMergeDelta. Unlike loop maintenance, nothing clears DELTA before
  // CheckSize.
  ghost predicate MaintainedTo(relation: LatticeState, skips: bool, after: LatticeState)
    requires AllVals(relation.kind, relation.pending) && Stores(relation.kind, relation.full)
  {
    if skips && relation.pending == [] then after == relation
    else after == LatticeState(relation.kind, [], NewFull(relation.kind, relation.pending, relation.full),
                               NewDelta(relation.kind, relation.pending, relation.full))
  }

  datatype LatticeState = LatticeState(kind: JoinKind, pending: seq<Candidate>, full: map<Key, Val>, delta: map<Key,
                                       Val>)

  // DELTA ends as exactly what this round changed if and only if CheckSize did not skip, NEW was not empty,
  // or DELTA was empty already; FULL is right in any case.
  lemma StaleDeltaIff(relation: LatticeState, skips: bool, after: LatticeState)
    requires AllVals(relation.kind, relation.pending) && Stores(relation.kind, relation.full)
    requires MaintainedTo(relation, skips, after)
    ensures after.full == NewFull(relation.kind, relation.pending, relation.full)
    ensures after.delta == NewDelta(relation.kind, relation.pending, relation.full) <==>
            !skips || relation.pending != [] || relation.delta == map[]
  {
    if relation.pending == [] {
      assert Reduced(relation.kind, relation.pending) == map[];
      assert NewDelta(relation.kind, relation.pending, relation.full) == map[];
      assert NewFull(relation.kind, relation.pending, relation.full) == relation.full;
    }
  }

  // ========== Lattice stops ==========

  // Where a loop over lattice-valued relations stops: closed, least above its start when the rules are monotone, and
  // always over finitely many keys and values.

  // --- States in order ---

  // big has a value for every slot of small, and it absorbs the smaller one.
  ghost predicate Within(specs: Specs, small: State, big: State) {
    forall s: Slot :: s in small ==> s in big && SlotWithin(specs, small[s], big[s], s)
  }

  ghost predicate SlotWithin(specs: Specs, v: Val, w: Val, s: Slot) {
    s.0 in specs && IsVal(specs[s.0].kind, v) && IsVal(specs[s.0].kind, w) && Absorbs(specs[s.0].kind, w, v)
  }

  ghost function DerivedFrom(rules: seq<Rule>, sem: Interp, specs: Specs, arity: map<string, nat>, edb: Facts,
                             st: State): Facts {
    var facts := FactsOf(specs, arity, st, edb);
    Immediate(rules, sem, facts, facts)
  }

  // Everything the rules derive from the state is already joined into it.
  ghost predicate ClosedState(rules: seq<Rule>, sem: Interp, specs: Specs, arity: map<string, nat>, edb: Facts,
                              st: State) {
    forall f :: f in DerivedFrom(rules, sem, specs, arity, edb, st) ==> AbsorbedIn(specs, st, f)
  }

  // From a greater state the rules derive a greater value for the same slot.
  ghost predicate Monotone(rules: seq<Rule>, sem: Interp, specs: Specs, arity: map<string, nat>, edb: Facts) {
    forall small, big, f ::
        Within(specs, small, big) && f in DerivedFrom(rules, sem, specs, arity, edb, small) && f.rel in specs ==>
      HasGreater(specs, DerivedFrom(rules, sem, specs, arity, edb, big), f)
  }

  ghost predicate HasGreater(specs: Specs, derived: Facts, f: Fact)
    requires f.rel in specs
  {
    exists g :: g in derived && IsGreater(specs, g, f)
  }

  ghost predicate IsGreater(specs: Specs, g: Fact, f: Fact)
    requires f.rel in specs
  {
    g.rel == f.rel && SlotOf(specs, g) == SlotOf(specs, f) && IsVal(specs[f.rel].kind, ValOf(specs, f))
    && IsVal(specs[f.rel].kind, ValOf(specs, g)) && Absorbs(specs[f.rel].kind, ValOf(specs, g), ValOf(specs, f))
  }

  // --- Least ---

  // A value that absorbs everything joined absorbs the join.
  lemma JoinBelow(kind: JoinKind, vs: iset<Val>, r: Val, t: Val)
    requires IsJoin(kind, vs, r) && IsVal(kind, t) && vs != iset{}
    requires forall v :: v in vs ==> IsVal(kind, v) && Absorbs(kind, t, v)
    ensures Absorbs(kind, t, r)
  {
    match kind
    case PLAIN =>
    case INTERVAL =>
      var x :| x in vs && x[0] == r[0];
      var y :| y in vs && y[1] == r[1];
      assert Join(INTERVAL, t, x) == t && Join(INTERVAL, t, y) == t;
      assert t == [t[0], t[1]];
    case MAX_LOWER =>
  }

  lemma AbsorbedBelow(rules: seq<Rule>, sem: Interp, specs: Specs, arity: map<string, nat>, edb: Facts, small: State,
                      big: State, f: Fact)
    requires Monotone(rules, sem, specs, arity, edb) && ClosedState(rules, sem, specs, arity, edb, big)
    requires Within(specs, small, big)
    requires f in DerivedFrom(rules, sem, specs, arity, edb, small)
    ensures AbsorbedIn(specs, big, f)
  {
    hide DerivedFrom, Within;
    if f.rel in specs {
      var derived := DerivedFrom(rules, sem, specs, arity, edb, big);
      assert HasGreater(specs, derived, f);
      var g :| g in derived && IsGreater(specs, g, f);
      assert AbsorbedIn(specs, big, g);
      AbsorbsTransitive(specs[f.rel].kind, big[SlotOf(specs, f)], ValOf(specs, g), ValOf(specs, f));
    }
  }

  lemma MergeBelow(specs: Specs, before: State, cands: Facts, after: State, big: State)
    requires IsMerge(specs, before, cands, after) && Within(specs, before, big)
    requires forall f :: f in cands ==> AbsorbedIn(specs, big, f)
    ensures Within(specs, after, big)
  {
    hide IsMerge, SlotWithin, AbsorbedIn;
    forall s: Slot | s in after ensures s in big && SlotWithin(specs, after[s], big[s], s) {
      SlotBelow(specs, before, cands, after, big, s);
    }
  }

  lemma SlotBelow(specs: Specs, before: State, cands: Facts, after: State, big: State, s: Slot)
    requires IsMerge(specs, before, cands, after) && Within(specs, before, big) && s in after
    requires forall f :: f in cands ==> AbsorbedIn(specs, big, f)
    ensures s in big && SlotWithin(specs, after[s], big[s], s)
  {
    var vals := CandidateVals(specs, cands, s);
    forall v | v in vals ensures s.0 in specs && s in big && SlotWithin(specs, v, big[s], s) {
      var f :| f in cands && f.rel in specs && SlotOf(specs, f) == s && ValOf(specs, f) == v;
      assert AbsorbedIn(specs, big, f);
    }
    if s in before { assert SlotWithin(specs, before[s], big[s], s); }
    assert vals + OldVal(before, s) != iset{} by {
      if s in before {
        assert before[s] in OldVal(before, s);
      } else {
        var v :| v in vals;
        assert v in vals + OldVal(before, s);
      }
    }
    if v :| v in vals { assert s.0 in specs; }
    assert MergedTo(specs, before, cands, s, after[s]);
    JoinBelow(specs[s.0].kind, vals + OldVal(before, s), after[s], big[s]);
  }

  lemma StepMeans(rules: seq<Rule>, sem: Interp, specs: Specs, arity: map<string, nat>, edb: Facts, run: seq<State>,
                  n: nat)
    requires NaiveRun(rules, sem, specs, arity, edb, run) && n + 1 < |run|
    ensures IsMerge(specs, run[n], DerivedFrom(rules, sem, specs, arity, edb, run[n]), run[n + 1])
    ensures FunctionalAt(specs, run[n], DerivedFrom(rules, sem, specs, arity, edb, run[n]))
  {
    assert NaiveStep(rules, sem, specs, arity, edb, run, n);
    hide Immediate, FactsOf, IsMerge, FunctionalAt;
  }

  // No iteration leaves a closed state that lies above the start.
  lemma {:induction false} RunStaysBelow(rules: seq<Rule>, sem: Interp, specs: Specs, arity: map<string, nat>,
                                         edb: Facts, run: seq<State>, big: State, n: nat)
    requires Monotone(rules, sem, specs, arity, edb) && ClosedState(rules, sem, specs, arity, edb, big)
    requires NaiveRun(rules, sem, specs, arity, edb, run) && n < |run| && Within(specs, run[0], big)
    ensures Within(specs, run[n], big)
  {
    hide *;
    if n > 0 {
      RunStaysBelow(rules, sem, specs, arity, edb, run, big, n - 1);
      StepMeans(rules, sem, specs, arity, edb, run, n - 1);
      var cands := DerivedFrom(rules, sem, specs, arity, edb, run[n - 1]);
      forall f | f in cands ensures AbsorbedIn(specs, big, f) {
        AbsorbedBelow(rules, sem, specs, arity, edb, run[n - 1], big, f);
      }
      MergeBelow(specs, run[n - 1], cands, run[n], big);
    }
  }

  // Every closed state above the start is above st.
  ghost predicate BelowAllClosed(rules: seq<Rule>, sem: Interp, specs: Specs, arity: map<string, nat>, edb: Facts,
                                 start: State, st: State) {
    forall big ::
        Within(specs, start, big) && ClosedState(rules, sem, specs, arity, edb, big) ==> Within(specs, st, big)
  }

  // When an iteration changes nothing, the state is closed, and with monotone rules it is the least closed state above
  // the start.
  lemma LatticeStopsAtLeast(rules: seq<Rule>, sem: Interp, specs: Specs, arity: map<string, nat>, edb: Facts,
                            naive: seq<State>, semi: seq<State>, n: nat)
    requires IsRecursiveStratum(rules, specs.Keys) && |naive| == |semi| && n + 1 < |semi| && naive[0] == semi[0]
    requires NaiveRun(rules, sem, specs, arity, edb, naive) && SemiNaiveRun(rules, sem, specs, arity, edb, semi)
    requires Changed(semi[n], semi[n + 1]) == imap[]
    ensures ClosedState(rules, sem, specs, arity, edb, semi[n + 1])
    ensures Monotone(rules, sem, specs, arity, edb) ==>
        BelowAllClosed(rules, sem, specs, arity, edb, semi[0], semi[n + 1])
  {
    var last := semi[n + 1];
    forall f | f in DerivedFrom(rules, sem, specs, arity, edb, last) ensures AbsorbedIn(specs, last, f) {
      LatticeStopsClosed(rules, sem, specs, arity, edb, naive, semi, n, f);
    }
    LatticeSemiNaiveIsNaive(rules, sem, specs, arity, edb, naive, semi, n + 1);
    hide IsRecursiveStratum, NaiveRun, SemiNaiveRun, DerivedFrom, Within, Changed, AbsorbedIn, Monotone;
    if Monotone(rules, sem, specs, arity, edb) {
      forall big: State | Within(specs, semi[0], big) && ClosedState(rules, sem, specs, arity, edb, big)
        ensures Within(specs, semi[n + 1], big) {
        RunStaysBelow(rules, sem, specs, arity, edb, naive, big, n + 1);
      }
    }
  }

  // --- It stops ---

  // Strictly greater in the order of the join.
  ghost predicate Higher(kind: JoinKind, w: Val, v: Val) {
    IsVal(kind, v) && IsVal(kind, w) &&
    match kind
    case PLAIN => false
    case INTERVAL => w != v && v[0] <= w[0] && w[1] <= v[1]
    case MAX_LOWER => Beats(w, v)
  }

  lemma HigherTransitive(kind: JoinKind, a: Val, b: Val, c: Val)
    requires Higher(kind, a, b) && Higher(kind, b, c)
    ensures Higher(kind, a, c)
  {
    if kind == INTERVAL { assert a == [a[0], a[1]] && b == [b[0], b[1]] && c == [c[0], c[1]]; }
  }

  lemma HigherDiffers(kind: JoinKind, a: Val, b: Val)
    requires Higher(kind, a, b)
    ensures a != b
  {}

  lemma ChangeIsHigher(kind: JoinKind, vs: iset<Val>, old_: Val, r: Val)
    requires IsJoin(kind, vs, r) && old_ in vs && r != old_ && Functional(kind, vs)
    ensures Higher(kind, r, old_)
  {
    assert (|r| == 0 ==> r == []) && (|old_| == 0 ==> old_ == []);
  }

  // A slot's value never falls, and rises where it changes.
  ghost predicate Rises(specs: Specs, s: Slot, a: State, b: State) {
    s in a ==> s in b && (b[s] == a[s] || (s.0 in specs && Higher(specs[s.0].kind, b[s], a[s])))
  }

  lemma MergeRises(specs: Specs, before: State, cands: Facts, after: State, s: Slot)
    requires IsMerge(specs, before, cands, after) && FunctionalAt(specs, before, cands)
    ensures Rises(specs, s, before, after)
  {
    if s in before && s in after && s.0 in specs && after[s] != before[s] {
      assert MergedTo(specs, before, cands, s, after[s]);
      ChangeIsHigher(specs[s.0].kind, CandidateVals(specs, cands, s) + OldVal(before, s), before[s], after[s]);
    }
  }

  lemma RisesThen(specs: Specs, s: Slot, a: State, b: State, c: State)
    requires Rises(specs, s, a, b) && Rises(specs, s, b, c)
    ensures Rises(specs, s, a, c)
  {
    if s in a && b[s] != a[s] && c[s] != b[s] { HigherTransitive(specs[s.0].kind, c[s], b[s], a[s]); }
  }

  lemma {:induction false} RunRises(rules: seq<Rule>, sem: Interp, specs: Specs, arity: map<string, nat>, edb: Facts,
                                    run: seq<State>, m: nat, n: nat, s: Slot)
    requires NaiveRun(rules, sem, specs, arity, edb, run) && m <= n < |run|
    ensures Rises(specs, s, run[m], run[n])
    decreases n
  {
    hide NaiveRun, IsMerge, FunctionalAt, DerivedFrom, Higher;
    if m < n {
      RunRises(rules, sem, specs, arity, edb, run, m, n - 1, s);
      StepMeans(rules, sem, specs, arity, edb, run, n - 1);
      MergeRises(specs, run[n - 1], DerivedFrom(rules, sem, specs, arity, edb, run[n - 1]), run[n], s);
      RisesThen(specs, s, run[m], run[n - 1], run[n]);
    }
  }

  // The slots and values that the run goes through.
  ghost predicate Passes(run: seq<State>, n: nat, e: (Slot, Val)) {
    exists m :: 0 <= m <= n && m < |run| && e.0 in run[m] && run[m][e.0] == e.1
  }

  // Where something changed, the run takes a value it never had before.
  lemma ChangeIsNew(rules: seq<Rule>, sem: Interp, specs: Specs, arity: map<string, nat>, edb: Facts, run: seq<State>,
                    n: nat) returns (e: (Slot, Val))
    requires NaiveRun(rules, sem, specs, arity, edb, run) && n + 1 < |run| && Changed(run[n], run[n + 1]) != imap[]
    ensures Passes(run, n + 1, e) && !Passes(run, n, e)
  {
    var s: Slot :| s in Changed(run[n], run[n + 1]);
    e := (s, run[n + 1][s]);
    hide NaiveRun, Higher;
    forall m: nat | m <= n && s in run[m] ensures run[m][s] != run[n + 1][s] {
      RunRises(rules, sem, specs, arity, edb, run, m, n, s);
      RunRises(rules, sem, specs, arity, edb, run, n, n + 1, s);
      HigherThan(specs, s, run[m], run[n], run[n + 1]);
    }
    assert Passes(run, n + 1, e);
  }

  lemma HigherThan(specs: Specs, s: Slot, a: State, b: State, c: State)
    requires s in a && Rises(specs, s, a, b) && Rises(specs, s, b, c) && s in c && s in b && c[s] != b[s]
    ensures c[s] != a[s]
  {
    HigherDiffers(specs[s.0].kind, c[s], b[s]);
    if b[s] != a[s] {
      HigherTransitive(specs[s.0].kind, c[s], b[s], a[s]);
      HigherDiffers(specs[s.0].kind, c[s], a[s]);
    }
  }

  lemma {:induction false} EachIterationAdds(rules: seq<Rule>, sem: Interp, specs: Specs, arity: map<string, nat>,
                                             edb: Facts, run: seq<State>,
                                              universe: set<(Slot, Val)>, n: nat) returns (seen: set<(Slot, Val)>)
    requires NaiveRun(rules, sem, specs, arity, edb, run) && n < |run|
    requires forall e :: Passes(run, |run|, e) ==> e in universe
    requires forall m :: 0 <= m < n ==> !Unchanged(run, m)
    ensures |seen| >= n && seen <= universe && forall e :: e in seen ==> Passes(run, n, e)
  {
    hide NaiveRun, Changed;
    if n == 0 {
      seen := {};
    } else {
      seen := EachIterationAdds(rules, sem, specs, arity, edb, run, universe, n - 1);
      assert !Unchanged(run, n - 1);
      var e := ChangeIsNew(rules, sem, specs, arity, edb, run, n - 1);
      assert Passes(run, |run|, e);
      seen := seen + {e};
    }
  }

  // If the run goes through finitely many keys and values, some iteration no later than their number plus one changes
  // nothing.
  lemma LatticeTerminates(rules: seq<Rule>, sem: Interp, specs: Specs, arity: map<string, nat>, edb: Facts,
                          naive: seq<State>, semi: seq<State>,
                          universe: set<(Slot, Val)>)
    requires IsRecursiveStratum(rules, specs.Keys) && |naive| == |semi| > |universe| + 1 && naive[0] == semi[0]
    requires NaiveRun(rules, sem, specs, arity, edb, naive) && SemiNaiveRun(rules, sem, specs, arity, edb, semi)
    requires forall e :: Passes(naive, |naive|, e) ==> e in universe
    ensures exists n: nat :: n <= |universe| && Unchanged(semi, n)
  {
    if forall n: nat :: n <= |universe| ==> !Unchanged(semi, n) {
      forall m: nat | m <= |universe| ensures !Unchanged(naive, m) {
        LatticeSemiNaiveIsNaive(rules, sem, specs, arity, edb, naive, semi, m);
        LatticeSemiNaiveIsNaive(rules, sem, specs, arity, edb, naive, semi, m + 1);
        assert !Unchanged(semi, m);
      }
      hide NaiveRun, SemiNaiveRun, IsRecursiveStratum, Passes, Unchanged;
      var seen := EachIterationAdds(rules, sem, specs, arity, edb, naive, universe, |universe| + 1);
      TooMany(seen, universe);
    }
  }

  lemma TooMany(a: set<(Slot, Val)>, b: set<(Slot, Val)>)
    requires a <= b
    ensures |a| <= |b|
  {
    assert b == a + (b - a);
  }

  ghost predicate Unchanged(run: seq<State>, n: nat) {
    n + 1 < |run| && Changed(run[n], run[n + 1]) == imap[]
  }

  // --- Rules that are not monotone ---

  const NARROW: Rule :=
      Rule([Atom("V", [LVar("x"), Const(5), Const(9)])], [Pos(Atom("V", [LVar("x"), LVar("l"), LVar("u")]))])
  const SPAWN: Rule :=
      Rule([Atom("V", [Const(1), Const(1), Const(2)])], [Pos(Atom("V", [LVar("x"), Const(0), Const(10)]))])
  const SPECS: Specs := map["V" := Spec(INTERVAL, [0], [1, 2])]
  const WIDTHS: map<string, nat> := map["V" := 3]
  const ZERO: Slot := ("V", [0])
  const SPAWNED: Slot := ("V", [1])
  const WIDE: State := imap[ZERO := [0, 10]]
  const NARROWED: State := imap[ZERO := [5, 9]]

  lemma RowParts(row: Row)
    requires |row| == 3
    ensures SlotOf(SPECS, Fact("V", row)) == ("V", [row[0]]) && ValOf(SPECS, Fact("V", row)) == [row[1], row[2]]
  {
    assert SPECS["V"] == Spec(INTERVAL, [0], [1, 2]);
    assert Project(row, [0]) == [row[0]] && Project(row, [1, 2]) == [row[1], row[2]];
  }

  lemma NarrowedFacts(f: Fact)
    requires f in FactsOf(SPECS, WIDTHS, NARROWED, iset{})
    ensures f == Fact("V", [0, 5, 9])
  {
    RowParts(f.row);
    assert SlotOf(SPECS, f) == ZERO;
    assert ("V", [f.row[0]]).1[0] == ZERO.1[0];
    assert [f.row[1], f.row[2]] == [5, 9];
    assert [f.row[1], f.row[2]][0] == 5 && [f.row[1], f.row[2]][1] == 9;
    assert f.row == [0, 5, 9];
  }

  // From the narrowed value only the first rule derives something, that value again.
  lemma NarrowedDerives(sem: Interp, facts: Facts, k: nat, f: Fact)
    requires facts == FactsOf(SPECS, WIDTHS, NARROWED, iset{}) && k < 2
    requires DerivesFrom([NARROW, SPAWN][k], sem, facts, facts, f)
    ensures f == Fact("V", [0, 5, 9])
  {
    var r := [NARROW, SPAWN][k];
    var env :| SatBody(r.body, sem, facts, facts, -1, facts, env) && IsHeadFact(r, env, f);
    assert SatClause(r.body[0], sem, View(facts, facts, -1, 0), facts, env);
    var row := Ground(r.body[0].atom, env);
    NarrowedFacts(Fact("V", row));
    hide FactsOf;
    assert row[0] == 0 && row[1] == 5;
    assert k == 0;
    assert Ground(r.heads[0], env) == [0, 5, 9];
  }

  lemma NarrowedAbsorbs()
    ensures AbsorbedIn(SPECS, NARROWED, Fact("V", [0, 5, 9])) && Within(SPECS, WIDE, NARROWED)
  {
    RowParts([0, 5, 9]);
  }

  lemma NarrowedIsClosed(sem: Interp)
    ensures ClosedState([NARROW, SPAWN], sem, SPECS, WIDTHS, iset{}, NARROWED) && Within(SPECS, WIDE, NARROWED)
  {
    var facts := FactsOf(SPECS, WIDTHS, NARROWED, iset{});
    NarrowedAbsorbs();
    hide FactsOf, AbsorbedIn, Within, DerivesFrom;
    forall f | f in Immediate([NARROW, SPAWN], sem, facts, facts) ensures AbsorbedIn(SPECS, NARROWED, f) {
      var k :| 0 <= k < 2 && DerivesFrom([NARROW, SPAWN][k], sem, facts, facts, f);
      NarrowedDerives(sem, facts, k, f);
    }
  }

  lemma WideSpawns(sem: Interp)
    ensures Fact("V", [1, 1, 2]) in DerivedFrom([NARROW, SPAWN], sem, SPECS, WIDTHS, iset{}, WIDE)
  {
    var facts := FactsOf(SPECS, WIDTHS, WIDE, iset{});
    var env: Env := map["x" := 0];
    RowParts([0, 0, 10]);
    assert Fact("V", [0, 0, 10]) in facts;
    assert Ground(SPAWN.body[0].atom, env) == [0, 0, 10] && Ground(SPAWN.heads[0], env) == [1, 1, 2];
    assert SatBody(SPAWN.body, sem, facts, facts, -1, facts, env);
    assert IsHeadFact(SPAWN, env, Fact(SPAWN.heads[0].rel, Ground(SPAWN.heads[0], env)));
    assert DerivesFrom([NARROW, SPAWN][1], sem, facts, facts, Fact("V", [1, 1, 2]));
  }

  // V(x, [5, 9]) :- V(x, _). V(1, [1, 2]) :- V(x, [0, 10]). From V(0, [0, 10]) the first rule alone closes the state,
  // but the loop has also used the value that it replaced: no state that it goes through is below that closed one any
  // more.
  lemma NotLeast(sem: Interp, run: seq<State>, n: nat)
    requires NaiveRun([NARROW, SPAWN], sem, SPECS, WIDTHS, iset{}, run) && 0 < n < |run| && run[0] == WIDE
    ensures ClosedState([NARROW, SPAWN], sem, SPECS, WIDTHS, iset{}, NARROWED) && Within(SPECS, WIDE, NARROWED)
    ensures !Within(SPECS, run[n], NARROWED)
  {
    hide *;
    NarrowedIsClosed(sem);
    StepMeans([NARROW, SPAWN], sem, SPECS, WIDTHS, iset{}, run, 0);
    SpawnedIn(sem, run[1]);
    RunRises([NARROW, SPAWN], sem, SPECS, WIDTHS, iset{}, run, 1, n, SPAWNED);
    SpawnedStays(run[1], run[n]);
  }

  lemma SpawnedIn(sem: Interp, after: State)
    requires IsMerge(SPECS, WIDE, DerivedFrom([NARROW, SPAWN], sem, SPECS, WIDTHS, iset{}, WIDE), after)
    ensures SPAWNED in after
  {
    WideSpawns(sem);
    RowParts([1, 1, 2]);
    var cands := DerivedFrom([NARROW, SPAWN], sem, SPECS, WIDTHS, iset{}, WIDE);
    hide DerivedFrom, IsMerge;
    MergeAbsorbs(SPECS, WIDE, cands, after, Fact("V", [1, 1, 2]));
  }

  lemma SpawnedStays(first: State, later: State)
    requires SPAWNED in first && Rises(SPECS, SPAWNED, first, later)
    ensures !Within(SPECS, later, NARROWED)
  {
    assert SPAWNED.1[0] != ZERO.1[0];
    assert SPAWNED in later && SPAWNED !in NARROWED;
  }
}
