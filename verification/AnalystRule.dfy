/** The rule encoding of the annotation callback: its candidate relation holds the callback's witnesses, and the
    keyed join of the candidates is the callback's answer. */
module AnalystRule {
  import opened Datalog
  import opened Seqs
  import opened Lattice
  import opened Float32
  import opened Annotation

  // --- The witnesses as stored words ---

  // A lower and an upper bound, as binary32 words.
  type Words = (nat, nat)

  ghost predicate EncodedAt(i: Interval, w: Words) {
    w.0 <= ONE && w.1 <= ONE && i == Interval(Decode(w.0), Decode(w.1))
  }

  ghost predicate Encoded(c: Call, ws: seq<seq<Words>>) {
    && |ws| == |c.notes|
    && forall i :: 0 <= i < |ws| ==> |ws[i]| == |c.notes[i]| && forall k ::
        0 <= k < |ws[i]| ==> EncodedAt(c.notes[i][k], ws[i][k])
  }

  function Min3(a: int, b: int, c: int): int {
    Lattice.Min(Lattice.Min(a, b), c)
  }

  function WordMeet(x: Words, y: Words, d: Words): Words {
    (Min3(x.0, y.0, d.0), Min3(x.1, y.1, d.1))
  }

  lemma MeetDecodes(x: Words, y: Words, d: Words, ix: Interval, iy: Interval, id: Interval)
    requires EncodedAt(ix, x) && EncodedAt(iy, y) && EncodedAt(id, d)
    ensures EncodedAt(Meet(ix, iy, id), WordMeet(x, y, d))
  {
    hide Decode;
    MinMaxAgree(x.0, y.0);
    MinMaxAgree(Lattice.Min(x.0, y.0), d.0);
    MinMaxAgree(x.1, y.1);
    MinMaxAgree(Lattice.Min(x.1, y.1), d.1);
  }

  ghost predicate Stored(c: Call, p: Parts, ws: seq<seq<Words>>, ranks: seq<int>) {
    && PartsOf(c, p) && Encoded(c, ws) && |ranks| == |c.edges[p.driver]|
    && forall i, j :: 0 <= i < j < |ranks| ==> ranks[i] < ranks[j]
  }

  // The witness value [rank, lower, upper] of driver edge ci, if both labels are there.
  ghost function WitnessAt(c: Call, p: Parts, ws: seq<seq<Words>>, ranks: seq<int>, ci: nat): Option<Val>
    requires Stored(c, p, ws, ranks) && ci < |ranks|
  {
    var kx := FirstTo(c.edges[p.cause], c.edges[p.driver][ci].0, 0);
    var ky := FirstTo(c.edges[p.effect], c.edges[p.driver][ci].1, 0);
    if kx == |c.edges[p.cause]| || ky == |c.edges[p.effect]| then None else
      var m := WordMeet(ws[p.cause][kx], ws[p.effect][ky], ws[p.driver][ci]);
      Some([ranks[ci], m.0, m.1])
  }

  ghost function WitnessVals(c: Call, p: Parts, ws: seq<seq<Words>>, ranks: seq<int>): iset<Val>
    requires Stored(c, p, ws, ranks)
  {
    iset v: Val | exists ci :: 0 <= ci < |ranks| && WitnessAt(c, p, ws, ranks, ci) == Some(v)
  }

  // The stored witness decodes to what the pair offers.
  lemma OfferDecodes(c: Call, p: Parts, ws: seq<seq<Words>>, ranks: seq<int>, ci: nat)
    requires Stored(c, p, ws, ranks) && ci < |ranks|
    ensures var v := WitnessAt(c, p, ws, ranks, ci);
      if v.None? then Offer(c, p, ci).None?
      else && |v.value| == 3 && v.value[0] == ranks[ci] && v.value[1] >= 0 && v.value[2] >= 0
           && Offer(c, p, ci).Some? && EncodedAt(Offer(c, p, ci).value, (v.value[1], v.value[2]))
  {
    hide FirstTo, WordMeet, Meet;
    var kx := FirstTo(c.edges[p.cause], c.edges[p.driver][ci].0, 0);
    var ky := FirstTo(c.edges[p.effect], c.edges[p.driver][ci].1, 0);
    hide Decode;
    if kx < |c.edges[p.cause]| && ky < |c.edges[p.effect]| {
      var x, y, d := ws[p.cause][kx], ws[p.effect][ky], ws[p.driver][ci];
      var ix, iy, id := c.notes[p.cause][kx], c.notes[p.effect][ky], c.notes[p.driver][ci];
      assert EncodedAt(ix, x) && EncodedAt(iy, y) && EncodedAt(id, d);
      MeetDecodes(x, y, d, ix, iy, id);
      UnitInterval(x.0);
      UnitInterval(y.0);
    }
  }

  // The first pair with the greatest lower bound is the witness that joining selects: ranks grow in loop order.
  lemma FirstGreatestIsJoin(c: Call, p: Parts, ws: seq<seq<Words>>, ranks: seq<int>, w: nat)
    requires Stored(c, p, ws, ranks) && FirstGreatest(c, p, |ranks|, w)
    ensures WitnessAt(c, p, ws, ranks, w).Some?
    ensures IsJoin(MAX_LOWER, WitnessVals(c, p, ws, ranks), WitnessAt(c, p, ws, ranks, w).value)
  {
    hide Decode, WitnessAt, Offer, Encoded;
    OfferDecodes(c, p, ws, ranks, w);
    var r := WitnessAt(c, p, ws, ranks, w).value;
    forall v: Val | v in WitnessVals(c, p, ws, ranks) ensures IsVal(MAX_LOWER, v) && !Beats(v, r) {
      var ci :| 0 <= ci < |ranks| && WitnessAt(c, p, ws, ranks, ci) == Some(v);
      OfferDecodes(c, p, ws, ranks, ci);
      DecodeIncreases(r[1], v[1]);
      DecodeIncreases(v[1], r[1]);
      if ci < w { assert v[1] < r[1]; } else { assert v[1] <= r[1] && ranks[w] <= ranks[ci]; }
    }
  }

  lemma WitnessesAreFunctional(c: Call, p: Parts, ws: seq<seq<Words>>, ranks: seq<int>)
    requires Stored(c, p, ws, ranks)
    ensures Functional(MAX_LOWER, WitnessVals(c, p, ws, ranks))
  {
    hide Decode, WitnessAt, Offer, Encoded;
    forall v | v in WitnessVals(c, p, ws, ranks) ensures IsVal(MAX_LOWER, v) {
      var i :| 0 <= i < |ranks| && WitnessAt(c, p, ws, ranks, i) == Some(v);
      OfferDecodes(c, p, ws, ranks, i);
    }
    forall v, w | v in WitnessVals(c, p, ws, ranks) && w in WitnessVals(c, p, ws, ranks) && v[0] == w[0]
      ensures v == w {
      var i :| 0 <= i < |ranks| && WitnessAt(c, p, ws, ranks, i) == Some(v);
      var j :| 0 <= j < |ranks| && WitnessAt(c, p, ws, ranks, j) == Some(w);
      OfferDecodes(c, p, ws, ranks, i);
      OfferDecodes(c, p, ws, ranks, j);
      assert i == j;
    }
  }

  // The parts are those the callback detects.
  ghost predicate Detected(c: Call, p: Parts) {
    PartsOf(c, p) && IsLast(c, Driver, |c.labels|, p.driver) && IsLast(c, Cause, |c.labels|, p.cause)
        && IsLast(c, Effect, |c.labels|, p.effect)
  }

  lemma DetectedAnswers(c: Call, p: Parts, r: Interval)
    requires Detected(c, p) && Answers(c, r)
    ensures AnswersParts(c, p, r)
  {
    hide AnswersParts;
    var d, k, e :| IsLast(c, Driver, |c.labels|, d) && IsLast(c, Cause, |c.labels|, k)
        && IsLast(c, Effect, |c.labels|, e)
                   && AnswersWith(c, d, k, e, r);
    LastUnique(c, Driver, |c.labels|, d, p.driver);
    LastUnique(c, Cause, |c.labels|, k, p.cause);
    LastUnique(c, Effect, |c.labels|, e, p.effect);
  }

  // The bounds a stored value decodes to.
  function DecodedVal(v: Val): Interval
    requires |v| == 3 && v[1] >= 0 && v[2] >= 0
  {
    Interval(Decode(v[1]), Decode(v[2]))
  }

  // The callback answers with the max-lower-select join of all witnesses, or (0,1) when there is none.
  lemma CallbackIsJoin(c: Call, p: Parts, ws: seq<seq<Words>>, ranks: seq<int>, r: Interval)
    requires Stored(c, p, ws, ranks) && Detected(c, p) && Answers(c, r)
    ensures WitnessVals(c, p, ws, ranks) == iset{} ==> r == UNKNOWN
    ensures WitnessVals(c, p, ws, ranks) != iset{} ==> exists v :: IsJoin(MAX_LOWER, WitnessVals(c, p, ws, ranks), v)
    ensures forall v :: WitnessVals(c, p, ws, ranks) != iset{} && IsJoin(MAX_LOWER, WitnessVals(c, p, ws, ranks), v) ==>
              |v| == 3 && v[1] >= 0 && v[2] >= 0 && r == if v[1] > v[2] then UNKNOWN else DecodedVal(v)
  {
    hide Decode, WitnessAt, Offer, Encoded;
    var vals, n := WitnessVals(c, p, ws, ranks), |ranks|;
    DetectedAnswers(c, p, r);
    if NoOffer(c, p, n) {
      forall v ensures v !in vals { NoOfferNoWitness(c, p, ws, ranks, v); }
      assert vals == iset{};
    } else {
      var w :| FirstGreatest(c, p, n, w) && r == Clip(Offer(c, p, w).value);
      FirstGreatestIsJoin(c, p, ws, ranks, w);
      OfferDecodes(c, p, ws, ranks, w);
      var u := WitnessAt(c, p, ws, ranks, w).value;
      assert u in vals;
      ClipDecoded(Offer(c, p, w).value, u[1], u[2]);
      WitnessesAreFunctional(c, p, ws, ranks);
      forall v | IsJoin(MAX_LOWER, vals, v) ensures v == u { IsJoinUnique(MAX_LOWER, vals, v, u); }
    }
  }

  lemma NoOfferNoWitness(c: Call, p: Parts, ws: seq<seq<Words>>, ranks: seq<int>, v: Val)
    requires Stored(c, p, ws, ranks) && NoOffer(c, p, |ranks|)
    ensures v !in WitnessVals(c, p, ws, ranks)
  {
    hide WitnessAt, Offer, Encoded, Decode;
    forall ci | 0 <= ci < |ranks| ensures WitnessAt(c, p, ws, ranks, ci) != Some(v) {
      OfferDecodes(c, p, ws, ranks, ci);
    }
  }

  lemma ClipDecoded(i: Interval, lower: nat, upper: nat)
    requires EncodedAt(i, (lower, upper))
    ensures Clip(i) == if lower > upper then UNKNOWN else Interval(Decode(lower), Decode(upper))
  {
    hide Decode;
    UnitInterval(lower);
    UnitInterval(upper);
    DecodeIncreases(upper, lower);
  }

  // Whatever the order and repetition in which the witnesses are merged.
  lemma CallbackIsFold(c: Call, p: Parts, ws: seq<seq<Words>>, ranks: seq<int>, r: Interval, first: Val, vs: seq<Val>)
    requires Stored(c, p, ws, ranks) && Detected(c, p) && Answers(c, r)
    requires Candidates(first, vs) == WitnessVals(c, p, ws, ranks)
    ensures (forall v :: v in vs ==> IsVal(MAX_LOWER, v)) && IsVal(MAX_LOWER, first)
    ensures var v := Fold(MAX_LOWER, first, vs);
    v[1] >= 0 && v[2] >= 0 && r == if v[1] > v[2] then UNKNOWN else DecodedVal(v)
  {
    hide WitnessAt, Answers, Encoded, Decode;
    WitnessesAreFunctional(c, p, ws, ranks);
    forall v | v in vs || v == first ensures IsVal(MAX_LOWER, v) { assert v in Candidates(first, vs); }
    FoldIsJoin(MAX_LOWER, first, vs);
    assert first in WitnessVals(c, p, ws, ranks);
    CallbackIsJoin(c, p, ws, ranks, r);
  }

  // --- The rule ---

  datatype Thresholds = Thresholds(analyst: Words, cause: Words, effect: Words, connector: Words)

  // At least the lower threshold, at most the upper one.
  predicate Passes(th: Words, lower: int, upper: int) {
    lower >= th.0 && upper <= th.1
  }

  // The texts of the inline code; the rule's variables go by position, under any distinct names.
  datatype Texts = Texts(filter: string, lower: string, upper: string)

  const CB1 := 0
  const CB2 := 1
  const TIME := 2
  const NEXT := 3
  const CAUSE := 4
  const EFFECT := 5
  const RANK := 6
  const AL := 7
  const AU := 8
  const CL := 9
  const CU := 10
  const EL := 11
  const EU := 12
  const KL := 13
  const KU := 14
  const RL := 15
  const RU := 16

  // A relation and the variables at its columns.
  datatype Use = Use(rel: string, at: seq<nat>)

  predicate Within(at: seq<nat>, n: nat) {
    forall i :: 0 <= i < |at| ==> at[i] < n
  }

  // The atoms of the body, its filter's variables, what the two bindings read, and the head.
  function Atoms(connector: string): (r: seq<Use>)
    ensures forall k :: 0 <= k < |r| ==> Within(r[k].at, 15) && Within(r[k].at, 17)
  {
    [Use("AnalystAt", [CB1, TIME, AL, AU]),
     Use("HasLabel", [CB1, CAUSE, CL, CU]),
     Use("HasLabel", [CB2, EFFECT, EL, EU]),
     Use(connector, [CAUSE, EFFECT, RANK, KL, KU]),
     Use("StepFrom", [CB1, CB2, TIME]),
     Use("Successor", [TIME, NEXT])]
  }

  const BOUNDS: seq<nat> := [AL, AU, CL, CU, EL, EU, KL, KU]
  const LOWERS: seq<nat> := [CL, EL, KL]
  const UPPERS: seq<nat> := [CU, EU, KU]
  const HEAD: seq<nat> := [CB2, NEXT, RANK, RL, RU]

  function Vars(v: seq<string>, at: seq<nat>): seq<Arg>
    requires Within(at, |v|)
  {
    seq(|at|, i requires 0 <= i < |at| => LVar(v[at[i]]))
  }

  function Named(v: seq<string>, at: seq<nat>): seq<string>
    requires Within(at, |v|)
  {
    seq(|at|, i requires 0 <= i < |at| => v[at[i]])
  }

  function At(x: seq<int>, at: seq<nat>): seq<int>
    requires Within(at, |x|)
  {
    seq(|at|, i requires 0 <= i < |at| => x[at[i]])
  }

  function AtomClauses(v: seq<string>, uses: seq<Use>): seq<Clause>
    requires forall k :: 0 <= k < |uses| ==> Within(uses[k].at, |v|)
  {
    seq(|uses|, k requires 0 <= k < |uses| => Pos(Atom(uses[k].rel, Vars(v, uses[k].at))))
  }

  // candidate(cb2, next_time, connector_rank, result_lower, result_upper) <= the connector join.
  function CandidateRule(v: seq<string>, connector: string, candidate: string, texts: Texts): Rule
    requires |v| == 17
  {
    Rule([Atom(candidate, Vars(v, HEAD))],
         AtomClauses(v, Atoms(connector)) + CodeClauses(v, texts))
  }

  function CodeClauses(v: seq<string>, texts: Texts): seq<Clause>
    requires |v| == 17
  {
    [Filter(Named(v, BOUNDS), Source(texts.filter)),
     Let(v[RL], Source(texts.lower), Named(v, LOWERS)),
     Let(v[RU], Source(texts.upper), Named(v, UPPERS))]
  }

  predicate AllPass(th: Thresholds, b: seq<int>)
    requires |b| == 8
  {
    Passes(th.analyst, b[0], b[1]) && Passes(th.cause, b[2], b[3]) && Passes(th.effect, b[4], b[5])
        && Passes(th.connector, b[6], b[7])
  }

  // What the inline code computes.
  ghost predicate Understood(sem: Interp, texts: Texts, th: Thresholds) {
    && (forall b: seq<int> :: |b| == 8 ==> (sem.test(texts.filter, b) <==> AllPass(th, b)))
    && (forall b: seq<int> :: |b| == 3 ==> sem.compute(texts.lower, b) == Min3(b[0], b[1], b[2]))
    && (forall b: seq<int> :: |b| == 3 ==> sem.compute(texts.upper, b) == Min3(b[0], b[1], b[2]))
  }

  // The values of all variables: a row of the join that passes the thresholds, with the minima as result.
  ghost predicate IsJoinRow(db: Facts, th: Thresholds, uses: seq<Use>, x: seq<int>)
    requires |x| == 17 && forall k :: 0 <= k < |uses| ==> Within(uses[k].at, |x|)
  {
    AtomsIn(db, uses, x) && CodeAgrees(th, x)
  }

  ghost predicate AtomsIn(db: Facts, uses: seq<Use>, x: seq<int>)
    requires forall k :: 0 <= k < |uses| ==> Within(uses[k].at, |x|)
  {
    forall k :: 0 <= k < |uses| ==> Fact(uses[k].rel, At(x, uses[k].at)) in db
  }

  ghost predicate CodeAgrees(th: Thresholds, x: seq<int>)
    requires |x| == 17
  {
    AllPass(th, At(x, BOUNDS)) && x[RL] == Min3(x[CL], x[EL], x[KL]) && x[RU] == Min3(x[CU], x[EU], x[KU])
  }

  // --- What the rule derives ---

  ghost predicate Agrees(v: seq<string>, env: Env, x: seq<int>) {
    |v| == |x| && forall k :: 0 <= k < |v| ==> x[k] == Look(env, v[k])
  }

  lemma GroundVars(rel: string, v: seq<string>, at: seq<nat>, env: Env, x: seq<int>)
    requires Agrees(v, env, x) && Within(at, |v|)
    ensures Ground(Atom(rel, Vars(v, at)), env) == At(x, at)
    ensures Values(Named(v, at), env) == At(x, at)
  {}

  lemma AtomsHold(v: seq<string>, env: Env, x: seq<int>, uses: seq<Use>, sem: Interp, db: Facts, neg: Facts)
    requires Agrees(v, env, x) && forall k :: 0 <= k < |uses| ==> Within(uses[k].at, |x|)
    ensures SatBody(AtomClauses(v, uses), sem, db, db, -1, neg, env) <==> AtomsIn(db, uses, x)
  {
    var b := AtomClauses(v, uses);
    forall k | 0 <= k < |uses|
      ensures SatClause(b[k], sem, View(db, db, -1, k), neg, env) <==> Fact(uses[k].rel, At(x, uses[k].at)) in db
    {
      GroundVars(uses[k].rel, v, uses[k].at, env, x);
    }
  }

  lemma CodeHolds(v: seq<string>, env: Env, x: seq<int>, texts: Texts, sem: Interp, th: Thresholds, db: Facts,
                  neg: Facts)
    requires |v| == 17 && Agrees(v, env, x) && Understood(sem, texts, th)
    ensures SatBody(CodeClauses(v, texts), sem, db, db, -1, neg, env) <==> CodeAgrees(th, x)
  {
    hide Values, Ground;
    var f, l, u :=
        Filter(Named(v, BOUNDS), Source(texts.filter)), Let(v[RL], Source(texts.lower), Named(v, LOWERS)),
        Let(v[RU], Source(texts.upper), Named(v, UPPERS));
    GroundVars("", v, BOUNDS, env, x);
    GroundVars("", v, LOWERS, env, x);
    GroundVars("", v, UPPERS, env, x);
    assert SatClause(f, sem, db, neg, env) <==> AllPass(th, At(x, BOUNDS));
    assert SatClause(l, sem, db, neg, env) <==> x[RL] == Min3(x[CL], x[EL], x[KL]);
    assert SatClause(u, sem, db, neg, env) <==> x[RU] == Min3(x[CU], x[EU], x[KU]);
    hide SatBody, SatClause, Understood, Named, At, Min3, AllPass, Agrees;
    SatThree(f, l, u, sem, db, neg, env);
  }

  lemma SatBodyAppend(a: seq<Clause>, b: seq<Clause>, sem: Interp, db: Facts, neg: Facts, env: Env)
    ensures SatBody(a + b, sem, db, db, -1, neg, env)
        <==> SatBody(a, sem, db, db, -1, neg, env) && SatBody(b, sem, db, db, -1, neg, env)
  {
    hide SatClause;
    if SatBody(a + b, sem, db, db, -1, neg, env) {
      forall i | 0 <= i < |a| ensures SatClause(a[i], sem, View(db, db, -1, i), neg, env) { assert (a + b)[i] == a[i]; }
      forall i | 0 <= i < |b| ensures SatClause(b[i], sem, View(db, db, -1, i), neg, env) {
        assert (a + b)[|a| + i] == b[i];
        assert SatClause((a + b)[|a| + i], sem, View(db, db, -1, |a| + i), neg, env);
      }
    }
  }

  lemma SatThree(p: Clause, q: Clause, r: Clause, sem: Interp, db: Facts, neg: Facts, env: Env)
    ensures SatBody([p, q, r], sem, db, db, -1, neg, env)
        <==> SatClause(p, sem, db, neg, env) && SatClause(q, sem, db, neg, env) && SatClause(r, sem, db, neg, env)
  {
    hide SatClause;
    var b := [p, q, r];
    if SatBody(b, sem, db, db, -1, neg, env) {
      assert SatClause(b[0], sem, View(db, db, -1, 0), neg, env) && SatClause(b[1], sem, View(db, db, -1, 1), neg, env)
        && SatClause(b[2], sem, View(db, db, -1, 2), neg, env);
    }
  }

  lemma BodySatIff(v: seq<string>, env: Env, x: seq<int>, connector: string, candidate: string, texts: Texts,
                   sem: Interp, th: Thresholds, db: Facts, neg: Facts)
    requires |v| == 17 && Agrees(v, env, x) && Understood(sem, texts, th)
    ensures SatBody(CandidateRule(v, connector, candidate, texts).body, sem, db, db, -1, neg, env)
        <==> IsJoinRow(db, th, Atoms(connector), x)
  {
    RuleBody(v, connector, candidate, texts);
    hide SatBody, AllPass, At, Min3, AtomClauses, CodeClauses, CandidateRule, AtomsIn, CodeAgrees, Understood, Atoms,
        Within;
    assert |x| == 17;
    CodeHolds(v, env, x, texts, sem, th, db, neg);
    AtomsHold(v, env, x, Atoms(connector), sem, db, neg);
    SatBodyAppend(AtomClauses(v, Atoms(connector)), CodeClauses(v, texts), sem, db, neg, env);
  }

  lemma RuleBody(v: seq<string>, connector: string, candidate: string, texts: Texts)
    requires |v| == 17
    ensures CandidateRule(v, connector, candidate, texts).body ==
        AtomClauses(v, Atoms(connector)) + CodeClauses(v, texts)
  {}

  // One binding for any values of distinct variables.
  function Bind(v: seq<string>, x: seq<int>): Env
    requires |v| == |x|
  {
    if |v| == 0 then map[] else Bind(v[..|v| - 1], x[..|v| - 1])[v[|v| - 1] := x[|v| - 1]]
  }

  lemma {:induction false} BindAgrees(v: seq<string>, x: seq<int>)
    requires |v| == |x| && NoDup(v)
    ensures Agrees(v, Bind(v, x), x)
  {
    if |v| > 0 { BindAgrees(v[..|v| - 1], x[..|v| - 1]); }
  }

  ghost predicate Gives(db: Facts, th: Thresholds, connector: string, x: seq<int>, row: Row) {
    |x| == 17 && IsJoinRow(db, th, Atoms(connector), x) && row == At(x, HEAD)
  }

  lemma HeadIs(v: seq<string>, connector: string, candidate: string, texts: Texts, env: Env, x: seq<int>, row: Row)
    requires |v| == 17 && Agrees(v, env, x)
    ensures IsHeadFact(CandidateRule(v, connector, candidate, texts), env, Fact(candidate, row)) <==> row == At(x, HEAD)
  {
    GroundVars(candidate, v, HEAD, env, x);
    var rule := CandidateRule(v, connector, candidate, texts);
    assert rule.heads == [Atom(candidate, Vars(v, HEAD))];
    hide CandidateRule, Ground, At, Vars;
    if row == At(x, HEAD) { assert Fact(candidate, row) == Fact(rule.heads[0].rel, Ground(rule.heads[0], env)); }
  }

  // The candidate relation receives exactly the rows of the connector join.
  lemma CandidatesAreJoinRows(v: seq<string>, connector: string, candidate: string, texts: Texts, sem: Interp,
                              th: Thresholds, db: Facts, neg: Facts, row: Row)
    requires |v| == 17 && NoDup(v) && Understood(sem, texts, th)
    ensures DerivesFrom(CandidateRule(v, connector, candidate, texts), sem, db, neg, Fact(candidate, row)) <==>
            exists x: seq<int> :: Gives(db, th, connector, x, row)
  {
    var rule := CandidateRule(v, connector, candidate, texts);
    hide CandidateRule, SatBody, IsJoinRow, Understood, At, Atoms, IsHeadFact;
    if env :| SatBody(rule.body, sem, db, db, -1, neg, env) && IsHeadFact(rule, env, Fact(candidate, row)) {
      var x := Values(v, env);
      BodySatIff(v, env, x, connector, candidate, texts, sem, th, db, neg);
      HeadIs(v, connector, candidate, texts, env, x, row);
      assert Gives(db, th, connector, x, row);
    }
    if x: seq<int> :| Gives(db, th, connector, x, row) {
      var env := Bind(v, x);
      BindAgrees(v, x);
      BodySatIff(v, env, x, connector, candidate, texts, sem, th, db, neg);
      HeadIs(v, connector, candidate, texts, env, x, row);
    }
  }

  // --- One grounding of the callback against the rule ---

  // The rows of one label clause: the label bounds of a block that pass the thresholds, one per label.
  ghost predicate LabelsOf(db: Facts, block: int, th: Words, edges: seq<(int, int)>, ws: seq<Words>) {
    && |ws| == |edges|
    && (forall i, j :: 0 <= i < j < |edges| ==> edges[i].1 != edges[j].1)
    && forall tag, l, u :: Fact("HasLabel", [block, tag, l, u]) in db && Passes(th, l, u)
         <==> Listed(edges, ws, tag, l, u)
  }

  ghost predicate Listed(edges: seq<(int, int)>, ws: seq<Words>, tag: int, l: int, u: int)
    requires |ws| == |edges|
  {
    exists k :: 0 <= k < |edges| && edges[k].1 == tag && ws[k].0 == l && ws[k].1 == u
  }

  ghost predicate Ranked(edges: seq<(int, int)>, ws: seq<Words>, ranks: seq<int>, x: int, y: int, rank: int, l: int,
                         u: int)
    requires |ws| == |edges| == |ranks|
  {
    exists k :: 0 <= k < |edges| && edges[k] == (x, y) && ranks[k] == rank && ws[k].0 == l && ws[k].1 == u
  }

  ghost predicate ConnectorsOf(db: Facts, connector: string, th: Words, edges: seq<(int, int)>, ws: seq<Words>,
                               ranks: seq<int>) {
    && |ws| == |edges| == |ranks|
    && forall x, y, rank, l, u :: Fact(connector, [x, y, rank, l, u]) in db && Passes(th, l, u)
         <==> Ranked(edges, ws, ranks, x, y, rank, l, u)
  }

  // The call is for the grounding (cb1, cb2), with the clauses' rows as the database has them.
  ghost predicate Grounded(c: Call, p: Parts, ws: seq<seq<Words>>, ranks: seq<int>, db: Facts, th: Thresholds,
                           connector: string, cb1: int, cb2: int) {
    && Stored(c, p, ws, ranks) && |c.edges[p.cause]| == |ws[p.cause]| && |c.edges[p.effect]| == |ws[p.effect]|
    && |c.edges[p.driver]| == |ws[p.driver]|
    && LabelsOf(db, cb1, th.cause, c.edges[p.cause], ws[p.cause])
    && LabelsOf(db, cb2, th.effect, c.edges[p.effect], ws[p.effect])
    && ConnectorsOf(db, connector, th.connector, c.edges[p.driver], ws[p.driver], ranks)
  }

  // The step leads from (cb1, time) to (cb2, next).
  ghost predicate Leads(db: Facts, th: Thresholds, cb1: int, time: int, cb2: int, next: int) {
    && (exists l, u :: Fact("AnalystAt", [cb1, time, l, u]) in db && Passes(th.analyst, l, u))
    && Fact("StepFrom", [cb1, cb2, time]) in db && Fact("Successor", [time, next]) in db
  }

  lemma ListedIsFirst(edges: seq<(int, int)>, ws: seq<Words>, tag: int, l: int, u: int)
    requires |ws| == |edges| && forall i, j :: 0 <= i < j < |edges| ==> edges[i].1 != edges[j].1
    ensures Listed(edges, ws, tag, l, u) <==>
      var k := FirstTo(edges, tag, 0); k < |edges| && ws[k].0 == l && ws[k].1 == u
  {}

  // The values a join row puts at the atoms' columns.
  lemma RowFacts(db: Facts, th: Thresholds, connector: string, x: seq<int>)
    requires |x| == 17
    ensures IsJoinRow(db, th, Atoms(connector), x) <==>
      && Fact("AnalystAt", [x[CB1], x[TIME], x[AL], x[AU]]) in db && Passes(th.analyst, x[AL], x[AU])
      && Fact("HasLabel", [x[CB1], x[CAUSE], x[CL], x[CU]]) in db && Passes(th.cause, x[CL], x[CU])
      && Fact("HasLabel", [x[CB2], x[EFFECT], x[EL], x[EU]]) in db && Passes(th.effect, x[EL], x[EU])
      && Fact(connector, [x[CAUSE], x[EFFECT], x[RANK], x[KL], x[KU]]) in db && Passes(th.connector, x[KL], x[KU])
      && Fact("StepFrom", [x[CB1], x[CB2], x[TIME]]) in db && Fact("Successor", [x[TIME], x[NEXT]]) in db
      && x[RL] == Min3(x[CL], x[EL], x[KL]) && x[RU] == Min3(x[CU], x[EU], x[KU])
  {
    var uses := Atoms(connector);
    assert At(x, uses[0].at) == [x[CB1], x[TIME], x[AL], x[AU]];
    assert At(x, uses[1].at) == [x[CB1], x[CAUSE], x[CL], x[CU]];
    assert At(x, uses[2].at) == [x[CB2], x[EFFECT], x[EL], x[EU]];
    assert At(x, uses[3].at) == [x[CAUSE], x[EFFECT], x[RANK], x[KL], x[KU]];
    assert At(x, uses[4].at) == [x[CB1], x[CB2], x[TIME]];
    assert At(x, uses[5].at) == [x[TIME], x[NEXT]];
    assert At(x, BOUNDS) == [x[AL], x[AU], x[CL], x[CU], x[EL], x[EU], x[KL], x[KU]];
    hide At, Passes, Min3;
    if IsJoinRow(db, th, Atoms(connector), x) {
      forall k | 0 <= k < 6 ensures Fact(uses[k].rel, At(x, uses[k].at)) in db {}
      assert Fact(uses[0].rel, At(x, uses[0].at)) in db && Fact(uses[1].rel, At(x, uses[1].at)) in db
          && Fact(uses[2].rel, At(x, uses[2].at)) in db;
      assert Fact(uses[3].rel, At(x, uses[3].at)) in db && Fact(uses[4].rel, At(x, uses[4].at)) in db
          && Fact(uses[5].rel, At(x, uses[5].at)) in db;
    }
  }

  // x is a row of the join for this step, proposing val.
  ghost predicate RowOf(db: Facts, th: Thresholds, connector: string, cb1: int, cb2: int, next: int, x: seq<int>,
                        val: Val) {
    && |x| == 17 && IsJoinRow(db, th, Atoms(connector), x)
    && x[CB1] == cb1 && x[CB2] == cb2 && x[NEXT] == next && val == [x[RANK], x[RL], x[RU]]
  }

  lemma RowIsWitness(c: Call, p: Parts, ws: seq<seq<Words>>, ranks: seq<int>, db: Facts, th: Thresholds,
                     connector: string, cb1: int, cb2: int,
                     next: int, x: seq<int>, val: Val)
    requires Grounded(c, p, ws, ranks, db, th, connector, cb1, cb2) && RowOf(db, th, connector, cb1, cb2, next, x, val)
    ensures val in WitnessVals(c, p, ws, ranks)
  {
    RowFacts(db, th, connector, x);
    hide IsJoinRow, Passes, Atoms, Encoded;
    assert Listed(c.edges[p.cause], ws[p.cause], x[CAUSE], x[CL], x[CU]);
    assert Listed(c.edges[p.effect], ws[p.effect], x[EFFECT], x[EL], x[EU]);
    assert Ranked(c.edges[p.driver], ws[p.driver], ranks, x[CAUSE], x[EFFECT], x[RANK], x[KL], x[KU]);
    ListedIsFirst(c.edges[p.cause], ws[p.cause], x[CAUSE], x[CL], x[CU]);
    ListedIsFirst(c.edges[p.effect], ws[p.effect], x[EFFECT], x[EL], x[EU]);
    var ci :| 0 <= ci < |ranks| && c.edges[p.driver][ci] == (x[CAUSE], x[EFFECT]) && ranks[ci] == x[RANK]
              && ws[p.driver][ci].0 == x[KL] && ws[p.driver][ci].1 == x[KU];
    assert WitnessAt(c, p, ws, ranks, ci) == Some(val);
  }

  lemma WitnessIsRow(c: Call, p: Parts, ws: seq<seq<Words>>, ranks: seq<int>, db: Facts, th: Thresholds,
                     connector: string, cb1: int, cb2: int,
                     time: int, next: int, val: Val) returns (x: seq<int>)
    requires Grounded(c, p, ws, ranks, db, th, connector, cb1, cb2) && Leads(db, th, cb1, time, cb2, next)
    requires val in WitnessVals(c, p, ws, ranks)
    ensures RowOf(db, th, connector, cb1, cb2, next, x, val)
  {
    hide IsJoinRow, Atoms, Listed, FirstTo, Min3;
    var ci: nat :| ci < |ranks| && WitnessAt(c, p, ws, ranks, ci) == Some(val);
    var l, u :| Fact("AnalystAt", [cb1, time, l, u]) in db && Passes(th.analyst, l, u);
    var edge, d := c.edges[p.driver][ci], ws[p.driver][ci];
    var kx, ky := FirstTo(c.edges[p.cause], edge.0, 0), FirstTo(c.edges[p.effect], edge.1, 0);
    var wx, wy := ws[p.cause][kx], ws[p.effect][ky];
    ListedIsFirst(c.edges[p.cause], ws[p.cause], edge.0, wx.0, wx.1);
    ListedIsFirst(c.edges[p.effect], ws[p.effect], edge.1, wy.0, wy.1);
    assert Ranked(c.edges[p.driver], ws[p.driver], ranks, edge.0, edge.1, ranks[ci], d.0, d.1);
    x := [cb1, cb2, time, next, edge.0, edge.1, ranks[ci], l, u, wx.0, wx.1, wy.0, wy.1, d.0, d.1, val[1], val[2]];
    hide Encoded, Passes;
    RowFacts(db, th, connector, x);
  }

  // What the rule proposes for the key (cb2, next).
  ghost function Proposed(rule: Rule, candidate: string, sem: Interp, db: Facts, neg: Facts, cb2: int,
                          next: int): iset<Val> {
    iset val: Val | |val| == 3 && DerivesFrom(rule, sem, db, neg, Fact(candidate, [cb2, next] + val))
  }

  // One grounding's call, and its clauses as stored.
  datatype Grounding = Grounding(call: Call, parts: Parts, words: seq<seq<Words>>, ranks: seq<int>)

  ghost predicate GroundedBlock(g: Grounding, db: Facts, th: Thresholds, connector: string, cb1: int, cb2: int) {
    Grounded(g.call, g.parts, g.words, g.ranks, db, th, connector, cb1, cb2)
  }

  // Some step leads from the block to the key.
  ghost predicate LeadsTo(db: Facts, th: Thresholds, cb1: int, cb2: int, next: int) {
    exists time :: Leads(db, th, cb1, time, cb2, next)
  }

  // Every block that leads to the key has its grounding.
  ghost predicate AllGrounded(gs: map<int, Grounding>, db: Facts, th: Thresholds, connector: string, cb2: int,
                              next: int) {
    forall b :: LeadsTo(db, th, b, cb2, next) ==> b in gs && GroundedBlock(gs[b], db, th, connector, b, cb2)
  }

  ghost predicate WitnessOf(gs: map<int, Grounding>, db: Facts, th: Thresholds, cb2: int, next: int, b: int, val: Val) {
    && LeadsTo(db, th, b, cb2, next) && b in gs && Stored(gs[b].call, gs[b].parts, gs[b].words, gs[b].ranks)
    && val in WitnessVals(gs[b].call, gs[b].parts, gs[b].words, gs[b].ranks)
  }

  // For each key the rule proposes exactly the callback's witnesses, over all the blocks that lead to it.
  lemma ProposedAreWitnesses(v: seq<string>, connector: string, candidate: string, texts: Texts, sem: Interp,
                             th: Thresholds, db: Facts, neg: Facts,
                             gs: map<int, Grounding>, cb2: int, next: int, val: Val)
    requires |v| == 17 && NoDup(v) && Understood(sem, texts, th) && AllGrounded(gs, db, th, connector, cb2, next)
    ensures val in Proposed(CandidateRule(v, connector, candidate, texts), candidate, sem, db, neg, cb2, next) <==>
            exists b :: WitnessOf(gs, db, th, cb2, next, b, val)
  {
    var rule := CandidateRule(v, connector, candidate, texts);
    CandidatesAreJoinRows(v, connector, candidate, texts, sem, th, db, neg, [cb2, next] + val);
    hide CandidateRule, DerivesFrom, Understood, Grounded, WitnessVals, IsJoinRow, Atoms, Leads, Gives;
    if val in Proposed(rule, candidate, sem, db, neg, cb2, next) {
      var x: seq<int> :| Gives(db, th, connector, x, [cb2, next] + val);
      GivenIsRow(db, th, connector, x, cb2, next, val);
      var b := x[CB1];
      assert GroundedBlock(gs[b], db, th, connector, b, cb2);
      RowIsWitness(gs[b].call, gs[b].parts, gs[b].words, gs[b].ranks, db, th, connector, b, cb2, next, x, val);
      GroundedIsStored(gs[b], db, th, connector, b, cb2);
      assert WitnessOf(gs, db, th, cb2, next, b, val);
    }
    if b :| WitnessOf(gs, db, th, cb2, next, b, val) {
      var time :| Leads(db, th, b, time, cb2, next);
      assert GroundedBlock(gs[b], db, th, connector, b, cb2);
      var x := WitnessIsRow(gs[b].call, gs[b].parts, gs[b].words, gs[b].ranks, db, th, connector, b, cb2, time, next,
                            val);
      RowIsGiven(db, th, connector, x, b, cb2, next, val);
    }
  }

  lemma GroundedIsStored(g: Grounding, db: Facts, th: Thresholds, connector: string, cb1: int, cb2: int)
    requires GroundedBlock(g, db, th, connector, cb1, cb2)
    ensures Stored(g.call, g.parts, g.words, g.ranks)
  {}

  lemma GivenIsRow(db: Facts, th: Thresholds, connector: string, x: seq<int>, cb2: int, next: int, val: Val)
    requires Gives(db, th, connector, x, [cb2, next] + val) && |val| == 3
    ensures |x| == 17 && RowOf(db, th, connector, x[CB1], cb2, next, x, val) && LeadsTo(db, th, x[CB1], cb2, next)
  {
    RowFacts(db, th, connector, x);
    hide IsJoinRow, Atoms;
    var row := [cb2, next] + val;
    assert row == At(x, HEAD);
    assert |row| == 5 && row[0] == x[CB2] && row[1] == x[NEXT] && row[2] == x[RANK] && row[3] == x[RL]
        && row[4] == x[RU];
    assert val == row[2..];
    assert Leads(db, th, x[CB1], x[TIME], cb2, next);
  }

  lemma RowIsGiven(db: Facts, th: Thresholds, connector: string, x: seq<int>, cb1: int, cb2: int, next: int, val: Val)
    requires RowOf(db, th, connector, cb1, cb2, next, x, val)
    ensures |val| == 3 && Gives(db, th, connector, x, [cb2, next] + val)
  {
    hide IsJoinRow, Atoms;
    assert At(x, HEAD) == [x[CB2], x[NEXT], x[RANK], x[RL], x[RU]];
  }

  ghost predicate Answered(gs: map<int, Grounding>, rs: map<int, Interval>, b: int) {
    b in gs && b in rs && Detected(gs[b].call, gs[b].parts) && Answers(gs[b].call, rs[b])
  }

  // val decodes to block b's answer.
  ghost predicate IsAnswer(val: Val, r: Interval) {
    |val| == 3 && val[1] >= 0 && val[2] >= 0 && r == if val[1] > val[2] then UNKNOWN else DecodedVal(val)
  }

  // val decodes to the answer for one of the blocks that lead to the key, and no such block's answer has a greater
  // lower bound.
  ghost predicate IsBest(rs: map<int, Interval>, db: Facts, th: Thresholds, cb2: int, next: int, val: Val) {
    && (forall b :: LeadsTo(db, th, b, cb2, next) ==> b in rs) && |val| == 3 && val[1] >= 0
    && (exists b :: LeadsTo(db, th, b, cb2, next) && IsAnswer(val, rs[b]))
    && forall b :: LeadsTo(db, th, b, cb2, next) ==> rs[b].lower <= Decode(val[1])
  }

  // The joined candidate against one block's answer: no answer has a greater lower bound.
  lemma AnswerBelow(g: Grounding, all: iset<Val>, val: Val, r: Interval)
    requires Stored(g.call, g.parts, g.words, g.ranks) && Detected(g.call, g.parts) && Answers(g.call, r)
    requires WitnessVals(g.call, g.parts, g.words, g.ranks) <= all && IsJoin(MAX_LOWER, all, val) && val[1] >= 0
    ensures r.lower <= Decode(val[1])
  {
    var vals := WitnessVals(g.call, g.parts, g.words, g.ranks);
    CallbackIsJoin(g.call, g.parts, g.words, g.ranks, r);
    UnitInterval(val[1]);
    hide WitnessVals, Stored, Detected, Answers, Decode;
    if v: Val :| vals != iset{} && IsJoin(MAX_LOWER, vals, v) {
      assert v in all && !Beats(v, val);
      DecodeIncreases(val[1], v[1]);
    }
  }

  ghost predicate JoinsToAnswer(cands: iset<Val>, rs: map<int, Interval>, db: Facts, th: Thresholds, cb2: int,
                                next: int) {
    if cands == iset{} then forall b :: LeadsTo(db, th, b, cb2, next) ==> b in rs && rs[b] == UNKNOWN
    else forall val: Val :: IsJoin(MAX_LOWER, cands, val) ==> IsBest(rs, db, th, cb2, next, val)
  }

  // So joining the candidates under their key gives the callback's answer for one of the blocks that lead to it, one
  // whose lower bound is greatest; with one such block it is that block's answer.
  lemma RuleReproducesCallback(v: seq<string>, connector: string, candidate: string, texts: Texts, sem: Interp,
                               th: Thresholds, db: Facts, neg: Facts,
                               gs: map<int, Grounding>, rs: map<int, Interval>, cb2: int, next: int)
    requires |v| == 17 && NoDup(v) && Understood(sem, texts, th) && AllGrounded(gs, db, th, connector, cb2, next)
    requires forall b :: LeadsTo(db, th, b, cb2, next) ==> Answered(gs, rs, b)
    ensures JoinsToAnswer(Proposed(CandidateRule(v, connector, candidate, texts), candidate, sem, db, neg, cb2, next),
                          rs, db, th, cb2, next)
  {
    hide *;
    var cands := Proposed(CandidateRule(v, connector, candidate, texts), candidate, sem, db, neg, cb2, next);
    forall val ensures val in cands <==> exists b :: WitnessOf(gs, db, th, cb2, next, b, val) {
      ProposedAreWitnesses(v, connector, candidate, texts, sem, th, db, neg, gs, cb2, next, val);
    }
    forall b | LeadsTo(db, th, b, cb2, next) ensures BlockIn(gs, b, cands) {
      WitnessesProposed(gs, db, th, connector, cb2, next, b, cands);
    }
    WitnessesJoin(gs, rs, db, th, cb2, next, cands);
  }

  ghost predicate BlockIn(gs: map<int, Grounding>, b: int, cands: iset<Val>) {
    b in gs && Stored(gs[b].call, gs[b].parts, gs[b].words, gs[b].ranks)
        && WitnessVals(gs[b].call, gs[b].parts, gs[b].words, gs[b].ranks) <= cands
  }

  lemma WitnessesProposed(gs: map<int, Grounding>, db: Facts, th: Thresholds, connector: string, cb2: int, next: int,
                          b: int, cands: iset<Val>)
    requires AllGrounded(gs, db, th, connector, cb2, next) && LeadsTo(db, th, b, cb2, next)
    requires forall w :: w in cands <==> exists b :: WitnessOf(gs, db, th, cb2, next, b, w)
    ensures BlockIn(gs, b, cands)
  {
    hide WitnessVals, Stored, LeadsTo, GroundedBlock;
    GroundedIsStored(gs[b], db, th, connector, b, cb2);
    forall val | val in WitnessVals(gs[b].call, gs[b].parts, gs[b].words, gs[b].ranks) ensures val in cands {
      assert WitnessOf(gs, db, th, cb2, next, b, val);
    }
  }

  lemma WitnessesJoin(gs: map<int, Grounding>, rs: map<int, Interval>, db: Facts, th: Thresholds, cb2: int, next: int,
                      cands: iset<Val>)
    requires forall w :: w in cands <==> exists b :: WitnessOf(gs, db, th, cb2, next, b, w)
    requires forall b :: LeadsTo(db, th, b, cb2, next) ==> Answered(gs, rs, b) && BlockIn(gs, b, cands)
    ensures JoinsToAnswer(cands, rs, db, th, cb2, next)
  {
    hide WitnessVals, Stored, LeadsTo, Decode, Answers, Detected, WitnessOf;
    if cands == iset{} {
      forall b | LeadsTo(db, th, b, cb2, next) ensures b in rs && rs[b] == UNKNOWN {
        CallbackIsJoin(gs[b].call, gs[b].parts, gs[b].words, gs[b].ranks, rs[b]);
      }
    } else {
      forall val: Val | IsJoin(MAX_LOWER, cands, val) ensures IsBest(rs, db, th, cb2, next, val) {
        JoinIsAnswer(gs, rs, db, th, cb2, next, cands, val);
        forall b | LeadsTo(db, th, b, cb2, next) ensures rs[b].lower <= Decode(val[1]) {
          AnswerBelow(gs[b], cands, val, rs[b]);
        }
      }
    }
  }

  lemma JoinIsAnswer(gs: map<int, Grounding>, rs: map<int, Interval>, db: Facts, th: Thresholds, cb2: int, next: int,
                     cands: iset<Val>, val: Val)
    requires IsJoin(MAX_LOWER, cands, val)
    requires forall w :: w in cands <==> exists b :: WitnessOf(gs, db, th, cb2, next, b, w)
    requires forall b :: LeadsTo(db, th, b, cb2, next) ==> Answered(gs, rs, b) && BlockIn(gs, b, cands)
    ensures val[1] >= 0 && exists b :: LeadsTo(db, th, b, cb2, next) && b in rs && IsAnswer(val, rs[b])
  {
    hide Answers, Detected, LeadsTo, WitnessVals, Stored, Decode;
    assert val in cands;
    var b :| WitnessOf(gs, db, th, cb2, next, b, val);
    var g := gs[b];
    var vals := WitnessVals(g.call, g.parts, g.words, g.ranks);
    assert BlockIn(gs, b, cands) && Answered(gs, rs, b);
    assert IsJoin(MAX_LOWER, vals, val);
    CallbackIsJoin(g.call, g.parts, g.words, g.ranks, rs[b]);
    assert IsAnswer(val, rs[b]);
  }
}
