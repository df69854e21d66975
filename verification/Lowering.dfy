/** `lower_variant_to_pipeline`: column joins for the join variables, one Cartesian join for the rest, negations,
    filters and lets in source order, one insert per head. */
module Lowering {
  import opened Datalog
  import opened Seqs
  import opened SemiNaive
  import opened ClauseOrder
  import opened Planner
  import opened Mir

  function SourceOf(p: AccessPattern, index: seq<nat>, prefix: seq<string>): ColumnSource {
    ColumnSource(p.rel, p.version, index, prefix, p.clauseIdx)
  }

  function PrefixVars(p: AccessPattern): seq<string> {
    if p.prefixLen <= |p.accessOrder| then p.accessOrder[..p.prefixLen] else p.accessOrder
  }

  // --- Column joins ---

  predicate Joins(p: AccessPattern, v: string) {
    v in p.accessOrder && |p.rel| > 0
  }

  function JoinSources(v: string, patterns: seq<AccessPattern>, bound: seq<string>): seq<ColumnSource> {
    if |patterns| == 0 then [] else
      var p := patterns[|patterns| - 1];
      JoinSources(v, patterns[..|patterns| - 1], bound) +
      if Joins(p, v) then [SourceOf(p, p.indexCols, KeepIn(p.accessOrder, Elems(bound)))] else []
  }

  // Remembers the index of every pattern that takes part.
  function Record(computed: map<nat, seq<nat>>, v: string, patterns: seq<AccessPattern>): map<nat, seq<nat>> {
    if |patterns| == 0 then computed else
      var p := patterns[|patterns| - 1];
      var before := Record(computed, v, patterns[..|patterns| - 1]);
      if Joins(p, v) then before[p.clauseIdx := p.indexCols] else before
  }

  datatype Joined = Joined(ops: seq<Op>, bound: seq<string>, computed: map<nat, seq<nat>>)

  function JoinVar(st: Joined, v: string, join: set<string>, patterns: seq<AccessPattern>): Joined {
    if v !in join then st else
      var sources := JoinSources(v, patterns, st.bound);
      var computed := Record(st.computed, v, patterns);
      if |sources| > 0 then Joined(st.ops + [ColumnJoin(v, sources)], st.bound + [v], computed)
      else Joined(st.ops, st.bound, computed)
  }

  function JoinVars(varOrder: seq<string>, join: set<string>, patterns: seq<AccessPattern>): Joined {
    if |varOrder| == 0 then Joined([], [], map[]) else
      JoinVar(JoinVars(varOrder[..|varOrder| - 1], join, patterns), varOrder[|varOrder| - 1], join, patterns)
  }

  method LowerJoins(varOrder: seq<string>, join: set<string>, patterns: seq<AccessPattern>) returns (st: Joined)
    ensures st == JoinVars(varOrder, join, patterns)
  {
    var ops: seq<Op>, bound: seq<string>, computed: map<nat, seq<nat>> := [], [], map[];
    for i := 0 to |varOrder|
      invariant Joined(ops, bound, computed) == JoinVars(varOrder[..i], join, patterns)
    {
      assert varOrder[..i + 1][..i] == varOrder[..i];
      var v := varOrder[i];
      if v in join {
        var sources: seq<ColumnSource> := [];
        ghost var computed0 := computed;
        for k := 0 to |patterns|
          invariant sources == JoinSources(v, patterns[..k], bound)
          invariant computed == Record(computed0, v, patterns[..k])
        {
          assert patterns[..k + 1][..k] == patterns[..k];
          var p := patterns[k];
          if v in p.accessOrder && |p.rel| > 0 {
            computed := computed[p.clauseIdx := p.indexCols];
            sources := sources + [SourceOf(p, p.indexCols, KeepIn(p.accessOrder, Elems(bound)))];
          }
        }
        assert patterns[..|patterns|] == patterns;
        if |sources| > 0 {
          ops := ops + [ColumnJoin(v, sources)];
          bound := bound + [v];
        }
      }
    }
    assert varOrder[..|varOrder|] == varOrder;
    st := Joined(ops, bound, computed);
  }

  // --- The Cartesian join ---

  function PatternVars(patterns: seq<AccessPattern>): set<string> {
    if |patterns| == 0 then {} else
      PatternVars(patterns[..|patterns| - 1]) + Elems(patterns[|patterns| - 1].accessOrder)
  }

  function LetVars(body: seq<Clause>): set<string> {
    if |body| == 0 then {} else
      LetVars(body[..|body| - 1]) + if body[|body| - 1].Let? then {body[|body| - 1].bound} else {}
  }

  // Variables of atoms that the variable order does not list.
  function AddUnlisted(acc: seq<string>, body: seq<Clause>, skip: set<string>): (r: seq<string>)
    ensures forall v ::
      v in r <==>
      v in acc || (v !in skip && exists i :: 0 <= i < |body| && body[i].Pos? && v in ArgVars(body[i].atom.args))
  {
    if |body| == 0 then acc else
      var before := AddUnlisted(acc, body[..|body| - 1], skip);
      if body[|body| - 1].Pos? then AddNew(before, ArgVars(body[|body| - 1].atom.args), skip, false) else before
  }

  function Independent(body: seq<Clause>, plan: Plan): seq<string> {
    var negationOnly := PatternVars(plan.negations) - PatternVars(plan.access);
    var listed := KeepIn(plan.varOrder, Elems(plan.varOrder) - plan.join - negationOnly - LetVars(body));
    AddUnlisted(listed, body, plan.join + negationOnly)
  }

  function IndexOf<T(==)>(s: seq<T>, x: T): (i: nat)
    ensures i <= |s| && (i < |s| <==> x in s) && (i < |s| ==> s[i] == x)
    ensures forall j :: 0 <= j < i ==> s[j] != x
  {
    if |s| == 0 || s[0] == x then 0 else 1 + IndexOf(s[1..], x)
  }

  // Columns of the bound variables, in binding order.
  function BoundColumns(p: AccessPattern, bound: seq<string>): seq<nat> {
    if |bound| == 0 then [] else
      var before := BoundColumns(p, bound[..|bound| - 1]);
      var i := IndexOf(p.accessOrder, bound[|bound| - 1]);
      if i < |p.accessOrder| && i < |p.indexCols|
          && p.indexCols[i] !in before then before + [p.indexCols[i]] else before
  }

  function CartesianIndex(p: AccessPattern, st: Joined): seq<nat> {
    if p.clauseIdx in st.computed then st.computed[p.clauseIdx] else
      var cols := BoundColumns(p, st.bound);
      cols + KeepIn(p.indexCols, Elems(p.indexCols) - Elems(cols))
  }

  function Least(a: nat, b: nat): nat {
    if a < b then a else b
  }

  // The pattern's variables over the given columns that are in keep, once each.
  function ColumnVars(p: AccessPattern, cols: seq<nat>, keep: set<string>): seq<string> {
    if |cols| == 0 then [] else
      var before := ColumnVars(p, cols[..|cols| - 1], keep);
      var n := Least(|p.accessOrder|, |p.indexCols|);
      var i := IndexOf(p.indexCols[..n], cols[|cols| - 1]);
      if i < n && p.accessOrder[i] in keep && p.accessOrder[i] !in before then before + [p.accessOrder[i]] else before
  }

  predicate Provides(p: AccessPattern, indep: set<string>) {
    (exists v :: v in p.accessOrder && v in indep) && |p.rel| > 0
  }

  function CartesianSource(p: AccessPattern, st: Joined): ColumnSource {
    var index := CartesianIndex(p, st);
    SourceOf(p, index, ColumnVars(p, index, Elems(st.bound)))
  }

  function CartesianVars(p: AccessPattern, st: Joined, indep: set<string>): seq<string> {
    var source := CartesianSource(p, st);
    ColumnVars(p, source.index, indep - Elems(source.prefix))
  }

  function CartesianSources(patterns: seq<AccessPattern>, st: Joined,
                            indep: set<string>): (r: (seq<ColumnSource>, seq<seq<string>>))
    ensures |r.0| == |r.1|
  {
    if |patterns| == 0 then ([], []) else
      var p := patterns[|patterns| - 1];
      var before := CartesianSources(patterns[..|patterns| - 1], st, indep);
      if Provides(p, indep) then (before.0 + [CartesianSource(p, st)], before.1 + [CartesianVars(p, st, indep)])
          else before
  }

  function Cartesian(body: seq<Clause>, plan: Plan, st: Joined): seq<Op> {
    var vars := Independent(body, plan);
    var sources := CartesianSources(plan.access, st, Elems(vars));
    if |vars| > 0 && |sources.0| > 0 then [CartesianJoin(vars, sources.0, sources.1)] else []
  }

  method LowerMultiClause(body: seq<Clause>, plan: Plan) returns (ops: seq<Op>)
    ensures var st := JoinVars(plan.varOrder, plan.join, plan.access); ops == st.ops + Cartesian(body, plan, st)
  {
    var st := LowerJoins(plan.varOrder, plan.join, plan.access);
    ops := st.ops;
    var vars := Independent(body, plan);
    if |vars| > 0 {
      var indep := Elems(vars);
      var sources: seq<ColumnSource>, from: seq<seq<string>> := [], [];
      for k := 0 to |plan.access|
        invariant (sources, from) == CartesianSources(plan.access[..k], st, indep)
      {
        assert plan.access[..k + 1][..k] == plan.access[..k];
        var p := plan.access[k];
        if Provides(p, indep) {
          var index := CartesianIndex(p, st);
          var prefix := ColumnVars(p, index, Elems(st.bound));
          var fromThis := ColumnVars(p, index, indep - Elems(prefix));
          sources := sources + [SourceOf(p, index, prefix)];
          from := from + [fromThis];
        }
      }
      assert plan.access[..|plan.access|] == plan.access;
      if |sources| > 0 {
        ops := ops + [CartesianJoin(vars, sources, from)];
      }
    }
  }

  // --- Negations, filters, lets, inserts ---

  function Negations(patterns: seq<AccessPattern>): seq<Op> {
    seq(|patterns|, k requires 0 <= k < |patterns| =>
      Negation(SourceOf(patterns[k], patterns[k].indexCols, PrefixVars(patterns[k])), patterns[k].constArgs))
  }

  function FiltersAndLets(body: seq<Clause>): seq<Op> {
    if |body| == 0 then [] else
      FiltersAndLets(body[..|body| - 1]) +
      match body[|body| - 1]
      case Filter(vars, code) => [FilterOp(vars, code)]
      case Let(x, code, deps) => [ConstantBind(x, code, deps)]
      case Pos(_) => []
      case Neg(_) => []
  }

  function HeadIndex(head: Atom, canonical: map<string, seq<nat>>): seq<nat> {
    if head.rel in canonical then canonical[head.rel] else seq(|head.args|, k requires 0 <= k => k)
  }

  function Inserts(heads: seq<Atom>, canonical: map<string, seq<nat>>): seq<Op> {
    seq(|heads|, h requires 0 <= h < |heads| =>
      InsertInto(heads[h].rel, ArgVars(heads[h].args), HeadIndex(heads[h], canonical)))
  }

  function Generators(body: seq<Clause>, plan: Plan): seq<Op> {
    if |plan.access| == 0 then []
    else if |plan.access| == 1 then
      var p := plan.access[0];
      [Scan(p.accessOrder, SourceOf(p, p.indexCols, PrefixVars(p)))]
    else
      var st := JoinVars(plan.varOrder, plan.join, plan.access);
      st.ops + Cartesian(body, plan, st)
  }

  function Pipeline(rule: Rule, plan: Plan, canonical: map<string, seq<nat>>): seq<Op> {
    Generators(rule.body, plan) + Negations(plan.negations) + FiltersAndLets(rule.body) + Inserts(rule.heads, canonical)
  }

  method LowerFiltersAndLets(body: seq<Clause>) returns (ops: seq<Op>)
    ensures ops == FiltersAndLets(body)
  {
    ops := [];
    for i := 0 to |body|
      invariant ops == FiltersAndLets(body[..i])
    {
      assert body[..i + 1][..i] == body[..i];
      if body[i].Filter? {
        ops := ops + [FilterOp(body[i].vars, body[i].code)];
      } else if body[i].Let? {
        ops := ops + [ConstantBind(body[i].bound, body[i].code, body[i].deps)];
      }
    }
    assert body[..|body|] == body;
  }

  method LowerGenerators(body: seq<Clause>, plan: Plan) returns (ops: seq<Op>)
    ensures ops == Generators(body, plan)
  {
    ops := [];
    if |plan.access| == 1 {
      var p := plan.access[0];
      ops := [Scan(p.accessOrder, SourceOf(p, p.indexCols, PrefixVars(p)))];
    } else if |plan.access| > 1 {
      ops := LowerMultiClause(body, plan);
    }
  }

  method LowerVariantToPipeline(v: Variant, plan: Plan, canonical: map<string, seq<nat>>) returns (ops: seq<Op>)
    ensures ops == Pipeline(v.rule, plan, canonical)
  {
    ops := LowerGenerators(v.rule.body, plan);
    hide Generators, FiltersAndLets, HeadIndex;
    ghost var generators := ops;
    for k := 0 to |plan.negations|
      invariant ops == generators + Negations(plan.negations)[..k]
    {
      var p := plan.negations[k];
      ops := ops + [Negation(SourceOf(p, p.indexCols, PrefixVars(p)), p.constArgs)];
    }
    var selections := LowerFiltersAndLets(v.rule.body);
    ops := ops + selections;
    ghost var before := ops;
    for h := 0 to |v.rule.heads|
      invariant ops == before + Inserts(v.rule.heads, canonical)[..h]
    {
      var head := v.rule.heads[h];
      ops := ops + [InsertInto(head.rel, ArgVars(head.args), HeadIndex(head, canonical))];
    }
  }

  // --- Where column sources come from ---

  ghost predicate ReadBy(op: Op, s: ColumnSource) {
    match op
    case Scan(_, source) => s == source
    case ColumnJoin(_, sources) => s in sources
    case CartesianJoin(_, sources, _) => s in sources
    case Negation(source, _) => s == source
    case _ => false
  }

  // The source reads the pattern's relation, in its version, for its clause.
  ghost predicate Serves(s: ColumnSource, p: AccessPattern) {
    s.rel == p.rel && s.version == p.version && s.clauseIdx == p.clauseIdx
  }

  ghost predicate ServesSome(s: ColumnSource, patterns: seq<AccessPattern>) {
    exists p :: p in patterns && Serves(s, p)
  }

  lemma ServesMore(s: ColumnSource, init: seq<AccessPattern>, patterns: seq<AccessPattern>)
    requires ServesSome(s, init) && init <= patterns
    ensures ServesSome(s, patterns)
  {
    var p :| p in init && Serves(s, p);
    assert p in patterns;
  }

  lemma {:induction false} JoinSourcesServe(v: string, patterns: seq<AccessPattern>, bound: seq<string>,
                                            s: ColumnSource)
    requires s in JoinSources(v, patterns, bound)
    ensures ServesSome(s, patterns)
  {
    var init, p := patterns[..|patterns| - 1], patterns[|patterns| - 1];
    if s in JoinSources(v, init, bound) {
      JoinSourcesServe(v, init, bound, s);
      ServesMore(s, init, patterns);
    } else {
      assert Serves(s, p);
    }
  }

  lemma {:induction false} JoinVarsServe(varOrder: seq<string>, join: set<string>, patterns: seq<AccessPattern>, op: Op,
                                         s: ColumnSource)
    requires op in JoinVars(varOrder, join, patterns).ops && ReadBy(op, s)
    ensures ServesSome(s, patterns)
  {
    hide JoinSources, Record, ServesSome;
    var init := varOrder[..|varOrder| - 1];
    if op in JoinVars(init, join, patterns).ops {
      JoinVarsServe(init, join, patterns, op, s);
    } else {
      JoinSourcesServe(varOrder[|varOrder| - 1], patterns, JoinVars(init, join, patterns).bound, s);
    }
  }

  lemma {:induction false} CartesianServes(patterns: seq<AccessPattern>, st: Joined, indep: set<string>,
                                           s: ColumnSource)
    requires s in CartesianSources(patterns, st, indep).0
    ensures ServesSome(s, patterns)
  {
    var init, p := patterns[..|patterns| - 1], patterns[|patterns| - 1];
    if s in CartesianSources(init, st, indep).0 {
      CartesianServes(init, st, indep, s);
      ServesMore(s, init, patterns);
    } else {
      assert Serves(s, p);
    }
  }

  lemma {:induction false} SelectionsReadNothing(body: seq<Clause>, op: Op, s: ColumnSource)
    requires op in FiltersAndLets(body)
    ensures !ReadBy(op, s)
  {
    if op in FiltersAndLets(body[..|body| - 1]) { SelectionsReadNothing(body[..|body| - 1], op, s); }
  }

  // Every source of a pipeline reads for one of the plan's patterns.
  lemma SourcesServe(rule: Rule, plan: Plan, canonical: map<string, seq<nat>>, op: Op, s: ColumnSource)
    requires op in Pipeline(rule, plan, canonical) && ReadBy(op, s)
    ensures ServesSome(s, plan.access) || ServesSome(s, plan.negations)
  {
    hide Independent, Elems;
    if op in FiltersAndLets(rule.body) {
      SelectionsReadNothing(rule.body, op, s);
    } else if op in Negations(plan.negations) {
      var k :| 0 <= k < |plan.negations| && Negations(plan.negations)[k] == op;
      assert Serves(s, plan.negations[k]);
    } else if op in Generators(rule.body, plan) {
      if |plan.access| == 1 {
        assert Serves(s, plan.access[0]);
      } else {
        var st := JoinVars(plan.varOrder, plan.join, plan.access);
        hide JoinVars, ServesSome, CartesianSources;
        if op in st.ops {
          JoinVarsServe(plan.varOrder, plan.join, plan.access, op, s);
        } else {
          CartesianServes(plan.access, st, Elems(Independent(rule.body, plan)), s);
        }
      }
    }
  }
}
