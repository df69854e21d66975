/** What the pipeline of a planned rule emits, for exactly which rules that is what the rule derives, and that
    reordering its sources changes nothing. */
module LoweringTheorem {
  import opened Datalog
  import opened Seqs
  import Names
  import opened SemiNaive
  import opened ClauseOrder
  import opened Planner
  import opened Mir
  import opened Lowering
  import opened PipelineMeaning
  import opened Variants

  // ========== Lowering theorem ==========

  // What the pipeline of a planned rule emits, and for exactly which rules that is what the rule derives.

  // ========== Plan facts ==========

  // What a default plan guarantees: index columns are permutations, join variables lead, and a negation's prefix is
  // exactly its non-wildcard variables.

  // No variable occurs twice; constants may.
  ghost predicate DistinctVars(args: seq<Arg>) {
    forall i, j :: 0 <= i < j < |args| && args[i].LVar? ==> args[i] != args[j]
  }

  ghost predicate AllVars(args: seq<Arg>) {
    forall i :: 0 <= i < |args| ==> args[i].LVar?
  }

  ghost predicate InClause(body: seq<Clause>, v: string) {
    exists i :: 0 <= i < |body| && v in ClauseVars(body[i])
  }

  ghost predicate InAtom(body: seq<Clause>, v: string) {
    exists i :: 0 <= i < |body| && body[i].Pos? && v in ArgVars(body[i].atom.args)
  }

  // --- Variable order ---

  lemma DeltaVarsJoin(body: seq<Clause>, join: set<string>, delta: int)
    ensures NoDup(DeltaVars(body, join, delta))
    ensures forall v :: v in DeltaVars(body, join, delta) ==> v in join && InClause(body, v)
  {}

  // Join variables first; every variable of the body once.
  lemma VarOrderFacts(body: seq<Clause>, order: seq<nat>, join: set<string>, delta: int) returns (n: nat)
    requires IsPermutation(order, |body|)
    ensures (forall k :: 0 <= k < |order| ==> order[k] < |body|) && n <= |VarOrder(body, order, join, delta)|
    ensures NoDup(VarOrder(body, order, join, delta))
    ensures forall v :: v in VarOrder(body, order, join, delta) <==> InClause(body, v)
    ensures forall k ::
        0 <= k < |VarOrder(body, order, join, delta)| ==> (VarOrder(body, order, join, delta)[k] in join <==> k < n)
    ensures VarOrder(body, order, join, delta)[..n] == AddClauses(DeltaVars(body, join, delta), body, order, join, true)
  {
    hide AddClauses;
    PermutationInRange(order, |body|);
    DeltaVarsJoin(body, join, delta);
    var first := AddClauses(DeltaVars(body, join, delta), body, order, join, true);
    n := |first|;
    var all := VarOrder(body, order, join, delta);
    forall v ensures v in all <==> InClause(body, v) {
      if i :| 0 <= i < |body| && v in ClauseVars(body[i]) {
        assert i in order;
        var k :| 0 <= k < |order| && order[k] == i;
        assert v in ClauseVars(body[order[k]]);
      }
    }
    forall k | 0 <= k < |all| ensures all[k] in join <==> k < n {
      if k < n {
        assert all[k] == first[k] && first[k] in first;
      }
    }
  }

  lemma {:induction false} AddClausesPrefix(acc: seq<string>, body: seq<Clause>, order: seq<nat>, join: set<string>,
                                            joining: bool, s: nat)
    requires (forall k :: 0 <= k < |order| ==> order[k] < |body|) && s <= |order|
    ensures AddClauses(acc, body, order[..s], join, joining) <= AddClauses(acc, body, order, join, joining)
  {
    if s < |order| {
      AddClausesPrefix(acc, body, order[..|order| - 1], join, joining, s);
      assert order[..|order| - 1][..s] == order[..s];
    } else {
      assert order[..s] == order;
    }
  }

  // --- Access order and index columns ---

  lemma AccessOrderIsKept(args: seq<Arg>, varOrder: seq<string>)
    requires NoDup(varOrder) && forall v :: v in ArgVars(args) ==> v in varOrder
    ensures AccessOrder(args, varOrder) == KeepIn(varOrder, Elems(ArgVars(args)))
    ensures NoDup(AccessOrder(args, varOrder))
    ensures forall v :: v in AccessOrder(args, varOrder) <==> LVar(v) in args
  {
    var vars := Elems(ArgVars(args));
    var kept := KeepIn(varOrder, vars);
    KeepInNoDup(varOrder, vars);
    assert vars - Elems(kept) == {};
  }

  lemma {:induction false} VarColumnsFacts(args: seq<Arg>, order: seq<string>)
    requires forall v :: v in order ==> LVar(v) in args
    ensures |VarColumns(args, order)| == |order|
    ensures forall i ::
        0 <= i < |order| ==> VarColumns(args, order)[i] < |args| && args[VarColumns(args, order)[i]] == LVar(order[i])
  {
    if |order| > 0 {
      VarColumnsFacts(args, order[..|order| - 1]);
    }
  }

  lemma VarColumnsNoDup(args: seq<Arg>, order: seq<string>)
    requires NoDup(order) && forall v :: v in order ==> LVar(v) in args
    ensures NoDup(VarColumns(args, order))
  {
    VarColumnsFacts(args, order);
    var cols := VarColumns(args, order);
    forall i, j | 0 <= i < j < |cols| ensures cols[i] != cols[j] {
      assert args[cols[i]] == LVar(order[i]) && args[cols[j]] == LVar(order[j]);
    }
  }

  // Every variable's column is listed.
  lemma VarColumnsCover(args: seq<Arg>, order: seq<string>, c: nat)
    requires DistinctVars(args) && forall v :: v in order <==> LVar(v) in args
    requires c < |args| && args[c].LVar?
    ensures c in VarColumns(args, order)
  {
    VarColumnsFacts(args, order);
    var v := args[c].name;
    assert v in order;
    var i :| 0 <= i < |order| && order[i] == v;
    var d := VarColumns(args, order)[i];
    assert args[d] == LVar(v);
  }

  lemma {:induction false} CompleteIsSame(cols: seq<nat>, n: nat)
    requires forall c: nat :: c < n ==> c in cols
    ensures CompleteIndex(cols, n) == cols
  {
    if n > 0 {
      CompleteIsSame(cols, n - 1);
    }
  }

  // The leading index columns are the variables' first columns, in access order; the index covers the atom.
  ghost predicate LeadFits(p: AccessPattern, args: seq<Arg>) {
    && |p.accessOrder| <= |p.indexCols| == |args| && NoDup(p.accessOrder) && IsPermutation(p.indexCols, |args|)
    && (forall i :: 0 <= i < |args| ==> p.indexCols[i] < |args|)
    && forall i ::
        0 <= i < |p.accessOrder| ==>
        p.indexCols[i] == ColumnOf(args, p.accessOrder[i]) && args[p.indexCols[i]] == LVar(p.accessOrder[i])
  }

  // Without repeated variables every column is some variable's.
  ghost predicate Fits(p: AccessPattern, args: seq<Arg>) {
    LeadFits(p, args) && |p.accessOrder| == |args|
  }

  lemma {:induction false} VarColumnsFirst(args: seq<Arg>, order: seq<string>)
    requires forall v :: v in order ==> LVar(v) in args
    ensures |VarColumns(args, order)| == |order|
    ensures forall i :: 0 <= i < |order| ==> VarColumns(args, order)[i] == ColumnOf(args, order[i])
  {
    hide ColumnOf;
    if |order| > 0 { VarColumnsFirst(args, order[..|order| - 1]); }
  }

  lemma CompletePermutes(cols: seq<nat>, n: nat)
    requires NoDup(cols) && forall c :: c in cols ==> c < n
    ensures IsPermutation(CompleteIndex(cols, n), n) && forall c :: c in CompleteIndex(cols, n) ==> c < n
  {
    var r := CompleteIndex(cols, n);
    assert Remaining(n, r) == {};
    forall k | 0 <= k < |r| ensures r[k] < n { assert r[k] in r; }
    PermutationSize(r, n);
  }

  // The pattern of any positive atom without constants.
  lemma PatternLeads(c: Clause, version: Version, join: set<string>, varOrder: seq<string>, k: nat)
    requires c.Pos? && AllVars(c.atom.args)
    requires NoDup(varOrder) && forall v :: v in ArgVars(c.atom.args) ==> v in varOrder
    ensures LeadFits(Pattern(c, version, join, varOrder, k), c.atom.args)
    ensures Pattern(c, version, join, varOrder, k).accessOrder == KeepIn(varOrder, Elems(ArgVars(c.atom.args)))
  {
    hide *;
    var args := c.atom.args;
    var order := AccessOrder(args, varOrder);
    AccessOrderIsKept(args, varOrder);
    PatternIs(c, version, join, varOrder, k);
    LeadsFrom(Pattern(c, version, join, varOrder, k), args, order);
  }

  lemma PatternIs(c: Clause, version: Version, join: set<string>, varOrder: seq<string>, k: nat)
    requires c.Pos?
    ensures var p := Pattern(c, version, join, varOrder, k);
      p.accessOrder == AccessOrder(c.atom.args, varOrder)
          && p.indexCols == CompleteIndex(VarColumns(c.atom.args, p.accessOrder), |c.atom.args|)
  {
    hide AccessOrder, CompleteIndex, VarColumns, ConstArgs;
  }

  lemma LeadsFrom(p: AccessPattern, args: seq<Arg>, order: seq<string>)
    requires p.accessOrder == order && p.indexCols == CompleteIndex(VarColumns(args, order), |args|)
    requires NoDup(order) && forall v :: v in order ==> LVar(v) in args
    ensures LeadFits(p, args)
  {
    hide NoDup;
    var cols: seq<nat> := VarColumns(args, order);
    VarColumnsFacts(args, order);
    VarColumnsFirst(args, order);
    VarColumnsNoDup(args, order);
    hide CompleteIndex, VarColumns, IsPermutation, ColumnOf;
    CompletePermutes(cols, |args|);
    PermutationWidth(p.indexCols, |args|);
    assert forall i :: 0 <= i < |p.indexCols| ==> p.indexCols[i] in p.indexCols;
  }

  lemma PermutationWidth(c: seq<nat>, n: nat)
    requires IsPermutation(c, n)
    ensures |c| == n
  {}

  lemma PatternFits(c: Clause, version: Version, join: set<string>, varOrder: seq<string>, k: nat)
    requires c.Pos? && AllVars(c.atom.args) && DistinctVars(c.atom.args)
    requires NoDup(varOrder) && forall v :: v in ArgVars(c.atom.args) ==> v in varOrder
    ensures Fits(Pattern(c, version, join, varOrder, k), c.atom.args)
    ensures Pattern(c, version, join, varOrder, k).accessOrder == KeepIn(varOrder, Elems(ArgVars(c.atom.args)))
  {
    hide LeadFits, AccessOrder, ArgVars, DistinctVars, Pattern;
    var args := c.atom.args;
    var order := AccessOrder(args, varOrder);
    PatternLeads(c, version, join, varOrder, k);
    AccessOrderIsKept(args, varOrder);
    var cols := VarColumns(args, order);
    VarColumnsFacts(args, order);
    VarColumnsNoDup(args, order);
    forall c: nat | c < |args| ensures c in cols { VarColumnsCover(args, order, c); }
    assert Remaining(|args|, cols) == {};
    PermutationSize(cols, |args|);
  }

  // Join variables lead the access order of every atom, and the prefix length counts them.
  lemma JoinVarsLead(order: seq<string>, join: set<string>, vars: set<string>, n: nat)
    requires n <= |order| && forall k :: 0 <= k < |order| ==> (order[k] in join <==> k < n)
    ensures var kept := KeepIn(order, vars); var m := |KeepIn(kept, join)|;
      m <= |kept| && forall k :: 0 <= k < |kept| ==> (kept[k] in join <==> k < m)
  {
    hide *;
    var a, b := order[..n], order[n..];
    assert order == a + b;
    KeepInAppend(a, b, vars);
    KeepInAppend(KeepIn(a, vars), KeepIn(b, vars), join);
    KeepInAll(KeepIn(a, vars), join);
    KeepInNone(KeepIn(b, vars), join);
    var kept := KeepIn(order, vars);
    assert |KeepIn(kept, join)| == |KeepIn(a, vars)|;
    forall k | 0 <= k < |kept| ensures kept[k] in join <==> k < |KeepIn(a, vars)| {
      if k < |KeepIn(a, vars)| {
        assert kept[k] in KeepIn(a, vars);
      } else {
        assert kept[k] in KeepIn(b, vars);
      }
    }
  }

  // So the prefix of an atom's pattern is its join variables, and they come first.
  lemma PrefixIsJoin(body: seq<Clause>, order: seq<nat>, join: set<string>, delta: int, i: nat, version: Version)
    requires IsPermutation(order, |body|) && i < |body| && body[i].Pos?
    ensures forall k :: 0 <= k < |order| ==> order[k] < |body|
    ensures var p := Pattern(body[i], version, join, VarOrder(body, order, join, delta), i);
      && p.prefixLen <= |p.accessOrder|
      && forall k :: 0 <= k < |p.accessOrder| ==> (p.accessOrder[k] in join <==> k < p.prefixLen)
  {
    hide AddClauses, ArgVars, Elems, DeltaVars, IsPermutation;
    var args := body[i].atom.args;
    var n := VarOrderFacts(body, order, join, delta);
    var varOrder := VarOrder(body, order, join, delta);
    forall v | v in ArgVars(args) ensures v in varOrder { assert v in ClauseVars(body[i]); }
    AccessOrderIsKept(args, varOrder);
    JoinVarsLead(varOrder, join, Elems(ArgVars(args)), n);
    hide VarOrder, AccessOrder, KeepIn, CompleteIndex, VarColumns, ConstArgs, NoDup;
  }

  // --- Negations ---

  lemma {:induction false} ConstArgsFacts(args: seq<Arg>, n: nat)
    requires n <= |args|
    ensures var consts := ConstArgs(args, n);
      && (forall k :: 0 <= k < |consts| ==> consts[k].0 < n && args[consts[k].0] == Const(consts[k].1))
      && NoDup(ConstCols(consts))
      && forall c :: 0 <= c < n && args[c].Const? ==> c in ConstCols(consts)
  {
    if n > 0 {
      ConstArgsFacts(args, n - 1);
      var before, consts := ConstArgs(args, n - 1), ConstArgs(args, n);
      assert forall k :: 0 <= k < |before| ==> ConstCols(consts)[k] == ConstCols(before)[k];
      if args[n - 1].Const? {
        assert ConstCols(consts)[|before|] == n - 1;
      }
    }
  }

  // Constant columns come first, then the variables' columns in access order; the prefix is the non-wildcards.
  ghost predicate NegationFits(p: AccessPattern, args: seq<Arg>) {
    && (forall k ::
        0 <= k < |p.constArgs| ==> p.constArgs[k].0 < |args| && args[p.constArgs[k].0] == Const(p.constArgs[k].1))
    && (forall c :: 0 <= c < |args| && args[c].Const? ==> c in ConstCols(p.constArgs))
    && |p.indexCols| == |p.constArgs| + |p.accessOrder| && IsPermutation(p.indexCols, |args|)
    && (forall k :: 0 <= k < |p.constArgs| ==> p.indexCols[k] == p.constArgs[k].0)
    && (forall i :: 0 <= i < |p.accessOrder| ==> VarColumn(p, args, i))
    && (forall v :: v in p.accessOrder <==> LVar(v) in args)
    && p.prefixLen <= |p.accessOrder|
    && forall i :: 0 <= i < |p.accessOrder| ==> (i < p.prefixLen <==> !IsWildcard(p.accessOrder[i]))
  }

  ghost predicate VarColumn(p: AccessPattern, args: seq<Arg>, i: nat) {
    && i < |p.accessOrder| && |p.constArgs| + i < |p.indexCols| && p.indexCols[|p.constArgs| + i] < |args|
    && args[p.indexCols[|p.constArgs| + i]] == LVar(p.accessOrder[i])
  }

  lemma VarColumnsKept(args: seq<Arg>, order: seq<string>)
    requires DistinctVars(args) && NoDup(order) && forall v :: v in order <==> LVar(v) in args
    ensures var keep := Range(|args|) - Elems(ConstCols(ConstArgs(args, |args|)));
      KeepIn(CompleteIndex(VarColumns(args, order), |args|), keep) == VarColumns(args, order)
  {
    hide VarColumns, ConstArgs, CompleteIndex, DistinctVars;
    ConstArgsFacts(args, |args|);
    VarColumnsFacts(args, order);
    VarColumnsNoDup(args, order);
    var vars: seq<nat>, consts: seq<nat> := VarColumns(args, order), ConstCols(ConstArgs(args, |args|));
    var complete: seq<nat> := CompleteIndex(vars, |args|);
    var keep: set<nat> := Range(|args|) - Elems<nat>(consts);
    forall c | c in vars ensures c in keep {
      ColumnsApart(args, order, c);
    }
    forall c | c in complete[|vars|..] ensures c !in keep {
      assert c in complete && c !in vars;
      if c < |args| && args[c].LVar? { VarColumnsCover(args, order, c); }
    }
    KeepInPrefix<nat>(vars, complete, keep);
    assert KeepIn<nat>(complete, keep) == vars;
  }

  // A column holds a variable or a constant, not both.
  lemma ColumnsApart(args: seq<Arg>, order: seq<string>, c: nat)
    requires (forall v :: v in order ==> LVar(v) in args) && c in VarColumns(args, order)
    ensures c !in ConstCols(ConstArgs(args, |args|))
  {
    var constArgs := ConstArgs(args, |args|);
    ConstArgsFacts(args, |args|);
    VarColumnsFacts(args, order);
    assert args[c].LVar?;
    forall k | 0 <= k < |constArgs| ensures ConstCols(constArgs)[k] != c {
      assert args[constArgs[k].0].Const?;
    }
  }

  lemma NegationColumns(args: seq<Arg>, order: seq<string>)
    requires DistinctVars(args) && NoDup(order) && forall v :: v in order <==> LVar(v) in args
    ensures IsPermutation(ConstCols(ConstArgs(args, |args|)) + VarColumns(args, order), |args|)
  {
    hide VarColumns, ConstArgs, DistinctVars;
    var constArgs := ConstArgs(args, |args|);
    var consts, vars := ConstCols(constArgs), VarColumns(args, order);
    ConstArgsFacts(args, |args|);
    VarColumnsFacts(args, order);
    VarColumnsNoDup(args, order);
    var cols := consts + vars;
    forall c | c in vars ensures c !in consts {
      ColumnsApart(args, order, c);
    }
    assert forall j :: 0 <= j < |vars| ==> vars[j] in vars;
    assert NoDup(cols);
    forall k | 0 <= k < |cols| ensures cols[k] < |args| {
      if k < |consts| { assert consts[k] == constArgs[k].0; } else { assert cols[k] == vars[k - |consts|]; }
    }
    forall c | c in Range(|args|) ensures c in cols {
      if args[c].LVar? { VarColumnsCover(args, order, c); }
    }
    assert Remaining(|args|, cols) == {};
    PermutationSize(cols, |args|);
  }

  lemma {:induction false} NonWildcardsSplit(a: seq<string>, b: seq<string>)
    requires (forall v :: v in a ==> !IsWildcard(v)) && forall v :: v in b ==> IsWildcard(v)
    ensures NonWildcards(a + b) == |a|
  {
    if |b| > 0 {
      NonWildcardsSplit(a, b[..|b| - 1]);
      assert (a + b)[..|a + b| - 1] == a + b[..|b| - 1];
    } else if |a| > 0 {
      assert a + b == a;
      NonWildcardsSplit(a[..|a| - 1], []);
      assert a[..|a| - 1] + [] == a[..|a| - 1];
    }
  }

  // The variables of a negation are bound by atoms, except wildcards, which occur nowhere else.
  ghost predicate SafeNegation(body: seq<Clause>, i: nat) {
    && i < |body| && body[i].Neg? && DistinctVars(body[i].atom.args)
    && forall v {:trigger IsWildcard(v)} :: v in ArgVars(body[i].atom.args) ==>
         if IsWildcard(v) then forall j ::
             0 <= j < |body| && j != i ==> v !in ClauseVars(body[j]) && v !in Produced(body[j])
         else InAtom(body, v)
  }

  // The planner treats a wildcard as an unmet dependency, so the negation is scheduled after every atom.
  lemma AtomVarsLead(body: seq<Clause>, delta: int, order: seq<nat>, join: set<string>, s: nat, w: string, v: string)
    requires IsGreedy(body, delta, order) && IsPermutation(order, |body|)
    requires s < |order| && SafeNegation(body, order[s]) && w in ArgVars(body[order[s]].atom.args) && IsWildcard(w)
    requires InAtom(body, v)
    ensures exists k :: 0 <= k < s && order[k] < |body| && v in ClauseVars(body[order[k]])
  {
    hide IsGreedy;
    var a :| 0 <= a < |body| && body[a].Pos? && v in ArgVars(body[a].atom.args);
    assert a in order;
    var t :| 0 <= t < |order| && order[t] == a;
    assert w !in Produced(body[order[s]]);
    AtomsBeforeStuck(body, delta, order, s, t, w);
  }

  // A variable of one of the first s clauses is ordered by then.
  lemma LedByPrefix(acc: seq<string>, body: seq<Clause>, order: seq<nat>, join: set<string>, s: nat, v: string)
    requires (forall k :: 0 <= k < |order| ==> order[k] < |body|) && s <= |order|
    requires exists k :: 0 <= k < s && v in ClauseVars(body[order[k]])
    ensures v in AddClauses(AddClauses(acc, body, order, join, true), body, order[..s], join, false)
  {
    hide *;
    var k :| 0 <= k < s && v in ClauseVars(body[order[k]]);
    assert v in ClauseVars(body[order[..s][k]]);
  }

  lemma WildcardsComeLast(body: seq<Clause>, delta: int, order: seq<nat>, join: set<string>, s: nat, w: string)
    returns (cut: nat)
    requires IsGreedy(body, delta, order) && IsPermutation(order, |body|) && IsJoinSet(body, join)
    requires s < |order| && SafeNegation(body, order[s]) && w in ArgVars(body[order[s]].atom.args) && IsWildcard(w)
    ensures cut <= |VarOrder(body, order, join, delta)|
    ensures forall v :: v in ArgVars(body[order[s]].atom.args) ==>
      (v in VarOrder(body, order, join, delta)[..cut] <==> !IsWildcard(v))
  {
    hide AddClauses, ArgVars, ClauseVars, InAtom, IsWildcard;
    hide IsGreedy, IsPermutation, IsJoinSet;
    PermutationInRange(order, |body|);
    var first := AddClauses(DeltaVars(body, join, delta), body, order, join, true);
    var some := order[..s];
    var lead := AddClauses(first, body, some, join, false);
    AddClausesPrefix(first, body, order, join, false, s);
    cut := |lead|;
    assert VarOrder(body, order, join, delta)[..cut] == lead;
    forall v | v in ArgVars(body[order[s]].atom.args) ensures v in lead <==> !IsWildcard(v) {
      if IsWildcard(v) {
        WildcardNotLed(body, delta, order, join, order[s], s, v);
      } else {
        AtomVarsLead(body, delta, order, join, s, w, v);
        LedByPrefix(DeltaVars(body, join, delta), body, order, join, s, v);
      }
    }
  }

  lemma {:induction false} NotCounted(body: seq<Clause>, v: string)
    requires forall j :: 0 <= j < |body| ==> v !in Produced(body[j])
    ensures PositiveCount(body, v) == 0
  {
    if |body| > 0 {
      NotCounted(body[..|body| - 1], v);
      var last := body[|body| - 1];
      assert v !in Produced(last);
      if last.Pos? { NotIn(ArgVars(last.atom.args), v); }
    }
  }

  lemma {:induction false} NotIn(vs: seq<string>, v: string)
    requires v !in vs
    ensures CountOf(vs, v) == 0
  {
    if |vs| > 0 { NotIn(vs[..|vs| - 1], v); }
  }

  lemma WildcardNotLed(body: seq<Clause>, delta: int, order: seq<nat>, join: set<string>, i: nat, s: nat, v: string)
    requires IsPermutation(order, |body|) && IsJoinSet(body, join)
    requires SafeNegation(body, i) && v in ArgVars(body[i].atom.args) && IsWildcard(v)
    requires s < |order| && order[s] == i
    ensures forall k :: 0 <= k < |order| ==> order[k] < |body|
    ensures v !in AddClauses(AddClauses(DeltaVars(body, join, delta), body, order, join, true), body, order[..s], join,
                             false)
  {
    PermutationInRange(order, |body|);
    assert v !in Produced(body[i]);
    NotCounted(body, v);
    DeltaVarsJoin(body, join, delta);
    forall k | 0 <= k < s ensures v !in ClauseVars(body[order[..s][k]]) {
      assert order[k] != i;
    }
  }

  lemma NegationPatternFits(body: seq<Clause>, delta: int, order: seq<nat>, join: set<string>, i: nat)
    requires IsGreedy(body, delta, order) && IsPermutation(order, |body|) && IsJoinSet(body, join)
    requires SafeNegation(body, i)
    ensures NegationFits(Pattern(body[i], FULL, join, VarOrder(body, order, join, delta), i), body[i].atom.args)
  {
    hide IsGreedy, VarOrder, IsJoinSet;
    var args := body[i].atom.args;
    var n := VarOrderFacts(body, order, join, delta);
    var varOrder := VarOrder(body, order, join, delta);
    forall v | v in ArgVars(args) ensures v in varOrder {
      assert v in ClauseVars(body[i]);
    }
    AccessOrderIsKept(args, varOrder);
    PrefixIsNonWildcards(body, delta, order, join, i);
    NegationFitsWith(body[i], join, varOrder, i);
  }

  lemma NegationFitsWith(c: Clause, join: set<string>, varOrder: seq<string>, i: nat)
    requires c.Neg? && DistinctVars(c.atom.args) && NoDup(AccessOrder(c.atom.args, varOrder))
    requires forall v :: v in AccessOrder(c.atom.args, varOrder) <==> LVar(v) in c.atom.args
    requires var access := AccessOrder(c.atom.args, varOrder);
      NonWildcards(access) <= |access| && forall k ::
          0 <= k < |access| ==> (k < NonWildcards(access) <==> !IsWildcard(access[k]))
    ensures NegationFits(Pattern(c, FULL, join, varOrder, i), c.atom.args)
  {
    hide Range, DistinctVars, Elems;
    hide AccessOrder, ConstArgs, NonWildcards, VarColumns, CompleteIndex, IsPermutation, NoDup, KeepIn, IsWildcard;
    var args := c.atom.args;
    var access := AccessOrder(args, varOrder);
    VarColumnsKept(args, access);
    NegationColumns(args, access);
    ConstArgsFacts(args, |args|);
    VarColumnsFacts(args, access);
    var p := Pattern(c, FULL, join, varOrder, i);
    assert p.indexCols == ConstCols(p.constArgs) + VarColumns(args, access);
    forall k | 0 <= k < |access| ensures VarColumn(p, args, k) {
      assert p.indexCols[|p.constArgs| + k] == VarColumns(args, access)[k];
    }
  }

  lemma PrefixIsNonWildcards(body: seq<Clause>, delta: int, order: seq<nat>, join: set<string>, i: nat)
    requires IsGreedy(body, delta, order) && IsPermutation(order, |body|) && IsJoinSet(body, join)
    requires SafeNegation(body, i)
    ensures forall k :: 0 <= k < |order| ==> order[k] < |body|
    ensures var access := KeepIn(VarOrder(body, order, join, delta), Elems(ArgVars(body[i].atom.args)));
      NonWildcards(access) <= |access| && forall k ::
          0 <= k < |access| ==> (k < NonWildcards(access) <==> !IsWildcard(access[k]))
  {
    hide IsGreedy, IsJoinSet;
    var n := VarOrderFacts(body, order, join, delta);
    hide VarOrder;
    var vars := Elems(ArgVars(body[i].atom.args));
    var varOrder := VarOrder(body, order, join, delta);
    if w :| w in ArgVars(body[i].atom.args) && IsWildcard(w) {
      assert i in order;
      var s :| 0 <= s < |order| && order[s] == i;
      var cut := WildcardsComeLast(body, delta, order, join, s, w);
      PrefixByCut(varOrder, vars, cut);
    } else {
      PrefixByCut(varOrder, vars, |varOrder|);
    }
  }

  lemma PrefixByCut(varOrder: seq<string>, vars: set<string>, cut: nat)
    requires cut <= |varOrder| && NoDup(varOrder)
    requires forall v :: v in vars && v in varOrder ==> (v in varOrder[..cut] <==> !IsWildcard(v))
    ensures var access := KeepIn(varOrder, vars);
      NonWildcards(access) <= |access| && forall k ::
          0 <= k < |access| ==> (k < NonWildcards(access) <==> !IsWildcard(access[k]))
  {
    hide KeepIn, IsWildcard, NonWildcards;
    var left, right := varOrder[..cut], varOrder[cut..];
    var a, b := KeepIn(left, vars), KeepIn(right, vars);
    assert varOrder == left + right;
    KeepInAppend(left, right, vars);
    NonWildcardsSplit(a, b);
    forall k | 0 <= k < |a + b| ensures k < |a| <==> !IsWildcard((a + b)[k]) {
      if k < |a| { assert a[k] in a; } else { assert b[k - |a|] in b; }
    }
  }

  // ========== Plan ready ==========

  // The rules the lowering is meant for, and why their default plans fit its generator operations.

  // --- The rules the lowering is meant for ---

  ghost predicate NamedAtom(a: Atom) {
    |a.rel| > 0 && AllVars(a.args)
  }

  ghost predicate PlainAtom(a: Atom) {
    NamedAtom(a) && DistinctVars(a.args)
  }

  ghost predicate Known(body: seq<Clause>, v: string, i: nat)
    requires i <= |body|
  {
    InAtom(body, v) || v in LetVars(body[..i])
  }

  // In source order, a filter or let uses only what atoms and earlier lets bind, and a let binds a fresh variable.
  ghost predicate Scoped(body: seq<Clause>, i: nat)
    requires i < |body|
  {
    match body[i]
    case Filter(vs, _) => forall v :: v in vs ==> Known(body, v, i)
    case Let(x, _, deps) => (forall v :: v in deps ==> Known(body, v, i)) && !Known(body, x, i)
    case Pos(_) => true
    case Neg(_) => true
  }

  ghost predicate HeadOk(rule: Rule, head: Atom) {
    AllVars(head.args) && forall v :: v in ArgVars(head.args) ==> Known(rule.body, v, |rule.body|)
  }

  // Everything but that no positive atom repeats a variable.
  ghost predicate Bindable(rule: Rule) {
    && (forall i :: 0 <= i < |rule.body| && rule.body[i].Pos? ==> NamedAtom(rule.body[i].atom))
    && (forall i :: 0 <= i < |rule.body| && rule.body[i].Neg? ==> SafeNegation(rule.body, i))
    && (forall i :: 0 <= i < |rule.body| ==> Scoped(rule.body, i))
    && forall h :: 0 <= h < |rule.heads| ==> HeadOk(rule, rule.heads[h])
  }

  ghost predicate Lowerable(rule: Rule) {
    Bindable(rule) && forall i :: 0 <= i < |rule.body| && rule.body[i].Pos? ==> PlainAtom(rule.body[i].atom)
  }

  lemma LowerableBinds(rule: Rule)
    requires Lowerable(rule)
    ensures Bindable(rule)
  {}

  // The facts of an atom's relation have the atom's arity.
  ghost predicate RightArity(a: Atom, facts: Facts) {
    forall row :: Fact(a.rel, row) in facts ==> |row| == |a.args|
  }

  ghost predicate WellTyped(body: seq<Clause>, full: Facts, delta: Facts) {
    forall i ::
        0 <= i < |body| && (body[i].Pos? || body[i].Neg?) ==>
        RightArity(body[i].atom, full) && RightArity(body[i].atom, delta)
  }

  // The index the pattern reads holds the relation's current rows.
  ghost predicate Fresh(p: AccessPattern, read: Reader, full: Facts, delta: Facts) {
    forall row :: row in RowsOf(p, read) <==> Fact(p.rel, row) in VersionFacts(p.version, full, delta)
  }

  ghost predicate AllFresh(plan: Plan, read: Reader, full: Facts, delta: Facts) {
    forall p :: p in plan.access || p in plan.negations ==> Fresh(p, read, full, delta)
  }

  // --- Access patterns and body clauses ---

  lemma PatternShape(c: Clause, version: Version, join: set<string>, varOrder: seq<string>, k: nat)
    requires c.Pos? || c.Neg?
    ensures var p := Pattern(c, version, join, varOrder, k);
    p.clauseIdx == k && p.rel == c.atom.rel && p.version == version
  {}

  ghost predicate IsAccess(p: AccessPattern, body: seq<Clause>, versions: seq<Version>, join: set<string>,
                           varOrder: seq<string>)
    requires |body| == |versions|
  {
    p.clauseIdx < |body| && body[p.clauseIdx].Pos?
        && p == Pattern(body[p.clauseIdx], versions[p.clauseIdx], join, varOrder, p.clauseIdx)
  }

  ghost predicate AllAccess(access: seq<AccessPattern>, body: seq<Clause>, versions: seq<Version>, join: set<string>,
                            varOrder: seq<string>)
    requires |body| == |versions|
  {
    forall p :: p in access ==> IsAccess(p, body, versions, join, varOrder)
  }

  ghost predicate InBodyOrder(access: seq<AccessPattern>) {
    forall j, k :: 0 <= j < k < |access| ==> access[j].clauseIdx < access[k].clauseIdx
  }

  ghost predicate ListsAtoms(access: seq<AccessPattern>, body: seq<Clause>, versions: seq<Version>, join: set<string>,
                             varOrder: seq<string>, n: nat)
    requires n <= |body| == |versions|
  {
    forall i :: 0 <= i < n && body[i].Pos? ==> Pattern(body[i], versions[i], join, varOrder, i) in access
  }

  // The access patterns are the positive clauses' patterns, in body order.
  lemma {:induction false} AccessListed(body: seq<Clause>, versions: seq<Version>, join: set<string>,
                                        varOrder: seq<string>, n: nat)
    requires n <= |body| == |versions|
    ensures var access := AccessPatterns(body, versions, join, varOrder, n);
      && AllAccess(access, body, versions, join, varOrder) && InBodyOrder(access)
      && ListsAtoms(access, body, versions, join, varOrder, n) && forall p :: p in access ==> p.clauseIdx < n
  {
    hide Pattern;
    if n > 0 {
      AccessListed(body, versions, join, varOrder, n - 1);
      if body[n - 1].Pos? {
        var before := AccessPatterns(body, versions, join, varOrder, n - 1);
        var p := Pattern(body[n - 1], versions[n - 1], join, varOrder, n - 1);
        PatternShape(body[n - 1], versions[n - 1], join, varOrder, n - 1);
        forall k | 0 <= k < |before| ensures before[k].clauseIdx < p.clauseIdx { assert before[k] in before; }
      }
    }
  }

  lemma PlanAccess(v: Variant, plan: Plan)
    requires |v.versions| == |v.rule.body| && IsDefaultPlan(v, plan)
    ensures AllAccess(plan.access, v.rule.body, v.versions, plan.join, plan.varOrder) && InBodyOrder(plan.access)
    ensures ListsAtoms(plan.access, v.rule.body, v.versions, plan.join, plan.varOrder, |v.rule.body|)
  {
    AccessListed(v.rule.body, v.versions, plan.join, plan.varOrder, |v.rule.body|);
  }

  ghost predicate IsNegation(p: AccessPattern, body: seq<Clause>, join: set<string>, varOrder: seq<string>) {
    p.clauseIdx < |body| && body[p.clauseIdx].Neg? && p == Pattern(body[p.clauseIdx], FULL, join, varOrder, p.clauseIdx)
  }

  ghost predicate ListsNegations(negations: seq<AccessPattern>, body: seq<Clause>, join: set<string>,
                                 varOrder: seq<string>, n: nat)
    requires n <= |body|
  {
    && (forall p :: p in negations ==> IsNegation(p, body, join, varOrder))
    && forall i :: 0 <= i < n && body[i].Neg? ==> Pattern(body[i], FULL, join, varOrder, i) in negations
  }

  lemma {:induction false} NegationsListed(body: seq<Clause>, join: set<string>, varOrder: seq<string>, n: nat)
    requires n <= |body|
    ensures ListsNegations(NegationPatterns(body, join, varOrder, n), body, join, varOrder, n)
  {
    hide Pattern;
    if n > 0 {
      NegationsListed(body, join, varOrder, n - 1);
      if body[n - 1].Neg? { PatternShape(body[n - 1], FULL, join, varOrder, n - 1); }
    }
  }

  lemma PlanNegations(v: Variant, plan: Plan)
    requires |v.versions| == |v.rule.body| && IsDefaultPlan(v, plan)
    ensures ListsNegations(plan.negations, v.rule.body, plan.join, plan.varOrder, |v.rule.body|)
  {
    NegationsListed(v.rule.body, plan.join, plan.varOrder, |v.rule.body|);
  }

  // --- Join variables and the atoms they occur in ---

  lemma {:induction false} CountIn(vs: seq<string>, v: string)
    ensures CountOf(vs, v) > 0 <==> v in vs
  {
    if |vs| > 0 {
      CountIn(vs[..|vs| - 1], v);
      assert vs == vs[..|vs| - 1] + [vs[|vs| - 1]];
    }
  }

  lemma {:induction false} CountedInAtom(body: seq<Clause>, v: string)
    ensures PositiveCount(body, v) > 0 <==> InAtom(body, v)
  {
    if |body| > 0 {
      var init, last := body[..|body| - 1], body[|body| - 1];
      CountedInAtom(init, v);
      if last.Pos? { CountIn(ArgVars(last.atom.args), v); }
      if InAtom(init, v) {
        var i :| 0 <= i < |init| && init[i].Pos? && v in ArgVars(init[i].atom.args);
        assert body[i] == init[i];
      }
      assert body == init + [last];
    }
  }

  lemma {:induction false} CountedTwice(body: seq<Clause>, v: string, a: nat, b: nat)
    requires a < b < |body| && body[a].Pos? && body[b].Pos? && v in ArgVars(body[a].atom.args)
    requires v in ArgVars(body[b].atom.args)
    ensures PositiveCount(body, v) > 1
  {
    var init, last := body[..|body| - 1], body[|body| - 1];
    if b < |body| - 1 {
      CountedTwice(init, v, a, b);
    } else {
      assert init[a] == body[a];
      CountedInAtom(init, v);
      CountIn(ArgVars(last.atom.args), v);
    }
  }

  // --- The plan is ready for the generators ---

  ghost predicate Setting(v: Variant, plan: Plan, read: Reader, full: Facts, delta: Facts) {
    && |v.versions| == |v.rule.body| && IsDefaultPlan(v, plan) && Bindable(v.rule)
    && WellTyped(v.rule.body, full, delta) && AllFresh(plan, read, full, delta)
  }

  lemma SettingIs(v: Variant, plan: Plan, read: Reader, full: Facts, delta: Facts)
    requires Setting(v, plan, read, full, delta)
    ensures |v.versions| == |v.rule.body| && IsJoinSet(v.rule.body, plan.join) && IsDefaultPlan(v, plan)
    ensures Bindable(v.rule)
    ensures WellTyped(v.rule.body, full, delta)
  {}

  lemma VarsListed(v: Variant, plan: Plan) returns (n: nat)
    requires |v.versions| == |v.rule.body| && IsDefaultPlan(v, plan)
    ensures n <= |plan.varOrder| && NoDup(plan.varOrder)
    ensures forall k :: 0 <= k < |plan.varOrder| ==> (plan.varOrder[k] in plan.join <==> k < n)
    ensures forall x :: x in plan.varOrder <==> InClause(v.rule.body, x)
  {
    hide IsGreedy;
    n := VarOrderFacts(v.rule.body, plan.clauseOrder, plan.join, v.deltaIdx);
  }

  lemma AtomVarsListed(v: Variant, plan: Plan, i: nat)
    requires |v.versions| == |v.rule.body| && IsDefaultPlan(v, plan) && i < |v.rule.body|
    ensures forall x :: x in ClauseVars(v.rule.body[i]) ==> x in plan.varOrder
  {
    var n := VarsListed(v, plan);
    forall x | x in ClauseVars(v.rule.body[i]) ensures x in plan.varOrder {
      assert InClause(v.rule.body, x);
    }
  }

  // What an access pattern of the plan is like.
  lemma AccessFacts(v: Variant, plan: Plan, read: Reader, full: Facts, delta: Facts, p: AccessPattern)
    requires Setting(v, plan, read, full, delta) && p in plan.access
    ensures p.clauseIdx < |v.rule.body| && v.rule.body[p.clauseIdx].Pos?
    ensures var a := v.rule.body[p.clauseIdx].atom;
      && p.rel == a.rel && p.version == v.versions[p.clauseIdx] && LeadFits(p, a.args) && PatternOk(p, read)
      && p.accessOrder == KeepIn(plan.varOrder, Elems(ArgVars(a.args)))
  {
    hide IsDefaultPlan, KeepIn, ArgVars, Elems;
    PlanAccess(v, plan);
    var body, i := v.rule.body, p.clauseIdx;
    assert IsAccess(p, body, v.versions, plan.join, plan.varOrder);
    SettingAt(v, plan, read, full, delta, p, i);
    hide Setting, LeadFits, PatternOk;
    PatternShape(body[i], v.versions[i], plan.join, plan.varOrder, i);
    PatternLeads(body[i], v.versions[i], plan.join, plan.varOrder, i);
    FitsOk(p, body[i].atom, read, full, delta);
  }

  // Without repeated variables its columns are the atom's.
  lemma PlainFits(v: Variant, plan: Plan, read: Reader, full: Facts, delta: Facts, p: AccessPattern)
    requires Setting(v, plan, read, full, delta) && Lowerable(v.rule) && p in plan.access
    ensures p.clauseIdx < |v.rule.body| && v.rule.body[p.clauseIdx].Pos? && Fits(p, v.rule.body[p.clauseIdx].atom.args)
  {
    hide IsDefaultPlan, InBodyOrder, Fresh, RightArity, ListsAtoms;
    PlanAccess(v, plan);
    var body, i := v.rule.body, p.clauseIdx;
    assert IsAccess(p, body, v.versions, plan.join, plan.varOrder);
    SettingAt(v, plan, read, full, delta, p, i);
    assert PlainAtom(body[i].atom);
    hide Setting, Lowerable, Fits, Pattern;
    PatternFits(body[i], v.versions[i], plan.join, plan.varOrder, i);
  }

  lemma SettingAt(v: Variant, plan: Plan, read: Reader, full: Facts, delta: Facts, p: AccessPattern, i: nat)
    requires Setting(v, plan, read, full, delta) && p in plan.access && i < |v.rule.body| && v.rule.body[i].Pos?
    ensures NamedAtom(v.rule.body[i].atom) && RightArity(v.rule.body[i].atom, full)
    ensures RightArity(v.rule.body[i].atom, delta)
    ensures Fresh(p, read, full, delta) && NoDup(plan.varOrder)
    ensures forall x :: x in ArgVars(v.rule.body[i].atom.args) ==> x in plan.varOrder
  {
    var n := VarsListed(v, plan);
    AtomVarsListed(v, plan, i);
  }

  lemma FitsOk(p: AccessPattern, a: Atom, read: Reader, full: Facts, delta: Facts)
    requires LeadFits(p, a.args) && p.rel == a.rel && NamedAtom(a) && Fresh(p, read, full, delta)
    requires RightArity(a, full) && RightArity(a, delta)
    ensures PatternOk(p, read)
  {
    forall row | row in RowsOf(p, read) ensures |row| == |p.indexCols| {
      assert Fact(p.rel, row) in VersionFacts(p.version, full, delta);
    }
  }

  // The pattern of a positive clause, found in the plan.
  lemma PatternOfAtom(v: Variant, plan: Plan, read: Reader, full: Facts, delta: Facts, i: nat)
    returns (p: AccessPattern)
    requires Setting(v, plan, read, full, delta) && i < |v.rule.body| && v.rule.body[i].Pos?
    ensures p in plan.access && p.clauseIdx == i
  {
    hide IsDefaultPlan, Pattern, AllAccess, InBodyOrder;
    PlanAccess(v, plan);
    hide Setting;
    PatternShape(v.rule.body[i], v.versions[i], plan.join, plan.varOrder, i);
    p := Pattern(v.rule.body[i], v.versions[i], plan.join, plan.varOrder, i);
  }

  // The variables of a pattern are its atom's.
  lemma AccessVarsAre(v: Variant, plan: Plan, read: Reader, full: Facts, delta: Facts, p: AccessPattern, x: string)
    requires Setting(v, plan, read, full, delta) && p in plan.access
    ensures p.clauseIdx < |v.rule.body| && v.rule.body[p.clauseIdx].Pos?
    ensures x in p.accessOrder <==> x in ArgVars(v.rule.body[p.clauseIdx].atom.args)
  {
    AccessFacts(v, plan, read, full, delta, p);
    AtomVarsListed(v, plan, p.clauseIdx);
  }

  lemma PatternVarsAre(v: Variant, plan: Plan, read: Reader, full: Facts, delta: Facts, x: string)
    requires Setting(v, plan, read, full, delta)
    ensures x in PatternVars(plan.access) <==> InAtom(v.rule.body, x)
  {
    hide Setting;
    InPatternVars(plan.access, x);
    if p :| p in plan.access && x in p.accessOrder {
      AccessVarsAre(v, plan, read, full, delta, p, x);
    }
    if i :| 0 <= i < |v.rule.body| && v.rule.body[i].Pos? && x in ArgVars(v.rule.body[i].atom.args) {
      var p := PatternOfAtom(v, plan, read, full, delta, i);
      AccessVarsAre(v, plan, read, full, delta, p, x);
    }
  }

  lemma KeepLead(varOrder: seq<string>, vars: set<string>, k: nat)
    requires NoDup(varOrder) && k <= |varOrder|
    ensures var order := KeepIn(varOrder, vars); var lead := varOrder[..k];
      KeepIn(order, Elems(lead)) == KeepIn(lead, Elems(order)) == KeepIn(lead, vars) <= order
  {
    hide KeepIn;
    var lead, rest := varOrder[..k], varOrder[k..];
    var order := KeepIn(varOrder, vars);
    assert varOrder == lead + rest;
    KeepInAppend(lead, rest, vars);
    var a, b := KeepIn(lead, vars), KeepIn(rest, vars);
    KeepInAppend(a, b, Elems(lead));
    KeepInAll(a, Elems(lead));
    forall x | x in b ensures x !in lead { assert x in rest; }
    KeepInNone(b, Elems(lead));
    forall x | x in lead ensures x in order <==> x in vars { assert x in varOrder; }
    KeepInSame(lead, Elems(order), vars);
  }

  lemma JoinInAtom(body: seq<Clause>, join: set<string>, x: string)
    requires IsJoinSet(body, join) && x in join
    ensures InAtom(body, x)
  {
    CountedInAtom(body, x);
  }

  lemma PatternLedBy(v: Variant, plan: Plan, read: Reader, full: Facts, delta: Facts, p: AccessPattern, k: nat)
    requires Setting(v, plan, read, full, delta) && p in plan.access && k <= |plan.varOrder| && NoDup(plan.varOrder)
    ensures LedBy(p, plan.varOrder[..k]) && PatternOk(p, read)
  {
    hide Setting, PatternOk, LeadFits;
    AccessFacts(v, plan, read, full, delta, p);
    KeepLead(plan.varOrder, Elems(ArgVars(v.rule.body[p.clauseIdx].atom.args)), k);
  }

  lemma PlanJoinsReady(v: Variant, plan: Plan, read: Reader, full: Facts, delta: Facts, n: nat)
    requires Setting(v, plan, read, full, delta) && n <= |plan.varOrder| && NoDup(plan.varOrder)
    requires forall k :: 0 <= k < n ==> plan.varOrder[k] in plan.join
    ensures JoinsReady(plan.varOrder[..n], plan.access, read)
  {
    var body, lead := v.rule.body, plan.varOrder[..n];
    assert IsJoinSet(body, plan.join);
    hide Setting, IsJoinSet, PatternOk, LedBy;
    forall p, k | p in plan.access && 0 <= k <= |lead| ensures LedBy(p, lead[..k]) {
      assert lead[..k] == plan.varOrder[..k];
      PatternLedBy(v, plan, read, full, delta, p, k);
    }
    forall p | p in plan.access ensures PatternOk(p, read) {
      PatternLedBy(v, plan, read, full, delta, p, 0);
    }
    forall x | x in lead ensures exists p :: p in plan.access && x in p.accessOrder {
      JoinInAtom(body, plan.join, x);
      PatternVarsAre(v, plan, read, full, delta, x);
      InPatternVars(plan.access, x);
    }
  }

  lemma SharedIsJoin(v: Variant, plan: Plan, read: Reader, full: Facts, delta: Facts, p: AccessPattern,
                     q: AccessPattern, x: string)
    requires Setting(v, plan, read, full, delta) && p in plan.access && q in plan.access && p.clauseIdx < q.clauseIdx
    requires x in p.accessOrder && x in q.accessOrder
    ensures x in plan.join
  {
    assert IsJoinSet(v.rule.body, plan.join);
    hide Setting, IsJoinSet, ArgVars;
    AccessVarsAre(v, plan, read, full, delta, p, x);
    AccessVarsAre(v, plan, read, full, delta, q, x);
    InTwoAtoms(v.rule.body, plan.join, x, p.clauseIdx, q.clauseIdx);
  }

  lemma PlanSeparate(v: Variant, plan: Plan, read: Reader, full: Facts, delta: Facts)
    requires Setting(v, plan, read, full, delta)
    ensures Separate(plan.access, plan.join)
  {
    hide IsDefaultPlan;
    PlanAccess(v, plan);
    hide Setting, AllAccess, ListsAtoms;
    forall i, j, x | 0 <= i < j < |plan.access| && x in plan.access[i].accessOrder && x in plan.access[j].accessOrder
      ensures x in plan.join
    {
      SharedIsJoin(v, plan, read, full, delta, plan.access[i], plan.access[j], x);
    }
    assert forall p :: p in plan.access ==> exists i :: 0 <= i < |plan.access| && plan.access[i] == p;
  }

  lemma InTwoAtoms(body: seq<Clause>, join: set<string>, x: string, a: nat, b: nat)
    requires a < b < |body| && body[a].Pos? && body[b].Pos? && x in ArgVars(body[a].atom.args)
    requires x in ArgVars(body[b].atom.args)
    requires IsJoinSet(body, join)
    ensures x in join
  {
    CountedTwice(body, x, a, b);
  }

  lemma {:induction false} InLetVars(body: seq<Clause>, x: string)
    ensures x in LetVars(body) <==> exists i :: 0 <= i < |body| && body[i].Let? && body[i].bound == x
  {
    if |body| > 0 {
      var init := body[..|body| - 1];
      InLetVars(init, x);
      assert body == init + [body[|body| - 1]];
    }
  }

  // A listed variable is in an atom, bound by a let, or only in negations.
  lemma ListedOnce(rule: Rule, x: string)
    requires Bindable(rule) && InClause(rule.body, x)
    ensures InAtom(rule.body, x) || x in LetVars(rule.body) || exists i ::
        0 <= i < |rule.body| && rule.body[i].Neg? && x in ArgVars(rule.body[i].atom.args)
    ensures InAtom(rule.body, x) ==> x !in LetVars(rule.body)
  {
    hide LetVars, ArgVars;
    var body := rule.body;
    InLetVars(body, x);
    var i :| 0 <= i < |body| && x in ClauseVars(body[i]);
    assert Scoped(body, i);
    if body[i].Filter? && x in LetVars(body[..i]) {
      InLetVars(body[..i], x);
    }
    if j :| 0 <= j < |body| && body[j].Let? && body[j].bound == x {
      assert Scoped(body, j);
    }
  }

  lemma PlanIndependent(v: Variant, plan: Plan, read: Reader, full: Facts, delta: Facts)
    requires Setting(v, plan, read, full, delta)
    ensures Elems(Independent(v.rule.body, plan)) == PatternVars(plan.access) - plan.join
  {
    hide IsDefaultPlan, Bindable, NoDup, PatternVars, InClause;
    var body := v.rule.body;
    var n := VarsListed(v, plan);
    var negationOnly := PatternVars(plan.negations) - PatternVars(plan.access);
    forall x ensures x in Independent(body, plan) <==> x in PatternVars(plan.access) && x !in plan.join {
      PatternVarsAre(v, plan, read, full, delta, x);
      if InClause(body, x) {
        ListedOnce(v.rule, x);
        NegationVarsAre(v, plan, x);
      }
      AtomVarListed(body, x);
    }
  }

  lemma AtomVarListed(body: seq<Clause>, x: string)
    ensures InAtom(body, x) ==> InClause(body, x)
  {
    if i :| 0 <= i < |body| && body[i].Pos? && x in ArgVars(body[i].atom.args) {
      assert x in ClauseVars(body[i]);
    }
  }

  // The variables of negated atoms are in the negation patterns.
  lemma NegationVarsAre(v: Variant, plan: Plan, x: string)
    requires |v.versions| == |v.rule.body| && IsDefaultPlan(v, plan)
    ensures (exists i :: 0 <= i < |v.rule.body| && v.rule.body[i].Neg? && x in ArgVars(v.rule.body[i].atom.args)) ==>
        x in PatternVars(plan.negations)
  {
    hide IsDefaultPlan, AccessOrder, KeepIn, InClause;
    var body := v.rule.body;
    if i :| 0 <= i < |body| && body[i].Neg? && x in ArgVars(body[i].atom.args) {
      PlanNegations(v, plan);
      var p := Pattern(body[i], FULL, plan.join, plan.varOrder, i);
      assert p in plan.negations;
      var n := VarsListed(v, plan);
      AtomVarsListed(v, plan, i);
      AccessOrderIsKept(body[i].atom.args, plan.varOrder);
      assert x in p.accessOrder;
      InPatternVars(plan.negations, x);
    }
  }

  lemma SoleAtom(v: Variant, plan: Plan, read: Reader, full: Facts, delta: Facts, p: AccessPattern)
    requires Setting(v, plan, read, full, delta) && plan.access == [p]
    ensures forall i :: 0 <= i < |v.rule.body| && v.rule.body[i].Pos? ==> i == p.clauseIdx
  {
    hide Setting;
    forall i | 0 <= i < |v.rule.body| && v.rule.body[i].Pos? ensures i == p.clauseIdx {
      var q := PatternOfAtom(v, plan, read, full, delta, i);
    }
  }

  lemma PlanReadyForGenerators(v: Variant, plan: Plan, read: Reader, full: Facts, delta: Facts) returns (n: nat)
    requires Setting(v, plan, read, full, delta)
    ensures GeneratorsReady(v.rule.body, plan, read, n)
  {
    hide *;
    SettingIs(v, plan, read, full, delta);
    n := VarsListed(v, plan);
    PlanSeparate(v, plan, read, full, delta);
    PlanJoinsReady(v, plan, read, full, delta, n);
    PlanIndependent(v, plan, read, full, delta);
    JoinListed(v.rule.body, plan);
    ReadyFrom(v.rule.body, plan, read, n);
  }

  lemma ReadyFrom(body: seq<Clause>, plan: Plan, read: Reader, n: nat)
    requires n <= |plan.varOrder| && forall k :: 0 <= k < |plan.varOrder| ==> (plan.varOrder[k] in plan.join <==> k < n)
    requires forall x :: x in plan.join ==> x in plan.varOrder
    requires JoinsReady(plan.varOrder[..n], plan.access, read) && Separate(plan.access, plan.join)
    requires Elems(Independent(body, plan)) == PatternVars(plan.access) - plan.join
    ensures GeneratorsReady(body, plan, read, n)
  {
    hide JoinsReady, Separate, Independent, PatternVars;
  }

  lemma JoinListed(body: seq<Clause>, plan: Plan)
    requires IsJoinSet(body, plan.join) && forall x :: x in plan.varOrder <==> InClause(body, x)
    ensures forall x :: x in plan.join ==> x in plan.varOrder
  {
    hide IsJoinSet;
    forall x | x in plan.join ensures x in plan.varOrder {
      JoinInAtom(body, plan.join, x);
      AtomVarListed(body, x);
    }
  }

  // ========== Lowering correct ==========

  // The lowered pipeline of a default-planned rule emits exactly what the rule's body derives, read as a conjunction.

  // --- Generators: the atoms ---

  // Once all its variables are bound, a pattern has a row exactly when the ground atom is a fact.
  lemma HoldsIsFact(p: AccessPattern, a: Atom, read: Reader, full: Facts, delta: Facts, e: Env)
    requires Fits(p, a.args) && p.rel == a.rel && PatternOk(p, read) && Fresh(p, read, full, delta)
    requires forall x :: x in p.accessOrder ==> x in e
    ensures Holds(p, read, e) <==> Fact(a.rel, Ground(a, e)) in VersionFacts(p.version, full, delta)
  {
    var ground := Ground(a, e);
    forall row | |row| == |p.indexCols| ensures Agrees(p, row, e) <==> row == ground {
      if Agrees(p, row, e) {
        forall c: nat | c < |row| ensures row[c] == ground[c] {
          assert c in p.indexCols;
          var i :| 0 <= i < |p.indexCols| && p.indexCols[i] == c;
          assert a.args[p.indexCols[i]] == LVar(p.accessOrder[i]) && p.accessOrder[i] in e;
        }
      }
      if row == ground {
        forall i | 0 <= i < |p.accessOrder| ensures Col(row, p.indexCols, i) == e[p.accessOrder[i]] {
          assert a.args[p.indexCols[i]] == LVar(p.accessOrder[i]) && p.accessOrder[i] in e;
        }
      }
    }
  }

  // An atom without arguments is looked at only when it is the body's sole atom.
  ghost predicate CheckedAtom(body: seq<Clause>, i: nat) {
    i < |body| && body[i].Pos? && (|body[i].atom.args| > 0 || forall j :: 0 <= j < |body| && body[j].Pos? ==> j == i)
  }

  ghost predicate AtomsHold(v: Variant, sem: Interp, full: Facts, delta: Facts, e: Env)
    requires |v.versions| == |v.rule.body|
  {
    forall i ::
        0 <= i < |v.rule.body| && CheckedAtom(v.rule.body, i) ==>
        SatClause(v.rule.body[i], sem, VersionFacts(v.versions[i], full, delta), full, e)
  }

  ghost predicate BindsAtoms(body: seq<Clause>, e: Env) {
    forall x :: x in e <==> InAtom(body, x)
  }

  // The pattern stands for its atom: looked at when the atom is, and with a row when the atom holds.
  ghost predicate StandsFor(v: Variant, plan: Plan, sem: Interp, read: Reader, full: Facts, delta: Facts, e: Env,
                            p: AccessPattern)
    requires |v.versions| == |v.rule.body|
  {
    && p.clauseIdx < |v.rule.body|
    && (Checked(plan.access, p) <==> CheckedAtom(v.rule.body, p.clauseIdx))
    && (Holds(p, read, e)
        <==> SatClause(v.rule.body[p.clauseIdx], sem, VersionFacts(v.versions[p.clauseIdx], full, delta), full, e))
  }

  lemma PatternsAreAtoms(v: Variant, plan: Plan, sem: Interp, read: Reader, full: Facts, delta: Facts, e: Env)
    requires |v.versions| == |v.rule.body| && Setting(v, plan, read, full, delta) && Lowerable(v.rule)
    requires BindsAtoms(v.rule.body, e)
    ensures AllHold(plan.access, read, e) <==> AtomsHold(v, sem, full, delta, e)
  {
    hide Setting, Lowerable, InAtom, Checked, CheckedAtom, Holds, SatClause, BindsAtoms;
    forall p | p in plan.access ensures StandsFor(v, plan, sem, read, full, delta, e, p) {
      OnePatternIsAtom(v, plan, sem, read, full, delta, e, p);
      CheckedIsChecked(v, plan, read, full, delta, p);
    }
    if AllHold(plan.access, read, e) {
      forall i | 0 <= i < |v.rule.body| && CheckedAtom(v.rule.body, i)
        ensures SatClause(v.rule.body[i], sem, VersionFacts(v.versions[i], full, delta), full, e)
      {
        CheckedIsAtom(v.rule.body, i);
        var p := PatternOfAtom(v, plan, read, full, delta, i);
        assert StandsFor(v, plan, sem, read, full, delta, e, p);
      }
    }
  }

  lemma CheckedIsAtom(body: seq<Clause>, i: nat)
    requires CheckedAtom(body, i)
    ensures i < |body| && body[i].Pos?
  {}

  lemma CheckedIsChecked(v: Variant, plan: Plan, read: Reader, full: Facts, delta: Facts, p: AccessPattern)
    requires Setting(v, plan, read, full, delta) && p in plan.access
    ensures Checked(plan.access, p) <==> CheckedAtom(v.rule.body, p.clauseIdx)
  {
    hide Setting, CheckedAtom;
    AccessWidth(v, plan, read, full, delta, p);
    if |plan.access| == 1 {
      SoleAtom(v, plan, read, full, delta, p);
      SoleIsChecked(v.rule.body, p.clauseIdx);
    } else {
      var j := OtherAtom(v, plan, read, full, delta, p);
      BesideIsChecked(v.rule.body, p.clauseIdx, j);
    }
  }

  lemma SoleIsChecked(body: seq<Clause>, i: nat)
    requires i < |body| && body[i].Pos? && forall j :: 0 <= j < |body| && body[j].Pos? ==> j == i
    ensures CheckedAtom(body, i)
  {}

  lemma BesideIsChecked(body: seq<Clause>, i: nat, j: nat)
    requires i < |body| && body[i].Pos? && j < |body| && body[j].Pos? && j != i
    ensures CheckedAtom(body, i) <==> |body[i].atom.args| > 0
  {}

  lemma AccessWidth(v: Variant, plan: Plan, read: Reader, full: Facts, delta: Facts, p: AccessPattern)
    requires Setting(v, plan, read, full, delta) && p in plan.access
    ensures p.clauseIdx < |v.rule.body| && v.rule.body[p.clauseIdx].Pos?
    ensures |p.accessOrder| > 0 <==> |v.rule.body[p.clauseIdx].atom.args| > 0
  {
    AccessFacts(v, plan, read, full, delta, p);
    SettingIs(v, plan, read, full, delta);
    var args := v.rule.body[p.clauseIdx].atom.args;
    assert NamedAtom(v.rule.body[p.clauseIdx].atom);
    hide Setting, IsDefaultPlan, LeadFits, PatternOk;
    if |args| > 0 {
      assert LVar(args[0].name) in args;
      AccessVarsAre(v, plan, read, full, delta, p, args[0].name);
    }
    if |p.accessOrder| > 0 {
      assert p.accessOrder[0] in p.accessOrder;
      AccessVarsAre(v, plan, read, full, delta, p, p.accessOrder[0]);
    }
  }

  lemma OtherAtom(v: Variant, plan: Plan, read: Reader, full: Facts, delta: Facts, p: AccessPattern) returns (j: nat)
    requires Setting(v, plan, read, full, delta) && p in plan.access && |plan.access| != 1
    ensures j < |v.rule.body| && v.rule.body[j].Pos? && j != p.clauseIdx
  {
    SettingIs(v, plan, read, full, delta);
    PlanAccess(v, plan);
    hide Setting, IsDefaultPlan, AllAccess, ListsAtoms, LeadFits, PatternOk;
    var q := if plan.access[0] == p then plan.access[1] else plan.access[0];
    assert q in plan.access && plan.access[0].clauseIdx < plan.access[1].clauseIdx;
    AccessFacts(v, plan, read, full, delta, q);
    SameIdx(plan, p, q);
    j := q.clauseIdx;
  }

  lemma SameIdx(plan: Plan, p: AccessPattern, q: AccessPattern)
    requires InBodyOrder(plan.access)
    requires p in plan.access && q in plan.access && p != q
    ensures p.clauseIdx != q.clauseIdx
  {
    var j :| 0 <= j < |plan.access| && plan.access[j] == p;
    var k :| 0 <= k < |plan.access| && plan.access[k] == q;
  }

  lemma OnePatternIsAtom(v: Variant, plan: Plan, sem: Interp, read: Reader, full: Facts, delta: Facts, e: Env,
                         p: AccessPattern)
    requires Setting(v, plan, read, full, delta) && Lowerable(v.rule) && BindsAtoms(v.rule.body, e) && p in plan.access
    ensures p.clauseIdx < |v.rule.body| && v.rule.body[p.clauseIdx].Pos?
    ensures Holds(p, read, e)
        <==> SatClause(v.rule.body[p.clauseIdx], sem, VersionFacts(v.versions[p.clauseIdx], full, delta), full, e)
  {
    assert Fresh(p, read, full, delta);
    hide Setting, Lowerable, Fresh, PatternOk, Fits, LeadFits, Holds;
    AccessFacts(v, plan, read, full, delta, p);
    PlainFits(v, plan, read, full, delta, p);
    var a := v.rule.body[p.clauseIdx].atom;
    forall x | x in p.accessOrder ensures x in e {
      AccessVarsAre(v, plan, read, full, delta, p, x);
      assert InAtom(v.rule.body, x);
    }
    HoldsIsFact(p, a, read, full, delta, e);
  }

  lemma GeneratorsAreAtoms(v: Variant, plan: Plan, sem: Interp, read: Reader, full: Facts, delta: Facts, e: Env)
    requires |v.versions| == |v.rule.body| && Setting(v, plan, read, full, delta) && Lowerable(v.rule)
    ensures Runs(Generators(v.rule.body, plan), sem, read, map[], e)
        <==> BindsAtoms(v.rule.body, e) && AtomsHold(v, sem, full, delta, e)
  {
    hide Setting, Lowerable, GeneratorsReady, Generators, Runs, AllHold, AtomsHold, InAtom, PatternVars;
    var n := PlanReadyForGenerators(v, plan, read, full, delta);
    GeneratorsMeaning(v.rule.body, plan, sem, read, n, e);
    forall x ensures x in PatternVars(plan.access) <==> InAtom(v.rule.body, x) {
      PatternVarsAre(v, plan, read, full, delta, x);
    }
    assert e.Keys == PatternVars(plan.access) <==> BindsAtoms(v.rule.body, e);
    if BindsAtoms(v.rule.body, e) { PatternsAreAtoms(v, plan, sem, read, full, delta, e); }
  }

  // --- Negations ---

  // A row is under the negation's key exactly when it matches the negated atom.
  lemma UnderIsMatch(p: AccessPattern, args: seq<Arg>, a: Atom, row: Row, e: Env)
    requires NegationFits(p, a.args) && args == a.args && |row| == |args|
    ensures Under(row, p.indexCols, NegationKey(p.constArgs, p.accessOrder[..p.prefixLen], e)) <==> Matches(a, row, e)
  {
    hide IsHole;
    var key := NegationKey(p.constArgs, p.accessOrder[..p.prefixLen], e);
    var m := |p.constArgs|;
    if Under(row, p.indexCols, key) {
      forall c: nat | c < |row| && !IsHole(args[c]) ensures row[c] == ArgValue(args[c], e) {
        assert c in p.indexCols;
        var k :| 0 <= k < |p.indexCols| && p.indexCols[k] == c;
        KeyAt(p, args, k, e);
        assert Col(row, p.indexCols, k) == row[c];
      }
    }
    if Matches(a, row, e) {
      forall k | 0 <= k < |key| ensures Col(row, p.indexCols, k) == key[k] {
        KeyAt(p, args, k, e);
      }
    }
  }

  // The key covers the columns that are not holes, with their arguments' values.
  lemma KeyAt(p: AccessPattern, args: seq<Arg>, k: nat, e: Env)
    requires NegationFits(p, args) && k < |p.indexCols|
    ensures p.indexCols[k] < |args|
    ensures var key := NegationKey(p.constArgs, p.accessOrder[..p.prefixLen], e);
      && (k < |key| <==> !IsHole(args[p.indexCols[k]]))
      && (k < |key| ==> key[k] == ArgValue(args[p.indexCols[k]], e))
  {
    var m := |p.constArgs|;
    if k < m {
      assert p.indexCols[k] == p.constArgs[k].0;
    } else {
      assert VarColumn(p, args, k - m);
    }
  }

  lemma AbsentIsNegation(p: AccessPattern, a: Atom, sem: Interp, read: Reader, full: Facts, delta: Facts, e: Env)
    requires NegationFits(p, a.args) && p.rel == a.rel && p.version == FULL && Fresh(p, read, full, delta)
    requires RightArity(a, full)
    ensures PatternAbsent(p, read, e) <==> SatClause(Neg(a), sem, full, full, e)
  {
    hide NegationKey;
    hide NegationFits, Under, Matches;
    assert PrefixVars(p) == p.accessOrder[..p.prefixLen] by { PrefixIs(p, a.args); }
    forall row | Fact(a.rel, row) in full
      ensures Under(row, p.indexCols, NegationKey(p.constArgs, PrefixVars(p), e)) <==> Matches(a, row, e)
    {
      UnderIsMatch(p, a.args, a, row, e);
    }
    if PatternAbsent(p, read, e) {
      forall row | Fact(a.rel, row) in full ensures !Matches(a, row, e) {
        assert row in RowsOf(p, read);
      }
    }
  }

  lemma PrefixIs(p: AccessPattern, args: seq<Arg>)
    requires NegationFits(p, args)
    ensures p.prefixLen <= |p.accessOrder|
  {}

  ghost predicate NegationsHold(body: seq<Clause>, sem: Interp, full: Facts, e: Env) {
    forall i :: 0 <= i < |body| && body[i].Neg? ==> SatClause(body[i], sem, full, full, e)
  }

  // No row of the negated relation is under the pattern's key.
  ghost predicate PatternAbsent(p: AccessPattern, read: Reader, env: Env) {
    Absent(SourceOf(p, p.indexCols, PrefixVars(p)), p.constArgs, read, env)
  }

  lemma {:induction false} NegationOps(patterns: seq<AccessPattern>, sem: Interp, read: Reader, env: Env, e: Env,
                                       n: nat)
    requires n <= |patterns|
    ensures Runs(Negations(patterns)[..n], sem, read, env, e) <==>
      e == env && forall k :: 0 <= k < n ==> PatternAbsent(patterns[k], read, env)
    decreases n
  {
    hide Absent;
    if n > 0 {
      var ops := Negations(patterns);
      var init, last := ops[..n - 1], ops[n - 1];
      assert ops[..n] == init + [last];
      RunsThen(init, last, sem, read, env, e);
      hide Runs;
      NegationOps(patterns, sem, read, env, env, n - 1);
      forall mid ensures Runs(init, sem, read, env, mid) ==> mid == env {
        NegationOps(patterns, sem, read, env, mid, n - 1);
      }
      assert Steps(last, sem, read, env, e) <==> e == env && PatternAbsent(patterns[n - 1], read, env);
    }
  }

  lemma NegationFacts(v: Variant, plan: Plan, read: Reader, full: Facts, delta: Facts, i: nat)
    returns (p: AccessPattern)
    requires Setting(v, plan, read, full, delta) && i < |v.rule.body| && v.rule.body[i].Neg?
    ensures p in plan.negations && p == Pattern(v.rule.body[i], FULL, plan.join, plan.varOrder, i)
    ensures NegationFits(p, v.rule.body[i].atom.args) && Fresh(p, read, full, delta)
  {
    hide Pattern, IsGreedy, VarOrder;
    var body := v.rule.body;
    PlanNegations(v, plan);
    hide ListsNegations, NegationFits;
    assert Pattern(body[i], FULL, plan.join, plan.varOrder, i) in plan.negations by { NegationIn(v, plan, i); }
    p := Pattern(body[i], FULL, plan.join, plan.varOrder, i);
    NegationPatternFits(body, v.deltaIdx, plan.clauseOrder, plan.join, i);
  }

  lemma NegationIn(v: Variant, plan: Plan, i: nat)
    requires ListsNegations(plan.negations, v.rule.body, plan.join, plan.varOrder, |v.rule.body|) && i < |v.rule.body|
    requires v.rule.body[i].Neg?
    ensures Pattern(v.rule.body[i], FULL, plan.join, plan.varOrder, i) in plan.negations
  {}

  lemma NegationIsClause(v: Variant, plan: Plan, sem: Interp, read: Reader, full: Facts, delta: Facts, i: nat, e: Env)
    requires Setting(v, plan, read, full, delta) && i < |v.rule.body| && v.rule.body[i].Neg?
    ensures var p := Pattern(v.rule.body[i], FULL, plan.join, plan.varOrder, i);
      && p in plan.negations
      && (PatternAbsent(p, read, e) <==> SatClause(v.rule.body[i], sem, full, full, e))
  {
    hide SatClause, PatternAbsent;
    assert WellTyped(v.rule.body, full, delta);
    hide Setting, NegationFits, Pattern;
    var p := NegationFacts(v, plan, read, full, delta, i);
    PatternShape(v.rule.body[i], FULL, plan.join, plan.varOrder, i);
    AbsentIsNegation(p, v.rule.body[i].atom, sem, read, full, delta, e);
  }

  lemma NegationsAreClauses(v: Variant, plan: Plan, sem: Interp, read: Reader, full: Facts, delta: Facts, env: Env,
                            e: Env)
    requires Setting(v, plan, read, full, delta)
    ensures Runs(Negations(plan.negations), sem, read, env, e)
        <==> e == env && NegationsHold(v.rule.body, sem, full, env)
  {
    hide Bindable;
    var body := v.rule.body;
    NegationOps(plan.negations, sem, read, env, e, |plan.negations|);
    assert Negations(plan.negations)[..|plan.negations|] == Negations(plan.negations);
    SettingIs(v, plan, read, full, delta);
    PlanNegations(v, plan);
    hide Setting, IsDefaultPlan, PatternAbsent, SatClause, Pattern, Negations, Runs;
    forall i | 0 <= i < |body| && body[i].Neg?
      ensures Pattern(body[i], FULL, plan.join, plan.varOrder, i) in plan.negations
      ensures PatternAbsent(Pattern(body[i], FULL, plan.join, plan.varOrder, i), read, env)
          <==> SatClause(body[i], sem, full, full, env)
    {
      NegationIsClause(v, plan, sem, read, full, delta, i, env);
    }
    if NegationsHold(body, sem, full, env) {
      forall k | 0 <= k < |plan.negations| ensures PatternAbsent(plan.negations[k], read, env) {
        var p := plan.negations[k];
        assert p in plan.negations && IsNegation(p, body, plan.join, plan.varOrder);
      }
    }
  }

  // --- Filters and lets ---

  ghost predicate SelectionsHold(body: seq<Clause>, sem: Interp, e: Env, n: nat)
    requires n <= |body|
  {
    forall i :: 0 <= i < n && (body[i].Filter? || body[i].Let?) ==> SatClause(body[i], sem, iset{}, iset{}, e)
  }

  lemma ValuesSame(vs: seq<string>, a: Env, b: Env)
    requires Extending(a, b) && forall x :: x in vs ==> x in a
    ensures Values(vs, a) == Values(vs, b)
  {
    forall i | 0 <= i < |vs| ensures Look(a, vs[i]) == Look(b, vs[i]) {
      assert vs[i] in vs;
    }
  }

  // A clause keeps its truth when only variables it does not mention are added.
  lemma SelectionSame(body: seq<Clause>, i: nat, sem: Interp, a: Env, b: Env)
    requires i < |body| && Scoped(body, i) && (body[i].Filter? || body[i].Let?)
    requires Extending(a, b) && forall x :: Known(body, x, i) ==> x in a
    requires body[i].Let? ==> body[i].bound in a
    ensures SatClause(body[i], sem, iset{}, iset{}, a) <==> SatClause(body[i], sem, iset{}, iset{}, b)
  {
    hide Known;
    ValuesSame(if body[i].Filter? then body[i].vars else body[i].deps, a, b);
  }

  lemma KnownGrows(body: seq<Clause>, i: nat, n: nat, x: string)
    requires i <= n <= |body| && Known(body, x, i)
    ensures Known(body, x, n)
  {
    InLetVars(body[..i], x);
    InLetVars(body[..n], x);
    if x in LetVars(body[..i]) {
      var j :| 0 <= j < i && body[..i][j].Let? && body[..i][j].bound == x;
      assert body[..n][j] == body[..i][j];
    }
  }

  ghost predicate BindsUpTo(body: seq<Clause>, mid: Env, e: Env, n: nat)
    requires n <= |body|
  {
    e.Keys == mid.Keys + LetVars(body[..n]) && Extending(mid, e)
  }

  lemma KnownIsBound(body: seq<Clause>, mid: Env, e: Env, n: nat, i: nat)
    requires i <= n <= |body| && BindsAtoms(body, mid) && BindsUpTo(body, mid, e, n)
    ensures forall x :: Known(body, x, i) ==> x in e
  {
    forall x | Known(body, x, i) ensures x in e {
      KnownGrows(body, i, n, x);
    }
  }

  // Selections before position n do not see what is bound later.
  lemma SelectionsSame(body: seq<Clause>, sem: Interp, mid: Env, a: Env, b: Env, n: nat)
    requires n <= |body| && BindsAtoms(body, mid) && BindsUpTo(body, mid, a, n) && Extending(a, b)
    requires forall i :: 0 <= i < |body| ==> Scoped(body, i)
    ensures SelectionsHold(body, sem, a, n) <==> SelectionsHold(body, sem, b, n)
  {
    forall i | 0 <= i < n && (body[i].Filter? || body[i].Let?)
      ensures SatClause(body[i], sem, iset{}, iset{}, a) <==> SatClause(body[i], sem, iset{}, iset{}, b)
    {
      hide SatClause, Scoped, BindsAtoms, Extending;
      KnownIsBound(body, mid, a, n, i);
      if body[i].Let? {
        InLetVars(body[..n], body[i].bound);
        assert body[..n][i] == body[i];
      }
      assert Scoped(body, i);
      SelectionSame(body, i, sem, a, b);
    }
  }

  lemma LetsGrow(body: seq<Clause>, n: nat)
    requires 0 < n <= |body|
    ensures LetVars(body[..n]) == LetVars(body[..n - 1]) + if body[n - 1].Let? then {body[n - 1].bound} else {}
    ensures FiltersAndLets(body[..n]) == FiltersAndLets(body[..n - 1]) +
      (match body[n - 1] case Filter(vars, code) => [FilterOp(vars, code)] case Let(x, code,
          deps) => [ConstantBind(x, code, deps)] case Pos(_) => [] case Neg(_) => [])
  {
    assert body[..n][..n - 1] == body[..n - 1];
  }

  lemma LetStep(body: seq<Clause>, sem: Interp, mid: Env, m: Env, e: Env, n: nat)
    requires 0 < n <= |body| && BindsAtoms(body, mid) && body[n - 1].Let?
    requires forall i :: 0 <= i < |body| ==> Scoped(body, i)
    requires BindsUpTo(body, mid, m, n - 1) && SelectionsHold(body, sem, m, n - 1)
    requires e == m[body[n - 1].bound := Calc(sem, body[n - 1].code, Values(body[n - 1].deps, m))]
    ensures BindsUpTo(body, mid, e, n) && SelectionsHold(body, sem, e, n)
  {
    hide BindsAtoms;
    LetsGrow(body, n);
    assert Scoped(body, n - 1);
    KnownIsBound(body, mid, m, n - 1, n - 1);
    LetIsFresh(body, mid, m, n);
    SelectionsSame(body, sem, mid, m, e, n - 1);
    ValuesSame(body[n - 1].deps, m, e);
  }

  lemma LetIsFresh(body: seq<Clause>, mid: Env, m: Env, n: nat)
    requires 0 < n <= |body| && BindsAtoms(body, mid) && body[n - 1].Let? && Scoped(body, n - 1)
    requires BindsUpTo(body, mid, m, n - 1)
    ensures body[n - 1].bound !in m
  {}

  lemma LetUndo(body: seq<Clause>, sem: Interp, mid: Env, e: Env, n: nat) returns (m: Env)
    requires 0 < n <= |body| && BindsAtoms(body, mid) && body[n - 1].Let?
    requires forall i :: 0 <= i < |body| ==> Scoped(body, i)
    requires BindsUpTo(body, mid, e, n) && SelectionsHold(body, sem, e, n)
    ensures BindsUpTo(body, mid, m, n - 1) && SelectionsHold(body, sem, m, n - 1)
    ensures e == m[body[n - 1].bound := Calc(sem, body[n - 1].code, Values(body[n - 1].deps, m))]
  {
    hide BindsAtoms, Values, Calc, LetVars, Known;
    LetsGrow(body, n);
    assert Scoped(body, n - 1);
    m := Restrict(e, mid.Keys + LetVars(body[..n - 1]));
    assert m.Keys == mid.Keys + LetVars(body[..n - 1]);
    KnownIsBound(body, mid, m, n - 1, n - 1);
    SelectionsSame(body, sem, mid, m, e, n - 1);
    ValuesSame(body[n - 1].deps, m, e);
    assert SatClause(body[n - 1], sem, iset{}, iset{}, e);
  }

  lemma NoLetStep(body: seq<Clause>, sem: Interp, mid: Env, e: Env, n: nat)
    requires 0 < n <= |body| && !body[n - 1].Let?
    ensures BindsUpTo(body, mid, e, n) <==> BindsUpTo(body, mid, e, n - 1)
    ensures SelectionsHold(body, sem, e, n) <==>
      SelectionsHold(body, sem, e, n - 1)
          && (body[n - 1].Filter? ==> Test(sem, body[n - 1].code, Values(body[n - 1].vars, e)))
  {
    hide LetVars, Values;
    LetsGrow(body, n);
    assert LetVars(body[..n - 1]) + {} == LetVars(body[..n - 1]);
    assert SelectionsHold(body, sem, e, n) && body[n - 1].Filter? ==> SatClause(body[n - 1], sem, iset{}, iset{}, e);
  }

  ghost predicate Selects(body: seq<Clause>, sem: Interp, read: Reader, mid: Env, e: Env, n: nat)
    requires n <= |body|
  {
    BindsUpTo(body, mid, e, n) && SelectionsHold(body, sem, e, n)
  }

  lemma LetRuns(body: seq<Clause>, sem: Interp, read: Reader, before: seq<Op>, mid: Env, e: Env, n: nat)
    requires 0 < n <= |body| && BindsAtoms(body, mid) && body[n - 1].Let?
    requires forall i :: 0 <= i < |body| ==> Scoped(body, i)
    requires forall m :: Runs(before, sem, read, mid, m) <==> Selects(body, sem, read, mid, m, n - 1)
    ensures Runs(before + [ConstantBind(body[n - 1].bound, body[n - 1].code, body[n - 1].deps)], sem, read, mid, e) <==>
            Selects(body, sem, read, mid, e, n)
  {
    hide BindsAtoms, Scoped, BindsUpTo, SelectionsHold, Runs, Calc, Values;
    var last := ConstantBind(body[n - 1].bound, body[n - 1].code, body[n - 1].deps);
    RunsThen(before, last, sem, read, mid, e);
    if m :| Runs(before, sem, read, mid, m) && Steps(last, sem, read, m, e) {
      LetStep(body, sem, mid, m, e, n);
    }
    if Selects(body, sem, read, mid, e, n) {
      var m := LetUndo(body, sem, mid, e, n);
      assert Runs(before, sem, read, mid, m) && Steps(last, sem, read, m, e);
    }
  }

  lemma OtherRuns(body: seq<Clause>, sem: Interp, read: Reader, before: seq<Op>, mid: Env, e: Env, n: nat)
    requires 0 < n <= |body| && !body[n - 1].Let?
    requires Runs(before, sem, read, mid, e) <==> Selects(body, sem, read, mid, e, n - 1)
    ensures Runs(before + if body[n - 1].Filter? then [FilterOp(body[n - 1].vars, body[n - 1].code)]
                            else [], sem, read, mid, e) <==>
            Selects(body, sem, read, mid, e, n)
  {
    hide BindsUpTo, SelectionsHold, Runs;
    NoLetStep(body, sem, mid, e, n);
    if body[n - 1].Filter? {
      RunsThen(before, FilterOp(body[n - 1].vars, body[n - 1].code), sem, read, mid, e);
    } else {
      assert before + [] == before;
    }
  }

  lemma SelectsNothing(body: seq<Clause>, sem: Interp, read: Reader, mid: Env, e: Env)
    ensures Selects(body, sem, read, mid, e, 0) <==> e == mid
  {}

  // Filters and lets in source order: lets extend the binding, and every one of them holds of the result.
  lemma {:induction false} SelectionsMeaning(body: seq<Clause>, sem: Interp, read: Reader, mid: Env, e: Env, n: nat)
    requires n <= |body| && BindsAtoms(body, mid)
    requires forall i :: 0 <= i < |body| ==> Scoped(body, i)
    ensures Runs(FiltersAndLets(body[..n]), sem, read, mid, e) <==> Selects(body, sem, read, mid, e, n)
    decreases n
  {
    if n == 0 {
      SelectsNothing(body, sem, read, mid, e);
    } else {
      LetsGrow(body, n);
      var before, ops := FiltersAndLets(body[..n - 1]), FiltersAndLets(body[..n]);
      hide FiltersAndLets, Scoped, BindsAtoms, Calc, Values, Runs, LetVars, BindsUpTo, SelectionsHold;
      if body[n - 1].Let? {
        forall m ensures Runs(before, sem, read, mid, m) <==> Selects(body, sem, read, mid, m, n - 1) {
          SelectionsMeaning(body, sem, read, mid, m, n - 1);
        }
        hide Selects;
        LetRuns(body, sem, read, before, mid, e, n);
      } else {
        hide Selects;
        SelectionsMeaning(body, sem, read, mid, e, n - 1);
        OtherRuns(body, sem, read, before, mid, e, n);
      }
    }
  }

  // ========== Lowering theorem ==========

  // The whole pipeline: its bindings are those that satisfy the body, and its inserts emit exactly what the rule
  // derives.

  lemma AtomSame(a: Atom, x: Env, y: Env)
    requires forall v :: v in ArgVars(a.args) ==> Look(x, v) == Look(y, v)
    ensures Ground(a, x) == Ground(a, y)
  {
    forall i | 0 <= i < |a.args| ensures ArgValue(a.args[i], x) == ArgValue(a.args[i], y) {
      if a.args[i].LVar? { assert a.args[i].name in ArgVars(a.args); }
    }
  }

  lemma MatchSame(a: Atom, row: Row, x: Env, y: Env)
    requires forall v :: v in ArgVars(a.args) && !IsWildcard(v) ==> Look(x, v) == Look(y, v)
    ensures Matches(a, row, x) <==> Matches(a, row, y)
  {
    forall i | 0 <= i < |a.args| && !IsHole(a.args[i]) ensures ArgValue(a.args[i], x) == ArgValue(a.args[i], y) {
      if a.args[i].LVar? { assert a.args[i].name in ArgVars(a.args); }
    }
  }

  // Atoms and negations read the atoms' variables only.
  lemma RelationClauseSame(rule: Rule, i: nat, sem: Interp, pos: Facts, neg: Facts, x: Env, y: Env)
    requires Lowerable(rule) && i < |rule.body| && (rule.body[i].Pos? || rule.body[i].Neg?)
    requires forall v :: InAtom(rule.body, v) ==> Look(x, v) == Look(y, v)
    ensures SatClause(rule.body[i], sem, pos, neg, x) <==> SatClause(rule.body[i], sem, pos, neg, y)
  {
    var body := rule.body;
    match body[i]
    case Pos(a) =>
      forall v | v in ArgVars(a.args) ensures InAtom(body, v) {}
      AtomSame(a, x, y);
    case Neg(a) =>
      assert SafeNegation(body, i);
      forall v | v in ArgVars(a.args) && !IsWildcard(v) ensures InAtom(body, v) {}
      forall row ensures Matches(a, row, x) <==> Matches(a, row, y) {
        MatchSame(a, row, x, y);
      }
  }

  lemma ClauseSame(rule: Rule, i: nat, sem: Interp, pos: Facts, neg: Facts, x: Env, y: Env)
    requires Lowerable(rule) && i < |rule.body|
    requires forall v :: Known(rule.body, v, |rule.body|) ==> Look(x, v) == Look(y, v)
    ensures SatClause(rule.body[i], sem, pos, neg, x) <==> SatClause(rule.body[i], sem, pos, neg, y)
  {
    var body := rule.body;
    assert Scoped(body, i);
    if body[i].Pos? || body[i].Neg? {
      RelationClauseSame(rule, i, sem, pos, neg, x, y);
    } else {
      var vs := if body[i].Filter? then body[i].vars else body[i].deps;
      forall k | 0 <= k < |vs| ensures Look(x, vs[k]) == Look(y, vs[k]) {
        assert vs[k] in vs;
        KnownGrows(body, i, |body|, vs[k]);
      }
      assert Values(vs, x) == Values(vs, y);
      if body[i].Let? {
        InLetVars(body[..|body|], body[i].bound);
        assert Known(body, body[i].bound, |body|);
      }
    }
  }

  // What the pipeline asks of a binding: every clause holds, except argumentless atoms beside other atoms.
  ghost predicate SatChecked(v: Variant, sem: Interp, full: Facts, delta: Facts, env: Env)
    requires |v.versions| == |v.rule.body|
  {
    forall i :: 0 <= i < |v.rule.body| && (v.rule.body[i].Pos? ==> CheckedAtom(v.rule.body, i)) ==>
      SatClause(v.rule.body[i], sem, VersionFacts(v.versions[i], full, delta), full, env)
  }

  // Atoms, negations and selections together are the whole body.
  lemma PartsAreBody(v: Variant, sem: Interp, full: Facts, delta: Facts, mid: Env, e: Env)
    requires |v.versions| == |v.rule.body| && Lowerable(v.rule)
    requires BindsAtoms(v.rule.body, mid) && Extending(mid, e)
    ensures AtomsHold(v, sem, full, delta, mid) && NegationsHold(v.rule.body, sem, full, mid) &&
            SelectionsHold(v.rule.body, sem, e, |v.rule.body|)
            <==> SatChecked(v, sem, full, delta, e)
  {
    hide InAtom, VersionFacts;
    var body := v.rule.body;
    forall i | 0 <= i < |body| && (body[i].Pos? || body[i].Neg?)
      ensures SatClause(body[i], sem, VersionFacts(v.versions[i], full, delta), full, mid) <==>
              SatClause(body[i], sem, VersionFacts(v.versions[i], full, delta), full, e)
    {
      RelationClauseSame(v.rule, i, sem, VersionFacts(v.versions[i], full, delta), full, mid, e);
    }
    hide Lowerable, BindsAtoms, Extending, CheckedAtom;
    forall i: nat | CheckedAtom(body, i) ensures i < |body| && body[i].Pos? {
      CheckedIsAtom(body, i);
    }
    forall i | 0 <= i < |body| && (body[i].Filter? || body[i].Let?)
      ensures SatClause(body[i], sem, VersionFacts(v.versions[i], full, delta), full, e)
          <==> SatClause(body[i], sem, iset{}, iset{}, e)
    {}
    forall i | 0 <= i < |body| && body[i].Neg?
      ensures SatClause(body[i], sem, VersionFacts(v.versions[i], full, delta), full, mid)
          <==> SatClause(body[i], sem, full, full, mid)
    {}
  }

  // Everything before the inserts.
  function BodyOps(rule: Rule, plan: Plan): seq<Op> {
    Generators(rule.body, plan) + Negations(plan.negations) + FiltersAndLets(rule.body)
  }

  // The three stages of the body, in terms of the rule.
  ghost predicate Stages(v: Variant, sem: Interp, read: Reader, full: Facts, delta: Facts, mid: Env, e: Env)
    requires |v.versions| == |v.rule.body|
  {
    && BindsAtoms(v.rule.body, mid) && AtomsHold(v, sem, full, delta, mid) && NegationsHold(v.rule.body, sem, full, mid)
    && Selects(v.rule.body, sem, read, mid, e, |v.rule.body|)
  }

  lemma RelationStages(v: Variant, plan: Plan, sem: Interp, read: Reader, full: Facts, delta: Facts, mid: Env)
    requires |v.versions| == |v.rule.body| && Setting(v, plan, read, full, delta) && Lowerable(v.rule)
    ensures Runs(Generators(v.rule.body, plan) + Negations(plan.negations), sem, read, map[], mid) <==>
            BindsAtoms(v.rule.body, mid) && AtomsHold(v, sem, full, delta, mid)
                && NegationsHold(v.rule.body, sem, full, mid)
  {
    hide *;
    var g, n := Generators(v.rule.body, plan), Negations(plan.negations);
    RunsAppend(g, n, sem, read, map[], mid);
    if m :| Runs(g, sem, read, map[], m) && Runs(n, sem, read, m, mid) {
      GeneratorsAreAtoms(v, plan, sem, read, full, delta, m);
      NegationsAreClauses(v, plan, sem, read, full, delta, m, mid);
    }
    GeneratorsAreAtoms(v, plan, sem, read, full, delta, mid);
    NegationsAreClauses(v, plan, sem, read, full, delta, mid, mid);
  }

  lemma OneStage(v: Variant, plan: Plan, sem: Interp, read: Reader, full: Facts, delta: Facts, mid: Env, e: Env)
    requires |v.versions| == |v.rule.body| && Setting(v, plan, read, full, delta) && Lowerable(v.rule)
    ensures Runs(Generators(v.rule.body, plan) + Negations(plan.negations), sem, read, map[], mid) &&
            Runs(FiltersAndLets(v.rule.body), sem, read, mid, e)
            <==> Stages(v, sem, read, full, delta, mid, e)
  {
    assert forall i :: 0 <= i < |v.rule.body| ==> Scoped(v.rule.body, i);
    assert v.rule.body[..|v.rule.body|] == v.rule.body;
    hide Setting, Generators, Negations, FiltersAndLets, Runs, Scoped, BindsAtoms, AtomsHold, NegationsHold, Selects;
    RelationStages(v, plan, sem, read, full, delta, mid);
    if BindsAtoms(v.rule.body, mid) { SelectionsMeaning(v.rule.body, sem, read, mid, e, |v.rule.body|); }
  }

  lemma BodyStages(v: Variant, plan: Plan, sem: Interp, read: Reader, full: Facts, delta: Facts, e: Env)
    requires |v.versions| == |v.rule.body| && Setting(v, plan, read, full, delta) && Lowerable(v.rule)
    ensures Runs(BodyOps(v.rule, plan), sem, read, map[], e)
        <==> exists mid :: Stages(v, sem, read, full, delta, mid, e)
  {
    hide Setting, Runs, Stages, Generators;
    var front, s := Generators(v.rule.body, plan) + Negations(plan.negations), FiltersAndLets(v.rule.body);
    assert BodyOps(v.rule, plan) == front + s;
    hide *;
    RunsAppend(front, s, sem, read, map[], e);
    if mid :| Runs(front, sem, read, map[], mid) && Runs(s, sem, read, mid, e) {
      OneStage(v, plan, sem, read, full, delta, mid, e);
    }
    if mid :| Stages(v, sem, read, full, delta, mid, e) {
      OneStage(v, plan, sem, read, full, delta, mid, e);
    }
  }

  lemma {:induction false} NoInsertInJoins(varOrder: seq<string>, join: set<string>, patterns: seq<AccessPattern>)
    ensures forall k ::
        0 <= k < |JoinVars(varOrder, join, patterns).ops| ==> !JoinVars(varOrder, join, patterns).ops[k].InsertInto?
  {
    hide JoinSources, Record;
    if |varOrder| > 0 { NoInsertInJoins(varOrder[..|varOrder| - 1], join, patterns); }
  }

  lemma {:induction false} NoInsertInSelections(body: seq<Clause>)
    ensures forall k :: 0 <= k < |FiltersAndLets(body)| ==> !FiltersAndLets(body)[k].InsertInto?
  {
    if |body| > 0 { NoInsertInSelections(body[..|body| - 1]); }
  }

  lemma NoInsertInBody(rule: Rule, plan: Plan)
    ensures forall k :: 0 <= k < |BodyOps(rule, plan)| ==> !BodyOps(rule, plan)[k].InsertInto?
  {
    NoInsertInJoins(plan.varOrder, plan.join, plan.access);
    NoInsertInSelections(rule.body);
    hide JoinVars, CartesianSources, Independent, FiltersAndLets;
  }

  lemma {:induction false} InsertsPass(heads: seq<Atom>, canonical: map<string, seq<nat>>, sem: Interp, read: Reader,
                                       env: Env, e: Env, n: nat)
    requires n <= |heads|
    ensures Runs(Inserts(heads, canonical)[..n], sem, read, env, e) <==> e == env
    decreases n
  {
    if n > 0 {
      var ops := Inserts(heads, canonical);
      RunsThen(ops[..n - 1], ops[n - 1], sem, read, env, e);
      assert ops[..n] == ops[..n - 1] + [ops[n - 1]];
      InsertsPass(heads, canonical, sem, read, env, e, n - 1);
    }
  }

  // Head h's insert sees exactly the body's bindings.
  lemma InsertSees(rule: Rule, plan: Plan, canonical: map<string, seq<nat>>, sem: Interp, read: Reader, h: nat, e: Env)
    requires h < |rule.heads|
    ensures var ops, k := Pipeline(rule, plan, canonical), |BodyOps(rule, plan)| + h;
      && k < |ops| && ops[k] == Inserts(rule.heads, canonical)[h]
      && (Runs(ops[..k], sem, read, map[], e) <==> Runs(BodyOps(rule, plan), sem, read, map[], e))
  {
    hide Generators, Negations, FiltersAndLets, Runs;
    var front, inserts := BodyOps(rule, plan), Inserts(rule.heads, canonical);
    var ops, k := Pipeline(rule, plan, canonical), |front| + h;
    assert ops == front + inserts;
    assert ops[..k] == front + inserts[..h];
    RunsAppend(front, inserts[..h], sem, read, map[], e);
    forall mid ensures Runs(inserts[..h], sem, read, mid, e) <==> e == mid {
      InsertsPass(rule.heads, canonical, sem, read, mid, e, h);
    }
  }

  lemma {:induction false} HeadVars(args: seq<Arg>)
    requires AllVars(args)
    ensures |ArgVars(args)| == |args| && forall i :: 0 <= i < |args| ==> args[i] == LVar(ArgVars(args)[i])
  {
    if |args| > 0 { HeadVars(args[..|args| - 1]); }
  }

  lemma InsertIsHead(rule: Rule, plan: Plan, canonical: map<string, seq<nat>>, sem: Interp, read: Reader, h: nat,
                     e: Env, f: Fact)
    requires Lowerable(rule) && h < |rule.heads|
    ensures var k := |BodyOps(rule, plan)| + h;
      && k < |Pipeline(rule, plan, canonical)|
      && (InsertsAt(Pipeline(rule, plan, canonical), sem, read, k, e, f) <==>
          Runs(BodyOps(rule, plan), sem, read, map[], e) && f == Fact(rule.heads[h].rel, Ground(rule.heads[h], e)))
  {
    assert HeadOk(rule, rule.heads[h]);
    hide Lowerable, Runs, BodyOps, Pipeline;
    InsertSees(rule, plan, canonical, sem, read, h, e);
    HeadVars(rule.heads[h].args);
    assert Values(ArgVars(rule.heads[h].args), e) == Ground(rule.heads[h], e);
  }

  lemma InsertsAreLast(rule: Rule, plan: Plan, canonical: map<string, seq<nat>>, k: nat)
    requires k < |Pipeline(rule, plan, canonical)| && Pipeline(rule, plan, canonical)[k].InsertInto?
    ensures |BodyOps(rule, plan)| <= k < |BodyOps(rule, plan)| + |rule.heads|
  {
    NoInsertInBody(rule, plan);
    hide Generators, Negations, FiltersAndLets;
    assert Pipeline(rule, plan, canonical) == BodyOps(rule, plan) + Inserts(rule.heads, canonical);
    assert forall j :: 0 <= j < |BodyOps(rule, plan)| ==> !Pipeline(rule, plan, canonical)[j].InsertInto?;
  }

  lemma EmitsAreHeads(rule: Rule, plan: Plan, canonical: map<string, seq<nat>>, sem: Interp, read: Reader, f: Fact)
    requires Lowerable(rule)
    ensures Emits(Pipeline(rule, plan, canonical), sem, read, f) <==>
            exists e :: Runs(BodyOps(rule, plan), sem, read, map[], e) && IsHeadFact(rule, e, f)
  {
    hide Runs, BodyOps, Pipeline, Lowerable;
    var ops, front := Pipeline(rule, plan, canonical), BodyOps(rule, plan);
    if k, e :| 0 <= k < |ops| && InsertsAt(ops, sem, read, k, e, f) {
      InsertsAreLast(rule, plan, canonical, k);
      InsertIsHead(rule, plan, canonical, sem, read, k - |front|, e, f);
      assert IsHeadFact(rule, e, f);
    }
    if e :| Runs(front, sem, read, map[], e) && IsHeadFact(rule, e, f) {
      var h :| 0 <= h < |rule.heads| && f == Fact(rule.heads[h].rel, Ground(rule.heads[h], e));
      InsertIsHead(rule, plan, canonical, sem, read, h, e, f);
    }
  }

  // --- The theorem ---

  lemma HeadSame(rule: Rule, x: Env, y: Env, f: Fact)
    requires Lowerable(rule) && forall v :: Known(rule.body, v, |rule.body|) ==> Look(x, v) == Look(y, v)
    requires IsHeadFact(rule, x, f)
    ensures IsHeadFact(rule, y, f)
  {
    var h :| 0 <= h < |rule.heads| && f == Fact(rule.heads[h].rel, Ground(rule.heads[h], x));
    assert HeadOk(rule, rule.heads[h]);
    AtomSame(rule.heads[h], x, y);
  }

  // The binding cut down to some variables.
  function Cut(env: Env, vars: set<string>): Env {
    map x | x in vars :: Look(env, x)
  }

  lemma CutKnown(body: seq<Clause>, atoms: set<string>, env: Env)
    requires forall x :: x in atoms <==> InAtom(body, x)
    ensures var mid, e := Cut(env, atoms), Cut(env, atoms + LetVars(body));
      && BindsAtoms(body, mid) && BindsUpTo(body, mid, e, |body|)
      && forall x :: Known(body, x, |body|) ==> Look(env, x) == Look(e, x)
  {
    hide InAtom, LetVars;
    assert body[..|body|] == body;
    var mid, e := Cut(env, atoms), Cut(env, atoms + LetVars(body));
    assert e.Keys == mid.Keys + LetVars(body);
  }

  lemma CheckedKept(v: Variant, sem: Interp, full: Facts, delta: Facts, env: Env, e: Env)
    requires |v.versions| == |v.rule.body| && Lowerable(v.rule) && SatChecked(v, sem, full, delta, env)
    requires forall x :: Known(v.rule.body, x, |v.rule.body|) ==> Look(env, x) == Look(e, x)
    ensures SatChecked(v, sem, full, delta, e)
  {
    hide Lowerable, SatClause, CheckedAtom, Known;
    var body := v.rule.body;
    forall i | 0 <= i < |body| && (body[i].Pos? ==> CheckedAtom(body, i))
      ensures SatClause(body[i], sem, VersionFacts(v.versions[i], full, delta), full, e)
    {
      ClauseSame(v.rule, i, sem, VersionFacts(v.versions[i], full, delta), full, env, e);
    }
  }

  // Any satisfying binding, cut down to the variables the body binds, comes out of the three stages.
  lemma CutPasses(v: Variant, plan: Plan, sem: Interp, read: Reader, full: Facts, delta: Facts, env: Env)
    returns (mid: Env, e: Env)
    requires |v.versions| == |v.rule.body| && Setting(v, plan, read, full, delta) && Lowerable(v.rule)
    requires SatChecked(v, sem, full, delta, env)
    ensures Stages(v, sem, read, full, delta, mid, e)
    ensures forall x :: Known(v.rule.body, x, |v.rule.body|) ==> Look(env, x) == Look(e, x)
  {
    hide Setting, IsDefaultPlan, WellTyped, SatChecked, PatternVars, InAtom, LetVars, Lowerable, NegationsHold,
        AtomsHold, SelectionsHold, Known,
         BindsAtoms, Extending;
    var body, atoms := v.rule.body, PatternVars(plan.access);
    forall x ensures x in atoms <==> InAtom(body, x) {
      PatternVarsAre(v, plan, read, full, delta, x);
    }
    CutKnown(body, atoms, env);
    mid, e := Cut(env, atoms), Cut(env, atoms + LetVars(body));
    CheckedKept(v, sem, full, delta, env, e);
    PartsAreBody(v, sem, full, delta, mid, e);
  }

  // For a rule in the lowering's scope, planned by default and reading fresh indexes of well-typed relations,
  // the pipeline emits exactly the head facts of the bindings that satisfy the checked clauses.
  lemma PipelineEmits(v: Variant, plan: Plan, canonical: map<string, seq<nat>>, sem: Interp, read: Reader, full: Facts,
                      delta: Facts, f: Fact)
    requires |v.versions| == |v.rule.body| && Lowerable(v.rule) && IsDefaultPlan(v, plan)
    requires WellTyped(v.rule.body, full, delta) && AllFresh(plan, read, full, delta)
    ensures Emits(Pipeline(v.rule, plan, canonical), sem, read, f) <==>
            exists env :: SatChecked(v, sem, full, delta, env) && IsHeadFact(v.rule, env, f)
  {
    LowerableBinds(v.rule);
    assert Setting(v, plan, read, full, delta);
    EmitsAreHeads(v.rule, plan, canonical, sem, read, f);
    hide Setting, Emits, Pipeline, BodyOps, Runs, Stages, SatChecked, IsHeadFact, Lowerable, IsDefaultPlan, WellTyped,
        AllFresh;
    if e :| Runs(BodyOps(v.rule, plan), sem, read, map[], e) && IsHeadFact(v.rule, e, f) {
      BodyStages(v, plan, sem, read, full, delta, e);
      var mid :| Stages(v, sem, read, full, delta, mid, e);
      StagesSatisfy(v, sem, read, full, delta, mid, e);
    }
    if env :| SatChecked(v, sem, full, delta, env) && IsHeadFact(v.rule, env, f) {
      var mid, e := CutPasses(v, plan, sem, read, full, delta, env);
      BodyStages(v, plan, sem, read, full, delta, e);
      HeadSame(v.rule, env, e, f);
    }
  }

  lemma StagesSatisfy(v: Variant, sem: Interp, read: Reader, full: Facts, delta: Facts, mid: Env, e: Env)
    requires |v.versions| == |v.rule.body| && Lowerable(v.rule) && Stages(v, sem, read, full, delta, mid, e)
    ensures SatChecked(v, sem, full, delta, e)
  {
    hide Lowerable;
    PartsAreBody(v, sem, full, delta, mid, e);
  }

  // Every argumentless atom beside other atoms is a fact of the version it reads.
  ghost predicate UncheckedHold(v: Variant, full: Facts, delta: Facts)
    requires |v.versions| == |v.rule.body|
  {
    forall i :: 0 <= i < |v.rule.body| && v.rule.body[i].Pos? && !CheckedAtom(v.rule.body, i) ==>
      Fact(v.rule.body[i].atom.rel, []) in VersionFacts(v.versions[i], full, delta)
  }

  lemma SatisfiedIsChecked(v: Variant, sem: Interp, full: Facts, delta: Facts, env: Env)
    requires |v.versions| == |v.rule.body|
    ensures SatVersions(v, sem, full, delta, env)
        <==> SatChecked(v, sem, full, delta, env) && UncheckedHold(v, full, delta)
  {
    var body := v.rule.body;
    forall i | 0 <= i < |body| && body[i].Pos? && !CheckedAtom(body, i)
      ensures SatClause(body[i], sem, VersionFacts(v.versions[i], full, delta), full, env) <==>
              Fact(body[i].atom.rel, []) in VersionFacts(v.versions[i], full, delta)
    {
      assert Ground(body[i].atom, env) == [];
    }
  }

  // The pipeline emits exactly what the variant derives if and only if the argumentless atoms it skips hold,
  // or nothing else in the body can be satisfied anyway.
  lemma PipelineDerives(v: Variant, plan: Plan, canonical: map<string, seq<nat>>, sem: Interp, read: Reader,
                        full: Facts, delta: Facts)
    requires |v.versions| == |v.rule.body| && Lowerable(v.rule) && IsDefaultPlan(v, plan)
    requires WellTyped(v.rule.body, full, delta) && AllFresh(plan, read, full, delta)
    ensures (forall f :: Emits(Pipeline(v.rule, plan, canonical), sem, read, f)
               <==> VariantDerives(v, sem, full, delta, f)) <==>
            UncheckedHold(v, full, delta) || |v.rule.heads| == 0 || forall env :: !SatChecked(v, sem, full, delta, env)
  {
    var ops := Pipeline(v.rule, plan, canonical);
    hide Emits, Pipeline, SatChecked, SatVersions, IsHeadFact, Lowerable, IsDefaultPlan, WellTyped, AllFresh,
        UncheckedHold;
    forall f ensures Emits(ops, sem, read, f)
        <==> exists env :: SatChecked(v, sem, full, delta, env) && IsHeadFact(v.rule, env, f) {
      PipelineEmits(v, plan, canonical, sem, read, full, delta, f);
    }
    forall env
      ensures SatVersions(v, sem, full, delta, env)
      <==> SatChecked(v, sem, full, delta, env) && UncheckedHold(v, full, delta) {
      SatisfiedIsChecked(v, sem, full, delta, env);
    }
    if |v.rule.heads| == 0 {
      forall env, f ensures !IsHeadFact(v.rule, env, f) { NoHeads(v.rule, env, f); }
    } else if !UncheckedHold(v, full, delta) {
      if env :| SatChecked(v, sem, full, delta, env) {
        var f := Fact(v.rule.heads[0].rel, Ground(v.rule.heads[0], env));
        FirstHead(v.rule, env);
        assert Emits(ops, sem, read, f) && !VariantDerives(v, sem, full, delta, f);
      }
    }
  }

  lemma NoHeads(rule: Rule, env: Env, f: Fact)
    requires |rule.heads| == 0
    ensures !IsHeadFact(rule, env, f)
  {}

  lemma FirstHead(rule: Rule, env: Env)
    requires |rule.heads| > 0
    ensures IsHeadFact(rule, env, Fact(rule.heads[0].rel, Ground(rule.heads[0], env)))
  {}

  // Every atom is looked at: it has arguments or is alone.
  ghost predicate AllChecked(r: Rule) {
    forall i :: 0 <= i < |r.body| && r.body[i].Pos? ==> CheckedAtom(r.body, i)
  }

  // When every atom is looked at, the pipeline emits exactly what the variant derives, on every database.
  lemma CheckedDerives(v: Variant, plan: Plan, canonical: map<string, seq<nat>>, sem: Interp, read: Reader, full: Facts,
                       delta: Facts, f: Fact)
    requires |v.versions| == |v.rule.body| && Lowerable(v.rule) && IsDefaultPlan(v, plan) && AllChecked(v.rule)
    requires WellTyped(v.rule.body, full, delta) && AllFresh(plan, read, full, delta)
    ensures Emits(Pipeline(v.rule, plan, canonical), sem, read, f) <==> VariantDerives(v, sem, full, delta, f)
  {
    assert UncheckedHold(v, full, delta);
    hide Emits, Pipeline, SatChecked, Lowerable, IsDefaultPlan, WellTyped, AllFresh, UncheckedHold, VariantDerives,
        AllChecked;
    PipelineDerives(v, plan, canonical, sem, read, full, delta);
  }

  // ========== Lowering limits ==========

  // A rule whose pipeline emits a fact that it does not derive: an atom without arguments beside another atom.

  const X: Arg := LVar("x")

  // --- An argumentless atom beside another atom ---

  // H(x) :- P(x), Go().
  const GATED: Rule := Rule([Atom("H", [X])], [Pos(Atom("P", [X])), Pos(Atom("Go", []))])
  const ONLY_P: Facts := iset{Fact("P", [1])}

  lemma OneVar(args: seq<Arg>)
    requires args == [X]
    ensures ArgVars(args) == ["x"]
  {
    assert args[..0] == [];
    assert ArgVars(args[..0]) == [];
  }

  lemma GatedIsLowerable()
    ensures Lowerable(GATED) && WellTyped(GATED.body, ONLY_P, ONLY_P)
  {
    hide ArgVars;
    OneVar([X]);
    var body := GATED.body;
    assert "P"[0] != "G"[0];
    assert "x" in ArgVars(body[0].atom.args);
    assert InAtom(body, "x");
  }

  lemma GatedChecks(v: Variant, sem: Interp) returns (env: Env)
    requires v == CreateBaseVariant(GATED)
    ensures SatChecked(v, sem, ONLY_P, ONLY_P, env) && IsHeadFact(GATED, env, Fact("H", [1]))
  {
    env := map["x" := 1];
    var body := GATED.body;
    assert Ground(body[0].atom, env) == [1] && Ground(GATED.heads[0], env) == [1];
    assert IsHeadFact(GATED, env, Fact(GATED.heads[0].rel, Ground(GATED.heads[0], env)));
    forall i | 0 <= i < |body| && (body[i].Pos? ==> CheckedAtom(body, i))
      ensures SatClause(body[i], sem, VersionFacts(v.versions[i], ONLY_P, ONLY_P), ONLY_P, env)
    {
      assert body[1].atom.args == [];
    }
  }

  lemma GatedDerivesNothing(v: Variant, sem: Interp, f: Fact)
    requires v == CreateBaseVariant(GATED)
    ensures !VariantDerives(v, sem, ONLY_P, ONLY_P, f)
  {
    assert "P"[0] != "G"[0];
    forall env ensures !SatVersions(v, sem, ONLY_P, ONLY_P, env) {
      assert SatVersions(v, sem, ONLY_P, ONLY_P, env) ==>
        SatClause(v.rule.body[1], sem, VersionFacts(v.versions[1], ONLY_P, ONLY_P), ONLY_P, env);
    }
  }

  // With P(1) and no Go() the rule derives nothing; every default plan's pipeline emits H(1), having no source for Go.
  lemma SkippedAtomEmits(plan: Plan, canonical: map<string, seq<nat>>, sem: Interp, read: Reader)
    requires IsDefaultPlan(CreateBaseVariant(GATED), plan) && AllFresh(plan, read, ONLY_P, ONLY_P)
    ensures Emits(Pipeline(GATED, plan, canonical), sem, read, Fact("H", [1]))
    ensures !VariantDerives(CreateBaseVariant(GATED), sem, ONLY_P, ONLY_P, Fact("H", [1]))
  {
    var v := CreateBaseVariant(GATED);
    GatedIsLowerable();
    var env := GatedChecks(v, sem);
    GatedDerivesNothing(v, sem, Fact("H", [1]));
    assert |v.versions| == |v.rule.body|;
    hide Emits, Pipeline, Lowerable, IsDefaultPlan, AllFresh, WellTyped, SatChecked, IsHeadFact, VariantDerives;
    PipelineEmits(v, plan, canonical, sem, read, ONLY_P, ONLY_P, Fact("H", [1]));
  }

  // ========== Repeated variables ==========

  // An atom that repeats a variable loses the equality, an atom without arguments beside others is not looked at:
  // exactly for which rules of positive atoms a pipeline emits what its variant derives.

  // On every well-typed database, whatever inline code means, the pipeline emits exactly what the variant derives.
  ghost predicate PipelineAgrees(v: Variant, plan: Plan, canonical: map<string, seq<nat>>) {
    forall sem, read, full, delta, f :: WellTyped(v.rule.body, full, delta) && AllFresh(plan, read, full, delta) ==>
      (Emits(Pipeline(v.rule, plan, canonical), sem, read, f) <==> VariantDerives(v, sem, full, delta, f))
  }

  // A body of positive atoms over variables, a relation always with the same arity; a head, all heads bound.
  ghost predicate PositiveRule(r: Rule) {
    && (forall i :: 0 <= i < |r.body| ==> r.body[i].Pos? && NamedAtom(r.body[i].atom))
    && SameArities(r.body) && r.heads != [] && forall h :: 0 <= h < |r.heads| ==> HeadOk(r, r.heads[h])
  }

  ghost predicate SameArities(body: seq<Clause>) {
    forall i, j ::
        0 <= i < |body| && 0 <= j < |body| && body[i].Pos? && body[j].Pos? && body[i].atom.rel == body[j].atom.rel ==>
      |body[i].atom.args| == |body[j].atom.args|
  }

  ghost predicate RepeatsNone(r: Rule) {
    forall i :: 0 <= i < |r.body| && r.body[i].Pos? ==> DistinctVars(r.body[i].atom.args)
  }

  lemma PositiveBinds(r: Rule)
    requires PositiveRule(r)
    ensures Bindable(r) && (RepeatsNone(r) ==> Lowerable(r))
    ensures forall i :: 0 <= i < |r.body| ==> r.body[i].Pos? && NamedAtom(r.body[i].atom)
  {
    hide HeadOk;
    forall i | 0 <= i < |r.body| ensures Scoped(r.body, i) { assert r.body[i].Pos?; }
  }

  // --- The frozen database ---

  // One row per atom that is looked at. Each variable has a value of its own; a column that repeats a variable holds a
  // value that no variable has.
  function FrozenRow(args: seq<Arg>, names: seq<string>): Row {
    seq(|args|, c requires 0 <= c < |args| =>
      if args[c].LVar? && ColumnOf(args, args[c].name) == c then IndexOf(names, args[c].name) else -1 - c)
  }

  ghost predicate IsFrozen(body: seq<Clause>, names: seq<string>, f: Fact) {
    exists i ::
        0 <= i < |body| && CheckedAtom(body, i) && f == Fact(body[i].atom.rel, FrozenRow(body[i].atom.args, names))
  }

  ghost function Frozen(body: seq<Clause>, names: seq<string>): Facts {
    iset f: Fact | IsFrozen(body, names, f)
  }

  ghost predicate DistinctRow(row: Row) {
    forall c, d :: 0 <= c < d < |row| ==> row[c] != row[d]
  }

  lemma FrozenDistinct(args: seq<Arg>, names: seq<string>)
    requires forall v :: v in ArgVars(args) ==> v in names
    ensures DistinctRow(FrozenRow(args, names))
  {
    var row := FrozenRow(args, names);
    forall c, d | 0 <= c < d < |row| ensures row[c] != row[d] {
      if row[c] >= 0 && row[d] >= 0 {
        var a, b := args[c].name, args[d].name;
        assert args[c] in args && args[d] in args;
        assert a in names && b in names && a != b;
      }
    }
  }

  ghost predicate NamesAll(body: seq<Clause>, names: seq<string>) {
    forall i, v :: 0 <= i < |body| && body[i].Pos? && v in ArgVars(body[i].atom.args) ==> v in names
  }

  // No row of it has two equal columns, so an atom that repeats a variable holds nowhere.
  lemma NothingMatches(a: Atom, body: seq<Clause>, names: seq<string>, env: Env)
    requires NamesAll(body, names) && AllVars(a.args) && !DistinctVars(a.args)
    ensures Fact(a.rel, Ground(a, env)) !in Frozen(body, names)
  {
    var c, d :| 0 <= c < d < |a.args| && a.args[c].LVar? && a.args[c] == a.args[d];
    var row := Ground(a, env);
    assert row[c] == row[d];
    if Fact(a.rel, row) in Frozen(body, names) {
      var i :| 0 <= i < |body| && CheckedAtom(body, i)
          && Fact(a.rel, row) == Fact(body[i].atom.rel, FrozenRow(body[i].atom.args, names));
      FrozenDistinct(body[i].atom.args, names);
    }
  }

  lemma RepeatDerivesNothing(v: Variant, sem: Interp, names: seq<string>, i: nat, f: Fact)
    requires |v.versions| == |v.rule.body| && NamesAll(v.rule.body, names) && i < |v.rule.body| && v.rule.body[i].Pos?
    requires NamedAtom(v.rule.body[i].atom) && !DistinctVars(v.rule.body[i].atom.args)
    ensures var db := Frozen(v.rule.body, names); !VariantDerives(v, sem, db, db, f)
  {
    var body, db := v.rule.body, Frozen(v.rule.body, names);
    forall env ensures !SatVersions(v, sem, db, db, env) {
      NothingMatches(body[i].atom, body, names, env);
      assert !SatClause(body[i], sem, VersionFacts(v.versions[i], db, db), db, env);
    }
  }

  // Nor does it hold the fact of an atom that is not looked at.
  lemma UncheckedDerivesNothing(v: Variant, sem: Interp, names: seq<string>, i: nat, f: Fact)
    requires |v.versions| == |v.rule.body| && SameArities(v.rule.body) && i < |v.rule.body| && v.rule.body[i].Pos?
    requires !CheckedAtom(v.rule.body, i)
    ensures var db := Frozen(v.rule.body, names); !VariantDerives(v, sem, db, db, f)
  {
    var body, db := v.rule.body, Frozen(v.rule.body, names);
    forall env ensures !SatVersions(v, sem, db, db, env) {
      var a := body[i].atom;
      forall j: nat | j < |body| && CheckedAtom(body, j)
        ensures Fact(a.rel, Ground(a, env)) != Fact(body[j].atom.rel, FrozenRow(body[j].atom.args, names)) {}
      assert !SatClause(body[i], sem, VersionFacts(v.versions[i], db, db), db, env);
    }
  }

  lemma FrozenIsTyped(body: seq<Clause>, names: seq<string>)
    requires SameArities(body) && forall i :: 0 <= i < |body| ==> body[i].Pos?
    ensures WellTyped(body, Frozen(body, names), Frozen(body, names))
  {
    var db := Frozen(body, names);
    forall i | 0 <= i < |body| ensures RightArity(body[i].atom, db) {
      forall row | Fact(body[i].atom.rel, row) in db ensures |row| == |body[i].atom.args| {
        var j :| 0 <= j < |body| && CheckedAtom(body, j)
            && Fact(body[i].atom.rel, row) == Fact(body[j].atom.rel, FrozenRow(body[j].atom.args, names));
      }
    }
  }

  // Every index holds the relation's rows.
  ghost function Plainly(db: Facts): Reader {
    (rel: string, v: Version, cols: seq<nat>) => RowsIn(db, rel)
  }

  lemma PlainlyFresh(plan: Plan, db: Facts)
    ensures AllFresh(plan, Plainly(db), db, db)
  {
    forall p: AccessPattern ensures Fresh(p, Plainly(db), db, db) {
      assert RowsOf(p, Plainly(db)) == RowsIn(db, p.rel);
    }
  }

  // --- The pipeline finds the frozen rows ---

  ghost function FrozenEnv(plan: Plan): Env {
    map v | v in PatternVars(plan.access) :: IndexOf(plan.varOrder, v)
  }

  lemma FrozenHolds(v: Variant, plan: Plan, p: AccessPattern)
    requires var db := Frozen(v.rule.body, plan.varOrder);
    Setting(v, plan, Plainly(db), db, db) && p in plan.access && Checked(plan.access, p)
    ensures Holds(p, Plainly(Frozen(v.rule.body, plan.varOrder)), FrozenEnv(plan))
  {
    hide *;
    var db := Frozen(v.rule.body, plan.varOrder);
    AccessFacts(v, plan, Plainly(db), db, db, p);
    CheckedIsChecked(v, plan, Plainly(db), db, db, p);
    FrozenAgrees(v.rule.body, plan, p);
  }

  lemma FrozenAgrees(body: seq<Clause>, plan: Plan, p: AccessPattern)
    requires p.clauseIdx < |body| && CheckedAtom(body, p.clauseIdx) && p.rel == body[p.clauseIdx].atom.rel
    requires LeadFits(p, body[p.clauseIdx].atom.args)
    ensures Holds(p, Plainly(Frozen(body, plan.varOrder)), FrozenEnv(plan))
  {
    hide ColumnOf;
    var a, e := body[p.clauseIdx].atom, FrozenEnv(plan);
    var row := FrozenRow(a.args, plan.varOrder);
    assert IsFrozen(body, plan.varOrder, Fact(p.rel, row));
    hide IsPermutation, PatternVars;
    forall i | 0 <= i < |p.accessOrder| && p.accessOrder[i] in e
      ensures Col(row, p.indexCols, i) == e[p.accessOrder[i]] {
      var c := p.indexCols[i];
      assert a.args[c] == LVar(p.accessOrder[i]) && ColumnOf(a.args, p.accessOrder[i]) == c;
    }
    assert Agrees(p, row, e);
  }

  lemma FrozenRuns(v: Variant, plan: Plan, sem: Interp)
    requires var db := Frozen(v.rule.body, plan.varOrder); Setting(v, plan, Plainly(db), db, db)
    ensures Runs(Generators(v.rule.body, plan), sem, Plainly(Frozen(v.rule.body, plan.varOrder)), map[],
                 FrozenEnv(plan))
  {
    hide Frozen;
    var db := Frozen(v.rule.body, plan.varOrder);
    var n := PlanReadyForGenerators(v, plan, Plainly(db), db, db);
    GeneratorsMeaning(v.rule.body, plan, sem, Plainly(db), n, FrozenEnv(plan));
    hide Setting, GeneratorsReady, Generators, Runs, Holds, Plainly, PatternVars, Checked;
    forall p | p in plan.access && Checked(plan.access, p) ensures Holds(p, Plainly(db), FrozenEnv(plan)) {
      FrozenHolds(v, plan, p);
    }
  }

  lemma {:induction false} PositiveSelectsNothing(body: seq<Clause>)
    requires forall i :: 0 <= i < |body| ==> body[i].Pos?
    ensures FiltersAndLets(body) == []
  {
    if |body| > 0 { PositiveSelectsNothing(body[..|body| - 1]); }
  }

  lemma {:induction false} PositiveNegatesNothing(body: seq<Clause>, join: set<string>, varOrder: seq<string>, n: nat)
    requires n <= |body| && forall i :: 0 <= i < |body| ==> body[i].Pos?
    ensures NegationPatterns(body, join, varOrder, n) == []
  {
    if n > 0 { PositiveNegatesNothing(body, join, varOrder, n - 1); }
  }

  // Generators, then the inserts.
  lemma PositivePipeline(v: Variant, plan: Plan, canonical: map<string, seq<nat>>)
    requires |v.versions| == |v.rule.body| && IsDefaultPlan(v, plan)
    requires forall i :: 0 <= i < |v.rule.body| ==> v.rule.body[i].Pos?
    ensures Pipeline(v.rule, plan, canonical) == Generators(v.rule.body, plan) + Inserts(v.rule.heads, canonical)
  {
    hide *;
    PositiveSelectsNothing(v.rule.body);
    PositiveNegatesNothing(v.rule.body, plan.join, plan.varOrder, |v.rule.body|);
    DefaultNegations(v, plan);
    PipelineParts(v.rule, plan, canonical);
  }

  lemma DefaultNegations(v: Variant, plan: Plan)
    requires |v.versions| == |v.rule.body| && IsDefaultPlan(v, plan)
    ensures plan.negations == NegationPatterns(v.rule.body, plan.join, plan.varOrder, |v.rule.body|)
  {
    hide NegationPatterns, IsGreedy, VarOrder;
  }

  lemma PipelineParts(rule: Rule, plan: Plan, canonical: map<string, seq<nat>>)
    requires plan.negations == [] && FiltersAndLets(rule.body) == []
    ensures Pipeline(rule, plan, canonical) == Generators(rule.body, plan) + Inserts(rule.heads, canonical)
  {
    hide Generators, FiltersAndLets, Inserts;
    assert Negations(plan.negations) == [];
  }

  lemma InsertEmits(gens: seq<Op>, heads: seq<Atom>, canonical: map<string, seq<nat>>, sem: Interp, read: Reader,
                    e: Env) returns (f: Fact)
    requires heads != [] && Runs(gens, sem, read, map[], e)
    ensures Emits(gens + Inserts(heads, canonical), sem, read, f)
  {
    var ops := gens + Inserts(heads, canonical);
    var k := |gens|;
    assert ops[k] == Inserts(heads, canonical)[0] && ops[..k] == gens;
    f := Fact(ops[k].rel, Values(ops[k].vars, e));
    hide Runs;
    assert InsertsAt(ops, sem, read, k, e, f);
  }

  // On the frozen database the pipeline emits something.
  lemma FrozenEmits(v: Variant, plan: Plan, canonical: map<string, seq<nat>>, sem: Interp) returns (f: Fact)
    requires |v.versions| == |v.rule.body| && IsDefaultPlan(v, plan) && PositiveRule(v.rule)
    ensures var db := Frozen(v.rule.body, plan.varOrder);
      && WellTyped(v.rule.body, db, db) && AllFresh(plan, Plainly(db), db, db)
      && Emits(Pipeline(v.rule, plan, canonical), sem, Plainly(db), f)
  {
    hide IsDefaultPlan, Generators, Bindable;
    var db := Frozen(v.rule.body, plan.varOrder);
    PositiveBinds(v.rule);
    FrozenIsTyped(v.rule.body, plan.varOrder);
    PlainlyFresh(plan, db);
    assert Setting(v, plan, Plainly(db), db, db);
    PositivePipeline(v, plan, canonical);
    hide *;
    FrozenRuns(v, plan, sem);
    HasHead(v.rule);
    f := InsertEmits(Generators(v.rule.body, plan), v.rule.heads, canonical, sem, Plainly(db), FrozenEnv(plan));
  }

  lemma HasHead(r: Rule)
    requires PositiveRule(r)
    ensures r.heads != [] && SameArities(r.body)
    ensures forall i :: 0 <= i < |r.body| ==> r.body[i].Pos? && NamedAtom(r.body[i].atom)
  {
    hide HeadOk, NamedAtom;
  }

  lemma OrderNamesAll(v: Variant, plan: Plan)
    requires |v.versions| == |v.rule.body| && IsDefaultPlan(v, plan)
    ensures NamesAll(v.rule.body, plan.varOrder)
  {
    hide IsDefaultPlan;
    forall i: nat, x | i < |v.rule.body| && v.rule.body[i].Pos? && x in ArgVars(v.rule.body[i].atom.args)
      ensures x in plan.varOrder {
      AtomVarsListed(v, plan, i);
    }
  }

  // So an atom that repeats a variable, or is not looked at, makes them disagree.
  lemma BadAtomDisagrees(v: Variant, plan: Plan, canonical: map<string, seq<nat>>, i: nat)
    requires |v.versions| == |v.rule.body| && IsDefaultPlan(v, plan) && PositiveRule(v.rule)
    requires i < |v.rule.body| && v.rule.body[i].Pos?
    requires !DistinctVars(v.rule.body[i].atom.args) || !CheckedAtom(v.rule.body, i)
    ensures !PipelineAgrees(v, plan, canonical)
  {
    var db, sem := Frozen(v.rule.body, plan.varOrder), Interp((t, vs) => true, (t, vs) => 0);
    hide *;
    HasHead(v.rule);
    var f := FrozenEmits(v, plan, canonical, sem);
    if !CheckedAtom(v.rule.body, i) {
      UncheckedDerivesNothing(v, sem, plan.varOrder, i, f);
    } else {
      OrderNamesAll(v, plan);
      RepeatDerivesNothing(v, sem, plan.varOrder, i, f);
    }
    Disagrees(v, plan, canonical, sem, Plainly(db), db, f);
  }

  lemma Disagrees(v: Variant, plan: Plan, canonical: map<string, seq<nat>>, sem: Interp, read: Reader, db: Facts,
                  f: Fact)
    requires WellTyped(v.rule.body, db, db) && AllFresh(plan, read, db, db)
    requires Emits(Pipeline(v.rule, plan, canonical), sem, read, f) && !VariantDerives(v, sem, db, db, f)
    ensures !PipelineAgrees(v, plan, canonical)
  {
    hide Pipeline, WellTyped, AllFresh, Emits, VariantDerives;
  }

  // The pipeline of a positive rule, planned by default, emits what its variant derives on every database if and only
  // if no atom repeats a variable and every atom has arguments or stands alone.
  lemma AgreesIff(v: Variant, plan: Plan, canonical: map<string, seq<nat>>)
    requires |v.versions| == |v.rule.body| && IsDefaultPlan(v, plan) && PositiveRule(v.rule)
    ensures PipelineAgrees(v, plan, canonical) <==> RepeatsNone(v.rule) && AllChecked(v.rule)
  {
    PositiveBinds(v.rule);
    hide IsDefaultPlan, PositiveRule, Lowerable, Bindable, Pipeline, WellTyped, AllFresh, Emits, VariantDerives,
        DistinctVars, CheckedAtom, NamedAtom;
    if RepeatsNone(v.rule) && AllChecked(v.rule) {
      forall sem, read, full, delta, f | WellTyped(v.rule.body, full, delta) && AllFresh(plan, read, full, delta)
        ensures Emits(Pipeline(v.rule, plan, canonical), sem, read, f) <==> VariantDerives(v, sem, full, delta, f)
      {
        CheckedDerives(v, plan, canonical, sem, read, full, delta, f);
      }
    } else {
      var i :| 0 <= i < |v.rule.body| && v.rule.body[i].Pos?
          && (!DistinctVars(v.rule.body[i].atom.args) || !CheckedAtom(v.rule.body, i));
      BadAtomDisagrees(v, plan, canonical, i);
    }
  }

  // --- Negations ---

  // The pattern finds no row exactly when the negation holds, whatever the relation holds and the variables are bound
  // to.
  ghost predicate NegationAgrees(p: AccessPattern, a: Atom) {
    forall sem, read, full, delta, e :: Fresh(p, read, full, delta) && RightArity(a, full) ==>
      (PatternAbsent(p, read, e) <==> SatClause(Neg(a), sem, full, full, e))
  }

  // As SafeNegation, but variables other than wildcards may repeat.
  ghost predicate BoundNegation(body: seq<Clause>, i: nat) {
    && i < |body| && body[i].Neg? && WildcardsOnce(body[i].atom.args)
    && forall v {:trigger IsWildcard(v)} :: v in ArgVars(body[i].atom.args) ==>
         if IsWildcard(v) then forall j ::
             0 <= j < |body| && j != i ==> v !in ClauseVars(body[j]) && v !in Produced(body[j])
         else InAtom(body, v)
  }

  ghost predicate WildcardsOnce(args: seq<Arg>) {
    forall c, d :: 0 <= c < d < |args| && IsHole(args[c]) ==> args[c] != args[d]
  }

  // The constants' columns lead, then comes the first column of each variable.
  ghost predicate NegationLeads(p: AccessPattern, args: seq<Arg>) {
    && |p.constArgs| + |p.accessOrder| <= |p.indexCols| && p.prefixLen <= |p.accessOrder|
    && (forall k :: 0 <= k < |p.constArgs| ==>
         p.constArgs[k].0 < |args| && args[p.constArgs[k].0] == Const(p.constArgs[k].1)
             && p.indexCols[k] == p.constArgs[k].0)
    && forall i :: 0 <= i < |p.accessOrder| ==> FirstColumn(p, args, i)
  }

  ghost predicate FirstColumn(p: AccessPattern, args: seq<Arg>, i: nat) {
    && i < |p.accessOrder| && |p.constArgs| + i < |p.indexCols|
    && p.indexCols[|p.constArgs| + i] == ColumnOf(args, p.accessOrder[i]) && LVar(p.accessOrder[i]) in args
  }

  lemma VarColumnsLead(args: seq<Arg>, order: seq<string>)
    requires NoDup(order) && forall v :: v in order ==> LVar(v) in args
    ensures var keep := Range(|args|) - Elems(ConstCols(ConstArgs(args, |args|)));
      VarColumns(args, order) <= KeepIn(CompleteIndex(VarColumns(args, order), |args|), keep)
  {
    hide ConstArgs, VarColumns, Range, ConstCols, CompleteIndex;
    var vars: seq<nat>, consts: seq<nat> := VarColumns(args, order), ConstCols(ConstArgs(args, |args|));
    var complete: seq<nat> := CompleteIndex(vars, |args|);
    var keep: set<nat> := Range(|args|) - Elems<nat>(consts);
    forall c | c in vars ensures c in keep {
      ColumnsApart(args, order, c);
    }
    assert complete == vars + complete[|vars|..];
    KeepInAppend<nat>(vars, complete[|vars|..], keep);
    KeepInAll<nat>(vars, keep);
  }

  lemma {:induction false} NonWildcardsAtMost(order: seq<string>)
    ensures NonWildcards(order) <= |order|
  {
    if |order| > 0 { NonWildcardsAtMost(order[..|order| - 1]); }
  }

  lemma NegationPatternIs(c: Clause, join: set<string>, varOrder: seq<string>, k: nat)
    requires c.Neg?
    ensures var p := Pattern(c, FULL, join, varOrder, k); var args := c.atom.args;
      && p.accessOrder == AccessOrder(args, varOrder) && p.constArgs == ConstArgs(args, |args|)
      && p.prefixLen == NonWildcards(p.accessOrder)
      && p.indexCols == ConstCols(p.constArgs) +
           KeepIn(CompleteIndex(VarColumns(args, p.accessOrder), |args|), Range(|args|) - Elems(ConstCols(p.constArgs)))
  {
    hide AccessOrder, ConstArgs, NonWildcards, VarColumns, CompleteIndex, KeepIn, ColumnOf;
  }

  lemma NegationPatternLeads(c: Clause, join: set<string>, varOrder: seq<string>, k: nat)
    requires c.Neg? && NoDup(varOrder) && forall v :: v in ArgVars(c.atom.args) ==> v in varOrder
    ensures NegationLeads(Pattern(c, FULL, join, varOrder, k), c.atom.args)
  {
    hide *;
    NegationPatternIs(c, join, varOrder, k);
    AccessOrderIsKept(c.atom.args, varOrder);
    ColumnsLead(Pattern(c, FULL, join, varOrder, k), c.atom.args);
  }

  lemma ColumnsLead(p: AccessPattern, args: seq<Arg>)
    requires NoDup(p.accessOrder) && forall v :: v in p.accessOrder <==> LVar(v) in args
    requires p.constArgs == ConstArgs(args, |args|) && p.prefixLen == NonWildcards(p.accessOrder)
    requires p.indexCols == ConstCols(p.constArgs) +
      KeepIn(CompleteIndex(VarColumns(args, p.accessOrder), |args|), Range(|args|) - Elems(ConstCols(p.constArgs)))
    ensures NegationLeads(p, args)
  {
    hide *;
    ConstArgsFacts(args, |args|);
    VarColumnsLead(args, p.accessOrder);
    NonWildcardsAtMost(p.accessOrder);
    var vars := FirstColumns(p, args);
    PrefixThen(ConstCols(p.constArgs), vars, p.indexCols);
    ConstsLead(p, args, vars);
    forall i | 0 <= i < |p.accessOrder| ensures FirstColumn(p, args, i) { VarLeads(p, args, vars, i); }
    LeadsMake(p, args);
  }

  lemma FirstColumns(p: AccessPattern, args: seq<Arg>) returns (vars: seq<nat>)
    requires forall v :: v in p.accessOrder <==> LVar(v) in args
    ensures vars == VarColumns(args, p.accessOrder) && |vars| == |p.accessOrder|
    ensures forall i ::
        0 <= i < |vars| ==> vars[i] == ColumnOf(args, p.accessOrder[i]) && LVar(p.accessOrder[i]) in args
  {
    vars := VarColumns(args, p.accessOrder);
    VarColumnsFirst(args, p.accessOrder);
    hide VarColumns, ColumnOf;
  }

  lemma PrefixThen(a: seq<nat>, b: seq<nat>, all: seq<nat>)
    requires exists rest :: all == a + rest && b <= rest
    ensures a + b <= all
  {
    var rest :| all == a + rest && b <= rest;
    assert all[|a|..] == rest;
  }

  lemma ConstsLead(p: AccessPattern, args: seq<Arg>, vars: seq<nat>)
    requires ConstCols(p.constArgs) + vars <= p.indexCols && |vars| == |p.accessOrder|
    ensures |p.constArgs| + |p.accessOrder| <= |p.indexCols|
    ensures forall k :: 0 <= k < |p.constArgs| ==> p.indexCols[k] == p.constArgs[k].0
  {
    assert forall k :: 0 <= k < |p.constArgs| ==> p.indexCols[k] == ConstCols(p.constArgs)[k];
  }

  lemma VarLeads(p: AccessPattern, args: seq<Arg>, vars: seq<nat>, i: nat)
    requires ConstCols(p.constArgs) + vars <= p.indexCols && i < |vars| == |p.accessOrder|
    requires vars[i] == ColumnOf(args, p.accessOrder[i]) && LVar(p.accessOrder[i]) in args
    ensures FirstColumn(p, args, i)
  {
    hide ColumnOf;
    assert (ConstCols(p.constArgs) + vars)[|p.constArgs| + i] == vars[i];
  }

  lemma LeadsMake(p: AccessPattern, args: seq<Arg>)
    requires |p.constArgs| + |p.accessOrder| <= |p.indexCols| && p.prefixLen <= |p.accessOrder|
    requires forall k ::
        0 <= k < |p.constArgs| ==> p.constArgs[k].0 < |args| && args[p.constArgs[k].0] == Const(p.constArgs[k].1)
    requires forall k :: 0 <= k < |p.constArgs| ==> p.indexCols[k] == p.constArgs[k].0
    requires forall i :: 0 <= i < |p.accessOrder| ==> FirstColumn(p, args, i)
    ensures NegationLeads(p, args)
  {
    hide FirstColumn;
  }

  // A row that the key finds but that breaks the equality of a repeated variable.
  function OddRow(args: seq<Arg>): Row {
    seq(|args|, c requires 0 <= c < |args| =>
      if args[c].LVar? && ColumnOf(args, args[c].name) != c then Look(map[], args[c].name) + 1
          else ArgValue(args[c], map[]))
  }

  lemma OddRowIsUnder(p: AccessPattern, args: seq<Arg>)
    requires NegationLeads(p, args)
    ensures Under(OddRow(args), p.indexCols, NegationKey(p.constArgs, p.accessOrder[..p.prefixLen], map[]))
  {
    var row, key := OddRow(args), NegationKey(p.constArgs, p.accessOrder[..p.prefixLen], map[]);
    var m := |p.constArgs|;
    forall k | 0 <= k < |key| ensures Col(row, p.indexCols, k) == key[k] {
      if k >= m {
        assert FirstColumn(p, args, k - m);
      }
    }
  }

  lemma OddRowBreaks(a: Atom)
    requires WildcardsOnce(a.args) && !DistinctVars(a.args)
    ensures !Matches(a, OddRow(a.args), map[])
  {
    var row := OddRow(a.args);
    var c, d :| 0 <= c < d < |a.args| && a.args[c].LVar? && a.args[c] == a.args[d];
    var name := a.args[d].name;
    assert !IsHole(a.args[c]) && !IsHole(a.args[d]);
    assert row[c] == row[d] ==> row[d] == Look(map[], name) + 1;
    if ColumnOf(a.args, name) != d {
      assert row[d] != ArgValue(a.args[d], map[]);
    } else {
      assert row[c] != ArgValue(a.args[c], map[]);
    }
  }

  lemma OddRowDisagrees(p: AccessPattern, a: Atom)
    requires NegationLeads(p, a.args) && p.rel == a.rel && p.version == FULL && WildcardsOnce(a.args)
    requires !DistinctVars(a.args)
    ensures !NegationAgrees(p, a)
  {
    hide RowsOf, Fresh;
    var db := iset{Fact(a.rel, OddRow(a.args))};
    var sem := Interp((t, vs) => true, (t, vs) => 0);
    OddRowIsUnder(p, a.args);
    OddRowBreaks(a);
    PlainlyHas(p, a, db);
    hide NegationLeads, Under, Matches, DistinctVars, WildcardsOnce, NegationKey, Plainly;
    assert PrefixVars(p) == p.accessOrder[..p.prefixLen] by { PrefixKept(p, a.args); }
    assert OddRow(a.args) in RowsOf(p, Plainly(db));
    assert !PatternAbsent(p, Plainly(db), map[]);
    assert SatClause(Neg(a), sem, db, db, map[]);
    assert RightArity(a, db);
  }

  lemma PlainlyHas(p: AccessPattern, a: Atom, db: Facts)
    requires p.rel == a.rel && p.version == FULL && db == iset{Fact(a.rel, OddRow(a.args))}
    ensures Fresh(p, Plainly(db), db, db) && OddRow(a.args) in RowsOf(p, Plainly(db))
  {
    assert RowsOf(p, Plainly(db)) == RowsIn(db, p.rel);
  }

  lemma PrefixKept(p: AccessPattern, args: seq<Arg>)
    requires NegationLeads(p, args)
    ensures p.prefixLen <= |p.accessOrder|
  {}

  // The lookup of a negation decides it, on all relations and bindings, if and only if no variable repeats.
  lemma NegationAgreesIff(body: seq<Clause>, delta: int, order: seq<nat>, join: set<string>, i: nat)
    requires IsGreedy(body, delta, order) && IsPermutation(order, |body|) && IsJoinSet(body, join)
    requires BoundNegation(body, i)
    ensures NegationAgrees(Pattern(body[i], FULL, join, VarOrder(body, order, join, delta), i), body[i].atom) <==>
            DistinctVars(body[i].atom.args)
  {
    var varOrder := VarOrder(body, order, join, delta);
    var p, a := Pattern(body[i], FULL, join, varOrder, i), body[i].atom;
    PatternShape(body[i], FULL, join, varOrder, i);
    if DistinctVars(a.args) {
      NegationPatternFits(body, delta, order, join, i);
      hide IsGreedy, VarOrder, IsJoinSet, Pattern, NegationFits, PatternAbsent, SatClause;
      forall sem, read, full, delta_, e | Fresh(p, read, full, delta_) && RightArity(a, full)
        ensures PatternAbsent(p, read, e) <==> SatClause(Neg(a), sem, full, full, e)
      {
        AbsentIsNegation(p, a, sem, read, full, delta_, e);
      }
    } else {
      var n := VarOrderFacts(body, order, join, delta);
      hide IsGreedy, VarOrder, IsJoinSet, Pattern, NegationAgrees;
      forall v | v in ArgVars(a.args) ensures v in varOrder {
        assert v in ClauseVars(body[i]);
      }
      NegationPatternLeads(body[i], join, varOrder, i);
      OddRowDisagrees(p, a);
    }
  }

  // ========== Source order ==========

  // Reordering the sources of a join, by clause order or prefixed sources first: the pipeline emits the same facts.

  // --- A stable sort by key ---

  // x goes after every element whose key is not greater.
  function Insert<T>(q: seq<T>, x: T, key: T -> int): seq<T> {
    if |q| == 0 || key(q[|q| - 1]) <= key(x) then q + [x]
    else Insert(q[..|q| - 1], x, key) + [q[|q| - 1]]
  }

  function SortByKey<T>(q: seq<T>, key: T -> int): seq<T> {
    if |q| == 0 then [] else Insert(SortByKey(q[..|q| - 1], key), q[|q| - 1], key)
  }

  // The elements with key k, in order.
  function WithKey<T>(q: seq<T>, key: T -> int, k: int): seq<T> {
    if |q| == 0 then [] else WithKey(q[..|q| - 1], key, k) + if key(q[|q| - 1]) == k then [q[|q| - 1]] else []
  }

  ghost predicate Ascending<T>(q: seq<T>, key: T -> int) {
    forall i, j :: 0 <= i < j < |q| ==> key(q[i]) <= key(q[j])
  }

  lemma WithKeyPush<T>(q: seq<T>, x: T, key: T -> int, k: int)
    ensures WithKey(q + [x], key, k) == WithKey(q, key, k) + if key(x) == k then [x] else []
  {
    assert (q + [x])[..|q|] == q;
  }

  lemma {:induction false} InsertPermutes<T>(q: seq<T>, x: T, key: T -> int)
    ensures |Insert(q, x, key)| == |q| + 1 && multiset(Insert(q, x, key)) == multiset(q) + multiset{x}
  {
    if |q| > 0 && key(q[|q| - 1]) > key(x) {
      InsertPermutes(q[..|q| - 1], x, key);
      assert q == q[..|q| - 1] + [q[|q| - 1]];
    }
  }

  lemma {:induction false} InsertAscends<T>(q: seq<T>, x: T, key: T -> int)
    requires Ascending(q, key)
    ensures Ascending(Insert(q, x, key), key)
  {
    if |q| > 0 && key(q[|q| - 1]) > key(x) {
      var init, last := q[..|q| - 1], q[|q| - 1];
      InsertAscends(init, x, key);
      InsertPermutes(init, x, key);
      var r := Insert(init, x, key);
      forall i | 0 <= i < |r| ensures key(r[i]) <= key(last) {
        assert r[i] in multiset(r);
        assert r[i] in init || r[i] == x;
      }
    }
  }

  lemma {:induction false} InsertKeeps<T>(q: seq<T>, x: T, key: T -> int, k: int)
    requires Ascending(q, key)
    ensures WithKey(Insert(q, x, key), key, k) == WithKey(q + [x], key, k)
  {
    if |q| > 0 && key(q[|q| - 1]) > key(x) {
      var init, last := q[..|q| - 1], q[|q| - 1];
      assert q == init + [last];
      InsertKeeps(init, x, key, k);
      hide Insert;
      WithKeyPush(Insert(init, x, key), last, key, k);
      WithKeyPush(init, x, key, k);
      WithKeyPush(init, last, key, k);
      WithKeyPush(q, x, key, k);
    }
  }

  // A permutation in ascending order that keeps elements of one key in their order: that determines it.
  lemma {:induction false} SortFacts<T>(q: seq<T>, key: T -> int)
    ensures var r := SortByKey(q, key);
      |r| == |q| && Ascending(r, key) && multiset(r) == multiset(q) && forall k ::
          WithKey(r, key, k) == WithKey(q, key, k)
  {
    if |q| > 0 {
      var init, last := q[..|q| - 1], q[|q| - 1];
      assert q == init + [last];
      SortFacts(init, key);
      InsertPermutes(SortByKey(init, key), last, key);
      InsertAscends(SortByKey(init, key), last, key);
      hide Insert, Ascending;
      forall k ensures WithKey(SortByKey(q, key), key, k) == WithKey(q, key, k) {
        InsertKeeps(SortByKey(init, key), last, key, k);
        WithKeyPush(SortByKey(init, key), last, key, k);
        WithKeyPush(init, last, key, k);
      }
    }
  }

  // --- The two orders ---

  // Where the clause is in the order; at its end when it is not.
  function Position(order: seq<nat>, clause: nat): (p: nat)
    ensures p <= |order| && (p < |order| <==> clause in order) && (p < |order| ==> order[p] == clause)
    ensures forall k :: 0 <= k < p ==> order[k] != clause
  {
    if |order| == 0 || order[0] == clause then 0 else 1 + Position(order[1..], clause)
  }

  type Pair = (ColumnSource, seq<string>)

  function ByClause(order: seq<nat>): ColumnSource -> int {
    (s: ColumnSource) => Position(order, s.clauseIdx)
  }

  function HasPrefixVars(s: ColumnSource): bool {
    |s.prefix| > 0
  }

  const PREFIXED_FIRST: ColumnSource -> int := (s: ColumnSource) => if HasPrefixVars(s) then 0 else 1

  function OfPair(key: ColumnSource -> int): Pair -> int {
    (p: Pair) => key(p.0)
  }

  // Pairs up to the shorter list.
  function Zip(sources: seq<ColumnSource>, from: seq<seq<string>>): (r: seq<Pair>)
    ensures |r| == if |sources| <= |from| then |sources| else |from|
  {
    if |sources| == 0 || |from| == 0 then [] else [(sources[0], from[0])] + Zip(sources[1..], from[1..])
  }

  lemma {:induction false} ZipAt(sources: seq<ColumnSource>, from: seq<seq<string>>, i: nat)
    requires i < |sources| && i < |from|
    ensures Zip(sources, from)[i] == (sources[i], from[i])
  {
    if i > 0 { ZipAt(sources[1..], from[1..], i - 1); }
  }

  function Firsts(pairs: seq<Pair>): (r: seq<ColumnSource>)
    ensures |r| == |pairs|
  {
    seq(|pairs|, i requires 0 <= i < |pairs| => pairs[i].0)
  }

  function Seconds(pairs: seq<Pair>): (r: seq<seq<string>>)
    ensures |r| == |pairs|
  {
    seq(|pairs|, i requires 0 <= i < |pairs| => pairs[i].1)
  }

  // A join's sources sorted by the key, each with its variables.
  function SortSources(op: Op, key: ColumnSource -> int): Op {
    match op
    case ColumnJoin(v, sources) => ColumnJoin(v, SortByKey(sources, key))
    case CartesianJoin(vars, sources, from) =>
      var pairs := SortByKey(Zip(sources, from), OfPair(key));
      CartesianJoin(vars, Firsts(pairs), Seconds(pairs))
    case _ => op
  }

  // Prefixed sources move to the front unless the first one already has a prefix or none does.
  predicate MovesPrefixed(sources: seq<ColumnSource>) {
    && |sources| >= 2 && !HasPrefixVars(sources[0]) && exists i :: 1 <= i < |sources| && HasPrefixVars(sources[i])
  }

  function ClauseOrdered(op: Op, order: seq<nat>): Op {
    if |order| == 0 then op else SortSources(op, ByClause(order))
  }

  function PrefixOrdered(op: Op): Op {
    if (op.ColumnJoin? || op.CartesianJoin?) && MovesPrefixed(op.sources) then SortSources(op, PREFIXED_FIRST) else op
  }

  // --- The two orders, read off the sources ---

  lemma LastIsGreatest<T>(init: seq<T>, last: T, key: T -> int)
    requires Ascending(init + [last], key)
    ensures Ascending(init, key) && forall x :: x in init ==> key(x) <= key(last)
  {
    var q := init + [last];
    forall i, j | 0 <= i < j < |init| ensures key(init[i]) <= key(init[j]) { assert key(q[i]) <= key(q[j]); }
    forall x | x in init ensures key(x) <= key(last) {
      var i :| 0 <= i < |init| && init[i] == x;
      assert key(q[i]) <= key(q[|init|]);
    }
  }

  lemma LastFits<T>(init: seq<T>, last: T, low: bool, a: seq<T>, b: seq<T>, c: seq<T>, d: seq<T>)
    requires init == a + b && (low ==> b == [])
    requires c == a + (if low then [last] else []) && d == b + (if low then [] else [last])
    ensures init + [last] == c + d
  {}

  lemma {:induction false} AscendingSplits<T>(q: seq<T>, key: T -> int)
    requires Ascending(q, key) && forall x :: x in q ==> key(x) == 0 || key(x) == 1
    ensures q == WithKey(q, key, 0) + WithKey(q, key, 1)
  {
    if |q| > 0 {
      var init, last := q[..|q| - 1], q[|q| - 1];
      assert q == init + [last] && last in q;
      LastIsGreatest(init, last, key);
      AscendingSplits(init, key);
      WithKeyPush(init, last, key, 0);
      WithKeyPush(init, last, key, 1);
      hide WithKey, Ascending;
      if key(last) == 0 { NoneWithKey(init, key, 1); }
      LastFits(init, last, key(last) == 0, WithKey(init, key, 0), WithKey(init, key, 1), WithKey(q, key, 0),
               WithKey(q, key, 1));
    }
  }

  lemma {:induction false} NoneWithKey<T>(q: seq<T>, key: T -> int, k: int)
    requires forall x :: x in q ==> key(x) != k
    ensures WithKey(q, key, k) == []
  {
    if |q| > 0 { NoneWithKey(q[..|q| - 1], key, k); }
  }

  // Sorting by two keys puts the elements of the smaller one first, each kind in its order.
  lemma TwoKeys<T>(q: seq<T>, key: T -> int)
    requires forall x :: x in q ==> key(x) == 0 || key(x) == 1
    ensures SortByKey(q, key) == WithKey(q, key, 0) + WithKey(q, key, 1)
  {
    var r := SortByKey(q, key);
    SortFacts(q, key);
    forall x | x in r ensures x in q { assert x in multiset(r) <==> x in multiset(q); }
    AscendingSplits(r, key);
  }

  // The sources that have a prefix, or those that have none, with their variables, in order.
  function Having(pairs: seq<Pair>, prefixed: bool): seq<Pair> {
    if |pairs| == 0 then [] else
      Having(pairs[..|pairs| - 1], prefixed) +
      if (pairs[|pairs| - 1].0.prefix != []) == prefixed then [pairs[|pairs| - 1]] else []
  }

  lemma {:induction false} HavingIs(pairs: seq<Pair>)
    ensures Having(pairs, true) == WithKey(pairs, OfPair(PREFIXED_FIRST), 0)
    ensures Having(pairs, false) == WithKey(pairs, OfPair(PREFIXED_FIRST), 1)
  {
    if |pairs| > 0 { HavingIs(pairs[..|pairs| - 1]); }
  }

  function WithNone(sources: seq<ColumnSource>): (r: seq<Pair>)
    ensures |r| == |sources|
  {
    seq(|sources|, i requires 0 <= i < |sources| => (sources[i], []))
  }

  // A join's sources with their variables; a column join binds its own variable and lists none.
  function PairsOf(op: Op): seq<Pair>
    requires op.ColumnJoin? || op.CartesianJoin?
  {
    if op.ColumnJoin? then WithNone(op.sources) else Zip(op.sources, op.varFromSource)
  }

  lemma {:induction false} InsertPairs(q: seq<ColumnSource>, x: ColumnSource, key: ColumnSource -> int)
    ensures Insert(WithNone(q), (x, []), OfPair(key)) == WithNone(Insert(q, x, key))
  {
    if |q| > 0 && key(q[|q| - 1]) > key(x) {
      InsertPairs(q[..|q| - 1], x, key);
      assert WithNone(q)[..|q| - 1] == WithNone(q[..|q| - 1]);
    }
  }

  lemma {:induction false} SortPairs(q: seq<ColumnSource>, key: ColumnSource -> int)
    ensures SortByKey(WithNone(q), OfPair(key)) == WithNone(SortByKey(q, key))
  {
    if |q| > 0 {
      SortPairs(q[..|q| - 1], key);
      assert WithNone(q)[..|q| - 1] == WithNone(q[..|q| - 1]);
      InsertPairs(SortByKey(q[..|q| - 1], key), q[|q| - 1], key);
    }
  }

  lemma {:induction false} ZipAgain(pairs: seq<Pair>)
    ensures Zip(Firsts(pairs), Seconds(pairs)) == pairs
  {
    if |pairs| > 0 {
      ZipAgain(pairs[1..]);
      assert Firsts(pairs)[1..] == Firsts(pairs[1..]) && Seconds(pairs)[1..] == Seconds(pairs[1..]);
    }
  }

  lemma SortedPairs(op: Op, key: ColumnSource -> int)
    requires op.ColumnJoin? || op.CartesianJoin?
    ensures var r := SortSources(op, key);
      && (r.ColumnJoin? <==> op.ColumnJoin?) && (r.CartesianJoin? <==> op.CartesianJoin?)
      && PairsOf(r) == SortByKey(PairsOf(op), OfPair(key))
  {
    if op.ColumnJoin? {
      SortPairs(op.sources, key);
    } else {
      ZipAgain(SortByKey(PairsOf(op), OfPair(key)));
    }
  }

  // Where the first source has no prefix and a later one has, the prefixed sources come first, then the others, both in
  // their order and with their variables; elsewhere nothing moves.
  lemma PrefixOrderIs(op: Op)
    requires op.ColumnJoin? || op.CartesianJoin?
    ensures var r := PrefixOrdered(op);
      if |op.sources| > 0 && op.sources[0].prefix == [] && exists s :: s in op.sources && s.prefix != [] then
        && (r.ColumnJoin? <==> op.ColumnJoin?) && (r.CartesianJoin? <==> op.CartesianJoin?)
        && PairsOf(r) == Having(PairsOf(op), true) + Having(PairsOf(op), false)
      else r == op
  {
    hide PairsOf, SortSources, SortByKey;
    if MovesPrefixed(op.sources) {
      var i :| 1 <= i < |op.sources| && HasPrefixVars(op.sources[i]);
      assert op.sources[i] in op.sources;
      SortedPairs(op, PREFIXED_FIRST);
      TwoKeys(PairsOf(op), OfPair(PREFIXED_FIRST));
      HavingIs(PairsOf(op));
    } else if |op.sources| > 0 && op.sources[0].prefix == [] {
      forall s | s in op.sources ensures s.prefix == [] {
        var i :| 0 <= i < |op.sources| && op.sources[i] == s;
        assert i > 0 ==> !HasPrefixVars(op.sources[i]);
      }
    }
  }

  // The clause of the source comes no later than place p in the order.
  ghost predicate ListedBy(order: seq<nat>, p: nat, s: ColumnSource) {
    exists q: nat :: q <= p && q < |order| && order[q] == s.clauseIdx
  }

  // The sources of one clause, or those whose clause is not in the order, in order.
  function OfClause(pairs: seq<Pair>, order: seq<nat>, clause: nat): seq<Pair> {
    if |pairs| == 0 then [] else
      var c := pairs[|pairs| - 1].0.clauseIdx;
      OfClause(pairs[..|pairs| - 1], order, clause) +
      if c == clause || (c !in order && clause !in order) then [pairs[|pairs| - 1]] else []
  }

  lemma {:induction false} OfClauseIs(pairs: seq<Pair>, order: seq<nat>, clause: nat)
    ensures OfClause(pairs, order, clause) == WithKey(pairs, OfPair(ByClause(order)), Position(order, clause))
  {
    if |pairs| > 0 {
      var c := pairs[|pairs| - 1].0.clauseIdx;
      OfClauseIs(pairs[..|pairs| - 1], order, clause);
      assert Position(order, c) == Position(order, clause) <==> c == clause || (c !in order && clause !in order);
    }
  }

  // Sources come in the order of their clauses, those without a place last; sources of one clause keep their order, and
  // each keeps its variables.
  lemma ClauseOrderIs(op: Op, order: seq<nat>)
    requires (op.ColumnJoin? || op.CartesianJoin?) && order != []
    ensures var r := ClauseOrdered(op, order);
      && (r.ColumnJoin? <==> op.ColumnJoin?) && (r.CartesianJoin? <==> op.CartesianJoin?)
      && multiset(PairsOf(r)) == multiset(PairsOf(op))
      && (forall i, j, p: nat :: 0 <= i < j < |PairsOf(r)| && ListedBy(order, p, PairsOf(r)[j].0) ==>
            ListedBy(order, p, PairsOf(r)[i].0))
      && forall c: nat :: OfClause(PairsOf(r), order, c) == OfClause(PairsOf(op), order, c)
  {
    hide SortByKey, WithKey, SortSources, PairsOf;
    var r, key := ClauseOrdered(op, order), OfPair(ByClause(order));
    SortedPairs(op, ByClause(order));
    SortFacts(PairsOf(op), key);
    forall i, j, p: nat | 0 <= i < j < |PairsOf(r)| && ListedBy(order, p, PairsOf(r)[j].0)
      ensures ListedBy(order, p, PairsOf(r)[i].0)
    {
      var a, b := PairsOf(r)[i].0, PairsOf(r)[j].0;
      assert key(PairsOf(r)[i]) <= key(PairsOf(r)[j]);
      var q: nat :| q <= p && q < |order| && order[q] == b.clauseIdx;
      var k := Position(order, a.clauseIdx);
      assert k <= Position(order, b.clauseIdx) <= q;
      assert order[k] == a.clauseIdx;
    }
    forall c: nat ensures OfClause(PairsOf(r), order, c) == OfClause(PairsOf(op), order, c) {
      OfClauseIs(PairsOf(r), order, c);
      OfClauseIs(PairsOf(op), order, c);
    }
  }

  // --- Column joins ---

  lemma ColumnJoinSorted(v: string, sources: seq<ColumnSource>, key: ColumnSource -> int, sem: Interp, read: Reader,
                         env: Env, e: Env)
    ensures Steps(ColumnJoin(v, SortByKey(sources, key)), sem, read, env, e)
        <==> Steps(ColumnJoin(v, sources), sem, read, env, e)
  {
    hide SortByKey, Ascending;
    var r := SortByKey(sources, key);
    SortFacts(sources, key);
    forall s ensures s in r <==> s in sources { assert s in multiset(r) <==> s in multiset(sources); }
    hide Yields;
    if forall i :: 0 <= i < |sources| ==> Yields(sources[i], read, env, Look(e, v)) {
      forall i | 0 <= i < |r| ensures Yields(r[i], read, env, Look(e, v)) { assert r[i] in sources; }
    }
    if forall i :: 0 <= i < |r| ==> Yields(r[i], read, env, Look(e, v)) {
      forall i | 0 <= i < |sources| ensures Yields(sources[i], read, env, Look(e, v)) { assert sources[i] in r; }
    }
  }

  // --- Cartesian joins ---

  // One row from each pair's source.
  ghost predicate PairProduct(pairs: seq<Pair>, read: Reader, env: Env, e: Env) {
    if |pairs| == 0 then e == env else
      var init, last := pairs[..|pairs| - 1], pairs[|pairs| - 1];
      exists mid, row :: PairProduct(init, read, env, mid) && Extends(last.0, last.1, read, env, mid, row, e)
  }

  lemma {:induction false} ProductIsPairs(sources: seq<ColumnSource>, from: seq<seq<string>>, read: Reader, env: Env,
                                          n: nat, e: Env)
    requires n <= |sources| == |from|
    ensures InProduct(sources, from, read, env, n, e) <==> PairProduct(Zip(sources, from)[..n], read, env, e)
  {
    if n > 0 {
      var pairs := Zip(sources, from)[..n];
      ZipAt(sources, from, n - 1);
      assert pairs[..n - 1] == Zip(sources, from)[..n - 1] && pairs[n - 1] == (sources[n - 1], from[n - 1]);
      hide Extends;
      var m: nat, init := n - 1, pairs[..n - 1];
      forall mid ensures InProduct(sources, from, read, env, m, mid) <==> PairProduct(init, read, env, mid) {
        ProductIsPairs(sources, from, read, env, m, mid);
      }
    }
  }

  lemma PushPair(pairs: seq<Pair>, p: Pair, read: Reader, env: Env, e: Env)
    ensures PairProduct(pairs + [p], read, env, e)
        <==> exists mid, row :: PairProduct(pairs, read, env, mid) && Extends(p.0, p.1, read, env, mid, row, e)
  {
    var q := pairs + [p];
    assert q[..|q| - 1] == pairs && q[|q| - 1] == p;
    hide Extends;
  }

  // No variable is provided by two sources.
  ghost predicate Apart(a: Pair, b: Pair) {
    forall v :: v in a.1 ==> v !in b.1
  }

  ghost predicate AllApart(pairs: seq<Pair>) {
    forall i, j :: 0 <= i < j < |pairs| ==> Apart(pairs[i], pairs[j])
  }

  // What Bind gives a variable does not depend on the binding it extends.
  lemma {:induction false} BindLocal(x: Env, y: Env, vars: seq<string>, row: Row, index: seq<nat>, k: nat, v: string)
    ensures var a, b := Bind(x, vars, row, index, k), Bind(y, vars, row, index, k);
      if v in vars then v in a && v in b && a[v] == b[v] else (v in a <==> v in x) && (v in a ==> a[v] == x[v])
  {
    if |vars| > 0 {
      BindLocal(x, y, vars[..|vars| - 1], row, index, k, v);
      assert vars == vars[..|vars| - 1] + [vars[|vars| - 1]];
    }
  }

  lemma BindsCommute(env: Env, va: seq<string>, ra: Row, ia: seq<nat>, ka: nat, vb: seq<string>, rb: Row, ib: seq<nat>,
                     kb: nat)
    requires forall v :: v in va ==> v !in vb
    ensures Bind(Bind(env, va, ra, ia, ka), vb, rb, ib, kb) == Bind(Bind(env, vb, rb, ib, kb), va, ra, ia, ka)
  {
    var a, b := Bind(env, va, ra, ia, ka), Bind(env, vb, rb, ib, kb);
    var ab, ba := Bind(a, vb, rb, ib, kb), Bind(b, va, ra, ia, ka);
    hide Bind;
    forall v ensures (v in ab <==> v in ba) && (v in ab ==> ab[v] == ba[v]) {
      BindLocal(env, b, va, ra, ia, ka, v);
      BindLocal(env, a, vb, rb, ib, kb, v);
      BindLocal(a, env, vb, rb, ib, kb, v);
      BindLocal(b, env, va, ra, ia, ka, v);
    }
  }

  lemma SwapOne(pairs: seq<Pair>, a: Pair, b: Pair, read: Reader, env: Env, e: Env)
    requires Apart(a, b) && PairProduct(pairs + [a] + [b], read, env, e)
    ensures PairProduct(pairs + [b] + [a], read, env, e)
  {
    PushPair(pairs + [a], b, read, env, e);
    var x, rb :| PairProduct(pairs + [a], read, env, x) && Extends(b.0, b.1, read, env, x, rb, e);
    PushPair(pairs, a, read, env, x);
    var m, ra :| PairProduct(pairs, read, env, m) && Extends(a.0, a.1, read, env, m, ra, x);
    BindsCommute(m, a.1, ra, a.0.index, |a.0.prefix|, b.1, rb, b.0.index, |b.0.prefix|);
    hide PairProduct, Bind, Matching;
    var y := Bind(m, b.1, rb, b.0.index, |b.0.prefix|);
    assert Extends(b.0, b.1, read, env, m, rb, y);
    PushPair(pairs, b, read, env, y);
    assert Extends(a.0, a.1, read, env, y, ra, e);
    PushPair(pairs + [b], a, read, env, e);
  }

  lemma Swap(pairs: seq<Pair>, a: Pair, b: Pair, read: Reader, env: Env, e: Env)
    requires Apart(a, b)
    ensures PairProduct(pairs + [a] + [b], read, env, e) <==> PairProduct(pairs + [b] + [a], read, env, e)
  {
    hide PairProduct;
    if PairProduct(pairs + [a] + [b], read, env, e) { SwapOne(pairs, a, b, read, env, e); }
    if PairProduct(pairs + [b] + [a], read, env, e) {
      assert Apart(b, a);
      SwapOne(pairs, b, a, read, env, e);
    }
  }

  lemma PushSame(x: seq<Pair>, y: seq<Pair>, p: Pair, read: Reader, env: Env, e: Env)
    requires forall mid :: PairProduct(x, read, env, mid) <==> PairProduct(y, read, env, mid)
    ensures PairProduct(x + [p], read, env, e) <==> PairProduct(y + [p], read, env, e)
  {
    PushPair(x, p, read, env, e);
    PushPair(y, p, read, env, e);
    hide PairProduct, Extends;
  }

  lemma {:induction false} InsertSame(q: seq<Pair>, x: Pair, key: Pair -> int, read: Reader, env: Env, e: Env)
    requires forall p :: p in q ==> Apart(p, x)
    ensures PairProduct(Insert(q, x, key), read, env, e) <==> PairProduct(q + [x], read, env, e)
  {
    hide PairProduct, Apart;
    if |q| > 0 && key(q[|q| - 1]) > key(x) {
      var init, last := q[..|q| - 1], q[|q| - 1];
      assert q == init + [last];
      forall mid
        ensures PairProduct(Insert(init, x, key), read, env, mid) <==> PairProduct(init + [x], read, env, mid) {
        InsertSame(init, x, key, read, env, mid);
      }
      PushSame(Insert(init, x, key), init + [x], last, read, env, e);
      Swap(init, last, x, read, env, e);
    }
  }

  lemma {:induction false} SortSame(q: seq<Pair>, key: Pair -> int, read: Reader, env: Env, e: Env)
    requires AllApart(q)
    ensures PairProduct(SortByKey(q, key), read, env, e) <==> PairProduct(q, read, env, e)
  {
    hide Insert, Ascending;
    if |q| > 0 {
      var init, last := q[..|q| - 1], q[|q| - 1];
      assert q == init + [last];
      SortFacts(init, key);
      forall p | p in SortByKey(init, key) ensures Apart(p, last) {
        assert p in multiset(init);
        var i :| 0 <= i < |init| && init[i] == p;
        assert q[i] == p;
      }
      hide PairProduct, Apart;
      InsertSame(SortByKey(init, key), last, key, read, env, e);
      forall mid ensures PairProduct(SortByKey(init, key), read, env, mid) <==> PairProduct(init, read, env, mid) {
        SortSame(init, key, read, env, mid);
      }
      PushSame(SortByKey(init, key), init, last, read, env, e);
    }
  }

  // No two sources of a Cartesian join provide one variable.
  ghost predicate SourcesApart(op: Op) {
    op.CartesianJoin? ==> |op.sources| == |op.varFromSource| && AllApart(Zip(op.sources, op.varFromSource))
  }

  lemma ZipBack(pairs: seq<Pair>)
    ensures Zip(Firsts(pairs), Seconds(pairs)) == pairs
  {
    var a, b := Firsts(pairs), Seconds(pairs);
    forall i | 0 <= i < |pairs| ensures Zip(a, b)[i] == pairs[i] { ZipAt(a, b, i); }
  }

  lemma CartesianSorted(op: Op, key: ColumnSource -> int, sem: Interp, read: Reader, env: Env, e: Env)
    requires op.CartesianJoin? && SourcesApart(op)
    ensures Steps(SortSources(op, key), sem, read, env, e) <==> Steps(op, sem, read, env, e)
  {
    hide Zip, Seconds;
    var q := Zip(op.sources, op.varFromSource);
    var pairs := SortByKey(q, OfPair(key));
    var sources, from := Firsts(pairs), Seconds(pairs);
    SortSame(q, OfPair(key), read, env, e);
    hide SortByKey, PairProduct, InProduct, AllApart;
    ProductIsPairs(op.sources, op.varFromSource, read, env, |op.sources|, e);
    ProductIsPairs(sources, from, read, env, |sources|, e);
    ZipBack(pairs);
    assert q[..|q|] == q && pairs[..|pairs|] == pairs;
  }

  // Sorting a join's sources keeps its meaning.
  lemma SortedSame(op: Op, key: ColumnSource -> int, sem: Interp, read: Reader, env: Env, e: Env)
    requires SourcesApart(op)
    ensures Steps(SortSources(op, key), sem, read, env, e) <==> Steps(op, sem, read, env, e)
  {
    if op.ColumnJoin? {
      ColumnJoinSorted(op.variable, op.sources, key, sem, read, env, e);
    } else if op.CartesianJoin? {
      CartesianSorted(op, key, sem, read, env, e);
    }
  }

  // --- Pipelines ---

  // An operation, then the operation that replaces it.
  ghost predicate SameOp(a: Op, b: Op, sem: Interp, read: Reader) {
    && (a.InsertInto? || b.InsertInto? ==> a == b)
    && forall env, e :: Steps(a, sem, read, env, e) <==> Steps(b, sem, read, env, e)
  }

  lemma {:induction false} SameRuns(a: seq<Op>, b: seq<Op>, sem: Interp, read: Reader, n: nat, env: Env, e: Env)
    requires n <= |a| == |b| && forall k :: 0 <= k < |a| ==> SameOp(a[k], b[k], sem, read)
    ensures Runs(a[..n], sem, read, env, e) <==> Runs(b[..n], sem, read, env, e)
  {
    if n > 0 {
      var m: nat := n - 1;
      assert a[..n] == a[..m] + [a[m]] && b[..n] == b[..m] + [b[m]];
      forall mid ensures Runs(a[..m], sem, read, env, mid) <==> Runs(b[..m], sem, read, env, mid) {
        SameRuns(a, b, sem, read, m, env, mid);
      }
      assert SameOp(a[m], b[m], sem, read);
      hide Runs, Steps;
      RunsThen(a[..m], a[m], sem, read, env, e);
      RunsThen(b[..m], b[m], sem, read, env, e);
    }
  }

  lemma SameEmits(a: seq<Op>, b: seq<Op>, sem: Interp, read: Reader, f: Fact)
    requires |a| == |b| && forall k :: 0 <= k < |a| ==> SameOp(a[k], b[k], sem, read)
    ensures Emits(a, sem, read, f) <==> Emits(b, sem, read, f)
  {
    hide Runs, Steps;
    forall k: nat, e | k < |a| ensures InsertsAt(a, sem, read, k, e, f) <==> InsertsAt(b, sem, read, k, e, f) {
      assert SameOp(a[k], b[k], sem, read);
      SameRuns(a, b, sem, read, k, map[], e);
    }
  }

  function AllClauseOrdered(ops: seq<Op>, order: seq<nat>): seq<Op> {
    seq(|ops|, k requires 0 <= k < |ops| => ClauseOrdered(ops[k], order))
  }

  function AllPrefixOrdered(ops: seq<Op>): seq<Op> {
    seq(|ops|, k requires 0 <= k < |ops| => PrefixOrdered(ops[k]))
  }

  function OpSources(op: Op): seq<ColumnSource> {
    match op
    case Scan(_, s) => [s]
    case ColumnJoin(_, sources) => sources
    case CartesianJoin(_, sources, _) => sources
    case Negation(s, _) => [s]
    case _ => []
  }

  // The sources of all operations, joins flattened.
  function Sources(ops: seq<Op>): seq<ColumnSource> {
    if |ops| == 0 then [] else Sources(ops[..|ops| - 1]) + OpSources(ops[|ops| - 1])
  }

  class ExecutePipeline {
    const clauseOrder: seq<nat>
    var pipeline: seq<Op>
    var sourceSpecs: seq<ColumnSource>

    constructor (ops: seq<Op>, order: seq<nat>)
      ensures pipeline == ops && clauseOrder == order && sourceSpecs == Sources(ops)
    {
      pipeline := ops;
      clauseOrder := order;
      new;
      RegenerateSourceSpecs();
    }

    method RegenerateSourceSpecs()
      modifies this`sourceSpecs
      ensures sourceSpecs == Sources(pipeline)
    {
      sourceSpecs := [];
      for k := 0 to |pipeline|
        invariant sourceSpecs == Sources(pipeline[..k])
      {
        assert pipeline[..k + 1][..k] == pipeline[..k];
        sourceSpecs := sourceSpecs + OpSources(pipeline[k]);
      }
      assert pipeline[..|pipeline|] == pipeline;
    }

    // Sorts every join's sources by where their clause stands in the clause order.
    method ApplyClauseOrder()
      modifies this
      ensures pipeline == AllClauseOrdered(old(pipeline), clauseOrder) && sourceSpecs == Sources(pipeline)
    {
      ghost var before := pipeline;
      for k := 0 to |pipeline|
        invariant |pipeline| == |before| && pipeline[..k] == AllClauseOrdered(before[..k], clauseOrder)
        invariant pipeline[k..] == before[k..]
      {
        pipeline := pipeline[k := ClauseOrdered(pipeline[k], clauseOrder)];
        assert before[..k + 1][..k] == before[..k];
      }
      assert before[..|before|] == before && pipeline[..|pipeline|] == pipeline;
      RegenerateSourceSpecs();
    }

    // Moves prefixed sources to the front where the first source has none.
    method ApplyPrefixOrder()
      modifies this
      ensures pipeline == AllPrefixOrdered(old(pipeline)) && sourceSpecs == Sources(pipeline)
    {
      ghost var before := pipeline;
      for k := 0 to |pipeline|
        invariant |pipeline| == |before| && pipeline[..k] == AllPrefixOrdered(before[..k])
        invariant pipeline[k..] == before[k..]
      {
        pipeline := pipeline[k := PrefixOrdered(pipeline[k])];
        assert before[..k + 1][..k] == before[..k];
      }
      assert before[..|before|] == before && pipeline[..|pipeline|] == pipeline;
      RegenerateSourceSpecs();
    }
  }

  // --- The lowered pipelines ---

  lemma {:induction false} InsertApart(q: seq<Pair>, x: Pair, key: Pair -> int)
    requires AllApart(q) && forall p :: p in q ==> Apart(p, x)
    ensures AllApart(Insert(q, x, key))
  {
    hide Apart;
    forall p | p in q ensures Apart(x, p) { ApartBack(p, x); }
    if |q| > 0 && key(q[|q| - 1]) > key(x) {
      var init, last := q[..|q| - 1], q[|q| - 1];
      InsertApart(init, x, key);
      InsertPermutes(init, x, key);
      var r := Insert(init, x, key);
      forall i | 0 <= i < |r| ensures Apart(r[i], last) {
        assert r[i] in multiset(r);
        assert r[i] in init || r[i] == x;
        if r[i] != x {
          var j :| 0 <= j < |init| && init[j] == r[i];
          assert Apart(q[j], q[|q| - 1]);
        }
      }
    }
  }

  lemma ApartBack(a: Pair, b: Pair)
    requires Apart(a, b)
    ensures Apart(b, a)
  {}

  lemma {:induction false} SortApart(q: seq<Pair>, key: Pair -> int)
    requires AllApart(q)
    ensures AllApart(SortByKey(q, key))
  {
    if |q| > 0 {
      var init, last := q[..|q| - 1], q[|q| - 1];
      SortApart(init, key);
      SortFacts(init, key);
      hide Apart, Insert;
      forall p | p in SortByKey(init, key) ensures Apart(p, last) {
        assert p in multiset(init);
        var i :| 0 <= i < |init| && init[i] == p;
        assert Apart(q[i], q[|q| - 1]);
      }
      InsertApart(SortByKey(init, key), last, key);
    }
  }

  lemma SortedApart(op: Op, key: ColumnSource -> int)
    requires SourcesApart(op)
    ensures SourcesApart(SortSources(op, key))
  {
    if op.CartesianJoin? {
      SortApart(Zip(op.sources, op.varFromSource), OfPair(key));
      ZipBack(SortByKey(Zip(op.sources, op.varFromSource), OfPair(key)));
    }
  }

  // Both orders together, as one operation.
  lemma ReorderedSame(op: Op, order: seq<nat>, sem: Interp, read: Reader)
    requires SourcesApart(op)
    ensures SameOp(PrefixOrdered(ClauseOrdered(op, order)), op, sem, read)
  {
    var mid := ClauseOrdered(op, order);
    SortedApart(op, ByClause(order));
    hide Steps, SourcesApart, SortByKey;
    forall env, e ensures Steps(PrefixOrdered(mid), sem, read, env, e) <==> Steps(op, sem, read, env, e) {
      SortedSame(op, ByClause(order), sem, read, env, e);
      SortedSame(mid, PREFIXED_FIRST, sem, read, env, e);
    }
  }

  lemma {:induction false} ColumnVarsOwn(p: AccessPattern, cols: seq<nat>, keep: set<string>)
    ensures forall v :: v in ColumnVars(p, cols, keep) ==> v in p.accessOrder && v in keep
  {
    if |cols| > 0 { ColumnVarsOwn(p, cols[..|cols| - 1], keep); }
  }

  // Each source provides independent variables of one pattern, and patterns share join variables only.
  lemma {:induction false} CartesianApart(patterns: seq<AccessPattern>, st: Joined, indep: set<string>,
                                          join: set<string>)
    requires indep !! join && SharedIn(patterns, join)
    ensures var r := CartesianSources(patterns, st, indep); AllApart(Zip(r.0, r.1)) && AllOfSome(r.1, patterns, indep)
  {
    if |patterns| > 0 {
      var m := |patterns| - 1;
      var init, p := patterns[..m], patterns[m];
      var before := CartesianSources(init, st, indep);
      InitShared(patterns, join);
      CartesianApart(init, st, indep, join);
      OfSomeGrows(before.1, patterns, indep);
      if Provides(p, indep) {
        ColumnVarsOwn(p, CartesianSource(p, st).index, indep - Elems(CartesianSource(p, st).prefix));
        hide Provides, CartesianSource, CartesianVars, AllApart, AllOfSome, SharedIn;
        PairAdded(before.0, before.1, CartesianSource(p, st), CartesianVars(p, st, indep), patterns, indep, join);
      }
    }
  }

  ghost predicate SharedIn(patterns: seq<AccessPattern>, join: set<string>) {
    forall i, j, v ::
        0 <= i < j < |patterns| && v in patterns[i].accessOrder && v in patterns[j].accessOrder ==> v in join
  }

  lemma InitShared(patterns: seq<AccessPattern>, join: set<string>)
    requires |patterns| > 0 && SharedIn(patterns, join)
    ensures SharedIn(patterns[..|patterns| - 1], join)
  {}

  ghost predicate AllOfSome(from: seq<seq<string>>, patterns: seq<AccessPattern>, indep: set<string>) {
    forall i :: 0 <= i < |from| ==> OfSome(from[i], patterns, indep)
  }

  lemma PairAdded(sources: seq<ColumnSource>, from: seq<seq<string>>, s: ColumnSource, vars: seq<string>,
                  patterns: seq<AccessPattern>, indep: set<string>, join: set<string>)
    requires |sources| == |from| && AllApart(Zip(sources, from)) && |patterns| > 0 && indep !! join
    requires SharedIn(patterns, join)
    requires AllOfSome(from, patterns[..|patterns| - 1], indep) && AllOfSome(from, patterns, indep)
    requires Own(vars, patterns[|patterns| - 1]) && forall v :: v in vars ==> v in indep
    ensures AllApart(Zip(sources + [s], from + [vars])) && AllOfSome(from + [vars], patterns, indep)
  {
    var q := Zip(sources, from);
    ZipPush(sources, from, s, vars);
    hide Own, Zip, SharedIn;
    forall i | 0 <= i < |q| ensures Apart(q[i], (s, vars)) {
      ZipAt(sources, from, i);
      ApartFromLast(from[i], vars, patterns, indep, join);
    }
    hide OfSome, Apart;
    assert AllApart(q + [(s, vars)]);
    assert OfSome(vars, patterns, indep) by { OneOfSome(vars, patterns, indep); }
  }

  lemma OneOfSome(vars: seq<string>, patterns: seq<AccessPattern>, indep: set<string>)
    requires |patterns| > 0 && Own(vars, patterns[|patterns| - 1]) && forall v :: v in vars ==> v in indep
    ensures OfSome(vars, patterns, indep)
  {}

  ghost predicate OfSome(vars: seq<string>, patterns: seq<AccessPattern>, indep: set<string>) {
    (forall v :: v in vars ==> v in indep) && exists k :: 0 <= k < |patterns| && Own(vars, patterns[k])
  }

  ghost predicate Own(vars: seq<string>, p: AccessPattern) {
    forall v :: v in vars ==> v in p.accessOrder
  }

  lemma OfSomeGrows(from: seq<seq<string>>, patterns: seq<AccessPattern>, indep: set<string>)
    requires |patterns| > 0 && AllOfSome(from, patterns[..|patterns| - 1], indep)
    ensures AllOfSome(from, patterns, indep)
  {
    var init := patterns[..|patterns| - 1];
    hide Own;
    forall i | 0 <= i < |from| ensures OfSome(from[i], patterns, indep) {
      var k :| 0 <= k < |init| && Own(from[i], init[k]);
      assert Own(from[i], patterns[k]);
    }
  }

  lemma ApartFromLast(vars: seq<string>, last: seq<string>, patterns: seq<AccessPattern>, indep: set<string>,
                      join: set<string>)
    requires |patterns| > 0 && OfSome(vars, patterns[..|patterns| - 1], indep) && indep !! join
    requires Own(last, patterns[|patterns| - 1])
    requires SharedIn(patterns, join)
    ensures forall v :: v in vars ==> v !in last
  {
    var init := patterns[..|patterns| - 1];
    var k :| 0 <= k < |init| && Own(vars, init[k]);
    assert init[k] == patterns[k];
  }

  lemma {:induction false} ZipPush(a: seq<ColumnSource>, b: seq<seq<string>>, x: ColumnSource, y: seq<string>)
    requires |a| == |b|
    ensures Zip(a + [x], b + [y]) == Zip(a, b) + [(x, y)]
  {
    if |a| > 0 {
      ZipPush(a[1..], b[1..], x, y);
      assert (a + [x])[1..] == a[1..] + [x] && (b + [y])[1..] == b[1..] + [y];
    }
  }

  lemma {:induction false} NoCartesianInJoins(varOrder: seq<string>, join: set<string>, patterns: seq<AccessPattern>)
    ensures forall k ::
        0 <= k < |JoinVars(varOrder, join, patterns).ops| ==> !JoinVars(varOrder, join, patterns).ops[k].CartesianJoin?
  {
    hide JoinSources, Record;
    if |varOrder| > 0 { NoCartesianInJoins(varOrder[..|varOrder| - 1], join, patterns); }
  }

  lemma {:induction false} NoCartesianInSelections(body: seq<Clause>)
    ensures forall k :: 0 <= k < |FiltersAndLets(body)| ==> !FiltersAndLets(body)[k].CartesianJoin?
  {
    if |body| > 0 { NoCartesianInSelections(body[..|body| - 1]); }
  }

  ghost predicate OpsApart(ops: seq<Op>) {
    forall k :: 0 <= k < |ops| ==> SourcesApart(ops[k])
  }

  lemma ApartWithout(ops: seq<Op>)
    requires forall k :: 0 <= k < |ops| ==> !ops[k].CartesianJoin?
    ensures OpsApart(ops)
  {}

  lemma ApartJoin(a: seq<Op>, b: seq<Op>)
    requires OpsApart(a) && OpsApart(b)
    ensures OpsApart(a + b)
  {
    hide SourcesApart;
  }

  lemma GeneratorsApart(body: seq<Clause>, plan: Plan)
    requires Separate(plan.access, plan.join) && Elems(Independent(body, plan)) == PatternVars(plan.access) - plan.join
    ensures OpsApart(Generators(body, plan))
  {
    if |plan.access| > 1 {
      var st := JoinVars(plan.varOrder, plan.join, plan.access);
      NoCartesianInJoins(plan.varOrder, plan.join, plan.access);
      CartesianApart(plan.access, st, Elems(Independent(body, plan)), plan.join);
      hide JoinVars, CartesianSources, Independent, AllApart, PatternVars, Separate;
      ApartWithout(st.ops);
      assert OpsApart(Cartesian(body, plan, st));
      ApartJoin(st.ops, Cartesian(body, plan, st));
    }
  }

  lemma PipelineApart(rule: Rule, plan: Plan, canonical: map<string, seq<nat>>)
    requires Separate(plan.access, plan.join)
    requires Elems(Independent(rule.body, plan)) == PatternVars(plan.access) - plan.join
    ensures OpsApart(Pipeline(rule, plan, canonical))
  {
    GeneratorsApart(rule.body, plan);
    NoCartesianInSelections(rule.body);
    var a, b, c, d :=
        Generators(rule.body, plan), Negations(plan.negations), FiltersAndLets(rule.body),
        Inserts(rule.heads, canonical);
    ApartWithout(b);
    ApartWithout(c);
    ApartWithout(d);
    hide OpsApart, Generators, FiltersAndLets, Negations, Inserts, Separate, PatternVars, Independent;
    ApartJoin(a, b);
    ApartJoin(a + b, c);
    ApartJoin(a + b + c, d);
  }

  // What both passes make of a pipeline.
  function Reordered(ops: seq<Op>, order: seq<nat>): seq<Op> {
    AllPrefixOrdered(AllClauseOrdered(ops, order))
  }

  // When sources provide different variables, reordering changes nothing that is emitted, whatever the indexes hold.
  lemma ReorderedEmits(ops: seq<Op>, order: seq<nat>, sem: Interp, read: Reader, f: Fact)
    requires OpsApart(ops)
    ensures Emits(Reordered(ops, order), sem, read, f) <==> Emits(ops, sem, read, f)
  {
    hide Emits, SourcesApart, SameOp, ClauseOrdered, PrefixOrdered;
    forall k | 0 <= k < |ops| ensures SameOp(Reordered(ops, order)[k], ops[k], sem, read) {
      ReorderedSame(ops[k], order, sem, read);
    }
    SameEmits(Reordered(ops, order), ops, sem, read, f);
  }

  // So the reordered pipeline of a default plan emits exactly what its variant derives.
  lemma ReorderedDerives(v: Variant, plan: Plan, canonical: map<string, seq<nat>>, order: seq<nat>, sem: Interp,
                         read: Reader, full: Facts, delta: Facts, f: Fact)
    requires |v.versions| == |v.rule.body| && Lowerable(v.rule) && IsDefaultPlan(v, plan) && AllChecked(v.rule)
    requires WellTyped(v.rule.body, full, delta) && AllFresh(plan, read, full, delta)
    ensures Emits(Reordered(Pipeline(v.rule, plan, canonical), order), sem, read, f)
        <==> VariantDerives(v, sem, full, delta, f)
  {
    hide IsDefaultPlan, Emits, Pipeline, Reordered, VariantDerives;
    assert Setting(v, plan, read, full, delta);
    hide *;
    PlanSeparate(v, plan, read, full, delta);
    PlanIndependent(v, plan, read, full, delta);
    PipelineApart(v.rule, plan, canonical);
    ReorderedEmits(Pipeline(v.rule, plan, canonical), order, sem, read, f);
    CheckedDerives(v, plan, canonical, sem, read, full, delta, f);
  }
}
