/** What the joins of a pipeline compute: column joins, then at most one Cartesian join, reach exactly the bindings
    under which every pattern has a matching row. */
module PipelineMeaning {
  import opened Datalog
  import opened Seqs
  import opened SemiNaive
  import opened ClauseOrder
  import opened Planner
  import opened Mir
  import opened Lowering

  // ========== Pipeline meaning ==========

  // What the generator operations of a pipeline compute: the bindings under which every pattern has a matching row.

  ghost function RowsOf(p: AccessPattern, read: Reader): iset<Row> {
    read(p.rel, p.version, p.indexCols)
  }

  // The leading columns and the variables line up, and the index holds rows of the right width. An atom that repeats a
  // variable has more columns than variables.
  ghost predicate PatternOk(p: AccessPattern, read: Reader) {
    && |p.accessOrder| <= |p.indexCols| && NoDup(p.accessOrder) && NoDup(p.indexCols) && |p.rel| > 0
    && (forall i :: 0 <= i < |p.indexCols| ==> p.indexCols[i] < |p.indexCols|)
    && forall row :: row in RowsOf(p, read) ==> |row| == |p.indexCols|
  }

  // The row holds the binding's value in every column whose variable is bound.
  ghost predicate Agrees(p: AccessPattern, row: Row, e: Env) {
    && |row| == |p.indexCols| && |p.accessOrder| <= |p.indexCols|
    && forall i :: 0 <= i < |p.accessOrder| && p.accessOrder[i] in e ==> Col(row, p.indexCols, i) == e[p.accessOrder[i]]
  }

  ghost predicate Holds(p: AccessPattern, read: Reader, e: Env) {
    exists row :: row in RowsOf(p, read) && Agrees(p, row, e)
  }

  ghost predicate Touched(p: AccessPattern, vars: seq<string>) {
    exists v :: v in p.accessOrder && v in vars
  }

  // The pattern's variables come in the given order, before its others.
  ghost predicate LedBy(p: AccessPattern, vars: seq<string>) {
    KeepIn(p.accessOrder, Elems(vars)) == KeepIn(vars, Elems(p.accessOrder)) <= p.accessOrder
  }

  function Restrict(e: Env, keys: set<string>): Env {
    map v | v in e && v in keys :: e[v]
  }

  lemma HoldsSame(p: AccessPattern, read: Reader, a: Env, b: Env)
    requires forall v :: v in p.accessOrder && v in b ==> v in a && a[v] == b[v]
    requires Holds(p, read, a)
    ensures Holds(p, read, b)
  {
    var row :| row in RowsOf(p, read) && Agrees(p, row, a);
    assert Agrees(p, row, b);
  }

  // --- Column joins ---

  lemma {:induction false} JoinSourcesListed(v: string, patterns: seq<AccessPattern>, bound: seq<string>)
    ensures forall s :: s in JoinSources(v, patterns, bound) <==>
      exists p :: p in patterns && Joins(p, v) && s == JoinSource(p, bound)
  {
    if |patterns| > 0 {
      JoinSourcesListed(v, patterns[..|patterns| - 1], bound);
      assert patterns == patterns[..|patterns| - 1] + [patterns[|patterns| - 1]];
    }
  }

  lemma NextInOrder(p: AccessPattern, bound: seq<string>, v: string)
    requires LedBy(p, bound) && LedBy(p, bound + [v]) && v in p.accessOrder && v !in bound
    ensures var prefix := KeepIn(p.accessOrder, Elems(bound));
    |prefix| < |p.accessOrder| && p.accessOrder[|prefix|] == v
  {
    var more := bound + [v];
    assert more[..|more| - 1] == bound;
    assert KeepIn(more, Elems(p.accessOrder)) == KeepIn(bound, Elems(p.accessOrder)) + [v];
    var longer := KeepIn(p.accessOrder, Elems(more));
    assert longer[|longer| - 1] == v;
  }

  // A source yields x exactly when the pattern has a row once v is bound to x.
  lemma YieldsMeaning(p: AccessPattern, bound: seq<string>, v: string, read: Reader, env: Env, x: int)
    requires PatternOk(p, read) && LedBy(p, bound) && LedBy(p, bound + [v]) && v in p.accessOrder && v !in bound
    requires env.Keys == Elems(bound)
    ensures Yields(JoinSource(p, bound), read, env, x) <==> Holds(p, read, env[v := x])
  {
    hide KeepIn, Col;
    NextInOrder(p, bound, v);
    hide LedBy;
    var prefix := KeepIn(p.accessOrder, Elems(bound));
    assert prefix <= p.accessOrder by { PrefixOf(p, bound); }
    var m, s := |prefix|, SourceOf(p, p.indexCols, prefix);
    forall row | row in RowsOf(p, read)
      ensures (Matching(s, read, env, row) && Col(row, p.indexCols, m) == x) <==> Agrees(p, row, env[v := x])
    {
      forall i | 0 <= i < |p.accessOrder| ensures p.accessOrder[i] in env[v := x] <==> i <= m {
        BoundIsPrefix(p, bound, i);
      }
      assert forall i :: 0 <= i < m ==> Values(prefix, env)[i] == env[p.accessOrder[i]];
      if Matching(s, read, env, row) && Col(row, p.indexCols, m) == x {
        forall i | 0 <= i < |p.accessOrder| && p.accessOrder[i] in env[v := x]
          ensures Col(row, p.indexCols, i) == env[v := x][p.accessOrder[i]]
        {
          if i < m { assert Values(prefix, env)[i] == env[p.accessOrder[i]]; }
        }
      }
      if Agrees(p, row, env[v := x]) {
        forall k | 0 <= k < m ensures Col(row, p.indexCols, k) == Values(prefix, env)[k] {}
      }
    }
  }

  lemma PrefixOf(p: AccessPattern, bound: seq<string>)
    requires LedBy(p, bound)
    ensures KeepIn(p.accessOrder, Elems(bound)) <= p.accessOrder
  {}

  lemma BoundIsPrefix(p: AccessPattern, bound: seq<string>, i: nat)
    requires NoDup(p.accessOrder) && i < |p.accessOrder| && KeepIn(p.accessOrder, Elems(bound)) <= p.accessOrder
    ensures p.accessOrder[i] in bound <==> i < |KeepIn(p.accessOrder, Elems(bound))|
  {
    var prefix := KeepIn(p.accessOrder, Elems(bound));
    if p.accessOrder[i] in bound {
      assert p.accessOrder[i] in prefix;
      var k :| 0 <= k < |prefix| && prefix[k] == p.accessOrder[i];
      assert p.accessOrder[k] == prefix[k];
    }
    if i < |prefix| {
      assert p.accessOrder[i] == prefix[i] && prefix[i] in prefix;
    }
  }

  ghost predicate JoinsReady(varOrder: seq<string>, patterns: seq<AccessPattern>, read: Reader) {
    && NoDup(varOrder)
    && (forall p :: p in patterns ==> PatternOk(p, read))
    && (forall p, k :: p in patterns && 0 <= k <= |varOrder| ==> LedBy(p, varOrder[..k]))
    && forall v :: v in varOrder ==> exists p :: p in patterns && v in p.accessOrder
  }

  ghost predicate JoinedUpTo(varOrder: seq<string>, patterns: seq<AccessPattern>, read: Reader, e: Env) {
    e.Keys == Elems(varOrder) && forall p :: p in patterns && Touched(p, varOrder) ==> Holds(p, read, e)
  }

  function JoinSource(p: AccessPattern, bound: seq<string>): ColumnSource {
    SourceOf(p, p.indexCols, KeepIn(p.accessOrder, Elems(bound)))
  }

  lemma StepJoin(varOrder: seq<string>, patterns: seq<AccessPattern>, sem: Interp, read: Reader, v: string, mid: Env,
                 e: Env)
    requires JoinsReady(varOrder + [v], patterns, read) && mid.Keys == Elems(varOrder)
    ensures Steps(ColumnJoin(v, JoinSources(v, patterns, varOrder)), sem, read, mid, e) <==>
            v in e && e == mid[v := e[v]] && forall p :: p in patterns && v in p.accessOrder ==> Holds(p, read, e)
  {
    hide Elems, LedBy;
    hide Yields, Holds;
    JoinSourcesNonempty(v, patterns, varOrder, read);
    if v in e && e == mid[v := e[v]] {
      forall p | p in patterns && v in p.accessOrder
        ensures Yields(JoinSource(p, varOrder), read, mid, e[v]) <==> Holds(p, read, e) {
        ReadyAt(varOrder, patterns, read, v, p);
        YieldsMeaning(p, varOrder, v, read, mid, e[v]);
      }
      hide JoinSource;
      AllYield(v, patterns, varOrder, JoinSources(v, patterns, varOrder), read, mid, e[v]);
    }
  }

  lemma ReadyAt(varOrder: seq<string>, patterns: seq<AccessPattern>, read: Reader, v: string, p: AccessPattern)
    requires JoinsReady(varOrder + [v], patterns, read) && p in patterns
    ensures PatternOk(p, read) && LedBy(p, varOrder) && LedBy(p, varOrder + [v]) && v !in varOrder
  {
    var more := varOrder + [v];
    assert more[..|varOrder|] == varOrder && more[..|more|] == more;
    assert more[|varOrder|] == v;
  }

  lemma AllYield(v: string, patterns: seq<AccessPattern>, bound: seq<string>, sources: seq<ColumnSource>, read: Reader,
                 mid: Env, x: int)
    requires (forall p :: p in patterns ==> |p.rel| > 0) && sources == JoinSources(v, patterns, bound)
    ensures (forall i :: 0 <= i < |sources| ==> Yields(sources[i], read, mid, x)) <==>
            forall p :: p in patterns && v in p.accessOrder ==> Yields(JoinSource(p, bound), read, mid, x)
  {
    JoinSourcesListed(v, patterns, bound);
    hide Yields, JoinSource;
    if forall i :: 0 <= i < |sources| ==> Yields(sources[i], read, mid, x) {
      forall p | p in patterns && v in p.accessOrder ensures Yields(JoinSource(p, bound), read, mid, x) {
        assert JoinSource(p, bound) in sources;
      }
    }
    if forall p :: p in patterns && v in p.accessOrder ==> Yields(JoinSource(p, bound), read, mid, x) {
      forall i | 0 <= i < |sources| ensures Yields(sources[i], read, mid, x) {
        assert sources[i] in sources;
        var p :| p in patterns && Joins(p, v) && sources[i] == JoinSource(p, bound);
        assert Yields(JoinSource(p, bound), read, mid, x);
      }
    }
  }

  lemma JoinsReadyInit(varOrder: seq<string>, patterns: seq<AccessPattern>, read: Reader, n: nat)
    requires JoinsReady(varOrder, patterns, read) && n <= |varOrder|
    ensures JoinsReady(varOrder[..n], patterns, read)
  {
    hide LedBy;
    forall p, k | p in patterns && 0 <= k <= n ensures LedBy(p, varOrder[..n][..k]) {
      assert varOrder[..n][..k] == varOrder[..k];
    }
    forall v | v in varOrder[..n] ensures exists p :: p in patterns && v in p.accessOrder {
      assert v in varOrder;
    }
  }

  // After the column joins: the join variables are bound, and every pattern they touch has a row for them.
  lemma {:induction false} JoinsMeaning(varOrder: seq<string>, join: set<string>, patterns: seq<AccessPattern>,
                                        sem: Interp, read: Reader, e: Env)
    requires JoinsReady(varOrder, patterns, read) && forall v :: v in varOrder ==> v in join
    ensures JoinVars(varOrder, join, patterns).bound == varOrder
    ensures Runs(JoinVars(varOrder, join, patterns).ops, sem, read, map[], e)
        <==> JoinedUpTo(varOrder, patterns, read, e)
  {
    hide JoinsReady, JoinSources, Restrict, Steps;
    if |varOrder| == 0 {
      assert e.Keys == {} <==> e == map[];
    } else {
      var init, v := varOrder[..|varOrder| - 1], varOrder[|varOrder| - 1];
      assert varOrder == init + [v];
      JoinsReadyInit(varOrder, patterns, read, |varOrder| - 1);
      JoinsMeaning(init, join, patterns, sem, read, e);
      var st, sources := JoinVars(init, join, patterns), JoinSources(v, patterns, init);
      JoinSourcesNonempty(v, patterns, init, read);
      var ops := JoinVars(varOrder, join, patterns).ops;
      assert ops == st.ops + [ColumnJoin(v, sources)];
      assert ops[..|ops| - 1] == st.ops;
      if mid :| Runs(st.ops, sem, read, map[], mid) && Steps(ColumnJoin(v, sources), sem, read, mid, e) {
        JoinsMeaning(init, join, patterns, sem, read, mid);
        JoinedNext(init, patterns, sem, read, v, mid, e);
      }
      if JoinedUpTo(varOrder, patterns, read, e) {
        var mid := Restrict(e, Elems(init));
        JoinedBefore(init, patterns, sem, read, v, e);
        JoinsMeaning(init, join, patterns, sem, read, mid);
        assert Runs(st.ops, sem, read, map[], mid) && Steps(ops[|ops| - 1], sem, read, mid, e);
      }
    }
  }

  lemma JoinSourcesNonempty(v: string, patterns: seq<AccessPattern>, init: seq<string>, read: Reader)
    requires JoinsReady(init + [v], patterns, read)
    ensures |JoinSources(v, patterns, init)| > 0
  {
    hide JoinSources, JoinSource;
    assert v in init + [v];
    var p :| p in patterns && v in p.accessOrder;
    JoinSourcesListed(v, patterns, init);
    assert JoinSource(p, init) in JoinSources(v, patterns, init);
  }

  lemma JoinedNext(init: seq<string>, patterns: seq<AccessPattern>, sem: Interp, read: Reader, v: string, mid: Env,
                   e: Env)
    requires JoinsReady(init + [v], patterns, read) && JoinedUpTo(init, patterns, read, mid)
    requires Steps(ColumnJoin(v, JoinSources(v, patterns, init)), sem, read, mid, e)
    ensures JoinedUpTo(init + [v], patterns, read, e)
  {
    StepJoin(init, patterns, sem, read, v, mid, e);
    hide Holds, JoinsReady, Steps;
    forall p | p in patterns && Touched(p, init + [v]) ensures Holds(p, read, e) {
      if v !in p.accessOrder {
        assert Touched(p, init);
        HoldsSame(p, read, mid, e);
      }
    }
  }

  lemma JoinedBefore(init: seq<string>, patterns: seq<AccessPattern>, sem: Interp, read: Reader, v: string, e: Env)
    requires JoinsReady(init + [v], patterns, read) && JoinedUpTo(init + [v], patterns, read, e)
    ensures JoinedUpTo(init, patterns, read, Restrict(e, Elems(init)))
    ensures Steps(ColumnJoin(v, JoinSources(v, patterns, init)), sem, read, Restrict(e, Elems(init)), e)
  {
    hide JoinSources;
    var mid := Restrict(e, Elems(init));
    assert mid.Keys == Elems(init);
    StepJoin(init, patterns, sem, read, v, mid, e);
    hide Holds, JoinsReady, Steps;
    assert v in init + [v] && e == mid[v := e[v]];
    forall p | p in patterns && v in p.accessOrder ensures Holds(p, read, e) {
      assert Touched(p, init + [v]);
    }
    forall p | p in patterns && Touched(p, init) ensures Holds(p, read, mid) {
      assert Touched(p, init + [v]) by {
        var u :| u in p.accessOrder && u in init;
        assert u in init + [v];
      }
      HoldsSame(p, read, e, mid);
    }
  }

  // Variables past the join variables add nothing.
  lemma {:induction false} JoinVarsStop(varOrder: seq<string>, join: set<string>, patterns: seq<AccessPattern>, n: nat)
    requires n <= |varOrder| && forall k :: n <= k < |varOrder| ==> varOrder[k] !in join
    ensures JoinVars(varOrder, join, patterns) == JoinVars(varOrder[..n], join, patterns)
  {
    if |varOrder| > n {
      JoinVarsStop(varOrder[..|varOrder| - 1], join, patterns, n);
      assert varOrder[..|varOrder| - 1][..n] == varOrder[..n];
    } else {
      assert varOrder[..n] == varOrder;
    }
  }

  // ========== Cartesian meaning ==========

  // What the Cartesian join adds: one row per remaining pattern, all agreeing with the final binding.

  lemma {:induction false} BindMeaning(env: Env, vars: seq<string>, row: Row, index: seq<nat>, k: nat)
    requires NoDup(vars)
    ensures var e := Bind(env, vars, row, index, k);
      && e.Keys == env.Keys + Elems(vars)
      && (forall i :: 0 <= i < |vars| ==> e[vars[i]] == Col(row, index, k + i))
      && forall v :: v in env && v !in vars ==> e[v] == env[v]
  {
    hide Col;
    if |vars| > 0 {
      BindMeaning(env, vars[..|vars| - 1], row, index, k);
      assert Elems(vars) == Elems(vars[..|vars| - 1]) + {vars[|vars| - 1]};
    }
  }

  // --- The index each source uses ---

  ghost predicate OwnIndexes(computed: map<nat, seq<nat>>, patterns: seq<AccessPattern>) {
    forall k :: k in computed ==> exists p :: p in patterns && p.clauseIdx == k && computed[k] == p.indexCols
  }

  lemma {:induction false} RecordMeaning(computed: map<nat, seq<nat>>, v: string, patterns: seq<AccessPattern>,
                                         all: seq<AccessPattern>)
    requires OwnIndexes(computed, all) && forall p :: p in patterns ==> p in all
    ensures OwnIndexes(Record(computed, v, patterns), all)
    ensures computed.Keys <= Record(computed, v, patterns).Keys
    ensures forall p :: p in patterns && Joins(p, v) ==> p.clauseIdx in Record(computed, v, patterns)
  {
    hide Joins;
    if |patterns| > 0 {
      var init, last := patterns[..|patterns| - 1], patterns[|patterns| - 1];
      RecordMeaning(computed, v, init, all);
      assert patterns == init + [last];
    }
  }

  lemma {:induction false} ComputedMeaning(varOrder: seq<string>, join: set<string>, patterns: seq<AccessPattern>)
    ensures OwnIndexes(JoinVars(varOrder, join, patterns).computed, patterns)
    ensures forall p, v :: p in patterns && v in varOrder && v in join && Joins(p, v) ==>
      p.clauseIdx in JoinVars(varOrder, join, patterns).computed
  {
    if |varOrder| > 0 {
      var init, v := varOrder[..|varOrder| - 1], varOrder[|varOrder| - 1];
      ComputedMeaning(init, join, patterns);
      assert varOrder == init + [v];
      if v in join { RecordMeaning(JoinVars(init, join, patterns).computed, v, patterns, patterns); }
    }
  }

  lemma {:induction false} NoBoundColumns(p: AccessPattern, bound: seq<string>)
    requires forall v :: v in bound ==> v !in p.accessOrder
    ensures BoundColumns(p, bound) == []
  {
    if |bound| > 0 { NoBoundColumns(p, bound[..|bound| - 1]); }
  }

  // Every source keeps the index of its access pattern, joined before or not.
  lemma IndexIsKept(varOrder: seq<string>, join: set<string>, patterns: seq<AccessPattern>, p: AccessPattern)
    requires p in patterns && |p.rel| > 0 && forall q :: q in patterns && q.clauseIdx == p.clauseIdx ==> q == p
    requires forall v :: v in JoinVars(varOrder, join, patterns).bound ==> v in varOrder && v in join
    ensures CartesianIndex(p, JoinVars(varOrder, join, patterns)) == p.indexCols
  {
    hide JoinVars, BoundColumns;
    var st := JoinVars(varOrder, join, patterns);
    ComputedMeaning(varOrder, join, patterns);
    if p.clauseIdx !in st.computed {
      forall v | v in st.bound ensures v !in p.accessOrder {
        assert Joins(p, v) <==> v in p.accessOrder;
      }
      NoBoundColumns(p, st.bound);
      KeepInAll<nat>(p.indexCols, Elems(p.indexCols) - Elems<nat>([]));
    }
  }

  // --- Prefix and variables of a source ---

  lemma IndexOfAt(s: seq<nat>, i: nat)
    requires NoDup(s) && i < |s|
    ensures IndexOf(s, s[i]) == i
  {}

  lemma {:induction false} ColumnVarsMeaning(p: AccessPattern, keep: set<string>, n: nat)
    requires |p.accessOrder| <= |p.indexCols| && NoDup(p.accessOrder) && NoDup(p.indexCols) && n <= |p.accessOrder|
    ensures ColumnVars(p, p.indexCols[..n], keep) == KeepIn(p.accessOrder[..n], keep)
  {
    if n > 0 {
      ColumnVarsMeaning(p, keep, n - 1);
      var cols, vars, lead := p.indexCols[..n], p.accessOrder[..n], p.indexCols[..|p.accessOrder|];
      assert cols[..n - 1] == p.indexCols[..n - 1] && vars[..n - 1] == p.accessOrder[..n - 1];
      assert lead[n - 1] == p.indexCols[n - 1];
      IndexOfAt(lead, n - 1);
      LastApartFrom(p.accessOrder, n, n - 1);
      hide NoDup, IndexOf;
      KeepInLast(vars, keep);
    }
  }

  lemma LastApartFrom<T>(s: seq<T>, n: nat, k: nat)
    requires NoDup(s) && k < n <= |s|
    ensures s[n - 1] !in s[..k]
  {}

  lemma KeepInLast(s: seq<string>, keep: set<string>)
    requires s != []
    ensures var last := s[|s| - 1]; KeepIn(s, keep) == KeepIn(s[..|s| - 1], keep) + if last in keep then [last] else []
  {}

  // Columns past the variables name none.
  lemma {:induction false} SpareColumns(p: AccessPattern, keep: set<string>, n: nat)
    requires |p.accessOrder| <= n <= |p.indexCols| && NoDup(p.indexCols)
    ensures ColumnVars(p, p.indexCols[..n], keep) == ColumnVars(p, p.indexCols[..|p.accessOrder|], keep)
  {
    if n > |p.accessOrder| {
      SpareColumns(p, keep, n - 1);
      var cols := p.indexCols[..n];
      assert cols[..n - 1] == p.indexCols[..n - 1] && cols[n - 1] == p.indexCols[n - 1];
      LastApartFrom(p.indexCols, n, |p.accessOrder|);
      hide NoDup;
    }
  }

  ghost predicate CartesianReady(p: AccessPattern, st: Joined, indep: set<string>, read: Reader) {
    && PatternOk(p, read) && CartesianIndex(p, st) == p.indexCols
    && KeepIn(p.accessOrder, Elems(st.bound)) <= p.accessOrder
    && forall v :: v in p.accessOrder ==> (v in indep <==> v !in st.bound)
  }

  lemma AllColumnVars(p: AccessPattern, keep: set<string>)
    requires |p.accessOrder| <= |p.indexCols| && NoDup(p.accessOrder) && NoDup(p.indexCols)
    ensures ColumnVars(p, p.indexCols, keep) == KeepIn(p.accessOrder, keep)
  {
    hide *;
    ColumnVarsMeaning(p, keep, |p.accessOrder|);
    SpareColumns(p, keep, |p.indexCols|);
    assert p.indexCols[..|p.indexCols|] == p.indexCols && p.accessOrder[..|p.accessOrder|] == p.accessOrder;
  }

  lemma BoundLead(p: AccessPattern, bound: seq<string>) returns (m: nat)
    requires NoDup(p.accessOrder) && KeepIn(p.accessOrder, Elems(bound)) <= p.accessOrder
    ensures m <= |p.accessOrder| && forall i :: 0 <= i < |p.accessOrder| ==> (p.accessOrder[i] in bound <==> i < m)
    ensures KeepIn(p.accessOrder, Elems(bound)) == p.accessOrder[..m]
  {
    m := |KeepIn(p.accessOrder, Elems(bound))|;
    forall i | 0 <= i < |p.accessOrder| ensures p.accessOrder[i] in bound <==> i < m {
      BoundIsPrefix(p, bound, i);
    }
  }

  // The prefix is the bound variables, the rest are provided, in access order.
  lemma SourceMeaning(p: AccessPattern, st: Joined, indep: set<string>, read: Reader) returns (m: nat)
    requires CartesianReady(p, st, indep, read)
    ensures m <= |p.accessOrder| && forall i :: 0 <= i < |p.accessOrder| ==> (p.accessOrder[i] in st.bound <==> i < m)
    ensures CartesianSource(p, st) == SourceOf(p, p.indexCols, p.accessOrder[..m])
    ensures CartesianVars(p, st, indep) == p.accessOrder[m..]
  {
    hide KeepIn, ColumnVars, CartesianIndex;
    m := BoundLead(p, st.bound);
    AllColumnVars(p, Elems(st.bound));
    var prefix := p.accessOrder[..m];
    AllColumnVars(p, indep - Elems(prefix));
    RestKept(p.accessOrder, prefix, indep);
  }

  lemma RestKept(order: seq<string>, prefix: seq<string>, indep: set<string>)
    requires NoDup(order) && prefix <= order && forall i :: |prefix| <= i < |order| ==> order[i] in indep
    ensures KeepIn(order, indep - Elems(prefix)) == order[|prefix|..]
  {
    var rest := order[|prefix|..];
    assert order == prefix + rest;
    KeepInAppend(prefix, rest, indep - Elems(prefix));
    KeepInNone(prefix, indep - Elems(prefix));
    KeepInAll(rest, indep - Elems(prefix));
  }

  // --- One source, then all of them ---

  // big gives every variable of small the same value.
  ghost predicate Extending(small: Env, big: Env) {
    forall v :: v in small ==> v in big && big[v] == small[v]
  }

  lemma BindExtends(p: AccessPattern, row: Row, env: Env, mid: Env, m: nat)
    requires NoDup(p.accessOrder) && m <= |p.accessOrder| && Extending(env, mid)
    requires forall i :: 0 <= i < |p.accessOrder| ==> (p.accessOrder[i] in env <==> i < m)
    requires forall v :: v in p.accessOrder && v in mid ==> v in env
    ensures var e := Bind(mid, p.accessOrder[m..], row, p.indexCols, m);
      e.Keys == mid.Keys + Elems(p.accessOrder) && Extending(mid, e)
  {
    hide Elems, Col;
    var vars := p.accessOrder[m..];
    BindMeaning(mid, vars, row, p.indexCols, m);
    hide Bind;
    forall v | v in vars ensures v !in mid {
      var i :| 0 <= i < |vars| && vars[i] == v;
      assert p.accessOrder[m + i] == v && v in p.accessOrder;
    }
    SuffixCovers(p.accessOrder, m, mid);
  }

  // The row fixes the rest of the pattern's variables.
  lemma BindAgrees(p: AccessPattern, row: Row, env: Env, mid: Env, m: nat)
    requires |p.accessOrder| <= |p.indexCols| == |row| && NoDup(p.accessOrder) && m <= |p.accessOrder|
    requires Extending(env, mid) && Under(row, p.indexCols, Values(p.accessOrder[..m], env))
    requires forall i :: 0 <= i < |p.accessOrder| ==> (p.accessOrder[i] in env <==> i < m)
    requires forall v :: v in p.accessOrder && v in mid ==> v in env
    ensures Agrees(p, row, Bind(mid, p.accessOrder[m..], row, p.indexCols, m))
  {
    BindExtends(p, row, env, mid, m);
    BindMeaning(mid, p.accessOrder[m..], row, p.indexCols, m);
    hide Bind, NoDup;
    var e := Bind(mid, p.accessOrder[m..], row, p.indexCols, m);
    forall i | 0 <= i < |p.accessOrder| ensures Col(row, p.indexCols, i) == e[p.accessOrder[i]] {
      if i < m {
        assert Values(p.accessOrder[..m], env)[i] == Col(row, p.indexCols, i);
        assert p.accessOrder[i] in env;
      } else {
        assert p.accessOrder[m..][i - m] == p.accessOrder[i];
      }
    }
  }

  // Conversely a row that agrees with e is under the prefix, and binding from it gives e.
  lemma AgreesBinds(p: AccessPattern, row: Row, env: Env, mid: Env, e: Env, m: nat)
    requires |p.accessOrder| <= |p.indexCols| && NoDup(p.accessOrder) && m <= |p.accessOrder|
    requires Agrees(p, row, e) && e.Keys == mid.Keys + Elems(p.accessOrder) && Extending(mid, e) && Extending(env, mid)
    requires forall i :: 0 <= i < m ==> p.accessOrder[i] in env
    ensures Under(row, p.indexCols, Values(p.accessOrder[..m], env))
    ensures e == Bind(mid, p.accessOrder[m..], row, p.indexCols, m)
  {
    forall k | 0 <= k < m ensures Col(row, p.indexCols, k) == Values(p.accessOrder[..m], env)[k] {
      assert p.accessOrder[k] in mid && p.accessOrder[k] in e;
    }
    BoundBySuffix(p, row, mid, e, m);
  }

  lemma BoundBySuffix(p: AccessPattern, row: Row, mid: Env, e: Env, m: nat)
    requires |p.accessOrder| <= |p.indexCols| && NoDup(p.accessOrder) && m <= |p.accessOrder|
    requires Agrees(p, row, e) && e.Keys == mid.Keys + Elems(p.accessOrder) && Extending(mid, e)
    requires forall i :: 0 <= i < m ==> p.accessOrder[i] in mid
    ensures e == Bind(mid, p.accessOrder[m..], row, p.indexCols, m)
  {
    hide Col;
    var vars := p.accessOrder[m..];
    BindMeaning(mid, vars, row, p.indexCols, m);
    hide Bind, NoDup;
    var b := Bind(mid, vars, row, p.indexCols, m);
    SuffixCovers(p.accessOrder, m, mid);
    assert b.Keys == e.Keys;
    forall v | v in e ensures b[v] == e[v] {
      if v in vars {
        var i :| 0 <= i < |vars| && vars[i] == v;
        assert p.accessOrder[m + i] == v;
      }
    }
  }

  lemma SuffixCovers(order: seq<string>, m: nat, mid: Env)
    requires m <= |order| && forall i :: 0 <= i < m ==> order[i] in mid
    ensures mid.Keys + Elems(order[m..]) == mid.Keys + Elems(order)
  {
    assert order == order[..m] + order[m..];
  }

  lemma ExtendsMeaning(p: AccessPattern, st: Joined, indep: set<string>, read: Reader, env: Env, mid: Env, e: Env)
    requires CartesianReady(p, st, indep, read) && env.Keys == Elems(st.bound)
    requires Extending(env, mid) && forall v :: v in p.accessOrder && v in mid ==> v in env
    ensures (exists row :: Extends(CartesianSource(p, st), CartesianVars(p, st, indep), read, env, mid, row, e)) <==>
            e.Keys == mid.Keys + Elems(p.accessOrder) && Extending(mid, e) && Holds(p, read, e)
  {
    var m := SourceMeaning(p, st, indep, read);
    assert PatternOk(p, read);
    hide CartesianReady, CartesianSource, CartesianVars, Extending, Bind, Under, Agrees, NoDup, Values;
    var s, vars := SourceOf(p, p.indexCols, p.accessOrder[..m]), p.accessOrder[m..];
    forall row | row in RowsOf(p, read)
      ensures Extends(s, vars, read, env, mid, row, e)
          <==> e.Keys == mid.Keys + Elems(p.accessOrder) && Extending(mid, e) && Agrees(p, row, e)
    {
      if Extends(s, vars, read, env, mid, row, e) {
        BindExtends(p, row, env, mid, m);
        BindAgrees(p, row, env, mid, m);
      }
      if e.Keys == mid.Keys + Elems(p.accessOrder) && Extending(mid, e) && Agrees(p, row, e) {
        AgreesBinds(p, row, env, mid, e, m);
      }
    }
    hide PatternOk;
    if row :| Extends(s, vars, read, env, mid, row, e) {
      assert row in RowsOf(p, read);
    }
  }

  lemma {:induction false} InProductSame(a: seq<ColumnSource>, aFrom: seq<seq<string>>, b: seq<ColumnSource>,
                                         bFrom: seq<seq<string>>,
                                          read: Reader, env: Env, n: nat, e: Env)
    requires n <= |a| && n <= |aFrom| && n <= |b| && n <= |bFrom| && a[..n] == b[..n] && aFrom[..n] == bFrom[..n]
    ensures InProduct(a, aFrom, read, env, n, e) <==> InProduct(b, bFrom, read, env, n, e)
  {
    if n > 0 {
      var m: nat := n - 1;
      assert a[..m] == a[..n][..m] && b[..m] == b[..n][..m];
      assert aFrom[..m] == aFrom[..n][..m] && bFrom[..m] == bFrom[..n][..m];
      assert a[m] == a[..n][m] == b[m] && aFrom[m] == aFrom[..n][m] == bFrom[m];
      forall mid ensures InProduct(a, aFrom, read, env, m, mid) <==> InProduct(b, bFrom, read, env, m, mid) {
        InProductSame(a, aFrom, b, bFrom, read, env, m, mid);
      }
    }
  }

  ghost predicate AllReady(patterns: seq<AccessPattern>, st: Joined, indep: set<string>, read: Reader) {
    && (forall k :: 0 <= k < |patterns| ==> CartesianReady(patterns[k], st, indep, read))
    && forall i, j, v ::
        0 <= i < j < |patterns| && v in patterns[i].accessOrder && v in patterns[j].accessOrder ==> v in st.bound
  }

  lemma {:induction false} InPatternVars(patterns: seq<AccessPattern>, v: string)
    ensures v in PatternVars(patterns) <==> exists p :: p in patterns && v in p.accessOrder
  {
    if |patterns| > 0 {
      InPatternVars(patterns[..|patterns| - 1], v);
      assert patterns == patterns[..|patterns| - 1] + [patterns[|patterns| - 1]];
    }
  }

  ghost predicate ProvidersHold(patterns: seq<AccessPattern>, indep: set<string>, read: Reader, e: Env) {
    forall p :: p in patterns && Provides(p, indep) ==> Holds(p, read, e)
  }

  // e extends env to the patterns' variables, and each pattern the join reads has a row.
  ghost predicate Extended(patterns: seq<AccessPattern>, indep: set<string>, read: Reader, env: Env, e: Env) {
    e.Keys == env.Keys + PatternVars(patterns) && Extending(env, e) && ProvidersHold(patterns, indep, read, e)
  }

  // Extended, one pattern at a time.
  lemma ExtendedLast(patterns: seq<AccessPattern>, indep: set<string>, read: Reader, env: Env, e: Env)
    requires |patterns| > 0
    ensures var init, p := patterns[..|patterns| - 1], patterns[|patterns| - 1];
      Extended(patterns, indep, read, env, e) <==>
        && e.Keys == env.Keys + PatternVars(init) + Elems(p.accessOrder) && Extending(env, e)
        && ProvidersHold(init, indep, read, e) && (Provides(p, indep) ==> Holds(p, read, e))
  {
    hide Holds, Provides, Extending;
    var init, p := patterns[..|patterns| - 1], patterns[|patterns| - 1];
    assert patterns == init + [p];
    assert env.Keys + PatternVars(init) + Elems(p.accessOrder) == env.Keys + PatternVars(patterns);
    assert ProvidersHold(patterns, indep, read, e)
        <==> ProvidersHold(init, indep, read, e) && (Provides(p, indep) ==> Holds(p, read, e));
  }

  lemma InitReady(patterns: seq<AccessPattern>, st: Joined, indep: set<string>, read: Reader)
    requires |patterns| > 0 && AllReady(patterns, st, indep, read)
    ensures AllReady(patterns[..|patterns| - 1], st, indep, read)
  {
    hide CartesianReady;
  }

  lemma {:induction false} ProductMeaning(patterns: seq<AccessPattern>, st: Joined, indep: set<string>, read: Reader,
                                          env: Env, e: Env)
    requires AllReady(patterns, st, indep, read) && env.Keys == Elems(st.bound)
    ensures ReachedBy(patterns, st, indep, read, env, e) <==> Extended(patterns, indep, read, env, e)
  {
    if |patterns| == 0 {
      assert e == env <==> e.Keys == env.Keys && Extending(env, e);
    } else {
      var n := |patterns| - 1;
      var init, p := patterns[..n], patterns[n];
      InitReady(patterns, st, indep, read);
      hide AllReady, Extended, Extends, CartesianSource, CartesianVars, Extending, InProduct, PatternVars,
          CartesianSources;
      if !Provides(p, indep) {
        ProductMeaning(init, st, indep, read, env, e);
        SkippedPattern(patterns, st, indep, read, env, e);
      } else {
        hide Provides;
        forall mid ensures Extended(init, indep, read, env, mid) <==> ReachedBy(init, st, indep, read, env, mid) {
          ProductMeaning(init, st, indep, read, env, mid);
        }
        ProductSplit(patterns, st, indep, read, env, e);
        if Extended(patterns, indep, read, env, e) {
          ProductBefore(patterns, st, indep, read, env, e);
          var mid := Restrict(e, env.Keys + PatternVars(init));
          assert ReachedBy(init, st, indep, read, env, mid);
        }
        if mid :| ReachedBy(init, st, indep, read, env, mid) && exists row ::
            Extends(CartesianSource(p, st), CartesianVars(p, st, indep), read, env, mid, row, e) {
          ProductNext(patterns, st, indep, read, env, mid, e);
        }
      }
    }
  }

  ghost predicate ReachedBy(patterns: seq<AccessPattern>, st: Joined, indep: set<string>, read: Reader, env: Env,
                            e: Env) {
    var cs := CartesianSources(patterns, st, indep);
    InProduct(cs.0, cs.1, read, env, |cs.0|, e)
  }

  lemma ProductSplit(patterns: seq<AccessPattern>, st: Joined, indep: set<string>, read: Reader, env: Env, e: Env)
    requires |patterns| > 0 && Provides(patterns[|patterns| - 1], indep)
    ensures var init, p := patterns[..|patterns| - 1], patterns[|patterns| - 1];
      ReachedBy(patterns, st, indep, read, env, e) <==>
        exists mid :: ReachedBy(init, st, indep, read, env, mid) &&
          exists row :: Extends(CartesianSource(p, st), CartesianVars(p, st, indep), read, env, mid, row, e)
  {
    hide Extends, CartesianSource, CartesianVars, Provides;
    var init, p := patterns[..|patterns| - 1], patterns[|patterns| - 1];
    var cs, before := CartesianSources(patterns, st, indep), CartesianSources(init, st, indep);
    var k: nat := |before.0|;
    forall mid ensures InProduct(cs.0, cs.1, read, env, k, mid) <==> ReachedBy(init, st, indep, read, env, mid) {
      InProductSame(cs.0, cs.1, before.0, before.1, read, env, k, mid);
    }
    assert cs.0[k] == CartesianSource(p, st) && cs.1[k] == CartesianVars(p, st, indep) && |cs.0| == k + 1;
    if mid, row :|
      ReachedBy(init, st, indep, read, env, mid) &&
      Extends(CartesianSource(p, st), CartesianVars(p, st, indep), read, env, mid, row, e)
    {
      assert InProduct(cs.0, cs.1, read, env, k, mid);
      assert Extends(cs.0[k], cs.1[k], read, env, mid, row, e);
    }
  }

  lemma SkippedPattern(patterns: seq<AccessPattern>, st: Joined, indep: set<string>, read: Reader, env: Env, e: Env)
    requires |patterns| > 0 && AllReady(patterns, st, indep, read) && env.Keys == Elems(st.bound)
    requires !Provides(patterns[|patterns| - 1], indep)
    ensures Extended(patterns[..|patterns| - 1], indep, read, env, e) <==> Extended(patterns, indep, read, env, e)
  {
    hide *;
    var init, p := patterns[..|patterns| - 1], patterns[|patterns| - 1];
    CartesianReadyAt(patterns, st, indep, read, |patterns| - 1);
    AllBound(p, st, indep, read, env);
    ExtendedLast(patterns, indep, read, env, e);
    ExtendedIs(init, indep, read, env, e);
    AddsNothing(env.Keys, PatternVars(init), Elems(p.accessOrder));
  }

  lemma AddsNothing(a: set<string>, b: set<string>, c: set<string>)
    requires c <= a
    ensures a + b + c == a + b
  {}

  lemma CartesianReadyAt(patterns: seq<AccessPattern>, st: Joined, indep: set<string>, read: Reader, k: nat)
    requires AllReady(patterns, st, indep, read) && k < |patterns|
    ensures CartesianReady(patterns[k], st, indep, read)
  {
    hide CartesianReady;
  }

  // A pattern that provides nothing has all its variables bound.
  lemma AllBound(p: AccessPattern, st: Joined, indep: set<string>, read: Reader, env: Env)
    requires CartesianReady(p, st, indep, read) && !Provides(p, indep) && env.Keys == Elems(st.bound)
    ensures Elems(p.accessOrder) <= env.Keys
  {
    hide CartesianIndex, KeepIn;
    assert |p.rel| > 0;
    forall v | v in p.accessOrder ensures v in env { assert v !in indep; }
  }

  lemma ExtendedIs(patterns: seq<AccessPattern>, indep: set<string>, read: Reader, env: Env, e: Env)
    ensures Extended(patterns, indep, read, env, e) <==>
      e.Keys == env.Keys + PatternVars(patterns) && Extending(env, e) && ProvidersHold(patterns, indep, read, e)
  {}

  // The last pattern shares only bound variables with the ones before it.
  lemma LastApart(patterns: seq<AccessPattern>, st: Joined, indep: set<string>, read: Reader, v: string)
    requires |patterns| > 0 && AllReady(patterns, st, indep, read)
    requires v in patterns[|patterns| - 1].accessOrder && v in PatternVars(patterns[..|patterns| - 1])
    ensures v in st.bound
  {
    hide CartesianReady;
    var init := patterns[..|patterns| - 1];
    InPatternVars(init, v);
    var p :| p in init && v in p.accessOrder;
    var k :| 0 <= k < |init| && init[k] == p;
    assert patterns[k] == p;
  }

  // What the last pattern needs from the binding before it.
  lemma SharesBound(patterns: seq<AccessPattern>, st: Joined, indep: set<string>, read: Reader, env: Env, mid: Env)
    requires |patterns| > 0 && AllReady(patterns, st, indep, read) && env.Keys == Elems(st.bound)
    requires mid.Keys == env.Keys + PatternVars(patterns[..|patterns| - 1])
    ensures CartesianReady(patterns[|patterns| - 1], st, indep, read)
    ensures forall v :: v in patterns[|patterns| - 1].accessOrder && v in mid ==> v in env
  {
    hide CartesianReady, PatternVars;
    var p := patterns[|patterns| - 1];
    forall v | v in p.accessOrder && v in mid ensures v in env {
      if v !in env { LastApart(patterns, st, indep, read, v); }
    }
  }

  lemma ProvidersKept(patterns: seq<AccessPattern>, indep: set<string>, read: Reader, a: Env, b: Env)
    requires ProvidersHold(patterns, indep, read, a)
    requires forall v :: v in PatternVars(patterns) && v in b ==> v in a && a[v] == b[v]
    ensures ProvidersHold(patterns, indep, read, b)
  {
    hide Holds, Provides;
    forall q | q in patterns && Provides(q, indep) ensures Holds(q, read, b) {
      forall v | v in q.accessOrder ensures v in PatternVars(patterns) {
        InPatternVars(patterns, v);
      }
      HoldsSame(q, read, a, b);
    }
  }

  lemma ProductNext(patterns: seq<AccessPattern>, st: Joined, indep: set<string>, read: Reader, env: Env, mid: Env,
                    e: Env)
    requires |patterns| > 0 && AllReady(patterns, st, indep, read) && env.Keys == Elems(st.bound)
    requires Extended(patterns[..|patterns| - 1], indep, read, env, mid)
    requires var p := patterns[|patterns| - 1];
      exists row :: Extends(CartesianSource(p, st), CartesianVars(p, st, indep), read, env, mid, row, e)
    ensures Extended(patterns, indep, read, env, e)
  {
    hide Extends, Holds, CartesianReady, Provides, CartesianSource, CartesianVars, AllReady, PatternVars;
    var init, p := patterns[..|patterns| - 1], patterns[|patterns| - 1];
    SharesBound(patterns, st, indep, read, env, mid);
    ExtendsMeaning(p, st, indep, read, env, mid, e);
    ProvidersKept(init, indep, read, mid, e);
    hide ProvidersHold;
    ExtendedLast(patterns, indep, read, env, e);
  }

  lemma ProductBefore(patterns: seq<AccessPattern>, st: Joined, indep: set<string>, read: Reader, env: Env, e: Env)
    requires |patterns| > 0 && AllReady(patterns, st, indep, read) && env.Keys == Elems(st.bound)
    requires Extended(patterns, indep, read, env, e) && Provides(patterns[|patterns| - 1], indep)
    ensures var init, p, mid :=
        patterns[..|patterns| - 1], patterns[|patterns| - 1],
        Restrict(e, env.Keys + PatternVars(patterns[..|patterns| - 1]));
      && Extended(init, indep, read, env, mid)
      && exists row :: Extends(CartesianSource(p, st), CartesianVars(p, st, indep), read, env, mid, row, e)
  {
    hide Extends, Holds, CartesianReady, Provides, CartesianSource, CartesianVars, AllReady, PatternVars;
    var init, p := patterns[..|patterns| - 1], patterns[|patterns| - 1];
    ExtendedLast(patterns, indep, read, env, e);
    var mid := Restrict(e, env.Keys + PatternVars(init));
    assert mid.Keys == env.Keys + PatternVars(init);
    ProvidersKept(init, indep, read, e, mid);
    hide ProvidersHold;
    SharesBound(patterns, st, indep, read, env, mid);
    ExtendsMeaning(p, st, indep, read, env, mid, e);
  }

  // ========== Generator meaning ==========

  // Column joins and Cartesian join together: every pattern has a row for the binding, and all its variables are
  // bound.

  // A pattern without variables is looked at only when it is the sole one.
  ghost predicate Checked(patterns: seq<AccessPattern>, p: AccessPattern) {
    |p.accessOrder| > 0 || |patterns| == 1
  }

  ghost predicate AllHold(patterns: seq<AccessPattern>, read: Reader, e: Env) {
    forall p :: p in patterns && Checked(patterns, p) ==> Holds(p, read, e)
  }

  ghost predicate Separate(patterns: seq<AccessPattern>, join: set<string>) {
    && (forall i, j, v ::
        0 <= i < j < |patterns| && v in patterns[i].accessOrder && v in patterns[j].accessOrder ==> v in join)
    && forall p, q :: p in patterns && q in patterns && p.clauseIdx == q.clauseIdx ==> p == q
  }

  // The first n variables of the order are the join variables, and the patterns agree with that order.
  ghost predicate GeneratorsReady(body: seq<Clause>, plan: Plan, read: Reader, n: nat) {
    && n <= |plan.varOrder| && (forall k :: 0 <= k < |plan.varOrder| ==> (plan.varOrder[k] in plan.join <==> k < n))
    && (forall v :: v in plan.join ==> v in plan.varOrder)
    && JoinsReady(plan.varOrder[..n], plan.access, read) && Separate(plan.access, plan.join)
    && Elems(Independent(body, plan)) == PatternVars(plan.access) - plan.join
  }

  lemma {:induction false} ProvidersListed(patterns: seq<AccessPattern>, st: Joined, indep: set<string>)
    ensures |CartesianSources(patterns, st, indep).0| > 0 <==> exists p :: p in patterns && Provides(p, indep)
  {
    if |patterns| > 0 {
      hide Provides, CartesianSource, CartesianVars;
      ProvidersListed(patterns[..|patterns| - 1], st, indep);
      assert patterns == patterns[..|patterns| - 1] + [patterns[|patterns| - 1]];
    }
  }

  // The optional Cartesian operation, whether or not it is emitted.
  lemma CartesianRuns(body: seq<Clause>, plan: Plan, st: Joined, sem: Interp, read: Reader, mid: Env, e: Env)
    requires Elems(Independent(body, plan)) <= PatternVars(plan.access)
    requires forall p :: p in plan.access ==> |p.rel| > 0
    ensures Runs(Cartesian(body, plan, st), sem, read, mid, e) <==>
            ReachedBy(plan.access, st, Elems(Independent(body, plan)), read, mid, e)
  {
    hide Independent, CartesianSources, PatternVars;
    var vars := Independent(body, plan);
    var indep := Elems(vars);
    ProvidersListed(plan.access, st, indep);
    if |vars| > 0 {
      assert vars[0] in indep;
      InPatternVars(plan.access, vars[0]);
      var sources := CartesianSources(plan.access, st, indep);
      RunsOne(CartesianJoin(vars, sources.0, sources.1), sem, read, mid, e);
    } else {
      assert indep == {};
    }
  }

  lemma OneReady(body: seq<Clause>, plan: Plan, read: Reader, n: nat, p: AccessPattern)
    requires GeneratorsReady(body, plan, read, n) && p in plan.access
    requires JoinVars(plan.varOrder, plan.join, plan.access).bound == plan.varOrder[..n]
    ensures CartesianReady(p, JoinVars(plan.varOrder, plan.join, plan.access), Elems(Independent(body, plan)), read)
  {
    hide JoinsReady;
    hide Independent, JoinVars, CartesianIndex, PatternVars, PatternOk, NoDup;
    var st, indep := JoinVars(plan.varOrder, plan.join, plan.access), Elems(Independent(body, plan));
    assert PatternOk(p, read) && LedBy(p, plan.varOrder[..n]) by {
      LedByLead(plan.varOrder[..n], plan.access, read, p);
    }
    OkNamed(p, read);
    forall v ensures v in st.bound ==> v in plan.varOrder && v in plan.join {
      JoinIsLead(body, plan, read, n, v);
    }
    IndexIsKept(plan.varOrder, plan.join, plan.access, p);
    forall v | v in p.accessOrder ensures v in indep <==> v !in st.bound {
      JoinIsLead(body, plan, read, n, v);
      InPatternVars(plan.access, v);
    }
  }

  lemma LedByLead(lead: seq<string>, patterns: seq<AccessPattern>, read: Reader, p: AccessPattern)
    requires JoinsReady(lead, patterns, read) && p in patterns
    ensures PatternOk(p, read) && LedBy(p, lead)
  {
    assert lead[..|lead|] == lead;
  }

  lemma OkNamed(p: AccessPattern, read: Reader)
    requires PatternOk(p, read)
    ensures |p.rel| > 0
  {}

  lemma AllReadyForCartesian(body: seq<Clause>, plan: Plan, read: Reader, n: nat)
    requires GeneratorsReady(body, plan, read, n)
    requires JoinVars(plan.varOrder, plan.join, plan.access).bound == plan.varOrder[..n]
    ensures AllReady(plan.access, JoinVars(plan.varOrder, plan.join, plan.access), Elems(Independent(body, plan)), read)
  {
    hide Independent, JoinVars, CartesianReady, PatternVars, JoinsReady;
    var st, indep := JoinVars(plan.varOrder, plan.join, plan.access), Elems(Independent(body, plan));
    forall k | 0 <= k < |plan.access| ensures CartesianReady(plan.access[k], st, indep, read) {
      OneReady(body, plan, read, n, plan.access[k]);
    }
    forall i, j, v | 0 <= i < j < |plan.access| && v in plan.access[i].accessOrder && v in plan.access[j].accessOrder
      ensures v in st.bound {
      JoinIsLead(body, plan, read, n, v);
    }
  }

  lemma JoinIsLead(body: seq<Clause>, plan: Plan, read: Reader, n: nat, v: string)
    requires GeneratorsReady(body, plan, read, n)
    ensures v in plan.varOrder[..n] <==> v in plan.join
  {
    if v in plan.join {
      var k :| 0 <= k < |plan.varOrder| && plan.varOrder[k] == v;
      assert plan.varOrder[..n][k] == v;
    }
  }

  lemma TwoStages(body: seq<Clause>, plan: Plan, sem: Interp, read: Reader, n: nat, mid: Env, e: Env)
    requires GeneratorsReady(body, plan, read, n)
    ensures var st := JoinVars(plan.varOrder, plan.join, plan.access);
      Runs(st.ops, sem, read, map[], mid) && Runs(Cartesian(body, plan, st), sem, read, mid, e) <==>
      JoinedUpTo(plan.varOrder[..n], plan.access, read, mid)
          && Extended(plan.access, Elems(Independent(body, plan)), read, mid, e)
  {
    hide JoinVars, Cartesian, Independent, ReachedBy, Extended, Runs, JoinsReady, Separate;
    var st, indep := JoinVars(plan.varOrder, plan.join, plan.access), Elems(Independent(body, plan));
    JoinVarsStop(plan.varOrder, plan.join, plan.access, n);
    JoinsMeaning(plan.varOrder[..n], plan.join, plan.access, sem, read, mid);
    AllReadyForCartesian(body, plan, read, n);
    forall p | p in plan.access ensures |p.rel| > 0 {
      LedByLead(plan.varOrder[..n], plan.access, read, p);
    }
    CartesianRuns(body, plan, st, sem, read, mid, e);
    hide AllReady;
    if mid.Keys == Elems(plan.varOrder[..n]) { ProductMeaning(plan.access, st, indep, read, mid, e); }
  }

  lemma MultiMeaning(body: seq<Clause>, plan: Plan, sem: Interp, read: Reader, n: nat, e: Env)
    requires GeneratorsReady(body, plan, read, n) && |plan.access| > 1
    ensures var st := JoinVars(plan.varOrder, plan.join, plan.access);
      Runs(st.ops + Cartesian(body, plan, st), sem, read, map[], e) <==>
      e.Keys == PatternVars(plan.access) && AllHold(plan.access, read, e)
  {
    hide Runs, Independent;
    var lead := plan.varOrder[..n];
    hide *;
    var st, indep := JoinVars(plan.varOrder, plan.join, plan.access), Elems(Independent(body, plan));
    var cart := Cartesian(body, plan, st);
    RunsAppend(st.ops, cart, sem, read, map[], e);
    if mid :| Runs(st.ops, sem, read, map[], mid) && Runs(cart, sem, read, mid, e) {
      TwoStages(body, plan, sem, read, n, mid, e);
      AfterBoth(body, plan, read, n, mid, e);
    }
    if e.Keys == PatternVars(plan.access) && AllHold(plan.access, read, e) {
      BeforeBoth(body, plan, read, n, e);
      TwoStages(body, plan, sem, read, n, Restrict(e, Elems(lead)), e);
    }
  }

  lemma LeadInPatterns(body: seq<Clause>, plan: Plan, read: Reader, n: nat)
    requires GeneratorsReady(body, plan, read, n)
    ensures Elems(plan.varOrder[..n]) <= PatternVars(plan.access)
  {
    forall v | v in plan.varOrder[..n] ensures v in PatternVars(plan.access) {
      var p :| p in plan.access && v in p.accessOrder;
      InPatternVars(plan.access, v);
    }
  }

  lemma NotProvided(body: seq<Clause>, plan: Plan, read: Reader, n: nat, p: AccessPattern)
    requires GeneratorsReady(body, plan, read, n) && p in plan.access && !Provides(p, Elems(Independent(body, plan)))
    ensures forall v :: v in p.accessOrder ==> v in plan.varOrder[..n]
  {
    hide Independent, PatternVars;
    assert PatternOk(p, read);
    forall v | v in p.accessOrder ensures v in plan.varOrder[..n] {
      InPatternVars(plan.access, v);
      JoinIsLead(body, plan, read, n, v);
    }
  }

  lemma JoinedHolds(body: seq<Clause>, plan: Plan, read: Reader, n: nat, mid: Env, e: Env, p: AccessPattern)
    requires GeneratorsReady(body, plan, read, n) && p in plan.access && !Provides(p, Elems(Independent(body, plan)))
    requires |p.accessOrder| > 0
    requires JoinedUpTo(plan.varOrder[..n], plan.access, read, mid) && Extending(mid, e)
    ensures Holds(p, read, e)
  {
    NotProvided(body, plan, read, n, p);
    hide Holds, Independent, PatternVars, Provides, GeneratorsReady;
    assert p.accessOrder[0] in p.accessOrder;
    assert Touched(p, plan.varOrder[..n]);
    HoldsSame(p, read, mid, e);
  }

  lemma AfterBoth(body: seq<Clause>, plan: Plan, read: Reader, n: nat, mid: Env, e: Env)
    requires GeneratorsReady(body, plan, read, n) && |plan.access| > 1
    requires JoinedUpTo(plan.varOrder[..n], plan.access, read, mid)
    requires Extended(plan.access, Elems(Independent(body, plan)), read, mid, e)
    ensures e.Keys == PatternVars(plan.access) && AllHold(plan.access, read, e)
  {
    hide Elems;
    LeadInPatterns(body, plan, read, n);
    hide Holds, Independent, PatternVars, Provides, GeneratorsReady, Extending;
    forall p | p in plan.access && Checked(plan.access, p) ensures Holds(p, read, e) {
      if !Provides(p, Elems(Independent(body, plan))) { JoinedHolds(body, plan, read, n, mid, e, p); }
    }
  }

  lemma BeforeBoth(body: seq<Clause>, plan: Plan, read: Reader, n: nat, e: Env)
    requires GeneratorsReady(body, plan, read, n) && e.Keys == PatternVars(plan.access) && AllHold(plan.access, read, e)
    ensures var mid := Restrict(e, Elems(plan.varOrder[..n]));
      JoinedUpTo(plan.varOrder[..n], plan.access, read, mid)
          && Extended(plan.access, Elems(Independent(body, plan)), read, mid, e)
  {
    hide Elems;
    LeadInPatterns(body, plan, read, n);
    hide Holds, Independent, PatternVars, GeneratorsReady;
    var mid := Restrict(e, Elems(plan.varOrder[..n]));
    assert mid.Keys == Elems(plan.varOrder[..n]);
    forall p | p in plan.access && |p.accessOrder| > 0 ensures Holds(p, read, mid) {
      HoldsSame(p, read, e, mid);
    }
  }

  lemma ScanMeaning(p: AccessPattern, sem: Interp, read: Reader, e: Env)
    requires PatternOk(p, read)
    ensures Runs([Scan(p.accessOrder, SourceOf(p, p.indexCols, PrefixVars(p)))], sem, read, map[], e) <==>
            e.Keys == Elems(p.accessOrder) && Holds(p, read, e)
  {
    hide Elems, Col, Runs, NoDup, Bind;
    RunsOne(Scan(p.accessOrder, SourceOf(p, p.indexCols, PrefixVars(p))), sem, read, map[], e);
    forall row | row in RowsOf(p, read)
      ensures e == Bind(map[], p.accessOrder, row, p.indexCols, 0)
          <==> e.Keys == Elems(p.accessOrder) && Agrees(p, row, e)
    {
      BindMeaning(map[], p.accessOrder, row, p.indexCols, 0);
      assert p.accessOrder[0..] == p.accessOrder;
      if e.Keys == Elems(p.accessOrder) && Agrees(p, row, e) { BoundBySuffix(p, row, map[], e, 0); }
    }
  }

  // The generator operations bind exactly the patterns' variables, in every way that gives each pattern a row.
  lemma GeneratorsMeaning(body: seq<Clause>, plan: Plan, sem: Interp, read: Reader, n: nat, e: Env)
    requires GeneratorsReady(body, plan, read, n)
    ensures Runs(Generators(body, plan), sem, read, map[], e)
        <==> e.Keys == PatternVars(plan.access) && AllHold(plan.access, read, e)
  {
    hide Holds, PrefixVars, Elems, JoinVars, SourceOf, PatternOk;
    if |plan.access| == 0 {
      assert e.Keys == {} <==> e == map[];
    } else if |plan.access| == 1 {
      var p := plan.access[0];
      assert PatternVars(plan.access) == PatternVars(plan.access[..0]) + Elems(p.accessOrder);
      assert plan.access == [p];
      ScanMeaning(p, sem, read, e);
    } else {
      MultiMeaning(body, plan, sem, read, n, e);
    }
  }
}
