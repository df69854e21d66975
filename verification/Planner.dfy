/** Join variables, variable order and access patterns of a rule variant. */
module Planner {
  import opened Datalog
  import opened Seqs
  import Names
  import opened SemiNaive
  import opened ClauseOrder

  // --- Join variables: those occurring more than once in positive atoms ---

  function CountOf(vs: seq<string>, v: string): nat {
    if |vs| == 0 then 0 else CountOf(vs[..|vs| - 1], v) + if vs[|vs| - 1] == v then 1 else 0
  }

  function PositiveCount(body: seq<Clause>, v: string): nat {
    if |body| == 0 then 0 else
      var last := body[|body| - 1];
      PositiveCount(body[..|body| - 1], v) + if last.Pos? then CountOf(ArgVars(last.atom.args), v) else 0
  }

  ghost predicate IsJoinSet(body: seq<Clause>, join: set<string>) {
    forall v :: v in join <==> PositiveCount(body, v) > 1
  }

  method CountVars(count0: map<string, nat>, vs: seq<string>) returns (count: map<string, nat>)
    requires forall v :: v in count0 ==> count0[v] > 0
    ensures forall v :: v in count ==> count[v] > 0
    ensures forall v :: (if v in count then count[v] else 0) == (if v in count0 then count0[v] else 0) + CountOf(vs, v)
  {
    count := count0;
    for j := 0 to |vs|
      invariant forall v :: v in count ==> count[v] > 0
      invariant forall v ::
          (if v in count then count[v] else 0) == (if v in count0 then count0[v] else 0) + CountOf(vs[..j], v)
    {
      assert vs[..j + 1][..j] == vs[..j];
      count := count[vs[j] := (if vs[j] in count then count[vs[j]] else 0) + 1];
    }
    assert vs[..|vs|] == vs;
  }

  method AnalyzeRule(body: seq<Clause>) returns (join: set<string>)
    ensures IsJoinSet(body, join) && forall v :: v in join <==> HeldTwice(body, v)
  {
    hide HeldTwice;
    var count: map<string, nat> := map[];
    for i := 0 to |body|
      invariant forall v :: v in count ==> count[v] > 0
      invariant forall v :: (if v in count then count[v] else 0) == PositiveCount(body[..i], v)
    {
      assert body[..i + 1][..i] == body[..i];
      if body[i].Pos? {
        count := CountVars(count, ArgVars(body[i].atom.args));
      }
    }
    assert body[..|body|] == body;
    join := set v | v in count && count[v] > 1;
    JoinSetIff(body, join);
  }

  // --- Variable order ---

  // Appends to acc the variables of vs that are new and are (or are not) join variables.
  function AddNew(acc: seq<string>, vs: seq<string>, join: set<string>, joining: bool): (r: seq<string>)
    ensures acc <= r && (NoDup(acc) ==> NoDup(r))
    ensures forall v :: v in r <==> v in acc || (v in vs && (v in join) == joining)
    ensures forall k :: |acc| <= k < |r| ==> (r[k] in join) == joining
  {
    if |vs| == 0 then acc else
      var a := AddNew(acc, vs[..|vs| - 1], join, joining);
      var v := vs[|vs| - 1];
      if (v in join) == joining && v !in a then a + [v] else a
  }

  function AddClauses(acc: seq<string>, body: seq<Clause>, order: seq<nat>, join: set<string>,
                      joining: bool): (r: seq<string>)
    requires forall k :: 0 <= k < |order| ==> order[k] < |body|
    ensures acc <= r && (NoDup(acc) ==> NoDup(r))
    ensures forall v ::
      v in r <==>
      v in acc || ((v in join) == joining && exists k :: 0 <= k < |order| && v in ClauseVars(body[order[k]]))
    ensures forall k :: |acc| <= k < |r| ==> (r[k] in join) == joining
  {
    if |order| == 0 then acc else
      var init, last := order[..|order| - 1], order[|order| - 1];
      var a := AddClauses(acc, body, init, join, joining);
      assert order == init + [last];
      AddNew(a, ClauseVars(body[last]), join, joining)
  }

  function DeltaVars(body: seq<Clause>, join: set<string>, delta: int): seq<string> {
    if 0 <= delta < |body| then AddNew([], ClauseVars(body[delta]), join, true) else []
  }

  function VarOrder(body: seq<Clause>, order: seq<nat>, join: set<string>, delta: int): seq<string>
    requires forall k :: 0 <= k < |order| ==> order[k] < |body|
  {
    AddClauses(AddClauses(DeltaVars(body, join, delta), body, order, join, true), body, order, join, false)
  }

  method AddLoop(acc: seq<string>, vs: seq<string>, join: set<string>, joining: bool) returns (result: seq<string>)
    ensures result == AddNew(acc, vs, join, joining)
  {
    result := acc;
    for i := 0 to |vs|
      invariant result == AddNew(acc, vs[..i], join, joining)
    {
      assert vs[..i + 1][..i] == vs[..i];
      if (vs[i] in join) == joining && vs[i] !in result {
        result := result + [vs[i]];
      }
    }
    assert vs[..|vs|] == vs;
  }

  method AddClausesLoop(acc: seq<string>, body: seq<Clause>, order: seq<nat>, join: set<string>, joining: bool)
    returns (result: seq<string>)
    requires forall k :: 0 <= k < |order| ==> order[k] < |body|
    ensures result == AddClauses(acc, body, order, join, joining)
  {
    result := acc;
    for i := 0 to |order|
      invariant result == AddClauses(acc, body, order[..i], join, joining)
    {
      assert order[..i + 1][..i] == order[..i];
      result := AddLoop(result, ClauseVars(body[order[i]]), join, joining);
    }
    assert order[..|order|] == order;
  }

  method ComputeVarOrder(body: seq<Clause>, order: seq<nat>, join: set<string>, delta: int)
    returns (result: seq<string>)
    requires forall k :: 0 <= k < |order| ==> order[k] < |body|
    ensures result == VarOrder(body, order, join, delta)
  {
    result := [];
    if 0 <= delta < |body| {
      result := AddLoop(result, ClauseVars(body[delta]), join, true);
    }
    result := AddClausesLoop(result, body, order, join, true);
    result := AddClausesLoop(result, body, order, join, false);
  }

  // --- Join variables and variable order, read off the body ---

  ghost predicate TwoColumns(args: seq<Arg>, v: string) {
    exists c, d :: 0 <= c < d < |args| && args[c] == LVar(v) && args[d] == LVar(v)
  }

  ghost predicate AtomHas(body: seq<Clause>, i: nat, v: string) {
    i < |body| && body[i].Pos? && LVar(v) in body[i].atom.args
  }

  ghost predicate AtomHasTwice(body: seq<Clause>, i: nat, v: string) {
    i < |body| && body[i].Pos? && TwoColumns(body[i].atom.args, v)
  }

  // Two columns of positive atoms hold the variable.
  ghost predicate HeldTwice(body: seq<Clause>, v: string) {
    (exists i: nat :: AtomHasTwice(body, i, v)) || exists i: nat, j: nat ::
        i < j && AtomHas(body, i, v) && AtomHas(body, j, v)
  }

  lemma TwoColumnsLast(init: seq<Arg>, last: Arg, v: string)
    ensures TwoColumns(init + [last], v) <==> TwoColumns(init, v) || (last == LVar(v) && LVar(v) in init)
  {
    var args, m := init + [last], |init|;
    if c, d :| 0 <= c < d < m && init[c] == LVar(v) && init[d] == LVar(v) {
      assert args[c] == LVar(v) && args[d] == LVar(v);
    }
    if last == LVar(v) && LVar(v) in init {
      var c :| 0 <= c < m && init[c] == LVar(v);
      assert args[c] == LVar(v) && args[m] == LVar(v);
    }
    if c, d :| 0 <= c < d < |args| && args[c] == LVar(v) && args[d] == LVar(v) {
      assert init[c] == LVar(v);
      if d < m { assert init[d] == LVar(v); }
    }
  }

  lemma {:induction false} ColumnCount(args: seq<Arg>, v: string)
    ensures CountOf(ArgVars(args), v) > 0 <==> LVar(v) in args
    ensures CountOf(ArgVars(args), v) > 1 <==> TwoColumns(args, v)
  {
    if |args| > 0 {
      var m: nat := |args| - 1;
      var init, last := args[..m], args[m];
      assert args == init + [last];
      ColumnCount(init, v);
      TwoColumnsLast(init, last, v);
      assert ArgVars(args) == ArgVars(init) + if last.LVar? then [last.name] else [];
      assert ArgVars(init) + [] == ArgVars(init);
      hide TwoColumns, ArgVars, CountOf;
      if last.LVar? { CountOfLast(ArgVars(init), last.name, v); }
    }
  }

  lemma CountOfLast(vs: seq<string>, x: string, v: string)
    ensures CountOf(vs + [x], v) == CountOf(vs, v) + if x == v then 1 else 0
  {
    assert (vs + [x])[..|vs|] == vs;
  }

  ghost predicate SomeAtomHas(body: seq<Clause>, v: string) {
    exists i: nat :: AtomHas(body, i, v)
  }

  lemma HeldLast(init: seq<Clause>, last: Clause, v: string)
    ensures var once := last.Pos? && LVar(v) in last.atom.args;
      && (SomeAtomHas(init + [last], v) <==> SomeAtomHas(init, v) || once)
      && (HeldTwice(init + [last], v) <==>
            HeldTwice(init, v) || (last.Pos? && TwoColumns(last.atom.args, v)) || (once && SomeAtomHas(init, v)))
  {
    var body, m := init + [last], |init|;
    forall i: nat ensures AtomHas(body, i, v) <==>
        AtomHas(init, i, v) || (i == m && last.Pos? && LVar(v) in last.atom.args) {}
    forall i: nat ensures AtomHasTwice(body, i, v) <==>
        AtomHasTwice(init, i, v) || (i == m && last.Pos? && TwoColumns(last.atom.args, v)) {}
    assert forall i: nat :: AtomHas(init, i, v) || AtomHasTwice(init, i, v) ==> i < m;
    hide AtomHas, AtomHasTwice, TwoColumns;
    if i: nat :| AtomHas(init, i, v) { assert AtomHas(body, i, v); }
    if last.Pos? && LVar(v) in last.atom.args { assert AtomHas(body, m, v); }
    if last.Pos? && TwoColumns(last.atom.args, v) { assert AtomHasTwice(body, m, v); }
    if i: nat :| AtomHasTwice(init, i, v) { assert AtomHasTwice(body, i, v); }
    if i: nat, j: nat :| i < j && AtomHas(init, i, v) && AtomHas(init, j, v) {
      assert AtomHas(body, i, v) && AtomHas(body, j, v);
    }
  }

  lemma {:induction false} PositiveCountIff(body: seq<Clause>, v: string)
    ensures PositiveCount(body, v) > 0 <==> SomeAtomHas(body, v)
    ensures PositiveCount(body, v) > 1 <==> HeldTwice(body, v)
  {
    if |body| > 0 {
      var m: nat := |body| - 1;
      var init, last := body[..m], body[m];
      assert body == init + [last];
      PositiveCountIff(init, v);
      if last.Pos? { ColumnCount(last.atom.args, v); }
      HeldLast(init, last, v);
      hide CountOf, SomeAtomHas, HeldTwice, TwoColumns, ArgVars;
    }
  }

  // The join variables are exactly those that two columns of positive atoms hold.
  lemma JoinSetIff(body: seq<Clause>, join: set<string>)
    ensures IsJoinSet(body, join) <==> forall v :: v in join <==> HeldTwice(body, v)
  {
    forall v ensures PositiveCount(body, v) > 1 <==> HeldTwice(body, v) { PositiveCountIff(body, v); }
    hide PositiveCount, HeldTwice;
  }

  // Position c of the clause holds the variable: a column of an atom or negation, a place in what a filter reads, or
  // the variable a let binds.
  ghost predicate HasAt(clause: Clause, c: nat, v: string) {
    match clause
    case Pos(a) => c < |a.args| && a.args[c] == LVar(v)
    case Neg(a) => c < |a.args| && a.args[c] == LVar(v)
    case Filter(vs, _) => c < |vs| && vs[c] == v
    case Let(x, _, _) => c == 0 && v == x
  }

  ghost predicate ClauseHolds(clause: Clause, v: string) {
    exists c: nat :: HasAt(clause, c, v)
  }

  ghost predicate HeldBefore(clause: Clause, c: nat, v: string) {
    exists b: nat :: b < c && HasAt(clause, b, v)
  }

  // Each variable stands in the clause before every place of the later ones.
  ghost predicate ByColumn(s: seq<string>, clause: Clause) {
    forall k, l, c: nat :: 0 <= k < l < |s| && HasAt(clause, c, s[l]) ==> HeldBefore(clause, c, s[k])
  }

  // The scheduled clause at position p, or an earlier one, holds the variable, at p itself before place c.
  ghost predicate HeldSooner(body: seq<Clause>, order: seq<nat>, p: nat, c: nat, v: string) {
    p < |order| && ((exists q: nat :: q < p && ScheduledHolds(body, order, q, v)) ||
                    (order[p] < |body| && HeldBefore(body[order[p]], c, v)))
  }

  ghost predicate ScheduledHolds(body: seq<Clause>, order: seq<nat>, p: nat, v: string) {
    p < |order| && order[p] < |body| && ClauseHolds(body[order[p]], v)
  }

  ghost predicate ByClause(s: seq<string>, body: seq<Clause>, order: seq<nat>) {
    forall k, l, p: nat, c: nat ::
      0 <= k < l < |s| && p < |order| && order[p] < |body| && HasAt(body[order[p]], c, s[l]) ==>
        HeldSooner(body, order, p, c, s[k])
  }

  lemma ClauseHoldsIff(clause: Clause, v: string)
    ensures ClauseHolds(clause, v) <==> v in ClauseVars(clause)
  {
    if v in ClauseVars(clause) {
      match clause
      case Pos(a) => var c: nat :| c < |a.args| && a.args[c] == LVar(v); assert HasAt(clause, c, v);
      case Neg(a) => var c: nat :| c < |a.args| && a.args[c] == LVar(v); assert HasAt(clause, c, v);
      case Filter(vs, _) => var c: nat :| c < |vs| && vs[c] == v; assert HasAt(clause, c, v);
      case Let(_, _, _) => assert HasAt(clause, 0, v);
    }
  }

  // The variables of the first columns are the first of the variables.
  lemma {:induction false} ArgVarsPrefix(args: seq<Arg>, c: nat)
    requires c <= |args|
    ensures ArgVars(args[..c]) <= ArgVars(args)
  {
    if c < |args| {
      var m: nat := |args| - 1;
      ArgVarsPrefix(args[..m], c);
      assert args[..m][..c] == args[..c];
    } else {
      assert args[..c] == args;
    }
  }

  // What stands in the list before every place of v stands in the clause before v's place.
  ghost predicate ListedSooner(vs: seq<string>, u: string, v: string) {
    forall j :: 0 <= j < |vs| && vs[j] == v ==> u in vs[..j]
  }

  lemma SoonerColumn(args: seq<Arg>, c: nat, u: string, v: string)
    requires c < |args| && args[c] == LVar(v) && ListedSooner(ArgVars(args), u, v)
    ensures LVar(u) in args[..c]
  {
    var next := c + 1;
    var j := |ArgVars(args[..c])|;
    ArgVarsPrefix(args, c);
    ArgVarsPrefix(args, next);
    assert args[..next][..c] == args[..c] && ArgVars(args[..next]) == ArgVars(args[..c]) + [v];
    assert ArgVars(args)[j] == v && ArgVars(args)[..j] == ArgVars(args[..c]);
  }

  lemma SoonerPlace(clause: Clause, c: nat, u: string, v: string)
    requires HasAt(clause, c, v) && ListedSooner(ClauseVars(clause), u, v)
    ensures HeldBefore(clause, c, u)
  {
    match clause {
      case Pos(a) =>
        SoonerColumn(a.args, c, u, v);
        var b: nat :| b < c && a.args[b] == LVar(u);
        assert HasAt(clause, b, u);
      case Neg(a) =>
        SoonerColumn(a.args, c, u, v);
        var b: nat :| b < c && a.args[b] == LVar(u);
        assert HasAt(clause, b, u);
      case Filter(vs, _) =>
        assert u in vs[..c];
        var b: nat :| b < c && vs[b] == u;
        assert HasAt(clause, b, u);
      case Let(_, _, _) =>
    }
  }

  lemma {:induction false} AddNewOrder(acc: seq<string>, vs: seq<string>, join: set<string>, joining: bool, k: nat,
                                       l: nat)
    requires NoDup(acc) && |acc| <= k < l < |AddNew(acc, vs, join, joining)|
    ensures ListedSooner(vs, AddNew(acc, vs, join, joining)[k], AddNew(acc, vs, join, joining)[l])
  {
    var m: nat := |vs| - 1;
    var init, v := vs[..m], vs[m];
    var a, r := AddNew(acc, init, join, joining), AddNew(acc, vs, join, joining);
    AddedAreNew(acc, a);
    if l < |a| {
      AddNewOrder(acc, init, join, joining, k, l);
      forall j | 0 <= j < |vs| && vs[j] == r[l] ensures r[k] in vs[..j] {
        if j < m {
          assert init[..j] == vs[..j] && init[j] == r[l];
        } else {
          assert a[l] !in acc;
          var i :| 0 <= i < m && init[i] == r[l];
          assert r[k] in init[..i];
        }
      }
    } else {
      assert a[k] !in acc && v !in init && r[k] in init;
      assert forall i :: 0 <= i < m ==> vs[i] == init[i];
    }
  }

  lemma AddedAreNew(acc: seq<string>, r: seq<string>)
    requires NoDup(r) && acc <= r
    ensures forall k :: |acc| <= k < |r| ==> r[k] !in acc
  {
    forall i, k | 0 <= i < |acc| <= k < |r| ensures acc[i] != r[k] {
      assert r[i] == acc[i];
    }
  }

  // What an extension adds is ordered by first place.
  lemma {:induction false} AddClausesOrder(acc: seq<string>, body: seq<Clause>, order: seq<nat>, join: set<string>,
                                           joining: bool, k: nat, l: nat, p: nat, c: nat)
    requires forall k :: 0 <= k < |order| ==> order[k] < |body|
    requires NoDup(acc) && |acc| <= k < l < |AddClauses(acc, body, order, join, joining)| && p < |order|
    requires HasAt(body[order[p]], c, AddClauses(acc, body, order, join, joining)[l])
    ensures HeldSooner(body, order, p, c, AddClauses(acc, body, order, join, joining)[k])
  {
    hide *;
    var m: nat := |order| - 1;
    var init, last := order[..m], order[m];
    var a, r := AddClauses(acc, body, init, join, joining), AddClauses(acc, body, order, join, joining);
    ClausesStep(acc, body, order, join, joining);
    assert init <= order;
    if l < |a| {
      assert a[l] == r[l] && a[k] == r[k];
      if p < m {
        assert init[p] == order[p];
        AddClausesOrder(acc, body, init, join, joining, k, l, p, c);
        SoonerLifts(body, init, order, p, c, r[k]);
      } else {
        var q, b := AddedFrom(acc, body, init, join, joining, l);
        AddClausesOrder(acc, body, init, join, joining, k, l, q, b);
        SoonerThere(body, init, order, q, b, p, c, r[k]);
      }
    } else {
      AddedAreNew(a, r);
      HasListed(body[order[p]], c, r[l]);
      NewInLast(acc, body, order, join, joining, l, p);
      if k < |a| {
        assert a[k] == r[k];
        var q, b := AddedFrom(acc, body, init, join, joining, k);
        HereSooner(body, init, order, q, b, p, c, r[k]);
      } else {
        AddNewOrder(a, ClauseVars(body[last]), join, joining, k, l);
        SoonerPlace(body[last], c, r[k], r[l]);
        MakeSooner(body, order, p, c, r[k]);
      }
    }
  }

  lemma ClausesStep(acc: seq<string>, body: seq<Clause>, order: seq<nat>, join: set<string>, joining: bool)
    requires order != [] && forall k :: 0 <= k < |order| ==> order[k] < |body|
    ensures var a := AddClauses(acc, body, order[..|order| - 1], join, joining);
      && AddClauses(acc, body, order, join, joining)
           == AddNew(a, ClauseVars(body[order[|order| - 1]]), join, joining)
      && a <= AddClauses(acc, body, order, join, joining)
      && (NoDup(acc) ==> NoDup(a) && NoDup(AddClauses(acc, body, order, join, joining)))
  {
    hide AddNew, ClauseVars;
  }

  lemma HasListed(clause: Clause, c: nat, v: string)
    requires HasAt(clause, c, v)
    ensures v in ClauseVars(clause)
  {}

  lemma MakeSooner(body: seq<Clause>, order: seq<nat>, p: nat, c: nat, v: string)
    requires p < |order| && order[p] < |body| && HeldBefore(body[order[p]], c, v)
    ensures HeldSooner(body, order, p, c, v)
  {}

  lemma SoonerLifts(body: seq<Clause>, init: seq<nat>, order: seq<nat>, p: nat, c: nat, v: string)
    requires init <= order && HeldSooner(body, init, p, c, v)
    ensures HeldSooner(body, order, p, c, v)
  {
    if q: nat :| q < p && ScheduledHolds(body, init, q, v) { assert ScheduledHolds(body, order, q, v); }
  }

  lemma SoonerThere(body: seq<Clause>, init: seq<nat>, order: seq<nat>, q: nat, b: nat, p: nat, c: nat, v: string)
    requires init <= order && q < p < |order| && HeldSooner(body, init, q, b, v) && order[q] < |body|
    ensures HeldSooner(body, order, p, c, v)
  {
    if HeldBefore(body[init[q]], b, v) {
      assert ScheduledHolds(body, order, q, v);
    } else {
      var i: nat :| i < q && ScheduledHolds(body, init, i, v);
      assert ScheduledHolds(body, order, i, v);
    }
  }

  lemma HereSooner(body: seq<Clause>, init: seq<nat>, order: seq<nat>, q: nat, b: nat, p: nat, c: nat, v: string)
    requires init <= order && q < |init| && q < p < |order| && init[q] < |body| && HasAt(body[init[q]], b, v)
    ensures HeldSooner(body, order, p, c, v)
  {
    assert ScheduledHolds(body, order, q, v);
  }

  // Where an added variable comes from.
  lemma AddedFrom(acc: seq<string>, body: seq<Clause>, order: seq<nat>, join: set<string>, joining: bool, l: nat)
    returns (p: nat, c: nat)
    requires forall k :: 0 <= k < |order| ==> order[k] < |body|
    requires NoDup(acc) && |acc| <= l < |AddClauses(acc, body, order, join, joining)|
    ensures p < |order| && HasAt(body[order[p]], c, AddClauses(acc, body, order, join, joining)[l])
  {
    AddedAreNew(acc, AddClauses(acc, body, order, join, joining));
    var v := AddClauses(acc, body, order, join, joining)[l];
    assert v !in acc;
    p :| 0 <= p < |order| && v in ClauseVars(body[order[p]]);
    hide AddClauses;
    ClauseHoldsIff(body[order[p]], v);
    c :| HasAt(body[order[p]], c, v);
  }

  // A variable that only the last clause adds is in no earlier one.
  lemma NewInLast(acc: seq<string>, body: seq<Clause>, order: seq<nat>, join: set<string>, joining: bool, l: nat,
                  p: nat)
    requires |order| > 0 && forall k :: 0 <= k < |order| ==> order[k] < |body|
    requires var a, r :=
        AddClauses(acc, body, order[..|order| - 1], join, joining), AddClauses(acc, body, order, join, joining);
      |a| <= l < |r| && r[l] !in a && p < |order| && r[l] in ClauseVars(body[order[p]])
    ensures p == |order| - 1
  {
    var init := order[..|order| - 1];
    if p < |init| { assert init[p] == order[p]; }
  }

  // The variable order: first the delta clause's join variables, by column; then the other join variables and after
  // them the others, both by the scheduled clause that first holds them and by column.
  lemma VarOrderIs(body: seq<Clause>, order: seq<nat>, join: set<string>, delta: int) returns (d: nat, n: nat)
    requires forall k :: 0 <= k < |order| ==> order[k] < |body|
    ensures var r := VarOrder(body, order, join, delta);
      && d <= n <= |r| && NoDup(r)
      && (forall v :: v in r[..d] <==> v in join && 0 <= delta < |body| && ClauseHolds(body[delta], v))
      && (forall v :: v in r[d..n] <==>
            v in join && v !in r[..d] && exists p: nat :: ScheduledHolds(body, order, p, v))
      && (forall v :: v in r[n..] <==> v !in join && exists p: nat :: ScheduledHolds(body, order, p, v))
      && (0 <= delta < |body| ==> ByColumn(r[..d], body[delta]))
      && ByClause(r[d..n], body, order) && ByClause(r[n..], body, order)
  {
    var start := DeltaVars(body, join, delta);
    var joined := AddClauses(start, body, order, join, true);
    var r := VarOrder(body, order, join, delta);
    d, n := |start|, |joined|;
    assert r[..d] == start && r[..n] == joined;
    DeltaVarsAre(body, join, delta);
    AddedAre(start, body, order, join, true);
    AddedAre(joined, body, order, join, false);
    assert r[d..n] == joined[d..];
  }

  lemma DeltaVarsAre(body: seq<Clause>, join: set<string>, delta: int)
    ensures var start := DeltaVars(body, join, delta);
      && NoDup(start)
      && (forall v :: v in start <==> v in join && 0 <= delta < |body| && ClauseHolds(body[delta], v))
      && (0 <= delta < |body| ==> ByColumn(start, body[delta]))
  {
    var start := DeltaVars(body, join, delta);
    if 0 <= delta < |body| {
      var clause := body[delta];
      forall v ensures ClauseHolds(clause, v) <==> v in ClauseVars(clause) { ClauseHoldsIff(clause, v); }
      forall k, l, c: nat | 0 <= k < l < |start| && HasAt(clause, c, start[l]) ensures HeldBefore(clause, c, start[k]) {
        AddNewOrder([], ClauseVars(clause), join, true, k, l);
        SoonerPlace(clause, c, start[k], start[l]);
      }
    }
  }

  lemma AddedAre(acc: seq<string>, body: seq<Clause>, order: seq<nat>, join: set<string>, joining: bool)
    requires NoDup(acc)
    requires forall k :: 0 <= k < |order| ==> order[k] < |body|
    ensures var r := AddClauses(acc, body, order, join, joining);
      && (forall v :: v in r[|acc|..] <==>
            (v in join) == joining && v !in acc && exists p: nat :: ScheduledHolds(body, order, p, v))
      && ByClause(r[|acc|..], body, order)
  {
    hide *;
    AddedNames(acc, body, order, join, joining);
    var added := AddClauses(acc, body, order, join, joining)[|acc|..];
    forall k, l, p: nat, c: nat |
      0 <= k < l < |added| && p < |order| && order[p] < |body| && HasAt(body[order[p]], c, added[l])
      ensures HeldSooner(body, order, p, c, added[k])
    {
      AddedSooner(acc, body, order, join, joining, k, l, p, c);
    }
    MakeByClause(added, body, order);
  }

  lemma AddedSooner(acc: seq<string>, body: seq<Clause>, order: seq<nat>, join: set<string>, joining: bool, k: nat,
                    l: nat, p: nat, c: nat)
    requires NoDup(acc) && forall k :: 0 <= k < |order| ==> order[k] < |body|
    requires k < l < |AddClauses(acc, body, order, join, joining)[|acc|..]| && p < |order|
    requires HasAt(body[order[p]], c, AddClauses(acc, body, order, join, joining)[|acc|..][l])
    ensures HeldSooner(body, order, p, c, AddClauses(acc, body, order, join, joining)[|acc|..][k])
  {
    hide *;
    AddClausesOrder(acc, body, order, join, joining, |acc| + k, |acc| + l, p, c);
  }

  lemma MakeByClause(s: seq<string>, body: seq<Clause>, order: seq<nat>)
    requires forall k, l, p: nat, c: nat ::
      0 <= k < l < |s| && p < |order| && order[p] < |body| && HasAt(body[order[p]], c, s[l]) ==>
        HeldSooner(body, order, p, c, s[k])
    ensures ByClause(s, body, order)
  {
    hide HasAt, HeldSooner;
  }

  lemma AddedNames(acc: seq<string>, body: seq<Clause>, order: seq<nat>, join: set<string>, joining: bool)
    requires NoDup(acc)
    requires forall k :: 0 <= k < |order| ==> order[k] < |body|
    ensures var r := AddClauses(acc, body, order, join, joining);
      forall v :: v in r[|acc|..] <==>
        (v in join) == joining && v !in acc && exists p: nat :: ScheduledHolds(body, order, p, v)
  {
    var r := AddClauses(acc, body, order, join, joining);
    var added := r[|acc|..];
    AddedAreNew(acc, r);
    forall v, p: nat ensures ScheduledHolds(body, order, p, v) <==> p < |order| && v in ClauseVars(body[order[p]]) {
      if p < |order| { ClauseHoldsIff(body[order[p]], v); }
    }
    assert r == acc + added;
    forall v | v in added ensures v !in acc {
      var k :| 0 <= k < |added| && added[k] == v;
      assert r[|acc| + k] == v;
    }
    hide ClauseVars, ScheduledHolds, AddClauses;
  }

  // --- Access patterns ---

  datatype AccessPattern = AccessPattern(rel: string, version: Version, accessOrder: seq<string>, indexCols: seq<nat>,
                                         prefixLen: nat, clauseIdx: nat, constArgs: seq<(nat, int)>)

  // The first column that holds v, or the arity if none does.
  function ColumnOf(args: seq<Arg>, v: string): (c: nat)
    ensures c <= |args| && (c < |args| ==> args[c] == LVar(v))
    ensures c == |args| <==> LVar(v) !in args
  {
    if |args| == 0 then 0
    else if args[0] == LVar(v) then 0
    else 1 + ColumnOf(args[1..], v)
  }

  function VarColumns(args: seq<Arg>, order: seq<string>): (cols: seq<nat>)
    ensures forall c :: c in cols ==> c < |args|
  {
    if |order| == 0 then [] else
      var c := ColumnOf(args, order[|order| - 1]);
      VarColumns(args, order[..|order| - 1]) + if c < |args| then [c] else []
  }

  // Appends the missing columns below n in ascending order: complete_index.
  function CompleteIndex(cols: seq<nat>, n: nat): (r: seq<nat>)
    ensures cols <= r && forall c: nat :: c in r <==> c in cols || c < n
    ensures NoDup(cols) ==> NoDup(r)
  {
    if n == 0 then cols else
      var r := CompleteIndex(cols, n - 1);
      if n - 1 in r then r else r + [n - 1]
  }

  // The columns from position k on ascend, and are less than n.
  ghost predicate AscendsFrom(r: seq<nat>, k: nat, n: nat) {
    (forall i :: k <= i < |r| ==> r[i] < n) && forall i, j :: k <= i < j < |r| ==> r[i] < r[j]
  }

  lemma {:induction false} CompleteAscends(cols: seq<nat>, n: nat)
    ensures AscendsFrom(CompleteIndex(cols, n), |cols|, n)
  {
    if n > 0 {
      CompleteAscends(cols, n - 1);
      AscendsOn(CompleteIndex(cols, n - 1), |cols|, n - 1);
    }
  }

  lemma AscendsOn(r: seq<nat>, k: nat, m: nat)
    requires AscendsFrom(r, k, m)
    ensures AscendsFrom(r, k, m + 1) && AscendsFrom(r + [m], k, m + 1)
  {}

  function ConstArgs(args: seq<Arg>, n: nat): seq<(nat, int)>
    requires n <= |args|
  {
    if n == 0 then [] else ConstArgs(args, n - 1) + if args[n - 1].Const? then [(n - 1, args[n - 1].value)] else []
  }

  function ConstCols(consts: seq<(nat, int)>): seq<nat> {
    seq(|consts|, k requires 0 <= k < |consts| => consts[k].0)
  }

  function NonWildcards(order: seq<string>): nat {
    if |order| == 0 then 0 else NonWildcards(order[..|order| - 1]) + if IsWildcard(order[|order| - 1]) then 0 else 1
  }

  ghost function AccessOrder(args: seq<Arg>, varOrder: seq<string>): seq<string> {
    var vars := Elems(ArgVars(args));
    var kept := KeepIn(varOrder, vars);
    kept + Names.Sorted(vars - Elems(kept))
  }

  ghost function Pattern(c: Clause, version: Version, join: set<string>, varOrder: seq<string>, k: nat): AccessPattern
    requires c.Pos? || c.Neg?
  {
    var args := c.atom.args;
    var order := AccessOrder(args, varOrder);
    var consts := ConstArgs(args, |args|);
    var cols := CompleteIndex(VarColumns(args, order), |args|);
    AccessPattern(c.atom.rel, version, order,
      if c.Neg? then ConstCols(consts) + KeepIn(cols, Range(|args|) - Elems(ConstCols(consts))) else cols,
      if c.Pos? then |KeepIn(order, join)| else NonWildcards(order), k, consts)
  }

  method FindColumn(args: seq<Arg>, v: string) returns (c: nat)
    ensures c == ColumnOf(args, v)
  {
    c := 0;
    while c < |args|
      invariant c <= |args| && ColumnOf(args, v) == c + ColumnOf(args[c..], v)
    {
      if args[c] == LVar(v) { return; }
      assert args[c..][1..] == args[c + 1..];
      c := c + 1;
    }
  }

  method IndexColumns(args: seq<Arg>, order: seq<string>) returns (cols: seq<nat>)
    ensures cols == CompleteIndex(VarColumns(args, order), |args|)
  {
    cols := [];
    for i := 0 to |order|
      invariant cols == VarColumns(args, order[..i])
    {
      assert order[..i + 1][..i] == order[..i];
      var c := FindColumn(args, order[i]);
      if c < |args| { cols := cols + [c]; }
    }
    assert order[..|order|] == order;
    ghost var varCols := cols;
    for c := 0 to |args|
      invariant cols == CompleteIndex(varCols, c)
    {
      if c !in cols { cols := cols + [c]; }
    }
  }

  method ComputeAccessPattern(c: Clause, version: Version, join: set<string>, varOrder: seq<string>, k: nat)
    returns (p: AccessPattern)
    requires c.Pos? || c.Neg?
    ensures p == Pattern(c, version, join, varOrder, k)
  {
    var args := c.atom.args;
    var clauseVars := Elems(ArgVars(args));
    var consts := ConstArgs(args, |args|);
    var accessOrder := KeepIn(varOrder, clauseVars);
    var rest := Names.SortNames(clauseVars - Elems(accessOrder));
    accessOrder := accessOrder + rest;
    var prefixLen := if c.Pos? then |KeepIn(accessOrder, join)| else NonWildcards(accessOrder);
    var cols := IndexColumns(args, accessOrder);
    if c.Neg? {
      var constCols := ConstCols(consts);
      cols := constCols + KeepIn(cols, Range(|args|) - Elems(constCols));
    }
    p := AccessPattern(c.atom.rel, version, accessOrder, cols, prefixLen, k, consts);
  }

  // --- The plan of a variant ---

  datatype Plan = Plan(clauseOrder: seq<nat>, varOrder: seq<string>, join: set<string>,
                       access: seq<AccessPattern>, negations: seq<AccessPattern>)

  ghost function AccessPatterns(body: seq<Clause>, versions: seq<Version>, join: set<string>, varOrder: seq<string>,
                                n: nat): seq<AccessPattern>
    requires n <= |body| == |versions|
  {
    if n == 0 then [] else
      AccessPatterns(body, versions, join, varOrder, n - 1) +
      if body[n - 1].Pos? then [Pattern(body[n - 1], versions[n - 1], join, varOrder, n - 1)] else []
  }

  ghost function NegationPatterns(body: seq<Clause>, join: set<string>, varOrder: seq<string>,
                                  n: nat): seq<AccessPattern>
    requires n <= |body|
  {
    if n == 0 then [] else
      NegationPatterns(body, join, varOrder, n - 1) +
      if body[n - 1].Neg? then [Pattern(body[n - 1], FULL, join, varOrder, n - 1)] else []
  }

  // The default plan: no user-supplied orders.
  ghost predicate IsDefaultPlan(v: Variant, plan: Plan)
    requires |v.versions| == |v.rule.body|
  {
    && IsGreedy(v.rule.body, v.deltaIdx, plan.clauseOrder) && IsPermutation(plan.clauseOrder, |v.rule.body|)
    && IsJoinSet(v.rule.body, plan.join)
    && plan.varOrder == VarOrder(v.rule.body, plan.clauseOrder, plan.join, v.deltaIdx)
    && plan.access == AccessPatterns(v.rule.body, v.versions, plan.join, plan.varOrder, |v.rule.body|)
    && plan.negations == NegationPatterns(v.rule.body, plan.join, plan.varOrder, |v.rule.body|)
  }

  method PlanVariant(v: Variant) returns (plan: Plan)
    requires |v.versions| == |v.rule.body|
    ensures IsDefaultPlan(v, plan)
  {
    var body := v.rule.body;
    var join := AnalyzeRule(body);
    var clauseOrder := ComputeClauseOrder(body, v.deltaIdx);
    var varOrder := ComputeVarOrder(body, clauseOrder, join, v.deltaIdx);
    var access: seq<AccessPattern>, negations: seq<AccessPattern> := [], [];
    for k := 0 to |body|
      invariant access == AccessPatterns(body, v.versions, join, varOrder, k)
      invariant negations == NegationPatterns(body, join, varOrder, k)
    {
      if body[k].Pos? || body[k].Neg? {
        var pattern := ComputeAccessPattern(body[k], if body[k].Neg? then FULL else v.versions[k], join, varOrder, k);
        if body[k].Neg? {
          negations := negations + [pattern];
        } else {
          access := access + [pattern];
        }
      }
    }
    plan := Plan(clauseOrder, varOrder, join, access, negations);
  }
}
