/** From the rules as a user writes them to what the compiled program stores. */
module WrittenProgram {
  import opened Datalog
  import opened StableModel
  import opened ClauseOrder
  import opened Lowering
  import opened Freshness
  import opened CompiledProgram
  import opened WholeProgram
  import opened EndToEnd
  import opened StratifyCorrect
  import opened RuleRewrite
  import opened LoweringTheorem

  // ========== Written rules ==========

  // The rules as written: when the source rewrites put them in the lowering's scope.

  // --- Rules as a user may write them ---

  // No two arguments are the same named variable; wildcards and constants may repeat.
  ghost predicate DistinctNamed(args: seq<Arg>) {
    forall i, j :: 0 <= i < j < |args| && args[i].LVar? && !IsHole(args[i]) ==> args[i] != args[j]
  }

  // The variables that positive atoms bind.
  function AtomNames(body: seq<Clause>): set<string> {
    if |body| == 0 then {} else
      AtomNames(body[..|body| - 1]) + if body[|body| - 1].Pos? then ArgNames(body[|body| - 1].atom.args) else {}
  }

  ghost predicate ClauseOk(c: Clause, atoms: set<string>, lets: set<string>) {
    match c
    case Pos(a) => |a.rel| > 0 && DistinctNamed(a.args)
    case Neg(a) => DistinctNamed(a.args) && forall v :: v in ArgNames(a.args) ==> IsWildcard(v) || v in atoms
    case Filter(vs, _) => forall v :: v in vs ==> v in atoms || v in lets
    case Let(x, _, deps) => (forall v :: v in deps ==> v in atoms || v in lets) && x !in atoms && x !in lets
  }

  // In source order, negations, filters and lets use what atoms and earlier lets bind; a let binds a new variable.
  ghost predicate BodyOk(body: seq<Clause>, atoms: set<string>) {
    |body| > 0 ==>
      BodyOk(body[..|body| - 1], atoms) && ClauseOk(body[|body| - 1], atoms, LetVars(body[..|body| - 1]))
  }

  ghost predicate Writable(rule: Rule) {
    BodyOk(rule.body, AtomNames(rule.body)) && HeadNames(rule.heads) <= AtomNames(rule.body) + LetVars(rule.body)
  }

  // The three rewrites, each with its own counter.
  function Rewritten(rule: Rule, n1: nat, n2: nat, n3: nat): Rule {
    var a := WildRule(rule, n1).0;
    HeadRule(Rule(a.heads, ConstBody(a.body, n2).0), n3).0
  }

  // --- Lists of clauses, one clause at a time ---

  lemma Push(body: seq<Clause>, c: Clause, atoms: set<string>)
    ensures BodyOk(body + [c], atoms) <==> BodyOk(body, atoms) && ClauseOk(c, atoms, LetVars(body))
    ensures AtomNames(body + [c]) == AtomNames(body) + if c.Pos? then ArgNames(c.atom.args) else {}
    ensures LetVars(body + [c]) == LetVars(body) + if c.Let? then {c.bound} else {}
  {
    assert (body + [c])[..|body|] == body;
  }

  // --- Wildcards ---

  ghost predicate SamePlain(a: set<string>, b: set<string>) {
    forall v :: !IsWildcard(v) ==> (v in a <==> v in b)
  }

  lemma WildNames(args: seq<Arg>, n: nat)
    ensures SamePlain(ArgNames(WildArgs(args, n).0), ArgNames(args))
    ensures DistinctNamed(WildArgs(args, n).0) <==> DistinctNamed(args)
  {
    WildArgsNames(args, n);
    var r := WildArgs(args, n).0;
    hide WildArgs;
    forall v | !IsWildcard(v) ensures v in ArgNames(r) <==> v in ArgNames(args) {
      if k :| 0 <= k < |args| && args[k].LVar? && args[k].name == v { assert r[k] == args[k]; }
      if k :| 0 <= k < |r| && r[k].LVar? && r[k].name == v { assert r[k] == args[k]; }
    }
  }

  lemma WildClauseOk(c: Clause, n: nat, atoms: set<string>, atoms2: set<string>, lets: set<string>)
    requires PlainInline(c) && SamePlain(atoms, atoms2)
    ensures ClauseOk(WildClause(c, n).0, atoms2, lets) <==> ClauseOk(c, atoms, lets)
  {
    if c.Pos? || c.Neg? { WildNames(c.atom.args, n); }
    if c.Filter? { assert forall v :: v in c.vars ==> v in ClauseNames(c); }
    if c.Let? {
      assert c.bound in ClauseNames(c);
      assert forall v :: v in c.deps ==> v in ClauseNames(c);
    }
  }

  lemma {:induction false} WildBodyOk(body: seq<Clause>, n: nat, atoms: set<string>, atoms2: set<string>)
    requires InlinePlain(body) && SamePlain(atoms, atoms2)
    ensures BodyOk(WildBody(body, n).0, atoms2) <==> BodyOk(body, atoms)
    ensures LetVars(WildBody(body, n).0) == LetVars(body) && SamePlain(AtomNames(WildBody(body, n).0), AtomNames(body))
  {
    hide ArgNames, DistinctNamed;
    if |body| > 0 {
      var m := |body| - 1;
      var before := WildBody(body[..m], n);
      var c := WildClause(body[m], before.1).0;
      WildBodyOk(body[..m], n, atoms, atoms2);
      WildClauseOk(body[m], before.1, atoms, atoms2, LetVars(body[..m]));
      if body[m].Pos? { WildNames(body[m].atom.args, before.1); }
      assert body == body[..m] + [body[m]];
      hide ClauseOk, BodyOk, PlainInline, AtomNames, LetVars, WildArgs;
      Push(before.0, c, atoms2);
      Push(body[..m], body[m], atoms);
    }
  }

  // --- Body constants ---

  ghost predicate SameOff(prefix: string, a: set<string>, b: set<string>) {
    forall v :: !HasPrefix(prefix, v) ==> (v in a <==> v in b)
  }

  lemma NamedArgs(prefix: string, args: seq<Arg>, n: nat)
    requires NoNames(prefix, ArgNames(args))
    ensures var r := NameConsts(prefix, args, n);
      SameOff(prefix, ArgNames(r.args), ArgNames(args)) && AllVars(r.args) && forall v ::
          v in ArgNames(r.args) && HasPrefix(prefix, v) ==> v in r.vars
  {
    var r := NameConsts(prefix, args, n);
    NameConstsFacts(prefix, args, n);
    hide NameConsts, Name;
    forall k | 0 <= k < |args| ensures r.args[k].LVar? { assert NamedAt(r, args, k); }
    forall v | v in ArgNames(r.args) ensures if HasPrefix(prefix, v) then v in r.vars else v in ArgNames(args) {
      var k :| 0 <= k < |r.args| && r.args[k].LVar? && r.args[k].name == v;
      assert NamedAt(r, args, k);
      if args[k].LVar? {
        assert v in ArgNames(args);
      } else {
        var j :| 0 <= j < |r.vars| && r.args[k] == LVar(r.vars[j]) && r.values[j] == args[k].value;
        VarsHavePrefix(prefix, r.vars, n, j);
      }
    }
    forall v | v in ArgNames(args) ensures v in ArgNames(r.args) {
      var k :| 0 <= k < |args| && args[k].LVar? && args[k].name == v;
      assert NamedAt(r, args, k);
    }
  }

  lemma VarsHavePrefix(prefix: string, vars: seq<string>, n: nat, j: nat)
    requires j < |vars| && vars[j] == Name(prefix, n + j)
    ensures HasPrefix(prefix, vars[j])
  {
    NameInjective(prefix, n + j, n + j);
  }

  lemma NamedDistinct(prefix: string, args: seq<Arg>, n: nat)
    requires prefix == C || prefix == HC
    ensures DistinctNamed(NameConsts(prefix, args, n).args) <==> DistinctNamed(args)
  {
    var r := NameConsts(prefix, args, n);
    NameConstsFacts(prefix, args, n);
    hide NameConsts, Name;
    forall k | 0 <= k < |args| ensures if args[k].Const? then IsHole(r.args[k]) else r.args[k] == args[k] {
      assert NamedAt(r, args, k);
      if args[k].Const? {
        var j :| 0 <= j < |r.vars| && r.args[k] == LVar(r.vars[j]) && r.values[j] == args[k].value;
        VarsHavePrefix(prefix, r.vars, n, j);
        PrefixesApart(r.vars[j]);
      }
    }
  }

  lemma PushTwo(front: seq<Clause>, a: Clause, f: Clause, atoms: set<string>)
    requires a.Pos? && f.Filter?
    ensures BodyOk(front + [a, f], atoms)
        <==> BodyOk(front, atoms) && ClauseOk(a, atoms, LetVars(front)) && ClauseOk(f, atoms, LetVars(front))
    ensures LetVars(front + [a, f]) == LetVars(front)
    ensures AtomNames(front + [a, f]) == AtomNames(front) + ArgNames(a.atom.args)
  {
    hide *;
    Push(front, a, atoms);
    Push(front + [a], f, atoms);
    assert front + [a] + [f] == front + [a, f];
  }

  // With its filter, the rewritten atom is in scope when the atom is.
  lemma NamedFits(a: Atom, n: nat, atoms: set<string>, lets: set<string>)
    requires NoNames(C, ArgNames(a.args)) && ArgNames(NameConsts(C, a.args, n).args) <= atoms
    ensures var r := NameConsts(C, a.args, n);
      && (ClauseOk(Pos(Atom(a.rel, r.args)), atoms, lets) <==> ClauseOk(Pos(a), atoms, lets))
      && ClauseOk(Filter(r.vars, AllEqual(r.values)), atoms, lets)
  {
    NamedDistinct(C, a.args, n);
    NamedAtoms(C, a.args, n);
    hide NameConsts, DistinctNamed, ArgNames;
  }

  lemma OtherFits(c: Clause, atoms: set<string>, atoms2: set<string>, lets: set<string>)
    requires NoNames(C, ClauseNames(c)) && SameOff(C, atoms, atoms2)
    ensures ClauseOk(c, atoms2, lets) <==> ClauseOk(c, atoms, lets)
  {
    hide DistinctNamed, HasPrefix;
    assert c.Filter? ==> forall v :: v in c.vars ==> v in ClauseNames(c);
    assert c.Let? ==> c.bound in ClauseNames(c) && forall v :: v in c.deps ==> v in ClauseNames(c);
  }

  // The rewritten clause, with its filter when it has one.
  lemma ConstClauseOk(c: Clause, n: nat, front: seq<Clause>, body: seq<Clause>, atoms: set<string>, atoms2: set<string>)
    requires NoNames(C, ClauseNames(c)) && SameOff(C, atoms, atoms2) && AtomNames(ConstClause(c, n).0) <= atoms2
    requires LetVars(front) == LetVars(body)
    ensures BodyOk(front + ConstClause(c, n).0, atoms2) <==> BodyOk(front, atoms2) && ClauseOk(c, atoms, LetVars(body))
    ensures LetVars(front + ConstClause(c, n).0) == LetVars(body + [c])
    ensures AtomNames(front + ConstClause(c, n).0) == AtomNames(front) + AtomNames(ConstClause(c, n).0)
  {
    Push(body, c, atoms);
    AtomsAppend(front, ConstClause(c, n).0);
    OtherFits(c, atoms, atoms2, LetVars(body));
    if c.Pos? && HasConst(c.atom) {
      var r := NameConsts(C, c.atom.args, n);
      var a, f := Pos(Atom(c.atom.rel, r.args)), Filter(r.vars, AllEqual(r.values));
      assert ConstClause(c, n).0 == [a, f] == [] + [a, f];
      hide BodyOk, AtomNames, LetVars, NameConsts, ConstClause, ArgNames, ClauseOk, HasPrefix;
      PushTwo([], a, f, atoms2);
      PushTwo(front, a, f, atoms2);
      NamedFits(c.atom, n, atoms2, LetVars(front));
      SameAtoms(c.atom, atoms, atoms2, LetVars(body));
    } else {
      hide BodyOk, AtomNames, LetVars, ArgNames, ClauseOk, HasPrefix;
      Push(front, c, atoms2);
    }
  }

  lemma SameAtoms(a: Atom, atoms: set<string>, atoms2: set<string>, lets: set<string>)
    ensures ClauseOk(Pos(a), atoms, lets) <==> ClauseOk(Pos(a), atoms2, lets)
  {}

  lemma NamedAtoms(prefix: string, args: seq<Arg>, n: nat)
    ensures forall v :: v in NameConsts(prefix, args, n).vars ==> v in ArgNames(NameConsts(prefix, args, n).args)
  {
    if |args| > 0 {
      NamedAtoms(prefix, args[..|args| - 1], n);
      var before, r := NameConsts(prefix, args[..|args| - 1], n), NameConsts(prefix, args, n);
      forall v | v in r.vars ensures v in ArgNames(r.args) {
        if v in before.vars {
          var k :| 0 <= k < |before.args| && before.args[k].LVar? && before.args[k].name == v;
          assert r.args[k] == before.args[k];
        } else {
          assert r.args[|args| - 1] == LVar(v);
        }
      }
    }
  }

  lemma {:induction false} LetVarsNamed(body: seq<Clause>)
    ensures LetVars(body) <= BodyNames(body)
  {
    if |body| > 0 { LetVarsNamed(body[..|body| - 1]); }
  }

  lemma {:induction false} ConstBodyOk(body: seq<Clause>, n: nat, atoms: set<string>, atoms2: set<string>)
    requires NoNames(C, BodyNames(body)) && SameOff(C, atoms, atoms2) && AtomNames(ConstBody(body, n).0) <= atoms2
    ensures BodyOk(ConstBody(body, n).0, atoms2) <==> BodyOk(body, atoms)
    ensures LetVars(ConstBody(body, n).0) == LetVars(body)
  {
    hide ClauseNames, SameOff;
    if |body| > 0 {
      var m := |body| - 1;
      var before := ConstBody(body[..m], n);
      var last := ConstClause(body[m], before.1);
      assert body == body[..m] + [body[m]];
      AtomsAppend(before.0, last.0);
      hide ClauseOk, BodyOk, AtomNames, LetVars, ConstClause;
      ConstBodyOk(body[..m], n, atoms, atoms2);
      ConstClauseOk(body[m], before.1, before.0, body[..m], atoms, atoms2);
      Push(body[..m], body[m], atoms);
    }
  }

  lemma {:induction false} AtomsAppend(a: seq<Clause>, b: seq<Clause>)
    ensures AtomNames(a + b) == AtomNames(a) + AtomNames(b)
  {
    if |b| == 0 {
      assert a + b == a;
    } else {
      var m := |b| - 1;
      AtomsAppend(a, b[..m]);
      assert a + b == (a + b[..m]) + [b[m]] && b == b[..m] + [b[m]];
      Push(a + b[..m], b[m], {});
      Push(b[..m], b[m], {});
    }
  }

  lemma {:induction false} ConstAtoms(body: seq<Clause>, n: nat)
    requires NoNames(C, BodyNames(body))
    ensures SameOff(C, AtomNames(ConstBody(body, n).0), AtomNames(body))
  {
    hide ConstClause, ClauseNames;
    if |body| > 0 {
      var m := |body| - 1;
      var before := ConstBody(body[..m], n);
      var last := ConstClause(body[m], before.1);
      ConstAtoms(body[..m], n);
      AtomsAppend(before.0, last.0);
      assert body == body[..m] + [body[m]];
      AtomsAppend(body[..m], [body[m]]);
      hide AtomNames;
      ConstClauseAtoms(body[m], before.1);
    }
  }

  lemma ConstClauseAtoms(c: Clause, n: nat)
    requires NoNames(C, ClauseNames(c))
    ensures SameOff(C, AtomNames(ConstClause(c, n).0), AtomNames([c]))
  {
    var r := ConstClause(c, n).0;
    Push([], c, {});
    assert [] + [c] == [c];
    if c.Pos? && HasConst(c.atom) {
      NamedArgs(C, c.atom.args, n);
      Push([], r[0], {});
      Push([r[0]], r[1], {});
      assert [] + [r[0]] == [r[0]] && [r[0]] + [r[1]] == r;
    }
  }

  // --- Head constants ---

  // Lets of literals that bind prefix n, prefix n+1, ...
  ghost predicate LiteralLets(lets: seq<Clause>, n: nat) {
    forall k :: 0 <= k < |lets| ==> lets[k].Let? && lets[k].bound == Name(HC, n + k) && lets[k].deps == []
  }

  lemma {:induction false} HeadLets(heads: seq<Atom>, n: nat)
    ensures var r := HeadConsts(heads, n); LiteralLets(r.1, n) && r.2 == n + |r.1| && |r.0| == |heads|
  {
    hide NameConsts;
    if |heads| > 0 {
      var m := |heads| - 1;
      HeadLets(heads[..m], n);
      NameConstsFacts(HC, heads[m].args, HeadConsts(heads[..m], n).2);
    }
  }

  // Such lets are in scope after any body that does not use their names.
  lemma LiteralInit(lets: seq<Clause>, n: nat)
    requires |lets| > 0 && LiteralLets(lets, n)
    ensures LiteralLets(lets[..|lets| - 1], n) && lets[|lets| - 1].Let?
  {
    hide Name;
  }

  lemma {:induction false} LetsOk(body: seq<Clause>, lets: seq<Clause>, n: nat, atoms: set<string>)
    requires LiteralLets(lets, n) && NoNames(HC, atoms) && NoNames(HC, LetVars(body))
    ensures BodyOk(body + lets, atoms) <==> BodyOk(body, atoms)
    ensures AtomNames(body + lets) == AtomNames(body) && LetVars(body + lets) == LetVars(body) + LetNames(lets)
  {
    if |lets| == 0 {
      assert body + lets == body && LetNames(lets) == {};
    } else {
      hide *;
      var m := |lets| - 1;
      LiteralInit(lets, n);
      LetsOk(body, lets[..m], n, atoms);
      assert body + lets == (body + lets[..m]) + [lets[m]];
      Push(body + lets[..m], lets[m], atoms);
      LetNext(lets, n, atoms, LetVars(body));
    }
  }

  lemma LetNext(lets: seq<Clause>, n: nat, atoms: set<string>, before: set<string>)
    requires |lets| > 0 && LiteralLets(lets, n) && NoNames(HC, atoms) && NoNames(HC, before)
    ensures ClauseOk(lets[|lets| - 1], atoms, before + LetNames(lets[..|lets| - 1]))
    ensures LetNames(lets) == LetNames(lets[..|lets| - 1]) + {lets[|lets| - 1].bound}
  {
    var m := |lets| - 1;
    NameInjective(HC, n + m, n + m);
    hide Name;
    forall k | 0 <= k < m ensures lets[..m][k].bound != Name(HC, n + m) {
      assert lets[..m][k] == lets[k];
      NameInjective(HC, n + k, n + m);
    }
    BoundNext(lets, n);
  }

  // The names that lets bind.
  function LetNames(lets: seq<Clause>): set<string> {
    set k | 0 <= k < |lets| && lets[k].Let? :: lets[k].bound
  }

  lemma BoundNext(lets: seq<Clause>, n: nat)
    requires |lets| > 0 && LiteralLets(lets, n)
    ensures LetNames(lets) == LetNames(lets[..|lets| - 1]) + {lets[|lets| - 1].bound}
  {
    var m := |lets| - 1;
    forall x | x in LetNames(lets) ensures x in LetNames(lets[..m]) || x == lets[m].bound {
      var k :| 0 <= k < |lets| && lets[k].Let? && lets[k].bound == x;
      assert k < m ==> lets[..m][k] == lets[k];
    }
    forall x | x in LetNames(lets[..m]) ensures x in LetNames(lets) {
      var k :| 0 <= k < m && lets[..m][k].Let? && lets[..m][k].bound == x;
      assert lets[k] == lets[..m][k];
    }
  }

  lemma BoundAppend(a: seq<Clause>, b: seq<Clause>)
    ensures LetNames(a + b) == LetNames(a) + LetNames(b)
  {
    forall x | x in LetNames(a) ensures x in LetNames(a + b) {
      var k :| 0 <= k < |a| && a[k].Let? && a[k].bound == x;
      assert (a + b)[k] == a[k];
    }
    forall x | x in LetNames(b) ensures x in LetNames(a + b) {
      var k :| 0 <= k < |b| && b[k].Let? && b[k].bound == x;
      assert (a + b)[|a| + k] == b[k];
    }
  }

  lemma LetsBind(vars: seq<string>, values: seq<int>)
    requires |vars| == |values|
    ensures forall v :: v in vars ==> v in LetNames(Lets(vars, values))
  {
    forall v | v in vars ensures v in LetNames(Lets(vars, values)) {
      var k :| 0 <= k < |vars| && vars[k] == v;
      assert Lets(vars, values)[k].bound == v;
    }
  }

  // The rewritten heads use the names they used, and names their lets bind.
  lemma NamesJoin(a: set<string>, b: set<string>, x: set<string>, y: set<string>, p: set<string>, q: set<string>,
                  vars: seq<string>)
    requires SameOff(HC, a, x) && SameOff(HC, b, y) && forall v :: v in vars ==> v in q
    requires forall v :: v in a && HasPrefix(HC, v) ==> v in p
    requires forall v :: v in b && HasPrefix(HC, v) ==> v in vars
    ensures SameOff(HC, a + b, x + y) && forall v :: v in a + b && HasPrefix(HC, v) ==> v in p + q
  {
    hide HasPrefix;
  }

  // The heads and lets that one more head adds.
  lemma HeadConstsLast(heads: seq<Atom>, n: nat)
    requires |heads| > 0
    ensures var m: nat, r := |heads| - 1, HeadConsts(heads, n); var before := HeadConsts(heads[..m], n);
      var last := NameConsts(HC, heads[m].args, before.2);
      && r.0 == before.0 + [Atom(heads[m].rel, last.args)] && r.1 == before.1 + Lets(last.vars, last.values)
      && HeadNames(heads) == HeadNames(heads[..m]) + ArgNames(heads[m].args)
      && HeadNames(r.0) == HeadNames(before.0) + ArgNames(last.args)
  {
    var m: nat, r := |heads| - 1, HeadConsts(heads, n);
    hide NameConsts, Lets, ArgNames;
    assert r.0[..m] == HeadConsts(heads[..m], n).0 by { HeadLets(heads[..m], n); }
  }

  lemma {:induction false} HeadsNamed(heads: seq<Atom>, n: nat)
    requires NoNames(HC, HeadNames(heads))
    ensures var r := HeadConsts(heads, n);
      && SameOff(HC, HeadNames(r.0), HeadNames(heads)) && (forall h :: 0 <= h < |r.0| ==> AllVars(r.0[h].args))
      && forall v :: v in HeadNames(r.0) && HasPrefix(HC, v) ==> v in LetNames(r.1)
  {
    if |heads| > 0 {
      var m: nat := |heads| - 1;
      HeadConstsLast(heads, n);
      hide HeadConsts, NameConsts, Lets, LetNames, HeadNames, ArgNames, HasPrefix, AllVars, SameOff;
      var before, r := HeadConsts(heads[..m], n), HeadConsts(heads, n);
      var last := NameConsts(HC, heads[m].args, before.2);
      HeadsNamed(heads[..m], n);
      NamedArgs(HC, heads[m].args, before.2);
      BoundAppend(before.1, Lets(last.vars, last.values));
      NameConstsFacts(HC, heads[m].args, before.2);
      LetsBind(last.vars, last.values);
      NamesJoin(HeadNames(before.0), ArgNames(last.args), HeadNames(heads[..m]), ArgNames(heads[m].args),
                LetNames(before.1), LetNames(Lets(last.vars, last.values)), last.vars);
    }
  }

  // --- Generated names occur where they were generated ---

  ghost predicate HoleOnce(args: seq<Arg>) {
    forall i, j :: 0 <= i < j < |args| && IsHole(args[i]) ==> args[i] != args[j]
  }

  function Mentions(body: seq<Clause>, v: string): nat {
    if |body| == 0 then 0 else Mentions(body[..|body| - 1], v) + if v in ClauseNames(body[|body| - 1]) then 1 else 0
  }

  lemma {:induction false} MentionsAppend(a: seq<Clause>, b: seq<Clause>, v: string)
    ensures Mentions(a + b, v) == Mentions(a, v) + Mentions(b, v)
  {
    if |b| == 0 {
      assert a + b == a;
    } else {
      MentionsAppend(a, b[..|b| - 1], v);
      assert (a + b)[..|a + b| - 1] == a + b[..|b| - 1];
    }
  }

  lemma {:induction false} MentionsAt(body: seq<Clause>, i: nat, v: string)
    requires i < |body| && v in ClauseNames(body[i])
    ensures Mentions(body, v) >= 1
  {
    if i < |body| - 1 { MentionsAt(body[..|body| - 1], i, v); }
  }

  lemma {:induction false} MentionsTwo(body: seq<Clause>, i: nat, j: nat, v: string)
    requires i < j < |body| && v in ClauseNames(body[i]) && v in ClauseNames(body[j])
    ensures Mentions(body, v) >= 2
  {
    if j < |body| - 1 { MentionsTwo(body[..|body| - 1], i, j, v); } else { MentionsAt(body[..j], i, v); }
  }

  // No atom repeats an underscore name, and one in a negation is mentioned nowhere else.
  ghost predicate HolesApart(body: seq<Clause>) {
    && (forall c :: c in body && (c.Pos? || c.Neg?) ==> HoleOnce(c.atom.args))
    && forall c, v :: c in body && c.Neg? && v in ArgNames(c.atom.args) && IsWildcard(v) ==> Mentions(body, v) <= 1
  }

  ghost predicate GenIn(v: string, n: nat, m: nat) {
    exists i :: n < i <= m && v == Name(GEN, i)
  }

  lemma GenOnce(v: string, a: nat, b: nat, c: nat)
    requires GenIn(v, a, b)
    ensures !GenIn(v, b, c)
  {
    var i :| a < i <= b && v == Name(GEN, i);
    forall j | b < j <= c ensures v != Name(GEN, j) { NameInjective(GEN, i, j); }
  }

  lemma GenGrows(v: string, a: nat, b: nat, c: nat, d: nat)
    requires GenIn(v, b, c) && a <= b && c <= d
    ensures GenIn(v, a, d)
  {}

  lemma {:induction false} WildArgsOnce(args: seq<Arg>, n: nat)
    ensures HoleOnce(WildArgs(args, n).0)
    ensures forall v :: v in ArgNames(WildArgs(args, n).0) && IsWildcard(v) ==> GenIn(v, n, WildArgs(args, n).1)
  {
    hide Name;
    if |args| > 0 {
      var m := |args| - 1;
      var before, r := WildArgs(args[..m], n), WildArgs(args, n);
      WildArgsOnce(args[..m], n);
      forall v | v in ArgNames(r.0) && IsWildcard(v) ensures GenIn(v, n, r.1) {
        var k :| 0 <= k < |r.0| && r.0[k].LVar? && r.0[k].name == v;
        if k < m {
          assert before.0[k] == r.0[k] && v in ArgNames(before.0);
          GenGrows(v, n, n, before.1, r.1);
        } else {
          assert v == Name(GEN, before.1 + 1);
        }
      }
      forall i | 0 <= i < m && IsHole(r.0[i]) ensures r.0[i] != r.0[m] {
        assert before.0[i] == r.0[i] && r.0[i].name in ArgNames(before.0);
        GenOnce(r.0[i].name, n, before.1, r.1);
        assert IsHole(args[m]) ==> GenIn(r.0[m].name, before.1, r.1);
      }
      assert HoleOnce(before.0) && forall k :: 0 <= k < m ==> before.0[k] == r.0[k];
    }
  }

  lemma WildClauseGen(c: Clause, n: nat)
    requires PlainInline(c)
    ensures forall v :: v in ClauseNames(WildClause(c, n).0) && IsWildcard(v) ==> GenIn(v, n, WildClause(c, n).1)
    ensures WildClause(c, n).1 >= n && (c.Pos? || c.Neg? ==> HoleOnce(WildClause(c, n).0.atom.args))
  {
    if c.Pos? || c.Neg? { WildArgsOnce(c.atom.args, n); }
  }

  lemma {:induction false} WildMentions(body: seq<Clause>, n: nat, v: string)
    requires InlinePlain(body) && IsWildcard(v)
    ensures WildBody(body, n).1 >= n && Mentions(WildBody(body, n).0, v) <= 1
    ensures Mentions(WildBody(body, n).0, v) > 0 ==> GenIn(v, n, WildBody(body, n).1)
  {
    if |body| > 0 {
      var m := |body| - 1;
      var before, r := WildBody(body[..m], n), WildBody(body, n);
      var last := WildClause(body[m], before.1);
      assert PlainInline(body[m]);
      WildMentions(body[..m], n, v);
      WildClauseGen(body[m], before.1);
      assert r.0[..m] == before.0 && r.0[m] == last.0;
      hide GenIn, WildClause, WildBody, PlainInline, IsWildcard;
      if v in ClauseNames(last.0) {
        if GenIn(v, n, before.1) { GenOnce(v, n, before.1, last.1); }
        GenGrows(v, n, before.1, last.1, last.1);
      } else if Mentions(before.0, v) > 0 {
        GenGrows(v, n, n, before.1, last.1);
      }
    }
  }

  lemma {:induction false} WildMembers(body: seq<Clause>, n: nat)
    requires InlinePlain(body)
    ensures forall c :: c in WildBody(body, n).0 && (c.Pos? || c.Neg?) ==> HoleOnce(c.atom.args)
  {
    if |body| > 0 {
      var m := |body| - 1;
      WildMembers(body[..m], n);
      assert PlainInline(body[m]);
      WildClauseGen(body[m], WildBody(body[..m], n).1);
    }
  }

  lemma WildApart(body: seq<Clause>, n: nat)
    requires InlinePlain(body)
    ensures HolesApart(WildBody(body, n).0)
  {
    WildMembers(body, n);
    forall v | IsWildcard(v) ensures Mentions(WildBody(body, n).0, v) <= 1 { WildMentions(body, n, v); }
  }

  lemma {:induction false} NamedOnce(prefix: string, args: seq<Arg>, n: nat)
    requires HoleOnce(args) && NoNames(prefix, ArgNames(args))
    ensures HoleOnce(NameConsts(prefix, args, n).args)
  {
    hide Name;
    if |args| > 0 {
      var m := |args| - 1;
      var init := args[..m];
      var before, r := NameConsts(prefix, init, n), NameConsts(prefix, args, n);
      assert ArgNames(init) <= ArgNames(args);
      NamedOnce(prefix, init, n);
      NamedNames(prefix, Atom("", init), n);
      NameConstsFacts(prefix, args, n);
      assert before.args == r.args[..m];
      hide NameConsts;
      forall i | 0 <= i < m && IsHole(r.args[i]) ensures r.args[i] != r.args[m] {
        NewArgIsNew(prefix, args, n, before, r, i);
      }
    }
  }

  lemma {:induction false} NewArgIsNew(prefix: string, args: seq<Arg>, n: nat, before: Named, r: Named, i: nat)
    requires HoleOnce(args) && NoNames(prefix, ArgNames(args)) && |args| > 0 && i < |args| - 1
    requires before == NameConsts(prefix, args[..|args| - 1], n) && r == NameConsts(prefix, args, n)
    requires AllBefore(prefix, ArgNames(before.args), before.next) && IsHole(r.args[i])
    ensures r.args[i] != r.args[|args| - 1]
  {
    var m := |args| - 1;
    NameConstsFacts(prefix, args, n);
    assert r.args[i] == before.args[i] && before.args[i].name in ArgNames(before.args);
    assert NamedAt(r, args, i);
    if args[m].Const? {
      assert r.args[m] == LVar(Name(prefix, before.next));
    } else if args[i].Const? {
      var j :| 0 <= j < |r.vars| && r.args[i] == LVar(r.vars[j]) && r.values[j] == args[i].value;
      VarsHavePrefix(prefix, r.vars, n, j);
      assert args[m].name in ArgNames(args);
    } else {
      assert IsHole(args[i]) && args[i] != args[m];
    }
  }

  lemma {:induction false} ConstClauseMentions(c: Clause, n: nat, v: string)
    requires NoNames(C, ClauseNames(c)) && !HasPrefix(C, v)
    ensures Mentions(ConstClause(c, n).0, v) == Mentions([c], v)
  {
    hide NameConsts, HasConst, Name, NamedAt, AllVars, HasPrefix, ArgNames;
    var r := ConstClause(c, n).0;
    assert Mentions([], v) == 0;
    MentionsAppend([], [c], v);
    assert [c][..0] == [];
    if c.Pos? && HasConst(c.atom) {
      var named := NameConsts(C, c.atom.args, n);
      NamedArgs(C, c.atom.args, n);
      NameConstsFacts(C, c.atom.args, n);
      forall j | 0 <= j < |named.vars| ensures HasPrefix(C, named.vars[j]) { VarsHavePrefix(C, named.vars, n, j); }
      assert r[..1] == [r[0]] && r[..1][..0] == [];
    }
  }

  lemma {:induction false} ConstMentions(body: seq<Clause>, n: nat, v: string)
    requires NoNames(C, BodyNames(body)) && !HasPrefix(C, v)
    ensures Mentions(ConstBody(body, n).0, v) == Mentions(body, v)
  {
    if |body| > 0 {
      var m := |body| - 1;
      var before := ConstBody(body[..m], n);
      var last := ConstClause(body[m], before.1);
      ConstMentions(body[..m], n, v);
      ConstClauseMentions(body[m], before.1, v);
      assert body == body[..m] + [body[m]];
      hide ConstClause, Mentions, HasPrefix;
      MentionsAppend(before.0, last.0, v);
      MentionsAppend(body[..m], [body[m]], v);
    }
  }

  // Positive atoms are left with variables only; negated atoms stay as they are.
  ghost predicate ConstMember(c: Clause, body: seq<Clause>) {
    && (c.Neg? ==> c in body)
    && (c.Pos? ==> AllVars(c.atom.args) && HoleOnce(c.atom.args))
  }

  lemma ConstClauseMembers(c: Clause, n: nat, body: seq<Clause>)
    requires NoNames(C, ClauseNames(c)) && c in body && (c.Pos? ==> HoleOnce(c.atom.args))
    ensures forall d :: d in ConstClause(c, n).0 ==> ConstMember(d, body)
  {
    var r := ConstClause(c, n).0;
    if c.Pos? && HasConst(c.atom) {
      NamedArgs(C, c.atom.args, n);
      NamedOnce(C, c.atom.args, n);
      assert forall d :: d in r ==> d == r[0] || d == r[1];
    } else {
      assert forall d :: d in r ==> d == c;
    }
  }

  lemma {:induction false} ConstMembers(body: seq<Clause>, n: nat, whole: seq<Clause>)
    requires NoNames(C, BodyNames(body)) && forall c :: c in body ==> c in whole && (c.Pos? ==> HoleOnce(c.atom.args))
    ensures forall d :: d in ConstBody(body, n).0 ==> ConstMember(d, whole)
  {
    if |body| > 0 {
      var m := |body| - 1;
      hide ConstMember, ConstClause, HoleOnce;
      assert body[m] in body;
      ConstMembers(body[..m], n, whole);
      ConstClauseMembers(body[m], ConstBody(body[..m], n).1, whole);
    }
  }

  lemma {:induction false} NamesOf(body: seq<Clause>, c: Clause)
    requires c in body
    ensures ClauseNames(c) <= BodyNames(body)
  {
    if c != body[|body| - 1] {
      assert body == body[..|body| - 1] + [body[|body| - 1]];
      NamesOf(body[..|body| - 1], c);
    }
  }

  lemma ConstApart(body: seq<Clause>, n: nat)
    requires NoNames(C, BodyNames(body)) && HolesApart(body)
    ensures HolesApart(ConstBody(body, n).0) && forall c :: c in ConstBody(body, n).0 && c.Pos? ==> AllVars(c.atom.args)
  {
    var out := ConstBody(body, n).0;
    ConstMembers(body, n, body);
    hide ConstBody, AllVars;
    forall c | c in out ensures ConstMember(c, body) {}
    forall c, v | c in out && c.Neg? && v in ArgNames(c.atom.args) && IsWildcard(v) ensures Mentions(out, v) <= 1 {
      assert ConstMember(c, body);
      NamesOf(body, c);
      assert v in ClauseNames(c);
      ConstMentions(body, n, v);
    }
  }

  lemma {:induction false} NoMention(lets: seq<Clause>, n: nat, v: string)
    requires LiteralLets(lets, n) && !HasPrefix(HC, v)
    ensures Mentions(lets, v) == 0
  {
    if |lets| > 0 {
      NoMention(lets[..|lets| - 1], n, v);
      NameInjective(HC, n + |lets| - 1, n + |lets| - 1);
    }
  }

  lemma LetsApart(body: seq<Clause>, lets: seq<Clause>, n: nat)
    requires HolesApart(body) && LiteralLets(lets, n) && NoNames(HC, BodyNames(body))
    ensures HolesApart(body + lets)
  {
    forall c | c in body + lets && (c.Pos? || c.Neg?) ensures c in body {}
    forall c, v | c in body + lets && c.Neg? && v in ArgNames(c.atom.args) && IsWildcard(v)
      ensures Mentions(body + lets, v) <= 1 {
      NamesOf(body, c);
      assert v in ClauseNames(c);
      MentionsAppend(body, lets, v);
      NoMention(lets, n, v);
    }
  }

  // --- Scope, clause by clause and all at once ---

  lemma {:induction false} AtomNamesAre(body: seq<Clause>, v: string)
    ensures v in AtomNames(body) <==> InAtom(body, v)
  {
    if |body| > 0 {
      var m := |body| - 1;
      AtomNamesAre(body[..m], v);
      if body[m].Pos? { ArgNamesAre(body[m].atom.args, v); }
      hide ArgVars, ArgNames;
      if i :| 0 <= i < |body| && body[i].Pos? && v in ArgVars(body[i].atom.args) {
        if i < m { assert body[..m][i] == body[i]; }
      }
      if i :| 0 <= i < m && body[..m][i].Pos? && v in ArgVars(body[..m][i].atom.args) {
        assert body[i] == body[..m][i];
      }
    }
  }

  lemma ArgNamesAre(args: seq<Arg>, v: string)
    ensures v in ArgNames(args) <==> v in ArgVars(args)
  {}

  // What the lowering asks of clause i.
  ghost predicate ClauseFits(body: seq<Clause>, i: nat)
    requires i < |body|
  {
    && (body[i].Pos? ==> PlainAtom(body[i].atom))
    && (body[i].Neg? ==> SafeNegation(body, i))
    && Scoped(body, i)
  }

  lemma NegationFits(body: seq<Clause>, i: nat)
    requires i < |body| && body[i].Neg? && HolesApart(body)
    ensures SafeNegation(body, i) <==> ClauseOk(body[i], AtomNames(body), LetVars(body[..i]))
  {
    hide ArgVars, AtomNames, LetVars, ArgNames, InAtom;
    var args := body[i].atom.args;
    assert body[i] in body && HoleOnce(args);
    assert DistinctVars(args) <==> DistinctNamed(args);
    forall v ensures v in ArgNames(args) <==> v in ArgVars(args) { ArgNamesAre(args, v); }
    forall v ensures v in AtomNames(body) <==> InAtom(body, v) { AtomNamesAre(body, v); }
    forall v, j: nat | v in ArgNames(args) && IsWildcard(v) && j < |body| && j != i
      ensures v !in ClauseVars(body[j]) && v !in Produced(body[j]) {
      assert v in ClauseNames(body[i]) && Mentions(body, v) <= 1;
      Unmentioned(body, i, j, v);
    }
  }

  lemma Unmentioned(body: seq<Clause>, i: nat, j: nat, v: string)
    requires i < |body| && j < |body| && i != j && v in ClauseNames(body[i]) && Mentions(body, v) <= 1
    ensures v !in ClauseVars(body[j]) && v !in Produced(body[j])
  {
    if v in ClauseNames(body[j]) {
      if i < j { MentionsTwo(body, i, j, v); } else { MentionsTwo(body, j, i, v); }
    }
    if body[j].Pos? || body[j].Neg? { ArgNamesAre(body[j].atom.args, v); }
  }

  lemma ClauseFitsIff(body: seq<Clause>, i: nat)
    requires i < |body| && HolesApart(body) && (body[i].Pos? ==> AllVars(body[i].atom.args))
    ensures ClauseFits(body, i) <==> ClauseOk(body[i], AtomNames(body), LetVars(body[..i]))
  {
    if body[i].Neg? {
      NegationFits(body, i);
      hide SafeNegation, AtomNames, LetVars, InAtom, ClauseOk, HolesApart;
    } else {
      PositiveFitsIff(body, i);
    }
  }

  lemma PositiveFitsIff(body: seq<Clause>, i: nat)
    requires i < |body| && !body[i].Neg? && HolesApart(body) && (body[i].Pos? ==> AllVars(body[i].atom.args))
    ensures ClauseFits(body, i) <==> ClauseOk(body[i], AtomNames(body), LetVars(body[..i]))
  {
    assert body[i] in body;
    forall v ensures v in AtomNames(body) <==> InAtom(body, v) { AtomNamesAre(body, v); }
    hide SafeNegation, AtomNames, LetVars, InAtom;
  }

  lemma {:induction false} BodyFitsIff(body: seq<Clause>, m: nat)
    requires m <= |body| && HolesApart(body) && forall c :: c in body && c.Pos? ==> AllVars(c.atom.args)
    ensures BodyOk(body[..m], AtomNames(body)) <==> forall i :: 0 <= i < m ==> ClauseFits(body, i)
  {
    hide AllVars;
    if m > 0 {
      BodyFitsIff(body, m - 1);
      assert body[m - 1] in body;
      ClauseFitsIff(body, m - 1);
      assert body[..m] == body[..m - 1] + [body[m - 1]];
      hide ClauseOk, ClauseFits, BodyOk, HolesApart, AtomNames, LetVars;
      Push(body[..m - 1], body[m - 1], AtomNames(body));
    }
  }

  lemma LowerableIff(r: Rule)
    requires HolesApart(r.body) && (forall c :: c in r.body && c.Pos? ==> AllVars(c.atom.args))
    requires forall h :: 0 <= h < |r.heads| ==> AllVars(r.heads[h].args)
    ensures Lowerable(r) <==> Writable(r)
  {
    BodyFitsIff(r.body, |r.body|);
    assert r.body[..|r.body|] == r.body;
    HeadsFit(r);
    hide HolesApart, AllVars, BodyOk, AtomNames, LetVars, HeadNames, HeadOk, SafeNegation, Scoped, PlainAtom;
    assert (forall i :: 0 <= i < |r.body| ==> ClauseFits(r.body, i)) <==>
      && (forall i :: 0 <= i < |r.body| && r.body[i].Pos? ==> PlainAtom(r.body[i].atom))
      && (forall i :: 0 <= i < |r.body| && r.body[i].Neg? ==> SafeNegation(r.body, i))
      && (forall i :: 0 <= i < |r.body| ==> Scoped(r.body, i)) by {
      assert forall i ::
          0 <= i < |r.body| ==>
          (ClauseFits(r.body, i)
           <==> ((r.body[i].Pos? ==> PlainAtom(r.body[i].atom)) && (r.body[i].Neg? ==> SafeNegation(r.body, i))
                 && Scoped(r.body, i)));
    }
  }

  lemma {:induction false} HeadNamesAre(heads: seq<Atom>, v: string)
    ensures v in HeadNames(heads) <==> exists h :: 0 <= h < |heads| && v in ArgNames(heads[h].args)
  {
    if |heads| > 0 {
      var m := |heads| - 1;
      HeadNamesAre(heads[..m], v);
      hide ArgNames;
      if h :| 0 <= h < |heads| && v in ArgNames(heads[h].args) {
        if h < m { assert heads[..m][h] == heads[h]; }
      }
      if h :| 0 <= h < m && v in ArgNames(heads[..m][h].args) { assert heads[h] == heads[..m][h]; }
    }
  }

  lemma HeadsFit(r: Rule)
    requires forall h :: 0 <= h < |r.heads| ==> AllVars(r.heads[h].args)
    ensures (forall h :: 0 <= h < |r.heads| ==> HeadOk(r, r.heads[h]))
        <==> HeadNames(r.heads) <= AtomNames(r.body) + LetVars(r.body)
  {
    var known := AtomNames(r.body) + LetVars(r.body);
    assert r.body[..|r.body|] == r.body;
    forall v ensures v in known <==> Known(r.body, v, |r.body|) { AtomNamesAre(r.body, v); }
    hide Known, LetVars, AtomNames, AllVars;
    if forall h :: 0 <= h < |r.heads| ==> HeadOk(r, r.heads[h]) {
      forall v | v in HeadNames(r.heads) ensures v in known {
        HeadNamesAre(r.heads, v);
        var h :| 0 <= h < |r.heads| && v in ArgNames(r.heads[h].args);
        ArgNamesAre(r.heads[h].args, v);
        assert HeadOk(r, r.heads[h]);
      }
    }
    if HeadNames(r.heads) <= known {
      forall h | 0 <= h < |r.heads| ensures HeadOk(r, r.heads[h]) {
        forall v | v in ArgVars(r.heads[h].args) ensures Known(r.body, v, |r.body|) {
          ArgNamesAre(r.heads[h].args, v);
          HeadNamesAre(r.heads, v);
        }
      }
    }
  }

  // --- The three rewrites ---

  lemma WildStage(rule: Rule, n: nat)
    requires PlainCode(rule)
    ensures var a := WildRule(rule, n).0;
      && (Writable(a) <==> Writable(rule)) && HolesApart(a.body) && a.heads == rule.heads
      && NoNames(C, BodyNames(a.body) + HeadNames(a.heads)) && NoNames(HC, BodyNames(a.body) + HeadNames(a.heads))
  {
    var body := WildBody(rule.body, n).0;
    PlainHeadsStay(rule.heads, n);
    WildNamesApart(rule, n);
    WildApart(rule.body, n);
    hide HolesApart, WildBody, AtomNames, LetVars, BodyOk, HeadNames, BodyNames;
    WildBodyOk(rule.body, n, {}, {});
    WildBodyOk(rule.body, n, AtomNames(rule.body), AtomNames(body));
  }

  lemma ConstStage(rule: Rule, n: nat)
    requires HolesApart(rule.body) && NoNames(C, BodyNames(rule.body) + HeadNames(rule.heads))
    requires NoNames(HC, BodyNames(rule.body) + HeadNames(rule.heads))
    ensures var b := Rule(rule.heads, ConstBody(rule.body, n).0);
      && (Writable(b) <==> Writable(rule)) && HolesApart(b.body)
      && (forall c :: c in b.body && c.Pos? ==> AllVars(c.atom.args))
      && NoNames(HC, BodyNames(b.body) + HeadNames(b.heads))
  {
    var out := ConstBody(rule.body, n).0;
    ConstNamesApart(rule, n);
    ConstApart(rule.body, n);
    hide HolesApart, ConstBody, AtomNames, LetVars, BodyOk, HeadNames, BodyNames, HasPrefix, AllVars;
    ConstAtoms(rule.body, n);
    ConstBodyOk(rule.body, n, AtomNames(rule.body), AtomNames(out));
  }

  lemma HeadStage(rule: Rule, n: nat)
    requires HolesApart(rule.body) && (forall c :: c in rule.body && c.Pos? ==> AllVars(c.atom.args))
    requires NoNames(HC, BodyNames(rule.body) + HeadNames(rule.heads))
    ensures var r := HeadRule(rule, n).0;
      && (Writable(r) <==> Writable(rule)) && HolesApart(r.body)
      && (forall c :: c in r.body && c.Pos? ==> AllVars(c.atom.args))
      && forall h :: 0 <= h < |r.heads| ==> AllVars(r.heads[h].args)
  {
    var h := HeadConsts(rule.heads, n);
    var r := HeadRule(rule, n).0;
    HeadLets(rule.heads, n);
    HeadsNamed(rule.heads, n);
    AtomsNamed(rule.body);
    LetVarsNamed(rule.body);
    LetsApart(rule.body, h.1, n);
    if |h.1| == 0 { NoHeadConsts(rule.heads, n); }
    assert r.body == rule.body + h.1 && r.heads == h.0;
    assert forall c :: c in r.body && c.Pos? ==> c in rule.body;
    hide HolesApart, HeadConsts, HeadRule, AtomNames, LetVars, BodyOk, HeadNames, BodyNames, HasPrefix, AllVars;
    LetsOk(rule.body, h.1, n, AtomNames(rule.body));
    LetNamesHave(h.1, n);
  }

  lemma {:induction false} AtomsNamed(body: seq<Clause>)
    ensures AtomNames(body) <= BodyNames(body)
  {
    if |body| > 0 { AtomsNamed(body[..|body| - 1]); }
  }

  lemma LetNamesHave(lets: seq<Clause>, n: nat)
    requires LiteralLets(lets, n)
    ensures forall v :: v in LetNames(lets) ==> HasPrefix(HC, v)
  {
    forall k | 0 <= k < |lets| ensures HasPrefix(HC, lets[k].bound) { NameInjective(HC, n + k, n + k); }
  }

  lemma {:induction false} NoNamed(prefix: string, args: seq<Arg>, n: nat)
    requires |NameConsts(prefix, args, n).vars| == 0
    ensures NameConsts(prefix, args, n).args == args
  {
    if |args| > 0 {
      NoNamed(prefix, args[..|args| - 1], n);
      assert args == args[..|args| - 1] + [args[|args| - 1]];
    }
  }

  lemma {:induction false} NoHeadConsts(heads: seq<Atom>, n: nat)
    requires |HeadConsts(heads, n).1| == 0
    ensures HeadConsts(heads, n).0 == heads
  {
    if |heads| > 0 {
      var m := |heads| - 1;
      NoHeadConsts(heads[..m], n);
      NoNamed(HC, heads[m].args, HeadConsts(heads[..m], n).2);
      assert heads == heads[..m] + [heads[m]];
    }
  }

  // The rewrites put a rule in the lowering's scope exactly when it was written in scope: no atom repeats a named
  // variable, negations, filters and lets use variables bound by atoms and earlier lets, heads use bound variables.
  // Wildcards and constants may stand in any atom, constants in any head.
  lemma RewritesMakeLowerable(rule: Rule, n1: nat, n2: nat, n3: nat)
    requires PlainCode(rule)
    ensures Lowerable(Rewritten(rule, n1, n2, n3)) <==> Writable(rule)
  {
    hide Lowerable, HeadRule, Writable, WildRule, HolesApart;
    var a := WildRule(rule, n1).0;
    var b := Rule(a.heads, ConstBody(a.body, n2).0);
    assert Rewritten(rule, n1, n2, n3) == HeadRule(b, n3).0;
    hide *;
    WildStage(rule, n1);
    ConstStage(a, n2);
    HeadStage(b, n3);
    LowerableIff(HeadRule(b, n3).0);
  }

  // ========== Written program ==========

  // From the rules as a user writes them to what the compiled program stores.

  // --- What the rewrites keep of an atom: its polarity, relation and number of arguments ---

  datatype Sig = Sig(positive: bool, rel: string, arity: nat)

  function SigOf(c: Clause): seq<Sig> {
    if c.Pos? || c.Neg? then [Sig(c.Pos?, c.atom.rel, |c.atom.args|)] else []
  }

  function Sigs(body: seq<Clause>): seq<Sig> {
    if |body| == 0 then [] else Sigs(body[..|body| - 1]) + SigOf(body[|body| - 1])
  }

  lemma {:induction false} SigsAppend(a: seq<Clause>, b: seq<Clause>)
    ensures Sigs(a + b) == Sigs(a) + Sigs(b)
  {
    if |b| == 0 {
      assert a + b == a;
    } else {
      SigsAppend(a, b[..|b| - 1]);
      assert (a + b)[..|a + b| - 1] == a + b[..|b| - 1];
    }
  }

  lemma {:induction false} WildSigs(body: seq<Clause>, n: nat)
    ensures Sigs(WildBody(body, n).0) == Sigs(body)
  {
    if |body| > 0 {
      var r := WildBody(body, n).0;
      WildSigs(body[..|body| - 1], n);
      assert r[..|body| - 1] == WildBody(body[..|body| - 1], n).0;
    }
  }

  lemma ConstClauseSigs(c: Clause, n: nat)
    ensures Sigs(ConstClause(c, n).0) == SigOf(c)
  {
    var r := ConstClause(c, n).0;
    OneSig(r[0]);
    if c.Pos? && HasConst(c.atom) {
      OneSig(r[1]);
      SigsAppend([r[0]], [r[1]]);
      assert [r[0]] + [r[1]] == r;
    } else {
      assert [r[0]] == r;
    }
  }

  lemma OneSig(c: Clause)
    ensures Sigs([c]) == SigOf(c)
  {
    assert [c][..0] == [];
  }

  lemma {:induction false} ConstSigs(body: seq<Clause>, n: nat)
    ensures Sigs(ConstBody(body, n).0) == Sigs(body)
  {
    if |body| > 0 {
      var m := |body| - 1;
      var before := ConstBody(body[..m], n);
      ConstSigs(body[..m], n);
      SigsAppend(before.0, ConstClause(body[m], before.1).0);
      ConstClauseSigs(body[m], before.1);
    }
  }

  lemma {:induction false} LetsSigs(lets: seq<Clause>, n: nat)
    requires LiteralLets(lets, n)
    ensures Sigs(lets) == []
  {
    if |lets| > 0 { LetsSigs(lets[..|lets| - 1], n); }
  }

  ghost predicate SameShape(a: seq<Atom>, b: seq<Atom>) {
    |a| == |b| && forall h :: 0 <= h < |a| ==> a[h].rel == b[h].rel && |a[h].args| == |b[h].args|
  }

  lemma {:induction false} HeadShapes(heads: seq<Atom>, n: nat)
    ensures SameShape(HeadConsts(heads, n).0, heads)
  {
    if |heads| > 0 { HeadShapes(heads[..|heads| - 1], n); }
  }

  // The place of clause i's atom among the atoms.
  lemma {:induction false} SigAt(body: seq<Clause>, i: nat) returns (k: nat)
    requires i < |body| && (body[i].Pos? || body[i].Neg?)
    ensures k < |Sigs(body)| && Sigs(body)[k] == SigOf(body[i])[0] && k == |Sigs(body[..i])|
  {
    var m := |body| - 1;
    if i == m {
      k := |Sigs(body[..m])|;
    } else {
      k := SigAt(body[..m], i);
      assert body[..m][..i] == body[..i];
    }
  }

  lemma {:induction false} ClauseAt(body: seq<Clause>, k: nat) returns (i: nat)
    requires k < |Sigs(body)|
    ensures i < |body| && (body[i].Pos? || body[i].Neg?) && Sigs(body)[k] == SigOf(body[i])[0] && k == |Sigs(body[..i])|
  {
    var m := |body| - 1;
    if k < |Sigs(body[..m])| {
      i := ClauseAt(body[..m], k);
      assert body[..m][..i] == body[..i];
    } else {
      i := m;
    }
  }

  ghost predicate SigsTyped(sigs: seq<Sig>, arity: map<string, nat>) {
    forall k :: 0 <= k < |sigs| ==> sigs[k].rel in arity && sigs[k].arity == arity[sigs[k].rel]
  }

  lemma TypedIff(body: seq<Clause>, arity: map<string, nat>)
    ensures SigsTyped(Sigs(body), arity)
        <==> forall i :: 0 <= i < |body| && (body[i].Pos? || body[i].Neg?) ==> TypedAtom(body[i].atom, arity)
  {
    if SigsTyped(Sigs(body), arity) {
      forall i | 0 <= i < |body| && (body[i].Pos? || body[i].Neg?) ensures TypedAtom(body[i].atom, arity) {
        var k := SigAt(body, i);
      }
    }
    if forall i :: 0 <= i < |body| && (body[i].Pos? || body[i].Neg?) ==> TypedAtom(body[i].atom, arity) {
      forall k | 0 <= k < |Sigs(body)|
        ensures Sigs(body)[k].rel in arity && Sigs(body)[k].arity == arity[Sigs(body)[k].rel] {
        var i := ClauseAt(body, k);
        assert TypedAtom(body[i].atom, arity);
      }
    }
  }

  // Every positive atom has arguments or is the only one.
  ghost predicate SigsChecked(sigs: seq<Sig>) {
    forall k, l ::
        0 <= k < |sigs| && 0 <= l < |sigs| && sigs[k].positive && sigs[k].arity == 0 && sigs[l].positive ==> l == k
  }

  lemma {:induction false} SigsGrow(body: seq<Clause>, i: nat, j: nat)
    requires i < j <= |body| && (body[i].Pos? || body[i].Neg?)
    ensures |Sigs(body[..i])| < |Sigs(body[..j])|
  {
    assert body[..j][..j - 1] == body[..j - 1];
    if i == j - 1 { assert body[..j][j - 1] == body[i]; } else { SigsGrow(body, i, j - 1); }
  }

  lemma CheckedIff(r: Rule)
    ensures SigsChecked(Sigs(r.body)) <==> AllChecked(r)
  {
    var sigs := Sigs(r.body);
    hide Sigs;
    if SigsChecked(sigs) {
      forall i | 0 <= i < |r.body| && r.body[i].Pos? ensures CheckedAtom(r.body, i) {
        if |r.body[i].atom.args| == 0 {
          var k := SigAt(r.body, i);
          forall j | 0 <= j < |r.body| && r.body[j].Pos? ensures j == i {
            var l := SigAt(r.body, j);
            assert l == k;
            if i < j { SigsGrow(r.body, i, j); }
            if j < i { SigsGrow(r.body, j, i); }
          }
        }
      }
    }
    if AllChecked(r) {
      forall k, l | 0 <= k < |sigs| && 0 <= l < |sigs| && sigs[k].positive && sigs[k].arity == 0 && sigs[l].positive
        ensures l == k {
        var i := ClauseAt(r.body, k);
        var j := ClauseAt(r.body, l);
        assert CheckedAtom(r.body, i);
      }
    }
  }

  lemma RewrittenShape(rule: Rule, n1: nat, n2: nat, n3: nat)
    requires PlainCode(rule)
    ensures var r := Rewritten(rule, n1, n2, n3); Sigs(r.body) == Sigs(rule.body) && SameShape(r.heads, rule.heads)
  {
    var a := WildRule(rule, n1).0;
    var body := ConstBody(a.body, n2).0;
    var h := HeadConsts(a.heads, n3);
    PlainHeadsStay(rule.heads, n1);
    HeadLets(a.heads, n3);
    HeadShapes(a.heads, n3);
    if |h.1| == 0 { assert body + h.1 == body; NoHeadConsts(a.heads, n3); }
    assert Rewritten(rule, n1, n2, n3) == Rule(h.0, body + h.1);
    hide Rewritten, HeadConsts, ConstBody, WildBody;
    WildSigs(rule.body, WildHeads(rule.heads, n1).1);
    ConstSigs(a.body, n2);
    LetsSigs(h.1, n3);
    SigsAppend(body, h.1);
  }

  ghost predicate HeadsTyped(heads: seq<Atom>, arity: map<string, nat>) {
    forall h :: 0 <= h < |heads| ==> TypedAtom(heads[h], arity)
  }

  lemma ShapesTyped(a: seq<Atom>, b: seq<Atom>, arity: map<string, nat>)
    requires SameShape(a, b)
    ensures HeadsTyped(a, arity) <==> HeadsTyped(b, arity)
  {
    assert forall h :: 0 <= h < |b| ==> (TypedAtom(a[h], arity) <==> TypedAtom(b[h], arity));
  }

  lemma TypedBySigs(r: Rule, arity: map<string, nat>)
    ensures TypedRule(r, arity) <==> SigsTyped(Sigs(r.body), arity) && HeadsTyped(r.heads, arity)
  {
    hide SigsTyped, Sigs, TypedAtom;
    TypedIff(r.body, arity);
  }

  // A rewritten rule fits its stratum exactly when the written one is in scope, typed, and checks every atom.
  lemma RewrittenRuleOk(rule: Rule, n1: nat, n2: nat, n3: nat, arity: map<string, nat>)
    requires PlainCode(rule)
    ensures BaseRuleOk(Rewritten(rule, n1, n2, n3), arity)
        <==> Writable(rule) && TypedRule(rule, arity) && AllChecked(rule)
  {
    hide Rewritten, Lowerable, Writable;
    var r := Rewritten(rule, n1, n2, n3);
    assert BaseRuleOk(r, arity) <==> Lowerable(r) && TypedRule(r, arity) && AllChecked(r);
    hide *;
    RewritesMakeLowerable(rule, n1, n2, n3);
    RewrittenShape(rule, n1, n2, n3);
    TypedBySigs(r, arity);
    TypedBySigs(rule, arity);
    ShapesTyped(r.heads, rule.heads, arity);
    CheckedIff(r);
    CheckedIff(rule);
  }

  // --- Whole programs ---

  // What the three rewrite passes make of a rule list.
  function AllRewritten(rules: seq<Rule>): seq<Rule> {
    HeadRules(ConstRules(WildRules(rules, 0).0, 0).0, 0).0
  }

  lemma {:induction false} WildRuleAt(rules: seq<Rule>, k: nat, n: nat)
    requires k < |rules|
    ensures |WildRules(rules, n).0| == |rules|
    ensures WildRules(rules, n).0[k] == WildRule(rules[k], WildRules(rules[..k], n).1).0
  {
    hide WildRule;
    var m := |rules| - 1;
    if m > 0 { WildRuleAt(rules[..m], if k < m then k else 0, n); }
    if k < m { assert rules[..m][..k] == rules[..k]; }
    WildCount(rules[..m], n);
  }

  lemma {:induction false} WildCount(rules: seq<Rule>, n: nat)
    ensures |WildRules(rules, n).0| == |rules|
  {
    if |rules| > 0 { WildCount(rules[..|rules| - 1], n); }
  }

  lemma {:induction false} ConstRuleAt(rules: seq<Rule>, k: nat, n: nat)
    requires k < |rules|
    ensures |ConstRules(rules, n).0| == |rules|
    ensures ConstRules(rules, n).0[k] == Rule(rules[k].heads, ConstBody(rules[k].body, ConstRules(rules[..k], n).1).0)
  {
    hide ConstBody;
    var m := |rules| - 1;
    ConstCount(rules[..m], n);
    if k < m {
      ConstRuleAt(rules[..m], k, n);
      assert rules[..m][..k] == rules[..k];
    }
  }

  lemma {:induction false} ConstCount(rules: seq<Rule>, n: nat)
    ensures |ConstRules(rules, n).0| == |rules|
  {
    if |rules| > 0 { ConstCount(rules[..|rules| - 1], n); }
  }

  lemma {:induction false} HeadRuleAt(rules: seq<Rule>, k: nat, n: nat)
    requires k < |rules|
    ensures |HeadRules(rules, n).0| == |rules|
    ensures HeadRules(rules, n).0[k] == HeadRule(rules[k], HeadRules(rules[..k], n).1).0
  {
    hide HeadRule;
    var m := |rules| - 1;
    HeadCount(rules[..m], n);
    if k < m {
      HeadRuleAt(rules[..m], k, n);
      assert rules[..m][..k] == rules[..k];
    }
  }

  lemma {:induction false} HeadCount(rules: seq<Rule>, n: nat)
    ensures |HeadRules(rules, n).0| == |rules|
  {
    if |rules| > 0 { HeadCount(rules[..|rules| - 1], n); }
  }

  ghost predicate IsRewritten(r: Rule, rule: Rule) {
    exists n1, n2, n3 :: r == Rewritten(rule, n1, n2, n3)
  }

  lemma RewrittenAt(rules: seq<Rule>, k: nat)
    requires k < |rules|
    ensures |AllRewritten(rules)| == |rules| && IsRewritten(AllRewritten(rules)[k], rules[k])
  {
    var a := WildRules(rules, 0).0;
    var b := ConstRules(a, 0).0;
    WildRuleAt(rules, k, 0);
    ConstRuleAt(a, k, 0);
    HeadRuleAt(b, k, 0);
    hide WildRule, ConstBody, HeadRule, WildRules, ConstRules, HeadRules;
    assert AllRewritten(rules)[k] == Rewritten(rules[k], WildRules(rules[..k], 0).1, ConstRules(a[..k], 0).1,
                                               HeadRules(b[..k], 0).1);
  }

  lemma RewrittenCount(rules: seq<Rule>)
    ensures |AllRewritten(rules)| == |rules|
  {
    WildCount(rules, 0);
    ConstCount(WildRules(rules, 0).0, 0);
    HeadCount(ConstRules(WildRules(rules, 0).0, 0).0, 0);
  }

  // Stable models of rules as written: each wildcard of a positive atom stands for some value of its own.
  ghost predicate ClosedWritten(rules: seq<Rule>, sem: Interp, db: Facts, neg: Facts) {
    forall k, f :: 0 <= k < |rules| && DerivesWritten(rules[k], sem, db, neg, f) ==> f in db
  }

  ghost predicate InEveryWritten(rules: seq<Rule>, sem: Interp, base: Facts, neg: Facts, f: Fact) {
    forall db: Facts :: base <= db && ClosedWritten(rules, sem, db, neg) ==> f in db
  }

  // m is the least set that holds the given facts and is closed under the written rules, negations read in m itself.
  ghost predicate StableWritten(rules: seq<Rule>, sem: Interp, edb: Facts, m: Facts) {
    forall f :: f in m <==> InEveryWritten(rules, sem, edb, m, f)
  }

  ghost predicate AllPlain(rules: seq<Rule>) {
    forall k :: 0 <= k < |rules| ==> PlainCode(rules[k])
  }

  lemma RewrittenDerives(r: Rule, rule: Rule, sem: Interp, db: Facts, neg: Facts, f: Fact)
    requires PlainCode(rule) && IsRewritten(r, rule)
    ensures DerivesFrom(r, sem, db, neg, f) <==> DerivesWritten(rule, sem, db, neg, f)
  {
    hide WildRule, ConstBody, HeadRule, DerivesFrom, DerivesWritten, PlainCode;
    var n1, n2, n3 :| r == Rewritten(rule, n1, n2, n3);
    RewritesPreserve(rule, n1, n2, n3, sem, db, neg, f);
  }

  lemma ClosedIff(rules: seq<Rule>, sem: Interp, db: Facts, neg: Facts)
    requires AllPlain(rules)
    ensures ClosedUnder(AllRewritten(rules), sem, db, neg) <==> ClosedWritten(rules, sem, db, neg)
  {
    var out := AllRewritten(rules);
    RewrittenCount(rules);
    hide AllRewritten, DerivesFrom, DerivesWritten, IsRewritten, PlainCode;
    forall k, f | 0 <= k < |rules|
      ensures DerivesFrom(out[k], sem, db, neg, f) <==> DerivesWritten(rules[k], sem, db, neg, f) {
      RewrittenAt(rules, k);
      RewrittenDerives(out[k], rules[k], sem, db, neg, f);
    }
  }

  // The rewrites keep the stable models.
  lemma RewritesKeepStable(rules: seq<Rule>, sem: Interp, edb: Facts, m: Facts)
    requires AllPlain(rules)
    ensures IsStable(AllRewritten(rules), sem, edb, m) <==> StableWritten(rules, sem, edb, m)
  {
    var out := AllRewritten(rules);
    hide AllRewritten, ClosedUnder, ClosedWritten, AllPlain;
    forall db ensures ClosedUnder(out, sem, db, m) <==> ClosedWritten(rules, sem, db, m) {
      ClosedIff(rules, sem, db, m);
    }
    forall f ensures f in LeastClosed(out, sem, edb, m) <==> InEveryWritten(rules, sem, edb, m, f) {}
  }

  // --- From the written rules to the stored facts ---

  // Each rule is in scope as written, typed, and checks every atom; inline code and heads use no underscore names.
  ghost predicate WrittenOk(rules: seq<Rule>, arity: map<string, nat>) {
    forall k ::
        0 <= k < |rules| ==>
        PlainCode(rules[k]) && Writable(rules[k]) && TypedRule(rules[k], arity) && AllChecked(rules[k])
  }

  lemma RewrittenRulesOk(rules: seq<Rule>, arity: map<string, nat>, r: Rule)
    requires WrittenOk(rules, arity) && r in AllRewritten(rules)
    ensures BaseRuleOk(r, arity)
  {
    hide AllRewritten, BaseRuleOk, Rewritten, Writable, TypedRule, AllChecked, PlainCode;
    RewrittenCount(rules);
    var k :| 0 <= k < |AllRewritten(rules)| && AllRewritten(rules)[k] == r;
    RewrittenAt(rules, k);
    var n1, n2, n3 :| r == Rewritten(rules[k], n1, n2, n3);
    RewrittenRuleOk(rules[k], n1, n2, n3, arity);
  }

  lemma WrittenArePlain(rules: seq<Rule>, arity: map<string, nat>)
    requires WrittenOk(rules, arity)
    ensures AllPlain(rules)
  {}

  lemma AllRewrittenOk(rules: seq<Rule>, arity: map<string, nat>)
    requires WrittenOk(rules, arity)
    ensures RulesOk(AllRewritten(rules), arity)
  {
    hide WrittenOk, AllRewritten, BaseRuleOk;
    forall r | r in AllRewritten(rules) ensures BaseRuleOk(r, arity) { RewrittenRulesOk(rules, arity, r); }
  }

  // What the main theorem asks of the rules and of what the passes make of them: the written rules are in scope, the
  // strata are in order, and no loop drops a rule that could derive something.
  ghost predicate Compilable(rules: seq<Rule>, arity: map<string, nat>, p: Passes) {
    WrittenOk(rules, arity) && PassesRan(AllRewritten(rules), arity, p) && StrataInOrder(AllRewritten(rules), p)
        && RulesRun(p.sccs, AllRewritten(rules))
  }

  // The main theorem on the rules as a user writes them: wildcards and constants are rewritten, the rewritten rules are
  // stratified, planned, given indexes and emitted; what is stored when the program has run is the one stable model of
  // the written rules, whichever of the inserted rebuilds the run executes.
  lemma WrittenProgramIsStable(rules: seq<Rule>, arity: map<string, nat>, p: Passes, x: Machine, start: World, w: World,
                               m: Facts)
    requires Compilable(rules, arity, p) && UnitsOk(p.units) && Planned(p.units)
    requires LeavesOut(p.blocks, x.run) && |x.run| == |ProgramSteps(p.units)|
    requires Starts(p.units, arity, start) && ProgramRuns(p.units, x, |p.units|, start, w)
    ensures StableWritten(rules, x.sem, FactsOf(start.truth), m) <==> m == StoredFacts(w.db)
  {
    hide *;
    CompilableMeans(rules, arity, p);
    AllRewrittenOk(rules, arity);
    WrittenArePlain(rules, arity);
    CompiledProgramIsStable(AllRewritten(rules), arity, p, x, start, w, m);
    RewritesKeepStable(rules, x.sem, FactsOf(start.truth), m);
  }

  lemma CompilableMeans(rules: seq<Rule>, arity: map<string, nat>, p: Passes)
    requires Compilable(rules, arity, p)
    ensures WrittenOk(rules, arity) && PassesRan(AllRewritten(rules), arity, p) && StrataInOrder(AllRewritten(rules), p)
    ensures RulesRun(p.sccs, AllRewritten(rules))
  {}

  // And when that model is finite, the compiled program has a run, and it stores the model.
  lemma WrittenProgramStops(rules: seq<Rule>, arity: map<string, nat>, p: Passes, x: Machine, start: World, m: Facts,
                            universe: set<Fact>)
    requires Compilable(rules, arity, p) && UnitsOk(p.units) && Planned(p.units) && LeavesOut(p.blocks, x.run)
    requires Starts(p.units, arity, start)
    requires StableWritten(rules, x.sem, FactsOf(start.truth), m) && forall f :: f in m ==> f in universe
    ensures |x.run| == |ProgramSteps(p.units)|
    ensures exists w :: ProgramRuns(p.units, x, |p.units|, start, w) && m == StoredFacts(w.db)
  {
    hide *;
    CompilableMeans(rules, arity, p);
    AllRewrittenOk(rules, arity);
    WrittenArePlain(rules, arity);
    RewritesKeepStable(rules, x.sem, FactsOf(start.truth), m);
    PassesCompile(AllRewritten(rules), arity, p, x);
    ModelIsRun(AllRewritten(rules), arity, p, x.sem, FactsOf(start.truth), m);
    CompiledProgramStops(p.units, x, arity, start, universe);
    var w :| ProgramRuns(p.units, x, |p.units|, start, w);
    WrittenProgramIsStable(rules, arity, p, x, start, w, m);
  }

  lemma ModelIsRun(rules: seq<Rule>, arity: map<string, nat>, p: Passes, sem: Interp, edb: Facts, m: Facts)
    requires PassesRan(rules, arity, p) && StrataInOrder(rules, p) && RulesRun(p.sccs, rules)
    requires IsStable(rules, sem, edb, m)
    ensures Run(AllLooped(p.strata), sem, edb) == m
  {
    hide IsStratification, DraftsFor;
    assert OrderSurvives(p.g, p.sccs, rules) && NegationApart(p.sccs, rules);
    hide *;
    RanMeans(rules, arity, p);
    StratificationShape(rules, p.g, p.sccs, p.strata);
    StratifiedIff(rules, p.g, p.sccs, p.strata);
    LoopsReadIff(rules, p.g, p.sccs, p.strata);
    AllLoopedRun(p.strata, sem, edb);
  }

  // In particular from a database into which facts were only loaded, into relations that no rule writes.
  lemma LoadedProgramIsStable(rules: seq<Rule>, arity: map<string, nat>, p: Passes, x: Machine, start: World, w: World,
                              m: Facts)
    requires Compilable(rules, arity, p) && UnitsOk(p.units) && Planned(p.units)
    requires LeavesOut(p.blocks, x.run) && |x.run| == |ProgramSteps(p.units)|
    requires Loaded(p.units, arity, start) && ProgramRuns(p.units, x, |p.units|, start, w)
    ensures StableWritten(rules, x.sem, FactsOf(start.truth), m) <==> m == StoredFacts(w.db)
  {
    hide *;
    CompilableMeans(rules, arity, p);
    AllRewrittenOk(rules, arity);
    PassesCompile(AllRewritten(rules), arity, p, x);
    LoadedStarts(p.units, x, arity, start);
    WrittenProgramIsStable(rules, arity, p, x, start, w, m);
  }
}
