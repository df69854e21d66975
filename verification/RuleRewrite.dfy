/** The source rewrites that name what a rule leaves anonymous: wildcards, constants in the body, constants in the
    head. */
module RuleRewrite {
  import opened Datalog

  // ========== Fresh ==========

  // Generated variable names: a prefix and a decimal counter.

  const DIGITS: string := "0123456789"

  function Decimal(n: nat): (s: string)
    ensures |s| > 0
  {
    if n < 10 then [DIGITS[n]] else Decimal(n / 10) + [DIGITS[n % 10]]
  }

  lemma DigitsDiffer(a: nat, b: nat)
    requires a < 10 && b < 10 && DIGITS[a] == DIGITS[b]
    ensures a == b
  {}

  lemma {:induction false} DecimalInjective(a: nat, b: nat)
    requires Decimal(a) == Decimal(b)
    ensures a == b
    decreases a + b
  {
    var x, y := Decimal(a), Decimal(b);
    assert x[|x| - 1] == DIGITS[a % 10] && y[|y| - 1] == DIGITS[b % 10];
    DigitsDiffer(a % 10, b % 10);
    if a >= 10 && b >= 10 {
      assert x[..|x| - 1] == Decimal(a / 10) && y[..|y| - 1] == Decimal(b / 10);
      DecimalInjective(a / 10, b / 10);
    }
  }

  const GEN: string := "_gen"
  const C: string := "_c"
  const HC: string := "_hc"

  function Name(prefix: string, n: nat): string {
    prefix + Decimal(n)
  }

  predicate HasPrefix(prefix: string, v: string) {
    prefix <= v
  }

  lemma NameInjective(prefix: string, a: nat, b: nat)
    ensures HasPrefix(prefix, Name(prefix, a))
    ensures Name(prefix, a) == Name(prefix, b) <==> a == b
  {
    if Name(prefix, a) == Name(prefix, b) {
      assert Name(prefix, a)[|prefix|..] == Decimal(a) && Name(prefix, b)[|prefix|..] == Decimal(b);
      DecimalInjective(a, b);
    }
  }

  // The three kinds of generated names never meet.
  lemma PrefixesApart(v: string)
    ensures HasPrefix(GEN, v) ==> !HasPrefix(C, v) && !HasPrefix(HC, v) && IsWildcard(v)
    ensures HasPrefix(C, v) ==> !HasPrefix(HC, v) && IsWildcard(v)
    ensures HasPrefix(HC, v) ==> IsWildcard(v)
  {
    if HasPrefix(GEN, v) { assert v[1] == 'g' && v[0] == '_'; }
    if HasPrefix(C, v) { assert v[1] == 'c' && v[0] == '_'; }
    if HasPrefix(HC, v) { assert v[1] == 'h' && v[0] == '_'; }
  }

  // --- What a clause mentions ---

  function ArgNames(args: seq<Arg>): set<string> {
    set k | 0 <= k < |args| && args[k].LVar? :: args[k].name
  }

  function ClauseNames(c: Clause): set<string> {
    match c
    case Pos(a) => ArgNames(a.args)
    case Neg(a) => ArgNames(a.args)
    case Filter(vs, _) => set v | v in vs
    case Let(x, _, deps) => {x} + set v | v in deps
  }

  function BodyNames(body: seq<Clause>): set<string> {
    if |body| == 0 then {} else BodyNames(body[..|body| - 1]) + ClauseNames(body[|body| - 1])
  }

  function HeadNames(heads: seq<Atom>): set<string> {
    if |heads| == 0 then {} else HeadNames(heads[..|heads| - 1]) + ArgNames(heads[|heads| - 1].args)
  }

  ghost predicate Agree(a: Env, b: Env, names: set<string>) {
    forall v :: v in names ==> Look(a, v) == Look(b, v)
  }

  lemma GroundAgrees(a: Atom, x: Env, y: Env)
    requires Agree(x, y, ArgNames(a.args))
    ensures Ground(a, x) == Ground(a, y)
  {
    forall k | 0 <= k < |a.args| ensures ArgValue(a.args[k], x) == ArgValue(a.args[k], y) {
      if a.args[k].LVar? { assert a.args[k].name in ArgNames(a.args); }
    }
  }

  lemma MatchesAgrees(a: Atom, row: Row, x: Env, y: Env)
    requires Agree(x, y, ArgNames(a.args))
    ensures Matches(a, row, x) <==> Matches(a, row, y)
  {
    forall k | 0 <= k < |a.args| ensures ArgValue(a.args[k], x) == ArgValue(a.args[k], y) {
      if a.args[k].LVar? { assert a.args[k].name in ArgNames(a.args); }
    }
  }

  lemma ValuesAgree(vs: seq<string>, x: Env, y: Env)
    requires forall v :: v in vs ==> Look(x, v) == Look(y, v)
    ensures Values(vs, x) == Values(vs, y)
  {
    forall k | 0 <= k < |vs| ensures Look(x, vs[k]) == Look(y, vs[k]) { assert vs[k] in vs; }
  }

  // A clause sees only the names it mentions.
  lemma ClauseAgrees(c: Clause, sem: Interp, pos: Facts, neg: Facts, x: Env, y: Env)
    requires Agree(x, y, ClauseNames(c))
    ensures SatClause(c, sem, pos, neg, x) <==> SatClause(c, sem, pos, neg, y)
  {
    match c
    case Pos(a) => GroundAgrees(a, x, y);
    case Neg(a) => forall row ensures Matches(a, row, x) <==> Matches(a, row, y) { MatchesAgrees(a, row, x, y); }
    case Filter(vs, _) => ValuesAgree(vs, x, y);
    case Let(_, _, deps) => ValuesAgree(deps, x, y);
  }

  // All clauses read one database; negations read neg.
  ghost predicate Sat(body: seq<Clause>, sem: Interp, db: Facts, neg: Facts, env: Env) {
    forall k :: 0 <= k < |body| ==> SatClause(body[k], sem, db, neg, env)
  }

  lemma {:induction false} BodyAgrees(body: seq<Clause>, sem: Interp, db: Facts, neg: Facts, x: Env, y: Env)
    requires Agree(x, y, BodyNames(body))
    ensures Sat(body, sem, db, neg, x) <==> Sat(body, sem, db, neg, y)
  {
    if |body| > 0 {
      var n := |body| - 1;
      BodyAgrees(body[..n], sem, db, neg, x, y);
      ClauseAgrees(body[n], sem, db, neg, x, y);
      SatLast(body, sem, db, neg, x);
      SatLast(body, sem, db, neg, y);
    }
  }

  lemma SatLast(body: seq<Clause>, sem: Interp, db: Facts, neg: Facts, env: Env)
    requires |body| > 0
    ensures Sat(body, sem, db, neg, env)
        <==> Sat(body[..|body| - 1], sem, db, neg, env) && SatClause(body[|body| - 1], sem, db, neg, env)
  {
    hide SatClause;
    var n := |body| - 1;
    assert body == body[..n] + [body[n]];
    if Sat(body[..n], sem, db, neg, env) && SatClause(body[n], sem, db, neg, env) {
      forall k | 0 <= k < |body| ensures SatClause(body[k], sem, db, neg, env) {
        if k < n { assert body[k] == body[..n][k]; }
      }
    }
    if Sat(body, sem, db, neg, env) {
      forall k | 0 <= k < n ensures SatClause(body[..n][k], sem, db, neg, env) { assert body[..n][k] == body[k]; }
    }
  }

  lemma SatAppend(a: seq<Clause>, b: seq<Clause>, sem: Interp, db: Facts, neg: Facts, env: Env)
    ensures Sat(a + b, sem, db, neg, env) <==> Sat(a, sem, db, neg, env) && Sat(b, sem, db, neg, env)
  {
    hide SatClause;
    if Sat(a + b, sem, db, neg, env) {
      forall k | 0 <= k < |a| ensures SatClause(a[k], sem, db, neg, env) { assert a[k] == (a + b)[k]; }
      forall k | 0 <= k < |b| ensures SatClause(b[k], sem, db, neg, env) { assert b[k] == (a + b)[|a| + k]; }
    }
  }

  lemma SatIsSatBody(body: seq<Clause>, sem: Interp, db: Facts, neg: Facts, env: Env)
    ensures Sat(body, sem, db, neg, env) <==> SatBody(body, sem, db, db, -1, neg, env)
  {
    hide SatClause;
    assert forall k :: 0 <= k < |body| ==> View(db, db, -1, k) == db;
  }

  lemma HeadsAgree(rule: Rule, x: Env, y: Env, f: Fact)
    requires Agree(x, y, HeadNames(rule.heads)) && IsHeadFact(rule, x, f)
    ensures IsHeadFact(rule, y, f)
  {
    var h :| 0 <= h < |rule.heads| && f == Fact(rule.heads[h].rel, Ground(rule.heads[h], x));
    HeadListed(rule.heads, h);
    GroundAgrees(rule.heads[h], x, y);
  }

  lemma {:induction false} HeadListed(heads: seq<Atom>, h: nat)
    requires h < |heads|
    ensures ArgNames(heads[h].args) <= HeadNames(heads)
  {
    if h < |heads| - 1 { HeadListed(heads[..|heads| - 1], h); }
  }

  // ========== Rule rewrite ==========

  // The source rewrites that name what a rule leaves anonymous: wildcards, constants in the body, constants in the
  // head.

  // --- Wildcards: every underscore name in an atom becomes _gen1, _gen2, ... ---

  function WildArgs(args: seq<Arg>, n: nat): (r: (seq<Arg>, nat))
    ensures |r.0| == |args| && r.1 >= n
  {
    if |args| == 0 then ([], n) else
      var before := WildArgs(args[..|args| - 1], n);
      var last := args[|args| - 1];
      if IsHole(last) then (before.0 + [LVar(Name(GEN, before.1 + 1))], before.1 + 1) else (before.0 + [last], before.1)
  }

  function WildAtom(a: Atom, n: nat): (Atom, nat) {
    var r := WildArgs(a.args, n);
    (Atom(a.rel, r.0), r.1)
  }

  function WildHeads(heads: seq<Atom>, n: nat): (seq<Atom>, nat) {
    if |heads| == 0 then ([], n) else
      var before := WildHeads(heads[..|heads| - 1], n);
      var r := WildAtom(heads[|heads| - 1], before.1);
      (before.0 + [r.0], r.1)
  }

  function WildClause(c: Clause, n: nat): (Clause, nat) {
    match c
    case Pos(a) => (Pos(WildAtom(a, n).0), WildAtom(a, n).1)
    case Neg(a) => (Neg(WildAtom(a, n).0), WildAtom(a, n).1)
    case Filter(_, _) => (c, n)
    case Let(_, _, _) => (c, n)
  }

  function WildBody(body: seq<Clause>, n: nat): (r: (seq<Clause>, nat))
    ensures |r.0| == |body|
  {
    if |body| == 0 then ([], n) else
      var before := WildBody(body[..|body| - 1], n);
      var r := WildClause(body[|body| - 1], before.1);
      (before.0 + [r.0], r.1)
  }

  function WildRule(rule: Rule, n: nat): (Rule, nat) {
    var heads := WildHeads(rule.heads, n);
    var body := WildBody(rule.body, heads.1);
    (Rule(heads.0, body.0), body.1)
  }

  // One counter runs through all the rules.
  function WildRules(rules: seq<Rule>, n: nat): (seq<Rule>, nat) {
    if |rules| == 0 then ([], n) else
      var before := WildRules(rules[..|rules| - 1], n);
      var r := WildRule(rules[|rules| - 1], before.1);
      (before.0 + [r.0], r.1)
  }

  method RewriteArgs(args: seq<Arg>, counter0: nat) returns (out: seq<Arg>, counter: nat)
    ensures (out, counter) == WildArgs(args, counter0)
  {
    out, counter := [], counter0;
    for k := 0 to |args|
      invariant (out, counter) == WildArgs(args[..k], counter0)
    {
      assert args[..k + 1][..k] == args[..k];
      if IsHole(args[k]) {
        counter := counter + 1;
        out := out + [LVar(Name(GEN, counter))];
      } else {
        out := out + [args[k]];
      }
    }
    assert args[..|args|] == args;
  }

  method RewriteWildcards(rules: seq<Rule>) returns (out: seq<Rule>)
    ensures out == WildRules(rules, 0).0
  {
    var counter: nat := 0;
    out := [];
    for k := 0 to |rules|
      invariant (out, counter) == WildRules(rules[..k], 0)
    {
      assert rules[..k + 1][..k] == rules[..k];
      ghost var start := counter;
      var rule := rules[k];
      var heads: seq<Atom> := [];
      for h := 0 to |rule.heads|
        invariant (heads, counter) == WildHeads(rule.heads[..h], start)
      {
        assert rule.heads[..h + 1][..h] == rule.heads[..h];
        var args;
        args, counter := RewriteArgs(rule.heads[h].args, counter);
        heads := heads + [Atom(rule.heads[h].rel, args)];
      }
      assert rule.heads[..|rule.heads|] == rule.heads;
      ghost var mid := counter;
      var body: seq<Clause> := [];
      for i := 0 to |rule.body|
        invariant (body, counter) == WildBody(rule.body[..i], mid)
      {
        assert rule.body[..i + 1][..i] == rule.body[..i];
        var c := rule.body[i];
        if c.Pos? || c.Neg? {
          var args;
          args, counter := RewriteArgs(c.atom.args, counter);
          var a := Atom(c.atom.rel, args);
          body := body + [if c.Pos? then Pos(a) else Neg(a)];
        } else {
          body := body + [c];
        }
      }
      assert rule.body[..|rule.body|] == rule.body;
      out := out + [Rule(heads, body)];
    }
    assert rules[..|rules|] == rules;
  }

  // As written, each wildcard of a positive atom stands for some value of its own.
  ghost predicate SatWritten(c: Clause, sem: Interp, db: Facts, neg: Facts, env: Env) {
    if c.Pos? then exists row :: Fact(c.atom.rel, row) in db && Matches(c.atom, row, env)
    else SatClause(c, sem, db, neg, env)
  }

  ghost predicate AllWritten(body: seq<Clause>, sem: Interp, db: Facts, neg: Facts, env: Env) {
    forall k :: 0 <= k < |body| ==> SatWritten(body[k], sem, db, neg, env)
  }

  // What the rule derives as it was written.
  ghost predicate DerivesWritten(rule: Rule, sem: Interp, db: Facts, neg: Facts, f: Fact) {
    exists env: Env :: AllWritten(rule.body, sem, db, neg, env) && IsHeadFact(rule, env, f)
  }

  ghost predicate Plain(names: set<string>) {
    forall v :: v in names ==> !IsWildcard(v)
  }

  ghost predicate PlainInline(c: Clause) {
    (c.Filter? || c.Let?) ==> Plain(ClauseNames(c))
  }

  ghost predicate InlinePlain(body: seq<Clause>) {
    forall k :: 0 <= k < |body| ==> PlainInline(body[k])
  }

  // Inline code and heads use no underscore names.
  ghost predicate PlainCode(rule: Rule) {
    Plain(HeadNames(rule.heads)) && InlinePlain(rule.body)
  }

  // Not underscored, or generated no later than n.
  ghost predicate UpTo(v: string, n: nat) {
    !IsWildcard(v) || exists i :: 0 <= i <= n && v == Name(GEN, i)
  }

  ghost predicate NamesUpTo(names: set<string>, n: nat) {
    forall v :: v in names ==> UpTo(v, n)
  }

  lemma NextIsFresh(v: string, n: nat)
    requires UpTo(v, n)
    ensures v != Name(GEN, n + 1)
  {
    NameInjective(GEN, n + 1, n + 1);
    PrefixesApart(Name(GEN, n + 1));
    if IsWildcard(v) {
      var i :| 0 <= i <= n && v == Name(GEN, i);
      NameInjective(GEN, i, n + 1);
    }
  }

  lemma {:induction false} WildArgsNames(args: seq<Arg>, n: nat)
    ensures NamesUpTo(ArgNames(WildArgs(args, n).0), WildArgs(args, n).1)
    ensures forall k ::
        0 <= k < |args| ==>
        if IsHole(args[k]) then IsHole(WildArgs(args, n).0[k]) else WildArgs(args, n).0[k] == args[k]
  {
    if |args| > 0 {
      var before := WildArgs(args[..|args| - 1], n);
      WildArgsNames(args[..|args| - 1], n);
      var r := WildArgs(args, n);
      NameInjective(GEN, r.1, r.1);
      PrefixesApart(Name(GEN, r.1));
      forall v | v in ArgNames(r.0) ensures UpTo(v, r.1) {
        var k :| 0 <= k < |r.0| && r.0[k].LVar? && r.0[k].name == v;
        if k < |args| - 1 {
          assert before.0[k] == r.0[k] && v in ArgNames(before.0);
        }
      }
    }
  }

  // Two bindings that agree on everything generated so far, and on plain names.
  ghost predicate AgreeUpTo(x: Env, y: Env, n: nat) {
    forall v :: UpTo(v, n) ==> Look(x, v) == Look(y, v)
  }

  lemma UpToGrows(v: string, m: nat, n: nat)
    requires UpTo(v, m) && m <= n
    ensures UpTo(v, n)
  {}

  // The row's values for the holes can be given to the fresh names.
  lemma {:induction false} HolesFilled(args: seq<Arg>, n: nat, row: Row, env: Env) returns (e: Env)
    requires |row| == |args| && forall k :: 0 <= k < |args| && !IsHole(args[k]) ==> row[k] == ArgValue(args[k], env)
    ensures AgreeUpTo(e, env, n)
    ensures forall k :: 0 <= k < |args| ==> ArgValue(WildArgs(args, n).0[k], e) == row[k]
  {
    hide Name;
    if |args| == 0 {
      e := env;
    } else {
      var m := |args| - 1;
      var before := WildArgs(args[..m], n);
      var d := HolesFilled(args[..m], n, row[..m], env);
      WildArgsNames(args[..m], n);
      if IsHole(args[m]) {
        e := d[Name(GEN, before.1 + 1) := row[m]];
        forall k | 0 <= k < m ensures ArgValue(before.0[k], e) == row[k] {
          assert ArgValue(before.0[k], d) == row[..m][k];
          if before.0[k].LVar? {
            assert before.0[k].name in ArgNames(before.0);
            NextIsFresh(before.0[k].name, before.1);
          }
        }
        forall v | UpTo(v, n) ensures Look(e, v) == Look(env, v) {
          UpToGrows(v, n, before.1);
          NextIsFresh(v, before.1);
        }
      } else {
        e := d;
        assert !IsHole(args[m]) && row[m] == ArgValue(args[m], env);
        if args[m].LVar? { assert UpTo(args[m].name, n); }
        forall k | 0 <= k < m ensures ArgValue(before.0[k], e) == row[k] {
          assert ArgValue(before.0[k], d) == row[..m][k];
        }
      }
    }
  }

  lemma WildClauseNames(c: Clause, n: nat)
    requires PlainInline(c)
    ensures WildClause(c, n).1 >= n && NamesUpTo(ClauseNames(WildClause(c, n).0), WildClause(c, n).1)
  {
    if c.Pos? || c.Neg? { WildArgsNames(c.atom.args, n); }
  }

  lemma {:induction false} WildBodyNames(body: seq<Clause>, n: nat)
    requires InlinePlain(body)
    ensures WildBody(body, n).1 >= n && NamesUpTo(BodyNames(WildBody(body, n).0), WildBody(body, n).1)
  {
    if |body| > 0 {
      var m := |body| - 1;
      var before, r := WildBody(body[..m], n), WildBody(body, n);
      WildBodyNames(body[..m], n);
      WildClauseNames(body[m], before.1);
      assert r.0[..m] == before.0;
      forall v | v in BodyNames(r.0) ensures UpTo(v, r.1) {
        if v in BodyNames(before.0) { UpToGrows(v, before.1, r.1); }
      }
    }
  }

  // Renaming the holes of a negated atom changes nothing.
  lemma NegatedSame(a: Atom, n: nat, row: Row, env: Env)
    ensures Matches(WildAtom(a, n).0, row, env) <==> Matches(a, row, env)
  {
    WildArgsNames(a.args, n);
    var b := WildAtom(a, n).0;
    forall k | 0 <= k < |a.args| ensures IsHole(b.args[k]) <==> IsHole(a.args[k]) {}
  }

  lemma ClauseWritten(c: Clause, n: nat, sem: Interp, db: Facts, neg: Facts, env: Env)
    requires SatClause(WildClause(c, n).0, sem, db, neg, env)
    ensures SatWritten(c, sem, db, neg, env)
  {
    if c.Pos? {
      var row := Ground(WildAtom(c.atom, n).0, env);
      WildArgsNames(c.atom.args, n);
      assert Matches(c.atom, row, env);
    } else if c.Neg? {
      forall row ensures Matches(WildAtom(c.atom, n).0, row, env) <==> Matches(c.atom, row, env) {
        NegatedSame(c.atom, n, row, env);
      }
    }
  }

  lemma ClauseRewritten(c: Clause, n: nat, sem: Interp, db: Facts, neg: Facts, env: Env) returns (e: Env)
    requires SatWritten(c, sem, db, neg, env)
    ensures AgreeUpTo(e, env, n) && SatClause(WildClause(c, n).0, sem, db, neg, e)
  {
    e := env;
    if c.Pos? {
      var row :| Fact(c.atom.rel, row) in db && Matches(c.atom, row, env);
      e := HolesFilled(c.atom.args, n, row, env);
      assert Ground(WildAtom(c.atom, n).0, e) == row;
    } else if c.Neg? {
      forall row ensures Matches(WildAtom(c.atom, n).0, row, env) <==> Matches(c.atom, row, env) {
        NegatedSame(c.atom, n, row, env);
      }
    }
  }

  lemma {:induction false} BodyWritten(body: seq<Clause>, n: nat, sem: Interp, db: Facts, neg: Facts, env: Env)
    requires Sat(WildBody(body, n).0, sem, db, neg, env)
    ensures AllWritten(body, sem, db, neg, env)
  {
    hide SatWritten, SatClause, WildClause;
    if |body| > 0 {
      var m := |body| - 1;
      var r := WildBody(body, n);
      SatLast(r.0, sem, db, neg, env);
      assert r.0[..m] == WildBody(body[..m], n).0;
      BodyWritten(body[..m], n, sem, db, neg, env);
      ClauseWritten(body[m], WildBody(body[..m], n).1, sem, db, neg, env);
      forall k | 0 <= k < |body| ensures SatWritten(body[k], sem, db, neg, env) {
        if k < m { assert body[..m][k] == body[k]; }
      }
    }
  }

  lemma {:induction false} BodyRewritten(body: seq<Clause>, n: nat, sem: Interp, db: Facts, neg: Facts, env: Env)
    returns (e: Env)
    requires InlinePlain(body) && AllWritten(body, sem, db, neg, env)
    ensures AgreePlain(e, env) && Sat(WildBody(body, n).0, sem, db, neg, e)
  {
    hide SatWritten, SatClause, WildClause;
    if |body| == 0 {
      e := env;
    } else {
      var m := |body| - 1;
      var before, r := WildBody(body[..m], n), WildBody(body, n);
      var d := BodyRewritten(body[..m], n, sem, db, neg, env);
      assert SatWritten(body[m], sem, db, neg, env);
      WrittenAgrees(body[m], sem, db, neg, env, d);
      e := ClauseRewritten(body[m], before.1, sem, db, neg, d);
      WildBodyNames(body[..m], n);
      BodyAgrees(before.0, sem, db, neg, d, e);
      assert r.0[..m] == before.0;
      SatLast(r.0, sem, db, neg, e);
    }
  }

  ghost predicate AgreePlain(x: Env, y: Env) {
    forall v :: !IsWildcard(v) ==> Look(x, v) == Look(y, v)
  }

  // As written, a clause does not see underscore names.
  lemma WrittenAgrees(c: Clause, sem: Interp, db: Facts, neg: Facts, x: Env, y: Env)
    requires AgreePlain(x, y) && PlainInline(c) && SatWritten(c, sem, db, neg, x)
    ensures SatWritten(c, sem, db, neg, y)
  {
    if c.Pos? || c.Neg? {
      forall row ensures Matches(c.atom, row, x) <==> Matches(c.atom, row, y) {
        forall k | 0 <= k < |c.atom.args| && !IsHole(c.atom.args[k])
          ensures ArgValue(c.atom.args[k], x) == ArgValue(c.atom.args[k], y) {}
      }
    } else {
      ClauseAgrees(c, sem, db, neg, x, y);
    }
  }

  lemma {:induction false} PlainHeadsStay(heads: seq<Atom>, n: nat)
    requires Plain(HeadNames(heads))
    ensures WildHeads(heads, n) == (heads, n)
  {
    hide WildArgs, ArgNames;
    if |heads| > 0 {
      var m := |heads| - 1;
      PlainHeadsStay(heads[..m], n);
      PlainArgsStay(heads[m].args, n);
      assert heads == heads[..m] + [heads[m]];
    }
  }

  lemma {:induction false} PlainArgsStay(args: seq<Arg>, n: nat)
    requires Plain(ArgNames(args))
    ensures WildArgs(args, n) == (args, n)
  {
    if |args| > 0 {
      var m := |args| - 1;
      assert ArgNames(args[..m]) <= ArgNames(args);
      PlainArgsStay(args[..m], n);
      if args[m].LVar? { assert args[m].name in ArgNames(args); }
      assert args == args[..m] + [args[m]];
    }
  }

  // Naming the wildcards apart keeps what the rule derives.
  lemma WildcardsPreserve(rule: Rule, n: nat, sem: Interp, db: Facts, neg: Facts, f: Fact)
    requires PlainCode(rule)
    ensures DerivesFrom(WildRule(rule, n).0, sem, db, neg, f) <==> DerivesWritten(rule, sem, db, neg, f)
  {
    PlainHeadsStay(rule.heads, n);
    var r := WildRule(rule, n).0;
    assert r.heads == rule.heads && r.body == WildBody(rule.body, n).0;
    hide WildRule, WildBody, SatBody, SatWritten, IsHeadFact;
    if env :| SatBody(r.body, sem, db, db, -1, neg, env) && IsHeadFact(r, env, f) {
      SatIsSatBody(r.body, sem, db, neg, env);
      BodyWritten(rule.body, n, sem, db, neg, env);
      SameHeads(r, rule, env, f);
    }
    if env :| AllWritten(rule.body, sem, db, neg, env) && IsHeadFact(rule, env, f) {
      var e := BodyRewritten(rule.body, n, sem, db, neg, env);
      SatIsSatBody(r.body, sem, db, neg, e);
      HeadsAgree(rule, env, e, f);
      SameHeads(rule, r, e, f);
    }
  }

  lemma SameHeads(a: Rule, b: Rule, env: Env, f: Fact)
    requires a.heads == b.heads && IsHeadFact(a, env, f)
    ensures IsHeadFact(b, env, f)
  {}

  // ========== Constant rewrite ==========

  // The two constant rewrites: a body constant becomes a fresh variable and a filter, a head constant a fresh
  // variable and a let.

  predicate HasConst(a: Atom) {
    exists k :: 0 <= k < |a.args| && a.args[k].Const?
  }

  // The arguments with constants named prefix0, prefix1, ...; the names, the values, the next counter.
  datatype Named = Named(args: seq<Arg>, vars: seq<string>, values: seq<int>, next: nat)

  function NameConsts(prefix: string, args: seq<Arg>, n: nat): (r: Named)
    ensures |r.args| == |args| && |r.vars| == |r.values| && r.next == n + |r.vars|
  {
    if |args| == 0 then Named([], [], [], n) else
      var r := NameConsts(prefix, args[..|args| - 1], n);
      match args[|args| - 1]
      case LVar(v) => Named(r.args + [LVar(v)], r.vars, r.values, r.next)
      case Const(c) => Named(r.args + [LVar(Name(prefix, r.next))], r.vars + [Name(prefix, r.next)], r.values + [c],
                             r.next + 1)
  }

  function ConstClause(c: Clause, n: nat): (seq<Clause>, nat) {
    if c.Pos? && HasConst(c.atom) then
      var r := NameConsts(C, c.atom.args, n);
      ([Pos(Atom(c.atom.rel, r.args)), Filter(r.vars, AllEqual(r.values))], r.next)
    else ([c], n)
  }

  function ConstBody(body: seq<Clause>, n: nat): (seq<Clause>, nat) {
    if |body| == 0 then ([], n) else
      var before := ConstBody(body[..|body| - 1], n);
      var r := ConstClause(body[|body| - 1], before.1);
      (before.0 + r.0, r.1)
  }

  function ConstRules(rules: seq<Rule>, n: nat): (seq<Rule>, nat) {
    if |rules| == 0 then ([], n) else
      var before := ConstRules(rules[..|rules| - 1], n);
      var last := rules[|rules| - 1];
      var body := ConstBody(last.body, before.1);
      (before.0 + [Rule(last.heads, body.0)], body.1)
  }

  method RewriteConstants(rules: seq<Rule>) returns (out: seq<Rule>)
    ensures out == ConstRules(rules, 0).0
  {
    var counter: nat := 0;
    out := [];
    for k := 0 to |rules|
      invariant (out, counter) == ConstRules(rules[..k], 0)
    {
      assert rules[..k + 1][..k] == rules[..k];
      ghost var start := counter;
      var body: seq<Clause> := [];
      for i := 0 to |rules[k].body|
        invariant (body, counter) == ConstBody(rules[k].body[..i], start)
      {
        assert rules[k].body[..i + 1][..i] == rules[k].body[..i];
        var c := rules[k].body[i];
        if c.Pos? && HasConst(c.atom) {
          var args, vars, values;
          args, vars, values, counter := RewriteConsts(C, c.atom.args, counter);
          ghost var before := body;
          body := body + [Pos(Atom(c.atom.rel, args))];
          body := body + [Filter(vars, AllEqual(values))];
          assert body == before + [Pos(Atom(c.atom.rel, args)), Filter(vars, AllEqual(values))];
        } else {
          body := body + [c];
        }
      }
      assert rules[k].body[..|rules[k].body|] == rules[k].body;
      out := out + [Rule(rules[k].heads, body)];
    }
    assert rules[..|rules|] == rules;
  }

  method RewriteConsts(prefix: string, args: seq<Arg>, counter0: nat)
    returns (out: seq<Arg>, vars: seq<string>, values: seq<int>, counter: nat)
    ensures Named(out, vars, values, counter) == NameConsts(prefix, args, counter0)
  {
    out, vars, values, counter := [], [], [], counter0;
    for k := 0 to |args|
      invariant Named(out, vars, values, counter) == NameConsts(prefix, args[..k], counter0)
    {
      assert args[..k + 1][..k] == args[..k];
      match args[k]
      case Const(c) =>
        var name := Name(prefix, counter);
        counter := counter + 1;
        out := out + [LVar(name)];
        vars := vars + [name];
        values := values + [c];
      case LVar(_) =>
        out := out + [args[k]];
    }
    assert args[..|args|] == args;
  }

  // --- Heads ---

  function Lets(vars: seq<string>, values: seq<int>): seq<Clause>
    requires |vars| == |values|
  {
    seq(|vars|, k requires 0 <= k < |vars| => Let(vars[k], Literal(values[k]), []))
  }

  // The heads, the lets their constants need, the next counter.
  function HeadConsts(heads: seq<Atom>, n: nat): (seq<Atom>, seq<Clause>, nat) {
    if |heads| == 0 then ([], [], n) else
      var before := HeadConsts(heads[..|heads| - 1], n);
      var r := NameConsts(HC, heads[|heads| - 1].args, before.2);
      (before.0 + [Atom(heads[|heads| - 1].rel, r.args)], before.1 + Lets(r.vars, r.values), r.next)
  }

  function HeadRule(rule: Rule, n: nat): (Rule, nat) {
    var r := HeadConsts(rule.heads, n);
    if |r.1| > 0 then (Rule(r.0, rule.body + r.1), r.2) else (rule, r.2)
  }

  function HeadRules(rules: seq<Rule>, n: nat): (seq<Rule>, nat) {
    if |rules| == 0 then ([], n) else
      var before := HeadRules(rules[..|rules| - 1], n);
      var r := HeadRule(rules[|rules| - 1], before.1);
      (before.0 + [r.0], r.1)
  }

  method RewriteHeadConstants(rules: seq<Rule>) returns (out: seq<Rule>)
    ensures out == HeadRules(rules, 0).0
  {
    var counter: nat := 0;
    out := [];
    for k := 0 to |rules|
      invariant (out, counter) == HeadRules(rules[..k], 0)
    {
      assert rules[..k + 1][..k] == rules[..k];
      ghost var start := counter;
      var rule := rules[k];
      var heads: seq<Atom>, extra: seq<Clause> := [], [];
      for h := 0 to |rule.heads|
        invariant (heads, extra, counter) == HeadConsts(rule.heads[..h], start)
      {
        assert rule.heads[..h + 1][..h] == rule.heads[..h];
        var args, vars, values;
        args, vars, values, counter := RewriteConsts(HC, rule.heads[h].args, counter);
        heads := heads + [Atom(rule.heads[h].rel, args)];
        extra := extra + Lets(vars, values);
      }
      assert rule.heads[..|rule.heads|] == rule.heads;
      out := out + [if |extra| > 0 then Rule(heads, rule.body + extra) else rule];
    }
    assert rules[..|rules|] == rules;
  }

  // --- Bindings for the fresh names ---

  ghost predicate AgreeOff(prefix: string, x: Env, y: Env) {
    forall v :: !HasPrefix(prefix, v) ==> Look(x, v) == Look(y, v)
  }

  // Not yet generated: not one of prefix n, prefix n+1, ...
  ghost predicate Before(prefix: string, v: string, n: nat) {
    forall i :: i >= n ==> v != Name(prefix, i)
  }

  ghost predicate AgreeBefore(prefix: string, x: Env, y: Env, n: nat) {
    forall v :: Before(prefix, v, n) ==> Look(x, v) == Look(y, v)
  }

  lemma NameIsBefore(prefix: string, i: nat, n: nat)
    requires i < n
    ensures Before(prefix, Name(prefix, i), n)
  {
    forall j: nat | j >= n ensures Name(prefix, i) != Name(prefix, j) { NameInjective(prefix, i, j); }
  }

  lemma OtherIsBefore(prefix: string, v: string, n: nat)
    requires !HasPrefix(prefix, v)
    ensures Before(prefix, v, n)
  {
    forall j: nat | j >= n ensures v != Name(prefix, j) { NameInjective(prefix, j, j); }
  }

  // Argument k is a variable, kept, or a constant, now named by one of the fresh variables.
  ghost predicate NamedAt(r: Named, args: seq<Arg>, k: nat) {
    k < |args| == |r.args| && |r.vars| == |r.values| &&
    if args[k].LVar? then r.args[k] == args[k]
    else exists j :: 0 <= j < |r.vars| && r.args[k] == LVar(r.vars[j]) && r.values[j] == args[k].value
  }

  lemma {:induction false} NameConstsFacts(prefix: string, args: seq<Arg>, n: nat)
    ensures forall k ::
        0 <= k < |NameConsts(prefix, args, n).vars| ==> NameConsts(prefix, args, n).vars[k] == Name(prefix, n + k)
    ensures forall k :: 0 <= k < |args| ==> NamedAt(NameConsts(prefix, args, n), args, k)
  {
    if |args| > 0 {
      var init, m := args[..|args| - 1], |args| - 1;
      NameConstsFacts(prefix, init, n);
      var before, r := NameConsts(prefix, init, n), NameConsts(prefix, args, n);
      if args[m].Const? { assert r.args[m] == LVar(r.vars[|before.vars|]) && r.values[|before.vars|] == args[m].value; }
      assert NamedAt(r, args, m);
      assert before.args <= r.args && before.vars <= r.vars && before.values <= r.values;
      assert forall k :: 0 <= k < |r.vars| ==> r.vars[k] == Name(prefix, n + k);
      hide NameConsts, Name, NamedAt;
      forall k | 0 <= k < |args| ensures NamedAt(r, args, k) {
        if k < m { StillNamed(before, init, r, args, k); }
      }
    }
  }

  lemma StillNamed(before: Named, init: seq<Arg>, r: Named, args: seq<Arg>, k: nat)
    requires NamedAt(before, init, k) && init <= args && before.args <= r.args && |r.args| == |args|
    requires |r.vars| == |r.values|
    requires before.vars <= r.vars && before.values <= r.values
    ensures NamedAt(r, args, k)
  {
    assert args[k] == init[k] && r.args[k] == before.args[k];
    if !args[k].LVar? {
      var j :| 0 <= j < |before.vars| && before.args[k] == LVar(before.vars[j]) && before.values[j] == init[k].value;
      assert r.vars[j] == before.vars[j] && r.values[j] == before.values[j];
    }
  }

  // With the fresh names bound to the constants, the arguments ground as before.
  lemma NamedGround(prefix: string, a: Atom, n: nat, env: Env)
    requires var r := NameConsts(prefix, a.args, n); Values(r.vars, env) == r.values
    ensures Ground(Atom(a.rel, NameConsts(prefix, a.args, n).args), env) == Ground(a, env)
  {
    var r := NameConsts(prefix, a.args, n);
    NameConstsFacts(prefix, a.args, n);
    forall k | 0 <= k < |a.args| ensures ArgValue(r.args[k], env) == ArgValue(a.args[k], env) {
      assert NamedAt(r, a.args, k);
      if a.args[k].Const? {
        var j :| 0 <= j < |r.vars| && r.args[k] == LVar(r.vars[j]) && r.values[j] == a.args[k].value;
        assert Values(r.vars, env)[j] == r.values[j];
      }
    }
  }

  // Binds prefix n, prefix n+1, ... to the values.
  lemma {:induction false} BindFresh(prefix: string, vars: seq<string>, values: seq<int>, n: nat, env: Env)
    returns (e: Env)
    requires |vars| == |values| && forall k :: 0 <= k < |vars| ==> vars[k] == Name(prefix, n + k)
    ensures AgreeBefore(prefix, e, env, n) && Values(vars, e) == values
  {
    hide Name;
    if |vars| == 0 {
      e := env;
    } else {
      var m := |vars| - 1;
      var d := BindFresh(prefix, vars[..m], values[..m], n, env);
      e := d[vars[m] := values[m]];
      forall v | Before(prefix, v, n) ensures Look(e, v) == Look(env, v) {
        assert v != Name(prefix, n + m);
      }
      forall k | 0 <= k < |vars| ensures Look(e, vars[k]) == values[k] {
        if k < m {
          NameInjective(prefix, n + k, n + m);
          assert Values(vars[..m], d)[k] == values[..m][k];
        }
      }
    }
  }

  // --- Body constants ---

  ghost predicate NoNames(prefix: string, names: set<string>) {
    forall v :: v in names ==> !HasPrefix(prefix, v)
  }

  ghost predicate AllBefore(prefix: string, names: set<string>, n: nat) {
    forall v :: v in names ==> Before(prefix, v, n)
  }

  lemma NamedNames(prefix: string, a: Atom, n: nat)
    requires NoNames(prefix, ArgNames(a.args))
    ensures AllBefore(prefix, ArgNames(NameConsts(prefix, a.args, n).args), NameConsts(prefix, a.args, n).next)
  {
    hide NameConsts;
    var r := NameConsts(prefix, a.args, n);
    NameConstsFacts(prefix, a.args, n);
    forall v | v in ArgNames(r.args) ensures Before(prefix, v, r.next) {
      var k :| 0 <= k < |r.args| && r.args[k].LVar? && r.args[k].name == v;
      assert NamedAt(r, a.args, k);
      if a.args[k].LVar? {
        assert v in ArgNames(a.args);
        OtherIsBefore(prefix, v, r.next);
      } else {
        var j :| 0 <= j < |r.vars| && r.args[k] == LVar(r.vars[j]) && r.values[j] == a.args[k].value;
        NameIsBefore(prefix, n + j, r.next);
      }
    }
  }

  lemma TwoNames(a: Clause, b: Clause)
    ensures BodyNames([a, b]) == ClauseNames(a) + ClauseNames(b)
  {
    OneName(a);
    assert [a, b][..1] == [a];
  }

  lemma OneName(a: Clause)
    ensures BodyNames([a]) == ClauseNames(a)
  {
    assert [a][..0] == [];
  }

  lemma ConstClauseNames(c: Clause, n: nat)
    requires NoNames(C, ClauseNames(c))
    ensures ConstClause(c, n).1 >= n && AllBefore(C, BodyNames(ConstClause(c, n).0), ConstClause(c, n).1)
  {
    hide NameConsts, Name;
    var r := ConstClause(c, n);
    if c.Pos? && HasConst(c.atom) {
      var named := NameConsts(C, c.atom.args, n);
      NamedNames(C, c.atom, n);
      NameConstsFacts(C, c.atom.args, n);
      TwoNames(r.0[0], r.0[1]);
      forall v | v in named.vars ensures Before(C, v, named.next) {
        var j :| 0 <= j < |named.vars| && named.vars[j] == v;
        NameIsBefore(C, n + j, named.next);
      }
    } else {
      OneName(c);
      forall v | v in ClauseNames(c) ensures Before(C, v, n) { OtherIsBefore(C, v, n); }
    }
  }

  lemma {:induction false} NamesAppend(a: seq<Clause>, b: seq<Clause>)
    ensures BodyNames(a + b) == BodyNames(a) + BodyNames(b)
  {
    if |b| == 0 {
      assert a + b == a;
    } else {
      NamesAppend(a, b[..|b| - 1]);
      assert (a + b)[..|a + b| - 1] == a + b[..|b| - 1];
    }
  }

  lemma {:induction false} ConstBodyNames(body: seq<Clause>, n: nat)
    requires NoNames(C, BodyNames(body))
    ensures ConstBody(body, n).1 >= n && AllBefore(C, BodyNames(ConstBody(body, n).0), ConstBody(body, n).1)
  {
    if |body| > 0 {
      var m := |body| - 1;
      var before := ConstBody(body[..m], n);
      var last := ConstClause(body[m], before.1);
      ConstBodyNames(body[..m], n);
      ConstClauseNames(body[m], before.1);
      NamesAppend(before.0, last.0);
      forall v | v in BodyNames(before.0) ensures Before(C, v, last.1) { assert Before(C, v, before.1); }
    }
  }

  // A rewritten clause holds only where the clause does.
  lemma ConstClauseSound(c: Clause, n: nat, sem: Interp, db: Facts, neg: Facts, env: Env)
    requires Sat(ConstClause(c, n).0, sem, db, neg, env)
    ensures SatClause(c, sem, db, neg, env)
  {
    var r := ConstClause(c, n).0;
    assert SatClause(r[0], sem, db, neg, env);
    if c.Pos? && HasConst(c.atom) {
      assert SatClause(r[1], sem, db, neg, env);
      NamedGround(C, c.atom, n, env);
    }
  }

  lemma ConstClauseComplete(c: Clause, n: nat, sem: Interp, db: Facts, neg: Facts, env: Env) returns (e: Env)
    requires SatClause(c, sem, db, neg, env) && NoNames(C, ClauseNames(c))
    ensures AgreeBefore(C, e, env, n) && Sat(ConstClause(c, n).0, sem, db, neg, e)
  {
    hide NameConsts, HasConst, Name, NamedAt, ArgNames, Look;
    e := env;
    if c.Pos? && HasConst(c.atom) {
      var r := NameConsts(C, c.atom.args, n);
      NameConstsFacts(C, c.atom.args, n);
      e := BindFresh(C, r.vars, r.values, n, env);
      NamedGround(C, c.atom, n, e);
      forall v | v in ArgNames(c.atom.args) ensures Look(e, v) == Look(env, v) { OtherIsBefore(C, v, n); }
      GroundAgrees(c.atom, e, env);
    }
  }

  lemma {:induction false} ConstBodySound(body: seq<Clause>, n: nat, sem: Interp, db: Facts, neg: Facts, env: Env)
    requires Sat(ConstBody(body, n).0, sem, db, neg, env)
    ensures Sat(body, sem, db, neg, env)
  {
    hide Sat, SatClause, ConstClause;
    if |body| == 0 {
      NothingToSatisfy(sem, db, neg, env);
    } else {
      var m := |body| - 1;
      var before := ConstBody(body[..m], n);
      SatAppend(before.0, ConstClause(body[m], before.1).0, sem, db, neg, env);
      ConstBodySound(body[..m], n, sem, db, neg, env);
      ConstClauseSound(body[m], before.1, sem, db, neg, env);
      SatLast(body, sem, db, neg, env);
    }
  }

  lemma NothingToSatisfy(sem: Interp, db: Facts, neg: Facts, env: Env)
    ensures Sat([], sem, db, neg, env)
  {}

  lemma {:induction false} ConstBodyComplete(body: seq<Clause>, n: nat, sem: Interp, db: Facts, neg: Facts, env: Env)
    returns (e: Env)
    requires Sat(body, sem, db, neg, env) && NoNames(C, BodyNames(body))
    ensures AgreeOff(C, e, env) && Sat(ConstBody(body, n).0, sem, db, neg, e)
  {
    hide Sat, SatClause, ConstClause;
    if |body| == 0 {
      e := env;
      NothingToSatisfy(sem, db, neg, env);
    } else {
      var m := |body| - 1;
      var before := ConstBody(body[..m], n);
      SatLast(body, sem, db, neg, env);
      var d := ConstBodyComplete(body[..m], n, sem, db, neg, env);
      assert ClauseNames(body[m]) <= BodyNames(body);
      ClauseAgrees(body[m], sem, db, neg, env, d);
      e := ConstClauseComplete(body[m], before.1, sem, db, neg, d);
      ConstBodyNames(body[..m], n);
      BodyAgrees(before.0, sem, db, neg, d, e);
      SatAppend(before.0, ConstClause(body[m], before.1).0, sem, db, neg, e);
      forall v | !HasPrefix(C, v) ensures Look(e, v) == Look(env, v) { OtherIsBefore(C, v, before.1); }
    }
  }

  // Replacing body constants by filtered variables keeps what the rule derives.
  lemma BodyConstantsPreserve(rule: Rule, n: nat, sem: Interp, db: Facts, neg: Facts, f: Fact)
    requires NoNames(C, BodyNames(rule.body) + HeadNames(rule.heads))
    ensures DerivesFrom(Rule(rule.heads, ConstBody(rule.body, n).0), sem, db, neg, f)
        <==> DerivesFrom(rule, sem, db, neg, f)
  {
    var r := Rule(rule.heads, ConstBody(rule.body, n).0);
    hide ConstBody, SatBody, IsHeadFact, Sat;
    if env :| SatBody(r.body, sem, db, db, -1, neg, env) && IsHeadFact(r, env, f) {
      SatIsSatBody(r.body, sem, db, neg, env);
      ConstBodySound(rule.body, n, sem, db, neg, env);
      SatIsSatBody(rule.body, sem, db, neg, env);
      SameHeads(r, rule, env, f);
    }
    if env :| SatBody(rule.body, sem, db, db, -1, neg, env) && IsHeadFact(rule, env, f) {
      SatIsSatBody(rule.body, sem, db, neg, env);
      var e := ConstBodyComplete(rule.body, n, sem, db, neg, env);
      SatIsSatBody(r.body, sem, db, neg, e);
      HeadsAgree(rule, env, e, f);
      SameHeads(rule, r, e, f);
    }
  }

  // --- Head constants ---

  lemma LetsHold(vars: seq<string>, values: seq<int>, sem: Interp, db: Facts, neg: Facts, env: Env)
    requires |vars| == |values|
    ensures Sat(Lets(vars, values), sem, db, neg, env) <==> Values(vars, env) == values
  {
    var lets := Lets(vars, values);
    if Sat(lets, sem, db, neg, env) {
      forall k | 0 <= k < |vars| ensures Look(env, vars[k]) == values[k] {
        assert SatClause(lets[k], sem, db, neg, env);
      }
    }
    if Values(vars, env) == values {
      forall k | 0 <= k < |vars| ensures SatClause(lets[k], sem, db, neg, env) {
        assert Values(vars, env)[k] == values[k];
      }
    }
  }

  // Under the lets, the rewritten heads ground as the heads.
  lemma {:induction false} HeadsGround(heads: seq<Atom>, n: nat, sem: Interp, db: Facts, neg: Facts, env: Env)
    requires Sat(HeadConsts(heads, n).1, sem, db, neg, env)
    ensures |HeadConsts(heads, n).0| == |heads|
    ensures forall h ::
        0 <= h < |heads| ==>
        HeadConsts(heads, n).0[h].rel == heads[h].rel && Ground(HeadConsts(heads, n).0[h], env) == Ground(heads[h], env)
  {
    hide NameConsts, Ground, Lets;
    hide Sat;
    if |heads| > 0 {
      var m := |heads| - 1;
      var before := HeadConsts(heads[..m], n);
      var r := NameConsts(HC, heads[m].args, before.2);
      SatAppend(before.1, Lets(r.vars, r.values), sem, db, neg, env);
      HeadsGround(heads[..m], n, sem, db, neg, env);
      LetsHold(r.vars, r.values, sem, db, neg, env);
      NamedGround(HC, heads[m], before.2, env);
    }
  }

  // The names the lets bind so far.
  lemma {:induction false} LetsNames(heads: seq<Atom>, n: nat)
    ensures HeadConsts(heads, n).2 >= n && AllBefore(HC, BodyNames(HeadConsts(heads, n).1), HeadConsts(heads, n).2)
  {
    if |heads| > 0 {
      var m := |heads| - 1;
      var before := HeadConsts(heads[..m], n);
      var r := NameConsts(HC, heads[m].args, before.2);
      LetsNames(heads[..m], n);
      NameConstsFacts(HC, heads[m].args, before.2);
      LetListNames(r.vars, r.values, before.2, r.next);
      NamesAppend(before.1, Lets(r.vars, r.values));
      forall v | v in BodyNames(before.1) ensures Before(HC, v, r.next) { assert Before(HC, v, before.2); }
    }
  }

  lemma {:induction false} LetListNames(vars: seq<string>, values: seq<int>, n: nat, next: nat)
    requires |vars| == |values| && n + |vars| <= next && forall k :: 0 <= k < |vars| ==> vars[k] == Name(HC, n + k)
    ensures AllBefore(HC, BodyNames(Lets(vars, values)), next)
  {
    if |vars| > 0 {
      var m := |vars| - 1;
      LetListNames(vars[..m], values[..m], n, next);
      assert Lets(vars, values)[..m] == Lets(vars[..m], values[..m]);
      NameIsBefore(HC, n + m, next);
    }
  }

  lemma {:induction false} LetsBound(heads: seq<Atom>, n: nat, sem: Interp, db: Facts, neg: Facts, env: Env)
    returns (e: Env)
    ensures AgreeOff(HC, e, env) && Sat(HeadConsts(heads, n).1, sem, db, neg, e)
  {
    hide Sat;
    if |heads| == 0 {
      e := env;
      NothingToSatisfy(sem, db, neg, env);
    } else {
      var m := |heads| - 1;
      var before := HeadConsts(heads[..m], n);
      var r := NameConsts(HC, heads[m].args, before.2);
      var d := LetsBound(heads[..m], n, sem, db, neg, env);
      NameConstsFacts(HC, heads[m].args, before.2);
      e := BindFresh(HC, r.vars, r.values, before.2, d);
      LetsNames(heads[..m], n);
      BodyAgrees(before.1, sem, db, neg, d, e);
      LetsHold(r.vars, r.values, sem, db, neg, e);
      SatAppend(before.1, Lets(r.vars, r.values), sem, db, neg, e);
      forall v | !HasPrefix(HC, v) ensures Look(e, v) == Look(env, v) { OtherIsBefore(HC, v, before.2); }
    }
  }

  lemma HeadFactsSame(a: Rule, b: Rule, env: Env, f: Fact)
    requires |a.heads| == |b.heads| && IsHeadFact(a, env, f)
    requires forall h ::
        0 <= h < |a.heads| ==> a.heads[h].rel == b.heads[h].rel && Ground(a.heads[h], env) == Ground(b.heads[h], env)
    ensures IsHeadFact(b, env, f)
  {
    var h :| 0 <= h < |a.heads| && f == Fact(a.heads[h].rel, Ground(a.heads[h], env));
  }

  // Replacing head constants by lets keeps what the rule derives.
  lemma HeadConstantsPreserve(rule: Rule, n: nat, sem: Interp, db: Facts, neg: Facts, f: Fact)
    requires NoNames(HC, BodyNames(rule.body) + HeadNames(rule.heads))
    ensures DerivesFrom(HeadRule(rule, n).0, sem, db, neg, f) <==> DerivesFrom(rule, sem, db, neg, f)
  {
    hide HeadConsts;
    var h := HeadConsts(rule.heads, n);
    if |h.1| > 0 {
      var r := Rule(h.0, rule.body + h.1);
      hide SatBody, IsHeadFact, Sat;
      if env :| SatBody(r.body, sem, db, db, -1, neg, env) && IsHeadFact(r, env, f) {
        SatIsSatBody(r.body, sem, db, neg, env);
        SatAppend(rule.body, h.1, sem, db, neg, env);
        SatIsSatBody(rule.body, sem, db, neg, env);
        HeadsGround(rule.heads, n, sem, db, neg, env);
        HeadFactsSame(r, rule, env, f);
      }
      if env :| SatBody(rule.body, sem, db, db, -1, neg, env) && IsHeadFact(rule, env, f) {
        SatIsSatBody(rule.body, sem, db, neg, env);
        var e := LetsBound(rule.heads, n, sem, db, neg, env);
        BodyAgrees(rule.body, sem, db, neg, env, e);
        HeadsAgree(rule, env, e, f);
        SatAppend(rule.body, h.1, sem, db, neg, e);
        SatIsSatBody(r.body, sem, db, neg, e);
        HeadsGround(rule.heads, n, sem, db, neg, e);
        HeadFactsSame(rule, r, e, f);
      }
    }
  }

  // --- The three passes in order ---

  lemma WildNamesApart(rule: Rule, n: nat)
    requires PlainCode(rule)
    ensures var r := WildRule(rule, n).0;
      NoNames(C, BodyNames(r.body) + HeadNames(r.heads)) && NoNames(HC, BodyNames(r.body) + HeadNames(r.heads))
  {
    PlainHeadsStay(rule.heads, n);
    WildBodyNames(rule.body, n);
    var r := WildRule(rule, n).0;
    forall v | v in BodyNames(r.body) + HeadNames(r.heads) ensures !HasPrefix(C, v) && !HasPrefix(HC, v) {
      PrefixesApart(v);
      if v in BodyNames(r.body) && IsWildcard(v) {
        assert UpTo(v, WildBody(rule.body, n).1);
        var i: nat :| v == Name(GEN, i);
        NameInjective(GEN, i, i);
      }
    }
  }

  lemma ConstNamesApart(rule: Rule, n: nat)
    requires NoNames(C, BodyNames(rule.body)) && NoNames(HC, BodyNames(rule.body))
    ensures NoNames(HC, BodyNames(ConstBody(rule.body, n).0))
  {
    ConstBodyAvoids(rule.body, n);
  }

  lemma {:induction false} ConstBodyAvoids(body: seq<Clause>, n: nat)
    requires NoNames(HC, BodyNames(body))
    ensures NoNames(HC, BodyNames(ConstBody(body, n).0))
  {
    if |body| > 0 {
      var m := |body| - 1;
      var before := ConstBody(body[..m], n);
      ConstBodyAvoids(body[..m], n);
      ConstClauseAvoids(body[m], before.1);
      NamesAppend(before.0, ConstClause(body[m], before.1).0);
    }
  }

  lemma ConstClauseAvoids(c: Clause, n: nat)
    requires NoNames(HC, ClauseNames(c))
    ensures NoNames(HC, BodyNames(ConstClause(c, n).0))
  {
    hide HasConst, BodyNames, NameConsts;
    var r := ConstClause(c, n).0;
    if c.Pos? && HasConst(c.atom) {
      var named := NameConsts(C, c.atom.args, n);
      NameConstsFacts(C, c.atom.args, n);
      TwoNames(r[0], r[1]);
      forall j | 0 <= j < |named.vars| ensures !HasPrefix(HC, named.vars[j]) {
        NameInjective(C, n + j, n + j);
        PrefixesApart(named.vars[j]);
      }
      forall v | v in ArgNames(named.args) ensures !HasPrefix(HC, v) {
        var k :| 0 <= k < |named.args| && named.args[k].LVar? && named.args[k].name == v;
        assert NamedAt(named, c.atom.args, k);
        if c.atom.args[k].LVar? {
          assert v in ArgNames(c.atom.args);
        } else {
          var j :| 0 <= j < |named.vars| && named.args[k] == LVar(named.vars[j])
              && named.values[j] == c.atom.args[k].value;
        }
      }
    } else {
      OneName(c);
    }
  }

  // Wildcards, then body constants, then head constants: no generated name captures another, and the rule derives
  // what it derived as written. Inline code and heads use no underscore names.
  lemma RewritesPreserve(rule: Rule, n1: nat, n2: nat, n3: nat, sem: Interp, db: Facts, neg: Facts, f: Fact)
    requires PlainCode(rule)
    ensures var a := WildRule(rule, n1).0; var b := Rule(a.heads, ConstBody(a.body, n2).0);
      DerivesFrom(HeadRule(b, n3).0, sem, db, neg, f) <==> DerivesWritten(rule, sem, db, neg, f)
  {
    hide WildRule, ConstBody, DerivesWritten, DerivesFrom, HeadRule;
    var a := WildRule(rule, n1).0;
    var b := Rule(a.heads, ConstBody(a.body, n2).0);
    WildNamesApart(rule, n1);
    ConstNamesApart(a, n2);
    hide *;
    WildcardsPreserve(rule, n1, sem, db, neg, f);
    BodyConstantsPreserve(a, n2, sem, db, neg, f);
    HeadNamesStay(a, b);
    HeadConstantsPreserve(b, n3, sem, db, neg, f);
  }

  lemma HeadNamesStay(a: Rule, b: Rule)
    requires a.heads == b.heads && NoNames(HC, BodyNames(a.body) + HeadNames(a.heads)) && NoNames(HC, BodyNames(b.body))
    ensures NoNames(HC, BodyNames(b.body) + HeadNames(b.heads))
  {}
}
