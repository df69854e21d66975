/** Rules, facts and what a rule derives: the reference semantics every later module is compared with. */
module Datalog {
  type Row = seq<int>

  datatype Fact = Fact(rel: string, row: Row)

  // Logical databases are possibly infinite sets of facts, so that "least closed set" quantifies over every candidate.
  type Facts = iset<Fact>

  // A binding of variables; an absent variable reads as 0, so that bindings are total.
  type Env = map<string, int>

  datatype Arg = LVar(name: string) | Const(value: int)

  datatype Atom = Atom(rel: string, args: seq<Arg>)

  // Inline C++ code is uninterpreted, except for the two forms the rewrite passes generate themselves:
  // "return _c0 == 7 && ..." over the filter's variables, and a literal.
  datatype Code = Source(text: string) | AllEqual(values: seq<int>) | Literal(value: int)

  datatype Clause =
    | Pos(atom: Atom)
    | Neg(atom: Atom)
    | Filter(vars: seq<string>, code: Code)
    | Let(bound: string, code: Code, deps: seq<string>)

  datatype Rule = Rule(heads: seq<Atom>, body: seq<Clause>)

  // The meaning of user-written code.
  datatype Interp = Interp(test: (string, seq<int>) -> bool, compute: (string, seq<int>) -> int)

  function Look(env: Env, v: string): int {
    if v in env then env[v] else 0
  }

  function Values(vs: seq<string>, env: Env): seq<int> {
    seq(|vs|, i requires 0 <= i < |vs| => Look(env, vs[i]))
  }

  function ArgValue(a: Arg, env: Env): int {
    match a
    case LVar(v) => Look(env, v)
    case Const(c) => c
  }

  function Ground(a: Atom, env: Env): Row {
    seq(|a.args|, i requires 0 <= i < |a.args| => ArgValue(a.args[i], env))
  }

  predicate Test(sem: Interp, code: Code, vals: seq<int>) {
    match code
    case Source(text) => sem.test(text, vals)
    case AllEqual(values) => vals == values
    case Literal(value) => value != 0
  }

  function Calc(sem: Interp, code: Code, vals: seq<int>): int {
    match code
    case Source(text) => sem.compute(text, vals)
    case AllEqual(values) => if vals == values then 1 else 0
    case Literal(value) => value
  }

  predicate IsWildcard(v: string) {
    |v| > 0 && v[0] == '_'
  }

  predicate IsHole(a: Arg) {
    a.LVar? && IsWildcard(a.name)
  }

  // A negated atom constrains every argument that is not a wildcard.
  predicate Matches(a: Atom, row: Row, env: Env) {
    && |row| == |a.args|
    && forall i :: 0 <= i < |row| && !IsHole(a.args[i]) ==> row[i] == ArgValue(a.args[i], env)
  }

  ghost predicate SatClause(c: Clause, sem: Interp, pos: Facts, neg: Facts, env: Env) {
    match c
    case Pos(a) => Fact(a.rel, Ground(a, env)) in pos
    case Neg(a) => forall row :: Fact(a.rel, row) in neg ==> !Matches(a, row, env)
    case Filter(vs, code) => Test(sem, code, Values(vs, env))
    case Let(x, code, deps) => Look(env, x) == Calc(sem, code, Values(deps, env))
  }

  // The facts clause i reads: the delta clause reads DELTA, every other one FULL. d < 0 selects no delta clause.
  ghost function View(full: Facts, delta: Facts, d: int, i: int): Facts {
    if i == d then delta else full
  }

  ghost predicate SatBody(body: seq<Clause>, sem: Interp, full: Facts, delta: Facts, d: int, neg: Facts, env: Env) {
    forall i :: 0 <= i < |body| ==> SatClause(body[i], sem, View(full, delta, d, i), neg, env)
  }

  ghost predicate IsHeadFact(rule: Rule, env: Env, f: Fact) {
    exists h :: 0 <= h < |rule.heads| && f == Fact(rule.heads[h].rel, Ground(rule.heads[h], env))
  }

  // One application of the rule's variant with delta clause d derives f.
  ghost predicate Derives(rule: Rule, sem: Interp, full: Facts, delta: Facts, d: int, neg: Facts, f: Fact) {
    exists env: Env :: SatBody(rule.body, sem, full, delta, d, neg, env) && IsHeadFact(rule, env, f)
  }

  // One application of the rule to a database, negations read in neg.
  ghost predicate DerivesFrom(rule: Rule, sem: Interp, full: Facts, neg: Facts, f: Fact) {
    Derives(rule, sem, full, full, -1, neg, f)
  }

  ghost predicate ClosedUnder(rules: seq<Rule>, sem: Interp, db: Facts, neg: Facts) {
    forall k, f :: 0 <= k < |rules| && DerivesFrom(rules[k], sem, db, neg, f) ==> f in db
  }

  ghost predicate InEveryClosedSet(rules: seq<Rule>, sem: Interp, base: Facts, neg: Facts, f: Fact) {
    forall db: Facts :: base <= db && ClosedUnder(rules, sem, db, neg) ==> f in db
  }

  // The least set that holds base and is closed under the rules, negations read in the fixed set neg.
  ghost function LeastClosed(rules: seq<Rule>, sem: Interp, base: Facts, neg: Facts): Facts {
    iset f: Fact | InEveryClosedSet(rules, sem, base, neg, f)
  }

  ghost predicate DerivedBySome(rules: seq<Rule>, sem: Interp, full: Facts, neg: Facts, f: Fact) {
    exists k :: 0 <= k < |rules| && DerivesFrom(rules[k], sem, full, neg, f)
  }

  // What one simultaneous application of all the rules derives.
  ghost function Immediate(rules: seq<Rule>, sem: Interp, full: Facts, neg: Facts): Facts {
    iset f: Fact | DerivedBySome(rules, sem, full, neg, f)
  }

  // --- Monotonicity and least sets ---

  lemma DerivesMonotone(rule: Rule, sem: Interp, small: Facts, big: Facts, neg: Facts, f: Fact)
    requires small <= big
    requires DerivesFrom(rule, sem, small, neg, f)
    ensures DerivesFrom(rule, sem, big, neg, f)
  {
    var env :| SatBody(rule.body, sem, small, small, -1, neg, env) && IsHeadFact(rule, env, f);
    forall i | 0 <= i < |rule.body| ensures SatClause(rule.body[i], sem, View(big, big, -1, i), neg, env) {
      assert SatClause(rule.body[i], sem, View(small, small, -1, i), neg, env);
    }
  }

  lemma LeastClosedIsClosed(rules: seq<Rule>, sem: Interp, base: Facts, neg: Facts)
    ensures base <= LeastClosed(rules, sem, base, neg)
    ensures ClosedUnder(rules, sem, LeastClosed(rules, sem, base, neg), neg)
  {
    var least := LeastClosed(rules, sem, base, neg);
    forall k, f | 0 <= k < |rules| && DerivesFrom(rules[k], sem, least, neg, f) ensures f in least {
      forall db: Facts | base <= db && ClosedUnder(rules, sem, db, neg) ensures f in db {
        assert least <= db;
        DerivesMonotone(rules[k], sem, least, db, neg, f);
      }
    }
  }

  ghost function RowsIn(facts: Facts, rel: string): iset<Row> {
    iset row: Row | Fact(rel, row) in facts
  }
}
