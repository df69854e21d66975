/** The MIR pipeline operations and what they do to one binding of variables. */
module Mir {
  import opened Datalog
  import opened SemiNaive

  // A view of one index: the columns in index order, the variables that fix its leading columns.
  datatype ColumnSource = ColumnSource(rel: string, version: Version, index: seq<nat>, prefix: seq<string>,
                                       clauseIdx: nat)

  datatype Op =
    | Scan(vars: seq<string>, source: ColumnSource)
    | ColumnJoin(variable: string, sources: seq<ColumnSource>)
    | CartesianJoin(vars: seq<string>, sources: seq<ColumnSource>, varFromSource: seq<seq<string>>)
    | Negation(source: ColumnSource, constArgs: seq<(nat, int)>)
    | FilterOp(vars: seq<string>, code: Code)
    | ConstantBind(bound: string, code: Code, deps: seq<string>)
    | InsertInto(rel: string, vars: seq<string>, index: seq<nat>)

  // The rows each index holds, in the relation's own column order.
  type Reader = (string, Version, seq<nat>) -> iset<Row>

  ghost function Rows(s: ColumnSource, read: Reader): iset<Row> {
    read(s.rel, s.version, s.index)
  }

  function Col(row: Row, index: seq<nat>, k: nat): int {
    if k < |index| && index[k] < |row| then row[index[k]] else 0
  }

  // The row's leading index columns hold the key.
  predicate Under(row: Row, index: seq<nat>, key: seq<int>) {
    forall k :: 0 <= k < |key| ==> Col(row, index, k) == key[k]
  }

  ghost predicate Matching(s: ColumnSource, read: Reader, env: Env, row: Row) {
    row in Rows(s, read) && Under(row, s.index, Values(s.prefix, env))
  }

  // x is a value of the column after the prefix.
  ghost predicate Yields(s: ColumnSource, read: Reader, env: Env, x: int) {
    exists row :: Matching(s, read, env, row) && Col(row, s.index, |s.prefix|) == x
  }

  // Binds vars to the row's columns from position k of the index on.
  function Bind(env: Env, vars: seq<string>, row: Row, index: seq<nat>, k: nat): Env {
    if |vars| == 0 then env else
      var n := |vars| - 1;
      Bind(env, vars[..n], row, index, k)[vars[n] := Col(row, index, k + n)]
  }

  // One row from each of the first n sources, all prefixes read in env.
  ghost predicate InProduct(sources: seq<ColumnSource>, from: seq<seq<string>>, read: Reader, env: Env, n: nat, e: Env)
    requires n <= |sources| && n <= |from|
  {
    if n == 0 then e == env else
      var m: nat, s, vars := n - 1, sources[n - 1], from[n - 1];
      exists mid, row :: InProduct(sources, from, read, env, m, mid) && Extends(s, vars, read, env, mid, row, e)
  }

  ghost predicate Extends(s: ColumnSource, vars: seq<string>, read: Reader, env: Env, mid: Env, row: Row, e: Env) {
    Matching(s, read, env, row) && e == Bind(mid, vars, row, s.index, |s.prefix|)
  }

  function NegationKey(constArgs: seq<(nat, int)>, prefix: seq<string>, env: Env): seq<int> {
    seq(|constArgs|, k requires 0 <= k < |constArgs| => constArgs[k].1) + Values(prefix, env)
  }

  ghost predicate Absent(s: ColumnSource, constArgs: seq<(nat, int)>, read: Reader, env: Env) {
    forall row :: row in Rows(s, read) ==> !Under(row, s.index, NegationKey(constArgs, s.prefix, env))
  }

  // The operation hands binding e on when it is given env. A scan goes over all rows, whatever its prefix.
  ghost predicate Steps(op: Op, sem: Interp, read: Reader, env: Env, e: Env) {
    match op
    case Scan(vars, s) => exists row :: row in Rows(s, read) && e == Bind(env, vars, row, s.index, 0)
    case ColumnJoin(v, sources) => |sources| > 0 && v in e && e == env[v := e[v]] &&
      forall i :: 0 <= i < |sources| ==> Yields(sources[i], read, env, e[v])
    case CartesianJoin(_, sources, from) => |from| == |sources| && InProduct(sources, from, read, env, |sources|, e)
    case Negation(s, constArgs) => e == env && Absent(s, constArgs, read, env)
    case FilterOp(vars, code) => e == env && Test(sem, code, Values(vars, env))
    case ConstantBind(x, code, deps) => e == env[x := Calc(sem, code, Values(deps, env))]
    case InsertInto(_, _, _) => e == env
  }

  ghost predicate Runs(ops: seq<Op>, sem: Interp, read: Reader, env: Env, e: Env) {
    if |ops| == 0 then e == env else
      var init, last := ops[..|ops| - 1], ops[|ops| - 1];
      exists mid :: Runs(init, sem, read, env, mid) && Steps(last, sem, read, mid, e)
  }

  ghost predicate InsertsAt(ops: seq<Op>, sem: Interp, read: Reader, k: nat, e: Env, f: Fact)
    requires k < |ops|
  {
    ops[k].InsertInto? && Runs(ops[..k], sem, read, map[], e) && f == Fact(ops[k].rel, Values(ops[k].vars, e))
  }

  // Some insert operation of the pipeline emits f.
  ghost predicate Emits(ops: seq<Op>, sem: Interp, read: Reader, f: Fact) {
    exists k, e :: 0 <= k < |ops| && InsertsAt(ops, sem, read, k, e, f)
  }

  lemma RunsOne(op: Op, sem: Interp, read: Reader, env: Env, e: Env)
    ensures Runs([op], sem, read, env, e) <==> Steps(op, sem, read, env, e)
  {
    assert [op][..0] == [];
    assert Runs([], sem, read, env, env);
  }

  lemma RunsThen(init: seq<Op>, last: Op, sem: Interp, read: Reader, env: Env, e: Env)
    ensures Runs(init + [last], sem, read, env, e)
        <==> exists m :: Runs(init, sem, read, env, m) && Steps(last, sem, read, m, e)
  {
    assert (init + [last])[..|init|] == init;
  }

  lemma {:induction false} RunsAppend(a: seq<Op>, b: seq<Op>, sem: Interp, read: Reader, env: Env, e: Env)
    ensures Runs(a + b, sem, read, env, e) <==> exists mid :: Runs(a, sem, read, env, mid) && Runs(b, sem, read, mid, e)
  {
    hide Steps;
    if |b| == 0 {
      assert a + b == a;
      assert Runs(b, sem, read, e, e);
    } else {
      var init, last := b[..|b| - 1], b[|b| - 1];
      assert (a + b)[..|a + b| - 1] == a + init;
      if Runs(a + b, sem, read, env, e) {
        var m :| Runs(a + init, sem, read, env, m) && Steps(last, sem, read, m, e);
        RunsAppend(a, init, sem, read, env, m);
      }
      if mid :| Runs(a, sem, read, env, mid) && Runs(b, sem, read, mid, e) {
        var m :| Runs(init, sem, read, mid, m) && Steps(last, sem, read, m, e);
        assert Runs(a + init, sem, read, env, m) by {
          RunsAppend(a, init, sem, read, env, m);
          assert Runs(a, sem, read, env, mid) && Runs(init, sem, read, mid, m);
        }
        assert Steps((a + b)[|a + b| - 1], sem, read, m, e);
      }
    }
  }
}
