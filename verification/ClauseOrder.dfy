/** `compute_clause_order`: the greedy schedule of a rule body. */
module ClauseOrder {
  import opened Datalog
  import opened Seqs

  // The variables of an argument list, in column order.
  function ArgVars(args: seq<Arg>): (vs: seq<string>)
    ensures forall v :: v in vs <==> LVar(v) in args
  {
    if |args| == 0 then [] else
      ArgVars(args[..|args| - 1]) + if args[|args| - 1].LVar? then [args[|args| - 1].name] else []
  }

  function ClauseVars(c: Clause): seq<string> {
    match c
    case Pos(a) => ArgVars(a.args)
    case Neg(a) => ArgVars(a.args)
    case Filter(vs, _) => vs
    case Let(x, _, _) => [x]
  }

  // What must be bound before the clause can run.
  function Dependencies(c: Clause): set<string> {
    match c
    case Pos(_) => {}
    case Neg(a) => Elems(ArgVars(a.args))
    case Filter(vs, _) => Elems(vs)
    case Let(_, _, deps) => Elems(deps)
  }

  function Produced(c: Clause): set<string> {
    match c
    case Pos(a) => Elems(ArgVars(a.args))
    case Let(x, _, _) => {x}
    case Neg(_) => {}
    case Filter(_, _) => {}
  }

  function BoundBy(body: seq<Clause>, order: seq<nat>): set<string>
    requires forall k :: 0 <= k < |order| ==> order[k] < |body|
  {
    if |order| == 0 then {} else BoundBy(body, order[..|order| - 1]) + Produced(body[order[|order| - 1]])
  }

  function CountBound(vs: seq<string>, bound: set<string>): nat {
    if |vs| == 0 then 0 else CountBound(vs[..|vs| - 1], bound) + if vs[|vs| - 1] in bound then 1 else 0
  }

  // How many of an atom's arguments are bound already; other clauses score nothing.
  function Overlap(c: Clause, bound: set<string>): nat {
    if c.Pos? then CountBound(ArgVars(c.atom.args), bound) else 0
  }

  predicate CanRun(body: seq<Clause>, bound: set<string>, i: nat) {
    i < |body| && Dependencies(body[i]) <= bound
  }

  predicate IsLowest(i: nat, s: set<nat>) {
    i in s && forall j :: j in s ==> i <= j
  }

  function RunnableSet(body: seq<Clause>, bound: set<string>, remaining: set<nat>): (s: set<nat>) {
    set i | i in remaining && CanRun(body, bound, i)
  }

  function AtomSet(body: seq<Clause>, s: set<nat>): set<nat> {
    set i | i in s && i < |body| && body[i].Pos?
  }

  function FilterSet(body: seq<Clause>, s: set<nat>): set<nat> {
    set i | i in s && i < |body| && body[i].Filter?
  }

  // best overlaps most among s, and is the first that does.
  predicate IsMaxOverlap(body: seq<Clause>, bound: set<string>, s: set<nat>, best: nat) {
    && best in s && best < |body|
    && forall j :: j in s && j < |body| ==>
         && Overlap(body[j], bound) <= Overlap(body[best], bound)
         && (Overlap(body[j], bound) == Overlap(body[best], bound) ==> best <= j)
  }

  // best satisfies the first preference that applies: a runnable filter, the delta clause, the largest overlap;
  // with nothing runnable, an atom.
  predicate IsChoice(body: seq<Clause>, delta: int, bound: set<string>, remaining: set<nat>, best: nat) {
    var runnable := RunnableSet(body, bound, remaining);
    && best in remaining && best < |body|
    && if runnable == {} then IsLowest(best, if AtomSet(body, remaining) != {} then AtomSet(body, remaining)
                                               else remaining)
       else if FilterSet(body, runnable) != {} then IsLowest(best, FilterSet(body, runnable))
       else if delta in runnable then best == delta
       else IsMaxOverlap(body, bound, runnable, best)
  }

  function Remaining(n: nat, order: seq<nat>): set<nat> {
    Range(n) - Elems(order)
  }

  predicate GreedyAt(body: seq<Clause>, delta: int, order: seq<nat>, k: nat)
    requires k < |order| && forall k :: 0 <= k < |order| ==> order[k] < |body|
  {
    IsChoice(body, delta, BoundBy(body, order[..k]), Remaining(|body|, order[..k]), order[k])
  }

  // The order makes the heuristic's choice at every position.
  ghost predicate IsGreedy(body: seq<Clause>, delta: int, order: seq<nat>) {
    && (forall k :: 0 <= k < |order| ==> order[k] < |body|)
    && forall k :: 0 <= k < |order| ==> GreedyAt(body, delta, order, k)
  }

  method RunnableClauses(body: seq<Clause>, bound: set<string>, remaining: set<nat>) returns (runnable: seq<nat>)
    ensures forall i :: i in runnable <==> i in RunnableSet(body, bound, remaining)
    ensures forall m :: 0 <= m < |runnable| ==> runnable[m] < |body|
    ensures forall a, b :: 0 <= a < b < |runnable| ==> runnable[a] < runnable[b]
  {
    runnable := [];
    for i := 0 to |body|
      invariant forall j :: j in runnable <==> j < i && j in remaining && CanRun(body, bound, j)
      invariant forall m :: 0 <= m < |runnable| ==> runnable[m] < i
      invariant forall a, b :: 0 <= a < b < |runnable| ==> runnable[a] < runnable[b]
    {
      if i in remaining && Dependencies(body[i]) <= bound {
        runnable := runnable + [i];
      }
    }
  }

  // The deadlock fallback: the first remaining atom, else the first remaining clause.
  method Fallback(body: seq<Clause>, remaining: set<nat>) returns (pick: nat)
    requires remaining != {} && forall i :: i in remaining ==> i < |body|
    ensures IsLowest(pick, if AtomSet(body, remaining) != {} then AtomSet(body, remaining) else remaining)
  {
    var firstAtom, first: int := -1, -1;
    for k := 0 to |body|
      invariant first == -1 ==> forall j :: j in remaining ==> j >= k
      invariant first != -1 ==> 0 <= first && first in remaining && forall j :: j in remaining ==> first <= j
      invariant firstAtom == -1 ==> forall j :: j in remaining && j < |body| && body[j].Pos? ==> j >= k
      invariant firstAtom != -1 ==> 0 <= firstAtom < |body| && firstAtom in remaining && body[firstAtom].Pos?
      invariant firstAtom != -1 ==> forall j :: j in remaining && j < |body| && body[j].Pos? ==> firstAtom <= j
    {
      if k in remaining {
        if first == -1 { first := k; }
        if body[k].Pos? && firstAtom == -1 { firstAtom := k; }
      }
    }
    var some :| some in remaining;
    assert firstAtom != -1 ==> firstAtom in AtomSet(body, remaining);
    assert firstAtom == -1 ==> AtomSet(body, remaining) == {};
    pick := if firstAtom != -1 then firstAtom else first;
  }

  method PickBest(body: seq<Clause>, delta: int, bound: set<string>, remaining: set<nat>) returns (best: nat)
    requires remaining != {} && forall i :: i in remaining ==> i < |body|
    ensures IsChoice(body, delta, bound, remaining, best)
  {
    var runnable := RunnableClauses(body, bound, remaining);
    if |runnable| == 0 {
      assert RunnableSet(body, bound, remaining) == {};
      best := Fallback(body, remaining);
      return;
    }
    assert runnable[0] in RunnableSet(body, bound, remaining);
    for k := 0 to |runnable|
      invariant forall m :: 0 <= m < k ==> !body[runnable[m]].Filter?
    {
      if body[runnable[k]].Filter? {
        best := runnable[k];
        assert IsLowest(best, FilterSet(body, RunnableSet(body, bound, remaining)));
        return;
      }
    }
    assert FilterSet(body, RunnableSet(body, bound, remaining)) == {};
    if delta in runnable {
      best := delta;
      return;
    }
    best := MostOverlapping(body, bound, runnable);
    assert IsMaxOverlap(body, bound, RunnableSet(body, bound, remaining), best);
  }

  method MostOverlapping(body: seq<Clause>, bound: set<string>, runnable: seq<nat>) returns (best: nat)
    requires |runnable| > 0 && forall m :: 0 <= m < |runnable| ==> runnable[m] < |body|
    requires forall a, b :: 0 <= a < b < |runnable| ==> runnable[a] < runnable[b]
    ensures IsMaxOverlap(body, bound, Elems(runnable), best)
  {
    best := runnable[0];
    var maxOverlap := Overlap(body[best], bound);
    for k := 1 to |runnable|
      invariant best in runnable && best < |body| && maxOverlap == Overlap(body[best], bound)
      invariant forall m :: 0 <= m < k ==> Overlap(body[runnable[m]], bound) <= maxOverlap
      invariant forall m :: 0 <= m < k && Overlap(body[runnable[m]], bound) == maxOverlap ==> best <= runnable[m]
      invariant forall m :: k <= m < |runnable| ==> best < runnable[m]
    {
      var overlap := Overlap(body[runnable[k]], bound);
      if overlap > maxOverlap {
        maxOverlap := overlap;
        best := runnable[k];
      }
    }
  }

  lemma GreedyAppend(body: seq<Clause>, delta: int, order: seq<nat>, best: nat)
    requires IsGreedy(body, delta, order)
    requires IsChoice(body, delta, BoundBy(body, order), Remaining(|body|, order), best)
    ensures IsGreedy(body, delta, order + [best])
    ensures BoundBy(body, order + [best]) == BoundBy(body, order) + Produced(body[best])
    ensures Remaining(|body|, order + [best]) == Remaining(|body|, order) - {best}
  {
    hide IsChoice, Produced, Remaining;
    var more := order + [best];
    assert more[..|order|] == order;
    ChoiceInRange(body, delta, BoundBy(body, order), Remaining(|body|, order), best);
    forall k | 0 <= k < |more| ensures GreedyAt(body, delta, more, k) {
      if k < |order| {
        assert more[..k] == order[..k];
        assert GreedyAt(body, delta, order, k);
      }
    }
    RemainingAppend(|body|, order, best);
  }

  lemma ChoiceInRange(body: seq<Clause>, delta: int, bound: set<string>, remaining: set<nat>, best: nat)
    requires IsChoice(body, delta, bound, remaining, best)
    ensures best in remaining && best < |body|
  {}

  lemma RemainingAppend(n: nat, order: seq<nat>, best: nat)
    ensures Remaining(n, order + [best]) == Remaining(n, order) - {best}
  {
    assert Elems(order + [best]) == Elems(order) + {best};
  }

  method ComputeClauseOrder(body: seq<Clause>, delta: int) returns (scheduled: seq<nat>)
    ensures IsGreedy(body, delta, scheduled) && IsPermutation(scheduled, |body|)
    ensures forall k :: 0 <= k < |scheduled| ==> ChosenAt(body, delta, scheduled, k)
  {
    hide IsChoice, Produced, ChosenAt;
    var bound: set<string> := {};
    scheduled := [];
    var remaining := Range(|body|);
    while remaining != {}
      invariant remaining == Remaining(|body|, scheduled)
      invariant IsGreedy(body, delta, scheduled) && bound == BoundBy(body, scheduled)
      invariant NoDup(scheduled)
      decreases remaining
    {
      var best := PickBest(body, delta, bound, remaining);
      GreedyAppend(body, delta, scheduled, best);
      scheduled := scheduled + [best];
      remaining := remaining - {best};
      bound := bound + Produced(body[best]);
    }
    PermutationSize(scheduled, |body|);
    GreedyIff(body, delta, scheduled);
  }

  lemma PermutationSize(order: seq<nat>, n: nat)
    requires NoDup(order) && (forall k :: 0 <= k < |order| ==> order[k] < n) && Remaining(n, order) == {}
    ensures IsPermutation(order, n)
  {
    var all := Range(n);
    forall i | i in all ensures i in order {
      assert i !in Remaining(n, order);
    }
    assert Elems(order) == all;
    NoDupCard(order);
  }

  // --- Dependencies ---

  // Every clause comes after the producers of what it needs.
  ghost predicate RespectsDependencies(body: seq<Clause>, order: seq<nat>) {
    && (forall k :: 0 <= k < |order| ==> order[k] < |body|)
    && forall k :: 0 <= k < |order| ==> Dependencies(body[order[k]]) <= BoundBy(body, order[..k])
  }

  lemma {:induction false} ProducedIsBound(body: seq<Clause>, order: seq<nat>, i: nat)
    requires (forall k :: 0 <= k < |order| ==> order[k] < |body|) && i in order
    ensures Produced(body[i]) <= BoundBy(body, order)
  {
    var init, last := order[..|order| - 1], order[|order| - 1];
    if i in init {
      ProducedIsBound(body, init, i);
    }
  }

  lemma {:induction false} BoundByIsProduced(body: seq<Clause>, order: seq<nat>, v: string) returns (i: nat)
    requires (forall k :: 0 <= k < |order| ==> order[k] < |body|) && v in BoundBy(body, order)
    ensures i in order && i < |body| && v in Produced(body[i])
  {
    var init, last := order[..|order| - 1], order[|order| - 1];
    if v in Produced(body[last]) {
      i := last;
    } else {
      i := BoundByIsProduced(body, init, v);
    }
  }

  // If all clauses before p in a respecting order are scheduled, order[p] can run.
  lemma FirstUnscheduledCanRun(body: seq<Clause>, order: seq<nat>, p: nat, scheduled: seq<nat>)
    requires RespectsDependencies(body, order) && p < |order|
    requires forall k :: 0 <= k < |scheduled| ==> scheduled[k] < |body|
    requires forall j :: 0 <= j < p ==> order[j] in scheduled
    ensures CanRun(body, BoundBy(body, scheduled), order[p])
  {
    forall v | v in Dependencies(body[order[p]]) ensures v in BoundBy(body, scheduled) {
      var i := BoundByIsProduced(body, order[..p], v);
      ProducedIsBound(body, scheduled, i);
    }
  }

  lemma ChoiceRuns(body: seq<Clause>, delta: int, bound: set<string>, remaining: set<nat>, best: nat, other: nat)
    requires IsChoice(body, delta, bound, remaining, best)
    requires other in remaining && CanRun(body, bound, other)
    ensures CanRun(body, bound, best)
  {
    assert other in RunnableSet(body, bound, remaining);
  }

  // Some clause of the other order is the first not scheduled yet.
  lemma FirstUnscheduled(other: seq<nat>, scheduled: seq<nat>, rest: nat) returns (p: nat)
    requires rest in other && rest !in scheduled
    ensures p < |other| && other[p] !in scheduled && forall j :: 0 <= j < p ==> other[j] in scheduled
  {
    p := 0;
    while other[p] in scheduled
      invariant p < |other| && (forall j :: 0 <= j < p ==> other[j] in scheduled) && rest in other[p..]
      decreases |other| - p
    {
      assert other[p..] == [other[p]] + other[p + 1..];
      p := p + 1;
    }
  }

  lemma StepNotDeadlocked(body: seq<Clause>, delta: int, order: seq<nat>, other: seq<nat>, k: nat)
    requires IsGreedy(body, delta, order) && k < |order|
    requires IsPermutation(other, |body|) && RespectsDependencies(body, other)
    ensures Dependencies(body[order[k]]) <= BoundBy(body, order[..k])
  {
    var scheduled := order[..k];
    var bound, remaining := BoundBy(body, scheduled), Remaining(|body|, scheduled);
    assert GreedyAt(body, delta, order, k);
    hide IsGreedy;
    assert order[k] in remaining;
    var p := FirstUnscheduled(other, scheduled, order[k]);
    FirstUnscheduledCanRun(body, other, p, scheduled);
    assert other[p] in other;
    ChoiceRuns(body, delta, bound, remaining, order[k], other[p]);
  }

  // The greedy order respects the dependencies exactly when some order does: the deadlock fallback
  // is used only on bodies that cannot be ordered at all.
  lemma GreedyRespectsWheneverPossible(body: seq<Clause>, delta: int, order: seq<nat>)
    requires IsGreedy(body, delta, order) && IsPermutation(order, |body|)
    ensures RespectsDependencies(body, order) <==>
            exists other :: IsPermutation(other, |body|) && RespectsDependencies(body, other)
  {
    if other :| IsPermutation(other, |body|) && RespectsDependencies(body, other) {
      forall k | 0 <= k < |order| ensures Dependencies(body[order[k]]) <= BoundBy(body, order[..k]) {
        StepNotDeadlocked(body, delta, order, other, k);
      }
    }
  }

  // A clause that can never run is scheduled after every atom.
  lemma AtomsBeforeStuck(body: seq<Clause>, delta: int, order: seq<nat>, stuck: nat, atom: nat, v: string)
    requires IsGreedy(body, delta, order) && stuck < |order| && atom < |order|
    requires v in Dependencies(body[order[stuck]]) && forall i :: 0 <= i < |body| ==> v !in Produced(body[i])
    requires body[order[atom]].Pos? && NoDup(order)
    ensures atom < stuck
  {
    var scheduled := order[..stuck];
    var bound, remaining := BoundBy(body, scheduled), Remaining(|body|, scheduled);
    assert GreedyAt(body, delta, order, stuck);
    if v in bound {
      var i := BoundByIsProduced(body, scheduled, v);
    }
    if stuck < atom {
      assert order[atom] in remaining by {
        assert order[atom] !in scheduled;
      }
      assert CanRun(body, bound, order[atom]);
      ChoiceRuns(body, delta, bound, remaining, order[stuck], order[atom]);
    }
  }

  // --- The heuristic, read off the body ---

  ghost predicate Binds(c: Clause, v: string) {
    (c.Pos? && LVar(v) in c.atom.args) || (c.Let? && v == c.bound)
  }

  ghost predicate Wants(c: Clause, v: string) {
    (c.Neg? && LVar(v) in c.atom.args) || (c.Filter? && v in c.vars) || (c.Let? && v in c.deps)
  }

  // One of the first k scheduled clauses binds the variable.
  ghost predicate BoundBefore(body: seq<Clause>, order: seq<nat>, k: nat, v: string) {
    exists j: nat :: 0 <= j < k && j < |order| && order[j] < |body| && Binds(body[order[j]], v)
  }

  ghost predicate Waits(body: seq<Clause>, order: seq<nat>, k: nat, i: nat) {
    i < |body| && forall j: nat :: 0 <= j < k && j < |order| ==> order[j] != i
  }

  ghost predicate IsReady(body: seq<Clause>, order: seq<nat>, k: nat, i: nat) {
    Waits(body, order, k, i) && forall v :: Wants(body[i], v) ==> BoundBefore(body, order, k, v)
  }

  // The columns of an atom that hold a variable bound before; a clause that is no atom has none.
  ghost function ColumnsBound(body: seq<Clause>, order: seq<nat>, k: nat, i: nat): set<nat>
    requires i < |body|
  {
    if !body[i].Pos? then {} else
      set c: nat | c < |body[i].atom.args| && body[i].atom.args[c].LVar? &&
        BoundBefore(body, order, k, body[i].atom.args[c].name)
  }

  ghost predicate FirstWaiting(body: seq<Clause>, order: seq<nat>, k: nat, i: nat) {
    && Waits(body, order, k, i)
    && ((exists j: nat :: Waits(body, order, k, j) && body[j].Pos?) ==> body[i].Pos?)
    && forall j: nat :: Waits(body, order, k, j) && (body[i].Pos? ==> body[j].Pos?) ==> i <= j
  }

  ghost predicate FirstReadyFilter(body: seq<Clause>, order: seq<nat>, k: nat, i: nat) {
    && IsReady(body, order, k, i) && body[i].Filter?
    && forall j: nat :: IsReady(body, order, k, j) && body[j].Filter? ==> i <= j
  }

  // The first ready clause with most bound columns.
  ghost predicate MostBound(body: seq<Clause>, order: seq<nat>, k: nat, i: nat) {
    && IsReady(body, order, k, i)
    && forall j: nat :: IsReady(body, order, k, j) ==>
         && |ColumnsBound(body, order, k, j)| <= |ColumnsBound(body, order, k, i)|
         && (|ColumnsBound(body, order, k, j)| == |ColumnsBound(body, order, k, i)| ==> i <= j)
  }

  // The clause at position k: with nothing ready, the first atom that waits, else the first clause; otherwise the first
  // ready filter, else the delta clause, else the clause with most bound columns.
  ghost predicate ChosenAt(body: seq<Clause>, delta: int, order: seq<nat>, k: nat)
    requires k < |order|
  {
    if forall i: nat :: !IsReady(body, order, k, i) then FirstWaiting(body, order, k, order[k])
    else if exists i: nat :: IsReady(body, order, k, i) && body[i].Filter?
      then FirstReadyFilter(body, order, k, order[k])
    else if delta >= 0 && IsReady(body, order, k, delta) then order[k] == delta
    else MostBound(body, order, k, order[k])
  }

  lemma {:induction false} BoundIff(body: seq<Clause>, order: seq<nat>, k: nat, v: string)
    requires (forall j: nat :: 0 <= j < |order| ==> order[j] < |body|) && k <= |order|
    ensures v in BoundBy(body, order[..k]) <==> BoundBefore(body, order, k, v)
  {
    if k > 0 {
      var m: nat := k - 1;
      BoundIff(body, order, m, v);
      assert order[..k][..m] == order[..m] && order[..k][m] == order[m];
      assert v in Produced(body[order[m]]) <==> Binds(body[order[m]], v);
      hide Produced, Binds;
      if j :| 0 <= j < m && Binds(body[order[j]], v) { assert BoundBefore(body, order, k, v); }
    }
  }

  lemma WaitsIff(body: seq<Clause>, order: seq<nat>, k: nat, i: nat)
    requires k <= |order|
    ensures i in Remaining(|body|, order[..k]) <==> Waits(body, order, k, i)
  {
    if i in order[..k] { var j :| 0 <= j < k && order[..k][j] == i; }
    if j :| 0 <= j < k && order[j] == i { assert order[..k][j] == i; }
  }

  lemma ReadyIff(body: seq<Clause>, order: seq<nat>, k: nat, i: nat)
    requires (forall j: nat :: 0 <= j < |order| ==> order[j] < |body|) && k <= |order|
    ensures i in RunnableSet(body, BoundBy(body, order[..k]), Remaining(|body|, order[..k]))
        <==> IsReady(body, order, k, i)
  {
    WaitsIff(body, order, k, i);
    hide Remaining, Waits, BoundBefore, BoundBy;
    if i < |body| {
      forall v ensures v in Dependencies(body[i]) <==> Wants(body[i], v) {}
      hide Dependencies, Wants;
      forall v ensures v in BoundBy(body, order[..k]) <==> BoundBefore(body, order, k, v) {
        BoundIff(body, order, k, v);
      }
    }
  }

  ghost function ColumnsIn(args: seq<Arg>, bound: set<string>): set<nat> {
    set c: nat | c < |args| && args[c].LVar? && args[c].name in bound
  }

  lemma {:induction false} CountIsColumns(args: seq<Arg>, bound: set<string>)
    ensures CountBound(ArgVars(args), bound) == |ColumnsIn(args, bound)|
  {
    if |args| > 0 {
      var m: nat := |args| - 1;
      var init, last := args[..m], args[m];
      CountIsColumns(init, bound);
      ColumnsLast(args, bound);
      hide CountBound, ColumnsIn;
      if last.LVar? {
        assert ArgVars(args) == ArgVars(init) + [last.name];
        CountLast(ArgVars(init), last.name, bound);
      } else {
        assert ArgVars(args) == ArgVars(init) + [] == ArgVars(init);
      }
    }
  }

  lemma ColumnsLast(args: seq<Arg>, bound: set<string>)
    requires |args| > 0
    ensures var m: nat, last := |args| - 1, args[|args| - 1];
      |ColumnsIn(args, bound)| == |ColumnsIn(args[..m], bound)| + if last.LVar? && last.name in bound then 1 else 0
  {
    var m: nat, last := |args| - 1, args[|args| - 1];
    var less, all := ColumnsIn(args[..m], bound), ColumnsIn(args, bound);
    forall c: nat ensures c in all <==> c in less || (c == m && last.LVar? && last.name in bound) {
      if c < m { assert args[..m][c] == args[c]; }
    }
    assert m !in less;
    hide ColumnsIn;
    if last.LVar? && last.name in bound {
      assert all == less + {m};
    } else {
      assert all == less;
    }
  }

  lemma CountLast(vs: seq<string>, v: string, bound: set<string>)
    ensures CountBound(vs + [v], bound) == CountBound(vs, bound) + if v in bound then 1 else 0
  {
    assert (vs + [v])[..|vs|] == vs;
  }

  lemma OverlapIsColumns(body: seq<Clause>, order: seq<nat>, k: nat, i: nat)
    requires (forall j: nat :: 0 <= j < |order| ==> order[j] < |body|) && k <= |order| && i < |body|
    ensures Overlap(body[i], BoundBy(body, order[..k])) == |ColumnsBound(body, order, k, i)|
  {
    if body[i].Pos? {
      var args, bound := body[i].atom.args, BoundBy(body, order[..k]);
      CountIsColumns(args, bound);
      forall v ensures v in bound <==> BoundBefore(body, order, k, v) { BoundIff(body, order, k, v); }
      assert ColumnsIn(args, bound) == ColumnsBound(body, order, k, i);
    }
  }

  // The sets of the choice are those clauses.
  ghost predicate SameClauses(body: seq<Clause>, order: seq<nat>, k: nat, bound: set<string>, remaining: set<nat>) {
    && (forall i: nat :: i in remaining <==> Waits(body, order, k, i))
    && (forall i: nat :: i in RunnableSet(body, bound, remaining) <==> IsReady(body, order, k, i))
    && (forall i: nat :: Waits(body, order, k, i) ==> i < |body|)
    && (forall i: nat :: IsReady(body, order, k, i) ==> i < |body|)
    && forall i: nat :: i < |body| ==> Overlap(body[i], bound) == |ColumnsBound(body, order, k, i)|
  }

  lemma FallbackIff(body: seq<Clause>, order: seq<nat>, k: nat, bound: set<string>, remaining: set<nat>, best: nat)
    requires SameClauses(body, order, k, bound, remaining)
    ensures best in remaining &&
        IsLowest(best, if AtomSet(body, remaining) != {} then AtomSet(body, remaining) else remaining)
      <==> FirstWaiting(body, order, k, best)
  {
    hide Waits, RunnableSet, IsReady, Overlap, ColumnsBound;
    var atoms := AtomSet(body, remaining);
    assert forall j: nat :: j in atoms <==> Waits(body, order, k, j) && body[j].Pos?;
    if atoms != {} {
      var j :| j in atoms;
      assert IsLowest(best, atoms) ==> FirstWaiting(body, order, k, best);
      assert FirstWaiting(body, order, k, best) ==> IsLowest(best, atoms);
    } else {
      assert IsLowest(best, remaining) ==> FirstWaiting(body, order, k, best);
    }
  }

  lemma FilterIff(body: seq<Clause>, order: seq<nat>, k: nat, bound: set<string>, remaining: set<nat>, best: nat)
    requires SameClauses(body, order, k, bound, remaining)
    ensures var filters := FilterSet(body, RunnableSet(body, bound, remaining));
      && (filters != {} <==> exists i: nat :: IsReady(body, order, k, i) && body[i].Filter?)
      && (IsLowest(best, filters) <==> FirstReadyFilter(body, order, k, best))
  {
    hide Waits, RunnableSet, IsReady, Overlap, ColumnsBound;
    var filters := FilterSet(body, RunnableSet(body, bound, remaining));
    assert forall i: nat :: i in filters <==> IsReady(body, order, k, i) && body[i].Filter?;
  }

  lemma OverlapIff(body: seq<Clause>, order: seq<nat>, k: nat, bound: set<string>, remaining: set<nat>, best: nat)
    requires SameClauses(body, order, k, bound, remaining)
    ensures IsMaxOverlap(body, bound, RunnableSet(body, bound, remaining), best) <==> MostBound(body, order, k, best)
  {
    hide Waits, RunnableSet, IsReady, Overlap, ColumnsBound;
  }

  lemma ReadyWaits(body: seq<Clause>, order: seq<nat>, k: nat)
    ensures forall i: nat :: Waits(body, order, k, i) ==> i < |body|
    ensures forall i: nat :: IsReady(body, order, k, i) ==> i < |body| && Waits(body, order, k, i)
  {}

  lemma ChoiceIff(body: seq<Clause>, delta: int, order: seq<nat>, k: nat)
    requires (forall j: nat :: 0 <= j < |order| ==> order[j] < |body|) && k < |order|
    ensures GreedyAt(body, delta, order, k) <==> ChosenAt(body, delta, order, k)
  {
    hide FilterSet;
    var bound, remaining, best := BoundBy(body, order[..k]), Remaining(|body|, order[..k]), order[k];
    var runnable := RunnableSet(body, bound, remaining);
    ReadyWaits(body, order, k);
    forall i: nat ensures i in remaining <==> Waits(body, order, k, i) { WaitsIff(body, order, k, i); }
    forall i: nat ensures i in runnable <==> IsReady(body, order, k, i) { ReadyIff(body, order, k, i); }
    forall i: nat | i < |body| ensures Overlap(body[i], bound) == |ColumnsBound(body, order, k, i)| {
      OverlapIsColumns(body, order, k, i);
    }
    assert SameClauses(body, order, k, bound, remaining);
    FallbackIff(body, order, k, bound, remaining, best);
    FilterIff(body, order, k, bound, remaining, best);
    OverlapIff(body, order, k, bound, remaining, best);
    hide Remaining, Waits, BoundBy, RunnableSet, Overlap, ColumnsBound, IsReady, FirstWaiting, FirstReadyFilter,
        MostBound, IsMaxOverlap, IsLowest, SameClauses;
    assert runnable == {} <==> forall i: nat :: !IsReady(body, order, k, i);
  }

  // A greedy order makes exactly these choices, one after the other.
  lemma GreedyIff(body: seq<Clause>, delta: int, order: seq<nat>)
    requires forall k :: 0 <= k < |order| ==> order[k] < |body|
    ensures IsGreedy(body, delta, order) <==> forall k :: 0 <= k < |order| ==> ChosenAt(body, delta, order, k)
  {
    hide GreedyAt, ChosenAt;
    forall k | 0 <= k < |order| ensures GreedyAt(body, delta, order, k) <==> ChosenAt(body, delta, order, k) {
      ChoiceIff(body, delta, order, k);
    }
  }
}
