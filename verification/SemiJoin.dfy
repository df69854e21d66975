/** Semi-join rewriting, of rules and of whole programs: an atom restricted by a filter atom becomes a generated
    relation, and the filter is dropped. */
module SemiJoin {
  import opened Datalog
  import opened Dependencies
  import opened StableModel
  import opened Planner
  import opened RuleRewrite

  // ========== Semi join ==========

  // Semi-join rewriting: an atom restricted by a filter atom becomes a generated relation, and the filter is dropped.

  const SJ: string := "_SJ_"

  datatype Flagged = Flagged(rule: Rule, semiJoin: bool)

  // The variables of an atom or negation; inline code counts for nothing.
  function VarNames(c: Clause): set<string> {
    if c.Pos? || c.Neg? then ArgNames(c.atom.args) else {}
  }

  // The filter's variables are some, but not all, of the target's.
  predicate IsCandidate(filt: Clause, target: Clause) {
    && filt.Pos? && target.Pos?
    && 0 < |VarNames(filt)| < |VarNames(target)| && VarNames(filt) <= VarNames(target)
  }

  function FirstFilter(body: seq<Clause>, i: nat, j: nat): (r: nat)
    requires i < |body| && j <= |body|
    ensures r <= |body| && (r < |body| ==> r != i && IsCandidate(body[r], body[i]))
    decreases |body| - j
  {
    if j == |body| then j
    else if j != i && IsCandidate(body[j], body[i]) then j
    else FirstFilter(body, i, j + 1)
  }

  // The filter found for target i, or |body|.
  function FilterOf(body: seq<Clause>, i: nat): (r: nat)
    requires i < |body|
    ensures r <= |body| && (r < |body| ==> r != i && body[i].Pos? && IsCandidate(body[r], body[i]))
  {
    if !body[i].Pos? || SJ <= body[i].atom.rel then |body| else FirstFilter(body, i, 0)
  }

  predicate IsTarget(body: seq<Clause>, i: nat) {
    i < |body| && FilterOf(body, i) < |body|
  }

  // The clause was used as a filter.
  predicate IsDropped(body: seq<Clause>, k: nat) {
    k < |body| && exists i :: 0 <= i < |body| && FilterOf(body, i) == k
  }

  function OtherNames(body: seq<Clause>, i: nat, j: nat, n: nat): set<string>
    requires n <= |body|
  {
    if n == 0 then {} else
      OtherNames(body, i, j, n - 1) + if n - 1 == i || n - 1 == j then {} else VarNames(body[n - 1])
  }

  // The filter's variables that neither the head nor another clause mentions.
  function DropVars(head: Atom, body: seq<Clause>, i: nat): set<string>
    requires IsTarget(body, i)
  {
    var j := FilterOf(body, i);
    VarNames(body[j]) - (ArgNames(head.args) + OtherNames(body, i, j, |body|))
  }

  function Kept(args: seq<Arg>, drop: set<string>): (r: seq<nat>)
    ensures forall k :: k in r <==> 0 <= k < |args| && !(args[k].LVar? && args[k].name in drop)
    ensures forall p :: 0 <= p < |r| ==> r[p] < |args|
  {
    if |args| == 0 then [] else
      var m := |args| - 1;
      Kept(args[..m], drop) + if args[m].LVar? && args[m].name in drop then [] else [m]
  }

  function Suffix(kept: seq<nat>): string {
    if |kept| == 0 then "" else Suffix(kept[..|kept| - 1]) + "_" + Decimal(kept[|kept| - 1])
  }

  function NewName(target: string, filt: string, kept: seq<nat>): string {
    SJ + target + "_" + filt + Suffix(kept)
  }

  function PickArgs(args: seq<Arg>, kept: seq<nat>): seq<Arg>
    requires forall p :: 0 <= p < |kept| ==> kept[p] < |args|
  {
    seq(|kept|, p requires 0 <= p < |kept| => args[kept[p]])
  }

  function Pick(row: Row, kept: seq<nat>): Row
    requires forall p :: 0 <= p < |kept| ==> kept[p] < |row|
  {
    seq(|kept|, p requires 0 <= p < |kept| => row[kept[p]])
  }

  function KeptOf(head: Atom, body: seq<Clause>, i: nat): (r: seq<nat>)
    requires IsTarget(body, i)
    ensures forall p :: 0 <= p < |r| ==> r[p] < |body[i].atom.args|
  {
    Kept(body[i].atom.args, DropVars(head, body, i))
  }

  function NameOf(head: Atom, body: seq<Clause>, i: nat): string
    requires IsTarget(body, i)
  {
    NewName(body[i].atom.rel, body[FilterOf(body, i)].atom.rel, KeptOf(head, body, i))
  }

  function NewAtom(head: Atom, body: seq<Clause>, i: nat): Atom
    requires IsTarget(body, i)
  {
    Atom(NameOf(head, body, i), PickArgs(body[i].atom.args, KeptOf(head, body, i)))
  }

  // --- Targets, filters and kept columns, read off the body ---

  ghost predicate ClauseHas(c: Clause, v: string) {
    (c.Pos? || c.Neg?) && LVar(v) in c.atom.args
  }

  // Atom f has variables, all of them the other's, and the other has more.
  ghost predicate Restricts(f: Clause, t: Clause) {
    && f.Pos? && t.Pos? && (exists v :: ClauseHas(f, v)) && (forall v :: ClauseHas(f, v) ==> ClauseHas(t, v))
    && exists v :: ClauseHas(t, v) && !ClauseHas(f, v)
  }

  lemma ClauseHasIff(c: Clause, v: string)
    ensures ClauseHas(c, v) <==> v in VarNames(c)
  {}

  lemma RestrictsIff(f: Clause, t: Clause)
    ensures IsCandidate(f, t) <==> Restricts(f, t)
  {
    var a, b := VarNames(f), VarNames(t);
    forall v ensures (ClauseHas(f, v) <==> v in a) && (ClauseHas(t, v) <==> v in b) {
      ClauseHasIff(f, v);
      ClauseHasIff(t, v);
    }
    hide VarNames, ClauseHas;
    if IsCandidate(f, t) {
      var v :| v in a;
      if forall w :: w in b ==> w in a { SubsetSize(b, a); }
    }
    if Restricts(f, t) {
      var v :| ClauseHas(t, v) && !ClauseHas(f, v);
      SubsetSize(a, b - {v});
      var w :| ClauseHas(f, w);
      SubsetSize({w}, a);
    }
  }

  lemma SubsetSize(a: set<string>, b: set<string>)
    requires forall v :: v in a ==> v in b
    ensures |a| <= |b|
    decreases b
  {
    if v :| v in a { SubsetSize(a - {v}, b - {v}); }
  }

  lemma FirstFilterIs(body: seq<Clause>, i: nat, j: nat)
    requires i < |body| && j <= |body|
    ensures forall k :: j <= k < FirstFilter(body, i, j) ==> k == i || !IsCandidate(body[k], body[i])
    decreases |body| - j
  {
    if j < |body| { FirstFilterIs(body, i, j + 1); }
  }

  // Clause i is a target if and only if it is an atom of a relation that was not generated and some other atom
  // restricts it; its filter is the first that does.
  lemma TargetIff(body: seq<Clause>, i: nat)
    requires i < |body|
    ensures IsTarget(body, i) <==>
            body[i].Pos? && !(SJ <= body[i].atom.rel) &&
            exists j :: 0 <= j < |body| && j != i && Restricts(body[j], body[i])
    ensures IsTarget(body, i) ==> var j := FilterOf(body, i);
      j != i && Restricts(body[j], body[i]) && forall k :: 0 <= k < j && k != i ==> !Restricts(body[k], body[i])
  {
    forall k | 0 <= k < |body| ensures IsCandidate(body[k], body[i]) <==> Restricts(body[k], body[i]) {
      RestrictsIff(body[k], body[i]);
    }
    FirstFilterIs(body, i, 0);
    hide IsCandidate, Restricts;
  }

  lemma {:induction false} OtherNamesIff(body: seq<Clause>, i: nat, j: nat, n: nat, v: string)
    requires n <= |body|
    ensures v in OtherNames(body, i, j, n) <==> exists k :: 0 <= k < n && k != i && k != j && ClauseHas(body[k], v)
  {
    if n > 0 {
      OtherNamesIff(body, i, j, n - 1, v);
      ClauseHasIff(body[n - 1], v);
      hide VarNames, ClauseHas;
    }
  }

  // A column of the target goes if and only if its variable is one of the filter's that neither the head nor any other
  // atom or negation mentions; the rest stay in order.
  lemma KeptIff(head: Atom, body: seq<Clause>, i: nat, c: nat)
    requires IsTarget(body, i) && c < |body[i].atom.args|
    ensures var j, a := FilterOf(body, i), body[i].atom.args[c];
      c in KeptOf(head, body, i) <==>
        !(a.LVar? && ClauseHas(body[j], a.name) && a !in head.args &&
          forall k :: 0 <= k < |body| && k != i && k != j ==> !ClauseHas(body[k], a.name))
    ensures AscendsFrom(KeptOf(head, body, i), 0, |body[i].atom.args|)
  {
    var j, a := FilterOf(body, i), body[i].atom.args[c];
    KeptAscends(body[i].atom.args, DropVars(head, body, i));
    if a.LVar? {
      OtherNamesIff(body, i, j, |body|, a.name);
      ClauseHasIff(body[j], a.name);
    }
    hide FilterOf, Kept, OtherNames, VarNames, ClauseHas, AscendsFrom;
  }

  lemma {:induction false} KeptAscends(args: seq<Arg>, drop: set<string>)
    ensures AscendsFrom(Kept(args, drop), 0, |args|)
  {
    if |args| > 0 {
      var m: nat := |args| - 1;
      KeptAscends(args[..m], drop);
      AscendsOn(Kept(args[..m], drop), 0, m);
      hide AscendsFrom;
      assert Kept(args[..m], drop) + [] == Kept(args[..m], drop);
    }
  }

  // --- The generator rule ---

  function Columns(n: nat): seq<Arg> {
    seq(n, k requires 0 <= k < n => LVar(Name("v", k)))
  }

  // Each filter argument becomes the variable of the first target column that holds it.
  function FilterArgs(fargs: seq<Arg>, targs: seq<Arg>): seq<Arg> {
    if |fargs| == 0 then [] else
      var last := fargs[|fargs| - 1];
      FilterArgs(fargs[..|fargs| - 1], targs) +
      if last.LVar? && ColumnOf(targs, last.name) < |targs| then [LVar(Name("v", ColumnOf(targs, last.name)))] else []
  }

  function Generator(name: string, target: Atom, filt: Atom, kept: seq<nat>): Rule
    requires forall p :: 0 <= p < |kept| ==> kept[p] < |target.args|
  {
    Rule([Atom(name, PickArgs(Columns(|target.args|), kept))],
         [Pos(Atom(target.rel, Columns(|target.args|))), Pos(Atom(filt.rel, FilterArgs(filt.args, target.args)))])
  }

  function GeneratorOf(head: Atom, body: seq<Clause>, i: nat): Rule
    requires IsTarget(body, i)
  {
    Generator(NameOf(head, body, i), body[i].atom, body[FilterOf(body, i)].atom, KeptOf(head, body, i))
  }

  // --- The rewritten rule ---

  function NewClause(head: Atom, body: seq<Clause>, k: nat): Clause
    requires k < |body|
  {
    if IsTarget(body, k) then Pos(NewAtom(head, body, k)) else body[k]
  }

  function NewBody(head: Atom, body: seq<Clause>, n: nat): (r: seq<Clause>)
    requires n <= |body|
    ensures |r| <= n && ((exists k :: 0 <= k < n && IsDropped(body, k)) ==> |r| < n)
  {
    if n == 0 then [] else
      NewBody(head, body, n - 1) + if IsDropped(body, n - 1) then [] else [NewClause(head, body, n - 1)]
  }

  predicate Eligible(r: Flagged) {
    r.semiJoin && |r.rule.body| > 2 && |r.rule.heads| > 0
  }

  function NewRule(r: Flagged): Flagged {
    if !Eligible(r) then r else
      r.(rule := Rule(r.rule.heads, NewBody(r.rule.heads[0], r.rule.body, |r.rule.body|)))
  }

  // The generators of one rule's targets, with their names, in body order.
  function GensOf(r: Flagged, n: nat): seq<(string, Rule)>
    requires Eligible(r) && n <= |r.rule.body|
  {
    if n == 0 then [] else
      GensOf(r, n - 1) +
      if IsTarget(r.rule.body, n - 1) then
        [(NameOf(r.rule.heads[0], r.rule.body, n - 1), GeneratorOf(r.rule.heads[0], r.rule.body, n - 1))]
      else []
  }

  function AllGens(rules: seq<Flagged>): seq<(string, Rule)> {
    if |rules| == 0 then [] else
      var last := rules[|rules| - 1];
      AllGens(rules[..|rules| - 1]) + if Eligible(last) then GensOf(last, |last.rule.body|) else []
  }

  function NamesIn(gens: seq<(string, Rule)>): set<string> {
    set g | g in gens :: g.0
  }

  // Only the first generator of each name is kept.
  function FirstByName(gens: seq<(string, Rule)>): (r: seq<Flagged>)
    ensures |gens| > 0 ==> |r| > 0
    ensures |gens| == 0 ==> |r| == 0
    ensures forall k :: 0 <= k < |r| ==> !r[k].semiJoin
  {
    if |gens| == 0 then [] else
      var n := |gens| - 1;
      var before := FirstByName(gens[..n]);
      if gens[n].0 in NamesIn(gens[..n]) then
        (assert n > 0 by { var g :| g in gens[..n] && g.0 == gens[n].0; } before)
      else before + [Flagged(gens[n].1, false)]
  }

  function NewRules(rules: seq<Flagged>): seq<Flagged> {
    seq(|rules|, k requires 0 <= k < |rules| => NewRule(rules[k]))
  }

  function Optimized(rules: seq<Flagged>): seq<Flagged> {
    FirstByName(AllGens(rules)) + NewRules(rules)
  }

  // --- The pass ---

  method FindFilter(body: seq<Clause>, i: nat) returns (j: nat)
    requires i < |body|
    ensures j == FilterOf(body, i)
  {
    if !body[i].Pos? || SJ <= body[i].atom.rel { return |body|; }
    j := 0;
    while j < |body| && (j == i || !IsCandidate(body[j], body[i]))
      invariant j <= |body| && FirstFilter(body, i, 0) == FirstFilter(body, i, j)
    {
      j := j + 1;
    }
  }

  lemma FirstByNameAppend(gens: seq<(string, Rule)>, name: string, gen: Rule)
    ensures FirstByName(gens + [(name, gen)]) == if name in NamesIn(gens) then FirstByName(gens)
                                                   else FirstByName(gens) + [Flagged(gen, false)]
    ensures NamesIn(gens + [(name, gen)]) == NamesIn(gens) + {name}
  {
    assert (gens + [(name, gen)])[..|gens|] == gens;
    forall x ensures x in NamesIn(gens + [(name, gen)]) <==> x in NamesIn(gens) || x == name {
      if g :| g in gens && g.0 == x { assert g in gens + [(name, gen)]; }
      if x == name { assert (name, gen) in gens + [(name, gen)]; }
    }
  }

  // Emits a generator unless its name was seen before.
  method AddGenerator(name: string, gen: Rule, generated0: seq<Flagged>, cache0: set<string>,
                      ghost before: seq<(string, Rule)>, ghost own: seq<(string, Rule)>)
    returns (generated: seq<Flagged>, cache: set<string>)
    requires FirstByName(before) + generated0 == FirstByName(before + own) && cache0 == NamesIn(before + own)
    ensures FirstByName(before) + generated == FirstByName(before + (own + [(name, gen)]))
    ensures cache == NamesIn(before + (own + [(name, gen)]))
  {
    generated, cache := generated0, cache0;
    FirstByNameAppend(before + own, name, gen);
    assert before + (own + [(name, gen)]) == (before + own) + [(name, gen)];
    if name !in cache {
      cache := cache + {name};
      generated := generated + [Flagged(gen, false)];
    }
  }

  // The filters of the targets before n.
  predicate UsedBefore(body: seq<Clause>, n: nat, k: nat)
    requires n <= |body|
  {
    k < |body| && exists t :: 0 <= t < n && FilterOf(body, t) == k
  }

  // Finds the targets of one rule, emitting a generator for each name not seen before.
  method FindTargets(r: Flagged, cache0: set<string>, ghost before: seq<(string, Rule)>)
    returns (rewrites: map<nat, nat>, replaced: set<nat>, generated: seq<Flagged>, cache: set<string>)
    requires Eligible(r) && cache0 == NamesIn(before)
    ensures forall i: nat :: i in rewrites <==> IsTarget(r.rule.body, i)
    ensures forall i: nat :: i in rewrites && i < |r.rule.body| ==> rewrites[i] == FilterOf(r.rule.body, i)
    ensures forall k: nat :: k in replaced <==> IsDropped(r.rule.body, k)
    ensures FirstByName(before) + generated == FirstByName(before + GensOf(r, |r.rule.body|))
    ensures cache == NamesIn(before + GensOf(r, |r.rule.body|))
  {
    hide *;
    var body := r.rule.body;
    rewrites, replaced, generated, cache := map[], {}, [], cache0;
    NothingGenerated(r, cache, before);
    NothingFound(body);
    for i := 0 to |body|
      invariant RewritesUpTo(body, i, rewrites) && ReplacedUpTo(body, i, replaced)
      invariant GeneratedUpTo(r, i, generated, cache, before)
    {
      FoundNext(body, i, FilterOf(body, i), rewrites, replaced);
      generated, cache := GenerateAt(r, i, generated, cache, before);
      var j := FindFilter(body, i);
      if j < |body| {
        rewrites := rewrites[i := j];
        replaced := replaced + {j};
      }
    }
    AllFound(body, rewrites, replaced);
    GeneratedMeans(r, |body|, generated, cache, before);
  }

  ghost predicate GeneratedUpTo(r: Flagged, n: nat, generated: seq<Flagged>, cache: set<string>,
                                before: seq<(string, Rule)>)
    requires Eligible(r) && n <= |r.rule.body|
  {
    && FirstByName(before) + generated == FirstByName(before + GensOf(r, n))
    && cache == NamesIn(before + GensOf(r, n))
  }

  lemma NothingGenerated(r: Flagged, cache: set<string>, before: seq<(string, Rule)>)
    requires Eligible(r) && cache == NamesIn(before)
    ensures GeneratedUpTo(r, 0, [], cache, before)
  {
    assert before + GensOf(r, 0) == before;
  }

  lemma GeneratedMeans(r: Flagged, n: nat, generated: seq<Flagged>, cache: set<string>, before: seq<(string, Rule)>)
    requires Eligible(r) && n <= |r.rule.body| && GeneratedUpTo(r, n, generated, cache, before)
    ensures FirstByName(before) + generated == FirstByName(before + GensOf(r, n))
    ensures cache == NamesIn(before + GensOf(r, n))
  {}

  // Emits the generator of clause i if it is a target.
  method GenerateAt(r: Flagged, i: nat, generated0: seq<Flagged>, cache0: set<string>,
                    ghost before: seq<(string, Rule)>)
    returns (generated: seq<Flagged>, cache: set<string>)
    requires Eligible(r) && i < |r.rule.body| && GeneratedUpTo(r, i, generated0, cache0, before)
    ensures GeneratedUpTo(r, i + 1, generated, cache, before)
  {
    var body, head := r.rule.body, r.rule.heads[0];
    generated, cache := generated0, cache0;
    hide FirstByName, NamesIn, FilterOf, NameOf, GeneratorOf;
    var j := FindFilter(body, i);
    if j < |body| {
      generated, cache :=
        AddGenerator(NameOf(head, body, i), GeneratorOf(head, body, i), generated, cache, before, GensOf(r, i));
    } else {
      assert GensOf(r, i) + [] == GensOf(r, i);
    }
  }

  ghost predicate RewritesUpTo(body: seq<Clause>, n: nat, rewrites: map<nat, nat>)
    requires n <= |body|
  {
    && (forall k: nat :: k in rewrites <==> k < n && IsTarget(body, k))
    && forall k: nat :: k in rewrites && k < |body| ==> rewrites[k] == FilterOf(body, k)
  }

  ghost predicate ReplacedUpTo(body: seq<Clause>, n: nat, replaced: set<nat>)
    requires n <= |body|
  {
    forall k: nat :: k in replaced <==> UsedBefore(body, n, k)
  }

  lemma NothingFound(body: seq<Clause>)
    ensures RewritesUpTo(body, 0, map[]) && ReplacedUpTo(body, 0, {})
  {}

  lemma FoundNext(body: seq<Clause>, i: nat, j: nat, rewrites: map<nat, nat>, replaced: set<nat>)
    requires i < |body| && j == FilterOf(body, i) && RewritesUpTo(body, i, rewrites) && ReplacedUpTo(body, i, replaced)
    ensures RewritesUpTo(body, i + 1, if j < |body| then rewrites[i := j] else rewrites)
    ensures ReplacedUpTo(body, i + 1, if j < |body| then replaced + {j} else replaced)
  {
    UsedNext(body, i, j);
    hide FilterOf, UsedBefore;
  }

  lemma AllFound(body: seq<Clause>, rewrites: map<nat, nat>, replaced: set<nat>)
    requires RewritesUpTo(body, |body|, rewrites) && ReplacedUpTo(body, |body|, replaced)
    ensures forall i: nat :: i in rewrites <==> IsTarget(body, i)
    ensures forall i: nat :: i in rewrites && i < |body| ==> rewrites[i] == FilterOf(body, i)
    ensures forall k: nat :: k in replaced <==> IsDropped(body, k)
  {
    hide FilterOf;
  }

  lemma UsedNext(body: seq<Clause>, i: nat, j: nat)
    requires i < |body| && j == FilterOf(body, i)
    ensures forall k: nat :: UsedBefore(body, i + 1, k) <==> UsedBefore(body, i, k) || (j < |body| && k == j)
  {
    hide FilterOf;
    forall k: nat ensures UsedBefore(body, i + 1, k) <==> UsedBefore(body, i, k) || (j < |body| && k == j) {
      if k < |body| && k == j { assert FilterOf(body, i) == k; }
      if UsedBefore(body, i + 1, k) { var t :| 0 <= t < i + 1 && FilterOf(body, t) == k; }
    }
  }

  method RebuildBody(r: Flagged, rewrites: map<nat, nat>, replaced: set<nat>) returns (out: seq<Clause>)
    requires Eligible(r)
    requires forall i: nat :: i in rewrites <==> IsTarget(r.rule.body, i)
    requires forall k: nat :: k in replaced <==> IsDropped(r.rule.body, k)
    ensures out == NewBody(r.rule.heads[0], r.rule.body, |r.rule.body|)
  {
    var body, head := r.rule.body, r.rule.heads[0];
    out := [];
    for k := 0 to |body|
      invariant out == NewBody(head, body, k)
    {
      hide IsTarget, IsDropped;
      if k in replaced {
        assert IsDropped(body, k);
      } else if k in rewrites {
        out := out + [Pos(NewAtom(head, body, k))];
      } else {
        out := out + [body[k]];
      }
    }
  }

  method OptimizeSemiJoins(rules: seq<Flagged>) returns (out: seq<Flagged>)
    ensures out == Optimized(rules)
  {
    var generated: seq<Flagged>, newRules: seq<Flagged>, cache: set<string> := [], [], {};
    NothingYet(rules);
    hide FirstByName, NamesIn, GensOf, NewBody, AllGens, Size;
    for k := 0 to |rules|
      invariant newRules == NewRules(rules[..k])
      invariant generated == FirstByName(AllGens(rules[..k])) && cache == NamesIn(AllGens(rules[..k]))
    {
      var r := rules[k];
      AllGensStep(rules, k);
      NewRulesStep(rules, k);
      hide NewRules;
      if !Eligible(r) {
        newRules := newRules + [r];
        assert AllGens(rules[..k]) + [] == AllGens(rules[..k]);
      } else {
        var rewrites, replaced, more;
        rewrites, replaced, more, cache := FindTargets(r, cache, AllGens(rules[..k]));
        generated := generated + more;
        var body := RebuildBody(r, rewrites, replaced);
        newRules := newRules + [r.(rule := Rule(r.rule.heads, body))];
      }
    }
    assert rules[..|rules|] == rules;
    out := generated + newRules;
  }

  lemma NothingYet(rules: seq<Flagged>)
    ensures NewRules(rules[..0]) == [] && FirstByName(AllGens(rules[..0])) == [] && NamesIn(AllGens(rules[..0])) == {}
  {}

  lemma NewRulesStep(rules: seq<Flagged>, k: nat)
    requires k < |rules|
    ensures NewRules(rules[..k + 1]) == NewRules(rules[..k]) + [NewRule(rules[k])]
  {}

  lemma AllGensStep(rules: seq<Flagged>, k: nat)
    requires k < |rules|
    ensures AllGens(rules[..k + 1]) == AllGens(rules[..k]) + if Eligible(rules[k])
                                                               then GensOf(rules[k], |rules[k].rule.body|) else []
  {
    assert rules[..k + 1][..k] == rules[..k];
  }

  // --- Running it to a fixed point ---

  function Size(r: Flagged): nat {
    if r.semiJoin then |r.rule.body| else 0
  }

  function Measure(rules: seq<Flagged>): nat {
    if |rules| == 0 then 0 else Measure(rules[..|rules| - 1]) + Size(rules[|rules| - 1])
  }

  lemma {:induction false} MeasureAppend(a: seq<Flagged>, b: seq<Flagged>)
    ensures Measure(a + b) == Measure(a) + Measure(b)
  {
    if |b| == 0 {
      assert a + b == a;
    } else {
      MeasureAppend(a, b[..|b| - 1]);
      assert (a + b)[..|a + b| - 1] == a + b[..|b| - 1];
    }
  }

  lemma {:induction false} MeasureZero(rules: seq<Flagged>)
    requires forall k :: 0 <= k < |rules| ==> !rules[k].semiJoin
    ensures Measure(rules) == 0
  {
    if |rules| > 0 { MeasureZero(rules[..|rules| - 1]); }
  }

  lemma {:induction false} GensMeanTarget(r: Flagged, n: nat)
    requires Eligible(r) && n <= |r.rule.body| && GensOf(r, n) != []
    ensures exists i :: 0 <= i < n && IsTarget(r.rule.body, i)
  {
    if !IsTarget(r.rule.body, n - 1) { GensMeanTarget(r, n - 1); }
  }

  lemma RuleShrinks(r: Flagged)
    ensures Size(NewRule(r)) <= Size(r)
    ensures Eligible(r) && GensOf(r, |r.rule.body|) != [] ==> Size(NewRule(r)) < Size(r)
  {
    if Eligible(r) && GensOf(r, |r.rule.body|) != [] {
      GensMeanTarget(r, |r.rule.body|);
      var i :| 0 <= i < |r.rule.body| && IsTarget(r.rule.body, i);
      assert IsDropped(r.rule.body, FilterOf(r.rule.body, i));
    }
  }

  lemma {:induction false} NewRulesShrink(rules: seq<Flagged>)
    ensures Measure(NewRules(rules)) <= Measure(rules)
    ensures AllGens(rules) != [] ==> Measure(NewRules(rules)) < Measure(rules)
  {
    if |rules| > 0 {
      var n := |rules| - 1;
      NewRulesShrink(rules[..n]);
      assert NewRules(rules)[..n] == NewRules(rules[..n]);
      RuleShrinks(rules[n]);
      hide Size, NewRule, GensOf;
    }
  }

  // A round that generates something shortens a flagged body; generated rules are not flagged.
  lemma RoundShrinks(rules: seq<Flagged>)
    ensures AllGens(rules) != [] ==> Measure(Optimized(rules)) < Measure(rules)
    ensures |Optimized(rules)| == |rules| <==> AllGens(rules) == []
  {
    NewRulesShrink(rules);
    MeasureZero(FirstByName(AllGens(rules)));
    MeasureAppend(FirstByName(AllGens(rules)), NewRules(rules));
  }

  function Rounds(rules: seq<Flagged>, n: nat): seq<Flagged> {
    if n == 0 then rules else Optimized(Rounds(rules, n - 1))
  }

  // Repeats until a round adds no rule; the result is a fixed point of the pass.
  method Run(rules0: seq<Flagged>) returns (rules: seq<Flagged>)
    ensures Optimized(rules) == rules && exists n :: rules == Rounds(rules0, n)
  {
    rules := rules0;
    ghost var n := 0;
    assert rules == Rounds(rules0, 0);
    while true
      invariant rules == Rounds(rules0, n)
      decreases Measure(rules)
    {
      var prev := |rules|;
      ghost var before := rules;
      RoundShrinks(rules);
      rules := OptimizeSemiJoins(rules);
      n := n + 1;
      if |rules| == prev {
        NoGensNoChange(before);
        return;
      }
    }
  }

  lemma NoGensNoChange(rules: seq<Flagged>)
    requires AllGens(rules) == []
    ensures Optimized(rules) == rules
  {
    forall k | 0 <= k < |rules| ensures NewRule(rules[k]) == rules[k] {
      NoGensAt(rules, k);
      if Eligible(rules[k]) { NoTargetSameBody(rules[k], |rules[k].rule.body|); }
    }
    assert NewRules(rules) == rules;
  }

  lemma {:induction false} NoGensAt(rules: seq<Flagged>, k: nat)
    requires AllGens(rules) == [] && k < |rules|
    ensures Eligible(rules[k]) ==> GensOf(rules[k], |rules[k].rule.body|) == []
  {
    if k < |rules| - 1 { NoGensAt(rules[..|rules| - 1], k); }
  }

  lemma {:induction false} NoGensNoTarget(r: Flagged, n: nat, i: nat)
    requires Eligible(r) && n <= |r.rule.body| && GensOf(r, n) == [] && i < n
    ensures !IsTarget(r.rule.body, i)
  {
    if i < n - 1 { NoGensNoTarget(r, n - 1, i); }
  }

  lemma {:induction false} NoTargetSameBody(r: Flagged, n: nat)
    requires Eligible(r) && n <= |r.rule.body| && GensOf(r, |r.rule.body|) == []
    ensures NewBody(r.rule.heads[0], r.rule.body, n) == r.rule.body[..n]
  {
    hide FilterOf, GensOf, Eligible;
    if n > 0 {
      NoTargetSameBody(r, n - 1);
      var body := r.rule.body;
      forall i | 0 <= i < |body| ensures FilterOf(body, i) == |body| { NoGensNoTarget(r, |body|, i); }
      assert !IsDropped(body, n - 1) && !IsTarget(body, n - 1);
      assert body[..n] == body[..n - 1] + [body[n - 1]];
    }
  }

  // ========== Semi join correct ==========

  // Semi-join rewriting keeps what a single-head rule derives.

  // --- What a generator derives ---

  // The filter row that a target row must come with.
  function FilterRow(fargs: seq<Arg>, targs: seq<Arg>, t: Row): Row {
    seq(|fargs|, q requires 0 <= q < |fargs| => FilterValue(fargs[q], targs, t))
  }

  function FilterValue(a: Arg, targs: seq<Arg>, t: Row): int {
    if a.LVar? && ColumnOf(targs, a.name) < |t| then t[ColumnOf(targs, a.name)] else 0
  }

  ghost predicate Joins(target: Atom, filt: Atom, db: Facts, t: Row) {
    |t| == |target.args| && Fact(target.rel, t) in db && Fact(filt.rel, FilterRow(filt.args, target.args, t)) in db
  }

  // The filter has variables only, all of them the target's.
  ghost predicate Covered(fargs: seq<Arg>, targs: seq<Arg>) {
    forall q :: 0 <= q < |fargs| ==> fargs[q].LVar? && ColumnOf(targs, fargs[q].name) < |targs|
  }

  lemma {:induction false} FilterArgsAre(fargs: seq<Arg>, targs: seq<Arg>)
    requires Covered(fargs, targs)
    ensures |FilterArgs(fargs, targs)| == |fargs|
    ensures forall q ::
        0 <= q < |fargs| ==> FilterArgs(fargs, targs)[q] == LVar(Name("v", ColumnOf(targs, fargs[q].name)))
  {
    hide ColumnOf, Name;
    if |fargs| > 0 { FilterArgsAre(fargs[..|fargs| - 1], targs); }
  }

  function ColumnEnv(t: Row, n: nat): Env
    requires n <= |t|
  {
    if n == 0 then map[] else ColumnEnv(t, n - 1)[Name("v", n - 1) := t[n - 1]]
  }

  lemma {:induction false} ColumnEnvLooks(t: Row, n: nat)
    requires n <= |t|
    ensures forall k :: 0 <= k < n ==> Look(ColumnEnv(t, n), Name("v", k)) == t[k]
  {
    if n > 0 {
      ColumnEnvLooks(t, n - 1);
      forall k | 0 <= k < n ensures Look(ColumnEnv(t, n), Name("v", k)) == t[k] {
        NameInjective("v", k, n - 1);
      }
    }
  }

  lemma GeneratorSound(name: string, target: Atom, filt: Atom, kept: seq<nat>, sem: Interp, db: Facts, neg: Facts,
                       row: Row, env: Env)
    returns (t: Row)
    requires (forall p :: 0 <= p < |kept| ==> kept[p] < |target.args|) && Covered(filt.args, target.args)
    requires var gen := Generator(name, target, filt, kept);
    SatBody(gen.body, sem, db, db, -1, neg, env) && IsHeadFact(gen, env, Fact(name, row))
    ensures Joins(target, filt, db, t) && row == Pick(t, kept)
  {
    hide FilterArgs, Name;
    var gen := Generator(name, target, filt, kept);
    t := Ground(gen.body[0].atom, env);
    FilterArgsAre(filt.args, target.args);
    assert SatClause(gen.body[0], sem, View(db, db, -1, 0), neg, env)
        && SatClause(gen.body[1], sem, View(db, db, -1, 1), neg, env);
    assert Ground(gen.body[1].atom, env) == FilterRow(filt.args, target.args, t);
    assert Ground(gen.heads[0], env) == Pick(t, kept);
  }

  lemma GeneratorComplete(name: string, target: Atom, filt: Atom, kept: seq<nat>, sem: Interp, db: Facts, neg: Facts,
                          t: Row)
    returns (env: Env)
    requires (forall p :: 0 <= p < |kept| ==> kept[p] < |target.args|) && Covered(filt.args, target.args)
    requires Joins(target, filt, db, t)
    ensures var gen := Generator(name, target, filt, kept);
      SatBody(gen.body, sem, db, db, -1, neg, env) && IsHeadFact(gen, env, Fact(name, Pick(t, kept)))
  {
    hide FilterArgs;
    var gen := Generator(name, target, filt, kept);
    env := ColumnEnv(t, |target.args|);
    ColumnEnvLooks(t, |target.args|);
    FilterArgsAre(filt.args, target.args);
    assert Ground(gen.body[0].atom, env) == t;
    assert Ground(gen.body[1].atom, env) == FilterRow(filt.args, target.args, t);
    assert Ground(gen.heads[0], env) == Pick(t, kept);
  }

  // The generated relation is the target restricted to rows with a filter row, projected on the kept columns.
  lemma GeneratorDerives(name: string, target: Atom, filt: Atom, kept: seq<nat>, sem: Interp, db: Facts, neg: Facts,
                         row: Row)
    requires (forall p :: 0 <= p < |kept| ==> kept[p] < |target.args|) && Covered(filt.args, target.args)
    ensures DerivesFrom(Generator(name, target, filt, kept), sem, db, neg, Fact(name, row)) <==>
            exists t: Row :: Joins(target, filt, db, t) && row == Pick(t, kept)
  {
    var gen := Generator(name, target, filt, kept);
    hide Generator, SatBody, IsHeadFact, Joins, Covered, Pick;
    if env :| SatBody(gen.body, sem, db, db, -1, neg, env) && IsHeadFact(gen, env, Fact(name, row)) {
      var t := GeneratorSound(name, target, filt, kept, sem, db, neg, row, env);
    }
    if t: Row :| Joins(target, filt, db, t) && row == Pick(t, kept) {
      var env := GeneratorComplete(name, target, filt, kept, sem, db, neg, t);
    }
  }

  // --- When a rule may be rewritten ---

  // The generated relation of target i holds exactly what its own generator derives.
  ghost predicate Holds(head: Atom, body: seq<Clause>, i: nat, sem: Interp, db: Facts, neg: Facts)
    requires IsTarget(body, i)
  {
    forall row :: Fact(NameOf(head, body, i), row) in db <==>
      DerivesFrom(GeneratorOf(head, body, i), sem, db, neg, Fact(NameOf(head, body, i), row))
  }

  ghost predicate OnceIn(args: seq<Arg>, v: string) {
    forall a, b :: 0 <= a < b < |args| && args[a] == LVar(v) ==> args[b] != LVar(v)
  }

  // No filter that is dropped is a target itself; dropped variables occur once in their target and in no inline code;
  // constants were rewritten out of the filters.
  ghost predicate Safe(head: Atom, body: seq<Clause>) {
    && (forall i :: 0 <= i < |body| && IsTarget(body, i) ==> !IsTarget(body, FilterOf(body, i)))
    && (forall i :: 0 <= i < |body| && IsTarget(body, i) ==> TargetSafe(head, body, i))
  }

  ghost predicate TargetSafe(head: Atom, body: seq<Clause>, i: nat)
    requires IsTarget(body, i)
  {
    && (forall v :: v in DropVars(head, body, i) ==> OnceIn(body[i].atom.args, v))
    && (forall v, k ::
        v in DropVars(head, body, i) && 0 <= k < |body| && (body[k].Filter? || body[k].Let?) ==>
        v !in ClauseNames(body[k]))
    && forall q :: 0 <= q < |body[FilterOf(body, i)].atom.args| ==> body[FilterOf(body, i)].atom.args[q].LVar?
  }

  lemma {:induction false} OtherNamesAre(body: seq<Clause>, i: nat, j: nat, n: nat, v: string)
    requires n <= |body|
    ensures v in OtherNames(body, i, j, n) <==> exists k :: 0 <= k < n && k != i && k != j && v in VarNames(body[k])
  {
    if n > 0 { OtherNamesAre(body, i, j, n - 1, v); }
  }

  // A dropped variable occurs in its target, its filter and nowhere else.
  lemma DroppedOccurs(head: Atom, body: seq<Clause>, i: nat, v: string)
    requires IsTarget(body, i) && v in DropVars(head, body, i)
    ensures v in VarNames(body[i]) && v !in ArgNames(head.args)
    ensures forall k :: 0 <= k < |body| && v in VarNames(body[k]) ==> k == i || k == FilterOf(body, i)
  {
    OtherNamesAre(body, i, FilterOf(body, i), |body|, v);
  }

  lemma FilterCovered(head: Atom, body: seq<Clause>, i: nat)
    requires IsTarget(body, i) && TargetSafe(head, body, i)
    ensures Covered(body[FilterOf(body, i)].atom.args, body[i].atom.args)
  {
    var j := FilterOf(body, i);
    var fargs, targs := body[j].atom.args, body[i].atom.args;
    forall q | 0 <= q < |fargs| ensures fargs[q].LVar? && ColumnOf(targs, fargs[q].name) < |targs| {
      assert fargs[q].name in VarNames(body[j]);
      assert fargs[q].name in VarNames(body[i]);
      var k :| 0 <= k < |targs| && targs[k].LVar? && targs[k].name == fargs[q].name;
      assert targs[k] == LVar(fargs[q].name);
    }
  }

  // --- From the original body to the rewritten one ---

  // What the rewritten body asks at position k of the original one.
  ghost predicate NewHolds(head: Atom, body: seq<Clause>, k: nat, sem: Interp, db: Facts, neg: Facts, env: Env)
    requires k < |body|
  {
    !IsDropped(body, k) ==> SatClause(NewClause(head, body, k), sem, db, neg, env)
  }

  lemma {:induction false} NewBodySat(head: Atom, body: seq<Clause>, n: nat, sem: Interp, db: Facts, neg: Facts,
                                      env: Env)
    requires n <= |body|
    ensures Sat(NewBody(head, body, n), sem, db, neg, env) <==>
            forall k :: 0 <= k < n ==> NewHolds(head, body, k, sem, db, neg, env)
  {
    hide *;
    if n == 0 {
      NewBodyEmpty(head, body, sem, db, neg, env);
    } else {
      NewBodySat(head, body, n - 1, sem, db, neg, env);
      NewBodyNext(head, body, n, sem, db, neg, env);
    }
  }

  lemma NewBodyEmpty(head: Atom, body: seq<Clause>, sem: Interp, db: Facts, neg: Facts, env: Env)
    ensures Sat(NewBody(head, body, 0), sem, db, neg, env)
  {}

  lemma NewBodyNext(head: Atom, body: seq<Clause>, n: nat, sem: Interp, db: Facts, neg: Facts, env: Env)
    requires 0 < n <= |body|
    ensures Sat(NewBody(head, body, n), sem, db, neg, env) <==>
      Sat(NewBody(head, body, n - 1), sem, db, neg, env) && NewHolds(head, body, n - 1, sem, db, neg, env)
  {
    var before, r := NewBody(head, body, n - 1), NewBody(head, body, n);
    if IsDropped(body, n - 1) {
      assert r == before;
    } else {
      assert r == before + [NewClause(head, body, n - 1)];
      hide NewBody, NewClause, SatClause, IsDropped;
      assert r[..|r| - 1] == before;
      SatLast(r, sem, db, neg, env);
    }
  }

  lemma PickGround(head: Atom, body: seq<Clause>, i: nat, env: Env)
    requires IsTarget(body, i)
    ensures |Ground(body[i].atom, env)| == |body[i].atom.args|
    ensures Ground(NewAtom(head, body, i), env) == Pick(Ground(body[i].atom, env), KeptOf(head, body, i))
  {}

  lemma FilterGround(head: Atom, body: seq<Clause>, i: nat, env: Env)
    requires IsTarget(body, i) && TargetSafe(head, body, i)
    ensures FilterRow(body[FilterOf(body, i)].atom.args, body[i].atom.args, Ground(body[i].atom, env)) ==
        Ground(body[FilterOf(body, i)].atom, env)
  {
    hide ColumnOf, Covered, FilterOf, ArgValue, TargetSafe;
    FilterCovered(head, body, i);
    var fargs, targs := body[FilterOf(body, i)].atom.args, body[i].atom.args;
    forall q | 0 <= q < |fargs|
      ensures FilterValue(fargs[q], targs, Ground(body[i].atom, env)) == ArgValue(fargs[q], env) {
      assert targs[ColumnOf(targs, fargs[q].name)] == LVar(fargs[q].name);
    }
  }

  lemma JoinRows(head: Atom, body: seq<Clause>, i: nat, sem: Interp, db: Facts, neg: Facts, row: Row)
    requires IsTarget(body, i) && TargetSafe(head, body, i) && Holds(head, body, i, sem, db, neg)
    ensures Fact(NameOf(head, body, i), row) in db <==>
            exists t: Row ::
                Joins(body[i].atom, body[FilterOf(body, i)].atom, db, t) && row == Pick(t, KeptOf(head, body, i))
  {
    hide DerivesFrom, Generator;
    FilterCovered(head, body, i);
    GeneratorDerives(NameOf(head, body, i), body[i].atom, body[FilterOf(body, i)].atom, KeptOf(head, body, i), sem, db,
                     neg, row);
  }

  lemma OriginalGivesNew(head: Atom, body: seq<Clause>, sem: Interp, db: Facts, neg: Facts, env: Env)
    requires Safe(head, body) && Sat(body, sem, db, neg, env)
    requires forall i :: 0 <= i < |body| && IsTarget(body, i) ==> Holds(head, body, i, sem, db, neg)
    ensures Sat(NewBody(head, body, |body|), sem, db, neg, env)
  {
    hide SatClause, NewAtom, NewBody;
    hide Holds, TargetSafe, FilterOf;
    forall k | 0 <= k < |body| ensures NewHolds(head, body, k, sem, db, neg, env) {
      assert SatClause(body[k], sem, db, neg, env);
      if IsTarget(body, k) {
        var j := FilterOf(body, k);
        assert SatClause(body[j], sem, db, neg, env);
        TargetSatisfied(head, body, k, sem, db, neg, env);
      }
    }
    NewBodySat(head, body, |body|, sem, db, neg, env);
  }

  lemma TargetSatisfied(head: Atom, body: seq<Clause>, i: nat, sem: Interp, db: Facts, neg: Facts, env: Env)
    requires IsTarget(body, i) && TargetSafe(head, body, i) && Holds(head, body, i, sem, db, neg)
    requires SatClause(body[i], sem, db, neg, env) && SatClause(body[FilterOf(body, i)], sem, db, neg, env)
    ensures SatClause(Pos(NewAtom(head, body, i)), sem, db, neg, env)
  {
    hide Holds, TargetSafe, Ground, FilterOf, KeptOf, Pick, FilterRow;
    var t := Ground(body[i].atom, env);
    PickGround(head, body, i, env);
    FilterGround(head, body, i, env);
    JoinRows(head, body, i, sem, db, neg, Ground(NewAtom(head, body, i), env));
    assert Joins(body[i].atom, body[FilterOf(body, i)].atom, db, t);
  }

  // --- From the rewritten body back ---

  // Some row of target i that joins its filter and agrees with the binding on the kept columns.
  ghost predicate Witness(head: Atom, body: seq<Clause>, i: nat, db: Facts, env: Env, t: Row)
    requires IsTarget(body, i)
  {
    Joins(body[i].atom, body[FilterOf(body, i)].atom, db, t)
        && Ground(NewAtom(head, body, i), env) == Pick(t, KeptOf(head, body, i))
  }

  // The binding with the dropped variables of targets before n set from the witnesses.
  ghost function Restored(head: Atom, body: seq<Clause>, ts: seq<Row>, env: Env, n: nat): Env
    requires n <= |body| == |ts|
  {
    if n == 0 then env else
      var before := Restored(head, body, ts, env, n - 1);
      if IsTarget(body, n - 1) then before + Assigned(head, body, n - 1, ts[n - 1]) else before
  }

  ghost function Assigned(head: Atom, body: seq<Clause>, i: nat, t: Row): Env
    requires IsTarget(body, i)
  {
    map v | v in DropVars(head, body, i) :: ValueAt(body[i].atom.args, v, t)
  }

  // A variable that no target before n drops keeps its value; one that a target drops gets the witness's.
  lemma {:induction false} RestoredKeeps(head: Atom, body: seq<Clause>, ts: seq<Row>, env: Env, n: nat, v: string)
    requires n <= |body| == |ts| && forall i :: 0 <= i < n && IsTarget(body, i) ==> v !in DropVars(head, body, i)
    ensures Look(Restored(head, body, ts, env, n), v) == Look(env, v)
  {
    hide IsTarget, DropVars;
    if n > 0 { RestoredKeeps(head, body, ts, env, n - 1, v); }
  }

  lemma {:induction false} RestoredSets(head: Atom, body: seq<Clause>, ts: seq<Row>, env: Env, n: nat, v: string,
                                        i: nat)
    requires i < n <= |body| == |ts| && Safe(head, body) && IsTarget(body, i) && v in DropVars(head, body, i)
    ensures Look(Restored(head, body, ts, env, n), v) == Assigned(head, body, i, ts[i])[v]
  {
    hide IsTarget, DropVars, Safe;
    if IsTarget(body, n - 1) && v in DropVars(head, body, n - 1) { OneDropper(head, body, i, n - 1, v); }
    if i < n - 1 { RestoredSets(head, body, ts, env, n - 1, v, i); }
  }

  // Two targets never drop the same variable.
  lemma OneDropper(head: Atom, body: seq<Clause>, i: nat, k: nat, v: string)
    requires Safe(head, body) && IsTarget(body, i) && IsTarget(body, k) && v in DropVars(head, body, i)
    requires v in DropVars(head, body, k)
    ensures i == k
  {
    assert !IsTarget(body, FilterOf(body, i));
    DroppedOccurs(head, body, k, v);
    DroppedOccurs(head, body, i, v);
  }

  lemma {:induction false} Witnesses(head: Atom, body: seq<Clause>, sem: Interp, db: Facts, neg: Facts, env: Env,
                                     n: nat) returns (ts: seq<Row>)
    requires n <= |body| && Safe(head, body)
    requires forall i :: 0 <= i < |body| && IsTarget(body, i) ==> Holds(head, body, i, sem, db, neg)
    requires forall k :: 0 <= k < |body| ==> NewHolds(head, body, k, sem, db, neg, env)
    ensures |ts| == n && forall i :: 0 <= i < n && IsTarget(body, i) ==> Witness(head, body, i, db, env, ts[i])
  {
    hide NewClause, IsTarget;
    hide Holds, TargetSafe, FilterOf, Witness, SatClause, IsDropped;
    if n == 0 {
      ts := [];
    } else {
      var before := Witnesses(head, body, sem, db, neg, env, n - 1);
      var t: Row := [];
      if IsTarget(body, n - 1) {
        TargetKept(head, body, n - 1);
        assert NewHolds(head, body, n - 1, sem, db, neg, env);
        t := OneWitness(head, body, n - 1, sem, db, neg, env);
      }
      ts := before + [t];
    }
  }

  lemma TargetKept(head: Atom, body: seq<Clause>, i: nat)
    requires Safe(head, body) && IsTarget(body, i)
    ensures !IsDropped(body, i)
  {
    forall k | 0 <= k < |body| ensures FilterOf(body, k) != i {
      if IsTarget(body, k) { assert !IsTarget(body, FilterOf(body, k)); }
    }
  }

  lemma OneWitness(head: Atom, body: seq<Clause>, i: nat, sem: Interp, db: Facts, neg: Facts, env: Env) returns (t: Row)
    requires IsTarget(body, i) && TargetSafe(head, body, i) && Holds(head, body, i, sem, db, neg)
    requires SatClause(NewClause(head, body, i), sem, db, neg, env)
    ensures Witness(head, body, i, db, env, t)
  {
    hide Holds;
    var row := Ground(NewAtom(head, body, i), env);
    JoinRows(head, body, i, sem, db, neg, row);
    t :| Joins(body[i].atom, body[FilterOf(body, i)].atom, db, t) && row == Pick(t, KeptOf(head, body, i));
  }

  // What the restored binding is, on the variables of the original body.
  ghost predicate IsRestored(head: Atom, body: seq<Clause>, ts: seq<Row>, env: Env, e: Env)
    requires |ts| == |body|
  {
    && (forall v ::
        (forall i :: 0 <= i < |body| && IsTarget(body, i) ==> v !in DropVars(head, body, i)) ==>
        Look(e, v) == Look(env, v))
    && forall i, v ::
        0 <= i < |body| && IsTarget(body, i) && v in DropVars(head, body, i) ==>
        Look(e, v) == Assigned(head, body, i, ts[i])[v]
  }

  // The restored binding grounds the target to its witness.
  lemma TargetIsWitness(head: Atom, body: seq<Clause>, ts: seq<Row>, db: Facts, env: Env, e: Env, i: nat)
    requires |ts| == |body| && Safe(head, body) && IsTarget(body, i) && Witness(head, body, i, db, env, ts[i])
    requires IsRestored(head, body, ts, env, e)
    ensures Ground(body[i].atom, e) == ts[i]
  {
    hide Look;
    var args, t := body[i].atom.args, ts[i];
    assert TargetSafe(head, body, i);
    WitnessWidth(head, body, i, db, env, t);
    hide FilterOf, Safe, Witness, IsRestored, DropVars, ValueAt, OnceIn;
    forall c | 0 <= c < |args| ensures c < |t| && ArgValue(args[c], e) == t[c] {
      if args[c].LVar? && args[c].name in DropVars(head, body, i) {
        RestoredAt(head, body, ts, env, e, i, args[c].name);
        DroppedColumn(args, t, e, c, args[c].name);
      } else {
        KeptColumn(head, body, ts, db, env, e, i, c);
      }
    }
  }

  lemma WitnessWidth(head: Atom, body: seq<Clause>, i: nat, db: Facts, env: Env, t: Row)
    requires IsTarget(body, i) && Witness(head, body, i, db, env, t)
    ensures |t| == |body[i].atom.args|
  {}

  lemma RestoredAt(head: Atom, body: seq<Clause>, ts: seq<Row>, env: Env, e: Env, i: nat, v: string)
    requires |ts| == |body| && IsRestored(head, body, ts, env, e) && IsTarget(body, i) && v in DropVars(head, body, i)
    ensures Look(e, v) == ValueAt(body[i].atom.args, v, ts[i])
  {}

  function ValueAt(args: seq<Arg>, v: string, t: Row): int {
    if ColumnOf(args, v) < |t| then t[ColumnOf(args, v)] else 0
  }

  lemma DroppedColumn(args: seq<Arg>, t: Row, e: Env, c: nat, v: string)
    requires |t| == |args| && c < |args| && args[c] == LVar(v) && OnceIn(args, v) && Look(e, v) == ValueAt(args, v, t)
    ensures ArgValue(args[c], e) == t[c]
  {
    assert args[ColumnOf(args, v)] == LVar(v);
  }

  lemma KeptColumn(head: Atom, body: seq<Clause>, ts: seq<Row>, db: Facts, env: Env, e: Env, i: nat, c: nat)
    requires |ts| == |body| && Safe(head, body) && IsTarget(body, i) && Witness(head, body, i, db, env, ts[i])
    requires IsRestored(head, body, ts, env, e)
    requires c < |body[i].atom.args|
    requires !(body[i].atom.args[c].LVar? && body[i].atom.args[c].name in DropVars(head, body, i))
    ensures c < |ts[i]| && ArgValue(body[i].atom.args[c], e) == ts[i][c]
  {
    var args, kept, t := body[i].atom.args, KeptOf(head, body, i), ts[i];
    hide FilterOf, Safe;
    assert c in kept;
    var p :| 0 <= p < |kept| && kept[p] == c;
    assert Pick(t, kept)[p] == Ground(NewAtom(head, body, i), env)[p];
    if args[c].LVar? {
      KeptEverywhere(head, body, i, args[c].name);
    }
  }

  // A variable a target keeps is dropped by no target.
  lemma KeptEverywhere(head: Atom, body: seq<Clause>, i: nat, v: string)
    requires Safe(head, body) && IsTarget(body, i) && v in VarNames(body[i]) && v !in DropVars(head, body, i)
    ensures forall k :: 0 <= k < |body| && IsTarget(body, k) ==> v !in DropVars(head, body, k)
  {
    forall k | 0 <= k < |body| && IsTarget(body, k) ensures v !in DropVars(head, body, k) {
      assert !IsTarget(body, FilterOf(body, k));
      if v in DropVars(head, body, k) { DroppedOccurs(head, body, k, v); }
    }
  }

  lemma OtherClauseSame(head: Atom, body: seq<Clause>, ts: seq<Row>, env: Env, e: Env, k: nat, sem: Interp, db: Facts,
                        neg: Facts)
    requires |ts| == |body| && Safe(head, body) && IsRestored(head, body, ts, env, e)
    requires k < |body| && !IsTarget(body, k) && !IsDropped(body, k)
    ensures SatClause(body[k], sem, db, neg, env) <==> SatClause(body[k], sem, db, neg, e)
  {
    hide SatClause, ArgNames;
    forall v | v in ClauseNames(body[k]) ensures Look(env, v) == Look(e, v) {
      forall i | 0 <= i < |body| && IsTarget(body, i) ensures v !in DropVars(head, body, i) {
        assert TargetSafe(head, body, i) && FilterOf(body, i) != k && k != i;
        if v in DropVars(head, body, i) { DroppedOccurs(head, body, i, v); }
      }
    }
    hide IsRestored, Safe, IsTarget, IsDropped;
    ClauseAgrees(body[k], sem, db, neg, env, e);
  }

  lemma NewGivesOriginal(head: Atom, body: seq<Clause>, sem: Interp, db: Facts, neg: Facts, env: Env) returns (e: Env)
    requires Safe(head, body) && Sat(NewBody(head, body, |body|), sem, db, neg, env)
    requires forall i :: 0 <= i < |body| && IsTarget(body, i) ==> Holds(head, body, i, sem, db, neg)
    ensures Sat(body, sem, db, neg, e) && Agree(env, e, ArgNames(head.args))
  {
    hide Holds, SatClause, Safe;
    NewBodySat(head, body, |body|, sem, db, neg, env);
    var ts := Witnesses(head, body, sem, db, neg, env, |body|);
    e := Restored(head, body, ts, env, |body|);
    RestoredIs(head, body, ts, env);
    forall k | 0 <= k < |body| ensures SatClause(body[k], sem, db, neg, e) {
      RestoredSatisfies(head, body, ts, sem, db, neg, env, e, k);
    }
    forall v | v in ArgNames(head.args) ensures Look(env, v) == Look(e, v) {
      HeadNotDropped(head, body, v);
    }
  }

  lemma RestoredIs(head: Atom, body: seq<Clause>, ts: seq<Row>, env: Env)
    requires |ts| == |body| && Safe(head, body)
    ensures IsRestored(head, body, ts, env, Restored(head, body, ts, env, |body|))
  {
    hide IsTarget, DropVars, Safe;
    var e := Restored(head, body, ts, env, |body|);
    forall v | forall i :: 0 <= i < |body| && IsTarget(body, i) ==> v !in DropVars(head, body, i)
      ensures Look(e, v) == Look(env, v) {
      RestoredKeeps(head, body, ts, env, |body|, v);
    }
    forall i, v | 0 <= i < |body| && IsTarget(body, i) && v in DropVars(head, body, i)
      ensures Look(e, v) == Assigned(head, body, i, ts[i])[v] {
      RestoredSets(head, body, ts, env, |body|, v, i);
    }
  }

  lemma HeadNotDropped(head: Atom, body: seq<Clause>, v: string)
    requires v in ArgNames(head.args)
    ensures forall i :: 0 <= i < |body| && IsTarget(body, i) ==> v !in DropVars(head, body, i)
  {}

  lemma RestoredSatisfies(head: Atom, body: seq<Clause>, ts: seq<Row>, sem: Interp, db: Facts, neg: Facts, env: Env,
                          e: Env, k: nat)
    requires |ts| == |body| && Safe(head, body) && IsRestored(head, body, ts, env, e) && k < |body|
    requires forall i :: 0 <= i < |body| && IsTarget(body, i) ==> Witness(head, body, i, db, env, ts[i])
    requires forall k :: 0 <= k < |body| ==> NewHolds(head, body, k, sem, db, neg, env)
    ensures SatClause(body[k], sem, db, neg, e)
  {
    hide Safe, IsRestored, Witness, SatClause;
    if IsTarget(body, k) {
      TargetIsWitness(head, body, ts, db, env, e, k);
      WitnessIsFact(head, body, k, sem, db, neg, env, e, ts[k]);
    } else if IsDropped(body, k) {
      var i :| 0 <= i < |body| && FilterOf(body, i) == k;
      assert IsTarget(body, i);
      TargetIsWitness(head, body, ts, db, env, e, i);
      SafeAt(head, body, i);
      FilterGround(head, body, i, e);
      FilterIsFact(head, body, i, sem, db, neg, env, e, ts[i]);
    } else {
      assert NewHolds(head, body, k, sem, db, neg, env) && NewClause(head, body, k) == body[k];
      OtherClauseSame(head, body, ts, env, e, k, sem, db, neg);
    }
  }

  lemma SafeAt(head: Atom, body: seq<Clause>, i: nat)
    requires Safe(head, body) && IsTarget(body, i)
    ensures TargetSafe(head, body, i)
  {}

  lemma WitnessIsFact(head: Atom, body: seq<Clause>, i: nat, sem: Interp, db: Facts, neg: Facts, env: Env, e: Env,
                      t: Row)
    requires IsTarget(body, i) && Witness(head, body, i, db, env, t) && Ground(body[i].atom, e) == t
    ensures SatClause(body[i], sem, db, neg, e)
  {}

  lemma FilterIsFact(head: Atom, body: seq<Clause>, i: nat, sem: Interp, db: Facts, neg: Facts, env: Env, e: Env,
                     t: Row)
    requires IsTarget(body, i) && Witness(head, body, i, db, env, t) && Ground(body[i].atom, e) == t
    requires FilterRow(body[FilterOf(body, i)].atom.args, body[i].atom.args, t) ==
        Ground(body[FilterOf(body, i)].atom, e)
    ensures SatClause(body[FilterOf(body, i)], sem, db, neg, e)
  {}

  // Rewriting a single-head rule keeps what it derives, in any database where each generated relation holds what its
  // own generator derives.
  lemma SemiJoinPreserves(r: Flagged, sem: Interp, db: Facts, neg: Facts, f: Fact)
    requires Eligible(r) && |r.rule.heads| == 1 && Safe(r.rule.heads[0], r.rule.body)
    requires forall i ::
        0 <= i < |r.rule.body| && IsTarget(r.rule.body, i) ==> Holds(r.rule.heads[0], r.rule.body, i, sem, db, neg)
    ensures DerivesFrom(NewRule(r).rule, sem, db, neg, f) <==> DerivesFrom(r.rule, sem, db, neg, f)
  {
    hide Ground;
    var head, body, new_ := r.rule.heads[0], r.rule.body, NewRule(r).rule;
    assert new_.body == NewBody(head, body, |body|) && new_.heads == r.rule.heads;
    hide Safe, SatBody, Sat, NewBody, Holds, IsTarget, Eligible, NewRule;
    if env :| SatBody(body, sem, db, db, -1, neg, env) && IsHeadFact(r.rule, env, f) {
      SatIsSatBody(body, sem, db, neg, env);
      OriginalGivesNew(head, body, sem, db, neg, env);
      SatIsSatBody(new_.body, sem, db, neg, env);
      assert IsHeadFact(new_, env, f);
    }
    if env :| SatBody(new_.body, sem, db, db, -1, neg, env) && IsHeadFact(new_, env, f) {
      SatIsSatBody(new_.body, sem, db, neg, env);
      var e := NewGivesOriginal(head, body, sem, db, neg, env);
      SatIsSatBody(body, sem, db, neg, e);
      GroundAgrees(head, env, e);
      assert IsHeadFact(r.rule, e, f);
    }
  }

  // ========== Semi join program ==========

  // Semi-join rewriting of whole programs: when two generators of one name agree, a program whose facts a shared name
  // loses, and the runs that keep every fact.

  // --- When two generators agree ---

  // The target columns that the filter's arguments name.
  function FilterCols(fargs: seq<Arg>, targs: seq<Arg>): seq<nat> {
    seq(|fargs|, q requires 0 <= q < |fargs| => if fargs[q].LVar? then ColumnOf(targs, fargs[q].name) else 0)
  }

  // What a generator does: which relations it joins on which columns, and what it keeps.
  datatype Match = Match(target: string, arity: nat, filt: string, cols: seq<nat>, kept: seq<nat>)

  function MatchOf(target: Atom, filt: Atom, kept: seq<nat>): Match {
    Match(target.rel, |target.args|, filt.rel, FilterCols(filt.args, target.args), kept)
  }

  // The filter is covered by the target, and some kept column is none of the filter's.
  ghost predicate Proper(target: Atom, filt: Atom, kept: seq<nat>) {
    && (forall p :: 0 <= p < |kept| ==> kept[p] < |target.args|) && Covered(filt.args, target.args)
    && exists p :: 0 <= p < |kept| && kept[p] !in FilterCols(filt.args, target.args)
  }

  ghost predicate SameRows(name: string, a: Rule, b: Rule) {
    forall sem, db, neg, row :: DerivesFrom(a, sem, db, neg, Fact(name, row))
        <==> DerivesFrom(b, sem, db, neg, Fact(name, row))
  }

  lemma FilterRowIsPick(target: Atom, filt: Atom, t: Row)
    requires Covered(filt.args, target.args) && |t| == |target.args|
    ensures forall p :: 0 <= p < |FilterCols(filt.args, target.args)| ==> FilterCols(filt.args, target.args)[p] < |t|
    ensures FilterRow(filt.args, target.args, t) == Pick(t, FilterCols(filt.args, target.args))
  {}

  lemma SameMatchSameRule(name: string, t1: Atom, f1: Atom, k1: seq<nat>, t2: Atom, f2: Atom, k2: seq<nat>)
    requires Proper(t1, f1, k1) && Proper(t2, f2, k2) && MatchOf(t1, f1, k1) == MatchOf(t2, f2, k2)
    ensures Generator(name, t1, f1, k1) == Generator(name, t2, f2, k2)
  {
    FilterArgsAre(f1.args, t1.args);
    FilterArgsAre(f2.args, t2.args);
    var c1, c2 := FilterCols(f1.args, t1.args), FilterCols(f2.args, t2.args);
    forall q | 0 <= q < |f1.args| ensures ColumnOf(t1.args, f1.args[q].name) == ColumnOf(t2.args, f2.args[q].name) {
      assert c1[q] == c2[q];
    }
    assert FilterArgs(f1.args, t1.args) == FilterArgs(f2.args, t2.args);
  }

  // The smallest database on which the first generator derives a row: a target row of distinct values, and its filter
  // row.
  ghost function Canon(target: Atom, filt: Atom): Facts
    requires Covered(filt.args, target.args)
  {
    iset{Fact(target.rel, Numbers(|target.args|)),
         Fact(filt.rel, FilterRow(filt.args, target.args, Numbers(|target.args|)))}
  }

  function Numbers(n: nat): (t: Row)
    ensures |t| == n && forall k :: 0 <= k < n ==> t[k] == k
  {
    seq(n, k => k)
  }

  lemma CanonJoins(target: Atom, filt: Atom)
    requires Covered(filt.args, target.args)
    ensures Joins(target, filt, Canon(target, filt), Numbers(|target.args|))
  {}

  // A second generator that derives that row from it joins the same relations on the same columns and keeps the same
  // ones.
  lemma CanonTells(t1: Atom, f1: Atom, k1: seq<nat>, t2: Atom, f2: Atom, k2: seq<nat>, t: Row)
    requires Proper(t1, f1, k1) && Proper(t2, f2, k2)
    requires Joins(t2, f2, Canon(t1, f1), t) && Pick(t, k2) == Pick(Numbers(|t1.args|), k1)
    ensures MatchOf(t1, f1, k1) == MatchOf(t2, f2, k2)
  {
    hide Pick, FilterCols, Numbers, Covered, FilterRow;
    var n1 := Numbers(|t1.args|);
    var c1, c2 := FilterCols(f1.args, t1.args), FilterCols(f2.args, t2.args);
    FilterRowIsPick(t1, f1, n1);
    FilterRowIsPick(t2, f2, t);
    var p1 :| 0 <= p1 < |k1| && k1[p1] !in c1;
    var p2 :| 0 <= p2 < |k2| && k2[p2] !in c2;
    if t == Pick(n1, c1) { PickedIn(|n1|, c1, t, k1, k2, p1); }
    assert t == n1;
    PickNumbers(|n1|, k1, k2);
    if Pick(n1, c2) == n1 { NumbersIn(|n1|, c2, k2[p2]); }
    PickNumbers(|n1|, c1, c2);
  }

  lemma PickedIn(n: nat, c: seq<nat>, t: Row, k1: seq<nat>, k2: seq<nat>, p: nat)
    requires (forall q :: 0 <= q < |c| ==> c[q] < n) && (forall q :: 0 <= q < |k1| ==> k1[q] < n)
    requires forall q :: 0 <= q < |k2| ==> k2[q] < |t|
    requires t == Pick(Numbers(n), c) && Pick(t, k2) == Pick(Numbers(n), k1) && p < |k1|
    ensures k1[p] in c
  {
    assert Pick(t, k2)[p] == t[k2[p]] == c[k2[p]];
    assert Pick(Numbers(n), k1)[p] == k1[p];
  }

  lemma NumbersIn(n: nat, c: seq<nat>, k: nat)
    requires (forall q :: 0 <= q < |c| ==> c[q] < n) && Pick(Numbers(n), c) == Numbers(n) && k < n
    ensures k in c
  {
    assert |c| == n && Pick(Numbers(n), c)[k] == c[k];
  }

  lemma PickNumbers(n: nat, a: seq<nat>, b: seq<nat>)
    requires (forall p :: 0 <= p < |a| ==> a[p] < n) && (forall p :: 0 <= p < |b| ==> b[p] < n)
    requires Pick(Numbers(n), a) == Pick(Numbers(n), b)
    ensures a == b
  {
    forall p | 0 <= p < |a| ensures a[p] == b[p] {
      assert Pick(Numbers(n), a)[p] == Pick(Numbers(n), b)[p];
    }
  }

  // Two generators of one relation derive the same rows on every database exactly when they match alike.
  lemma GeneratorsAgreeIff(name: string, t1: Atom, f1: Atom, k1: seq<nat>, t2: Atom, f2: Atom, k2: seq<nat>)
    requires Proper(t1, f1, k1) && Proper(t2, f2, k2)
    ensures SameRows(name, Generator(name, t1, f1, k1), Generator(name, t2, f2, k2))
        <==> MatchOf(t1, f1, k1) == MatchOf(t2, f2, k2)
  {
    var g1, g2 := Generator(name, t1, f1, k1), Generator(name, t2, f2, k2);
    if MatchOf(t1, f1, k1) == MatchOf(t2, f2, k2) { SameMatchSameRule(name, t1, f1, k1, t2, f2, k2); }
    hide DerivesFrom, MatchOf, Generator, Joins, Canon, Pick, Numbers;
    if SameRows(name, g1, g2) {
      var db, n1 := Canon(t1, f1), Numbers(|t1.args|);
      var sem: Interp, row: Row := Interp((text, vals) => false, (text, vals) => 0), Pick(n1, k1);
      CanonJoins(t1, f1);
      GeneratorDerives(name, t1, f1, k1, sem, db, db, row);
      assert DerivesFrom(g1, sem, db, db, Fact(name, row));
      assert DerivesFrom(g2, sem, db, db, Fact(name, row));
      GeneratorDerives(name, t2, f2, k2, sem, db, db, row);
      var t: Row :| Joins(t2, f2, db, t) && row == Pick(t, k2);
      CanonTells(t1, f1, k1, t2, f2, k2, t);
    }
  }

  // The generated name fixes neither the matched columns, nor even the relations.
  lemma NamesCollide(kept: seq<nat>)
    ensures NewName("A_B", "C", kept) == NewName("A", "B_C", kept)
  {
    assert "A_B" + "_" + "C" == "A" + "_" + "B_C";
    var s := Suffix(kept);
    assert (((SJ + "A_B") + "_") + "C") == SJ + ("A_B" + "_" + "C");
    assert (((SJ + "A") + "_") + "B_C") == SJ + ("A" + "_" + "B_C");
  }

  // --- Rewrite targets ---

  function TargetMatch(r: Flagged, i: nat): Match
    requires Eligible(r) && IsTarget(r.rule.body, i)
  {
    MatchOf(r.rule.body[i].atom, r.rule.body[FilterOf(r.rule.body, i)].atom, KeptOf(r.rule.heads[0], r.rule.body, i))
  }

  lemma SmallerHasOther(small: set<string>, big: set<string>) returns (y: string)
    requires |small| < |big| && small <= big
    ensures y in big && y !in small
  {
    assert |big - small| > 0 by { assert big == small + (big - small); }
    y :| y in big && y !in small;
  }

  // Every target's generator is proper.
  lemma TargetIsProper(head: Atom, body: seq<Clause>, i: nat)
    requires IsTarget(body, i) && TargetSafe(head, body, i)
    ensures Proper(body[i].atom, body[FilterOf(body, i)].atom, KeptOf(head, body, i))
  {
    hide TargetSafe, Covered;
    FilterCovered(head, body, i);
    var target, filt, kept := body[i].atom, body[FilterOf(body, i)].atom, KeptOf(head, body, i);
    var y := SmallerHasOther(ArgNames(filt.args), ArgNames(target.args));
    var k :| 0 <= k < |target.args| && target.args[k].LVar? && target.args[k].name == y;
    assert y !in DropVars(head, body, i);
    assert k in kept;
    var p :| 0 <= p < |kept| && kept[p] == k;
    var cols := FilterCols(filt.args, target.args);
    forall q | 0 <= q < |cols| ensures cols[q] != k {
      assert target.args[cols[q]] == LVar(filt.args[q].name);
      assert filt.args[q].name in ArgNames(filt.args);
    }
    assert kept[p] !in cols;
  }

  // For two targets with one generated name: their generators agree on every database exactly when they match alike.
  lemma TargetsAgreeIff(r: Flagged, i: nat, q: Flagged, j: nat)
    requires Eligible(r) && IsTarget(r.rule.body, i) && TargetSafe(r.rule.heads[0], r.rule.body, i)
    requires Eligible(q) && IsTarget(q.rule.body, j) && TargetSafe(q.rule.heads[0], q.rule.body, j)
    requires NameOf(r.rule.heads[0], r.rule.body, i) == NameOf(q.rule.heads[0], q.rule.body, j)
    ensures SameRows(NameOf(r.rule.heads[0], r.rule.body, i), GeneratorOf(r.rule.heads[0], r.rule.body, i),
                     GeneratorOf(q.rule.heads[0], q.rule.body, j))
            <==> TargetMatch(r, i) == TargetMatch(q, j)
  {
    TargetIsProper(r.rule.heads[0], r.rule.body, i);
    TargetIsProper(q.rule.heads[0], q.rule.body, j);
    hide Proper, NameOf, KeptOf, Generator, SameRows, TargetSafe, MatchOf;
    GeneratorsAgreeIff(NameOf(r.rule.heads[0], r.rule.body, i),
                       r.rule.body[i].atom, r.rule.body[FilterOf(r.rule.body, i)].atom,
                           KeptOf(r.rule.heads[0], r.rule.body, i),
                       q.rule.body[j].atom, q.rule.body[FilterOf(q.rule.body, j)].atom,
                           KeptOf(q.rule.heads[0], q.rule.body, j));
  }

  // --- Programs ---

  function RulesOf(rules: seq<Flagged>): seq<Rule> {
    seq(|rules|, k requires 0 <= k < |rules| => rules[k].rule)
  }

  function Mentions(r: Rule): set<string> {
    HeadRels(r) + BodyRels(r)
  }

  ghost predicate IsRewrite(rules: seq<Flagged>, k: nat, i: nat) {
    k < |rules| && Eligible(rules[k]) && IsTarget(rules[k].rule.body, i)
  }

  function RewriteName(rules: seq<Flagged>, k: nat, i: nat): string
    requires IsRewrite(rules, k, i)
  {
    NameOf(rules[k].rule.heads[0], rules[k].rule.body, i)
  }

  // Rewritten rules have one head and may be rewritten, targets that share a name match alike, and no rule mentions a
  // generated name.
  ghost predicate RoundSafe(rules: seq<Flagged>) {
    && (forall k ::
        0 <= k < |rules| && Eligible(rules[k]) ==>
        |rules[k].rule.heads| == 1 && Safe(rules[k].rule.heads[0], rules[k].rule.body))
    && (forall k: nat, i: nat, l: nat, j: nat {:trigger IsRewrite(rules, k, i), IsRewrite(rules, l, j)} ::
          IsRewrite(rules, k, i) && IsRewrite(rules, l, j) && RewriteName(rules, k, i) == RewriteName(rules, l, j) ==>
          TargetMatch(rules[k], i) == TargetMatch(rules[l], j))
    && forall k :: 0 <= k < |rules| ==> Mentions(rules[k].rule) !! NamesIn(AllGens(rules))
  }

  // Every round of the run is safe.
  ghost predicate RunSafe(rules: seq<Flagged>)
    decreases Measure(rules)
  {
    && RoundSafe(rules)
    && (AllGens(rules) != [] ==> (RoundShrinks(rules); RunSafe(Optimized(rules))))
  }

  // The names generated in all rounds.
  ghost function RunNames(rules: seq<Flagged>): set<string>
    decreases Measure(rules)
  {
    NamesIn(AllGens(rules)) + if AllGens(rules) == [] then {} else (RoundShrinks(rules); RunNames(Optimized(rules)))
  }

  // --- The generators of a round ---

  ghost predicate IsGen(rules: seq<Flagged>, name: string, gen: Rule) {
    exists k: nat, i: nat ::
        IsRewrite(rules, k, i) && name == RewriteName(rules, k, i) && gen == RewriteGen(rules, k, i)
  }

  lemma {:induction false} GensOfAre(r: Flagged, n: nat, g: (string, Rule))
    requires Eligible(r) && n <= |r.rule.body|
    ensures g in GensOf(r, n) <==>
      (exists i ::
       0 <= i < n && IsTarget(r.rule.body, i)
       && g == (NameOf(r.rule.heads[0], r.rule.body, i), GeneratorOf(r.rule.heads[0], r.rule.body, i)))
  {
    hide NameOf, GeneratorOf, IsTarget;
    if n > 0 { GensOfAre(r, n - 1, g); }
  }

  lemma {:induction false} AllGensAre(rules: seq<Flagged>, g: (string, Rule))
    ensures g in AllGens(rules)
        <==> exists k :: 0 <= k < |rules| && Eligible(rules[k]) && g in GensOf(rules[k], |rules[k].rule.body|)
  {
    hide GensOf;
    if |rules| > 0 {
      var init := rules[..|rules| - 1];
      AllGensAre(init, g);
      if k :| 0 <= k < |rules| && Eligible(rules[k]) && g in GensOf(rules[k], |rules[k].rule.body|) {
        if k < |init| { assert init[k] == rules[k]; }
      }
    }
  }

  lemma GensAre(rules: seq<Flagged>, name: string, gen: Rule)
    ensures (name, gen) in AllGens(rules) <==> IsGen(rules, name, gen)
  {
    AllGensAre(rules, (name, gen));
    hide AllGens, GensOf, NameOf, GeneratorOf, IsTarget;
    if (name, gen) in AllGens(rules) {
      var k :| 0 <= k < |rules| && Eligible(rules[k]) && (name, gen) in GensOf(rules[k], |rules[k].rule.body|);
      GensOfAre(rules[k], |rules[k].rule.body|, (name, gen));
      var i :| 0 <= i < |rules[k].rule.body| && IsTarget(rules[k].rule.body, i) &&
        (name, gen) == (NameOf(rules[k].rule.heads[0], rules[k].rule.body, i),
                        GeneratorOf(rules[k].rule.heads[0], rules[k].rule.body, i));
      assert IsRewrite(rules, k, i);
    }
    if IsGen(rules, name, gen) {
      var k: nat, i: nat :| IsRewrite(rules, k, i) && name == RewriteName(rules, k, i)
          && gen == GeneratorOf(rules[k].rule.heads[0], rules[k].rule.body, i);
      IsTargetInside(rules[k].rule.body, i);
      GensOfAre(rules[k], |rules[k].rule.body|, (name, gen));
    }
  }

  lemma IsTargetInside(body: seq<Clause>, i: nat)
    requires IsTarget(body, i)
    ensures i < |body|
  {}

  function RewriteGen(rules: seq<Flagged>, k: nat, i: nat): Rule
    requires IsRewrite(rules, k, i)
  {
    GeneratorOf(rules[k].rule.heads[0], rules[k].rule.body, i)
  }

  lemma SameMatchSameGen(rules: seq<Flagged>, k: nat, i: nat, l: nat, j: nat)
    requires RoundSafe(rules) && IsRewrite(rules, k, i) && IsRewrite(rules, l, j)
    requires RewriteName(rules, k, i) == RewriteName(rules, l, j)
    ensures RewriteGen(rules, k, i) == RewriteGen(rules, l, j)
  {
    assert TargetMatch(rules[k], i) == TargetMatch(rules[l], j);
    RewriteIsProper(rules, k, i);
    RewriteIsProper(rules, l, j);
    hide RoundSafe, NameOf, KeptOf, Proper, Generator, FilterCols;
    var rb, qb := rules[k].rule.body, rules[l].rule.body;
    SameMatchSameRule(RewriteName(rules, k, i), rb[i].atom, rb[FilterOf(rb, i)].atom,
                      KeptOf(rules[k].rule.heads[0], rb, i),
                      qb[j].atom, qb[FilterOf(qb, j)].atom, KeptOf(rules[l].rule.heads[0], qb, j));
  }

  // In a safe round one name means one generator.
  lemma OneGenerator(rules: seq<Flagged>, name: string, a: Rule, b: Rule)
    requires RoundSafe(rules) && IsGen(rules, name, a) && IsGen(rules, name, b)
    ensures a == b
  {
    var k: nat, i: nat :| IsRewrite(rules, k, i) && name == RewriteName(rules, k, i) && a == RewriteGen(rules, k, i);
    var l: nat, j: nat :| IsRewrite(rules, l, j) && name == RewriteName(rules, l, j) && b == RewriteGen(rules, l, j);
    hide RoundSafe, IsGen, RewriteName, RewriteGen, IsRewrite;
    SameMatchSameGen(rules, k, i, l, j);
  }

  lemma RewriteIsProper(rules: seq<Flagged>, k: nat, i: nat)
    requires RoundSafe(rules) && IsRewrite(rules, k, i)
    ensures var h, b := rules[k].rule.heads[0], rules[k].rule.body;
    Proper(b[i].atom, b[FilterOf(b, i)].atom, KeptOf(h, b, i))
  {
    hide TargetSafe, Proper, Safe, FilterOf, KeptOf, IsTarget;
    var h, b := rules[k].rule.heads[0], rules[k].rule.body;
    assert Safe(h, b);
    SafeAt(h, b, i);
    TargetIsProper(h, b, i);
  }

  ghost predicate Represented(gens: seq<(string, Rule)>, first: seq<Flagged>, name: string) {
    exists h :: h in gens && h.0 == name && Flagged(h.1, false) in first
  }

  ghost predicate FromGens(gens: seq<(string, Rule)>, f: Flagged) {
    exists g :: g in gens && f == Flagged(g.1, false)
  }

  lemma {:induction false} FirstByNameIs(gens: seq<(string, Rule)>)
    ensures forall f :: f in FirstByName(gens) ==> FromGens(gens, f)
    ensures forall g :: g in gens ==> Represented(gens, FirstByName(gens), g.0)
  {
    hide *;
    if |gens| == 0 {
      FirstByNameNone();
      assert gens == [];
    } else {
      var n := |gens| - 1;
      var init, g := gens[..n], gens[n];
      FirstByNameIs(init);
      FirstByNameNext(gens, init, g);
      FromMoreGens(init, FirstByName(init), g, FirstByName(gens));
      RepresentedStill(init, FirstByName(init), g, FirstByName(gens));
    }
  }

  lemma FirstByNameNone()
    ensures FirstByName([]) == []
  {}

  lemma FirstByNameNext(gens: seq<(string, Rule)>, init: seq<(string, Rule)>, g: (string, Rule))
    requires |gens| > 0 && init == gens[..|gens| - 1] && g == gens[|gens| - 1]
    ensures gens == init + [g]
    ensures FirstByName(gens) == FirstByName(init) || FirstByName(gens) == FirstByName(init) + [Flagged(g.1, false)]
    ensures (exists e :: e in init && e.0 == g.0) || Flagged(g.1, false) in FirstByName(gens)
  {
    assert g.0 in NamesIn(init) ==> exists e :: e in init && e.0 == g.0;
  }

  lemma FromMoreGens(init: seq<(string, Rule)>, before: seq<Flagged>, g: (string, Rule), more: seq<Flagged>)
    requires forall f :: f in before ==> FromGens(init, f)
    requires more == before || more == before + [Flagged(g.1, false)]
    ensures forall f :: f in more ==> FromGens(init + [g], f)
  {
    forall f | f in more ensures FromGens(init + [g], f) {
      if f in before {
        var e :| e in init && f == Flagged(e.1, false);
        assert e in init + [g];
      } else {
        assert g in init + [g];
      }
    }
  }

  lemma RepresentedStill(init: seq<(string, Rule)>, before: seq<Flagged>, g: (string, Rule), more: seq<Flagged>)
    requires (forall h :: h in init ==> Represented(init, before, h.0)) && before <= more
    requires (exists e :: e in init && e.0 == g.0) || Flagged(g.1, false) in more
    ensures forall h :: h in init + [g] ==> Represented(init + [g], more, h.0)
  {
    forall h | h in init + [g] ensures Represented(init + [g], more, h.0) {
      if e :| e in init && e.0 == h.0 {
        assert Represented(init, before, e.0);
        var r :| r in init && r.0 == e.0 && Flagged(r.1, false) in before;
        assert r in init + [g] && Flagged(r.1, false) in more;
      } else {
        assert h == g && g in init + [g];
      }
    }
  }

  ghost predicate SomeGen(rules: seq<Flagged>, r: Rule) {
    exists name :: IsGen(rules, name, r)
  }

  ghost predicate SomeNew(rules: seq<Flagged>, r: Rule) {
    exists k :: 0 <= k < |rules| && r == NewRule(rules[k]).rule
  }

  lemma RulesOfAppend(a: seq<Flagged>, b: seq<Flagged>, r: Rule)
    ensures r in RulesOf(a + b) <==> r in RulesOf(a) || r in RulesOf(b)
  {
    assert RulesOf(a + b) == RulesOf(a) + RulesOf(b);
  }

  lemma RulesOfHas(rules: seq<Flagged>, r: Rule)
    ensures r in RulesOf(rules) <==> exists f :: f in rules && f.rule == r
  {
    if r in RulesOf(rules) {
      var k :| 0 <= k < |rules| && RulesOf(rules)[k] == r;
      assert rules[k] in rules;
    }
    if f :| f in rules && f.rule == r {
      var k :| 0 <= k < |rules| && rules[k] == f;
      assert RulesOf(rules)[k] == r;
    }
  }

  lemma GenRules(rules: seq<Flagged>, r: Rule)
    requires RoundSafe(rules)
    ensures r in RulesOf(FirstByName(AllGens(rules))) <==> SomeGen(rules, r)
  {
    var gens := AllGens(rules);
    var first := FirstByName(gens);
    FirstByNameIs(gens);
    RulesOfHas(first, r);
    hide *;
    if f :| f in first && f.rule == r {
      GenOfFirst(rules, gens, f);
    }
    if SomeGen(rules, r) {
      FirstOfGen(rules, gens, first, r);
    }
  }

  lemma GenOfFirst(rules: seq<Flagged>, gens: seq<(string, Rule)>, f: Flagged)
    requires gens == AllGens(rules) && FromGens(gens, f)
    ensures SomeGen(rules, f.rule)
  {
    hide AllGens, IsGen;
    var g :| g in gens && f == Flagged(g.1, false);
    GensAre(rules, g.0, g.1);
  }

  lemma FirstOfGen(rules: seq<Flagged>, gens: seq<(string, Rule)>, first: seq<Flagged>, r: Rule)
    requires RoundSafe(rules) && gens == AllGens(rules) && SomeGen(rules, r)
    requires forall g :: g in gens ==> Represented(gens, first, g.0)
    ensures exists f :: f in first && f.rule == r
  {
    hide RoundSafe, AllGens, IsGen;
    var name :| IsGen(rules, name, r);
    GensAre(rules, name, r);
    assert (name, r) in gens;
    var h :| h in gens && h.0 == name && Flagged(h.1, false) in first;
    GensAre(rules, h.0, h.1);
    OneGenerator(rules, name, r, h.1);
  }

  // The rewritten program: one generator per name, and the rewritten rules.
  lemma OptimizedRules(rules: seq<Flagged>, r: Rule)
    requires RoundSafe(rules)
    ensures r in RulesOf(Optimized(rules)) <==> SomeGen(rules, r) || SomeNew(rules, r)
  {
    GenRules(rules, r);
    RulesOfAppend(FirstByName(AllGens(rules)), NewRules(rules), r);
    hide RoundSafe, AllGens, FirstByName, SomeGen, NewRule;
    var news := RulesOf(NewRules(rules));
    if r in news {
      var k :| 0 <= k < |news| && news[k] == r;
      assert r == NewRule(rules[k]).rule;
    }
    if k :| 0 <= k < |rules| && r == NewRule(rules[k]).rule {
      assert news[k] == r;
    }
  }

  // --- One round keeps every fact ---

  // The facts a generator adds to a database.
  ghost predicate Generates(rules: seq<Flagged>, sem: Interp, db: Facts, neg: Facts, f: Fact) {
    exists gen :: IsGen(rules, f.rel, gen) && DerivesFrom(gen, sem, db, neg, f)
  }

  ghost function Extended(rules: seq<Flagged>, sem: Interp, db: Facts, neg: Facts): Facts {
    db + iset f: Fact | Generates(rules, sem, db, neg, f)
  }

  lemma GenShape(rules: seq<Flagged>, name: string, gen: Rule)
    requires RoundSafe(rules) && IsGen(rules, name, gen)
    ensures name in NamesIn(AllGens(rules)) && HeadRels(gen) == {name} && BodyRels(gen) !! NamesIn(AllGens(rules))
  {
    GensAre(rules, name, gen);
    hide AllGens;
    var k: nat, i: nat :| IsRewrite(rules, k, i) && name == RewriteName(rules, k, i)
        && gen == GeneratorOf(rules[k].rule.heads[0], rules[k].rule.body, i);
    var body := rules[k].rule.body;
    assert Mentions(rules[k].rule) !! NamesIn(AllGens(rules));
    hide RoundSafe, IsGen, KeptOf, NameOf;
    assert ReadsRelation(body[i]) && ReadsRelation(body[FilterOf(body, i)]);
    assert body[i].atom.rel in BodyRels(rules[k].rule) && body[FilterOf(body, i)].atom.rel in BodyRels(rules[k].rule);
    assert gen.heads[0].rel == name;
    assert (name, gen) in AllGens(rules);
    GenReads(name, body[i].atom, body[FilterOf(body, i)].atom, KeptOf(rules[k].rule.heads[0], body, i));
  }

  lemma GenReads(name: string, target: Atom, filt: Atom, kept: seq<nat>)
    requires forall p :: 0 <= p < |kept| ==> kept[p] < |target.args|
    ensures BodyRels(Generator(name, target, filt, kept)) == {target.rel, filt.rel}
    ensures HeadRels(Generator(name, target, filt, kept)) == {name}
  {
    var gen := Generator(name, target, filt, kept);
    assert gen.body[0].atom.rel == target.rel && gen.body[1].atom.rel == filt.rel;
    assert gen.heads[0].rel == name;
  }

  // The facts of the generated names are exactly what their generators derive.
  ghost predicate GensHold(rules: seq<Flagged>, sem: Interp, db: Facts, neg: Facts) {
    forall f: Fact :: f.rel in NamesIn(AllGens(rules)) ==> (f in db <==> Generates(rules, sem, db, neg, f))
  }

  lemma HeadRelIsHead(r: Rule, sem: Interp, db: Facts, neg: Facts, f: Fact)
    requires DerivesFrom(r, sem, db, neg, f)
    ensures f.rel in HeadRels(r)
  {
    var env :| SatBody(r.body, sem, db, db, -1, neg, env) && IsHeadFact(r, env, f);
  }

  // On such a database a rewritten rule derives what the original one does.
  lemma RoundRulePreserves(rules: seq<Flagged>, k: nat, sem: Interp, db: Facts, neg: Facts, f: Fact)
    requires RoundSafe(rules) && k < |rules| && GensHold(rules, sem, db, neg)
    ensures DerivesFrom(NewRule(rules[k]).rule, sem, db, neg, f) <==> DerivesFrom(rules[k].rule, sem, db, neg, f)
  {
    var r := rules[k];
    if Eligible(r) {
      var head, body := r.rule.heads[0], r.rule.body;
      assert |r.rule.heads| == 1 && Safe(head, body);
      hide RoundSafe, Safe, DerivesFrom, GensHold, NewRule;
      forall i | 0 <= i < |body| && IsTarget(body, i) ensures Holds(head, body, i, sem, db, neg) {
        TargetHolds(rules, k, i, sem, db, neg);
      }
      hide Holds, IsTarget, Eligible;
      SemiJoinPreserves(r, sem, db, neg, f);
    }
  }

  lemma {:induction false} TargetHolds(rules: seq<Flagged>, k: nat, i: nat, sem: Interp, db: Facts, neg: Facts)
    requires RoundSafe(rules) && IsRewrite(rules, k, i) && GensHold(rules, sem, db, neg)
    ensures Holds(rules[k].rule.heads[0], rules[k].rule.body, i, sem, db, neg)
  {
    hide IsRewrite, RoundSafe;
    var name, gen := RewriteName(rules, k, i), RewriteGen(rules, k, i);
    assert IsGen(rules, name, gen);
    GenHolds(rules, name, gen, sem, db, neg);
  }

  lemma GenHolds(rules: seq<Flagged>, name: string, gen: Rule, sem: Interp, db: Facts, neg: Facts)
    requires RoundSafe(rules) && IsGen(rules, name, gen) && GensHold(rules, sem, db, neg)
    ensures forall row :: Fact(name, row) in db <==> DerivesFrom(gen, sem, db, neg, Fact(name, row))
  {
    GenShape(rules, name, gen);
    hide RoundSafe, DerivesFrom, IsGen, AllGens, NamesIn;
    forall row ensures Fact(name, row) in db <==> DerivesFrom(gen, sem, db, neg, Fact(name, row)) {
      if Generates(rules, sem, db, neg, Fact(name, row)) {
        var other :| IsGen(rules, name, other) && DerivesFrom(other, sem, db, neg, Fact(name, row));
        OneGenerator(rules, name, gen, other);
      }
    }
  }

  lemma OriginalAvoids(rules: seq<Flagged>, k: nat)
    requires RoundSafe(rules) && k < |rules|
    ensures BodyRels(rules[k].rule) !! NamesIn(AllGens(rules)) && HeadRels(rules[k].rule) !! NamesIn(AllGens(rules))
    ensures HeadRels(NewRule(rules[k]).rule) == HeadRels(rules[k].rule)
  {
    assert Mentions(rules[k].rule) !! NamesIn(AllGens(rules));
    hide RoundSafe, AllGens, NamesIn;
  }

  ghost predicate NoneOf(db: Facts, names: set<string>) {
    forall f: Fact :: f in db ==> f.rel !in names
  }

  lemma LeastAvoids(rules: seq<Flagged>, sem: Interp, base: Facts, neg: Facts)
    requires RoundSafe(rules) && NoneOf(base, NamesIn(AllGens(rules)))
    ensures NoneOf(LeastClosed(RulesOf(rules), sem, base, neg), NamesIn(AllGens(rules)))
  {
    hide RoundSafe;
    var all := RulesOf(rules);
    forall f: Fact | f in LeastClosed(all, sem, base, neg) ensures f.rel !in NamesIn(AllGens(rules)) {
      Supported(all, sem, base, neg, f);
      if f !in base {
        var k :| 0 <= k < |all| && DerivesFrom(all[k], sem, LeastClosed(all, sem, base, neg), neg, f);
        HeadRelIsHead(all[k], sem, LeastClosed(all, sem, base, neg), neg, f);
        OriginalAvoids(rules, k);
      }
    }
  }

  // Extending a database without generated facts makes its generators hold.
  lemma ExtendedHolds(rules: seq<Flagged>, sem: Interp, db: Facts, neg: Facts)
    requires RoundSafe(rules) && NoneOf(db, NamesIn(AllGens(rules)))
    ensures GensHold(rules, sem, Extended(rules, sem, db, neg), neg)
    ensures forall f: Fact :: f.rel !in NamesIn(AllGens(rules)) ==> (f in Extended(rules, sem, db, neg) <==> f in db)
  {
    var names, more := NamesIn(AllGens(rules)), Extended(rules, sem, db, neg);
    hide RoundSafe, AllGens, NamesIn, DerivesFrom, IsGen;
    forall f: Fact | Generates(rules, sem, db, neg, f) ensures f.rel in names {
      var gen :| IsGen(rules, f.rel, gen) && DerivesFrom(gen, sem, db, neg, f);
      GenShape(rules, f.rel, gen);
    }
    forall f: Fact | f.rel in names ensures f in more <==> Generates(rules, sem, more, neg, f) {
      forall gen | IsGen(rules, f.rel, gen)
        ensures DerivesFrom(gen, sem, db, neg, f) <==> DerivesFrom(gen, sem, more, neg, f) {
        GenShape(rules, f.rel, gen);
        assert AgreeOn(db, more, BodyRels(gen));
        if DerivesFrom(gen, sem, db, neg, f) { DerivesReads(gen, sem, db, neg, more, neg, f); }
        if DerivesFrom(gen, sem, more, neg, f) { DerivesReads(gen, sem, more, neg, db, neg, f); }
      }
    }
  }

  // The original least set, extended, is closed under the rewritten rules.
  lemma ExtendedIsClosed(rules: seq<Flagged>, sem: Interp, base: Facts, neg: Facts)
    requires RoundSafe(rules) && NoneOf(base, NamesIn(AllGens(rules)))
    ensures ClosedUnder(RulesOf(Optimized(rules)), sem,
                        Extended(rules, sem, LeastClosed(RulesOf(rules), sem, base, neg), neg), neg)
  {
    hide Extended, HeadRels, NegRels;
    var least := LeastClosed(RulesOf(rules), sem, base, neg);
    var more, all := Extended(rules, sem, least, neg), RulesOf(Optimized(rules));
    LeastAvoids(rules, sem, base, neg);
    ExtendedHolds(rules, sem, least, neg);
    LeastClosedIsClosed(RulesOf(rules), sem, base, neg);
    hide RoundSafe, NoneOf, AllGens, NamesIn, DerivesFrom, IsGen, Optimized, LeastClosed, GensHold, NewRule;
    forall k, f | 0 <= k < |all| && DerivesFrom(all[k], sem, more, neg, f) ensures f in more {
      assert all[k] in all;
      OptimizedRules(rules, all[k]);
      if name :| IsGen(rules, name, all[k]) {
        GeneratedIsIn(rules, sem, more, neg, name, all[k], f);
      } else {
        var j :| 0 <= j < |rules| && all[k] == NewRule(rules[j]).rule;
        RoundRulePreserves(rules, j, sem, more, neg, f);
        OriginalAvoids(rules, j);
        assert AgreeOn(more, least, BodyRels(rules[j].rule));
        DerivesReads(rules[j].rule, sem, more, neg, least, neg, f);
        assert DerivesFrom(RulesOf(rules)[j], sem, least, neg, f);
      }
    }
  }

  lemma GeneratedIsIn(rules: seq<Flagged>, sem: Interp, db: Facts, neg: Facts, name: string, gen: Rule, f: Fact)
    requires RoundSafe(rules) && GensHold(rules, sem, db, neg) && IsGen(rules, name, gen)
    requires DerivesFrom(gen, sem, db, neg, f)
    ensures f in db
  {
    hide RoundSafe, IsGen, AllGens, DerivesFrom, HeadRels, BodyRels, NamesIn;
    GenShape(rules, name, gen);
    HeadRelIsHead(gen, sem, db, neg, f);
    assert Generates(rules, sem, db, neg, f);
  }

  // In the rewritten least set the generators hold, so it is closed under the original rules.
  lemma RewrittenHolds(rules: seq<Flagged>, sem: Interp, base: Facts, neg: Facts)
    requires RoundSafe(rules) && NoneOf(base, NamesIn(AllGens(rules)))
    ensures GensHold(rules, sem, LeastClosed(RulesOf(Optimized(rules)), sem, base, neg), neg)
  {
    hide RulesOf, HeadRels;
    var all, names := RulesOf(Optimized(rules)), NamesIn(AllGens(rules));
    var least := LeastClosed(all, sem, base, neg);
    LeastClosedIsClosed(all, sem, base, neg);
    hide RoundSafe, AllGens, NamesIn, DerivesFrom, IsGen, Optimized, LeastClosed, NewRule;
    forall f: Fact | f.rel in names ensures f in least <==> Generates(rules, sem, least, neg, f) {
      if f in least {
        Supported(all, sem, base, neg, f);
        var k :| 0 <= k < |all| && DerivesFrom(all[k], sem, least, neg, f);
        HeadRelIsHead(all[k], sem, least, neg, f);
        assert all[k] in all;
        OptimizedRules(rules, all[k]);
        if name :| IsGen(rules, name, all[k]) {
          GenShape(rules, name, all[k]);
          assert f.rel == name;
        } else {
          var j :| 0 <= j < |rules| && all[k] == NewRule(rules[j]).rule;
          OriginalAvoids(rules, j);
        }
      }
      if Generates(rules, sem, least, neg, f) {
        var gen :| IsGen(rules, f.rel, gen) && DerivesFrom(gen, sem, least, neg, f);
        OptimizedRules(rules, gen);
        var k :| 0 <= k < |all| && all[k] == gen;
      }
    }
  }

  lemma RewrittenIsClosed(rules: seq<Flagged>, sem: Interp, base: Facts, neg: Facts)
    requires RoundSafe(rules) && NoneOf(base, NamesIn(AllGens(rules)))
    ensures ClosedUnder(RulesOf(rules), sem, LeastClosed(RulesOf(Optimized(rules)), sem, base, neg), neg)
  {
    var all := RulesOf(Optimized(rules));
    var least := LeastClosed(all, sem, base, neg);
    LeastClosedIsClosed(all, sem, base, neg);
    RewrittenHolds(rules, sem, base, neg);
    hide RoundSafe, AllGens, NamesIn, DerivesFrom, Optimized, LeastClosed, NewRule, GensHold;
    forall k, f | 0 <= k < |rules| && DerivesFrom(RulesOf(rules)[k], sem, least, neg, f) ensures f in least {
      RoundRulePreserves(rules, k, sem, least, neg, f);
      OptimizedRules(rules, NewRule(rules[k]).rule);
      var j :| 0 <= j < |all| && all[j] == NewRule(rules[k]).rule;
    }
  }

  // A safe round keeps the least set, up to the generated relations.
  lemma RoundPreserves(rules: seq<Flagged>, sem: Interp, base: Facts, neg: Facts, f: Fact)
    requires RoundSafe(rules) && NoneOf(base, NamesIn(AllGens(rules))) && f.rel !in NamesIn(AllGens(rules))
    ensures f in LeastClosed(RulesOf(Optimized(rules)), sem, base, neg)
        <==> f in LeastClosed(RulesOf(rules), sem, base, neg)
  {
    hide RoundSafe, Optimized;
    var old_, new_ :=
        LeastClosed(RulesOf(rules), sem, base, neg), LeastClosed(RulesOf(Optimized(rules)), sem, base, neg);
    LeastClosedIsClosed(RulesOf(rules), sem, base, neg);
    LeastClosedIsClosed(RulesOf(Optimized(rules)), sem, base, neg);
    ExtendedIsClosed(rules, sem, base, neg);
    LeastAvoids(rules, sem, base, neg);
    ExtendedHolds(rules, sem, old_, neg);
    ClosingStaysInside(RulesOf(Optimized(rules)), sem, base, neg, Extended(rules, sem, old_, neg));
    RewrittenIsClosed(rules, sem, base, neg);
    ClosingStaysInside(RulesOf(rules), sem, base, neg, new_);
    hide *;
  }

  // --- The whole run ---

  lemma {:induction false} RoundsShift(rules: seq<Flagged>, n: nat)
    ensures Rounds(rules, n + 1) == Rounds(Optimized(rules), n)
  {
    if n > 0 { RoundsShift(rules, n - 1); }
  }

  lemma {:induction false} RoundsStay(rules: seq<Flagged>, n: nat)
    requires Optimized(rules) == rules
    ensures Rounds(rules, n) == rules
  {
    hide Optimized;
    if n > 0 { RoundsStay(rules, n - 1); }
  }

  // When every round is safe, the program the pass returns has the least set of the original one, whatever the negated
  // relations hold, up to the generated relations.
  lemma {:induction false} RunPreserves(rules0: seq<Flagged>, n: nat, sem: Interp, base: Facts, neg: Facts, f: Fact)
    requires RunSafe(rules0) && NoneOf(base, RunNames(rules0)) && f.rel !in RunNames(rules0)
    ensures f in LeastClosed(RulesOf(Rounds(rules0, n)), sem, base, neg)
        <==> f in LeastClosed(RulesOf(rules0), sem, base, neg)
    decreases n
  {
    hide LeastClosed, Rounds, Optimized, AllGens, RoundSafe, Measure;
    if AllGens(rules0) == [] {
      NoGensNoChange(rules0);
      RoundsStay(rules0, n);
    } else if n == 0 {
      RoundsNone(rules0);
    } else {
      RoundsShift(rules0, n - 1);
      RoundPreserves(rules0, sem, base, neg, f);
      RoundShrinks(rules0);
      RunPreserves(Optimized(rules0), n - 1, sem, base, neg, f);
    }
  }

  lemma RoundsNone(rules: seq<Flagged>)
    ensures Rounds(rules, 0) == rules
  {}

  // --- A program that loses facts ---

  const VX: Arg := LVar("x")
  const VY: Arg := LVar("y")

  // head(x, y) :- T(x, y), F(a), G(b).
  function Restricted(head: string, a: Arg, b: Arg): Flagged {
    Flagged(Rule([Atom(head, [VX, VY])], [Pos(Atom("T", [VX, VY])), Pos(Atom("F", [a])), Pos(Atom("G", [b]))]), true)
  }

  // H(x, y) :- T(x, y), F(x), G(y).  K(x, y) :- T(x, y), F(y), G(x).  Both restrictions of T get one name.
  const PAIR: seq<Flagged> := [Restricted("H", VX, VY), Restricted("K", VY, VX)]
  const STORED: Facts := iset{Fact("T", [1, 2]), Fact("F", [2]), Fact("G", [1])}

  ghost predicate IsPair(a: Arg, b: Arg) {
    (a == VX && b == VY) || (a == VY && b == VX)
  }

  lemma RestrictedNames(head: string, a: Arg, b: Arg)
    requires IsPair(a, b)
    ensures var body := Restricted(head, a, b).rule.body;
      VarNames(body[0]) == {"x", "y"} && VarNames(body[1]) == {a.name} && VarNames(body[2]) == {b.name}
          && ArgNames([VX, VY]) == {"x", "y"}
  {
    assert [VX, VY][0] == VX && [VX, VY][1] == VY;
    assert [a][0] == a && [b][0] == b;
  }

  lemma RestrictedTargets(head: string, a: Arg, b: Arg)
    requires IsPair(a, b)
    ensures var r := Restricted(head, a, b);
    Eligible(r) && FilterOf(r.rule.body, 0) == 1 && FilterOf(r.rule.body, 1) == 3 && FilterOf(r.rule.body, 2) == 3
  {
    hide ArgNames;
    RestrictedNames(head, a, b);
    var body := Restricted(head, a, b).rule.body;
    hide VarNames;
    assert "x" != "y" && |{"x", "y"}| == 2 && |{a.name}| == 1 && |{b.name}| == 1;
    assert SJ[0] == '_' && "T"[0] != '_' && "F"[0] != '_' && "G"[0] != '_';
    assert IsCandidate(body[1], body[0]);
    assert FirstFilter(body, 0, 0) == FirstFilter(body, 0, 1) == 1;
    assert FirstFilter(body, 1, 3) == 3 && FirstFilter(body, 2, 3) == 3;
    assert FirstFilter(body, 1, 2) == 3 && FirstFilter(body, 2, 2) == 3;
    assert FirstFilter(body, 1, 1) == 3 && FirstFilter(body, 2, 1) == 3;
  }

  lemma RestrictedKept(head: string, a: Arg, b: Arg)
    requires IsPair(a, b)
    ensures var r := Restricted(head, a, b);
    IsTarget(r.rule.body, 0) && KeptOf(r.rule.heads[0], r.rule.body, 0) == [0, 1]
  {
    hide ArgNames, Eligible, IsPair;
    RestrictedTargets(head, a, b);
    RestrictedNames(head, a, b);
    var r := Restricted(head, a, b);
    hide FilterOf, VarNames;
    assert DropVars(r.rule.heads[0], r.rule.body, 0) == {};
    assert [VX, VY][..1] == [VX] && [VX][..0] == [];
    assert Kept([VX], {}) == [0];
  }

  function SharedName(): string { NewName("T", "F", [0, 1]) }

  lemma RestrictedNew(head: string, a: Arg, b: Arg)
    requires IsPair(a, b)
    ensures var r := Restricted(head, a, b);
      && NewRule(r) == r.(rule := Rule(r.rule.heads, [Pos(Atom(SharedName(), [VX, VY])), Pos(Atom("G", [b]))]))
      && GensOf(r, 3) == [(SharedName(), Generator(SharedName(), Atom("T", [VX, VY]), Atom("F", [a]), [0, 1]))]
  {
    hide Generator, Eligible;
    RestrictedTargets(head, a, b);
    RestrictedKept(head, a, b);
    var r := Restricted(head, a, b);
    var h, body := r.rule.heads[0], r.rule.body;
    hide FilterOf, KeptOf, NewName;
    assert PickArgs([VX, VY], [0, 1]) == [VX, VY];
    assert NewAtom(h, body, 0) == Atom(SharedName(), [VX, VY]);
    assert IsDropped(body, 1) by { assert FilterOf(body, 0) == 1; }
    assert !IsDropped(body, 0) && !IsDropped(body, 2);
    assert NewBody(h, body, 1) == [Pos(Atom(SharedName(), [VX, VY]))];
    assert NewBody(h, body, 2) == [Pos(Atom(SharedName(), [VX, VY]))];
    assert GensOf(r, 1) == [(SharedName(), GeneratorOf(h, body, 0))];
    assert GensOf(r, 2) == GensOf(r, 1);
  }

  function PairGen(): Rule {
    Generator(SharedName(), Atom("T", [VX, VY]), Atom("F", [VX]), [0, 1])
  }

  function OtherGen(): Rule {
    Generator(SharedName(), Atom("T", [VX, VY]), Atom("F", [VY]), [0, 1])
  }

  lemma TwoGens(a: Flagged, b: Flagged, name: string, g: Rule, h: Rule)
    requires Eligible(a) && Eligible(b) && GensOf(a, |a.rule.body|) == [(name, g)]
    requires GensOf(b, |b.rule.body|) == [(name, h)]
    ensures Optimized([a, b]) == [Flagged(g, false), NewRule(a), NewRule(b)]
  {
    var g1, g2 := (name, g), (name, h);
    hide GensOf, NewRule, Eligible;
    assert [a, b][..1] == [a] && [a][..0] == [];
    assert AllGens([a]) == [g1];
    assert AllGens([a, b]) == [g1, g2];
    assert [g1, g2][..1] == [g1] && [g1][..0] == [];
    assert g1 in [g1] && name in NamesIn([g1]);
    assert FirstByName([g1]) == [Flagged(g, false)];
    assert FirstByName([g1, g2]) == [Flagged(g, false)];
  }

  lemma PairOptimized()
    ensures Optimized(PAIR) == [Flagged(PairGen(), false), NewRule(PAIR[0]), NewRule(PAIR[1])]
  {
    RestrictedNew("H", VX, VY);
    RestrictedNew("K", VY, VX);
    hide GensOf, NewRule, NewName, Generator, Optimized;
    TwoGens(Restricted("H", VX, VY), Restricted("K", VY, VX), SharedName(), PairGen(), OtherGen());
  }

  lemma NoneEligible(rules: seq<Flagged>)
    requires forall k :: 0 <= k < |rules| ==> !Eligible(rules[k])
    ensures AllGens(rules) == []
  {
    hide *;
    if AllGens(rules) != [] {
      var g := AllGens(rules)[0];
      AllGensAre(rules, g);
    }
  }

  lemma PairStops()
    ensures Optimized(Optimized(PAIR)) == Optimized(PAIR) && |Optimized(PAIR)| == 3 && |PAIR| == 2
  {
    hide GensOf, SharedName;
    PairOptimized();
    RestrictedNew("H", VX, VY);
    RestrictedNew("K", VY, VX);
    hide Optimized, NewRule, Generator, NewName;
    NoneEligible(Optimized(PAIR));
    hide *;
    NoGensNoChange(Optimized(PAIR));
  }

  lemma PairRounds(n: nat)
    requires Optimized(Rounds(PAIR, n)) == Rounds(PAIR, n)
    ensures Rounds(PAIR, n) == Optimized(PAIR)
  {
    hide *;
    PairStops();
    RoundsNone(PAIR);
    if n > 0 {
      RoundsShift(PAIR, n - 1);
      RoundsStay(Optimized(PAIR), n - 1);
    }
  }

  lemma SharedNameIsNew()
    ensures SharedName() != "T" && SharedName() != "F" && SharedName() != "G"
  {
    assert SharedName()[0] == SJ[0] == '_';
  }

  lemma NoStoredJoin(t: Row)
    ensures !Joins(Atom("T", [VX, VY]), Atom("F", [VX]), STORED, t)
  {
    assert ColumnOf([VX, VY], "x") == 0;
    assert "T"[0] != "F"[0] && "T"[0] != "G"[0] && "F"[0] != "G"[0];
    var f := FilterRow([VX], [VX, VY], t);
    assert |f| == 1;
    assert |t| == 2 ==> f[0] == t[0];
    assert Fact("T", t) in STORED ==> t == [1, 2];
    assert Fact("F", f) in STORED ==> f == [2];
  }

  lemma PairGenDerivesNothing(sem: Interp, neg: Facts, f: Fact)
    ensures !DerivesFrom(PairGen(), sem, STORED, neg, f)
  {
    var target, filt := Atom("T", [VX, VY]), Atom("F", [VX]);
    assert Covered(filt.args, target.args);
    GenReads(SharedName(), target, filt, [0, 1]);
    hide Generator, DerivesFrom, NewName, Joins, HeadRels;
    GeneratorDerives(SharedName(), target, filt, [0, 1], sem, STORED, neg, f.row);
    forall t: Row ensures !Joins(target, filt, STORED, t) { NoStoredJoin(t); }
    assert !DerivesFrom(PairGen(), sem, STORED, neg, Fact(SharedName(), f.row));
    if DerivesFrom(PairGen(), sem, STORED, neg, f) {
      HeadRelIsHead(PairGen(), sem, STORED, neg, f);
    }
  }

  lemma ReadsSharedNothing(r: Rule, sem: Interp, neg: Facts, f: Fact)
    requires |r.body| > 0 && r.body[0] == Pos(Atom(SharedName(), [VX, VY]))
    ensures !DerivesFrom(r, sem, STORED, neg, f)
  {
    SharedNameIsNew();
    hide NewName;
    forall env ensures !SatBody(r.body, sem, STORED, STORED, -1, neg, env) {
      assert SatBody(r.body, sem, STORED, STORED, -1, neg, env) ==>
          SatClause(r.body[0], sem, View(STORED, STORED, -1, 0), neg, env);
    }
  }

  // As written the program derives K(1, 2); whatever the pass returns for it does not, because the second restriction
  // is read from the relation generated for the first.
  lemma SharedNameLosesFacts(n: nat, sem: Interp, neg: Facts)
    requires Optimized(Rounds(PAIR, n)) == Rounds(PAIR, n)
    ensures Fact("K", [1, 2]) in LeastClosed(RulesOf(PAIR), sem, STORED, neg)
    ensures Fact("K", [1, 2]) !in LeastClosed(RulesOf(Rounds(PAIR, n)), sem, STORED, neg)
  {
    hide *;
    PairRounds(n);
    PairDerives(sem, neg);
    PairClosed(sem, neg);
    ClosingStaysInside(RulesOf(Optimized(PAIR)), sem, STORED, neg, STORED);
    NoKStored();
  }

  lemma NoKStored()
    ensures Fact("K", [1, 2]) !in STORED && STORED <= STORED
  {
    assert "K"[0] != "T"[0] && "K"[0] != "F"[0] && "K"[0] != "G"[0];
  }

  lemma PairClosed(sem: Interp, neg: Facts)
    ensures ClosedUnder(RulesOf(Optimized(PAIR)), sem, STORED, neg)
  {
    var all := RulesOf(Optimized(PAIR));
    PairOptimized();
    RestrictedNew("H", VX, VY);
    RestrictedNew("K", VY, VX);
    hide Optimized, NewRule, NewName, Generator, DerivesFrom, GensOf;
    assert |all| == 3 && all[0] == PairGen();
    forall f ensures !DerivesFrom(all[0], sem, STORED, neg, f) { PairGenDerivesNothing(sem, neg, f); }
    forall f ensures !DerivesFrom(all[1], sem, STORED, neg, f) { ReadsSharedNothing(all[1], sem, neg, f); }
    forall f ensures !DerivesFrom(all[2], sem, STORED, neg, f) { ReadsSharedNothing(all[2], sem, neg, f); }
  }

  lemma PairDerives(sem: Interp, neg: Facts)
    ensures Fact("K", [1, 2]) in LeastClosed(RulesOf(PAIR), sem, STORED, neg)
  {
    hide LeastClosed, ClosedUnder;
    var least, r := LeastClosed(RulesOf(PAIR), sem, STORED, neg), PAIR[1].rule;
    LeastClosedIsClosed(RulesOf(PAIR), sem, STORED, neg);
    var env: Env := map["x" := 1, "y" := 2];
    assert Look(env, "x") == 1 && Look(env, "y") == 2;
    assert Ground(r.body[0].atom, env) == [1, 2] && Ground(r.body[1].atom, env) == [2]
        && Ground(r.body[2].atom, env) == [1];
    assert SatBody(r.body, sem, least, least, -1, neg, env);
    assert Ground(r.heads[0], env) == [1, 2];
    assert IsHeadFact(r, env, Fact(r.heads[0].rel, Ground(r.heads[0], env)));
    assert DerivesFrom(RulesOf(PAIR)[1], sem, least, neg, Fact("K", [1, 2]));
  }
}
