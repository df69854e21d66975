/** Evaluating a stratified program stratum by stratum computes its one stable model. */
module StableModel {
  import opened Datalog
  import opened Dependencies

  datatype Stratum = Stratum(members: set<string>, recursive: bool, rules: seq<Rule>)

  function NegRels(rule: Rule): set<string> {
    set i | 0 <= i < |rule.body| && rule.body[i].Neg? :: rule.body[i].atom.rel
  }

  function Heads(rules: seq<Rule>): set<string> { Idbs(rules) }

  ghost predicate ReadsNoneOf(rules: seq<Rule>, rels: set<string>) {
    forall k :: 0 <= k < |rules| ==> BodyRels(rules[k]) !! rels
  }

  ghost predicate NegatesNoneOf(rules: seq<Rule>, rels: set<string>) {
    forall k :: 0 <= k < |rules| ==> NegRels(rules[k]) !! rels
  }

  // Nothing is read before it is complete: earlier strata read no head of a later one, a non-recursive
  // stratum reads no head of its own, and nobody negates a head of its own stratum.
  ghost predicate WellStratified(strata: seq<Stratum>) {
    && (forall i, j :: 0 <= i < j < |strata| ==> ReadsNoneOf(strata[i].rules, Heads(strata[j].rules)))
    && (forall i :: 0 <= i < |strata| && !strata[i].recursive ==> ReadsNoneOf(strata[i].rules, Heads(strata[i].rules)))
    && (forall i :: 0 <= i < |strata| ==> NegatesNoneOf(strata[i].rules, Heads(strata[i].rules)))
  }

  function AllRules(strata: seq<Stratum>): seq<Rule> {
    if |strata| == 0 then [] else AllRules(strata[..|strata| - 1]) + strata[|strata| - 1].rules
  }

  // A non-recursive stratum applies its rules once; a recursive one closes under them.
  ghost function RunStratum(s: Stratum, sem: Interp, full: Facts): Facts {
    if s.recursive then LeastClosed(s.rules, sem, full, full)
    else full + Immediate(s.rules, sem, full, full)
  }

  ghost function Run(strata: seq<Stratum>, sem: Interp, edb: Facts): Facts {
    if |strata| == 0 then edb
    else RunStratum(strata[|strata| - 1], sem, Run(strata[..|strata| - 1], sem, edb))
  }

  // M is exactly what the rules derive from edb when every negation is read in M itself.
  ghost predicate IsStable(rules: seq<Rule>, sem: Interp, edb: Facts, m: Facts) {
    m == LeastClosed(rules, sem, edb, m)
  }

  // --- A derivation depends only on the relations the rule reads ---

  ghost predicate AgreeOn(a: Facts, b: Facts, rels: set<string>) {
    forall f: Fact :: f.rel in rels ==> (f in a <==> f in b)
  }

  lemma DerivesReads(rule: Rule, sem: Interp, full: Facts, neg: Facts, full': Facts, neg': Facts, f: Fact)
    requires AgreeOn(full, full', BodyRels(rule)) && AgreeOn(neg, neg', NegRels(rule))
    requires DerivesFrom(rule, sem, full, neg, f)
    ensures DerivesFrom(rule, sem, full', neg', f)
  {
    var env :| SatBody(rule.body, sem, full, full, -1, neg, env) && IsHeadFact(rule, env, f);
    forall i | 0 <= i < |rule.body| ensures SatClause(rule.body[i], sem, View(full', full', -1, i), neg', env) {
      assert SatClause(rule.body[i], sem, View(full, full, -1, i), neg, env);
      if rule.body[i].Pos? {
        assert rule.body[i].atom.rel in BodyRels(rule);
      }
      if rule.body[i].Neg? {
        assert rule.body[i].atom.rel in NegRels(rule);
      }
    }
  }

  lemma NegRelsAreRead(rule: Rule)
    ensures NegRels(rule) <= BodyRels(rule)
  {}

  lemma DerivedRelIsHead(rules: seq<Rule>, k: nat, sem: Interp, full: Facts, neg: Facts, f: Fact)
    requires k < |rules| && DerivesFrom(rules[k], sem, full, neg, f)
    ensures f.rel in Heads(rules)
  {
    var env :| SatBody(rules[k].body, sem, full, full, -1, neg, env) && IsHeadFact(rules[k], env, f);
  }

  lemma ImmediateRelIsHead(rules: seq<Rule>, sem: Interp, full: Facts, neg: Facts, f: Fact)
    ensures f in Immediate(rules, sem, full, neg) ==> f.rel in Heads(rules)
  {
    if f in Immediate(rules, sem, full, neg) {
      var k :| 0 <= k < |rules| && DerivesFrom(rules[k], sem, full, neg, f);
      DerivedRelIsHead(rules, k, sem, full, neg, f);
    }
  }

  // Closing under rules adds only facts of their heads.
  lemma ClosingAddsHeads(rules: seq<Rule>, sem: Interp, base: Facts, neg: Facts, f: Fact)
    requires f in LeastClosed(rules, sem, base, neg) && f !in base
    ensures f.rel in Heads(rules)
  {
    var db := iset g: Fact | g in base || g.rel in Heads(rules);
    forall k, g | 0 <= k < |rules| && DerivesFrom(rules[k], sem, db, neg, g) ensures g in db {
      DerivedRelIsHead(rules, k, sem, db, neg, g);
    }
    assert ClosedUnder(rules, sem, db, neg);
  }

  lemma ClosingKeepsOthers(rules: seq<Rule>, sem: Interp, base: Facts, neg: Facts, f: Fact)
    ensures f.rel !in Heads(rules) ==> (f in LeastClosed(rules, sem, base, neg) <==> f in base)
  {
    hide *;
    LeastClosedIsClosed(rules, sem, base, neg);
    if f in LeastClosed(rules, sem, base, neg) && f !in base {
      ClosingAddsHeads(rules, sem, base, neg, f);
    }
  }

  lemma ClosingStaysInside(rules: seq<Rule>, sem: Interp, base: Facts, neg: Facts, db: Facts)
    requires base <= db && ClosedUnder(rules, sem, db, neg)
    ensures LeastClosed(rules, sem, base, neg) <= db
  {}

  // Every fact of the least set is given or derived by a rule from it.
  lemma Supported(rules: seq<Rule>, sem: Interp, base: Facts, neg: Facts, f: Fact)
    requires f in LeastClosed(rules, sem, base, neg)
    ensures f in base || DerivedBySome(rules, sem, LeastClosed(rules, sem, base, neg), neg, f)
  {
    var least := LeastClosed(rules, sem, base, neg);
    var db := iset g: Fact | g in base || DerivedBySome(rules, sem, least, neg, g);
    LeastClosedIsClosed(rules, sem, base, neg);
    forall k, g | 0 <= k < |rules| && DerivesFrom(rules[k], sem, db, neg, g) ensures g in db {
      forall h | h in db ensures h in least {
        if h !in base {
          var j :| 0 <= j < |rules| && DerivesFrom(rules[j], sem, least, neg, h);
        }
      }
      DerivesMonotone(rules[k], sem, db, least, neg, g);
    }
    assert ClosedUnder(rules, sem, db, neg);
  }

  // --- One application closes a stratum that does not read itself ---

  lemma OnceIsClosed(s: Stratum, sem: Interp, full: Facts)
    requires !s.recursive && ReadsNoneOf(s.rules, Heads(s.rules))
    ensures RunStratum(s, sem, full) == LeastClosed(s.rules, sem, full, full)
  {
    var once := full + Immediate(s.rules, sem, full, full);
    forall k, f | 0 <= k < |s.rules| && DerivesFrom(s.rules[k], sem, once, full, f) ensures f in once {
      forall g: Fact | g.rel in BodyRels(s.rules[k]) ensures g in once <==> g in full {
        ImmediateRelIsHead(s.rules, sem, full, full, g);
      }
      DerivesReads(s.rules[k], sem, once, full, full, full, f);
      assert DerivedBySome(s.rules, sem, full, full, f);
    }
    assert ClosedUnder(s.rules, sem, once, full);
    LeastClosedIsClosed(s.rules, sem, full, full);
    var least := LeastClosed(s.rules, sem, full, full);
    forall f | f in Immediate(s.rules, sem, full, full) ensures f in least {
      var k :| 0 <= k < |s.rules| && DerivesFrom(s.rules[k], sem, full, full, f);
      DerivesMonotone(s.rules[k], sem, full, least, full, f);
    }
  }

  lemma RunStratumCloses(strata: seq<Stratum>, k: nat, sem: Interp, full: Facts)
    requires WellStratified(strata) && k < |strata|
    ensures RunStratum(strata[k], sem, full) == LeastClosed(strata[k].rules, sem, full, full)
  {
    if !strata[k].recursive {
      OnceIsClosed(strata[k], sem, full);
    }
  }

  // --- The result is stable ---

  lemma WellStratifiedPrefix(strata: seq<Stratum>, n: nat)
    requires WellStratified(strata) && n <= |strata|
    ensures WellStratified(strata[..n])
  {}

  lemma {:induction false} RuleOfStratum(strata: seq<Stratum>, k: nat) returns (i: nat)
    requires k < |AllRules(strata)|
    ensures i < |strata| && AllRules(strata)[k] in strata[i].rules
  {
    var n := |strata| - 1;
    if k < |AllRules(strata[..n])| {
      i := RuleOfStratum(strata[..n], k);
    } else {
      i := n;
    }
  }

  // What the first strata's rules read is not touched by the last stratum.
  lemma EarlierReadsNoLast(strata: seq<Stratum>, k: nat)
    requires WellStratified(strata) && |strata| > 0 && k < |AllRules(strata[..|strata| - 1])|
    ensures BodyRels(AllRules(strata[..|strata| - 1])[k]) !! Heads(strata[|strata| - 1].rules)
  {
    var n := |strata| - 1;
    var i := RuleOfStratum(strata[..n], k);
    assert AllRules(strata[..n])[k] in strata[i].rules;
    assert ReadsNoneOf(strata[i].rules, Heads(strata[n].rules));
  }

  // The step of the induction: s closes before under its rules, and before is already stable for the rules so far.
  lemma StableStep(rules: seq<Rule>, s: Stratum, sem: Interp, edb: Facts, before: Facts)
    requires IsStable(rules, sem, edb, before)
    requires forall k :: 0 <= k < |rules| ==> BodyRels(rules[k]) !! Heads(s.rules)
    requires NegatesNoneOf(s.rules, Heads(s.rules))
    ensures IsStable(rules + s.rules, sem, edb, LeastClosed(s.rules, sem, before, before))
  {
    var after := LeastClosed(s.rules, sem, before, before);
    LeastClosedIsClosed(s.rules, sem, before, before);
    LeastClosedIsClosed(rules, sem, edb, before);
    forall f: Fact | f.rel !in Heads(s.rules) ensures f in before <==> f in after {
      ClosingKeepsOthers(s.rules, sem, before, before, f);
    }
    StepClosed(rules, s, sem, before, after);
    StepLeast(rules, s, sem, edb, before, after);
    assert after <= LeastClosed(rules + s.rules, sem, edb, after);
    ClosingStaysInside(rules + s.rules, sem, edb, after, after);
  }

  lemma StepClosed(rules: seq<Rule>, s: Stratum, sem: Interp, before: Facts, after: Facts)
    requires ClosedUnder(rules, sem, before, before) && ClosedUnder(s.rules, sem, after, before) && before <= after
    requires forall k :: 0 <= k < |rules| ==> BodyRels(rules[k]) !! Heads(s.rules)
    requires NegatesNoneOf(s.rules, Heads(s.rules))
    requires forall f: Fact :: f.rel !in Heads(s.rules) ==> (f in before <==> f in after)
    ensures ClosedUnder(rules + s.rules, sem, after, after)
  {
    var all := rules + s.rules;
    forall k, f | 0 <= k < |all| && DerivesFrom(all[k], sem, after, after, f) ensures f in after {
      NegRelsAreRead(all[k]);
      if k < |rules| {
        DerivesReads(rules[k], sem, after, after, before, before, f);
      } else {
        DerivesReads(s.rules[k - |rules|], sem, after, after, after, before, f);
      }
    }
  }

  lemma StepLeast(rules: seq<Rule>, s: Stratum, sem: Interp, edb: Facts, before: Facts, after: Facts)
    requires before == LeastClosed(rules, sem, edb, before) && after == LeastClosed(s.rules, sem, before, before)
    requires forall k :: 0 <= k < |rules| ==> BodyRels(rules[k]) !! Heads(s.rules)
    requires NegatesNoneOf(s.rules, Heads(s.rules))
    requires forall f: Fact :: f.rel !in Heads(s.rules) ==> (f in before <==> f in after)
    ensures after <= LeastClosed(rules + s.rules, sem, edb, after)
  {
    var all := rules + s.rules;
    forall db: Facts | edb <= db && ClosedUnder(all, sem, db, after) ensures after <= db {
      forall k, f | 0 <= k < |rules| && DerivesFrom(rules[k], sem, db, before, f) ensures f in db {
        NegRelsAreRead(rules[k]);
        DerivesReads(rules[k], sem, db, before, db, after, f);
        assert all[k] == rules[k];
      }
      ClosingStaysInside(rules, sem, edb, before, db);
      forall k, f | 0 <= k < |s.rules| && DerivesFrom(s.rules[k], sem, db, before, f) ensures f in db {
        DerivesReads(s.rules[k], sem, db, before, db, after, f);
        assert all[|rules| + k] == s.rules[k];
      }
      ClosingStaysInside(s.rules, sem, before, before, db);
    }
  }

  lemma {:induction false} RunIsStable(strata: seq<Stratum>, sem: Interp, edb: Facts)
    requires WellStratified(strata)
    ensures IsStable(AllRules(strata), sem, edb, Run(strata, sem, edb))
  {
    if |strata| == 0 {
      assert ClosedUnder([], sem, edb, edb);
      LeastClosedIsClosed([], sem, edb, edb);
    } else {
      var n := |strata| - 1;
      WellStratifiedPrefix(strata, n);
      RunIsStable(strata[..n], sem, edb);
      forall k | 0 <= k < |AllRules(strata[..n])| ensures BodyRels(AllRules(strata[..n])[k]) !! Heads(strata[n].rules) {
        EarlierReadsNoLast(strata, k);
      }
      RunStratumCloses(strata, n, sem, Run(strata[..n], sem, edb));
      StableStep(AllRules(strata[..n]), strata[n], sem, edb, Run(strata[..n], sem, edb));
    }
  }

  // --- and it is the only stable set ---

  // A stratum from n on writes rel.
  predicate WrittenFrom(strata: seq<Stratum>, n: nat, rel: string) {
    exists i :: n <= i < |strata| && rel in Heads(strata[i].rules)
  }

  // m and the run agree on everything the first n strata settle.
  ghost predicate SettledAlike(strata: seq<Stratum>, n: nat, sem: Interp, edb: Facts, m: Facts)
    requires n <= |strata|
  {
    && Run(strata[..n], sem, edb) <= m
    && forall f: Fact :: !WrittenFrom(strata, n, f.rel) ==> (f in m <==> f in Run(strata[..n], sem, edb))
  }

  lemma RunUnfold(strata: seq<Stratum>, n: nat, sem: Interp, edb: Facts)
    requires WellStratified(strata) && n < |strata|
    ensures Run(strata[..n + 1], sem, edb) ==
            LeastClosed(strata[n].rules, sem, Run(strata[..n], sem, edb), Run(strata[..n], sem, edb))
  {
    assert strata[..n + 1][..n] == strata[..n];
    RunStratumCloses(strata, n, sem, Run(strata[..n], sem, edb));
  }

  lemma {:induction false} StratumRuleListed(strata: seq<Stratum>, i: nat, r: Rule)
    requires i < |strata| && r in strata[i].rules
    ensures r in AllRules(strata)
  {
    var n := |strata| - 1;
    if i < n {
      StratumRuleListed(strata[..n], i, r);
    }
  }

  lemma ListedHead(strata: seq<Stratum>, rel: string)
    ensures rel in Heads(AllRules(strata)) <==> WrittenFrom(strata, 0, rel)
  {
    var all := AllRules(strata);
    if rel in Heads(all) {
      var k, h :| 0 <= k < |all| && 0 <= h < |all[k].heads| && all[k].heads[h].rel == rel;
      var i := RuleOfStratum(strata, k);
      assert all[k] in strata[i].rules;
      assert rel in Heads(strata[i].rules);
    }
    if WrittenFrom(strata, 0, rel) {
      var i :| 0 <= i < |strata| && rel in Heads(strata[i].rules);
      var rules := strata[i].rules;
      var k, h :| 0 <= k < |rules| && 0 <= h < |rules[k].heads| && rules[k].heads[h].rel == rel;
      StratumRuleListed(strata, i, rules[k]);
    }
  }

  // The run of one more stratum stays inside a stable set.
  lemma RunInsideStable(strata: seq<Stratum>, n: nat, sem: Interp, edb: Facts, m: Facts)
    requires WellStratified(strata) && n < |strata| && IsStable(AllRules(strata), sem, edb, m)
    requires SettledAlike(strata, n, sem, edb, m)
    ensures Run(strata[..n + 1], sem, edb) <= m
  {
    hide Run, DerivesFrom, WellStratified;
    var before := Run(strata[..n], sem, edb);
    RunUnfold(strata, n, sem, edb);
    LeastClosedIsClosed(AllRules(strata), sem, edb, m);
    forall k, f | 0 <= k < |strata[n].rules| && DerivesFrom(strata[n].rules[k], sem, m, before, f) ensures f in m {
      var r := strata[n].rules[k];
      forall g: Fact | g.rel in NegRels(r) ensures g in before <==> g in m {
        NegatedIsSettled(strata, n, k, g.rel);
      }
      DerivesReads(r, sem, m, before, m, m, f);
      StratumRuleListed(strata, n, r);
    }
    ClosingStaysInside(strata[n].rules, sem, before, before, m);
  }

  lemma NegatedIsSettled(strata: seq<Stratum>, n: nat, k: nat, rel: string)
    requires WellStratified(strata) && n < |strata| && k < |strata[n].rules| && rel in NegRels(strata[n].rules[k])
    ensures !WrittenFrom(strata, n, rel)
  {
    NegRelsAreRead(strata[n].rules[k]);
    forall i | n <= i < |strata| ensures rel !in Heads(strata[i].rules) {
      if i > n {
        assert ReadsNoneOf(strata[n].rules, Heads(strata[i].rules));
      } else {
        assert NegatesNoneOf(strata[n].rules, Heads(strata[n].rules));
      }
    }
  }

  lemma ReadIsSettled(strata: seq<Stratum>, n: nat, j: nat, k: nat, rel: string)
    requires WellStratified(strata) && j < n <= |strata| && k < |strata[j].rules| && rel in BodyRels(strata[j].rules[k])
    ensures !WrittenFrom(strata, n, rel)
  {
    forall i | n <= i < |strata| ensures rel !in Heads(strata[i].rules) {
      assert ReadsNoneOf(strata[j].rules, Heads(strata[i].rules));
    }
  }

  lemma LaterWrites(strata: seq<Stratum>, j: nat, n: nat, rel: string)
    requires j <= n && WrittenFrom(strata, n, rel)
    ensures WrittenFrom(strata, j, rel)
  {}

  // Keeping of a stable set only what the first n + 1 strata derive, plus whatever later strata write, loses nothing.
  lemma StableInsideRun(strata: seq<Stratum>, n: nat, sem: Interp, edb: Facts, m: Facts, f: Fact)
    requires WellStratified(strata) && n < |strata| && IsStable(AllRules(strata), sem, edb, m)
    requires SettledAlike(strata, n, sem, edb, m)
    requires f in m && !WrittenFrom(strata, n + 1, f.rel)
    ensures f in Run(strata[..n + 1], sem, edb)
  {
    hide WellStratified, DerivesFrom, Heads, Run, AllRules, LeastClosed, SettledAlike;
    var before, after := Run(strata[..n], sem, edb), Run(strata[..n + 1], sem, edb);
    var kept := iset g: Fact | g in m && (WrittenFrom(strata, n + 1, g.rel) || g in after);
    LeastClosedIsClosed(AllRules(strata), sem, edb, m);
    RunGrows(strata, n + 1, sem, edb);
    var all := AllRules(strata);
    forall k, g | 0 <= k < |all| && DerivesFrom(all[k], sem, kept, m, g) ensures g in kept {
      DerivesMonotone(all[k], sem, kept, m, m, g);
      var j := RuleOfStratum(strata, k);
      var i :| 0 <= i < |strata[j].rules| && strata[j].rules[i] == all[k];
      if j <= n {
        KeptDerivation(strata, n, j, i, sem, edb, m, kept, g);
      } else {
        DerivedRelIsHead(strata[j].rules, i, sem, kept, m, g);
      }
    }
    assert ClosedUnder(all, sem, kept, m);
    assert edb <= kept;
    ClosingStaysInside(all, sem, edb, m, kept);
  }

  lemma KeptDerivation(strata: seq<Stratum>, n: nat, j: nat, i: nat, sem: Interp, edb: Facts, m: Facts, kept: Facts,
                       g: Fact)
    requires WellStratified(strata) && j <= n < |strata| && i < |strata[j].rules|
    requires SettledAlike(strata, n, sem, edb, m)
    requires kept == iset h: Fact | h in m && (WrittenFrom(strata, n + 1, h.rel) || h in Run(strata[..n + 1], sem, edb))
    requires DerivesFrom(strata[j].rules[i], sem, kept, m, g)
    ensures g in Run(strata[..n + 1], sem, edb)
  {
    hide Run, WellStratified, DerivesFrom, LeastClosed, AllRules, Heads;
    var before, after, r := Run(strata[..n], sem, edb), Run(strata[..n + 1], sem, edb), strata[j].rules[i];
    var read := kept * after;
    forall h: Fact | h.rel in BodyRels(r) ensures h in kept <==> h in read {
      ReadIsSettled(strata, n + 1, j, i, h.rel);
    }
    forall h: Fact | h.rel in NegRels(r) ensures h in m <==> h in after {
      NegatedIsSettled(strata, j, i, h.rel);
      if WrittenFrom(strata, n, h.rel) { LaterWrites(strata, j, n, h.rel); }
      RunUnfold(strata, n, sem, edb);
      ClosingKeepsOthers(strata[n].rules, sem, before, before, h);
    }
    DerivesReads(r, sem, kept, m, read, after, g);
    DerivesMonotone(r, sem, read, after, after, g);
    WellStratifiedPrefix(strata, n + 1);
    RunIsStable(strata[..n + 1], sem, edb);
    LeastClosedIsClosed(AllRules(strata[..n + 1]), sem, edb, after);
    assert strata[..n + 1][j] == strata[j];
    StratumRuleListed(strata[..n + 1], j, r);
  }

  lemma RunGrows(strata: seq<Stratum>, n: nat, sem: Interp, edb: Facts)
    requires WellStratified(strata) && n <= |strata|
    ensures edb <= Run(strata[..n], sem, edb)
  {
    WellStratifiedPrefix(strata, n);
    RunIsStable(strata[..n], sem, edb);
    LeastClosedIsClosed(AllRules(strata[..n]), sem, edb, Run(strata[..n], sem, edb));
  }

  lemma {:induction false} AllSettledAlike(strata: seq<Stratum>, n: nat, sem: Interp, edb: Facts, m: Facts)
    requires WellStratified(strata) && n <= |strata| && IsStable(AllRules(strata), sem, edb, m)
    ensures SettledAlike(strata, n, sem, edb, m)
  {
    hide WellStratified, AllRules;
    if n == 0 {
      LeastClosedIsClosed(AllRules(strata), sem, edb, m);
      forall f: Fact | !WrittenFrom(strata, 0, f.rel) ensures f in m <==> f in edb {
        ListedHead(strata, f.rel);
        ClosingKeepsOthers(AllRules(strata), sem, edb, m, f);
      }
      assert Run(strata[..0], sem, edb) == edb;
    } else {
      AllSettledAlike(strata, n - 1, sem, edb, m);
      RunInsideStable(strata, n - 1, sem, edb, m);
      forall f: Fact | !WrittenFrom(strata, n, f.rel) ensures f in m <==> f in Run(strata[..n], sem, edb) {
        if f in m {
          StableInsideRun(strata, n - 1, sem, edb, m, f);
        }
      }
    }
  }

  // The stratum-by-stratum run is the one and only stable set.
  lemma RunIsTheStableModel(strata: seq<Stratum>, sem: Interp, edb: Facts, m: Facts)
    requires WellStratified(strata)
    ensures IsStable(AllRules(strata), sem, edb, m) <==> m == Run(strata, sem, edb)
  {
    RunIsStable(strata, sem, edb);
    if IsStable(AllRules(strata), sem, edb, m) {
      AllSettledAlike(strata, |strata|, sem, edb, m);
      assert strata[..|strata|] == strata;
      forall f: Fact ensures f in m <==> f in Run(strata, sem, edb) {
        assert !WrittenFrom(strata, |strata|, f.rel);
      }
    }
  }
}
