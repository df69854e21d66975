/** Which relations a rule reads and writes, the dependency graph, and its components in order. */
module Dependencies {
  import opened Datalog
  import opened Graph
  import Tarjan

  predicate ReadsRelation(c: Clause) {
    c.Pos? || c.Neg?
  }

  function BodyRels(rule: Rule): set<string> {
    set i | 0 <= i < |rule.body| && ReadsRelation(rule.body[i]) :: rule.body[i].atom.rel
  }

  function HeadRels(rule: Rule): set<string> {
    set h | 0 <= h < |rule.heads| :: rule.heads[h].rel
  }

  // Every relation that heads some rule.
  function Idbs(rules: seq<Rule>): set<string> {
    set k, h | 0 <= k < |rules| && 0 <= h < |rules[k].heads| :: rules[k].heads[h].rel
  }

  // Some rule with head x reads y.
  ghost predicate Uses(rules: seq<Rule>, x: string, y: string) {
    exists k :: 0 <= k < |rules| && x in HeadRels(rules[k]) && y in BodyRels(rules[k])
  }

  ghost predicate DependsOn(rules: seq<Rule>, x: string, y: string) {
    y in Idbs(rules) && Uses(rules, x, y)
  }

  ghost predicate IsDepGraph(rules: seq<Rule>, g: Graph) {
    && g.Keys == Idbs(rules) && IsGraph(g)
    && forall x, y {:trigger Edge(g, x, y)} {:trigger DependsOn(rules, x, y)} :: Edge(g, x, y)
         <==> DependsOn(rules, x, y)
  }

  method BodyRelations(rule: Rule) returns (out: set<string>)
    ensures out == BodyRels(rule)
  {
    out := {};
    for i := 0 to |rule.body|
      invariant out == set j | 0 <= j < i && ReadsRelation(rule.body[j]) :: rule.body[j].atom.rel
    {
      if rule.body[i].Pos? || rule.body[i].Neg? {
        out := out + {rule.body[i].atom.rel};
      }
    }
  }

  // Every head of a rule depends on every body relation that has rules of its own.
  method BuildDepGraph(rules: seq<Rule>) returns (g: Graph)
    ensures IsDepGraph(rules, g)
  {
    var idbs := Idbs(rules);
    g := map x | x in idbs :: {};
    for k := 0 to |rules|
      invariant g.Keys == idbs
      invariant forall x :: x in g ==> g[x] <= idbs
      invariant forall x, y {:trigger Edge(g, x, y)} :: Edge(g, x, y) <==> y in idbs && Uses(rules[..k], x, y)
    {
      var g0 := g;
      g := AddRule(g, rules[k], idbs);
      forall x, y ensures Edge(g, x, y) <==> y in idbs && Uses(rules[..k + 1], x, y) {
        UsesAppend(rules[..k], rules[k], x, y);
        assert rules[..k + 1] == rules[..k] + [rules[k]];
        assert Edge(g0, x, y) <==> y in idbs && Uses(rules[..k], x, y);
      }
    }
    assert rules[..|rules|] == rules;
  }

  lemma UsesAppend(rules: seq<Rule>, r: Rule, x: string, y: string)
    ensures Uses(rules + [r], x, y) <==> Uses(rules, x, y) || (x in HeadRels(r) && y in BodyRels(r))
  {
    var more := rules + [r];
    if Uses(rules, x, y) {
      var k :| 0 <= k < |rules| && x in HeadRels(rules[k]) && y in BodyRels(rules[k]);
      assert more[k] == rules[k];
    }
    if x in HeadRels(r) && y in BodyRels(r) {
      assert more[|rules|] == r;
    }
  }

  // Adds one rule's head-to-body edges.
  method AddRule(g0: Graph, rule: Rule, idbs: set<string>) returns (g: Graph)
    requires g0.Keys == idbs && HeadRels(rule) <= idbs
    requires forall x :: x in g0 ==> g0[x] <= idbs
    ensures g.Keys == idbs && forall x :: x in g ==> g[x] <= idbs
    ensures forall x, y {:trigger Edge(g, x, y)} ::
      Edge(g, x, y) <==> Edge(g0, x, y) || (x in HeadRels(rule) && y in BodyRels(rule) && y in idbs)
  {
    g := g0;
    var rels := BodyRelations(rule);
    var bodyIdbs := rels * idbs;
    for h := 0 to |rule.heads|
      invariant g.Keys == idbs
      invariant forall x :: x in idbs ==> g[x] == if exists i ::
          0 <= i < h && rule.heads[i].rel == x then g0[x] + bodyIdbs else g0[x]
    {
      var rel := rule.heads[h].rel;
      assert rel in HeadRels(rule);
      g := g[rel := g[rel] + bodyIdbs];
    }
  }
}
