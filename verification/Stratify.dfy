/** `stratify`: components, their merging for multi-head rules, base and loop strata, independent strata fused. */
module Stratify {
  import opened Datalog
  import opened Graph
  import Tarjan
  import opened Dependencies
  import opened StableModel
  import opened SemiNaive

  // ========== Union find ==========

  // The union-find of `_merge_sccs_for_multi_head`: path halving in place, no ranks.

  // A set no link leaves or enters.
  ghost predicate Saturated(links: seq<(nat, nat)>, s: set<nat>) {
    forall k :: 0 <= k < |links| ==> (links[k].0 in s <==> links[k].1 in s)
  }

  // i and j are joined by a chain of links, followed in either direction.
  ghost predicate Linked(links: seq<(nat, nat)>, i: nat, j: nat) {
    forall s: set<nat> {:trigger Saturated(links, s)} :: Saturated(links, s) && i in s ==> j in s
  }

  ghost predicate RootsAreLinks(root: seq<nat>, links: seq<(nat, nat)>) {
    && (forall k :: 0 <= k < |links| ==> links[k].0 < |root| && links[k].1 < |root|)
    && forall i, j {:trigger root[i], root[j]} ::
        0 <= i < |root| && 0 <= j < |root| ==> (root[i] == root[j] <==> Linked(links, i, j))
  }

  function Rerooted(root: seq<nat>, ra: nat, rb: nat): seq<nat> {
    seq(|root|, i requires 0 <= i < |root| => if root[i] == ra then rb else root[i])
  }

  ghost function Ends(links: seq<(nat, nat)>): set<nat> {
    (set k | 0 <= k < |links| :: links[k].0) + (set k | 0 <= k < |links| :: links[k].1)
  }

  lemma LinkedSymmetric(links: seq<(nat, nat)>, i: nat, j: nat)
    requires Linked(links, i, j)
    ensures Linked(links, j, i)
  {
    forall s: set<nat> | Saturated(links, s) && j in s ensures i in s {
      var outside := (Ends(links) + {i}) - s;
      assert Saturated(links, outside);
    }
  }

  lemma LinkedTransitive(links: seq<(nat, nat)>, i: nat, j: nat, k: nat)
    requires Linked(links, i, j) && Linked(links, j, k)
    ensures Linked(links, i, k)
  {}

  lemma LinkedGrows(links: seq<(nat, nat)>, l: (nat, nat), i: nat, j: nat)
    requires Linked(links, i, j)
    ensures Linked(links + [l], i, j)
  {
    forall s: set<nat> | Saturated(links + [l], s) && i in s ensures j in s {
      assert Saturated(links, s) by {
        forall k | 0 <= k < |links| ensures links[k].0 in s <==> links[k].1 in s {
          assert (links + [l])[k] == links[k];
        }
      }
    }
  }

  // Nodes whose root becomes equal are linked once (a, b) is.
  lemma RerootedLinked(root: seq<nat>, links: seq<(nat, nat)>, a: nat, b: nat, i: nat, j: nat)
    requires RootsAreLinks(root, links) && a < |root| && b < |root| && i < |root| && j < |root|
    requires Rerooted(root, root[a], root[b])[i] == Rerooted(root, root[a], root[b])[j]
    ensures Linked(links + [(a, b)], i, j)
  {
    var more := links + [(a, b)];
    if root[i] == root[j] {
      LinkedGrows(links, (a, b), i, j);
    } else {
      var x, y := if root[i] == root[a] then i else j, if root[i] == root[a] then j else i;
      assert root[x] == root[a] && root[y] == root[b];
      LinkedGrows(links, (a, b), x, a);
      LinkedGrows(links, (a, b), b, y);
      assert Linked(more, a, b) by {
        forall s: set<nat> | Saturated(more, s) && a in s ensures b in s {
          assert more[|links|] == (a, b);
        }
      }
      LinkedTransitive(more, x, a, b);
      LinkedTransitive(more, x, b, y);
      LinkedSymmetric(more, x, y);
    }
  }

  // Giving b's root to all of a's class adds exactly the link (a, b).
  lemma UnionAddsLink(root: seq<nat>, links: seq<(nat, nat)>, a: nat, b: nat)
    requires RootsAreLinks(root, links) && a < |root| && b < |root|
    ensures RootsAreLinks(Rerooted(root, root[a], root[b]), links + [(a, b)])
  {
    var root', more := Rerooted(root, root[a], root[b]), links + [(a, b)];
    forall i, j | 0 <= i < |root| && 0 <= j < |root| ensures root'[i] == root'[j] <==> Linked(more, i, j) {
      if root'[i] == root'[j] {
        RerootedLinked(root, links, a, b, i, j);
      }
      if Linked(more, i, j) {
        var group := set k: nat | k < |root| && root'[k] == root'[i];
        forall m | 0 <= m < |more| ensures more[m].0 in group <==> more[m].1 in group {
          if m < |links| {
            assert more[m] == links[m];
            LinkHolds(links, m);
            assert root[links[m].0] == root[links[m].1];
          }
        }
        assert Saturated(more, group);
      }
    }
  }

  lemma LinkHolds(links: seq<(nat, nat)>, m: nat)
    requires m < |links|
    ensures Linked(links, links[m].0, links[m].1)
  {}

  lemma NoLinks(n: nat)
    ensures RootsAreLinks(seq(n, i requires 0 <= i < n => i), [])
  {
    forall i: nat, j: nat | i < n && j < n ensures i == j <==> Linked([], i, j) {
      assert Saturated([], {i});
    }
  }

  // The cursor stays inside x's tree and leads downhill until the root.
  ghost predicate NodeAt(parent: seq<nat>, root: seq<nat>, height: seq<nat>, x: nat)
    requires |parent| == |root| == |height| && x < |parent|
  {
    && root[x] < |parent| && parent[x] < |parent|
    && root[parent[x]] == root[x] && parent[root[x]] == root[x] && root[root[x]] == root[x]
    && (parent[x] == x ==> root[x] == x)
    && (parent[x] != x ==> height[parent[x]] < height[x])
  }

  ghost predicate IsForest(parent: seq<nat>, root: seq<nat>, height: seq<nat>) {
    && |parent| == |root| == |height|
    && forall x {:trigger NodeAt(parent, root, height, x)} :: 0 <= x < |parent| ==> NodeAt(parent, root, height, x)
  }

  lemma HalvingKeepsForest(parent: seq<nat>, root: seq<nat>, height: seq<nat>, x: nat)
    requires IsForest(parent, root, height) && x < |parent| && parent[x] != x
    ensures parent[x] < |parent| && parent[parent[x]] < |parent|
    ensures IsForest(parent[x := parent[parent[x]]], root, height)
    ensures root[parent[parent[x]]] == root[x] && height[parent[parent[x]]] < height[x]
  {
    assert NodeAt(parent, root, height, x);
    assert NodeAt(parent, root, height, parent[x]);
    var parent' := parent[x := parent[parent[x]]];
    forall y | 0 <= y < |parent| ensures NodeAt(parent', root, height, y) {
      assert NodeAt(parent, root, height, y);
    }
  }

  ghost function Raised(root: seq<nat>, height: seq<nat>, ra: nat, rb: nat): seq<nat>
    requires |root| == |height| && rb < |height|
  {
    seq(|height|, x requires 0 <= x < |height| => if root[x] == ra then height[x] + height[rb] + 1 else height[x])
  }

  lemma LinkingKeepsForest(parent: seq<nat>, root: seq<nat>, height: seq<nat>, ra: nat, rb: nat)
    requires IsForest(parent, root, height) && ra < |parent| && rb < |parent| && ra != rb
    requires root[ra] == ra && root[rb] == rb
    ensures IsForest(parent[ra := rb], Rerooted(root, ra, rb), Raised(root, height, ra, rb))
  {
    assert NodeAt(parent, root, height, ra) && NodeAt(parent, root, height, rb);
    var parent', root', height' := parent[ra := rb], Rerooted(root, ra, rb), Raised(root, height, ra, rb);
    forall x | 0 <= x < |parent| ensures NodeAt(parent', root', height', x) {
      assert NodeAt(parent, root, height, x);
    }
  }

  class Forest {
    const parent: array<nat>
    ghost var root: seq<nat>
    ghost var height: seq<nat>
    ghost var links: seq<(nat, nat)>

    ghost predicate Valid()
      reads this, parent
    {
      |root| == parent.Length && IsForest(parent[..], root, height) && RootsAreLinks(root, links)
    }

    constructor (n: nat)
      ensures Valid() && fresh(parent) && parent.Length == n && links == []
      ensures root == seq(n, i requires 0 <= i < n => i)
    {
      parent := new nat[n](i => i);
      root := seq(n, i requires 0 <= i < n => i);
      height := seq(n, i => 0);
      links := [];
      new;
      NoLinks(n);
    }

    // Follows and halves the path; no node changes its root.
    method Find(x0: nat) returns (x: nat)
      requires Valid() && x0 < parent.Length
      modifies parent
      ensures Valid() && x == root[x0] && x < parent.Length
    {
      hide RootsAreLinks;
      x := x0;
      while parent[x] != x
        invariant Valid() && x < parent.Length && root[x] == root[x0]
        decreases height[x]
      {
        ghost var before := parent[..];
        assert before[x] == parent[x];
        HalvingKeepsForest(before, root, height, x);
        parent[x] := parent[parent[x]];
        assert parent[..] == before[x := before[before[x]]];
        x := parent[x];
      }
      assert NodeAt(parent[..], root, height, x);
    }

    method Union(a: nat, b: nat)
      requires Valid() && a < parent.Length && b < parent.Length
      modifies this, parent
      ensures Valid() && links == old(links) + [(a, b)]
      ensures root == Rerooted(old(root), old(root)[a], old(root)[b])
    {
      var ra := Find(a);
      var rb := Find(b);
      UnionAddsLink(root, links, a, b);
      hide RootsAreLinks;
      assert NodeAt(parent[..], root, height, a) && NodeAt(parent[..], root, height, b);
      if ra != rb {
        LinkingKeepsForest(parent[..], root, height, ra, rb);
        ghost var before := parent[..];
        parent[ra] := rb;
        assert parent[..] == before[ra := rb];
        height := Raised(root, height, ra, rb);
      } else {
        assert Rerooted(root, ra, rb) == root;
      }
      root := Rerooted(root, ra, rb);
      links := links + [(a, b)];
    }
  }

  // ========== Components ==========

  // `_compute_sccs` over the heads of a program, and the merging of components that share a multi-head rule.

  // Exactly the mutual-reachability classes of the dependency graph, dependencies first, each relation in one of them.
  method ComputeSccs(rules: seq<Rule>, g: Graph) returns (sccs: seq<set<string>>)
    requires IsGraph(g) && g.Keys == Idbs(rules)
    ensures Tarjan.IsComponentList(g, sccs) && Tarjan.Members(sccs) == g.Keys
  {
    hide Tarjan.Inv, Tarjan.IsComponentList, Tarjan.Explored1, Tarjan.Members;
    var search := new Tarjan.Search(g);
    var seen: set<string> := {};
    for k := 0 to |rules|
      invariant search.Valid({}) && search.graph == g && seen <= search.index.Keys
      invariant forall i, h :: 0 <= i < k && 0 <= h < |rules[i].heads| ==> rules[i].heads[h].rel in seen
    {
      for h := 0 to |rules[k].heads|
        invariant search.Valid({}) && search.graph == g && seen <= search.index.Keys
        invariant forall i, j :: 0 <= i < k && 0 <= j < |rules[i].heads| ==> rules[i].heads[j].rel in seen
        invariant forall j :: 0 <= j < h ==> rules[k].heads[j].rel in seen
      {
        var name := rules[k].heads[h].rel;
        assert name in Idbs(rules);
        if name in g && name !in seen {
          seen := seen + {name};
          if name !in search.index {
            search.StrongConnect(name, {});
          }
        }
      }
    }
    assert g.Keys <= search.index.Keys;
    Tarjan.AllVisited(g, search.index, search.counter, search.stack, search.sccs);
    sccs := search.sccs;
  }

  // --- Merging components that share a multi-head rule ---

  function Members(cs: seq<set<string>>): set<string> { Tarjan.Members(cs) }

  // A set of relations that cuts through no component and no rule's heads.
  ghost predicate Uncut(sccs: seq<set<string>>, rules: seq<Rule>, s: set<string>) {
    && (forall i :: 0 <= i < |sccs| ==> sccs[i] <= s || sccs[i] !! s)
    && (forall k :: 0 <= k < |rules| ==>
         HeadRels(rules[k]) * Members(sccs) <= s || HeadRels(rules[k]) * Members(sccs) !! s)
  }

  // x and y are linked by a chain of shared components and multi-head rules.
  ghost predicate Chained(sccs: seq<set<string>>, rules: seq<Rule>, x: string, y: string) {
    forall s: set<string> {:trigger Uncut(sccs, rules, s)} :: Uncut(sccs, rules, s) && x in s ==> y in s
  }

  ghost predicate Disjoint(sccs: seq<set<string>>) {
    forall i, j :: 0 <= i < j < |sccs| ==> sccs[i] !! sccs[j]
  }

  ghost predicate IsLookup(sccs: seq<set<string>>, sccOf: map<string, nat>) {
    && sccOf.Keys == Members(sccs)
    && forall x :: x in sccOf ==> sccOf[x] < |sccs| && x in sccs[sccOf[x]]
  }

  ghost predicate SameRoot(sccOf: map<string, nat>, root: seq<nat>, x: string, y: string) {
    x in sccOf && y in sccOf && sccOf[x] < |root| && sccOf[y] < |root| ==> root[sccOf[x]] == root[sccOf[y]]
  }

  // Roots respect every head pair of the first k rules.
  ghost predicate HeadsJoined(rules: seq<Rule>, k: nat, sccOf: map<string, nat>, root: seq<nat>) {
    forall i, x, y {:trigger x in HeadRels(rules[i]), y in HeadRels(rules[i])} ::
      0 <= i < k <= |rules| && x in HeadRels(rules[i]) && y in HeadRels(rules[i]) ==> SameRoot(sccOf, root, x, y)
  }

  // Every link joins the components of two heads of one rule.
  ghost predicate LinkFromRule(rules: seq<Rule>, sccOf: map<string, nat>, l: (nat, nat)) {
    exists i, x, y :: 0 <= i < |rules| && x in HeadRels(rules[i]) && y in HeadRels(rules[i])
      && x in sccOf && y in sccOf && sccOf[x] == l.0 && sccOf[y] == l.1
  }

  ghost predicate LinksFromRules(rules: seq<Rule>, sccOf: map<string, nat>, links: seq<(nat, nat)>) {
    forall m :: 0 <= m < |links| ==> LinkFromRule(rules, sccOf, links[m])
  }

  // Equal roots mean exactly: linked by a chain.
  lemma RootsAreChains(sccs: seq<set<string>>, rules: seq<Rule>, sccOf: map<string, nat>, root: seq<nat>,
                       links: seq<(nat, nat)>, x: string, y: string)
    requires Disjoint(sccs) && IsLookup(sccs, sccOf) && |root| == |sccs|
    requires RootsAreLinks(root, links)
    requires HeadsJoined(rules, |rules|, sccOf, root) && LinksFromRules(rules, sccOf, links)
    requires x in Members(sccs) && y in Members(sccs)
    ensures root[sccOf[x]] == root[sccOf[y]] <==> Chained(sccs, rules, x, y)
  {
    hide Members, Disjoint;
    if root[sccOf[x]] == root[sccOf[y]] {
      hide RootsAreLinks, LinksFromRules, HeadsJoined, Uncut;
      forall s: set<string> | Uncut(sccs, rules, s) && x in s ensures y in s {
        SameRootSameSide(sccs, rules, sccOf, root, links, x, y, s);
      }
    }
    var s := set z | z in sccOf && root[sccOf[z]] == root[sccOf[x]];
    RootClassUncut(sccs, rules, sccOf, root, x, s);
    hide RootsAreLinks, LinksFromRules, HeadsJoined, Uncut;
  }

  lemma RootClassUncut(sccs: seq<set<string>>, rules: seq<Rule>, sccOf: map<string, nat>, root: seq<nat>, x: string,
                       s: set<string>)
    requires Disjoint(sccs) && IsLookup(sccs, sccOf) && |root| == |sccs| && HeadsJoined(rules, |rules|, sccOf, root)
    requires x in sccOf
    requires s == set z | z in sccOf && root[sccOf[z]] == root[sccOf[x]]
    ensures Uncut(sccs, rules, s)
  {
    forall i | 0 <= i < |sccs| ensures sccs[i] <= s || sccs[i] !! s {
      forall z | z in sccs[i] ensures z in sccOf && sccOf[z] == i {
        assert z in Members(sccs);
      }
    }
    forall k | 0 <= k < |rules|
      ensures HeadRels(rules[k]) * Members(sccs) <= s || HeadRels(rules[k]) * Members(sccs) !! s {
      forall a, b | a in HeadRels(rules[k]) * Members(sccs) && b in HeadRels(rules[k]) * Members(sccs) && a in s
        ensures b in s {
        assert SameRoot(sccOf, root, a, b);
      }
    }
  }

  lemma SameRootSameSide(sccs: seq<set<string>>, rules: seq<Rule>, sccOf: map<string, nat>, root: seq<nat>,
                         links: seq<(nat, nat)>, x: string, y: string, s: set<string>)
    requires IsLookup(sccs, sccOf) && |root| == |sccs|
    requires RootsAreLinks(root, links) && LinksFromRules(rules, sccOf, links)
    requires x in sccOf && y in sccOf && root[sccOf[x]] == root[sccOf[y]]
    requires Uncut(sccs, rules, s) && x in s
    ensures y in s
  {
    var inside := set i: nat | i < |sccs| && sccs[i] <= s;
    forall m | 0 <= m < |links| ensures links[m].0 in inside <==> links[m].1 in inside {
      LinkOneSide(sccs, rules, sccOf, links[m], s);
    }
    assert Saturated(links, inside);
    assert Linked(links, sccOf[x], sccOf[y]);
  }

  lemma LinkOneSide(sccs: seq<set<string>>, rules: seq<Rule>, sccOf: map<string, nat>, l: (nat, nat), s: set<string>)
    requires IsLookup(sccs, sccOf) && Uncut(sccs, rules, s) && LinkFromRule(rules, sccOf, l)
    ensures l.0 < |sccs| && l.1 < |sccs| && (sccs[l.0] <= s <==> sccs[l.1] <= s)
  {
    hide HeadRels, Members;
    var i, a, b :| 0 <= i < |rules| && a in HeadRels(rules[i]) && b in HeadRels(rules[i])
      && a in sccOf && b in sccOf && sccOf[a] == l.0 && sccOf[b] == l.1;
    var both := HeadRels(rules[i]) * Members(sccs);
    assert a in both && b in both;
    assert both <= s || both !! s;
  }

  // Two linked nodes whose roots agree before keep agreeing after any union.
  lemma RerootingKeepsJoins(rules: seq<Rule>, k: nat, sccOf: map<string, nat>, root: seq<nat>, ra: nat, rb: nat)
    requires HeadsJoined(rules, k, sccOf, root)
    ensures HeadsJoined(rules, k, sccOf, Rerooted(root, ra, rb))
  {
    var root' := Rerooted(root, ra, rb);
    forall i, x, y | 0 <= i < k <= |rules| && x in HeadRels(rules[i]) && y in HeadRels(rules[i])
      ensures SameRoot(sccOf, root', x, y)
    {
      assert SameRoot(sccOf, root, x, y);
    }
  }

  // The components whose root is r.
  function Group(sccs: seq<set<string>>, root: seq<nat>, n: nat, r: nat): set<string>
    requires n <= |sccs| && n <= |root|
  {
    set i, x | 0 <= i < n && root[i] == r && x in sccs[i] :: x
  }

  // The roots of components 0..n, in order of first occurrence.
  function RootOrder(root: seq<nat>, n: nat): (order: seq<nat>)
    requires n <= |root|
    ensures forall r :: r in order <==> exists i :: 0 <= i < n && root[i] == r
    ensures forall a, b :: 0 <= a < b < |order| ==> order[a] != order[b]
  {
    if n == 0 then [] else
      var rest := RootOrder(root, n - 1);
      if root[n - 1] in rest then rest else rest + [root[n - 1]]
  }

  function Grouped(sccs: seq<set<string>>, root: seq<nat>, n: nat): (groups: seq<set<string>>)
    requires n <= |sccs| && n <= |root|
    ensures |groups| == |RootOrder(root, n)|
  {
    var order := RootOrder(root, n);
    seq(|order|, a requires 0 <= a < |order| => Group(sccs, root, n, order[a]))
  }

  // What the union-find pass leaves: a root per component, the component of each relation, the links it made.
  datatype Merge = Merge(root: seq<nat>, sccOf: map<string, nat>, links: seq<(nat, nat)>)

  ghost predicate IsMerge(sccs: seq<set<string>>, rules: seq<Rule>, m: Merge) {
    && Disjoint(sccs) && |m.root| == |sccs| && IsLookup(sccs, m.sccOf) && RootsAreLinks(m.root, m.links)
    && HeadsJoined(rules, |rules|, m.sccOf, m.root) && LinksFromRules(rules, m.sccOf, m.links)
  }

  ghost predicate MergedFrom(sccs: seq<set<string>>, rules: seq<Rule>, groups: seq<set<string>>) {
    exists m :: IsMerge(sccs, rules, m) && groups == Grouped(sccs, m.root, |sccs|)
  }

  method MergeForMultiHead(sccs: seq<set<string>>, rules: seq<Rule>)
    returns (groups: seq<set<string>>, ghost root: seq<nat>, ghost sccOf: map<string, nat>,
             ghost links: seq<(nat, nat)>)
    requires Disjoint(sccs)
    ensures |root| == |sccs| && groups == Grouped(sccs, root, |sccs|)
    ensures IsLookup(sccs, sccOf) && RootsAreLinks(root, links)
    ensures HeadsJoined(rules, |rules|, sccOf, root) && LinksFromRules(rules, sccOf, links)
    ensures HeadsTogether(sccs, rules) ==> groups == sccs
    ensures MergedFrom(sccs, rules, groups)
  {
    var relToScc := BuildLookup(sccs);
    var forest := new Forest(|sccs|);
    for k := 0 to |rules|
      invariant forest.Valid() && fresh(forest) && fresh(forest.parent) && forest.parent.Length == |sccs|
      invariant HeadsJoined(rules, k, relToScc, forest.root)
      invariant LinksFromRules(rules, relToScc, forest.links)
    {
      if |rules[k].heads| > 1 {
        JoinHeads(rules, k, relToScc, forest);
      }
    }
    groups := Rebuild(sccs, forest);
    root, sccOf, links := forest.root, relToScc, forest.links;
    if HeadsTogether(sccs, rules) {
      MergeIsIdentity(sccs, rules, root, sccOf, links);
    }
    assert IsMerge(sccs, rules, Merge(root, sccOf, links));
  }

  method BuildLookup(sccs: seq<set<string>>) returns (relToScc: map<string, nat>)
    requires Disjoint(sccs)
    ensures IsLookup(sccs, relToScc)
  {
    relToScc := map[];
    for i := 0 to |sccs|
      invariant IsLookup(sccs[..i], relToScc)
    {
      ghost var before := relToScc;
      relToScc := relToScc + map x | x in sccs[i] :: i;
      assert sccs[..i + 1] == sccs[..i] + [sccs[i]];
      Tarjan.MembersAppend(sccs[..i], sccs[i]);
    }
    assert sccs[..|sccs|] == sccs;
  }

  // Unions the first head's component with every other head's.
  method JoinHeads(rules: seq<Rule>, k: nat, relToScc: map<string, nat>, forest: Forest)
    requires k < |rules| && forest.Valid()
    requires forall x :: x in relToScc ==> relToScc[x] < forest.parent.Length
    requires HeadsJoined(rules, k, relToScc, forest.root) && LinksFromRules(rules, relToScc, forest.links)
    modifies forest, forest.parent
    ensures forest.Valid()
    ensures HeadsJoined(rules, k + 1, relToScc, forest.root) && LinksFromRules(rules, relToScc, forest.links)
  {
    var headSccs := HeadComponents(rules[k], relToScc);
    var i := 1;
    while i < |headSccs|
      invariant 1 <= i && forest.Valid()
      invariant HeadsJoined(rules, k, relToScc, forest.root) && LinksFromRules(rules, relToScc, forest.links)
      invariant AllSame(headSccs, i, forest.root)
    {
      ghost var root, links := forest.root, forest.links;
      assert IsHeadComponent(rules[k], relToScc, headSccs[0]) && IsHeadComponent(rules[k], relToScc, headSccs[i]);
      forest.Union(headSccs[0], headSccs[i]);
      RerootingKeepsJoins(rules, k, relToScc, root, root[headSccs[0]], root[headSccs[i]]);
      assert LinkFromRule(rules, relToScc, (headSccs[0], headSccs[i]));
      i := i + 1;
    }
    forall m, x, y | 0 <= m < k + 1 && x in HeadRels(rules[m]) && y in HeadRels(rules[m])
      ensures SameRoot(relToScc, forest.root, x, y)
    {
      if m == k && x in relToScc && y in relToScc {
        assert relToScc[x] in headSccs && relToScc[y] in headSccs;
      }
    }
  }

  ghost predicate AllSame(ns: seq<nat>, k: nat, root: seq<nat>) {
    forall m :: 0 <= m < k && m < |ns| ==> ns[m] < |root| && ns[0] < |root| && root[ns[m]] == root[ns[0]]
  }

  ghost predicate IsHeadComponent(rule: Rule, relToScc: map<string, nat>, c: nat) {
    exists x :: x in HeadRels(rule) && x in relToScc && relToScc[x] == c
  }

  method HeadComponents(rule: Rule, relToScc: map<string, nat>) returns (headSccs: seq<nat>)
    ensures forall m :: 0 <= m < |headSccs| ==> IsHeadComponent(rule, relToScc, headSccs[m])
    ensures forall x :: x in HeadRels(rule) && x in relToScc ==> relToScc[x] in headSccs
  {
    headSccs := [];
    for h := 0 to |rule.heads|
      invariant forall m :: 0 <= m < |headSccs| ==> IsHeadComponent(rule, relToScc, headSccs[m])
      invariant forall i :: 0 <= i < h && rule.heads[i].rel in relToScc ==> relToScc[rule.heads[i].rel] in headSccs
    {
      var rel := rule.heads[h].rel;
      if rel in relToScc {
        assert rel in HeadRels(rule) && IsHeadComponent(rule, relToScc, relToScc[rel]);
        headSccs := headSccs + [relToScc[rel]];
      }
    }
  }

  lemma GroupGrows(sccs: seq<set<string>>, root: seq<nat>, n: nat, r: nat)
    requires n < |sccs| && n < |root|
    ensures Group(sccs, root, n + 1, r) == Group(sccs, root, n, r) + if root[n] == r then sccs[n] else {}
  {
    var before, after := Group(sccs, root, n, r), Group(sccs, root, n + 1, r);
    forall x ensures x in after <==> x in before || (root[n] == r && x in sccs[n]) {
      if x in after {
        var i :| 0 <= i < n + 1 && root[i] == r && x in sccs[i];
      }
    }
  }

  lemma NewRootEmpty(sccs: seq<set<string>>, root: seq<nat>, n: nat, r: nat)
    requires n <= |sccs| && n <= |root| && r !in RootOrder(root, n)
    ensures Group(sccs, root, n, r) == {}
  {
    assert forall i :: 0 <= i < n ==> root[i] != r;
  }

  // Collects the components of each root, groups listed by their first component.
  method Rebuild(sccs: seq<set<string>>, forest: Forest) returns (groups: seq<set<string>>)
    requires forest.Valid() && forest.parent.Length == |sccs|
    modifies forest.parent
    ensures forest.Valid() && forest.root == old(forest.root) && groups == Grouped(sccs, forest.root, |sccs|)
  {
    hide RootsAreLinks, IsForest, Group;
    var merged: map<nat, set<string>> := map[];
    var rootOrder: seq<nat> := [];
    for i := 0 to |sccs|
      invariant forest.Valid()
      invariant |forest.root| == |sccs| && rootOrder == RootOrder(forest.root, i)
      invariant forall r :: r in merged <==> r in rootOrder
      invariant forall r :: r in merged ==> merged[r] == Group(sccs, forest.root, i, r)
    {
      var r := forest.Find(i);
      ghost var merged0 := merged;
      if r !in merged {
        NewRootEmpty(sccs, forest.root, i, r);
        merged := merged[r := {}];
        rootOrder := rootOrder + [r];
      }
      merged := merged[r := merged[r] + sccs[i]];
      forall q | q in merged ensures merged[q] == Group(sccs, forest.root, i + 1, q) {
        GroupGrows(sccs, forest.root, i, q);
        assert q != r ==> q in merged0;
      }
    }
    groups := seq(|rootOrder|, a requires 0 <= a < |rootOrder| && rootOrder[a] in merged => merged[rootOrder[a]]);
  }

  // --- What merging achieves ---

  // No rule's heads are spread over two components.
  ghost predicate HeadsTogether(sccs: seq<set<string>>, rules: seq<Rule>) {
    forall k, i ::
        0 <= k < |rules| && 0 <= i < |sccs| ==> HeadRels(rules[k]) <= sccs[i] || HeadRels(rules[k]) !! sccs[i]
  }

  // The groups partition the relations.
  lemma GroupsPartition(sccs: seq<set<string>>, root: seq<nat>)
    requires Disjoint(sccs) && |root| == |sccs|
    ensures Disjoint(Grouped(sccs, root, |sccs|)) && Members(Grouped(sccs, root, |sccs|)) == Members(sccs)
  {
    var groups, order := Grouped(sccs, root, |sccs|), RootOrder(root, |sccs|);
    forall x | x in Members(sccs) ensures x in Members(groups) {
      var i :| 0 <= i < |sccs| && x in sccs[i];
      assert root[i] in order;
      var a :| 0 <= a < |order| && order[a] == root[i];
      assert x in groups[a];
    }
  }

  // Two relations share a group exactly when a chain of components and multi-head rules links them.
  lemma TogetherIffChained(sccs: seq<set<string>>, rules: seq<Rule>, root: seq<nat>, sccOf: map<string, nat>,
                           links: seq<(nat, nat)>, x: string, y: string)
    requires Disjoint(sccs) && |root| == |sccs| && IsLookup(sccs, sccOf) && RootsAreLinks(root, links)
    requires HeadsJoined(rules, |rules|, sccOf, root) && LinksFromRules(rules, sccOf, links)
    requires x in Members(sccs) && y in Members(sccs)
    ensures (exists a ::
             0 <= a < |Grouped(sccs, root, |sccs|)| && x in Grouped(sccs, root, |sccs|)[a]
             && y in Grouped(sccs, root, |sccs|)[a])
            <==> Chained(sccs, rules, x, y)
  {
    RootsAreChains(sccs, rules, sccOf, root, links, x, y);
    var groups, order := Grouped(sccs, root, |sccs|), RootOrder(root, |sccs|);
    forall a, z | 0 <= a < |groups| && z in Members(sccs) ensures z in groups[a] <==> root[sccOf[z]] == order[a] {
      forall i | 0 <= i < |sccs| && z in sccs[i] ensures i == sccOf[z] {}
    }
    if Chained(sccs, rules, x, y) {
      assert root[sccOf[x]] in order;
      var a :| 0 <= a < |order| && order[a] == root[sccOf[x]];
      assert x in groups[a] && y in groups[a];
    }
  }

  // The roots listed before position n were first met before position n: groups come in order of their first component.
  lemma {:induction false} GroupsInFirstOrder(root: seq<nat>, n: nat, a: nat, b: nat)
    requires n <= |root| && a < b < |RootOrder(root, n)|
    ensures exists i :: 0 <= i < n && root[i] == RootOrder(root, n)[a]
              && forall j :: 0 <= j < n && root[j] == RootOrder(root, n)[b] ==> i < j
  {
    var rest := RootOrder(root, n - 1);
    if b < |rest| {
      GroupsInFirstOrder(root, n - 1, a, b);
      var i :| 0 <= i < n - 1 && root[i] == rest[a] && forall j :: 0 <= j < n - 1 && root[j] == rest[b] ==> i < j;
      assert root[i] == RootOrder(root, n)[a];
    } else {
      assert rest[a] in rest;
      var i :| 0 <= i < n - 1 && root[i] == rest[a];
      assert root[i] == RootOrder(root, n)[a];
    }
  }

  // Without a rule that spans two components, merging changes nothing.
  lemma MergeIsIdentity(sccs: seq<set<string>>, rules: seq<Rule>, root: seq<nat>, sccOf: map<string, nat>,
                        links: seq<(nat, nat)>)
    requires Disjoint(sccs) && |root| == |sccs| && IsLookup(sccs, sccOf) && RootsAreLinks(root, links)
    requires LinksFromRules(rules, sccOf, links) && HeadsTogether(sccs, rules)
    ensures Grouped(sccs, root, |sccs|) == sccs
  {
    hide HeadRels;
    forall m | 0 <= m < |links| ensures links[m].0 == links[m].1 {
      assert LinkFromRule(rules, sccOf, links[m]);
      var i, x, y :| 0 <= i < |rules| && x in HeadRels(rules[i]) && y in HeadRels(rules[i])
        && x in sccOf && y in sccOf && sccOf[x] == links[m].0 && sccOf[y] == links[m].1;
      assert HeadRels(rules[i]) <= sccs[sccOf[x]];
    }
    forall i: nat, j: nat | i < |root| && j < |root| && root[i] == root[j] ensures i == j {
      assert Linked(links, i, j);
      assert Saturated(links, {i});
    }
    DistinctRootsListed(root, |root|);
    forall i | 0 <= i < |sccs| ensures Group(sccs, root, |sccs|, root[i]) == sccs[i] {}
  }

  lemma {:induction false} DistinctRootsListed(root: seq<nat>, n: nat)
    requires n <= |root| && forall i, j :: 0 <= i < j < |root| ==> root[i] != root[j]
    ensures RootOrder(root, n) == root[..n]
  {
    if n > 0 {
      DistinctRootsListed(root, n - 1);
    }
  }

  // After merging, every rule's heads share a group.
  lemma MergedHeadsTogether(sccs: seq<set<string>>, rules: seq<Rule>, root: seq<nat>, sccOf: map<string, nat>,
                            links: seq<(nat, nat)>)
    requires Disjoint(sccs) && |root| == |sccs| && IsLookup(sccs, sccOf) && RootsAreLinks(root, links)
    requires HeadsJoined(rules, |rules|, sccOf, root) && LinksFromRules(rules, sccOf, links)
    requires forall k :: 0 <= k < |rules| ==> HeadRels(rules[k]) <= Members(sccs)
    ensures HeadsTogether(Grouped(sccs, root, |sccs|), rules)
  {
    hide Members;
    hide RootsAreLinks, LinksFromRules;
    var groups, order := Grouped(sccs, root, |sccs|), RootOrder(root, |sccs|);
    forall a, z | 0 <= a < |groups| && z in Members(sccs) ensures z in groups[a] <==> root[sccOf[z]] == order[a] {
      forall i | 0 <= i < |sccs| && z in sccs[i] ensures i == sccOf[z] {}
    }
    forall k, a | 0 <= k < |rules| && 0 <= a < |groups|
      ensures HeadRels(rules[k]) <= groups[a] || HeadRels(rules[k]) !! groups[a]
    {
      forall x, y | x in HeadRels(rules[k]) && y in HeadRels(rules[k]) ensures x in groups[a] <==> y in groups[a] {
        assert SameRoot(sccOf, root, x, y);
      }
    }
  }

  // ========== Stratify ==========

  // `stratify`: components to strata, base rules split from recursive ones, independent strata fused.

  /** The record the passes share; stratification fills the first three fields,
      variant generation the last two. */
  class HirStratum {
    var sccMembers: set<string>
    const isRecursive: bool
    var stratumRules: seq<Rule>
    var baseVariants: seq<Variant>
    var recursiveVariants: seq<Variant>

    constructor (members: set<string>, recursive: bool, rules: seq<Rule>)
      ensures View() == Stratum(members, recursive, rules) && baseVariants == recursiveVariants == []
    {
      sccMembers, isRecursive, stratumRules := members, recursive, rules;
      baseVariants, recursiveVariants := [], [];
    }

    function View(): Stratum
      reads this
    {
      Stratum(sccMembers, isRecursive, stratumRules)
    }
  }

  function Views(strata: seq<HirStratum>): seq<Stratum>
    reads strata
  {
    seq(|strata|, i requires 0 <= i < |strata| reads strata => strata[i].View())
  }

  // The groups partition the program's relations without splitting a rule's heads.
  ghost predicate IsGrouping(rules: seq<Rule>, g: Graph, groups: seq<set<string>>) {
    && IsDepGraph(rules, g) && Disjoint(groups) && Tarjan.Members(groups) == g.Keys
    && HeadsTogether(groups, rules)
  }

  lemma MergeIsGrouping(rules: seq<Rule>, g: Graph, sccs: seq<set<string>>, groups: seq<set<string>>)
    requires IsDepGraph(rules, g) && Tarjan.IsComponentList(g, sccs) && Tarjan.Members(sccs) == g.Keys
    requires MergedFrom(sccs, rules, groups)
    ensures IsGrouping(rules, g, groups)
  {
    hide RootsAreLinks, HeadsJoined, LinksFromRules, Grouped,
        HeadsTogether, Tarjan.IsComponentList;
    var m :| IsMerge(sccs, rules, m) && groups == Grouped(sccs, m.root, |sccs|);
    HeadsAreMembers(rules, g);
    GroupsPartition(sccs, m.root);
    MergedHeadsTogether(sccs, rules, m.root, m.sccOf, m.links);
  }

  lemma HeadsAreMembers(rules: seq<Rule>, g: Graph)
    requires IsDepGraph(rules, g)
    ensures forall k :: 0 <= k < |rules| ==> HeadRels(rules[k]) <= g.Keys
  {
    forall k, x | 0 <= k < |rules| && x in HeadRels(rules[k]) ensures x in Idbs(rules) {
      var h :| 0 <= h < |rules[k].heads| && rules[k].heads[h].rel == x;
    }
  }

  // --- One component's strata ---

  predicate IsRecursive(scc: set<string>, g: Graph) {
    |scc| > 1 || exists rel :: rel in scc && Edge(g, rel, rel)
  }

  predicate Feeds(rule: Rule, scc: set<string>) {
    HeadRels(rule) * scc != {}
  }

  predicate ReadsAny(rule: Rule, scc: set<string>) {
    BodyRels(rule) * scc != {}
  }

  function RulesFor(rules: seq<Rule>, scc: set<string>): (out: seq<Rule>)
    ensures forall r :: r in out <==> r in rules && Feeds(r, scc)
  {
    if |rules| == 0 then [] else
      RulesFor(rules[..|rules| - 1], scc) + if Feeds(rules[|rules| - 1], scc) then [rules[|rules| - 1]] else []
  }

  // The rules that do (or do not) read the component.
  function Readers(rules: seq<Rule>, scc: set<string>, reading: bool): (out: seq<Rule>)
    ensures forall r :: r in out <==> r in rules && ReadsAny(r, scc) == reading
  {
    if |rules| == 0 then [] else
      Readers(rules[..|rules| - 1], scc, reading) +
      if ReadsAny(rules[|rules| - 1], scc) == reading then [rules[|rules| - 1]] else []
  }

  method SplitBaseRec(sccRules: seq<Rule>, scc: set<string>) returns (base: seq<Rule>, rec: seq<Rule>)
    ensures base == Readers(sccRules, scc, false) && rec == Readers(sccRules, scc, true)
  {
    base, rec := [], [];
    for k := 0 to |sccRules|
      invariant base == Readers(sccRules[..k], scc, false) && rec == Readers(sccRules[..k], scc, true)
    {
      assert sccRules[..k + 1][..k] == sccRules[..k];
      var rels := BodyRelations(sccRules[k]);
      if rels * scc != {} {
        rec := rec + [sccRules[k]];
      } else {
        base := base + [sccRules[k]];
      }
    }
    assert sccRules[..|sccRules|] == sccRules;
  }

  function Nonempty(s: Stratum): seq<Stratum> {
    if s.rules == [] then [] else [s]
  }

  function StrataFor(scc: set<string>, rules: seq<Rule>, g: Graph): seq<Stratum> {
    var mine := RulesFor(rules, scc);
    if IsRecursive(scc, g) then
      Nonempty(Stratum(scc, false, Readers(mine, scc, false))) + Nonempty(Stratum(scc, true, Readers(mine, scc, true)))
    else
      Nonempty(Stratum(scc, false, mine))
  }

  function InitialStrata(groups: seq<set<string>>, rules: seq<Rule>, g: Graph): seq<Stratum> {
    if |groups| == 0 then [] else
      InitialStrata(groups[..|groups| - 1], rules, g) + StrataFor(groups[|groups| - 1], rules, g)
  }

  // --- Fusing ---

  function RecursiveMembers(strata: seq<Stratum>): set<string> {
    set i, x | 0 <= i < |strata| && strata[i].recursive && x in strata[i].members :: x
  }

  lemma RecursiveMembersAppend(strata: seq<Stratum>, s: Stratum)
    ensures RecursiveMembers(strata + [s]) == RecursiveMembers(strata) + if s.recursive then s.members else {}
  {
    var all := strata + [s];
    forall x | x in RecursiveMembers(strata) ensures x in RecursiveMembers(all) {
      var i :| 0 <= i < |strata| && strata[i].recursive && x in strata[i].members;
      assert all[i] == strata[i];
    }
    if s.recursive {
      assert all[|strata|] == s;
    }
  }

  predicate Fusable(s: Stratum, recursiveMembers: set<string>) {
    !s.recursive && s.members * recursiveMembers == {}
  }

  predicate StratumDependsOn(s: Stratum, produced: set<string>) {
    exists k :: 0 <= k < |s.rules| && ReadsAny(s.rules[k], produced)
  }

  function Merged(a: Stratum, b: Stratum): Stratum {
    Stratum(a.members + b.members, a.recursive, a.rules + b.rules)
  }

  // How many of the following strata the current one takes in, and what it becomes.
  function Absorb(cur: Stratum, rest: seq<Stratum>, recursiveMembers: set<string>): (r: (Stratum, nat))
    ensures r.1 <= |rest|
    decreases |rest|
  {
    if rest == [] || !Fusable(rest[0], recursiveMembers) || StratumDependsOn(rest[0], cur.members) then (cur, 0)
    else var r := Absorb(Merged(cur, rest[0]), rest[1..], recursiveMembers); (r.0, r.1 + 1)
  }

  function FuseAll(strata: seq<Stratum>, recursiveMembers: set<string>): seq<Stratum>
    decreases |strata|
  {
    if strata == [] then []
    else if !Fusable(strata[0], recursiveMembers) then [strata[0]] + FuseAll(strata[1..], recursiveMembers)
    else
      var r := Absorb(strata[0], strata[1..], recursiveMembers);
      [r.0] + FuseAll(strata[1 + r.1..], recursiveMembers)
  }

  ghost predicate Distinct(strata: seq<HirStratum>) {
    forall i, j :: 0 <= i < j < |strata| ==> strata[i] != strata[j]
  }

  method CollectRecursiveMembers(strata: seq<HirStratum>) returns (members: set<string>)
    ensures members == RecursiveMembers(Views(strata))
  {
    ghost var views := Views(strata);
    members := {};
    for i := 0 to |strata|
      invariant members == RecursiveMembers(views[..i])
    {
      if strata[i].isRecursive {
        members := members + strata[i].sccMembers;
      }
      assert views[i] == strata[i].View();
      RecursiveMembersAppend(views[..i], views[i]);
      assert views[..i + 1] == views[..i] + [views[i]];
    }
    assert views[..|views|] == views;
  }

  // With i's stratum grown to cur and strata up to j tried, the outcome is still the target.
  ghost predicate Aims(target: (Stratum, nat), cur: Stratum, views: seq<Stratum>, i: nat, j: nat,
                       recursiveMembers: set<string>)
    requires i < j <= |views|
  {
    var r := Absorb(cur, views[j..], recursiveMembers);
    target == (r.0, r.1 + (j - i - 1))
  }

  lemma AimNext(target: (Stratum, nat), cur: Stratum, views: seq<Stratum>, i: nat, j: nat,
                recursiveMembers: set<string>)
    requires i < j < |views| && Aims(target, cur, views, i, j, recursiveMembers)
    requires Fusable(views[j], recursiveMembers) && !StratumDependsOn(views[j], cur.members)
    ensures Aims(target, Merged(cur, views[j]), views, i, j + 1, recursiveMembers)
  {
    hide StratumDependsOn, Fusable;
    assert views[j..][0] == views[j] && views[j..][1..] == views[j + 1..];
  }

  lemma AimStop(target: (Stratum, nat), cur: Stratum, views: seq<Stratum>, i: nat, j: nat,
                recursiveMembers: set<string>)
    requires i < j <= |views| && Aims(target, cur, views, i, j, recursiveMembers)
    requires j == |views| || !Fusable(views[j], recursiveMembers) || StratumDependsOn(views[j], cur.members)
    ensures target == (cur, j - i - 1)
  {
    hide StratumDependsOn, Fusable;
    assert j < |views| ==> views[j..][0] == views[j];
  }

  // The strata after i are as they were.
  ghost predicate Unmoved(strata: seq<HirStratum>, views: seq<Stratum>, i: nat)
    reads strata
  {
    |views| == |strata| && forall k :: i < k < |strata| ==> strata[k].View() == views[k]
  }

  // Stratum i takes in the relations and rules of stratum j.
  method TakeIn(strata: seq<HirStratum>, i: nat, j: nat, ghost views: seq<Stratum>)
    requires Distinct(strata) && i < j < |strata| && Unmoved(strata, views, i)
    modifies strata[i]
    ensures Unmoved(strata, views, i) && strata[i].View() == Merged(old(strata[i].View()), views[j])
  {
    var current, nxt := strata[i], strata[j];
    current.sccMembers := current.sccMembers + nxt.sccMembers;
    current.stratumRules := current.stratumRules + nxt.stratumRules;
  }

  // Whether stratum j can be taken in.
  method CanTakeIn(strata: seq<HirStratum>, i: nat, j: nat, recursiveMembers: set<string>, produced: set<string>,
                   ghost views: seq<Stratum>) returns (ok: bool)
    requires i < j < |strata| && Unmoved(strata, views, i)
    ensures ok <==> Fusable(views[j], recursiveMembers) && !StratumDependsOn(views[j], produced)
  {
    var nxt := strata[j];
    ok := Fusable(nxt.View(), recursiveMembers) && !StratumDependsOn(nxt.View(), produced);
  }

  lemma AimStart(strata: seq<HirStratum>, i: nat, recursiveMembers: set<string>)
    requires i < |strata|
    ensures Unmoved(strata, Views(strata), i) && Views(strata)[i] == strata[i].View()
    ensures var views := Views(strata);
      Aims(Absorb(views[i], views[i + 1..], recursiveMembers), views[i], views, i, i + 1, recursiveMembers)
  {
    hide StratumDependsOn, Fusable, Absorb;
  }

  // The inner loop: strata[i] takes in its independent followers.
  method AbsorbFollowers(strata: seq<HirStratum>, i: nat, recursiveMembers: set<string>) returns (j: nat)
    requires Distinct(strata) && i < |strata|
    modifies strata[i]
    ensures i < j <= |strata|
    ensures (strata[i].View(), j - i - 1) == old(Absorb(strata[i].View(), Views(strata)[i + 1..], recursiveMembers))
  {
    ghost var views := Views(strata);
    ghost var target := Absorb(views[i], views[i + 1..], recursiveMembers);
    AimStart(strata, i, recursiveMembers);
    assert |views| == |strata|;
    hide StratumDependsOn, Fusable, Absorb, Aims, Views, Distinct, Merged, Unmoved;
    var produced := strata[i].sccMembers;
    j := i + 1;
    while j < |strata|
      invariant i < j <= |strata| == |views| && produced == strata[i].View().members
      invariant Unmoved(strata, views, i)
      invariant Aims(target, strata[i].View(), views, i, j, recursiveMembers)
    {
      var ok := CanTakeIn(strata, i, j, recursiveMembers, produced, views);
      if !ok { break; }
      AimNext(target, strata[i].View(), views, i, j, recursiveMembers);
      TakeIn(strata, i, j, views);
      produced := strata[i].sccMembers;
      j := j + 1;
    }
    AimStop(target, strata[i].View(), views, i, j, recursiveMembers);
  }

  // One turn of the outer loop, on the specification.
  lemma FuseStep(views: seq<Stratum>, i: nat, j: nat, view: Stratum, recursiveMembers: set<string>)
    requires i < |views| && i < j <= |views|
    requires Fusable(views[i], recursiveMembers) ==>
        (view, j - i - 1) == Absorb(views[i], views[i + 1..], recursiveMembers)
    requires !Fusable(views[i], recursiveMembers) ==> (view, j) == (views[i], i + 1)
    ensures FuseAll(views[i..], recursiveMembers) == [view] + FuseAll(views[j..], recursiveMembers)
  {
    hide Absorb, Fusable;
    assert views[i..][0] == views[i] && views[i..][1..] == views[i + 1..];
    assert views[i..][1 + (j - i - 1)..] == views[j..];
  }

  // --- What fusing does, without the algorithm ---

  // Neither a loop nor sharing a relation with one.
  ghost predicate Free(strata: seq<Stratum>, s: Stratum) {
    !s.recursive && forall l :: l in strata && l.recursive ==> l.members !! s.members
  }

  // Some rule of t reads one of the relations.
  ghost predicate ReadsOneOf(t: Stratum, names: set<string>) {
    exists r, y :: r in t.rules && y in BodyRels(r) && y in names
  }

  // The relations of the block's strata, and their rules in order.
  ghost predicate IsJoinOf(s: Stratum, block: seq<Stratum>) {
    && block != [] && s.recursive == block[0].recursive && s.rules == AllRules(block)
    && forall x :: x in s.members <==> exists b :: b in block && x in b.members
  }

  function Flat(blocks: seq<seq<Stratum>>): seq<Stratum> {
    if |blocks| == 0 then [] else blocks[0] + Flat(blocks[1..])
  }

  // A stratum on its own, or free strata none of which reads what an earlier one holds.
  ghost predicate CanFuse(strata: seq<Stratum>, block: seq<Stratum>) {
    && (|block| > 1 ==> forall s :: s in block ==> Free(strata, s))
    && forall i, j :: 0 <= i < j < |block| ==> !ReadsOneOf(block[j], block[i].members)
  }

  // The next block's first stratum could not have been taken in.
  ghost predicate MustStop(strata: seq<Stratum>, s: Stratum, next: Stratum) {
    Free(strata, s) && Free(strata, next) ==> ReadsOneOf(next, s.members)
  }

  // The consecutive blocks of rest, each joined into one stratum; no block could have been longer.
  ghost predicate FusesRest(strata: seq<Stratum>, rest: seq<Stratum>, fused: seq<Stratum>, blocks: seq<seq<Stratum>>) {
    && |blocks| == |fused| && Flat(blocks) == rest
    && (forall k :: 0 <= k < |fused| ==> IsJoinOf(fused[k], blocks[k]) && CanFuse(strata, blocks[k]))
    && forall k :: 0 < k < |fused| ==> MustStop(strata, fused[k - 1], blocks[k][0])
  }

  ghost predicate IsFusion(strata: seq<Stratum>, fused: seq<Stratum>, blocks: seq<seq<Stratum>>) {
    FusesRest(strata, strata, fused, blocks)
  }

  lemma FusableIff(strata: seq<Stratum>, s: Stratum)
    ensures Fusable(s, RecursiveMembers(strata)) <==> Free(strata, s)
  {
    if Free(strata, s) {
      forall i, x | 0 <= i < |strata| && strata[i].recursive && x in strata[i].members ensures x !in s.members {
        assert strata[i] in strata;
      }
      assert s.members * RecursiveMembers(strata) == {};
    }
    if Fusable(s, RecursiveMembers(strata)) {
      forall x | x in s.members ensures x !in RecursiveMembers(strata) {
        assert x in s.members * RecursiveMembers(strata) <==> x in RecursiveMembers(strata);
      }
      forall l, x | l in strata && l.recursive && x in l.members ensures x !in s.members {
        var i :| 0 <= i < |strata| && strata[i] == l;
        assert x in RecursiveMembers(strata);
      }
    }
  }

  lemma DependsIff(t: Stratum, names: set<string>)
    ensures StratumDependsOn(t, names) <==> ReadsOneOf(t, names)
  {
    forall k | 0 <= k < |t.rules|
      ensures ReadsAny(t.rules[k], names) <==> exists y :: y in BodyRels(t.rules[k]) && y in names
    {
      if ReadsAny(t.rules[k], names) { var y :| y in BodyRels(t.rules[k]) * names; }
      if y :| y in BodyRels(t.rules[k]) && y in names { assert y in BodyRels(t.rules[k]) * names; }
    }
    hide BodyRels, ReadsAny;
    if k :| 0 <= k < |t.rules| && ReadsAny(t.rules[k], names) {
      var y :| y in BodyRels(t.rules[k]) && y in names;
      assert t.rules[k] in t.rules;
    }
    if r, y :| r in t.rules && y in BodyRels(r) && y in names {
      var k :| 0 <= k < |t.rules| && t.rules[k] == r;
    }
  }

  lemma JoinedWith(strata: seq<Stratum>, cur: Stratum, block: seq<Stratum>, next: Stratum)
    requires IsJoinOf(cur, block) && CanFuse(strata, block) && Free(strata, cur) && Free(strata, next)
    requires |block| == 1 ==> Free(strata, block[0])
    requires !ReadsOneOf(next, cur.members)
    ensures IsJoinOf(Merged(cur, next), block + [next]) && CanFuse(strata, block + [next])
    ensures Free(strata, Merged(cur, next))
  {
    hide BodyRels;
    var more := block + [next];
    assert more[..|block|] == block;
    forall x ensures x in Merged(cur, next).members <==> exists b :: b in more && x in b.members {
      if x in cur.members {
        var b :| b in block && x in b.members;
        assert b in more;
      }
      if x in next.members { assert next in more; }
    }
    forall i | 0 <= i < |block| ensures !ReadsOneOf(next, block[i].members) {
      assert block[i] in block;
      assert forall y :: y in block[i].members ==> y in cur.members;
    }
    assert forall s :: s in more ==> s in block || s == next;
    hide Free, ReadsOneOf;
  }

  // Absorbing stops where nothing more can be taken in.
  lemma {:induction false} AbsorbsBlock(strata: seq<Stratum>, cur: Stratum, block: seq<Stratum>, rest: seq<Stratum>)
    requires IsJoinOf(cur, block) && CanFuse(strata, block) && Free(strata, cur)
    requires |block| == 1 ==> Free(strata, block[0])
    ensures var r := Absorb(cur, rest, RecursiveMembers(strata));
      && IsJoinOf(r.0, block + rest[..r.1]) && CanFuse(strata, block + rest[..r.1])
      && (r.1 < |rest| ==> MustStop(strata, r.0, rest[r.1]))
    decreases |rest|
  {
    hide IsJoinOf, CanFuse, Free, ReadsOneOf, Fusable, StratumDependsOn, Merged, RecursiveMembers;
    assert block + [] == block;
    if rest != [] {
      FusableIff(strata, rest[0]);
      DependsIff(rest[0], cur.members);
      if Free(strata, rest[0]) && !ReadsOneOf(rest[0], cur.members) {
        JoinedWith(strata, cur, block, rest[0]);
        SomeBlock(cur, block);
        AbsorbsBlock(strata, Merged(cur, rest[0]), block + [rest[0]], rest[1..]);
        var r := Absorb(Merged(cur, rest[0]), rest[1..], RecursiveMembers(strata));
        assert block + [rest[0]] + rest[1..][..r.1] == block + rest[..r.1 + 1];
      }
    }
  }

  lemma SomeBlock(s: Stratum, block: seq<Stratum>)
    requires IsJoinOf(s, block)
    ensures |block| > 0
  {}

  lemma FirstOfBlocks(blocks: seq<seq<Stratum>>, s: Stratum)
    requires blocks != [] && IsJoinOf(s, blocks[0])
    ensures blocks[0] != [] && Flat(blocks) != [] && Flat(blocks)[0] == blocks[0][0]
  {}

  lemma SingleBlock(strata: seq<Stratum>, s: Stratum)
    ensures IsJoinOf(s, [s]) && CanFuse(strata, [s])
  {
    assert [s][..0] == [] && AllRules([s]) == s.rules;
  }

  lemma FusesFirst(strata: seq<Stratum>, first: Stratum, block: seq<Stratum>, rest: seq<Stratum>, fused: seq<Stratum>,
                   blocks: seq<seq<Stratum>>)
    requires IsJoinOf(first, block) && CanFuse(strata, block) && FusesRest(strata, rest, fused, blocks)
    requires rest != [] ==> MustStop(strata, first, rest[0])
    ensures FusesRest(strata, block + rest, [first] + fused, [block] + blocks)
  {
    var all, more := [first] + fused, [block] + blocks;
    assert more[1..] == blocks;
    if blocks != [] { FirstOfBlocks(blocks, fused[0]); }
    hide IsJoinOf, CanFuse, MustStop;
    forall k | 0 <= k < |all| ensures IsJoinOf(all[k], more[k]) && CanFuse(strata, more[k]) {
      if k > 0 { assert all[k] == fused[k - 1] && more[k] == blocks[k - 1]; }
    }
    forall k | 0 < k < |all| ensures MustStop(strata, all[k - 1], more[k][0]) {
      assert more[k] == blocks[k - 1];
      if k > 1 { assert all[k - 1] == fused[k - 2]; }
    }
  }

  lemma {:induction false} FuseBlocks(strata: seq<Stratum>, rest: seq<Stratum>) returns (blocks: seq<seq<Stratum>>)
    ensures FusesRest(strata, rest, FuseAll(rest, RecursiveMembers(strata)), blocks)
    decreases |rest|
  {
    if rest == [] { return []; }
    var names := RecursiveMembers(strata);
    FusableIff(strata, rest[0]);
    SingleBlock(strata, rest[0]);
    hide IsJoinOf, CanFuse, Free, ReadsOneOf, Fusable, RecursiveMembers, Absorb, FusesRest;
    var first, n := rest[0], 0;
    if Fusable(rest[0], names) {
      AbsorbsBlock(strata, rest[0], [rest[0]], rest[1..]);
      first, n := Absorb(rest[0], rest[1..], names).0, Absorb(rest[0], rest[1..], names).1;
    }
    var block := [rest[0]] + rest[1..][..n];
    assert [rest[0]] + [] == [rest[0]];
    var more := FuseBlocks(strata, rest[1 + n..]);
    assert rest[1..][n..] == rest[1 + n..] && block + rest[1 + n..] == rest;
    FusesFirst(strata, first, block, rest[1 + n..], FuseAll(rest[1 + n..], names), more);
    blocks := [block] + more;
  }

  // Fusing joins consecutive strata, as long as they are free and read nothing taken in before, and no further.
  lemma FusionIsMaximal(strata: seq<Stratum>) returns (blocks: seq<seq<Stratum>>)
    ensures IsFusion(strata, FuseAll(strata, RecursiveMembers(strata)), blocks)
  {
    hide FusesRest;
    blocks := FuseBlocks(strata, strata);
  }

  // So of two neighbours in the fused list that are free, the second reads a relation of the first.
  lemma NeighboursDepend(strata: seq<Stratum>, fused: seq<Stratum>, blocks: seq<seq<Stratum>>, k: nat)
    requires IsFusion(strata, fused, blocks) && k + 1 < |fused| && Free(strata, fused[k]) && Free(strata, fused[k + 1])
    ensures ReadsOneOf(fused[k + 1], fused[k].members)
  {
    var next: nat := k + 1;
    var s, block := fused[next], blocks[next];
    assert IsJoinOf(s, block) && MustStop(strata, fused[next - 1], block[0]);
    assert block[0] in block;
    FirstRules(block);
    hide BodyRels;
    assert Free(strata, block[0]);
    var r, y :| r in block[0].rules && y in BodyRels(r) && y in fused[k].members;
    assert r in s.rules;
  }

  lemma {:induction false} FirstRules(block: seq<Stratum>)
    requires block != []
    ensures forall r :: r in block[0].rules ==> r in AllRules(block)
  {
    if |block| > 1 { FirstRules(block[..|block| - 1]); }
  }

  lemma FuseFew(strata: seq<Stratum>, recursiveMembers: set<string>)
    requires |strata| <= 1
    ensures FuseAll(strata, recursiveMembers) == strata
  {}

  // Merges runs of consecutive independent non-recursive strata, in place.
  method FuseIndependentStrata(strata: seq<HirStratum>) returns (fused: seq<HirStratum>)
    requires Distinct(strata)
    modifies strata
    ensures Views(fused) == FuseAll(old(Views(strata)), RecursiveMembers(old(Views(strata))))
    ensures exists blocks :: IsFusion(old(Views(strata)), Views(fused), blocks)
    ensures forall s :: s in fused ==> s in strata
  {
    ghost var blocks := FusionIsMaximal(Views(strata));
    hide IsFusion, FuseAll, RecursiveMembers;
    if |strata| <= 1 {
      FuseFew(Views(strata), RecursiveMembers(Views(strata)));
      return strata;
    }
    ghost var views := Views(strata);
    var recursiveMembers := CollectRecursiveMembers(strata);
    fused := FuseRuns(strata, recursiveMembers);
  }

  method FuseRuns(strata: seq<HirStratum>, recursiveMembers: set<string>) returns (fused: seq<HirStratum>)
    requires Distinct(strata)
    modifies strata
    ensures Views(fused) == FuseAll(old(Views(strata)), recursiveMembers)
    ensures forall s :: s in fused ==> s in strata
  {
    hide Absorb, Fusable, FuseAll;
    ghost var views := Views(strata);
    fused := [];
    ghost var out: seq<Stratum> := [];
    var i := 0;
    assert views[0..] == views;
    while i < |strata|
      invariant 0 <= i <= |strata|
      invariant forall k :: i <= k < |strata| ==> strata[k].View() == views[k]
      invariant forall m :: 0 <= m < |fused| ==> fused[m] in strata
      invariant forall m, k :: 0 <= m < |fused| && i <= k < |strata| ==> fused[m] != strata[k]
      invariant |out| == |fused| && forall m :: 0 <= m < |fused| ==> fused[m].View() == out[m]
      invariant FuseAll(views, recursiveMembers) == out + FuseAll(views[i..], recursiveMembers)
    {
      var current := strata[i];
      var j := i + 1;
      if Fusable(current.View(), recursiveMembers) {
        assert Views(strata)[i + 1..] == views[i + 1..];
        j := AbsorbFollowers(strata, i, recursiveMembers);
      }
      FuseStep(views, i, j, current.View(), recursiveMembers);
      fused := fused + [current];
      out := out + [current.View()];
      i := j;
    }
    FuseNothing(views, recursiveMembers);
  }

  lemma FuseNothing(views: seq<Stratum>, recursiveMembers: set<string>)
    ensures FuseAll(views[|views|..], recursiveMembers) == []
  {}

  lemma InitialAppend(groups: seq<set<string>>, rules: seq<Rule>, g: Graph, i: nat)
    requires i < |groups|
    ensures InitialStrata(groups[..i + 1], rules, g) ==
        InitialStrata(groups[..i], rules, g) + StrataFor(groups[i], rules, g)
  {
    hide StrataFor;
    assert groups[..i + 1][..i] == groups[..i];
  }

  method BuildStrata(groups: seq<set<string>>, rules: seq<Rule>, g: Graph) returns (strata: seq<HirStratum>)
    ensures fresh(strata) && Distinct(strata) && Views(strata) == InitialStrata(groups, rules, g)
  {
    strata := [];
    hide StrataFor;
    for i := 0 to |groups|
      invariant fresh(strata) && Distinct(strata)
      invariant Views(strata) == InitialStrata(groups[..i], rules, g)
    {
      InitialAppend(groups, rules, g, i);
      ghost var before := Views(strata);
      var more := StrataForGroup(groups[i], rules, g);
      assert Views(strata) == before;
      strata := strata + more;
      assert Views(strata) == before + Views(more);
    }
    assert groups[..|groups|] == groups;
  }

  lemma NothingRead(scc: set<string>)
    ensures Readers([], scc, false) == [] && Readers([], scc, true) == []
  {}

  method StrataForGroup(scc: set<string>, rules: seq<Rule>, g: Graph) returns (strata: seq<HirStratum>)
    ensures fresh(strata) && Distinct(strata) && Views(strata) == StrataFor(scc, rules, g)
  {
    hide RulesFor, IsRecursive, Readers;
    strata := [];
    var sccRules := RulesFor(rules, scc);
    NothingRead(scc);
    if sccRules == [] { return; }
    if IsRecursive(scc, g) {
      var base, rec := SplitBaseRec(sccRules, scc);
      if base != [] {
        var s := new HirStratum(scc, false, base);
        strata := strata + [s];
      }
      if rec != [] {
        var s := new HirStratum(scc, true, rec);
        strata := strata + [s];
      }
    } else {
      var s := new HirStratum(scc, false, sccRules);
      strata := strata + [s];
    }
  }

  method StratifyRules(rules: seq<Rule>)
    returns (strata: seq<HirStratum>, ghost groups: seq<set<string>>, ghost sccs: seq<set<string>>, ghost g: Graph)
    ensures fresh(strata) && IsDepGraph(rules, g)
    ensures Tarjan.IsComponentList(g, sccs) && Tarjan.Members(sccs) == g.Keys
    ensures MergedFrom(sccs, rules, groups) && IsGrouping(rules, g, groups)
    ensures HeadsTogether(sccs, rules) ==> groups == sccs
    ensures Views(strata) == FuseAll(InitialStrata(groups, rules, g), RecursiveMembers(InitialStrata(groups, rules, g)))
    ensures exists blocks :: IsFusion(InitialStrata(groups, rules, g), Views(strata), blocks)
  {
    hide Tarjan.IsComponentList, IsDepGraph, FuseAll, InitialStrata, RecursiveMembers, HeadsTogether, Grouped, IsLookup,
        HeadsJoined, LinksFromRules, RootsAreLinks, Views, Tarjan.Members, MergedFrom, IsGrouping, IsFusion;
    var graph := BuildDepGraph(rules);
    DepGraphIsGraph(rules, graph);
    var components := ComputeSccs(rules, graph);
    ComponentsDisjoint(graph, components);
    var merged, _, _, _ := MergeForMultiHead(components, rules);
    MergeIsGrouping(rules, graph, components, merged);
    var initial := BuildStrata(merged, rules, graph);
    strata := FuseIndependentStrata(initial);
    forall k | 0 <= k < |strata| ensures fresh(strata[k]) {
      assert strata[k] in strata;
      var i :| 0 <= i < |initial| && initial[i] == strata[k];
    }
    groups, sccs, g := merged, components, graph;
  }

  lemma DepGraphIsGraph(rules: seq<Rule>, g: Graph)
    requires IsDepGraph(rules, g)
    ensures IsGraph(g) && g.Keys == Idbs(rules)
  {}

  lemma ComponentsDisjoint(g: Graph, sccs: seq<set<string>>)
    requires Tarjan.IsComponentList(g, sccs)
    ensures Disjoint(sccs)
  {}
}
