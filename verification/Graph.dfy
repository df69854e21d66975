/** Directed graphs over relation names, and reachability stated through closed sets. */
module Graph {
  // dict[str, set[str]]: every node is a key.
  type Graph = map<string, set<string>>

  predicate IsGraph(g: Graph) {
    forall x :: x in g ==> g[x] <= g.Keys
  }

  predicate Edge(g: Graph, x: string, y: string) {
    x in g && y in g[x]
  }

  ghost predicate Closed(g: Graph, s: set<string>) {
    forall x, y {:trigger Edge(g, x, y)} :: x in s && Edge(g, x, y) ==> y in s
  }

  // y is reachable from x when no closed set separates them.
  ghost predicate Reach(g: Graph, x: string, y: string) {
    forall s: set<string> {:trigger Closed(g, s)} :: x in s && Closed(g, s) ==> y in s
  }

  ghost predicate Mutual(g: Graph, x: string, y: string) {
    Reach(g, x, y) && Reach(g, y, x)
  }

  lemma ReachRefl(g: Graph, x: string)
    ensures Reach(g, x, x)
  {}

  lemma ReachEdge(g: Graph, x: string, y: string)
    requires Edge(g, x, y)
    ensures Reach(g, x, y)
  {}

  lemma ReachTrans(g: Graph, x: string, y: string, z: string)
    requires Reach(g, x, y) && Reach(g, y, z)
    ensures Reach(g, x, z)
  {}

  // --- The usual definition: a path of edges ---

  predicate IsPath(g: Graph, p: seq<string>, x: string, y: string) {
    && |p| > 0 && p[0] == x && p[|p| - 1] == y
    && forall i :: 0 <= i < |p| - 1 ==> Edge(g, p[i], p[i + 1])
  }

  ghost predicate HasPath(g: Graph, x: string, y: string) {
    exists p :: IsPath(g, p, x, y)
  }

  lemma {:induction false} PathStaysInClosedSet(g: Graph, p: seq<string>, x: string, y: string, s: set<string>)
    requires IsPath(g, p, x, y) && x in s && Closed(g, s)
    ensures y in s
  {
    if |p| > 1 {
      assert Edge(g, p[0], p[1]);
      var tail := p[1..];
      forall i | 0 <= i < |tail| - 1 ensures Edge(g, tail[i], tail[i + 1]) {
        assert Edge(g, p[i + 1], p[i + 1 + 1]);
      }
      PathStaysInClosedSet(g, tail, p[1], y, s);
    }
  }

  // Reachability through closed sets is exactly the existence of a path.
  lemma ReachIffPath(g: Graph, x: string, y: string)
    requires IsGraph(g)
    ensures Reach(g, x, y) <==> HasPath(g, x, y)
  {
    if HasPath(g, x, y) {
      var p :| IsPath(g, p, x, y);
      forall s: set<string> | x in s && Closed(g, s) ensures y in s {
        PathStaysInClosedSet(g, p, x, y, s);
      }
    }
    if Reach(g, x, y) {
      var s := set z | z in g.Keys + {x} && HasPath(g, x, z);
      assert IsPath(g, [x], x, x);
      forall a, b | a in s && Edge(g, a, b) ensures b in s {
        var p :| IsPath(g, p, x, a);
        assert IsPath(g, p + [b], x, b);
      }
      assert Closed(g, s) && y in s;
    }
  }
}
