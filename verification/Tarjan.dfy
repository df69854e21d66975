/** Directed graphs over relation names, reachability, and Tarjan's strongly connected components: `_compute_sccs`.
    */
module Tarjan {
  import opened Graph
  import Names

  function Members(cs: seq<set<string>>): (s: set<string>)
    ensures forall x :: x in s <==> exists i :: 0 <= i < |cs| && x in cs[i]
  {
    set i, x | 0 <= i < |cs| && x in cs[i] :: x
  }

  // A whole mutual-reachability class.
  ghost predicate IsComponent(g: Graph, c: set<string>) {
    && c != {} && c <= g.Keys
    && forall x, y {:trigger Mutual(g, x, y)} :: x in c && y in g.Keys ==> (y in c <==> Mutual(g, x, y))
  }

  // Every edge out of a listed class ends in that class or an earlier one.
  ghost predicate DependenciesFirst(g: Graph, cs: seq<set<string>>) {
    forall i, x, y {:trigger cs[i], Edge(g, x, y)} ::
        0 <= i < |cs| && x in cs[i] && Edge(g, x, y) ==> y in Members(cs[..i + 1])
  }

  ghost predicate IsComponentList(g: Graph, cs: seq<set<string>>) {
    && (forall i :: 0 <= i < |cs| ==> IsComponent(g, cs[i]))
    && (forall i, j :: 0 <= i < j < |cs| ==> cs[i] !! cs[j])
    && DependenciesFirst(g, cs)
  }

  // --- The invariant of the search ---

  ghost predicate OnStack(index: map<string, nat>, counter: nat, stack: seq<string>) {
    && (forall x :: x in index ==> index[x] < counter)
    && (forall i :: 0 <= i < |stack| ==> stack[i] in index)
    && (forall i, j :: 0 <= i < j < |stack| ==> index[stack[i]] < index[stack[j]])
  }

  // y reaches a node still being explored that was numbered no later than y.
  ghost predicate ReachesActive(g: Graph, index: map<string, nat>, active: set<string>, y: string) {
    exists x :: x in active && x in index && y in index && index[x] <= index[y] && Reach(g, y, x)
  }

  // Every visited node waits on the stack or sits in a finished class, not both.
  ghost predicate Placed(index: map<string, nat>, stack: seq<string>, sccs: seq<set<string>>) {
    && Members(sccs) <= index.Keys
    && forall x :: x in index ==> (x in stack <==> x !in Members(sccs))
  }

  ghost predicate Explored(g: Graph, index: map<string, nat>, active: set<string>) {
    && IsGraph(g) && index.Keys <= g.Keys
    && forall x :: x in index && x !in active ==> g[x] <= index.Keys
  }

  // A lower stack node reaches every higher one.
  ghost predicate Chained(g: Graph, stack: seq<string>) {
    forall i, j {:trigger Reach(g, stack[i], stack[j])} :: 0 <= i <= j < |stack| ==> Reach(g, stack[i], stack[j])
  }

  ghost predicate Anchored(g: Graph, index: map<string, nat>, stack: seq<string>, active: set<string>) {
    && (forall x :: x in active ==> x in stack)
    && (forall y {:trigger ReachesActive(g, index, active, y)} :: y in stack ==> ReachesActive(g, index, active, y))
  }

  ghost predicate Inv(g: Graph, index: map<string, nat>, counter: nat, stack: seq<string>,
                      sccs: seq<set<string>>, active: set<string>) {
    && OnStack(index, counter, stack)
    && Placed(index, stack, sccs)
    && Explored(g, index, active)
    && Chained(g, stack)
    && Anchored(g, index, stack, active)
    && IsComponentList(g, sccs)
  }

  // No edge out of stack[p..] leads to a stack node numbered below low; of stack[p]'s own edges only those in done
  // count.
  ghost predicate NoEdgeBelow(g: Graph, index: map<string, nat>, stack: seq<string>, p: nat, done: set<string>,
                              low: nat) {
    forall k, y {:trigger Edge(g, stack[k], y)} ::
      p <= k < |stack| && Edge(g, stack[k], y) && (k == p ==> y in done) && y in stack && y in index ==>
        index[y] >= low
  }

  // low is the number of a stack node that v reaches.
  ghost predicate LowReached(g: Graph, index: map<string, nat>, stack: seq<string>, v: string, low: nat) {
    exists y :: y in stack && y in index && index[y] == low && Reach(g, v, y)
  }

  // The state when stack[p] = v has been explored and nothing above p escapes below v.
  ghost predicate ReadyToPop(g: Graph, index: map<string, nat>, counter: nat, stack: seq<string>,
                             sccs: seq<set<string>>, active: set<string>, p: nat) {
    && p < |stack|
    && Inv(g, index, counter, stack, sccs, active + {stack[p]})
    && (forall x :: x in active ==> x in stack[..p])
    && g[stack[p]] <= index.Keys
    && NoEdgeBelow(g, index, stack, p, g[stack[p]], index[stack[p]])
  }

  ghost function Elements(s: seq<string>): set<string> {
    set x | x in s
  }

  lemma AboveIsNotBelow(index: map<string, nat>, counter: nat, stack: seq<string>, p: nat, x: string)
    requires OnStack(index, counter, stack) && p <= |stack|
    ensures x in stack[p..] ==> x !in stack[..p]
  {}

  lemma PoppedEdgesStayInside(g: Graph, index: map<string, nat>, counter: nat, stack: seq<string>,
                              sccs: seq<set<string>>, active: set<string>, p: nat, x: string, y: string)
    requires ReadyToPop(g, index, counter, stack, sccs, active, p)
    requires x in stack[p..] && Edge(g, x, y)
    ensures y in stack[p..] || y in Members(sccs)
  {
    hide Members;
    AboveIsNotBelow(index, counter, stack, p, x);
    var k :| p <= k < |stack| && stack[k] == x;
    assert y in index;
    if y in stack {
      var j :| 0 <= j < |stack| && stack[j] == y;
      assert Edge(g, stack[k], y);
      assert j >= p;
      assert stack[p..][j - p] == y;
    }
  }

  lemma PoppedClosed(g: Graph, index: map<string, nat>, counter: nat, stack: seq<string>,
                     sccs: seq<set<string>>, active: set<string>, p: nat)
    requires ReadyToPop(g, index, counter, stack, sccs, active, p)
    ensures Closed(g, Members(sccs))
    ensures Closed(g, Elements(stack[p..]) + Members(sccs))
  {
    hide Members, Edge;
    forall x, y | x in Members(sccs) && Edge(g, x, y) ensures y in Members(sccs) {
      var i :| 0 <= i < |sccs| && x in sccs[i];
      assert y in Members(sccs[..i + 1]);
    }
    forall x, y | x in Elements(stack[p..]) + Members(sccs) && Edge(g, x, y)
      ensures y in Elements(stack[p..]) + Members(sccs)
    {
      if x in stack[p..] {
        PoppedEdgesStayInside(g, index, counter, stack, sccs, active, p, x, y);
      }
    }
  }

  // Whatever stays above v on the stack is mutually reachable with v.
  lemma PoppedReachesBack(g: Graph, index: map<string, nat>, counter: nat, stack: seq<string>,
                          sccs: seq<set<string>>, active: set<string>, p: nat, x: string)
    requires ReadyToPop(g, index, counter, stack, sccs, active, p)
    requires x in stack[p..]
    ensures Mutual(g, stack[p], x) && x !in Members(sccs) && x in g.Keys
  {
    hide OnStack, Members;
    var v, c := stack[p], Elements(stack[p..]);
    var k :| p <= k < |stack| && stack[k] == x;
    assert Reach(g, stack[p], stack[k]);
    assert ReachesActive(g, index, active + {v}, x);
    var a :| a in active + {v} && a in index && index[a] <= index[x] && Reach(g, x, a);
    PoppedClosed(g, index, counter, stack, sccs, active, p);
    assert a in c + Members(sccs);
    assert a in stack;
    AboveIsNotBelow(index, counter, stack, p, a);
  }

  lemma PoppedIsComponent(g: Graph, index: map<string, nat>, counter: nat, stack: seq<string>,
                          sccs: seq<set<string>>, active: set<string>, p: nat)
    requires ReadyToPop(g, index, counter, stack, sccs, active, p)
    ensures IsComponent(g, Elements(stack[p..]))
  {
    hide Members;
    var v, c := stack[p], Elements(stack[p..]);
    assert v in c by { assert stack[p..][0] == v; }
    forall x | x in c ensures Mutual(g, v, x) && x !in Members(sccs) && x in g.Keys {
      PoppedReachesBack(g, index, counter, stack, sccs, active, p, x);
    }
    PoppedClosed(g, index, counter, stack, sccs, active, p);
    forall x, y | x in c && y in g.Keys ensures y in c <==> Mutual(g, x, y) {
      if y in c {
        ReachTrans(g, x, v, y);
        ReachTrans(g, y, v, x);
      }
    }
  }

  lemma ListAppend(g: Graph, cs: seq<set<string>>, c: set<string>)
    requires IsComponentList(g, cs) && IsComponent(g, c) && c !! Members(cs)
    requires forall x, y {:trigger Edge(g, x, y)} :: x in c && Edge(g, x, y) ==> y in c || y in Members(cs)
    ensures IsComponentList(g, cs + [c])
  {
    var all := cs + [c];
    MembersAppend(cs, c);
    forall i, x, y | 0 <= i < |all| && x in all[i] && Edge(g, x, y) ensures y in Members(all[..i + 1]) {
      if i < |cs| {
        assert x in cs[i];
        assert all[..i + 1] == cs[..i + 1];
      } else {
        assert all[..i + 1] == all;
      }
    }
    forall i, j | 0 <= i < j < |all| ensures all[i] !! all[j] {
      if j == |cs| {
        assert forall x :: x in all[i] ==> x in Members(cs);
      }
    }
  }

  lemma MembersAppend(cs: seq<set<string>>, c: set<string>)
    ensures Members(cs + [c]) == Members(cs) + c
  {
    var all := cs + [c];
    forall x | x in Members(cs) + c ensures x in Members(all) {
      if x in c {
        assert x in all[|cs|];
      } else {
        var i :| 0 <= i < |cs| && x in cs[i];
        assert x in all[i];
      }
    }
  }

  lemma PopKeepsAnchors(g: Graph, index: map<string, nat>, counter: nat, stack: seq<string>,
                        sccs: seq<set<string>>, active: set<string>, p: nat)
    requires ReadyToPop(g, index, counter, stack, sccs, active, p)
    ensures Anchored(g, index, stack[..p], active)
    ensures Chained(g, stack[..p])
  {
    forall y | y in stack[..p] ensures ReachesActive(g, index, active, y) {
      var i :| 0 <= i < p && stack[i] == y;
      assert ReachesActive(g, index, active + {stack[p]}, y);
      assert index[stack[i]] < index[stack[p]];
    }
    forall i, j | 0 <= i <= j < p ensures Reach(g, stack[..p][i], stack[..p][j]) {
      assert Reach(g, stack[i], stack[j]);
    }
  }

  lemma PopKeepsPlaces(index: map<string, nat>, counter: nat, stack: seq<string>, sccs: seq<set<string>>, p: nat)
    requires OnStack(index, counter, stack) && Placed(index, stack, sccs) && p <= |stack|
    ensures OnStack(index, counter, stack[..p])
    ensures Placed(index, stack[..p], sccs + [Elements(stack[p..])])
    ensures Elements(stack[p..]) !! Members(sccs)
  {
    hide Members;
    var c := Elements(stack[p..]);
    MembersAppend(sccs, c);
    forall x ensures x in stack <==> x in stack[..p] || x in c {
      assert stack == stack[..p] + stack[p..];
    }
    forall x | x in c ensures x !in stack[..p] {
      AboveIsNotBelow(index, counter, stack, p, x);
    }
  }

  // Popping the stack down to v appends v's whole class and restores the invariant without v.
  lemma PopKeepsInv(g: Graph, index: map<string, nat>, counter: nat, stack: seq<string>,
                    sccs: seq<set<string>>, active: set<string>, p: nat)
    requires ReadyToPop(g, index, counter, stack, sccs, active, p)
    ensures Inv(g, index, counter, stack[..p], sccs + [Elements(stack[p..])], active)
  {
    hide OnStack, Placed, IsComponentList, Members, IsComponent, Edge, Anchored, Chained;
    var c := Elements(stack[p..]);
    forall x, y | x in c && Edge(g, x, y) ensures y in c || y in Members(sccs) {
      PoppedEdgesStayInside(g, index, counter, stack, sccs, active, p, x, y);
    }
    PopKeepsPlaces(index, counter, stack, sccs, p);
    PoppedIsComponent(g, index, counter, stack, sccs, active, p);
    ListAppend(g, sccs, c);
    PopKeepsAnchors(g, index, counter, stack, sccs, active, p);
  }

  // --- Numbering a node, and leaving it on the stack ---

  lemma PushKeepsPlaces(index: map<string, nat>, counter: nat, stack: seq<string>, sccs: seq<set<string>>, v: string)
    requires OnStack(index, counter, stack) && Placed(index, stack, sccs) && v !in index
    ensures OnStack(index[v := counter], counter + 1, stack + [v])
    ensures Placed(index[v := counter], stack + [v], sccs)
  {}

  lemma PushKeepsAnchors(g: Graph, index: map<string, nat>, counter: nat, stack: seq<string>,
                         active: set<string>, v: string)
    requires OnStack(index, counter, stack) && v !in index
    requires Chained(g, stack) && Anchored(g, index, stack, active)
    requires forall a :: a in active ==> Reach(g, a, v)
    ensures Chained(g, stack + [v])
    ensures Anchored(g, index[v := counter], stack + [v], active + {v})
  {
    ReachRefl(g, v);
    forall y | y in stack ensures Reach(g, y, v) && ReachesActive(g, index[v := counter], active + {v}, y) {
      assert ReachesActive(g, index, active, y);
      var a :| a in active && a in index && index[a] <= index[y] && Reach(g, y, a);
      ReachTrans(g, y, a, v);
    }
    var all := stack + [v];
    forall i, j | 0 <= i <= j < |all| ensures Reach(g, all[i], all[j]) {
      if j < |stack| {
        assert Reach(g, stack[i], stack[j]);
      } else if i < |stack| {
        assert stack[i] in stack;
      }
    }
    assert ReachesActive(g, index[v := counter], active + {v}, v);
  }

  lemma PushKeepsInv(g: Graph, index: map<string, nat>, counter: nat, stack: seq<string>,
                     sccs: seq<set<string>>, active: set<string>, v: string)
    requires Inv(g, index, counter, stack, sccs, active)
    requires v in g && v !in index && forall a :: a in active ==> Reach(g, a, v)
    ensures Inv(g, index[v := counter], counter + 1, stack + [v], sccs, active + {v})
  {
    PushKeepsPlaces(index, counter, stack, sccs, v);
    PushKeepsAnchors(g, index, counter, stack, active, v);
  }

  lemma LeaveReachesActive(g: Graph, index: map<string, nat>, stack: seq<string>, active: set<string>,
                           v: string, low: nat, y: string)
    requires Anchored(g, index, stack, active + {v})
    requires v in index && low < index[v] && LowReached(g, index, stack, v, low)
    requires y in stack
    ensures ReachesActive(g, index, active, y)
  {
    assert ReachesActive(g, index, active + {v}, y);
    var a :| a in active + {v} && a in index && y in index && index[a] <= index[y] && Reach(g, y, a);
    if a == v {
      var z :| z in stack && z in index && index[z] == low && Reach(g, v, z);
      assert ReachesActive(g, index, active + {v}, z);
      var b :| b in active + {v} && b in index && index[b] <= index[z] && Reach(g, z, b);
      ReachTrans(g, y, v, z);
      ReachTrans(g, y, z, b);
    }
  }

  lemma LeaveKeepsAnchors(g: Graph, index: map<string, nat>, stack: seq<string>, active: set<string>, v: string,
                          low: nat)
    requires Anchored(g, index, stack, active + {v})
    requires v in index && low < index[v] && LowReached(g, index, stack, v, low)
    ensures Anchored(g, index, stack, active)
  {
    hide ReachesActive, LowReached;
    forall y | y in stack ensures ReachesActive(g, index, active, y) {
      LeaveReachesActive(g, index, stack, active, v, low, y);
    }
  }

  // A fully explored v that reaches below itself may stay on the stack unanchored by itself.
  lemma LeaveKeepsInv(g: Graph, index: map<string, nat>, counter: nat, stack: seq<string>,
                      sccs: seq<set<string>>, active: set<string>, v: string, low: nat)
    requires Inv(g, index, counter, stack, sccs, active + {v})
    requires v in index && g[v] <= index.Keys
    requires low < index[v] && LowReached(g, index, stack, v, low)
    ensures Inv(g, index, counter, stack, sccs, active)
  {
    LeaveKeepsAnchors(g, index, stack, active, v, low);
  }

  // --- The loop over v's successors ---

  ghost predicate Exploring(g: Graph, index: map<string, nat>, counter: nat, stack: seq<string>, sccs: seq<set<string>>,
                            active: set<string>, p: nat, done: set<string>, low: nat) {
    && p < |stack|
    && Inv(g, index, counter, stack, sccs, active + {stack[p]})
    && (forall x :: x in active ==> x in stack[..p])
    && done <= index.Keys && low <= index[stack[p]]
    && LowReached(g, index, stack, stack[p], low)
    && NoEdgeBelow(g, index, stack, p, done, low)
  }

  // Older numbers stay; newer nodes get larger ones.
  ghost predicate Renumbered(index: map<string, nat>, counter: nat, index': map<string, nat>, counter': nat) {
    && counter <= counter'
    && (forall x :: x in index ==> x in index' && index'[x] == index[x])
    && (forall x :: x in index' && x !in index ==> index'[x] >= counter)
  }

  // What exploring w from a state leaves behind: older entries are untouched, and w either left with its
  // whole class or stays on the stack as the root of a part with no edge below low.
  ghost predicate Explored1(g: Graph, index: map<string, nat>, counter: nat, stack: seq<string>,
                            index': map<string, nat>, counter': nat, stack': seq<string>, w: string, low: nat) {
    && w in g && w in index' && index'[w] == counter && low <= index'[w]
    && Renumbered(index, counter, index', counter')
    && stack <= stack'
    && (w !in stack' ==> stack' == stack && low == index'[w])
    && (w in stack' ==>
    && |stack| < |stack'| && stack'[|stack|] == w && low < index'[w]
    && LowReached(g, index', stack', w, low)
    && NoEdgeBelow(g, index', stack', |stack|, g[w], low))
  }

  function Min(a: nat, b: nat): nat {
    if a < b then a else b
  }

  lemma SeenSuccessor(g: Graph, index: map<string, nat>, counter: nat, stack: seq<string>, sccs: seq<set<string>>,
                      active: set<string>, p: nat, done: set<string>, low: nat, w: string)
    requires Exploring(g, index, counter, stack, sccs, active, p, done, low)
    requires Edge(g, stack[p], w) && w in index
    ensures Exploring(g, index, counter, stack, sccs, active, p, done + {w},
                      if w in stack then Min(low, index[w]) else low)
  {
    ReachEdge(g, stack[p], w);
  }

  lemma NoEdgeBelowGrows(g: Graph, index: map<string, nat>, counter: nat, stack: seq<string>,
                         index': map<string, nat>, counter': nat, stack': seq<string>,
                         p: nat, done: set<string>, low: nat, w: string, low': nat)
    requires OnStack(index, counter, stack) && OnStack(index', counter', stack')
    requires Explored1(g, index, counter, stack, index', counter', stack', w, low')
    requires p < |stack| && low <= index[stack[p]] && NoEdgeBelow(g, index, stack, p, done, low) && w !in stack
    ensures NoEdgeBelow(g, index', stack', p, done + {w}, Min(low, low'))
  {
    forall k, y | p <= k < |stack'| && Edge(g, stack'[k], y) && (k == p ==> y in done + {w}) && y in stack'
        && y in index'
      ensures index'[y] >= Min(low, low')
    {
      if k < |stack| {
        assert stack'[k] == stack[k];
        assert Edge(g, stack[k], y);
        if y in index {
          assert y in stack by { StackGrows(index, counter, stack, index', stack', counter', y, w, low', g); }
          if k == p { assert y in done; }
        } else {
          assert index'[y] >= counter > index[stack[p]];
        }
      } else {
        assert w in stack';
      }
    }
  }

  lemma StackGrows(index: map<string, nat>, counter: nat, stack: seq<string>,
                   index': map<string, nat>, stack': seq<string>, counter': nat, y: string, w: string, low: nat,
                       g: Graph)
    requires OnStack(index, counter, stack) && OnStack(index', counter', stack')
    requires Explored1(g, index, counter, stack, index', counter', stack', w, low)
    requires y in stack' && y in index
    ensures y in stack
  {
    var k :| 0 <= k < |stack'| && stack'[k] == y;
    assert k < |stack|;
    assert stack[k] == y;
  }

  lemma NewSuccessor(g: Graph, index: map<string, nat>, counter: nat, stack: seq<string>, sccs: seq<set<string>>,
                     active: set<string>, p: nat, done: set<string>, low: nat, w: string,
                     index': map<string, nat>, counter': nat, stack': seq<string>, sccs': seq<set<string>>, low': nat)
    requires Exploring(g, index, counter, stack, sccs, active, p, done, low)
    requires Edge(g, stack[p], w) && w !in index
    requires Inv(g, index', counter', stack', sccs', active + {stack[p]})
    requires Explored1(g, index, counter, stack, index', counter', stack', w, low')
    ensures Exploring(g, index', counter', stack', sccs', active, p, done + {w}, Min(low, low'))
  {
    var v := stack[p];
    ReachEdge(g, v, w);
    NoEdgeBelowGrows(g, index, counter, stack, index', counter', stack', p, done, low, w, low');
    assert stack'[..p] == stack[..p];
    assert LowReached(g, index', stack', v, Min(low, low')) by {
      if low <= low' {
        var y :| y in stack && y in index && index[y] == low && Reach(g, v, y);
        assert y in stack' && index'[y] == low;
      } else {
        var y :| y in stack' && y in index' && index'[y] == low' && Reach(g, w, y);
        ReachTrans(g, v, w, y);
      }
    }
  }

  // Every node being explored reaches the newest of them.
  lemma ActiveReaches(g: Graph, index: map<string, nat>, counter: nat, stack: seq<string>, sccs: seq<set<string>>,
                      active: set<string>, p: nat, done: set<string>, low: nat, a: string)
    requires Exploring(g, index, counter, stack, sccs, active, p, done, low)
    requires a in active + {stack[p]}
    ensures Reach(g, a, stack[p])
  {
    if a in active {
      var i :| 0 <= i < p && stack[i] == a;
      assert Reach(g, stack[i], stack[p]);
    } else {
      ReachRefl(g, a);
    }
  }

  // Numbering v, following all its successors and finishing it adds up to exploring v.
  lemma ExploredInAll(g: Graph, index: map<string, nat>, counter: nat, stack: seq<string>, v: string,
                      index': map<string, nat>, counter': nat, stack': seq<string>, sccs': seq<set<string>>,
                      active: set<string>, low: nat, final: seq<string>)
    requires OnStack(index, counter, stack) && v in g && v !in index
    requires Renumbered(index[v := counter], counter + 1, index', counter') && stack + [v] <= stack'
    requires Exploring(g, index', counter', stack', sccs', active, |stack|, g[v], low)
    requires final == if low == index'[v] then stack else stack'
    ensures Explored1(g, index, counter, stack, index', counter', final, v, low)
  {
    hide IsComponentList, Chained, Anchored, Explored, Placed;
    assert stack'[|stack|] == v;
    assert v !in stack;
  }

  // With every node visited and none active, the classes cover the graph.
  lemma AllVisited(g: Graph, index: map<string, nat>, counter: nat, stack: seq<string>, sccs: seq<set<string>>)
    requires Inv(g, index, counter, stack, sccs, {}) && g.Keys <= index.Keys
    ensures IsComponentList(g, sccs) && Members(sccs) == g.Keys
  {
    hide IsComponentList, Chained, OnStack;
    forall x | x in g ensures x in Members(sccs) {
      assert !ReachesActive(g, index, {}, x);
    }
  }

  /** The search state; the fields are the closure variables of the source. */
  class Search {
    const graph: Graph
    var index: map<string, nat>
    var lowlink: map<string, nat>
    var onStack: set<string>
    var stack: seq<string>
    var counter: nat
    var sccs: seq<set<string>>

    ghost predicate Valid(active: set<string>)
      reads this
    {
      && Inv(graph, index, counter, stack, sccs, active)
      && lowlink.Keys == index.Keys
      && onStack == Elements(stack)
    }

    constructor (g: Graph)
      requires IsGraph(g)
      ensures Valid({}) && graph == g
      ensures index == map[] && sccs == []
    {
      graph, index, lowlink, onStack, stack, counter, sccs := g, map[], map[], {}, [], 0, [];
    }

    // The loop that takes v's class off the stack.
    method PopComponent(v: string, ghost p: nat)
      requires p < |stack| && stack[p] == v && onStack == Elements(stack)
      requires OnStack(index, counter, stack)
      modifies `stack, `onStack, `sccs
      ensures stack == old(stack)[..p] && onStack == Elements(stack)
      ensures sccs == old(sccs) + [Elements(old(stack)[p..])]
    {
      ghost var full := stack;
      var component: set<string> := {};
      ghost var m := |stack|;
      while true
        invariant p < m <= |full| && stack == full[..m] && onStack == Elements(stack)
        invariant component == Elements(full[m..]) && sccs == old(sccs)
        decreases m
      {
        var w := stack[|stack| - 1];
        stack := stack[..|stack| - 1];
        m := m - 1;
        assert full[..m + 1] == full[..m] + [w] && full[m..] == [w] + full[m + 1..];
        onStack := onStack - {w};
        component := component + {w};
        assert component == Elements(full[m..]);
        if w == v { break; }
      }
      assert m == p;
      sccs := sccs + [component];
    }

    method StrongConnect(v: string, ghost active: set<string>)
      requires Valid(active) && v in graph && v !in index
      requires forall a :: a in active ==> Reach(graph, a, v)
      modifies this
      decreases graph.Keys - index.Keys, 0
      ensures Valid(active)
      ensures v in lowlink
      ensures Explored1(graph, old(index), old(counter), old(stack), index, counter, stack, v, lowlink[v])
      ensures old(index).Keys <= index.Keys && v in index
      ensures forall x :: x in old(lowlink) ==> x in lowlink && lowlink[x] == old(lowlink)[x]
      ensures old(sccs) <= sccs
    {
      hide IsComponentList, Chained, Anchored, Explored, Placed, Explored1, Exploring, Renumbered;
      ghost var p := |stack|;
      Number(v, active);
      FollowAll(v, active, p);
      ghost var stack1 := stack;
      ghost var sccs1 := sccs;
      Finish(v, active, p);
      assert stack1[..p] == old(stack);
      ExploredInAll(graph, old(index), old(counter), old(stack), v, index, counter, stack1, sccs1, active, lowlink[v],
                    stack);
    }

    // The loop over v's successors, in sorted order.
    method FollowAll(v: string, ghost active: set<string>, ghost p: nat)
      requires Valid(active + {v}) && p < |stack| && stack[p] == v && v in lowlink && v in graph
      requires Exploring(graph, index, counter, stack, sccs, active, p, {}, lowlink[v])
      modifies this
      decreases graph.Keys - index.Keys, 3
      ensures Valid(active + {v}) && old(stack) <= stack && v in lowlink
      ensures Exploring(graph, index, counter, stack, sccs, active, p, graph[v], lowlink[v])
      ensures Renumbered(old(index), old(counter), index, counter)
      ensures forall x :: x in old(lowlink) && x != v ==> x in lowlink && lowlink[x] == old(lowlink)[x]
      ensures old(sccs) <= sccs
    {
      hide Inv, NoEdgeBelow, LowReached;
      var ws := Names.SortNames(graph[v]);
      assert Elements(ws[..0]) == {};
      for i := 0 to |ws|
        invariant Valid(active + {v}) && old(stack) <= stack && v in lowlink
        invariant Exploring(graph, index, counter, stack, sccs, active, p, Elements(ws[..i]), lowlink[v])
        invariant Renumbered(old(index), old(counter), index, counter)
        invariant forall x :: x in old(lowlink) && x != v ==> x in lowlink && lowlink[x] == old(lowlink)[x]
        invariant old(sccs) <= sccs
      {
        assert Elements(ws[..i + 1]) == Elements(ws[..i]) + {ws[i]};
        Follow(v, ws[i], active, p, Elements(ws[..i]));
      }
      assert Elements(ws[..|ws|]) == graph[v];
    }

    // Gives v its number and puts it on the stack.
    method Number(v: string, ghost active: set<string>)
      requires Valid(active) && v in graph && v !in index
      requires forall a :: a in active ==> Reach(graph, a, v)
      modifies this
      ensures Valid(active + {v})
      ensures index == old(index)[v := old(counter)] && lowlink == old(lowlink)[v := old(counter)]
      ensures counter == old(counter) + 1 && stack == old(stack) + [v] && sccs == old(sccs)
      ensures Exploring(graph, index, counter, stack, sccs, active, |old(stack)|, {}, lowlink[v])
    {
      PushKeepsInv(graph, index, counter, stack, sccs, active, v);
      index := index[v := counter];
      lowlink := lowlink[v := counter];
      counter := counter + 1;
      stack := stack + [v];
      onStack := onStack + {v};
    }

    // One turn of the loop over v's successors.
    method Follow(v: string, w: string, ghost active: set<string>, ghost p: nat, ghost done: set<string>)
      requires Valid(active + {v}) && p < |stack| && stack[p] == v && v in lowlink && Edge(graph, v, w)
      requires Exploring(graph, index, counter, stack, sccs, active, p, done, lowlink[v])
      modifies this
      decreases graph.Keys - index.Keys, 2
      ensures Valid(active + {v}) && old(stack) <= stack && v in lowlink
      ensures Exploring(graph, index, counter, stack, sccs, active, p, done + {w}, lowlink[v])
      ensures Renumbered(old(index), old(counter), index, counter)
      ensures forall x :: x in old(lowlink) && x != v ==> x in lowlink && lowlink[x] == old(lowlink)[x]
      ensures old(sccs) <= sccs
    {
      if w !in index {
        Descend(v, w, active, p, done);
      } else {
        SeenSuccessor(graph, index, counter, stack, sccs, active, p, done, lowlink[v], w);
        if w in onStack {
          lowlink := lowlink[v := Min(lowlink[v], index[w])];
        }
      }
    }

    // The turn for a successor not seen before.
    method Descend(v: string, w: string, ghost active: set<string>, ghost p: nat, ghost done: set<string>)
      requires Valid(active + {v}) && p < |stack| && stack[p] == v && v in lowlink && Edge(graph, v, w)
      requires Exploring(graph, index, counter, stack, sccs, active, p, done, lowlink[v])
      requires w !in index
      modifies this
      decreases graph.Keys - index.Keys, 1
      ensures Valid(active + {v}) && old(stack) <= stack && v in lowlink
      ensures Exploring(graph, index, counter, stack, sccs, active, p, done + {w}, lowlink[v])
      ensures Renumbered(old(index), old(counter), index, counter)
      ensures forall x :: x in old(lowlink) && x != v ==> x in lowlink && lowlink[x] == old(lowlink)[x]
      ensures old(sccs) <= sccs
    {
      hide IsComponentList, Chained, Anchored, Placed, NoEdgeBelow, LowReached;
      ReachEdge(graph, v, w);
      forall a | a in active + {v} ensures Reach(graph, a, w) {
        ActiveReaches(graph, index, counter, stack, sccs, active, p, done, lowlink[v], a);
        ReachTrans(graph, a, v, w);
      }
      StrongConnect(w, active + {v});
      NewSuccessor(graph, old(index), old(counter), old(stack), old(sccs), active, p, done, old(lowlink)[v], w,
                   index, counter, stack, sccs, lowlink[w]);
      lowlink := lowlink[v := Min(lowlink[v], lowlink[w])];
    }

    // Pops v's class when v is its root, and leaves v on the stack otherwise.
    method Finish(v: string, ghost active: set<string>, ghost p: nat)
      requires Valid(active + {v}) && p < |stack| && stack[p] == v && v in lowlink && v in graph
      requires Exploring(graph, index, counter, stack, sccs, active, p, graph[v], lowlink[v])
      modifies `stack, `onStack, `sccs
      ensures Valid(active) && old(sccs) <= sccs
      ensures lowlink[v] <= index[v]
      ensures lowlink[v] == index[v] ==> stack == old(stack)[..p]
      ensures lowlink[v] < index[v] ==> stack == old(stack)
    {
      if lowlink[v] == index[v] {
        PopKeepsInv(graph, index, counter, stack, sccs, active, p);
        PopComponent(v, p);
      } else {
        LeaveKeepsInv(graph, index, counter, stack, sccs, active, v, lowlink[v]);
      }
    }
  }
}
