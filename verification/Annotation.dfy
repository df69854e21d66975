/** The annotation callback: for one grounding, the witness pair with the greatest lower bound, the first one among
    equals. */
module Annotation {
  datatype Interval = Interval(lower: real, upper: real)

  datatype Option<T> = None | Some(value: T)

  // The callback's arguments, clause by clause; nodes are interned, weights are unused.
  datatype Call = Call(labels: seq<string>, vars: seq<seq<string>>, edges: seq<seq<(int, int)>>,
                       notes: seq<seq<Interval>>)

  ghost predicate Shaped(c: Call) {
    && |c.labels| == |c.vars| == |c.edges| == |c.notes|
    && forall i :: 0 <= i < |c.labels| ==> |c.notes[i]| >= |c.edges[i]|
  }

  // --- Which clause plays which part ---

  datatype Role = Driver | Cause | Effect

  predicate IsLabel(c: Call, i: nat)
    requires |c.labels| == |c.vars| && i < |c.labels|
  {
    c.labels[i] == "hasLabel" && |c.vars[i]| == 2
  }

  predicate IsHeadVar(v: string) {
    v == "CB1" || v == "CB2"
  }

  predicate HasRole(c: Call, i: nat, role: Role)
    requires |c.labels| == |c.vars| && i < |c.labels|
  {
    match role
    case Cause => IsLabel(c, i) && c.vars[i][0] == "CB1"
    case Effect => IsLabel(c, i) && c.vars[i][0] == "CB2"
    case Driver => && !IsLabel(c, i) && c.labels[i] != "analystAt" && c.labels[i] != "stepFrom"
                   && |c.vars[i]| == 2 && !IsHeadVar(c.vars[i][0]) && !IsHeadVar(c.vars[i][1])
  }

  // i is the last clause before n with the role, or -1.
  ghost predicate IsLast(c: Call, role: Role, n: nat, i: int)
    requires |c.labels| == |c.vars| && n <= |c.labels|
  {
    && -1 <= i < n && (i >= 0 ==> HasRole(c, i, role))
    && forall j :: 0 <= j < n && j > i ==> !HasRole(c, j, role)
  }

  method FindRoles(c: Call) returns (driver: int, cause: int, effect: int)
    requires |c.labels| == |c.vars|
    ensures IsLast(c, Driver, |c.labels|, driver) && IsLast(c, Cause, |c.labels|, cause)
    ensures IsLast(c, Effect, |c.labels|, effect)
  {
    driver, cause, effect := -1, -1, -1;
    for i := 0 to |c.labels|
      invariant IsLast(c, Driver, i, driver) && IsLast(c, Cause, i, cause) && IsLast(c, Effect, i, effect)
    {
      var name, cv := c.labels[i], c.vars[i];
      if name == "hasLabel" && |cv| == 2 {
        if cv[0] == "CB1" {
          cause := i;
        } else if cv[0] == "CB2" {
          effect := i;
        }
      } else if name != "analystAt" && name != "stepFrom" {
        if |cv| == 2 && !IsHeadVar(cv[0]) && !IsHeadVar(cv[1]) {
          driver := i;
        }
      }
    }
  }

  // --- The witnesses ---

  function FirstTo(edges: seq<(int, int)>, node: int, k: nat): (r: nat)
    requires k <= |edges|
    ensures k <= r <= |edges| && (r < |edges| ==> edges[r].1 == node) && forall j :: k <= j < r ==> edges[j].1 != node
    decreases |edges| - k
  {
    if k == |edges| || edges[k].1 == node then k else FirstTo(edges, node, k + 1)
  }

  // The bounds of the first edge into node, or the sentinel.
  function Bounds(edges: seq<(int, int)>, notes: seq<Interval>, node: int): Interval
    requires |notes| >= |edges|
  {
    var k := FirstTo(edges, node, 0);
    if k < |edges| then notes[k] else Interval(-1.0, -1.0)
  }

  function Min(a: real, b: real): real {
    if b < a then b else a
  }

  function Meet(x: Interval, y: Interval, z: Interval): Interval {
    Interval(Min(Min(x.lower, y.lower), z.lower), Min(Min(x.upper, y.upper), z.upper))
  }

  datatype Parts = Parts(driver: nat, cause: nat, effect: nat)

  ghost predicate PartsOf(c: Call, p: Parts) {
    Shaped(c) && p.driver < |c.labels| && p.cause < |c.labels| && p.effect < |c.labels|
  }

  // What the pair at driver edge ci offers, if both its labels are bounded.
  ghost function Offer(c: Call, p: Parts, ci: nat): Option<Interval>
    requires PartsOf(c, p) && ci < |c.edges[p.driver]|
  {
    var x := Bounds(c.edges[p.cause], c.notes[p.cause], c.edges[p.driver][ci].0);
    var y := Bounds(c.edges[p.effect], c.notes[p.effect], c.edges[p.driver][ci].1);
    if x.lower < 0.0 || y.lower < 0.0 then None else Some(Meet(x, y, c.notes[p.driver][ci]))
  }

  ghost predicate NoOffer(c: Call, p: Parts, n: nat)
    requires PartsOf(c, p) && n <= |c.edges[p.driver]|
  {
    forall ci :: 0 <= ci < n ==> Offer(c, p, ci).None?
  }

  // Among the first n pairs, pair w has the greatest lower bound, and no earlier pair has as great a one.
  ghost predicate FirstGreatest(c: Call, p: Parts, n: nat, w: nat)
    requires PartsOf(c, p) && n <= |c.edges[p.driver]|
  {
    && w < n && Offer(c, p, w).Some?
    && (forall ci :: 0 <= ci < n && Offer(c, p, ci).Some? ==> Offer(c, p, ci).value.lower <= Offer(c, p, w).value.lower)
    && (forall ci :: 0 <= ci < w && Offer(c, p, ci).Some? ==> Offer(c, p, ci).value.lower < Offer(c, p, w).value.lower)
  }

  const UNKNOWN: Interval := Interval(0.0, 1.0)

  function Clip(best: Interval): Interval {
    var lower, upper := Min(best.lower, 1.0), Min(best.upper, 1.0);
    if lower > upper then UNKNOWN else Interval(lower, upper)
  }

  method LookUp(edges: seq<(int, int)>, notes: seq<Interval>, node: int) returns (r: Interval)
    requires |notes| >= |edges|
    ensures r == Bounds(edges, notes, node)
  {
    r := Interval(-1.0, -1.0);
    for k := 0 to |edges|
      invariant r == Interval(-1.0, -1.0) && FirstTo(edges, node, 0) == FirstTo(edges, node, k)
    {
      if edges[k].1 == node {
        r := notes[k];
        break;
      }
    }
  }

  // The pair loop.
  method Argmax(c: Call, p: Parts) returns (found: bool, best: Interval, ghost w: nat)
    requires PartsOf(c, p)
    ensures if found then FirstGreatest(c, p, |c.edges[p.driver]|, w) && best == Offer(c, p, w).value
            else NoOffer(c, p, |c.edges[p.driver]|)
  {
    best, found, w := Interval(0.0, 0.0), false, 0;
    for ci := 0 to |c.edges[p.driver]|
      invariant if found then FirstGreatest(c, p, ci, w) && best == Offer(c, p, w).value else NoOffer(c, p, ci)
    {
      var (xVal, yVal) := c.edges[p.driver][ci];
      var d := c.notes[p.driver][ci];
      var x := LookUp(c.edges[p.cause], c.notes[p.cause], xVal);
      if x.lower < 0.0 { continue; }
      var y := LookUp(c.edges[p.effect], c.notes[p.effect], yVal);
      if y.lower < 0.0 { continue; }
      var pair := Meet(x, y, d);
      assert Offer(c, p, ci) == Some(pair);
      if !found || pair.lower > best.lower {
        best, found, w := pair, true, ci;
      }
    }
  }

  // What the callback answers.
  ghost predicate Answers(c: Call, r: Interval)
    requires Shaped(c)
  {
    exists driver, cause, effect ::
      && IsLast(c, Driver, |c.labels|, driver) && IsLast(c, Cause, |c.labels|, cause)
      && IsLast(c, Effect, |c.labels|, effect)
      && AnswersWith(c, driver, cause, effect, r)
  }

  ghost predicate AnswersWith(c: Call, driver: int, cause: int, effect: int, r: Interval)
    requires Shaped(c) && driver < |c.labels| && cause < |c.labels| && effect < |c.labels|
  {
    if driver < 0 || cause < 0 || effect < 0 then r == UNKNOWN
    else AnswersParts(c, Parts(driver, cause, effect), r)
  }

  ghost predicate AnswersParts(c: Call, p: Parts, r: Interval)
    requires PartsOf(c, p)
  {
    if NoOffer(c, p, |c.edges[p.driver]|) then r == UNKNOWN
    else exists w :: FirstGreatest(c, p, |c.edges[p.driver]|, w) && r == Clip(Offer(c, p, w).value)
  }

  method PairedMinimumBounds(c: Call) returns (r: Interval)
    requires Shaped(c)
    ensures Answers(c, r)
  {
    var driver, cause, effect := FindRoles(c);
    r := UNKNOWN;
    if driver < 0 || cause < 0 || effect < 0 {
      assert AnswersWith(c, driver, cause, effect, r);
      return;
    }
    ghost var p := Parts(driver, cause, effect);
    var found, best, w := Argmax(c, Parts(driver, cause, effect));
    if found {
      var lower, upper := Min(best.lower, 1.0), Min(best.upper, 1.0);
      r := if lower > upper then UNKNOWN else Interval(lower, upper);
      assert Offer(c, p, w).Some?;
    }
    assert AnswersParts(c, p, r);
    assert AnswersWith(c, driver, cause, effect, r);
  }

  // --- The answer is determined ---

  lemma LastUnique(c: Call, role: Role, n: nat, i: int, j: int)
    requires |c.labels| == |c.vars| && n <= |c.labels| && IsLast(c, role, n, i) && IsLast(c, role, n, j)
    ensures i == j
  {}

  lemma FirstGreatestUnique(c: Call, p: Parts, n: nat, v: nat, w: nat)
    requires PartsOf(c, p) && n <= |c.edges[p.driver]| && FirstGreatest(c, p, n, v) && FirstGreatest(c, p, n, w)
    ensures v == w
  {}

  lemma AnswerIsUnique(c: Call, r: Interval, s: Interval)
    requires Shaped(c) && Answers(c, r) && Answers(c, s)
    ensures r == s
  {
    var d, k, e :| IsLast(c, Driver, |c.labels|, d) && IsLast(c, Cause, |c.labels|, k)
        && IsLast(c, Effect, |c.labels|, e)
                   && AnswersWith(c, d, k, e, r);
    var d', k', e' :| IsLast(c, Driver, |c.labels|, d') && IsLast(c, Cause, |c.labels|, k')
        && IsLast(c, Effect, |c.labels|, e')
                      && AnswersWith(c, d', k', e', s);
    LastUnique(c, Driver, |c.labels|, d, d');
    LastUnique(c, Cause, |c.labels|, k, k');
    LastUnique(c, Effect, |c.labels|, e, e');
    if d >= 0 && k >= 0 && e >= 0 && !NoOffer(c, Parts(d, k, e), |c.edges[d]|) {
      var p := Parts(d, k, e);
      assert AnswersParts(c, p, r) && AnswersParts(c, p, s);
      var v :| FirstGreatest(c, p, |c.edges[d]|, v) && r == Clip(Offer(c, p, v).value);
      var w :| FirstGreatest(c, p, |c.edges[d]|, w) && s == Clip(Offer(c, p, w).value);
      FirstGreatestUnique(c, p, |c.edges[d]|, v, w);
    }
  }

  // --- The answer, read off the call ---

  predicate WellFormed(i: Interval) {
    0.0 <= i.lower <= i.upper <= 1.0
  }

  // It says nothing: every interval of [0,1] lies in it.
  ghost predicate SaysNothing(r: Interval) {
    WellFormed(r) && forall i :: WellFormed(i) ==> r.lower <= i.lower && i.upper <= r.upper
  }

  ghost predicate IsLeastOf(m: real, s: seq<real>) {
    m in s && forall v :: v in s ==> m <= v
  }

  ghost predicate LastParts(c: Call, p: Parts) {
    && PartsOf(c, p) && IsLast(c, Driver, |c.labels|, p.driver) && IsLast(c, Cause, |c.labels|, p.cause)
    && IsLast(c, Effect, |c.labels|, p.effect)
  }

  // The bounds of the first edge of the clause into the node.
  ghost predicate BoundAt(c: Call, i: nat, node: int, b: Interval)
    requires Shaped(c) && i < |c.labels|
  {
    exists k :: 0 <= k < |c.edges[i]| && c.edges[i][k].1 == node && b == c.notes[i][k]
      && forall j :: 0 <= j < k ==> c.edges[i][j].1 != node
  }

  // Driver edge ci joins two nodes whose first labels have the bounds x and y, neither below zero.
  ghost predicate PairAt(c: Call, p: Parts, ci: nat, x: Interval, y: Interval)
    requires PartsOf(c, p)
  {
    && ci < |c.edges[p.driver]| && x.lower >= 0.0 && y.lower >= 0.0
    && BoundAt(c, p.cause, c.edges[p.driver][ci].0, x) && BoundAt(c, p.effect, c.edges[p.driver][ci].1, y)
  }

  ghost predicate SomePair(c: Call) {
    exists p, ci, x, y :: LastParts(c, p) && PairAt(c, p, ci, x, y)
  }

  lemma OfferIff(c: Call, p: Parts, ci: nat, x: Interval, y: Interval)
    requires PartsOf(c, p) && ci < |c.edges[p.driver]|
    ensures PairAt(c, p, ci, x, y) ==> Offer(c, p, ci) == Some(Meet(x, y, c.notes[p.driver][ci]))
    ensures Offer(c, p, ci).Some? ==> exists u, v :: PairAt(c, p, ci, u, v)
  {
    var a, b := c.edges[p.driver][ci].0, c.edges[p.driver][ci].1;
    var i, j := FirstTo(c.edges[p.cause], a, 0), FirstTo(c.edges[p.effect], b, 0);
    if Offer(c, p, ci).Some? {
      assert BoundAt(c, p.cause, a, c.notes[p.cause][i]) && BoundAt(c, p.effect, b, c.notes[p.effect][j]);
      assert PairAt(c, p, ci, c.notes[p.cause][i], c.notes[p.effect][j]);
    }
  }

  // Without a role, or without a pair whose labels are bounded, the answer says nothing.
  lemma NoPairSaysNothing(c: Call, r: Interval)
    requires Shaped(c) && Answers(c, r) && !SomePair(c)
    ensures SaysNothing(r)
  {
    hide Offer, Meet, PairAt;
    var d, k, e :| IsLast(c, Driver, |c.labels|, d) && IsLast(c, Cause, |c.labels|, k)
      && IsLast(c, Effect, |c.labels|, e) && AnswersWith(c, d, k, e, r);
    if d >= 0 && k >= 0 && e >= 0 {
      var p := Parts(d, k, e);
      assert LastParts(c, p);
      forall ci | 0 <= ci < |c.edges[p.driver]| ensures Offer(c, p, ci).None? {
        OfferIff(c, p, ci, UNKNOWN, UNKNOWN);
      }
    }
  }

  lemma LeastOfThree(a: real, b: real, z: real, m: real)
    ensures IsLeastOf(m, [a, b, z]) <==> m == Min(Min(a, b), z)
  {
    var s := [a, b, z];
    assert s[0] == a && s[1] == b && s[2] == z;
    assert a in s && b in s && z in s;
  }

  // What the pair at driver edge ci guarantees: the least of its three lower bounds.
  ghost predicate PairLower(c: Call, p: Parts, ci: nat, m: real)
    requires PartsOf(c, p)
  {
    && ci < |c.edges[p.driver]|
    && exists x, y :: PairAt(c, p, ci, x, y) && IsLeastOf(m, [x.lower, y.lower, c.notes[p.driver][ci].lower])
  }

  lemma PairLowerIs(c: Call, p: Parts, ci: nat, m: real)
    requires PartsOf(c, p)
    ensures PairLower(c, p, ci, m)
        <==> ci < |c.edges[p.driver]| && Offer(c, p, ci).Some? && m == Offer(c, p, ci).value.lower
  {
    hide PairAt, IsLeastOf;
    if PairLower(c, p, ci, m) {
      var x, y :| PairAt(c, p, ci, x, y) && IsLeastOf(m, [x.lower, y.lower, c.notes[p.driver][ci].lower]);
      OfferIff(c, p, ci, x, y);
      LeastOfThree(x.lower, y.lower, c.notes[p.driver][ci].lower, m);
    }
    if ci < |c.edges[p.driver]| && Offer(c, p, ci).Some? && m == Offer(c, p, ci).value.lower {
      OfferIff(c, p, ci, UNKNOWN, UNKNOWN);
      var x, y :| PairAt(c, p, ci, x, y);
      OfferIff(c, p, ci, x, y);
      LeastOfThree(x.lower, y.lower, c.notes[p.driver][ci].lower, m);
    }
  }

  lemma InRange(c: Call, p: Parts, ci: nat, x: Interval, y: Interval)
    requires PartsOf(c, p) && PairAt(c, p, ci, x, y)
    ensures ci < |c.edges[p.driver]|
  {}

  // The first pair that guarantees most.
  ghost predicate BestPair(c: Call, p: Parts, ci: nat, m: real)
    requires PartsOf(c, p)
  {
    PairLower(c, p, ci, m) && forall j: nat, n :: PairLower(c, p, j, n) ==> n <= m && (j < ci ==> n < m)
  }

  lemma GreatestIsBest(c: Call, p: Parts, ci: nat)
    requires PartsOf(c, p) && FirstGreatest(c, p, |c.edges[p.driver]|, ci)
    ensures BestPair(c, p, ci, Offer(c, p, ci).value.lower)
  {
    var m := Offer(c, p, ci).value.lower;
    PairLowerIs(c, p, ci, m);
    forall j: nat, n | PairLower(c, p, j, n) ensures n <= m && (j < ci ==> n < m) { PairLowerIs(c, p, j, n); }
  }

  // The least of the three bounds and of one, on either side; nothing if they are the wrong way round.
  ghost predicate LeastBounds(r: Interval, x: Interval, y: Interval, d: Interval) {
    exists low, up ::
      && IsLeastOf(low, [x.lower, y.lower, d.lower, 1.0]) && IsLeastOf(up, [x.upper, y.upper, d.upper, 1.0])
      && if low <= up then r == Interval(low, up) else SaysNothing(r)
  }

  // Otherwise the answer is made of the bounds of the first pair that guarantees most.
  lemma SomePairAnswers(c: Call, r: Interval) returns (p: Parts, ci: nat, x: Interval, y: Interval)
    requires Shaped(c) && Answers(c, r) && SomePair(c)
    ensures LastParts(c, p) && PairAt(c, p, ci, x, y) && exists m :: BestPair(c, p, ci, m)
    ensures LeastBounds(r, x, y, c.notes[p.driver][ci])
  {
    p, ci := BestOf(c, r);
    GreatestIsBest(c, p, ci);
    OfferIff(c, p, ci, UNKNOWN, UNKNOWN);
    x, y :| PairAt(c, p, ci, x, y);
    OfferIff(c, p, ci, x, y);
    hide BestPair, PairAt, LastParts, Offer, Answers, SomePair, FirstGreatest, LeastBounds, Clip, Meet;
    ClippedIsLeast(x, y, c.notes[p.driver][ci]);
  }

  lemma ClippedIsLeast(x: Interval, y: Interval, d: Interval)
    ensures LeastBounds(Clip(Meet(x, y, d)), x, y, d)
  {
    var best := Meet(x, y, d);
    LeastOfFour(x.lower, y.lower, d.lower);
    LeastOfFour(x.upper, y.upper, d.upper);
    var low, up := Min(best.lower, 1.0), Min(best.upper, 1.0);
    hide IsLeastOf;
    assert IsLeastOf(low, [x.lower, y.lower, d.lower, 1.0]) && IsLeastOf(up, [x.upper, y.upper, d.upper, 1.0]);
  }

  lemma LeastOfFour(a: real, b: real, z: real)
    ensures IsLeastOf(Min(Min(Min(a, b), z), 1.0), [a, b, z, 1.0])
  {
    var s := [a, b, z, 1.0];
    assert s[0] == a && s[1] == b && s[2] == z && s[3] == 1.0;
  }

  lemma BestOf(c: Call, r: Interval) returns (p: Parts, ci: nat)
    requires Shaped(c) && Answers(c, r) && SomePair(c)
    ensures LastParts(c, p) && FirstGreatest(c, p, |c.edges[p.driver]|, ci) && r == Clip(Offer(c, p, ci).value)
  {
    var q, qi, qx, qy :| LastParts(c, q) && PairAt(c, q, qi, qx, qy);
    var d, k, e :| IsLast(c, Driver, |c.labels|, d) && IsLast(c, Cause, |c.labels|, k)
      && IsLast(c, Effect, |c.labels|, e) && AnswersWith(c, d, k, e, r);
    LastUnique(c, Driver, |c.labels|, d, q.driver);
    LastUnique(c, Cause, |c.labels|, k, q.cause);
    LastUnique(c, Effect, |c.labels|, e, q.effect);
    p := q;
    InRange(c, p, qi, qx, qy);
    OfferIff(c, p, qi, qx, qy);
    hide PairAt, LastParts, FirstGreatest, IsLast, Offer;
    assert !NoOffer(c, p, |c.edges[p.driver]|);
    assert AnswersParts(c, p, r);
    ci :| FirstGreatest(c, p, |c.edges[p.driver]|, ci) && r == Clip(Offer(c, p, ci).value);
  }

  // --- Well-formed bounds ---

  ghost predicate AllWellFormed(c: Call) {
    forall i, k :: 0 <= i < |c.notes| && 0 <= k < |c.notes[i]| ==> WellFormed(c.notes[i][k])
  }

  lemma OfferIsWellFormed(c: Call, p: Parts, ci: nat)
    requires PartsOf(c, p) && AllWellFormed(c) && ci < |c.edges[p.driver]| && Offer(c, p, ci).Some?
    ensures WellFormed(Offer(c, p, ci).value)
  {
    assert WellFormed(c.notes[p.driver][ci]);
    var x := Bounds(c.edges[p.cause], c.notes[p.cause], c.edges[p.driver][ci].0);
    var y := Bounds(c.edges[p.effect], c.notes[p.effect], c.edges[p.driver][ci].1);
    assert WellFormed(x) && WellFormed(y);
  }

  // On well-formed bounds the answer is an interval in [0,1], and clipping changes nothing: the exit for an inverted
  // interval is never taken.
  lemma InvertedExitNeverTaken(c: Call, r: Interval)
    requires Shaped(c) && AllWellFormed(c) && Answers(c, r)
    ensures WellFormed(r)
    ensures forall p, w :: PartsOf(c, p) && FirstGreatest(c, p, |c.edges[p.driver]|, w) ==>
              Clip(Offer(c, p, w).value) == Offer(c, p, w).value
  {
    hide Offer, AllWellFormed;
    forall p, w | PartsOf(c, p) && FirstGreatest(c, p, |c.edges[p.driver]|, w)
      ensures Clip(Offer(c, p, w).value) == Offer(c, p, w).value && WellFormed(Offer(c, p, w).value)
    {
      OfferIsWellFormed(c, p, w);
    }
  }
}
