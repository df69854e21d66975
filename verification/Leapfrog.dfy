/** The leapfrog view: cursors over sorted columns gallop to each other's values until they agree. */
module Leapfrog {
  import opened Eytzinger
  import opened Seek

  // v occurs in the column at or after position p.
  predicate Later(col: seq<int>, p: nat, v: int) {
    exists t :: p <= t < |col| && col[t] == v
  }

  // v is common to what is left of every column.
  ghost predicate CommonFrom(cols: seq<seq<int>>, pos: seq<nat>, v: int)
    requires |pos| == |cols|
  {
    forall i :: 0 <= i < |cols| ==> Later(cols[i], pos[i], v)
  }

  ghost predicate Common(cols: seq<seq<int>>, v: int) {
    forall i :: 0 <= i < |cols| ==> v in cols[i]
  }

  ghost predicate Positions(cols: seq<seq<int>>, pos: seq<nat>) {
    |pos| == |cols| && forall i :: 0 <= i < |cols| ==> pos[i] <= |cols[i]|
  }

  // Cursors only move forward, and what they pass is less than v.
  ghost predicate MovedBelow(cols: seq<seq<int>>, from: seq<nat>, to: seq<nat>, v: int)
    requires Positions(cols, from) && Positions(cols, to)
  {
    forall i :: 0 <= i < |cols| ==> PassedBelow(cols[i], from[i], to[i], v)
  }

  ghost predicate PassedBelow(col: seq<int>, p: nat, q: nat, v: int)
    requires q <= |col|
  {
    p <= q && forall t :: p <= t < q ==> col[t] < v
  }

  // A value common to the rest that is not less than v survives moves below v.
  lemma CommonSurvives(cols: seq<seq<int>>, from: seq<nat>, to: seq<nat>, v: int, w: int)
    requires Positions(cols, from) && Positions(cols, to) && MovedBelow(cols, from, to, v) && w >= v
    ensures CommonFrom(cols, from, w) <==> CommonFrom(cols, to, w)
  {
    forall i | 0 <= i < |cols| ensures Later(cols[i], from[i], w) <==> Later(cols[i], to[i], w) {
      assert PassedBelow(cols[i], from[i], to[i], v);
      if Later(cols[i], from[i], w) {
        var t :| from[i] <= t < |cols[i]| && cols[i][t] == w;
        assert t >= to[i];
      }
    }
  }

  // The least value that can still be common is at least the current value of every cursor.
  lemma CommonAtLeast(cols: seq<seq<int>>, pos: seq<nat>, i: nat, w: int)
    requires Positions(cols, pos) && i < |cols| && pos[i] < |cols[i]| && Sorted(cols[i]) && CommonFrom(cols, pos, w)
    ensures cols[i][pos[i]] <= w
  {
    assert Later(cols[i], pos[i], w);
    var t :| pos[i] <= t < |cols[i]| && cols[i][t] == w;
    if pos[i] < t { assert cols[i][pos[i]] <= cols[i][t]; }
  }

  // Between from and pos nothing common was passed, and every value still common is at least m.
  ghost predicate Skipped(cols: seq<seq<int>>, from: seq<nat>, pos: seq<nat>, m: int)
    requires Positions(cols, from)
  {
    Positions(cols, pos) && MovedBelow(cols, from, pos, m) && forall w :: CommonFrom(cols, from, w) ==> w >= m
  }

  lemma SkippedNothing(cols: seq<seq<int>>, from: seq<nat>)
    requires |cols| > 0 && Positions(cols, from) && Sorted(cols[0]) && from[0] < |cols[0]|
    ensures Skipped(cols, from, from, cols[0][from[0]])
  {
    forall w | CommonFrom(cols, from, w) ensures w >= cols[0][from[0]] {
      CommonAtLeast(cols, from, 0, w);
    }
    assert forall i :: 0 <= i < |cols| ==> PassedBelow(cols[i], from[i], from[i], cols[0][from[0]]);
  }

  lemma SkippedMore(cols: seq<seq<int>>, from: seq<nat>, before: seq<nat>, after: seq<nat>, m: int, max: int, i: nat)
    requires Positions(cols, from) && Skipped(cols, from, before, m) && m <= max
    requires Positions(cols, after) && MovedBelow(cols, before, after, max)
    requires i < |cols| && before[i] < |cols[i]| && Sorted(cols[i]) && cols[i][before[i]] == max
    ensures Skipped(cols, from, after, max)
  {
    forall w | CommonFrom(cols, from, w) ensures w >= max {
      CommonSurvives(cols, from, before, m, w);
      CommonAtLeast(cols, before, i, w);
    }
    forall j | 0 <= j < |cols| ensures PassedBelow(cols[j], from[j], after[j], max) {
      assert PassedBelow(cols[j], from[j], before[j], m) && PassedBelow(cols[j], before[j], after[j], max);
    }
  }

  lemma SkippedToEnd(cols: seq<seq<int>>, from: seq<nat>, pos: seq<nat>, m: int, i: nat)
    requires Positions(cols, from) && Skipped(cols, from, pos, m) && i < |cols| && pos[i] == |cols[i]|
    ensures forall w :: !CommonFrom(cols, from, w)
  {
    forall w ensures !CommonFrom(cols, from, w) {
      if w >= m {
        CommonSurvives(cols, from, pos, m, w);
        assert !Later(cols[i], pos[i], w);
      }
    }
  }

  lemma NothingLeft(cols: seq<seq<int>>, pos: seq<nat>, i: nat)
    requires Positions(cols, pos) && i < |cols| && pos[i] == |cols[i]|
    ensures forall w :: !CommonFrom(cols, pos, w)
  {
    forall w ensures !CommonFrom(cols, pos, w) {
      assert !Later(cols[i], pos[i], w);
    }
  }

  function Remaining(cols: seq<seq<int>>, pos: seq<nat>): nat
    requires |pos| == |cols|
  {
    if |cols| == 0 then 0 else
      var n := |cols| - 1;
      Remaining(cols[..n], pos[..n]) + if pos[n] <= |cols[n]| then |cols[n]| - pos[n] else 0
  }

  lemma {:induction false} RemainingDrops(cols: seq<seq<int>>, a: seq<nat>, b: seq<nat>)
    requires Positions(cols, a) && Positions(cols, b) && forall i :: 0 <= i < |cols| ==> a[i] <= b[i]
    ensures Remaining(cols, b) <= Remaining(cols, a)
    ensures (exists i :: 0 <= i < |cols| && a[i] < b[i]) ==> Remaining(cols, b) < Remaining(cols, a)
  {
    if |cols| > 0 {
      var n := |cols| - 1;
      RemainingDrops(cols[..n], a[..n], b[..n]);
      if i :| 0 <= i < |cols| && a[i] < b[i] {
        if i < n { assert a[..n][i] < b[..n][i]; }
      }
    }
  }

  // A seek over a whole column, through an index with its block map or with at most three separators, ends where the
  // cursor of the same position does.
  lemma SeekLandsHere(col: seq<int>, seps: seq<int>, mapped: bool, b: nat, p: nat, target: int)
    requires Sorted(col) && Sorted(seps) && b > 0 && InBlocks(col, seps, b)
    requires |seps| <= MAX_LENGTH && (mapped || |seps| <= 3) && p <= |col|
    ensures Sought(col, JumpTo(seps, mapped, b, target), p, |col|, target) == LowerFrom(col, p, |col|, target)
  {
    JumpIsSafe(col, seps, mapped, b, target);
    SoughtIsPlain(col, JumpTo(seps, mapped, b, target), p, |col|, target);
    LowerFromUnique(col, p, |col|, target, Sought(col, JumpTo(seps, mapped, b, target), p, |col|, target));
  }

  class Iterator {
    const cols: seq<seq<int>>
    const pos: array<nat>
    var isEnd: bool

    ghost predicate Valid()
      reads this, pos
    {
      && |cols| > 0 && pos.Length == |cols| && Positions(cols, pos[..])
      && forall i :: 0 <= i < |cols| ==> Sorted(cols[i])
    }

    // Not at the end: every cursor stands on the same value.
    ghost predicate Aligned(v: int)
      reads this, pos
      requires Valid()
    {
      forall i :: 0 <= i < |cols| ==> pos[i] < |cols[i]| && cols[i][pos[i]] == v
    }

    // Where the search that started at from has arrived: at the least value still common, or at the end if there is
    // none.
    ghost predicate Found(from: seq<nat>)
      reads this, pos
      requires Valid() && Positions(cols, from)
    {
      if isEnd then forall w :: !CommonFrom(cols, from, w)
      else
        && Aligned(Current()) && MovedBelow(cols, from, pos[..], Current())
        && forall w :: CommonFrom(cols, from, w) ==> Current() <= w
    }

    function Current(): int
      reads this, pos
      requires |cols| > 0 && pos.Length == |cols|
    {
      if pos[0] < |cols[0]| then cols[0][pos[0]] else 0
    }

    constructor (cols: seq<seq<int>>)
      requires |cols| > 0 && forall i :: 0 <= i < |cols| ==> Sorted(cols[i])
      ensures Valid() && this.cols == cols && fresh(pos) && Found(seq(|cols|, i => 0))
    {
      this.cols := cols;
      this.pos := new nat[|cols|](i => 0);
      isEnd := false;
      new;
      ghost var start: seq<nat> := seq(|cols|, i => 0);
      assert pos[..] == start;
      FindNextMatch();
    }

    method CheckAnyEnd() returns (ended: bool)
      requires Valid()
      ensures ended <==> exists i :: 0 <= i < |cols| && pos[i] == |cols[i]|
    {
      ended := false;
      for i := 0 to |cols|
        invariant ended <==> exists j :: 0 <= j < i && pos[j] == |cols[j]|
      {
        if pos[i] == |cols[i]| { ended := true; }
      }
    }

    method GetMaxValue() returns (max: int)
      requires Valid() && forall i :: 0 <= i < |cols| ==> pos[i] < |cols[i]|
      ensures exists i :: 0 <= i < |cols| && cols[i][pos[i]] == max
      ensures forall i :: 0 <= i < |cols| ==> cols[i][pos[i]] <= max
    {
      max := cols[0][pos[0]];
      for i := 0 to |cols|
        invariant exists j :: 0 <= j < |cols| && cols[j][pos[j]] == max
        invariant forall j :: 0 <= j < i ==> cols[j][pos[j]] <= max
        invariant cols[0][pos[0]] <= max
      {
        if cols[i][pos[i]] > max { max := cols[i][pos[i]]; }
      }
    }

    method AllEqual(v: int) returns (eq: bool)
      requires Valid() && forall i :: 0 <= i < |cols| ==> pos[i] < |cols[i]|
      ensures eq <==> Aligned(v)
    {
      eq := true;
      for i := 0 to |cols|
        invariant eq <==> forall j :: 0 <= j < i ==> cols[j][pos[j]] == v
      {
        eq := eq && cols[i][pos[i]] == v;
      }
    }

    // Dereferencing a cursor that has run off its column gives an arbitrary value.
    method Read(i: nat) returns (x: int)
      requires Valid() && i < |cols|
      ensures pos[i] < |cols[i]| ==> x == cols[i][pos[i]]
    {
      if pos[i] < |cols[i]| { x := cols[i][pos[i]]; } else { x := *; }
    }

    // Brings every cursor below max up to it; reports whether some cursor now stands above max.
    method SeekAll(max: int) returns (moved: bool)
      requires Valid() && forall i :: 0 <= i < |cols| ==> pos[i] < |cols[i]| && cols[i][pos[i]] <= max
      modifies pos
      ensures Valid() && MovedBelow(cols, old(pos[..]), pos[..], max)
      ensures forall i :: 0 <= i < |cols| ==> pos[i] == |cols[i]| || cols[i][pos[i]] >= max
      ensures (forall i :: 0 <= i < |cols| ==> pos[i] < |cols[i]|) ==>
        (moved <==> exists i :: 0 <= i < |cols| && cols[i][pos[i]] > max)
    {
      moved := false;
      ghost var ran := false;
      for i := 0 to |cols|
        invariant Valid() && MovedBelow(cols, old(pos[..]), pos[..], max)
        invariant forall j :: i <= j < |cols| ==> pos[j] == old(pos[..])[j]
        invariant forall j :: 0 <= j < i ==> pos[j] == |cols[j]| || cols[j][pos[j]] >= max
        invariant ran <==> exists j :: 0 <= j < i && pos[j] == |cols[j]|
        invariant !ran ==> (moved <==> exists j :: 0 <= j < i && pos[j] < |cols[j]| && cols[j][pos[j]] > max)
      {
        if cols[i][pos[i]] < max {
          SeekCursor(i, max);
        }
        var x := Read(i);
        if x > max { moved := true; }
        if pos[i] == |cols[i]| { ran := true; }
      }
    }

    // Moves cursor i to where a plain lower bound from its position is, which is where AcceleratedArrayIterator.SeekTo
    // lands: SeekLandsHere.
    method SeekCursor(i: nat, target: int)
      requires Valid() && i < |cols|
      modifies pos
      ensures Valid() && PassedBelow(cols[i], old(pos[i]), pos[i], target)
      ensures pos[i] < |cols[i]| ==> cols[i][pos[i]] >= target
      ensures pos[i] == LowerFrom(cols[i], old(pos[i]), |cols[i]|, target)
      ensures forall j :: 0 <= j < |cols| && j != i ==> pos[j] == old(pos[j])
    {
      while pos[i] < |cols[i]| && cols[i][pos[i]] < target
        invariant Valid() && PassedBelow(cols[i], old(pos[i]), pos[i], target)
        invariant LowerFrom(cols[i], old(pos[i]), |cols[i]|, target) == LowerFrom(cols[i], pos[i], |cols[i]|, target)
        invariant forall j :: 0 <= j < |cols| && j != i ==> pos[j] == old(pos[j])
        decreases |cols[i]| - pos[i]
      {
        pos[i] := pos[i] + 1;
      }
    }

    method FindNextMatch()
      requires Valid() && !isEnd
      modifies this`isEnd, pos
      ensures Valid() && Found(old(pos[..]))
      ensures forall i :: 0 <= i < |cols| ==> old(pos[i]) <= pos[i]
    {
      ghost var from := pos[..];
      var ended := CheckAnyEnd();
      if ended {
        isEnd := true;
        ghost var i :| 0 <= i < |cols| && pos[i] == |cols[i]|;
        NothingLeft(cols, from, i);
        return;
      }
      ghost var m := cols[0][pos[0]];
      SkippedNothing(cols, from);
      hide Skipped, Remaining, CommonFrom, Sorted, MovedBelow, PassedBelow, LowerFrom, Found;
      var done := false;
      while !done
        invariant Valid()
        invariant !done ==> Searching(from, m)
        invariant done ==> Found(from) && forall i :: 0 <= i < |cols| ==> from[i] <= pos[i]
        decreases !done, Remaining(cols, pos[..])
      {
        done, m := Round(from, m);
      }
    }

    // The search that started at from goes on: nothing in common is less than m, and no cursor is at its end.
    ghost predicate Searching(from: seq<nat>, m: int)
      reads this, pos
      requires Valid() && Positions(cols, from)
    {
      && !isEnd && (forall i :: 0 <= i < |cols| ==> pos[i] < |cols[i]|)
      && Skipped(cols, from, pos[..], m) && m <= cols[0][pos[0]]
    }

    // Raises the cursors to the greatest value among them; done when a column has ended or all values are equal.
    method Round(ghost from: seq<nat>, ghost m: int) returns (done: bool, ghost max_: int)
      requires Valid() && Positions(cols, from) && Searching(from, m)
      modifies this`isEnd, pos
      ensures Valid()
      ensures done ==> Found(from) && forall i :: 0 <= i < |cols| ==> from[i] <= pos[i]
      ensures !done ==> Searching(from, max_) && Remaining(cols, pos[..]) < Remaining(cols, old(pos[..]))
    {
      hide Skipped, Remaining, CommonFrom, Sorted, MovedBelow, PassedBelow, LowerFrom;
      ghost var before := pos[..];
      var max := GetMaxValue();
      max_ := max;
      ghost var i :| 0 <= i < |cols| && cols[i][before[i]] == max;
      var moved := SeekAll(max);
      SkippedMore(cols, from, before, pos[..], m, max, i);
      SkippedForward(cols, from, pos[..], max);
      var ended := CheckAnyEnd();
      if ended {
        isEnd := true;
        ghost var j :| 0 <= j < |cols| && pos[j] == |cols[j]|;
        SkippedToEnd(cols, from, pos[..], max, j);
        return true, max;
      }
      if !moved {
        var eq := AllEqual(max);
        if eq { return true, max; }
      }
      Progress(before, pos[..], max);
      done := false;
    }

    // A round that does not finish has moved some cursor.
    lemma Progress(before: seq<nat>, after: seq<nat>, max: int)
      requires |cols| > 0 && Positions(cols, before) && Positions(cols, after) && MovedBelow(cols, before, after, max)
      requires forall i :: 0 <= i < |cols| ==> before[i] < |cols[i]| && cols[i][before[i]] <= max
      requires forall i :: 0 <= i < |cols| ==> after[i] < |cols[i]| && cols[i][after[i]] >= max
      requires exists i :: 0 <= i < |cols| && cols[i][after[i]] > max
      ensures Remaining(cols, after) < Remaining(cols, before)
    {
      var i :| 0 <= i < |cols| && cols[i][after[i]] > max;
      assert before[i] != after[i];
      forall j | 0 <= j < |cols| ensures before[j] <= after[j] {
        assert PassedBelow(cols[j], before[j], after[j], max);
      }
      RemainingDrops(cols, before, after);
    }

    // Moves the leader past the current value, then searches.
    method Next()
      requires Valid() && !isEnd && Aligned(Current())
      modifies this`isEnd, pos
      ensures Valid() && Remaining(cols, pos[..]) < Remaining(cols, old(pos[..]))
      ensures !isEnd ==> Aligned(Current())
      ensures forall w :: CommonFrom(cols, old(pos[..]), w)
                <==> w == old(Current()) || (!isEnd && CommonFrom(cols, pos[..], w))
      ensures !isEnd ==> Current() > old(Current())
    {
      hide CommonFrom, Remaining, Later;
      ghost var from, v := pos[..], Current();
      var p: nat := pos[0] + 1;
      while p < |cols[0]| && cols[0][p] == cols[0][pos[0]]
        invariant pos[0] < p <= |cols[0]| && forall t :: pos[0] <= t < p ==> cols[0][t] == v
      {
        p := p + 1;
      }
      pos[0] := p;
      ghost var mid := pos[..];
      assert mid == from[0 := p];
      LeaderMoved(from, mid, p, v);
      FindNextMatch();
      assert from[0] < pos[0];
      RemainingDrops(cols, from, pos[..]);
      hide Sorted;
      if !isEnd { StillCommon(mid, pos[..], Current()); }
    }

    // What is common after the leader's move is what was common and is not v.
    lemma LeaderMoved(from: seq<nat>, mid: seq<nat>, p: nat, v: int)
      requires |cols| > 0 && Positions(cols, from)
      requires forall i :: 0 <= i < |cols| ==> Sorted(cols[i]) && from[i] < |cols[i]| && cols[i][from[i]] == v
      requires mid == from[0 := p] && from[0] < p <= |cols[0]| && (forall t :: from[0] <= t < p ==> cols[0][t] == v)
      requires p < |cols[0]| ==> cols[0][p] != v
      ensures Positions(cols, mid)
      ensures forall w :: CommonFrom(cols, from, w) <==> w == v || CommonFrom(cols, mid, w)
      ensures forall w :: CommonFrom(cols, mid, w) ==> w > v
    {
      forall w ensures Later(cols[0], from[0], w) <==> w == v || Later(cols[0], p, w) {
        assert cols[0][from[0]] == v;
      }
      forall w ensures Later(cols[0], p, w) ==> w > v {
        if t :| p <= t < |cols[0]| && cols[0][t] == w {
          assert cols[0][from[0]] <= cols[0][p];
          if p < t { assert cols[0][p] <= cols[0][t]; }
        }
      }
      forall w ensures CommonFrom(cols, from, w) <==> w == v || CommonFrom(cols, mid, w) {
        forall i | 0 < i < |cols| ensures Later(cols[i], from[i], v) { assert cols[i][from[i]] == v; }
        if CommonFrom(cols, mid, w) {
          forall i | 0 <= i < |cols| ensures Later(cols[i], from[i], w) { assert Later(cols[i], mid[i], w); }
        }
        if CommonFrom(cols, from, w) && w != v {
          forall i | 0 <= i < |cols| ensures Later(cols[i], mid[i], w) { assert Later(cols[i], from[i], w); }
        }
      }
      forall w | CommonFrom(cols, mid, w) ensures w > v { assert Later(cols[0], mid[0], w); }
    }

    // The search loses nothing: the values common before and after it are the same.
    lemma StillCommon(from: seq<nat>, to: seq<nat>, v: int)
      requires |cols| > 0 && Positions(cols, from) && Positions(cols, to) && MovedBelow(cols, from, to, v)
      requires forall w :: CommonFrom(cols, from, w) ==> v <= w
      requires Sorted(cols[0]) && to[0] < |cols[0]| && cols[0][to[0]] == v
      ensures forall w :: CommonFrom(cols, from, w) <==> CommonFrom(cols, to, w)
    {
      forall w ensures CommonFrom(cols, from, w) <==> CommonFrom(cols, to, w) {
        if CommonFrom(cols, to, w) { CommonAtLeast(cols, to, 0, w); }
        if w >= v { CommonSurvives(cols, from, to, v, w); }
      }
    }
  }

  lemma SkippedForward(cols: seq<seq<int>>, from: seq<nat>, pos: seq<nat>, m: int)
    requires Positions(cols, from) && Skipped(cols, from, pos, m)
    ensures MovedBelow(cols, from, pos, m) && (forall i :: 0 <= i < |cols| ==> from[i] <= pos[i])
    ensures forall w :: CommonFrom(cols, from, w) ==> w >= m
  {
    forall i | 0 <= i < |cols| ensures from[i] <= pos[i] {
      assert PassedBelow(cols[i], from[i], pos[i], m);
    }
  }

  lemma CommonFromStart(cols: seq<seq<int>>, w: int)
    ensures CommonFrom(cols, seq(|cols|, i => 0), w) <==> Common(cols, w)
  {
    var start: seq<nat> := seq(|cols|, i => 0);
    forall i | 0 <= i < |cols| ensures Later(cols[i], start[i], w) <==> w in cols[i] {}
  }

  // What has been yielded and what is still to come, together, are the common values.
  ghost predicate Yielded(it: Iterator, out: seq<int>)
    reads it, it.pos
    requires it.Valid()
  {
    && (forall w :: Common(it.cols, w) <==> w in out || (!it.isEnd && CommonFrom(it.cols, it.pos[..], w)))
    && (!it.isEnd ==> it.Aligned(it.Current()) && forall k :: 0 <= k < |out| ==> out[k] < it.Current())
    && forall a, b :: 0 <= a < b < |out| ==> out[a] < out[b]
  }

  lemma NothingYielded(it: Iterator, start: seq<nat>)
    requires it.Valid() && start == seq(|it.cols|, i => 0) && it.Found(start)
    ensures Yielded(it, [])
  {
    if !it.isEnd { it.StillCommon(start, it.pos[..], it.Current()); }
    hide CommonFrom, Common;
    forall w ensures CommonFrom(it.cols, start, w) <==> Common(it.cols, w) { CommonFromStart(it.cols, w); }
  }

  // The view yields the values common to all columns, in ascending order, once each.
  method Intersect(cols: seq<seq<int>>) returns (out: seq<int>)
    requires |cols| > 0 && forall i :: 0 <= i < |cols| ==> Sorted(cols[i])
    ensures forall w :: w in out <==> Common(cols, w)
    ensures forall a, b :: 0 <= a < b < |out| ==> out[a] < out[b]
  {
    var it := new Iterator(cols);
    out := [];
    NothingYielded(it, seq(|cols|, i => 0));
    hide CommonFrom, Common, Sorted;
    while !it.isEnd
      invariant it.Valid() && it.cols == cols && fresh(it) && fresh(it.pos) && Yielded(it, out)
      decreases if it.isEnd then 0 else 1 + Remaining(cols, it.pos[..])
    {
      out := out + [it.Current()];
      it.Next();
    }
  }
}
