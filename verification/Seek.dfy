/** The accelerated iterator: block jump, one block back, a 256-element window, and a fallback scan. */
module Seek {
  import opened Eytzinger

  const WINDOW: nat := 256

  // The separators are elements of their blocks: separator i lies in the column's block i.
  ghost predicate InBlocks(column: seq<int>, seps: seq<int>, blockSize: nat) {
    forall i :: 0 <= i < |seps| ==> InBlock(column, seps[i], i, blockSize)
  }

  ghost predicate InBlock(column: seq<int>, sep: int, i: nat, blockSize: nat) {
    exists t :: i * blockSize <= t < (i + 1) * blockSize && t < |column| && column[t] == sep
  }

  // The first position from p on whose element is not less than the target.
  ghost predicate SeeksTo(column: seq<int>, p: nat, end: nat, target: int, q: nat)
    requires end <= |column|
  {
    p <= q && (p <= end ==> q <= end) && (forall t :: p <= t < q && t < end ==> column[t] < target)
        && (q < end ==> column[q] >= target)
  }

  // A plain lower bound from p on.
  function LowerFrom(column: seq<int>, p: nat, end: nat, target: int): (q: nat)
    requires end <= |column|
    ensures SeeksTo(column, p, end, target, q) && (p >= end ==> q == p)
    decreases end - p
  {
    if p >= end || column[p] >= target then p else LowerFrom(column, p + 1, end, target)
  }

  lemma {:induction false} LowerFromUnique(column: seq<int>, p: nat, end: nat, target: int, q: nat)
    requires p <= q <= end <= |column| && SeeksTo(column, p, end, target, q)
    ensures q == LowerFrom(column, p, end, target)
    decreases end - p
  {
    if p < q { LowerFromUnique(column, p + 1, end, target, q); }
  }

  // Where the block found for the target makes the search start: one block back, the answer past the end clamped.
  function JumpTo(seps: seq<int>, mapped: bool, blockSize: nat, target: int): nat {
    var found := Answer(seps, mapped, target);
    var block := if found >= |seps| then |seps| else found;
    (if block > 0 then block - 1 else 0) * blockSize
  }

  // Where a seek from p that may start at the given position ends.
  function Sought(column: seq<int>, start: nat, p: nat, end: nat, target: int): nat
    requires end <= |column|
  {
    if p >= end || column[p] >= target then p
    else if start >= end then end
    else LowerFrom(column, if start > p then start else p, end, target)
  }

  // First offset not less than the target, or len.
  method AdaptiveLowerBound(a: array<int>, from: nat, len: nat, target: int) returns (offset: nat)
    requires from + len <= a.Length && Sorted(a[..])
    ensures offset <= len && (forall t :: from <= t < from + offset ==> a[t] < target)
    ensures offset < len ==> a[from + offset] >= target
  {
    var lo, hi := 0, len;
    while lo < hi
      invariant 0 <= lo <= hi <= len
      invariant forall t :: from <= t < from + lo ==> a[t] < target
      invariant hi < len ==> a[from + hi] >= target
    {
      var mid := lo + (hi - lo) / 2;
      if a[from + mid] < target {
        assert forall t :: from <= t <= from + mid ==> a[..][t] <= a[..][from + mid];
        lo := mid + 1;
      } else {
        hi := mid;
      }
    }
    offset := lo;
  }

  // The first position after p with a different, hence greater, value.
  method SkipDuplicates(a: array<int>, p: nat, end: nat) returns (q: nat)
    requires p < end <= a.Length && Sorted(a[..])
    ensures p < q <= end && (forall t :: p <= t < q ==> a[t] == a[p]) && (q < end ==> a[q] > a[p])
  {
    q := p + 1;
    while q < end && a[q] == a[p]
      invariant p < q <= end && forall t :: p <= t < q ==> a[t] == a[p]
    {
      q := q + 1;
    }
    if q < end { assert a[..][p] <= a[..][q]; }
  }

  // The last element of every block but the last one.
  method GatherSeparators(a: array<int>, blockSize: nat) returns (seps: seq<int>)
    requires a.Length > 0 && blockSize > 0 && Sorted(a[..])
    ensures |seps| == (a.Length + blockSize - 1) / blockSize - 1
    ensures forall i :: 0 <= i < |seps| ==> IsLastOf(a[..], seps[i], i, blockSize)
    ensures Sorted(seps) && InBlocks(a[..], seps, blockSize)
  {
    seps := [];
    var blocks := (a.Length + blockSize - 1) / blockSize;
    SomeBlock(a.Length, blockSize, blocks);
    hide IsLastOf, Sorted, InBlocks;
    for i := 0 to blocks - 1
      invariant |seps| == i
      invariant forall j :: 0 <= j < i ==> IsLastOf(a[..], seps[j], j, blockSize)
    {
      BlockFits(a.Length, blockSize, blocks, i);
      var idx := (i + 1) * blockSize - 1;
      if idx < a.Length {
        LastOf(a[..], i, blockSize);
        seps := seps + [a[idx]];
      }
    }
    LastsAreSeparators(a[..], seps, blockSize);
  }

  lemma SomeBlock(n: nat, b: nat, blocks: int)
    requires n > 0 && b > 0 && blocks == (n + b - 1) / b
    ensures blocks > 0
  {}

  lemma LastOf(column: seq<int>, i: nat, b: nat)
    requires 0 < (i + 1) * b <= |column|
    ensures IsLastOf(column, column[(i + 1) * b - 1], i, b)
  {}

  lemma LastsAreSeparators(column: seq<int>, seps: seq<int>, b: nat)
    requires Sorted(column) && b > 0 && forall i :: 0 <= i < |seps| ==> IsLastOf(column, seps[i], i, b)
    ensures Sorted(seps) && InBlocks(column, seps, b)
  {
    forall j | 0 <= j < |seps| ensures InBlock(column, seps[j], j, b) {
      LastIsInBlock(column, seps[j], j, b);
    }
    forall i, j | 0 <= i < j < |seps| ensures seps[i] <= seps[j] {
      assert IsLastOf(column, seps[i], i, b) && IsLastOf(column, seps[j], j, b);
      LaterBlock(i, j, b);
    }
  }

  ghost predicate IsLastOf(column: seq<int>, sep: int, i: nat, blockSize: nat) {
    0 < (i + 1) * blockSize <= |column| && sep == column[(i + 1) * blockSize - 1]
  }

  lemma BlockFits(n: nat, b: nat, blocks: nat, i: nat)
    requires b > 0 && blocks == (n + b - 1) / b && i + 1 < blocks
    ensures 0 < (i + 1) * b <= n
  {
    QuotientFits(n + b - 1, b);
    LaterBlock(i, i + 1, b);
    BlocksGrow(i + 2, blocks, b);
    assert (i + 2) * b == (i + 1) * b + b;
  }

  lemma QuotientFits(n: nat, b: nat)
    requires b > 0
    ensures n / b * b <= n
  {}

  lemma LastIsInBlock(column: seq<int>, sep: int, i: nat, b: nat)
    requires b > 0 && IsLastOf(column, sep, i, b)
    ensures InBlock(column, sep, i, b)
  {
    var t := (i + 1) * b - 1;
    assert (i + 1) * b == i * b + b;
  }

  lemma LaterBlock(i: nat, j: nat, b: nat)
    requires i < j
    ensures (i + 1) * b <= (j + 1) * b && (i + 1) * b <= j * b
  {
    assert (j - i - 1) * b >= 0;
    assert j * b == (i + 1) * b + (j - i - 1) * b;
  }

  // Everything before the block in front of the first separator that reaches the target is less than the target.
  lemma BeforeBlockIsLess(column: seq<int>, seps: seq<int>, b: nat, target: int, block: nat, t: nat)
    requires Sorted(column) && InBlocks(column, seps, b) && b > 0
    requires 0 < block <= |seps| && seps[block - 1] < target && t < |column| && t < (block - 1) * b
    ensures column[t] < target
  {
    assert InBlock(column, seps[block - 1], block - 1, b);
    var s :| (block - 1) * b <= s < block * b && s < |column| && column[s] == seps[block - 1];
  }

  class AcceleratedArrayIterator {
    const column: array<int>
    const end: nat
    const index: EytzingerMap?
    const blockSize: nat
    var ptr: nat

    // The column is sorted; an index, if there is one, holds its sorted separators, with their block map or, in a copy,
    // without.
    ghost predicate Valid(seps: seq<int>)
      reads this, column, index, if index != null then {index.data as object, index.heapToBlock as object} else {}
    {
      && end <= column.Length && Sorted(column[..]) && blockSize > 0
      && (index != null ==>
          index.Searchable(seps) && Sorted(seps) && |seps| <= MAX_LENGTH && InBlocks(column[..], seps, blockSize))
    }

    constructor (column: array<int>, ptr: nat, end: nat, index: EytzingerMap?, blockSize: nat, ghost seps: seq<int>)
      requires end <= column.Length && Sorted(column[..]) && blockSize > 0
      requires index != null ==>
          index.Searchable(seps) && Sorted(seps) && |seps| <= MAX_LENGTH && InBlocks(column[..], seps, blockSize)
      ensures Valid(seps) && this.column == column && this.ptr == ptr && this.end == end && this.index == index
      ensures this.blockSize == blockSize
    {
      this.column := column;
      this.ptr := ptr;
      this.end := end;
      this.index := index;
      this.blockSize := blockSize;
    }

    method Advance(ghost seps: seq<int>)
      requires Valid(seps)
      modifies `ptr
      ensures old(ptr) >= end ==> ptr == old(ptr)
      ensures old(ptr) < end ==>
          old(ptr) < ptr <= end && (forall t :: old(ptr) <= t < ptr ==> column[t] == column[old(ptr)])
      ensures old(ptr) < end && ptr < end ==> column[ptr] > column[old(ptr)]
    {
      if ptr < end {
        ptr := SkipDuplicates(column, ptr, end);
      }
    }

    // With the block map, or with at most three separators, seeking lands exactly where a plain lower bound from the
    // current position would, and never moves backwards.
    method SeekTo(target: int, ghost seps: seq<int>)
      requires Valid(seps)
      modifies `ptr
      ensures ptr == Sought(column[..], if index == null then 0
                                          else JumpTo(seps, index.heapToBlock.Length > 0, blockSize, target), old(ptr),
                                          end, target)
      ensures index == null || index.heapToBlock.Length > 0 || |seps| <= 3 ==>
          SeeksTo(column[..], old(ptr), end, target, ptr)
      ensures ptr >= old(ptr)
    {
      ghost var start := if index == null then 0 else JumpTo(seps, index.heapToBlock.Length > 0, blockSize, target);
      if index == null || index.heapToBlock.Length > 0 || |seps| <= 3 {
        if index != null {
          SafeJumpIsPlain(column[..], seps, index.heapToBlock.Length > 0, blockSize, ptr, end, target);
        } else {
          SoughtIsPlain(column[..], 0, ptr, end, target);
        }
      }
      hide Sorted, InBlocks, Answer, LowerFrom;
      if ptr >= end { return; }
      if column[ptr] >= target { return; }
      if index == null || index.data.Length == 0 {
        EmptyJump(seps, blockSize, target);
        ScanFrom(ptr, target);
        return;
      }
      var block := index.Search(target, seps);
      if block >= index.data.Length { block := index.data.Length; }
      if block > 0 { block := block - 1; }
      var blockStart := block * blockSize;
      var from := if blockStart > ptr then blockStart else ptr;
      if from >= end {
        ptr := end;
        return;
      }
      ScanWindow(from, target);
    }

    method ScanFrom(from: nat, target: int)
      requires from <= end <= column.Length && Sorted(column[..])
      modifies `ptr
      ensures ptr == LowerFrom(column[..], from, end, target)
    {
      var offset := AdaptiveLowerBound(column, from, end - from, target);
      ptr := from + offset;
      LowerFromUnique(column[..], from, end, target, ptr);
    }

    // Scans a window of 256 elements, and on when it holds nothing that reaches the target.
    method ScanWindow(from: nat, target: int)
      requires from < end <= column.Length && Sorted(column[..])
      modifies `ptr
      ensures ptr == LowerFrom(column[..], from, end, target)
    {
      var left := end - from;
      var len := if left < WINDOW then left else WINDOW;
      var offset := AdaptiveLowerBound(column, from, len, target);
      ptr := from + offset;
      if offset == len && ptr < end && column[ptr] < target {
        var more := AdaptiveLowerBound(column, ptr, end - ptr, target);
        ptr := ptr + more;
      }
      hide Sorted;
      LowerFromUnique(column[..], from, end, target, ptr);
    }
  }

  lemma EmptyJump(seps: seq<int>, b: nat, target: int)
    ensures |seps| == 0 ==> JumpTo(seps, true, b, target) == 0 && JumpTo(seps, false, b, target) == 0
  {}

  // A start that skips only smaller elements changes nothing.
  lemma SoughtIsPlain(column: seq<int>, start: nat, p: nat, end: nat, target: int)
    requires end <= |column| && forall t: nat :: t < |column| && t < start ==> column[t] < target
    ensures SeeksTo(column, p, end, target, Sought(column, start, p, end, target))
  {}

  lemma SafeJumpIsPlain(column: seq<int>, seps: seq<int>, mapped: bool, b: nat, p: nat, end: nat, target: int)
    requires Sorted(column) && Sorted(seps) && InBlocks(column, seps, b) && b > 0 && |seps| <= MAX_LENGTH
    requires (mapped || |seps| <= 3) && end <= |column|
    ensures SeeksTo(column, p, end, target, Sought(column, JumpTo(seps, mapped, b, target), p, end, target))
  {
    hide *;
    JumpIsSafe(column, seps, mapped, b, target);
    SoughtIsPlain(column, JumpTo(seps, mapped, b, target), p, end, target);
  }

  // The trees of up to three nodes.
  lemma SmallOrders()
    ensures InOrder(1, 1) == [1] && InOrder(2, 1) == [2, 1] && InOrder(3, 1) == [2, 1, 3]
  {
    assert InOrder(2, 2) == [2] && InOrder(3, 2) == [2] && InOrder(3, 3) == [3];
  }

  // Without the block map a heap position stands for a block: among at most three, never for one past the answer's
  // front.
  lemma SmallHeapsStayBehind(seps: seq<int>, target: int)
    requires 0 < |seps| <= 3
    ensures var lb := LowerBound(seps, target); lb < |seps| ==> Answer(seps, false, target) <= if lb == 0 then 1 else lb
  {
    SmallOrders();
  }

  // Nothing the jump skips could be the answer.
  lemma JumpIsSafe(column: seq<int>, seps: seq<int>, mapped: bool, b: nat, target: int)
    requires Sorted(column) && Sorted(seps) && InBlocks(column, seps, b) && b > 0 && |seps| <= MAX_LENGTH
    requires mapped || |seps| <= 3
    ensures forall t: nat :: t < |column| && t < JumpTo(seps, mapped, b, target) ==> column[t] < target
  {
    hide IsLowerBound, Sorted, LowerBound;
    MappedAnswerIsLowerBound(seps, target);
    LowerBoundIs(seps, target);
    if |seps| > 0 {
      var lb := LowerBound(seps, target);
      if !mapped { SmallHeapsStayBehind(seps, target); }
      var found := Answer(seps, mapped, target);
      var block := if found >= |seps| then |seps| else found;
      assert block <= if lb == 0 then 1 else lb;
      hide InBlocks, Answer;
      if lb > 0 && block > 1 {
        BlocksGrow(block - 1, lb - 1, b);
        forall t: nat | t < |column| && t < JumpTo(seps, mapped, b, target) ensures column[t] < target {
          BeforeBlockIsLess(column, seps, b, target, lb, t);
        }
      }
    }
  }

  lemma BlocksGrow(i: nat, j: nat, b: nat)
    requires i <= j
    ensures i * b <= j * b
  {}

  // --- Seeking without the block map ---

  // The separators of a column cut into blocks of b: the last value of each block but the final one.
  ghost predicate SeparatorsOf(column: seq<int>, seps: seq<int>, b: nat) {
    && Sorted(column) && column != [] && b > 0
    && |seps| == (|column| + b - 1) / b - 1
    && forall i :: 0 <= i < |seps| ==> IsLastOf(column, seps[i], i, b)
  }

  ghost predicate UnmappedIsPlain(column: seq<int>, seps: seq<int>, b: nat, p: nat, end: nat, target: int)
    requires end <= |column|
  {
    SeeksTo(column, p, end, target, Sought(column, JumpTo(seps, false, b, target), p, end, target))
  }

  // For blocks of any size (the runtime's have 64 elements): the copied index of a column with n separators seeks like
  // a plain lower bound, for all such columns, positions and targets, exactly when n is at most three, or at most four
  // if a block is a single element.
  lemma UnmappedSeeksIff(n: nat, b: nat)
    requires n <= MAX_LENGTH && b > 0
    ensures (forall column, seps, p, end: nat, target ::
                SeparatorsOf(column, seps, b) && |seps| == n && end <= |column| ==>
                UnmappedIsPlain(column, seps, b, p, end, target))
            <==> n <= if b == 1 then 4 else 3
  {
    hide SeparatorsOf, UnmappedIsPlain;
    if n <= if b == 1 then 4 else 3 {
      forall column, seps, p, end: nat, target | SeparatorsOf(column, seps, b) && |seps| == n && end <= |column|
        ensures UnmappedIsPlain(column, seps, b, p, end, target)
      {
        if n <= 3 {
          FewSeparators(column, seps, b, p, end, target);
        } else {
          FourSingles(column, seps, p, end, target);
        }
      }
    } else {
      LastsFit(n, b);
      if b == 1 { var target := SinglesSkip(n); } else { UnmappedSkips(n, b); }
    }
  }

  lemma FewSeparators(column: seq<int>, seps: seq<int>, b: nat, p: nat, end: nat, target: int)
    requires SeparatorsOf(column, seps, b) && |seps| <= 3 && end <= |column|
    ensures UnmappedIsPlain(column, seps, b, p, end, target)
  {
    LastsAreSeparators(column, seps, b);
    SafeJumpIsPlain(column, seps, false, b, p, end, target);
  }

  // Four blocks of one element, and a fifth: the jump is short enough, unless the search is over where it starts.
  lemma FourSingles(column: seq<int>, seps: seq<int>, p: nat, end: nat, target: int)
    requires SeparatorsOf(column, seps, 1) && |seps| == 4 && end <= |column|
    ensures UnmappedIsPlain(column, seps, 1, p, end, target)
  {
    hide IsLastOf, LowerBound;
    LastsAreSeparators(column, seps, 1);
    forall i | 0 <= i < 4 ensures seps[i] == column[i] {
      assert IsLastOf(column, seps[i], i, 1);
    }
    FourJumps(seps, target);
    LowerBoundIs(seps, target);
    hide JumpTo, InBlocks;
    if p < end && column[p] < target {
      assert column[0] <= column[p];
      SoughtIsPlain(column, JumpTo(seps, false, 1, target), p, end, target);
    }
  }

  lemma FourJumps(seps: seq<int>, target: int)
    requires |seps| == 4
    ensures var lb := LowerBound(seps, target); lb > 0 ==> JumpTo(seps, false, 1, target) <= lb
  {
    hide LowerBound;
    assert InOrder(4, 4) == [4] && InOrder(4, 2) == [4, 2] && InOrder(4, 3) == [3] && InOrder(4, 1) == [4, 2, 1, 3];
    hide InOrder;
  }

  function Counted(n: nat): (s: seq<int>)
    ensures |s| == n && forall t :: 0 <= t < n ==> s[t] == t
  {
    seq(n, t => t)
  }

  // The last values of the first n blocks of b numbers counted from 0.
  function Lasts(n: nat, b: nat): (s: seq<int>)
    ensures |s| == n && forall i :: 0 <= i < n ==> s[i] == (i + 1) * b - 1
  {
    seq(n, i => (i + 1) * b - 1)
  }

  lemma LastsFit(n: nat, b: nat)
    requires b > 0
    ensures SeparatorsOf(Counted(b * (n + 1)), Lasts(n, b), b)
  {
    BlockCount(n, b);
    forall i | 0 <= i < n ensures IsLastOf(Counted(b * (n + 1)), Lasts(n, b)[i], i, b) {
      LaterBlock(i, n, b);
      assert (i + 1) * b > 0;
    }
  }

  lemma BlockCount(n: nat, b: nat)
    requires b > 0
    ensures b * (n + 1) > 0 && (b * (n + 1) + b - 1) / b == n + 1
  {
    assert b * (n + 1) + b - 1 == (n + 1) * b + (b - 1);
    DivMod(n + 1, b - 1, b);
  }

  lemma DivMod(q: nat, r: nat, b: nat)
    requires r < b
    ensures (q * b + r) / b == q
  {
    var x := q * b + r;
    SameQuotient(x / b, x % b, q, r, b);
  }

  lemma SameQuotient(d: int, m: nat, q: int, r: nat, b: nat)
    requires m < b && r < b && d * b + m == q * b + r
    ensures d == q
  {
    if d > q { Apart(q, d, b); }
    if d < q { Apart(d, q, b); }
  }

  lemma Apart(q: int, d: int, b: nat)
    requires q < d
    ensures q * b + b <= d * b
  {
    assert (d - q - 1) * b >= 0;
    assert d * b == q * b + b + (d - q - 1) * b;
  }

  // Sought from the front, the first separator is at the end of the first block, but its heap position sends the search
  // to the third block or further.
  lemma UnmappedSkips(n: nat, b: nat)
    requires 4 <= n <= MAX_LENGTH && b > 1
    ensures !UnmappedIsPlain(Counted(b * (n + 1)), Lasts(n, b), b, 0, b * (n + 1), b - 1)
  {
    var column, seps := Counted(b * (n + 1)), Lasts(n, b);
    var start, end := JumpTo(seps, false, b, b - 1), b * (n + 1);
    FirstIsFar(n, b);
    Apart(0, n + 1, b);
    hide InOrder, JumpTo;
    assert b <= end == |column| && column[0] < column[b - 1] == b - 1;
    assert Sought(column, start, 0, end, b - 1) >= b;
  }

  lemma FirstIsFar(n: nat, b: nat)
    requires 4 <= n <= MAX_LENGTH && b > 0
    ensures JumpTo(Lasts(n, b), false, b, b - 1) >= 2 * b
  {
    var seps := Lasts(n, b);
    assert seps[0] == b - 1 && LowerBound(seps, b - 1) == 0;
    LeftmostIsBelow(n, 2);
    LeftmostIsBelow(n, 1);
    assert InOrder(n, 1)[0] == InOrder(n, 2)[0] >= 4;
    var found := Answer(seps, false, b - 1);
    assert found == HeapPosition(n, 0) >= 3;
    var block := if found >= n then n else found;
    BlocksGrow(2, block - 1, b);
  }

  // With blocks of one element the second separator, or for a smaller index the third, is sent too far.
  lemma SinglesSkip(n: nat) returns (target: nat)
    requires 5 <= n <= MAX_LENGTH
    ensures !UnmappedIsPlain(Counted(n + 1), Lasts(n, 1), 1, 0, n + 1, target)
  {
    var column, seps := Counted(n + 1), Lasts(n, 1);
    target := if n >= 8 then 1 else 2;
    if n >= 8 { SecondIsFar(n); } else { ThirdIsFar(n); }
    var start := JumpTo(seps, false, 1, target);
    hide InOrder, JumpTo;
    assert Sought(column, start, 0, n + 1, target) > target && column[target] == target;
  }

  lemma {:induction false} SecondIsBelow(n: nat, k: nat)
    requires k > 0 && 2 * k <= n
    ensures |InOrder(n, k)| > 1 && InOrder(n, k)[1] >= k
    ensures 4 * k <= n ==> InOrder(n, k)[1] >= 2 * k
    ensures 8 * k <= n ==> InOrder(n, k)[1] >= 4 * k
    decreases n - k
  {
    if 4 * k <= n {
      SecondIsBelow(n, 2 * k);
      assert InOrder(n, k)[1] == InOrder(n, 2 * k)[1];
    } else {
      assert InOrder(n, 4 * k) == [] && InOrder(n, 4 * k + 1) == [];
      assert InOrder(n, 2 * k) == [2 * k];
    }
  }

  lemma SecondIsFar(n: nat)
    requires 8 <= n <= MAX_LENGTH
    ensures JumpTo(Lasts(n, 1), false, 1, 1) >= 2
  {
    var seps := Lasts(n, 1);
    LowerBoundUnique(seps, 1, 1);
    SecondIsBelow(n, 1);
    assert Answer(seps, false, 1) == HeapPosition(n, 1) >= 3;
  }

  lemma ThirdIsFar(n: nat)
    requires 5 <= n < 8
    ensures JumpTo(Lasts(n, 1), false, 1, 2) >= 3
  {
    var seps := Lasts(n, 1);
    LowerBoundUnique(seps, 2, 2);
    assert InOrder(n, 4) == [4] && InOrder(n, 5) == [5] && InOrder(n, 2) == [4, 2, 5];
    assert InOrder(n, 1)[2] == 5;
    assert Answer(seps, false, 2) == HeapPosition(n, 2) == 4;
  }
}
