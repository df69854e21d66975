/** The Eytzinger layout: an in-order fill of an implicit binary heap, and branchless search with a bit decode. */
module Eytzinger {
  import opened Seqs

  // The largest size_t, and the largest vector length.
  const SIZE_MAX: nat := 0xFFFF_FFFF_FFFF_FFFF
  const MAX_LENGTH: nat := 0x0FFF_FFFF_FFFF_FFFF

  ghost predicate Sorted(s: seq<int>) {
    forall i, j :: 0 <= i < j < |s| ==> s[i] <= s[j]
  }

  // The first position of s not less than key.
  ghost predicate IsLowerBound(s: seq<int>, key: int, r: nat) {
    r <= |s| && (forall t :: 0 <= t < r ==> s[t] < key) && forall t :: r <= t < |s| ==> s[t] >= key
  }

  // --- The implicit tree: node k has children 2k and 2k + 1, nodes are 1..n ---

  // The nodes of k's subtree, in order.
  function InOrder(n: nat, k: nat): (r: seq<nat>)
    requires k > 0
    ensures k > n ==> r == []
    decreases if k > n then 0 else n + 1 - k
  {
    if k > n then [] else InOrder(n, 2 * k) + [k] + InOrder(n, 2 * k + 1)
  }

  // j lies in k's subtree.
  predicate Below(k: nat, j: nat) {
    j == k || (j > k && Below(k, j / 2))
  }

  lemma {:induction false} BelowChild(k: nat, j: nat)
    requires k > 0
    ensures Below(k, j) <==> j == k || Below(2 * k, j) || Below(2 * k + 1, j)
    ensures !(Below(2 * k, j) && Below(2 * k + 1, j))
    ensures Below(k, j) ==> j >= k
    decreases j
  {
    if j > 0 { BelowChild(k, j / 2); }
    if j > 2 * k + 1 {
      assert j / 2 > k;
    }
  }

  // k's subtree holds exactly the nodes below k.
  ghost predicate HoldsBelow(n: nat, k: nat)
    requires k > 0
  {
    forall j: nat :: j in InOrder(n, k) <==> Below(k, j) && j <= n
  }

  lemma {:induction false} InOrderHolds(n: nat, k: nat)
    requires k > 0
    ensures HoldsBelow(n, k) && NoDup(InOrder(n, k))
    decreases if k > n then 0 else n + 1 - k
  {
    if k > n {
      forall j: nat | Below(k, j) ensures j > n { BelowChild(k, j); }
    } else {
      InOrderHolds(n, 2 * k);
      InOrderHolds(n, 2 * k + 1);
      var l: seq<nat>, r: seq<nat> := InOrder(n, 2 * k), InOrder(n, 2 * k + 1);
      Separate(n, k);
      forall j: nat ensures j in l + [k] + r <==> Below(k, j) && j <= n {
        BelowChild(k, j);
      }
      hide Below, HoldsBelow;
      var all := l + [k] + r;
      forall a, b | 0 <= a < b < |all| ensures all[a] != all[b] {
        if a < |l| { assert l[a] in l; }
        if b > |l| { assert r[b - |l| - 1] in r; }
      }
    }
  }

  lemma Separate(n: nat, k: nat)
    requires k > 0 && HoldsBelow(n, 2 * k) && HoldsBelow(n, 2 * k + 1)
    ensures k !in InOrder(n, 2 * k) && k !in InOrder(n, 2 * k + 1)
    ensures forall j :: j in InOrder(n, 2 * k) ==> j !in InOrder(n, 2 * k + 1)
  {
    BelowChild(2 * k, k);
    BelowChild(2 * k + 1, k);
    forall j | j in InOrder(n, 2 * k) ensures j !in InOrder(n, 2 * k + 1) {
      BelowChild(k, j);
    }
  }

  lemma {:induction false} EveryNodeBelowRoot(j: nat)
    requires j > 0
    ensures Below(1, j)
  {
    if j > 1 { EveryNodeBelowRoot(j / 2); }
  }

  function Nodes(n: nat): (r: set<nat>)
    ensures |r| == n && forall j: nat :: j in r <==> 1 <= j <= n
  {
    if n == 0 then {} else Nodes(n - 1) + {n}
  }

  // The whole tree holds each of 1..n once.
  lemma OrderIsPermutation(n: nat)
    ensures |InOrder(n, 1)| == n && NoDup(InOrder(n, 1))
    ensures forall j: nat :: j in InOrder(n, 1) <==> 1 <= j <= n
  {
    InOrderHolds(n, 1);
    var order: seq<nat> := InOrder(n, 1);
    forall j: nat ensures j in order <==> 1 <= j <= n {
      if 1 <= j { EveryNodeBelowRoot(j); }
      if j in order { BelowChild(1, j); }
    }
    assert Elems<nat>(order) == Nodes(n);
    NoDupCard<nat>(order);
  }

  // --- The map ---

  // Position t of the sorted separators sits at heap position order[t] - 1.
  ghost predicate Filled(data: seq<int>, blocks: seq<nat>, order: seq<nat>, src: seq<int>, from: nat)
  {
    from + |order| <= |src| && forall t ::
        0 <= t < |order| ==> FilledAt(data, blocks, order[t], src[from + t], from + t)
  }

  ghost predicate FilledAt(data: seq<int>, blocks: seq<nat>, j: nat, value: int, block: nat) {
    0 < j <= |data| == |blocks| && data[j - 1] == value && blocks[j - 1] == block
  }

  // Heap positions outside the nodes are untouched.
  ghost predicate Untouched<T>(a: seq<T>, b: seq<T>, nodes: seq<nat>) {
    |a| == |b| && forall j: nat :: 0 < j <= |a| && j !in nodes ==> a[j - 1] == b[j - 1]
  }

  lemma FilledKept(data: seq<int>, blocks: seq<nat>, data': seq<int>, blocks': seq<nat>, order: seq<nat>,
                   nodes: seq<nat>, src: seq<int>, from: nat)
    requires Filled(data, blocks, order, src, from) && Untouched(data, data', nodes)
    requires Untouched(blocks, blocks', nodes)
    requires forall j :: j in order ==> j !in nodes
    ensures Filled(data', blocks', order, src, from)
  {
    forall t | 0 <= t < |order| ensures FilledAt(data', blocks', order[t], src[from + t], from + t) {
      assert order[t] in order;
      assert FilledAt(data, blocks, order[t], src[from + t], from + t);
    }
  }

  lemma FilledJoin(data: seq<int>, blocks: seq<nat>, l: seq<nat>, k: nat, r: seq<nat>, src: seq<int>, from: nat)
    requires Filled(data, blocks, l, src, from) && from + |l| < |src|
    requires FilledAt(data, blocks, k, src[from + |l|], from + |l|)
    requires Filled(data, blocks, r, src, from + |l| + 1)
    ensures Filled(data, blocks, l + [k] + r, src, from)
  {
    var all := l + [k] + r;
    forall t | 0 <= t < |all| ensures FilledAt(data, blocks, all[t], src[from + t], from + t) {
      if t < |l| {
        assert all[t] == l[t];
      } else if t > |l| {
        var s := t - |l| - 1;
        assert all[t] == r[s] && from + t == from + |l| + 1 + s;
        assert FilledAt(data, blocks, r[s], src[from + |l| + 1 + s], from + |l| + 1 + s);
      }
    }
  }

  // k with its trailing one bits, and the bit above them, shifted out: k >> (countr_one(k) + 1).
  function CountrOne(k: nat): nat {
    if k % 2 == 1 then 1 + CountrOne(k / 2) else 0
  }

  // k >> bits
  function Shift(k: nat, bits: nat): nat {
    if bits == 0 then k else Shift(k / 2, bits - 1)
  }

  function Decode(k: nat): nat {
    Shift(k, CountrOne(k) + 1)
  }

  // Going left remembers the node, going right keeps what was remembered.
  lemma DecodeSteps(k: nat)
    ensures Decode(2 * k) == k && Decode(2 * k + 1) == Decode(k)
  {
    assert Shift(2 * k, 1) == Shift(k, 0);
    assert (2 * k + 1) / 2 == k && CountrOne(2 * k + 1) == 1 + CountrOne(k);
  }

  class EytzingerMap {
    var data: array<int>
    var heapToBlock: array<nat>

    ghost predicate Built(src: seq<int>)
      reads this, data, heapToBlock
    {
      data.Length == heapToBlock.Length == |src| && Filled(data[..], heapToBlock[..], InOrder(|src|, 1), src, 0)
    }

    constructor ()
      ensures fresh(data) && fresh(heapToBlock) && data.Length == heapToBlock.Length == 0
    {
      data := new int[0];
      heapToBlock := new nat[0];
    }

    method Build(src: seq<int>)
      modifies this
      ensures fresh(data) && fresh(heapToBlock) && Built(src) && Searchable(src)
    {
      data := new int[|src|];
      heapToBlock := new nat[|src|];
      OrderIsPermutation(|src|);
      if |src| > 0 {
        var i, block := BuildRecursive(src, 0, 0, 1);
      }
      BuiltIsSearchable(src);
    }

    // Fills k's subtree with the next separators; the block counter runs with the source position.
    method BuildRecursive(src: seq<int>, i0: nat, block0: nat, k: nat) returns (i: nat, block: nat)
      requires k > 0 && data.Length == heapToBlock.Length == |src| && i0 + |InOrder(|src|, k)| <= |src| && block0 == i0
      modifies data, heapToBlock
      ensures i == block == i0 + |InOrder(|src|, k)|
      ensures Filled(data[..], heapToBlock[..], InOrder(|src|, k), src, i0)
      ensures Untouched(old(data[..]), data[..], InOrder(|src|, k))
      ensures Untouched(old(heapToBlock[..]), heapToBlock[..], InOrder(|src|, k))
      decreases if k > |src| then 0 else |src| + 1 - k
    {
      hide Filled, Untouched, FilledAt;
      i, block := i0, block0;
      if k > |src| {
        NothingFilled(data[..], heapToBlock[..], src, i0);
        return;
      }
      ghost var n, d0, b0 := |src|, data[..], heapToBlock[..];
      i, block := BuildRecursive(src, i, block, 2 * k);
      ghost var d1, b1 := data[..], heapToBlock[..];
      data[k - 1] := src[i];
      heapToBlock[k - 1] := block;
      ghost var d2, b2 := data[..], heapToBlock[..];
      PutNode(d1, b1, d2, b2, k, src[i], block);
      i := i + 1;
      block := block + 1;
      i, block := BuildRecursive(src, i, block, 2 * k + 1);
      Assemble(n, k, src, i0, d0, b0, d1, b1, d2, b2, data[..], heapToBlock[..]);
    }

    // The layout, with the block map or, in a copy, without it.
    ghost predicate Searchable(src: seq<int>)
      reads this, data, heapToBlock
    {
      && data.Length == |src| && heapToBlock.Length in {0, |src|}
      && forall t :: 0 <= t < |src| ==> NodeHolds(src, t)
    }

    ghost predicate NodeHolds(src: seq<int>, t: nat)
      reads this, data, heapToBlock
    {
      && t < |src| == data.Length && data[HeapPosition(|src|, t)] == src[t]
      && (HeapPosition(|src|, t) < heapToBlock.Length ==> heapToBlock[HeapPosition(|src|, t)] == t)
    }

    // So what Build leaves can be searched.
    lemma BuiltIsSearchable(src: seq<int>)
      requires Built(src)
      ensures Searchable(src)
    {
      OrderIsPermutation(|src|);
      forall t | 0 <= t < |src| ensures NodeHolds(src, t) {
        assert FilledAt(data[..], heapToBlock[..], InOrder(|src|, 1)[t], src[0 + t], 0 + t);
      }
    }

    // clone_from copies the separators and leaves the block map empty.
    method CloneFrom(other: EytzingerMap, ghost src: seq<int>)
      requires other.Searchable(src) && other != this
      modifies this
      ensures fresh(data) && fresh(heapToBlock) && heapToBlock.Length == 0 && Searchable(src)
    {
      var copy := new int[other.data.Length];
      forall j | 0 <= j < copy.Length { copy[j] := other.data[j]; }
      data := copy;
      heapToBlock := new nat[0];
      forall t | 0 <= t < |src| ensures NodeHolds(src, t) {
        assert other.NodeHolds(src, t);
      }
    }

    lemma StoredAt(src: seq<int>, t: nat, p: nat)
      requires Searchable(src) && t < |src| && p == HeapPosition(|src|, t)
      ensures p < data.Length && data[p] == src[t] && (p < heapToBlock.Length ==> heapToBlock[p] == t)
    {
      assert NodeHolds(src, t);
    }

    // Branchless descent, then the trailing-ones shift; size_t wraps below zero.
    method Search(key: int, ghost src: seq<int>) returns (r: nat)
      requires Searchable(src) && Sorted(src) && |src| <= MAX_LENGTH
      ensures r == Answer(src, heapToBlock.Length > 0, key)
    {
      if data.Length == 0 { return 0; }
      var k, n := 1, data.Length;
      ghost var lo, hi: nat := 0, |src|;
      DescentStarts(src, key);
      hide Descending, Sorted, LowerBound, HeapPosition, NodeHolds, Decode;
      while k <= n
        invariant Descending(src, key, k, lo, hi) && k > 0
        decreases 2 * n + 1 - k
      {
        ghost var mid := DescentStep(src, key, k, lo, hi);
        StoredAt(src, mid, k - 1);
        if data[k - 1] < key { lo := mid + 1; } else { hi := mid; }
        k := 2 * k + if data[k - 1] < key then 1 else 0;
      }
      DescentEnds(src, key, k, lo, hi);
      k := Decode(k);
      var heapIdx := if k == 0 then SIZE_MAX else k - 1;
      if hi < |src| { StoredAt(src, hi, heapIdx); }
      AnswerIs(src, heapToBlock.Length > 0, key, heapIdx);
      hide LowerBound, Answer, HeapPosition, NodeHolds;
      if heapIdx < heapToBlock.Length {
        return heapToBlock[heapIdx];
      }
      return heapIdx;
    }
  }

  // --- Search ---

  function LowerBound(s: seq<int>, key: int): (r: nat)
    ensures r <= |s|
  {
    if |s| == 0 || s[0] >= key then 0 else 1 + LowerBound(s[1..], key)
  }

  lemma {:induction false} LowerBoundUnique(s: seq<int>, key: int, r: nat)
    requires IsLowerBound(s, key, r)
    ensures LowerBound(s, key) == r
  {
    if |s| > 0 && s[0] < key { LowerBoundUnique(s[1..], key, r - 1); }
  }

  // The descent has reached k: the answer's rank is between lo and hi, and k's bits remember the node at rank hi.
  ghost predicate Descending(src: seq<int>, key: int, k: nat, lo: nat, hi: nat) {
    var order := InOrder(|src|, 1);
    && k > 0 && lo <= hi <= |src| == |order| && order[lo..hi] == InOrder(|src|, k)
    && (forall t :: 0 <= t < lo ==> src[t] < key) && (forall t :: hi <= t < |src| ==> src[t] >= key)
    && Decode(k) == if hi < |src| then order[hi] else 0
  }

  lemma DescentStarts(src: seq<int>, key: int)
    ensures Descending(src, key, 1, 0, |src|)
  {
    OrderIsPermutation(|src|);
    var order := InOrder(|src|, 1);
    assert order[0..|src|] == order;
    assert Shift(1, 2) == Shift(0, 1) == 0;
  }

  lemma DescentStep(src: seq<int>, key: int, k: nat, lo: nat, hi: nat) returns (mid: nat)
    requires Sorted(src) && Descending(src, key, k, lo, hi) && k <= |src|
    ensures lo <= mid < hi <= |src| && HeapPosition(|src|, mid) == k - 1
    ensures src[mid] < key ==> Descending(src, key, 2 * k + 1, mid + 1, hi)
    ensures src[mid] >= key ==> Descending(src, key, 2 * k, lo, mid)
  {
    var n := |src|;
    var order, l, r := InOrder(n, 1), InOrder(n, 2 * k), InOrder(n, 2 * k + 1);
    mid := lo + |l|;
    var part := order[lo..hi];
    assert part == l + [k] + r;
    assert order[mid] == part[|l|] == k;
    assert order[lo..mid] == part[..|l|] == l;
    assert order[mid + 1..hi] == part[|l| + 1..] == r;
    DecodeSteps(k);
    hide InOrder, Decode;
  }

  lemma DescentEnds(src: seq<int>, key: int, k: nat, lo: nat, hi: nat)
    requires Descending(src, key, k, lo, hi) && k > |src|
    ensures LowerBound(src, key) == hi
    ensures Decode(k) == if hi < |src| then HeapPosition(|src|, hi) + 1 else 0
  {
    assert |InOrder(|src|, 1)[lo..hi]| == 0;
    LowerBoundUnique(src, key, hi);
    if hi < |src| { OrderIsPermutation(|src|); }
  }

  // Where the separator of rank t is stored.
  function HeapPosition(n: nat, t: nat): (p: nat)
    requires t < n
    ensures p < n && t < |InOrder(n, 1)| && InOrder(n, 1)[t] == p + 1
  {
    OrderIsPermutation(n);
    assert InOrder(n, 1)[t] in InOrder(n, 1);
    InOrder(n, 1)[t] - 1
  }

  // A copy without the block map answers with heap positions.
  function Answer(src: seq<int>, mapped: bool, key: int): nat {
    var lb := LowerBound(src, key);
    if |src| == 0 then 0
    else if lb == |src| then SIZE_MAX
    else if mapped then lb
    else HeapPosition(|src|, lb)
  }

  lemma AnswerIs(src: seq<int>, mapped: bool, key: int, heapIdx: nat)
    requires |src| > 0 && heapIdx == if LowerBound(src, key) < |src| then HeapPosition(|src|, LowerBound(src, key))
                                       else SIZE_MAX
    ensures Answer(src, mapped, key) == if mapped && LowerBound(src, key) < |src| then LowerBound(src, key) else heapIdx
  {}

  lemma {:induction false} LowerBoundIs(s: seq<int>, key: int)
    requires Sorted(s)
    ensures IsLowerBound(s, key, LowerBound(s, key))
  {
    if |s| > 0 && s[0] < key {
      LowerBoundIs(s[1..], key);
      var r := LowerBound(s[1..], key);
      forall t | 0 <= t < 1 + r ensures s[t] < key { if t > 0 { assert s[t] == s[1..][t - 1]; } }
      forall t | 1 + r <= t < |s| ensures s[t] >= key { assert s[t] == s[1..][t - 1]; }
    }
  }

  // With the block map, any key finds the first separator not less than it, or something past the end.
  lemma MappedAnswerIsLowerBound(src: seq<int>, key: int)
    requires Sorted(src) && |src| <= MAX_LENGTH
    ensures var r := Answer(src, true, key);
      if r < |src| then IsLowerBound(src, key, r) else IsLowerBound(src, key, |src|)
  {
    LowerBoundIs(src, key);
  }

  lemma {:induction false} LeftmostIsBelow(n: nat, k: nat)
    requires 0 < k <= n
    ensures |InOrder(n, k)| > 0 && InOrder(n, k)[0] >= k && (2 * k <= n ==> InOrder(n, k)[0] >= 2 * k)
    decreases n - k
  {
    if 2 * k <= n {
      LeftmostIsBelow(n, 2 * k);
      assert InOrder(n, k)[0] == InOrder(n, 2 * k)[0];
    } else {
      assert InOrder(n, 2 * k) == [];
    }
  }

  // A copy that lost the block map finds the right separator for every key exactly when there is at most one.
  lemma UnmappedAnswerIff(src: seq<int>)
    requires Sorted(src) && |src| <= MAX_LENGTH
    ensures (forall key :: Answer(src, false, key) == Answer(src, true, key)) <==> |src| <= 1
  {
    if |src| == 1 {
      assert forall key :: Answer(src, false, key) == Answer(src, true, key);
    } else if |src| > 1 {
      var key := src[0];
      LeftmostIsBelow(|src|, 1);
      assert LowerBound(src, key) == 0;
      assert Answer(src, true, key) == 0 && Answer(src, false, key) == HeapPosition(|src|, 0);
    }
  }

  lemma NothingFilled(data: seq<int>, blocks: seq<nat>, src: seq<int>, from: nat)
    requires from <= |src|
    ensures Filled(data, blocks, [], src, from) && Untouched(data, data, []) && Untouched(blocks, blocks, [])
  {}

  lemma PutNode(d: seq<int>, b: seq<nat>, d': seq<int>, b': seq<nat>, k: nat, value: int, block: nat)
    requires 0 < k <= |d| == |b| && d' == d[k - 1 := value] && b' == b[k - 1 := block]
    ensures FilledAt(d', b', k, value, block) && Untouched(d, d', [k]) && Untouched(b, b', [k])
  {}

  lemma UntouchedThen<T>(a: seq<T>, b: seq<T>, c: seq<T>, x: seq<nat>, y: seq<nat>)
    requires Untouched(a, b, x) && Untouched(b, c, y)
    ensures Untouched(a, c, x + y)
  {}

  // Left subtree, node, right subtree: each later write leaves the earlier ones in place.
  lemma Assemble(n: nat, k: nat, src: seq<int>, from: nat, d0: seq<int>, b0: seq<nat>, d1: seq<int>, b1: seq<nat>,
                 d2: seq<int>, b2: seq<nat>, d3: seq<int>, b3: seq<nat>)
    requires 0 < k <= n == |src| && from + |InOrder(n, k)| <= |src|
    requires var l, r := InOrder(n, 2 * k), InOrder(n, 2 * k + 1);
      && Filled(d1, b1, l, src, from) && Untouched(d0, d1, l) && Untouched(b0, b1, l)
      && FilledAt(d2, b2, k, src[from + |l|], from + |l|) && Untouched(d1, d2, [k]) && Untouched(b1, b2, [k])
      && Filled(d3, b3, r, src, from + |l| + 1) && Untouched(d2, d3, r) && Untouched(b2, b3, r)
    ensures Filled(d3, b3, InOrder(n, k), src, from)
    ensures Untouched(d0, d3, InOrder(n, k)) && Untouched(b0, b3, InOrder(n, k))
  {
    hide Untouched;
    var l, r := InOrder(n, 2 * k), InOrder(n, 2 * k + 1);
    InOrderHolds(n, 2 * k);
    InOrderHolds(n, 2 * k + 1);
    Separate(n, k);
    hide HoldsBelow, NoDup;
    FilledKept(d1, b1, d2, b2, l, [k], src, from);
    FilledKept(d2, b2, d3, b3, l, r, src, from);
    NodeKept(d2, b2, d3, b3, k, r, src[from + |l|], from + |l|);
    FilledJoin(d3, b3, l, k, r, src, from);
    UntouchedThen(d0, d1, d2, l, [k]);
    UntouchedThen(d0, d2, d3, l + [k], r);
    UntouchedThen(b0, b1, b2, l, [k]);
    UntouchedThen(b0, b2, b3, l + [k], r);
  }

  lemma NodeKept(d: seq<int>, b: seq<nat>, d': seq<int>, b': seq<nat>, k: nat, nodes: seq<nat>, value: int, block: nat)
    requires FilledAt(d, b, k, value, block) && Untouched(d, d', nodes) && Untouched(b, b', nodes) && k !in nodes
    ensures FilledAt(d', b', k, value, block)
  {}
}
