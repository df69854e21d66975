/** `select_indices`: which indexes of a relation a stratum maintains, and which one is canonical. */
module IndexSelection {
  import opened Datalog
  import opened Seqs
  import opened SemiNaive
  import opened ClauseOrder
  import opened Planner
  import opened Maintenance
  import opened LoweringTheorem

  // --- Collecting the indexes that variants read ---

  function PatternCols(patterns: seq<AccessPattern>, rel: string, versions: set<Version>): set<Cols> {
    set p | p in patterns && p.rel == rel && p.version in versions :: p.indexCols
  }

  function ReadCols(plans: seq<Plan>, rel: string, versions: set<Version>): set<Cols> {
    if |plans| == 0 then {} else
      var last := plans[|plans| - 1];
      ReadCols(plans[..|plans| - 1], rel, versions) + PatternCols(last.access, rel, versions) +
          PatternCols(last.negations, rel, versions)
  }

  function Listed(out: map<string, set<Cols>>, rel: string): set<Cols> {
    if rel in out then out[rel] else {}
  }

  method CollectFrom(out0: map<string, set<Cols>>, patterns: seq<AccessPattern>, versions: set<Version>)
    returns (out: map<string, set<Cols>>)
    ensures forall rel :: Listed(out, rel) == Listed(out0, rel) + PatternCols(patterns, rel, versions)
  {
    out := out0;
    for k := 0 to |patterns|
      invariant forall rel :: Listed(out, rel) == Listed(out0, rel) + PatternCols(patterns[..k], rel, versions)
    {
      var p := patterns[k];
      ghost var before := out;
      if p.version in versions {
        out := out[p.rel := Listed(out, p.rel) + {p.indexCols}];
      }
      forall rel ensures Listed(out, rel) == Listed(out0, rel) + PatternCols(patterns[..k + 1], rel, versions) {
        assert patterns[..k + 1] == patterns[..k] + [p];
        PatternColsAppend(patterns[..k], p, rel, versions);
        assert Listed(before, rel) == Listed(out0, rel) + PatternCols(patterns[..k], rel, versions);
      }
    }
    assert patterns[..|patterns|] == patterns;
  }

  lemma PatternColsAppend(patterns: seq<AccessPattern>, p: AccessPattern, rel: string, versions: set<Version>)
    ensures PatternCols(patterns + [p], rel, versions) ==
      PatternCols(patterns, rel, versions) + if p.rel == rel && p.version in versions then {p.indexCols} else {}
  {
    var all, some := PatternCols(patterns + [p], rel, versions), PatternCols(patterns, rel, versions);
    forall c ensures c in all <==> c in some || (p.rel == rel && p.version in versions && c == p.indexCols) {
      if c in some {
        var q :| q in patterns && q.rel == rel && q.version in versions && c == q.indexCols;
        assert q in patterns + [p];
      }
      if p.rel == rel && p.version in versions && c == p.indexCols {
        assert p in patterns + [p];
      }
    }
  }

  method CollectIndices(plans: seq<Plan>, versions: set<Version>) returns (out: map<string, set<Cols>>)
    ensures forall rel :: Listed(out, rel) == ReadCols(plans, rel, versions)
  {
    out := map[];
    for k := 0 to |plans|
      invariant forall rel :: Listed(out, rel) == ReadCols(plans[..k], rel, versions)
    {
      assert plans[..k + 1][..k] == plans[..k];
      out := CollectFrom(out, plans[k].access, versions);
      out := CollectFrom(out, plans[k].negations, versions);
    }
    assert plans[..|plans|] == plans;
  }

  lemma {:induction false} ReadColsListed(plans: seq<Plan>, rel: string, versions: set<Version>, k: nat,
                                          p: AccessPattern)
    requires k < |plans| && (p in plans[k].access || p in plans[k].negations) && p.rel == rel && p.version in versions
    ensures p.indexCols in ReadCols(plans, rel, versions)
  {
    if k < |plans| - 1 { ReadColsListed(plans[..|plans| - 1], rel, versions, k, p); }
  }

  // Pattern p of plan k reads the relation in one of the versions.
  ghost predicate PlanReads(plans: seq<Plan>, k: nat, p: AccessPattern, rel: string, versions: set<Version>) {
    k < |plans| && (p in plans[k].access || p in plans[k].negations) && p.rel == rel && p.version in versions
  }

  lemma {:induction false} ReadColsFrom(plans: seq<Plan>, rel: string, versions: set<Version>, c: Cols)
    returns (k: nat, p: AccessPattern)
    requires c in ReadCols(plans, rel, versions)
    ensures PlanReads(plans, k, p, rel, versions) && p.indexCols == c
  {
    var init, last := plans[..|plans| - 1], plans[|plans| - 1];
    if c in ReadCols(init, rel, versions) {
      k, p := ReadColsFrom(init, rel, versions, c);
    } else {
      k := |plans| - 1;
      p :| (p in last.access || p in last.negations) && p.rel == rel && p.version in versions && p.indexCols == c;
    }
  }

  // The columns collected are those of the patterns that read.
  lemma ReadColsIff(plans: seq<Plan>, rel: string, versions: set<Version>, c: Cols)
    ensures c in ReadCols(plans, rel, versions) <==>
            exists k, p :: PlanReads(plans, k, p, rel, versions) && p.indexCols == c
  {
    if c in ReadCols(plans, rel, versions) { var k, p := ReadColsFrom(plans, rel, versions, c); }
    if k: nat, p :| PlanReads(plans, k, p, rel, versions) && p.indexCols == c {
      ReadColsListed(plans, rel, versions, k, p);
    }
  }

  // --- Required indexes and the canonical one ---

  function Identity(n: nat): (r: Cols)
    ensures |r| == n && forall k :: 0 <= k < n ==> r[k] == k
  {
    seq(n, k => k)
  }

  // Appends the completed indexes that are new; tuples lists a set in any order.
  function AppendUnique(dest: seq<Cols>, tuples: seq<Cols>, arity: nat): (r: seq<Cols>)
    ensures dest <= r
    ensures forall c :: c in r <==> c in dest || exists k :: 0 <= k < |tuples| && c == CompleteIndex(tuples[k], arity)
  {
    if |tuples| == 0 then dest else
      var r := AppendUnique(dest, tuples[..|tuples| - 1], arity);
      var c := CompleteIndex(tuples[|tuples| - 1], arity);
      if c in r then r else r + [c]
  }

  // The indexes of one relation: its own reads, else every index some stratum reads, else the identity;
  // a lattice relation's key-then-value layout goes first.
  function Required(first: seq<Cols>, second: seq<Cols>, global: seq<Cols>, arity: nat, layout: seq<Cols>): seq<Cols> {
    var own := AppendUnique(AppendUnique([], first, arity), second, arity);
    var some := if own == [] then AppendUnique([], global, arity) else own;
    var indices := if some == [] then [Identity(arity)] else some;
    if |layout| > 0 && layout[0] !in indices then [layout[0]] + indices else indices
  }

  function FirstOf(indices: seq<Cols>, arity: nat, full: set<Cols>, anyFull: bool): (r: seq<Cols>)
    ensures |r| <= 1 && forall c :: c in r ==> c in indices && |c| == arity && (anyFull || c in full)
    ensures r == [] ==> forall c :: c in indices && |c| == arity ==> !anyFull && c !in full
  {
    if |indices| == 0 then []
    else if |indices[0]| == arity && (anyFull || indices[0] in full) then [indices[0]]
    else FirstOf(indices[1..], arity, full, anyFull)
  }

  // A full-arity index that joins read as FULL if there is one, else any full-arity index, else the identity.
  function Canonical(indices: seq<Cols>, arity: nat, full: set<Cols>): Cols {
    var read := FirstOf(indices, arity, full, false);
    var any := FirstOf(indices, arity, full, true);
    if read != [] then read[0] else if any != [] then any[0] else Identity(arity)
  }

  method FindFirst(indices: seq<Cols>, arity: nat, full: set<Cols>, anyFull: bool) returns (r: seq<Cols>)
    ensures r == FirstOf(indices, arity, full, anyFull)
  {
    var k := 0;
    while k < |indices|
      invariant k <= |indices| && FirstOf(indices, arity, full, anyFull) == FirstOf(indices[k..], arity, full, anyFull)
    {
      if |indices[k]| == arity && (anyFull || indices[k] in full) { return [indices[k]]; }
      assert indices[k..][1..] == indices[k + 1..];
      k := k + 1;
    }
    r := [];
  }

  method AppendUniqueIndices(dest: seq<Cols>, tuples: seq<Cols>, arity: nat) returns (r: seq<Cols>)
    ensures r == AppendUnique(dest, tuples, arity)
  {
    r := dest;
    for k := 0 to |tuples|
      invariant r == AppendUnique(dest, tuples[..k], arity)
    {
      assert tuples[..k + 1][..k] == tuples[..k];
      var c := CompleteIndex(tuples[k], arity);
      if c !in r { r := r + [c]; }
    }
    assert tuples[..|tuples|] == tuples;
  }

  method SelectFor(first: seq<Cols>, second: seq<Cols>, global: seq<Cols>, arity: nat, layout: seq<Cols>,
                   full: set<Cols>)
    returns (indices: seq<Cols>, canonical: Cols)
    ensures indices == Required(first, second, global, arity, layout)
    ensures canonical == if |layout| > 0 then layout[0] else Canonical(indices, arity, full)
  {
    indices := AppendUniqueIndices([], first, arity);
    indices := AppendUniqueIndices(indices, second, arity);
    if indices == [] {
      indices := AppendUniqueIndices([], global, arity);
    }
    if indices == [] {
      indices := [Identity(arity)];
    }
    if |layout| > 0 {
      if layout[0] !in indices {
        indices := [layout[0]] + indices;
      }
      canonical := layout[0];
    } else {
      var read := FindFirst(indices, arity, full, false);
      if read != [] {
        canonical := read[0];
      } else {
        var any := FindFirst(indices, arity, full, true);
        canonical := if any != [] then any[0] else Identity(arity);
      }
    }
  }

  // --- What selection guarantees ---

  ghost predicate Permutations(tuples: seq<Cols>, arity: nat) {
    forall k :: 0 <= k < |tuples| ==> IsPermutation(tuples[k], arity)
  }

  lemma CompletePermutation(c: Cols, arity: nat)
    requires IsPermutation(c, arity)
    ensures CompleteIndex(c, arity) == c
  {
    CompleteIsSame(c, arity);
  }

  lemma IdentityPermutation(n: nat)
    ensures IsPermutation(Identity(n), n)
  {
    var r := Identity(n);
    forall c: nat | c < n ensures c in r { assert r[c] == c; }
  }

  // The indexes a relation gets, without its layout: its own reads, else the other strata's, else the identity.
  ghost predicate Wished(first: seq<Cols>, second: seq<Cols>, global: seq<Cols>, arity: nat, c: Cols) {
    if first != [] || second != [] then c in first || c in second
    else if global != [] then c in global
    else IsIdentity(c, arity)
  }

  ghost predicate IsIdentity(c: Cols, arity: nat) {
    |c| == arity && forall k :: 0 <= k < arity ==> c[k] == k
  }

  // The canonical index at position k: the first that is read as FULL, or the first of all if none is.
  ghost predicate FirstRead(indices: seq<Cols>, full: set<Cols>, k: nat) {
    && k < |indices|
    && if exists c :: c in indices && c in full then indices[k] in full && forall j ::
        0 <= j < k ==> indices[j] !in full
       else k == 0
  }

  lemma RequiredIff(first: seq<Cols>, second: seq<Cols>, global: seq<Cols>, arity: nat, layout: seq<Cols>, c: Cols)
    requires Permutations(first, arity) && Permutations(second, arity) && Permutations(global, arity)
    ensures c in Required(first, second, global, arity, layout) <==>
            (layout != [] && c == layout[0]) || Wished(first, second, global, arity, c)
  {
    forall t | t in first || t in second || t in global ensures CompleteIndex(t, arity) == t {
      assert IsPermutation(t, arity);
      CompletePermutation(t, arity);
    }
    assert IsIdentity(c, arity) <==> c == Identity(arity);
    hide CompleteIndex, IsPermutation, IsIdentity, Identity;
    var own := AppendUnique(AppendUnique([], first, arity), second, arity);
    AppendsThese([], first, arity, c);
    AppendsThese(AppendUnique([], first, arity), second, arity, c);
    AppendsThese([], global, arity, c);
    if first != [] { assert CompleteIndex(first[0], arity) in own; }
    if second != [] { assert CompleteIndex(second[0], arity) in own; }
    if global != [] { assert CompleteIndex(global[0], arity) in AppendUnique([], global, arity); }
    hide AppendUnique;
  }

  lemma AppendsThese(dest: seq<Cols>, tuples: seq<Cols>, arity: nat, c: Cols)
    requires forall t :: t in tuples ==> CompleteIndex(t, arity) == t
    ensures c in AppendUnique(dest, tuples, arity) <==> c in dest || c in tuples
  {
    if c in tuples {
      var k :| 0 <= k < |tuples| && tuples[k] == c;
      assert c == CompleteIndex(tuples[k], arity);
    }
    forall k | 0 <= k < |tuples| ensures CompleteIndex(tuples[k], arity) == tuples[k] { assert tuples[k] in tuples; }
    hide CompleteIndex;
  }

  // The required indexes are exactly those the relation should have, each a permutation of the columns and listed once;
  // the canonical one, its layout if it has one, is among them.
  lemma SelectionFacts(first: seq<Cols>, second: seq<Cols>, global: seq<Cols>, arity: nat, layout: seq<Cols>,
                       full: set<Cols>)
    requires Permutations(first, arity) && Permutations(second, arity) && Permutations(global, arity)
    requires Permutations(layout, arity)
    ensures var indices := Required(first, second, global, arity, layout);
      && (forall c :: c in indices <==> (layout != [] && c == layout[0]) || Wished(first, second, global, arity, c))
      && (forall c :: c in indices ==> IsPermutation(c, arity)) && NoDup(indices)
      && (layout != [] ==> layout[0] in indices)
      && (layout == [] ==> forall i, j :: 0 <= i < j < |indices| && indices[j] in first ==> indices[i] in first)
      && (layout == [] ==> exists k: nat ::
          FirstRead(indices, full, k) && indices[k] == Canonical(indices, arity, full))
  {
    var indices := Required(first, second, global, arity, layout);
    forall c ensures c in indices <==> (layout != [] && c == layout[0]) || Wished(first, second, global, arity, c) {
      RequiredIff(first, second, global, arity, layout, c);
    }
    IdentityPermutation(arity);
    forall c | c in indices ensures IsPermutation(c, arity) {
      if Wished(first, second, global, arity, c) { WishedPermutes(first, second, global, arity, c); }
    }
    RequiredOnceEach(first, second, global, arity, layout);
    if layout == [] { FirstComeFirst(first, second, global, arity); }
    hide IsPermutation, Required, Wished, NoDup;
    if layout == [] {
      assert indices != [] by { SomeRequired(first, second, global, arity); }
      forall c | c in indices ensures |c| == arity { WidthOf(c, arity); }
      var k := CanonicalIsFirst(indices, arity, full);
    }
  }

  lemma FirstComeFirst(first: seq<Cols>, second: seq<Cols>, global: seq<Cols>, arity: nat)
    requires Permutations(first, arity)
    ensures var indices := Required(first, second, global, arity, []);
      forall i, j :: 0 <= i < j < |indices| && indices[j] in first ==> indices[i] in first
  {
    forall t | t in first ensures CompleteIndex(t, arity) == t {
      assert IsPermutation(t, arity);
      CompletePermutation(t, arity);
    }
    var indices, own := Required(first, second, global, arity, []), AppendUnique([], first, arity);
    forall c ensures c in own <==> c in first { AppendsThese([], first, arity, c); }
    RequiredOnceEach(first, second, global, arity, []);
    if first != [] {
      assert first[0] in own;
      assert own <= AppendUnique(own, second, arity) == indices;
      hide AppendUnique, CompleteIndex, IsPermutation, Required;
      forall i, j | 0 <= i < j < |indices| && indices[j] in first ensures indices[i] in first {
        var k :| 0 <= k < |own| && own[k] == indices[j];
        assert indices[k] == own[k];
        assert k == j;
        assert indices[i] == own[i];
      }
    }
  }

  lemma SomeRequired(first: seq<Cols>, second: seq<Cols>, global: seq<Cols>, arity: nat)
    ensures Required(first, second, global, arity, []) != []
  {
    hide AppendUnique, Identity;
  }

  lemma WishedPermutes(first: seq<Cols>, second: seq<Cols>, global: seq<Cols>, arity: nat, c: Cols)
    requires Permutations(first, arity) && Permutations(second, arity) && Permutations(global, arity)
    requires Wished(first, second, global, arity, c)
    ensures IsPermutation(c, arity)
  {
    if IsIdentity(c, arity) {
      assert c == Identity(arity);
      IdentityPermutation(arity);
    }
    hide IsPermutation;
  }

  lemma {:induction false} AppendUniqueOnce(dest: seq<Cols>, tuples: seq<Cols>, arity: nat)
    requires NoDup(dest)
    ensures NoDup(AppendUnique(dest, tuples, arity))
  {
    hide CompleteIndex;
    if |tuples| > 0 { AppendUniqueOnce(dest, tuples[..|tuples| - 1], arity); }
  }

  lemma RequiredOnceEach(first: seq<Cols>, second: seq<Cols>, global: seq<Cols>, arity: nat, layout: seq<Cols>)
    ensures NoDup(Required(first, second, global, arity, layout))
  {
    AppendUniqueOnce([], first, arity);
    AppendUniqueOnce(AppendUnique([], first, arity), second, arity);
    AppendUniqueOnce([], global, arity);
    hide AppendUnique, Identity;
  }

  lemma {:induction false} FirstOfIs(indices: seq<Cols>, arity: nat, full: set<Cols>, anyFull: bool) returns (k: nat)
    requires forall c :: c in indices ==> |c| == arity
    ensures var r := FirstOf(indices, arity, full, anyFull);
      if r == [] then k == |indices|
      else k < |indices| && r == [indices[k]] && (anyFull || indices[k] in full)
    ensures forall j :: 0 <= j < k && j < |indices| ==> !anyFull && indices[j] !in full
  {
    if |indices| == 0 {
      k := 0;
    } else {
      assert indices[0] in indices;
      if anyFull || indices[0] in full {
        k := 0;
      } else {
        var m := FirstOfIs(indices[1..], arity, full, anyFull);
        k := m + 1;
        assert forall j :: 0 < j < |indices| ==> indices[j] == indices[1..][j - 1];
      }
    }
  }

  lemma CanonicalIsFirst(indices: seq<Cols>, arity: nat, full: set<Cols>) returns (k: nat)
    requires indices != [] && forall c :: c in indices ==> |c| == arity
    ensures FirstRead(indices, full, k) && indices[k] == Canonical(indices, arity, full)
  {
    var r := FirstOfIs(indices, arity, full, false);
    var any := FirstOfIs(indices, arity, full, true);
    hide FirstOf;
    if r < |indices| {
      assert indices[r] in indices;
      k := r;
    } else {
      k := any;
      assert any == 0;
    }
  }

  lemma WidthOf(c: Cols, arity: nat)
    requires IsPermutation(c, arity)
    ensures |c| == arity
  {}

  // The canonical index is read as FULL whenever some required index is.
  lemma CanonicalIsRead(indices: seq<Cols>, arity: nat, full: set<Cols>)
    requires exists c :: c in indices && |c| == arity && c in full
    ensures Canonical(indices, arity, full) in full
  {}
}
