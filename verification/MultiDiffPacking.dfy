/**
  Splitting a large pull request over several prompts (`get_pr_multi_diffs`): a
  next-fit packing of the files' patches under a token budget, with a limit on
  the number of prompts.  The tokenizer and the clipper are arbitrary functions.
 */
module MultiDiffPacking {
  import opened Basics

  const SOFT_THRESHOLD := 1500

  datatype Policy = SkipLarge | ClipLarge | OtherPolicy

  type Counter = string -> nat

  /** A file's formatted patch, or None when it has no patch or was deleted. */
  type FilePatch = Option<string>

  datatype Settings = Settings(prompt: nat, maxTokens: int, policy: Policy, clip: string -> string)

  function Limit(s: Settings): int {
    s.maxTokens - SOFT_THRESHOLD
  }

  /** The prompt and the patch leave 1500 tokens of the model's window. */
  predicate FitsAlone(p: string, s: Settings, count: Counter) {
    s.prompt + count(p) <= s.maxTokens - 1500
  }

  /** The text that goes into the packing for one file, if any. */
  function Candidate(f: FilePatch, s: Settings, count: Counter): Option<string> {
    if f.None? || f.value == "" then None
    else if FitsAlone(f.value, s, count) then f
    else if s.policy.ClipLarge? then
      var c := s.clip(f.value);
      if c != "" && FitsAlone(c, s, count) then Some(c) else None
    else None
  }

  function Candidates(files: seq<FilePatch>, s: Settings, count: Counter): seq<string> {
    if files == [] then []
    else
      var c := Candidate(files[|files| - 1], s, count);
      Candidates(files[..|files| - 1], s, count) + (if c.Some? then [c.value] else [])
  }

  function Load(patches: seq<string>, count: Counter): nat {
    if patches == [] then 0 else count(patches[0]) + Load(patches[1..], count)
  }

  function Flatten<T>(bins: seq<seq<T>>): seq<T> {
    if bins == [] then [] else Flatten(bins[..|bins| - 1]) + bins[|bins| - 1]
  }

  predicate GoodBin(b: seq<string>, s: Settings, count: Counter) {
    b != [] && s.prompt + Load(b, count) <= s.maxTokens - 1500
  }

  /** The bin could not have taken the first patch of the next one. */
  predicate HasNoRoom(b: seq<string>, next: seq<string>, s: Settings, count: Counter) {
    next != [] && s.prompt + Load(b, count) + count(next[0]) > s.maxTokens - 1500
  }

  /** No bin is empty, every bin is within the budget, and no bin could have taken the next one's first patch. */
  predicate NextFit(bins: seq<seq<string>>, s: Settings, count: Counter) {
    && (forall b <- bins :: GoodBin(b, s, count))
    && (forall i | 0 < i < |bins| :: HasNoRoom(bins[i - 1], bins[i], s, count))
  }

  function MaxBins(maxCalls: int): nat {
    if maxCalls < 0 then 0 else maxCalls
  }

  /** The packing stops early only at the call limit, with a next patch that does not fit the last bin. */
  predicate CutOffAtLimit(bins: seq<seq<string>>, items: seq<string>, s: Settings, count: Counter, maxCalls: int) {
    var n := |Flatten(bins)|;
    && n < |items| && |bins| == MaxBins(maxCalls)
    && (bins != [] ==> s.prompt + Load(bins[|bins| - 1], count) + count(items[n]) > s.maxTokens - 1500)
  }

  lemma {:induction false} LoadConcat(a: seq<string>, b: seq<string>, count: Counter)
    ensures Load(a + b, count) == Load(a, count) + Load(b, count)
  {
    if a == [] {
      assert a + b == b;
    } else {
      assert (a + b)[0] == a[0] && (a + b)[1..] == a[1..] + b;
      LoadConcat(a[1..], b, count);
    }
  }

  lemma {:induction false} FlattenAppend<T>(bins: seq<seq<T>>, b: seq<T>)
    ensures Flatten(bins + [b]) == Flatten(bins) + b
  {
  }

  lemma {:induction false} CandidatesStep(files: seq<FilePatch>, i: nat, s: Settings, count: Counter)
    requires i < |files|
    ensures Candidates(files[..i + 1], s, count)
         == Candidates(files[..i], s, count)
           + (var c := Candidate(files[i], s, count); if c.Some? then [c.value] else [])
  {
    assert files[..i + 1][..i] == files[..i];
  }

  lemma {:induction false} CandidatesPrefix(files: seq<FilePatch>, i: nat, s: Settings, count: Counter)
    requires i <= |files|
    ensures Candidates(files[..i], s, count) <= Candidates(files, s, count)
    decreases |files| - i
  {
    if i == |files| {
      assert files[..i] == files;
    } else {
      CandidatesStep(files, i, s, count);
      CandidatesPrefix(files, i + 1, s, count);
    }
  }

  lemma {:induction false} PreparedFits(f: FilePatch, s: Settings, count: Counter)
    ensures Candidate(f, s, count).Some? ==> s.prompt + count(Candidate(f, s, count).value) <= Limit(s)
  {
  }

  /** The patch of one file, clipped or skipped when too large on its own. */
  method PreparePatch(f: FilePatch, s: Settings, count: Counter) returns (c: Option<string>)
    ensures c == Candidate(f, s, count)
    ensures c.Some? ==> c.value != "" && s.prompt + count(c.value) <= s.maxTokens - 1500
    ensures f.None? || f.value == "" ==> c == None
    ensures f.Some? && f.value != "" && s.prompt + count(f.value) <= s.maxTokens - 1500 ==> c == f
    ensures f.Some? && f.value != "" && s.prompt + count(f.value) > s.maxTokens - 1500 ==>
              c == if s.policy == ClipLarge && s.clip(f.value) != ""
                      && s.prompt + count(s.clip(f.value)) <= s.maxTokens - 1500 then Some(s.clip(f.value)) else None
  {
    if f.None? {
      return None;
    }
    var patch := f.value;
    if patch != "" && s.prompt + count(patch) > Limit(s) {
      if s.policy.SkipLarge? {
        return None;
      } else if s.policy.ClipLarge? {
        var clipped := s.clip(patch);
        if clipped != "" && s.prompt + count(clipped) > Limit(s) {
          return None;
        }
        patch := clipped;
      } else {
        return None;
      }
    }
    c := if patch != "" then Some(patch) else None;
  }

  lemma {:induction false} CloseBin(bins: seq<seq<string>>, patches: seq<string>, s: Settings, count: Counter)
    requires NextFit(bins, s, count) && GoodBin(patches, s, count)
    requires bins != [] ==> HasNoRoom(bins[|bins| - 1], patches, s, count)
    ensures NextFit(bins + [patches], s, count)
  {
    hide GoodBin, HasNoRoom;
    var more := bins + [patches];
    forall i | 0 < i < |more| ensures HasNoRoom(more[i - 1], more[i], s, count) {
      assert more[i - 1] == bins[i - 1];
      assert i < |bins| ==> more[i] == bins[i];
    }
  }

  method GetPrMultiDiffs(files: seq<FilePatch>, s: Settings, count: Counter, maxCalls: int)
    returns (diffs: seq<seq<string>>)
    ensures NextFit(diffs, s, count)
    ensures |diffs| <= MaxBins(maxCalls)
    ensures Flatten(diffs) <= Candidates(files, s, count)
    ensures Flatten(diffs) == Candidates(files, s, count)
            || CutOffAtLimit(diffs, Candidates(files, s, count), s, count, maxCalls)
            || maxCalls < 1
  {
    hide Candidates, Candidate, Load, Flatten, CutOffAtLimit, NextFit, FitsAlone;
    var patches: seq<string> := [];
    diffs := [];
    var totalTokens := s.prompt;
    var callNumber := 1;
    StartPacking(files, s, count);
    var i := 0;
    while i < |files|
      invariant 0 <= i <= |files|
      invariant NextFit(diffs, s, count)
      invariant Flatten(diffs) + patches == Candidates(files[..i], s, count)
      invariant totalTokens == s.prompt + Load(patches, count)
      invariant patches != [] ==> totalTokens <= Limit(s)
      invariant callNumber == |diffs| + 1
      invariant i > 0 ==> callNumber <= maxCalls
      invariant diffs != [] ==> HasNoRoom(diffs[|diffs| - 1], patches, s, count)
    {
      if callNumber > maxCalls {
        break;
      }
      var candidate := PreparePatch(files[i], s, count);
      CandidatesStep(files, i, s, count);
      PreparedFits(files[i], s, count);
      if candidate.Some? {
        var patch := candidate.value;
        var newTokens := count(patch);
        if totalTokens + newTokens > Limit(s) {
          FlattenAppend(diffs, patches);
          LoadOfEmpty(count);
          CloseBin(diffs, patches, s, count);
          diffs := diffs + [patches];
          patches := [];
          totalTokens := s.prompt;
          callNumber := callNumber + 1;
          if callNumber > maxCalls {
            StoppedHere(diffs, files, i, patch, s, count, maxCalls);
            return;
          }
        }
        LoadConcat(patches, [patch], count);
        LoadOfOne(patch, count);
        patches := patches + [patch];
        totalTokens := totalTokens + newTokens;
      }
      i := i + 1;
    }
    CandidatesPrefix(files, i, s, count);
    assert i == |files| ==> files[..i] == files;
    if patches != [] {
      CloseBin(diffs, patches, s, count);
      FlattenAppend(diffs, patches);
      diffs := diffs + [patches];
    }
  }

  lemma {:induction false} LoadOfEmpty(count: Counter)
    ensures Load([], count) == 0
  {
  }

  lemma {:induction false} LoadOfOne(p: string, count: Counter)
    ensures Load([p], count) == count(p)
  {
  }

  lemma {:induction false} StartPacking(files: seq<FilePatch>, s: Settings, count: Counter)
    ensures Candidates(files[..0], s, count) == [] && Flatten<string>([]) == [] && Load([], count) == 0
    ensures NextFit([], s, count)
  {
  }

  lemma {:induction false} StoppedHere(bins: seq<seq<string>>, files: seq<FilePatch>, i: nat, p: string, s: Settings,
                                       count: Counter, maxCalls: int)
    requires i < |files| && Candidate(files[i], s, count) == Some(p)
    requires Flatten(bins) == Candidates(files[..i], s, count)
    requires bins != [] && |bins| == MaxBins(maxCalls)
    requires s.prompt + Load(bins[|bins| - 1], count) + count(p) > Limit(s)
    ensures Flatten(bins) <= Candidates(files, s, count)
    ensures CutOffAtLimit(bins, Candidates(files, s, count), s, count, maxCalls)
  {
    CandidatesStep(files, i, s, count);
    CandidatesPrefix(files, i + 1, s, count);
    var n := |Flatten(bins)|;
    assert Candidates(files[..i + 1], s, count)[n] == p;
  }

  // ---- Within twice the optimum ------------------------------------------------------

  /** Any way to put the same patches into bins of the same capacity. */
  predicate IsPacking(bins: seq<seq<string>>, items: seq<string>, s: Settings, count: Counter) {
    && multiset(Flatten(bins)) == multiset(items)
    && forall b <- bins :: s.prompt + Load(b, count) <= s.maxTokens - 1500
  }

  lemma {:induction false} TakeOut(b: seq<string>, k: nat, count: Counter)
    requires k < |b|
    ensures multiset(b) == multiset{b[k]} + multiset(b[..k] + b[k + 1..])
    ensures Load(b, count) == count(b[k]) + Load(b[..k] + b[k + 1..], count)
  {
    hide Load;
    assert b == b[..k] + ([b[k]] + b[k + 1..]);
    LoadConcat(b[..k], [b[k]] + b[k + 1..], count);
    LoadConcat([b[k]], b[k + 1..], count);
    LoadConcat(b[..k], b[k + 1..], count);
    LoadOfOne(b[k], count);
  }

  lemma {:induction false} LoadOfMultiset(a: seq<string>, b: seq<string>, count: Counter)
    requires multiset(a) == multiset(b)
    ensures Load(a, count) == Load(b, count)
    decreases |a|
  {
    hide Load;
    if a == [] {
      assert |multiset(b)| == 0;
    } else {
      assert a[0] in multiset(b);
      var k :| 0 <= k < |b| && b[k] == a[0];
      TakeOut(a, 0, count);
      TakeOut(b, k, count);
      assert a[..0] + a[0 + 1..] == a[1..];
      SameRest(a[0], multiset(a[1..]), multiset(b[..k] + b[k + 1..]));
      LoadOfMultiset(a[1..], b[..k] + b[k + 1..], count);
    }
  }

  function TotalLoad(bins: seq<seq<string>>, count: Counter): nat {
    if bins == [] then 0 else TotalLoad(bins[..|bins| - 1], count) + Load(bins[|bins| - 1], count)
  }

  lemma {:induction false} TotalIsFlat(bins: seq<seq<string>>, count: Counter)
    ensures TotalLoad(bins, count) == Load(Flatten(bins), count)
  {
    if bins != [] {
      TotalIsFlat(bins[..|bins| - 1], count);
      LoadConcat(Flatten(bins[..|bins| - 1]), bins[|bins| - 1], count);
    }
  }

  lemma {:induction false} TotalAtMost(bins: seq<seq<string>>, count: Counter, cap: int)
    requires forall b <- bins :: Load(b, count) <= cap
    ensures TotalLoad(bins, count) <= |bins| * cap
  {
    if bins != [] {
      var rest := bins[..|bins| - 1];
      TotalAtMost(rest, count, cap);
      assert |bins| * cap == |rest| * cap + cap;
    }
  }

  /** Neighbouring bins together exceed the capacity. */
  lemma {:induction false} NeighboursExceed(bins: seq<seq<string>>, s: Settings, count: Counter, i: int)
    requires NextFit(bins, s, count) && 0 < i < |bins|
    ensures Load(bins[i - 1], count) + Load(bins[i], count) > Limit(s) - s.prompt
  {
  }

  lemma {:induction false} TotalOfLastTwo(bins: seq<seq<string>>, count: Counter)
    requires |bins| >= 2
    ensures TotalLoad(bins, count)
         == TotalLoad(bins[..|bins| - 2], count) + Load(bins[|bins| - 2], count) + Load(bins[|bins| - 1], count)
  {
    assert bins[..|bins| - 1][..|bins| - 2] == bins[..|bins| - 2];
  }

  lemma {:induction false} PairsExceed(bins: seq<seq<string>>, s: Settings, count: Counter)
    requires NextFit(bins, s, count) && |bins| >= 2
    ensures TotalLoad(bins, count) > (|bins| / 2) * (Limit(s) - s.prompt)
    decreases |bins|
  {
    hide NextFit, Load, TotalLoad;
    var cap, n := Limit(s) - s.prompt, |bins|;
    var rest := bins[..n - 2];
    NeighboursExceed(bins, s, count, n - 1);
    TotalOfLastTwo(bins, count);
    if n >= 4 {
      NextFitPrefix(bins, s, count, n - 2);
      PairsExceed(rest, s, count);
      assert n / 2 == |rest| / 2 + 1;
      assert (|rest| / 2 + 1) * cap == (|rest| / 2) * cap + cap;
    } else {
      assert n / 2 == 1 && 1 * cap == cap;
    }
  }

  lemma {:induction false} NextFitPrefix(bins: seq<seq<string>>, s: Settings, count: Counter, n: nat)
    requires NextFit(bins, s, count) && n <= |bins|
    ensures NextFit(bins[..n], s, count)
  {
  }

  /** No packing of what m next-fit bins hold uses fewer than (m + 1) / 2 bins. */
  lemma {:induction false} WithinTwiceTheOptimum(bins: seq<seq<string>>, packing: seq<seq<string>>, s: Settings,
                                                 count: Counter)
    requires NextFit(bins, s, count) && bins != []
    requires IsPacking(packing, Flatten(bins), s, count)
    ensures 2 * |packing| >= |bins| + 1
  {
    hide Load;
    var cap := Limit(s) - s.prompt;
    TotalIsFlat(bins, count);
    TotalIsFlat(packing, count);
    LoadOfMultiset(Flatten(bins), Flatten(packing), count);
    TotalAtMost(packing, count, cap);
    if |bins| >= 2 {
      PairsExceed(bins, s, count);
      MoreBinsNeeded(|bins| / 2, |packing|, cap);
    } else {
      SomethingToPack(bins, packing, s, count);
    }
  }

  /** One bin holds something, so a packing of it is not empty. */
  lemma {:induction false} SomethingToPack(bins: seq<seq<string>>, packing: seq<seq<string>>, s: Settings,
                                           count: Counter)
    requires NextFit(bins, s, count) && |bins| == 1
    requires IsPacking(packing, Flatten(bins), s, count)
    ensures packing != []
  {
    hide Load;
    var b := bins[0];
    assert b in bins && bins == [] + [b];
    FlattenAppend([], b);
    assert b[0] in multiset(Flatten(bins));
  }

  lemma {:induction false} MoreBinsNeeded(j: nat, m: nat, cap: int)
    requires j * cap < m * cap && cap >= 0
    ensures m > j
  {
  }

  // ---- Which patches are packed ------------------------------------------------------

  /** What a large patch is replaced by, if by anything: its clipped text, under the clipping policy, if that fits. */
  predicate ClippedTo(patch: string, c: string, s: Settings, count: Counter) {
    && s.prompt + count(patch) > s.maxTokens - 1500 && s.policy == ClipLarge
    && c == s.clip(patch) && c != "" && s.prompt + count(c) <= s.maxTokens - 1500
  }

  /** The patches to pack are those that fit as they are and the clipped texts of the others that fit. */
  lemma {:induction false} CandidatesAre(files: seq<FilePatch>, s: Settings, count: Counter, c: string)
    ensures c in Candidates(files, s, count)
       <==> exists f <- files :: f.Some? && f.value != ""
              && ((c == f.value && s.prompt + count(c) <= s.maxTokens - 1500) || ClippedTo(f.value, c, s, count))
    decreases |files|
  {
    if files != [] {
      var n := |files| - 1;
      CandidatesAre(files[..n], s, count, c);
      assert files == files[..n] + [files[n]];
    }
  }

  /** Each file is decided on its own. */
  lemma {:induction false} CandidatesConcat(a: seq<FilePatch>, b: seq<FilePatch>, s: Settings, count: Counter)
    ensures Candidates(a + b, s, count) == Candidates(a, s, count) + Candidates(b, s, count)
    decreases |b|
  {
    if b == [] {
      assert a + b == a;
    } else {
      var n := |b| - 1;
      assert (a + b)[..|a + b| - 1] == a + b[..n] && (a + b)[|a + b| - 1] == b[n];
      CandidatesConcat(a, b[..n], s, count);
    }
  }

  /** With room for everything no patch is clipped or skipped. */
  lemma {:induction false} AllCandidates(files: seq<FilePatch>, s: Settings, count: Counter)
    requires forall f <- files :: f.Some? && f.value != "" && s.prompt + count(f.value) <= s.maxTokens - 1500
    ensures |Candidates(files, s, count)| == |files|
    ensures forall i | 0 <= i < |files| :: Candidates(files, s, count)[i] == files[i].value
    decreases |files|
  {
    if files != [] {
      var n := |files| - 1;
      assert forall f <- files[..n] :: f in files;
      AllCandidates(files[..n], s, count);
      assert files[n] in files;
    }
  }
}
