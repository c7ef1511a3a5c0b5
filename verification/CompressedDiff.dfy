/**
  The pruned diff of a large pull request (`generate_full_patch` and the pass
  loop of `pr_generate_compressed_diff`).  A pass goes over the dictionary of
  patches in order and packs what still fits; what did not fit is left for the
  next pass.  Token counts are arbitrary numbers.
 */
module CompressedDiff {
  import opened Basics

  const SOFT_THRESHOLD := 1500
  const HARD_THRESHOLD := 1000

  /** One dictionary entry: the patch, its tokens, and the tokens of the patch as wrapped for the prompt. */
  datatype Entry = Entry(name: string, patch: string, tokens: nat, wrappedTokens: nat)

  datatype Budget = Budget(prompt: nat, maxTokens: int)

  datatype Pass = Pass(total: int, files: seq<string>, remaining: seq<string>)

  /** What becomes of one entry at a running total. */
  datatype Fate = NotAsked | HardStop | TooLarge | Empty | Packed

  function FateOf(e: Entry, previous: seq<string>, total: int, b: Budget): Fate {
    if e.name !in previous then NotAsked
    else if total > b.maxTokens - HARD_THRESHOLD then HardStop
    else if total + e.tokens > b.maxTokens - SOFT_THRESHOLD then TooLarge
    else if e.patch == "" then Empty
    else Packed
  }

  function TotalAfter(e: Entry, previous: seq<string>, total: int, b: Budget): int {
    if FateOf(e, previous, total, b).Packed? then total + e.wrappedTokens else total
  }

  /** The pass over the entries still to come, from a running total. */
  function RunPass(dict: seq<Entry>, previous: seq<string>, total: int, b: Budget): Pass {
    if dict == [] then Pass(total, [], [])
    else
      var e := dict[0];
      var fate := FateOf(e, previous, total, b);
      var rest := RunPass(dict[1..], previous, TotalAfter(e, previous, total, b), b);
      Pass(rest.total,
           (if fate.Packed? then [e.name] else []) + rest.files,
           (if fate.TooLarge? then [e.name] else []) + rest.remaining)
  }

  /** What the entries so far and one more entry give, followed by the rest, is what they give with all the rest. */
  lemma {:induction false} PassStep(done: Pass, dict: seq<Entry>, previous: seq<string>, b: Budget)
    requires dict != []
    ensures var e := dict[0];
      var fate := FateOf(e, previous, done.total, b);
      var now := Pass(TotalAfter(e, previous, done.total, b),
                      done.files + (if fate.Packed? then [e.name] else []),
                      done.remaining + (if fate.TooLarge? then [e.name] else []));
      Joined(done, RunPass(dict, previous, done.total, b)) == Joined(now, RunPass(dict[1..], previous, now.total, b))
  {
    hide FateOf;
    var e := dict[0];
    var fate := FateOf(e, previous, done.total, b);
    var rest := RunPass(dict[1..], previous, TotalAfter(e, previous, done.total, b), b);
    AppendStep(done.files, if fate.Packed? then [e.name] else [], rest.files);
    AppendStep(done.remaining, if fate.TooLarge? then [e.name] else [], rest.remaining);
  }

  /** Two consecutive parts of one pass. */
  function Joined(first: Pass, last: Pass): Pass {
    Pass(last.total, first.files + last.files, first.remaining + last.remaining)
  }

  lemma {:induction false} JoinedEnds(p: Pass, total: int)
    ensures Joined(Pass(total, [], []), p) == p && Joined(p, Pass(p.total, [], [])) == p
  {
  }

  method GenerateFullPatch(dict: seq<Entry>, previous: seq<string>, b: Budget)
    returns (totalTokens: int, files: seq<string>, remaining: seq<string>)
    ensures Pass(totalTokens, files, remaining) == RunPass(dict, previous, b.prompt, b)
  {
    hide Joined;
    totalTokens, files, remaining := b.prompt, [], [];
    var i := 0;
    JoinedEnds(RunPass(dict, previous, b.prompt, b), b.prompt);
    while i < |dict|
      invariant 0 <= i <= |dict|
      invariant Joined(Pass(totalTokens, files, remaining), RunPass(dict[i..], previous, totalTokens, b))
             == RunPass(dict, previous, b.prompt, b)
    {
      var e := dict[i];
      assert dict[i..][0] == e && dict[i..][1..] == dict[i + 1..];
      PassStep(Pass(totalTokens, files, remaining), dict[i..], previous, b);
      AppendStep(files, [], []);
      AppendStep(remaining, [], []);
      i := i + 1;
      if e.name !in previous {
        continue;
      }
      if totalTokens > b.maxTokens - HARD_THRESHOLD {
        continue;
      }
      if totalTokens + e.tokens > b.maxTokens - SOFT_THRESHOLD {
        remaining := remaining + [e.name];
        continue;
      }
      if e.patch != "" {
        files := files + [e.name];
        totalTokens := totalTokens + e.wrappedTokens;
      }
    }
    JoinedEnds(Pass(totalTokens, files, remaining), totalTokens);
  }

  /**
    A pass decides on each entry by the tokens packed before it: asked for, within the hard threshold of 1000 and,
    with its own tokens, within the soft one of 1500, it is packed if it has a patch; too large, it is left.
   */
  lemma {:induction false} PassInTurn(dict: seq<Entry>, previous: seq<string>, total: int, b: Budget, i: nat)
    requires i < |dict|
    ensures var e, p := dict[i], RunPass(dict[..i], previous, total, b);
      var open, fits := e.name in previous && p.total <= b.maxTokens - 1000, p.total + e.tokens <= b.maxTokens - 1500;
      RunPass(dict[..i + 1], previous, total, b)
      == if open && fits && e.patch != "" then Pass(p.total + e.wrappedTokens, p.files + [e.name], p.remaining)
         else if open && !fits then Pass(p.total, p.files, p.remaining + [e.name])
         else p
  {
    var e, p := dict[i], RunPass(dict[..i], previous, total, b);
    assert dict[..i + 1] == dict[..i] + [e];
    PassConcat(dict[..i], [e], previous, total, b);
    assert [e][1..] == [];
    AppendStep(p.files, [], []);
    AppendStep(p.remaining, [], []);
  }

  /** The names left after `n` passes. */
  function Left(dict: seq<Entry>, names: seq<string>, b: Budget, n: nat): seq<string> {
    if n == 0 then names else RunPass(dict, Left(dict, names, b, n - 1), b.prompt, b).remaining
  }

  /** The names packed by pass number `n`, counted from 1. */
  function PackedIn(dict: seq<Entry>, names: seq<string>, b: Budget, n: nat): seq<string>
    requires n >= 1
  {
    RunPass(dict, Left(dict, names, b, n - 1), b.prompt, b).files
  }

  /** The names packed by the first `n` passes together. */
  function PackedBy(dict: seq<Entry>, names: seq<string>, b: Budget, n: nat): seq<string> {
    if n == 0 then [] else PackedBy(dict, names, b, n - 1) + PackedIn(dict, names, b, n)
  }

  function Flatten(lists: seq<seq<string>>): seq<string> {
    if lists == [] then [] else Flatten(lists[..|lists| - 1]) + lists[|lists| - 1]
  }

  lemma {:induction false} FlattenAppend(lists: seq<seq<string>>, l: seq<string>)
    ensures Flatten(lists + [l]) == Flatten(lists) + l
  {
  }

  /** Pass number `n` had this total and packed these files. */
  predicate IsPass(dict: seq<Entry>, names: seq<string>, b: Budget, n: nat, total: int, files: seq<string>) {
    n >= 1 && RunPass(dict, Left(dict, names, b, n - 1), b.prompt, b).total == total
      && PackedIn(dict, names, b, n) == files
  }

  ghost predicate SomePass(dict: seq<Entry>, names: seq<string>, b: Budget, passes: nat, total: int,
                           files: seq<string>) {
    exists n | 1 <= n <= passes :: IsPass(dict, names, b, n, total, files)
  }

  /** Every recorded total and list of files is that of one of the first `passes` passes. */
  ghost predicate Recorded(dict: seq<Entry>, names: seq<string>, b: Budget, passes: nat,
                           totals: seq<int>, lists: seq<seq<string>>) {
    && |totals| == |lists|
    && forall i | 0 <= i < |totals| :: SomePass(dict, names, b, passes, totals[i], lists[i])
  }

  lemma {:induction false} SomePassMore(dict: seq<Entry>, names: seq<string>, b: Budget, passes: nat, total: int,
                                        files: seq<string>)
    ensures SomePass(dict, names, b, passes, total, files) ==> SomePass(dict, names, b, passes + 1, total, files)
    ensures IsPass(dict, names, b, passes + 1, total, files) ==> SomePass(dict, names, b, passes + 1, total, files)
  {
    hide IsPass;
  }

  lemma {:induction false} RecordedStep(dict: seq<Entry>, names: seq<string>, b: Budget, passes: nat, totals: seq<int>,
                                        lists: seq<seq<string>>,
                     total: int, files: seq<string>)
    requires Recorded(dict, names, b, passes, totals, lists) && IsPass(dict, names, b, passes + 1, total, files)
    ensures Recorded(dict, names, b, passes + 1, totals, lists)
    ensures Recorded(dict, names, b, passes + 1, totals + [total], lists + [files])
  {
    hide IsPass, SomePass;
    forall i | 0 <= i < |totals| ensures SomePass(dict, names, b, passes + 1, totals[i], lists[i]) {
      SomePassMore(dict, names, b, passes, totals[i], lists[i]);
    }
    SomePassMore(dict, names, b, passes, total, files);
  }

  /** The bookkeeping of one more pass. */
  lemma {:induction false} PassRecorded(dict: seq<Entry>, names: seq<string>, b: Budget, n: nat, total: int,
                                        files: seq<string>, left: seq<string>)
    requires Pass(total, files, left) == RunPass(dict, Left(dict, names, b, n), b.prompt, b)
    ensures left == Left(dict, names, b, n + 1) && IsPass(dict, names, b, n + 1, total, files)
    ensures PackedBy(dict, names, b, n + 1) == PackedBy(dict, names, b, n) + files
  {
    hide RunPass;
  }

  /** One pass, then more while files remain; a later pass that packs nothing is not recorded. */
  method GenerateCompressedDiff(dict: seq<Entry>, names: seq<string>, b: Budget, largePr: bool, maxAiCalls: int)
    returns (filesLists: seq<seq<string>>, totals: seq<int>, remaining: seq<string>, ghost passes: nat)
    ensures passes >= 1 && remaining == Left(dict, names, b, passes)
    ensures Flatten(filesLists) == PackedBy(dict, names, b, passes)
    ensures |totals| == |filesLists| >= 1
    ensures forall i | 0 < i < |filesLists| :: filesLists[i] != []
    ensures Recorded(dict, names, b, passes, totals, filesLists)
    ensures largePr && remaining != [] ==> passes >= maxAiCalls - 1
    ensures passes <= if largePr then Max(1, maxAiCalls - 1) else 1
  {
    hide RunPass, Left, PackedBy, IsPass, SomePass, Recorded;
    var total, files := 0, [];
    StartOfPasses(dict, names, b);
    total, files, remaining := GenerateFullPatch(dict, names, b);
    filesLists, totals, passes := [files], [total], 1;
    PassRecorded(dict, names, b, 0, total, files, remaining);
    RecordedStep(dict, names, b, 0, [], [], total, files);
    FlattenAppend([], files);
    assert [] + [files] == [files] && [] + [total] == [total] && [] + files == files;
    if largePr {
      var i := 0;
      while i < maxAiCalls - 2 && remaining != []
        invariant passes == i + 1 <= Max(1, maxAiCalls - 1)
        invariant remaining == Left(dict, names, b, passes)
        invariant Flatten(filesLists) == PackedBy(dict, names, b, passes)
        invariant |totals| == |filesLists| >= 1
        invariant forall j | 0 < j < |filesLists| :: filesLists[j] != []
        invariant Recorded(dict, names, b, passes, totals, filesLists)
      {
        total, files, remaining := GenerateFullPatch(dict, remaining, b);
        PassRecorded(dict, names, b, passes, total, files, remaining);
        RecordedStep(dict, names, b, passes, totals, filesLists, total, files);
        passes := passes + 1;
        if files != [] {
          FlattenAppend(filesLists, files);
          filesLists, totals := filesLists + [files], totals + [total];
        } else {
          AppendStep(Flatten(filesLists), [], []);
        }
        i := i + 1;
      }
    }
  }

  lemma {:induction false} StartOfPasses(dict: seq<Entry>, names: seq<string>, b: Budget)
    ensures Left(dict, names, b, 0) == names && PackedBy(dict, names, b, 0) == [] && Flatten([]) == []
    ensures Recorded(dict, names, b, 0, [], [])
  {
  }

  // ---- Nothing is lost ---------------------------------------------------------------

  /** Wrapping the patch costs at most the distance between the two thresholds. */
  predicate Cheap(e: Entry) {
    e.wrappedTokens <= e.tokens + 500
  }

  predicate AllWrapCheaply(dict: seq<Entry>) {
    forall e <- dict :: e.patch != "" ==> Cheap(e)
  }

  /** Every entry but the last that has a patch. */
  predicate WrapsCheaply(dict: seq<Entry>) {
    forall i | 0 <= i < |dict| - 1 && dict[i].patch != "" :: Cheap(dict[i])
  }

  /** Every entry that has a patch and a patched entry behind it. */
  predicate WrapsLosslessly(dict: seq<Entry>) {
    forall i, j | 0 <= i < j < |dict| && dict[i].patch != "" && dict[j].patch != "" :: Cheap(dict[i])
  }

  predicate NoPatches(dict: seq<Entry>) {
    forall e <- dict :: e.patch == ""
  }

  /** An ordered dictionary: every name once. */
  predicate Distinct(dict: seq<Entry>) {
    forall i, j | 0 <= i < j < |dict| :: dict[i].name != dict[j].name
  }

  predicate WithinHard(total: int, b: Budget) {
    total <= b.maxTokens - 1000
  }

  /** The names of the entries with a patch, among those asked for. */
  function Patched(dict: seq<Entry>, names: seq<string>): seq<string> {
    if dict == [] then []
    else (if dict[0].name in names && dict[0].patch != "" then [dict[0].name] else []) + Patched(dict[1..], names)
  }

  /**
    The files packed by the first `n` passes and the patched files then left are together the patched files asked
    for.
   */
  predicate Complete(dict: seq<Entry>, names: seq<string>, b: Budget, n: nat) {
    multiset(PackedBy(dict, names, b, n)) + multiset(Patched(dict, Left(dict, names, b, n)))
      == multiset(Patched(dict, names))
  }

  /** The names a pass drops at the hard stop: neither packed nor left for the next pass. */
  function Dropped(dict: seq<Entry>, previous: seq<string>, total: int, b: Budget): seq<string> {
    if dict == [] then []
    else (if FateOf(dict[0], previous, total, b).HardStop? then [dict[0].name] else [])
         + Dropped(dict[1..], previous, TotalAfter(dict[0], previous, total, b), b)
  }

  /** No entry meets the hard stop. */
  lemma {:induction false} HardStopUnreachable(dict: seq<Entry>, previous: seq<string>, total: int, b: Budget)
    requires WrapsCheaply(dict) && WithinHard(total, b)
    ensures Dropped(dict, previous, total, b) == []
  {
    if |dict| > 1 {
      assert forall i | 0 <= i < |dict| - 1 :: dict[1..][i] == dict[i + 1];
      HardStopUnreachable(dict[1..], previous, TotalAfter(dict[0], previous, total, b), b);
    }
  }

  /** Every pass total stays within the hard threshold. */
  lemma {:induction false} TotalStaysWithin(dict: seq<Entry>, previous: seq<string>, total: int, b: Budget)
    requires AllWrapCheaply(dict) && WithinHard(total, b)
    ensures WithinHard(RunPass(dict, previous, total, b).total, b)
  {
    if dict != [] {
      assert dict[0] in dict;
      TotalStaysWithin(dict[1..], previous, TotalAfter(dict[0], previous, total, b), b);
    }
  }

  lemma {:induction false} PassNames(dict: seq<Entry>, previous: seq<string>, total: int, b: Budget)
    ensures forall n ::
            n in RunPass(dict, previous, total, b).remaining || n in RunPass(dict, previous, total, b).files ==>
              n in previous && exists e <- dict :: e.name == n
  {
    if dict != [] {
      PassNames(dict[1..], previous, TotalAfter(dict[0], previous, total, b), b);
      var p, rest :=
        RunPass(dict, previous, total, b), RunPass(dict[1..], previous, TotalAfter(dict[0], previous, total, b), b);
      forall n | n in p.remaining || n in p.files ensures n in previous && exists e <- dict :: e.name == n {
        if n in rest.remaining || n in rest.files {
          var e :| e in dict[1..] && e.name == n;
          assert e in dict;
        } else {
          assert dict[0] in dict && dict[0].name == n;
        }
      }
    }
  }

  lemma {:induction false} DistinctRest(dict: seq<Entry>)
    requires Distinct(dict) && dict != []
    ensures Distinct(dict[1..])
    ensures forall e <- dict[1..] :: e.name != dict[0].name
  {
  }

  /** Only membership of the asked names in a list matters for what is patched in it. */
  lemma {:induction false} PatchedExtends(dict: seq<Entry>, names: seq<string>, more: seq<string>)
    requires forall e <- dict :: (e.name in names <==> e.name in more)
    ensures Patched(dict, names) == Patched(dict, more)
  {
    if dict != [] {
      assert dict[0] in dict;
      PatchedExtends(dict[1..], names, more);
    }
  }

  /** How one entry splits: it is packed, or it remains, or it was not patched or not asked for. */
  lemma {:induction false} EntrySplits(e: Entry, tail: seq<Entry>, previous: seq<string>, total: int, b: Budget)
    requires Distinct([e] + tail) && (FateOf(e, previous, total, b).HardStop? ==> e.patch == "")
    ensures var dict, t := [e] + tail, TotalAfter(e, previous, total, b);
      var p, rest := RunPass(dict, previous, total, b), RunPass(tail, previous, t, b);
      var fate := FateOf(e, previous, total, b);
      var f, r := if fate.Packed? then [e.name] else [], if fate.TooLarge? && e.patch != "" then [e.name] else [];
      && p.files == f + rest.files
      && Patched(dict, p.remaining) == r + Patched(tail, rest.remaining)
      && Patched(dict, previous) == f + r + Patched(tail, previous)
  {
    hide FateOf, TotalAfter, RunPass, Patched, Distinct;
    var dict, t := [e] + tail, TotalAfter(e, previous, total, b);
    assert dict[0] == e && dict[1..] == tail;
    DistinctRest(dict);
    ConsSteps(e, tail, previous, total, b);
    var p, rest := RunPass(dict, previous, total, b), RunPass(tail, previous, t, b);
    NotLeftOfTail(e, tail, previous, t, b);
    var own := if FateOf(e, previous, total, b).TooLarge? then [e.name] else [];
    forall x | x in tail ensures x.name in p.remaining <==> x.name in rest.remaining {
      InOneMore(own, rest.remaining, x.name, e.name);
    }
    InOneMore(own, rest.remaining, e.name, e.name);
    PatchedExtends(tail, p.remaining, rest.remaining);
    PatchedCons(e, tail, p.remaining);
    PatchedCons(e, tail, previous);
    FateSaysAsked(e, previous, total, b);
    AppendStep([e.name], [], Patched(tail, previous));
    AppendStep([], [e.name], Patched(tail, previous));
  }

  lemma {:induction false} ConsSteps(e: Entry, tail: seq<Entry>, previous: seq<string>, total: int, b: Budget)
    ensures var rest, fate :=
            RunPass(tail, previous, TotalAfter(e, previous, total, b), b), FateOf(e, previous, total, b);
      RunPass([e] + tail, previous, total, b)
      == Pass(rest.total, (if fate.Packed? then [e.name] else []) + rest.files,
              (if fate.TooLarge? then [e.name] else []) + rest.remaining)
  {
  }

  lemma {:induction false} PatchedCons(e: Entry, tail: seq<Entry>, names: seq<string>)
    ensures Patched([e] + tail, names)
            == (if e.name in names && e.patch != "" then [e.name] else []) + Patched(tail, names)
  {
  }

  lemma {:induction false} NotLeftOfTail(e: Entry, tail: seq<Entry>, previous: seq<string>, total: int, b: Budget)
    requires forall x <- tail :: x.name != e.name
    ensures e.name !in RunPass(tail, previous, total, b).remaining
  {
    hide RunPass;
    PassNames(tail, previous, total, b);
  }

  lemma {:induction false} InOneMore(own: seq<string>, rest: seq<string>, x: string, e: string)
    requires own == [] || own == [e]
    ensures x in own + rest <==> (own != [] && x == e) || x in rest
  {
  }

  lemma {:induction false} FateSaysAsked(e: Entry, previous: seq<string>, total: int, b: Budget)
    ensures FateOf(e, previous, total, b).NotAsked? <==> e.name !in previous
    ensures FateOf(e, previous, total, b).Packed? ==> e.patch != ""
    ensures FateOf(e, previous, total, b).Empty? ==> e.patch == ""
  {
  }

  lemma {:induction false} SplitsAdd(f: seq<string>, r: seq<string>, a: seq<string>, c: seq<string>, d: seq<string>)
    requires multiset(a) + multiset(c) == multiset(d)
    ensures multiset(f + a) + multiset(r + c) == multiset(f + r + d)
  {
  }

  /** The total is within the hard threshold, or nothing with a patch is left to meet it. */
  predicate Safe(dict: seq<Entry>, total: int, b: Budget) {
    WithinHard(total, b) || NoPatches(dict)
  }

  lemma {:induction false} SafeRest(dict: seq<Entry>, previous: seq<string>, total: int, b: Budget)
    requires dict != [] && WrapsLosslessly(dict) && Safe(dict, total, b)
    ensures WrapsLosslessly(dict[1..]) && Safe(dict[1..], TotalAfter(dict[0], previous, total, b), b)
    ensures FateOf(dict[0], previous, total, b).HardStop? ==> dict[0].patch == ""
  {
    var e, tail := dict[0], dict[1..];
    assert forall i | 0 <= i < |tail| :: tail[i] == dict[i + 1];
    if e.patch != "" && !NoPatches(tail) {
      var x :| x in tail && x.patch != "";
      var j :| 0 <= j < |tail| && tail[j] == x;
      assert dict[j + 1].patch != "";
    }
  }

  /** One pass splits the patched files asked for into the packed ones and the patched ones that remain. */
  lemma {:induction false} PassPartitions(dict: seq<Entry>, previous: seq<string>, total: int, b: Budget)
    requires Distinct(dict) && WrapsLosslessly(dict) && Safe(dict, total, b)
    ensures var p := RunPass(dict, previous, total, b);
      multiset(p.files) + multiset(Patched(dict, p.remaining)) == multiset(Patched(dict, previous))
  {
    hide Safe, WrapsLosslessly, Distinct, FateOf;
    if dict != [] {
      SafeRest(dict, previous, total, b);
      DistinctRest(dict);
      PassPartitions(dict[1..], previous, TotalAfter(dict[0], previous, total, b), b);
      PassSplits(dict, previous, total, b);
    }
  }

  lemma {:induction false} PassSplits(dict: seq<Entry>, previous: seq<string>, total: int, b: Budget)
    requires dict != [] && Distinct(dict) && (FateOf(dict[0], previous, total, b).HardStop? ==> dict[0].patch == "")
    requires var t := TotalAfter(dict[0], previous, total, b);
      var rest := RunPass(dict[1..], previous, t, b);
      multiset(rest.files) + multiset(Patched(dict[1..], rest.remaining)) == multiset(Patched(dict[1..], previous))
    ensures var p := RunPass(dict, previous, total, b);
      multiset(p.files) + multiset(Patched(dict, p.remaining)) == multiset(Patched(dict, previous))
  {
    hide RunPass, Patched, Distinct, FateOf;
    var e, tail := dict[0], dict[1..];
    assert [e] + tail == dict;
    EntrySplits(e, tail, previous, total, b);
    var fate := FateOf(e, previous, total, b);
    var f, r := if fate.Packed? then [e.name] else [], if fate.TooLarge? && e.patch != "" then [e.name] else [];
    var rest := RunPass(tail, previous, TotalAfter(e, previous, total, b), b);
    SplitsAdd(f, r, rest.files, Patched(tail, rest.remaining), Patched(tail, previous));
  }

  /** Over any number of passes the packed files and the patched files still left are exactly the patched files. */
  lemma {:induction false} PassesLoseNothing(dict: seq<Entry>, names: seq<string>, b: Budget, n: nat)
    requires Distinct(dict) && WrapsLosslessly(dict) && WithinHard(b.prompt, b)
    ensures Complete(dict, names, b, n)
  {
    hide RunPass, WrapsLosslessly, Distinct, Patched;
    if n > 0 {
      var before := Left(dict, names, b, n - 1);
      PassesLoseNothing(dict, names, b, n - 1);
      PassPartitions(dict, before, b.prompt, b);
      PacksAdd(PackedBy(dict, names, b, n - 1), PackedIn(dict, names, b, n), Patched(dict, Left(dict, names, b, n)),
               Patched(dict, before), Patched(dict, names));
    }
  }

  lemma {:induction false} PacksAdd(earlier: seq<string>, now: seq<string>, left: seq<string>, before: seq<string>,
                                    all: seq<string>)
    requires multiset(earlier) + multiset(before) == multiset(all)
    requires multiset(now) + multiset(left) == multiset(before)
    ensures multiset(earlier + now) + multiset(left) == multiset(all)
  {
  }

  // ---- Progress ----------------------------------------------------------------------------

  predicate FitsAlone(e: Entry, b: Budget) {
    b.prompt + e.tokens <= b.maxTokens - 1500
  }

  /** How many entries asked for would fit on their own. */
  function Fitting(dict: seq<Entry>, names: seq<string>, b: Budget): nat {
    if dict == [] then 0
    else (if dict[0].name in names && FitsAlone(dict[0], b) then 1 else 0) + Fitting(dict[1..], names, b)
  }

  function Asked(dict: seq<Entry>, names: seq<string>): seq<string> {
    if dict == [] then [] else (if dict[0].name in names then [dict[0].name] else []) + Asked(dict[1..], names)
  }

  lemma {:induction false} FittingMonotone(dict: seq<Entry>, few: seq<string>, many: seq<string>, b: Budget)
    requires forall e <- dict :: e.name in few ==> e.name in many
    ensures Fitting(dict, few, b) <= Fitting(dict, many, b)
  {
    if dict != [] {
      assert dict[0] in dict;
      FittingMonotone(dict[1..], few, many, b);
    }
  }

  /** From the bare prompt on, a pass takes at least one of the files that fit alone off the list. */
  lemma {:induction false} PassTakesAFittingFile(dict: seq<Entry>, previous: seq<string>, b: Budget)
    requires Distinct(dict) && WithinHard(b.prompt, b) && Fitting(dict, previous, b) > 0
    ensures Fitting(dict, RunPass(dict, previous, b.prompt, b).remaining, b) < Fitting(dict, previous, b)
  {
    var e, tail := dict[0], dict[1..];
    var t := TotalAfter(e, previous, b.prompt, b);
    var p, rest := RunPass(dict, previous, b.prompt, b), RunPass(tail, previous, t, b);
    DistinctRest(dict);
    PassNames(tail, previous, t, b);
    assert forall x <- tail :: x in dict && (x.name in p.remaining <==> x.name in rest.remaining);
    FittingMonotone(tail, p.remaining, rest.remaining, b);
    FittingMonotone(tail, rest.remaining, previous, b);
    if e.name in previous && FitsAlone(e, b) {
      assert e.name !in p.remaining;
    } else {
      assert t == b.prompt;
      PassTakesAFittingFile(tail, previous, b);
    }
  }

  /** When nothing asked for fits alone, a pass packs nothing and leaves the list as it is: a fixpoint. */
  lemma {:induction false} StuckIsFixpoint(dict: seq<Entry>, previous: seq<string>, b: Budget)
    requires WithinHard(b.prompt, b) && Fitting(dict, previous, b) == 0
    ensures RunPass(dict, previous, b.prompt, b) == Pass(b.prompt, [], Asked(dict, previous))
  {
    if dict != [] {
      StuckIsFixpoint(dict[1..], previous, b);
    }
  }

  lemma {:induction false} AskedNames(dict: seq<Entry>, names: seq<string>)
    ensures forall n :: n in Asked(dict, names) <==> n in names && exists e <- dict :: e.name == n
  {
    if dict != [] {
      AskedNames(dict[1..], names);
      assert forall e <- dict :: e == dict[0] || e in dict[1..];
      assert dict[0] in dict && forall e <- dict[1..] :: e in dict;
    }
  }

  lemma {:induction false} AskedTwice(dict: seq<Entry>, names: seq<string>, more: seq<string>)
    requires forall e <- dict :: (e.name in names <==> e.name in more)
    ensures Asked(dict, names) == Asked(dict, more)
  {
    if dict != [] {
      assert dict[0] in dict;
      AskedTwice(dict[1..], names, more);
    }
  }

  /** Once stuck, every further pass packs nothing and leaves the same list. */
  lemma {:induction false} StuckForever(dict: seq<Entry>, previous: seq<string>, b: Budget)
    requires WithinHard(b.prompt, b) && Fitting(dict, previous, b) == 0
    ensures var left := RunPass(dict, previous, b.prompt, b).remaining;
      RunPass(dict, left, b.prompt, b) == Pass(b.prompt, [], left)
  {
    hide RunPass, Fitting;
    StuckIsFixpoint(dict, previous, b);
    var left := Asked(dict, previous);
    AskedNames(dict, previous);
    assert forall e <- dict :: (e.name in left <==> e.name in previous);
    FittingMonotone(dict, left, previous, b);
    StuckIsFixpoint(dict, left, b);
    AskedTwice(dict, left, previous);
  }

  /** A pass packs nothing only if every patched file asked for is too large on its own. */
  lemma {:induction false} PacksNothingOnlyIfTooLarge(dict: seq<Entry>, previous: seq<string>, b: Budget, e: Entry)
    requires WithinHard(b.prompt, b) && RunPass(dict, previous, b.prompt, b).files == []
    requires e in dict && e.name in previous && e.patch != ""
    ensures !FitsAlone(e, b)
  {
    if e != dict[0] {
      PacksNothingOnlyIfTooLarge(dict[1..], previous, b, e);
    }
  }

  lemma {:induction false} LeftFits(dict: seq<Entry>, names: seq<string>, b: Budget, n: nat)
    requires Distinct(dict) && WithinHard(b.prompt, b)
    ensures Fitting(dict, Left(dict, names, b, n), b) <= Max(0, Fitting(dict, names, b) - n)
  {
    hide RunPass, Fitting, Distinct;
    if n > 0 {
      var before := Left(dict, names, b, n - 1);
      LeftFits(dict, names, b, n - 1);
      if Fitting(dict, before, b) > 0 {
        PassTakesAFittingFile(dict, before, b);
      } else {
        PassNames(dict, before, b.prompt, b);
        FittingMonotone(dict, Left(dict, names, b, n), before, b);
      }
    }
  }

  lemma {:induction false} NoneFitting(dict: seq<Entry>, names: seq<string>, b: Budget, e: Entry)
    requires Fitting(dict, names, b) == 0 && e in dict && FitsAlone(e, b)
    ensures e.name !in names
  {
    if e != dict[0] {
      NoneFitting(dict[1..], names, b, e);
    }
  }

  lemma {:induction false} PatchedNames(dict: seq<Entry>, names: seq<string>, e: Entry)
    requires Distinct(dict) && e in dict
    ensures e.name in Patched(dict, names) <==> e.name in names && e.patch != ""
  {
    if dict != [] {
      DistinctRest(dict);
      if e == dict[0] {
        PatchedOnlyOf(dict[1..], names);
      } else {
        PatchedNames(dict[1..], names, e);
      }
    }
  }

  lemma {:induction false} PatchedOnlyOf(dict: seq<Entry>, names: seq<string>)
    ensures forall n <- Patched(dict, names) :: exists e <- dict :: e.name == n
  {
    if dict != [] {
      PatchedOnlyOf(dict[1..], names);
      assert dict[0] in dict && forall e <- dict[1..] :: e in dict;
    }
  }

  /** Every patched file that fits alone is packed within as many passes as there are files that fit alone. */
  lemma {:induction false} FittingFilesGetPacked(dict: seq<Entry>, names: seq<string>, b: Budget, n: nat, e: Entry)
    requires Distinct(dict) && WrapsLosslessly(dict) && WithinHard(b.prompt, b)
    requires n >= Fitting(dict, names, b)
    requires e in dict && e.name in names && e.patch != "" && FitsAlone(e, b)
    ensures e.name in PackedBy(dict, names, b, n)
  {
    hide RunPass, Fitting, Distinct, WrapsLosslessly, WithinHard, FitsAlone, Patched, Left, PackedBy;
    var left := Left(dict, names, b, n);
    LeftFits(dict, names, b, n);
    NoneFitting(dict, left, b, e);
    PatchedNames(dict, names, e);
    PatchedNames(dict, left, e);
    PassesLoseNothing(dict, names, b, n);
    assert e.name in multiset(Patched(dict, names)) && e.name !in multiset(Patched(dict, left));
  }

  /**
    Run on a large pull request with enough calls, the passes pack every file that fits alone and lose no patched
    file.
   */
  method PackAllFitting(dict: seq<Entry>, names: seq<string>, b: Budget, maxAiCalls: int)
    returns (filesLists: seq<seq<string>>, totals: seq<int>, remaining: seq<string>)
    requires Distinct(dict) && WrapsLosslessly(dict) && WithinHard(b.prompt, b)
    ensures multiset(Flatten(filesLists)) + multiset(Patched(dict, remaining)) == multiset(Patched(dict, names))
    ensures maxAiCalls - 1 >= Fitting(dict, names, b) ==>
              forall e | e in dict && e.name in names && e.patch != "" && FitsAlone(e, b) ::
                e.name in Flatten(filesLists)
  {
    hide RunPass, Patched, Fitting, FitsAlone, Distinct, WrapsLosslessly, Recorded, Flatten, Left, PackedBy;
    ghost var passes: nat;
    filesLists, totals, remaining, passes := GenerateCompressedDiff(dict, names, b, true, maxAiCalls);
    PassesLoseNothing(dict, names, b, passes);
    if maxAiCalls - 1 >= Fitting(dict, names, b) {
      forall e | e in dict && e.name in names && e.patch != "" && FitsAlone(e, b)
        ensures e.name in Flatten(filesLists)
      {
        if remaining == [] {
          PatchedNames(dict, names, e);
          PatchedNames(dict, remaining, e);
          assert e.name in multiset(Patched(dict, names)) && e.name !in multiset(Patched(dict, remaining));
        } else {
          FittingFilesGetPacked(dict, names, b, passes, e);
        }
      }
    }
  }

  // ---- When the guarantees hold, exactly --------------------------------------------------------

  ghost predicate NeverDrops(dict: seq<Entry>) {
    forall previous: seq<string>, b: Budget | WithinHard(b.prompt, b) :: Dropped(dict, previous, b.prompt, b) == []
  }

  ghost predicate TotalsWithin(dict: seq<Entry>) {
    forall previous: seq<string>, b: Budget | WithinHard(b.prompt, b) ::
      WithinHard(RunPass(dict, previous, b.prompt, b).total, b)
  }

  ghost predicate NeverLoses(dict: seq<Entry>) {
    forall names: seq<string>, b: Budget, n: nat | WithinHard(b.prompt, b) :: Complete(dict, names, b, n)
  }

  /** The same for the passes as they start, asked for every file, with a prompt of the given size. */
  ghost predicate StartNeverDrops(dict: seq<Entry>, prompt: nat) {
    forall maxTokens: int | WithinHard(prompt, Budget(prompt, maxTokens)) ::
      Dropped(dict, AllNames(dict), prompt, Budget(prompt, maxTokens)) == []
  }

  ghost predicate StartTotalsWithin(dict: seq<Entry>, prompt: nat) {
    forall maxTokens: int | WithinHard(prompt, Budget(prompt, maxTokens)) ::
      WithinHard(RunPass(dict, AllNames(dict), prompt, Budget(prompt, maxTokens)).total, Budget(prompt, maxTokens))
  }

  ghost predicate StartNeverLoses(dict: seq<Entry>, prompt: nat) {
    forall maxTokens: int, n: nat | WithinHard(prompt, Budget(prompt, maxTokens)) ::
      Complete(dict, AllNames(dict), Budget(prompt, maxTokens), n)
  }

  function NameOf(e: Entry): string {
    e.name
  }

  function AllNames(dict: seq<Entry>): seq<string> {
    Mapped(NameOf, dict)
  }

  lemma {:induction false} AllAsked(dict: seq<Entry>, i: nat)
    requires i < |dict|
    ensures dict[i].name in AllNames(dict)
  {
    assert AllNames(dict)[i] == dict[i].name;
  }

  // ---- A window that ends where an entry just fits ---------------------------------------

  /** A pass over two parts of the dictionary. */
  lemma {:induction false} PassConcat(first: seq<Entry>, last: seq<Entry>, previous: seq<string>, total: int, b: Budget)
    ensures var p := RunPass(first, previous, total, b);
      RunPass(first + last, previous, total, b) == Joined(p, RunPass(last, previous, p.total, b))
    decreases |first|
  {
    if first == [] {
      assert first + last == last;
      JoinedEnds(RunPass(last, previous, total, b), total);
    } else {
      hide RunPass, Joined, FirstPart;
      var e, rest := first[0], first[1..];
      var part := FirstPart(e, previous, total, b);
      var p := RunPass(rest, previous, part.total, b);
      assert first == [e] + rest && first + last == [e] + (rest + last);
      PassConcat(rest, last, previous, part.total, b);
      PassCons(e, rest, previous, total, b);
      PassCons(e, rest + last, previous, total, b);
      JoinedAssociates(part, p, RunPass(last, previous, p.total, b));
    }
  }

  /** The part of a pass that is about one entry. */
  function FirstPart(e: Entry, previous: seq<string>, total: int, b: Budget): Pass {
    var fate := FateOf(e, previous, total, b);
    Pass(TotalAfter(e, previous, total, b), if fate.Packed? then [e.name] else [],
         if fate.TooLarge? then [e.name] else [])
  }

  lemma {:induction false} PassCons(e: Entry, rest: seq<Entry>, previous: seq<string>, total: int, b: Budget)
    ensures var part := FirstPart(e, previous, total, b);
      RunPass([e] + rest, previous, total, b) == Joined(part, RunPass(rest, previous, part.total, b))
  {
    hide FateOf, TotalAfter;
    assert ([e] + rest)[1..] == rest;
  }

  lemma {:induction false} JoinedAssociates(p: Pass, q: Pass, r: Pass)
    ensures Joined(p, Joined(q, r)) == Joined(Joined(p, q), r) && Joined(p, q).total == q.total
  {
    AppendStep(p.files, q.files, r.files);
    AppendStep(p.remaining, q.remaining, r.remaining);
  }

  lemma {:induction false} DroppedConcat(first: seq<Entry>, last: seq<Entry>, previous: seq<string>, total: int,
                                         b: Budget)
    ensures Dropped(first + last, previous, total, b)
         == Dropped(first, previous, total, b) + Dropped(last, previous, RunPass(first, previous, total, b).total, b)
    decreases |first|
  {
    hide FateOf, TotalAfter;
    if first == [] {
      assert first + last == last;
    } else {
      assert (first + last)[1..] == first[1..] + last;
      DroppedConcat(first[1..], last, previous, TotalAfter(first[0], previous, total, b), b);
    }
  }

  /** A window larger by as many tokens as are already used changes nothing. */
  lemma {:induction false} PassShifts(dict: seq<Entry>, previous: seq<string>, total: int, b: Budget, d: int)
    ensures RunPass(dict, previous, total + d, b.(maxTokens := b.maxTokens + d)).total
            == RunPass(dict, previous, total, b).total + d
    decreases |dict|
  {
    if dict != [] {
      PassShifts(dict[1..], previous, TotalAfter(dict[0], previous, total, b), b, d);
    }
  }

  /** The window in which the entries leave exactly `gap` tokens below the soft threshold. */
  function WindowLeaving(dict: seq<Entry>, previous: seq<string>, total: int, gap: nat): int
    decreases |dict|
  {
    if dict == [] then total + gap + 1500
    else
      var w := WindowLeaving(dict[1..], previous, total, gap);
      if FateOf(dict[0], previous, total, Budget(0, w)).Packed? then w + dict[0].wrappedTokens else w
  }

  lemma {:induction false} WindowLeaves(dict: seq<Entry>, previous: seq<string>, total: int, gap: nat, prompt: nat)
    ensures var b := Budget(prompt, WindowLeaving(dict, previous, total, gap));
      WithinHard(total, b) && RunPass(dict, previous, total, b).total + gap == b.maxTokens - 1500
    decreases |dict|
  {
    if dict != [] {
      var w := WindowLeaving(dict[1..], previous, total, gap);
      WindowLeaves(dict[1..], previous, total, gap, prompt);
      if FateOf(dict[0], previous, total, Budget(0, w)).Packed? {
        PassShifts(dict[1..], previous, total, Budget(prompt, w), dict[0].wrappedTokens);
      }
    }
  }

  /** Past the hard threshold everything asked for is dropped. */
  lemma {:induction false} AllDropped(dict: seq<Entry>, previous: seq<string>, total: int, b: Budget)
    requires !WithinHard(total, b)
    ensures RunPass(dict, previous, total, b) == Pass(total, [], [])
    ensures forall e <- dict | e.name in previous :: e.name in Dropped(dict, previous, total, b)
    decreases |dict|
  {
    if dict != [] {
      AllDropped(dict[1..], previous, total, b);
      assert dict == [dict[0]] + dict[1..];
    }
  }

  /** The window for the start of the passes in which entry `i` just fits behind the entries before it. */
  function TightFor(dict: seq<Entry>, i: nat, prompt: nat): Budget
    requires i < |dict|
  {
    Budget(prompt, WindowLeaving(dict[..i], AllNames(dict), prompt, dict[i].tokens))
  }

  /** A dear entry takes the total past the hard threshold, and everything behind it is dropped. */
  lemma {:induction false} DearDropsTheRest(dict: seq<Entry>, i: nat, prompt: nat)
    requires i < |dict| && dict[i].patch != "" && !Cheap(dict[i])
    ensures var names, b := AllNames(dict), TightFor(dict, i, prompt);
      var before, p := RunPass(dict[..i], names, prompt, b), RunPass(dict, names, prompt, b);
      && WithinHard(prompt, b) && !WithinHard(p.total, b)
      && p.files == before.files + [dict[i].name] && p.remaining == before.remaining
      && forall j | i < j < |dict| :: dict[j].name in Dropped(dict, names, prompt, b)
  {
    hide AllNames, Dropped, WindowLeaving, Mapped, RunPass;
    var names, b := AllNames(dict), TightFor(dict, i, prompt);
    var e, tail := dict[i], dict[i + 1..];
    WindowLeaves(dict[..i], names, prompt, e.tokens, prompt);
    AllAsked(dict, i);
    var before := RunPass(dict[..i], names, prompt, b);
    PassConcat(dict[..i], [e] + tail, names, prompt, b);
    DroppedConcat(dict[..i], [e] + tail, names, prompt, b);
    assert dict == dict[..i] + ([e] + tail);
    DearStep(e, tail, names, before.total, b);
    AllDropped(tail, names, before.total + e.wrappedTokens, b);
    forall j | i < j < |dict| ensures dict[j].name in Dropped(dict, names, prompt, b) {
      AllAsked(dict, j);
      assert dict[j] == tail[j - i - 1];
    }
  }

  lemma {:induction false} DearStep(e: Entry, tail: seq<Entry>, previous: seq<string>, total: int, b: Budget)
    requires e.name in previous && e.patch != "" && !Cheap(e) && total + e.tokens == b.maxTokens - 1500
    ensures !WithinHard(total + e.wrappedTokens, b)
    ensures var rest := RunPass(tail, previous, total + e.wrappedTokens, b);
      && RunPass([e] + tail, previous, total, b) == Pass(rest.total, [e.name] + rest.files, rest.remaining)
      && Dropped([e] + tail, previous, total, b) == Dropped(tail, previous, total + e.wrappedTokens, b)
  {
    assert ([e] + tail)[1..] == tail;
  }

  // ---- The exact conditions -------------------------------------------------------------------

  /**
    The hard stop is unreachable exactly when every patched entry but the last wraps cheaply: in every pass with any
    budget, and already in the first pass with any given prompt.
   */
  lemma {:induction false} NeverDropsIff(dict: seq<Entry>, prompt: nat)
    ensures NeverDrops(dict) <==> WrapsCheaply(dict)
    ensures StartNeverDrops(dict, prompt) <==> WrapsCheaply(dict)
  {
    hide Dropped, RunPass, AllNames, TightFor;
    if WrapsCheaply(dict) {
      forall previous: seq<string>, b: Budget | WithinHard(b.prompt, b)
        ensures Dropped(dict, previous, b.prompt, b) == []
      {
        HardStopUnreachable(dict, previous, b.prompt, b);
      }
      forall maxTokens: int | WithinHard(prompt, Budget(prompt, maxTokens))
        ensures Dropped(dict, AllNames(dict), prompt, Budget(prompt, maxTokens)) == []
      {
        HardStopUnreachable(dict, AllNames(dict), prompt, Budget(prompt, maxTokens));
      }
    } else {
      var i :| 0 <= i < |dict| - 1 && dict[i].patch != "" && !Cheap(dict[i]);
      DearDropsTheRest(dict, i, prompt);
      TightPrompt(dict, i, prompt);
      assert dict[i + 1].name in Dropped(dict, AllNames(dict), prompt, TightFor(dict, i, prompt));
    }
  }

  lemma {:induction false} TightPrompt(dict: seq<Entry>, i: nat, prompt: nat)
    requires i < |dict|
    ensures TightFor(dict, i, prompt).prompt == prompt
    ensures TightFor(dict, i, prompt) == Budget(prompt, TightFor(dict, i, prompt).maxTokens)
  {
  }

  /** Every total stays within the hard threshold exactly when every patched entry wraps cheaply. */
  lemma {:induction false} TotalsWithinIff(dict: seq<Entry>, prompt: nat)
    ensures TotalsWithin(dict) <==> AllWrapCheaply(dict)
    ensures StartTotalsWithin(dict, prompt) <==> AllWrapCheaply(dict)
  {
    hide RunPass, AllNames, TightFor;
    if AllWrapCheaply(dict) {
      forall previous: seq<string>, b: Budget | WithinHard(b.prompt, b)
        ensures WithinHard(RunPass(dict, previous, b.prompt, b).total, b)
      {
        TotalStaysWithin(dict, previous, b.prompt, b);
      }
      forall maxTokens: int | WithinHard(prompt, Budget(prompt, maxTokens))
        ensures WithinHard(RunPass(dict, AllNames(dict), prompt, Budget(prompt, maxTokens)).total,
                           Budget(prompt, maxTokens))
      {
        TotalStaysWithin(dict, AllNames(dict), prompt, Budget(prompt, maxTokens));
      }
    } else {
      var e :| e in dict && e.patch != "" && !Cheap(e);
      var i :| 0 <= i < |dict| && dict[i] == e;
      DearDropsTheRest(dict, i, prompt);
      TightPrompt(dict, i, prompt);
      assert !WithinHard(RunPass(dict, AllNames(dict), prompt, TightFor(dict, i, prompt)).total,
                         TightFor(dict, i, prompt));
    }
  }

  /**
    The passes lose no patched file exactly when every patched entry with a patched one behind it wraps cheaply:
    whatever they start from and with any budget, and already started as they are with any given prompt.
   */
  lemma {:induction false} NeverLosesIff(dict: seq<Entry>, prompt: nat)
    requires Distinct(dict)
    ensures NeverLoses(dict) <==> WrapsLosslessly(dict)
    ensures StartNeverLoses(dict, prompt) <==> WrapsLosslessly(dict)
  {
    hide Distinct, Complete, AllNames, TightFor;
    if WrapsLosslessly(dict) {
      forall names: seq<string>, b: Budget, n: nat | WithinHard(b.prompt, b) ensures Complete(dict, names, b, n) {
        PassesLoseNothing(dict, names, b, n);
      }
    } else {
      var i, j :| 0 <= i < j < |dict| && dict[i].patch != "" && dict[j].patch != "" && !Cheap(dict[i]);
      DearLosesAnother(dict, i, j, prompt);
      TightPrompt(dict, i, prompt);
    }
  }

  lemma {:induction false} DearLosesAnother(dict: seq<Entry>, i: nat, j: nat, prompt: nat)
    requires Distinct(dict) && i < j < |dict| && dict[i].patch != "" && dict[j].patch != "" && !Cheap(dict[i])
    ensures var b := TightFor(dict, i, prompt);
      WithinHard(prompt, b) && !Complete(dict, AllNames(dict), b, 1)
  {
    hide RunPass, Patched, Dropped, Left, PackedBy, AllNames, TightFor, Cheap, Distinct;
    var names, b, x := AllNames(dict), TightFor(dict, i, prompt), dict[j].name;
    DearDropsTheRest(dict, i, prompt);
    TightPrompt(dict, i, prompt);
    var p, before := RunPass(dict, names, prompt, b), RunPass(dict[..i], names, prompt, b);
    StartOfPasses(dict, names, b);
    PassRecorded(dict, names, b, 0, p.total, p.files, p.remaining);
    PassNames(dict[..i], names, prompt, b);
    OthersBefore(dict, i, j);
    DistinctNames(dict, i, j);
    assert x !in p.files && x !in p.remaining;
    AllAsked(dict, j);
    PatchedNames(dict, names, dict[j]);
    PatchedNames(dict, p.remaining, dict[j]);
    assert [] + p.files == p.files;
    assert x in multiset(Patched(dict, names)) && x !in multiset(p.files) + multiset(Patched(dict, p.remaining));
  }

  lemma {:induction false} OthersBefore(dict: seq<Entry>, i: nat, j: nat)
    requires Distinct(dict) && i < j < |dict|
    ensures forall e <- dict[..i] :: e.name != dict[j].name
  {
    forall e <- dict[..i] ensures e.name != dict[j].name {
      var k :| 0 <= k < i && dict[k] == e;
      DistinctNames(dict, k, j);
    }
  }

  lemma {:induction false} DistinctNames(dict: seq<Entry>, i: nat, k: nat)
    requires Distinct(dict) && i < |dict| && k < |dict| && i != k
    ensures dict[i].name != dict[k].name
  {
  }

  /** A wrapping that costs more than the distance of the thresholds makes a pass drop a file without a trace. */
  lemma {:induction false} DearWrappingLosesAFile()
    ensures var dict := [Entry("a", "x", 8500, 9001), Entry("b", "y", 1, 1)];
      var p := RunPass(dict, ["a", "b"], 0, Budget(0, 10000));
      p.files == ["a"] && p.remaining == []
  {
  }

  /** An empty patch is never packed, yet it is listed as remaining when the total has passed the soft threshold. */
  lemma {:induction false} EmptyPatchMayRemain()
    ensures var dict := [Entry("a", "x", 8500, 8600), Entry("b", "", 0, 0)];
      var p := RunPass(dict, ["a", "b"], 0, Budget(0, 10000));
      p.files == ["a"] && p.remaining == ["b"]
  {
  }
}
