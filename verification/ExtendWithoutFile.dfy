/**
  Extending and numbering a patch when the new file is not at hand: the leading
  context is then not checked, and the two starts may be clamped differently.
 */
module ExtendWithoutFile {
  import opened Basics
  import opened UnifiedDiff
  import opened PatchExtension
  import opened PatchExtensionProofs
  import opened PatchNumbering
  import opened ExtendThenNumber

  /** How far the start of the file moves the printed numbers of a hunk's own lines. */
  function Drift(s: Span, before: nat): int {
    (s.start1 - Max(1, s.start1 - before)) - (s.start2 - Max(1, s.start2 - before))
  }

  lemma {:induction false} DriftIff(s: Span, before: nat)
    requires s.start1 >= 1 && s.start2 >= 1
    ensures Drift(s, before) == 0 <==> SameClamp(s, before)
  {
  }

  /** The lines of the original file that are put before and behind the hunk. */
  function LeadingOf(h: Hunk, base: seq<string>, before: nat): seq<string>
    requires 1 <= h.span.start1 <= |base| + 1
  {
    base[Max(1, h.span.start1 - before) - 1..h.span.start1 - 1]
  }

  function TrailingOf(h: Hunk, base: seq<string>, after: nat): seq<string>
    requires 0 <= EndOf(h) <= |base|
  {
    base[EndOf(h)..EndOf(h) + Min(after, |base| - EndOf(h))]
  }

  /**
    The new file shows the leading lines, the hunk's new side and the trailing lines at the numbers they are
    printed under: just around the hunk, or `Drift` lines off.
   */
  predicate RepeatsAround(h: Hunk, base: seq<string>, head: seq<string>, cfg: Config) {
    && 1 <= h.span.start1 <= |base| + 1 && 0 <= EndOf(h) <= |base|
    && var at := h.span.start2 - 1 + Drift(h.span, cfg.before);
       && IsSliceAt(head, Max(1, h.span.start2 - cfg.before) - 1, LeadingOf(h, base, cfg.before))
       && IsSliceAt(head, at, NewSide(h.body))
       && IsSliceAt(head, at + |NewSide(h.body)|, TrailingOf(h, base, cfg.after))
  }

  lemma {:induction false} PartOfSlice(s: seq<string>, at: int, part: seq<string>, i: nat, j: nat)
    requires IsSliceAt(s, at, part) && i <= j <= |part|
    ensures IsSliceAt(s, at + i, part[i..j])
  {
    forall k | i <= k < j ensures s[at + k] == part[k] {
      assert s[at..at + |part|][k] == part[k];
    }
  }

  lemma {:induction false} ThreeSlices(s: seq<string>, at: int, a: seq<string>, b: seq<string>, c: seq<string>)
    ensures IsSliceAt(s, at, a + b + c)
            <==> IsSliceAt(s, at, a) && IsSliceAt(s, at + |a|, b) && IsSliceAt(s, at + |a| + |b|, c)
  {
    if IsSliceAt(s, at, a + b + c) {
      PartOfSlice(s, at, a + b + c, 0, |a|);
      PartOfSlice(s, at, a + b + c, |a|, |a| + |b|);
      PartOfSlice(s, at, a + b + c, |a| + |b|, |a| + |b| + |c|);
      assert (a + b + c)[0..|a|] == a;
      assert (a + b + c)[|a|..|a| + |b|] == b;
      assert (a + b + c)[|a| + |b|..|a| + |b| + |c|] == c;
    } else if IsSliceAt(s, at, a) && IsSliceAt(s, at + |a|, b) && IsSliceAt(s, at + |a| + |b|, c) {
      JoinSlices(s, at, a, b, c);
    }
  }

  /** What is put around a hunk without the new file. */
  lemma {:induction false} AroundAlone(h: Hunk, base: seq<string>, cfg: Config)
    requires Placed(h, base)
    ensures 1 <= h.span.start1 <= |base| + 1 && 0 <= EndOf(h) <= |base|
    ensures WindowFor(h, base, [], cfg).span.start2 == Max(1, h.span.start2 - cfg.before)
    ensures WindowFor(h, base, [], cfg).leading == LeadingOf(h, base, cfg.before)
    ensures TrailingFor(h, base, cfg) == TrailingOf(h, base, cfg.after)
  {
    hide WindowFor, TrailingFor, OldSide, NewSide, IsSliceAt, IsBody, InRange;
    WindowShape(h, base, [], cfg);
    TrailingIsNext(h, base, cfg);
    NewSideLength(h, base);
    var w, t := WindowFor(h, base, [], cfg), TrailingFor(h, base, cfg);
    SliceIs(base, w.span.start1 - 1, w.leading);
    SliceIs(base, EndOf(h), t);
  }

  lemma {:induction false} SliceIs(s: seq<string>, at: int, part: seq<string>)
    requires IsSliceAt(s, at, part)
    ensures 0 <= at <= at + |part| <= |s| && part == s[at..at + |part|]
  {
  }

  lemma {:induction false} WidenedAloneIff(h: Hunk, base: seq<string>, head: seq<string>, cfg: Config)
    requires Placed(h, base) && IsSliceAt(head, h.span.start2 - 1, NewSide(h.body))
    ensures NewSideIn(Widened(h, base, [], cfg), head) <==> RepeatsAround(h, base, head, cfg)
  {
    hide WindowFor, TrailingFor, OldSide, NewSide, AsContext, Placed, IsSliceAt;
    AroundAlone(h, base, cfg);
    PlacedStarts(h, base);
    SidesOfWidened(h, base, [], cfg);
    var lead, trail := LeadingOf(h, base, cfg.before), TrailingOf(h, base, cfg.after);
    ThreeSlices(head, Max(1, h.span.start2 - cfg.before) - 1, lead, NewSide(h.body), trail);
    EmptySlice(head, h.span.start2 - 1, NewSide(h.body), Max(1, h.span.start2 - cfg.before) - 1);
  }

  lemma {:induction false} PlacedStarts(h: Hunk, base: seq<string>)
    requires Placed(h, base)
    ensures IsBody(h.body) && h.span.start1 >= 1 && h.span.start2 >= 1
  {
  }

  lemma {:induction false} EmptySlice(s: seq<string>, at: int, part: seq<string>, earlier: int)
    requires IsSliceAt(s, at, part) && 0 <= earlier <= at
    ensures IsSliceAt(s, earlier, [])
  {
  }

  lemma {:induction false} WidenedAloneFacts(base: seq<string>, head: seq<string>, h: Hunk, cfg: Config)
    requires HunkOf(base, head, h) && h.span.start1 >= 1 && h.span.start2 >= 1
    requires NothingSkipped([h]) && CleanTexts(base)
    ensures var x := Widened(h, base, [], cfg);
      && IsBody(x.body) && NothingSkipped([x])
      && (Changes(x.body) <==> Changes(h.body))
      && (NewSideIn(x, head) <==> RepeatsAround(h, base, head, cfg))
  {
    hide HunkOf, NothingSkipped, CleanTexts, Widened, Changes, IsSliceAt, RepeatsAround, NewSide, NewSideIn;
    PlacedOfHunkOf(base, head, h);
    WidenedNothingSkipped(h, base, [], cfg);
    WidenedAloneIff(h, base, head, cfg);
    SidesOfWidened(h, base, [], cfg);
    WidenedChanges(h, base, [], cfg);
  }

  /**
    Without the new file the printed numbers are those of the lines in it if and only if nothing was extended or
    around every hunk that changes something it repeats the lines taken from the original file, at the numbers
    they are printed under.
   */
  lemma {:induction false} TruthfulWithoutFileIff(base: seq<string>, head: seq<string>, hunks: seq<Hunk>,
                                                  cfg: Config, skip: bool)
    requires PatchOf(base, head, hunks)
    requires IsUnextended(base, cfg, skip) || StartsAtLeastOne(hunks)
    requires NothingSkipped(hunks) && CleanTexts(base)
    ensures Number(ExtendPatch(Render(hunks), base, [], cfg, skip))
            == Ok(Entries(ResultHunks(hunks, base, [], cfg, skip)))
    ensures Truthful(Entries(ResultHunks(hunks, base, [], cfg, skip)), head)
       <==> IsUnextended(base, cfg, skip) || forall h <- hunks :: !Changes(h.body) || RepeatsAround(h, base, head, cfg)
  {
    hide Extended, NothingSkipped, HunkOf, Number, Entries, Truthful, IsBody, CleanTexts, Changes, NewSideIn;
    hide RepeatsAround;
    hide PatchFrom, Widened, AsContext;
    PatchBodies(base, head, hunks, 0, 0);
    var result := ResultHunks(hunks, base, [], cfg, skip);
    if IsUnextended(base, cfg, skip) || hunks == [] {
      forall h | h in hunks ensures NewSideIn(h, head) {
        BareHunkInHead(base, head, h);
      }
      assert result == hunks;
      NumberOfRendered(hunks, false);
    } else {
      forall i | 0 <= i < |hunks|
        ensures var x := result[i];
          && IsBody(x.body) && NothingSkipped([x])
          && (Changes(x.body) <==> Changes(hunks[i].body))
          && (NewSideIn(x, head) <==> RepeatsAround(hunks[i], base, head, cfg))
      {
        OneSkipsNothing(hunks, hunks[i]);
        WidenedAloneFacts(base, head, hunks[i], cfg);
      }
      AllSkipNothing(result);
      ExtendsHunkByHunk(hunks, NoHunk, base, [], cfg);
      NoLinesOwed(Render(result, true));
      NumberOfRendered(result, true);
    }
    EntriesTruthfulIff(result, head);
  }

  // ---- What can be read off the headers --------------------------------------------------

  /** The leading lines stand just before the hunk in the new file too. */
  predicate LeadingSame(h: Hunk, base: seq<string>, head: seq<string>, before: nat) {
    && 1 <= h.span.start1 <= |base| + 1
    && IsSliceAt(head, h.span.start2 - 1 - |LeadingOf(h, base, before)|, LeadingOf(h, base, before))
  }

  /** With both starts clamped alike the condition is that the files agree just before and just behind the hunk. */
  lemma {:induction false} RepeatsAroundIff(h: Hunk, base: seq<string>, head: seq<string>, cfg: Config)
    requires Placed(h, base) && IsSliceAt(head, h.span.start2 - 1, NewSide(h.body)) && SameClamp(h.span, cfg.before)
    ensures RepeatsAround(h, base, head, cfg)
            <==> LeadingSame(h, base, head, cfg.before) && SameAfter(h, base, head, cfg.after)
  {
    hide OldSide, NewSide, IsSliceAt, LeadingOf, Drift;
    DriftIff(h.span, cfg.before);
    NewSideLength(h, base);
    LeadingLength(h, base, cfg.before);
  }

  lemma {:induction false} LeadingLength(h: Hunk, base: seq<string>, before: nat)
    requires 1 <= h.span.start1 <= |base| + 1
    ensures |LeadingOf(h, base, before)| == Min(h.span.start1 - 1, before)
  {
  }

  lemma {:induction false} NewSideLength(h: Hunk, base: seq<string>)
    requires Placed(h, base)
    ensures |NewSide(h.body)| == h.span.size2 && |OldSide(h.body)| == h.span.size1
    ensures 1 <= h.span.start1 <= |base| + 1 && 0 <= EndOf(h) <= |base|
  {
  }

  /** Two files that agree up to two places agree on the lines just before them. */
  lemma {:induction false} EqualEnds(s: seq<string>, t: seq<string>, i: nat, j: nat, a: int, b: int, m: nat)
    requires i <= i + m <= a <= |s| && j <= b <= |t|
    requires s[i..a] == t[j..b]
    ensures IsSliceAt(t, b - m, s[a - m..a])
  {
    assert |t[j..b]| == a - i;
    assert s[i..a][a - i - m..] == s[a - m..a];
    assert t[j..b][a - i - m..] == t[b - m..b];
  }

  lemma {:induction false} LeadingOfFirst(base: seq<string>, head: seq<string>, h: Hunk, before: nat, p1: nat, p2: nat)
    requires p1 <= h.span.start1 - 1 <= |base| && p2 <= h.span.start2 - 1 <= |head|
    requires base[p1..h.span.start1 - 1] == head[p2..h.span.start2 - 1]
    requires (p1 == 0 && p2 == 0) || h.span.start1 - 1 - p1 >= before
    ensures LeadingSame(h, base, head, before) && SameClamp(h.span, before)
  {
    hide IsSliceAt;
    EqualEnds(base, head, p1, p2, h.span.start1 - 1, h.span.start2 - 1, |LeadingOf(h, base, before)|);
  }

  lemma {:induction false} GapsOfRest(hunks: seq<Hunk>, n: nat)
    requires hunks != [] && GapsAtLeast(hunks, n)
    ensures GapsAtLeast(hunks[1..], n)
    ensures |hunks| > 1 ==> OldOffset(hunks[1..][0].span) - (OldOffset(hunks[0].span) + hunks[0].span.size1) >= n
  {
    var rest := hunks[1..];
    assert forall i | 0 < i < |rest| :: rest[i] == hunks[i + 1] && rest[i - 1] == hunks[i];
  }

  /** Hunks at least as far apart as the leading context keep the leading lines unchanged. */
  lemma {:induction false} LeadingUnchanged(base: seq<string>, head: seq<string>, hunks: seq<Hunk>, before: nat,
                                            p1: nat, p2: nat)
    requires p1 <= |base| && p2 <= |head| && PatchFrom(base, head, hunks, p1, p2)
    requires GapsAtLeast(hunks, before) && forall h <- hunks :: h.span.size1 >= 1 && h.span.size2 >= 1
    requires hunks != [] ==> (p1 == 0 && p2 == 0) || OldOffset(hunks[0].span) - p1 >= before
    ensures forall h <- hunks :: LeadingSame(h, base, head, before) && SameClamp(h.span, before)
    decreases |hunks|
  {
    hide HunkOf, PatchFrom, LeadingSame, GapsAtLeast, SameClamp;
    if hunks != [] {
      var h, rest := hunks[0], hunks[1..];
      assert h in hunks && hunks == [h] + rest;
      PatchTail(base, head, hunks, p1, p2);
      LeadingOfFirst(base, head, h, before, p1, p2);
      GapsOfRest(hunks, before);
      LeadingUnchanged(base, head, rest, before, OldOffset(h.span) + h.span.size1, NewOffset(h.span) + h.span.size2);
    }
  }

  /** No empty side and gaps as wide as the context on either side are enough; the starts are then clamped alike. */
  lemma {:induction false} TruthfulWithoutFile(base: seq<string>, head: seq<string>, hunks: seq<Hunk>, cfg: Config)
    requires PatchOf(base, head, hunks) && NothingSkipped(hunks) && CleanTexts(base)
    requires GapsAtLeast(hunks, Max(cfg.before, cfg.after))
    requires forall h <- hunks :: h.span.size1 >= 1 && h.span.size2 >= 1
    ensures Truthful(Entries(ResultHunks(hunks, base, [], cfg, false)), head)
  {
    hide PatchFrom, HunkOf, NothingSkipped, CleanTexts, Number, Entries, Truthful, ExtendPatch, ResultHunks, IsSliceAt;
    hide RepeatsAround, SameAfter, LeadingSame, Changes;
    PatchBodies(base, head, hunks, 0, 0);
    forall h | h in hunks ensures h.span.start1 >= 1 && h.span.start2 >= 1 {
      StartsPositive(base, head, h);
    }
    LeadingUnchanged(base, head, hunks, cfg.before, 0, 0);
    AllSameAfter(base, head, hunks, cfg.after, 0, 0);
    forall h | h in hunks ensures RepeatsAround(h, base, head, cfg) {
      PlacedOfHunkOf(base, head, h);
      RepeatsAroundIff(h, base, head, cfg);
    }
    TruthfulWithoutFileIff(base, head, hunks, cfg, false);
  }
}
