/**
  The two passes composed: a patch is extended and then numbered.  Under the
  conditions a caller can read off the headers, every number printed is the
  number of that line in the new file, in every branch of the extension.
 */
module ExtendThenNumber {
  import opened Basics
  import opened UnifiedDiff
  import opened PatchExtension
  import opened PatchExtensionProofs
  import opened PatchNumbering

  predicate CleanTexts(texts: seq<string>) {
    forall t <- texts :: !MentionsPhrase(t)
  }

  predicate IsUnextended(base: seq<string>, cfg: Config, skip: bool) {
    (cfg.before == 0 && cfg.after == 0) || base == [] || skip
  }

  /** The hunks of the patch that ExtendPatch returns. */
  function ResultHunks(hunks: seq<Hunk>, base: seq<string>, head: seq<string>, cfg: Config, skip: bool): seq<Hunk> {
    if IsUnextended(base, cfg, skip) then hunks else WidenedAll(hunks, base, head, cfg)
  }

  lemma {:induction false} SliceIsClean(file: seq<string>, at: int, part: seq<string>)
    requires IsSliceAt(file, at, part) && CleanTexts(file)
    ensures CleanTexts(part)
  {
  }

  lemma {:induction false} WidenedNothingSkipped(h: Hunk, base: seq<string>, head: seq<string>, cfg: Config)
    requires Placed(h, base) && (head != [] ==> h.span.start2 - 1 <= |head|)
    requires NothingSkipped([h]) && CleanTexts(base)
    ensures NothingSkipped([Widened(h, base, head, cfg)])
  {
    hide MentionsPhrase, Placed, TrailingTexts, WindowFor, TrailingFor, IsSliceAt, InRange, CleanTexts;
    var w, t := WindowFor(h, base, head, cfg), TrailingFor(h, base, cfg);
    WindowShape(h, base, head, cfg);
    TrailingIsNext(h, base, cfg);
    SectionKeptOrEmpty(h, base, head, cfg);
    EmptyTextIsClean();
    assert h in [h];
    if !w.reset {
      SliceIsClean(base, w.span.start1 - 1, w.leading);
    }
    SliceIsClean(base, EndOf(h), t);
    ContextIsClean(w.leading);
    ContextIsClean(t);
  }

  lemma {:induction false} ContextIsClean(texts: seq<string>)
    requires CleanTexts(texts)
    ensures forall l <- AsContext(texts) :: !Skipped(l)
  {
  }

  lemma {:induction false} EmptyTextIsClean()
    ensures !MentionsPhrase("")
  {
  }

  lemma {:induction false} SectionKeptOrEmpty(h: Hunk, base: seq<string>, head: seq<string>, cfg: Config)
    ensures WindowFor(h, base, head, cfg).section == h.section || WindowFor(h, base, head, cfg).section == ""
  {
  }

  lemma {:induction false} StartWithin(h: Hunk, head: seq<string>)
    requires IsSliceAt(head, h.span.start2 - 1, NewSide(h.body))
    ensures h.span.start2 - 1 <= |head|
  {
  }

  lemma {:induction false} PatchBodies(base: seq<string>, head: seq<string>, hunks: seq<Hunk>, p1: nat, p2: nat)
    requires p1 <= |base| && p2 <= |head| && PatchFrom(base, head, hunks, p1, p2)
    ensures Bodies(hunks)
    ensures forall h <- hunks :: HunkOf(base, head, h)
    decreases |hunks|
  {
    hide PatchFrom, IsSliceAt;
    if hunks != [] {
      PatchTail(base, head, hunks, p1, p2);
      var h := hunks[0];
      PatchBodies(base, head, hunks[1..], OldOffset(h.span) + h.span.size1, NewOffset(h.span) + h.span.size2);
    }
  }

  lemma {:induction false} BareHunkInHead(base: seq<string>, head: seq<string>, h: Hunk)
    requires HunkOf(base, head, h)
    ensures NewSideIn(h, head)
  {
  }

  /** What the main theorem needs of one hunk of the extended patch. */
  lemma {:induction false} WidenedFacts(base: seq<string>, head: seq<string>, h: Hunk, cfg: Config)
    requires HunkOf(base, head, h) && h.span.start1 >= 1 && h.span.start2 >= 1 && head != []
    requires NothingSkipped([h]) && CleanTexts(base)
    ensures var x := Widened(h, base, head, cfg);
      && IsBody(x.body) && NothingSkipped([x])
      && (Changes(x.body) <==> Changes(h.body))
      && (NewSideIn(x, head) <==> SameAfter(h, base, head, cfg.after))
  {
    hide HunkOf, Placed, NothingSkipped, CleanTexts, Widened, Changes, IsSliceAt, SameAfter, NewSide;
    PlacedOfHunkOf(base, head, h);
    StartWithin(h, head);
    WidenedNothingSkipped(h, base, head, cfg);
    NewSideContiguousIff(h, base, head, cfg);
    SidesOfWidened(h, base, head, cfg);
    WidenedChanges(h, base, head, cfg);
    EmptyWidened(h, base, head, cfg);
  }

  lemma {:induction false} WidenedChanges(h: Hunk, base: seq<string>, head: seq<string>, cfg: Config)
    ensures Changes(Widened(h, base, head, cfg).body) <==> Changes(h.body)
  {
  }

  /** A widened hunk without new lines gained none after it. */
  lemma {:induction false} EmptyWidened(h: Hunk, base: seq<string>, head: seq<string>, cfg: Config)
    requires Placed(h, base) && IsSliceAt(head, h.span.start2 - 1, NewSide(h.body))
    ensures NewSide(Widened(h, base, head, cfg).body) == [] ==> SameAfter(h, base, head, cfg.after)
  {
    hide Widened, WindowFor, TrailingFor, OldSide, NewSide;
    SidesOfWidened(h, base, head, cfg);
    TrailingIsNext(h, base, cfg);
  }

  predicate StartsAtLeastOne(hunks: seq<Hunk>) {
    forall h <- hunks :: h.span.start1 >= 1 && h.span.start2 >= 1
  }

  lemma {:induction false} OneSkipsNothing(hunks: seq<Hunk>, h: Hunk)
    requires NothingSkipped(hunks) && h in hunks
    ensures NothingSkipped([h])
  {
  }

  lemma {:induction false} AllSkipNothing(hunks: seq<Hunk>)
    requires forall h <- hunks :: NothingSkipped([h])
    ensures NothingSkipped(hunks)
  {
  }

  /**
    The numbering prints the entries of the (extended) hunks and nothing else, and every number is true if and
    only if nothing was extended or, after every hunk that changes something, the new file repeats the trailing
    lines taken from the original one.
   */
  lemma {:induction false} ExtendThenNumberIsTruthfulIff(base: seq<string>, head: seq<string>, hunks: seq<Hunk>,
                                                         cfg: Config, skip: bool)
    requires PatchOf(base, head, hunks) && head != []
    requires IsUnextended(base, cfg, skip) || StartsAtLeastOne(hunks)
    requires NothingSkipped(hunks) && CleanTexts(base)
    ensures Number(ExtendPatch(Render(hunks), base, head, cfg, skip))
            == Ok(Entries(ResultHunks(hunks, base, head, cfg, skip)))
    ensures Truthful(Entries(ResultHunks(hunks, base, head, cfg, skip)), head)
       <==> IsUnextended(base, cfg, skip) || forall h <- hunks ::
         !Changes(h.body) || SameAfter(h, base, head, cfg.after)
  {
    hide Extended, NothingSkipped, HunkOf, Number, Entries, Truthful, IsBody, CleanTexts, Changes, NewSideIn, SameAfter;
    hide PatchFrom, Widened, AsContext;
    PatchBodies(base, head, hunks, 0, 0);
    var result := ResultHunks(hunks, base, head, cfg, skip);
    if IsUnextended(base, cfg, skip) || hunks == [] {
      forall h | h in hunks ensures NewSideIn(h, head) {
        BareHunkInHead(base, head, h);
      }
      assert result == hunks;
      NumberOfRendered(hunks, false);
    } else {
      forall i | 0 <= i < |hunks|
        ensures var x := result[i];
          && IsBody(x.body) && NothingSkipped([x])
          && (Changes(x.body) <==> Changes(hunks[i].body))
          && (NewSideIn(x, head) <==> SameAfter(hunks[i], base, head, cfg.after))
      {
        OneSkipsNothing(hunks, hunks[i]);
        WidenedFacts(base, head, hunks[i], cfg);
      }
      AllSkipNothing(result);
      ExtendsHunkByHunk(hunks, NoHunk, base, head, cfg);
      NoLinesOwed(Render(result, true));
      NumberOfRendered(result, true);
    }
    EntriesTruthfulIff(result, head);
  }

  lemma {:induction false} NoLinesOwed(lines: seq<Line>)
    ensures AsContext([]) + lines == lines
  {
  }

  /**
    What a caller can read off the headers is enough: separated hunks, and no empty side if lines are added after
    it.
   */
  lemma {:induction false} ExtendThenNumberIsTruthful(base: seq<string>, head: seq<string>, hunks: seq<Hunk>,
                                                      cfg: Config, skip: bool)
    requires PatchOf(base, head, hunks) && head != []
    requires IsUnextended(base, cfg, skip) || Extendable(hunks, cfg.after)
    requires NothingSkipped(hunks) && CleanTexts(base)
    ensures Number(ExtendPatch(Render(hunks), base, head, cfg, skip))
            == Ok(Entries(ResultHunks(hunks, base, head, cfg, skip)))
    ensures Truthful(Entries(ResultHunks(hunks, base, head, cfg, skip)), head)
  {
    hide PatchFrom, NothingSkipped, CleanTexts, Number, Entries, Truthful, ExtendPatch, ResultHunks, SameAfter;
    hide GapsAtLeast;
    ExtendThenNumberIsTruthfulIff(base, head, hunks, cfg, skip);
    if !IsUnextended(base, cfg, skip) {
      AllSameAfter(base, head, hunks, cfg.after, 0, 0);
    }
  }

  lemma {:induction false} AllSameAfter(base: seq<string>, head: seq<string>, hunks: seq<Hunk>, after: nat, p1: nat,
                                        p2: nat)
    requires p1 <= |base| && p2 <= |head|
    requires PatchFrom(base, head, hunks, p1, p2) && Extendable(hunks, after)
    ensures forall h <- hunks :: SameAfter(h, base, head, after)
    decreases |hunks|
  {
    hide PatchFrom, HunkOf, Placed, Extendable, SameAfter, IsSliceAt;
    if hunks != [] {
      var h := hunks[0];
      PatchTail(base, head, hunks, p1, p2);
      FirstHunkReady(base, head, hunks, after, p1, p2);
      ExtendableRest(hunks, after);
      AllSameAfter(base, head, hunks[1..], after, OldOffset(h.span) + h.span.size1, NewOffset(h.span) + h.span.size2);
      assert hunks == [h] + hunks[1..];
    }
  }

  /**
    Over a whole patch with an unchanged line between any two hunks: every extended hunk's old side is
    contiguous, and its header is exact if and only if its starts are clamped alike (or dynamic context
    was found), or it gains no trailing line.
   */
  lemma {:induction false} ExtendedHeadersExactIff(base: seq<string>, head: seq<string>, hunks: seq<Hunk>, cfg: Config)
    requires PatchOf(base, head, hunks) && head != [] && GapsAtLeast(hunks, 1)
    requires forall h <- hunks :: h.span.size1 >= 1 && h.span.size2 >= 1
    ensures forall h <- hunks ::
      var x := Widened(h, base, head, cfg);
      && x.span.start1 >= 1 && IsSliceAt(base, x.span.start1 - 1, OldSide(x.body))
      && (SizesExact(x) <==>
            DynamicFound(h, base, head, cfg) || SameClamp(h.span, cfg.before) || cfg.after == 0 || EndOf(h) == |base|)
  {
    hide PatchFrom, HunkOf, LineBeforeSame, Widened, DynamicFound, SizesExact, IsSliceAt, GapsAtLeast;
    PatchBodies(base, head, hunks, 0, 0);
    LinesBeforeSame(base, head, hunks, 0, 0);
    forall h | h in hunks
      ensures var x := Widened(h, base, head, cfg);
        && x.span.start1 >= 1 && IsSliceAt(base, x.span.start1 - 1, OldSide(x.body))
        && (SizesExact(x) <==>
              DynamicFound(h, base, head, cfg) || SameClamp(h.span, cfg.before) || cfg.after == 0 || EndOf(h) == |base|)
    {
      StartsPositive(base, head, h);
      PlacedOfHunkOf(base, head, h);
      StartWithin(h, head);
      HeaderSizesGuard(h, base, head, cfg);
      OldSideIsContiguous(h, base, head, cfg);
    }
  }

  lemma {:induction false} StartsPositive(base: seq<string>, head: seq<string>, h: Hunk)
    requires HunkOf(base, head, h) && h.span.size1 >= 1 && h.span.size2 >= 1
    ensures h.span.start1 >= 1 && h.span.start2 >= 1
  {
  }

  // ---- The conditions are needed -------------------------------------------------

  /**
    Where the new file differs right after a hunk that changes something, extending that patch prints a wrong
    number.
   */
  lemma {:induction false} WrongAfter(base: seq<string>, head: seq<string>, hunks: seq<Hunk>, h: Hunk, cfg: Config)
    requires PatchOf(base, head, hunks) && head != [] && base != [] && cfg.after >= 1
    requires StartsAtLeastOne(hunks) && NothingSkipped(hunks) && CleanTexts(base)
    requires h in hunks && Changes(h.body)
    requires var p, q := EndOf(h), h.span.start2 - 1 + h.span.size2;
      0 <= p < |base| && (0 <= q < |head| ==> base[p] != head[q])
    ensures !Truthful(Entries(WidenedAll(hunks, base, head, cfg)), head)
  {
    hide PatchFrom, NothingSkipped, CleanTexts, Number, Entries, Truthful, ExtendPatch, Changes, WidenedAll, SameAfter;
    ExtendThenNumberIsTruthfulIff(base, head, hunks, cfg, false);
    FirstLineAfter(base, head, h, cfg.after);
  }

  lemma {:induction false} FirstLineAfter(base: seq<string>, head: seq<string>, h: Hunk, after: nat)
    requires after >= 1 && 0 <= EndOf(h) < |base|
    ensures SameAfter(h, base, head, after) ==>
              var q := h.span.start2 - 1 + h.span.size2;
              0 <= q < |head| && head[q] == base[EndOf(h)]
  {
    var p, q := EndOf(h), h.span.start2 - 1 + h.span.size2;
    var t := base[p..p + Min(after, |base| - p)];
    if SameAfter(h, base, head, after) {
      assert t[0] == head[q..q + |t|][0];
    }
  }

  lemma {:induction false} ConsHunk(base: seq<string>, head: seq<string>, h: Hunk, rest: seq<Hunk>, p1: nat, p2: nat)
    requires HunkOf(base, head, h) && (rest == [] || NoNewline !in h.body)
    requires p1 <= OldOffset(h.span) && p2 <= NewOffset(h.span)
    requires base[p1..OldOffset(h.span)] == head[p2..NewOffset(h.span)]
    requires PatchFrom(base, head, rest, OldOffset(h.span) + h.span.size1, NewOffset(h.span) + h.span.size2)
    ensures PatchFrom(base, head, [h] + rest, p1, p2)
  {
    assert ([h] + rest)[1..] == rest;
  }

  lemma {:induction false} OneChange(l: Line)
    requires l.Addition? || l.Deletion?
    ensures OldSide([l]) == OldPart(l) && NewSide([l]) == NewPart(l)
    ensures IsBody([l]) && NoNewline !in [l] && Changes([l])
  {
  }

  lemma {:induction false} ChangeIsClean(start1: int, start2: int, l: Line)
    requires (l.Addition? || l.Deletion?) && !MentionsPhrase(l.text)
    ensures NothingSkipped([Hunk(Span(start1, |OldPart(l)|, start2, |NewPart(l)|), "", [l])])
  {
  }

  /** With any trailing context, an insertion with an empty old side repeats the line before it under a wrong number. */
  lemma {:induction false} EmptyOldSideMisnumbers(a: string, x: string, b: string, cfg: Config)
    requires cfg.after >= 1 && a != b && CleanTexts([a, x, b])
    ensures var h := Hunk(Span(1, 0, 2, 1), "", [Addition(x)]);
      && PatchOf([a, b], [a, x, b], [h])
      && !Truthful(Entries(WidenedAll([h], [a, b], [a, x, b], cfg)), [a, x, b])
  {
    hide Entries, WidenedAll, Truthful, NothingSkipped, Changes, OldSide, NewSide, MentionsPhrase;
    var h := Hunk(Span(1, 0, 2, 1), "", [Addition(x)]);
    var base, head := [a, b], [a, x, b];
    ChangeIsClean(1, 2, Addition(x));
    OneChange(Addition(x));
    assert base[1..] == head[2..];
    assert [h] + [] == [h];
    ConsHunk(base, head, h, [], 0, 0);
    WrongAfter(base, head, [h], h, cfg);
  }

  /** A deletion with an empty new side misnumbers its trailing context in the same way. */
  lemma {:induction false} EmptyNewSideMisnumbers(a: string, b: string, c: string, cfg: Config)
    requires cfg.after >= 1 && a != c && CleanTexts([a, b, c])
    ensures var h := Hunk(Span(2, 1, 1, 0), "", [Deletion(b)]);
      && PatchOf([a, b, c], [a, c], [h])
      && !Truthful(Entries(WidenedAll([h], [a, b, c], [a, c], cfg)), [a, c])
  {
    hide Entries, WidenedAll, Truthful, NothingSkipped, Changes, OldSide, NewSide, MentionsPhrase;
    var h := Hunk(Span(2, 1, 1, 0), "", [Deletion(b)]);
    var base, head := [a, b, c], [a, c];
    ChangeIsClean(2, 1, Deletion(b));
    OneChange(Deletion(b));
    assert base[2..] == head[1..];
    assert [h] + [] == [h];
    ConsHunk(base, head, h, [], 0, 0);
    WrongAfter(base, head, [h], h, cfg);
  }

  function Replacement(at: int, x: string, a: string): Hunk {
    Hunk(Span(at, 1, at, 1), "", [Addition(x), Deletion(a)])
  }

  /** Hunks closer together than the trailing context: a line the next hunk replaces is printed as unchanged. */
  lemma {:induction false} NarrowGapMisnumbers(a: string, b: string, x: string, y: string, cfg: Config)
    requires cfg.after >= 1 && b != y && CleanTexts([a, b, x, y])
    ensures PatchOf([a, b], [x, y], [Replacement(1, x, a), Replacement(2, y, b)])
    ensures !Truthful(Entries(WidenedAll([Replacement(1, x, a), Replacement(2, y, b)], [a, b], [x, y], cfg)), [x, y])
  {
    hide Entries, WidenedAll, Truthful, NothingSkipped, OldSide, NewSide, PatchFrom, MentionsPhrase, Changes, HunkOf;
    var h, g := Replacement(1, x, a), Replacement(2, y, b);
    var base, head := [a, b], [x, y];
    ReplacementFits(base, head, 1);
    ReplacementFits(base, head, 2);
    NothingLeft(base, head);
    assert [g] + [] == [g] && [h] + [g] == [h, g];
    ConsHunk(base, head, g, [], 1, 1);
    ConsHunk(base, head, h, [g], 0, 0);
    AllSkipNothing([h, g]);
    WrongAfter(base, head, [h, g], h, cfg);
  }

  lemma {:induction false} NothingLeft(base: seq<string>, head: seq<string>)
    ensures PatchFrom(base, head, [], |base|, |head|)
  {
  }

  lemma {:induction false} ReplacementFits(base: seq<string>, head: seq<string>, at: nat)
    requires 1 <= at <= |base| && at <= |head|
    requires !MentionsPhrase(base[at - 1]) && !MentionsPhrase(head[at - 1])
    ensures var h := Replacement(at, head[at - 1], base[at - 1]);
      HunkOf(base, head, h) && NothingSkipped([h]) && Changes(h.body) && NoNewline !in h.body
  {
    hide MentionsPhrase, OldSide, NewSide;
    var x, a := Addition(head[at - 1]), Deletion(base[at - 1]);
    OneChange(x);
    OneChange(a);
    SidesOfConcat([x], [a]);
    assert [x] + [a] == [x, a];
    assert [x, a][0].Addition?;
    EmptyTextIsClean();
  }
}
