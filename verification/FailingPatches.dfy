/**
  Well-formed patches on which a pass does not do what its documentation says:
  one for each condition that the theorems about the passes state.
 */
module FailingPatches {
  import opened UnifiedDiff
  import opened PatchExtension
  import opened PatchExtensionProofs
  import opened PatchNumbering
  import opened ExtendThenNumber
  import opened ExtendWithoutFile
  import opened PatchPosition
  import opened DeletionTrimming

  lemma {:induction false} SidesOfCons(l: Line, rest: seq<Line>)
    ensures OldSide([l] + rest) == OldPart(l) + OldSide(rest) && NewSide([l] + rest) == NewPart(l) + NewSide(rest)
    ensures OldSide([]) == [] && NewSide([]) == []
  {
    assert ([l] + rest)[1..] == rest;
  }

  lemma {:induction false} SidesOfTwo(k: Line, l: Line)
    ensures OldSide([k, l]) == OldPart(k) + OldPart(l) && NewSide([k, l]) == NewPart(k) + NewPart(l)
  {
    SidesOfCons(l, []);
    SidesOfCons(k, [l]);
    assert [l] + [] == [l] && [k] + [l] == [k, l];
  }

  lemma {:induction false} SidesOfThree(j: Line, k: Line, l: Line)
    ensures OldSide([j, k, l]) == OldPart(j) + (OldPart(k) + OldPart(l))
    ensures NewSide([j, k, l]) == NewPart(j) + (NewPart(k) + NewPart(l))
  {
    SidesOfTwo(k, l);
    SidesOfCons(j, [k, l]);
    assert [j] + [k, l] == [j, k, l];
  }

  lemma {:induction false} LastHunk(base: seq<string>, head: seq<string>, h: Hunk, p1: nat, p2: nat)
    requires HunkOf(base, head, h) && p1 <= OldOffset(h.span) && p2 <= NewOffset(h.span)
    requires base[p1..OldOffset(h.span)] == head[p2..NewOffset(h.span)]
    requires base[OldOffset(h.span) + h.span.size1..] == head[NewOffset(h.span) + h.span.size2..]
    ensures PatchFrom(base, head, [h], p1, p2)
  {
    assert [h] + [] == [h];
    ConsHunk(base, head, h, [], p1, p2);
  }

  // ---- A header that does not count its lines -----------------------------------------

  /** Two lines are put before `a` and `c` is replaced by `z`. */
  function Shifted(a: string, c: string, x: string, y: string, z: string): seq<Hunk> {
    [Hunk(Span(1, 1, 1, 3), "", [Addition(x), Addition(y), Context(a)]),
     Hunk(Span(3, 1, 5, 1), "", [Deletion(c), Addition(z)])]
  }

  lemma {:induction false} ShiftedIsPatch(a: string, b: string, c: string, d: string, x: string, y: string, z: string)
    ensures PatchOf([a, b, c, d], [x, y, a, b, z, d], Shifted(a, c, x, y, z))
    ensures HunkOf([a, b, c, d], [x, y, a, b, z, d], Shifted(a, c, x, y, z)[1])
  {
    hide OldSide, NewSide, PatchFrom;
    var base, head, hunks := [a, b, c, d], [x, y, a, b, z, d], Shifted(a, c, x, y, z);
    SidesOfThree(Addition(x), Addition(y), Context(a));
    SidesOfTwo(Deletion(c), Addition(z));
    assert base[1..2] == head[3..4] && base[3..] == head[5..];
    LastHunk(base, head, hunks[1], 1, 3);
    ConsHunk(base, head, hunks[0], [hunks[1]], 0, 0);
    assert [hunks[0]] + [hunks[1]] == hunks;
  }

  /**
    The start of the file clamps the two sides of the second hunk differently: with at least three leading lines and
    any trailing line its header keeps bare sizes over the trailing line.
   */
  lemma {:induction false} HeaderSizesFail(a: string, b: string, c: string, d: string, x: string, y: string, z: string,
                                           before: nat, after: nat)
    requires before >= 3 && after >= 1
    ensures var base, head, hunks := [a, b, c, d], [x, y, a, b, z, d], Shifted(a, c, x, y, z);
      PatchOf(base, head, hunks) && !SizesExact(Widened(hunks[1], base, head, Config(before, after, false, 0)))
  {
    hide OldSide, NewSide, PatchFrom, Widened, SizesExact, HunkOf;
    var base, head, hunks := [a, b, c, d], [x, y, a, b, z, d], Shifted(a, c, x, y, z);
    ShiftedIsPatch(a, b, c, d, x, y, z);
    PlacedOfHunkOf(base, head, hunks[1]);
    HeaderSizesGuard(hunks[1], base, head, Config(before, after, false, 0));
  }

  /**
    The same clamping without the new file: with at least three leading lines the replaced line gets a wrong
    number.
   */
  lemma {:induction false} WithoutFileMisnumbers(a: string, b: string, c: string, d: string, x: string, y: string,
                                                 z: string,
                                                 cfg: Config)
    requires cfg.before >= 3 && z != a && z != b
    ensures var base, head, hunks := [a, b, c, d], [x, y, a, b, z, d], Shifted(a, c, x, y, z);
      PatchOf(base, head, hunks) && !Truthful(Entries(WidenedAll(hunks, base, [], cfg)), head)
  {
    hide OldSide, PatchFrom, Widened, HunkOf, Entries, Truthful, Changes, NewSideIn;
    var base, head, hunks := [a, b, c, d], [x, y, a, b, z, d], Shifted(a, c, x, y, z);
    var h, result := hunks[1], WidenedAll(hunks, base, [], cfg);
    ShiftedIsPatch(a, b, c, d, x, y, z);
    PlacedOfHunkOf(base, head, h);
    SidesOfTwo(Deletion(c), Addition(z));
    assert NewSide(h.body) == [z];
    WidenedAloneIff(h, base, head, cfg);
    ReplacementOff(h, a, b, c, d, x, y, z, cfg);
    WidenedChanges(h, base, [], cfg);
    ReplacementChanges(c, z);
    EntriesTruthfulIff(result, head);
    assert result[1] in result;
  }

  /** One or two lines further up stand `b` and `a`. */
  lemma {:induction false} ReplacementOff(h: Hunk, a: string, b: string, c: string, d: string, x: string, y: string,
                                          z: string,
                                          cfg: Config)
    requires h.span == Span(3, 1, 5, 1) && NewSide(h.body) == [z] && cfg.before >= 3 && z != a && z != b
    ensures !RepeatsAround(h, [a, b, c, d], [x, y, a, b, z, d], cfg)
  {
    hide IsSliceAt, NewSide, LeadingOf, TrailingOf;
    var head := [x, y, a, b, z, d];
    NotThere(head, 2, z);
    NotThere(head, 3, z);
  }

  lemma {:induction false} NotThere(s: seq<string>, at: nat, z: string)
    requires at < |s| && s[at] != z
    ensures !IsSliceAt(s, at, [z])
  {
    assert s[at..at + 1] == [s[at]];
  }

  lemma {:induction false} ReplacementChanges(c: string, z: string)
    ensures Changes([Deletion(c), Addition(z)])
  {
    assert Addition(z) in [Deletion(c), Addition(z)];
  }

  // ---- Markers counted as lines -----------------------------------------------------------

  /** The last line is replaced, with the marker between the two versions. */
  function MarkedReplacement(a: string, x: string): Hunk {
    Hunk(Span(1, 1, 1, 1), "", [Deletion(a), NoNewline, Addition(x)])
  }

  /** The absolute line computed for the added line is 2; it is line 1. */
  lemma {:induction false} AbsoluteLineFails(a: string, x: string)
    ensures var h := MarkedReplacement(a, x);
      && PatchOf([a], [x], [h]) && IsLine([x], 1, TextOf(h.body[2]))
      && Values(Render([h]), START)[3] == 2
  {
    hide OldSide, NewSide, PatchFrom, Values;
    var h := MarkedReplacement(a, x);
    SidesOfThree(Deletion(a), NoNewline, Addition(x));
    LastHunk([a], [x], h, 0, 0);
    ValueAt(h, 2);
    assert h.body[..2] == [Deletion(a), NoNewline];
    assert [Deletion(a), NoNewline][1..] == [NoNewline] && [NoNewline][1..] == [];
    RenderFirst([h]);
    assert Render([h]) == HunkLines(h) + [] == HunkLines(h);
  }

  /** The first line is replaced and the last one deleted, with a marker behind it. */
  function MarkedDeletion(a: string, b: string, x: string): seq<Hunk> {
    [Hunk(Span(1, 1, 1, 1), "", [Deletion(a), Addition(x)]), Hunk(Span(2, 1, 1, 0), "", [Deletion(b), NoNewline])]
  }

  lemma {:induction false} MarkedDeletionIsPatch(a: string, b: string, x: string)
    ensures PatchOf([a, b], [x], MarkedDeletion(a, b, x))
  {
    hide OldSide, NewSide, PatchFrom;
    var hunks := MarkedDeletion(a, b, x);
    SidesOfTwo(Deletion(a), Addition(x));
    SidesOfTwo(Deletion(b), NoNewline);
    LastHunk([a, b], [x], hunks[1], 1, 1);
    ConsHunk([a, b], [x], hunks[0], [hunks[1]], 0, 0);
    assert [hunks[0]] + [hunks[1]] == hunks;
  }

  /** The marker's line is line 1, which the first hunk shows: looking it up gives another position. */
  lemma {:induction false} MarkerPositionFails(a: string, b: string, x: string, back: int)
    requires PositionOf(MarkedDeletion(a, b, x), 1, 1) < |Values(Render(MarkedDeletion(a, b, x)), START)|
    requires var values := Values(Render(MarkedDeletion(a, b, x)), START);
      FirstIndexOf(values, back, values[PositionOf(MarkedDeletion(a, b, x), 1, 1)])
    ensures PatchOf([a, b], [x], MarkedDeletion(a, b, x))
    ensures back != PositionOf(MarkedDeletion(a, b, x), 1, 1)
  {
    hide Values, Render, PatchFrom, FirstIndexOf;
    var hunks := MarkedDeletion(a, b, x);
    MarkedDeletionIsPatch(a, b, x);
    ValuesAround(hunks, 1);
    MarkerValue(b);
    assert hunks[..1] == [hunks[0]];
    LineOfHunk(hunks[1], 1);
    PositionsAreInverseIff([a, b], [x], hunks, 1, 1, back);
    assert Shows(hunks[..1][0], 1) && hunks[..1][0] in hunks[..1];
  }

  lemma {:induction false} MarkerValue(b: string)
    ensures var h := Hunk(Span(2, 1, 1, 0), "", [Deletion(b), NoNewline]);
      |Values(HunkLines(h), START)| == 3 && Values(HunkLines(h), START)[2] == 1
  {
    hide Values;
    var h := Hunk(Span(2, 1, 1, 0), "", [Deletion(b), NoNewline]);
    ValuesOfHunk(h, START);
    ValuesOfBody(h.body, Scan(1, 0), 1);
    assert h.body[..2] == [Deletion(b), NoNewline];
    assert [Deletion(b), NoNewline][1..] == [NoNewline] && [NoNewline][1..] == [];
  }

  // ---- A deletion-only hunk that stays ---------------------------------------------------------

  /** The first line is deleted, and behind an unchanged line `c` is replaced by `x`. */
  function DeleteThenReplace(a: string, c: string, x: string): seq<Hunk> {
    [Hunk(Span(1, 1, 0, 0), "", [Deletion(a)]), Hunk(Span(3, 1, 2, 1), "", [Deletion(c), Addition(x)])]
  }

  lemma {:induction false} DeleteThenReplaceFits(a: string, b: string, c: string, x: string)
    ensures HunkOf([a, b, c], [b, x], DeleteThenReplace(a, c, x)[0])
    ensures HunkOf([a, b, c], [b, x], DeleteThenReplace(a, c, x)[1])
  {
    hide OldSide, NewSide;
    SidesOfCons(Deletion(a), []);
    assert [Deletion(a)] + [] == [Deletion(a)];
    SidesOfTwo(Deletion(c), Addition(x));
  }

  lemma {:induction false} DeleteThenReplaceIsPatch(a: string, b: string, c: string, x: string)
    ensures PatchOf([a, b, c], [b, x], DeleteThenReplace(a, c, x))
  {
    hide PatchFrom, HunkOf;
    var base, head, hunks := [a, b, c], [b, x], DeleteThenReplace(a, c, x);
    DeleteThenReplaceFits(a, b, c, x);
    assert base[1..2] == head[0..1];
    LastHunk(base, head, hunks[1], 1, 0);
    ConsHunk(base, head, hunks[0], [hunks[1]], 0, 0);
    assert [hunks[0]] + [hunks[1]] == hunks;
  }

  /** Trimming leaves this patch as it is, the hunk that only deletes included. */
  lemma {:induction false} DeletionHunkStays(a: string, b: string, c: string, x: string, r: seq<Line>)
    requires IsTrimmed(Render(DeleteThenReplace(a, c, x)), r)
    ensures PatchOf([a, b, c], [b, x], DeleteThenReplace(a, c, x))
    ensures !Adds(DeleteThenReplace(a, c, x)[0]) && r == Render(DeleteThenReplace(a, c, x))
  {
    hide PatchFrom, IsTrimmed, Render;
    var hunks := DeleteThenReplace(a, c, x);
    DeleteThenReplaceIsPatch(a, b, c, x);
    assert hunks[1].body[1].Addition?;
    assert hunks[..2] == hunks && hunks[2..] == [];
    TrimKeepsUpToLastAdding(hunks, 2, r);
  }

  // ---- A hunk that starts at line 0 ----------------------------------------------------------

  /** A line is put before the first, with no line of context. */
  function InsertedFirst(x: string): seq<Hunk> {
    [Hunk(Span(0, 0, 1, 1), "", [Addition(x)])]
  }

  lemma {:induction false} InsertedFirstIsPatch(base: seq<string>, x: string)
    ensures PatchOf(base, [x] + base, InsertedFirst(x))
    ensures Render(InsertedFirst(x)) == [Header(Span(0, 0, 1, 1), "")] + [Addition(x)]
  {
    hide OldSide, NewSide, PatchFrom;
    var head, hunks := [x] + base, InsertedFirst(x);
    SidesOfCons(Addition(x), []);
    assert [Addition(x)] + [] == [Addition(x)] == hunks[0].body;
    assert head[1..] == base && base[0..] == base;
    LastHunk(base, head, hunks[0], 0, 0);
    assert hunks[1..] == [];
  }

  /** The slice up to index -1 is all but the last line. */
  lemma {:induction false} StartZeroWindow(base: seq<string>, before: nat)
    requires base != [] && before >= 1
    ensures WindowOf(Span(0, 0, 1, 1), "", true, base, [], Config(before, 0, false, 0))
         == Window(Span(1, -1, 1, 1), "", base[..|base| - 1], false)
  {
  }

  lemma {:induction false} OneLineAdded(span: Span, x: string, base: seq<string>, head: seq<string>, cfg: Config)
    requires cfg.after == 0
    ensures var w := WindowOf(span, "", true, base, head, cfg);
      Extended([Header(span, "")] + [Addition(x)], NoHunk, base, head, cfg)
      == [Blank, Header(w.span, w.section)] + AsContext(w.leading) + [Addition(x)]
  {
    hide WindowOf, AsContext;
    var lines, body := [Header(span, "")] + [Addition(x)], [Addition(x)];
    NothingInFront();
    assert lines[1..] == body && body[1..] == [];
    assert Extended([], Pending(span, true), base, head, cfg) == [];
    assert Extended(body, Pending(span, true), base, head, cfg) == body;
  }

  lemma {:induction false} NothingInFront()
    ensures AsContext([]) == []
  {
  }

  /**
    Starts of at least one are needed: with any leading lines and the new file not at hand, the header of this
    patch gets a negative size, and under it come all lines of the file but the last, which belong behind it.
   */
  lemma {:induction false} StartZeroFails(base: seq<string>, x: string, before: nat)
    requires base != [] && before >= 1
    ensures PatchOf(base, [x] + base, InsertedFirst(x))
    ensures Extended(Render(InsertedFirst(x)), NoHunk, base, [], Config(before, 0, false, 0))
         == [Blank, Header(Span(1, -1, 1, 1), "")] + AsContext(base[..|base| - 1]) + [Addition(x)]
  {
    hide Extended, WindowOf, PatchFrom, Render, AsContext;
    InsertedFirstIsPatch(base, x);
    StartZeroWindow(base, before);
    OneLineAdded(Span(0, 0, 1, 1), x, base, [], Config(before, 0, false, 0));
  }
}
