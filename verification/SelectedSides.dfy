/**
  What the line selection shows and selects on either side of a hunk, and which
  lines it passes over.
 */
module SelectedSides {
  import opened Basics
  import opened UnifiedDiff
  import opened PatchNumbering
  import opened LineSelection
  import opened NumberedBlocks
  import HunkParsing

  /** The header's range on the side asked about holds the first line, or that line comes just behind it. */
  predicate AdmitsHunk(h: Hunk, side: Side, lineStart: int) {
    if side == Left then h.span.start1 <= lineStart <= h.span.start1 + h.span.size1
    else h.span.start2 <= lineStart <= h.span.start2 + h.span.size2
  }

  /** The lines before which at least `lo` and at most `hi` lines stand that are no deletions, `n` of them earlier. */
  function Picked(body: seq<Line>, n: int, lo: int, hi: int): seq<Line>
    decreases |body|
  {
    if body == [] then []
    else if body[0].NoNewline? then Picked(body[1..], n, lo, hi)
    else (if lo <= n <= hi then [body[0]] else [])
         + Picked(body[1..], if body[0].Deletion? then n else n + 1, lo, hi)
  }

  function PickedOf(h: Hunk, side: Side, lineStart: int, lineEnd: int): seq<Line> {
    if side == Left then Picked(h.body, 0, 0, lineEnd - h.span.start1)
    else Picked(h.body, 0, lineStart - h.span.start2, lineEnd - h.span.start2)
  }

  function ShownText(hunks: seq<Hunk>, side: Side, lineStart: int): seq<Line> {
    if hunks == [] then []
    else (if AdmitsHunk(hunks[0], side, lineStart)
          then [HeaderOf(hunks[0])] + HunkParsing.WithoutMarkers(hunks[0].body) else [])
         + ShownText(hunks[1..], side, lineStart)
  }

  function PickedText(hunks: seq<Hunk>, side: Side, lineStart: int, lineEnd: int): seq<Line> {
    if hunks == [] then []
    else (if AdmitsHunk(hunks[0], side, lineStart) then PickedOf(hunks[0], side, lineStart, lineEnd) else [])
         + PickedText(hunks[1..], side, lineStart, lineEnd)
  }

  // ---- Over one body ------------------------------------------------------------------------

  function Low(c: Cursor, side: Side, lineStart: int): int {
    if side == Left then 0 else lineStart - c.start2
  }

  function High(c: Cursor, side: Side, lineEnd: int): int {
    if side == Left then lineEnd - c.start1 else lineEnd - c.start2
  }

  function OfBody(body: seq<Line>, c: Cursor, side: Side, lineStart: int, lineEnd: int): Selection {
    if c.skip then Selection([], [])
    else Selection(HunkParsing.WithoutMarkers(body),
                   Picked(body, c.num, Low(c, side, lineStart), High(c, side, lineEnd)))
  }

  function OfLine(l: Line, c: Cursor, side: Side, lineStart: int, lineEnd: int): Selection {
    if c.skip || l.NoNewline? then Selection([], [])
    else Selection([l], if Low(c, side, lineStart) <= c.num <= High(c, side, lineEnd) then [l] else [])
  }

  lemma {:induction false} SelectLine(l: Line, rest: seq<Line>, c: Cursor, side: Side, lineStart: int, lineEnd: int)
    requires IsBodyLine(l) && (l.NoNewline? || !Skipped(l))
    ensures var d := if l.NoNewline? || c.skip then c else Advance(c, l);
      SelectFrom([l] + rest, c, side, lineStart, lineEnd)
      == Prefixed(OfLine(l, c, side, lineStart, lineEnd), SelectFrom(rest, d, side, lineStart, lineEnd))
  {
    hide MentionsPhrase;
    assert ([l] + rest)[1..] == rest;
    var r := SelectFrom(rest, if l.NoNewline? || c.skip then c else Advance(c, l), side, lineStart, lineEnd);
    PrefixedLaws(Selection([], []), Selection([], []), r);
  }

  lemma {:induction false} OfBodyCons(l: Line, more: seq<Line>, c: Cursor, side: Side, lineStart: int, lineEnd: int)
    ensures var d := if l.NoNewline? || c.skip then c else Advance(c, l);
      OfBody([l] + more, c, side, lineStart, lineEnd)
      == Plus(OfLine(l, c, side, lineStart, lineEnd), OfBody(more, d, side, lineStart, lineEnd))
  {
    assert ([l] + more)[1..] == more;
    assert [] + HunkParsing.WithoutMarkers(more) == HunkParsing.WithoutMarkers(more);
    assert forall lines: seq<Line> :: [] + lines == lines;
  }

  lemma {:induction false} SelectOverBody(body: seq<Line>, rest: seq<Line>, c: Cursor, side: Side, lineStart: int,
                                          lineEnd: int)
    requires IsBody(body) && forall l <- body :: l.NoNewline? || !Skipped(l)
    ensures exists d: Cursor ::
      SelectFrom(body + rest, c, side, lineStart, lineEnd)
      == Prefixed(OfBody(body, c, side, lineStart, lineEnd), SelectFrom(rest, d, side, lineStart, lineEnd))
    decreases |body|
  {
    hide SelectFrom, OfBody, Skipped, Prefixed, Plus;
    if body == [] {
      assert body + rest == rest;
      EmptyBody(c, side, lineStart, lineEnd);
      PrefixedLaws(Selection([], []), Selection([], []), SelectFrom(rest, c, side, lineStart, lineEnd));
    } else {
      var l, more := body[0], body[1..];
      assert IsBodyLine(l) && l in body && forall m <- more :: m in body;
      var c1 := if l.NoNewline? || c.skip then c else Advance(c, l);
      assert body + rest == [l] + (more + rest) && body == [l] + more;
      SelectLine(l, more + rest, c, side, lineStart, lineEnd);
      SelectOverBody(more, rest, c1, side, lineStart, lineEnd);
      var d: Cursor :| SelectFrom(more + rest, c1, side, lineStart, lineEnd)
        == Prefixed(OfBody(more, c1, side, lineStart, lineEnd), SelectFrom(rest, d, side, lineStart, lineEnd));
      OfBodyCons(l, more, c, side, lineStart, lineEnd);
      PrefixedLaws(OfLine(l, c, side, lineStart, lineEnd), OfBody(more, c1, side, lineStart, lineEnd),
                  SelectFrom(rest, d, side, lineStart, lineEnd));
    }
  }

  lemma {:induction false} EmptyBody(c: Cursor, side: Side, lineStart: int, lineEnd: int)
    ensures OfBody([], c, side, lineStart, lineEnd) == Selection([], [])
  {
  }

  // ---- Over all hunks -----------------------------------------------------------------------

  lemma {:induction false} SelectHeader(h: Hunk, rest: seq<Line>, c: Cursor, side: Side, lineStart: int, lineEnd: int)
    requires !Skipped(HeaderOf(h))
    ensures var skip := !AdmitsHunk(h, side, lineStart);
      SelectFrom([HeaderOf(h)] + rest, c, side, lineStart, lineEnd)
      == Prefixed(Selection(if skip then [] else [HeaderOf(h)], []),
                 SelectFrom(rest, Cursor(h.span.start1, h.span.start2, skip, 0), side, lineStart, lineEnd))
  {
    hide Skipped, Prefixed;
    assert ([HeaderOf(h)] + rest)[1..] == rest;
  }

  /**
    On the text of a hunk list: the headers and lines of the hunks that are admitted are shown, and the lines in
    range among them selected.  On the left side the range starts with the hunk, wherever it was asked to start.
   */
  lemma {:induction false} SelectionOfRendered(hunks: seq<Hunk>, c: Cursor, side: Side, lineStart: int, lineEnd: int)
    requires Bodies(hunks) && NothingSkipped(hunks)
    ensures SelectFrom(Render(hunks), c, side, lineStart, lineEnd)
         == Ok(Selection(ShownText(hunks, side, lineStart), PickedText(hunks, side, lineStart, lineEnd)))
    decreases |hunks|
  {
    hide Skipped, SelectFrom, IsBody, Prefixed, Picked;
    if hunks == [] {
      NothingToSelect(c, side, lineStart, lineEnd);
    } else {
      var h, rest := hunks[0], hunks[1..];
      assert h in hunks && forall g <- rest :: g in hunks;
      var tail := Render(rest);
      assert Render(hunks) == [HeaderOf(h)] + (h.body + tail);
      var c1 := Cursor(h.span.start1, h.span.start2, !AdmitsHunk(h, side, lineStart), 0);
      SelectHeader(h, h.body + tail, c, side, lineStart, lineEnd);
      SelectOverBody(h.body, tail, c1, side, lineStart, lineEnd);
      var d: Cursor :| SelectFrom(h.body + tail, c1, side, lineStart, lineEnd)
        == Prefixed(OfBody(h.body, c1, side, lineStart, lineEnd), SelectFrom(tail, d, side, lineStart, lineEnd));
      SelectionOfRendered(rest, d, side, lineStart, lineEnd);
      var head := Selection(if c1.skip then [] else [HeaderOf(h)], []);
      var body := OfBody(h.body, c1, side, lineStart, lineEnd);
      PrefixedLaws(head, body, SelectFrom(tail, d, side, lineStart, lineEnd));
      AppendStep(head.shown, body.shown, ShownText(rest, side, lineStart));
      AppendStep([], body.selected, PickedText(rest, side, lineStart, lineEnd));
      PickedStep(h, c1, side, lineStart, lineEnd);
      PrefixedOk(Plus(head, body),
                 Selection(ShownText(rest, side, lineStart), PickedText(rest, side, lineStart, lineEnd)));
    }
  }

  lemma {:induction false} PickedStep(h: Hunk, c: Cursor, side: Side, lineStart: int, lineEnd: int)
    requires c == Cursor(h.span.start1, h.span.start2, !AdmitsHunk(h, side, lineStart), 0)
    ensures var head := Selection(if c.skip then [] else [HeaderOf(h)], []);
      var all := Plus(head, OfBody(h.body, c, side, lineStart, lineEnd));
      && all.shown == (if c.skip then [] else [HeaderOf(h)] + HunkParsing.WithoutMarkers(h.body))
      && all.selected == (if c.skip then [] else PickedOf(h, side, lineStart, lineEnd))
  {
    hide Picked;
  }

  lemma {:induction false} PrefixedOk(a: Selection, b: Selection)
    ensures Prefixed(a, Ok(b)) == Ok(Plus(a, b))
  {
  }

  lemma {:induction false} NothingToSelect(c: Cursor, side: Side, lineStart: int, lineEnd: int)
    ensures SelectFrom(Render([]), c, side, lineStart, lineEnd) == Ok(Selection([], []))
  {
  }

  // ---- The left side ----------------------------------------------------------------------------

  function NotDeleted(lines: seq<Line>): nat {
    if lines == [] then 0 else (if lines[0].Deletion? then 0 else 1) + NotDeleted(lines[1..])
  }

  lemma {:induction false} NotDeletedCons(l: Line, lines: seq<Line>)
    ensures NotDeleted([l] + lines) == (if l.Deletion? then 0 else 1) + NotDeleted(lines)
  {
    assert ([l] + lines)[1..] == lines;
  }

  /** On the left side the lines up to the one that makes `hi + 1` lines that are no deletions are selected. */
  lemma {:induction false} LeftIsPrefix(body: seq<Line>, n: int, hi: int) returns (k: nat)
    requires 0 <= n
    ensures var lines := HunkParsing.WithoutMarkers(body);
      && k <= |lines| && Picked(body, n, 0, hi) == lines[..k]
      && (n > hi ==> k == 0)
      && (n <= hi ==> NotDeleted(lines[..k]) <= hi + 1 - n
                      && (k == |lines| || (k > 0 && NotDeleted(lines[..k]) == hi + 1 - n && !lines[k - 1].Deletion?)))
    decreases |body|
  {
    if body == [] {
      k := 0;
    } else if body[0].NoNewline? {
      k := LeftIsPrefix(body[1..], n, hi);
    } else {
      var l, lines := body[0], HunkParsing.WithoutMarkers(body[1..]);
      assert HunkParsing.WithoutMarkers(body) == [l] + lines;
      var rest := LeftIsPrefix(body[1..], if l.Deletion? then n else n + 1, hi);
      if n > hi {
        k := 0;
      } else {
        k := rest + 1;
        assert ([l] + lines)[..k] == [l] + lines[..rest];
        NotDeletedCons(l, lines[..rest]);
        assert rest == 0 ==> lines[..rest] == [];
        assert k < |[l] + lines| ==> ([l] + lines)[k - 1] == if rest == 0 then l else lines[rest - 1];
      }
    }
  }

  // ---- Lines before the first header ------------------------------------------------------------

  /** They are shown, and selected as if a hunk that starts at line -1 on either side held them. */
  lemma {:induction false} PreambleIsShown(before: seq<Line>, hunks: seq<Hunk>, side: Side, lineStart: int,
                                           lineEnd: int)
    requires IsBody(before) && forall l <- before :: l.NoNewline? || !HasPhrase(TextOf(l))
    requires Bodies(hunks) && NothingSkipped(hunks)
    ensures SelectFrom(before + Render(hunks), START, side, lineStart, lineEnd)
         == Ok(Selection(HunkParsing.WithoutMarkers(before) + ShownText(hunks, side, lineStart),
                         Picked(before, 0, if side == Left then 0 else lineStart + 1, lineEnd + 1)
                         + PickedText(hunks, side, lineStart, lineEnd)))
  {
    hide SelectFrom, Skipped, HasPhrase, Render, Picked;
    forall l <- before ensures l.NoNewline? || !Skipped(l) {
      SkippedIff(l);
    }
    SelectOverBody(before, Render(hunks), START, side, lineStart, lineEnd);
    var d: Cursor :| SelectFrom(before + Render(hunks), START, side, lineStart, lineEnd)
      == Prefixed(OfBody(before, START, side, lineStart, lineEnd),
                  SelectFrom(Render(hunks), d, side, lineStart, lineEnd));
    SelectionOfRendered(hunks, d, side, lineStart, lineEnd);
    PrefixedOk(OfBody(before, START, side, lineStart, lineEnd),
               Selection(ShownText(hunks, side, lineStart), PickedText(hunks, side, lineStart, lineEnd)));
  }

  // ---- Lines passed over and lines that raise ------------------------------------------------

  predicate Mentions(l: Line) {
    match l
    case NoNewline => true
    case Blank => false
    case Header(_, section) => HasPhrase(section)
    case Context(t) => HasPhrase(t)
    case Addition(t) => HasPhrase(t)
    case Deletion(t) => HasPhrase(t)
    case Malformed(t) => HasPhrase(t)
    case Other(t) => HasPhrase(t)
  }

  lemma {:induction false} MentionsIff(l: Line)
    ensures Skipped(l) <==> Mentions(l)
  {
    hide MentionsPhrase, HasPhrase;
    match l {
      case NoNewline =>
      case Blank =>
      case Header(_, section) => MentionsPhraseIff(section);
      case Context(t) => MentionsPhraseIff(t);
      case Addition(t) => MentionsPhraseIff(t);
      case Deletion(t) => MentionsPhraseIff(t);
      case Malformed(t) => MentionsPhraseIff(t);
      case Other(t) => MentionsPhraseIff(t);
    }
  }

  function Unmentioned(lines: seq<Line>): seq<Line> {
    if lines == [] then [] else (if Mentions(lines[0]) then [] else [lines[0]]) + Unmentioned(lines[1..])
  }

  /** Lines that mention the no-newline phrase make no difference, wherever they stand. */
  lemma {:induction false} MentionsMakeNoDifference(lines: seq<Line>, c: Cursor, side: Side, lineStart: int,
                                                    lineEnd: int)
    ensures SelectFrom(lines, c, side, lineStart, lineEnd)
         == SelectFrom(Unmentioned(lines), c, side, lineStart, lineEnd)
    decreases |lines|
  {
    hide Skipped, Mentions, Prefixed, Admits, Picks;
    if lines != [] {
      var l, rest := lines[0], lines[1..];
      MentionsIff(l);
      if Mentions(l) {
        assert Unmentioned(lines) == Unmentioned(rest);
        MentionsMakeNoDifference(rest, c, side, lineStart, lineEnd);
      } else {
        assert Unmentioned(lines) == [l] + Unmentioned(rest);
        assert ([l] + Unmentioned(rest))[1..] == Unmentioned(rest);
        if l.Header? {
          var skip := !Admits(l.span, side, lineStart);
          MentionsMakeNoDifference(rest, Cursor(l.span.start1, l.span.start2, skip, 0), side, lineStart, lineEnd);
        } else if !l.Malformed? {
          MentionsMakeNoDifference(rest, if c.skip then c else Advance(c, l), side, lineStart, lineEnd);
        }
      }
    }
  }

  /** The selection and the numbering raise exactly at a header that cannot be read. */
  lemma {:induction false} SelectRaisesIff(lines: seq<Line>, c: Cursor, side: Side, lineStart: int, lineEnd: int)
    ensures SelectFrom(lines, c, side, lineStart, lineEnd).Raised?
       <==> exists l <- lines :: l.Malformed? && !HasPhrase(l.text)
    decreases |lines|
  {
    hide HasPhrase, Skipped, Picks, Admits;
    if lines != [] {
      var l, rest := lines[0], lines[1..];
      assert lines == [l] + rest;
      MentionsIff(l);
      if l.Header? && !Skipped(l) {
        var skip := !Admits(l.span, side, lineStart);
        SelectRaisesIff(rest, Cursor(l.span.start1, l.span.start2, skip, 0), side, lineStart, lineEnd);
      } else {
        SelectRaisesIff(rest, if c.skip || Skipped(l) then c else Advance(c, l), side, lineStart, lineEnd);
      }
    }
  }

  lemma {:induction false} NumberRaisesIff(lines: seq<Line>, first: bool, o: Open)
    ensures NumberFrom(lines, first, o).Raised? <==> exists l <- lines :: l.Malformed? && !HasPhrase(l.text)
    decreases |lines|
  {
    hide HasPhrase, Skipped, Closed, Last, DroppedBlank, Collect;
    if lines != [] {
      var l, rest := lines[0], lines[1..];
      assert lines == [l] + rest;
      MentionsIff(l);
      if l.Header? && !Skipped(l) {
        NumberRaisesIff(rest, false, Open(Some(l), [], []));
      } else if Skipped(l) || DroppedBlank(l, rest, first) {
        NumberRaisesIff(rest, false, o);
      } else {
        NumberRaisesIff(rest, false, Collect(o, l));
      }
    }
  }
}
