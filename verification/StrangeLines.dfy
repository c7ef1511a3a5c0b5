/**
  Lines a well-formed patch does not have: empty lines and lines with no known
  prefix.  Every reader but one takes them for context; each lemma says so by
  replacing them.
 */
module StrangeLines {
  import opened Basics
  import opened UnifiedDiff
  import HunkParsing
  import LineSelection
  import PatchNumbering
  import PatchPosition
  import SelectedSides

  /** The context line that an empty line or a line with no known prefix is taken for. */
  function Plain(l: Line): Line {
    match l
    case Blank => Context("")
    case Other(t) => Context(t)
    case _ => l
  }

  function AllPlain(lines: seq<Line>): seq<Line> {
    if lines == [] then [] else [Plain(lines[0])] + AllPlain(lines[1..])
  }

  // ---- The worker's reader ------------------------------------------------------------------

  /** Strange lines are read as context, and so is a broken header inside a hunk. */
  lemma {:induction false} ParsedAsContext(lines: seq<Line>, c: HunkParsing.Cursor)
    ensures HunkParsing.ParseFrom(lines, c) == HunkParsing.ParseFrom(AllPlain(lines), c)
    decreases |lines|
  {
    if lines != [] {
      var l, rest := lines[0], lines[1..];
      assert AllPlain(lines)[1..] == AllPlain(rest);
      if l.Header? {
        ParsedAsContext(rest, HunkParsing.Begin(l.span, l.section));
      } else if c.NoCurrent? {
        ParsedAsContext(rest, c);
      } else {
        ParsedAsContext(rest, HunkParsing.Advance(c, l));
      }
    }
  }

  lemma {:induction false} BrokenHeaderIsContext(text: string, rest: seq<Line>, c: HunkParsing.Cursor)
    ensures HunkParsing.ParseFrom([Malformed(text)] + rest, c) == HunkParsing.ParseFrom([Context(text)] + rest, c)
  {
    assert ([Malformed(text)] + rest)[1..] == rest && ([Context(text)] + rest)[1..] == rest;
  }

  /** Nothing in front of the first header is read. */
  lemma {:induction false} PreambleIsIgnored(before: seq<Line>, rest: seq<Line>)
    requires forall l <- before :: !l.Header?
    ensures HunkParsing.ParseFrom(before + rest, HunkParsing.NoCurrent)
         == HunkParsing.ParseFrom(rest, HunkParsing.NoCurrent)
    decreases |before|
  {
    if before == [] {
      assert before + rest == rest;
    } else {
      assert (before + rest)[1..] == before[1..] + rest;
      PreambleIsIgnored(before[1..], rest);
    }
  }

  // ---- Positions and absolute lines ----------------------------------------------------------

  lemma {:induction false} CountedAsContext(lines: seq<Line>, s: PatchPosition.Scan)
    ensures PatchPosition.Values(lines, s) == PatchPosition.Values(AllPlain(lines), s)
    decreases |lines|
  {
    if lines != [] {
      assert AllPlain(lines)[1..] == AllPlain(lines[1..]);
      CountedAsContext(lines[1..], PatchPosition.Step(s, lines[0]));
    }
  }

  /** Before the first header lines are counted from 0 on, deletions not. */
  lemma {:induction false} PreambleIsCounted(before: seq<Line>, rest: seq<Line>, k: nat)
    requires k < |before| && forall l <- before :: !l.Header?
    ensures PatchPosition.Values(before + rest, PatchPosition.START)[k] == SelectedSides.NotDeleted(before[..k + 1]) - 1
  {
    CountedOn(before, rest, PatchPosition.START, k);
  }

  lemma {:induction false} CountedOn(before: seq<Line>, rest: seq<Line>, s: PatchPosition.Scan, k: nat)
    requires k < |before| && forall l <- before :: !l.Header?
    ensures PatchPosition.Values(before + rest, s)[k]
         == s.start2 + s.delta + SelectedSides.NotDeleted(before[..k + 1]) - 1
    decreases k
  {
    var l := before[0];
    assert (before + rest)[0] == l && (before + rest)[1..] == before[1..] + rest;
    assert before[..k + 1] == [l] + before[1..][..k];
    SelectedSides.NotDeletedCons(l, before[1..][..k]);
    if k > 0 {
      CountedOn(before[1..], rest, PatchPosition.Step(s, l), k - 1);
    }
  }

  // ---- The numbering --------------------------------------------------------------------------

  function PlainEntry(e: PatchNumbering.Entry): PatchNumbering.Entry {
    match e
    case Numbered(n, l) => PatchNumbering.Numbered(n, Plain(l))
    case OldLine(l) => PatchNumbering.OldLine(Plain(l))
    case _ => e
  }

  function PlainResult(r: Result<seq<PatchNumbering.Entry>>): Result<seq<PatchNumbering.Entry>> {
    if r.Ok? then Ok(Mapped(PlainEntry, r.value)) else Raised
  }

  function PlainOpen(o: PatchNumbering.Open): PatchNumbering.Open {
    PatchNumbering.Open(o.header, AllPlain(o.news), AllPlain(o.olds))
  }

  /** The empty lines that end a hunk are dropped; all others are collected. */
  function Filled(lines: seq<Line>, first: bool): seq<Line>
    decreases |lines|
  {
    if lines == [] then []
    else
      var l, rest := lines[0], lines[1..];
      [if l.Blank? && !first && (rest == [] || rest[0].Header? || rest[0].Malformed?) then l else Plain(l)]
      + Filled(rest, false)
  }

  lemma {:induction false} PlainAppend(lines: seq<Line>, l: Line)
    ensures AllPlain(lines + [l]) == AllPlain(lines) + [Plain(l)]
  {
    if lines != [] {
      assert (lines + [l])[1..] == lines[1..] + [l];
      PlainAppend(lines[1..], l);
    } else {
      assert [l][1..] == [];
    }
  }

  lemma {:induction false} PlainKinds(lines: seq<Line>)
    ensures |AllPlain(lines)| == |lines|
    ensures forall k | 0 <= k < |lines| :: AllPlain(lines)[k] == Plain(lines[k])
    ensures PatchNumbering.HasAddition(AllPlain(lines)) == PatchNumbering.HasAddition(lines)
    ensures PatchNumbering.HasDeletion(AllPlain(lines)) == PatchNumbering.HasDeletion(lines)
  {
    if lines != [] {
      PlainKinds(lines[1..]);
      assert lines == [lines[0]] + lines[1..] && AllPlain(lines) == [Plain(lines[0])] + AllPlain(lines[1..]);
    }
  }

  lemma {:induction false} PlainPrinted(o: PatchNumbering.Open)
    ensures PatchNumbering.Printed(PlainOpen(o)) == Mapped(PlainEntry, PatchNumbering.Printed(o))
  {
    hide Mapped, AllPlain, PatchNumbering.NumberLines, PatchNumbering.OldEntries;
    PlainKinds(o.news);
    PlainKinds(o.olds);
    var a, b := PatchNumbering.Printed(PlainOpen(o)), Mapped(PlainEntry, PatchNumbering.Printed(o));
    assert |a| == |b| && forall k | 0 <= k < |a| :: a[k] == b[k];
  }

  lemma {:induction false} PlainCollect(o: PatchNumbering.Open, l: Line)
    ensures PlainOpen(PatchNumbering.Collect(o, l)) == PatchNumbering.Collect(PlainOpen(o), Plain(l))
  {
    PlainAppend(o.news, l);
    PlainAppend(o.olds, l);
  }

  lemma {:induction false} PlainPrepend(block: seq<PatchNumbering.Entry>, r: Result<seq<PatchNumbering.Entry>>)
    ensures PlainResult(PatchNumbering.Prepend(block, r))
         == PatchNumbering.Prepend(Mapped(PlainEntry, block), PlainResult(r))
  {
    if r.Ok? {
      MappedConcat(PlainEntry, block, r.value);
    }
  }

  lemma {:induction false} PlainEnds(o: PatchNumbering.Open)
    ensures PatchNumbering.Last(PlainOpen(o)) == Mapped(PlainEntry, PatchNumbering.Last(o))
    ensures PatchNumbering.Closed(PlainOpen(o)) == Mapped(PlainEntry, PatchNumbering.Closed(o))
  {
    hide PatchNumbering.Printed;
    PlainKinds(o.news);
    PlainKinds(o.olds);
    PlainPrinted(o);
    assert Mapped(PlainEntry, []) == [];
  }

  lemma {:induction false} PlainSkips(l: Line)
    ensures PatchNumbering.Skipped(Plain(l)) == PatchNumbering.Skipped(l)
  {
    EmptyMentionsNothing();
  }

  lemma {:induction false} EmptyMentionsNothing()
    ensures !PatchNumbering.MentionsPhrase("")
  {
  }

  /** Strange lines are numbered on the new side and printed on the old side as context is. */
  lemma {:induction false} NumberedAsContext(lines: seq<Line>, first: bool, o: PatchNumbering.Open)
    ensures PatchNumbering.NumberFrom(Filled(lines, first), first, PlainOpen(o))
         == PlainResult(PatchNumbering.NumberFrom(lines, first, o))
    decreases |lines|
  {
    hide PatchNumbering.Skipped, PatchNumbering.Closed, PatchNumbering.Last, PatchNumbering.Prepend, AllPlain, Mapped;
    hide PatchNumbering.Collect, PlainResult;
    PlainEnds(o);
    if lines == [] {
      PlainOk(PatchNumbering.Last(o));
    } else {
      var l, rest := lines[0], lines[1..];
      var filled := Filled(lines, first);
      assert filled[1..] == Filled(rest, false);
      assert rest != [] ==> Filled(rest, false)[0].Header? == rest[0].Header?
                            && Filled(rest, false)[0].Malformed? == rest[0].Malformed?;
      PlainSkips(l);
      PlainCollect(o, l);
      NumberedAsContext(rest, false, o);
      NumberedAsContext(rest, false, PatchNumbering.Collect(o, l));
      if l.Header? {
        var begun := PatchNumbering.Open(Some(l), [], []);
        NoLinesPlain(l);
        NumberedAsContext(rest, false, begun);
        PlainPrepend(PatchNumbering.Closed(o), PatchNumbering.NumberFrom(rest, false, begun));
      }
      PlainRaised();
    }
  }

  lemma {:induction false} NoLinesPlain(l: Line)
    ensures PlainOpen(PatchNumbering.Open(Some(l), [], [])) == PatchNumbering.Open(Some(l), [], [])
  {
  }

  lemma {:induction false} PlainOk(entries: seq<PatchNumbering.Entry>)
    ensures PlainResult(Ok(entries)) == Ok(Mapped(PlainEntry, entries))
  {
  }

  lemma {:induction false} PlainRaised()
    ensures PlainResult(Raised) == Raised
  {
  }

  // ---- The selection --------------------------------------------------------------------------

  function PlainSelection(r: Result<LineSelection.Selection>): Result<LineSelection.Selection> {
    if r.Ok? then Ok(LineSelection.Selection(AllPlain(r.value.shown), AllPlain(r.value.selected))) else Raised
  }

  lemma {:induction false} PlainConcat(a: seq<Line>, b: seq<Line>)
    ensures AllPlain(a + b) == AllPlain(a) + AllPlain(b)
  {
    PlainKinds(a);
    PlainKinds(b);
    PlainKinds(a + b);
  }

  lemma {:induction false} PlainPrefixed(a: LineSelection.Selection, r: Result<LineSelection.Selection>)
    ensures PlainSelection(LineSelection.Prefixed(a, r))
         == LineSelection.Prefixed(LineSelection.Selection(AllPlain(a.shown), AllPlain(a.selected)), PlainSelection(r))
  {
    hide AllPlain;
    if r.Ok? {
      PlainConcat(a.shown, r.value.shown);
      PlainConcat(a.selected, r.value.selected);
    }
  }

  lemma {:induction false} PlainOne(l: Line)
    ensures AllPlain([l]) == [Plain(l)] && AllPlain([]) == []
  {
    assert [l][1..] == [];
  }

  /** Strange lines are shown, counted and selected as context is. */
  lemma {:induction false} SelectedAsContext(lines: seq<Line>, c: LineSelection.Cursor, side: LineSelection.Side,
                                             lineStart: int, lineEnd: int)
    ensures LineSelection.SelectFrom(AllPlain(lines), c, side, lineStart, lineEnd)
         == PlainSelection(LineSelection.SelectFrom(lines, c, side, lineStart, lineEnd))
    decreases |lines|
  {
    hide PatchNumbering.Skipped, LineSelection.Prefixed, LineSelection.Admits, LineSelection.Picks;
    if lines != [] {
      var l, rest := lines[0], lines[1..];
      assert AllPlain(lines)[0] == Plain(l) && AllPlain(lines)[1..] == AllPlain(rest);
      PlainSkips(l);
      PlainOne(l);
      if PatchNumbering.Skipped(l) {
        SelectedAsContext(rest, c, side, lineStart, lineEnd);
      } else if l.Header? {
        var skip := !LineSelection.Admits(l.span, side, lineStart);
        var d := LineSelection.Cursor(l.span.start1, l.span.start2, skip, 0);
        SelectedAsContext(rest, d, side, lineStart, lineEnd);
        PlainPrefixed(LineSelection.Selection(if skip then [] else [l], []),
                      LineSelection.SelectFrom(rest, d, side, lineStart, lineEnd));
      } else if !l.Malformed? {
        var d := if c.skip then c else LineSelection.Advance(c, l);
        SelectedAsContext(rest, d, side, lineStart, lineEnd);
        var picked := if LineSelection.Picks(c, side, lineStart, lineEnd) then [l] else [];
        PlainPrefixed(LineSelection.Selection([l], picked),
                      LineSelection.SelectFrom(rest, d, side, lineStart, lineEnd));
      }
    }
  }
}
