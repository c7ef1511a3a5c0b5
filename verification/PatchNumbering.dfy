/**
  Rewriting a patch with line numbers (`decouple_and_convert_to_hunks_with_lines_numbers`):
  every changed hunk is printed as a numbered new side and, when it deletes
  lines, an old side.  Text is kept as entries, one per printed line, without the
  trimming of trailing white space the printer does between blocks.
 */
module PatchNumbering {
  import opened Basics
  import opened UnifiedDiff

  datatype Entry =
    | HunkHeader(header: Line)
    | NewHunkMark
    | Numbered(number: int, line: Line)
    | OldHunkMark
    | OldLine(line: Line)

  // ---- Lines that mention the no-newline phrase ------------------------------

  const PHRASE := "no newline at end of file"

  function LowerChar(c: char): char {
    if 'A' <= c <= 'Z' then ((c as int) - ('A' as int) + ('a' as int)) as char else c
  }

  function Lower(s: string): string {
    seq(|s|, i requires 0 <= i < |s| => LowerChar(s[i]))
  }

  predicate MentionsPhrase(text: string) {
    Contains(Lower(text), PHRASE)
  }

  predicate Skipped(l: Line) {
    match l
    case NoNewline => true
    case Blank => false
    case Header(_, section) => MentionsPhrase(section)
    case Context(t) => MentionsPhrase(t)
    case Addition(t) => MentionsPhrase(t)
    case Deletion(t) => MentionsPhrase(t)
    case Malformed(t) => MentionsPhrase(t)
    case Other(t) => MentionsPhrase(t)
  }

  // ---- One hunk ----------------------------------------------------------------

  function NumberLines(start: int, lines: seq<Line>): (r: seq<Entry>)
    ensures |r| == |lines|
    ensures forall k | 0 <= k < |r| :: r[k] == Numbered(start + k, lines[k])
    decreases |lines|
  {
    if lines == [] then [] else [Numbered(start, lines[0])] + NumberLines(start + 1, lines[1..])
  }

  function OldEntries(lines: seq<Line>): (r: seq<Entry>)
    ensures |r| == |lines|
    ensures forall k | 0 <= k < |r| :: r[k] == OldLine(lines[k])
  {
    if lines == [] then [] else [OldLine(lines[0])] + OldEntries(lines[1..])
  }

  predicate HasAddition(lines: seq<Line>) {
    exists l <- lines :: l.Addition?
  }

  predicate HasDeletion(lines: seq<Line>) {
    exists l <- lines :: l.Deletion?
  }

  /** The state between two lines: the header last seen and the lines collected under it. */
  datatype Open = Open(header: Option<Line>, news: seq<Line>, olds: seq<Line>)

  function StartOf(header: Option<Line>): int {
    if header.Some? && header.value.Header? then header.value.span.start2 else -1
  }

  function Printed(o: Open): seq<Entry> {
    (if o.header.Some? then [HunkHeader(o.header.value)] else [])
    + (if HasAddition(o.news) || HasDeletion(o.olds) then [NewHunkMark] + NumberLines(StartOf(o.header), o.news)
       else [])
    + (if HasDeletion(o.olds) then [OldHunkMark] + OldEntries(o.olds) else [])
  }

  // ---- The whole patch ---------------------------------------------------------

  function Collect(o: Open, l: Line): Open {
    match l
    case Addition(_) => o.(news := o.news + [l])
    case Deletion(_) => o.(olds := o.olds + [l])
    case _ => o.(news := o.news + [l], olds := o.olds + [l])
  }

  /** An empty line in front of a header or at the end is dropped, unless it is the very first line. */
  predicate DroppedBlank(l: Line, rest: seq<Line>, first: bool) {
    l.Blank? && !first && (rest == [] || rest[0].Header? || rest[0].Malformed?)
  }

  /** What a new header prints of the lines collected before it. */
  function Closed(o: Open): seq<Entry> {
    if o.news != [] || o.olds != [] then Printed(o) else []
  }

  /** What the end of the patch prints; a last hunk without new lines is not printed. */
  function Last(o: Open): seq<Entry> {
    if o.header.Some? && o.news != [] then Printed(o) else []
  }

  function Prepend(block: seq<Entry>, r: Result<seq<Entry>>): Result<seq<Entry>> {
    if r.Ok? then Ok(block + r.value) else Raised
  }

  function NumberFrom(lines: seq<Line>, first: bool, o: Open): Result<seq<Entry>> {
    if lines == [] then Ok(Last(o))
    else
      var l, rest := lines[0], lines[1..];
      if Skipped(l) then NumberFrom(rest, false, o)
      else if l.Malformed? then Raised
      else if l.Header? then Prepend(Closed(o), NumberFrom(rest, false, Open(Some(l), [], [])))
      else if DroppedBlank(l, rest, first) then NumberFrom(rest, false, o)
      else NumberFrom(rest, false, Collect(o, l))
  }

  function Number(lines: seq<Line>): Result<seq<Entry>> {
    NumberFrom(lines, true, Open(None, [], []))
  }

  lemma {:induction false} PrependLaws(a: seq<Entry>, b: seq<Entry>, r: Result<seq<Entry>>)
    ensures Prepend([], r) == r
    ensures Prepend(a + b, r) == Prepend(a, Prepend(b, r))
  {
    if r.Ok? {
      assert [] + r.value == r.value;
      AppendStep(a, b, r.value);
    }
  }

  method PrintNewHunk(start: int, news: seq<Line>) returns (entries: seq<Entry>)
    ensures entries == [NewHunkMark] + NumberLines(start, news)
  {
    hide NumberLines;
    entries := [NewHunkMark];
    var i := 0;
    while i < |news|
      invariant 0 <= i <= |news|
      invariant entries == [NewHunkMark] + NumberLines(start, news)[..i]
    {
      entries := entries + [Numbered(start + i, news[i])];
      i := i + 1;
    }
  }

  method PrintOldHunk(olds: seq<Line>) returns (entries: seq<Entry>)
    ensures entries == [OldHunkMark] + OldEntries(olds)
  {
    hide OldEntries;
    entries := [OldHunkMark];
    var i := 0;
    while i < |olds|
      invariant 0 <= i <= |olds|
      invariant entries == [OldHunkMark] + OldEntries(olds)[..i]
    {
      entries := entries + [OldLine(olds[i])];
      i := i + 1;
    }
  }

  method PrintHunk(o: Open) returns (entries: seq<Entry>)
    ensures entries == Printed(o)
  {
    var isPlus, isMinus := HasAddition(o.news), HasDeletion(o.olds);
    var newPart, oldPart := [], [];
    if isPlus || isMinus {
      newPart := PrintNewHunk(StartOf(o.header), o.news);
    }
    if isMinus {
      oldPart := PrintOldHunk(o.olds);
    }
    entries := (if o.header.Some? then [HunkHeader(o.header.value)] else []) + newPart + oldPart;
  }

  method ConvertToNumberedHunks(patchLines: seq<Line>) returns (r: Result<seq<Entry>>)
    ensures r == Number(patchLines)
  {
    hide Skipped, Printed, Prepend;
    var out := [];
    var o := Open(None, [], []);
    var i := 0;
    PrependLaws([], [], Number(patchLines));
    while i < |patchLines|
      invariant 0 <= i <= |patchLines|
      invariant Number(patchLines) == Prepend(out, NumberFrom(patchLines[i..], i == 0, o))
    {
      var line := patchLines[i];
      ghost var rest := patchLines[i + 1..];
      assert patchLines[i..][0] == line && patchLines[i..][1..] == rest;
      if Skipped(line) {
      } else if line.Malformed? {
        RaisedStays(out);
        return Raised;
      } else if line.Header? {
        PrependLaws(out, Closed(o), NumberFrom(rest, false, Open(Some(line), [], [])));
        PrependLaws(out, [], NumberFrom(rest, false, Open(Some(line), [], [])));
        if o.news != [] || o.olds != [] {
          var block := PrintHunk(o);
          out := out + block;
        }
        o := Open(Some(line), [], []);
      } else if line.Blank? && i > 0
        && (i + 1 == |patchLines| || patchLines[i + 1].Header? || patchLines[i + 1].Malformed?) {
      } else {
        o := Collect(o, line);
      }
      i := i + 1;
    }
    OkStays(out, Last(o));
    if o.header.Some? && o.news != [] {
      var block := PrintHunk(o);
      out := out + block;
    }
    r := Ok(out);
  }

  lemma {:induction false} RaisedStays(a: seq<Entry>)
    ensures Prepend(a, Raised) == Raised
  {
  }

  lemma {:induction false} OkStays(a: seq<Entry>, b: seq<Entry>)
    ensures Prepend(a, Ok(b)) == Ok(a + b)
    ensures a + [] == a
  {
  }

  // ---- From lines to hunks -------------------------------------------------------

  /** What one body line adds to the lines collected for the new side. */
  function AsNew(l: Line): seq<Line> {
    if l.Context? || l.Addition? then [l] else []
  }

  function AsOld(l: Line): seq<Line> {
    if l.Context? || l.Deletion? then [l] else []
  }

  function NewLines(body: seq<Line>): seq<Line> {
    if body == [] then [] else AsNew(body[0]) + NewLines(body[1..])
  }

  function OldLines(body: seq<Line>): seq<Line> {
    if body == [] then [] else AsOld(body[0]) + OldLines(body[1..])
  }

  function OpenOf(h: Hunk): Open {
    Open(Some(HeaderOf(h)), NewLines(h.body), OldLines(h.body))
  }

  /** Nothing but the no-newline marker itself is skipped. */
  predicate NothingSkipped(hunks: seq<Hunk>) {
    forall h <- hunks :: !Skipped(HeaderOf(h)) && forall l <- h.body :: l.NoNewline? || !Skipped(l)
  }

  function Entries(hunks: seq<Hunk>): seq<Entry> {
    if hunks == [] then []
    else (if |hunks| == 1 then Last(OpenOf(hunks[0])) else Closed(OpenOf(hunks[0]))) + Entries(hunks[1..])
  }

  lemma {:induction false} NumberOneLine(l: Line, rest: seq<Line>, o: Open)
    requires IsBodyLine(l) && (l.NoNewline? || !Skipped(l))
    ensures NumberFrom([l] + rest, false, o)
            == NumberFrom(rest, false, Open(o.header, o.news + AsNew(l), o.olds + AsOld(l)))
  {
    hide Last, Closed, Prepend;
    assert ([l] + rest)[1..] == rest;
    assert o.news + [] == o.news && o.olds + [] == o.olds;
    MarkerSkipped();
  }

  lemma {:induction false} NumberOverBody(body: seq<Line>, rest: seq<Line>, o: Open)
    requires IsBody(body)
    requires forall l <- body :: l.NoNewline? || !Skipped(l)
    ensures NumberFrom(body + rest, false, o)
         == NumberFrom(rest, false, Open(o.header, o.news + NewLines(body), o.olds + OldLines(body)))
  {
    hide Skipped, NumberFrom, AsNew, AsOld;
    if body == [] {
      assert body + rest == rest && o.news + [] == o.news && o.olds + [] == o.olds;
    } else {
      var l, more := body[0], body[1..];
      assert IsBodyLine(l) && l in body;
      assert body + rest == [l] + (more + rest);
      NumberOneLine(l, more + rest, o);
      NumberOverBody(more, rest, Open(o.header, o.news + AsNew(l), o.olds + AsOld(l)));
      AppendStep(o.news, AsNew(l), NewLines(more));
      AppendStep(o.olds, AsOld(l), OldLines(more));
    }
  }

  lemma {:induction false} MarkerSkipped()
    ensures Skipped(NoNewline) && !Skipped(Blank)
  {
  }

  /** Numbering a rendered patch works hunk by hunk, with or without empty lines between the hunks. */
  lemma {:induction false} NumbersHunkByHunk(hunks: seq<Hunk>, spaced: bool, o: Open)
    requires Bodies(hunks) && NothingSkipped(hunks)
    ensures NumberFrom(Render(hunks, spaced), false, o)
         == if hunks == [] then Ok(Last(o)) else Ok(Closed(o) + Entries(hunks))
  {
    hide Skipped, Printed, IsBody;
    if hunks != [] {
      var h, rest := hunks[0], hunks[1..];
      assert h in hunks;
      var tail := Render(rest, spaced);
      var afterBlank := [HeaderOf(h)] + (h.body + tail);
      MarkerSkipped();
      if spaced {
        assert Render(hunks, true) == [Blank] + afterBlank;
        assert ([Blank] + afterBlank)[1..] == afterBlank;
        assert NumberFrom(Render(hunks, true), false, o) == NumberFrom(afterBlank, false, o);
      } else {
        assert Render(hunks, false) == afterBlank;
      }
      assert afterBlank[1..] == h.body + tail;
      var noLines := Open(Some(HeaderOf(h)), [], []);
      NumberOverBody(h.body, tail, noLines);
      assert [] + NewLines(h.body) == NewLines(h.body) && [] + OldLines(h.body) == OldLines(h.body);
      NumbersHunkByHunk(rest, spaced, OpenOf(h));
      if rest == [] {
        assert Last(OpenOf(h)) + [] == Last(OpenOf(h));
      }
      assert NumberFrom(afterBlank, false, o) == Prepend(Closed(o), NumberFrom(h.body + tail, false, noLines));
    }
  }

  lemma {:induction false} FirstOnlyMattersForBlank(lines: seq<Line>, o: Open)
    requires lines == [] || !lines[0].Blank?
    ensures NumberFrom(lines, true, o) == NumberFrom(lines, false, o)
  {
  }

  /** An empty first line is collected, but prints nothing at the first header. */
  lemma {:induction false} LeadingBlank(rest: seq<Line>)
    ensures NumberFrom([Blank] + rest, true, Open(None, [], []))
            == NumberFrom(rest, false, Open(None, [Blank], [Blank]))
    ensures rest != [] && (rest[0].Header? || rest[0].Malformed?) ==>
              forall o :: NumberFrom([Blank] + rest, false, o) == NumberFrom(rest, false, o)
    ensures Closed(Open(None, [Blank], [Blank])) == []
  {
    hide Prepend, Last;
    MarkerSkipped();
    assert ([Blank] + rest)[1..] == rest;
    assert [] + [Blank] == [Blank];
  }

  /** What the numbering prints for a list of hunks, whichever way they are laid out. */
  lemma {:induction false} NumberOfRendered(hunks: seq<Hunk>, spaced: bool)
    requires Bodies(hunks) && NothingSkipped(hunks)
    ensures Number(Render(hunks, spaced)) == Ok(Entries(hunks))
  {
    hide Skipped, NumberFrom, Printed, IsBody, NothingSkipped;
    var start, o := Open(None, [], []), Open(None, [Blank], [Blank]);
    if hunks == [] {
      NumberOfNothing(start);
    } else if spaced {
      var rest := [HeaderOf(hunks[0])] + (hunks[0].body + Render(hunks[1..], true));
      assert Render(hunks, true) == [Blank] + rest;
      LeadingBlank(rest);
      NumbersHunkByHunk(hunks, true, o);
    } else {
      FirstOnlyMattersForBlank(Render(hunks), start);
      NumbersHunkByHunk(hunks, false, start);
    }
    assert [] + Entries(hunks) == Entries(hunks);
  }

  lemma {:induction false} NumberOfNothing(o: Open)
    ensures NumberFrom([], true, o) == Ok(Last(o))
  {
  }

  // ---- Truthful numbers --------------------------------------------------------

  function TextOf(l: Line): string {
    if l.Context? || l.Addition? || l.Deletion? then l.text else ""
  }

  /** Line number `n`, counted from 1, of the file reads `text`. */
  predicate IsLine(file: seq<string>, n: int, text: string) {
    1 <= n <= |file| && file[n - 1] == text
  }

  predicate Truthful(entries: seq<Entry>, file: seq<string>) {
    forall e <- entries :: e.Numbered? ==> IsLine(file, e.number, TextOf(e.line))
  }

  lemma {:induction false} NewLinesAreNewSide(body: seq<Line>)
    ensures |NewLines(body)| == |NewSide(body)|
    ensures forall k | 0 <= k < |NewLines(body)| :: TextOf(NewLines(body)[k]) == NewSide(body)[k]
    ensures forall l <- NewLines(body) :: l in body && (l.Context? || l.Addition?)
  {
    if body != [] {
      NewLinesAreNewSide(body[1..]);
      assert NewSide(body) == NewPart(body[0]) + NewSide(body[1..]);
    }
  }

  /** The new side of the hunk is what the file holds from the start line in its header on. */
  predicate NewSideIn(h: Hunk, file: seq<string>) {
    NewSide(h.body) == [] || IsSliceAt(file, h.span.start2 - 1, NewSide(h.body))
  }

  lemma {:induction false} NumberedTruthfulIff(h: Hunk, file: seq<string>)
    ensures Truthful(NumberLines(h.span.start2, NewLines(h.body)), file) <==> NewSideIn(h, file)
  {
    hide NewSide, NewLines, NumberLines, TextOf, IsLine, IsSliceAt;
    NewLinesAreNewSide(h.body);
    var news, start := NewLines(h.body), h.span.start2;
    NumbersTruthfulIff(start, news, file);
    if NewSideIn(h, file) {
      forall k | 0 <= k < |news| ensures IsLine(file, start + k, TextOf(news[k])) {
        SliceIsLine(file, start, NewSide(h.body), k);
      }
    } else if forall k | 0 <= k < |news| :: IsLine(file, start + k, TextOf(news[k])) {
      LinesMakeSlice(file, start, NewSide(h.body));
    }
  }

  lemma {:induction false} NumbersTruthfulIff(start: int, news: seq<Line>, file: seq<string>)
    ensures Truthful(NumberLines(start, news), file)
       <==> forall k | 0 <= k < |news| :: IsLine(file, start + k, TextOf(news[k]))
  {
    hide NumberLines, TextOf, IsLine;
    var entries := NumberLines(start, news);
    if Truthful(entries, file) {
      forall k | 0 <= k < |news| ensures IsLine(file, start + k, TextOf(news[k])) {
        assert entries[k] in entries;
      }
    }
  }

  lemma {:induction false} LinesMakeSlice(file: seq<string>, start: int, part: seq<string>)
    requires part != [] && forall k | 0 <= k < |part| :: IsLine(file, start + k, part[k])
    ensures IsSliceAt(file, start - 1, part)
  {
    assert IsLine(file, start + 0, part[0]) && IsLine(file, start + (|part| - 1), part[|part| - 1]);
    forall k | 0 <= k < |part| ensures file[start - 1..start - 1 + |part|][k] == part[k] {
      assert IsLine(file, start + k, part[k]);
    }
  }

  lemma {:induction false} SliceIsLine(file: seq<string>, start: int, part: seq<string>, k: nat)
    requires IsSliceAt(file, start - 1, part) && k < |part|
    ensures IsLine(file, start + k, part[k])
  {
  }

  predicate Changes(body: seq<Line>) {
    HasAddition(body) || HasDeletion(body)
  }

  lemma {:induction false} LinesOfSides(body: seq<Line>)
    ensures forall l <- body :: (l.Addition? ==> l in NewLines(body)) && (l.Deletion? ==> l in OldLines(body))
    ensures forall l <- OldLines(body) :: l in body
  {
    if body != [] {
      LinesOfSides(body[1..]);
      assert body == [body[0]] + body[1..];
    }
  }

  lemma {:induction false} ChangesShow(body: seq<Line>)
    ensures HasAddition(NewLines(body)) || HasDeletion(OldLines(body)) <==> Changes(body)
  {
    hide NewLines, OldLines;
    LinesOfSides(body);
    NewLinesAreNewSide(body);
  }

  lemma {:induction false} TruthfulConcat(a: seq<Entry>, b: seq<Entry>, file: seq<string>)
    ensures Truthful(a + b, file) <==> Truthful(a, file) && Truthful(b, file)
  {
  }

  /** Only a hunk that changes something is printed with numbers. */
  lemma {:induction false} PrintedTruthfulIff(h: Hunk, file: seq<string>)
    ensures Truthful(Printed(OpenOf(h)), file) <==> !Changes(h.body) || NewSideIn(h, file)
  {
    hide IsLine, NewSideIn, NewLines, OldLines, HasAddition, HasDeletion, Changes;
    var o := OpenOf(h);
    ChangesShow(h.body);
    NumberedTruthfulIff(h, file);
    var header, numbers := [HunkHeader(o.header.value)], NumberLines(h.span.start2, o.news);
    var news := if HasAddition(o.news) || HasDeletion(o.olds) then [NewHunkMark] + numbers else [];
    TruthfulConcat([NewHunkMark], numbers, file);
    TruthfulConcat(header, news, file);
    TruthfulConcat(header + news, if HasDeletion(o.olds) then [OldHunkMark] + OldEntries(o.olds) else [], file);
  }

  /** A hunk without new lines is left out at the end and a hunk without lines anywhere: neither has numbers. */
  lemma {:induction false} ShownTruthfulIff(h: Hunk, file: seq<string>)
    ensures Truthful(Closed(OpenOf(h)), file) <==> !Changes(h.body) || NewSideIn(h, file)
    ensures Truthful(Last(OpenOf(h)), file) <==> !Changes(h.body) || NewSideIn(h, file)
  {
    hide Printed, IsLine, NewLines, OldLines, Changes;
    PrintedTruthfulIff(h, file);
    NewLinesAreNewSide(h.body);
  }

  /** Every number printed is the number of that line in the file exactly when every changing hunk shows the file. */
  lemma {:induction false} EntriesTruthfulIff(hunks: seq<Hunk>, file: seq<string>)
    ensures Truthful(Entries(hunks), file) <==> forall h <- hunks :: !Changes(h.body) || NewSideIn(h, file)
  {
    hide Closed, Last, IsLine, NewSideIn, Changes, Truthful;
    if hunks == [] {
      NothingIsTruthful(file);
    } else {
      var h, rest := hunks[0], hunks[1..];
      ShownTruthfulIff(h, file);
      EntriesTruthfulIff(rest, file);
      TruthfulConcat(if |hunks| == 1 then Last(OpenOf(h)) else Closed(OpenOf(h)), Entries(rest), file);
      assert hunks == [h] + rest;
    }
  }

  lemma {:induction false} NothingIsTruthful(file: seq<string>)
    ensures Truthful([], file)
  {
  }
}
