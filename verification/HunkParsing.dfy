/**
  The worker's reader of the same format (`parse_patch_hunks`), the changed line
  numbers it reports, and its agreement with the numbers the other passes print.
 */
module HunkParsing {
  import opened Basics
  import opened UnifiedDiff
  import opened PatchExtension
  import opened PatchExtensionProofs
  import opened PatchNumbering
  import opened ExtendThenNumber

  datatype ParsedLine =
    | ParsedAddition(content: string, newNumber: int)
    | ParsedDeletion(content: string, oldNumber: int)
    | ParsedContext(content: string, oldNumber: int, newNumber: int)

  datatype ParsedHunk = ParsedHunk(span: Span, section: string, lines: seq<ParsedLine>)

  /** The hunk being filled and the numbers its next lines get. */
  datatype Cursor = NoCurrent | Current(hunk: ParsedHunk, oldLine: int, newLine: int)

  function Finished(c: Cursor): seq<ParsedHunk> {
    if c.Current? then [c.hunk] else []
  }

  /** A line with no known prefix is context, kept whole. */
  function ContentOf(l: Line): string {
    match l
    case Header(_, section) => section
    case Context(t) => t
    case Addition(t) => t
    case Deletion(t) => t
    case NoNewline => ""
    case Blank => ""
    case Malformed(t) => t
    case Other(t) => t
  }

  function Advance(c: Cursor, l: Line): (d: Cursor)
    requires c.Current?
    ensures d.Current?
  {
    var t := ContentOf(l);
    match l
    case NoNewline => c
    case Addition(_) => Current(c.hunk.(lines := c.hunk.lines + [ParsedAddition(t, c.newLine)]), c.oldLine,
                                c.newLine + 1)
    case Deletion(_) => Current(c.hunk.(lines := c.hunk.lines + [ParsedDeletion(t, c.oldLine)]), c.oldLine + 1,
                                c.newLine)
    case _ => Current(c.hunk.(lines := c.hunk.lines + [ParsedContext(t, c.oldLine, c.newLine)]), c.oldLine + 1,
                      c.newLine + 1)
  }

  function Begin(span: Span, section: string): Cursor {
    Current(ParsedHunk(span, section, []), span.start1, span.start2)
  }

  function ParseFrom(lines: seq<Line>, c: Cursor): seq<ParsedHunk> {
    if lines == [] then Finished(c)
    else if lines[0].Header? then Finished(c) + ParseFrom(lines[1..], Begin(lines[0].span, lines[0].section))
    else if c.NoCurrent? then ParseFrom(lines[1..], c)
    else ParseFrom(lines[1..], Advance(c, lines[0]))
  }

  /** The list of hunks grows at its end; the last one is filled in place. */
  method ParsePatchHunks(patchLines: seq<Line>) returns (hunks: seq<ParsedHunk>)
    ensures hunks == ParseFrom(patchLines, NoCurrent)
  {
    hunks := [];
    ghost var c := NoCurrent;
    ghost var before: seq<ParsedHunk> := [];
    var oldLine, newLine := 0, 0;
    var i := 0;
    while i < |patchLines|
      invariant 0 <= i <= |patchLines|
      invariant hunks == before + Finished(c)
      invariant c.NoCurrent? ==> before == []
      invariant c.Current? ==> c.oldLine == oldLine && c.newLine == newLine
      invariant before + ParseFrom(patchLines[i..], c) == ParseFrom(patchLines, NoCurrent)
    {
      var line := patchLines[i];
      ghost var rest := patchLines[i + 1..];
      assert patchLines[i..][0] == line && patchLines[i..][1..] == rest;
      if line.Header? {
        AppendStep(before, Finished(c), ParseFrom(rest, Begin(line.span, line.section)));
        before, c := hunks, Begin(line.span, line.section);
        hunks := hunks + [ParsedHunk(line.span, line.section, [])];
        oldLine, newLine := line.span.start1, line.span.start2;
      } else if hunks != [] && !line.NoNewline? {
        var current := hunks[|hunks| - 1];
        c := Advance(c, line);
        if line.Addition? {
          current := current.(lines := current.lines + [ParsedAddition(line.text, newLine)]);
          newLine := newLine + 1;
        } else if line.Deletion? {
          current := current.(lines := current.lines + [ParsedDeletion(line.text, oldLine)]);
          oldLine := oldLine + 1;
        } else {
          current := current.(lines := current.lines + [ParsedContext(ContentOf(line), oldLine, newLine)]);
          oldLine, newLine := oldLine + 1, newLine + 1;
        }
        hunks := hunks[|hunks| - 1 := current];
      }
      i := i + 1;
    }
  }

  // ---- Parsing undoes printing ---------------------------------------------------

  /** What one body line is read as, given the numbers the next old and new line get. */
  function ParsedPart(l: Line, oldLine: int, newLine: int): seq<ParsedLine> {
    match l
    case Addition(t) => [ParsedAddition(t, newLine)]
    case Deletion(t) => [ParsedDeletion(t, oldLine)]
    case Context(t) => [ParsedContext(t, oldLine, newLine)]
    case _ => []
  }

  /** The body's lines with the numbers they have in the old and the new file. */
  function NumberBody(body: seq<Line>, oldLine: int, newLine: int): seq<ParsedLine>
    decreases |body|
  {
    if body == [] then []
    else ParsedPart(body[0], oldLine, newLine)
         + NumberBody(body[1..], oldLine + |OldPart(body[0])|, newLine + |NewPart(body[0])|)
  }

  function Parsed(h: Hunk): ParsedHunk {
    ParsedHunk(h.span, h.section, NumberBody(h.body, h.span.start1, h.span.start2))
  }

  function ParsedAll(hunks: seq<Hunk>): seq<ParsedHunk> {
    if hunks == [] then [] else [Parsed(hunks[0])] + ParsedAll(hunks[1..])
  }

  function CursorAfter(c: Cursor, body: seq<Line>): Cursor
    requires c.Current?
  {
    Current(c.hunk.(lines := c.hunk.lines + NumberBody(body, c.oldLine, c.newLine)),
            c.oldLine + |OldSide(body)|, c.newLine + |NewSide(body)|)
  }

  lemma {:induction false} AdvanceByPart(c: Cursor, l: Line)
    requires c.Current? && IsBodyLine(l)
    ensures Advance(c, l) == Current(c.hunk.(lines := c.hunk.lines + ParsedPart(l, c.oldLine, c.newLine)),
                                     c.oldLine + |OldPart(l)|, c.newLine + |NewPart(l)|)
  {
  }

  lemma {:induction false} CursorSteps(c: Cursor, body: seq<Line>)
    requires c.Current? && IsBody(body)
    ensures body == [] ==> CursorAfter(c, body) == c
    ensures body != [] ==> CursorAfter(c, body) == CursorAfter(Advance(c, body[0]), body[1..])
  {
    hide ParsedPart, OldPart, NewPart, Advance;
    if body == [] {
      assert c.hunk.lines + [] == c.hunk.lines;
    } else {
      var l := body[0];
      assert IsBodyLine(l);
      AdvanceByPart(c, l);
      var d := Advance(c, l);
      AppendStep(c.hunk.lines, ParsedPart(l, c.oldLine, c.newLine), NumberBody(body[1..], d.oldLine, d.newLine));
    }
  }

  lemma {:induction false} ParseOverBody(body: seq<Line>, rest: seq<Line>, c: Cursor)
    requires IsBody(body) && c.Current?
    ensures ParseFrom(body + rest, c) == ParseFrom(rest, CursorAfter(c, body))
    decreases |body|
  {
    hide Advance, Finished, CursorAfter, Begin;
    CursorSteps(c, body);
    if body == [] {
      assert body + rest == rest;
    } else {
      assert IsBodyLine(body[0]);
      assert (body + rest)[0] == body[0] && (body + rest)[1..] == body[1..] + rest;
      ParseOverBody(body[1..], rest, Advance(c, body[0]));
    }
  }

  lemma {:induction false} ParsesHunkByHunk(hunks: seq<Hunk>, c: Cursor)
    requires Bodies(hunks)
    ensures ParseFrom(Render(hunks), c) == Finished(c) + ParsedAll(hunks)
  {
    hide NumberBody, IsBody;
    if hunks == [] {
      assert Finished(c) + [] == Finished(c);
    } else {
      var h, rest := hunks[0], hunks[1..];
      assert h in hunks;
      var lines := Render(hunks);
      assert lines[0] == HeaderOf(h) && lines[1..] == h.body + Render(rest);
      var b := Begin(h.span, h.section);
      ParseOverBody(h.body, Render(rest), b);
      assert [] + NumberBody(h.body, b.oldLine, b.newLine) == NumberBody(h.body, b.oldLine, b.newLine);
      assert CursorAfter(b, h.body).hunk == Parsed(h);
      ParsesHunkByHunk(rest, CursorAfter(b, h.body));
    }
  }

  function Unparse(lines: seq<ParsedLine>): seq<Line> {
    if lines == [] then []
    else match lines[0]
      case ParsedAddition(t, _) => [Addition(t)] + Unparse(lines[1..])
      case ParsedDeletion(t, _) => [Deletion(t)] + Unparse(lines[1..])
      case ParsedContext(t, _, _) => [Context(t)] + Unparse(lines[1..])
  }

  function UnparseAll(hunks: seq<ParsedHunk>): seq<Hunk> {
    if hunks == [] then []
    else [Hunk(hunks[0].span, hunks[0].section, Unparse(hunks[0].lines))] + UnparseAll(hunks[1..])
  }

  function WithoutMarkers(body: seq<Line>): seq<Line> {
    if body == [] then [] else (if body[0].NoNewline? then [] else [body[0]]) + WithoutMarkers(body[1..])
  }

  function AllWithoutMarkers(hunks: seq<Hunk>): seq<Hunk> {
    if hunks == [] then []
    else [hunks[0].(body := WithoutMarkers(hunks[0].body))] + AllWithoutMarkers(hunks[1..])
  }

  lemma {:induction false} UnparseOfPart(l: Line, oldLine: int, newLine: int, rest: seq<ParsedLine>)
    requires IsBodyLine(l)
    ensures Unparse(ParsedPart(l, oldLine, newLine) + rest) == (if l.NoNewline? then [] else [l]) + Unparse(rest)
  {
    var part := ParsedPart(l, oldLine, newLine);
    if part == [] {
      assert part + rest == rest && [] + Unparse(rest) == Unparse(rest);
    } else {
      assert (part + rest)[0] == part[0] && (part + rest)[1..] == rest;
    }
  }

  lemma {:induction false} UnparseNumbered(body: seq<Line>, oldLine: int, newLine: int)
    requires IsBody(body)
    ensures Unparse(NumberBody(body, oldLine, newLine)) == WithoutMarkers(body)
    decreases |body|
  {
    hide ParsedPart, OldPart, NewPart;
    if body != [] {
      var l, rest := body[0], body[1..];
      assert IsBodyLine(l);
      var o, n := oldLine + |OldPart(l)|, newLine + |NewPart(l)|;
      UnparseNumbered(rest, o, n);
      UnparseOfPart(l, oldLine, newLine, NumberBody(rest, o, n));
    }
  }

  /** Parsing a printed patch gives back its hunks, less the no-newline markers. */
  lemma {:induction false} ParsingUndoesPrinting(hunks: seq<Hunk>)
    requires Bodies(hunks)
    ensures UnparseAll(ParseFrom(Render(hunks), NoCurrent)) == AllWithoutMarkers(hunks)
  {
    ParsesHunkByHunk(hunks, NoCurrent);
    assert [] + ParsedAll(hunks) == ParsedAll(hunks);
    UnparsesAll(hunks);
  }

  lemma {:induction false} UnparsesAll(hunks: seq<Hunk>)
    requires Bodies(hunks)
    ensures UnparseAll(ParsedAll(hunks)) == AllWithoutMarkers(hunks)
  {
    if hunks != [] {
      UnparseNumbered(hunks[0].body, hunks[0].span.start1, hunks[0].span.start2);
      UnparsesAll(hunks[1..]);
    }
  }

  // ---- The numbers -----------------------------------------------------------------

  function NewNumber(l: ParsedLine): seq<(int, string)> {
    match l
    case ParsedAddition(t, n) => [(n, t)]
    case ParsedContext(t, _, n) => [(n, t)]
    case ParsedDeletion(_, _) => []
  }

  function OldNumber(l: ParsedLine): seq<(int, string)> {
    match l
    case ParsedDeletion(t, n) => [(n, t)]
    case ParsedContext(t, n, _) => [(n, t)]
    case ParsedAddition(_, _) => []
  }

  /** The new-side lines of a parsed hunk with their numbers. */
  function NewNumbers(lines: seq<ParsedLine>): seq<(int, string)> {
    if lines == [] then [] else NewNumber(lines[0]) + NewNumbers(lines[1..])
  }

  function OldNumbers(lines: seq<ParsedLine>): seq<(int, string)> {
    if lines == [] then [] else OldNumber(lines[0]) + OldNumbers(lines[1..])
  }

  /** Consecutive lines numbered from `n`. */
  function Tagged(texts: seq<string>, n: int): (r: seq<(int, string)>)
    ensures |r| == |texts| && forall k | 0 <= k < |r| :: r[k] == (n + k, texts[k])
    decreases |texts|
  {
    if texts == [] then [] else [(n, texts[0])] + Tagged(texts[1..], n + 1)
  }

  lemma {:induction false} TaggedConcat(a: seq<string>, b: seq<string>, n: int)
    ensures Tagged(a + b, n) == Tagged(a, n) + Tagged(b, n + |a|)
  {
  }

  lemma {:induction false} NumbersStep(l: ParsedLine, rest: seq<ParsedLine>)
    ensures NewNumbers([l] + rest) == NewNumber(l) + NewNumbers(rest)
    ensures OldNumbers([l] + rest) == OldNumber(l) + OldNumbers(rest)
  {
  }

  lemma {:induction false} NumbersOfPart(l: Line, oldLine: int, newLine: int, rest: seq<ParsedLine>)
    ensures NewNumbers(ParsedPart(l, oldLine, newLine) + rest) == Tagged(NewPart(l), newLine) + NewNumbers(rest)
    ensures OldNumbers(ParsedPart(l, oldLine, newLine) + rest) == Tagged(OldPart(l), oldLine) + OldNumbers(rest)
  {
    hide NewNumbers, OldNumbers, Tagged;
    AppendStep(ParsedPart(l, oldLine, newLine), [], rest);
    AppendStep<(int, string)>([], [], NewNumbers(rest));
    AppendStep<(int, string)>([], [], OldNumbers(rest));
    match l {
      case Addition(t) =>
        NumbersStep(ParsedAddition(t, newLine), rest);
        TaggedShort(t, newLine);
      case Deletion(t) =>
        NumbersStep(ParsedDeletion(t, oldLine), rest);
        TaggedShort(t, oldLine);
      case Context(t) =>
        NumbersStep(ParsedContext(t, oldLine, newLine), rest);
        TaggedShort(t, newLine);
        TaggedShort(t, oldLine);
      case _ =>
    }
  }

  lemma {:induction false} TaggedShort(t: string, n: int)
    ensures Tagged([t], n) == [(n, t)]
  {
  }

  lemma {:induction false} NoNumbers()
    ensures NewNumbers([]) == [] && OldNumbers([]) == []
  {
  }

  /** The k-th line of either side of a hunk has the number start + k. */
  lemma {:induction false} SidesNumberedFromStart(body: seq<Line>, oldLine: int, newLine: int)
    ensures NewNumbers(NumberBody(body, oldLine, newLine)) == Tagged(NewSide(body), newLine)
    ensures OldNumbers(NumberBody(body, oldLine, newLine)) == Tagged(OldSide(body), oldLine)
    decreases |body|
  {
    hide Tagged, ParsedPart, OldPart, NewPart, NewNumbers, OldNumbers;
    if body == [] {
      NoNumbers();
    } else {
      var l, rest := body[0], body[1..];
      var o, n := oldLine + |OldPart(l)|, newLine + |NewPart(l)|;
      SidesNumberedFromStart(rest, o, n);
      NumbersOfPart(l, oldLine, newLine, NumberBody(rest, o, n));
      TaggedConcat(NewPart(l), NewSide(rest), newLine);
      TaggedConcat(OldPart(l), OldSide(rest), oldLine);
    }
  }

  function AddedOf(lines: seq<ParsedLine>): seq<int> {
    if lines == [] then []
    else (if lines[0].ParsedAddition? then [lines[0].newNumber] else []) + AddedOf(lines[1..])
  }

  /** `changed_new_lines`: the numbers of the added lines of all hunks, in order. */
  function ChangedNewLines(hunks: seq<ParsedHunk>): seq<int> {
    if hunks == [] then [] else AddedOf(hunks[0].lines) + ChangedNewLines(hunks[1..])
  }

  function AddedAt(l: Line, n: int): seq<int> {
    if l.Addition? then [n] else []
  }

  /** The numbers of the added lines among new-side lines numbered from `n`. */
  function AddedFrom(news: seq<Line>, n: int): seq<int>
    decreases |news|
  {
    if news == [] then [] else AddedAt(news[0], n) + AddedFrom(news[1..], n + 1)
  }

  lemma {:induction false} AddedOfPart(l: Line, oldLine: int, newLine: int, rest: seq<ParsedLine>, news: seq<Line>)
    ensures AddedOf(ParsedPart(l, oldLine, newLine) + rest) == (if l.Addition? then [newLine] else []) + AddedOf(rest)
    ensures AddedFrom(AsNew(l) + news, newLine)
         == (if l.Addition? then [newLine] else []) + AddedFrom(news, newLine + |NewPart(l)|)
  {
    var part := ParsedPart(l, oldLine, newLine);
    if part == [] {
      assert part + rest == rest;
    } else {
      assert (part + rest)[0] == part[0] && (part + rest)[1..] == rest;
    }
    if AsNew(l) == [] {
      assert AsNew(l) + news == news;
    } else {
      assert (AsNew(l) + news)[0] == l && (AsNew(l) + news)[1..] == news;
    }
  }

  lemma {:induction false} AddedOfNumbered(body: seq<Line>, oldLine: int, newLine: int)
    ensures AddedOf(NumberBody(body, oldLine, newLine)) == AddedFrom(NewLines(body), newLine)
    decreases |body|
  {
    hide ParsedPart, OldPart, NewPart, AsNew, AddedOf, AddedFrom;
    if body == [] {
      NothingNumbered(newLine);
    } else {
      var l, rest := body[0], body[1..];
      var o, n := oldLine + |OldPart(l)|, newLine + |NewPart(l)|;
      AddedOfNumbered(rest, o, n);
      AddedOfPart(l, oldLine, newLine, NumberBody(rest, o, n), NewLines(rest));
    }
  }

  lemma {:induction false} NothingNumbered(n: int)
    ensures AddedOf([]) == AddedFrom([], n)
  {
  }

  predicate Increasing(s: seq<int>) {
    forall i, j | 0 <= i < j < |s| :: s[i] < s[j]
  }

  lemma {:induction false} IncreasingConcat(a: seq<int>, b: seq<int>, mid: int)
    requires Increasing(a) && Increasing(b)
    requires (forall x <- a :: x < mid) && (forall x <- b :: x >= mid)
    ensures Increasing(a + b)
  {
    forall i, j | 0 <= i < j < |a + b| ensures (a + b)[i] < (a + b)[j] {
      if i < |a| <= j {
        assert a[i] in a && b[j - |a|] in b;
      }
    }
  }

  predicate AdditionAt(news: seq<Line>, k: int) {
    0 <= k < |news| && news[k].Addition?
  }

  lemma {:induction false} AdditionAtStep(news: seq<Line>, n: int, x: int)
    requires news != []
    ensures AdditionAt(news, x - n) <==> x in AddedAt(news[0], n) || AdditionAt(news[1..], x - (n + 1))
  {
  }

  lemma {:induction false} InConcat(x: int, a: seq<int>, b: seq<int>)
    ensures x in a + b <==> x in a || x in b
  {
  }

  lemma {:induction false} AddedFromHas(news: seq<Line>, n: int, x: int)
    ensures x in AddedFrom(news, n) <==> AdditionAt(news, x - n)
    decreases |news|
  {
    hide AddedAt, AdditionAt;
    if news == [] {
      assert !AdditionAt([], x - n) by { NoAdditionAt(x - n); }
    } else {
      AdditionAtStep(news, n, x);
      AddedFromHas(news[1..], n + 1, x);
      InConcat(x, AddedAt(news[0], n), AddedFrom(news[1..], n + 1));
    }
  }

  lemma {:induction false} NoAdditionAt(k: int)
    ensures !AdditionAt([], k)
  {
  }

  /** Strictly increasing, within the numbered lines, and exactly the positions of the additions. */
  lemma {:induction false} AddedFromExact(news: seq<Line>, n: int)
    ensures Increasing(AddedFrom(news, n))
    ensures forall x :: x in AddedFrom(news, n) <==> AdditionAt(news, x - n)
    decreases |news|
  {
    if news != [] {
      AddedFromExact(news[1..], n + 1);
      IncreasingConcat(AddedAt(news[0], n), AddedFrom(news[1..], n + 1), n + 1);
    }
    forall x ensures x in AddedFrom(news, n) <==> AdditionAt(news, x - n) {
      AddedFromHas(news, n, x);
    }
  }

  predicate IsAddedAt(h: Hunk, n: int) {
    AdditionAt(NewLines(h.body), n - h.span.start2)
  }

  /** The changed lines are exactly the added positions, each hunk counted from its new start. */
  lemma {:induction false} ChangedAreTheAdded(hunks: seq<Hunk>, n: int)
    ensures n in ChangedNewLines(ParsedAll(hunks)) <==> exists h <- hunks :: IsAddedAt(h, n)
  {
    hide NewLines, NumberBody, AddedOf, AddedFrom, IsAddedAt;
    if hunks != [] {
      var h, rest := hunks[0], hunks[1..];
      AddedOfHunk(h, n);
      ChangedAreTheAdded(rest, n);
      assert ParsedAll(hunks)[0] == Parsed(h) && ParsedAll(hunks)[1..] == ParsedAll(rest);
      InConcat(n, AddedOf(Parsed(h).lines), ChangedNewLines(ParsedAll(rest)));
      assert forall g <- hunks :: g == h || g in rest;
      assert h in hunks && forall g <- rest :: g in hunks;
    }
  }

  lemma {:induction false} AddedOfHunk(h: Hunk, n: int)
    ensures n in AddedOf(Parsed(h).lines) <==> IsAddedAt(h, n)
  {
    hide NewLines, NumberBody, AddedOf, AddedFrom;
    AddedOfNumbered(h.body, h.span.start1, h.span.start2);
    AddedFromHas(NewLines(h.body), h.span.start2, n);
  }

  lemma {:induction false} AddedWithin(base: seq<string>, head: seq<string>, h: Hunk)
    requires HunkOf(base, head, h)
    ensures Increasing(AddedOf(Parsed(h).lines))
    ensures forall x <- AddedOf(Parsed(h).lines) :: NewOffset(h.span) < x <= NewOffset(h.span) + h.span.size2
  {
    hide HunkOf, NewLines, NumberBody, AddedOf, AddedFrom, Increasing;
    AddedOfNumbered(h.body, h.span.start1, h.span.start2);
    AddedFromExact(NewLines(h.body), h.span.start2);
    HunkNewLines(base, head, h);
  }

  /** On a well-formed patch the changed lines come in strictly increasing order. */
  lemma {:induction false} ChangedIncrease(base: seq<string>, head: seq<string>, hunks: seq<Hunk>, p1: nat, p2: nat)
    requires p1 <= |base| && p2 <= |head|
    requires PatchFrom(base, head, hunks, p1, p2)
    ensures Increasing(ChangedNewLines(ParsedAll(hunks)))
    ensures forall x <- ChangedNewLines(ParsedAll(hunks)) :: x > p2
    decreases |hunks|
  {
    hide HunkOf, PatchFrom, NewLines, NumberBody, AddedOf, Increasing, OldOffset, NewOffset;
    if hunks == [] {
      NothingIncreases();
    } else {
      var h, rest := hunks[0], hunks[1..];
      PatchTail(base, head, hunks, p1, p2);
      var e2 := NewOffset(h.span) + h.span.size2;
      ChangedIncrease(base, head, rest, OldOffset(h.span) + h.span.size1, e2);
      AddedWithin(base, head, h);
      IncreasingConcat(AddedOf(Parsed(h).lines), ChangedNewLines(ParsedAll(rest)), e2 + 1);
      assert ParsedAll(hunks)[0] == Parsed(h) && ParsedAll(hunks)[1..] == ParsedAll(rest);
    }
  }

  lemma {:induction false} NothingIncreases()
    ensures Increasing([])
  {
  }

  lemma {:induction false} HunkNewLines(base: seq<string>, head: seq<string>, h: Hunk)
    requires HunkOf(base, head, h)
    ensures |NewLines(h.body)| == h.span.size2
  {
    NewLinesAreNewSide(h.body);
  }

  // ---- Agreement with the numbering pass -------------------------------------------

  /** The numbers a numbered patch prints next to added lines. */
  function AddedNumbers(entries: seq<Entry>): seq<int> {
    if entries == [] then []
    else
      (if entries[0].Numbered? && entries[0].line.Addition? then [entries[0].number] else [])
      + AddedNumbers(entries[1..])
  }

  lemma {:induction false} AddedNumbersConcat(a: seq<Entry>, b: seq<Entry>)
    ensures AddedNumbers(a + b) == AddedNumbers(a) + AddedNumbers(b)
  {
    if a == [] {
      assert a + b == b;
    } else {
      assert (a + b)[0] == a[0] && (a + b)[1..] == a[1..] + b;
      AddedNumbersConcat(a[1..], b);
    }
  }

  lemma {:induction false} AddedNumbersOfLines(start: int, news: seq<Line>)
    ensures AddedNumbers(NumberLines(start, news)) == AddedFrom(news, start)
    decreases |news|
  {
    if news != [] {
      assert NumberLines(start, news)[1..] == NumberLines(start + 1, news[1..]);
      AddedNumbersOfLines(start + 1, news[1..]);
    }
  }

  lemma {:induction false} NoAddedNumbers(entries: seq<Entry>)
    requires forall e <- entries :: !e.Numbered?
    ensures AddedNumbers(entries) == []
  {
    if entries != [] {
      NoAddedNumbers(entries[1..]);
    }
  }

  lemma {:induction false} NothingAdded(news: seq<Line>, n: int)
    requires !HasAddition(news)
    ensures AddedFrom(news, n) == []
    decreases |news|
  {
    if news != [] {
      NothingAdded(news[1..], n + 1);
    }
  }

  lemma {:induction false} AddedNumbersOfPrinted(h: Hunk)
    ensures AddedNumbers(Printed(OpenOf(h))) == AddedFrom(NewLines(h.body), h.span.start2)
  {
    hide NewLines, OldLines, AddedNumbers, AddedFrom, HasAddition, HasDeletion;
    var o := OpenOf(h);
    var head := [HunkHeader(HeaderOf(h))];
    var newPart :=
      if HasAddition(o.news) || HasDeletion(o.olds) then [NewHunkMark] + NumberLines(h.span.start2, o.news) else [];
    var oldPart := if HasDeletion(o.olds) then [OldHunkMark] + OldEntries(o.olds) else [];
    assert Printed(o) == head + newPart + oldPart;
    AddedNumbersConcat(head + newPart, oldPart);
    AddedNumbersConcat(head, newPart);
    NoAddedNumbers(head);
    NoAddedNumbers(oldPart);
    NoAddedNumbers([]);
    if newPart != [] {
      AddedNumbersConcat([NewHunkMark], NumberLines(h.span.start2, o.news));
      NoAddedNumbers([NewHunkMark]);
      AddedNumbersOfLines(h.span.start2, o.news);
    } else {
      NothingAdded(o.news, h.span.start2);
    }
  }

  lemma {:induction false} EntriesNumberAsParsed(hunks: seq<Hunk>)
    ensures AddedNumbers(Entries(hunks)) == ChangedNewLines(ParsedAll(hunks))
  {
    hide Printed, NewLines, OldLines;
    if hunks != [] {
      var h, rest := hunks[0], hunks[1..];
      AddedOfNumbered(h.body, h.span.start1, h.span.start2);
      AddedNumbersOfPrinted(h);
      EntriesNumberAsParsed(rest);
      var block := if |hunks| == 1 then Last(OpenOf(h)) else Closed(OpenOf(h));
      AddedNumbersConcat(block, Entries(rest));
      NothingAdded([], h.span.start2);
      assert ParsedAll(hunks)[1..] == ParsedAll(rest);
    }
  }

  /** Reading the same patch text, both readers give every added line the same number. */
  lemma {:induction false} NumbersAgree(hunks: seq<Hunk>)
    requires Bodies(hunks) && NothingSkipped(hunks)
    ensures var printed := Number(Render(hunks));
      printed.Ok? && AddedNumbers(printed.value) == ChangedNewLines(ParseFrom(Render(hunks), NoCurrent))
  {
    hide Number, Entries, AddedNumbers, NothingSkipped;
    NumberOfRendered(hunks, false);
    EntriesNumberAsParsed(hunks);
    ParsesHunkByHunk(hunks, NoCurrent);
    AppendStep([], [], ParsedAll(hunks));
  }

  // ---- ... also after the extension ----------------------------------------------------

  lemma {:induction false} NewLinesConcat(a: seq<Line>, b: seq<Line>)
    ensures NewLines(a + b) == NewLines(a) + NewLines(b)
  {
    hide AsNew;
    if a == [] {
      assert a + b == b;
    } else {
      assert (a + b)[0] == a[0] && (a + b)[1..] == a[1..] + b;
      NewLinesConcat(a[1..], b);
      AppendStep(AsNew(a[0]), NewLines(a[1..]), NewLines(b));
    }
  }

  lemma {:induction false} AddedFromConcat(a: seq<Line>, b: seq<Line>, n: int)
    ensures AddedFrom(a + b, n) == AddedFrom(a, n) + AddedFrom(b, n + |a|)
    decreases |a|
  {
    hide AddedAt;
    if a == [] {
      assert a + b == b;
    } else {
      assert (a + b)[0] == a[0] && (a + b)[1..] == a[1..] + b;
      AddedFromConcat(a[1..], b, n + 1);
      AppendStep(AddedAt(a[0], n), AddedFrom(a[1..], n + 1), AddedFrom(b, n + |a|));
    }
  }

  lemma {:induction false} ContextIsAllNew(texts: seq<string>)
    ensures NewLines(AsContext(texts)) == AsContext(texts)
    ensures !HasAddition(AsContext(texts))
  {
    if texts != [] {
      assert AsContext(texts)[1..] == AsContext(texts[1..]);
      ContextIsAllNew(texts[1..]);
      assert AsContext(texts) == [Context(texts[0])] + AsContext(texts[1..]);
    }
  }

  /** Extending a hunk moves no added line to another number. */
  lemma {:induction false} WideningKeepsAdded(h: Hunk, base: seq<string>, head: seq<string>, cfg: Config)
    requires Placed(h, base) && head != [] && h.span.start2 - 1 <= |head|
    ensures var x := Widened(h, base, head, cfg);
      AddedFrom(NewLines(x.body), x.span.start2) == AddedFrom(NewLines(h.body), h.span.start2)
  {
    hide AddedFrom, NewLines, HasAddition, WindowFor, TrailingFor, Placed, IsSliceAt, AsContext;
    WindowShape(h, base, head, cfg);
    var w, t := WindowFor(h, base, head, cfg), TrailingFor(h, base, cfg);
    var x := Widened(h, base, head, cfg);
    var lead, after := AsContext(w.leading), AsContext(t);
    ContextIsAllNew(w.leading);
    ContextIsAllNew(t);
    NewLinesConcat(lead + h.body, after);
    NewLinesConcat(lead, h.body);
    AddedFromConcat(lead + NewLines(h.body), after, x.span.start2);
    AddedFromConcat(lead, NewLines(h.body), x.span.start2);
    NothingAdded(lead, x.span.start2);
    NothingAdded(after, x.span.start2 + |lead + NewLines(h.body)|);
    assert x.span.start2 + |lead| == h.span.start2;
    assert [] + AddedFrom(NewLines(h.body), h.span.start2) + [] == AddedFrom(NewLines(h.body), h.span.start2);
  }

  lemma {:induction false} ExtensionKeepsChangedLines(base: seq<string>, head: seq<string>, hunks: seq<Hunk>,
                                                      cfg: Config)
    requires forall h <- hunks :: HunkOf(base, head, h)
    requires StartsAtLeastOne(hunks) && head != []
    ensures ChangedNewLines(ParsedAll(WidenedAll(hunks, base, head, cfg))) == ChangedNewLines(ParsedAll(hunks))
  {
    hide Widened, HunkOf, Placed, IsSliceAt, NewLines, NumberBody, AddedFrom;
    if hunks != [] {
      var h, rest := hunks[0], hunks[1..];
      assert h in hunks;
      PlacedOfHunkOf(base, head, h);
      StartWithin(h, head);
      ExtensionKeepsChangedLines(base, head, rest, cfg);
      var x, all := Widened(h, base, head, cfg), WidenedAll(hunks, base, head, cfg);
      assert all[1..] == WidenedAll(rest, base, head, cfg);
      WideningKeepsAdded(h, base, head, cfg);
      AddedOfNumbered(h.body, h.span.start1, h.span.start2);
      AddedOfNumbered(x.body, x.span.start1, x.span.start2);
      assert ParsedAll(all)[1..] == ParsedAll(all[1..]) && ParsedAll(hunks)[1..] == ParsedAll(rest);
    }
  }

  /**
    The numbers printed next to added lines after extending a patch are those the worker reads from the patch
    itself, even where the numbers of trailing context are wrong.
   */
  lemma {:induction false} PrintedNumbersAreParsedNumbers(base: seq<string>, head: seq<string>, hunks: seq<Hunk>,
                                                          cfg: Config, skip: bool)
    requires PatchOf(base, head, hunks) && head != []
    requires IsUnextended(base, cfg, skip) || StartsAtLeastOne(hunks)
    requires NothingSkipped(hunks) && CleanTexts(base)
    ensures var printed := Number(ExtendPatch(Render(hunks), base, head, cfg, skip));
      printed.Ok? && AddedNumbers(printed.value) == ChangedNewLines(ParseFrom(Render(hunks), NoCurrent))
  {
    hide Extended, PatchFrom, NothingSkipped, CleanTexts, Number, Entries, AddedNumbers, ExtendPatch, SameAfter;
    hide Changes;
    ExtendThenNumberIsTruthfulIff(base, head, hunks, cfg, skip);
    EntriesNumberAsParsed(ResultHunks(hunks, base, head, cfg, skip));
    PatchBodies(base, head, hunks, 0, 0);
    if !IsUnextended(base, cfg, skip) {
      ExtensionKeepsChangedLines(base, head, hunks, cfg);
    }
    ParsesHunkByHunk(hunks, NoCurrent);
    assert [] + ParsedAll(hunks) == ParsedAll(hunks);
  }
}
