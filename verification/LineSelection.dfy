/**
  Selecting a range of lines from a patch (`extract_hunk_lines_from_patch`) and
  its use as a fallback for slicing the new file (`extract_relevant_lines_str`).
 */
module LineSelection {
  import opened Basics
  import opened UnifiedDiff
  import opened PatchNumbering

  datatype Side = Left | Right

  datatype Cursor = Cursor(start1: int, start2: int, skip: bool, num: nat)

  /** The range test at a header; both ends are inclusive, one line more than the hunk has. */
  predicate Admits(span: Span, side: Side, lineStart: int) {
    match side
    case Left => span.start1 <= lineStart <= span.start1 + span.size1
    case Right => span.start2 <= lineStart <= span.start2 + span.size2
  }

  predicate Picks(c: Cursor, side: Side, lineStart: int, lineEnd: int) {
    match side
    case Right => lineStart <= c.start2 + c.num <= lineEnd
    case Left => c.start1 <= c.num + c.start1 <= lineEnd
  }

  /** All lines shown, and the selected ones among them. */
  datatype Selection = Selection(shown: seq<Line>, selected: seq<Line>)

  function Plus(a: Selection, b: Selection): Selection {
    Selection(a.shown + b.shown, a.selected + b.selected)
  }

  function Prefixed(a: Selection, r: Result<Selection>): Result<Selection> {
    if r.Ok? then Ok(Plus(a, r.value)) else Raised
  }

  function Advance(c: Cursor, l: Line): Cursor {
    if l.Deletion? then c else c.(num := c.num + 1)
  }

  function SelectFrom(lines: seq<Line>, c: Cursor, side: Side, lineStart: int, lineEnd: int): Result<Selection> {
    if lines == [] then Ok(Selection([], []))
    else
      var l, rest := lines[0], lines[1..];
      if Skipped(l) then SelectFrom(rest, c, side, lineStart, lineEnd)
      else if l.Malformed? then Raised
      else if l.Header? then
        var skip := !Admits(l.span, side, lineStart);
        Prefixed(Selection(if skip then [] else [l], []),
                SelectFrom(rest, Cursor(l.span.start1, l.span.start2, skip, 0), side, lineStart, lineEnd))
      else if c.skip then SelectFrom(rest, c, side, lineStart, lineEnd)
      else
        Prefixed(Selection([l], if Picks(c, side, lineStart, lineEnd) then [l] else []),
                SelectFrom(rest, Advance(c, l), side, lineStart, lineEnd))
  }

  const START := Cursor(-1, -1, false, 0)

  lemma {:induction false} PrefixedLaws(a: Selection, b: Selection, r: Result<Selection>)
    ensures Prefixed(Selection([], []), r) == r
    ensures Prefixed(Plus(a, b), r) == Prefixed(a, Prefixed(b, r))
  {
    if r.Ok? {
      assert [] + r.value.shown == r.value.shown && [] + r.value.selected == r.value.selected;
      AppendStep(a.shown, b.shown, r.value.shown);
      AppendStep(a.selected, b.selected, r.value.selected);
    }
  }

  method ExtractHunkLines(patchLines: seq<Line>, side: Side, lineStart: int, lineEnd: int)
    returns (r: Result<Selection>)
    ensures r == SelectFrom(patchLines, START, side, lineStart, lineEnd)
  {
    hide Skipped, Prefixed, Picks;
    var shown, selected := [], [];
    var c := START;
    var i := 0;
    PrefixedLaws(Selection([], []), Selection([], []), SelectFrom(patchLines, START, side, lineStart, lineEnd));
    while i < |patchLines|
      invariant 0 <= i <= |patchLines|
      invariant Prefixed(Selection(shown, selected), SelectFrom(patchLines[i..], c, side, lineStart, lineEnd))
             == SelectFrom(patchLines, START, side, lineStart, lineEnd)
    {
      var line := patchLines[i];
      ghost var rest := patchLines[i + 1..];
      ghost var done := Selection(shown, selected);
      assert patchLines[i..][0] == line && patchLines[i..][1..] == rest;
      if Skipped(line) {
      } else if line.Malformed? {
        PrefixedRaised(done);
        return Raised;
      } else if line.Header? {
        var skip := !Admits(line.span, side, lineStart);
        c := Cursor(line.span.start1, line.span.start2, skip, 0);
        ghost var piece := Selection(if skip then [] else [line], []);
        if !skip {
          shown := shown + [line];
        }
        PrefixedLaws(done, piece, SelectFrom(rest, c, side, lineStart, lineEnd));
        assert Plus(done, piece) == Selection(shown, selected);
      } else if !c.skip {
        var picked := Picks(c, side, lineStart, lineEnd);
        ghost var piece := Selection([line], if picked then [line] else []);
        if picked {
          selected := selected + [line];
        }
        shown := shown + [line];
        c := Advance(c, line);
        PrefixedLaws(done, piece, SelectFrom(rest, c, side, lineStart, lineEnd));
        assert Plus(done, piece) == Selection(shown, selected);
      }
      i := i + 1;
    }
    FinalPrefixed(Selection(shown, selected));
    r := Ok(Selection(shown, selected));
  }

  lemma {:induction false} PrefixedRaised(a: Selection)
    ensures Prefixed(a, Raised) == Raised
  {
  }

  lemma {:induction false} FinalPrefixed(a: Selection)
    ensures Prefixed(a, Ok(Selection([], []))) == Ok(a)
  {
    assert a.shown + [] == a.shown && a.selected + [] == a.selected;
  }

  /** The fallback drops deleted lines and the first character of the others. */
  function KeptTexts(selected: seq<Line>): seq<string> {
    if selected == [] then []
    else
      var l := selected[0];
      (if l.Deletion? then []
       else if l.Context? || l.Addition? then [l.text]
       else if l.Other? && l.text != "" then [l.text[1..]]
       else [""])
      + KeptTexts(selected[1..])
  }

  /** One line at a time: deletions are dropped, and every other line loses its first character. */
  lemma {:induction false} KeptOfLine(l: Line)
    ensures l.Deletion? ==> KeptTexts([l]) == []
    ensures l.Context? || l.Addition? ==> KeptTexts([l]) == [l.text]
    ensures l.Blank? || l == Other("") ==> KeptTexts([l]) == [""]
    ensures forall c: char, t: string :: l == Other([c] + t) ==> KeptTexts([l]) == [t]
  {
    assert [l][1..] == [];
    forall c: char, t: string | l == Other([c] + t) ensures KeptTexts([l]) == [t] {
      assert ([c] + t)[1..] == t;
    }
  }

  // ---- Selecting on the right side of a well-formed patch ----------------------------

  /** The texts numbered from `n` on whose numbers lie in the range. */
  function Between(texts: seq<string>, n: int, lineStart: int, lineEnd: int): seq<string>
    decreases |texts|
  {
    if texts == [] then []
    else (if lineStart <= n <= lineEnd then [texts[0]] else []) + Between(texts[1..], n + 1, lineStart, lineEnd)
  }

  function SelectedOf(r: Result<Selection>): seq<Line> {
    if r.Ok? then r.value.selected else []
  }

  lemma {:induction false} KeptConcat(a: seq<Line>, b: seq<Line>)
    ensures KeptTexts(a + b) == KeptTexts(a) + KeptTexts(b)
  {
    if a == [] {
      assert a + b == b;
    } else {
      assert (a + b)[0] == a[0] && (a + b)[1..] == a[1..] + b;
      KeptConcat(a[1..], b);
    }
  }

  function AfterBody(body: seq<Line>, c: Cursor): Cursor {
    if body == [] then c
    else AfterBody(body[1..], if body[0].NoNewline? || c.skip then c else Advance(c, body[0]))
  }

  function BodyTexts(body: seq<Line>, c: Cursor, lineStart: int, lineEnd: int): seq<string> {
    if c.skip then [] else Between(NewSide(body), c.start2 + c.num, lineStart, lineEnd)
  }

  /** `all` selects the texts and then what `rest` selects. */
  predicate Adds(all: Result<Selection>, texts: seq<string>, rest: Result<Selection>) {
    all.Ok? == rest.Ok? && (rest.Ok? ==> KeptTexts(SelectedOf(all)) == texts + KeptTexts(SelectedOf(rest)))
  }

  /** One body line. */
  lemma {:induction false} SelectOneLine(l: Line, rest: seq<Line>, c: Cursor, lineStart: int, lineEnd: int)
    requires IsBodyLine(l) && (l.NoNewline? || !Skipped(l))
    ensures var d := if l.NoNewline? || c.skip then c else Advance(c, l);
      var picked := !c.skip && !l.NoNewline? && !l.Deletion? && lineStart <= c.start2 + c.num <= lineEnd;
      Adds(SelectFrom([l] + rest, c, Right, lineStart, lineEnd), if picked then [l.text] else [],
           SelectFrom(rest, d, Right, lineStart, lineEnd))
  {
    MarkerSkipped();
    assert ([l] + rest)[0] == l && ([l] + rest)[1..] == rest;
    var d := if l.NoNewline? || c.skip then c else Advance(c, l);
    var r := SelectFrom(rest, d, Right, lineStart, lineEnd);
    if r.Ok? && !c.skip && !l.NoNewline? {
      var picked := Picks(c, Right, lineStart, lineEnd);
      KeptConcat(if picked then [l] else [], SelectedOf(r));
      KeptOfOne(l, picked);
    } else {
      assert [] + KeptTexts(SelectedOf(r)) == KeptTexts(SelectedOf(r));
    }
  }

  /** Over a body, the kept texts are those new-side lines whose numbers lie in the range. */
  lemma {:induction false} SelectOverBody(body: seq<Line>, rest: seq<Line>, c: Cursor, lineStart: int, lineEnd: int)
    requires IsBody(body) && forall l <- body :: l.NoNewline? || !Skipped(l)
    ensures Adds(SelectFrom(body + rest, c, Right, lineStart, lineEnd), BodyTexts(body, c, lineStart, lineEnd),
                 SelectFrom(rest, AfterBody(body, c), Right, lineStart, lineEnd))
    decreases |body|
  {
    hide Skipped, SelectFrom, Adds, KeptTexts, BodyTexts;
    if body == [] {
      assert body + rest == rest;
      AddsNothing(SelectFrom(rest, c, Right, lineStart, lineEnd), c, lineStart, lineEnd);
    } else {
      var l, tail := body[0], body[1..];
      assert IsBodyLine(l) && l in body;
      assert body + rest == [l] + (tail + rest) && body == [l] + tail;
      var d := if l.NoNewline? || c.skip then c else Advance(c, l);
      SelectOneLine(l, tail + rest, c, lineStart, lineEnd);
      SelectOverBody(tail, rest, d, lineStart, lineEnd);
      BodyTextsStep(l, tail, c, lineStart, lineEnd);
      var picked := !c.skip && !l.NoNewline? && !l.Deletion? && lineStart <= c.start2 + c.num <= lineEnd;
      AddsTransitive(SelectFrom(body + rest, c, Right, lineStart, lineEnd), if picked then [l.text] else [],
                     SelectFrom(tail + rest, d, Right, lineStart, lineEnd), BodyTexts(tail, d, lineStart, lineEnd),
                     SelectFrom(rest, AfterBody(tail, d), Right, lineStart, lineEnd));
    }
  }

  lemma {:induction false} AddsNothing(r: Result<Selection>, c: Cursor, lineStart: int, lineEnd: int)
    ensures Adds(r, BodyTexts([], c, lineStart, lineEnd), r)
  {
  }

  lemma {:induction false} AddsTransitive(a: Result<Selection>, s: seq<string>, b: Result<Selection>, t: seq<string>,
                                          c: Result<Selection>)
    requires Adds(a, s, b) && Adds(b, t, c)
    ensures Adds(a, s + t, c)
  {
  }

  lemma {:induction false} BodyTextsStep(l: Line, rest: seq<Line>, c: Cursor, lineStart: int, lineEnd: int)
    requires IsBodyLine(l)
    ensures var d := if l.NoNewline? || c.skip then c else Advance(c, l);
      var picked := !c.skip && !l.NoNewline? && !l.Deletion? && lineStart <= c.start2 + c.num <= lineEnd;
      BodyTexts([l] + rest, c, lineStart, lineEnd)
      == (if picked then [l.text] else []) + BodyTexts(rest, d, lineStart, lineEnd)
  {
    assert ([l] + rest)[1..] == rest;
    if !l.NoNewline? {
      BetweenStep(l, rest, c.start2 + c.num, lineStart, lineEnd);
    } else {
      assert NewSide([l] + rest) == NewSide(rest);
    }
  }

  lemma {:induction false} KeptOfOne(l: Line, picked: bool)
    requires l.Context? || l.Addition? || l.Deletion?
    ensures KeptTexts(if picked then [l] else []) == if picked && !l.Deletion? then [l.text] else []
  {
  }

  lemma {:induction false} BetweenStep(l: Line, rest: seq<Line>, n: int, lineStart: int, lineEnd: int)
    requires l.Context? || l.Addition? || l.Deletion?
    ensures Between(NewSide([l] + rest), n, lineStart, lineEnd)
         == (if lineStart <= n <= lineEnd && !l.Deletion? then [l.text] else [])
            + Between(NewSide(rest), n + (if l.Deletion? then 0 else 1), lineStart, lineEnd)
  {
    assert ([l] + rest)[1..] == rest;
    if l.Deletion? {
      assert NewSide([l] + rest) == NewSide(rest);
    } else {
      assert NewSide([l] + rest)[1..] == NewSide(rest);
    }
  }

  function KeptOf(h: Hunk, lineStart: int, lineEnd: int): seq<string> {
    if Admits(h.span, Right, lineStart) then Between(NewSide(h.body), h.span.start2, lineStart, lineEnd) else []
  }

  function KeptOfHunks(hunks: seq<Hunk>, lineStart: int, lineEnd: int): seq<string> {
    if hunks == [] then [] else KeptOf(hunks[0], lineStart, lineEnd) + KeptOfHunks(hunks[1..], lineStart, lineEnd)
  }

  lemma {:induction false} SelectsHunkByHunk(hunks: seq<Hunk>, c: Cursor, lineStart: int, lineEnd: int)
    requires Bodies(hunks) && NothingSkipped(hunks)
    ensures var r := SelectFrom(Render(hunks), c, Right, lineStart, lineEnd);
      r.Ok? && KeptTexts(r.value.selected) == KeptOfHunks(hunks, lineStart, lineEnd)
  {
    hide Skipped, IsBody, Between;
    if hunks != [] {
      var h, rest := hunks[0], hunks[1..];
      assert h in hunks;
      var lines := Render(hunks);
      assert lines[0] == HeaderOf(h) && lines[1..] == h.body + Render(rest);
      var b := Cursor(h.span.start1, h.span.start2, !Admits(h.span, Right, lineStart), 0);
      SelectOverBody(h.body, Render(rest), b, lineStart, lineEnd);
      SelectsHunkByHunk(rest, AfterBody(h.body, b), lineStart, lineEnd);
      var all := SelectFrom(h.body + Render(rest), b, Right, lineStart, lineEnd);
      assert [] + SelectedOf(all) == SelectedOf(all);
    }
  }

  // ---- Agreement with the file -----------------------------------------------------------

  lemma {:induction false} BetweenOutside(texts: seq<string>, n: int, lineStart: int, lineEnd: int)
    requires lineEnd < n || n + |texts| <= lineStart
    ensures Between(texts, n, lineStart, lineEnd) == []
    decreases |texts|
  {
    if texts != [] {
      BetweenOutside(texts[1..], n + 1, lineStart, lineEnd);
    }
  }

  lemma {:induction false} BetweenInside(texts: seq<string>, n: int, lineStart: int, lineEnd: int)
    requires n <= lineStart <= lineEnd + 1 <= n + |texts|
    ensures Between(texts, n, lineStart, lineEnd) == texts[lineStart - n..lineEnd + 1 - n]
    decreases |texts|
  {
    if lineStart <= n {
      BetweenFrom(texts, n, lineStart, lineEnd);
      assert texts[0..lineEnd + 1 - n] == texts[..lineEnd + 1 - n];
    } else {
      BetweenInside(texts[1..], n + 1, lineStart, lineEnd);
      BetweenSkipsFirst(texts, n, lineStart, lineEnd);
      hide Between;
      SliceOfRest(texts, lineStart - n, lineEnd + 1 - n);
    }
  }

  /** A number below the range adds nothing. */
  lemma {:induction false} BetweenSkipsFirst(texts: seq<string>, n: int, lineStart: int, lineEnd: int)
    requires texts != [] && n < lineStart
    ensures Between(texts, n, lineStart, lineEnd) == Between(texts[1..], n + 1, lineStart, lineEnd)
  {
    var rest := Between(texts[1..], n + 1, lineStart, lineEnd);
    assert [] + rest == rest;
  }

  lemma {:induction false} SliceOfRest(texts: seq<string>, from: nat, to: nat)
    requires 1 <= from <= to <= |texts|
    ensures texts[1..][from - 1..to - 1] == texts[from..to]
  {
  }

  /** A range that starts at or below the first number takes a prefix. */
  lemma {:induction false} BetweenFrom(texts: seq<string>, n: int, lineStart: int, lineEnd: int)
    requires lineStart <= n && n - 1 <= lineEnd < n + |texts|
    ensures Between(texts, n, lineStart, lineEnd) == texts[..lineEnd + 1 - n]
    decreases |texts|
  {
    if lineEnd == n - 1 {
      BetweenOutside(texts, n, lineStart, lineEnd);
    } else {
      BetweenFrom(texts[1..], n + 1, lineStart, lineEnd);
      assert texts[..lineEnd + 1 - n] == [texts[0]] + texts[1..][..lineEnd - n];
    }
  }

  lemma {:induction false} NothingKeptAfter(base: seq<string>, head: seq<string>, hunks: seq<Hunk>, p1: nat, p2: nat,
                                            lineStart: int, lineEnd: int)
    requires p1 <= |base| && p2 <= |head|
    requires PatchFrom(base, head, hunks, p1, p2) && lineEnd <= p2
    ensures KeptOfHunks(hunks, lineStart, lineEnd) == []
    decreases |hunks|
  {
    hide PatchFrom, HunkOf, KeptOf;
    if hunks != [] {
      var h := hunks[0];
      PatchTail(base, head, hunks, p1, p2);
      KeptOfOther(base, head, h, lineStart, lineEnd);
      NothingKeptAfter(base, head, hunks[1..], OldOffset(h.span) + h.span.size1, NewOffset(h.span) + h.span.size2,
                       lineStart, lineEnd);
    }
  }

  lemma {:induction false} LaterHunksStartLater(base: seq<string>, head: seq<string>, hunks: seq<Hunk>, p1: nat,
                                                p2: nat, h: Hunk)
    requires p1 <= |base| && p2 <= |head|
    requires PatchFrom(base, head, hunks, p1, p2) && h in hunks
    ensures NewOffset(h.span) >= p2
    decreases |hunks|
  {
    hide HunkOf;
    PatchTail(base, head, hunks, p1, p2);
    var g := hunks[0];
    if h != g {
      LaterHunksStartLater(base, head, hunks[1..], OldOffset(g.span) + g.span.size1, NewOffset(g.span) + g.span.size2,
                           h);
    }
  }

  lemma {:induction false} SliceOfSlice(s: seq<string>, at: nat, part: seq<string>, i: nat, j: nat)
    requires IsSliceAt(s, at, part) && i <= j <= |part|
    ensures s[at + i..at + j] == part[i..j]
  {
    forall k | 0 <= k < j - i ensures s[at + i..at + j][k] == part[i..j][k] {
      assert s[at..at + |part|][i + k] == part[i + k];
    }
  }

  /** What is kept of the hunk that holds the range. */
  lemma {:induction false} KeptOfHolder(base: seq<string>, head: seq<string>, h: Hunk, lineStart: int, lineEnd: int)
    requires HunkOf(base, head, h)
    requires h.span.start2 <= lineStart <= lineEnd < h.span.start2 + h.span.size2
    ensures 1 <= h.span.start2 && lineEnd <= |head|
    ensures KeptOf(h, lineStart, lineEnd) == head[lineStart - 1..lineEnd]
  {
    hide Between, NewSide, OldSide, IsBody;
    BetweenInside(NewSide(h.body), h.span.start2, lineStart, lineEnd);
    SliceOfSlice(head, NewOffset(h.span), NewSide(h.body), lineStart - h.span.start2, lineEnd + 1 - h.span.start2);
  }

  /** A hunk that ends before the range, or starts after it, keeps nothing, admitted or not. */
  lemma {:induction false} KeptOfOther(base: seq<string>, head: seq<string>, h: Hunk, lineStart: int, lineEnd: int)
    requires HunkOf(base, head, h)
    requires lineEnd <= NewOffset(h.span) || NewOffset(h.span) + h.span.size2 < lineStart
    ensures KeptOf(h, lineStart, lineEnd) == []
  {
    hide NewSide, OldSide, IsBody, IsSliceAt;
    if h.span.size2 > 0 {
      BetweenOutside(NewSide(h.body), h.span.start2, lineStart, lineEnd);
    }
  }

  lemma {:induction false} KeptInsideHunk(base: seq<string>, head: seq<string>, hunks: seq<Hunk>, p1: nat, p2: nat,
                                          h: Hunk, lineStart: int, lineEnd: int)
    requires p1 <= |base| && p2 <= |head|
    requires PatchFrom(base, head, hunks, p1, p2) && h in hunks
    requires h.span.start2 <= lineStart <= lineEnd < h.span.start2 + h.span.size2
    ensures 1 <= lineStart && lineEnd <= |head|
    ensures KeptOfHunks(hunks, lineStart, lineEnd) == head[lineStart - 1..lineEnd]
    decreases |hunks|
  {
    hide KeptOf, HunkOf, PatchFrom;
    PatchTail(base, head, hunks, p1, p2);
    var g, rest := hunks[0], hunks[1..];
    var e1, e2 := OldOffset(g.span) + g.span.size1, NewOffset(g.span) + g.span.size2;
    AppendStep(KeptOf(g, lineStart, lineEnd), [], KeptOfHunks(rest, lineStart, lineEnd));
    if h == g {
      NothingKeptAfter(base, head, rest, e1, e2, lineStart, lineEnd);
      KeptOfHolder(base, head, h, lineStart, lineEnd);
    } else {
      assert h in rest;
      LaterHunksStartLater(base, head, rest, e1, e2, h);
      KeptOfOther(base, head, g, lineStart, lineEnd);
      KeptInsideHunk(base, head, rest, e1, e2, h, lineStart, lineEnd);
      AppendStep([], KeptOfHunks(rest, lineStart, lineEnd), []);
    }
  }

  /** For a range inside one hunk the patch fallback yields the lines of the new file. */
  lemma {:induction false} FallbackAgreesWithFile(base: seq<string>, head: seq<string>, hunks: seq<Hunk>, h: Hunk,
                                                  lineStart: int, lineEnd: int)
    requires PatchOf(base, head, hunks) && Bodies(hunks) && NothingSkipped(hunks)
    requires h in hunks
    requires h.span.start2 <= lineStart <= lineEnd < h.span.start2 + h.span.size2
    ensures 1 <= lineStart && lineEnd <= |head|
    ensures var r := SelectFrom(Render(hunks), START, Right, lineStart, lineEnd);
      r.Ok? && KeptTexts(r.value.selected) == head[lineStart - 1..lineEnd]
  {
    hide PatchFrom, IsBody, NothingSkipped, KeptOfHunks, SelectFrom;
    SelectsHunkByHunk(hunks, START, lineStart, lineEnd);
    KeptInsideHunk(base, head, hunks, 0, 0, h, lineStart, lineEnd);
  }
}
