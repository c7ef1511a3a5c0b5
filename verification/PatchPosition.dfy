/**
  Translating between a position in the patch text and a line of the new file
  (`find_line_number_of_relevant_line_in_file`), for the file already found.
  How a text is looked for inside a line is an arbitrary predicate.
 */
module PatchPosition {
  import opened Basics
  import opened UnifiedDiff
  import opened PatchNumbering

  datatype Scan = Scan(start2: int, delta: int)

  function Step(s: Scan, l: Line): Scan {
    if l.Header? then Scan(l.span.start2, 0)
    else if l.Deletion? then s
    else Scan(s.start2, s.delta + 1)
  }

  function Value(s: Scan): int {
    s.start2 + s.delta - 1
  }

  /** The absolute position computed at every line of the patch. */
  function Values(lines: seq<Line>, s: Scan): (r: seq<int>)
    ensures |r| == |lines|
  {
    if lines == [] then [] else [Value(Step(s, lines[0]))] + Values(lines[1..], Step(s, lines[0]))
  }

  const START := Scan(0, 0)

  /** `i` is the first index at which `a` occurs, or -1 when it does not. */
  predicate FirstIndexOf(values: seq<int>, i: int, a: int) {
    if i == -1 then a !in values else 0 <= i < |values| && values[i] == a && a !in values[..i]
  }

  predicate Hit(l: Line, matches: Line -> bool) {
    matches(l) && !l.Deletion?
  }

  /** `i` is the position of the first line found, or -1. */
  predicate FirstHit(lines: seq<Line>, matches: Line -> bool, i: int) {
    if i == -1 then forall l <- lines :: !Hit(l, matches)
    else 0 <= i < |lines| && Hit(lines[i], matches) && forall l <- lines[..i] :: !Hit(l, matches)
  }

  /** A header that cannot be read stands before the first line that computes the absolute line. */
  predicate RaisesBefore(lines: seq<Line>, values: seq<int>, a: int)
    requires |values| == |lines|
  {
    exists i | 0 <= i < |lines| :: lines[i].Malformed? && a !in values[..i]
  }

  /** Before the first line found stands a header that cannot be read, or an empty line that matches. */
  predicate RaisesAhead(lines: seq<Line>, matches: Line -> bool) {
    exists i | 0 <= i < |lines| ::
      && (lines[i].Malformed? || (lines[i].Blank? && matches(lines[i])))
      && forall l <- lines[..i] :: !Hit(l, matches)
  }

  /** From an absolute line of the new file to the position of the first patch line that computes it. */
  method FindByAbsolute(lines: seq<Line>, absolute: int) returns (r: Result<int>)
    ensures r.Raised? <==> RaisesBefore(lines, Values(lines, START), absolute)
    ensures r.Ok? ==> FirstIndexOf(Values(lines, START), r.value, absolute)
  {
    var s := START;
    var i := 0;
    while i < |lines|
      invariant 0 <= i <= |lines|
      invariant Values(lines, START)[i..] == Values(lines[i..], s)
      invariant absolute !in Values(lines, START)[..i]
      invariant forall j | 0 <= j < i :: !lines[j].Malformed?
    {
      if lines[i].Malformed? {
        return Raised;
      }
      assert lines[i..][1..] == lines[i + 1..];
      assert Values(lines, START)[i] == Values(lines, START)[i..][0];
      assert Values(lines, START)[i + 1..] == Values(lines, START)[i..][1..];
      s := Step(s, lines[i]);
      if Value(s) == absolute {
        assert forall j | i < j <= |lines| :: Values(lines, START)[i] in Values(lines, START)[..j];
        return Ok(i);
      }
      i := i + 1;
    }
    r := Ok(-1);
  }

  function EndScan(lines: seq<Line>, s: Scan): Scan {
    if lines == [] then s else EndScan(lines[1..], Step(s, lines[0]))
  }

  /** From a text to the position and absolute line of the first line that holds it and is no deletion. */
  method FindByText(lines: seq<Line>, matches: Line -> bool, from: Scan) returns (r: Result<(int, int)>, end: Scan)
    ensures r.Raised? <==> RaisesAhead(lines, matches)
    ensures r.Ok? && r.value.0 == -1 ==> r.value.1 == -1
    ensures r.Ok? ==> FirstHit(lines, matches, r.value.0)
    ensures r.Ok? && r.value.0 >= 0 ==> r.value.1 == Values(lines, from)[r.value.0]
    ensures r.Ok? && r.value.0 == -1 ==> end == EndScan(lines, from)
  {
    end := from;
    var i := 0;
    while i < |lines|
      invariant 0 <= i <= |lines|
      invariant Values(lines, from)[i..] == Values(lines[i..], end)
      invariant EndScan(lines, from) == EndScan(lines[i..], end)
      invariant forall l <- lines[..i] :: !Hit(l, matches)
      invariant forall j | 0 <= j < i :: !(lines[j].Malformed? || (lines[j].Blank? && matches(lines[j])))
    {
      if lines[i].Malformed? {
        return Raised, end;
      }
      assert lines[i..][1..] == lines[i + 1..];
      assert Values(lines, from)[i] == Values(lines, from)[i..][0];
      assert Values(lines, from)[i + 1..] == Values(lines, from)[i..][1..];
      end := Step(end, lines[i]);
      if matches(lines[i]) {
        if lines[i].Blank? {
          return Raised, end;
        }
        if !lines[i].Deletion? {
          assert Hit(lines[i], matches) && forall j | i < j <= |lines| :: lines[i] in lines[..j];
          return Ok((i, Value(end))), end;
        }
      }
      i := i + 1;
    }
    r := Ok((-1, -1));
  }

  /** The text as given, then, if it began with '+', the text without it; the counters are not reset in between. */
  method FindLine(lines: seq<Line>, matches: Line -> bool, withoutPlus: Option<Line -> bool>)
    returns (r: Result<(int, int)>)
    ensures r.Raised? <==> RaisesAhead(lines, matches)
                           || (withoutPlus.Some? && FirstHit(lines, matches, -1)
                               && RaisesAhead(lines, withoutPlus.value))
    ensures r.Ok? && r.value.0 == -1 ==> r.value.1 == -1
    ensures r.Ok? ==>
              || (FirstHit(lines, matches, r.value.0) && (r.value.0 == -1 ==> withoutPlus.None?))
              || (withoutPlus.Some? && FirstHit(lines, matches, -1) && FirstHit(lines, withoutPlus.value, r.value.0))
    ensures r.Ok? && r.value.0 >= 0 && lines[0].Header? ==> r.value.1 == Values(lines, START)[r.value.0]
  {
    var end: Scan;
    r, end := FindByText(lines, matches, START);
    if r.Ok? && r.value.0 == -1 && withoutPlus.Some? {
      r, end := FindByText(lines, withoutPlus.value, end);
    }
  }

  // ---- Values on a rendered patch ------------------------------------------------

  /** The lines of a body that advance the counter. */
  function Counted(body: seq<Line>): nat {
    if body == [] then 0 else (if body[0].Deletion? then 0 else 1) + Counted(body[1..])
  }

  lemma {:induction false} ValuesConcat(a: seq<Line>, b: seq<Line>, s: Scan)
    requires b == [] || b[0].Header?
    ensures Values(a + b, s) == Values(a, s) + Values(b, START)
    decreases |a|
  {
    if a == [] {
      assert a + b == b;
    } else {
      assert (a + b)[0] == a[0] && (a + b)[1..] == a[1..] + b;
      ValuesConcat(a[1..], b, Step(s, a[0]));
    }
  }

  /** Inside a body the value is the start plus the counted lines so far. */
  lemma {:induction false} ValuesOfBody(body: seq<Line>, s: Scan, k: nat)
    requires IsBody(body) && k < |body|
    ensures Values(body, s)[k] == Value(s) + Counted(body[..k + 1])
    decreases |body|
  {
    assert IsBodyLine(body[0]);
    var t := Step(s, body[0]);
    assert body[..k + 1][1..] == body[1..][..k];
    if k > 0 {
      ValuesOfBody(body[1..], t, k - 1);
    }
  }

  /** A counted line counts more lines than any line before it. */
  lemma {:induction false} CountedMore(body: seq<Line>, j: nat, k: nat)
    requires j < k < |body| && !body[k].Deletion?
    ensures Counted(body[..j + 1]) < Counted(body[..k + 1])
  {
    assert body[..k + 1] == body[..j + 1] + body[j + 1..k] + [body[k]];
    CountedConcat(body[..j + 1] + body[j + 1..k], [body[k]]);
    CountedConcat(body[..j + 1], body[j + 1..k]);
  }

  /** Without a marker the counted lines are the new-side lines. */
  lemma {:induction false} CountedIsNewSide(body: seq<Line>)
    requires IsBody(body)
    ensures Counted(body) >= |NewSide(body)|
    ensures Counted(body) == |NewSide(body)| <==> NoNewline !in body
  {
    if body != [] {
      assert IsBodyLine(body[0]);
      CountedIsNewSide(body[1..]);
    }
  }

  predicate IsNewSideLine(l: Line) {
    l.Context? || l.Addition?
  }

  /** No earlier line of the patch has the same value. */
  predicate FirstValue(values: seq<int>, i: nat)
    requires i < |values|
  {
    forall j | 0 <= j < i :: values[j] != values[i]
  }

  lemma {:induction false} ValuesOfHunk(h: Hunk, s: Scan)
    requires IsBody(h.body)
    ensures Values(HunkLines(h), s) == [h.span.start2 - 1] + Values(h.body, Scan(h.span.start2, 0))
  {
  }

  /** Within its hunk a counted line is the first with its value, which is past the header's. */
  lemma {:induction false} FirstInHunk(h: Hunk, k: nat)
    requires IsBody(h.body) && k < |h.body| && !h.body[k].Deletion?
    ensures var v := Values(HunkLines(h), START);
      v[k + 1] >= h.span.start2 && FirstValue(v, k + 1)
  {
    hide Values, Counted, IsBody, HunkLines;
    var b := Scan(h.span.start2, 0);
    ValuesOfHunk(h, START);
    ValuesOfBody(h.body, b, k);
    CountedIt(h.body, k);
    forall j | 0 <= j < k ensures Values(h.body, b)[j] < Values(h.body, b)[k] {
      ValuesOfBody(h.body, b, j);
      CountedMore(h.body, j, k);
    }
  }

  lemma {:induction false} CountedIt(body: seq<Line>, k: nat)
    requires k < |body| && !body[k].Deletion?
    ensures Counted(body[..k + 1]) >= 1
  {
    assert body[..k + 1] == body[..k] + [body[k]];
    CountedConcat(body[..k], [body[k]]);
  }

  lemma {:induction false} NewSideLinePastOffset(base: seq<string>, head: seq<string>, h: Hunk, k: nat)
    requires HunkOf(base, head, h) && k < |h.body| && IsNewSideLine(h.body[k])
    ensures Values(HunkLines(h), START)[k + 1] > NewOffset(h.span)
  {
    hide Values, IsSliceAt, HunkLines;
    FirstInHunk(h, k);
    NewSideNotEmpty(h.body, k);
  }

  /** Past the value before the body, the values of the body are the next ones, one for each counted line. */
  lemma {:induction false} ValuesCover(body: seq<Line>, s: Scan, v: int)
    requires IsBody(body) && v > Value(s)
    ensures v in Values(body, s) <==> v <= Value(s) + Counted(body)
    decreases |body|
  {
    if body != [] {
      assert IsBodyLine(body[0]);
      var t := Step(s, body[0]);
      InCons(Value(t), Values(body[1..], t), v);
      if v > Value(t) {
        ValuesCover(body[1..], t, v);
      }
    }
  }

  lemma {:induction false} InCons(x: int, rest: seq<int>, v: int)
    ensures v in [x] + rest <==> v == x || v in rest
  {
  }

  predicate Shows(h: Hunk, v: int) {
    h.span.start2 <= v < h.span.start2 + h.span.size2
  }

  lemma {:induction false} HunkHasValue(base: seq<string>, head: seq<string>, h: Hunk, v: int)
    requires HunkOf(base, head, h) && NoNewline !in h.body && v >= h.span.start2
    ensures v in Values(HunkLines(h), START) <==> Shows(h, v)
  {
    hide Values, IsSliceAt, Counted, NewSide, OldSide, HunkLines;
    ValuesOfHunk(h, START);
    var b := Scan(h.span.start2, 0);
    InCons(h.span.start2 - 1, Values(h.body, b), v);
    ValuesCover(h.body, b, v);
    CountedIsNewSide(h.body);
  }

  lemma {:induction false} NewSideNotEmpty(body: seq<Line>, k: nat)
    requires k < |body| && IsNewSideLine(body[k])
    ensures NewSide(body) != []
  {
    if k > 0 {
      NewSideNotEmpty(body[1..], k - 1);
    }
  }

  // ---- There and back ----------------------------------------------------------------

  /** All of these hunks come before `h`: they carry no marker and end, on the new side, at or before it. */
  predicate EndBefore(hunks: seq<Hunk>, base: seq<string>, head: seq<string>, h: Hunk) {
    forall g <- hunks ::
      HunkOf(base, head, g) && NoNewline !in g.body && NewOffset(g.span) + g.span.size2 <= NewOffset(h.span)
  }

  lemma {:induction false} HunksBefore(base: seq<string>, head: seq<string>, hunks: seq<Hunk>, p1: nat, p2: nat, m: nat)
    requires p1 <= |base| && p2 <= |head| && m < |hunks|
    requires PatchFrom(base, head, hunks, p1, p2)
    ensures HunkOf(base, head, hunks[m]) && p2 <= NewOffset(hunks[m].span)
    ensures EndBefore(hunks[..m], base, head, hunks[m])
    decreases |hunks|
  {
    hide PatchFrom, HunkOf;
    PatchTail(base, head, hunks, p1, p2);
    if m > 0 {
      var h := hunks[0];
      NoEarlyMarker(base, head, hunks, p1, p2);
      HunksBefore(base, head, hunks[1..], OldOffset(h.span) + h.span.size1, NewOffset(h.span) + h.span.size2, m - 1);
      assert hunks[..m] == [h] + hunks[1..][..m - 1];
    }
  }

  lemma {:induction false} NoEarlyMarker(base: seq<string>, head: seq<string>, hunks: seq<Hunk>, p1: nat, p2: nat)
    requires p1 <= |base| && p2 <= |head|
    requires |hunks| > 1 && PatchFrom(base, head, hunks, p1, p2)
    ensures NoNewline !in hunks[0].body
  {
  }

  /** Some hunk shows line `v` of the new file, going by its header. */
  predicate Shown(hunks: seq<Hunk>, v: int) {
    exists g <- hunks :: Shows(g, v)
  }

  lemma {:induction false} ValuesBefore(base: seq<string>, head: seq<string>, hunks: seq<Hunk>, h: Hunk, v: int)
    requires EndBefore(hunks, base, head, h) && v >= h.span.start2
    ensures v in Values(Render(hunks), START) <==> Shown(hunks, v)
  {
    hide Values, HunkOf, HunkLines, Shows;
    if hunks == [] {
      NoValues();
    } else {
      var g, rest := hunks[0], hunks[1..];
      assert g in hunks;
      StartBelow(base, head, g, h);
      HunkHasValue(base, head, g, v);
      ValuesBefore(base, head, rest, h, v);
      RenderFirst(hunks);
      RenderStarts(rest);
      ValuesConcat(HunkLines(g), Render(rest), START);
      InConcat(v, Values(HunkLines(g), START), Values(Render(rest), START));
      assert hunks == [g] + rest;
    }
  }

  lemma {:induction false} NoValues()
    ensures Values(Render([]), START) == []
  {
  }

  lemma {:induction false} InConcat(v: int, a: seq<int>, b: seq<int>)
    ensures v in a + b <==> v in a || v in b
  {
  }

  lemma {:induction false} StartBelow(base: seq<string>, head: seq<string>, g: Hunk, h: Hunk)
    requires HunkOf(base, head, g) && NewOffset(g.span) + g.span.size2 <= NewOffset(h.span)
    ensures g.span.start2 <= h.span.start2
  {
  }

  /** The position of body line `k` of hunk number `m` in the whole patch. */
  function PositionOf(hunks: seq<Hunk>, m: nat, k: nat): nat
    requires m < |hunks|
  {
    |Render(hunks[..m])| + 1 + k
  }

  predicate IsBodyPosition(hunks: seq<Hunk>, m: nat, k: nat) {
    m < |hunks| && k < |hunks[m].body|
  }

  /** The values of the whole patch, around those of hunk number `m`. */
  lemma {:induction false} ValuesAround(hunks: seq<Hunk>, m: nat)
    requires m < |hunks|
    ensures Values(Render(hunks), START)
         == Values(Render(hunks[..m]), START)
           + (Values(HunkLines(hunks[m]), START) + Values(Render(hunks[m + 1..]), START))
    ensures Render(hunks) == Render(hunks[..m]) + (HunkLines(hunks[m]) + Render(hunks[m + 1..]))
  {
    hide Values, Render, HunkLines;
    RenderSplit(hunks, m);
    assert hunks[m..][1..] == hunks[m + 1..];
    RenderFirst(hunks[m..]);
    RenderStarts(hunks[m..]);
    RenderStarts(hunks[m + 1..]);
    ValuesConcat(Render(hunks[..m]), Render(hunks[m..]), START);
    ValuesConcat(HunkLines(hunks[m]), Render(hunks[m + 1..]), START);
  }

  lemma {:induction false} FirstInMiddle(a: seq<int>, b: seq<int>, c: seq<int>, j: nat, back: int)
    requires j < |b| && FirstValue(b, j)
    requires FirstIndexOf(a + (b + c), back, b[j])
    ensures back == |a| + j <==> b[j] !in a
  {
    var all := a + (b + c);
    assert all[|a| + j] == b[j];
    InPrefix(all, |a| + j, back);
    if b[j] in a {
      var i :| 0 <= i < |a| && a[i] == b[j];
      assert all[i] == b[j];
      InPrefix(all, i, back);
    }
  }

  lemma {:induction false} InPrefix(values: seq<int>, i: nat, n: int)
    requires i < |values|
    ensures values[i] in values
    ensures i < n <= |values| ==> values[i] in values[..n]
  {
  }

  /**
    Looking up the absolute line found at a body line that is no deletion gives back its own position if and only
    if no earlier hunk shows that line; that is so for every line of the new side, and can only fail for a
    no-newline marker behind nothing but deletions.
   */
  lemma {:induction false} PositionsAreInverseIff(base: seq<string>, head: seq<string>, hunks: seq<Hunk>, m: nat,
                                                  k: nat, back: int)
    requires PatchOf(base, head, hunks)
    requires IsBodyPosition(hunks, m, k) && !hunks[m].body[k].Deletion?
    requires PositionOf(hunks, m, k) < |Values(Render(hunks), START)|
    requires FirstIndexOf(Values(Render(hunks), START), back, Values(Render(hunks), START)[PositionOf(hunks, m, k)])
    ensures Render(hunks)[PositionOf(hunks, m, k)] == hunks[m].body[k]
    ensures back == PositionOf(hunks, m, k)
            <==> !Shown(hunks[..m], Values(Render(hunks), START)[PositionOf(hunks, m, k)])
    ensures IsNewSideLine(hunks[m].body[k]) ==> back == PositionOf(hunks, m, k)
    ensures Values(Render(hunks), START)[PositionOf(hunks, m, k)] >= 0
  {
    hide PatchFrom, Values, Render, FirstIndexOf, FirstValue, HunkOf, HunkLines;
    var h, before := hunks[m], hunks[..m];
    HunksBefore(base, head, hunks, 0, 0, m);
    BodyOfHunk(base, head, h);
    ValuesAround(hunks, m);
    FirstInHunk(h, k);
    LineOfHunk(h, k);
    var a, b, c := Values(Render(before), START), Values(HunkLines(h), START), Values(Render(hunks[m + 1..]), START);
    FirstInMiddle(a, b, c, k + 1, back);
    ValuesBefore(base, head, before, h, b[k + 1]);
    if IsNewSideLine(h.body[k]) {
      NewSideLinePastOffset(base, head, h, k);
      NotShownPast(base, head, before, h, b[k + 1]);
    }
  }

  lemma {:induction false} BodyOfHunk(base: seq<string>, head: seq<string>, h: Hunk)
    requires HunkOf(base, head, h)
    ensures IsBody(h.body) && h.span.start2 >= 0
  {
  }

  lemma {:induction false} LineOfHunk(h: Hunk, k: nat)
    requires k < |h.body|
    ensures |HunkLines(h)| == |h.body| + 1 && HunkLines(h)[k + 1] == h.body[k]
  {
  }

  lemma {:induction false} NotShownPast(base: seq<string>, head: seq<string>, hunks: seq<Hunk>, h: Hunk, v: int)
    requires EndBefore(hunks, base, head, h) && v > NewOffset(h.span)
    ensures !Shown(hunks, v)
  {
  }

  lemma {:induction false} LocateLine(hunks: seq<Hunk>, i: nat) returns (m: nat, k: nat)
    requires i < |Render(hunks)| && !Render(hunks)[i].Header?
    ensures IsBodyPosition(hunks, m, k) && PositionOf(hunks, m, k) == i && hunks[m].body[k] == Render(hunks)[i]
  {
    var h, rest := hunks[0], hunks[1..];
    assert Render(hunks) == HunkLines(h) + Render(rest);
    if i < |HunkLines(h)| {
      m, k := 0, i - 1;
      LineOfHunk(h, k);
      assert Render(hunks[..0]) == [];
    } else {
      m, k := LocateLine(rest, i - |HunkLines(h)|);
      assert hunks[..m + 1][1..] == rest[..m];
      assert Render(hunks[..m + 1]) == HunkLines(h) + Render(rest[..m]);
      m := m + 1;
    }
  }

  /** Both lookups in sequence, on the text of a whole patch. */
  method RoundTrip(hunks: seq<Hunk>, matches: Line -> bool, withoutPlus: Option<Line -> bool>,
                   ghost base: seq<string>, ghost head: seq<string>)
    returns (there: Result<(int, int)>, back: Result<int>)
    requires PatchOf(base, head, hunks)
    ensures there.Ok? && back.Ok?
    ensures 0 <= there.value.0 < |Render(hunks)| && IsNewSideLine(Render(hunks)[there.value.0]) ==>
            back.value == there.value.0
    ensures forall m: nat, k: nat | IsBodyPosition(hunks, m, k) && PositionOf(hunks, m, k) == there.value.0 ::
              back.value == there.value.0 <==> !Shown(hunks[..m], there.value.1)
  {
    hide Render, Values, PatchFrom, Shown, FirstIndexOf;
    var lines := Render(hunks);
    RenderedIsReadable(base, head, hunks, 0, 0);
    there := FindLine(lines, matches, withoutPlus);
    back := FindByAbsolute(lines, there.value.1);
    RenderStarts(hunks);
    forall m: nat, k: nat | IsBodyPosition(hunks, m, k) && PositionOf(hunks, m, k) == there.value.0
      ensures back.value == there.value.0 <==> !Shown(hunks[..m], there.value.1)
    {
      ValuesAround(hunks, m);
      LineOfHunk(hunks[m], k);
      PositionsAreInverseIff(base, head, hunks, m, k, back.value);
    }
    if 0 <= there.value.0 < |lines| && IsNewSideLine(lines[there.value.0]) {
      ghost var m, k := LocateLine(hunks, there.value.0);
      PositionsAreInverseIff(base, head, hunks, m, k, back.value);
    }
  }

  lemma {:induction false} RenderedIsReadable(base: seq<string>, head: seq<string>, hunks: seq<Hunk>, p1: nat, p2: nat)
    requires p1 <= |base| && p2 <= |head|
    requires PatchFrom(base, head, hunks, p1, p2)
    ensures forall l <- Render(hunks) :: !l.Malformed? && !l.Blank?
    decreases |hunks|
  {
    hide PatchFrom, IsSliceAt;
    if hunks != [] {
      var h := hunks[0];
      PatchTail(base, head, hunks, p1, p2);
      RenderedIsReadable(base, head, hunks[1..], OldOffset(h.span) + h.span.size1, NewOffset(h.span) + h.span.size2);
      assert forall l <- h.body :: IsBodyLine(l);
    }
  }

  // ---- Whether the absolute line is the true one -----------------------------------

  /** The new-side line at body line `k` is the line its hunk header counts to. */
  lemma {:induction false} TrueLine(base: seq<string>, head: seq<string>, h: Hunk, k: nat)
    requires HunkOf(base, head, h) && k < |h.body| && IsNewSideLine(h.body[k])
    ensures IsLine(head, h.span.start2 + |NewSide(h.body[..k])|, TextOf(h.body[k]))
  {
    hide NewSide, OldSide;
    NewSideNotEmpty(h.body, k);
    NewSideAt(h.body, k);
    SliceIsLine(head, h.span.start2, NewSide(h.body), |NewSide(h.body[..k])|);
  }

  lemma {:induction false} NewSideAt(body: seq<Line>, k: nat)
    requires k < |body| && IsNewSideLine(body[k])
    ensures |NewSide(body[..k])| < |NewSide(body)| && NewSide(body)[|NewSide(body[..k])|] == TextOf(body[k])
  {
    hide NewSide, OldSide;
    var before, from := body[..k], body[k..];
    assert body == before + from;
    SidesOfConcat(before, from);
    NewSideStarts(from);
  }

  lemma {:induction false} NewSideStarts(body: seq<Line>)
    requires body != [] && IsNewSideLine(body[0])
    ensures NewSide(body) != [] && NewSide(body)[0] == TextOf(body[0])
  {
  }

  /** The value at body line `k` counts the lines up to it, markers included. */
  lemma {:induction false} ValueAt(h: Hunk, k: nat)
    requires IsBody(h.body) && k < |h.body| && IsNewSideLine(h.body[k])
    ensures Values(HunkLines(h), START)[k + 1] == h.span.start2 + Counted(h.body[..k])
  {
    hide Values, HunkLines;
    ValuesOfHunk(h, START);
    ValuesOfBody(h.body, Scan(h.span.start2, 0), k);
    assert h.body[..k + 1] == h.body[..k] + [h.body[k]];
    CountedConcat(h.body[..k], [h.body[k]]);
  }

  /** The value at body line `k` is its true line number exactly when no no-newline marker precedes it in the hunk. */
  lemma {:induction false} AbsoluteIsTrueIff(base: seq<string>, head: seq<string>, h: Hunk, k: nat)
    requires HunkOf(base, head, h) && k < |h.body| && IsNewSideLine(h.body[k])
    ensures var n := h.span.start2 + |NewSide(h.body[..k])|;
      && IsLine(head, n, TextOf(h.body[k]))
      && (Values(HunkLines(h), START)[k + 1] == n <==> NoNewline !in h.body[..k])
  {
    hide Values, NewSide, OldSide, Counted, IsSliceAt, HunkLines;
    TrueLine(base, head, h, k);
    ValueAt(h, k);
    assert forall l <- h.body[..k] :: IsBodyLine(l);
    CountedIsNewSide(h.body[..k]);
  }

  lemma {:induction false} CountedConcat(a: seq<Line>, b: seq<Line>)
    ensures Counted(a + b) == Counted(a) + Counted(b)
  {
    if a == [] {
      assert a + b == b;
    } else {
      assert (a + b)[0] == a[0] && (a + b)[1..] == a[1..] + b;
      CountedConcat(a[1..], b);
    }
  }
}
