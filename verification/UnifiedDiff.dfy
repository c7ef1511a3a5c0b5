/**
  Unified diffs as the readers and rewriters see them: patch text already split
  into lines, each line classified by how it starts.  One well-formedness
  predicate, PatchOf, says that a list of hunks turns one file into another; it
  follows the POSIX.1-2017 `diff` utility, STDOUT, "Diff -u or -U Output Format".
 */
module UnifiedDiff {
  import opened Basics

  /** The four numbers of a hunk header. A header read from text has no negative number. */
  datatype Span = Span(start1: int, size1: int, start2: int, size2: int)

  datatype Line =
    | Header(span: Span, section: string)
    | Context(text: string)
    | Addition(text: string)
    | Deletion(text: string)
    | NoNewline                // "\ No newline at end of file"
    | Blank                    // an empty line of patch text
    | Malformed(text: string)  // starts with "@@" but is no hunk header
    | Other(text: string)      // any other first character

  datatype Hunk = Hunk(span: Span, section: string, body: seq<Line>)

  function HeaderOf(h: Hunk): Line {
    Header(h.span, h.section)
  }

  /** The first line after a header is looked at by one of the readers. */
  function First(lines: seq<Line>): Option<Line> {
    if lines == [] then None else Some(lines[0])
  }

  predicate IsBodyLine(l: Line) {
    l.Context? || l.Addition? || l.Deletion? || l.NoNewline?
  }

  predicate IsBody(lines: seq<Line>) {
    forall l <- lines :: IsBodyLine(l)
  }

  /** What one line shows of the old file. */
  function OldPart(l: Line): seq<string> {
    if l.Context? || l.Deletion? then [l.text] else []
  }

  /** What one line shows of the new file. */
  function NewPart(l: Line): seq<string> {
    if l.Context? || l.Addition? then [l.text] else []
  }

  /** The lines a hunk body shows of the old file. */
  function OldSide(body: seq<Line>): seq<string> {
    if body == [] then [] else OldPart(body[0]) + OldSide(body[1..])
  }

  /** The lines a hunk body shows of the new file. */
  function NewSide(body: seq<Line>): seq<string> {
    if body == [] then [] else NewPart(body[0]) + NewSide(body[1..])
  }

  function AsContext(texts: seq<string>): (lines: seq<Line>)
    ensures |lines| == |texts|
    ensures IsBody(lines)
  {
    seq(|texts|, i requires 0 <= i < |texts| => Context(texts[i]))
  }

  /** The patch text of a list of hunks; `spaced` puts an empty line before every header. */
  function Render(hunks: seq<Hunk>, spaced: bool := false): seq<Line> {
    if hunks == [] then []
    else (if spaced then [Blank] else []) + [HeaderOf(hunks[0])] + hunks[0].body + Render(hunks[1..], spaced)
  }

  function HunkLines(h: Hunk): seq<Line> {
    [HeaderOf(h)] + h.body
  }

  lemma {:induction false} RenderFirst(hunks: seq<Hunk>)
    requires hunks != []
    ensures Render(hunks) == HunkLines(hunks[0]) + Render(hunks[1..])
  {
  }

  lemma {:induction false} RenderStarts(hunks: seq<Hunk>)
    ensures Render(hunks) == [] || Render(hunks)[0].Header?
  {
  }

  lemma {:induction false} RenderSplit(hunks: seq<Hunk>, m: nat)
    requires m <= |hunks|
    ensures Render(hunks) == Render(hunks[..m]) + Render(hunks[m..])
  {
    hide Render;
    if m == 0 {
      assert hunks[..0] == [] && hunks[0..] == hunks;
      AppendStep(Render(hunks), [], []);
      NothingRendered();
    } else {
      var rest := hunks[1..];
      RenderSplit(rest, m - 1);
      RenderFirst(hunks);
      RenderFirst(hunks[..m]);
      assert hunks[..m][1..] == rest[..m - 1] && hunks[m..] == rest[m - 1..];
      AppendStep(HunkLines(hunks[0]), Render(rest[..m - 1]), Render(hunks[m..]));
    }
  }

  lemma {:induction false} NothingRendered()
    ensures Render([]) == []
  {
  }

  predicate Contains(line: string, part: string) {
    exists i | 0 <= i <= |line| :: part <= line[i..]
  }

  predicate Bodies(hunks: seq<Hunk>) {
    forall h <- hunks :: IsBody(h.body)
  }

  /** How many old lines precede the hunk: a zero-sized side names the line before it. */
  function OldOffset(s: Span): int {
    if s.size1 == 0 then s.start1 else s.start1 - 1
  }

  function NewOffset(s: Span): int {
    if s.size2 == 0 then s.start2 else s.start2 - 1
  }

  /** `part` is what `whole` holds from `offset` on. */
  predicate IsSliceAt(whole: seq<string>, offset: int, part: seq<string>) {
    0 <= offset <= offset + |part| <= |whole| && whole[offset..offset + |part|] == part
  }

  predicate SizesExact(h: Hunk) {
    |OldSide(h.body)| == h.span.size1 && |NewSide(h.body)| == h.span.size2
  }

  predicate HunkOf(base: seq<string>, head: seq<string>, h: Hunk) {
    && IsBody(h.body)
    && SizesExact(h)
    && IsSliceAt(base, OldOffset(h.span), OldSide(h.body))
    && IsSliceAt(head, NewOffset(h.span), NewSide(h.body))
  }

  /** The hunks turn base[p1..] into head[p2..]; only the last may carry the no-newline marker. */
  predicate PatchFrom(base: seq<string>, head: seq<string>, hunks: seq<Hunk>, p1: nat, p2: nat)
    requires p1 <= |base| && p2 <= |head|
    decreases |hunks|
  {
    if hunks == [] then base[p1..] == head[p2..]
    else
      var h := hunks[0];
      && HunkOf(base, head, h)
      && p1 <= OldOffset(h.span) && p2 <= NewOffset(h.span)
      && base[p1..OldOffset(h.span)] == head[p2..NewOffset(h.span)]
      && (|hunks| > 1 ==> NoNewline !in h.body)
      && PatchFrom(base, head, hunks[1..], OldOffset(h.span) + h.span.size1, NewOffset(h.span) + h.span.size2)
  }

  predicate PatchOf(base: seq<string>, head: seq<string>, hunks: seq<Hunk>) {
    PatchFrom(base, head, hunks, 0, 0)
  }

  /** What applying the hunks to base[p1..] produces: the reference meaning of a patch. */
  function Apply(base: seq<string>, hunks: seq<Hunk>, p1: nat): seq<string>
    requires p1 <= |base|
    decreases |hunks|
  {
    if hunks == [] then base[p1..]
    else
      var h := hunks[0];
      var at := OldOffset(h.span);
      if p1 <= at && 0 <= h.span.size1 && at + h.span.size1 <= |base|
      then base[p1..at] + NewSide(h.body) + Apply(base, hunks[1..], at + h.span.size1)
      else []
  }

  lemma {:induction false} PatchTail(base: seq<string>, head: seq<string>, hunks: seq<Hunk>, p1: nat, p2: nat)
    requires p1 <= |base| && p2 <= |head| && hunks != []
    requires PatchFrom(base, head, hunks, p1, p2)
    ensures HunkOf(base, head, hunks[0])
    ensures p1 <= OldOffset(hunks[0].span) <= OldOffset(hunks[0].span) + hunks[0].span.size1 <= |base|
    ensures p2 <= NewOffset(hunks[0].span) <= NewOffset(hunks[0].span) + hunks[0].span.size2 <= |head|
    ensures base[p1..OldOffset(hunks[0].span)] == head[p2..NewOffset(hunks[0].span)]
    ensures PatchFrom(base, head, hunks[1..], OldOffset(hunks[0].span) + hunks[0].span.size1,
                      NewOffset(hunks[0].span) + hunks[0].span.size2)
  {
  }

  lemma {:induction false} PatchEnd(base: seq<string>, head: seq<string>, p1: nat, p2: nat)
    requires p1 <= |base| && p2 <= |head|
    requires PatchFrom(base, head, [], p1, p2)
    ensures base[p1..] == head[p2..]
  {
  }

  lemma {:induction false} NewSideOfHunk(base: seq<string>, head: seq<string>, h: Hunk)
    requires HunkOf(base, head, h)
    ensures 0 <= NewOffset(h.span) <= NewOffset(h.span) + h.span.size2 <= |head|
    ensures NewSide(h.body) == head[NewOffset(h.span)..NewOffset(h.span) + h.span.size2]
    ensures 0 <= h.span.size1
  {
  }

  lemma {:induction false} CutInThree<T>(s: seq<T>, i: nat, j: nat, k: nat)
    requires i <= j <= k <= |s|
    ensures s[i..] == s[i..j] + s[j..k] + s[k..]
  {
  }

  lemma {:induction false} PatchApplies(base: seq<string>, head: seq<string>, hunks: seq<Hunk>, p1: nat, p2: nat)
    requires p1 <= |base| && p2 <= |head|
    requires PatchFrom(base, head, hunks, p1, p2)
    ensures Apply(base, hunks, p1) == head[p2..]
    decreases |hunks|
  {
    hide PatchFrom, HunkOf, OldSide, NewSide, OldOffset, NewOffset;
    if hunks == [] {
      PatchEnd(base, head, p1, p2);
    } else {
      var h := hunks[0];
      var a, b := OldOffset(h.span), NewOffset(h.span);
      PatchTail(base, head, hunks, p1, p2);
      NewSideOfHunk(base, head, h);
      PatchApplies(base, head, hunks[1..], a + h.span.size1, b + h.span.size2);
      CutInThree(head, p2, b, b + h.span.size2);
    }
  }

  lemma {:induction false} SidesOfConcat(a: seq<Line>, b: seq<Line>)
    ensures OldSide(a + b) == OldSide(a) + OldSide(b)
    ensures NewSide(a + b) == NewSide(a) + NewSide(b)
  {
    hide OldPart, NewPart;
    if a == [] {
      assert a + b == b;
    } else {
      var rest := a[1..];
      assert (a + b)[0] == a[0] && (a + b)[1..] == rest + b;
      SidesOfConcat(rest, b);
      AppendStep(OldPart(a[0]), OldSide(rest), OldSide(b));
      AppendStep(NewPart(a[0]), NewSide(rest), NewSide(b));
    }
  }

  lemma {:induction false} SidesOfContext(texts: seq<string>)
    ensures OldSide(AsContext(texts)) == texts
    ensures NewSide(AsContext(texts)) == texts
  {
    if texts != [] {
      assert AsContext(texts)[1..] == AsContext(texts[1..]);
      SidesOfContext(texts[1..]);
      assert texts == [texts[0]] + texts[1..];
    }
  }

  lemma {:induction false} BodyConcat(a: seq<Line>, b: seq<Line>)
    requires IsBody(a) && IsBody(b)
    ensures IsBody(a + b)
  {
  }
}
