/**
  Reading back what the numbering printed: the entries fall into blocks, one a
  hunk, each with its header, its numbered new side and its old side.  The reader
  knows nothing of how they were printed.
 */
module NumberedBlocks {
  import opened Basics
  import opened UnifiedDiff
  import opened PatchNumbering

  /** One printed hunk; a side is absent if it has no mark of its own. */
  datatype Block = Block(header: Line, news: Option<seq<(int, Line)>>, olds: Option<seq<Line>>)

  /** The blocks in order, if the entries are well formed: header, new side, old side. */
  function ReadFrom(entries: seq<Entry>, open: Option<Block>): Option<seq<Block>>
    decreases |entries|
  {
    if entries == [] then Some(Finish(open))
    else
      var rest := entries[1..];
      match entries[0]
      case HunkHeader(h) => After(Finish(open), ReadFrom(rest, Some(Block(h, None, None))))
      case NewHunkMark =>
        if open.Some? && open.value.news.None? && open.value.olds.None?
        then ReadFrom(rest, Some(open.value.(news := Some([])))) else None
      case Numbered(n, l) =>
        if open.Some? && open.value.news.Some? && open.value.olds.None?
        then ReadFrom(rest, Some(open.value.(news := Some(open.value.news.value + [(n, l)])))) else None
      case OldHunkMark =>
        if open.Some? && open.value.olds.None? then ReadFrom(rest, Some(open.value.(olds := Some([])))) else None
      case OldLine(l) =>
        if open.Some? && open.value.olds.Some?
        then ReadFrom(rest, Some(open.value.(olds := Some(open.value.olds.value + [l])))) else None
  }

  function Finish(open: Option<Block>): seq<Block> {
    if open.Some? then [open.value] else []
  }

  function After(done: seq<Block>, rest: Option<seq<Block>>): Option<seq<Block>> {
    if rest.Some? then Some(done + rest.value) else None
  }

  function ReadBlocks(entries: seq<Entry>): Option<seq<Block>> {
    ReadFrom(entries, None)
  }

  /** Whether the block shows the hunk: both of its sides if it deletes, the new one if it only adds. */
  predicate Fits(b: Block, h: Hunk) {
    && b.header == Header(h.span, h.section)
    && (b.news.Some? <==> exists l <- h.body :: l.Addition? || l.Deletion?)
    && (b.news.Some? ==> ShowsNew(b.news.value, h))
    && (b.olds.Some? <==> exists l <- h.body :: l.Deletion?)
    && (b.olds.Some? ==> ShowsOld(b.olds.value, h))
  }

  /** The lines are those of the new side, numbered from the start in the header. */
  predicate ShowsNew(news: seq<(int, Line)>, h: Hunk) {
    && |news| == |NewSide(h.body)|
    && forall k | 0 <= k < |news| ::
         && news[k].0 == h.span.start2 + k && news[k].1 in h.body
         && NewPart(news[k].1) == [NewSide(h.body)[k]]
  }

  predicate ShowsOld(olds: seq<Line>, h: Hunk) {
    && |olds| == |OldSide(h.body)|
    && forall k | 0 <= k < |olds| :: olds[k] in h.body && OldPart(olds[k]) == [OldSide(h.body)[k]]
  }

  /** The hunks that are printed: a hunk that shows a line, but the last only if it shows a new one. */
  function PrintedHunks(hunks: seq<Hunk>): seq<Hunk> {
    if hunks == [] then []
    else
      var h := hunks[0];
      (if NewSide(h.body) != [] || (|hunks| > 1 && OldSide(h.body) != []) then [h] else []) + PrintedHunks(hunks[1..])
  }

  predicate AllFit(blocks: seq<Block>, hunks: seq<Hunk>) {
    |blocks| == |hunks| && forall i | 0 <= i < |hunks| :: Fits(blocks[i], hunks[i])
  }

  // ---- Reading one printed hunk ------------------------------------------------------------

  function Pairs(start: int, lines: seq<Line>): (r: seq<(int, Line)>)
    ensures |r| == |lines| && forall k | 0 <= k < |r| :: r[k] == (start + k, lines[k])
    decreases |lines|
  {
    if lines == [] then [] else [(start, lines[0])] + Pairs(start + 1, lines[1..])
  }

  lemma {:induction false} ReadNumbers(start: int, lines: seq<Line>, rest: seq<Entry>, header: Line,
                                       before: seq<(int, Line)>)
    ensures ReadFrom(NumberLines(start, lines) + rest, Some(Block(header, Some(before), None)))
         == ReadFrom(rest, Some(Block(header, Some(before + Pairs(start, lines)), None)))
    decreases |lines|
  {
    if lines == [] {
      assert NumberLines(start, lines) + rest == rest && before + Pairs(start, lines) == before;
    } else {
      var tail := NumberLines(start + 1, lines[1..]) + rest;
      assert NumberLines(start, lines) + rest == [Numbered(start, lines[0])] + tail;
      assert ([Numbered(start, lines[0])] + tail)[1..] == tail;
      ReadNumbers(start + 1, lines[1..], rest, header, before + [(start, lines[0])]);
      AppendStep(before, [(start, lines[0])], Pairs(start + 1, lines[1..]));
    }
  }

  lemma {:induction false} ReadOlds(lines: seq<Line>, rest: seq<Entry>, header: Line, news: Option<seq<(int, Line)>>,
                                    before: seq<Line>)
    ensures ReadFrom(OldEntries(lines) + rest, Some(Block(header, news, Some(before))))
         == ReadFrom(rest, Some(Block(header, news, Some(before + lines))))
    decreases |lines|
  {
    if lines == [] {
      assert OldEntries(lines) + rest == rest && before + lines == before;
    } else {
      var tail := OldEntries(lines[1..]) + rest;
      assert OldEntries(lines) + rest == [OldLine(lines[0])] + tail;
      assert ([OldLine(lines[0])] + tail)[1..] == tail;
      ReadOlds(lines[1..], rest, header, news, before + [lines[0]]);
      AppendStep(before, [lines[0]], lines[1..]);
      assert [lines[0]] + lines[1..] == lines;
    }
  }

  function BlockOf(o: Open): Block
    requires o.header.Some?
  {
    Block(o.header.value,
          if HasAddition(o.news) || HasDeletion(o.olds) then Some(Pairs(StartOf(o.header), o.news)) else None,
          if HasDeletion(o.olds) then Some(o.olds) else None)
  }

  lemma {:induction false} ReadPrinted(o: Open, rest: seq<Entry>, open: Option<Block>)
    requires o.header.Some?
    ensures ReadFrom(Printed(o) + rest, open) == After(Finish(open), ReadFrom(rest, Some(BlockOf(o))))
  {
    hide NumberLines, OldEntries, Pairs;
    var h := o.header.value;
    var newPart :=
      if HasAddition(o.news) || HasDeletion(o.olds) then [NewHunkMark] + NumberLines(StartOf(o.header), o.news)
                   else [];
    var oldPart := if HasDeletion(o.olds) then [OldHunkMark] + OldEntries(o.olds) else [];
    assert Printed(o) + rest == [HunkHeader(h)] + (newPart + (oldPart + rest));
    ReadHeader(h, newPart + (oldPart + rest), open);
    ReadNewPart(o, h, oldPart + rest);
    ReadOldPart(o, h, if newPart == [] then None else Some(Pairs(StartOf(o.header), o.news)), rest);
  }

  lemma {:induction false} ReadHeader(h: Line, rest: seq<Entry>, open: Option<Block>)
    ensures ReadFrom([HunkHeader(h)] + rest, open) == After(Finish(open), ReadFrom(rest, Some(Block(h, None, None))))
  {
    assert ([HunkHeader(h)] + rest)[1..] == rest;
  }

  lemma {:induction false} ReadNewPart(o: Open, h: Line, rest: seq<Entry>)
    ensures var shown := HasAddition(o.news) || HasDeletion(o.olds);
      ReadFrom((if shown then [NewHunkMark] + NumberLines(StartOf(o.header), o.news) else []) + rest,
               Some(Block(h, None, None)))
      == ReadFrom(rest, Some(Block(h, if shown then Some(Pairs(StartOf(o.header), o.news)) else None, None)))
  {
    hide NumberLines, Pairs;
    if HasAddition(o.news) || HasDeletion(o.olds) {
      var numbers := NumberLines(StartOf(o.header), o.news) + rest;
      assert [NewHunkMark] + NumberLines(StartOf(o.header), o.news) + rest == [NewHunkMark] + numbers;
      assert ([NewHunkMark] + numbers)[1..] == numbers;
      ReadNumbers(StartOf(o.header), o.news, rest, h, []);
      assert [] + Pairs(StartOf(o.header), o.news) == Pairs(StartOf(o.header), o.news);
    } else {
      assert [] + rest == rest;
    }
  }

  lemma {:induction false} ReadOldPart(o: Open, h: Line, news: Option<seq<(int, Line)>>, rest: seq<Entry>)
    ensures ReadFrom((if HasDeletion(o.olds) then [OldHunkMark] + OldEntries(o.olds) else []) + rest,
                     Some(Block(h, news, None)))
         == ReadFrom(rest, Some(Block(h, news, if HasDeletion(o.olds) then Some(o.olds) else None)))
  {
    hide OldEntries;
    if HasDeletion(o.olds) {
      var olds := OldEntries(o.olds) + rest;
      assert [OldHunkMark] + OldEntries(o.olds) + rest == [OldHunkMark] + olds;
      assert ([OldHunkMark] + olds)[1..] == olds;
      ReadOlds(o.olds, rest, h, news, []);
      assert [] + o.olds == o.olds;
    } else {
      assert [] + rest == rest;
    }
  }

  // ---- All hunks ------------------------------------------------------------------------------

  lemma {:induction false} OldLinesAreOldSide(body: seq<Line>)
    ensures |OldLines(body)| == |OldSide(body)|
    ensures forall k | 0 <= k < |OldLines(body)| ::
      OldLines(body)[k] in body && OldPart(OldLines(body)[k]) == [OldSide(body)[k]]
  {
    if body != [] {
      OldLinesAreOldSide(body[1..]);
      assert body == [body[0]] + body[1..];
    }
  }

  lemma {:induction false} NewLinesShow(body: seq<Line>)
    ensures |NewLines(body)| == |NewSide(body)|
    ensures forall k | 0 <= k < |NewLines(body)| ::
      NewLines(body)[k] in body && NewPart(NewLines(body)[k]) == [NewSide(body)[k]]
  {
    if body != [] {
      NewLinesShow(body[1..]);
      assert body == [body[0]] + body[1..];
    }
  }

  lemma {:induction false} BlockFits(h: Hunk)
    ensures Fits(BlockOf(OpenOf(h)), h)
  {
    hide NewSide, OldSide, NewLines, OldLines;
    NewLinesShow(h.body);
    OldLinesAreOldSide(h.body);
    LinesOfSides(h.body);
    NewLinesAreNewSide(h.body);
  }

  lemma {:induction false} ReadHunks(hunks: seq<Hunk>, open: Option<Block>)
    ensures var r := ReadFrom(Entries(hunks), open);
      && r.Some? && |r.value| >= |Finish(open)| && r.value[..|Finish(open)|] == Finish(open)
      && AllFit(r.value[|Finish(open)|..], PrintedHunks(hunks))
    decreases |hunks|
  {
    hide Printed, Fits, NewLines, OldLines, NewSide, OldSide, BlockOf;
    if hunks == [] {
      assert Finish(open)[|Finish(open)|..] == [];
    } else {
      var h, rest := hunks[0], hunks[1..];
      NewLinesShow(h.body);
      OldLinesAreOldSide(h.body);
      BlockFits(h);
      if NewSide(h.body) != [] || (|hunks| > 1 && OldSide(h.body) != []) {
        ReadPrinted(OpenOf(h), Entries(rest), open);
        ReadHunks(rest, Some(BlockOf(OpenOf(h))));
        var r := ReadFrom(Entries(rest), Some(BlockOf(OpenOf(h)))).value;
        ConsFits(Finish(open), r, BlockOf(OpenOf(h)), h, PrintedHunks(rest));
      } else {
        assert [] + Entries(rest) == Entries(rest);
        ReadHunks(rest, open);
        assert [] + PrintedHunks(rest) == PrintedHunks(rest);
      }
    }
  }

  lemma {:induction false} ConsFits(done: seq<Block>, r: seq<Block>, b: Block, h: Hunk, hunks: seq<Hunk>)
    requires Fits(b, h) && |r| >= 1 && r[..1] == [b] && AllFit(r[1..], hunks)
    ensures (done + r)[..|done|] == done && AllFit((done + r)[|done|..], [h] + hunks)
  {
    hide Fits;
    assert (done + r)[|done|..] == r;
    assert r[0] == r[..1][0];
    forall i | 0 <= i < |r| ensures Fits(r[i], ([h] + hunks)[i]) {
      if i > 0 {
        assert r[i] == r[1..][i - 1] && ([h] + hunks)[i] == hunks[i - 1];
      }
    }
  }

  /**
    Numbering the text of a hunk list prints well-formed blocks, one for each hunk that is printed and in their
    order: its header, its new side numbered from the start if it changes anything, and its old side if it deletes.
   */
  lemma {:induction false} BlocksOfRendered(hunks: seq<Hunk>, spaced: bool)
    requires Bodies(hunks) && NothingSkipped(hunks)
    ensures var printed := Number(Render(hunks, spaced));
      && printed.Ok? && ReadBlocks(printed.value).Some?
      && AllFit(ReadBlocks(printed.value).value, PrintedHunks(hunks))
  {
    hide Number, Render, Entries, PrintedHunks, AllFit, ReadFrom, NothingSkipped;
    NumberOfRendered(hunks, spaced);
    ReadHunks(hunks, None);
    var r := ReadFrom(Entries(hunks), None).value;
    assert r[0..] == r;
  }

  // ---- Lines that mention the no-newline phrase ---------------------------------------------

  const SMALL := "no newline at end of file"
  const CAPITAL := "NO NEWLINE AT END OF FILE"

  /** Somewhere in the text the phrase stands, letter by letter small or capital. */
  predicate HasPhrase(text: string) {
    exists i | 0 <= i <= |text| - 25 :: PhraseAt(text, i)
  }

  predicate PhraseAt(text: string, i: int) {
    0 <= i <= |text| - 25 && forall k | 0 <= k < 25 :: text[i + k] == SMALL[k] || text[i + k] == CAPITAL[k]
  }

  lemma {:induction false} Letters()
    ensures |SMALL| == |CAPITAL| == |PHRASE| == 25
    ensures forall k | 0 <= k < 25 :: LowerChar(SMALL[k]) == PHRASE[k] && LowerChar(CAPITAL[k]) == PHRASE[k]
    ensures forall k | 0 <= k < 25 :: PHRASE[k] == ' ' || 'a' <= PHRASE[k] <= 'z'
  {
    SmallLetters();
    CapitalLetters();
  }

  lemma {:induction false} SmallLetters()
    ensures SMALL == PHRASE && |PHRASE| == 25
    ensures forall k | 0 <= k < 25 :: PHRASE[k] == ' ' || 'a' <= PHRASE[k] <= 'z'
  {
  }

  lemma {:induction false} CapitalLetters()
    ensures |CAPITAL| == |PHRASE| == 25
    ensures forall k | 0 <= k < 25 :: LowerChar(CAPITAL[k]) == PHRASE[k]
  {
    assert Lower(CAPITAL) == PHRASE;
    assert forall k | 0 <= k < 25 :: Lower(CAPITAL)[k] == LowerChar(CAPITAL[k]);
  }

  lemma {:induction false} LetterIff(c: char, small: char, capital: char, p: char)
    requires LowerChar(small) == p && LowerChar(capital) == p && small == p && (p == ' ' || 'a' <= p <= 'z')
    requires p == ' ' ==> capital == ' '
    requires p != ' ' ==> capital != p
    ensures LowerChar(c) == p <==> c == small || c == capital
  {
  }

  lemma {:induction false} Capitals()
    ensures forall k | 0 <= k < 25 ::
      (PHRASE[k] == ' ' <==> CAPITAL[k] == ' ') && (PHRASE[k] != ' ' ==> CAPITAL[k] != PHRASE[k])
  {
  }

  lemma {:induction false} PhraseAtIff(text: string, i: nat)
    requires i <= |text|
    ensures PHRASE <= Lower(text)[i..] <==> PhraseAt(text, i)
  {
    Letters();
    Capitals();
    assert |Lower(text)[i..]| == |text| - i;
    if i <= |text| - 25 {
      forall k | 0 <= k < 25
        ensures Lower(text)[i..][k] == PHRASE[k] <==> text[i + k] == SMALL[k] || text[i + k] == CAPITAL[k]
      {
        LetterIff(text[i + k], SMALL[k], CAPITAL[k], PHRASE[k]);
      }
      PrefixIff(PHRASE, Lower(text)[i..]);
    }
  }

  lemma {:induction false} PrefixIff(a: string, b: string)
    ensures a <= b <==> |a| <= |b| && forall k | 0 <= k < |a| :: b[k] == a[k]
  {
    if |a| <= |b| && forall k | 0 <= k < |a| :: b[k] == a[k] {
      assert b[..|a|] == a;
    }
  }

  lemma {:induction false} MentionsPhraseIff(text: string)
    ensures MentionsPhrase(text) <==> HasPhrase(text)
  {
    hide PhraseAt, Lower;
    LowerLength(text);
    forall i | 0 <= i <= |text| ensures PHRASE <= Lower(text)[i..] <==> PhraseAt(text, i) {
      PhraseAtIff(text, i);
    }
    PhraseLength(text);
  }

  lemma {:induction false} LowerLength(text: string)
    ensures |Lower(text)| == |text|
  {
  }

  lemma {:induction false} PhraseLength(text: string)
    ensures forall i :: PhraseAt(text, i) ==> 0 <= i <= |text| - 25
  {
  }

  /** The body without the lines that mention the phrase; the marker itself shows nothing anyway. */
  function Cleaned(body: seq<Line>): seq<Line> {
    if body == [] then []
    else (if !body[0].NoNewline? && HasPhrase(TextOf(body[0])) then [] else [body[0]]) + Cleaned(body[1..])
  }

  function CleanedAll(hunks: seq<Hunk>): (r: seq<Hunk>)
    ensures |r| == |hunks|
  {
    if hunks == [] then [] else [hunks[0].(body := Cleaned(hunks[0].body))] + CleanedAll(hunks[1..])
  }

  lemma {:induction false} CleanedBody(body: seq<Line>)
    requires IsBody(body)
    ensures IsBody(Cleaned(body)) && forall l <- Cleaned(body) :: l.NoNewline? || !Skipped(l)
  {
    hide HasPhrase, MentionsPhrase;
    if body != [] {
      assert IsBodyLine(body[0]);
      assert forall l <- body[1..] :: l in body;
      MentionsPhraseIff(TextOf(body[0]));
      CleanedBody(body[1..]);
    }
  }

  lemma {:induction false} NumberSkipsLine(l: Line, rest: seq<Line>, o: Open)
    requires IsBodyLine(l)
    ensures Skipped(l) ==> NumberFrom([l] + rest, false, o) == NumberFrom(rest, false, o)
    ensures !Skipped(l) ==> NumberFrom([l] + rest, false, o) == NumberFrom(rest, false, Collect(o, l))
  {
    hide Skipped;
    assert ([l] + rest)[1..] == rest;
  }

  lemma {:induction false} CleanedCons(l: Line, more: seq<Line>, rest: seq<Line>)
    ensures Cleaned([l] + more) + rest
         == if !l.NoNewline? && HasPhrase(TextOf(l)) then Cleaned(more) + rest else [l] + (Cleaned(more) + rest)
  {
    hide HasPhrase;
    assert ([l] + more)[0] == l && ([l] + more)[1..] == more;
  }

  lemma {:induction false} NumberCleaned(body: seq<Line>, rest: seq<Line>, o: Open)
    requires IsBody(body)
    ensures NumberFrom(body + rest, false, o) == NumberFrom(Cleaned(body) + rest, false, o)
    decreases |body|
  {
    hide NumberFrom, Skipped, HasPhrase, Collect, Cleaned;
    if body == [] {
      NothingCleaned(rest);
    } else {
      var l, more := body[0], body[1..];
      assert IsBodyLine(l) && forall m <- more :: m in body;
      assert body == [l] + more && body + rest == [l] + (more + rest);
      SkippedIff(l);
      CleanedCons(l, more, rest);
      NumberSkipsLine(l, more + rest, o);
      NumberSkipsLine(l, Cleaned(more) + rest, o);
      NumberCleaned(more, rest, if Skipped(l) then o else Collect(o, l));
    }
  }

  lemma {:induction false} NothingCleaned(rest: seq<Line>)
    ensures [] + rest == rest && Cleaned([]) + rest == rest
  {
  }

  lemma {:induction false} SkippedIff(l: Line)
    requires IsBodyLine(l)
    ensures Skipped(l) <==> l.NoNewline? || HasPhrase(TextOf(l))
  {
    hide HasPhrase, MentionsPhrase;
    MentionsPhraseIff(TextOf(l));
  }

  /** Lines that mention the phrase, in any mixture of small and capital letters, are left out of what is printed. */
  lemma {:induction false} MentionsAreLeftOut(hunks: seq<Hunk>, spaced: bool)
    requires Bodies(hunks) && forall h <- hunks :: !HasPhrase(h.section)
    ensures Number(Render(hunks, spaced)) == Number(Render(CleanedAll(hunks), spaced))
    ensures Bodies(CleanedAll(hunks)) && NothingSkipped(CleanedAll(hunks))
  {
    hide Number, NumberFrom, Skipped, HasPhrase, NothingSkipped, Bodies, Render, StartOf;
    CleanedHunks(hunks);
    if hunks != [] {
      NumberFromStart(hunks, spaced);
      NumberFromStart(CleanedAll(hunks), spaced);
      NumberCleanedAll(hunks, spaced, if spaced then Open(None, [Blank], [Blank]) else Open(None, [], []));
    }
  }

  /** The first line of a rendered patch is a header or an empty line in front of one. */
  lemma {:induction false} NumberFromStart(hunks: seq<Hunk>, spaced: bool)
    requires hunks != []
    ensures Number(Render(hunks, spaced))
         == NumberFrom(Render(hunks, spaced), false,
                       if spaced then Open(None, [Blank], [Blank]) else Open(None, [], []))
  {
    hide NumberFrom;
    if spaced {
      var rest := [HeaderOf(hunks[0])] + (hunks[0].body + Render(hunks[1..], true));
      assert Render(hunks, true) == [Blank] + rest;
      LeadingBlank(rest);
    } else {
      FirstOnlyMattersForBlank(Render(hunks), Open(None, [], []));
    }
  }

  lemma {:induction false} CleanedHunks(hunks: seq<Hunk>)
    requires Bodies(hunks) && forall h <- hunks :: !HasPhrase(h.section)
    ensures Bodies(CleanedAll(hunks)) && NothingSkipped(CleanedAll(hunks))
    ensures forall i | 0 <= i < |hunks| :: CleanedAll(hunks)[i] == hunks[i].(body := Cleaned(hunks[i].body))
  {
    hide HasPhrase, Skipped, IsBody, Cleaned;
    if hunks != [] {
      assert hunks[0] in hunks && forall h <- hunks[1..] :: h in hunks;
      CleanedBody(hunks[0].body);
      HeaderNotSkipped(hunks[0]);
      CleanedHunks(hunks[1..]);
      var r := CleanedAll(hunks);
      assert r == [hunks[0].(body := Cleaned(hunks[0].body))] + CleanedAll(hunks[1..]);
    }
  }

  lemma {:induction false} HeaderNotSkipped(h: Hunk)
    requires !HasPhrase(h.section)
    ensures forall b :: !Skipped(HeaderOf(h.(body := b)))
  {
    hide HasPhrase, MentionsPhrase;
    MentionsPhraseIff(h.section);
  }

  lemma {:induction false} NumberCleanedAll(hunks: seq<Hunk>, spaced: bool, o: Open)
    requires Bodies(hunks) && forall h <- hunks :: !HasPhrase(h.section)
    ensures NumberFrom(Render(hunks, spaced), false, o) == NumberFrom(Render(CleanedAll(hunks), spaced), false, o)
    decreases |hunks|
  {
    hide NumberFrom, Skipped, HasPhrase, IsBody, Cleaned, NothingSkipped;
    if hunks != [] {
      var h, rest := hunks[0], hunks[1..];
      var g := h.(body := Cleaned(h.body));
      assert h in hunks && forall k <- rest :: k in hunks;
      CleanedBody(h.body);
      HeaderNotSkipped(h);
      assert h.(body := h.body) == h;
      var tail, clean := Render(rest, spaced), Render(CleanedAll(rest), spaced);
      var open := Open(Some(HeaderOf(h)), [], []);
      NumberHeader(h, tail, spaced, o);
      NumberHeader(g, clean, spaced, o);
      NumberCleaned(h.body, tail, open);
      NumberOverBody(g.body, tail, open);
      NumberOverBody(g.body, clean, open);
      NumberCleanedAll(rest, spaced, Open(open.header, open.news + NewLines(g.body), open.olds + OldLines(g.body)));
      assert Render(hunks, spaced) == (if spaced then [Blank] else []) + [HeaderOf(h)] + h.body + tail;
      assert CleanedAll(hunks)[0] == g && CleanedAll(hunks)[1..] == CleanedAll(rest);
      assert Render(CleanedAll(hunks), spaced) == (if spaced then [Blank] else []) + [HeaderOf(g)] + g.body + clean;
    }
  }

  lemma {:induction false} NumberHeader(h: Hunk, tail: seq<Line>, spaced: bool, o: Open)
    requires !Skipped(HeaderOf(h))
    ensures NumberFrom((if spaced then [Blank] else []) + [HeaderOf(h)] + h.body + tail, false, o)
         == Prepend(Closed(o), NumberFrom(h.body + tail, false, Open(Some(HeaderOf(h)), [], [])))
  {
    hide Prepend, Closed, Skipped;
    var lines := [HeaderOf(h)] + (h.body + tail);
    assert lines[1..] == h.body + tail;
    MarkerSkipped();
    if spaced {
      assert [Blank] + [HeaderOf(h)] + h.body + tail == [Blank] + lines;
      assert ([Blank] + lines)[1..] == lines;
    } else {
      assert [] + [HeaderOf(h)] + h.body + tail == lines;
    }
  }

  // ---- Lines before the first header ----------------------------------------------------------

  /** What is printed of them: numbers from -1 on, as there is no header to start from. */
  function PreambleBlock(before: seq<Line>): seq<Entry> {
    (if exists l <- before :: l.Addition? || l.Deletion? then [NewHunkMark] + FromMinusOne(NewLines(before)) else [])
    + if exists l <- before :: l.Deletion? then [OldHunkMark] + OldEntryList(OldLines(before)) else []
  }

  function FromMinusOne(lines: seq<Line>): seq<Entry> {
    seq(|lines|, k requires 0 <= k < |lines| => Numbered(k - 1, lines[k]))
  }

  function OldEntryList(lines: seq<Line>): seq<Entry> {
    seq(|lines|, k requires 0 <= k < |lines| => OldLine(lines[k]))
  }

  /**
    Lines before the first header, such as the names of the two files, are printed as a hunk without a header; the
    hunks are printed as if these lines were not there.
   */
  lemma {:induction false} PreambleIsNumbered(before: seq<Line>, hunks: seq<Hunk>)
    requires before != [] && IsBody(before) && forall l <- before :: !l.NoNewline? && !HasPhrase(TextOf(l))
    requires hunks != [] && Bodies(hunks) && NothingSkipped(hunks)
    ensures Number(Render(hunks)).Ok?
    ensures Number(before + Render(hunks)) == Ok(PreambleBlock(before) + Number(Render(hunks)).value)
  {
    hide NumberFrom, Render, HasPhrase, Skipped, Entries, PreambleBlock, Closed;
    NumberOfRendered(hunks, false);
    forall l <- before ensures !Skipped(l) {
      SkippedIff(l);
    }
    var h, tail, none := hunks[0], Render(hunks[1..]), Open(None, [], []);
    var open := Open(None, NewLines(before), OldLines(before));
    assert Render(hunks) == [] + [HeaderOf(h)] + h.body + tail by {
      RenderFirst(hunks);
    }
    assert before[0] in before && h in hunks && (before + Render(hunks))[0] == before[0];
    assert !before[0].Blank? && !Skipped(HeaderOf(h)) by {
      SkippedIff(before[0]);
    }
    FirstOnlyMattersForBlank(before + Render(hunks), none);
    FirstOnlyMattersForBlank(Render(hunks), none);
    NumberOverBody(before, Render(hunks), none);
    assert none.news + NewLines(before) == NewLines(before) && none.olds + OldLines(before) == OldLines(before);
    NumberHeader(h, tail, false, none);
    NumberHeader(h, tail, false, open);
    PreamblePrinted(before);
    PrependLaws(PreambleBlock(before), [], NumberFrom(h.body + tail, false, Open(Some(HeaderOf(h)), [], [])));
  }

  lemma {:induction false} PreamblePrinted(before: seq<Line>)
    requires before != [] && IsBody(before) && forall l <- before :: !l.NoNewline?
    ensures Closed(Open(None, NewLines(before), OldLines(before))) == PreambleBlock(before)
    ensures Closed(Open(None, [], [])) == []
  {
    hide NewLines, OldLines, IsBody, NumberLines, OldEntries, HasAddition, HasDeletion, FromMinusOne, OldEntryList;
    hide Printed;
    SomethingShown(before);
    PreambleMarks(before);
    NumbersAsList(NewLines(before));
    OldsAsList(OldLines(before));
    NoHeaderPrinted(NewLines(before), OldLines(before));
  }

  lemma {:induction false} NoHeaderPrinted(news: seq<Line>, olds: seq<Line>)
    ensures Printed(Open(None, news, olds))
         == (if HasAddition(news) || HasDeletion(olds) then [NewHunkMark] + NumberLines(-1, news) else [])
            + if HasDeletion(olds) then [OldHunkMark] + OldEntries(olds) else []
  {
    hide NumberLines, OldEntries, HasAddition, HasDeletion;
  }

  lemma {:induction false} PreambleMarks(before: seq<Line>)
    ensures HasAddition(NewLines(before)) || HasDeletion(OldLines(before))
       <==> exists l <- before :: l.Addition? || l.Deletion?
    ensures HasDeletion(OldLines(before)) <==> exists l <- before :: l.Deletion?
  {
    hide NewLines, OldLines;
    LinesOfSides(before);
    ChangesShow(before);
  }

  lemma {:induction false} NumbersAsList(lines: seq<Line>)
    ensures NumberLines(-1, lines) == FromMinusOne(lines)
  {
    hide NumberLines;
  }

  lemma {:induction false} OldsAsList(lines: seq<Line>)
    ensures OldEntries(lines) == OldEntryList(lines)
  {
    hide OldEntries;
  }

  lemma {:induction false} SomethingShown(before: seq<Line>)
    requires before != [] && IsBody(before) && forall l <- before :: !l.NoNewline?
    ensures NewLines(before) != [] || OldLines(before) != []
  {
    assert before[0] in before;
  }
}
