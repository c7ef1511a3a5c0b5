/**
  Framing untrusted text in a prompt (`escapeDelimiterText`, `untrustedSection`,
  `renderUserMessage`).  A section is the escaped text between two delimiter
  lines; the JSON rendering of the value is an arbitrary string.
 */
module PromptDelimiters {

  const START_NAME := "FIRMCODE_UNTRUSTED_CONTENT_START"
  const END_NAME := "FIRMCODE_UNTRUSTED_CONTENT_END"
  const IN_DATA := "_IN_DATA"

  function ReplaceAll(text: string, part: string, with: string): string
    requires part != ""
    decreases |text|
  {
    if text == "" then ""
    else if part <= text then with + ReplaceAll(text[|part|..], part, with)
    else [text[0]] + ReplaceAll(text[1..], part, with)
  }

  function EscapeDelimiterText(value: string): string {
    ReplaceAll(ReplaceAll(value, START_NAME, START_NAME + IN_DATA), END_NAME, END_NAME + IN_DATA)
  }

  function Unescape(text: string): string {
    ReplaceAll(ReplaceAll(text, END_NAME + IN_DATA, END_NAME), START_NAME + IN_DATA, START_NAME)
  }

  // ---- One name ------------------------------------------------------------------

  /** A name whose first character does not come back, so that two occurrences never overlap. */
  predicate Headed(name: string) {
    name != "" && forall i | 0 < i < |name| :: name[i] != name[0]
  }

  predicate Avoids(text: string, c: char) {
    forall i | 0 <= i < |text| :: text[i] != c
  }

  function Mark(text: string, name: string, d: string): string
    requires name != ""
  {
    ReplaceAll(text, name, name + d)
  }

  /** Marking copies everything that does not start a name. */
  lemma {:induction false} PrefixKept(text: string, name: string, d: string, w: string)
    requires Headed(name) && Avoids(w, name[0])
    ensures w <= Mark(text, name, d) <==> w <= text
    decreases |w|
  {
    if w != "" && text != "" && !(name <= text) {
      PrefixKept(text[1..], name, d, w[1..]);
      assert w <= text <==> w[0] == text[0] && w[1..] <= text[1..];
      var m := Mark(text, name, d);
      assert m[1..] == Mark(text[1..], name, d);
      assert w <= m <==> w[0] == m[0] && w[1..] <= m[1..];
    } else if w != "" && text != "" {
      assert text[0] == name[0] && Mark(text, name, d)[0] == name[0];
    }
  }

  /** Marking creates no occurrence of a headed name with the same head at the front. */
  lemma {:induction false} FrontKept(text: string, name: string, d: string, q: string)
    requires Headed(name) && q != "" && q[0] == name[0] && Avoids(q[1..], name[0])
    requires !(name <= text)
    ensures q <= Mark(text, name, d) <==> q <= text
  {
    if text != "" {
      var m := Mark(text, name, d);
      assert m[0] == text[0] && m[1..] == Mark(text[1..], name, d);
      PrefixKept(text[1..], name, d, q[1..]);
      assert q <= m <==> q[0] == m[0] && q[1..] <= m[1..];
      assert q <= text <==> q[0] == text[0] && q[1..] <= text[1..];
    }
  }

  /** Unmarking undoes marking, for every text. */
  lemma {:induction false} UnmarkUndoesMark(text: string, name: string, d: string)
    requires Headed(name) && Avoids(d, name[0])
    ensures ReplaceAll(Mark(text, name, d), name + d, name) == text
    decreases |text|
  {
    if text != "" {
      var m := Mark(text, name, d);
      if name <= text {
        var rest := text[|name|..];
        assert m == (name + d) + Mark(rest, name, d);
        assert m[|name + d|..] == Mark(rest, name, d);
        UnmarkUndoesMark(rest, name, d);
        assert text == name + rest;
      } else {
        HeadedTail(name, d);
        FrontKept(text, name, d, name + d);
        PrefixOfLonger(text, name, d);
        UnmarkUndoesMark(text[1..], name, d);
        assert m[1..] == Mark(text[1..], name, d);
      }
    }
  }

  lemma {:induction false} HeadedTail(name: string, d: string)
    requires Headed(name) && Avoids(d, name[0])
    ensures Avoids((name + d)[1..], name[0]) && Headed(name + d)
  {
  }

  lemma {:induction false} LongerPrefix(text: string, name: string, d: string)
    requires d != ""
    ensures name + d <= text ==> name <= text && |name| < |text| && text[|name|] == d[0]
  {
  }

  lemma {:induction false} PrefixOfLonger(text: string, name: string, d: string)
    ensures name + d <= text ==> name <= text
  {
  }

  /** Every occurrence of `q` is followed by `d`. */
  predicate Followed(text: string, q: string, d: string) {
    forall i | 0 <= i <= |text| :: q <= text[i..] ==> q + d <= text[i..]
  }

  lemma {:induction false} FollowedTail(text: string, q: string, d: string, n: nat)
    requires Followed(text, q, d) && n <= |text|
    ensures Followed(text[n..], q, d)
  {
  }

  /** No occurrence of `q` starts inside `a`, once its own start is ruled out. */
  lemma {:induction false} NoStartInside(a: string, rest: string, q: string, i: nat)
    requires q != "" && 0 < i < |a| && Avoids(a[1..], q[0])
    ensures !(q <= (a + rest)[i..])
  {
  }

  lemma {:induction false} FollowedJoin(a: string, rest: string, q: string, d: string)
    requires q != "" && a != "" && Avoids(a[1..], q[0])
    requires q <= a + rest ==> q + d <= a + rest
    requires Followed(rest, q, d)
    ensures Followed(a + rest, q, d)
  {
    var text := a + rest;
    forall i | 0 <= i <= |text| ensures q <= text[i..] ==> q + d <= text[i..] {
      if i == 0 {
        assert text[0..] == text;
      } else if i < |a| {
        NoStartInside(a, rest, q, i);
      } else {
        assert text[i..] == rest[i - |a|..];
      }
    }
  }

  /** After marking, every occurrence of the name is a marked one. */
  lemma {:induction false} MarkedEverywhere(text: string, name: string, d: string)
    requires Headed(name) && Avoids(d, name[0])
    ensures Followed(Mark(text, name, d), name, d)
    decreases |text|
  {
    if text != "" {
      HeadedTail(name, d);
      if name <= text {
        var rest := Mark(text[|name|..], name, d);
        MarkedEverywhere(text[|name|..], name, d);
        FollowedJoin(name + d, rest, name, d);
      } else {
        MarkedEverywhere(text[1..], name, d);
        assert Avoids(name[1..], name[0]);
        FrontKept(text, name, d, name);
        FollowedJoin([text[0]], Mark(text[1..], name, d), name, d);
      }
    }
  }

  // ---- Two names with the same head -------------------------------------------------

  /** The names part at some character, so neither starts the other. */
  predicate Differ(p: string, q: string) {
    exists i | 0 <= i < |p| && i < |q| :: p[i] != q[i]
  }

  lemma {:induction false} DifferentPrefixes(p: string, q: string, text: string)
    requires Differ(p, q) && p <= text
    ensures !(q <= text)
  {
  }

  predicate TwoNames(p: string, q: string, d: string) {
    Headed(p) && Headed(q) && p[0] == q[0] && Differ(p, q) && Avoids(d, p[0])
  }

  /** Marking one name keeps every mark of the other. */
  lemma {:induction false} MarksKept(text: string, p: string, q: string, d: string)
    requires TwoNames(p, q, d) && Followed(text, q, d)
    ensures Followed(Mark(text, p, d), q, d)
    decreases |text|
  {
    if text != "" {
      HeadedTail(p, d);
      HeadedTail(q, d);
      if p <= text {
        var rest := text[|p|..];
        FollowedTail(text, q, d, |p|);
        MarksKept(rest, p, q, d);
        assert p <= (p + d) + Mark(rest, p, d);
        DifferentPrefixes(p, q, (p + d) + Mark(rest, p, d));
        FollowedJoin(p + d, Mark(rest, p, d), q, d);
      } else {
        FollowedTail(text, q, d, 1);
        MarksKept(text[1..], p, q, d);
        assert Avoids(q[1..], q[0]);
        FrontKept(text, p, d, q);
        FrontKept(text, p, d, q + d);
        assert text[0..] == text;
        FollowedJoin([text[0]], Mark(text[1..], p, d), q, d);
      }
    }
  }

  /** How often `q` occurs. */
  function Occurrences(text: string, q: string): nat {
    if text == "" then 0 else (if q <= text then 1 else 0) + Occurrences(text[1..], q)
  }

  lemma {:induction false} OccurrencesSkip(a: string, rest: string, q: string)
    requires q != "" && forall i | 0 <= i < |a| :: !(q <= (a + rest)[i..])
    ensures Occurrences(a + rest, q) == Occurrences(rest, q)
    decreases |a|
  {
    if a == "" {
      assert a + rest == rest;
    } else {
      assert (a + rest)[0..] == a + rest && (a + rest)[1..] == a[1..] + rest;
      forall i | 0 <= i < |a[1..]| ensures !(q <= (a[1..] + rest)[i..]) {
        assert (a[1..] + rest)[i..] == (a + rest)[i + 1..];
      }
      OccurrencesSkip(a[1..], rest, q);
    }
  }

  lemma {:induction false} SkipName(a: string, rest: string, p: string, q: string)
    requires Headed(p) && Headed(q) && p[0] == q[0] && Differ(p, q)
    requires p <= a && Avoids(a[1..], q[0])
    ensures Occurrences(a + rest, q) == Occurrences(rest, q)
  {
    forall i | 0 <= i < |a| ensures !(q <= (a + rest)[i..]) {
      if i == 0 {
        assert p <= a + rest && (a + rest)[0..] == a + rest;
        DifferentPrefixes(p, q, a + rest);
      } else {
        NoStartInside(a, rest, q, i);
      }
    }
    OccurrencesSkip(a, rest, q);
  }

  /** Marking one name neither creates nor destroys an occurrence of the other. */
  lemma {:induction false} OccurrencesKept(text: string, p: string, q: string, d: string)
    requires TwoNames(p, q, d)
    ensures Occurrences(Mark(text, p, d), q) == Occurrences(text, q)
    decreases |text|
  {
    if text != "" {
      HeadedTail(p, d);
      if p <= text {
        var rest := text[|p|..];
        OccurrencesKept(rest, p, q, d);
        assert text == p + rest;
        SkipName(p, rest, p, q);
        SkipName(p + d, Mark(rest, p, d), p, q);
      } else {
        OccurrencesKept(text[1..], p, q, d);
        assert Avoids(q[1..], q[0]);
        FrontKept(text, p, d, q);
        assert Mark(text, p, d)[1..] == Mark(text[1..], p, d);
      }
    }
  }

  // ---- The escaping -------------------------------------------------------------------

  lemma {:induction false} DelimiterNames()
    ensures TwoNames(START_NAME, END_NAME, IN_DATA) && TwoNames(END_NAME, START_NAME, IN_DATA)
  {
    var k := |"FIRMCODE_UNTRUSTED_CONTENT_"|;
    assert START_NAME[k] == 'S' && END_NAME[k] == 'E';
  }

  /** The text is recovered from its escaped form, whatever it is. */
  lemma {:induction false} EscapingIsReversible(value: string)
    ensures Unescape(EscapeDelimiterText(value)) == value
  {
    hide ReplaceAll;
    DelimiterNames();
    var once := ReplaceAll(value, START_NAME, START_NAME + IN_DATA);
    UnmarkUndoesMark(once, END_NAME, IN_DATA);
    UnmarkUndoesMark(value, START_NAME, IN_DATA);
  }

  /** The second replacement leaves the occurrences of the first name as they are. */
  lemma {:induction false} SecondPassKeepsFirstName(value: string)
    ensures var once := ReplaceAll(value, START_NAME, START_NAME + IN_DATA);
      Occurrences(EscapeDelimiterText(value), START_NAME) == Occurrences(once, START_NAME)
  {
    hide ReplaceAll;
    DelimiterNames();
    OccurrencesKept(ReplaceAll(value, START_NAME, START_NAME + IN_DATA), END_NAME, START_NAME, IN_DATA);
  }

  predicate Has(text: string, part: string) {
    exists i | 0 <= i <= |text| :: part <= text[i..]
  }

  lemma {:induction false} MarkedHasNoColon(text: string, name: string)
    requires Followed(text, name, IN_DATA)
    ensures !Has(text, name + ":")
  {
    forall i | 0 <= i <= |text| ensures !(name + ":" <= text[i..]) {
      LongerPrefix(text[i..], name, ":");
      LongerPrefix(text[i..], name, IN_DATA);
    }
  }

  /** Escaped text never contains a delimiter name followed by a colon. */
  lemma {:induction false} EscapedHasNoDelimiter(value: string)
    ensures !Has(EscapeDelimiterText(value), START_NAME + ":")
    ensures !Has(EscapeDelimiterText(value), END_NAME + ":")
  {
    hide ReplaceAll, Has;
    DelimiterNames();
    var once := ReplaceAll(value, START_NAME, START_NAME + IN_DATA);
    MarkedEverywhere(value, START_NAME, IN_DATA);
    MarksKept(once, END_NAME, START_NAME, IN_DATA);
    MarkedEverywhere(once, END_NAME, IN_DATA);
    MarkedHasNoColon(EscapeDelimiterText(value), START_NAME);
    MarkedHasNoColon(EscapeDelimiterText(value), END_NAME);
  }

  // ---- Lines ------------------------------------------------------------------------------

  function SplitLines(text: string): (lines: seq<string>)
    ensures lines != []
  {
    if text == "" then [""]
    else
      var rest := SplitLines(text[1..]);
      if text[0] == '\n' then [""] + rest else [[text[0]] + rest[0]] + rest[1..]
  }

  function JoinLines(lines: seq<string>): string
    requires lines != []
  {
    if |lines| == 1 then lines[0] else lines[0] + "\n" + JoinLines(lines[1..])
  }

  lemma {:induction false} SplitConcat(a: string, b: string)
    ensures SplitLines(a + "\n" + b) == SplitLines(a) + SplitLines(b)
    decreases |a|
  {
    if a == "" {
      assert a + "\n" + b == "\n" + b && ("\n" + b)[1..] == b;
    } else {
      assert (a + "\n" + b)[0] == a[0] && (a + "\n" + b)[1..] == a[1..] + "\n" + b;
      SplitConcat(a[1..], b);
    }
  }

  lemma {:induction false} JoinUndoesSplit(text: string)
    ensures JoinLines(SplitLines(text)) == text
  {
    if text != "" {
      JoinUndoesSplit(text[1..]);
      var rest := SplitLines(text[1..]);
      if text[0] == '\n' {
        assert ([""] + rest)[1..] == rest;
        assert text == "\n" + text[1..];
      } else {
        assert SplitLines(text)[1..] == rest[1..];
        assert text == [text[0]] + text[1..];
      }
    }
  }

  lemma {:induction false} SplitOneLine(line: string)
    requires '\n' !in line
    ensures SplitLines(line) == [line]
  {
    if line != "" {
      SplitOneLine(line[1..]);
      assert line == [line[0]] + line[1..];
    }
  }

  /** A line of a text is a piece of it. */
  lemma {:induction false} LineIsPiece(text: string, k: nat) returns (at: nat)
    requires k < |SplitLines(text)|
    ensures at <= |text| && SplitLines(text)[k] <= text[at..]
    ensures k == 0 ==> at == 0
  {
    if text == "" {
      at := 0;
    } else if text[0] == '\n' {
      if k == 0 {
        at := 0;
      } else {
        var j := LineIsPiece(text[1..], k - 1);
        at := j + 1;
        assert text[at..] == text[1..][j..];
      }
    } else {
      var j := LineIsPiece(text[1..], k);
      if k == 0 {
        at := 0;
        assert text == [text[0]] + text[1..];
      } else {
        at := j + 1;
        assert text[at..] == text[1..][j..];
      }
    }
  }

  lemma {:induction false} LinesStayClean(text: string, part: string)
    requires !Has(text, part)
    ensures forall l <- SplitLines(text) :: !Has(l, part)
  {
    forall l | l in SplitLines(text) ensures !Has(l, part) {
      var k :| 0 <= k < |SplitLines(text)| && SplitLines(text)[k] == l;
      var at := LineIsPiece(text, k);
      PieceHas(text, at, l, part);
    }
  }

  lemma {:induction false} PieceHas(text: string, at: nat, l: string, part: string)
    requires at <= |text| && l <= text[at..]
    ensures Has(l, part) ==> Has(text, part)
  {
    if Has(l, part) {
      var i :| 0 <= i <= |l| && part <= l[i..];
      assert text[at..][i..] == text[at + i..];
      assert part <= text[at + i..];
    }
  }

  // ---- Messages -------------------------------------------------------------------------------

  datatype Section = Section(title: string, value: string)

  function Opening(title: string): string {
    "<<<" + START_NAME + ":" + title + ">>>"
  }

  function Closing(title: string): string {
    "<<<" + END_NAME + ":" + title + ">>>"
  }

  function UntrustedSection(s: Section): string {
    JoinLines([Opening(s.title), EscapeDelimiterText(s.value), Closing(s.title)])
  }

  function RenderSections(sections: seq<Section>): seq<string> {
    if sections == [] then [] else [UntrustedSection(sections[0])] + RenderSections(sections[1..])
  }

  /** The texts around the sections: the metadata line, the introduction and the conclusion. */
  datatype Frame = Frame(metadata: string, introduction: string, conclusion: string)

  function RenderUserMessage(f: Frame, sections: seq<Section>): string {
    JoinLines([f.metadata, "", f.introduction, ""] + RenderSections(sections) + ["", f.conclusion])
  }

  predicate IsOpening(line: string) {
    var prefix := "<<<" + START_NAME + ":";
    |line| >= |prefix| + 3 && prefix <= line && line[|line| - 3..] == ">>>"
  }

  function LabelOf(line: string): string
    requires IsOpening(line)
  {
    line[|"<<<" + START_NAME + ":"|..|line| - 3]
  }

  datatype Reader = Outside | Inside(title: string, lines: seq<string>)

  /** Reading a message back: an opening line starts a section, the closing line of the same title ends it. */
  function ReadSections(lines: seq<string>, r: Reader): seq<Section> {
    if lines == [] then []
    else match r
      case Outside =>
        ReadSections(lines[1..], if IsOpening(lines[0]) then Inside(LabelOf(lines[0]), []) else Outside)
      case Inside(title, body) =>
        if lines[0] == Closing(title) && body != []
        then [Section(title, JoinLines(body))] + ReadSections(lines[1..], Outside)
        else ReadSections(lines[1..], Inside(title, body + [lines[0]]))
  }

  lemma {:induction false} OpeningReads(title: string)
    ensures IsOpening(Opening(title)) && LabelOf(Opening(title)) == title
  {
  }

  lemma {:induction false} ReadOutside(lines: seq<string>, rest: seq<string>)
    requires forall l <- lines :: !IsOpening(l)
    ensures ReadSections(lines + rest, Outside) == ReadSections(rest, Outside)
    decreases |lines|
  {
    hide IsOpening;
    if lines == [] {
      assert lines + rest == rest;
    } else {
      assert (lines + rest)[0] == lines[0] && (lines + rest)[1..] == lines[1..] + rest && lines[0] in lines;
      ReadOutside(lines[1..], rest);
    }
  }

  lemma {:induction false} ReadInside(lines: seq<string>, rest: seq<string>, title: string, body: seq<string>)
    requires forall l <- lines :: l != Closing(title)
    ensures ReadSections(lines + rest, Inside(title, body)) == ReadSections(rest, Inside(title, body + lines))
    decreases |lines|
  {
    hide IsOpening;
    if lines == [] {
      assert lines + rest == rest && body + lines == body;
    } else {
      assert (lines + rest)[0] == lines[0] && (lines + rest)[1..] == lines[1..] + rest && lines[0] in lines;
      assert forall l <- lines[1..] :: l in lines;
      ReadInside(lines[1..], rest, title, body + [lines[0]]);
      assert body + [lines[0]] + lines[1..] == body + lines;
    }
  }

  lemma {:induction false} ClosingHasName(title: string)
    ensures Has(Closing(title), END_NAME + ":")
  {
    assert Closing(title)[3..] == END_NAME + ":" + title + ">>>";
    assert END_NAME + ":" <= Closing(title)[3..];
  }

  lemma {:induction false} OpeningHasName(line: string)
    requires IsOpening(line)
    ensures Has(line, START_NAME + ":")
  {
    assert line[3..|"<<<" + START_NAME + ":"|] == START_NAME + ":";
    assert START_NAME + ":" <= line[3..];
  }

  /** The lines of a section: its opening, its escaped text, its closing. */
  function SectionLines(s: Section): seq<string> {
    [Opening(s.title)] + SplitLines(EscapeDelimiterText(s.value)) + [Closing(s.title)]
  }

  predicate Titled(sections: seq<Section>) {
    forall s <- sections :: '\n' !in s.title
  }

  lemma {:induction false} SplitSection(s: Section)
    requires '\n' !in s.title
    ensures SplitLines(UntrustedSection(s)) == SectionLines(s)
  {
    hide EscapeDelimiterText, SplitLines, JoinLines, Opening, Closing;
    var o, t, c := Opening(s.title), EscapeDelimiterText(s.value), Closing(s.title);
    JoinThree(o, t, c);
    DelimiterLines(s.title);
    SplitConcat(o, t + "\n" + c);
    SplitConcat(t, c);
    SplitOneLine(o);
    SplitOneLine(c);
    assert [o] + (SplitLines(t) + [c]) == [o] + SplitLines(t) + [c];
  }

  lemma {:induction false} JoinThree(o: string, t: string, c: string)
    ensures JoinLines([o, t, c]) == o + "\n" + (t + "\n" + c)
  {
    assert [o, t, c][1..] == [t, c] && [t, c][1..] == [c];
    assert JoinLines([t, c]) == t + "\n" + c;
  }

  lemma {:induction false} DelimiterLines(title: string)
    requires '\n' !in title
    ensures '\n' !in Opening(title) && '\n' !in Closing(title)
  {
  }

  lemma {:induction false} ReadOneSection(s: Section, rest: seq<string>)
    ensures ReadSections(SectionLines(s) + rest, Outside)
         == [Section(s.title, EscapeDelimiterText(s.value))] + ReadSections(rest, Outside)
  {
    hide EscapeDelimiterText, IsOpening, SplitLines, Has;
    var text := EscapeDelimiterText(s.value);
    var body := SplitLines(text);
    var lines := SectionLines(s) + rest;
    OpeningReads(s.title);
    ClosingHasName(s.title);
    EscapedHasNoDelimiter(s.value);
    LinesStayClean(text, END_NAME + ":");
    var tail := [Closing(s.title)] + rest;
    assert lines[0] == Opening(s.title) && lines[1..] == body + tail;
    ReadInside(body, tail, s.title, []);
    assert [] + body == body && tail[1..] == rest;
    JoinUndoesSplit(text);
  }

  function AllLines(sections: seq<Section>): seq<string> {
    if sections == [] then [] else SectionLines(sections[0]) + AllLines(sections[1..])
  }

  function AllEscaped(sections: seq<Section>): seq<Section> {
    if sections == [] then []
    else [Section(sections[0].title, EscapeDelimiterText(sections[0].value))] + AllEscaped(sections[1..])
  }

  lemma {:induction false} ReadAll(sections: seq<Section>, rest: seq<string>)
    ensures ReadSections(AllLines(sections) + rest, Outside) == AllEscaped(sections) + ReadSections(rest, Outside)
  {
    hide ReadSections, SectionLines, EscapeDelimiterText;
    if sections == [] {
      assert AllLines(sections) + rest == rest;
    } else {
      ReadOneSection(sections[0], AllLines(sections[1..]) + rest);
      ReadAll(sections[1..], rest);
      assert AllLines(sections) + rest == SectionLines(sections[0]) + (AllLines(sections[1..]) + rest);
    }
  }

  function SplitAll(parts: seq<string>): seq<string> {
    if parts == [] then [] else SplitLines(parts[0]) + SplitAll(parts[1..])
  }

  lemma {:induction false} SplitJoined(parts: seq<string>)
    requires parts != []
    ensures SplitLines(JoinLines(parts)) == SplitAll(parts)
  {
    hide SplitLines;
    if |parts| > 1 {
      SplitJoined(parts[1..]);
      SplitConcat(parts[0], JoinLines(parts[1..]));
    } else {
      assert parts[1..] == [];
    }
  }

  lemma {:induction false} SplitAllConcat(a: seq<string>, b: seq<string>)
    ensures SplitAll(a + b) == SplitAll(a) + SplitAll(b)
  {
    if a == [] {
      assert a + b == b;
    } else {
      assert (a + b)[0] == a[0] && (a + b)[1..] == a[1..] + b;
      SplitAllConcat(a[1..], b);
    }
  }

  lemma {:induction false} SplitSections(sections: seq<Section>)
    requires Titled(sections)
    ensures SplitAll(RenderSections(sections)) == AllLines(sections)
  {
    hide SplitLines, SectionLines, UntrustedSection;
    if sections != [] {
      assert sections[0] in sections;
      SplitSection(sections[0]);
      SplitSections(sections[1..]);
      assert RenderSections(sections)[1..] == RenderSections(sections[1..]);
    }
  }

  /** None of the fixed texts holds the start name followed by a colon. */
  predicate PlainFrame(f: Frame) {
    !Has(f.metadata, START_NAME + ":") && !Has(f.introduction, START_NAME + ":") && !Has(f.conclusion, START_NAME + ":")
  }

  lemma {:induction false} NoOpeningIn(text: string)
    requires !Has(text, START_NAME + ":")
    ensures forall l <- SplitLines(text) :: !IsOpening(l)
  {
    hide SplitLines, IsOpening, Has;
    LinesStayClean(text, START_NAME + ":");
    forall l | l in SplitLines(text) ensures !IsOpening(l) {
      if IsOpening(l) {
        OpeningHasName(l);
      }
    }
  }

  lemma {:induction false} NoOpeningInAll(parts: seq<string>)
    requires forall p <- parts :: !Has(p, START_NAME + ":")
    ensures forall l <- SplitAll(parts) :: !IsOpening(l)
  {
    hide SplitLines, IsOpening, Has;
    if parts != [] {
      assert parts[0] in parts;
      NoOpeningIn(parts[0]);
      NoOpeningInAll(parts[1..]);
    }
  }

  lemma {:induction false} EmptyLineIsPlain()
    ensures !Has("", START_NAME + ":")
  {
  }

  /** Splitting a rendered message on delimiter lines returns its sections in order, escaped. */
  lemma {:induction false} MessageIsFramed(f: Frame, sections: seq<Section>)
    requires PlainFrame(f) && Titled(sections)
    ensures ReadSections(SplitLines(RenderUserMessage(f, sections)), Outside) == AllEscaped(sections)
  {
    hide SplitLines, SectionLines, UntrustedSection, IsOpening, Has, ReadSections, SplitAll;
    var head, tail := [f.metadata, "", f.introduction, ""], ["", f.conclusion];
    EmptyLineIsPlain();
    NoOpeningInAll(head);
    NoOpeningInAll(tail);
    SplitJoined(head + RenderSections(sections) + tail);
    SplitAllConcat(head + RenderSections(sections), tail);
    SplitAllConcat(head, RenderSections(sections));
    SplitSections(sections);
    var rest := AllLines(sections) + SplitAll(tail);
    assert SplitAll(head) + AllLines(sections) + SplitAll(tail) == SplitAll(head) + rest;
    ReadOutside(SplitAll(head), rest);
    ReadAll(sections, SplitAll(tail));
    ReadOutside(SplitAll(tail), []);
    assert SplitAll(tail) + [] == SplitAll(tail);
    ReadNothing();
    assert AllEscaped(sections) + [] == AllEscaped(sections);
  }

  lemma {:induction false} ReadNothing()
    ensures ReadSections([], Outside) == []
  {
  }

  function Unescaped(sections: seq<Section>): seq<Section> {
    if sections == [] then [] else [Section(sections[0].title, Unescape(sections[0].value))] + Unescaped(sections[1..])
  }

  /** Reading a message and unescaping returns the sections themselves. */
  lemma {:induction false} UnescapedSections(sections: seq<Section>)
    ensures Unescaped(AllEscaped(sections)) == sections
  {
    hide EscapeDelimiterText, Unescape;
    if sections != [] {
      EscapingIsReversible(sections[0].value);
      UnescapedSections(sections[1..]);
      assert sections == [sections[0]] + sections[1..];
    }
  }

  lemma {:induction false} MessageRoundTrip(f: Frame, sections: seq<Section>)
    requires PlainFrame(f) && Titled(sections)
    ensures Unescaped(ReadSections(SplitLines(RenderUserMessage(f, sections)), Outside)) == sections
  {
    hide SplitLines, RenderUserMessage, ReadSections, Has;
    MessageIsFramed(f, sections);
    UnescapedSections(sections);
  }

  // ---- What is written, letter by letter ---------------------------------------------------------

  lemma {:induction false} NothingReplaced(text: string, part: string, with: string)
    requires part != "" && !Has(text, part)
    ensures ReplaceAll(text, part, with) == text
    decreases |text|
  {
    if text != "" {
      assert text[0..] == text;
      forall i | 0 <= i <= |text[1..]| ensures !(part <= text[1..][i..]) {
        assert text[1..][i..] == text[i + 1..];
      }
      NothingReplaced(text[1..], part, with);
    }
  }

  /** Text that holds neither name is left as it is. */
  lemma {:induction false} OtherTextIsKept(value: string)
    requires !Has(value, "FIRMCODE_UNTRUSTED_CONTENT_START") && !Has(value, "FIRMCODE_UNTRUSTED_CONTENT_END")
    ensures EscapeDelimiterText(value) == value
  {
    hide ReplaceAll, Has;
    NothingReplaced(value, START_NAME, START_NAME + IN_DATA);
    NothingReplaced(value, END_NAME, END_NAME + IN_DATA);
  }

  lemma {:induction false} ReplacedAlone(part: string, with: string)
    requires part != ""
    ensures ReplaceAll(part, part, with) == with
  {
    assert part[|part|..] == "";
    assert ReplaceAll("", part, with) == "";
    assert with + "" == with;
  }

  /** The name occurs nowhere in a text that starts differently and has its first letter nowhere else. */
  lemma {:induction false} NotIn(text: string, name: string, k: nat)
    requires k < |name| && k < |text| && name[k] != text[k]
    requires forall i | 0 < i < |text| :: text[i] != name[0]
    ensures !Has(text, name)
  {
    forall i | 0 <= i <= |text| ensures !(name <= text[i..]) {
      if i == 0 {
        assert text[i..][k] == text[k];
      } else if i < |text| {
        assert text[i..][0] == text[i];
      }
    }
  }

  /** Each of the names gets its suffix. */
  lemma {:induction false} NamesAreMarked()
    ensures EscapeDelimiterText("FIRMCODE_UNTRUSTED_CONTENT_START") == "FIRMCODE_UNTRUSTED_CONTENT_START_IN_DATA"
    ensures EscapeDelimiterText("FIRMCODE_UNTRUSTED_CONTENT_END") == "FIRMCODE_UNTRUSTED_CONTENT_END_IN_DATA"
  {
    hide ReplaceAll, Has;
    var marked := "FIRMCODE_UNTRUSTED_CONTENT_START_IN_DATA";
    ReplacedAlone(START_NAME, START_NAME + IN_DATA);
    assert START_NAME + IN_DATA == marked;
    NotIn(marked, END_NAME, 27);
    NothingReplaced(marked, END_NAME, END_NAME + IN_DATA);
    NotIn(END_NAME, START_NAME, 27);
    NothingReplaced(END_NAME, START_NAME, START_NAME + IN_DATA);
    ReplacedAlone(END_NAME, END_NAME + IN_DATA);
  }

  lemma {:induction false} SectionIs(s: Section)
    ensures UntrustedSection(s)
         == ("<<<" + "FIRMCODE_UNTRUSTED_CONTENT_START" + ":" + s.title + ">>>") + "\n"
            + (EscapeDelimiterText(s.value) + "\n"
               + ("<<<" + "FIRMCODE_UNTRUSTED_CONTENT_END" + ":" + s.title + ">>>"))
  {
    hide EscapeDelimiterText, JoinLines;
    JoinThree(Opening(s.title), EscapeDelimiterText(s.value), Closing(s.title));
  }

  lemma {:induction false} JoinTwo(a: string, b: string)
    ensures JoinLines([a, b]) == a + "\n" + b && JoinLines([b]) == b
  {
    assert [a, b][1..] == [b];
  }

  lemma {:induction false} JoinConcat(a: seq<string>, b: seq<string>)
    requires a != [] && b != []
    ensures JoinLines(a + b) == JoinLines(a) + "\n" + JoinLines(b)
    decreases |a|
  {
    if |a| == 1 {
      assert (a + b)[1..] == b;
    } else {
      assert (a + b)[1..] == a[1..] + b;
      JoinConcat(a[1..], b);
    }
  }

  /** A message is its metadata, its introduction, its sections and its conclusion, with empty lines between them. */
  lemma {:induction false} MessageIs(f: Frame, sections: seq<Section>)
    ensures RenderUserMessage(f, sections)
         == f.metadata + "\n\n" + f.introduction + "\n\n"
            + (if sections == [] then "" else JoinLines(RenderSections(sections)) + "\n") + "\n" + f.conclusion
  {
    hide JoinLines, UntrustedSection;
    var start, end := [f.metadata, "", f.introduction, ""], ["", f.conclusion];
    JoinTwo("", f.conclusion);
    JoinTwo(f.metadata, "");
    JoinTwo(f.introduction, "");
    JoinConcat([f.metadata, ""], [f.introduction, ""]);
    assert start == [f.metadata, ""] + [f.introduction, ""];
    if sections == [] {
      JoinConcat(start, end);
      assert start + [] + end == start + end;
    } else {
      JoinConcat(start, RenderSections(sections));
      JoinConcat(start + RenderSections(sections), end);
    }
  }
}
