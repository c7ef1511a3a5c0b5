/**
  Extending every hunk of a patch with extra context lines taken from the
  original file (`process_patch_lines`).  The loop over the patch lines is the
  method ProcessPatchLines; what it computes is the function Extended, whose
  properties are proved in PatchExtensionProofs.
 */
module PatchExtension {
  import opened Basics
  import opened UnifiedDiff

  datatype Config = Config(before: nat, after: nat, dynamic: bool, beforeDynamic: nat)

  /** The header the extension writes, the lines it puts under it, and whether the leading lines were given up. */
  datatype Window = Window(span: Span, section: string, leading: seq<string>, reset: bool)

  /** The hunk whose trailing context is still owed. */
  datatype Pending = NoHunk | Pending(span: Span, valid: bool)

  // ---- Python's slices and string operations ------------------------------

  function Clip(i: int, n: nat): (r: nat)
    ensures r <= n
  {
    if i < 0 then (if i + n < 0 then 0 else i + n) else if i < n then i else n
  }

  function PySlice<T>(s: seq<T>, lo: int, hi: int): seq<T> {
    var a, b := Clip(lo, |s|), Clip(hi, |s|);
    if a < b then s[a..b] else []
  }

  predicate IsSpace(c: char) {
    c == ' ' || c == '\t' || c == '\n' || c == '\r' || c == 11 as char || c == 12 as char
  }

  function StripLeft(s: string): string {
    if s != "" && IsSpace(s[0]) then StripLeft(s[1..]) else s
  }

  function StripRight(s: string): string {
    if s != "" && IsSpace(s[|s| - 1]) then StripRight(s[..|s| - 1]) else s
  }

  function Strip(s: string): string {
    StripRight(StripLeft(s))
  }

  // ---- One hunk ------------------------------------------------------------

  /** Whether a first context line agrees with the original file; an index error counts as agreement. */
  predicate MatchesFile(next: Option<Line>, original: seq<string>, start1: int) {
    if next.Some? && next.value.Context? && start1 - 1 < |original| && (start1 >= 1 || -(start1 - 1) <= |original|)
    then
      var k := if start1 >= 1 then start1 - 1 else |original| + (start1 - 1);
      Strip([' '] + next.value.text) == Strip(original[k])
    else true
  }

  function ContextLimits(h: Span, linesBefore: nat, after: nat, lenOriginal: nat): Span {
    var s1 := Max(1, h.start1 - linesBefore);
    var z1 := h.size1 + (h.start1 - s1) + after;
    var s2 := Max(1, h.start2 - linesBefore);
    var z2 := h.size2 + (h.start2 - s2) + after;
    if s1 - 1 + z1 > lenOriginal then
      var cap := s1 - 1 + z1 - lenOriginal;
      Span(s1, Max(z1 - cap, h.size1), s2, Max(z2 - cap, h.size2))
    else Span(s1, z1, s2, z2)
  }

  function Shift(s: Span, i: nat): Span {
    Span(s.start1 + i, s.size1 - i, s.start2 + i, s.size2 - i)
  }

  /** The first line that contains the section text, or the number of lines. */
  function FirstContaining(lines: seq<string>, section: string): (i: nat)
    ensures i <= |lines|
    ensures i < |lines| ==> Contains(lines[i], section)
    ensures forall j | 0 <= j < i :: !Contains(lines[j], section)
  {
    if lines == [] || Contains(lines[0], section) then 0 else 1 + FirstContaining(lines[1..], section)
  }

  /** The limits of the dynamic search for the section header, when it succeeds. */
  function DynamicLimits(h: Span, section: string, original: seq<string>, head: seq<string>,
                         cfg: Config): Option<Span> {
    var lim := ContextLimits(h, cfg.beforeDynamic, cfg.after, |original|);
    var a := PySlice(original, lim.start1 - 1, h.start1 - 1);
    var b := PySlice(head, lim.start2 - 1, h.start2 - 1);
    var i := FirstContaining(a, section);
    if i < |a| && a[i..] == PySlice(b, i, |b|) then Some(Shift(lim, i)) else None
  }

  /** The first common suffix of equal index, or the length of the first list. */
  function MiniMatch(a: seq<string>, b: seq<string>, i: nat): (r: nat)
    requires i <= |a|
    ensures i <= r <= |a|
    ensures r < |a| ==> a[r..] == PySlice(b, r, |b|)
    ensures forall j | i <= j < r :: a[j..] != PySlice(b, j, |b|)
    decreases |a| - i
  {
    if i == |a| || a[i..] == PySlice(b, i, |b|) then i else MiniMatch(a, b, i + 1)
  }

  /** Leading context checked against the new file: equal, cut down to a common suffix, or given up. */
  function CheckedWindow(h: Span, section: string, lim: Span, original: seq<string>, head: seq<string>): Window {
    var a := PySlice(original, lim.start1 - 1, h.start1 - 1);
    var b := PySlice(head, lim.start2 - 1, h.start2 - 1);
    if head == [] || a == b then Window(lim, section, a, false)
    else
      var i := MiniMatch(a, b, 0);
      if i < |a| then Window(Shift(lim, i), section, a[i..], false)
      else Window(h, section, [], true)
  }

  predicate SectionShown(section: string, leading: seq<string>) {
    exists l <- leading :: Contains(l, section)
  }

  function WindowOf(h: Span, section: string, valid: bool, original: seq<string>, head: seq<string>,
                    cfg: Config): Window {
    if valid && (cfg.before > 0 || cfg.after > 0) then
      var dyn := if cfg.dynamic && head != [] then DynamicLimits(h, section, original, head, cfg) else None;
      var lim := if dyn.Some? then dyn.value else ContextLimits(h, cfg.before, cfg.after, |original|);
      var w := CheckedWindow(h, if dyn.Some? then "" else section, lim, original, head);
      if w.section != "" && !cfg.dynamic && SectionShown(w.section, w.leading) then w.(section := "") else w
    else Window(h, section, [], false)
  }

  function TrailingTexts(p: Pending, original: seq<string>, cfg: Config): seq<string> {
    if p.Pending? && p.valid && cfg.after > 0
    then PySlice(original, p.span.start1 + p.span.size1 - 1, p.span.start1 + p.span.size1 - 1 + cfg.after)
    else []
  }

  // ---- The whole patch -----------------------------------------------------

  /** What a header is replaced by: the context owed to the hunk before it, the new header, its leading context. */
  function HeaderBlock(owed: seq<string>, w: Window): seq<Line> {
    AsContext(owed) + [Blank, Header(w.span, w.section)] + AsContext(w.leading)
  }

  function Extended(lines: seq<Line>, p: Pending, original: seq<string>, head: seq<string>, cfg: Config): seq<Line> {
    if lines == [] then AsContext(TrailingTexts(p, original, cfg))
    else if lines[0].Header? then
      var valid := MatchesFile(First(lines[1..]), original, lines[0].span.start1);
      var w := WindowOf(lines[0].span, lines[0].section, valid, original, head, cfg);
      HeaderBlock(TrailingTexts(p, original, cfg), w)
      + Extended(lines[1..], Pending(lines[0].span, valid), original, head, cfg)
    else [lines[0]] + Extended(lines[1..], p, original, head, cfg)
  }

  method FindSectionLine(lines: seq<string>, section: string) returns (i: nat)
    ensures i == FirstContaining(lines, section)
  {
    i := 0;
    while i < |lines|
      invariant i <= |lines|
      invariant FirstContaining(lines, section) == i + FirstContaining(lines[i..], section)
    {
      if Contains(lines[i], section) {
        return;
      }
      assert lines[i..][1..] == lines[i + 1..];
      i := i + 1;
    }
  }

  method FindMiniMatch(a: seq<string>, b: seq<string>) returns (i: nat)
    ensures i == MiniMatch(a, b, 0)
  {
    i := 0;
    while i < |a|
      invariant i <= |a|
      invariant MiniMatch(a, b, 0) == MiniMatch(a, b, i)
    {
      if a[i..] == PySlice(b, i, |b|) {
        return;
      }
      i := i + 1;
    }
  }

  method SearchDynamicContext(h: Span, section: string, original: seq<string>, head: seq<string>, cfg: Config)
    returns (found: Option<Span>)
    ensures found == DynamicLimits(h, section, original, head, cfg)
  {
    var lim := ContextLimits(h, cfg.beforeDynamic, cfg.after, |original|);
    var beforeOriginal := PySlice(original, lim.start1 - 1, h.start1 - 1);
    var beforeNew := PySlice(head, lim.start2 - 1, h.start2 - 1);
    var i := FindSectionLine(beforeOriginal, section);
    if i < |beforeOriginal| && beforeOriginal[i..] == PySlice(beforeNew, i, |beforeNew|) {
      found := Some(Shift(lim, i));
    } else {
      found := None;
    }
  }

  method CheckLeadingContext(h: Span, section: string, lim: Span, original: seq<string>, head: seq<string>)
    returns (w: Window)
    ensures w == CheckedWindow(h, section, lim, original, head)
  {
    hide PySlice, MiniMatch;
    var leading := PySlice(original, lim.start1 - 1, h.start1 - 1);
    w := Window(lim, section, leading, false);
    if head != [] {
      var leadingNew := PySlice(head, lim.start2 - 1, h.start2 - 1);
      if leading != leadingNew {
        var i := FindMiniMatch(leading, leadingNew);
        if i < |leading| {
          w := Window(Shift(lim, i), section, leading[i..], false);
        } else {
          w := Window(h, section, [], true);
        }
      }
    }
  }

  method ProcessHeader(h: Span, section: string, valid: bool, original: seq<string>, head: seq<string>, cfg: Config)
    returns (w: Window)
    ensures w == WindowOf(h, section, valid, original, head, cfg)
  {
    if valid && (cfg.before > 0 || cfg.after > 0) {
      var found := None;
      if cfg.dynamic && head != [] {
        found := SearchDynamicContext(h, section, original, head, cfg);
      }
      if found.Some? {
        w := CheckLeadingContext(h, "", found.value, original, head);
      } else {
        var lim := ContextLimits(h, cfg.before, cfg.after, |original|);
        w := CheckLeadingContext(h, section, lim, original, head);
      }
      if w.section != "" && !cfg.dynamic && SectionShown(w.section, w.leading) {
        w := w.(section := "");
      }
    } else {
      w := Window(h, section, [], false);
    }
  }

  method ProcessPatchLines(patchLines: seq<Line>, original: seq<string>, head: seq<string>, cfg: Config)
    returns (extended: seq<Line>)
    ensures extended == Extended(patchLines, NoHunk, original, head, cfg)
  {
    extended := [];
    var p := NoHunk;
    var i := 0;
    while i < |patchLines|
      invariant 0 <= i <= |patchLines|
      invariant extended + Extended(patchLines[i..], p, original, head, cfg)
             == Extended(patchLines, NoHunk, original, head, cfg)
    {
      var line := patchLines[i];
      ghost var done, rest := extended, patchLines[i + 1..];
      assert patchLines[i..][0] == line && patchLines[i..][1..] == rest;
      if line.Header? {
        var valid := MatchesFile(First(patchLines[i + 1..]), original, line.span.start1);
        var w := ProcessHeader(line.span, line.section, valid, original, head, cfg);
        var block := HeaderBlock(TrailingTexts(p, original, cfg), w);
        extended := extended + block;
        p := Pending(line.span, valid);
        AppendStep(done, block, Extended(rest, p, original, head, cfg));
      } else {
        extended := extended + [line];
        AppendStep(done, [line], Extended(rest, p, original, head, cfg));
      }
      i := i + 1;
    }
    extended := extended + AsContext(TrailingTexts(p, original, cfg));
  }

  /** `extend_patch`: a patch is left alone when there is nothing to extend it with. */
  function ExtendPatch(patch: seq<Line>, original: seq<string>, head: seq<string>, cfg: Config, skip: bool): seq<Line> {
    if patch == [] || (cfg.before == 0 && cfg.after == 0) || original == [] || skip then patch
    else Extended(patch, NoHunk, original, head, cfg)
  }
}
