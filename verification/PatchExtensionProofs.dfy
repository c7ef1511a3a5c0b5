/**
  What extending a patch keeps.  The loop works line by line; the first lemmas
  show that on a rendered patch it works hunk by hunk.  The theorems then say
  where an extended hunk lies in both files and when its header is exact.
 */
module PatchExtensionProofs {
  import opened Basics
  import opened UnifiedDiff
  import opened PatchExtension

  function ValidHunk(h: Hunk, original: seq<string>): bool {
    MatchesFile(First(h.body), original, h.span.start1)
  }

  function WindowFor(h: Hunk, original: seq<string>, head: seq<string>, cfg: Config): Window {
    WindowOf(h.span, h.section, ValidHunk(h, original), original, head, cfg)
  }

  /** The context lines appended after the hunk, at the next header or at the end. */
  function TrailingFor(h: Hunk, original: seq<string>, cfg: Config): seq<string> {
    TrailingTexts(Pending(h.span, ValidHunk(h, original)), original, cfg)
  }

  function Widened(h: Hunk, original: seq<string>, head: seq<string>, cfg: Config): Hunk {
    var w := WindowFor(h, original, head, cfg);
    Hunk(w.span, w.section, AsContext(w.leading) + h.body + AsContext(TrailingFor(h, original, cfg)))
  }

  function WidenedAll(hunks: seq<Hunk>, original: seq<string>, head: seq<string>, cfg: Config): (r: seq<Hunk>)
    ensures |r| == |hunks|
    ensures forall i | 0 <= i < |r| :: r[i] == Widened(hunks[i], original, head, cfg)
  {
    if hunks == [] then [] else [Widened(hunks[0], original, head, cfg)] + WidenedAll(hunks[1..], original, head, cfg)
  }

  // ---- From lines to hunks -------------------------------------------------

  lemma {:induction false} ExtendedOverBody(body: seq<Line>, rest: seq<Line>, p: Pending,
                                            original: seq<string>, head: seq<string>, cfg: Config)
    requires IsBody(body)
    ensures Extended(body + rest, p, original, head, cfg) == body + Extended(rest, p, original, head, cfg)
  {
    if body == [] {
      assert body + rest == rest;
    } else {
      assert IsBodyLine(body[0]);
      assert (body + rest)[0] == body[0] && (body + rest)[1..] == body[1..] + rest;
      ExtendedOverBody(body[1..], rest, p, original, head, cfg);
      AppendStep([body[0]], body[1..], Extended(rest, p, original, head, cfg));
      assert [body[0]] + body[1..] == body;
    }
  }

  /** A header starts the block of its hunk; the hunk's lines pass through unchanged. */
  lemma {:induction false} ExtendsOneHunk(h: Hunk, rest: seq<Hunk>, p: Pending, original: seq<string>,
                                          head: seq<string>, cfg: Config)
    requires IsBody(h.body)
    ensures var q := Pending(h.span, ValidHunk(h, original));
      Extended([HeaderOf(h)] + (h.body + Render(rest)), p, original, head, cfg)
      == HeaderBlock(TrailingTexts(p, original, cfg), WindowFor(h, original, head, cfg))
         + (h.body + Extended(Render(rest), q, original, head, cfg))
  {
    hide WindowOf, TrailingTexts, MatchesFile, AsContext, HeaderBlock, Render;
    var lines := [HeaderOf(h)] + (h.body + Render(rest));
    assert lines[0] == HeaderOf(h) && lines[1..] == h.body + Render(rest);
    ValidityOfRendered(h, rest, original);
    ExtendedOverBody(h.body, Render(rest), Pending(h.span, ValidHunk(h, original)), original, head, cfg);
  }

  lemma {:induction false} ExtendsHunkByHunk(hunks: seq<Hunk>, p: Pending,
                                             original: seq<string>, head: seq<string>, cfg: Config)
    requires Bodies(hunks)
    ensures Extended(Render(hunks), p, original, head, cfg)
         == AsContext(TrailingTexts(p, original, cfg)) + Render(WidenedAll(hunks, original, head, cfg), true)
  {
    hide WindowOf, TrailingTexts, MatchesFile, AsContext, WindowFor, ValidHunk;
    var owed := AsContext(TrailingTexts(p, original, cfg));
    if hunks == [] {
      assert owed + [] == owed;
    } else {
      var h, rest := hunks[0], hunks[1..];
      assert Render(hunks) == [HeaderOf(h)] + (h.body + Render(rest));
      ExtendsOneHunk(h, rest, p, original, head, cfg);
      ExtendsHunkByHunk(rest, Pending(h.span, ValidHunk(h, original)), original, head, cfg);
      var w := WindowFor(h, original, head, cfg);
      var r := Render(WidenedAll(rest, original, head, cfg), true);
      var x := Widened(h, original, head, cfg);
      var all := WidenedAll(hunks, original, head, cfg);
      assert all[0] == x && all[1..] == WidenedAll(rest, original, head, cfg);
      assert Render(all, true) == [Blank, HeaderOf(x)] + x.body + r;
      BlockRegroups(owed, [Blank, HeaderOf(x)], AsContext(w.leading), h.body, AsContext(TrailingFor(h, original, cfg)),
                    r);
    }
  }

  /** An empty body is followed by a header or by nothing, neither of which is checked. */
  lemma {:induction false} ValidityOfRendered(h: Hunk, rest: seq<Hunk>, original: seq<string>)
    ensures MatchesFile(First(h.body + Render(rest)), original, h.span.start1) == ValidHunk(h, original)
  {
  }

  lemma {:induction false} BlockRegroups<T>(owed: seq<T>, header: seq<T>, leading: seq<T>, body: seq<T>, after: seq<T>,
                                            r: seq<T>)
    ensures (owed + header + leading) + (body + (after + r)) == owed + (header + (leading + body + after) + r)
  {
  }

  // ---- One hunk in its files -----------------------------------------------

  lemma {:induction false} LeadingSlice(s: seq<string>, lo: int, hi: int)
    requires 1 <= lo <= hi && hi - 1 <= |s|
    ensures |PySlice(s, lo - 1, hi - 1)| == hi - lo
    ensures IsSliceAt(s, lo - 1, PySlice(s, lo - 1, hi - 1))
  {
  }

  lemma {:induction false} SliceTail(s: seq<string>, at: int, part: seq<string>, i: nat)
    requires IsSliceAt(s, at, part) && i <= |part|
    ensures IsSliceAt(s, at + i, part[i..])
  {
  }

  lemma {:induction false} JoinSlices(s: seq<string>, at: int, a: seq<string>, b: seq<string>, c: seq<string>)
    requires IsSliceAt(s, at, a) && IsSliceAt(s, at + |a|, b) && IsSliceAt(s, at + |a| + |b|, c)
    ensures IsSliceAt(s, at, a + b + c)
  {
  }

  /** The hunk shows lines of the original file from its start line on, and both sizes are right. */
  predicate Placed(h: Hunk, original: seq<string>) {
    && IsBody(h.body) && SizesExact(h)
    && h.span.start1 >= 1 && h.span.start2 >= 1
    && IsSliceAt(original, h.span.start1 - 1, OldSide(h.body))
  }

  lemma {:induction false} PlacedIsValid(h: Hunk, original: seq<string>)
    requires Placed(h, original)
    ensures ValidHunk(h, original)
  {
  }

  lemma {:induction false} TrailingIsNext(h: Hunk, original: seq<string>, cfg: Config)
    requires Placed(h, original)
    ensures IsSliceAt(original, EndOf(h), TrailingFor(h, original, cfg))
    ensures |TrailingFor(h, original, cfg)| == Min(cfg.after, |original| - EndOf(h))
  {
    PlacedIsValid(h, original);
  }

  /** How many lines of the original file precede the end of the hunk. */
  function EndOf(h: Hunk): int {
    h.span.start1 - 1 + h.span.size1
  }

  /** How a span that widens `h` by `lead1`, `lead2` lines before and `trail` lines after is numbered. */
  predicate Widens(s: Span, h: Span, lead1: int, lead2: int, trail: int) {
    && lead1 >= 0 && lead2 >= 0
    && s.start1 + lead1 == h.start1 && s.size1 == lead1 + h.size1 + trail
    && s.start2 + lead2 == h.start2 && s.size2 == lead2 + h.size2 + trail
  }

  lemma {:induction false} LimitsWiden(h: Hunk, original: seq<string>, cfg: Config, linesBefore: nat)
    requires Placed(h, original)
    ensures var s := ContextLimits(h.span, linesBefore, cfg.after, |original|);
            && s.start1 >= 1 && s.start2 >= 1
            && Widens(s, h.span, h.span.start1 - s.start1, h.span.start2 - s.start2, |TrailingFor(h, original, cfg)|)
  {
    TrailingIsNext(h, original, cfg);
  }

  predicate InRange(s: Span, h: Span, trail: int) {
    s.start1 >= 1 && s.start2 >= 1 && Widens(s, h, h.start1 - s.start1, h.start2 - s.start2, trail)
  }

  /** The leading lines lie just before the hunk in the original file, and in the new file when there is one. */
  predicate LeadingPlaced(w: Window, h: Span, original: seq<string>, head: seq<string>) {
    && h.start1 - w.span.start1 == |w.leading|
    && IsSliceAt(original, w.span.start1 - 1, w.leading)
    && (head != [] ==> h.start2 - w.span.start2 == |w.leading| && IsSliceAt(head, w.span.start2 - 1, w.leading))
  }

  predicate WindowPlaced(w: Window, h: Span, original: seq<string>, head: seq<string>, trail: nat) {
    if w.reset then w.span == h && w.leading == [] && head != []
    else InRange(w.span, h, trail) && LeadingPlaced(w, h, original, head)
  }

  lemma {:induction false} CheckedWindowPlaced(h: Span, section: string, lim: Span, original: seq<string>,
                                               head: seq<string>, trail: nat)
    requires InRange(lim, h, trail)
    requires 1 <= h.start1 <= |original| + 1
    requires 1 <= h.start2 && (head != [] ==> h.start2 - 1 <= |head|)
    ensures WindowPlaced(CheckedWindow(h, section, lim, original, head), h, original, head, trail)
    ensures head == [] ==> CheckedWindow(h, section, lim, original, head).span == lim
  {
    hide PySlice, MiniMatch, IsSliceAt, InRange, LeadingPlaced, Shift;
    var a := PySlice(original, lim.start1 - 1, h.start1 - 1);
    var b := PySlice(head, lim.start2 - 1, h.start2 - 1);
    if head == [] || a == b {
      FullPlaced(h, section, lim, original, head, trail);
    } else if MiniMatch(a, b, 0) < |a| {
      TrimmedPlaced(h, section, lim, original, head, trail, MiniMatch(a, b, 0));
    }
  }

  lemma {:induction false} FullPlaced(h: Span, section: string, lim: Span, original: seq<string>, head: seq<string>,
                                      trail: nat)
    requires InRange(lim, h, trail)
    requires h.start1 - 1 <= |original| && (head != [] ==> h.start2 - 1 <= |head|)
    requires head != [] ==>
             PySlice(original, lim.start1 - 1, h.start1 - 1) == PySlice(head, lim.start2 - 1, h.start2 - 1)
    ensures WindowPlaced(Window(lim, section, PySlice(original, lim.start1 - 1, h.start1 - 1), false), h, original,
                         head, trail)
  {
  }

  /** Leading lines cut down to a common suffix lie before the hunk in both files. */
  lemma {:induction false} TrimmedPlaced(h: Span, section: string, lim: Span, original: seq<string>, head: seq<string>,
                                         trail: nat, i: nat)
    requires InRange(lim, h, trail)
    requires h.start1 - 1 <= |original| && h.start2 - 1 <= |head|
    requires var a, b := PySlice(original, lim.start1 - 1, h.start1 - 1), PySlice(head, lim.start2 - 1, h.start2 - 1);
      i < |a| && a[i..] == PySlice(b, i, |b|)
    ensures WindowPlaced(Window(Shift(lim, i), section, PySlice(original, lim.start1 - 1, h.start1 - 1)[i..], false),
                         h, original, head, trail)
  {
    hide PySlice, IsSliceAt;
    var a, b := PySlice(original, lim.start1 - 1, h.start1 - 1), PySlice(head, lim.start2 - 1, h.start2 - 1);
    LeadingSlice(original, lim.start1, h.start1);
    LeadingSlice(head, lim.start2, h.start2);
    SuffixesOfEqualLength(a, b, i);
    SliceTail(original, lim.start1 - 1, a, i);
    SliceTail(head, lim.start2 - 1, b, i);
  }

  /** Two lists with an equal nonempty suffix from the same index on are equally long. */
  lemma {:induction false} SuffixesOfEqualLength(a: seq<string>, b: seq<string>, i: nat)
    requires i < |a| && a[i..] == PySlice(b, i, |b|)
    ensures |a| == |b| && a[i..] == b[i..]
  {
  }

  /** The limits chosen before the new file is looked at. */
  function ChosenLimits(h: Hunk, original: seq<string>, head: seq<string>, cfg: Config): Span {
    var dyn := if cfg.dynamic && head != [] then DynamicLimits(h.span, h.section, original, head, cfg) else None;
    if dyn.Some? then dyn.value else ContextLimits(h.span, cfg.before, cfg.after, |original|)
  }

  lemma {:induction false} ChosenInRange(h: Hunk, original: seq<string>, head: seq<string>, cfg: Config)
    requires Placed(h, original)
    requires head != [] ==> h.span.start2 - 1 <= |head|
    ensures InRange(ChosenLimits(h, original, head, cfg), h.span, |TrailingFor(h, original, cfg)|)
  {
    LimitsWiden(h, original, cfg, cfg.before);
    if cfg.dynamic && head != [] && DynamicLimits(h.span, h.section, original, head, cfg).Some? {
      DynamicInRange(h, original, head, cfg);
    }
  }

  lemma {:induction false} DynamicInRange(h: Hunk, original: seq<string>, head: seq<string>, cfg: Config)
    requires Placed(h, original) && h.span.start2 - 1 <= |head|
    requires DynamicLimits(h.span, h.section, original, head, cfg).Some?
    ensures InRange(DynamicLimits(h.span, h.section, original, head, cfg).value, h.span,
                    |TrailingFor(h, original, cfg)|)
  {
    hide ContextLimits, FirstContaining, PySlice, TrailingFor, OldSide, NewSide;
    LimitsWiden(h, original, cfg, cfg.beforeDynamic);
    var lim := ContextLimits(h.span, cfg.beforeDynamic, cfg.after, |original|);
    var a := PySlice(original, lim.start1 - 1, h.span.start1 - 1);
    var b := PySlice(head, lim.start2 - 1, h.span.start2 - 1);
    LeadingSlice(original, lim.start1, h.span.start1);
    LeadingSlice(head, lim.start2, h.span.start2);
    SuffixesOfEqualLength(a, b, FirstContaining(a, h.section));
  }

  lemma {:induction false} SectionIrrelevant(w: Window, h: Span, original: seq<string>, head: seq<string>, trail: nat)
    ensures WindowPlaced(w.(section := ""), h, original, head, trail) <==> WindowPlaced(w, h, original, head, trail)
  {
  }

  lemma {:induction false} BareWindowPlaced(h: Hunk, original: seq<string>, head: seq<string>, cfg: Config)
    requires Placed(h, original) && cfg.before == cfg.after == 0
    requires head != [] ==> h.span.start2 - 1 <= |head|
    ensures WindowPlaced(Window(h.span, h.section, [], false), h.span, original, head, |TrailingFor(h, original, cfg)|)
  {
  }

  /** The one fact about the window every theorem below needs. */
  lemma {:induction false} WindowShape(h: Hunk, original: seq<string>, head: seq<string>, cfg: Config)
    requires Placed(h, original)
    requires head != [] ==> h.span.start2 - 1 <= |head|
    ensures WindowPlaced(WindowFor(h, original, head, cfg), h.span, original, head, |TrailingFor(h, original, cfg)|)
    ensures head == [] ==>
              var s := WindowFor(h, original, head, cfg).span;
              s.start1 == Max(1, h.span.start1 - cfg.before) && s.start2 == Max(1, h.span.start2 - cfg.before)
  {
    hide CheckedWindow, TrailingFor, InRange, LeadingPlaced, OldSide, NewSide;
    PlacedIsValid(h, original);
    var trail := |TrailingFor(h, original, cfg)|;
    if cfg.before > 0 || cfg.after > 0 {
      ChosenInRange(h, original, head, cfg);
      var dyn := if cfg.dynamic && head != [] then DynamicLimits(h.span, h.section, original, head, cfg) else None;
      var lim := ChosenLimits(h, original, head, cfg);
      var w := CheckedWindow(h.span, if dyn.Some? then "" else h.section, lim, original, head);
      CheckedWindowPlaced(h.span, if dyn.Some? then "" else h.section, lim, original, head, trail);
      SectionIrrelevant(w, h.span, original, head, trail);
    } else {
      BareWindowPlaced(h, original, head, cfg);
    }
  }

  lemma {:induction false} SidesOfWidened(h: Hunk, original: seq<string>, head: seq<string>, cfg: Config)
    requires IsBody(h.body)
    ensures var x, w, t :=
            Widened(h, original, head, cfg), WindowFor(h, original, head, cfg), TrailingFor(h, original, cfg);
            && IsBody(x.body)
            && OldSide(x.body) == w.leading + OldSide(h.body) + t
            && NewSide(x.body) == w.leading + NewSide(h.body) + t
  {
    var w, t := WindowFor(h, original, head, cfg), TrailingFor(h, original, cfg);
    SidesOfConcat(AsContext(w.leading), h.body);
    SidesOfConcat(AsContext(w.leading) + h.body, AsContext(t));
    SidesOfContext(w.leading);
    SidesOfContext(t);
    BodyConcat(AsContext(w.leading), h.body);
    BodyConcat(AsContext(w.leading) + h.body, AsContext(t));
  }

  // ---- Theorems --------------------------------------------------------------

  /** The old side of every extended hunk is one contiguous slice of the original file from the rewritten start. */
  lemma {:induction false} OldSideIsContiguous(h: Hunk, original: seq<string>, head: seq<string>, cfg: Config)
    requires Placed(h, original)
    requires head != [] ==> h.span.start2 - 1 <= |head|
    ensures Widened(h, original, head, cfg).span.start1 >= 1
    ensures IsSliceAt(original, Widened(h, original, head, cfg).span.start1 - 1,
                      OldSide(Widened(h, original, head, cfg).body))
  {
    hide WindowOf, TrailingTexts, WindowFor, TrailingFor, OldSide, NewSide, AsContext;
    WindowShape(h, original, head, cfg);
    SidesOfWidened(h, original, head, cfg);
    TrailingIsNext(h, original, cfg);
    var w, t := WindowFor(h, original, head, cfg), TrailingFor(h, original, cfg);
    JoinSlices(original, w.span.start1 - 1, w.leading, OldSide(h.body), t);
  }

  predicate SameClamp(s: Span, linesBefore: nat) {
    s.start1 == s.start2 || (s.start1 > linesBefore && s.start2 > linesBefore)
  }

  /**
    Both rewritten sizes equal the lines emitted under the header exactly when
    (a) a reset did not keep the bare sizes while trailing context was appended, and
    (b) without a new file to compare with, both starts are clamped alike.
   */
  lemma {:induction false} HeaderSizesExactIff(h: Hunk, original: seq<string>, head: seq<string>, cfg: Config)
    requires Placed(h, original)
    requires head != [] ==> h.span.start2 - 1 <= |head|
    ensures SizesExact(Widened(h, original, head, cfg))
            <==> if WindowFor(h, original, head, cfg).reset then cfg.after == 0 || EndOf(h) == |original|
                 else head != [] || SameClamp(h.span, cfg.before)
  {
    WindowShape(h, original, head, cfg);
    SidesOfWidened(h, original, head, cfg);
    TrailingIsNext(h, original, cfg);
  }

  /** The new file repeats the original one for `n` lines after the hunk, as far as the original goes. */
  predicate SameAfter(h: Hunk, original: seq<string>, head: seq<string>, n: nat) {
    && 0 <= EndOf(h) <= |original|
    && IsSliceAt(head, h.span.start2 - 1 + h.span.size2, original[EndOf(h)..EndOf(h) + Min(n, |original| - EndOf(h))])
  }

  lemma {:induction false} JoinSlicesIff(s: seq<string>, at: int, a: seq<string>, b: seq<string>, c: seq<string>)
    requires IsSliceAt(s, at, a) && IsSliceAt(s, at + |a|, b)
    ensures IsSliceAt(s, at, a + b + c) <==> IsSliceAt(s, at + |a| + |b|, c)
  {
    if IsSliceAt(s, at, a + b + c) {
      SliceTail(s, at, a + b + c, |a| + |b|);
      assert (a + b + c)[|a| + |b|..] == c;
    } else if IsSliceAt(s, at + |a| + |b|, c) {
      JoinSlices(s, at, a, b, c);
    }
  }

  /**
    The new side of an extended hunk is one contiguous slice of the new file, in every branch, exactly when
    the new file repeats after the hunk the lines the original one has there.
   */
  lemma {:induction false} NewSideContiguousIff(h: Hunk, original: seq<string>, head: seq<string>, cfg: Config)
    requires Placed(h, original)
    requires head != []
    requires IsSliceAt(head, h.span.start2 - 1, NewSide(h.body))
    ensures Widened(h, original, head, cfg).span.start2 >= 1
    ensures IsSliceAt(head, Widened(h, original, head, cfg).span.start2 - 1,
                      NewSide(Widened(h, original, head, cfg).body))
       <==> SameAfter(h, original, head, cfg.after)
  {
    hide WindowOf, TrailingTexts, WindowFor, TrailingFor, OldSide, NewSide, AsContext;
    WindowShape(h, original, head, cfg);
    SidesOfWidened(h, original, head, cfg);
    TrailingIsNext(h, original, cfg);
    var w, t := WindowFor(h, original, head, cfg), TrailingFor(h, original, cfg);
    JoinSlicesIff(head, w.span.start2 - 1, w.leading, NewSide(h.body), t);
  }

  // ---- The whole patch in both files -----------------------------------------

  /** Hunks separated by at least `n` unchanged lines. */
  predicate GapsAtLeast(hunks: seq<Hunk>, n: nat) {
    forall i | 0 < i < |hunks| ::
      OldOffset(hunks[i].span) - (OldOffset(hunks[i - 1].span) + hunks[i - 1].span.size1) >= n
  }

  /** Starts of at least 1; a hunk with an empty side only when no trailing context is asked for. */
  predicate Extendable(hunks: seq<Hunk>, after: nat) {
    && GapsAtLeast(hunks, after)
    && forall h <- hunks :: h.span.start1 >= 1 && h.span.start2 >= 1
                            && (after == 0 || (h.span.size1 >= 1 && h.span.size2 >= 1))
  }

  predicate InFiles(x: Hunk, base: seq<string>, head: seq<string>) {
    && IsBody(x.body) && x.span.start1 >= 1 && x.span.start2 >= 1
    && IsSliceAt(base, x.span.start1 - 1, OldSide(x.body))
    && IsSliceAt(head, x.span.start2 - 1, NewSide(x.body))
  }

  /** Unchanged lines follow every hunk: up to the next one, or to the end of the file. */
  lemma {:induction false} UnchangedAfter(base: seq<string>, head: seq<string>, hunks: seq<Hunk>, p1: nat, p2: nat,
                                          n: nat)
    requires p1 <= |base| && p2 <= |head|
    requires PatchFrom(base, head, hunks, p1, p2)
    requires hunks == [] || OldOffset(hunks[0].span) - p1 >= n
    ensures IsSliceAt(head, p2, base[p1..p1 + Min(n, |base| - p1)])
  {
    hide HunkOf, PatchFrom, OldOffset, NewOffset;
    var m: int := Min(n, |base| - p1);
    if hunks == [] {
      PatchEnd(base, head, p1, p2);
      EqualSlicesAgree(base, head, p1, p2, |base|, |head|, m);
    } else {
      PatchTail(base, head, hunks, p1, p2);
      EqualSlicesAgree(base, head, p1, p2, OldOffset(hunks[0].span), NewOffset(hunks[0].span), m);
    }
  }

  lemma {:induction false} EqualSlicesAgree(s: seq<string>, t: seq<string>, i: nat, j: nat, a: int, b: int, m: nat)
    requires i <= i + m <= a <= |s| && j <= b <= |t|
    requires s[i..a] == t[j..b]
    ensures IsSliceAt(t, j, s[i..i + m])
  {
    TakeOfSlice(s, i, a, m);
    assert |t[j..b]| == a - i;
    TakeOfSlice(t, j, b, m);
  }

  lemma {:induction false} TakeOfSlice(s: seq<string>, i: nat, a: int, m: nat)
    requires i <= i + m <= a <= |s|
    ensures s[i..a][..m] == s[i..i + m]
  {
  }

  lemma {:induction false} PlacedOfHunkOf(base: seq<string>, head: seq<string>, h: Hunk)
    requires HunkOf(base, head, h) && h.span.start1 >= 1 && h.span.start2 >= 1
    ensures Placed(h, base)
    ensures IsSliceAt(head, h.span.start2 - 1, NewSide(h.body))
  {
  }

  lemma {:induction false} FirstHunkReady(base: seq<string>, head: seq<string>, hunks: seq<Hunk>, after: nat, p1: nat,
                                          p2: nat)
    requires p1 <= |base| && p2 <= |head|
    requires hunks != [] && PatchFrom(base, head, hunks, p1, p2)
    requires Extendable(hunks, after)
    ensures Placed(hunks[0], base)
    ensures IsSliceAt(head, hunks[0].span.start2 - 1, NewSide(hunks[0].body))
    ensures SameAfter(hunks[0], base, head, after)
  {
    hide HunkOf, Placed, PatchFrom, IsSliceAt, OldOffset, NewOffset;
    var h := hunks[0];
    FirstOfExtendable(hunks, after);
    PatchTail(base, head, hunks, p1, p2);
    PlacedOfHunkOf(base, head, h);
    if after > 0 {
      UnchangedAfter(base, head, hunks[1..], OldOffset(h.span) + h.span.size1, NewOffset(h.span) + h.span.size2, after);
    }
    SameAfterOffset(h, base, head, after);
  }

  lemma {:induction false} FirstOfExtendable(hunks: seq<Hunk>, after: nat)
    requires hunks != [] && Extendable(hunks, after)
    ensures hunks[0].span.start1 >= 1 && hunks[0].span.start2 >= 1
    ensures after == 0 || (hunks[0].span.size1 >= 1 && hunks[0].span.size2 >= 1)
    ensures |hunks| > 1 ==>
              OldOffset(hunks[1..][0].span) - (OldOffset(hunks[0].span) + hunks[0].span.size1) >= after
  {
  }

  /** The lines after a hunk, counted from its offsets or from its starts. */
  lemma {:induction false} SameAfterOffset(h: Hunk, base: seq<string>, head: seq<string>, after: nat)
    requires HunkOf(base, head, h) && h.span.start1 >= 1 && h.span.start2 >= 1
    requires after == 0 || (h.span.size1 >= 1 && h.span.size2 >= 1)
    requires var p := OldOffset(h.span) + h.span.size1;
      after > 0 ==>
        p <= |base| && IsSliceAt(head, NewOffset(h.span) + h.span.size2, base[p..p + Min(after, |base| - p)])
    ensures SameAfter(h, base, head, after)
  {
    hide IsBody;
  }

  lemma {:induction false} ExtendableRest(hunks: seq<Hunk>, after: nat)
    requires hunks != [] && Extendable(hunks, after)
    ensures Extendable(hunks[1..], after)
  {
  }

  lemma {:induction false} WidenedInFiles(h: Hunk, base: seq<string>, head: seq<string>, cfg: Config)
    requires Placed(h, base) && head != []
    requires IsSliceAt(head, h.span.start2 - 1, NewSide(h.body))
    requires SameAfter(h, base, head, cfg.after)
    ensures InFiles(Widened(h, base, head, cfg), base, head)
  {
    hide Widened;
    OldSideIsContiguous(h, base, head, cfg);
    NewSideContiguousIff(h, base, head, cfg);
    SidesOfWidened(h, base, head, cfg);
  }

  /** Every extended hunk still shows, on both sides, the lines the two files hold from its rewritten starts on. */
  lemma {:induction false} ExtensionStaysInFiles(base: seq<string>, head: seq<string>, hunks: seq<Hunk>, cfg: Config,
                                                 p1: nat, p2: nat)
    requires p1 <= |base| && p2 <= |head|
    requires PatchFrom(base, head, hunks, p1, p2)
    requires head != [] && Extendable(hunks, cfg.after)
    ensures forall i | 0 <= i < |hunks| :: InFiles(WidenedAll(hunks, base, head, cfg)[i], base, head)
    decreases |hunks|
  {
    hide Widened, Placed, SameAfter, HunkOf, IsSliceAt, Extendable, InFiles, PatchFrom;
    if hunks != [] {
      var h, rest := hunks[0], hunks[1..];
      PatchTail(base, head, hunks, p1, p2);
      FirstHunkReady(base, head, hunks, cfg.after, p1, p2);
      WidenedInFiles(h, base, head, cfg);
      ExtendableRest(hunks, cfg.after);
      ExtensionStaysInFiles(base, head, rest, cfg, OldOffset(h.span) + h.span.size1, NewOffset(h.span) + h.span.size2);
      assert WidenedAll(hunks, base, head, cfg)[1..] == WidenedAll(rest, base, head, cfg);
    }
  }

  // ---- When a header is exact, in terms of the headers alone -------------------

  lemma {:induction false} MiniMatchFinds(a: seq<string>, b: seq<string>, i: nat)
    requires i < |a| == |b| && a[|a| - 1] == b[|b| - 1]
    ensures MiniMatch(a, b, i) < |a|
    decreases |a| - i
  {
    if i + 1 < |a| {
      MiniMatchFinds(a, b, i + 1);
    } else {
      assert a[i..] == [a[i]] && b[i..] == [b[i]];
    }
  }

  /** The line before the hunk, if both files have one, is unchanged. */
  predicate LineBeforeSame(h: Span, base: seq<string>, head: seq<string>) {
    h.start1 >= 2 && h.start2 >= 2 && h.start1 - 2 < |base| && h.start2 - 2 < |head| ==>
      base[h.start1 - 2] == head[h.start2 - 2]
  }

  /** Both comparisons of the leading lines fail. */
  predicate NoMatch(a: seq<string>, b: seq<string>) {
    a != b && MiniMatch(a, b, 0) == |a|
  }

  lemma {:induction false} ResetIsNoMatch(h: Span, section: string, lim: Span, base: seq<string>, head: seq<string>)
    requires head != []
    ensures CheckedWindow(h, section, lim, base, head).reset
       <==> NoMatch(PySlice(base, lim.start1 - 1, h.start1 - 1), PySlice(head, lim.start2 - 1, h.start2 - 1))
  {
    hide PySlice, MiniMatch;
  }

  lemma {:induction false} UnequallyMany(a: seq<string>, b: seq<string>)
    requires |a| != |b|
    ensures NoMatch(a, b)
  {
    hide MiniMatch, PySlice;
    if MiniMatch(a, b, 0) < |a| {
      SuffixesOfEqualLength(a, b, MiniMatch(a, b, 0));
    }
  }

  lemma {:induction false} EquallyMany(a: seq<string>, b: seq<string>)
    requires |a| == |b| && (|a| > 0 ==> a[|a| - 1] == b[|b| - 1])
    ensures !NoMatch(a, b)
  {
    hide MiniMatch;
    if |a| > 0 {
      MiniMatchFinds(a, b, 0);
    }
  }

  /** The leading lines are as many as the starts are apart, and the last is the line before the hunk. */
  lemma {:induction false} LeadingEnd(s: seq<string>, lo: int, hi: int)
    requires 1 <= lo <= hi && hi - 1 <= |s|
    ensures |PySlice(s, lo - 1, hi - 1)| == hi - lo
    ensures lo < hi ==> PySlice(s, lo - 1, hi - 1)[hi - lo - 1] == s[hi - 2]
  {
  }

  /** The comparison of leading lines fails for good exactly when they are not equally many. */
  lemma {:induction false} CheckedWindowResetIff(h: Span, section: string, lim: Span, base: seq<string>,
                                                 head: seq<string>, trail: nat)
    requires InRange(lim, h, trail) && head != []
    requires h.start1 - 1 <= |base| && h.start2 - 1 <= |head|
    requires LineBeforeSame(h, base, head)
    ensures CheckedWindow(h, section, lim, base, head).reset <==> h.start1 - lim.start1 != h.start2 - lim.start2
  {
    hide *;
    var a := PySlice(base, lim.start1 - 1, h.start1 - 1);
    var b := PySlice(head, lim.start2 - 1, h.start2 - 1);
    ResetIsNoMatch(h, section, lim, base, head);
    InRangeOrdered(lim, h, trail);
    LeadingEnds(h, lim, base, head);
    if |a| != |b| {
      UnequallyMany(a, b);
    } else {
      EquallyMany(a, b);
    }
  }

  lemma {:induction false} LeadingEnds(h: Span, lim: Span, base: seq<string>, head: seq<string>)
    requires 1 <= lim.start1 <= h.start1 && 1 <= lim.start2 <= h.start2
    requires h.start1 - 1 <= |base| && h.start2 - 1 <= |head|
    requires LineBeforeSame(h, base, head)
    ensures var a, b := PySlice(base, lim.start1 - 1, h.start1 - 1), PySlice(head, lim.start2 - 1, h.start2 - 1);
      && |a| == h.start1 - lim.start1 && |b| == h.start2 - lim.start2
      && (|a| > 0 && |b| > 0 ==> a[|a| - 1] == b[|b| - 1])
  {
    hide PySlice;
    LeadingEnd(base, lim.start1, h.start1);
    LeadingEnd(head, lim.start2, h.start2);
  }

  lemma {:induction false} InRangeOrdered(lim: Span, h: Span, trail: nat)
    requires InRange(lim, h, trail)
    ensures 1 <= lim.start1 <= h.start1 && 1 <= lim.start2 <= h.start2
  {
  }

  predicate DynamicFound(h: Hunk, base: seq<string>, head: seq<string>, cfg: Config) {
    cfg.dynamic && DynamicLimits(h.span, h.section, base, head, cfg).Some?
  }

  lemma {:induction false} DynamicBalanced(h: Hunk, base: seq<string>, head: seq<string>, cfg: Config)
    requires Placed(h, base) && h.span.start2 - 1 <= |head|
    requires DynamicLimits(h.span, h.section, base, head, cfg).Some?
    ensures var s := DynamicLimits(h.span, h.section, base, head, cfg).value;
      h.span.start1 - s.start1 == h.span.start2 - s.start2
  {
    hide ContextLimits, FirstContaining, PySlice, TrailingFor, OldSide, NewSide;
    LimitsWiden(h, base, cfg, cfg.beforeDynamic);
    var lim := ContextLimits(h.span, cfg.beforeDynamic, cfg.after, |base|);
    LeadingSlice(base, lim.start1, h.span.start1);
    LeadingSlice(head, lim.start2, h.span.start2);
    var a := PySlice(base, lim.start1 - 1, h.span.start1 - 1);
    SuffixesOfEqualLength(a, PySlice(head, lim.start2 - 1, h.span.start2 - 1), FirstContaining(a, h.section));
  }

  /** Found dynamic context starts at a line that shows the section, which then leaves the header. */
  lemma {:induction false} DynamicStartsAtSection(h: Hunk, base: seq<string>, head: seq<string>, cfg: Config)
    requires Placed(h, base) && head != [] && h.span.start2 - 1 <= |head|
    requires DynamicFound(h, base, head, cfg) && (cfg.before > 0 || cfg.after > 0)
    ensures var w := WindowFor(h, base, head, cfg);
      && !w.reset && w.section == ""
      && 0 < |w.leading| <= cfg.beforeDynamic && Contains(w.leading[0], h.section)
  {
    hide ContextLimits, FirstContaining, PySlice, MiniMatch, SectionShown, Contains, OldSide, NewSide;
    PlacedIsValid(h, base);
    LimitsWiden(h, base, cfg, cfg.beforeDynamic);
    LimitsReach(h, base, cfg, cfg.beforeDynamic);
    var lim := ContextLimits(h.span, cfg.beforeDynamic, cfg.after, |base|);
    var a := PySlice(base, lim.start1 - 1, h.span.start1 - 1);
    var b := PySlice(head, lim.start2 - 1, h.span.start2 - 1);
    var i := FirstContaining(a, h.section);
    LeadingSlice(base, lim.start1, h.span.start1);
    LeadingSlice(head, lim.start2, h.span.start2);
    SuffixesOfEqualLength(a, b, i);
    LaterSlice(base, lim.start1, h.span.start1, i);
    LaterSlice(head, lim.start2, h.span.start2, i);
  }

  lemma {:induction false} LimitsReach(h: Hunk, base: seq<string>, cfg: Config, linesBefore: nat)
    requires Placed(h, base)
    ensures h.span.start1 - ContextLimits(h.span, linesBefore, cfg.after, |base|).start1 <= linesBefore
  {
  }

  lemma {:induction false} LaterSlice(s: seq<string>, lo: int, hi: int, i: nat)
    requires 1 <= lo <= lo + i <= hi && hi - 1 <= |s|
    ensures PySlice(s, lo + i - 1, hi - 1) == PySlice(s, lo - 1, hi - 1)[i..]
  {
  }

  /** Without dynamic context the header keeps its section exactly when no leading line shows it. */
  lemma {:induction false} SectionNotRepeated(h: Hunk, base: seq<string>, head: seq<string>, cfg: Config)
    requires Placed(h, base) && !cfg.dynamic && (cfg.before > 0 || cfg.after > 0)
    ensures var w := WindowFor(h, base, head, cfg);
      w.section == if h.section != "" && SectionShown(h.section, w.leading) then "" else h.section
  {
    hide ContextLimits, PySlice, MiniMatch, SectionShown, OldSide, NewSide;
    PlacedIsValid(h, base);
  }

  lemma {:induction false} ResetIff(h: Hunk, base: seq<string>, head: seq<string>, cfg: Config)
    requires Placed(h, base) && head != [] && h.span.start2 - 1 <= |head|
    requires LineBeforeSame(h.span, base, head)
    ensures WindowFor(h, base, head, cfg).reset <==> !DynamicFound(h, base, head, cfg) && !SameClamp(h.span, cfg.before)
  {
    hide CheckedWindow, TrailingFor, LineBeforeSame, OldSide, NewSide, DynamicLimits, SectionShown;
    PlacedIsValid(h, base);
    if cfg.before > 0 || cfg.after > 0 {
      ChosenInRange(h, base, head, cfg);
      var lim := ChosenLimits(h, base, head, cfg);
      var section := if DynamicFound(h, base, head, cfg) then "" else h.section;
      CheckedWindowResetIff(h.span, section, lim, base, head, |TrailingFor(h, base, cfg)|);
      assert WindowFor(h, base, head, cfg).reset == CheckedWindow(h.span, section, lim, base, head).reset;
      if DynamicFound(h, base, head, cfg) {
        DynamicBalanced(h, base, head, cfg);
      }
    } else {
      NotFoundWithoutContext(h, base, head, cfg);
    }
  }

  /** With neither leading nor trailing context nothing is widened, and both starts are past zero lines. */
  lemma {:induction false} NotFoundWithoutContext(h: Hunk, base: seq<string>, head: seq<string>, cfg: Config)
    requires Placed(h, base) && cfg.before == cfg.after == 0
    ensures !WindowFor(h, base, head, cfg).reset && SameClamp(h.span, cfg.before)
  {
  }

  /**
    With both files at hand, both rewritten sizes are exact if and only if the starts are clamped alike
    (or dynamic context was found), or no trailing line is appended.
   */
  lemma {:induction false} HeaderSizesGuard(h: Hunk, base: seq<string>, head: seq<string>, cfg: Config)
    requires Placed(h, base) && head != [] && h.span.start2 - 1 <= |head|
    requires LineBeforeSame(h.span, base, head)
    ensures SizesExact(Widened(h, base, head, cfg))
       <==> DynamicFound(h, base, head, cfg) || SameClamp(h.span, cfg.before) || cfg.after == 0 || EndOf(h) == |base|
  {
    hide WindowFor, Widened, DynamicFound, Placed, SizesExact;
    HeaderSizesExactIff(h, base, head, cfg);
    ResetIff(h, base, head, cfg);
  }

  /** Bare unchanged lines before every hunk after the first keep the line before it unchanged. */
  lemma {:induction false} LinesBeforeSame(base: seq<string>, head: seq<string>, hunks: seq<Hunk>, p1: nat, p2: nat)
    requires p1 <= |base| && p2 <= |head|
    requires PatchFrom(base, head, hunks, p1, p2) && GapsAtLeast(hunks, 1)
    requires hunks != [] ==> (p1 == 0 && p2 == 0) || OldOffset(hunks[0].span) - p1 >= 1
    requires forall h <- hunks :: h.span.size1 >= 1 && h.span.size2 >= 1
    ensures forall h <- hunks :: LineBeforeSame(h.span, base, head)
    decreases |hunks|
  {
    hide HunkOf, PatchFrom, LineBeforeSame;
    if hunks != [] {
      var h, rest := hunks[0], hunks[1..];
      assert h in hunks;
      PatchTail(base, head, hunks, p1, p2);
      GapEndsAlike(h.span, base, head, p1, p2);
      assert rest != [] ==> rest[0] == hunks[1];
      assert forall i | 0 < i < |rest| :: rest[i] == hunks[i + 1] && rest[i - 1] == hunks[i];
      LinesBeforeSame(base, head, rest, OldOffset(h.span) + h.span.size1, NewOffset(h.span) + h.span.size2);
    }
  }

  lemma {:induction false} GapEndsAlike(h: Span, base: seq<string>, head: seq<string>, p1: nat, p2: nat)
    requires h.size1 >= 1 && h.size2 >= 1
    requires p1 <= h.start1 - 1 <= |base| && p2 <= h.start2 - 1 <= |head|
    requires base[p1..h.start1 - 1] == head[p2..h.start2 - 1]
    requires (p1 == 0 && p2 == 0) || h.start1 - 1 - p1 >= 1
    ensures LineBeforeSame(h, base, head)
  {
  }
}
