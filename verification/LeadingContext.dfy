/**
  Which lines the extension puts before a hunk, said by slices of the two files
  alone: the longest agreement just before the hunk, or everything from the line
  that shows the section on.
 */
module LeadingContext {
  import opened Basics
  import opened UnifiedDiff
  import opened PatchExtension
  import opened PatchExtensionProofs
  import opened ExtendThenNumber
  import opened ExtendWithoutFile

  /** How many of the `before` lines asked for there are before a line. */
  function Reach(start: int, before: nat): int {
    Min(start - 1, before)
  }

  /** The last `n` lines before the hunk are equal in both files. */
  predicate AgreeBefore(s: Span, base: seq<string>, head: seq<string>, n: nat) {
    && 0 <= s.start1 - 1 - n <= s.start1 - 1 <= |base| && 0 <= s.start2 - 1 - n <= s.start2 - 1 <= |head|
    && base[s.start1 - 1 - n..s.start1 - 1] == head[s.start2 - 1 - n..s.start2 - 1]
  }

  /** `n` is the greatest number within the limit for which they are. */
  predicate LongestAgreement(s: Span, base: seq<string>, head: seq<string>, limit: int, n: nat) {
    && n <= limit && AgreeBefore(s, base, head, n)
    && forall m: nat | n < m <= limit :: !AgreeBefore(s, base, head, m)
  }

  /** Of the lines within the limit, the first one that shows the section is `n` lines before the hunk. */
  predicate SectionBefore(s: Span, section: string, base: seq<string>, limit: int, n: nat) {
    && 1 <= n <= limit <= s.start1 - 1 <= |base|
    && Contains(base[s.start1 - 1 - n], section)
    && forall k | s.start1 - 1 - limit <= k < s.start1 - 1 - n :: !Contains(base[k], section)
  }

  /** The window shows the `n` lines before the hunk. */
  predicate LeadsBy(w: Window, s: Span, base: seq<string>, n: nat) {
    && 0 <= s.start1 - 1 - n <= s.start1 - 1 <= |base|
    && w.leading == base[s.start1 - 1 - n..s.start1 - 1]
    && w.span.start1 == s.start1 - n && w.span.start2 == s.start2 - n
  }

  // ---- Slices before the hunk -----------------------------------------------------------

  lemma {:induction false} SliceBefore(s: seq<string>, lo: int, hi: int)
    requires 1 <= lo <= hi && hi - 1 <= |s|
    ensures PySlice(s, lo - 1, hi - 1) == s[lo - 1..hi - 1]
  {
  }

  lemma {:induction false} RestOfSlice(s: seq<string>, lo: int, hi: int, i: nat)
    requires 0 <= lo <= lo + i <= hi <= |s|
    ensures s[lo..hi][i..] == s[lo + i..hi]
  {
  }

  lemma {:induction false} PySuffix(s: seq<string>, i: nat)
    requires i <= |s|
    ensures PySlice(s, i, |s|) == s[i..]
  {
  }

  /** The search finds the longest common suffix of two equally long lists. */
  lemma {:induction false} LongestSuffix(a: seq<string>, b: seq<string>)
    requires |a| == |b|
    ensures var i := MiniMatch(a, b, 0);
      i <= |a| && a[i..] == b[i..] && forall j: nat | j < i :: a[j..] != b[j..]
  {
    hide PySlice, MiniMatch;
    var i := MiniMatch(a, b, 0);
    PySuffix(b, i);
    forall j: nat | j < i ensures a[j..] != b[j..] {
      PySuffix(b, j);
    }
    assert a[|a|..] == b[|b|..];
  }

  /** Agreement at the end of two equally long lists, from index `i` on. */
  lemma {:induction false} AgreeIsSuffix(s: Span, base: seq<string>, head: seq<string>, limit: nat, i: nat)
    requires limit <= s.start1 - 1 <= |base| && limit <= s.start2 - 1 <= |head| && i <= limit
    ensures AgreeBefore(s, base, head, limit - i)
       <==> base[s.start1 - 1 - limit..s.start1 - 1][i..] == head[s.start2 - 1 - limit..s.start2 - 1][i..]
  {
    RestOfSlice(base, s.start1 - 1 - limit, s.start1 - 1, i);
    RestOfSlice(head, s.start2 - 1 - limit, s.start2 - 1, i);
    assert s.start1 - 1 - limit + i == s.start1 - 1 - (limit - i);
    assert s.start2 - 1 - limit + i == s.start2 - 1 - (limit - i);
  }

  lemma {:induction false} AgreementOf(s: Span, base: seq<string>, head: seq<string>, limit: nat, i: nat)
    requires limit <= s.start1 - 1 <= |base| && limit <= s.start2 - 1 <= |head| && i <= limit
    requires var a, b := base[s.start1 - 1 - limit..s.start1 - 1], head[s.start2 - 1 - limit..s.start2 - 1];
      a[i..] == b[i..] && forall j: nat | j < i :: a[j..] != b[j..]
    ensures LongestAgreement(s, base, head, limit, limit - i)
    ensures base[s.start1 - 1 - limit..s.start1 - 1][i..] == base[s.start1 - 1 - (limit - i)..s.start1 - 1]
  {
    hide AgreeBefore;
    AgreeIsSuffix(s, base, head, limit, i);
    RestOfSlice(base, s.start1 - 1 - limit, s.start1 - 1, i);
    assert s.start1 - 1 - limit + i == s.start1 - 1 - (limit - i);
    forall m: nat | limit - i < m <= limit ensures !AgreeBefore(s, base, head, m) {
      AgreeIsSuffix(s, base, head, limit, limit - m);
    }
  }

  /** The plain window with the new file at hand. */
  lemma {:induction false} CheckedLeading(s: Span, section: string, lim: Span, base: seq<string>, head: seq<string>,
                                          limit: nat)
    requires head != [] && limit <= s.start1 - 1 <= |base| && limit <= s.start2 - 1 <= |head|
    requires lim.start1 == s.start1 - limit && lim.start2 == s.start2 - limit
    ensures var w := CheckedWindow(s, section, lim, base, head);
      LeadsBy(w, s, base, |w.leading|) && LongestAgreement(s, base, head, limit, |w.leading|)
  {
    hide PySlice, MiniMatch, LongestAgreement, AgreeBefore, CheckedWindow, KeptFrom;
    var a, b := base[s.start1 - 1 - limit..s.start1 - 1], head[s.start2 - 1 - limit..s.start2 - 1];
    SliceBefore(base, lim.start1, s.start1);
    SliceBefore(head, lim.start2, s.start2);
    CheckedBy(s, section, lim, base, head);
    LongestKept(s, base, head, limit);
  }

  lemma {:induction false} LongestKept(s: Span, base: seq<string>, head: seq<string>, limit: nat)
    requires limit <= s.start1 - 1 <= |base| && limit <= s.start2 - 1 <= |head|
    ensures var a, b := base[s.start1 - 1 - limit..s.start1 - 1], head[s.start2 - 1 - limit..s.start2 - 1];
      var i := KeptFrom(a, b);
      && i <= limit && LongestAgreement(s, base, head, limit, limit - i)
      && a[i..] == base[s.start1 - 1 - (limit - i)..s.start1 - 1] && (i == limit && a != b ==> limit - i == 0)
  {
    hide LongestAgreement, KeptFrom;
    var a, b := base[s.start1 - 1 - limit..s.start1 - 1], head[s.start2 - 1 - limit..s.start2 - 1];
    KeptFromIs(a, b);
    AgreementOf(s, base, head, limit, KeptFrom(a, b));
  }

  /** From which index on the leading lines are kept. */
  function KeptFrom(a: seq<string>, b: seq<string>): nat {
    if a == b then 0 else MiniMatch(a, b, 0)
  }

  lemma {:induction false} KeptFromIs(a: seq<string>, b: seq<string>)
    requires |a| == |b|
    ensures var i := KeptFrom(a, b);
      i <= |a| && a[i..] == b[i..] && forall j: nat | j < i :: a[j..] != b[j..]
  {
    hide MiniMatch;
    if a == b {
      assert a[0..] == b[0..];
    } else {
      LongestSuffix(a, b);
    }
  }

  lemma {:induction false} CheckedBy(s: Span, section: string, lim: Span, base: seq<string>, head: seq<string>)
    requires head != []
    ensures var a, b := PySlice(base, lim.start1 - 1, s.start1 - 1), PySlice(head, lim.start2 - 1, s.start2 - 1);
      var i, w := KeptFrom(a, b), CheckedWindow(s, section, lim, base, head);
      && i <= |a| && w.leading == a[i..]
      && (i < |a| || a == b ==> w.span.start1 == lim.start1 + i && w.span.start2 == lim.start2 + i)
      && (i == |a| && a != b ==> w.span == s)
  {
    hide PySlice, MiniMatch;
    var a := PySlice(base, lim.start1 - 1, s.start1 - 1);
    assert a[0..] == a && a[|a|..] == [];
  }

  /** Starts clamped differently: no leading line. */
  lemma {:induction false} UnequalLeading(s: Span, section: string, lim: Span, base: seq<string>, head: seq<string>)
    requires head != [] && 1 <= lim.start1 <= s.start1 <= |base| + 1 && 1 <= lim.start2 <= s.start2 <= |head| + 1
    requires s.start1 - lim.start1 != s.start2 - lim.start2
    ensures LeadsBy(CheckedWindow(s, section, lim, base, head), s, base, 0)
  {
    hide PySlice, MiniMatch;
    SliceBefore(base, lim.start1, s.start1);
    SliceBefore(head, lim.start2, s.start2);
    UnequallyMany(PySlice(base, lim.start1 - 1, s.start1 - 1), PySlice(head, lim.start2 - 1, s.start2 - 1));
  }

  lemma {:induction false} PlacedSpan(h: Hunk, base: seq<string>)
    requires Placed(h, base)
    ensures 1 <= h.span.start1 <= |base| + 1 && h.span.start2 >= 1
  {
  }

  lemma {:induction false} LimitStarts(s: Span, base: seq<string>, cfg: Config, before: nat)
    requires s.start1 >= 1 && s.start2 >= 1
    ensures var lim := ContextLimits(s, before, cfg.after, |base|);
      lim.start1 == s.start1 - Reach(s.start1, before) && lim.start2 == s.start2 - Reach(s.start2, before)
  {
  }

  /**
    With the new file at hand and no dynamic context: where as many lines are reached on both sides, the extension
    puts before the hunk the longest run of lines that both files have just before it; elsewhere it puts none.
   */
  lemma {:induction false} LeadingIsLongestAgreement(h: Hunk, base: seq<string>, head: seq<string>, cfg: Config)
    requires Placed(h, base) && head != [] && h.span.start2 - 1 <= |head|
    requires !DynamicFound(h, base, head, cfg)
    ensures var w := WindowFor(h, base, head, cfg);
      && LeadsBy(w, h.span, base, |w.leading|)
      && if Reach(h.span.start1, cfg.before) == Reach(h.span.start2, cfg.before)
         then LongestAgreement(h.span, base, head, Reach(h.span.start1, cfg.before), |w.leading|)
         else w.leading == []
  {
    hide CheckedWindow, ContextLimits, DynamicLimits, OldSide, NewSide, SectionShown, LongestAgreement, AgreeBefore;
    PlacedIsValid(h, base);
    PlacedSpan(h, base);
    if cfg.before > 0 || cfg.after > 0 {
      LimitStarts(h.span, base, cfg, cfg.before);
      var lim := ContextLimits(h.span, cfg.before, cfg.after, |base|);
      if Reach(h.span.start1, cfg.before) == Reach(h.span.start2, cfg.before) {
        CheckedLeading(h.span, h.section, lim, base, head, Reach(h.span.start1, cfg.before));
      } else {
        UnequalLeading(h.span, h.section, lim, base, head);
      }
    } else {
      NoneAgrees(h.span, base, head);
      OnlyNone(h.span, base, head);
    }
  }

  lemma {:induction false} NoneAgrees(s: Span, base: seq<string>, head: seq<string>)
    requires 0 <= s.start1 - 1 <= |base| && 0 <= s.start2 - 1 <= |head|
    ensures AgreeBefore(s, base, head, 0) && base[s.start1 - 1 - 0..s.start1 - 1] == []
  {
  }

  lemma {:induction false} OnlyNone(s: Span, base: seq<string>, head: seq<string>)
    requires AgreeBefore(s, base, head, 0)
    ensures LongestAgreement(s, base, head, 0, 0)
  {
  }

  // ---- Dynamic context ------------------------------------------------------------------------

  /** The first leading line that shows the section, by index or counted from the hunk. */
  lemma {:induction false} FirstShowing(s: Span, section: string, base: seq<string>, limit: nat)
    requires limit <= s.start1 - 1 <= |base|
    ensures var i := FirstContaining(base[s.start1 - 1 - limit..s.start1 - 1], section);
      && (i < limit ==> SectionBefore(s, section, base, limit, limit - i))
      && forall n: nat | SectionBefore(s, section, base, limit, n) :: n == limit - i
  {
    hide FirstContaining, Contains;
    var a := base[s.start1 - 1 - limit..s.start1 - 1];
    var i := FirstContaining(a, section);
    assert forall j | 0 <= j < limit :: a[j] == base[s.start1 - 1 - limit + j];
    forall k | s.start1 - 1 - limit <= k < s.start1 - 1 - limit + i && i <= limit ensures !Contains(base[k], section) {
      assert base[k] == a[k - (s.start1 - 1 - limit)];
    }
    forall n: nat | SectionBefore(s, section, base, limit, n) ensures n == limit - i {
      assert a[limit - n] == base[s.start1 - 1 - n];
      assert i < limit ==> a[i] == base[s.start1 - 1 - limit + i];
    }
  }

  /** Dynamic context starts `n` lines before the hunk. */
  predicate DynamicFrom(h: Hunk, base: seq<string>, head: seq<string>, cfg: Config, n: nat) {
    && cfg.dynamic && Reach(h.span.start1, cfg.beforeDynamic) == Reach(h.span.start2, cfg.beforeDynamic)
    && SectionBefore(h.span, h.section, base, Reach(h.span.start1, cfg.beforeDynamic), n)
    && AgreeBefore(h.span, base, head, n)
  }

  /**
    Dynamic context is found exactly when as many lines are reached on both sides, one of them shows the section,
    and from the first that does the files agree up to the hunk; these lines are then put before it.
   */
  lemma {:induction false} DynamicIff(h: Hunk, base: seq<string>, head: seq<string>, cfg: Config)
    requires Placed(h, base) && head != [] && h.span.start2 - 1 <= |head|
    ensures DynamicFound(h, base, head, cfg) <==> exists n: nat :: DynamicFrom(h, base, head, cfg, n)
    ensures forall n: nat | DynamicFrom(h, base, head, cfg, n) ::
      DynamicLimits(h.span, h.section, base, head, cfg).Some?
      && DynamicLimits(h.span, h.section, base, head, cfg).value.start1 == h.span.start1 - n
      && DynamicLimits(h.span, h.section, base, head, cfg).value.start2 == h.span.start2 - n
  {
    hide FirstContaining, Contains, OldSide, NewSide, SectionBefore, AgreeBefore, DynamicLimits, IsSliceAt, Reach;
    var s := h.span;
    PlacedSpan(h, base);
    ReachBounds(s.start1, cfg.beforeDynamic);
    var r1, r2 := Reach(s.start1, cfg.beforeDynamic), Reach(s.start2, cfg.beforeDynamic);
    var i := FirstContaining(base[s.start1 - 1 - r1..s.start1 - 1], h.section);
    FirstShowing(s, h.section, base, r1);
    NotThatFar(s, h.section, base, r1);
    DynamicByIndex(s, h.section, base, head, cfg);
    assert DynamicLimits(s, h.section, base, head, cfg).Some? && cfg.dynamic ==>
        DynamicFrom(h, base, head, cfg, r1 - i);
  }

  lemma {:induction false} ReachBounds(start: int, before: nat)
    requires start >= 1
    ensures 0 <= Reach(start, before) <= start - 1
  {
  }

  lemma {:induction false} NotThatFar(s: Span, section: string, base: seq<string>, limit: int)
    ensures forall n: nat | SectionBefore(s, section, base, limit, n) :: n >= 1
  {
  }

  /** The search, by the index of the first leading line that shows the section. */
  lemma {:induction false} DynamicByIndex(s: Span, section: string, base: seq<string>, head: seq<string>, cfg: Config)
    requires 1 <= s.start1 <= |base| + 1 && 1 <= s.start2 <= |head| + 1
    ensures var r1, r2 := Reach(s.start1, cfg.beforeDynamic), Reach(s.start2, cfg.beforeDynamic);
      var i, found := FirstContaining(base[s.start1 - 1 - r1..s.start1 - 1], section),
                      DynamicLimits(s, section, base, head, cfg);
      && i <= r1
      && (found.Some? <==> r1 == r2 && i < r1 && AgreeBefore(s, base, head, r1 - i))
      && (found.Some? ==> found.value.start1 == s.start1 - (r1 - i) && found.value.start2 == s.start2 - (r1 - i))
  {
    hide FirstContaining, AgreeBefore, PySlice, DynamicLimits, Reach;
    DynamicBySlices(s, section, base, head, cfg);
    ReachBounds(s.start1, cfg.beforeDynamic);
    ReachBounds(s.start2, cfg.beforeDynamic);
    var r1, r2 := Reach(s.start1, cfg.beforeDynamic), Reach(s.start2, cfg.beforeDynamic);
    var a, b := base[s.start1 - 1 - r1..s.start1 - 1], head[s.start2 - 1 - r2..s.start2 - 1];
    var i := FirstContaining(a, section);
    if r1 == r2 {
      PySuffix(b, i);
      AgreeIsSuffix(s, base, head, r1, i);
    } else if i < |a| && a[i..] == PySlice(b, i, |b|) {
      SuffixesOfEqualLength(a, b, i);
    }
  }

  lemma {:induction false} DynamicBySlices(s: Span, section: string, base: seq<string>, head: seq<string>, cfg: Config)
    requires 1 <= s.start1 <= |base| + 1 && 1 <= s.start2 <= |head| + 1
    ensures var r1, r2 := Reach(s.start1, cfg.beforeDynamic), Reach(s.start2, cfg.beforeDynamic);
      var a, b := base[s.start1 - 1 - r1..s.start1 - 1], head[s.start2 - 1 - r2..s.start2 - 1];
      var i, found := FirstContaining(a, section), DynamicLimits(s, section, base, head, cfg);
      && (found.Some? <==> i < |a| && a[i..] == PySlice(b, i, |b|))
      && (found.Some? ==> found.value.start1 == s.start1 - (r1 - i) && found.value.start2 == s.start2 - (r2 - i))
  {
    hide FirstContaining, ContextLimits, PySlice;
    LimitStarts(s, base, cfg, cfg.beforeDynamic);
    var lim := ContextLimits(s, cfg.beforeDynamic, cfg.after, |base|);
    SliceBefore(base, lim.start1, s.start1);
    SliceBefore(head, lim.start2, s.start2);
  }

  /** The dynamic context put before the hunk; the section leaves the header. */
  lemma {:induction false} DynamicLeading(h: Hunk, base: seq<string>, head: seq<string>, cfg: Config, n: nat)
    requires Placed(h, base) && head != [] && h.span.start2 - 1 <= |head| && (cfg.before > 0 || cfg.after > 0)
    requires DynamicFrom(h, base, head, cfg, n)
    ensures var w := WindowFor(h, base, head, cfg);
      LeadsBy(w, h.span, base, n) && w.section == ""
  {
    hide CheckedWindow, DynamicLimits, OldSide, NewSide, Contains, SectionBefore, AgreeBefore;
    PlacedIsValid(h, base);
    PlacedSpan(h, base);
    DynamicIff(h, base, head, cfg);
    AgreedReach(h.span, base, head, n);
    CheckedLeading(h.span, "", DynamicLimits(h.span, h.section, base, head, cfg).value, base, head, n);
    DynamicStartsAtSection(h, base, head, cfg);
  }

  lemma {:induction false} AgreedReach(s: Span, base: seq<string>, head: seq<string>, n: nat)
    requires AgreeBefore(s, base, head, n)
    ensures n <= s.start1 - 1 <= |base| && n <= s.start2 - 1 <= |head|
    ensures forall m: nat | LongestAgreement(s, base, head, n, m) :: m == n
  {
  }

  /** A search for dynamic context that fails leaves the section where it was. */
  lemma {:induction false} SectionKept(h: Hunk, base: seq<string>, head: seq<string>, cfg: Config)
    requires Placed(h, base) && cfg.dynamic && !DynamicFound(h, base, head, cfg)
    ensures WindowFor(h, base, head, cfg).section == h.section
  {
    hide DynamicLimits, PySlice, MiniMatch, ContextLimits, SectionShown, OldSide, NewSide;
    PlacedIsValid(h, base);
  }

  /** In a patch whose hunks are as far apart as the leading context, all of it is put before every hunk. */
  lemma {:induction false} AllLeadingLines(base: seq<string>, head: seq<string>, hunks: seq<Hunk>, cfg: Config, h: Hunk)
    requires PatchOf(base, head, hunks) && head != [] && GapsAtLeast(hunks, cfg.before)
    requires forall h <- hunks :: h.span.size1 >= 1 && h.span.size2 >= 1
    requires h in hunks && !DynamicFound(h, base, head, cfg)
    ensures 1 <= h.span.start1 <= |base| + 1
    ensures WindowFor(h, base, head, cfg).leading == base[Max(1, h.span.start1 - cfg.before) - 1..h.span.start1 - 1]
  {
    hide PatchFrom, HunkOf, WindowFor, DynamicFound, OldSide, NewSide, GapsAtLeast, LongestAgreement, Placed, Widened;
    hide Reach, LeadsBy, LeadingSame, SameClamp;
    PatchBodies(base, head, hunks, 0, 0);
    StartsPositive(base, head, h);
    PlacedOfHunkOf(base, head, h);
    StartWithin(h, head);
    PlacedSpan(h, base);
    LeadingUnchanged(base, head, hunks, cfg.before, 0, 0);
    LeadingIsLongestAgreement(h, base, head, cfg);
    WholeReach(h, base, head, cfg.before, WindowFor(h, base, head, cfg));
  }

  /** Where the files agree on all lines within reach, the longest agreement is all of them. */
  lemma {:induction false} WholeReach(h: Hunk, base: seq<string>, head: seq<string>, before: nat, w: Window)
    requires 1 <= h.span.start1 <= |base| + 1 && 1 <= h.span.start2 <= |head| + 1
    requires SameClamp(h.span, before) && LeadingSame(h, base, head, before)
    requires LeadsBy(w, h.span, base, |w.leading|)
    requires Reach(h.span.start1, before) == Reach(h.span.start2, before) ==>
               LongestAgreement(h.span, base, head, Reach(h.span.start1, before), |w.leading|)
    ensures w.leading == base[Max(1, h.span.start1 - before) - 1..h.span.start1 - 1]
  {
    hide AgreeBefore, SameClamp, LeadingSame;
    AgreesAsFar(h, base, head, before);
  }

  lemma {:induction false} AgreesAsFar(h: Hunk, base: seq<string>, head: seq<string>, before: nat)
    requires 1 <= h.span.start1 <= |base| + 1 && 1 <= h.span.start2 <= |head| + 1
    requires SameClamp(h.span, before) && LeadingSame(h, base, head, before)
    ensures var n := Reach(h.span.start1, before);
      n >= 0 && n == Reach(h.span.start2, before) && AgreeBefore(h.span, base, head, n)
  {
    hide LeadingOf, IsSliceAt;
    var n := Reach(h.span.start1, before);
    LeadingIs(h, base, before);
    SliceAtEnd(head, h.span.start2 - 1 - n, base[h.span.start1 - 1 - n..h.span.start1 - 1]);
  }

  lemma {:induction false} LeadingIs(h: Hunk, base: seq<string>, before: nat)
    requires 1 <= h.span.start1 <= |base| + 1
    ensures var n := Reach(h.span.start1, before);
      0 <= n <= h.span.start1 - 1 && LeadingOf(h, base, before) == base[h.span.start1 - 1 - n..h.span.start1 - 1]
  {
  }

  lemma {:induction false} SliceAtEnd(whole: seq<string>, offset: int, part: seq<string>)
    requires IsSliceAt(whole, offset, part)
    ensures 0 <= offset <= offset + |part| <= |whole| && whole[offset..offset + |part|] == part
  {
  }

  /**
    Without the new file, the header of any hunk that passes the first-line check: the old side ends with the file,
    the new side loses as much as lies behind its end, and neither falls below its bare size, not even where the bare
    hunk reaches beyond the file.
   */
  lemma {:induction false} HeaderWithoutFile(span: Span, section: string, base: seq<string>, cfg: Config)
    requires span.start1 >= 1 && span.start2 >= 1 && (cfg.before > 0 || cfg.after > 0)
    ensures var r1, r2 := Reach(span.start1, cfg.before), Reach(span.start2, cfg.before);
      var behind := Max(0, span.start1 - 1 + span.size1 + cfg.after - |base|);
      WindowOf(span, section, true, base, [], cfg).span
      == Span(span.start1 - r1, Max(span.size1, Min(span.size1 + r1 + cfg.after, |base| - (span.start1 - 1 - r1))),
              span.start2 - r2, Max(span.size2, span.size2 + r2 + cfg.after - behind))
  {
    hide SectionShown, PySlice;
  }

  // ---- Hunks that do not fit the file ---------------------------------------------------------

  predicate AllSpace(s: string) {
    forall c <- s :: IsSpace(c)
  }

  /** What stripping leaves: the text between the white space at its two ends. */
  lemma {:induction false} StripIsCore(s: string) returns (l: string, r: string)
    ensures s == l + Strip(s) + r && AllSpace(l) && AllSpace(r)
    ensures Strip(s) != "" ==> !IsSpace(Strip(s)[0]) && !IsSpace(Strip(s)[|Strip(s)| - 1])
  {
    l := StripLeftIsRest(s);
    r := StripRightIsRest(StripLeft(s));
    assert l + (Strip(s) + r) == l + Strip(s) + r;
  }

  lemma {:induction false} StripLeftIsRest(s: string) returns (l: string)
    ensures s == l + StripLeft(s) && AllSpace(l)
    ensures StripLeft(s) != "" ==> !IsSpace(StripLeft(s)[0])
  {
    if s != "" && IsSpace(s[0]) {
      var rest := StripLeftIsRest(s[1..]);
      l := [s[0]] + rest;
    } else {
      l := "";
    }
  }

  lemma {:induction false} StripRightIsRest(s: string) returns (r: string)
    ensures s == StripRight(s) + r && AllSpace(r)
    ensures StripRight(s) != "" ==> !IsSpace(StripRight(s)[|StripRight(s)| - 1]) && StripRight(s)[0] == s[0]
  {
    if s != "" && IsSpace(s[|s| - 1]) {
      var rest := StripRightIsRest(s[..|s| - 1]);
      r := rest + [s[|s| - 1]];
    } else {
      r := "";
    }
  }

  /** Only a first line of context is compared, and only where the file has a line; line 0 stands for the last one. */
  lemma {:induction false} FirstLineCheck(next: Option<Line>, base: seq<string>, start1: nat)
    ensures next.None? || !next.value.Context? ==> MatchesFile(next, base, start1)
    ensures start1 > |base| || base == [] ==> MatchesFile(next, base, start1)
    ensures next.Some? && next.value.Context? && base != [] && start1 <= |base| ==>
              (MatchesFile(next, base, start1)
               <==> Strip(next.value.text) == Strip(base[if start1 == 0 then |base| - 1 else start1 - 1]))
  {
    if next.Some? && next.value.Context? {
      SpaceInFront(next.value.text);
    }
  }

  /**
    A hunk whose first line is context that the file does not hold at its start, white space at the ends aside, is
    copied as it stands: nothing is put before or behind it.
   */
  lemma {:induction false} MisplacedHunkIsCopied(span: Span, section: string, text: string, rest: seq<Line>,
                                                 base: seq<string>, head: seq<string>, cfg: Config)
    requires 1 <= span.start1 <= |base| && Strip(text) != Strip(base[span.start1 - 1])
    requires forall l <- rest :: !l.Header?
    ensures Extended([Header(span, section), Context(text)] + rest, NoHunk, base, head, cfg)
         == [Blank, Header(span, section), Context(text)] + rest
  {
    var lines, body := [Header(span, section), Context(text)] + rest, [Context(text)] + rest;
    assert lines[1..] == body && body[1..] == rest;
    SpaceInFront(text);
    assert !MatchesFile(First(body), base, span.start1);
    var q := Pending(span, false);
    CopiesOthers(body, [], q, base, head, cfg);
    assert body + [] == body;
    assert AsContext([]) == [];
    assert Extended([], q, base, head, cfg) == [];
  }

  lemma {:induction false} SpaceInFront(text: string)
    ensures Strip([' '] + text) == Strip(text)
  {
    assert ([' '] + text)[1..] == text;
  }

  /** Lines that are no header are passed on. */
  lemma {:induction false} CopiesOthers(lines: seq<Line>, rest: seq<Line>, p: Pending, base: seq<string>,
                                        head: seq<string>, cfg: Config)
    requires forall l <- lines :: !l.Header?
    ensures Extended(lines + rest, p, base, head, cfg) == lines + Extended(rest, p, base, head, cfg)
    decreases |lines|
  {
    hide TrailingTexts, WindowOf;
    if lines == [] {
      assert lines + rest == rest;
    } else {
      assert (lines + rest)[1..] == lines[1..] + rest && lines == [lines[0]] + lines[1..];
      CopiesOthers(lines[1..], rest, p, base, head, cfg);
      AppendStep([lines[0]], lines[1..], Extended(rest, p, base, head, cfg));
    }
  }
}
