/**
  Placing code suggestions inside the hunks of a pull request
  (`validate_comments_inside_hunks`) and posting them (`publish_code_suggestions`).
 */
module SuggestionRelocation {
  import opened Basics
  import opened UnifiedDiff

  /** The new-side lines of a hunk, both ends inclusive. */
  datatype Range = Range(start: int, end: int)

  datatype Suggestion = Suggestion(start: Option<int>, end: Option<int>, hasOriginal: bool, committable: bool)

  const REASONABLE_DISTANCE := 10

  function RangesOf(patch: seq<Line>): seq<Range> {
    if patch == [] then [] else RangeOfLine(patch[0]) + RangesOf(patch[1..])
  }

  /** Only a header has a range: the new-side lines of its hunk, both ends included. */
  function RangeOfLine(l: Line): seq<Range> {
    if l.Header? then [Range(l.span.start2, l.span.start2 + l.span.size2 - 1)] else []
  }

  lemma {:induction false} RangesStep(patch: seq<Line>, i: nat)
    requires i <= |patch|
    ensures RangesOf(patch[i..]) == if i == |patch| then [] else RangeOfLine(patch[i]) + RangesOf(patch[i + 1..])
    ensures patch[0..] == patch
  {
  }

  /** A file of the diff; its ranges are computed on demand and kept. */
  class DiffFile {
    const patch: seq<Line>
    var patchesRange: Option<seq<Range>>

    constructor (patch: seq<Line>)
      ensures this.patch == patch && patchesRange == None
    {
      this.patch := patch;
      patchesRange := None;
    }

    predicate Valid()
      reads this
    {
      patchesRange.Some? ==> patchesRange.value == RangesOf(patch)
    }

    method Ranges() returns (ranges: seq<Range>)
      requires Valid()
      modifies this
      ensures Valid() && patchesRange == Some(ranges) && ranges == RangesOf(patch)
    {
      if patchesRange.Some? {
        return patchesRange.value;
      }
      hide RangesOf;
      ranges := [];
      var i := 0;
      while i < |patch|
        invariant 0 <= i <= |patch|
        invariant ranges + RangesOf(patch[i..]) == RangesOf(patch)
        invariant patchesRange == old(patchesRange)
      {
        RangesStep(patch, i);
        AppendStep(ranges, RangeOfLine(patch[i]), RangesOf(patch[i + 1..]));
        if patch[i].Header? {
          ranges := ranges + [Range(patch[i].span.start2, patch[i].span.start2 + patch[i].span.size2 - 1)];
        }
        i := i + 1;
      }
      RangesStep(patch, i);
      AppendStep(ranges, [], []);
      patchesRange := Some(ranges);
    }
  }

  predicate Truthy(n: Option<int>) {
    n.Some? && n.value != 0
  }

  predicate Complete(s: Suggestion) {
    Truthy(s.start) && Truthy(s.end) && s.hasOriginal
  }

  predicate Contains(r: Range, start: int, end: int) {
    r.start <= start && end <= r.end
  }

  /** One end of the suggestion is on the hunk's side of the hunk's end, the other is not. */
  predicate Straddles(r: Range, start: int, end: int) {
    !Contains(r, start, end) && (start >= r.start || end <= r.end)
  }

  /** By how many lines the suggestion sticks out. */
  function Overhang(r: Range, start: int, end: int): nat {
    Max(Max(0, r.start - start), Max(0, end - r.end))
  }

  /** The product test of the source: a suggestion with both ends outside the hunk has a positive product. */
  lemma {:induction false} ProductSign(d1: int, d2: int)
    ensures !(d1 >= 0 && d2 >= 0) ==> (d1 * d2 <= 0 <==> (d1 >= 0 || d2 >= 0))
  {
  }

  datatype Search = Found | Nearest(best: Option<Range>)

  /** Among the first `n` ranges number `at` is the first of the straddling ones with the least overhang. */
  predicate FirstNearest(ranges: seq<Range>, n: nat, at: nat, start: int, end: int)
    requires at < n <= |ranges|
  {
    && Straddles(ranges[at], start, end)
    && forall j | 0 <= j < n && Straddles(ranges[j], start, end) ::
         && Overhang(ranges[at], start, end) <= Overhang(ranges[j], start, end)
         && (j < at ==> Overhang(ranges[at], start, end) < Overhang(ranges[j], start, end))
  }

  /** `best` is the first of the straddling ranges with the least overhang. */
  predicate IsNearest(best: Option<Range>, ranges: seq<Range>, start: int, end: int) {
    if best.None? then forall r <- ranges :: !Straddles(r, start, end)
    else exists at | 0 <= at < |ranges| :: ranges[at] == best.value && FirstNearest(ranges, |ranges|, at, start, end)
  }

  method FindHunk(ranges: seq<Range>, start: int, end: int) returns (s: Search)
    ensures s.Found? <==> exists r <- ranges :: Contains(r, start, end)
    ensures s.Nearest? ==> IsNearest(s.best, ranges, start, end)
  {
    var best: Option<Range> := None;
    var minDistance := 0;
    ghost var at := 0;
    var i := 0;
    while i < |ranges|
      invariant 0 <= i <= |ranges|
      invariant forall r <- ranges[..i] :: !Contains(r, start, end)
      invariant best.None? ==> forall j | 0 <= j < i :: !Straddles(ranges[j], start, end)
      invariant best.Some? ==> 0 <= at < i && ranges[at] == best.value && FirstNearest(ranges, i, at, start, end)
      invariant best.Some? ==> minDistance == Overhang(best.value, start, end)
    {
      var r := ranges[i];
      assert ranges[..i + 1] == ranges[..i] + [r];
      var d1, d2 := start - r.start, r.end - end;
      ProductSign(d1, d2);
      if d1 >= 0 && d2 >= 0 {
        assert r in ranges;
        return Found;
      } else if d1 * d2 <= 0 {
        var d := Max(Max(0, -d1), Max(0, -d2));
        assert d == Overhang(r, start, end);
        if best.None? || d < minDistance {
          best, minDistance, at := Some(r), d, i;
        }
      }
      i := i + 1;
    }
    assert ranges[..i] == ranges;
    s := Nearest(best);
  }

  /** How a suggestion is treated. */
  predicate Inside(ranges: seq<Range>, s: Suggestion)
    requires Complete(s)
  {
    exists r <- ranges :: Contains(r, s.start.value, s.end.value)
  }

  predicate Near(ranges: seq<Range>, s: Suggestion)
    requires Complete(s)
  {
    exists r <- ranges ::
      Straddles(r, s.start.value, s.end.value) && Overhang(r, s.start.value, s.end.value) < 10
  }

  /** Moved into `r`: clipped to the hunk and no longer committable. */
  function MovedInto(s: Suggestion, r: Range): Suggestion
    requires Complete(s)
  {
    Suggestion(Some(Max(s.start.value, r.start)), Some(Min(s.end.value, r.end)), s.hasOriginal, false)
  }

  method ValidateSuggestion(file: DiffFile, s: Suggestion) returns (out: Suggestion)
    requires file.Valid()
    modifies file
    ensures file.Valid()
    ensures s.start in {None, Some(0)} || s.end in {None, Some(0)} || !s.hasOriginal ==> out == s
    ensures Complete(s) ==> Validated(s, out, RangesOf(file.patch))
    ensures Complete(s) && (Inside(RangesOf(file.patch), s) || !Near(RangesOf(file.patch), s)) ==> out == s
    ensures Complete(s) && !Inside(RangesOf(file.patch), s) && Near(RangesOf(file.patch), s) ==>
              exists r <- RangesOf(file.patch) ::
                IsNearest(Some(r), RangesOf(file.patch), s.start.value, s.end.value) && out == MovedInto(s, r)
  {
    var ranges := file.Ranges();
    out := s;
    if !Complete(s) {
      return;
    }
    var found := FindHunk(ranges, s.start.value, s.end.value);
    if found.Nearest? && found.best.Some?
      && Overhang(found.best.value, s.start.value, s.end.value) < REASONABLE_DISTANCE {
      out := MovedInto(s, found.best.value);
    }
  }

  // ---- Posting --------------------------------------------------------------------

  datatype PostParameters = MultiLine(line: int, startLine: int) | SingleLine(line: int)

  predicate Posted(s: Suggestion) {
    Truthy(s.start) && s.start.value != -1 && s.end.Some? && s.end.value >= s.start.value
  }

  function ParametersOf(s: Suggestion): PostParameters
    requires Posted(s)
  {
    if s.end.value > s.start.value then MultiLine(s.end.value, s.start.value) else SingleLine(s.start.value)
  }

  function AllParameters(suggestions: seq<Suggestion>): seq<PostParameters> {
    if suggestions == [] then [] else PostOf(suggestions[0]) + AllParameters(suggestions[1..])
  }

  function PostOf(s: Suggestion): seq<PostParameters> {
    if Posted(s) then [ParametersOf(s)] else []
  }

  /** A suggestion that is not skipped for its start has an end; a missing end would raise at the comparison. */
  method PublishCodeSuggestions(suggestions: seq<Suggestion>) returns (posts: seq<PostParameters>)
    requires forall s <- suggestions :: Truthy(s.start) && s.start.value != -1 ==> s.end.Some?
    ensures posts == AllParameters(suggestions)
  {
    posts := [];
    var i := 0;
    while i < |suggestions|
      invariant 0 <= i <= |suggestions|
      invariant posts + AllParameters(suggestions[i..]) == AllParameters(suggestions)
    {
      var s := suggestions[i];
      assert suggestions[i..][0] == s && suggestions[i..][1..] == suggestions[i + 1..];
      AppendStep(posts, PostOf(s), AllParameters(suggestions[i + 1..]));
      AppendStep(posts, [], []);
      i := i + 1;
      if !Truthy(s.start) || s.start.value == -1 {
        continue;
      }
      if s.end.value < s.start.value {
        continue;
      }
      if s.end.value > s.start.value {
        posts := posts + [MultiLine(s.end.value, s.start.value)];
      } else {
        posts := posts + [SingleLine(s.start.value)];
      }
    }
  }

  // ---- Soundness --------------------------------------------------------------------------

  /** What ValidateSuggestion may return. */
  predicate Validated(s: Suggestion, out: Suggestion, ranges: seq<Range>)
    requires Complete(s)
  {
    if Inside(ranges, s) || !Near(ranges, s) then out == s
    else exists r <- ranges :: IsNearest(Some(r), ranges, s.start.value, s.end.value) && out == MovedInto(s, r)
  }

  predicate Within(start: int, end: int, s: Suggestion)
    requires Complete(s)
  {
    s.start.value <= start && end <= s.end.value
  }

  /** A suggestion found inside a hunk or moved, and then posted, lies inside one hunk and inside its own range. */
  lemma {:induction false} RelocationIsSound(s: Suggestion, out: Suggestion, ranges: seq<Range>)
    requires Complete(s) && Validated(s, out, ranges) && Posted(out)
    requires Inside(ranges, s) || Near(ranges, s)
    ensures exists r <- ranges :: Contains(r, out.start.value, out.end.value)
    ensures Within(out.start.value, out.end.value, s)
  {
  }

  /** A posted suggestion lies in a hunk if and only if it was inside one or near one before. */
  lemma {:induction false} PostedInHunkIff(s: Suggestion, out: Suggestion, ranges: seq<Range>)
    requires Complete(s) && Validated(s, out, ranges) && Posted(out)
    ensures (exists r <- ranges :: Contains(r, out.start.value, out.end.value))
            <==> Inside(ranges, s) || Near(ranges, s)
  {
  }

  /** A moved suggestion is posted exactly when it shares a line with the hunk it was moved to. */
  lemma {:induction false} MovedIsPostedIff(s: Suggestion, r: Range)
    requires Complete(s) && s.start.value <= s.end.value && s.start.value >= 1 && r.start >= 1 && r.start <= r.end
    requires Straddles(r, s.start.value, s.end.value)
    ensures Posted(MovedInto(s, r)) <==> s.start.value <= r.end && r.start <= s.end.value
  {
  }

  predicate Encloses(s: Suggestion, r: Range)
    requires Complete(s)
  {
    s.start.value < r.start && r.end < s.end.value
  }

  /**
    If of every hunk the suggestion sticks out on both sides, or by ten lines, it is posted where it stands, in no
    hunk.
   */
  lemma {:induction false} EnclosingSuggestionStays(s: Suggestion, out: Suggestion, ranges: seq<Range>)
    requires Complete(s) && 1 <= s.start.value <= s.end.value && Validated(s, out, ranges)
    requires forall r <- ranges :: Encloses(s, r) || Overhang(r, s.start.value, s.end.value) >= 10
    ensures out == s && Posted(out)
    ensures AllParameters([out])
         == [if s.start.value < s.end.value then MultiLine(s.end.value, s.start.value) else SingleLine(s.start.value)]
    ensures forall r <- ranges :: !Contains(r, out.start.value, out.end.value)
  {
    assert [out][1..] == [];
  }

  // ---- What the ranges and the treatment mean ------------------------------------------------

  /** The ranges of a rendered patch are those of its hunks, in order. */
  lemma {:induction false} RangesOfRendered(hunks: seq<Hunk>)
    requires Bodies(hunks)
    ensures |RangesOf(Render(hunks))| == |hunks|
    ensures forall i | 0 <= i < |hunks| ::
      RangesOf(Render(hunks))[i]
      == Range(hunks[i].span.start2, hunks[i].span.start2 + hunks[i].span.size2 - 1)
    decreases |hunks|
  {
    if hunks != [] {
      var h, rest := hunks[0], hunks[1..];
      assert h in hunks && forall g <- rest :: g in hunks;
      assert Render(hunks) == [HeaderOf(h)] + (h.body + Render(rest));
      assert ([HeaderOf(h)] + (h.body + Render(rest)))[1..] == h.body + Render(rest);
      RangesOverBody(h.body, Render(rest));
      RangesOfRendered(rest);
      forall i | 0 <= i < |hunks|
        ensures RangesOf(Render(hunks))[i]
             == Range(hunks[i].span.start2, hunks[i].span.start2 + hunks[i].span.size2 - 1)
      {
        if i > 0 {
          assert hunks[i] == rest[i - 1];
        }
      }
    }
  }

  lemma {:induction false} RangesOverBody(body: seq<Line>, rest: seq<Line>)
    requires IsBody(body)
    ensures RangesOf(body + rest) == RangesOf(rest)
    decreases |body|
  {
    if body == [] {
      assert body + rest == rest;
    } else {
      assert IsBodyLine(body[0]) && (body + rest)[1..] == body[1..] + rest;
      RangesOverBody(body[1..], rest);
    }
  }

  /** In a well-formed patch the range of a hunk that shows new lines holds exactly their numbers in the new file. */
  lemma {:induction false} RangeShowsNewSide(base: seq<string>, head: seq<string>, hunks: seq<Hunk>, i: nat)
    requires Bodies(hunks) && i < |hunks| && HunkOf(base, head, hunks[i]) && NewSide(hunks[i].body) != []
    ensures |RangesOf(Render(hunks))| == |hunks|
    ensures var r, side := RangesOf(Render(hunks))[i], NewSide(hunks[i].body);
      && 1 <= r.start <= r.end <= |head| && head[r.start - 1..r.end] == side
      && forall n :: Contains(r, n, n) <==> 0 <= n - hunks[i].span.start2 < |side|
  {
    hide RangesOf, OldSide, NewSide;
    RangesOfRendered(hunks);
  }

  predicate CloseTo(r: Range, a: int, b: int) {
    (r.start <= a || b <= r.end) && r.start - a < 10 && b - r.end < 10
  }

  /** `r` is not farther off than `q`, and nearer if `q` stands first, as far as `q` is straddled. */
  predicate Preferred(r: Range, q: Range, qFirst: bool, a: int, b: int) {
    q.start <= a || b <= q.end ==>
      var off, other := Max(Max(0, r.start - a), Max(0, b - r.end)), Max(Max(0, q.start - a), Max(0, b - q.end));
      off <= other && (qFirst ==> off < other)
  }

  /** Range number `i` is close and preferred to all others. */
  predicate MovesTo(ranges: seq<Range>, i: nat, a: int, b: int)
    requires i < |ranges|
  {
    CloseTo(ranges[i], a, b) && forall j | 0 <= j < |ranges| :: Preferred(ranges[i], ranges[j], j < i, a, b)
  }

  /** What becomes of a complete suggestion from line `a` to line `b`, in plain numbers. */
  lemma {:induction false} ValidatedMeans(s: Suggestion, out: Suggestion, ranges: seq<Range>)
    requires Complete(s) && Validated(s, out, ranges)
    ensures var a, b := s.start.value, s.end.value;
      if (exists r <- ranges :: r.start <= a && b <= r.end) || (forall r <- ranges :: !CloseTo(r, a, b)) then out == s
      else exists i | 0 <= i < |ranges| ::
        && MovesTo(ranges, i, a, b)
        && out == Suggestion(Some(Max(a, ranges[i].start)), Some(Min(b, ranges[i].end)), s.hasOriginal, false)
  {
    hide IsNearest, MovesTo;
    var a, b := s.start.value, s.end.value;
    if exists r <- ranges :: r.start <= a && b <= r.end {
      assert Inside(ranges, s);
    } else {
      assert !Inside(ranges, s);
      if exists r <- ranges :: CloseTo(r, a, b) {
        var c :| c in ranges && CloseTo(c, a, b);
        assert Straddles(c, a, b) && Overhang(c, a, b) < 10;
        var r :| r in ranges && IsNearest(Some(r), ranges, a, b) && out == MovedInto(s, r);
        var i := NearestIsClose(r, c, ranges, a, b);
      } else {
        forall r <- ranges ensures !(Straddles(r, a, b) && Overhang(r, a, b) < 10) {
          assert !CloseTo(r, a, b);
        }
        assert !Near(ranges, s);
      }
    }
  }

  lemma {:induction false} NearestIsClose(r: Range, c: Range, ranges: seq<Range>, a: int, b: int) returns (at: nat)
    requires IsNearest(Some(r), ranges, a, b) && c in ranges && CloseTo(c, a, b)
    requires forall q <- ranges :: !(q.start <= a && b <= q.end)
    ensures at < |ranges| && ranges[at] == r && MovesTo(ranges, at, a, b)
  {
    at :| 0 <= at < |ranges| && ranges[at] == r && FirstNearest(ranges, |ranges|, at, a, b);
    forall j | 0 <= j < |ranges|
      ensures Preferred(r, ranges[j], j < at, a, b) && (CloseTo(ranges[j], a, b) ==> CloseTo(r, a, b))
    {
      assert ranges[j] in ranges;
      assert Straddles(ranges[j], a, b) ==>
          Overhang(r, a, b) <= Overhang(ranges[j], a, b) && (j < at ==> Overhang(r, a, b) < Overhang(ranges[j], a, b));
    }
  }

  /** What is posted of one suggestion: nothing without a usable start or if it ends before it starts. */
  lemma {:induction false} PostIs(s: Suggestion)
    ensures s.start in {None, Some(0), Some(-1)} ==> PostOf(s) == []
    ensures s.start.Some? && s.end.Some? && s.end.value < s.start.value ==> PostOf(s) == []
    ensures s.start.Some? && !(s.start.value in {0, -1}) && s.end == s.start ==>
              PostOf(s) == [SingleLine(s.start.value)]
    ensures s.start.Some? && !(s.start.value in {0, -1}) && s.end.Some? && s.end.value > s.start.value ==>
              PostOf(s) == [MultiLine(s.end.value, s.start.value)]
  {
  }
}
