/**
  Dropping hunks that add nothing (`omit_deletion_hunks`).  The loop keeps a
  hunk until it knows whether one that adds follows, so only hunks behind the
  last addition are dropped.
 */
module DeletionTrimming {
  import opened Basics
  import opened UnifiedDiff
  import opened PatchNumbering

  predicate HasHeader(lines: seq<Line>) {
    exists l <- lines :: l.Header?
  }

  function Recognised(lines: seq<Line>): seq<Line> {
    if lines == [] then [] else IfRecognised(lines[0]) + Recognised(lines[1..])
  }

  function IfRecognised(l: Line): seq<Line> {
    if l.Malformed? then [] else [l]
  }

  /** `k` ends a hunk; no addition lies behind it, and every shorter such prefix leaves one out. */
  predicate TrimsTo(lines: seq<Line>, k: int): (r: bool)
    ensures r ==> 0 <= k <= |lines|
  {
    && 0 <= k <= |lines|
    && (k == |lines| || lines[k].Header?)
    && HasHeader(lines[..k])
    && !HasAddition(lines[k..])
    && forall b | 0 <= b < k && lines[b].Header? && HasHeader(lines[..b]) :: HasAddition(lines[b..k])
  }

  ghost predicate IsTrimmed(lines: seq<Line>, r: seq<Line>) {
    if HasHeader(lines) && HasAddition(lines) then exists k :: TrimsTo(lines, k) && r == lines[..k]
    else r == []
  }

  lemma {:induction false} RecognisedAppend(a: seq<Line>, l: Line)
    ensures Recognised(a + [l]) == Recognised(a) + IfRecognised(l)
  {
    hide IfRecognised;
    if a == [] {
      assert [l][1..] == [] && a + [l] == [l];
      AppendStep(IfRecognised(l), [], []);
    } else {
      assert (a + [l])[0] == a[0] && (a + [l])[1..] == a[1..] + [l];
      RecognisedAppend(a[1..], l);
      AppendStep(IfRecognised(a[0]), Recognised(a[1..]), IfRecognised(l));
    }
  }

  /** Headers that cannot be read are dropped, wherever they stand, and nothing else is. */
  lemma {:induction false} BrokenHeadersAreDropped(before: seq<Line>, text: string, rest: seq<Line>)
    ensures Recognised(before + [Malformed(text)] + rest) == Recognised(before + rest)
    decreases |before|
  {
    if before == [] {
      assert [] + [Malformed(text)] + rest == [Malformed(text)] + rest && ([Malformed(text)] + rest)[1..] == rest;
      assert [] + rest == rest && [] + Recognised(rest) == Recognised(rest);
    } else {
      var l, more := before[0], before[1..];
      assert (before + [Malformed(text)] + rest)[1..] == more + [Malformed(text)] + rest;
      assert (before + rest)[1..] == more + rest;
      BrokenHeadersAreDropped(more, text, rest);
    }
  }

  lemma {:induction false} OtherLinesStay(lines: seq<Line>)
    requires forall l <- lines :: !l.Malformed?
    ensures Recognised(lines) == lines
  {
    if lines != [] {
      OtherLinesStay(lines[1..]);
      assert lines == [lines[0]] + lines[1..];
    }
  }

  /** What the loop knows of the lines read so far: `added + temp` is all of them. */
  ghost predicate LoopState(seen: seq<Line>, added: seq<Line>, temp: seq<Line>, addHunk: bool, insideHunk: bool) {
    && seen == added + temp
    && addHunk == HasAddition(temp)
    && insideHunk == HasHeader(seen)
    && (added != [] ==> HasHeader(added) && HasAddition(added) && temp != [] && temp[0].Header?
                        && TrimsTo(added, |added|))
    && (insideHunk ==> temp != [] && HasHeader(temp))
  }

  lemma {:induction false} ConcatHas(a: seq<Line>, b: seq<Line>)
    ensures HasHeader(a + b) <==> HasHeader(a) || HasHeader(b)
    ensures HasAddition(a + b) <==> HasAddition(a) || HasAddition(b)
  {
  }

  /** Between two flushes, the first hunk of `temp` that adds is its last. */
  ghost predicate LastGroupAdds(temp: seq<Line>, first: bool) {
    forall b | 0 <= b < |temp| && temp[b].Header? && (first ==> HasHeader(temp[..b])) ::
      HasAddition(temp) ==> HasAddition(temp[b..])
  }

  /** A shorter end of a hunk inside `added + temp` leaves out an addition of `temp`. */
  lemma {:induction false} FlushLeavesOut(added: seq<Line>, temp: seq<Line>, b: int)
    requires added != [] ==> HasHeader(added) && temp != [] && temp[0].Header?
    requires HasAddition(temp)
    requires LastGroupAdds(temp, added == [])
    requires 0 <= b < |added + temp| && (added + temp)[b].Header? && HasHeader((added + temp)[..b])
    ensures HasAddition((added + temp)[b..])
  {
    hide HasAddition, HasHeader;
    var all := added + temp;
    if b < |added| {
      assert all[b..] == added[b..] + temp;
      ConcatHas(added[b..], temp);
    } else {
      var c := b - |added|;
      assert all[b..] == temp[c..] && all[b] == temp[c];
      if added == [] {
        assert all[..b] == temp[..c];
      }
    }
  }

  lemma {:induction false} FlushTrims(added: seq<Line>, temp: seq<Line>)
    requires added != [] ==> HasHeader(added) && temp != [] && temp[0].Header?
    requires HasAddition(temp) && HasHeader(temp)
    requires LastGroupAdds(temp, added == [])
    ensures TrimsTo(added + temp, |added + temp|)
  {
    hide HasAddition, HasHeader, LastGroupAdds;
    var all := added + temp;
    assert all[..|all|] == all && all[|all|..] == [];
    ConcatHas(added, temp);
    NoneInEmpty();
    forall b | 0 <= b < |all| && all[b].Header? && HasHeader(all[..b])
      ensures HasAddition(all[b..|all|])
    {
      FlushLeavesOut(added, temp, b);
      assert all[b..|all|] == all[b..];
    }
  }

  lemma {:induction false} NoneInEmpty()
    ensures !HasAddition([])
  {
  }

  method OmitDeletionHunks(patchLines: seq<Line>) returns (added: seq<Line>)
    ensures IsTrimmed(Recognised(patchLines), added)
  {
    hide TrimsTo, HasHeader, HasAddition, Recognised, LastGroupAdds, LoopState;
    var temp := [];
    var addHunk, insideHunk := false, false;
    added := [];
    var i := 0;
    ghost var seen := [];
    StartState();
    while i < |patchLines|
      invariant 0 <= i <= |patchLines|
      invariant seen == Recognised(patchLines[..i])
      invariant LoopState(seen, added, temp, addHunk, insideHunk)
      invariant LastGroupAdds(temp, added == [])
    {
      var line := patchLines[i];
      assert patchLines[..i + 1] == patchLines[..i] + [line];
      RecognisedAppend(patchLines[..i], line);
      if line.Header? {
        HeaderState(seen, added, temp, addHunk, insideHunk, line);
        if insideHunk && addHunk {
          added := added + temp;
          temp := [];
          addHunk := false;
        }
        temp := temp + [line];
        insideHunk := true;
        seen := seen + [line];
      } else if !line.Malformed? {
        LineState(seen, added, temp, addHunk, insideHunk, line);
        temp := temp + [line];
        if line.Addition? {
          addHunk := true;
        }
        seen := seen + [line];
      }
      i := i + 1;
    }
    assert patchLines[..i] == patchLines;
    EndState(seen, added, temp, addHunk, insideHunk);
    if insideHunk && addHunk {
      added := added + temp;
    }
  }

  lemma {:induction false} StartState()
    ensures LoopState([], [], [], false, false) && LastGroupAdds([], true)
    ensures Recognised([]) == []
  {
  }

  lemma {:induction false} LineState(seen: seq<Line>, added: seq<Line>, temp: seq<Line>, addHunk: bool,
                                     insideHunk: bool, l: Line)
    requires LoopState(seen, added, temp, addHunk, insideHunk) && LastGroupAdds(temp, added == [])
    requires !l.Header?
    ensures LoopState(seen + [l], added, temp + [l], addHunk || l.Addition?, insideHunk)
    ensures LastGroupAdds(temp + [l], added == [])
  {
    hide TrimsTo;
    AppendStep(added, temp, [l]);
    assert seen + [l] == added + (temp + [l]);
    ConcatHas(seen, [l]);
    ConcatHas(temp, [l]);
    LastGroupStep(temp, added == [], l);
  }

  lemma {:induction false} LastGroupStep(temp: seq<Line>, first: bool, l: Line)
    requires LastGroupAdds(temp, first) && !l.Header?
    ensures LastGroupAdds(temp + [l], first)
  {
    hide HasAddition, HasHeader;
    var t := temp + [l];
    ConcatHas(temp, [l]);
    forall b | 0 <= b < |t| && t[b].Header? && (first ==> HasHeader(t[..b])) && HasAddition(t)
      ensures HasAddition(t[b..])
    {
      assert t[b..] == temp[b..] + [l] && t[..b] == temp[..b];
      ConcatHas(temp[b..], [l]);
    }
  }

  lemma {:induction false} HeaderState(seen: seq<Line>, added: seq<Line>, temp: seq<Line>, addHunk: bool,
                                       insideHunk: bool, l: Line)
    requires LoopState(seen, added, temp, addHunk, insideHunk) && LastGroupAdds(temp, added == [])
    requires l.Header?
    ensures if insideHunk && addHunk
            then LoopState(seen + [l], added + temp, [l], false, true) && LastGroupAdds([l], added + temp == [])
            else LoopState(seen + [l], added, temp + [l], addHunk, true) && LastGroupAdds(temp + [l], added == [])
    ensures [] + [l] == [l]
  {
    hide TrimsTo;
    ConcatHas(seen, [l]);
    ConcatHas(temp, [l]);
    ConcatHas(added, temp);
    assert l in [l];
    AppendStep(added, temp, [l]);
    if insideHunk && addHunk {
      FlushTrims(added, temp);
    } else {
      NoAdditionYet(seen, added, temp, addHunk, insideHunk, l);
    }
  }

  /** Not flushing at a header: either nothing was added since, or this is the first header of all. */
  lemma {:induction false} NoAdditionYet(seen: seq<Line>, added: seq<Line>, temp: seq<Line>, addHunk: bool,
                                         insideHunk: bool, l: Line)
    requires LoopState(seen, added, temp, addHunk, insideHunk) && !(insideHunk && addHunk) && l.Header?
    ensures LastGroupAdds(temp + [l], added == [])
  {
  }

  lemma {:induction false} EndState(seen: seq<Line>, added: seq<Line>, temp: seq<Line>, addHunk: bool, insideHunk: bool)
    requires LoopState(seen, added, temp, addHunk, insideHunk) && LastGroupAdds(temp, added == [])
    ensures IsTrimmed(seen, if insideHunk && addHunk then added + temp else added)
  {
    hide HasAddition, HasHeader, LastGroupAdds;
    ConcatHas(added, temp);
    if insideHunk && addHunk {
      FlushTrims(added, temp);
      assert seen[..|seen|] == seen;
    } else if HasHeader(seen) && HasAddition(seen) {
      var k := |added|;
      assert seen[..k] == added && seen[k..] == temp && seen[k] == temp[0];
      forall b | 0 <= b < k && seen[b].Header? && HasHeader(seen[..b]) ensures HasAddition(seen[b..k]) {
        assert seen[b..k] == added[b..|added|] && seen[..b] == added[..b];
      }
      assert TrimsTo(seen, k);
    }
  }

  // ---- What the trimming means ---------------------------------------------------

  lemma {:induction false} TrimIsUnique(lines: seq<Line>, k: int, m: int)
    requires TrimsTo(lines, k) && TrimsTo(lines, m)
    ensures k == m
  {
  }

  /** Every added line is kept. */
  lemma {:induction false} TrimKeepsAdditions(lines: seq<Line>, r: seq<Line>, l: Line)
    requires HasHeader(lines) && IsTrimmed(lines, r) && l in lines && l.Addition?
    ensures l in r
  {
  }

  lemma {:induction false} TrimmedTrimsToAll(lines: seq<Line>, k: int)
    requires TrimsTo(lines, k) && HasAddition(lines)
    ensures HasHeader(lines[..k]) && HasAddition(lines[..k]) && TrimsTo(lines[..k], k)
  {
    hide HasAddition, HasHeader;
    var r := lines[..k];
    assert lines == r + lines[k..];
    ConcatHas(r, lines[k..]);
    assert r[..k] == r && r[k..] == [];
    NoneInEmpty();
    forall b | 0 <= b < k && r[b].Header? && HasHeader(r[..b]) ensures HasAddition(r[b..k]) {
      assert r[b..k] == lines[b..k] && r[..b] == lines[..b];
    }
  }

  /** Trimming twice is trimming once. */
  lemma {:induction false} TrimIsIdempotent(lines: seq<Line>, r: seq<Line>, again: seq<Line>)
    requires IsTrimmed(lines, r) && IsTrimmed(r, again)
    ensures again == r
  {
    hide HasAddition, HasHeader, TrimsTo;
    if HasHeader(lines) && HasAddition(lines) {
      var k :| TrimsTo(lines, k) && r == lines[..k];
      TrimmedTrimsToAll(lines, k);
      var m :| TrimsTo(r, m) && again == r[..m];
      TrimIsUnique(r, k, m);
      assert r[..|r|] == r;
    } else {
      NoneInEmpty();
    }
  }

  predicate Adds(h: Hunk) {
    HasAddition(h.body)
  }

  lemma {:induction false} RenderAdds(hunks: seq<Hunk>)
    ensures HasAddition(Render(hunks)) <==> exists h <- hunks :: Adds(h)
    ensures HasHeader(Render(hunks)) <==> hunks != []
  {
    if hunks != [] {
      var h, rest := hunks[0], hunks[1..];
      RenderAdds(rest);
      ConcatHas([HeaderOf(h)] + h.body, Render(rest));
      ConcatHas([HeaderOf(h)], h.body);
      assert Render(hunks) == [HeaderOf(h)] + h.body + Render(rest);
      assert HeaderOf(h) in [HeaderOf(h)];
      assert HasAddition(Render(hunks)) <==> Adds(h) || HasAddition(Render(rest));
      AnyAdds(hunks);
    }
  }

  lemma {:induction false} AnyAdds(hunks: seq<Hunk>)
    requires hunks != []
    ensures (exists h <- hunks :: Adds(h)) <==> Adds(hunks[0]) || exists h <- hunks[1..] :: Adds(h)
  {
  }

  /** The headers of a rendered patch stand where its hunks begin. */
  lemma {:induction false} OneHeader(h: Hunk)
    requires IsBody(h.body)
    ensures forall j | 0 < j < |HunkLines(h)| :: !HunkLines(h)[j].Header?
  {
    forall j | 0 < j < |HunkLines(h)| ensures !HunkLines(h)[j].Header? {
      assert HunkLines(h)[j] == h.body[j - 1] && IsBodyLine(h.body[j - 1]);
    }
  }

  lemma {:induction false} HeaderStartsHunk(hunks: seq<Hunk>, b: nat) returns (i: nat)
    requires Bodies(hunks) && b < |Render(hunks)| && Render(hunks)[b].Header?
    ensures i < |hunks| && b == |Render(hunks[..i])|
  {
    hide Render;
    NothingRendered();
    var h, rest := hunks[0], hunks[1..];
    RenderFirst(hunks);
    assert h in hunks;
    OneHeader(h);
    if b == 0 {
      i := 0;
      assert hunks[..0] == [];
    } else {
      var j := HeaderStartsHunk(rest, b - |HunkLines(h)|);
      i := j + 1;
      assert hunks[..i][1..] == rest[..j];
      RenderFirst(hunks[..i]);
    }
  }

  /**
    On a list of hunks the trimming keeps exactly the hunks up to the last one that adds: a hunk that only
    deletes is dropped if and only if no hunk behind it adds.
   */
  lemma {:induction false} TrimKeepsUpToLastAdding(hunks: seq<Hunk>, m: nat, r: seq<Line>)
    requires Bodies(hunks) && 1 <= m <= |hunks|
    requires Adds(hunks[m - 1]) && forall h <- hunks[m..] :: !Adds(h)
    requires IsTrimmed(Render(hunks), r)
    ensures r == Render(hunks[..m])
  {
    hide Adds, IsBody, HasAddition, HasHeader;
    var lines, k := Render(hunks), |Render(hunks[..m])|;
    RenderSplit(hunks, m);
    RenderAdds(hunks[..m]);
    RenderAdds(hunks[m..]);
    RenderAdds(hunks);
    assert hunks[m - 1] in hunks && hunks[m - 1] in hunks[..m];
    assert lines[..k] == Render(hunks[..m]) && lines[k..] == Render(hunks[m..]);
    assert k < |lines| ==> hunks[m..] != [] && lines[k] == HeaderOf(hunks[m]);
    assert hunks[..m][|hunks[..m]| - 1] == hunks[m - 1];
    forall b | 0 <= b < k && lines[b].Header? && HasHeader(lines[..b]) ensures HasAddition(lines[b..k]) {
      assert Render(hunks[..m])[b] == lines[b] && lines[b..k] == Render(hunks[..m])[b..];
      ShorterLeavesOut(hunks[..m], b);
    }
    assert TrimsTo(lines, k);
    var j :| TrimsTo(lines, j) && r == lines[..j];
    TrimIsUnique(lines, k, j);
  }

  /** Everything from a header on holds the last hunk. */
  lemma {:induction false} ShorterLeavesOut(hunks: seq<Hunk>, b: nat)
    requires Bodies(hunks) && hunks != [] && Adds(hunks[|hunks| - 1])
    requires b < |Render(hunks)| && Render(hunks)[b].Header?
    ensures HasAddition(Render(hunks)[b..])
  {
    hide Adds, IsBody, HasAddition, HasHeader;
    var i := HeaderStartsHunk(hunks, b);
    RenderSplit(hunks, i);
    assert Render(hunks)[b..] == Render(hunks[i..]);
    RenderAdds(hunks[i..]);
    assert hunks[i..][|hunks| - 1 - i] == hunks[|hunks| - 1];
  }
}
