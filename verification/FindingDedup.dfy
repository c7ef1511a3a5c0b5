/**
  Dropping codebase findings a review already reports (`_dedupe_codebase_findings`).
  Hashes and normalised texts are opaque strings.
 */
module FindingDedup {
  import opened Basics

  datatype ExactKey = ExactKey(source: string, path: string, line: Option<int>, title: string, evidence: string)

  /** The exact key without its source. */
  datatype CrossKey = CrossKey(path: string, line: Option<int>, title: string, evidence: string)

  /** A finding of either side, with its dedupe key. */
  datatype Finding = Finding(dedupeKey: string, exact: ExactKey)

  function Cross(k: ExactKey): CrossKey {
    CrossKey(k.path, k.line, k.title, k.evidence)
  }

  /** Two findings are the same for the reader; the empty dedupe key of a current finding stands for none. */
  predicate SameAs(a: Finding, b: Finding) {
    a.dedupeKey == b.dedupeKey || Cross(a.exact) == Cross(b.exact)
  }

  predicate KnownFrom(f: Finding, current: Finding) {
    (current.dedupeKey != "" && f.dedupeKey == current.dedupeKey) || Cross(f.exact) == Cross(current.exact)
  }

  predicate Blocked(f: Finding, current: seq<Finding>, kept: seq<Finding>) {
    (exists c <- current :: KnownFrom(f, c)) || (exists k <- kept :: SameAs(f, k))
  }

  /** The findings kept of a list. */
  function Kept(current: seq<Finding>, findings: seq<Finding>): seq<Finding> {
    if findings == [] then []
    else
      var kept := Kept(current, findings[..|findings| - 1]);
      if Blocked(findings[|findings| - 1], current, kept) then kept else kept + [findings[|findings| - 1]]
  }

  /** The three key sets that the loops fill. */
  datatype Keys = Keys(dedupe: set<string>, exact: set<ExactKey>, cross: set<CrossKey>)

  predicate In(f: Finding, k: Keys) {
    f.dedupeKey in k.dedupe || f.exact in k.exact || Cross(f.exact) in k.cross
  }

  predicate HasDedupe(findings: seq<Finding>, d: string) {
    exists f <- findings :: f.dedupeKey == d
  }

  predicate HasExact(findings: seq<Finding>, e: ExactKey) {
    exists f <- findings :: f.exact == e
  }

  predicate HasCross(findings: seq<Finding>, c: CrossKey) {
    exists f <- findings :: Cross(f.exact) == c
  }

  ghost predicate KeysOf(k: Keys, findings: seq<Finding>, skipEmpty: bool) {
    && (forall d :: d in k.dedupe <==> (skipEmpty ==> d != "") && HasDedupe(findings, d))
    && (forall e :: e in k.exact <==> HasExact(findings, e))
    && (forall c :: c in k.cross <==> HasCross(findings, c))
  }

  lemma {:induction false} KeysOfAppend(k: Keys, findings: seq<Finding>, skipEmpty: bool, f: Finding)
    requires KeysOf(k, findings, skipEmpty)
    ensures var dedupe := if skipEmpty && f.dedupeKey == "" then k.dedupe else k.dedupe + {f.dedupeKey};
      KeysOf(Keys(dedupe, k.exact + {f.exact}, k.cross + {Cross(f.exact)}), findings + [f], skipEmpty)
  {
  }

  /** The exact keys decide nothing that the cross-source keys do not. */
  lemma {:induction false} ExactKeysAddNothing(k: Keys, findings: seq<Finding>, skipEmpty: bool, f: Finding)
    requires KeysOf(k, findings, skipEmpty)
    ensures In(f, k) <==> f.dedupeKey in k.dedupe || Cross(f.exact) in k.cross
  {
  }

  lemma {:induction false} InMeansBlocked(current: seq<Finding>, kept: seq<Finding>, ck: Keys, kk: Keys, f: Finding)
    requires KeysOf(ck, current, true) && KeysOf(kk, kept, false)
    ensures In(f, ck) || In(f, kk) <==> Blocked(f, current, kept)
  {
  }

  method DedupeCodebaseFindings(current: seq<Finding>, findings: seq<Finding>) returns (selected: seq<Finding>)
    ensures selected == Kept(current, findings)
  {
    hide KeysOf, In, Blocked;
    var ck := Keys({}, {}, {});
    NoKeys();
    var i := 0;
    while i < |current|
      invariant 0 <= i <= |current|
      invariant KeysOf(ck, current[..i], true)
    {
      var f := current[i];
      KeysOfAppend(ck, current[..i], true, f);
      assert current[..i + 1] == current[..i] + [f];
      ck := Keys(if f.dedupeKey == "" then ck.dedupe else ck.dedupe + {f.dedupeKey},
                 ck.exact + {f.exact}, ck.cross + {Cross(f.exact)});
      i := i + 1;
    }
    assert current[..i] == current;
    selected := [];
    var kk := Keys({}, {}, {});
    i := 0;
    while i < |findings|
      invariant 0 <= i <= |findings|
      invariant selected == Kept(current, findings[..i])
      invariant KeysOf(kk, selected, false)
    {
      var f := findings[i];
      assert findings[..i + 1][..i] == findings[..i];
      InMeansBlocked(current, selected, ck, kk, f);
      if !(In(f, ck) || In(f, kk)) {
        KeysOfAppend(kk, selected, false, f);
        selected := selected + [f];
        kk := Keys(kk.dedupe + {f.dedupeKey}, kk.exact + {f.exact}, kk.cross + {Cross(f.exact)});
      }
      i := i + 1;
    }
    assert findings[..i] == findings;
  }

  lemma {:induction false} NoKeys()
    ensures KeysOf(Keys({}, {}, {}), [], true) && KeysOf(Keys({}, {}, {}), [], false)
  {
  }

  // ---- What is kept --------------------------------------------------------------

  /** No element is blocked by the current findings or by an earlier element. */
  predicate Independent(current: seq<Finding>, kept: seq<Finding>) {
    forall i | 0 <= i < |kept| :: !Blocked(kept[i], current, kept[..i])
  }

  lemma {:induction false} KeptIsIndependent(current: seq<Finding>, findings: seq<Finding>)
    ensures Independent(current, Kept(current, findings))
  {
    hide Blocked;
    if findings != [] {
      var n := |findings| - 1;
      KeptIsIndependent(current, findings[..n]);
      var kept, all := Kept(current, findings[..n]), Kept(current, findings);
      forall i | 0 <= i < |all| ensures !Blocked(all[i], current, all[..i]) {
        if i < |kept| {
          assert all[..i] == kept[..i];
        } else {
          assert all[..i] == kept;
        }
      }
    }
  }

  /** Kept findings are pairwise distinct on both keys. */
  lemma {:induction false} KeptAreDistinct(current: seq<Finding>, findings: seq<Finding>, i: nat, j: nat)
    requires i < j < |Kept(current, findings)|
    ensures var kept := Kept(current, findings);
      kept[i].dedupeKey != kept[j].dedupeKey && Cross(kept[i].exact) != Cross(kept[j].exact)
  {
    hide Kept;
    var kept := Kept(current, findings);
    KeptIsIndependent(current, findings);
    assert !Blocked(kept[j], current, kept[..j]);
    assert kept[..j][i] == kept[i] && kept[i] in kept[..j];
  }

  /** Every kept finding is disjoint from the current ones on both keys. */
  lemma {:induction false} KeptAvoidCurrent(current: seq<Finding>, findings: seq<Finding>, k: Finding, c: Finding)
    requires k in Kept(current, findings) && c in current
    ensures !KnownFrom(k, c)
  {
    hide Kept;
    var kept := Kept(current, findings);
    KeptIsIndependent(current, findings);
    var i :| 0 <= i < |kept| && kept[i] == k;
    assert !Blocked(kept[i], current, kept[..i]);
  }

  /** Findings are kept in the order given. */
  lemma {:induction false} KeptInOrder(current: seq<Finding>, findings: seq<Finding>)
    ensures IsSubsequence(Kept(current, findings), findings)
  {
    hide Blocked;
    if findings != [] {
      var n := |findings| - 1;
      KeptInOrder(current, findings[..n]);
      SubsequenceAppend(Kept(current, findings[..n]), findings[..n], findings[n]);
      assert findings == findings[..n] + [findings[n]];
    }
  }

  /** Going on never takes back what was kept, and a finding is dropped only for a current or an earlier kept one. */
  lemma {:induction false} DroppedForAReason(current: seq<Finding>, findings: seq<Finding>, i: nat)
    requires i < |findings|
    ensures var before := Kept(current, findings[..i]);
      && before <= Kept(current, findings)
      && (if Blocked(findings[i], current, before) then Kept(current, findings[..i + 1]) == before
          else before + [findings[i]] <= Kept(current, findings))
    decreases |findings| - i
  {
    hide Blocked;
    assert findings[..i + 1][..i] == findings[..i];
    if i + 1 < |findings| {
      DroppedForAReason(current, findings, i + 1);
    } else {
      assert findings[..i + 1] == findings;
    }
  }

  lemma {:induction false} KeptAppend(current: seq<Finding>, findings: seq<Finding>, f: Finding)
    requires !Blocked(f, current, Kept(current, findings))
    ensures Kept(current, findings + [f]) == Kept(current, findings) + [f]
  {
    hide Blocked;
    assert (findings + [f])[..|findings|] == findings;
  }

  /** An independent list loses nothing. */
  lemma {:induction false} IndependentIsKept(current: seq<Finding>, kept: seq<Finding>, n: nat)
    requires n <= |kept| && Independent(current, kept)
    ensures Kept(current, kept[..n]) == kept[..n]
    decreases n
  {
    if n > 0 {
      hide Blocked, Kept;
      var f := kept[n - 1];
      IndependentIsKept(current, kept, n - 1);
      assert !Blocked(f, current, kept[..n - 1]);
      KeptAppend(current, kept[..n - 1], f);
      assert kept[..n] == kept[..n - 1] + [f];
    }
  }

  lemma {:induction false} DedupIsIdempotent(current: seq<Finding>, findings: seq<Finding>)
    ensures Kept(current, Kept(current, findings)) == Kept(current, findings)
  {
    hide Kept, Independent;
    KeptIsIndependent(current, findings);
    var kept := Kept(current, findings);
    IndependentIsKept(current, kept, |kept|);
    assert kept[..|kept|] == kept;
  }

  /** The key columns that are compared: path, line, title and evidence, whatever the source. */
  predicate SameIssue(f: Finding, g: Finding) {
    && f.exact.path == g.exact.path && f.exact.line == g.exact.line
    && f.exact.title == g.exact.title && f.exact.evidence == g.exact.evidence
  }

  /**
    The next finding is kept exactly when it is the same issue as no current and no kept finding, and has a dedupe
    key that no kept finding and no current one with a key of its own has.
   */
  lemma {:induction false} KeptIff(current: seq<Finding>, findings: seq<Finding>, f: Finding)
    ensures var kept := Kept(current, findings);
      Kept(current, findings + [f])
      == if (forall c <- current :: !SameIssue(f, c) && (c.dedupeKey == "" || c.dedupeKey != f.dedupeKey))
            && (forall k <- kept :: !SameIssue(f, k) && k.dedupeKey != f.dedupeKey)
         then kept + [f] else kept
  {
    assert (findings + [f])[..|findings|] == findings;
  }
}
