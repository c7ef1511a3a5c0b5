/** What every module of the model uses. */
module Basics {

  datatype Option<+T> = None | Some(value: T)

  /** A call returns a value or raises. */
  datatype Result<+T> = Ok(value: T) | Raised

  function Max(a: int, b: int): int {
    if a < b then b else a
  }

  function Min(a: int, b: int): int {
    if a < b then a else b
  }

  /** Appending one piece and then the rest is appending both: the step of every loop that builds a list. */
  lemma {:induction false} AppendStep<T>(done: seq<T>, piece: seq<T>, rest: seq<T>)
    ensures (done + piece) + rest == done + (piece + rest)
    ensures done + [] == done && [] + rest == rest
  {
  }

  function Mapped<S, T>(f: S -> T, s: seq<S>): (r: seq<T>)
    ensures |r| == |s| && forall i | 0 <= i < |r| :: r[i] == f(s[i])
  {
    if s == [] then [] else Mapped(f, s[..|s| - 1]) + [f(s[|s| - 1])]
  }

  lemma {:induction false} MappedConcat<S, T>(f: S -> T, a: seq<S>, b: seq<S>)
    ensures Mapped(f, a + b) == Mapped(f, a) + Mapped(f, b)
  {
    hide Mapped;
  }

  /** Taking one element out of a list. */
  lemma {:induction false} TakenOut<T>(s: seq<T>, k: nat)
    requires k < |s|
    ensures multiset(s) == multiset{s[k]} + multiset(s[..k] + s[k + 1..])
  {
    assert s == s[..k] + ([s[k]] + s[k + 1..]);
  }

  lemma {:induction false} SameRest<T>(x: T, a: multiset<T>, b: multiset<T>)
    requires multiset{x} + a == multiset{x} + b
    ensures a == b
  {
    assert a == (multiset{x} + a) - multiset{x};
    assert b == (multiset{x} + b) - multiset{x};
  }

  lemma {:induction false} MappedTakenOut<S, T>(f: S -> T, s: seq<S>, k: nat)
    requires k < |s|
    ensures multiset(Mapped(f, s)) == multiset{f(s[k])} + multiset(Mapped(f, s[..k] + s[k + 1..]))
  {
    hide Mapped;
    TakenOut(Mapped(f, s), k);
    assert Mapped(f, s)[..k] + Mapped(f, s)[k + 1..] == Mapped(f, s[..k] + s[k + 1..]);
  }

  lemma {:induction false} SubRest<T>(x: T, a: multiset<T>, b: multiset<T>)
    requires multiset{x} + a <= multiset{x} + b
    ensures a <= b
  {
    forall y ensures a[y] <= b[y] {
      assert (multiset{x} + a)[y] <= (multiset{x} + b)[y];
    }
  }

  /** Leaving elements out leaves their images out. */
  lemma {:induction false} MappedSub<S, T>(f: S -> T, a: seq<S>, b: seq<S>)
    requires multiset(a) <= multiset(b)
    ensures multiset(Mapped(f, a)) <= multiset(Mapped(f, b))
    decreases |a|
  {
    hide Mapped;
    if a == [] {
      assert Mapped(f, a) == [];
    } else {
      var k := FirstIn(a, b);
      MappedSub(f, a[..0] + a[0 + 1..], b[..k] + b[k + 1..]);
      MappedTakenOut(f, a, 0);
      MappedTakenOut(f, b, k);
    }
  }

  /** Where the first element of a part stands in the whole; without it the rest is still a part. */
  lemma {:induction false} FirstIn<T>(a: seq<T>, b: seq<T>) returns (k: nat)
    requires multiset(a) <= multiset(b) && a != []
    ensures k < |b| && b[k] == a[0]
    ensures multiset(a[..0] + a[0 + 1..]) <= multiset(b[..k] + b[k + 1..])
  {
    assert a[0] in multiset(b);
    k :| 0 <= k < |b| && b[k] == a[0];
    TakenOut(a, 0);
    TakenOut(b, k);
    SubRest(a[0], multiset(a[..0] + a[0 + 1..]), multiset(b[..k] + b[k + 1..]));
  }

  lemma {:induction false} SubMultisetEqual<T>(a: seq<T>, b: seq<T>)
    requires multiset(a) <= multiset(b)
    ensures |a| <= |b|
    ensures |a| == |b| ==> multiset(a) == multiset(b)
  {
    var rest := multiset(b) - multiset(a);
    assert multiset(b) == multiset(a) + rest;
    assert |multiset(b)| == |multiset(a)| + |rest|;
  }

  /** Lists that differ in order only have images that differ in order only. */
  lemma {:induction false} MappedAnyOrder<S, T>(f: S -> T, a: seq<S>, b: seq<S>)
    requires multiset(a) == multiset(b)
    ensures multiset(Mapped(f, a)) == multiset(Mapped(f, b))
  {
    hide Mapped;
    MappedSub(f, a, b);
    MappedSub(f, b, a);
    SubMultisetEqual(a, b);
    SubMultisetEqual(b, a);
  }

  predicate NoRepeats<T(==)>(s: seq<T>) {
    forall i, j | 0 <= i < j < |s| :: s[i] != s[j]
  }

  lemma {:induction false} CountedOnce<T>(s: seq<T>, k: nat)
    requires NoRepeats(s) && k < |s|
    ensures multiset(s)[s[k]] == 1
  {
    assert s == s[..k] + ([s[k]] + s[k + 1..]);
    assert s[k] !in s[..k] && s[k] !in s[k + 1..];
  }

  lemma {:induction false} CountedTwice<T>(s: seq<T>, i: nat, j: nat)
    requires i < j < |s| && s[i] == s[j]
    ensures multiset(s)[s[i]] >= 2
  {
    assert s == s[..i] + ([s[i]] + (s[i + 1..j] + ([s[j]] + s[j + 1..])));
  }

  /** Whether a list repeats an element does not depend on its order. */
  lemma {:induction false} NoRepeatsAnyOrder<T>(a: seq<T>, b: seq<T>)
    requires NoRepeats(a) && multiset(a) == multiset(b)
    ensures NoRepeats(b)
  {
    hide NoRepeats;
    if !NoRepeats(b) {
      var i, j := Repeat(b);
      CountedTwice(b, i, j);
      assert b[i] in multiset(a);
      var k :| 0 <= k < |a| && a[k] == b[i];
      CountedOnce(a, k);
    }
  }

  lemma {:induction false} Repeat<T>(s: seq<T>) returns (i: nat, j: nat)
    requires !NoRepeats(s)
    ensures i < j < |s| && s[i] == s[j]
  {
    i, j :| 0 <= i < j < |s| && s[i] == s[j];
  }

  /** `part` is `whole` with some elements left out. */
  predicate IsSubsequence<T(==)>(part: seq<T>, whole: seq<T>)
    decreases |whole|
  {
    if whole == [] then part == []
    else
      var n := |whole| - 1;
      || IsSubsequence(part, whole[..n])
      || (part != [] && part[|part| - 1] == whole[n] && IsSubsequence(part[..|part| - 1], whole[..n]))
  }

  lemma {:induction false} SubsequenceAppend<T>(part: seq<T>, whole: seq<T>, x: T)
    requires IsSubsequence(part, whole)
    ensures IsSubsequence(part, whole + [x]) && IsSubsequence(part + [x], whole + [x])
  {
    assert (whole + [x])[..|whole|] == whole && (part + [x])[..|part|] == part;
  }

  /** A subsequence has no element the whole does not have. */
  lemma {:induction false} SubsequenceMembers<T>(part: seq<T>, whole: seq<T>)
    requires IsSubsequence(part, whole)
    ensures forall x <- part :: x in whole
    decreases |whole|
  {
    if whole != [] {
      var n := |whole| - 1;
      assert whole == whole[..n] + [whole[n]];
      if IsSubsequence(part, whole[..n]) {
        SubsequenceMembers(part, whole[..n]);
      } else {
        SubsequenceMembers(part[..|part| - 1], whole[..n]);
        assert part == part[..|part| - 1] + [part[|part| - 1]];
      }
    }
  }

  predicate Pairwise<T>(r: (T, T) -> bool, s: seq<T>) {
    forall i, j | 0 <= i < j < |s| :: r(s[i], s[j])
  }

  /** What holds of any two elements in order still holds when elements are left out. */
  lemma {:induction false} SubsequencePairs<T>(part: seq<T>, whole: seq<T>, r: (T, T) -> bool)
    requires IsSubsequence(part, whole) && Pairwise(r, whole)
    ensures Pairwise(r, part)
    decreases |whole|
  {
    if whole != [] {
      var n := |whole| - 1;
      if IsSubsequence(part, whole[..n]) {
        SubsequencePairs(part, whole[..n], r);
      } else {
        var m := |part| - 1;
        SubsequencePairs(part[..m], whole[..n], r);
        SubsequenceMembers(part[..m], whole[..n]);
        forall i | 0 <= i < m ensures r(part[i], part[m]) {
          assert part[..m][i] in whole[..n];
          var k :| 0 <= k < n && whole[..n][k] == part[i];
          assert r(whole[k], whole[n]);
        }
        forall i, j | 0 <= i < j < |part| ensures r(part[i], part[j]) {
          assert j < m ==> part[..m][i] == part[i] && part[..m][j] == part[j];
        }
      }
    }
  }
}
