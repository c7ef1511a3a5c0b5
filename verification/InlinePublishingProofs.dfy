/**
  What publishing attempts add up to: the pairing by key and rank, and the
  comments of every key over any sequence of attempts.
 */
module InlinePublishingProofs {
  import opened Basics
  import opened InlinePublishing

  // ---- The pairing, by key and rank ------------------------------------------------

  function OfKey(comments: seq<Comment>, k: Key): seq<Comment> {
    if comments == [] then [] else IfKey(comments[0], k) + OfKey(comments[1..], k)
  }

  function IfKey(c: Comment, k: Key): seq<Comment> {
    if c.key == k then [c] else []
  }

  function Wanted(selected: seq<Selected>, k: Key): nat {
    if selected == [] then 0
    else Wanted(selected[..|selected| - 1], k) + (if selected[|selected| - 1].key == k then 1 else 0)
  }

  lemma {:induction false} OfKeyConcat(a: seq<Comment>, b: seq<Comment>, k: Key)
    ensures OfKey(a + b, k) == OfKey(a, k) + OfKey(b, k)
  {
    hide IfKey;
    if a == [] {
      assert a + b == b;
    } else {
      assert (a + b)[0] == a[0] && (a + b)[1..] == a[1..] + b;
      OfKeyConcat(a[1..], b, k);
      AppendStep(IfKey(a[0], k), OfKey(a[1..], k), OfKey(b, k));
    }
  }

  lemma {:induction false} OfKeyOne(d: Comment, k: Key)
    ensures OfKey([d], k) == if d.key == k then [d] else []
  {
  }

  lemma {:induction false} NoneOfKey(comments: seq<Comment>, k: Key)
    requires forall c <- comments :: c.key != k
    ensures OfKey(comments, k) == []
  {
    if comments != [] {
      assert comments[0] in comments;
      NoneOfKey(comments[1..], k);
    }
  }

  /** Taking the first comment with a key takes the first of that key and none of another. */
  lemma {:induction false} TakeFirst(comments: seq<Comment>, k: Key)
    ensures IndexOf(comments, k) == |comments| ==> OfKey(comments, k) == []
    ensures IndexOf(comments, k) < |comments| ==>
              var i := IndexOf(comments, k);
              && OfKey(comments, k) != [] && OfKey(comments, k)[0] == comments[i]
              && OfKey(Without(comments, i), k) == OfKey(comments, k)[1..]
              && forall j: Key | j != k :: OfKey(Without(comments, i), j) == OfKey(comments, j)
  {
    hide IndexOf, OfKey;
    var i := IndexOf(comments, k);
    NoneOfKey(comments[..i], k);
    if i == |comments| {
      assert comments[..i] == comments;
    } else {
      forall j: Key
        ensures OfKey(comments, j) == OfKey(comments[..i], j) + (IfKey(comments[i], j) + OfKey(comments[i + 1..], j))
        ensures OfKey(Without(comments, i), j) == OfKey(comments[..i], j) + OfKey(comments[i + 1..], j)
      {
        SplitOfKey(comments, i, j);
      }
    }
  }

  lemma {:induction false} SplitOfKey(comments: seq<Comment>, i: nat, j: Key)
    requires i < |comments|
    ensures OfKey(comments, j) == OfKey(comments[..i], j) + (IfKey(comments[i], j) + OfKey(comments[i + 1..], j))
    ensures OfKey(Without(comments, i), j) == OfKey(comments[..i], j) + OfKey(comments[i + 1..], j)
  {
    hide IfKey;
    assert comments == comments[..i] + comments[i..];
    OfKeyConcat(comments[..i], comments[i..], j);
    OfKeyConcat(comments[..i], comments[i + 1..], j);
    assert comments[i..][1..] == comments[i + 1..];
  }

  /** What is left of the comments once the selected ones in `done` have been paired. */
  ghost predicate Leftover(remaining: seq<Comment>, all: seq<Comment>, done: seq<Selected>) {
    forall k: Key :: OfKey(remaining, k) == From(OfKey(all, k), Wanted(done, k))
  }

  function From(a: seq<Comment>, w: nat): seq<Comment> {
    a[Min(w, |a|)..]
  }

  /** The comment paired with a selected comment that has `rank` equals before it. */
  function Nth(all: seq<Comment>, k: Key, rank: nat): Option<Comment> {
    if rank < |OfKey(all, k)| then Some(OfKey(all, k)[rank]) else None
  }

  /** The pairing as a function: the selected comment with `r` equals before it gets the r-th comment of its key. */
  function Paired(done: seq<Selected>, selected: seq<Selected>, all: seq<Comment>): Split
    decreases |selected|
  {
    if selected == [] then Split([], [])
    else
      var s := selected[0];
      var c := Nth(all, s.key, Wanted(done, s.key));
      var rest := Paired(done + [s], selected[1..], all);
      if c.Some? then Split([Report(s, c.value)] + rest.published, rest.missing)
      else Split(rest.published, [s] + rest.missing)
  }

  lemma {:induction false} WantedAppend(done: seq<Selected>, s: Selected, k: Key)
    ensures Wanted(done + [s], k) == Wanted(done, k) + (if s.key == k then 1 else 0)
  {
  }

  lemma {:induction false} LeftoverKey(remaining: seq<Comment>, all: seq<Comment>, done: seq<Selected>, s: Selected,
                                       k: Key)
    requires OfKey(remaining, k) == From(OfKey(all, k), Wanted(done, k))
    ensures var i := IndexOf(remaining, s.key);
      OfKey(if i == |remaining| then remaining else Without(remaining, i), k)
        == From(OfKey(all, k), Wanted(done + [s], k))
    ensures k == s.key ==>
              var i := IndexOf(remaining, s.key);
              Nth(all, k, Wanted(done, k)) == if i == |remaining| then None else Some(remaining[i])
  {
    hide IndexOf, Without, Wanted, OfKey, From;
    TakeFirst(remaining, s.key);
    WantedAppend(done, s, k);
    FromStep(OfKey(all, k), Wanted(done, k));
  }

  lemma {:induction false} LeftoverStep(remaining: seq<Comment>, all: seq<Comment>, done: seq<Selected>, s: Selected)
    requires Leftover(remaining, all, done)
    ensures var i := IndexOf(remaining, s.key);
      var c := Nth(all, s.key, Wanted(done, s.key));
      if i == |remaining| then c.None? && Leftover(remaining, all, done + [s])
      else c == Some(remaining[i]) && Leftover(Without(remaining, i), all, done + [s])
  {
    hide IndexOf, Without, Wanted, OfKey, From, Nth;
    var i := IndexOf(remaining, s.key);
    var left := if i == |remaining| then remaining else Without(remaining, i);
    forall k: Key ensures OfKey(left, k) == From(OfKey(all, k), Wanted(done + [s], k)) {
      LeftoverKey(remaining, all, done, s, k);
    }
    LeftoverKey(remaining, all, done, s, s.key);
  }

  lemma {:induction false} FromStep(a: seq<Comment>, w: nat)
    ensures From(a, w) == [] ==> w >= |a| && From(a, w + 1) == []
    ensures From(a, w) != [] ==> w < |a| && From(a, w)[0] == a[w] && From(a, w)[1..] == From(a, w + 1)
  {
  }

  lemma {:induction false} PartitionIsPairing(selected: seq<Selected>, remaining: seq<Comment>, all: seq<Comment>,
                                              done: seq<Selected>)
    requires Leftover(remaining, all, done)
    ensures Partition(selected, remaining) == Paired(done, selected, all)
    decreases |selected|
  {
    hide Leftover, Nth, IndexOf;
    if selected != [] {
      var s := selected[0];
      LeftoverStep(remaining, all, done, s);
      var i := IndexOf(remaining, s.key);
      PartitionIsPairing(selected[1..], if i == |remaining| then remaining else Without(remaining, i), all, done + [s]);
    }
  }

  lemma {:induction false} PartitionPairs(selected: seq<Selected>, all: seq<Comment>)
    ensures Partition(selected, all) == Paired([], selected, all)
  {
    assert forall k: Key :: From(OfKey(all, k), 0) == OfKey(all, k);
    PartitionIsPairing(selected, all, all, []);
  }

  // ---- Counts --------------------------------------------------------------------------

  lemma {:induction false} WantedCons(s: Selected, rest: seq<Selected>, k: Key)
    ensures Wanted([s] + rest, k) == (if s.key == k then 1 else 0) + Wanted(rest, k)
  {
    if rest == [] {
      assert [s] + rest == [] + [s];
      WantedAppend([], s, k);
    } else {
      var n := |rest| - 1;
      assert ([s] + rest)[..n + 1] == [s] + rest[..n];
      WantedCons(s, rest[..n], k);
    }
  }

  /** Exactly the shortfall of every key is missing. */
  lemma {:induction false} MissingIsShortfall(done: seq<Selected>, selected: seq<Selected>, all: seq<Comment>, k: Key)
    ensures Wanted(Paired(done, selected, all).missing, k)
         == Max(0, Wanted(done, k) + Wanted(selected, k) - |OfKey(all, k)|) - Max(0, Wanted(done, k) - |OfKey(all, k)|)
    decreases |selected|
  {
    hide OfKey, Wanted;
    if selected == [] {
      WantedNone(k);
    } else {
      var s, rest := selected[0], selected[1..];
      assert selected == [s] + rest;
      WantedCons(s, rest, k);
      WantedAppend(done, s, k);
      MissingIsShortfall(done + [s], rest, all, k);
      WantedCons(s, Paired(done + [s], rest, all).missing, k);
    }
  }

  lemma {:induction false} WantedNone(k: Key)
    ensures Wanted([], k) == 0
  {
  }

  lemma {:induction false} NewOfKey(missing: seq<Selected>, id: int, review: int, k: Key)
    ensures |OfKey(NewComments(missing, id, review), k)| == Wanted(missing, k)
  {
    hide OfKey, Wanted, NewComments;
    if missing == [] {
      WantedNone(k);
      NoneOfKey(NewComments(missing, id, review), k);
    } else {
      var d, tail := Comment(id, Some(review), missing[0].key), NewComments(missing[1..], id + 1, review);
      assert missing == [missing[0]] + missing[1..];
      WantedCons(missing[0], missing[1..], k);
      assert NewComments(missing, id, review) == [d] + tail;
      OfKeyConcat([d], tail, k);
      OfKeyOne(d, k);
      NewOfKey(missing[1..], id + 1, review, k);
    }
  }

  /** What an attempt does whose listing of the pull request shows `seen`. */
  function AttemptedSeeing(r: Remote, seen: seq<Comment>, selected: seq<Selected>, fate: Fate): Remote {
    if fate.FailsBeforePost? then r else Posted(r, Partition(selected, seen).missing)
  }

  /** It posts the shortfall of what it sees. */
  lemma {:induction false} SeeingCounts(r: Remote, seen: seq<Comment>, selected: seq<Selected>, fate: Fate, k: Key)
    ensures |OfKey(AttemptedSeeing(r, seen, selected, fate).comments, k)|
         == |OfKey(r.comments, k)| + if fate.FailsBeforePost? then 0 else Max(0, Wanted(selected, k) - |OfKey(seen, k)|)
  {
    hide OfKey, Wanted, Partition, Paired;
    var missing := Partition(selected, seen).missing;
    PartitionPairs(selected, seen);
    MissingIsShortfall([], selected, seen, k);
    WantedNone(k);
    if missing != [] {
      OfKeyConcat(r.comments, NewComments(missing, r.nextId, r.nextReview), k);
      NewOfKey(missing, r.nextId, r.nextReview, k);
    }
  }

  /** An attempt that gets past the post brings every key up to the selected number, and never beyond. */
  lemma {:induction false} AttemptCounts(r: Remote, selected: seq<Selected>, fate: Fate, k: Key)
    ensures |OfKey(Attempted(r, selected, fate).comments, k)|
         == if fate.FailsBeforePost? then |OfKey(r.comments, k)| else Max(|OfKey(r.comments, k)|, Wanted(selected, k))
  {
    hide OfKey, Wanted, Partition;
    SeeingCounts(r, r.comments, selected, fate, k);
  }

  /** Any sequence of attempts with the same selected comments. */
  function Run(r: Remote, selected: seq<Selected>, fates: seq<Fate>): Remote {
    if fates == [] then r else Attempted(Run(r, selected, fates[..|fates| - 1]), selected, fates[|fates| - 1])
  }

  predicate SomePosted(fates: seq<Fate>) {
    exists f <- fates :: !f.FailsBeforePost?
  }

  /** Exactly once under retries, for every key. */
  lemma {:induction false} ExactlyOnce(r: Remote, selected: seq<Selected>, fates: seq<Fate>, k: Key)
    ensures |OfKey(Run(r, selected, fates).comments, k)|
         == if SomePosted(fates) then Max(|OfKey(r.comments, k)|, Wanted(selected, k)) else |OfKey(r.comments, k)|
  {
    hide OfKey, Wanted, Attempted;
    if fates != [] {
      var n := |fates| - 1;
      ExactlyOnce(r, selected, fates[..n], k);
      AttemptCounts(Run(r, selected, fates[..n]), selected, fates[n], k);
      assert fates == fates[..n] + [fates[n]];
      assert fates[n] in fates && forall f <- fates :: f in fates[..n] || f == fates[n];
      assert forall f <- fates[..n] :: f in fates;
    }
  }

  /** No comment or review has a number that is still to be given. */
  predicate NumbersUsed(r: Remote) {
    Valid(r) && forall c <- r.comments :: c.reviewId.Some? ==> c.reviewId.value < r.nextReview
  }

  /** Over any sequence of attempts the comments there were stay, all ids differ and no review id is given twice. */
  lemma {:induction false} CommentsStay(r: Remote, selected: seq<Selected>, fates: seq<Fate>)
    requires NumbersUsed(r)
    ensures NumbersUsed(Run(r, selected, fates)) && r.comments <= Run(r, selected, fates).comments
    decreases |fates|
  {
    hide Partition;
    if fates != [] {
      CommentsStay(r, selected, fates[..|fates| - 1]);
    }
  }

  /** What an attempt that gets past the post adds is one new review of exactly the missing comments, in order. */
  lemma {:induction false} PostsOneReview(r: Remote, selected: seq<Selected>, fate: Fate)
    requires NumbersUsed(r) && !fate.FailsBeforePost?
    ensures var missing, after := Partition(selected, r.comments).missing, Attempted(r, selected, fate).comments;
      && |after| == |r.comments| + |missing| && after[..|r.comments|] == r.comments
      && (forall i | 0 <= i < |missing| :: after[|r.comments| + i].key == missing[i].key)
      && forall i | 0 <= i < |after| :: after[i].reviewId == Some(r.nextReview) <==> i >= |r.comments|
  {
    hide Partition;
    var after := Attempted(r, selected, fate).comments;
    assert forall i | 0 <= i < |r.comments| :: after[i] == r.comments[i] && r.comments[i] in r.comments;
  }

  // ---- Listings of the pull request that lag behind -----------------------------------------------

  /** An attempt and what its listing of the pull request shows. */
  datatype Try = Try(fate: Fate, seen: seq<Comment>)

  function RunSeeing(r: Remote, selected: seq<Selected>, tries: seq<Try>): Remote {
    if tries == [] then r
    else
      var n := |tries| - 1;
      AttemptedSeeing(RunSeeing(r, selected, tries[..n]), tries[n].seen, selected, tries[n].fate)
  }

  predicate SomeTryPosted(tries: seq<Try>) {
    exists t <- tries :: !t.fate.FailsBeforePost?
  }

  /** Of the key no listing shows more comments than there are. */
  predicate ShowNoMore(r: Remote, selected: seq<Selected>, tries: seq<Try>, k: Key) {
    tries == []
    || (var n := |tries| - 1;
        ShowNoMore(r, selected, tries[..n], k)
        && |OfKey(tries[n].seen, k)| <= |OfKey(RunSeeing(r, selected, tries[..n]).comments, k)|)
  }

  /** Every attempt that posts sees as many comments of the key as there are, or as many as are wanted. */
  predicate SeeEnough(r: Remote, selected: seq<Selected>, tries: seq<Try>, k: Key) {
    tries == []
    || (var n := |tries| - 1;
        var there := |OfKey(RunSeeing(r, selected, tries[..n]).comments, k)|;
        SeeEnough(r, selected, tries[..n], k)
        && (tries[n].fate.FailsBeforePost? || |OfKey(tries[n].seen, k)| >= Min(there, Wanted(selected, k))))
  }

  lemma {:induction false} NoTryPosted()
    ensures !SomeTryPosted([])
  {
  }

  lemma {:induction false} LastTryPosted(tries: seq<Try>)
    requires tries != []
    ensures var n := |tries| - 1; SomeTryPosted(tries) <==> SomeTryPosted(tries[..n]) || !tries[n].fate.FailsBeforePost?
  {
    var n := |tries| - 1;
    assert tries == tries[..n] + [tries[n]];
    assert tries[n] in tries && forall t <- tries :: t in tries[..n] || t == tries[n];
    assert forall t <- tries[..n] :: t in tries;
  }

  /**
    Lagging listings never make too few comments; the number is right exactly when every posting attempt saw
    enough.
   */
  lemma {:induction false} ExactlyOnceIffSeen(r: Remote, selected: seq<Selected>, tries: seq<Try>, k: Key)
    requires ShowNoMore(r, selected, tries, k)
    ensures var once := if SomeTryPosted(tries) then Max(|OfKey(r.comments, k)|, Wanted(selected, k))
                        else |OfKey(r.comments, k)|;
      var there := |OfKey(RunSeeing(r, selected, tries).comments, k)|;
      there >= once && (there == once <==> SeeEnough(r, selected, tries, k))
        && (!SomeTryPosted(tries) ==> there == once)
  {
    hide OfKey, Wanted, AttemptedSeeing, SomeTryPosted;
    NoTryPosted();
    if tries != [] {
      var n := |tries| - 1;
      ExactlyOnceIffSeen(r, selected, tries[..n], k);
      SeeingCounts(RunSeeing(r, selected, tries[..n]), tries[n].seen, selected, tries[n].fate, k);
      LastTryPosted(tries);
    }
  }
}
