/**
  What a successful publishing attempt reports, when the listing of a new review
  may come in any order, and what its retries report.
 */
module PublishingReports {
  import opened Basics
  import opened InlinePublishing
  import opened InlinePublishingProofs

  // ---- Matching the comments of a review --------------------------------------------

  /** Matching comments of one review is pairing with nothing missing. */
  lemma {:induction false} MatchIsPartition(selected: seq<Selected>, comments: seq<Comment>, reviewId: int)
    requires forall c <- comments :: c.reviewId == Some(reviewId)
    ensures var split := Partition(selected, comments);
      MatchAll(selected, comments, reviewId) == if split.missing == [] then Ok(split.published) else Raised
    decreases |selected|
  {
    hide IndexOf;
    if selected != [] {
      var s, i := selected[0], IndexOf(comments, selected[0].key);
      if i < |comments| {
        MatchIsPartition(selected[1..], Without(comments, i), reviewId);
        assert comments[i] in comments;
      }
    }
  }

  lemma {:induction false} PairFirst(s: Selected, rest: seq<Selected>, comments: seq<Comment>)
    requires comments != [] && comments[0].key == s.key
    ensures var split := Partition(rest, comments[1..]);
      Partition([s] + rest, comments) == Split([Report(s, comments[0])] + split.published, split.missing)
  {
    assert ([s] + rest)[1..] == rest;
    assert IndexOf(comments, s.key) == 0 && Without(comments, 0) == comments[1..];
  }

  lemma {:induction false} NothingToPair(comments: seq<Comment>)
    ensures Partition([], comments) == Split([], [])
  {
  }

  /** The comments posted for the missing ones, listed in posting order, are reported one by one. */
  lemma {:induction false} CreatedPair(missing: seq<Selected>, created: seq<Comment>, reviewId: int)
    requires Covers(created, missing, reviewId)
    ensures Partition(missing, created) == Split(ReportsOf(missing, created, reviewId), [])
    decreases |missing|
  {
    hide ReportsOf, Partition, Covers;
    if missing == [] {
      NothingToPair(created);
      NothingReported(created, reviewId);
    } else {
      var rest := missing[1..];
      assert missing == [missing[0]] + rest;
      ReportsStep(missing[0], rest, created, reviewId);
      CreatedPair(rest, created[1..], reviewId);
      PairFirst(missing[0], rest, created);
    }
  }

  // ---- Listings in any order ---------------------------------------------------------

  /** A comment's id and what it is recognised by. */
  function RefOf(p: Published): (int, Key) {
    (p.commentId, p.key)
  }

  function Ref(c: Comment): (int, Key) {
    (c.id, c.key)
  }

  function Refs(reports: seq<Published>): (r: seq<(int, Key)>)
    ensures |r| == |reports|
  {
    Mapped(RefOf, reports)
  }

  lemma {:induction false} RefsCons(p: Published, reports: seq<Published>)
    ensures Refs([p] + reports) == [RefOf(p)] + Refs(reports)
  {
    hide Mapped;
  }

  /** Pairing takes every comment at most once. */
  lemma {:induction false} PartitionTakes(selected: seq<Selected>, comments: seq<Comment>)
    ensures var split := Partition(selected, comments);
      && |split.published| + |split.missing| == |selected|
      && multiset(Refs(split.published)) <= multiset(Mapped(Ref, comments))
    decreases |selected|
  {
    hide IndexOf, Mapped;
    if selected == [] {
      assert Refs([]) == [];
    } else {
      var s, i := selected[0], IndexOf(comments, selected[0].key);
      if i == |comments| {
        PartitionTakes(selected[1..], comments);
      } else {
        PartitionTakes(selected[1..], Without(comments, i));
        RefsCons(Report(s, comments[i]), Partition(selected[1..], Without(comments, i)).published);
        TakenOut(Mapped(Ref, comments), i);
        assert Mapped(Ref, comments)[..i] + Mapped(Ref, comments)[i + 1..] == Mapped(Ref, Without(comments, i));
      }
    }
  }

  lemma {:induction false} ShownOnce(created: seq<Comment>, order: seq<nat>, c: Comment, at: nat)
    requires NoRepeats(order) && NoRepeats(created) && at < |created| && created[at] == c
    ensures multiset(Shown(created, order))[c] <= (if at in order then 1 else 0)
    decreases |order|
  {
    if order != [] {
      var n := |order| - 1;
      assert order == order[..n] + [order[n]];
      ShownOnce(created, order[..n], c, at);
    }
  }

  lemma {:induction false} ShownMembers(created: seq<Comment>, order: seq<nat>)
    ensures forall c <- Shown(created, order) :: c in created
    decreases |order|
  {
    if order != [] {
      ShownMembers(created, order[..|order| - 1]);
    }
  }

  lemma {:induction false} TakeAtMost<T>(s: seq<T>, n: nat)
    requires n <= |s|
    ensures multiset(s[..n]) <= multiset(s)
  {
    assert s == s[..n] + s[n..];
  }

  /** A page shows no more than was created. */
  lemma {:induction false} ListingWithin(created: seq<Comment>, order: seq<nat>)
    requires NoRepeats(order) && NoRepeats(created)
    ensures multiset(Listing(created, order)) <= multiset(created)
    ensures forall c <- Listing(created, order) :: c in created
  {
    hide Shown;
    var shown := Shown(created, order);
    ShownMembers(created, order);
    TakeAtMost(shown, Min(|shown|, PAGE));
    forall c ensures multiset(shown)[c] <= multiset(created)[c] {
      if c in shown {
        var at :| 0 <= at < |created| && created[at] == c;
        ShownOnce(created, order, c, at);
        assert c in multiset(created);
      }
    }
    assert forall c <- Listing(created, order) :: c in shown;
  }

  /** Whichever listing answers, it reports exactly the created comments, each once. */
  lemma {:induction false} FetchedRefs(missing: seq<Selected>, created: seq<Comment>, listings: seq<seq<nat>>,
                                       reviewId: int)
    requires Covers(created, missing, reviewId) && NoRepeats(created)
    requires NoneRepeats(listings)
    requires Fetched(missing, created, listings, reviewId).Ok?
    ensures multiset(Refs(Fetched(missing, created, listings, reviewId).value)) == multiset(Mapped(Ref, created))
    decreases |listings|
  {
    hide Listing, Mapped, Refs, NoRepeats, Partition;
    var l := Listing(created, listings[0]);
    ListingWithin(created, listings[0]);
    CreatedReview(created, missing, l, reviewId);
    MatchIsPartition(missing, l, reviewId);
    if MatchAll(missing, l, reviewId).Ok? {
      PartitionTakes(missing, l);
      MappedSub(Ref, l, created);
      SubMultisetEqual(Refs(Partition(missing, l).published), Mapped(Ref, created));
    } else {
      FetchedRefs(missing, created, listings[1..], reviewId);
    }
  }

  lemma {:induction false} CreatedReview(created: seq<Comment>, missing: seq<Selected>, l: seq<Comment>, reviewId: int)
    requires Covers(created, missing, reviewId) && forall c <- l :: c in created
    ensures forall c <- l :: c.reviewId == Some(reviewId)
  {
  }

  /** In posting order the listing that answers shows all comments as they were posted. */
  lemma {:induction false} ShownInOrder(created: seq<Comment>, order: seq<nat>)
    requires Increasing(order)
    ensures |Shown(created, order)| == |created| ==> Shown(created, order) == created
    ensures |Shown(created, order)| <= |created|
    ensures order != [] && order[|order| - 1] < |created| ==> |Shown(created, order)| <= order[|order| - 1] + 1
    decreases |order|, |created|
  {
    if order != [] {
      var n := |order| - 1;
      var before := order[..n];
      if order[n] >= |created| {
        ShownInOrder(created, before);
      } else {
        ShownPrefix(created, before, order[n]);
        ShownInOrder(created[..order[n]], before);
        assert created[..order[n]] + [created[order[n]]] == created[..order[n] + 1];
        assert created[..|created|] == created;
      }
    }
  }

  /** Positions below `m` are shown of the first `m` comments. */
  lemma {:induction false} ShownPrefix(created: seq<Comment>, order: seq<nat>, m: nat)
    requires m <= |created| && forall i | 0 <= i < |order| :: order[i] < m
    ensures Shown(created, order) == Shown(created[..m], order)
    decreases |order|
  {
    if order != [] {
      ShownPrefix(created, order[..|order| - 1], m);
    }
  }

  lemma {:induction false} FetchedInOrder(missing: seq<Selected>, created: seq<Comment>, listings: seq<seq<nat>>,
                                          reviewId: int)
    requires Covers(created, missing, reviewId)
    requires AllIncrease(listings)
    requires Fetched(missing, created, listings, reviewId).Ok?
    ensures Fetched(missing, created, listings, reviewId).value == ReportsOf(missing, created, reviewId)
    decreases |listings|
  {
    hide Mapped, Refs, Partition, ReportsOf, Increasing;
    var order := listings[0];
    var l := Listing(created, order);
    ShownMembers(created, order);
    assert forall c <- l :: c in Shown(created, order);
    CreatedReview(created, missing, l, reviewId);
    MatchIsPartition(missing, l, reviewId);
    if MatchAll(missing, l, reviewId).Ok? {
      PartitionTakes(missing, l);
      SubMultisetEqual(Refs(Partition(missing, l).published), Mapped(Ref, l));
      ShownInOrder(created, order);
      assert l == created;
      CreatedPair(missing, created, reviewId);
    } else {
      FetchedInOrder(missing, created, listings[1..], reviewId);
    }
  }

  // ---- Which finding a comment is reported for ------------------------------------------

  function SelectedOf(p: Published): Selected {
    Selected(p.findingId, p.key)
  }

  /** Two findings with the same path, line and body. */
  predicate Ambiguous(selected: seq<Selected>) {
    exists i, j | 0 <= i < j < |selected| :: SharesKey(selected[i], selected[j])
  }

  predicate SharesKey(s: Selected, t: Selected) {
    s.key == t.key && s.findingId != t.findingId
  }

  /** The finding of the first selected comment with the key. */
  function FindingOf(selected: seq<Selected>, k: Key): string {
    if selected == [] then "" else if selected[0].key == k then selected[0].findingId else FindingOf(selected[1..], k)
  }

  lemma {:induction false} FindingOfKey(selected: seq<Selected>, s: Selected)
    requires !Ambiguous(selected) && s in selected
    ensures FindingOf(selected, s.key) == s.findingId
    decreases |selected|
  {
    var n :| 0 <= n < |selected| && selected[n] == s;
    if n > 0 {
      assert !SharesKey(selected[0], selected[n]);
      var rest := selected[1..];
      assert rest[n - 1] == s;
      forall i, j | 0 <= i < j < |rest| ensures !SharesKey(rest[i], rest[j]) {
        assert !SharesKey(selected[i + 1], selected[j + 1]);
      }
      if selected[0].key != s.key {
        FindingOfKey(rest, s);
      }
    }
  }

  /** The reports are of one review and of the missing ones. */
  predicate ReportsFor(reports: seq<Published>, missing: seq<Selected>, reviewId: int) {
    forall p <- reports :: p.reviewId == Some(reviewId) && SelectedOf(p) in missing
  }

  function Rebuilt(missing: seq<Selected>, reviewId: int, ref: (int, Key)): Published {
    Published(FindingOf(missing, ref.1), Some(reviewId), ref.0, ref.1)
  }

  lemma {:induction false} RebuiltReports(reports: seq<Published>, missing: seq<Selected>, reviewId: int)
    requires !Ambiguous(missing) && ReportsFor(reports, missing, reviewId)
    ensures Mapped(ref => Rebuilt(missing, reviewId, ref), Refs(reports)) == reports
  {
    hide Mapped, Ambiguous, FindingOf;
    var rebuilt := Mapped(ref => Rebuilt(missing, reviewId, ref), Refs(reports));
    forall i | 0 <= i < |reports| ensures rebuilt[i] == reports[i] {
      assert reports[i] in reports;
      FindingOfKey(missing, SelectedOf(reports[i]));
    }
  }

  /** Where no two findings share a key, the comments decide the reports. */
  lemma {:induction false} ReportsDetermined(a: seq<Published>, b: seq<Published>, missing: seq<Selected>,
                                             reviewId: int)
    requires !Ambiguous(missing) && ReportsFor(a, missing, reviewId) && ReportsFor(b, missing, reviewId)
    requires multiset(Refs(a)) == multiset(Refs(b))
    ensures multiset(a) == multiset(b)
  {
    hide Mapped, Refs, Ambiguous, ReportsFor, Rebuilt;
    RebuiltReports(a, missing, reviewId);
    RebuiltReports(b, missing, reviewId);
    MappedAnyOrder(ref => Rebuilt(missing, reviewId, ref), Refs(a), Refs(b));
  }

  predicate Shows(p: Published, c: Comment) {
    p.commentId == c.id && p.reviewId == c.reviewId
  }

  predicate AllShown(reports: seq<Published>, comments: seq<Comment>) {
    forall p <- reports :: exists c <- comments :: Shows(p, c)
  }

  lemma {:induction false} PublishedShown(selected: seq<Selected>, remaining: seq<Comment>)
    ensures AllShown(Partition(selected, remaining).published, remaining)
    decreases |selected|
  {
    if selected != [] {
      var s, i := selected[0], IndexOf(remaining, selected[0].key);
      if i == |remaining| {
        PublishedShown(selected[1..], remaining);
      } else {
        PublishedShown(selected[1..], Without(remaining, i));
        assert remaining[i] in remaining && Shows(Report(s, remaining[i]), remaining[i]);
        assert forall c <- Without(remaining, i) :: c in remaining;
      }
    }
  }

  /** Every selected comment is either published, under its own finding, or missing. */
  lemma {:induction false} PartitionSelects(selected: seq<Selected>, remaining: seq<Comment>)
    ensures var split := Partition(selected, remaining);
      multiset(Mapped(SelectedOf, split.published)) + multiset(split.missing) == multiset(selected)
    decreases |selected|
  {
    hide IndexOf, Mapped, Without;
    if selected == [] {
      assert Mapped(SelectedOf, []) == [];
    } else {
      var s, rest, i := selected[0], selected[1..], IndexOf(remaining, selected[0].key);
      assert selected == [s] + rest;
      if i == |remaining| {
        PartitionSelects(rest, remaining);
      } else {
        var published := Partition(rest, Without(remaining, i)).published;
        PartitionSelects(rest, Without(remaining, i));
        MappedConcat(SelectedOf, [Report(s, remaining[i])], published);
        assert Mapped(SelectedOf, [Report(s, remaining[i])]) == [s];
      }
    }
  }

  lemma {:induction false} FetchedShown(missing: seq<Selected>, created: seq<Comment>, listings: seq<seq<nat>>,
                                        reviewId: int)
    requires forall c <- created :: c.reviewId == Some(reviewId)
    requires Fetched(missing, created, listings, reviewId).Ok?
    ensures AllShown(Fetched(missing, created, listings, reviewId).value, created)
    ensures multiset(Mapped(SelectedOf, Fetched(missing, created, listings, reviewId).value)) == multiset(missing)
    decreases |listings|
  {
    hide Shown, Partition, Mapped, Shows;
    var l := Listing(created, listings[0]);
    ShownMembers(created, listings[0]);
    assert forall c <- l :: c in Shown(created, listings[0]);
    MatchIsPartition(missing, l, reviewId);
    if MatchAll(missing, l, reviewId).Ok? {
      PublishedShown(missing, l);
      PartitionSelects(missing, l);
    } else {
      FetchedShown(missing, created, listings[1..], reviewId);
    }
  }

  lemma {:induction false} ReportsForMissing(reports: seq<Published>, created: seq<Comment>, missing: seq<Selected>,
                                             reviewId: int)
    requires AllShown(reports, created) && forall c <- created :: c.reviewId == Some(reviewId)
    requires multiset(Mapped(SelectedOf, reports)) == multiset(missing)
    ensures ReportsFor(reports, missing, reviewId)
  {
    hide Mapped;
    forall p <- reports ensures SelectedOf(p) in missing {
      var i :| 0 <= i < |reports| && reports[i] == p;
      assert Mapped(SelectedOf, reports)[i] == SelectedOf(p);
      assert SelectedOf(p) in multiset(missing);
    }
  }

  lemma {:induction false} ReportsOfMissing(missing: seq<Selected>, created: seq<Comment>, reviewId: int)
    requires Covers(created, missing, reviewId)
    ensures ReportsFor(ReportsOf(missing, created, reviewId), missing, reviewId)
  {
  }

  // ---- What is reported --------------------------------------------------------------------

  lemma {:induction false} AttemptKeepsIdsUnique(r: Remote, selected: seq<Selected>, fate: Fate)
    requires Valid(r)
    ensures Valid(Attempted(r, selected, fate))
    ensures r.comments <= Attempted(r, selected, fate).comments
  {
  }

  /** With every selected comment present, all are paired. */
  lemma {:induction false} AllPaired(done: seq<Selected>, selected: seq<Selected>, all: seq<Comment>)
    requires forall k: Key :: Wanted(done, k) + Wanted(selected, k) <= |OfKey(all, k)|
    ensures Paired(done, selected, all).missing == []
    decreases |selected|
  {
    hide OfKey, Wanted;
    if selected != [] {
      var s, rest := selected[0], selected[1..];
      assert selected == [s] + rest;
      forall k: Key
        ensures Wanted(done + [s], k) + Wanted(rest, k) <= |OfKey(all, k)|
        ensures Wanted(selected, k) >= (if s.key == k then 1 else 0)
      {
        WantedCons(s, rest, k);
        WantedAppend(done, s, k);
      }
      AllPaired(done + [s], rest, all);
    }
  }

  /** The new comments answer the missing ones one by one. */
  predicate Covers(created: seq<Comment>, missing: seq<Selected>, review: int): (r: bool)
    ensures r ==> |created| == |missing|
  {
    |created| == |missing|
    && forall i | 0 <= i < |missing| :: created[i].key == missing[i].key && created[i].reviewId == Some(review)
  }

  /** `already` holds, of every key, as many comments as the selected ones in `done` found too few. */
  ghost predicate Supplied(already: seq<Comment>, all: seq<Comment>, done: seq<Selected>) {
    forall k: Key :: |OfKey(already, k)| == Max(0, Wanted(done, k) - |OfKey(all, k)|)
  }

  /** The next comment of the key, with the new comments listed after the old ones. */
  lemma {:induction false} NextOfKey(all: seq<Comment>, already: seq<Comment>, created: seq<Comment>,
                                     done: seq<Selected>, k: Key)
    requires |OfKey(already, k)| == Max(0, Wanted(done, k) - |OfKey(all, k)|)
    ensures var rank := Wanted(done, k);
      && (Nth(all, k, rank).Some? ==> Nth(all + (already + created), k, rank) == Nth(all, k, rank))
      && (Nth(all, k, rank).None? && created != [] && created[0].key == k ==>
            Nth(all + (already + created), k, rank) == Some(created[0]))
  {
    hide OfKey, Wanted;
    OfKeyConcat(all, already + created, k);
    OfKeyConcat(already, created, k);
    if created != [] && created[0].key == k {
      assert created == [created[0]] + created[1..];
      FirstCreated(created[0], created[1..], k);
    }
  }

  lemma {:induction false} SuppliedStep(already: seq<Comment>, all: seq<Comment>, done: seq<Selected>, s: Selected,
                                        created: seq<Comment>)
    requires Supplied(already, all, done)
    ensures Nth(all, s.key, Wanted(done, s.key)).Some? ==> Supplied(already, all, done + [s])
    ensures Nth(all, s.key, Wanted(done, s.key)).None? && created != [] && created[0].key == s.key ==>
              Supplied(already + [created[0]], all, done + [s])
  {
    hide OfKey, Wanted;
    forall k: Key
      ensures Wanted(done + [s], k) == Wanted(done, k) + (if s.key == k then 1 else 0)
      ensures created != [] ==>
                |OfKey(already + [created[0]], k)| == |OfKey(already, k)| + (if created[0].key == k then 1 else 0)
    {
      WantedAppend(done, s, k);
      if created != [] {
        OfKeyConcat(already, [created[0]], k);
        OfKeyOne(created[0], k);
      }
    }
  }

  lemma {:induction false} ReportsStep(s: Selected, missing: seq<Selected>, created: seq<Comment>, review: int)
    requires Covers(created, [s] + missing, review)
    ensures created != [] && created[0].key == s.key && Covers(created[1..], missing, review)
    ensures ReportsOf([s] + missing, created, review)
         == [Report(s, created[0])] + ReportsOf(missing, created[1..], review)
  {
  }

  lemma {:induction false} Reassociate<T>(all: seq<T>, already: seq<T>, created: seq<T>)
    requires created != []
    ensures all + ((already + [created[0]]) + created[1..]) == all + (already + created)
  {
  }

  /**
    The comments a review adds are paired, in the enlarged listing, with exactly the missing comments they were
    posted for: the report of the posting attempt is, up to order, the pairing every later attempt finds.
   */
  lemma {:induction false} PostedPairing(done: seq<Selected>, selected: seq<Selected>, all: seq<Comment>,
                                         created: seq<Comment>, already: seq<Comment>, review: int)
    requires Covers(created, Paired(done, selected, all).missing, review)
    requires Supplied(already, all, done)
    ensures var p := Paired(done, selected, all);
      multiset(Paired(done, selected, all + (already + created)).published)
      == multiset(p.published) + multiset(ReportsOf(p.missing, created, review))
    decreases |selected|
  {
    hide OfKey, Wanted, Nth, Covers, Supplied, ReportsOf;
    if selected == [] {
      NothingReported(created, review);
    } else {
      var s, rest := selected[0], selected[1..];
      var q := Paired(done + [s], rest, all);
      var more := all + (already + created);
      NextOfCreated(all, already, created, done, s.key);
      SuppliedStep(already, all, done, s, created);
      var c := Nth(all, s.key, Wanted(done, s.key));
      if c.Some? {
        PostedPairing(done + [s], rest, all, created, already, review);
        ConsMultiset(Report(s, c.value), q.published, ReportsOf(q.missing, created, review),
                     Paired(done + [s], rest, more).published);
      } else {
        ReportsStep(s, q.missing, created, review);
        Reassociate(all, already, created);
        PostedPairing(done + [s], rest, all, created[1..], already + [created[0]], review);
        ConsMultiset2(Report(s, created[0]), q.published, ReportsOf(q.missing, created[1..], review),
                      Paired(done + [s], rest, more).published);
      }
    }
  }

  lemma {:induction false} NextOfCreated(all: seq<Comment>, already: seq<Comment>, created: seq<Comment>,
                                         done: seq<Selected>, k: Key)
    requires Supplied(already, all, done)
    ensures var rank := Wanted(done, k);
      && (Nth(all, k, rank).Some? ==> Nth(all + (already + created), k, rank) == Nth(all, k, rank))
      && (Nth(all, k, rank).None? && created != [] && created[0].key == k ==>
            Nth(all + (already + created), k, rank) == Some(created[0]))
  {
    hide OfKey, Wanted, Nth;
    NextOfKey(all, already, created, done, k);
  }

  lemma {:induction false} NothingReported(created: seq<Comment>, review: int)
    requires Covers(created, [], review)
    ensures ReportsOf([], created, review) == []
  {
  }

  lemma {:induction false} FirstCreated(d: Comment, rest: seq<Comment>, k: Key)
    requires d.key == k
    ensures OfKey([d] + rest, k) != [] && OfKey([d] + rest, k)[0] == d
  {
  }

  lemma {:induction false} ConsMultiset<T>(x: T, a: seq<T>, b: seq<T>, c: seq<T>)
    requires multiset(c) == multiset(a) + multiset(b)
    ensures multiset([x] + c) == multiset([x] + a) + multiset(b)
  {
  }

  lemma {:induction false} ConsMultiset2<T>(x: T, a: seq<T>, b: seq<T>, c: seq<T>)
    requires multiset(c) == multiset(a) + multiset(b)
    ensures multiset([x] + c) == multiset(a) + multiset([x] + b)
  {
  }

  lemma {:induction false} CreatedAnswers(missing: seq<Selected>, id: int, reviewId: int)
    ensures Covers(NewComments(missing, id, reviewId), missing, reviewId)
    ensures NoRepeats(NewComments(missing, id, reviewId))
  {
  }

  lemma {:induction false} ReportsRefs(missing: seq<Selected>, created: seq<Comment>, reviewId: int)
    requires Covers(created, missing, reviewId)
    ensures Refs(ReportsOf(missing, created, reviewId)) == Mapped(Ref, created)
  {
    hide Mapped, ReportsOf;
  }

  lemma {:induction false} FirstOfFaithful(fate: Fate)
    requires fate.Answers?
    ensures Faithful(fate) ==> NoneRepeats(FirstFive(fate.listings))
    ensures InPostingOrder(fate) ==> AllIncrease(FirstFive(fate.listings))
  {
  }

  /** What the posting attempt reports of the new comments, against the posting order. */
  lemma {:induction false} NewReports(missing: seq<Selected>, id: int, reviewId: int, fate: Fate)
    requires fate.Answers? && Faithful(fate)
    requires Fetched(missing, NewComments(missing, id, reviewId), FirstFive(fate.listings), reviewId).Ok?
    ensures var created := NewComments(missing, id, reviewId);
      var fetched := Fetched(missing, created, FirstFive(fate.listings), reviewId).value;
      && |created| == |missing|
      && multiset(Refs(fetched)) == multiset(Refs(ReportsOf(missing, created, reviewId)))
      && (InPostingOrder(fate) ==> fetched == ReportsOf(missing, created, reviewId))
      && (!Ambiguous(missing) ==> multiset(fetched) == multiset(ReportsOf(missing, created, reviewId)))
  {
    hide Fetched, ReportsOf, Refs, Mapped, Faithful, InPostingOrder, FirstFive, Ambiguous, AllShown, ReportsFor;
    var created := NewComments(missing, id, reviewId);
    CreatedAnswers(missing, id, reviewId);
    FirstOfFaithful(fate);
    FetchedRefs(missing, created, FirstFive(fate.listings), reviewId);
    ReportsRefs(missing, created, reviewId);
    if InPostingOrder(fate) {
      FetchedInOrder(missing, created, FirstFive(fate.listings), reviewId);
    }
    if !Ambiguous(missing) {
      var fetched := Fetched(missing, created, FirstFive(fate.listings), reviewId).value;
      FetchedShown(missing, created, FirstFive(fate.listings), reviewId);
      ReportsForMissing(fetched, created, missing, reviewId);
      ReportsOfMissing(missing, created, reviewId);
      ReportsDetermined(fetched, ReportsOf(missing, created, reviewId), missing, reviewId);
    }
  }

  /** With every selected comment then on the pull request, the pairing is complete and contains the posted ones. */
  lemma {:induction false} FinalPairing(r: Remote, selected: seq<Selected>, fate: Fate)
    requires !fate.FailsBeforePost?
    ensures var end, p := Attempted(r, selected, fate).comments, Paired([], selected, r.comments);
      && Paired([], selected, end).missing == []
      && multiset(Paired([], selected, end).published)
         == multiset(p.published + ReportsOf(p.missing, NewComments(p.missing, r.nextId, r.nextReview), r.nextReview))
  {
    hide Partition, Paired, NewComments, ReportsOf, Supplied, Covers;
    PartitionPairs(selected, r.comments);
    NoneMissingAfter(r, selected, fate);
    var p := Paired([], selected, r.comments);
    var created := NewComments(p.missing, r.nextId, r.nextReview);
    CreatedAnswers(p.missing, r.nextId, r.nextReview);
    SuppliedNothing(r.comments);
    PostedPairing([], selected, r.comments, created, [], r.nextReview);
    AppendStep([], [], created);
    AppendStep(r.comments, [], []);
    NothingCreated(p.missing, r.nextId, r.nextReview);
  }

  lemma {:induction false} NothingCreated(missing: seq<Selected>, id: int, reviewId: int)
    ensures missing == [] ==> NewComments(missing, id, reviewId) == []
  {
  }

  lemma {:induction false} NoneMissingAfter(r: Remote, selected: seq<Selected>, fate: Fate)
    requires !fate.FailsBeforePost?
    ensures Paired([], selected, Attempted(r, selected, fate).comments).missing == []
  {
    hide OfKey, Wanted, Attempted, Paired;
    var end := Attempted(r, selected, fate).comments;
    forall k: Key ensures Wanted([], k) + Wanted(selected, k) <= |OfKey(end, k)| {
      AttemptCounts(r, selected, fate, k);
      WantedNone(k);
    }
    AllPaired([], selected, end);
  }

  lemma {:induction false} SuppliedNothing(all: seq<Comment>)
    ensures Supplied([], all, [])
  {
    hide OfKey, Wanted;
    forall k: Key ensures |OfKey([], k)| == Max(0, Wanted([], k) - |OfKey(all, k)|) {
      WantedNone(k);
      NoneOfKey([], k);
    }
  }

  /**
    A successful attempt reports exactly the comments that the selected ones are paired with on the pull request,
    none missing; if the listings keep the posting order or no two missing ones share their key but not their
    finding, also which finding got which.
   */
  lemma {:induction false} ReportIsFinalPairing(r: Remote, selected: seq<Selected>, fate: Fate)
    requires Answer(r, selected, fate).Ok? && Faithful(fate) && selected != []
    ensures var end := Attempted(r, selected, fate).comments;
      && Paired([], selected, end).missing == []
      && multiset(Refs(Answer(r, selected, fate).value)) == multiset(Refs(Paired([], selected, end).published))
      && (InPostingOrder(fate) || !Ambiguous(Partition(selected, r.comments).missing) ==>
            multiset(Answer(r, selected, fate).value) == multiset(Paired([], selected, end).published))
  {
    hide Partition, Paired, Attempted, Fetched, ReportsOf, NewComments, Mapped, Faithful, InPostingOrder, FirstFive;
    hide Ambiguous;
    var end := Attempted(r, selected, fate).comments;
    var p := Partition(selected, r.comments);
    PartitionPairs(selected, r.comments);
    FinalPairing(r, selected, fate);
    var created := NewComments(p.missing, r.nextId, r.nextReview);
    var posted := ReportsOf(p.missing, created, r.nextReview);
    if p.missing == [] {
      AppendStep(p.published, [], []);
    } else {
      NewReports(p.missing, r.nextId, r.nextReview, fate);
      MappedConcat(RefOf, p.published, Fetched(p.missing, created, FirstFive(fate.listings), r.nextReview).value);
    }
    MappedConcat(RefOf, p.published, posted);
    MappedAnyOrder(RefOf, Paired([], selected, end).published, p.published + posted);
    MappedAnyOrder(RefOf, Answer(r, selected, fate).value, Answer(r, selected, fate).value);
  }

  /**
    A retry after a successful attempt posts nothing and reports the same comments; in posting order, or where no
    two missing ones share their key but not their finding, the same pairs.
   */
  lemma {:induction false} RetryReportsTheSame(r: Remote, selected: seq<Selected>, first: Fate, again: Fate)
    requires Answer(r, selected, first).Ok? && Faithful(first) && again.Answers?
    ensures var mid := Attempted(r, selected, first);
      && Attempted(mid, selected, again) == mid
      && Answer(mid, selected, again).Ok?
      && multiset(Refs(Answer(mid, selected, again).value)) == multiset(Refs(Answer(r, selected, first).value))
      && (InPostingOrder(first) || !Ambiguous(Partition(selected, r.comments).missing) ==>
            multiset(Answer(mid, selected, again).value) == multiset(Answer(r, selected, first).value))
  {
    hide Paired, Partition, Fetched, Refs, Faithful, InPostingOrder, Ambiguous;
    var mid := Attempted(r, selected, first);
    PartitionPairs(selected, mid.comments);
    if selected == [] {
      NothingSelected(r);
      NothingSelected(mid);
    } else {
      ReportIsFinalPairing(r, selected, first);
    }
  }

  lemma {:induction false} NothingSelected(r: Remote)
    ensures Partition([], r.comments) == Split([], [])
  {
  }

  // ---- Every comment id is used once ----------------------------------------------------------

  lemma {:induction false} OfKeyMembers(comments: seq<Comment>, k: Key)
    requires forall i, j | 0 <= i < j < |comments| :: comments[i].id != comments[j].id
    ensures forall c <- OfKey(comments, k) :: c in comments && c.key == k
    ensures forall i, j | 0 <= i < j < |OfKey(comments, k)| :: OfKey(comments, k)[i].id != OfKey(comments, k)[j].id
  {
    if comments != [] {
      var rest := comments[1..];
      OfKeyMembers(rest, k);
      forall c | c in rest ensures c.id != comments[0].id {
        var j :| 0 <= j < |rest| && rest[j] == c;
        assert comments[j + 1] == c;
      }
    }
  }

  lemma {:induction false} SameIdSameComment(comments: seq<Comment>, a: Comment, b: Comment)
    requires forall i, j | 0 <= i < j < |comments| :: comments[i].id != comments[j].id
    requires a in comments && b in comments && a.id == b.id
    ensures a == b
  {
  }

  /** A published pair names a comment of its own key whose rank is at least what was wanted before. */
  lemma {:induction false} PublishedRanks(done: seq<Selected>, selected: seq<Selected>, all: seq<Comment>, p: Published)
    requires p in Paired(done, selected, all).published
    ensures exists rank ::
            Wanted(done, p.key) <= rank < |OfKey(all, p.key)| && OfKey(all, p.key)[rank].id == p.commentId
    decreases |selected|
  {
    hide OfKey, Wanted;
    if selected != [] {
      var s := selected[0];
      WantedAppend(done, s, p.key);
      var rest := Paired(done + [s], selected[1..], all);
      if p in rest.published {
        PublishedRanks(done + [s], selected[1..], all, p);
      }
    }
  }

  predicate DistinctIds(p: seq<Published>) {
    forall i, j | 0 <= i < j < |p| :: p[i].commentId != p[j].commentId
  }

  lemma {:induction false} DistinctCons(p: Published, rest: seq<Published>)
    requires DistinctIds(rest) && forall q <- rest :: q.commentId != p.commentId
    ensures DistinctIds([p] + rest)
  {
  }

  lemma {:induction false} IdsUsedOnce(done: seq<Selected>, selected: seq<Selected>, all: seq<Comment>)
    requires forall i, j | 0 <= i < j < |all| :: all[i].id != all[j].id
    ensures DistinctIds(Paired(done, selected, all).published)
    decreases |selected|
  {
    hide OfKey, Wanted, DistinctIds;
    if selected == [] {
      NoIds();
    } else {
      var s := selected[0];
      IdsUsedOnce(done + [s], selected[1..], all);
      var rest := Paired(done + [s], selected[1..], all).published;
      var c := Nth(all, s.key, Wanted(done, s.key));
      if c.Some? {
        forall q | q in rest ensures q.commentId != c.value.id {
          PublishedRanks(done + [s], selected[1..], all, q);
          DifferentComments(done, s, all, q);
        }
        DistinctCons(Report(s, c.value), rest);
      }
    }
  }

  lemma {:induction false} NoIds()
    ensures DistinctIds([])
  {
  }

  lemma {:induction false} DifferentComments(done: seq<Selected>, s: Selected, all: seq<Comment>, q: Published)
    requires forall i, j | 0 <= i < j < |all| :: all[i].id != all[j].id
    requires Wanted(done, s.key) < |OfKey(all, s.key)|
    requires exists rank ::
             Wanted(done + [s], q.key) <= rank < |OfKey(all, q.key)| && OfKey(all, q.key)[rank].id == q.commentId
    ensures q.commentId != OfKey(all, s.key)[Wanted(done, s.key)].id
  {
    hide OfKey, Wanted;
    var rank :| Wanted(done + [s], q.key) <= rank < |OfKey(all, q.key)| && OfKey(all, q.key)[rank].id == q.commentId;
    var mine, theirs := OfKey(all, s.key)[Wanted(done, s.key)], OfKey(all, q.key)[rank];
    OfKeyMembers(all, s.key);
    OfKeyMembers(all, q.key);
    WantedAppend(done, s, q.key);
    if mine.id == theirs.id {
      SameIdSameComment(all, mine, theirs);
    }
  }

  /** The ids of a list of reports. */
  function IdOf(ref: (int, Key)): int {
    ref.0
  }

  lemma {:induction false} IdsOfRefs(reports: seq<Published>)
    ensures NoRepeats(Mapped(IdOf, Refs(reports))) <==> DistinctIds(reports)
  {
    hide Mapped;
    var ids := Mapped(IdOf, Refs(reports));
    assert forall i | 0 <= i < |ids| :: ids[i] == reports[i].commentId;
  }

  /** No successful attempt reports a comment id twice. */
  lemma {:induction false} ReportedIdsDistinct(r: Remote, selected: seq<Selected>, fate: Fate)
    requires Valid(r) && Answer(r, selected, fate).Ok? && Faithful(fate)
    ensures DistinctIds(Answer(r, selected, fate).value)
  {
    hide Paired, Partition, Attempted, Fetched, Mapped, Refs, DistinctIds, NoRepeats, Faithful;
    if selected == [] {
      NoIds();
    } else {
      AttemptKeepsIdsUnique(r, selected, fate);
      var end := Attempted(r, selected, fate).comments;
      var pairs, reports := Paired([], selected, end).published, Answer(r, selected, fate).value;
      IdsUsedOnce([], selected, end);
      ReportIsFinalPairing(r, selected, fate);
      IdsOfRefs(pairs);
      IdsOfRefs(reports);
      MappedAnyOrder(IdOf, Refs(pairs), Refs(reports));
      NoRepeatsAnyOrder(Mapped(IdOf, Refs(pairs)), Mapped(IdOf, Refs(reports)));
    }
  }

  // ---- When the posting order matters ------------------------------------------------------------

  /** The listing that shows everything, with two comments exchanged. */
  function Exchange(n: nat, i: nat, j: nat): (order: seq<nat>)
    requires i < n && j < n
    ensures |order| == n
    ensures forall k | 0 <= k < n :: order[k] == if k == i then j else if k == j then i else k
  {
    seq(n, k requires 0 <= k < n => if k == i then j else if k == j then i else k)
  }

  function Exchanging(missing: seq<Selected>, i: nat, j: nat): Fate
    requires i < |missing| && j < |missing|
  {
    Answers([Exchange(|missing|, i, j)])
  }

  lemma {:induction false} ShownAll(created: seq<Comment>, order: seq<nat>)
    requires forall k | 0 <= k < |order| :: order[k] < |created|
    ensures |Shown(created, order)| == |order|
    ensures forall k | 0 <= k < |order| :: Shown(created, order)[k] == created[order[k]]
    decreases |order|
  {
    if order != [] {
      ShownAll(created, order[..|order| - 1]);
    }
  }

  /** Comments with one key, exchanged: each of the two is reported for the other's finding. */
  lemma {:induction false} ExchangedReports(missing: seq<Selected>, created: seq<Comment>, i: nat, j: nat,
                                            reviewId: int)
    requires Covers(created, missing, reviewId) && |missing| <= PAGE
    requires i < |missing| && j < |missing| && missing[i].key == missing[j].key
    ensures var l, listings := created[i := created[j]][j := created[i]], FirstFive([Exchange(|missing|, i, j)]);
      Covers(l, missing, reviewId)
        && Fetched(missing, created, listings, reviewId) == Ok(ReportsOf(missing, l, reviewId))
  {
    hide Shown, Partition, MatchAll, ReportsOf;
    var l, order := created[i := created[j]][j := created[i]], Exchange(|missing|, i, j);
    ShownAll(created, order);
    assert Listing(created, order) == l;
    CreatedReview(l, missing, l, reviewId);
    MatchIsPartition(missing, l, reviewId);
    CreatedPair(missing, l, reviewId);
    assert FirstFive([order]) == [order];
  }

  lemma {:induction false} ExchangingIsFaithful(missing: seq<Selected>, i: nat, j: nat)
    requires i < j < |missing|
    ensures Faithful(Exchanging(missing, i, j))
  {
  }

  /** What the attempt with that listing answers. */
  lemma {:induction false} ExchangedAnswer(r: Remote, selected: seq<Selected>, i: nat, j: nat)
    requires i < j < |Partition(selected, r.comments).missing| <= PAGE
    requires SharesKey(Partition(selected, r.comments).missing[i], Partition(selected, r.comments).missing[j])
    ensures var split := Partition(selected, r.comments);
      var fate, created := Exchanging(split.missing, i, j), NewComments(split.missing, r.nextId, r.nextReview);
      var l := created[i := created[j]][j := created[i]];
      Covers(l, split.missing, r.nextReview)
      && Answer(r, selected, fate) == Ok(split.published + ReportsOf(split.missing, l, r.nextReview))
  {
    hide Partition, NewComments, ReportsOf, Fetched, Exchange, FirstFive;
    var split := Partition(selected, r.comments);
    var created := NewComments(split.missing, r.nextId, r.nextReview);
    CreatedAnswers(split.missing, r.nextId, r.nextReview);
    ExchangedReports(split.missing, created, i, j, r.nextReview);
    if selected == [] {
      NothingSelected(r);
    }
  }

  /** The report of the finding `i`, for the comment posted for the missing one `at`. */
  function ReportAt(r: Remote, missing: seq<Selected>, i: nat, at: nat): Published
    requires i < |missing|
  {
    Published(missing[i].findingId, Some(r.nextReview), r.nextId + at, missing[i].key)
  }

  lemma {:induction false} ExchangedMember(r: Remote, missing: seq<Selected>, i: nat, j: nat)
    requires i < j < |missing| && SharesKey(missing[i], missing[j])
    ensures var created := NewComments(missing, r.nextId, r.nextReview);
      var l := created[i := created[j]][j := created[i]];
      && Covers(l, missing, r.nextReview)
      && ReportAt(r, missing, i, j) in ReportsOf(missing, l, r.nextReview)
      && ReportAt(r, missing, i, i) in ReportsOf(missing, created, r.nextReview)
      && ReportAt(r, missing, i, j) !in ReportsOf(missing, created, r.nextReview)
  {
    var created := NewComments(missing, r.nextId, r.nextReview);
    var l := created[i := created[j]][j := created[i]];
    assert ReportsOf(missing, l, r.nextReview)[i] == ReportAt(r, missing, i, j);
    assert ReportsOf(missing, created, r.nextReview)[i] == ReportAt(r, missing, i, i);
  }

  /** An attempt that answers leaves nothing missing: any later one reports the pairing it finds. */
  lemma {:induction false} RetryAnswers(r: Remote, selected: seq<Selected>, first: Fate, again: Fate)
    requires !first.FailsBeforePost? && again.Answers?
    ensures var mid := Attempted(r, selected, first);
      && Attempted(mid, selected, again) == mid
      && Answer(mid, selected, again) == Ok(Paired([], selected, mid.comments).published)
  {
    hide Paired, Partition;
    var mid := Attempted(r, selected, first);
    PartitionPairs(selected, mid.comments);
    FinalPairing(r, selected, first);
    if selected == [] {
      NothingSelected(mid);
    }
  }

  /**
    If two missing comments share their key but not their finding, the listing that exchanges them makes the
    attempt report the comment of the one for the other, and a retry report it back.
   */
  lemma {:induction false} SwappedListingSwapsFindings(r: Remote, selected: seq<Selected>, i: nat, j: nat, again: Fate)
    requires i < j < |Partition(selected, r.comments).missing| <= PAGE && again.Answers?
    requires SharesKey(Partition(selected, r.comments).missing[i], Partition(selected, r.comments).missing[j])
    ensures var missing := Partition(selected, r.comments).missing;
      var first := Exchanging(missing, i, j);
      && Faithful(first) && Answer(r, selected, first).Ok?
      && var mid := Attempted(r, selected, first);
         Answer(mid, selected, again).Ok?
         && ReportAt(r, missing, i, j) in Answer(r, selected, first).value
         && ReportAt(r, missing, i, i) in Answer(mid, selected, again).value
         && multiset(Answer(mid, selected, again).value) != multiset(Answer(r, selected, first).value)
  {
    hide Partition, Paired, Answer, ReportsOf, NewComments, Attempted, Exchanging, Faithful;
    var split := Partition(selected, r.comments);
    var first, missing := Exchanging(split.missing, i, j), split.missing;
    var created := NewComments(missing, r.nextId, r.nextReview);
    var l := created[i := created[j]][j := created[i]];
    ExchangingIsFaithful(missing, i, j);
    ExchangedAnswer(r, selected, i, j);
    ExchangedMember(r, missing, i, j);
    IsAnswer(missing, i, j);
    RetryAnswers(r, selected, first, again);
    PartitionPairs(selected, r.comments);
    FinalPairing(r, selected, first);
    SumsDiffer(split.published, ReportsOf(missing, l, r.nextReview), ReportsOf(missing, created, r.nextReview),
               ReportAt(r, missing, i, j));
    assert ReportAt(r, missing, i, i) in multiset(split.published + ReportsOf(missing, created, r.nextReview));
  }

  lemma {:induction false} IsAnswer(missing: seq<Selected>, i: nat, j: nat)
    requires i < j < |missing|
    ensures Exchanging(missing, i, j).Answers?
  {
  }

  lemma {:induction false} SumsDiffer<T>(a: seq<T>, b: seq<T>, c: seq<T>, x: T)
    requires x in b && x !in c
    ensures multiset(a + b) != multiset(a + c)
  {
    assert multiset(b)[x] > multiset(c)[x];
    assert multiset(a + b)[x] == multiset(a)[x] + multiset(b)[x];
    assert multiset(a + c)[x] == multiset(a)[x] + multiset(c)[x];
  }

  /** A review of more comments than one page is never found complete. */
  lemma {:induction false} TooManyRaise(missing: seq<Selected>, created: seq<Comment>, listings: seq<seq<nat>>,
                                        reviewId: int)
    requires |missing| > PAGE && Covers(created, missing, reviewId)
    ensures Fetched(missing, created, listings, reviewId) == Raised
    decreases |listings|
  {
    hide Shown, Partition, Mapped, Refs;
    if listings != [] {
      var l := Listing(created, listings[0]);
      ShownMembers(created, listings[0]);
      assert forall c <- l :: c in Shown(created, listings[0]);
      CreatedReview(created, missing, l, reviewId);
      MatchIsPartition(missing, l, reviewId);
      PartitionTakes(missing, l);
      SubMultisetEqual(Refs(Partition(missing, l).published), Mapped(Ref, l));
      TooManyRaise(missing, created, listings[1..], reviewId);
    }
  }

  lemma {:induction false} TooManyMissing(r: Remote, selected: seq<Selected>, fate: Fate)
    requires |Partition(selected, r.comments).missing| > PAGE && Answer(r, selected, fate).Ok?
    ensures selected == []
  {
    hide Partition, Fetched, NewComments;
    if selected != [] {
      var missing := Partition(selected, r.comments).missing;
      CreatedAnswers(missing, r.nextId, r.nextReview);
      TooManyRaise(missing, NewComments(missing, r.nextId, r.nextReview), FirstFive(fate.listings), r.nextReview);
    }
  }

  /** However the new review is listed, a retry reports what the first successful attempt reported. */
  ghost predicate RetriesAgree(r: Remote, selected: seq<Selected>) {
    forall first: Fate, again: Fate | Faithful(first) && Answer(r, selected, first).Ok? && again.Answers? ::
      var mid := Attempted(r, selected, first);
      Answer(mid, selected, again).Ok?
      && multiset(Answer(mid, selected, again).value) == multiset(Answer(r, selected, first).value)
  }

  /** However the new review is listed, a successful attempt reports the pairing that is then on the pull request. */
  ghost predicate ReportsArePairings(r: Remote, selected: seq<Selected>) {
    forall fate: Fate | Faithful(fate) && Answer(r, selected, fate).Ok? ::
      multiset(Answer(r, selected, fate).value)
      == multiset(Paired([], selected, Attempted(r, selected, fate).comments).published)
  }

  /** The missing comments fit on one page, and two of them share their key but not their finding. */
  predicate Swappable(missing: seq<Selected>) {
    |missing| <= PAGE && Ambiguous(missing)
  }

  /**
    A retry can report other pairs exactly when two missing comments of one page share their key but not their
    finding.
   */
  lemma {:induction false} RetriesAgreeIff(r: Remote, selected: seq<Selected>)
    ensures RetriesAgree(r, selected) <==> !Swappable(Partition(selected, r.comments).missing)
  {
    hide Partition, Paired, Answer, Attempted, Faithful, Refs, SharesKey, Exchanging;
    var missing := Partition(selected, r.comments).missing;
    if Swappable(missing) {
      var i, j :| 0 <= i < j < |missing| && SharesKey(missing[i], missing[j]);
      SwappedListingSwapsFindings(r, selected, i, j, Answers([]));
    } else {
      forall first: Fate, again: Fate | Faithful(first) && Answer(r, selected, first).Ok? && again.Answers?
        ensures var mid := Attempted(r, selected, first);
          Answer(mid, selected, again).Ok?
          && multiset(Answer(mid, selected, again).value) == multiset(Answer(r, selected, first).value)
      {
        RetryReportsTheSame(r, selected, first, again);
        if |missing| > PAGE {
          TooManyMissing(r, selected, first);
          NothingSelected(r);
        }
      }
    }
  }

  lemma {:induction false} NothingReportedOf(r: Remote, fate: Fate)
    ensures Answer(r, [], fate) == Ok([]) && Paired([], [], Attempted(r, [], fate).comments).published == []
  {
  }

  /** So can a successful attempt report pairs other than those then on the pull request. */
  lemma {:induction false} ReportsArePairingsIff(r: Remote, selected: seq<Selected>)
    ensures ReportsArePairings(r, selected) <==> !Swappable(Partition(selected, r.comments).missing)
  {
    hide Partition, Paired, Answer, Attempted, Faithful, Refs, SharesKey, Exchanging;
    var missing := Partition(selected, r.comments).missing;
    if Swappable(missing) {
      var i, j :| 0 <= i < j < |missing| && SharesKey(missing[i], missing[j]);
      var first := Exchanging(missing, i, j);
      IsAnswer(missing, i, j);
      SwappedListingSwapsFindings(r, selected, i, j, first);
      RetryAnswers(r, selected, first, first);
    } else {
      forall fate: Fate | Faithful(fate) && Answer(r, selected, fate).Ok?
        ensures multiset(Answer(r, selected, fate).value)
             == multiset(Paired([], selected, Attempted(r, selected, fate).comments).published)
      {
        if selected == [] {
          NothingReportedOf(r, fate);
        } else {
          ReportIsFinalPairing(r, selected, fate);
          if |missing| > PAGE {
            TooManyMissing(r, selected, fate);
          }
        }
      }
    }
  }

  // ---- When an attempt succeeds --------------------------------------------------------------

  /** One page of at most 100 comments of those a listing shows. */
  function PageOf(created: seq<Comment>, order: seq<nat>): seq<Comment> {
    var shown := Shown(created, order);
    if |shown| <= 100 then shown else shown[..100]
  }

  /** Of every key the page has as many comments as are missing. */
  ghost predicate ShowsAll(page: seq<Comment>, missing: seq<Selected>) {
    forall k: Key :: |OfKey(page, k)| >= Wanted(missing, k)
  }

  /** Listing number `i`, one of the first five, is the first whose page shows all that is missing. */
  ghost predicate FirstComplete(created: seq<Comment>, missing: seq<Selected>, listings: seq<seq<nat>>, i: nat) {
    && i < 5 && i < |listings| && ShowsAll(PageOf(created, listings[i]), missing)
    && forall j | 0 <= j < i :: !ShowsAll(PageOf(created, listings[j]), missing)
  }

  lemma {:induction false} SomeWanted(selected: seq<Selected>)
    requires selected != []
    ensures Wanted(selected, selected[0].key) >= 1
  {
    WantedCons(selected[0], selected[1..], selected[0].key);
    assert selected == [selected[0]] + selected[1..];
  }

  lemma {:induction false} NoneMissingIff(selected: seq<Selected>, comments: seq<Comment>)
    ensures Partition(selected, comments).missing == [] <==> ShowsAll(comments, selected)
  {
    hide Partition, Paired, OfKey, Wanted;
    PartitionPairs(selected, comments);
    var missing := Partition(selected, comments).missing;
    forall k: Key ensures Wanted(missing, k) == Max(0, Wanted(selected, k) - |OfKey(comments, k)|) {
      MissingIsShortfall([], selected, comments, k);
      WantedNone(k);
    }
    if missing != [] {
      SomeWanted(missing);
    } else {
      forall k: Key ensures |OfKey(comments, k)| >= Wanted(selected, k) {
        WantedNone(k);
        assert Wanted(missing, k) == Max(0, Wanted(selected, k) - |OfKey(comments, k)|);
      }
    }
  }

  lemma {:induction false} MatchIff(missing: seq<Selected>, created: seq<Comment>, order: seq<nat>, reviewId: int)
    requires Covers(created, missing, reviewId)
    ensures var page := PageOf(created, order);
      && Listing(created, order) == page
      && MatchAll(missing, page, reviewId)
         == if ShowsAll(page, missing) then Ok(Partition(missing, page).published) else Raised
  {
    hide Shown, Partition, MatchAll, ShowsAll;
    var page := PageOf(created, order);
    ShownMembers(created, order);
    assert forall c <- page :: c in Shown(created, order);
    CreatedReview(created, missing, page, reviewId);
    MatchIsPartition(missing, page, reviewId);
    NoneMissingIff(missing, page);
  }

  /** What the listings tried give: the pairing with the first complete page, if there is one. */
  lemma {:induction false} FetchedIff(missing: seq<Selected>, created: seq<Comment>, listings: seq<seq<nat>>,
                                      reviewId: int)
    requires Covers(created, missing, reviewId)
    ensures Fetched(missing, created, listings, reviewId).Ok?
       <==> exists i | 0 <= i < |listings| :: ShowsAll(PageOf(created, listings[i]), missing)
    ensures forall i | 0 <= i < |listings| && ShowsAll(PageOf(created, listings[i]), missing)
                       && (forall j | 0 <= j < i :: !ShowsAll(PageOf(created, listings[j]), missing)) ::
              Fetched(missing, created, listings, reviewId)
              == Ok(Partition(missing, PageOf(created, listings[i])).published)
    decreases |listings|
  {
    hide Shown, Partition, MatchAll, ShowsAll, Covers, PageOf, Listing;
    if listings != [] {
      var rest := listings[1..];
      MatchIff(missing, created, listings[0], reviewId);
      FetchedIff(missing, created, rest, reviewId);
      assert forall i | 0 <= i < |rest| :: rest[i] == listings[i + 1];
      if !ShowsAll(PageOf(created, listings[0]), missing) {
        forall i | 0 <= i < |listings| && ShowsAll(PageOf(created, listings[i]), missing)
                   && (forall j | 0 <= j < i :: !ShowsAll(PageOf(created, listings[j]), missing))
          ensures Fetched(missing, created, listings, reviewId)
               == Ok(Partition(missing, PageOf(created, listings[i])).published)
        {
          assert forall j | 0 <= j < i - 1 :: rest[j] == listings[j + 1];
          assert rest[i - 1] == listings[i];
        }
      }
    }
  }

  /**
    When an attempt that finds comments missing answers: exactly if one of the first five listings of the new
    review shows, of every key, as many comments as are missing.  The first such listing is reported.
   */
  lemma {:induction false} AnswersIff(r: Remote, selected: seq<Selected>, listings: seq<seq<nat>>)
    requires selected != [] && Partition(selected, r.comments).missing != []
    ensures var split, answer := Partition(selected, r.comments), Answer(r, selected, Answers(listings));
      var created := NewComments(split.missing, r.nextId, r.nextReview);
      && (answer.Ok? <==> exists i: nat :: FirstComplete(created, split.missing, listings, i))
      && forall i: nat | FirstComplete(created, split.missing, listings, i) ::
           answer == Ok(split.published + Partition(split.missing, PageOf(created, listings[i])).published)
  {
    hide Partition, Fetched, NewComments, ShowsAll, PageOf, Covers;
    var split := Partition(selected, r.comments);
    var created, tried := NewComments(split.missing, r.nextId, r.nextReview), FirstFive(listings);
    CreatedAnswers(split.missing, r.nextId, r.nextReview);
    FetchedIff(split.missing, created, tried, r.nextReview);
    assert forall i | 0 <= i < |tried| :: tried[i] == listings[i];
    if exists i | 0 <= i < |tried| :: ShowsAll(PageOf(created, tried[i]), split.missing) {
      var i :| 0 <= i < |tried| && ShowsAll(PageOf(created, tried[i]), split.missing);
      var first := FirstOf(created, split.missing, listings, i);
      assert FirstComplete(created, split.missing, listings, first);
    }
    forall i: nat | FirstComplete(created, split.missing, listings, i)
      ensures Answer(r, selected, Answers(listings))
           == Ok(split.published + Partition(split.missing, PageOf(created, listings[i])).published)
    {
      assert tried[i] == listings[i];
    }
  }

  lemma {:induction false} FirstOf(created: seq<Comment>, missing: seq<Selected>, listings: seq<seq<nat>>, n: nat)
    returns (first: nat)
    requires n < 5 && n < |listings| && ShowsAll(PageOf(created, listings[n]), missing)
    ensures FirstComplete(created, missing, listings, first)
    decreases n
  {
    hide ShowsAll, PageOf;
    if j: nat :| j < n && ShowsAll(PageOf(created, listings[j]), missing) {
      first := FirstOf(created, missing, listings, j);
    } else {
      first := n;
    }
  }

  /** The other attempts: nothing selected, failures, and nothing missing. */
  lemma {:induction false} OtherAnswers(r: Remote, selected: seq<Selected>, fate: Fate)
    ensures selected == [] ==> Answer(r, selected, fate) == Ok([])
    ensures selected != [] && !fate.Answers? ==> Answer(r, selected, fate) == Raised
    ensures selected != [] && fate.Answers? && Partition(selected, r.comments).missing == [] ==>
              Answer(r, selected, fate) == Ok(Paired([], selected, r.comments).published)
  {
    hide Partition, Paired;
    PartitionPairs(selected, r.comments);
  }
}
