/**
  Publishing inline review comments (`publish_inline_review_comments`).  An
  attempt lists the comments on the pull request, pairs them with the selected
  ones, posts what is missing as one review and lists that review to learn the
  new ids.  An attempt may fail before or after the post; it is then retried with
  the same selected comments.
 */
module InlinePublishing {
  import opened Basics

  /** What a comment is recognised by. */
  datatype Key = Key(path: string, line: int, body: string)

  datatype Selected = Selected(findingId: string, key: Key)

  datatype Comment = Comment(id: int, reviewId: Option<int>, key: Key)

  datatype Published = Published(findingId: string, reviewId: Option<int>, commentId: int, key: Key)

  /** One page of the listing of a review; the listing of a pull request is read page by page to its end. */
  const PAGE := 100

  // ---- Pairing -----------------------------------------------------------------

  /** The index of the first comment with the key, or the number of comments. */
  function IndexOf(comments: seq<Comment>, k: Key): (i: nat)
    ensures i <= |comments|
    ensures i < |comments| ==> comments[i].key == k
    ensures forall j | 0 <= j < i :: comments[j].key != k
  {
    if comments == [] || comments[0].key == k then 0 else 1 + IndexOf(comments[1..], k)
  }

  function Without(comments: seq<Comment>, i: nat): seq<Comment>
    requires i < |comments|
  {
    comments[..i] + comments[i + 1..]
  }

  function Report(s: Selected, c: Comment): Published {
    Published(s.findingId, c.reviewId, c.id, s.key)
  }

  datatype Split = Split(published: seq<Published>, missing: seq<Selected>)

  function Partition(selected: seq<Selected>, remaining: seq<Comment>): Split
    decreases |selected|
  {
    if selected == [] then Split([], [])
    else
      var s, i := selected[0], IndexOf(remaining, selected[0].key);
      if i == |remaining| then
        var rest := Partition(selected[1..], remaining);
        Split(rest.published, [s] + rest.missing)
      else
        var rest := Partition(selected[1..], Without(remaining, i));
        Split([Report(s, remaining[i])] + rest.published, rest.missing)
  }

  method FindComment(comments: seq<Comment>, k: Key) returns (i: nat)
    ensures i == IndexOf(comments, k)
  {
    i := 0;
    while i < |comments| && comments[i].key != k
      invariant 0 <= i <= |comments|
      invariant IndexOf(comments, k) == i + IndexOf(comments[i..], k)
    {
      assert comments[i..][1..] == comments[i + 1..];
      i := i + 1;
    }
  }

  method PartitionExisting(selected: seq<Selected>, comments: seq<Comment>)
    returns (published: seq<Published>, missing: seq<Selected>)
    ensures Split(published, missing) == Partition(selected, comments)
  {
    var remaining := comments;
    published, missing := [], [];
    var n := 0;
    while n < |selected|
      invariant 0 <= n <= |selected|
      invariant var rest, all := Partition(selected[n..], remaining), Partition(selected, comments);
        published + rest.published == all.published && missing + rest.missing == all.missing
    {
      var s := selected[n];
      assert selected[n..][0] == s && selected[n..][1..] == selected[n + 1..];
      var i := FindComment(remaining, s.key);
      if i == |remaining| {
        missing := missing + [s];
      } else {
        published := published + [Report(s, remaining[i])];
        remaining := remaining[..i] + remaining[i + 1..];
      }
      n := n + 1;
    }
  }

  /** Every selected comment must be found in the listing of the review. */
  function MatchAll(selected: seq<Selected>, remaining: seq<Comment>, reviewId: int): Result<seq<Published>>
    decreases |selected|
  {
    if selected == [] then Ok([])
    else
      var s, i := selected[0], IndexOf(remaining, selected[0].key);
      if i == |remaining| then Raised
      else
        Joined([Published(s.findingId, Some(reviewId), remaining[i].id, s.key)],
               MatchAll(selected[1..], Without(remaining, i), reviewId))
  }

  function Joined(a: seq<Published>, r: Result<seq<Published>>): Result<seq<Published>> {
    if r.Ok? then Ok(a + r.value) else Raised
  }

  lemma {:induction false} JoinedLaws(a: seq<Published>, b: seq<Published>, r: Result<seq<Published>>)
    ensures Joined([], r) == r
    ensures Joined(a + b, r) == Joined(a, Joined(b, r))
    ensures Joined(a, Raised) == Raised
    ensures Joined(a, Ok([])) == Ok(a)
  {
    if r.Ok? {
      assert [] + r.value == r.value;
      assert (a + b) + r.value == a + (b + r.value);
    }
    assert a + [] == a;
  }

  method MatchPublished(reviewId: int, selected: seq<Selected>, comments: seq<Comment>)
    returns (r: Result<seq<Published>>)
    ensures r == MatchAll(selected, comments, reviewId)
  {
    hide Joined;
    var remaining := comments;
    var published := [];
    var n := 0;
    JoinedLaws([], [], MatchAll(selected, comments, reviewId));
    while n < |selected|
      invariant 0 <= n <= |selected|
      invariant MatchAll(selected, comments, reviewId)
                == Joined(published, MatchAll(selected[n..], remaining, reviewId))
    {
      var s := selected[n];
      assert selected[n..][0] == s && selected[n..][1..] == selected[n + 1..];
      var i := FindComment(remaining, s.key);
      if i == |remaining| {
        JoinedLaws(published, [], Raised);
        return Raised;
      }
      var report := Published(s.findingId, Some(reviewId), remaining[i].id, s.key);
      remaining := remaining[..i] + remaining[i + 1..];
      JoinedLaws(published, [report], MatchAll(selected[n + 1..], remaining, reviewId));
      published := published + [report];
      n := n + 1;
    }
    JoinedLaws(published, [], Ok([]));
    r := Ok(published);
  }

  // ---- The remote side -----------------------------------------------------------

  datatype Remote = Remote(comments: seq<Comment>, nextId: int, nextReview: int)

  /** Comment ids are unique and below the next one. */
  predicate Valid(r: Remote) {
    && (forall c <- r.comments :: c.id < r.nextId)
    && forall i, j | 0 <= i < j < |r.comments| :: r.comments[i].id != r.comments[j].id
  }

  function NewComments(missing: seq<Selected>, id: int, review: int): (r: seq<Comment>)
    ensures |r| == |missing|
    ensures forall i | 0 <= i < |r| :: r[i] == Comment(id + i, Some(review), missing[i].key)
  {
    seq(|missing|, i requires 0 <= i < |missing| => Comment(id + i, Some(review), missing[i].key))
  }

  function Posted(r: Remote, missing: seq<Selected>): Remote {
    if missing == [] then r
    else Remote(r.comments + NewComments(missing, r.nextId, r.nextReview), r.nextId + |missing|, r.nextReview + 1)
  }

  /**
    How an attempt ends.  A listing of the new review gives the positions, in posting order, of the new comments
    it shows, in the order it shows them.
   */
  datatype Fate = FailsBeforePost | FailsAfterPost | Answers(listings: seq<seq<nat>>)

  const LISTINGS := 5

  function Shown(created: seq<Comment>, order: seq<nat>): seq<Comment> {
    if order == [] then []
    else
      var n := |order| - 1;
      Shown(created, order[..n]) + (if order[n] < |created| then [created[order[n]]] else [])
  }

  /** One page of the listing. */
  function Listing(created: seq<Comment>, order: seq<nat>): seq<Comment> {
    Shown(created, order)[..Min(|Shown(created, order)|, PAGE)]
  }

  /** No listing shows a comment twice. */
  predicate Faithful(fate: Fate) {
    fate.Answers? ==> NoneRepeats(fate.listings)
  }

  /** The listings show the comments in posting order. */
  predicate InPostingOrder(fate: Fate) {
    fate.Answers? ==> AllIncrease(fate.listings)
  }

  predicate NoneRepeats(listings: seq<seq<nat>>) {
    forall i | 0 <= i < |listings| :: NoRepeats(listings[i])
  }

  predicate AllIncrease(listings: seq<seq<nat>>) {
    forall i | 0 <= i < |listings| :: Increasing(listings[i])
  }

  predicate Increasing(order: seq<nat>) {
    forall i, j | 0 <= i < j < |order| :: order[i] < order[j]
  }

  function Attempted(r: Remote, selected: seq<Selected>, fate: Fate): Remote {
    if fate.FailsBeforePost? then r else Posted(r, Partition(selected, r.comments).missing)
  }

  /** The first of the listings in which every missing comment is found. */
  function Fetched(missing: seq<Selected>, created: seq<Comment>, listings: seq<seq<nat>>,
                   reviewId: int): Result<seq<Published>> {
    if listings == [] then Raised
    else
      var matched := MatchAll(missing, Listing(created, listings[0]), reviewId);
      if matched.Ok? then matched else Fetched(missing, created, listings[1..], reviewId)
  }

  function FirstFive(listings: seq<seq<nat>>): seq<seq<nat>> {
    listings[..Min(|listings|, LISTINGS)]
  }

  class PullRequest {
    var comments: seq<Comment>
    var nextId: int
    var nextReview: int

    constructor (r: Remote)
      ensures State() == r
    {
      comments, nextId, nextReview := r.comments, r.nextId, r.nextReview;
    }

    function State(): Remote
      reads this
    {
      Remote(comments, nextId, nextReview)
    }

    method PostReview(missing: seq<Selected>) returns (reviewId: int, created: seq<Comment>)
      requires missing != []
      modifies this
      ensures State() == Posted(old(State()), missing)
      ensures reviewId == old(nextReview) && created == NewComments(missing, old(nextId), reviewId)
    {
      reviewId := nextReview;
      created := NewComments(missing, nextId, reviewId);
      comments, nextId, nextReview := comments + created, nextId + |missing|, nextReview + 1;
    }
  }

  method FetchCreated(reviewId: int, missing: seq<Selected>, created: seq<Comment>, listings: seq<seq<nat>>)
    returns (r: Result<seq<Published>>)
    ensures r == Fetched(missing, created, FirstFive(listings), reviewId)
  {
    r := Raised;
    var attempt := 0;
    assert FirstFive(listings)[0..] == FirstFive(listings);
    while attempt < LISTINGS && attempt < |listings|
      invariant 0 <= attempt <= |FirstFive(listings)|
      invariant Fetched(missing, created, FirstFive(listings)[attempt..], reviewId)
             == Fetched(missing, created, FirstFive(listings), reviewId)
    {
      var matched := MatchPublished(reviewId, missing, Listing(created, listings[attempt]));
      assert FirstFive(listings)[attempt..][1..] == FirstFive(listings)[attempt + 1..];
      if matched.Ok? {
        return matched;
      }
      attempt := attempt + 1;
    }
  }

  method PublishInline(pr: PullRequest, selected: seq<Selected>, fate: Fate) returns (r: Result<seq<Published>>)
    modifies pr
    ensures pr.State() == Attempted(old(pr.State()), selected, fate)
    ensures r == Answer(old(pr.State()), selected, fate)
  {
    if selected == [] {
      return Ok([]);
    }
    if fate.FailsBeforePost? {
      return Raised;
    }
    var existing, missing := PartitionExisting(selected, pr.comments);
    if missing == [] {
      return if fate.Answers? then Ok(existing) else Raised;
    }
    var reviewId, created := pr.PostReview(missing);
    if fate.FailsAfterPost? {
      return Raised;
    }
    var fetched := FetchCreated(reviewId, missing, created, fate.listings);
    r := if fetched.Ok? then Ok(existing + fetched.value) else Raised;
  }

  function ReportsOf(missing: seq<Selected>, created: seq<Comment>, reviewId: int): (r: seq<Published>)
    requires |created| == |missing|
    ensures |r| == |missing|
    ensures forall i | 0 <= i < |r| ::
            r[i] == Published(missing[i].findingId, Some(reviewId), created[i].id, missing[i].key)
  {
    seq(|missing|,
        i requires 0 <= i < |missing| => Published(missing[i].findingId, Some(reviewId), created[i].id, missing[i].key))
  }

  /** What an attempt reports. */
  function Answer(r: Remote, selected: seq<Selected>, fate: Fate): Result<seq<Published>> {
    if selected == [] then Ok([])
    else if !fate.Answers? then Raised
    else
      var split := Partition(selected, r.comments);
      if split.missing == [] then Ok(split.published)
      else
        var created := NewComments(split.missing, r.nextId, r.nextReview);
        Joined(split.published, Fetched(split.missing, created, FirstFive(fate.listings), r.nextReview))
  }
}
