/**
  The table of published inline comments (`record_inline_comments`), with its two
  unique indexes.
 */
module CommentRecording {
  import opened Basics
  import opened InlinePublishing
  import opened InlinePublishingProofs
  import opened PublishingReports

  /** A row of the table, under its comment id; the hash of its body is over the run, the finding and the key. */
  datatype Row = Row(run: string, report: Published)

  predicate SameHash(a: Row, b: Row) {
    a.run == b.run && a.report.findingId == b.report.findingId && a.report.key == b.report.key
  }

  /** The table's two unique indexes: one row per comment id, and one per run and hash. */
  predicate Unique(table: map<int, Row>) {
    forall i, j | i in table && j in table && i != j :: !SameHash(table[i], table[j])
  }

  /** One INSERT: it rewrites the row of the comment id, or adds one, and raises if another row has the hash. */
  function RecordOne(table: map<int, Row>, row: Row): Result<map<int, Row>> {
    if exists id | id in table && id != row.report.commentId :: SameHash(table[id], row) then Raised
    else Ok(table[row.report.commentId := row])
  }

  /** `record_inline_comments`: all rows in one transaction. */
  function Recorded(table: map<int, Row>, run: string, reports: seq<Published>): Result<map<int, Row>>
    decreases |reports|
  {
    if reports == [] then Ok(table)
    else
      var t := RecordOne(table, Row(run, reports[0]));
      if t.Ok? then Recorded(t.value, run, reports[1..]) else Raised
  }

  lemma {:induction false} RecordedKeepsOthers(table: map<int, Row>, run: string, reports: seq<Published>, id: int)
    requires Recorded(table, run, reports).Ok? && forall p <- reports :: p.commentId != id
    ensures id in Recorded(table, run, reports).value <==> id in table
    ensures id in table ==> Recorded(table, run, reports).value[id] == table[id]
    decreases |reports|
  {
    if reports != [] {
      var t := RecordOne(table, Row(run, reports[0])).value;
      assert reports[0] in reports;
      RecordedKeepsOthers(t, run, reports[1..], id);
    }
  }

  lemma {:induction false} RecordOneUnique(table: map<int, Row>, row: Row)
    requires Unique(table) && RecordOne(table, row).Ok?
    ensures Unique(RecordOne(table, row).value)
  {
  }

  /** Every report gets its row, and the table stays unique. */
  lemma {:induction false} RecordedRows(table: map<int, Row>, run: string, reports: seq<Published>)
    requires Unique(table) && DistinctIds(reports) && Recorded(table, run, reports).Ok?
    ensures Unique(Recorded(table, run, reports).value)
    ensures forall p <- reports :: p.commentId in Recorded(table, run, reports).value
                                   && Recorded(table, run, reports).value[p.commentId] == Row(run, p)
    decreases |reports|
  {
    hide Unique, RecordOne;
    if reports != [] {
      var first, rest := reports[0], reports[1..];
      var t := RecordOne(table, Row(run, first));
      RecordOneUnique(table, Row(run, first));
      RecordOneSets(table, Row(run, first));
      RecordedRows(t.value, run, rest);
      assert forall p <- rest :: p.commentId != first.commentId;
      RecordedKeepsOthers(t.value, run, rest, first.commentId);
      assert reports == [first] + rest;
    }
  }

  lemma {:induction false} RecordOneSets(table: map<int, Row>, row: Row)
    requires RecordOne(table, row).Ok?
    ensures row.report.commentId in RecordOne(table, row).value
            && RecordOne(table, row).value[row.report.commentId] == row
  {
  }

  /** Recording rows that are there changes nothing. */
  lemma {:induction false} RecordingPresent(table: map<int, Row>, run: string, reports: seq<Published>)
    requires Unique(table)
    requires forall p <- reports :: p.commentId in table && table[p.commentId] == Row(run, p)
    ensures Recorded(table, run, reports) == Ok(table)
    decreases |reports|
  {
    if reports != [] {
      var p := reports[0];
      assert p in reports;
      assert table[p.commentId := Row(run, p)] == table;
      RecordingPresent(table, run, reports[1..]);
    }
  }

  /** Recording the report of a retry leaves the table as the first report left it. */
  lemma {:induction false} RecordingTwiceIsOnce(table: map<int, Row>, run: string, first: seq<Published>,
                                                again: seq<Published>)
    requires Unique(table) && DistinctIds(first) && Recorded(table, run, first).Ok?
    requires multiset(first) == multiset(again)
    ensures Recorded(Recorded(table, run, first).value, run, again) == Recorded(table, run, first)
  {
    hide Recorded, Unique;
    RecordedRows(table, run, first);
    assert forall p <- again :: p in multiset(again) && p in multiset(first) && p in first;
    RecordingPresent(Recorded(table, run, first).value, run, again);
  }

  predicate Clashes(p: Published, q: Published) {
    p.findingId == q.findingId && p.key == q.key
  }

  /** The two reports are about the same findings, and a comment they both name is of the same review. */
  predicate SameFindings(first: seq<Published>, again: seq<Published>) {
    && (forall q <- again :: exists p <- first :: Clashes(p, q))
    && (forall p <- first, q <- again :: p.commentId == q.commentId ==> p.reviewId == q.reviewId)
  }

  lemma {:induction false} SameFindingsRest(first: seq<Published>, again: seq<Published>)
    requires SameFindings(first, again) && again != []
    ensures SameFindings(first, again[1..])
  {
    hide Clashes;
    assert forall q <- again[1..] :: q in again;
  }

  /** A report of the same finding under another comment id meets the row of that finding. */
  lemma {:induction false} OtherCommentRaises(table: map<int, Row>, run: string, first: seq<Published>,
                                              again: seq<Published>)
    requires forall p <- first :: p.commentId in table && table[p.commentId] == Row(run, p)
    requires SameFindings(first, again) && again != [] && again[0] !in first
    ensures RecordOne(table, Row(run, again[0])) == Raised
  {
    var q := again[0];
    assert q in again;
    var p :| p in first && Clashes(p, q);
    assert SameHash(table[p.commentId], Row(run, q));
  }

  /**
    Once the first report is recorded, the report of a retry can be recorded exactly when it names the same
    comments; it then changes nothing.
   */
  lemma {:induction false} RecordAgainIff(table: map<int, Row>, run: string, first: seq<Published>,
                                          again: seq<Published>)
    requires Unique(table) && SameFindings(first, again)
    requires forall p <- first :: p.commentId in table && table[p.commentId] == Row(run, p)
    ensures Recorded(table, run, again) == if forall q <- again :: q in first then Ok(table) else Raised
    decreases |again|
  {
    hide SameFindings, Unique, RecordOne;
    if again != [] {
      assert again == [again[0]] + again[1..];
      if again[0] in first {
        PresentRow(table, Row(run, again[0]));
        SameFindingsRest(first, again);
        RecordAgainIff(table, run, first, again[1..]);
      } else {
        OtherCommentRaises(table, run, first, again);
      }
    }
  }

  /** An INSERT of a row that is there changes nothing. */
  lemma {:induction false} PresentRow(table: map<int, Row>, row: Row)
    requires Unique(table) && row.report.commentId in table && table[row.report.commentId] == row
    ensures RecordOne(table, row) == Ok(table)
  {
    assert table[row.report.commentId := row] == table;
  }

  // ---- Recording the report of a retry ------------------------------------------------------

  predicate DistinctFindings(reports: seq<Published>) {
    forall i, j | 0 <= i < j < |reports| :: !Clashes(reports[i], reports[j])
  }

  predicate HashedApart(table: map<int, Row>, run: string, reports: seq<Published>) {
    forall id, p | id in table && p in reports :: id != p.commentId ==> !SameHash(table[id], Row(run, p))
  }

  /** A row that is not rewritten blocks every report with its hash. */
  lemma {:induction false} BlockedLater(table: map<int, Row>, run: string, reports: seq<Published>, id: int)
    requires id in table && forall p <- reports :: p.commentId != id
    requires exists p <- reports :: SameHash(table[id], Row(run, p))
    ensures Recorded(table, run, reports) == Raised
    decreases |reports|
  {
    var first, rest := reports[0], reports[1..];
    assert first in reports && forall p <- rest :: p in reports;
    if !SameHash(table[id], Row(run, first)) && RecordOne(table, Row(run, first)).Ok? {
      var p :| p in reports && SameHash(table[id], Row(run, p));
      assert p in rest;
      BlockedLater(RecordOne(table, Row(run, first)).value, run, rest, id);
    }
  }

  lemma {:induction false} DistinctFindingsCons(first: Published, rest: seq<Published>)
    ensures DistinctFindings([first] + rest) <==> DistinctFindings(rest) && forall q <- rest :: !Clashes(first, q)
  {
    hide Clashes;
    var all := [first] + rest;
    if DistinctFindings(all) {
      assert forall i | 0 <= i < |rest| :: rest[i] == all[i + 1];
      forall i | 0 <= i < |rest| ensures !Clashes(first, rest[i]) {
        assert !Clashes(all[0], all[i + 1]);
      }
    }
    if DistinctFindings(rest) && forall q <- rest :: !Clashes(first, q) {
      forall i, j | 0 <= i < j < |all| ensures !Clashes(all[i], all[j]) {
        assert all[j] == rest[j - 1] && all[j] in rest;
        assert i > 0 ==> all[i] == rest[i - 1];
      }
    }
  }

  lemma {:induction false} ApartRest(table: map<int, Row>, run: string, first: Published, rest: seq<Published>)
    requires HashedApart(table, run, [first] + rest) && forall q <- rest :: !Clashes(first, q)
    ensures HashedApart(table[first.commentId := Row(run, first)], run, rest)
  {
    assert forall q <- rest :: q in [first] + rest;
  }

  lemma {:induction false} ApartFirst(table: map<int, Row>, run: string, first: Published, rest: seq<Published>)
    requires HashedApart(table, run, [first] + rest)
    ensures RecordOne(table, Row(run, first)) == Ok(table[first.commentId := Row(run, first)])
  {
    assert first in [first] + rest;
  }

  lemma {:induction false} NoneClash()
    ensures DistinctFindings([])
  {
  }

  /** The first recording of a run succeeds exactly when no two reports are of one finding with one key. */
  lemma {:induction false} RecordSucceedsIff(table: map<int, Row>, run: string, reports: seq<Published>)
    requires DistinctIds(reports) && HashedApart(table, run, reports)
    ensures Recorded(table, run, reports).Ok? <==> DistinctFindings(reports)
    decreases |reports|
  {
    hide HashedApart, RecordOne, DistinctFindings;
    if reports == [] {
      NoneClash();
    } else {
      var first, rest := reports[0], reports[1..];
      assert reports == [first] + rest;
      var t := table[first.commentId := Row(run, first)];
      ApartFirst(table, run, first, rest);
      DistinctFindingsCons(first, rest);
      if forall q <- rest :: !Clashes(first, q) {
        ApartRest(table, run, first, rest);
        RecordSucceedsIff(t, run, rest);
      } else {
        var q :| q in rest && Clashes(first, q);
        assert SameHash(t[first.commentId], Row(run, q));
        BlockedLater(t, run, rest, first.commentId);
      }
    }
  }

  // ---- Recording the report of a retry ------------------------------------------------------

  /** A successful answer is about the selected comments, each once, and shows comments of the pull request. */
  lemma {:induction false} AnswerShown(r: Remote, selected: seq<Selected>, fate: Fate)
    requires Answer(r, selected, fate).Ok?
    ensures AllShown(Answer(r, selected, fate).value, Attempted(r, selected, fate).comments)
    ensures multiset(Mapped(SelectedOf, Answer(r, selected, fate).value)) == multiset(selected)
  {
    hide Partition, Fetched, Shows, Mapped;
    var split := Partition(selected, r.comments);
    PublishedShown(selected, r.comments);
    PartitionSelects(selected, r.comments);
    if selected == [] {
      assert Mapped(SelectedOf, []) == [];
    } else if split.missing != [] {
      var created := NewComments(split.missing, r.nextId, r.nextReview);
      assert forall c <- created :: c.reviewId == Some(r.nextReview);
      FetchedShown(split.missing, created, FirstFive(fate.listings), r.nextReview);
      MappedConcat(SelectedOf, split.published,
                   Fetched(split.missing, created, FirstFive(fate.listings), r.nextReview).value);
    }
  }

  lemma {:induction false} AnswersSameFindings(comments: seq<Comment>, first: seq<Published>, again: seq<Published>)
    requires forall i, j | 0 <= i < j < |comments| :: comments[i].id != comments[j].id
    requires AllShown(first, comments) && AllShown(again, comments)
    requires multiset(Mapped(SelectedOf, first)) == multiset(Mapped(SelectedOf, again))
    ensures SameFindings(first, again)
  {
    hide Mapped;
    forall q <- again ensures exists p <- first :: Clashes(p, q) {
      var i :| 0 <= i < |again| && again[i] == q;
      assert Mapped(SelectedOf, again)[i] in multiset(Mapped(SelectedOf, first));
      var j :| 0 <= j < |first| && Mapped(SelectedOf, first)[j] == SelectedOf(q);
      assert Clashes(first[j], q);
    }
    forall p <- first, q <- again | p.commentId == q.commentId ensures p.reviewId == q.reviewId {
      var c :| c in comments && Shows(p, c);
      var d :| d in comments && Shows(q, d);
      SameIdSameComment(comments, c, d);
    }
  }

  /**
    Once the report of an attempt is recorded, that of a retry can be recorded if it gives every finding the
    comment it had.
   */
  lemma {:induction false} RetryRecorded(table: map<int, Row>, run: string, r: Remote, selected: seq<Selected>,
                                         first: Fate, again: Fate)
    requires Unique(table) && Valid(r) && Faithful(first) && again.Answers?
    requires Answer(r, selected, first).Ok? && Recorded(table, run, Answer(r, selected, first).value).Ok?
    ensures var mid, recorded := Attempted(r, selected, first), Recorded(table, run, Answer(r, selected, first).value);
      && Answer(mid, selected, again).Ok?
      && Recorded(recorded.value, run, Answer(mid, selected, again).value)
         == if forall q <- Answer(mid, selected, again).value :: q in Answer(r, selected, first).value then recorded
            else Raised
  {
    hide Recorded, Unique, Faithful, Answer, Attempted, Refs, Mapped, AllShown, SameFindings, InPostingOrder, Ambiguous;
    var mid, reports := Attempted(r, selected, first), Answer(r, selected, first).value;
    RetryReportsTheSame(r, selected, first, again);
    ReportedIdsDistinct(r, selected, first);
    RecordedRows(table, run, reports);
    AttemptKeepsIdsUnique(r, selected, first);
    AnswerShown(r, selected, first);
    AnswerShown(mid, selected, again);
    AnswersSameFindings(mid.comments, reports, Answer(mid, selected, again).value);
    RecordAgainIff(Recorded(table, run, reports).value, run, reports, Answer(mid, selected, again).value);
  }

  /** No row of the run is about a selected comment. */
  predicate Unrecorded(table: map<int, Row>, run: string, selected: seq<Selected>) {
    forall id | id in table && table[id].run == run :: SelectedOf(table[id].report) !in selected
  }

  lemma {:induction false} UnrecordedApart(table: map<int, Row>, run: string, selected: seq<Selected>,
                                           reports: seq<Published>)
    requires Unrecorded(table, run, selected) && multiset(Mapped(SelectedOf, reports)) == multiset(selected)
    ensures HashedApart(table, run, reports)
  {
    hide Mapped;
    forall id, p | id in table && p in reports && id != p.commentId ensures !SameHash(table[id], Row(run, p)) {
      var i :| 0 <= i < |reports| && reports[i] == p;
      assert Mapped(SelectedOf, reports)[i] in multiset(selected);
    }
  }

  lemma {:induction false} DistinctSelected(selected: seq<Selected>, reports: seq<Published>)
    requires multiset(Mapped(SelectedOf, reports)) == multiset(selected)
    ensures DistinctFindings(reports) <==> NoRepeats(selected)
  {
    hide Mapped;
    var about := Mapped(SelectedOf, reports);
    assert DistinctFindings(reports) <==> NoRepeats(about) by {
      assert forall i | 0 <= i < |about| :: about[i] == SelectedOf(reports[i]);
      assert forall i, j | 0 <= i < j < |reports| :: Clashes(reports[i], reports[j]) <==> about[i] == about[j];
    }
    hide NoRepeats, DistinctFindings;
    if NoRepeats(about) {
      NoRepeatsAnyOrder(about, selected);
    }
    if NoRepeats(selected) {
      NoRepeatsAnyOrder(selected, about);
    }
  }

  /**
    The report of a successful attempt can be recorded for a run without rows exactly when no comment is selected
    twice.
   */
  lemma {:induction false} FirstRecordingIff(table: map<int, Row>, run: string, r: Remote, selected: seq<Selected>,
                                             first: Fate)
    requires Valid(r) && Unrecorded(table, run, selected) && Faithful(first) && Answer(r, selected, first).Ok?
    ensures Recorded(table, run, Answer(r, selected, first).value).Ok? <==> NoRepeats(selected)
  {
    hide Recorded, Answer, Attempted, Faithful, Unrecorded, HashedApart, DistinctFindings, NoRepeats, Mapped, AllShown;
    hide DistinctIds;
    var reports := Answer(r, selected, first).value;
    AnswerShown(r, selected, first);
    UnrecordedApart(table, run, selected, reports);
    ReportedIdsDistinct(r, selected, first);
    DistinctSelected(selected, reports);
    RecordSucceedsIff(table, run, reports);
  }

  /**
    However the new review is listed: once the report of an attempt is recorded, recording that of a retry changes
    nothing.
   */
  ghost predicate RetriesRecord(table: map<int, Row>, run: string, r: Remote, selected: seq<Selected>) {
    forall first: Fate, again: Fate | Faithful(first) && again.Answers? && Answer(r, selected, first).Ok? ::
      var mid, recorded := Attempted(r, selected, first), Recorded(table, run, Answer(r, selected, first).value);
      recorded.Ok? ==>
        && Answer(mid, selected, again).Ok?
        && Recorded(recorded.value, run, Answer(mid, selected, again).value) == recorded
  }

  /**
    Whatever the table holds, a retry is recorded if no two missing comments of one page share their key but not
    their finding.
   */
  lemma {:induction false} UnswappableRetryRecords(table: map<int, Row>, run: string, r: Remote,
                                                   selected: seq<Selected>)
    requires Unique(table) && Valid(r) && !Swappable(Partition(selected, r.comments).missing)
    ensures RetriesRecord(table, run, r, selected)
  {
    hide Recorded, Unique, Faithful, Answer, Attempted, Partition, Swappable, DistinctIds;
    RetriesAgreeIff(r, selected);
    forall first: Fate, again: Fate | Faithful(first) && again.Answers? && Answer(r, selected, first).Ok?
                                      && Recorded(table, run, Answer(r, selected, first).value).Ok?
      ensures var mid, recorded :=
              Attempted(r, selected, first), Recorded(table, run, Answer(r, selected, first).value);
        Answer(mid, selected, again).Ok?
          && Recorded(recorded.value, run, Answer(mid, selected, again).value) == recorded
    {
      var mid := Attempted(r, selected, first);
      ReportedIdsDistinct(r, selected, first);
      RecordingTwiceIsOnce(table, run, Answer(r, selected, first).value, Answer(mid, selected, again).value);
    }
  }

  /**
    With two such comments, none selected twice and a run without rows, the listing that exchanges them lets the
    attempt be recorded and no retry.
   */
  lemma {:induction false} SwappedRetryRaises(table: map<int, Row>, run: string, r: Remote, selected: seq<Selected>,
                                              i: nat, j: nat, again: Fate)
    requires Unique(table) && Valid(r) && Unrecorded(table, run, selected) && NoRepeats(selected) && again.Answers?
    requires i < j < |Partition(selected, r.comments).missing| <= PAGE
    requires SharesKey(Partition(selected, r.comments).missing[i], Partition(selected, r.comments).missing[j])
    ensures var first := Exchanging(Partition(selected, r.comments).missing, i, j);
      && Faithful(first) && Answer(r, selected, first).Ok?
      && var mid, recorded := Attempted(r, selected, first), Recorded(table, run, Answer(r, selected, first).value);
         && recorded.Ok? && Answer(mid, selected, again).Ok?
         && Recorded(recorded.value, run, Answer(mid, selected, again).value) == Raised
  {
    hide Recorded, Unique, Faithful, Answer, Attempted, Partition, Exchanging, Unrecorded, Mapped, AllShown, NoRepeats;
    var missing := Partition(selected, r.comments).missing;
    var first := Exchanging(missing, i, j);
    SwappedListingSwapsFindings(r, selected, i, j, again);
    FirstRecordingIff(table, run, r, selected, first);
    RetryRecorded(table, run, r, selected, first, again);
    AnswerShown(r, selected, first);
    DistinctSelected(selected, Answer(r, selected, first).value);
    NotBoth(Answer(r, selected, first).value, ReportAt(r, missing, i, j), ReportAt(r, missing, i, i));
  }

  lemma {:induction false} NotBoth(reports: seq<Published>, p: Published, q: Published)
    requires DistinctFindings(reports) && p in reports && Clashes(p, q) && p != q
    ensures q !in reports
  {
  }

  /**
    For a run without rows, recording after a retry can fail exactly when no comment is selected twice and two
    missing comments of one page share their key but not their finding.
   */
  lemma {:induction false} RetryRecordsIff(table: map<int, Row>, run: string, r: Remote, selected: seq<Selected>)
    requires Unique(table) && Valid(r) && Unrecorded(table, run, selected)
    ensures RetriesRecord(table, run, r, selected)
       <==> !(NoRepeats(selected) && Swappable(Partition(selected, r.comments).missing))
  {
    hide Recorded, Unique, Faithful, Answer, Attempted, Partition, Exchanging, Unrecorded, SharesKey, NoRepeats;
    var missing := Partition(selected, r.comments).missing;
    if !Swappable(missing) {
      UnswappableRetryRecords(table, run, r, selected);
    } else if NoRepeats(selected) {
      var i, j :| 0 <= i < j < |missing| && SharesKey(missing[i], missing[j]);
      SwappedRetryRaises(table, run, r, selected, i, j, Answers([]));
    } else {
      forall first: Fate | Faithful(first) && Answer(r, selected, first).Ok?
        ensures Recorded(table, run, Answer(r, selected, first).value).Raised?
      {
        FirstRecordingIff(table, run, r, selected, first);
      }
    }
  }
}
