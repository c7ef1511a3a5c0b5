/**
  A job that is alone, step by step: the state machine of interleaved jobs does
  what the sequential job does, post for post and row for row.
 */
module ReviewAlone {
  import opened Basics
  import opened ReviewLifecycle

  /** The step that raises is the one the job is said to fail in. */
  predicate RaisesAt(pc: Pc, fails: Fails) {
    match fails
    case Never => false
    case InAnalysis => pc == Analysing
    case InCheck => pc == Checking
    case InInline => pc == PostInline
    case InRecordInline => pc == RecordInline
    case InSummary => pc == PostSummary
    case InRecordSummary => pc == RecordSummary
  }

  /** `n` steps of job `j` and of no other; a check that differs from what was asked for cannot fail twice. */
  function Alone(s: Sys, j: nat, fails: Fails, n: nat): (t: Sys)
    requires j < |s.jobs|
    ensures |t.jobs| == |s.jobs|
    decreases n
  {
    if n == 0 then s else Alone(OneStep(s, j, fails), j, fails, n - 1)
  }

  function OneStep(s: Sys, j: nat, fails: Fails): (t: Sys)
    requires j < |s.jobs|
    ensures |t.jobs| == |s.jobs|
  {
    StepJob(s, j, if RaisesAt(s.jobs[j].pc, fails) then RaisesBefore else Completes)
  }

  /** The posts in the log, as comments on the run of job `j`. */
  function PostsIn(log: seq<Event>, j: nat, run: int): seq<Post> {
    if log == [] then []
    else
      PostsIn(log[..|log| - 1], j, run)
      + match log[|log| - 1]
        case InlinePosted(i) => if i == j then [InlineReview(run)] else []
        case SummaryPosted(i) => if i == j then [SummaryComment(run)] else []
        case _ => []
  }

  lemma {:induction false} PostsAppend(log: seq<Event>, e: Event, j: nat, run: int)
    ensures PostsIn(log + [e], j, run)
         == PostsIn(log, j, run)
            + match e
              case InlinePosted(i) => if i == j then [InlineReview(run)] else []
              case SummaryPosted(i) => if i == j then [SummaryComment(run)] else []
              case _ => []
  {
    assert (log + [e])[..|log|] == log;
  }

  /** What a job from some point on leaves: its table, and the posts it adds. */
  predicate Ends(s: Sys, j: nat, fails: Fails, n: nat, db: Db, posts: seq<Post>)
    requires j < |s.jobs|
  {
    var t := Alone(s, j, fails, n);
    && t.jobs[j].pc == Ended && t.db == db
    && PostsIn(t.log, j, s.jobs[j].run) == PostsIn(s.log, j, s.jobs[j].run) + posts
  }

  lemma {:induction false} EndedStays(s: Sys, j: nat, fails: Fails, n: nat)
    requires j < |s.jobs| && s.jobs[j].pc == Ended
    ensures Alone(s, j, fails, n) == s
    decreases n
  {
    if n > 0 {
      assert s.jobs[j := s.jobs[j]] == s.jobs;
      EndedStays(s, j, fails, n - 1);
    }
  }

  /** The job's last UPDATE. */
  lemma {:induction false} FromLast(s: Sys, j: nat, fails: Fails, n: nat)
    requires j < |s.jobs| && n >= 1 && (s.jobs[j].pc == Succeeding || s.jobs[j].pc == Failing)
    ensures Ends(s, j, fails, n, if s.jobs[j].pc == Succeeding then MarkSucceeded(s.db, s.jobs[j].run)
                                 else MarkFailed(s.db, s.jobs[j].run, "error"), [])
  {
    hide MarkSucceeded, MarkFailed, OneStep, PostsIn;
    LastStep(s, j, fails);
    EndedStays(OneStep(s, j, fails), j, fails, n - 1);
  }

  lemma {:induction false} LastStep(s: Sys, j: nat, fails: Fails)
    requires j < |s.jobs| && (s.jobs[j].pc == Succeeding || s.jobs[j].pc == Failing)
    ensures var t, id := OneStep(s, j, fails), s.jobs[j].run;
      && t.jobs[j].pc == Ended && PostsIn(t.log, j, id) == PostsIn(s.log, j, id) + []
      && t.db == if s.jobs[j].pc == Succeeding then MarkSucceeded(s.db, id) else MarkFailed(s.db, id, "error")
  {
    hide MarkSucceeded, MarkFailed, PostsIn;
    PostsAppend(s.log, RunSucceeded(j), j, s.jobs[j].run);
    assert PostsIn(s.log, j, s.jobs[j].run) + [] == PostsIn(s.log, j, s.jobs[j].run);
  }

  lemma {:induction false} Continue(s: Sys, j: nat, fails: Fails, n: nat, db: Db, first: seq<Post>, posts: seq<Post>)
    requires j < |s.jobs| && n >= 1
    requires var t := OneStep(s, j, fails);
      && t.jobs[j].run == s.jobs[j].run
      && PostsIn(t.log, j, s.jobs[j].run) == PostsIn(s.log, j, s.jobs[j].run) + first
      && Ends(t, j, fails, n - 1, db, posts)
    ensures Ends(s, j, fails, n, db, first + posts)
  {
    hide OneStep, PostsIn;
    AppendStep(PostsIn(s.log, j, s.jobs[j].run), first, posts);
  }

  /** One step that changes neither the table nor the posts. */
  lemma {:induction false} Quietly(s: Sys, j: nat, fails: Fails, n: nat, db: Db, posts: seq<Post>)
    requires j < |s.jobs| && n >= 1
    requires var t := OneStep(s, j, fails);
      t.jobs[j].run == s.jobs[j].run && t.log == s.log && Ends(t, j, fails, n - 1, db, posts)
    ensures Ends(s, j, fails, n, db, posts)
  {
    hide OneStep, Ends, PostsIn;
    var p := PostsIn(s.log, j, s.jobs[j].run);
    assert p + [] == p && [] + posts == posts;
    Continue(s, j, fails, n, db, [], posts);
  }

  lemma {:induction false} FromRecordSummary(s: Sys, j: nat, fails: Fails, n: nat)
    requires j < |s.jobs| && n >= 2 && s.jobs[j].pc == RecordSummary
    ensures Ends(s, j, fails, n, if fails == InRecordSummary then MarkFailed(s.db, s.jobs[j].run, "error")
                                 else MarkSucceeded(s.db, s.jobs[j].run), [])
  {
    hide MarkSucceeded, MarkFailed, Ends;
    var t := OneStep(s, j, fails);
    FromLast(t, j, fails, n - 1);
    Quietly(s, j, fails, n, if fails == InRecordSummary then MarkFailed(s.db, s.jobs[j].run, "error")
                            else MarkSucceeded(s.db, s.jobs[j].run), []);
  }

  lemma {:induction false} FromPostSummary(s: Sys, j: nat, fails: Fails, n: nat)
    requires j < |s.jobs| && n >= 3 && s.jobs[j].pc == PostSummary
    ensures Ends(s, j, fails, n, if fails == InSummary || fails == InRecordSummary
                                 then MarkFailed(s.db, s.jobs[j].run, "error") else MarkSucceeded(s.db, s.jobs[j].run),
                 if fails == InSummary then [] else [SummaryComment(s.jobs[j].run)])
  {
    hide MarkSucceeded, MarkFailed, Ends;
    var t := OneStep(s, j, fails);
    var db := if fails == InSummary || fails == InRecordSummary then MarkFailed(s.db, s.jobs[j].run, "error")
              else MarkSucceeded(s.db, s.jobs[j].run);
    if fails == InSummary {
      FromLast(t, j, fails, n - 1);
      Quietly(s, j, fails, n, db, []);
    } else {
      PostsAppend(s.log, SummaryPosted(j), j, s.jobs[j].run);
      FromRecordSummary(t, j, fails, n - 1);
      Continue(s, j, fails, n, db, [SummaryComment(s.jobs[j].run)], []);
      assert [SummaryComment(s.jobs[j].run)] + [] == [SummaryComment(s.jobs[j].run)];
    }
  }

  lemma {:induction false} FromRecordInline(s: Sys, j: nat, fails: Fails, n: nat)
    requires j < |s.jobs| && n >= 4 && s.jobs[j].pc == RecordInline
    ensures Ends(s, j, fails, n, if fails == InRecordInline || fails == InSummary || fails == InRecordSummary
                                 then MarkFailed(s.db, s.jobs[j].run, "error") else MarkSucceeded(s.db, s.jobs[j].run),
                 if fails == InRecordInline || fails == InSummary then [] else [SummaryComment(s.jobs[j].run)])
  {
    hide MarkSucceeded, MarkFailed, Ends;
    var t := OneStep(s, j, fails);
    if fails == InRecordInline {
      FromLast(t, j, fails, n - 1);
    } else {
      FromPostSummary(t, j, fails, n - 1);
    }
    Quietly(s, j, fails, n, if fails == InRecordInline || fails == InSummary || fails == InRecordSummary
                            then MarkFailed(s.db, s.jobs[j].run, "error") else MarkSucceeded(s.db, s.jobs[j].run),
            if fails == InRecordInline || fails == InSummary then [] else [SummaryComment(s.jobs[j].run)]);
  }

  lemma {:induction false} FromPostInline(s: Sys, j: nat, fails: Fails, n: nat)
    requires j < |s.jobs| && n >= 5 && s.jobs[j].pc == PostInline
    ensures Ends(s, j, fails, n,
                 if fails in {InInline, InRecordInline, InSummary, InRecordSummary}
                 then MarkFailed(s.db, s.jobs[j].run, "error") else MarkSucceeded(s.db, s.jobs[j].run),
                 (if fails == InInline then [] else [InlineReview(s.jobs[j].run)])
                 + if fails in {InInline, InRecordInline, InSummary} then [] else [SummaryComment(s.jobs[j].run)])
  {
    hide MarkSucceeded, MarkFailed, Ends, OneStep, PostsIn;
    var t := OneStep(s, j, fails);
    InlineStep(s, j, fails);
    var db := if fails in {InInline, InRecordInline, InSummary, InRecordSummary}
              then MarkFailed(s.db, s.jobs[j].run, "error") else MarkSucceeded(s.db, s.jobs[j].run);
    if fails == InInline {
      FromLast(t, j, fails, n - 1);
      Quietly(s, j, fails, n, db, []);
      AppendStep<Post>([], [], []);
    } else {
      FromRecordInline(t, j, fails, n - 1);
      Continue(s, j, fails, n, db, [InlineReview(s.jobs[j].run)],
               if fails in {InRecordInline, InSummary} then [] else [SummaryComment(s.jobs[j].run)]);
    }
  }

  lemma {:induction false} InlineStep(s: Sys, j: nat, fails: Fails)
    requires j < |s.jobs| && s.jobs[j].pc == PostInline
    ensures var t, id := OneStep(s, j, fails), s.jobs[j].run;
      && t.db == s.db && t.jobs[j].run == id
      && if fails == InInline then t.jobs[j].pc == Failing && t.log == s.log
         else t.jobs[j].pc == RecordInline && PostsIn(t.log, j, id) == PostsIn(s.log, j, id) + [InlineReview(id)]
  {
    hide PostsIn;
    PostsAppend(s.log, InlinePosted(j), j, s.jobs[j].run);
  }

  /** The posts and the outcome of a job whose check has been passed. */
  predicate FailsAfterCheck(hasInline: bool, fails: Fails) {
    (hasInline && fails in {InInline, InRecordInline}) || fails in {InSummary, InRecordSummary}
  }

  /** The step of the SELECT: where it leads, and what it leaves as it is. */
  lemma {:induction false} CheckStep(s: Sys, j: nat, fails: Fails)
    requires j < |s.jobs| && s.jobs[j].pc == Checking && fails != InCheck
    ensures var t, id, check := OneStep(s, j, fails), s.jobs[j].run, CheckOf(s.db, s.jobs[j].run);
      && t.db == s.db && PostsIn(t.log, j, id) == PostsIn(s.log, j, id) + []
      && t.jobs[j].run == id && t.jobs[j].hasInline == s.jobs[j].hasInline
      && t.jobs[j].pc == if check == HeadChanged then Superseding
                         else if check != Publishable then Succeeding
                         else if s.jobs[j].hasInline then PostInline else PostSummary
  {
    hide CheckOf;
    var id := s.jobs[j].run;
    PostsAppend(s.log, CheckEvent(s.db, j, id), j, id);
  }

  /** The check answers that the run may be published to. */
  lemma {:induction false} FromGoodCheck(s: Sys, j: nat, fails: Fails, n: nat)
    requires j < |s.jobs| && n >= 7 && s.jobs[j].pc == Checking && fails != InCheck
    requires CheckOf(s.db, s.jobs[j].run) == Publishable
    ensures var id, inline := s.jobs[j].run, s.jobs[j].hasInline;
      Ends(s, j, fails, n,
           if FailsAfterCheck(inline, fails) then MarkFailed(s.db, id, "error") else MarkSucceeded(s.db, id),
           PostsOf(s.db, id, inline, if fails == InAnalysis then Never else fails))
  {
    hide MarkSucceeded, MarkFailed, Ends, SupersedeRun, CheckOf, OneStep, PostsIn;
    var id, inline, t := s.jobs[j].run, s.jobs[j].hasInline, OneStep(s, j, fails);
    CheckStep(s, j, fails);
    var db := if FailsAfterCheck(inline, fails) then MarkFailed(s.db, id, "error") else MarkSucceeded(s.db, id);
    var posts := PostsOf(s.db, id, inline, if fails == InAnalysis then Never else fails);
    if inline {
      FromPostInline(t, j, fails, n - 1);
    } else {
      FromPostSummary(t, j, fails, n - 1);
    }
    assert forall q: seq<Post> :: [] + q == q && q + [] == q;
    Continue(s, j, fails, n, db, [], posts);
  }

  lemma {:induction false} SupersedeStep(s: Sys, j: nat, fails: Fails)
    requires j < |s.jobs| && s.jobs[j].pc == Superseding
    ensures var t := OneStep(s, j, fails);
      && t.db == SupersedeRun(s.db, s.jobs[j].run) && t.log == s.log
      && t.jobs[j].run == s.jobs[j].run && t.jobs[j].pc == Succeeding
  {
    hide SupersedeRun;
  }

  lemma {:induction false} FromOtherCheck(s: Sys, j: nat, fails: Fails, n: nat)
    requires j < |s.jobs| && n >= 7 && s.jobs[j].pc == Checking && fails != InCheck
    requires CheckOf(s.db, s.jobs[j].run) != Publishable
    ensures Ends(s, j, fails, n, MarkSucceeded(AfterCheck(s.db, s.jobs[j].run), s.jobs[j].run), [])
  {
    hide MarkSucceeded, MarkFailed, Ends, SupersedeRun, CheckOf, OneStep, PostsIn;
    var id, t := s.jobs[j].run, OneStep(s, j, fails);
    CheckStep(s, j, fails);
    if CheckOf(s.db, id) == HeadChanged {
      SupersedeStep(t, j, fails);
      FromLast(OneStep(t, j, fails), j, fails, n - 2);
      Quietly(t, j, fails, n - 1, MarkSucceeded(AfterCheck(s.db, id), id), []);
    } else {
      FromLast(t, j, fails, n - 1);
    }
    Continue(s, j, fails, n, MarkSucceeded(AfterCheck(s.db, id), id), [], []);
    AppendStep<Post>([], [], []);
  }

  lemma {:induction false} FromChecking(s: Sys, j: nat, fails: Fails, n: nat)
    requires j < |s.jobs| && n >= 7 && s.jobs[j].pc == Checking && s.jobs[j].run in s.db.runs
    ensures var id, inline := s.jobs[j].run, s.jobs[j].hasInline;
      Ends(s, j, fails, n,
           if fails == InCheck then MarkFailed(s.db, id, "error")
           else if CheckOf(s.db, id) == Publishable && FailsAfterCheck(inline, fails) then MarkFailed(s.db, id, "error")
           else MarkSucceeded(AfterCheck(s.db, id), id),
           PostsOf(s.db, id, inline, if fails == InAnalysis then Never else fails))
  {
    hide MarkSucceeded, MarkFailed, Ends, SupersedeRun, CheckOf;
    var id := s.jobs[j].run;
    if fails == InCheck {
      FromLast(OneStep(s, j, fails), j, fails, n - 1);
      Quietly(s, j, fails, n, MarkFailed(s.db, id, "error"), []);
    } else if CheckOf(s.db, id) == Publishable {
      FromGoodCheck(s, j, fails, n);
    } else {
      FromOtherCheck(s, j, fails, n);
    }
  }

  /** Alone, a job of the interleaved system leaves the table and the posts that the sequential job leaves. */
  lemma {:induction false} AloneIsProcessed(s: Sys, j: nat, fails: Fails, n: nat)
    requires j < |s.jobs| && n >= 9 && s.jobs[j].pc == Begin
    ensures var id, inline := s.jobs[j].run, s.jobs[j].hasInline;
      Ends(s, j, fails, n, Processed(s.db, id, inline, fails), PostsOf(MarkRunning(s.db, id), id, inline, fails))
  {
    hide MarkRunning, MarkSucceeded, MarkFailed, Ends, SupersedeRun, CheckOf;
    var id, inline, t := s.jobs[j].run, s.jobs[j].hasInline, OneStep(s, j, fails);
    var running := MarkRunning(s.db, id);
    RunningRuns(s.db, id);
    NotFound(running, id);
    var u := OneStep(t, j, fails);
    if fails == InAnalysis || id !in s.db.runs {
      FromLast(u, j, fails, n - 2);
    } else {
      FromChecking(u, j, fails, n - 2);
    }
    Quietly(t, j, fails, n - 1, Processed(s.db, id, inline, fails), PostsOf(running, id, inline, fails));
    Quietly(s, j, fails, n, Processed(s.db, id, inline, fails), PostsOf(running, id, inline, fails));
  }

  lemma {:induction false} RunningRuns(db: Db, id: int)
    ensures MarkRunning(db, id).runs.Keys == db.runs.Keys
  {
  }

  lemma {:induction false} NotFound(db: Db, id: int)
    ensures id !in db.runs ==> CheckOf(db, id) != Publishable
  {
  }

  /** The run may be published to: not superseded, and its commit is the head of its pull request. */
  predicate MayPublish(db: Db, id: int) {
    id in db.runs && db.runs[id].pr in db.heads && db.runs[id].status != Superseded
    && db.runs[id].headSha == db.heads[db.runs[id].pr]
  }

  /** What a job posts, and when it returns. */
  lemma {:induction false} PostsIff(db: Db, id: int, hasInline: bool, fails: Fails)
    ensures var posts := PostsOf(db, id, hasInline, fails);
      && (InlineReview(id) in posts <==> MayPublish(db, id) && hasInline && !(fails in {InAnalysis, InCheck, InInline}))
      && (SummaryComment(id) in posts
          <==> MayPublish(db, id)
               && !(fails in {InAnalysis, InCheck, InSummary} || (hasInline && fails in {InInline, InRecordInline})))
      && (posts <= [InlineReview(id), SummaryComment(id)] || posts == [SummaryComment(id)])
    ensures Returns(db, id, hasInline, fails)
       <==> id in db.runs && !(fails in {InAnalysis, InCheck})
            && (MayPublish(db, id) ==>
                  !(fails in {InSummary, InRecordSummary}) && !(hasInline && fails in {InInline, InRecordInline}))
  {
  }

  // ---- The check and the outside update, column by column ------------------------------------------

  /** What the check answers, and the row it changes. */
  lemma {:induction false} CheckAnswers(db: Db, id: int)
    ensures CheckOf(db, id) == Publishable
       <==> id in db.runs && db.runs[id].pr in db.heads && db.runs[id].status != Superseded
            && db.runs[id].headSha == db.heads[db.runs[id].pr]
    ensures CheckOf(db, id) == RunNotFound <==> id !in db.runs || db.runs[id].pr !in db.heads
    ensures CheckOf(db, id) == RunSuperseded
       <==> id in db.runs && db.runs[id].pr in db.heads && db.runs[id].status == Superseded
    ensures AfterCheck(db, id).heads == db.heads && AfterCheck(db, id).now == db.now
    ensures CheckOf(db, id) != HeadChanged ==> AfterCheck(db, id).runs == db.runs
    ensures CheckOf(db, id) == HeadChanged ==>
              var row := db.runs[id];
              AfterCheck(db, id).runs
              == db.runs[id := Row(Superseded, row.startedAt,
                                   if row.finishedAt.Some? then row.finishedAt else Some(db.now),
                                   row.headSha, row.pr, Some("current_head_sha_changed"))]
  {
  }

  /** The outside update hits exactly the queued and running runs of the pull request for another commit. */
  lemma {:induction false} SupersedesOthers(db: Db, pr: int, sha: int, id: int)
    requires id in db.runs
    ensures var row, after := db.runs[id], SupersedeOthers(db, pr, sha);
      && after.runs.Keys == db.runs.Keys && after.heads == db.heads && after.now == db.now
      && after.runs[id]
         == if row.pr == pr && row.headSha != sha && row.status in {Queued, Running}
            then Row(Superseded, row.startedAt, if row.finishedAt.Some? then row.finishedAt else Some(db.now),
                     row.headSha, row.pr, Some("superseded_by_new_head"))
            else row
  {
  }
}
