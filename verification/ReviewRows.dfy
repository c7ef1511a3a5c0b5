/**
  What the rows of review runs look like at any moment: which time stamps and
  error codes go with which status, and what each statement of a job writes.
 */
module ReviewRows {
  import opened Basics
  import opened ReviewLifecycle

  /** The time of the first of two events is not after that of the second. */
  predicate InOrder(first: Option<nat>, second: Option<nat>) {
    first.Some? && second.Some? ==> first.value <= second.value
  }

  /** What goes with the status of a row; a row starts before it finishes, and neither lies in the future. */
  predicate RowOk(row: Row, now: nat) {
    && InOrder(row.startedAt, row.finishedAt) && InOrder(row.startedAt, Some(now)) && InOrder(row.finishedAt, Some(now))
    && match row.status
       case Queued => row.startedAt.None? && row.finishedAt.None? && row.errorCode.None?
       case Running => row.startedAt.Some? && row.errorCode.None?
       case Succeeded => row.startedAt.Some? && row.finishedAt.Some? && row.errorCode.None?
       case Failed => row.startedAt.Some? && row.finishedAt.Some? && row.errorCode.Some?
       case Superseded => row.finishedAt.Some? && row.errorCode.Some?
       case Cancelled => row.startedAt.None? ==> row.finishedAt.None?
  }

  predicate RowsOk(db: Db) {
    forall id | id in db.runs :: RowOk(db.runs[id], db.now)
  }

  /** The run of a job exists and, unless it was superseded, has been started by the time the job is past its begin. */
  predicate JobStarted(db: Db, job: Job) {
    job.run in db.runs
    && (job.pc != Begin && job.pc != Ended && db.runs[job.run].status != Superseded ==>
          db.runs[job.run].startedAt.Some?)
  }

  predicate JobsStarted(s: Sys) {
    forall j | 0 <= j < |s.jobs| :: JobStarted(s.db, s.jobs[j])
  }

  predicate RowInv(s: Sys) {
    RowsOk(s.db) && JobsStarted(s)
  }

  /** Jobs are enqueued for runs that exist by then. */
  predicate RunsExist(s: Sys, actions: seq<Action>)
    decreases |actions|
  {
    actions == []
    || ((actions[0].Enqueue? ==> actions[0].run in s.db.runs) && RunsExist(Next(s, actions[0]), actions[1..]))
  }

  lemma {:induction false} OutsideKeepsRows(s: Sys, a: Action)
    requires RowsOk(s.db) && !a.JobStep?
    ensures RowsOk(Next(s, a).db)
  {
  }

  /** Rows that are there stay, those started stay started, and superseded ones superseded. */
  predicate NoneUnstarted(before: Db, after: Db) {
    forall id | id in before.runs ::
      && id in after.runs
      && (before.runs[id].startedAt.Some? ==> after.runs[id].startedAt.Some?)
      && (before.runs[id].status == Superseded ==> after.runs[id].status == Superseded)
  }

  lemma {:induction false} NextUnstartsNone(s: Sys, a: Action)
    ensures NoneUnstarted(s.db, Next(s, a).db)
  {
    hide RowsOk;
    StepKeepsRows(s, a);
  }

  lemma {:induction false} StartedStays(s: Sys, a: Action, j: nat)
    requires j < |s.jobs| && JobStarted(s.db, s.jobs[j]) && (a.JobStep? ==> a.job != j)
    ensures j < |Next(s, a).jobs| && JobStarted(Next(s, a).db, s.jobs[j]) && Next(s, a).jobs[j] == s.jobs[j]
  {
    hide Next;
    NextUnstartsNone(s, a);
    OtherJobsStay(s, a, j);
  }

  lemma {:induction false} OtherJobsStay(s: Sys, a: Action, j: nat)
    requires j < |s.jobs| && (a.JobStep? ==> a.job != j)
    ensures j < |Next(s, a).jobs| && Next(s, a).jobs[j] == s.jobs[j]
  {
    hide MarkRunning, MarkSucceeded, MarkFailed, CheckOf, SupersedeRun, SupersedeOthers;
  }

  /** What one step of a job does to the table, row by row. */
  lemma {:induction false} WhatAStepWrites(s: Sys, j: nat, outcome: Outcome)
    requires j < |s.jobs|
    ensures var t, id := StepJob(s, j, outcome), s.jobs[j].run;
      && t.db.heads == s.db.heads && t.db.now == s.db.now && t.db.runs.Keys == s.db.runs.Keys
      && (forall k | k in s.db.runs && k != id :: t.db.runs[k] == s.db.runs[k])
      && (id in s.db.runs ==> t.db.runs[id] == WrittenRow(s.db.runs[id], s.jobs[j].pc, outcome, s.db.now))
  {
    hide StepJob;
    StepStatement(s, j, outcome);
  }

  /** Which statement each step runs, if it takes effect. */
  lemma {:induction false} StepStatement(s: Sys, j: nat, outcome: Outcome)
    requires j < |s.jobs|
    ensures var db, id := s.db, s.jobs[j].run;
      StepJob(s, j, outcome).db
      == if outcome != Completes && outcome != RaisesAfter then db
         else match s.jobs[j].pc
         case Begin => MarkRunning(db, id)
         case Superseding => SupersedeRun(db, id)
         case Succeeding => MarkSucceeded(db, id)
         case Failing => MarkFailed(db, id, "error")
         case _ => db
  {
    hide MarkRunning, MarkSucceeded, MarkFailed, SupersedeRun, CheckOf;
  }

  /** By the columns each UPDATE sets: a superseded row only ever gets the reason of a late check. */
  function WrittenRow(row: Row, pc: Pc, outcome: Outcome, now: nat): Row {
    var ran := outcome == Completes || outcome == RaisesAfter;
    if !ran then row
    else if pc == Superseding then
      Row(Superseded, row.startedAt, if row.finishedAt.Some? then row.finishedAt else Some(now), row.headSha, row.pr,
          Some("current_head_sha_changed"))
    else if row.status == Superseded then row
    else match pc
      case Begin =>
        Row(Running, if row.startedAt.Some? then row.startedAt else Some(now), row.finishedAt, row.headSha, row.pr,
            None)
      case Succeeding =>
        Row(Succeeded, row.startedAt, if row.finishedAt.Some? then row.finishedAt else Some(now), row.headSha, row.pr,
            None)
      case Failing =>
        Row(Failed, row.startedAt, if row.finishedAt.Some? then row.finishedAt else Some(now), row.headSha, row.pr,
            Some("error"))
      case _ => row
  }

  lemma {:induction false} WrittenOk(row: Row, pc: Pc, outcome: Outcome, now: nat)
    requires RowOk(row, now)
    requires pc != Begin && row.status != Superseded ==> row.startedAt.Some?
    ensures RowOk(WrittenRow(row, pc, outcome, now), now)
    ensures var out := WrittenRow(row, pc, outcome, now);
      (row.startedAt.Some? ==> out.startedAt == row.startedAt)
      && (out.status != Superseded && (outcome == Completes || outcome == RaisesAfter || pc != Begin) ==>
            out.startedAt.Some?)
  {
  }

  lemma {:induction false} EndedWritesNothing(s: Sys, j: nat, outcome: Outcome)
    requires j < |s.jobs| && s.jobs[j].pc == Ended
    ensures StepJob(s, j, outcome).db == s.db && StepJob(s, j, outcome).jobs[j].pc == Ended
  {
  }

  /** A job that is past its begin has either marked its run or has ended. */
  lemma {:induction false} BeginSteps(s: Sys, j: nat, outcome: Outcome)
    requires j < |s.jobs|
    ensures |StepJob(s, j, outcome).jobs| == |s.jobs|
    ensures var job := StepJob(s, j, outcome).jobs[j];
      && job.run == s.jobs[j].run
      && (s.jobs[j].pc == Begin ==> job.pc == (if outcome == Completes then Analysing else Ended))
      && (job.pc == Begin ==> s.jobs[j].pc == Begin)
    ensures forall i | 0 <= i < |s.jobs| && i != j :: StepJob(s, j, outcome).jobs[i] == s.jobs[i]
  {
    hide MarkRunning, MarkSucceeded, MarkFailed, CheckOf, SupersedeRun, StepJob;
    OnlyItsPoint(s, j, outcome);
    BeginLeadsOn(s, j, outcome);
  }

  /** Of the list of jobs a step changes the program point of its job and nothing else. */
  lemma {:induction false} OnlyItsPoint(s: Sys, j: nat, outcome: Outcome)
    requires j < |s.jobs|
    ensures exists pc: Pc :: StepJob(s, j, outcome).jobs == s.jobs[j := s.jobs[j].(pc := pc)]
  {
    hide MarkRunning, MarkSucceeded, MarkFailed, CheckOf, SupersedeRun;
    assert s.jobs[j := s.jobs[j].(pc := s.jobs[j].pc)] == s.jobs;
  }

  lemma {:induction false} BeginLeadsOn(s: Sys, j: nat, outcome: Outcome)
    requires j < |s.jobs|
    ensures |StepJob(s, j, outcome).jobs| == |s.jobs|
    ensures var pc := StepJob(s, j, outcome).jobs[j].pc;
      && (s.jobs[j].pc == Begin ==> pc == (if outcome == Completes then Analysing else Ended))
      && (pc == Begin ==> s.jobs[j].pc == Begin)
  {
    hide MarkRunning, MarkSucceeded, MarkFailed, CheckOf, SupersedeRun;
  }

  lemma {:induction false} OwnStepKeeps(s: Sys, j: nat, outcome: Outcome)
    requires j < |s.jobs| && RowInv(s)
    ensures RowsOk(StepJob(s, j, outcome).db) && JobStarted(StepJob(s, j, outcome).db, StepJob(s, j, outcome).jobs[j])
  {
    hide StepJob, WrittenRow, RowOk;
    var job := s.jobs[j];
    WhatAStepWrites(s, j, outcome);
    BeginSteps(s, j, outcome);
    assert JobStarted(s.db, job);
    if job.pc == Ended {
      EndedWritesNothing(s, j, outcome);
    } else {
      WrittenOk(s.db.runs[job.run], job.pc, outcome, s.db.now);
    }
  }

  /** Over every interleaving: each row has the time stamps and the error code that go with its status. */
  lemma {:induction false} RowInvKept(s: Sys, a: Action)
    requires RowInv(s) && (a.Enqueue? ==> a.run in s.db.runs)
    ensures RowInv(Next(s, a))
  {
    hide StepJob, RowOk, RowsOk, JobStarted;
    var t := Next(s, a);
    match a {
      case JobStep(j, outcome) =>
        if j < |s.jobs| {
          OwnStepKeeps(s, j, outcome);
          BeginSteps(s, j, outcome);
        }
      case _ => OutsideKeepsRows(s, a);
    }
    forall i | 0 <= i < |t.jobs| ensures JobStarted(t.db, t.jobs[i]) {
      if i < |s.jobs| && !(a.JobStep? && a.job == i) {
        StartedStays(s, a, i);
      } else if i >= |s.jobs| {
        EnqueuedStarts(s, a);
      }
    }
  }

  lemma {:induction false} EnqueuedStarts(s: Sys, a: Action)
    requires a.Enqueue? && a.run in s.db.runs
    ensures |Next(s, a).jobs| == |s.jobs| + 1 && JobStarted(Next(s, a).db, Next(s, a).jobs[|s.jobs|])
  {
  }

  lemma {:induction false} RowsOkOverRuns(s: Sys, actions: seq<Action>)
    requires RowInv(s) && RunsExist(s, actions)
    ensures RowInv(Run(s, actions))
    decreases |actions|
  {
    hide Next, RowInv;
    if actions != [] {
      RowInvKept(s, actions[0]);
      RowsOkOverRuns(Next(s, actions[0]), actions[1..]);
    }
  }

  /** A run that a job has put to running keeps that start for ever, whatever interleaves. */
  lemma {:induction false} StartStays(s: Sys, j: nat, outcome: Outcome, actions: seq<Action>)
    requires j < |s.jobs| && s.jobs[j].pc == Begin && (outcome == Completes || outcome == RaisesAfter)
    requires s.jobs[j].run in s.db.runs && s.db.runs[s.jobs[j].run].status != Superseded
    ensures var id, end := s.jobs[j].run, Run(StepJob(s, j, outcome), actions).db;
      && id in end.runs
      && end.runs[id].startedAt == if s.db.runs[id].startedAt.Some? then s.db.runs[id].startedAt else Some(s.db.now)
  {
    hide StepJob, Run;
    WhatAStepWrites(s, j, outcome);
    RowsOverRuns(StepJob(s, j, outcome), actions);
  }

  // ---- What a step logs and how a job fails ---------------------------------------------------

  /** The pipeline has begun and has not returned: an exception here is caught. */
  predicate InPipeline(pc: Pc) {
    pc in {Analysing, Checking, Superseding, PostInline, RecordInline, PostSummary, RecordSummary}
  }

  /** What each step adds to the log, if it takes effect: the check its answer and the two heads, a post itself. */
  lemma {:induction false} WhatAStepLogs(s: Sys, j: nat, outcome: Outcome)
    requires j < |s.jobs|
    ensures var t, id := StepJob(s, j, outcome), s.jobs[j].run;
      t.log == s.log + if outcome != Completes && outcome != RaisesAfter then []
                       else match s.jobs[j].pc
                       case Checking =>
                         if id in s.db.runs && s.db.runs[id].pr in s.db.heads
                         then [Checked(j, CheckOf(s.db, id), s.db.runs[id].headSha, s.db.heads[s.db.runs[id].pr])]
                         else [Checked(j, RunNotFound, 0, 0)]
                       case PostInline => [InlinePosted(j)]
                       case PostSummary => [SummaryPosted(j)]
                       case Succeeding =>
                         if id in s.db.runs && s.db.runs[id].status != Superseded then [RunSucceeded(j)] else []
                       case _ => []
  {
    hide MarkRunning, MarkSucceeded, MarkFailed, SupersedeRun;
    assert s.log + [] == s.log;
  }

  /** An exception inside the pipeline, before its effect or after it, fails the run unless it is superseded. */
  lemma {:induction false} RaisingFails(s: Sys, j: nat, outcome: Outcome)
    requires j < |s.jobs| && InPipeline(s.jobs[j].pc) && s.jobs[j].run in s.db.runs
    requires outcome == RaisesBefore || outcome == RaisesAfter
    ensures var t := StepJob(s, j, outcome);
      var u, id := StepJob(t, j, Completes), s.jobs[j].run;
      && t.jobs[j].pc == Failing && u.jobs[j].pc == Ended && id in u.db.runs && u.log == t.log
      && u.db.runs[id].status
         == if s.db.runs[id].status == Superseded || (s.jobs[j].pc == Superseding && outcome == RaisesAfter)
            then Superseded else Failed
  {
    hide CheckOf;
  }

  /** A worker that dies leaves the table and the log as they are, and the job is over. */
  lemma {:induction false} DyingEnds(s: Sys, j: nat)
    requires j < |s.jobs|
    ensures StepJob(s, j, Dies) == s.(jobs := s.jobs[j := s.jobs[j].(pc := Ended)])
  {
  }
}
