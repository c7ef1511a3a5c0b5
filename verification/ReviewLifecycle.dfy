/**
  The life of a review run: the guarded row updates of the worker
  (`review_queue.py`), the check before publishing, and the order of steps of a
  job.  Each SQL statement is one atomic step on the table; between any two
  steps of a job other jobs and outside parties may act.
 */
module ReviewLifecycle {
  import opened Basics

  datatype Status = Queued | Running | Succeeded | Failed | Cancelled | Superseded

  datatype Row = Row(status: Status, startedAt: Option<nat>, finishedAt: Option<nat>, headSha: int, pr: int,
                     errorCode: Option<string>)

  /** The two tables the statements touch, and the clock behind now(). */
  datatype Db = Db(runs: map<int, Row>, heads: map<int, int>, now: nat)

  function Coalesce(t: Option<nat>, now: nat): Option<nat> {
    if t.Some? then t else Some(now)
  }

  // ---- The statements -----------------------------------------------------------

  function SetRow(db: Db, id: int, row: Row): Db {
    db.(runs := db.runs[id := row])
  }

  predicate Guarded(db: Db, id: int) {
    id in db.runs && db.runs[id].status != Superseded
  }

  function MarkRunning(db: Db, id: int): Db {
    if Guarded(db, id) then
      SetRow(db, id,
             db.runs[id].(status := Running, startedAt := Coalesce(db.runs[id].startedAt, db.now), errorCode := None))
    else db
  }

  function MarkSucceeded(db: Db, id: int): Db {
    if Guarded(db, id) then
      SetRow(db, id,
        db.runs[id].(status := Succeeded, finishedAt := Coalesce(db.runs[id].finishedAt, db.now), errorCode := None))
    else db
  }

  function MarkFailed(db: Db, id: int, code: string): Db {
    if Guarded(db, id) then
      SetRow(db, id,
        db.runs[id].(status := Failed, finishedAt := Coalesce(db.runs[id].finishedAt, db.now), errorCode := Some(code)))
    else db
  }

  datatype Check = Publishable | RunNotFound | RunSuperseded | HeadChanged

  /** The join with the pull request row: a run without one is not found. */
  function CheckOf(db: Db, id: int): Check {
    if id !in db.runs || db.runs[id].pr !in db.heads then RunNotFound
    else if db.runs[id].status == Superseded then RunSuperseded
    else if db.runs[id].headSha != db.heads[db.runs[id].pr] then HeadChanged
    else Publishable
  }

  function SupersededRow(row: Row, now: nat, code: string): Row {
    row.(status := Superseded, finishedAt := Coalesce(row.finishedAt, now), errorCode := Some(code))
  }

  /** The check's UPDATE: it names the run and nothing else, so it also hits a run that has changed since the SELECT. */
  function SupersedeRun(db: Db, id: int): Db {
    if id in db.runs then SetRow(db, id, SupersededRow(db.runs[id], db.now, "current_head_sha_changed")) else db
  }

  /** The SELECT and, if the heads differ, the UPDATE, with nothing in between. */
  function AfterCheck(db: Db, id: int): Db {
    if CheckOf(db, id) == HeadChanged then SupersedeRun(db, id) else db
  }

  /** The outside update: queued and running runs of a pull request for another head are superseded. */
  function SupersedeOthers(db: Db, pr: int, sha: int): Db {
    db.(runs := map id | id in db.runs ::
          var row := db.runs[id];
          if row.pr == pr && row.headSha != sha && (row.status == Queued || row.status == Running)
          then SupersededRow(row, db.now, "superseded_by_new_head") else row)
  }

  // ---- Jobs and their interleavings ------------------------------------------------

  /** Checking stands before the SELECT of the check, Superseding before its UPDATE. */
  datatype Pc =
    | Begin | Analysing | Checking | Superseding | PostInline | RecordInline
    | PostSummary | RecordSummary | Succeeding | Failing | Ended

  datatype Job = Job(run: int, hasInline: bool, pc: Pc)

  datatype Event =
    | Checked(job: nat, check: Check, reviewHead: int, currentHead: int)
    | InlinePosted(job: nat)
    | SummaryPosted(job: nat)
    | RunSucceeded(job: nat)

  datatype Sys = Sys(db: Db, jobs: seq<Job>, log: seq<Event>)

  /** How one step of a job goes: it completes, raises before or after its effect, or the worker dies. */
  datatype Outcome = Completes | RaisesBefore | RaisesAfter | Dies

  predicate TakesEffect(outcome: Outcome) {
    outcome == Completes || outcome == RaisesAfter
  }

  datatype Action =
    | JobStep(job: nat, outcome: Outcome)
    | Enqueue(run: int, hasInline: bool)
    | CreateRun(run: int, pr: int, sha: int)
    | MoveHead(pr: int, sha: int)
    | SupersedeOld(pr: int, sha: int)
    | Tick

  function Goto(s: Sys, j: nat, pc: Pc): Sys
    requires j < |s.jobs|
  {
    s.(jobs := s.jobs[j := s.jobs[j].(pc := pc)])
  }

  function Log(s: Sys, e: Event): Sys {
    s.(log := s.log + [e])
  }

  /** A step that may raise: an exception before the effect, or after it, leads to mark_failed. */
  function Settle(before: Sys, after: Sys, j: nat, next: Pc, outcome: Outcome): Sys
    requires j < |before.jobs| && j < |after.jobs|
  {
    match outcome
    case Completes => Goto(after, j, next)
    case RaisesBefore => Goto(before, j, Failing)
    case RaisesAfter => Goto(after, j, Failing)
    case Dies => Goto(before, j, Ended)
  }

  function CheckEvent(db: Db, j: nat, id: int): Event {
    var c := CheckOf(db, id);
    if c == RunNotFound then Checked(j, c, 0, 0) else Checked(j, c, db.runs[id].headSha, db.heads[db.runs[id].pr])
  }

  /** One step of job `j`, in the order of process_review_pull_request_job and the pipeline's run. */
  function StepJob(s: Sys, j: nat, outcome: Outcome): Sys
    requires j < |s.jobs|
  {
    var job := s.jobs[j];
    if outcome == Dies then Goto(s, j, Ended)
    else match job.pc
      case Begin =>
        // mark_running stands before the try block: an exception here ends the job.
        if outcome == RaisesBefore then Goto(s, j, Ended)
        else Goto(s.(db := MarkRunning(s.db, job.run)), j, if outcome == RaisesAfter then Ended else Analysing)
      case Analysing => Settle(s, s, j, if job.run in s.db.runs then Checking else Failing, outcome)
      case Checking =>
        var check := CheckOf(s.db, job.run);
        var next := if check == HeadChanged then Superseding
                    else if check != Publishable then Succeeding
                    else if job.hasInline then PostInline else PostSummary;
        Settle(s, Log(s, CheckEvent(s.db, j, job.run)), j, next, outcome)
      case Superseding => Settle(s, s.(db := SupersedeRun(s.db, job.run)), j, Succeeding, outcome)
      case PostInline => Settle(s, Log(s, InlinePosted(j)), j, RecordInline, outcome)
      case RecordInline => Settle(s, s, j, PostSummary, outcome)
      case PostSummary => Settle(s, Log(s, SummaryPosted(j)), j, RecordSummary, outcome)
      case RecordSummary => Settle(s, s, j, Succeeding, outcome)
      case Succeeding =>
        if outcome == RaisesBefore then Goto(s, j, Ended)
        else
          var done := s.(db := MarkSucceeded(s.db, job.run));
          Goto(if Guarded(s.db, job.run) then Log(done, RunSucceeded(j)) else done, j, Ended)
      case Failing =>
        if outcome == RaisesBefore then Goto(s, j, Ended)
        else Goto(s.(db := MarkFailed(s.db, job.run, "error")), j, Ended)
      case Ended => s
  }

  function Next(s: Sys, a: Action): Sys {
    match a
    case JobStep(j, outcome) => if j < |s.jobs| then StepJob(s, j, outcome) else s
    case Enqueue(run, hasInline) => s.(jobs := s.jobs + [Job(run, hasInline, Begin)])
    case CreateRun(run, pr, sha) =>
      if run in s.db.runs then s else s.(db := SetRow(s.db, run, Row(Queued, None, None, sha, pr, None)))
    case MoveHead(pr, sha) => s.(db := s.db.(heads := s.db.heads[pr := sha]))
    case SupersedeOld(pr, sha) => s.(db := SupersedeOthers(s.db, pr, sha))
    case Tick => s.(db := s.db.(now := s.db.now + 1))
  }

  function Run(s: Sys, actions: seq<Action>): Sys
    decreases |actions|
  {
    if actions == [] then s else Run(Next(s, actions[0]), actions[1..])
  }

  // ---- Rows over every interleaving ----------------------------------------------------

  /**
    What no step may do to a row: leave 'superseded', rewrite a time stamp, or change what the run is for.
    The reason a run was superseded is not kept: a late check writes its own.
   */
  predicate RowKept(before: Row, after: Row) {
    && (before.status == Superseded ==> after.status == Superseded && after.startedAt == before.startedAt)
    && (before.startedAt.Some? ==> after.startedAt == before.startedAt)
    && (before.finishedAt.Some? ==> after.finishedAt == before.finishedAt)
    && after.headSha == before.headSha && after.pr == before.pr
  }

  predicate RowsKept(before: Db, after: Db) {
    forall id | id in before.runs :: id in after.runs && RowKept(before.runs[id], after.runs[id])
  }

  predicate IsTerminal(st: Status) {
    st == Succeeded || st == Failed || st == Superseded
  }

  predicate TerminalFinished(db: Db) {
    forall id | id in db.runs :: IsTerminal(db.runs[id].status) ==> db.runs[id].finishedAt.Some?
  }

  /** What every statement keeps. */
  ghost predicate Keeps(before: Db, after: Db) {
    RowsKept(before, after) && (TerminalFinished(before) ==> TerminalFinished(after))
  }

  lemma {:induction false} MarksKeepRows(db: Db, id: int, code: string)
    ensures Keeps(db, MarkRunning(db, id)) && Keeps(db, MarkSucceeded(db, id)) && Keeps(db, MarkFailed(db, id, code))
  {
  }

  lemma {:induction false} OthersKeepRows(db: Db, id: int, pr: int, sha: int)
    ensures Keeps(db, SupersedeRun(db, id)) && Keeps(db, SupersedeOthers(db, pr, sha)) && Keeps(db, db)
  {
  }

  lemma {:induction false} StatementsKeepRows(db: Db, id: int, code: string, pr: int, sha: int)
    ensures Keeps(db, MarkRunning(db, id)) && Keeps(db, MarkSucceeded(db, id)) && Keeps(db, MarkFailed(db, id, code))
    ensures Keeps(db, SupersedeRun(db, id)) && Keeps(db, SupersedeOthers(db, pr, sha)) && Keeps(db, db)
  {
    hide *;
    MarksKeepRows(db, id, code);
    OthersKeepRows(db, id, pr, sha);
  }

  /** Whether a step of a job other than the check's UPDATE changes the table, and then by which statement. */
  predicate ByMark(before: Db, after: Db, id: int) {
    after == before || after == MarkRunning(before, id) || after == MarkSucceeded(before, id)
    || after == MarkFailed(before, id, "error")
  }

  /** The job is about to execute the check's UPDATE, whatever the run has become since its SELECT. */
  predicate Pending(s: Sys, j: nat, outcome: Outcome) {
    j < |s.jobs| && s.jobs[j].pc == Superseding && TakesEffect(outcome)
  }

  lemma {:induction false} JobStepsByStatement(s: Sys, j: nat, outcome: Outcome)
    requires j < |s.jobs|
    ensures Pending(s, j, outcome) ==> StepJob(s, j, outcome).db == SupersedeRun(s.db, s.jobs[j].run)
    ensures !Pending(s, j, outcome) ==> ByMark(s.db, StepJob(s, j, outcome).db, s.jobs[j].run)
  {
    hide MarkRunning, MarkSucceeded, MarkFailed, SupersedeRun, CheckOf, CheckEvent, Guarded;
  }

  lemma {:induction false} StepKeepsRows(s: Sys, a: Action)
    ensures RowsKept(s.db, Next(s, a).db)
    ensures TerminalFinished(s.db) ==> TerminalFinished(Next(s, a).db)
  {
    hide StepJob, MarkRunning, MarkSucceeded, MarkFailed, SupersedeRun, SupersedeOthers;
    match a {
      case JobStep(j, outcome) =>
        if j < |s.jobs| {
          JobStepsByStatement(s, j, outcome);
          StatementsKeepRows(s.db, s.jobs[j].run, "error", 0, 0);
        }
      case SupersedeOld(pr, sha) => StatementsKeepRows(s.db, 0, "", pr, sha);
      case _ =>
    }
  }

  lemma {:induction false} KeptTransitive(a: Db, b: Db, c: Db)
    requires RowsKept(a, b) && RowsKept(b, c)
    ensures RowsKept(a, c)
  {
  }

  /**
    Over any run of the system 'superseded' is never left, both time stamps are set once, and terminal rows are
    finished.
   */
  lemma {:induction false} RowsOverRuns(s: Sys, actions: seq<Action>)
    ensures RowsKept(s.db, Run(s, actions).db)
    ensures TerminalFinished(s.db) ==> TerminalFinished(Run(s, actions).db)
    decreases |actions|
  {
    hide Next, RowKept;
    if actions == [] {
      StatementsKeepRows(s.db, 0, "", 0, 0);
    } else {
      StepKeepsRows(s, actions[0]);
      RowsOverRuns(Next(s, actions[0]), actions[1..]);
      KeptTransitive(s.db, Next(s, actions[0]).db, Run(s, actions).db);
    }
  }

  // ---- Posts and successes only after a good check ----------------------------------------

  /** The check of the job found equal heads on a run that was not superseded. */
  predicate GoodCheck(e: Event, j: nat) {
    e.Checked? && e.job == j && e.check == Publishable && e.reviewHead == e.currentHead
  }

  predicate HasGoodCheck(log: seq<Event>, j: nat) {
    exists e <- log :: GoodCheck(e, j)
  }

  predicate IsVisible(e: Event) {
    e.InlinePosted? || e.SummaryPosted? || e.RunSucceeded?
  }

  /** Every post and every success in the log has a good check of the same job before it. */
  predicate CheckedFirst(log: seq<Event>) {
    forall i | 0 <= i < |log| && IsVisible(log[i]) :: HasGoodCheck(log[..i], log[i].job)
  }

  predicate AfterGoodCheck(pc: Pc) {
    pc == PostInline || pc == RecordInline || pc == PostSummary || pc == RecordSummary
  }

  /** What is known of a job at each program point. */
  predicate JobOk(s: Sys, j: nat)
    requires j < |s.jobs|
  {
    var job := s.jobs[j];
    && (job.pc == Checking ==> job.run in s.db.runs)
    && (AfterGoodCheck(job.pc) ==> HasGoodCheck(s.log, j))
    && (job.pc == Succeeding ==> HasGoodCheck(s.log, j) || !Guarded(s.db, job.run))
  }

  /** Runs are for pull requests that exist. */
  predicate PrsKnown(db: Db) {
    forall id | id in db.runs :: db.runs[id].pr in db.heads
  }

  predicate Inv(s: Sys) {
    PrsKnown(s.db) && CheckedFirst(s.log) && forall j | 0 <= j < |s.jobs| :: JobOk(s, j)
  }

  lemma {:induction false} LogAppend(log: seq<Event>, e: Event, j: nat)
    ensures HasGoodCheck(log, j) ==> HasGoodCheck(log + [e], j)
    ensures GoodCheck(e, j) ==> HasGoodCheck(log + [e], j)
    ensures CheckedFirst(log) && (IsVisible(e) ==> HasGoodCheck(log, e.job)) ==> CheckedFirst(log + [e])
  {
    var more := log + [e];
    if HasGoodCheck(log, j) {
      var g :| g in log && GoodCheck(g, j);
      assert g in more;
    }
    assert e in more;
    if CheckedFirst(log) && (IsVisible(e) ==> HasGoodCheck(log, e.job)) {
      forall i | 0 <= i < |more| && IsVisible(more[i]) ensures HasGoodCheck(more[..i], more[i].job) {
        if i < |log| {
          assert more[..i] == log[..i];
        } else {
          assert more[..i] == log;
        }
      }
    }
  }

  /** A job that did nothing keeps its facts while the table keeps its rows and the log grows. */
  lemma {:induction false} OthersKept(s: Sys, t: Sys, k: nat)
    requires k < |s.jobs| && k < |t.jobs| && t.jobs[k] == s.jobs[k]
    requires RowsKept(s.db, t.db)
    requires HasGoodCheck(s.log, k) ==> HasGoodCheck(t.log, k)
    requires s.jobs[k].run !in s.db.runs ==> s.jobs[k].pc != Succeeding
    requires JobOk(s, k)
    ensures JobOk(t, k)
  {
  }

  predicate NeedsRun(pc: Pc) {
    pc == Checking || pc == Superseding || AfterGoodCheck(pc) || pc == Succeeding
  }

  /** A job past its analysis has a run. */
  predicate HasRun(s: Sys) {
    forall j | 0 <= j < |s.jobs| && NeedsRun(s.jobs[j].pc) :: s.jobs[j].run in s.db.runs
  }

  lemma {:induction false} LogOfStep(s: Sys, j: nat, outcome: Outcome, k: nat)
    requires j < |s.jobs| && Inv(s) && HasRun(s)
    ensures CheckedFirst(StepJob(s, j, outcome).log)
    ensures HasGoodCheck(s.log, k) ==> HasGoodCheck(StepJob(s, j, outcome).log, k)
  {
    hide MarkRunning, MarkSucceeded, MarkFailed, SupersedeRun, HasGoodCheck, CheckedFirst, CheckOf, PrsKnown;
    var job := s.jobs[j];
    assert JobOk(s, j);
    LogAppend(s.log, CheckEvent(s.db, j, job.run), k);
    LogAppend(s.log, InlinePosted(j), k);
    LogAppend(s.log, SummaryPosted(j), k);
    LogAppend(s.log, RunSucceeded(j), k);
  }

  lemma {:induction false} OwnStepOk(s: Sys, j: nat, outcome: Outcome)
    requires j < |s.jobs| && Inv(s) && HasRun(s)
    ensures JobOk(StepJob(s, j, outcome), j)
    ensures var job := StepJob(s, j, outcome).jobs[j];
      NeedsRun(job.pc) ==> job.run in s.db.runs
  {
    hide MarkRunning, MarkSucceeded, MarkFailed, HasGoodCheck, CheckedFirst;
    var job := s.jobs[j];
    assert JobOk(s, j);
    LogAppend(s.log, CheckEvent(s.db, j, job.run), j);
    LogAppend(s.log, InlinePosted(j), j);
    LogAppend(s.log, SummaryPosted(j), j);
  }

  lemma {:induction false} OnlyJobMoves(s: Sys, j: nat, outcome: Outcome)
    requires j < |s.jobs|
    ensures |StepJob(s, j, outcome).jobs| == |s.jobs|
    ensures forall k | 0 <= k < |s.jobs| && k != j :: StepJob(s, j, outcome).jobs[k] == s.jobs[k]
    ensures StepJob(s, j, outcome).jobs[j].run == s.jobs[j].run
  {
    hide MarkRunning, MarkSucceeded, MarkFailed, SupersedeRun, CheckOf, CheckEvent, Guarded;
  }

  lemma {:induction false} PrsStayKnown(s: Sys, a: Action)
    requires PrsKnown(s.db)
    requires a.CreateRun? ==> a.pr in s.db.heads
    ensures PrsKnown(Next(s, a).db)
  {
    hide StepJob;
    if a.JobStep? && a.job < |s.jobs| {
      JobStepsByStatement(s, a.job, a.outcome);
    }
  }

  /** The invariant of every interleaving; runs are created for pull requests that exist. */
  lemma {:induction false} InvKept(s: Sys, a: Action)
    requires Inv(s) && HasRun(s)
    requires a.CreateRun? ==> a.pr in s.db.heads
    ensures Inv(Next(s, a)) && HasRun(Next(s, a))
  {
    hide StepJob, HasGoodCheck, CheckedFirst, RowKept, SupersedeOthers, JobOk, PrsKnown;
    StepKeepsRows(s, a);
    PrsStayKnown(s, a);
    var t := Next(s, a);
    match a {
      case JobStep(j, outcome) =>
        if j < |s.jobs| {
          OnlyJobMoves(s, j, outcome);
          OwnStepOk(s, j, outcome);
          LogOfStep(s, j, outcome, j);
          forall k | 0 <= k < |t.jobs| ensures JobOk(t, k) {
            if k != j {
              LogOfStep(s, j, outcome, k);
              OthersKept(s, t, k);
            }
          }
        }
      case Enqueue(run, hasInline) =>
        forall k | 0 <= k < |t.jobs| ensures JobOk(t, k) {
          if k < |s.jobs| {
            OthersKept(s, t, k);
          } else {
            NewJobOk(t, k);
          }
        }
      case _ =>
        forall k | 0 <= k < |t.jobs| ensures JobOk(t, k) {
          OthersKept(s, t, k);
        }
    }
  }

  lemma {:induction false} NewJobOk(s: Sys, k: nat)
    requires k < |s.jobs| && s.jobs[k].pc == Begin
    ensures JobOk(s, k)
  {
  }

  /** Runs are created for pull requests that exist by then. */
  predicate PrsExist(s: Sys, actions: seq<Action>)
    decreases |actions|
  {
    actions == []
    || ((actions[0].CreateRun? ==> actions[0].pr in s.db.heads) && PrsExist(Next(s, actions[0]), actions[1..]))
  }

  /**
    Over every interleaving: comments are posted, and a run is set to succeeded, only after a good check of that
    job.
   */
  lemma {:induction false} PostsOnlyAfterGoodCheck(s: Sys, actions: seq<Action>)
    requires Inv(s) && HasRun(s) && PrsExist(s, actions)
    ensures CheckedFirst(Run(s, actions).log)
    decreases |actions|
  {
    hide Next, JobOk, CheckedFirst;
    if actions != [] {
      InvKept(s, actions[0]);
      PostsOnlyAfterGoodCheck(Next(s, actions[0]), actions[1..]);
    }
  }

  /** The empty system has the invariant, whatever pull requests there are. */
  lemma {:induction false} EmptySystem(heads: map<int, int>, now: nat)
    ensures Inv(Sys(Db(map[], heads, now), [], [])) && HasRun(Sys(Db(map[], heads, now), [], []))
  {
  }

  // ---- What is not guaranteed -------------------------------------------------------------------

  /** A system just before job 0 posts its summary, its check passed. */
  function BeforeSummary(): Sys {
    Sys(Db(map[7 := Row(Running, Some(0), None, 1, 5, None)], map[5 := 1], 0), [Job(7, false, PostSummary)],
        [Checked(0, Publishable, 1, 1)])
  }

  /**
    The check is not repeated: a head move and a supersede between check and post leave a comment of a superseded
    run.
   */
  lemma {:induction false} PostAfterSupersede()
    ensures Inv(BeforeSummary()) && HasRun(BeforeSummary())
    ensures var s := Run(BeforeSummary(), [MoveHead(5, 2), SupersedeOld(5, 2), JobStep(0, Completes)]);
      && s.log == [Checked(0, Publishable, 1, 1), SummaryPosted(0)]
      && 7 in s.db.runs && 5 in s.db.heads
      && s.db.runs[7].status == Superseded && s.db.runs[7].headSha != s.db.heads[5]
  {
    var s0 := BeforeSummary();
    var s1 := Next(s0, MoveHead(5, 2));
    var s2 := Next(s1, SupersedeOld(5, 2));
    var s3 := Next(s2, JobStep(0, Completes));
    var actions := [MoveHead(5, 2), SupersedeOld(5, 2), JobStep(0, Completes)];
    RunThree(s0, actions[0], actions[1], actions[2]);
    assert GoodCheck(s0.log[0], 0);
    assert s2.db.runs[7].status == Superseded;
    assert s3.log == s0.log + [SummaryPosted(0)];
  }

  lemma {:induction false} RunThree(s: Sys, a: Action, b: Action, c: Action)
    ensures Run(s, [a, b, c]) == Next(Next(Next(s, a), b), c)
  {
    hide Next;
    assert [a, b, c][1..] == [b, c] && [b, c][1..] == [c] && [c][1..] == [];
    assert Run(s, [a, b, c]) == Run(Next(s, a), [b, c]);
    assert Run(Next(s, a), [b, c]) == Run(Next(Next(s, a), b), [c]);
  }

  /**
    The steps that supersede a live run: an outside update for another head, or the pending UPDATE of a check of
    this run.
   */
  predicate Supersedes(s: Sys, run: int, a: Action)
    requires run in s.db.runs
  {
    var row := s.db.runs[run];
    match a
    case SupersedeOld(pr, sha) =>
      pr == row.pr && sha != row.headSha && (row.status == Queued || row.status == Running)
    case JobStep(j, outcome) => Pending(s, j, outcome) && s.jobs[j].run == run
    case _ => false
  }

  /** The steps that make a publishable run unpublishable: its head moves away, or it is superseded. */
  predicate Disturbs(s: Sys, run: int, a: Action)
    requires run in s.db.runs
  {
    Supersedes(s, run, a) || (a.MoveHead? && a.pr == s.db.runs[run].pr && a.sha != s.db.runs[run].headSha)
  }

  predicate IsLive(db: Db, run: int) {
    run in db.runs && db.runs[run].pr in db.heads && db.runs[run].status != Superseded
  }

  /** Where the head of a pull request stands after the actions. */
  function HeadAfter(pr: int, head: int, actions: seq<Action>): int
    decreases |actions|
  {
    if actions == [] then head
    else HeadAfter(pr, if actions[0].MoveHead? && actions[0].pr == pr then actions[0].sha else head, actions[1..])
  }

  lemma {:induction false} MarksKeepLive(db: Db, after: Db, id: int, run: int)
    requires IsLive(db, run) && ByMark(db, after, id)
    ensures IsLive(after, run) && after.heads == db.heads
    ensures after.runs[run].headSha == db.runs[run].headSha && after.runs[run].pr == db.runs[run].pr
  {
  }

  /** What one step does to a live run and to its head. */
  lemma {:induction false} StepOnLive(s: Sys, run: int, a: Action)
    requires IsLive(s.db, run)
    ensures var db, row := Next(s, a).db, s.db.runs[run];
      && run in db.runs && db.runs[run].headSha == row.headSha && db.runs[run].pr == row.pr
      && row.pr in db.heads && db.heads[row.pr] == HeadAfter(row.pr, s.db.heads[row.pr], [a])
      && (db.runs[run].status == Superseded <==> Supersedes(s, run, a))
  {
    hide StepJob, MarkRunning, MarkSucceeded, MarkFailed;
    assert [a][1..] == [];
    if a.JobStep? && a.job < |s.jobs| {
      JobStepsByStatement(s, a.job, a.outcome);
      if !Pending(s, a.job, a.outcome) {
        MarksKeepLive(s.db, Next(s, a).db, s.jobs[a.job].run, run);
      }
    }
  }

  /** One step keeps a run publishable exactly when it does not disturb it, whichever job or party acts. */
  lemma {:induction false} StaysPublishableIff(s: Sys, run: int, a: Action)
    requires CheckOf(s.db, run) == Publishable
    ensures CheckOf(Next(s, a).db, run) == Publishable <==> !Disturbs(s, run, a)
  {
    hide Next, Supersedes;
    assert [a][1..] == [];
    StepOnLive(s, run, a);
  }

  predicate SupersededIn(s: Sys, run: int, actions: seq<Action>)
    decreases |actions|
  {
    actions != []
    && ((run in s.db.runs && Supersedes(s, run, actions[0])) || SupersededIn(Next(s, actions[0]), run, actions[1..]))
  }

  /**
    After any steps a live run is publishable exactly when none of them superseded it and its head is back, or
    still, at its commit.
   */
  lemma {:induction false} PublishableIff(s: Sys, run: int, actions: seq<Action>)
    requires IsLive(s.db, run)
    ensures CheckOf(Run(s, actions).db, run) == Publishable
       <==> !SupersededIn(s, run, actions)
            && HeadAfter(s.db.runs[run].pr, s.db.heads[s.db.runs[run].pr], actions) == s.db.runs[run].headSha
    decreases |actions|
  {
    hide Next, Supersedes;
    if actions != [] {
      var a, rest := actions[0], actions[1..];
      assert [a][1..] == [] && [a][0] == a;
      StepOnLive(s, run, a);
      if Supersedes(s, run, a) {
        RowsOverRuns(Next(s, a), rest);
      } else {
        PublishableIff(Next(s, a), run, rest);
      }
    }
  }

  /** The step adds a post for the run to the log. */
  predicate PostsFor(s: Sys, run: int, a: Action) {
    var log := Next(s, a).log;
    && |log| > |s.log| && (log[|log| - 1].InlinePosted? || log[|log| - 1].SummaryPosted?)
    && log[|log| - 1].job < |s.jobs| && s.jobs[log[|log| - 1].job].run == run
  }

  predicate IsCurrent(db: Db, run: int) {
    IsLive(db, run) && db.runs[run].headSha == db.heads[db.runs[run].pr]
  }

  /**
    A post made after `actions` have interleaved since a good check is for a live run at its current head exactly
    when none of them superseded the run and the head, if it moved, is back at the run's commit.
   */
  lemma {:induction false} PostIsCurrentIff(s: Sys, run: int, actions: seq<Action>, post: Action)
    requires CheckOf(s.db, run) == Publishable
    requires PostsFor(Run(s, actions), run, post)
    ensures IsCurrent(Run(s, actions + [post]).db, run)
       <==> !SupersededIn(s, run, actions)
            && HeadAfter(s.db.runs[run].pr, s.db.heads[s.db.runs[run].pr], actions) == s.db.runs[run].headSha
  {
    hide Next, SupersededIn, HeadAfter, PostsFor;
    PublishableIff(s, run, actions);
    RunAppend(s, actions, post);
    PostChangesNoTable(Run(s, actions), run, post);
  }

  lemma {:induction false} PostChangesNoTable(s: Sys, run: int, a: Action)
    requires PostsFor(s, run, a)
    ensures Next(s, a).db == s.db
  {
    hide MarkRunning, MarkSucceeded, MarkFailed, SupersedeRun, CheckOf, Guarded;
  }

  lemma {:induction false} RunAppend(s: Sys, actions: seq<Action>, a: Action)
    ensures Run(s, actions + [a]) == Next(Run(s, actions), a)
    decreases |actions|
  {
    hide Next;
    if actions == [] {
      assert [] + [a] == [a] && [a][1..] == [];
    } else {
      assert (actions + [a])[0] == actions[0] && (actions + [a])[1..] == actions[1..] + [a];
      RunAppend(Next(s, actions[0]), actions[1..], a);
    }
  }

  /** Undisturbed steps since the check: whatever else interleaves, the post is current. */
  predicate Undisturbed(s: Sys, run: int, actions: seq<Action>)
    decreases |actions|
  {
    actions == []
      || (run in s.db.runs && !Disturbs(s, run, actions[0]) && Undisturbed(Next(s, actions[0]), run, actions[1..]))
  }

  lemma {:induction false} UndisturbedPostsAreCurrent(s: Sys, run: int, actions: seq<Action>, post: Action)
    requires CheckOf(s.db, run) == Publishable && Undisturbed(s, run, actions)
    requires PostsFor(Run(s, actions), run, post)
    ensures IsCurrent(Run(s, actions + [post]).db, run)
    decreases |actions|
  {
    hide Next, Disturbs, PostsFor;
    RunAppend(s, actions, post);
    if actions == [] {
      PostChangesNoTable(s, run, post);
    } else {
      StaysPublishableIff(s, run, actions[0]);
      UndisturbedPostsAreCurrent(Next(s, actions[0]), run, actions[1..], post);
      RunAppend(Next(s, actions[0]), actions[1..], post);
    }
  }

  /** Two jobs of one run, both about to check while the head is elsewhere. */
  function TwoJobs(first: Pc, second: Pc, st: Status, finished: Option<nat>, code: Option<string>, head: int,
                   log: seq<Event>): Sys {
    Sys(Db(map[7 := Row(st, Some(0), finished, 1, 5, code)], map[5 := head], 0),
        [Job(7, false, first), Job(7, false, second)], log)
  }

  const FIRST := Checked(0, HeadChanged, 1, 2)
  const SECOND := Checked(1, Publishable, 1, 1)

  /** One job finds the head elsewhere; the head comes back; the other job finds the run publishable. */
  lemma {:induction false} HeadComesBack()
    ensures Run(TwoJobs(Checking, Checking, Running, None, None, 2, []),
                [JobStep(0, Completes), MoveHead(5, 1), JobStep(1, Completes)])
         == TwoJobs(Superseding, PostSummary, Running, None, None, 1, [FIRST, SECOND])
  {
    var s := TwoJobs(Checking, Checking, Running, None, None, 2, []);
    assert Next(s, JobStep(0, Completes)) == TwoJobs(Superseding, Checking, Running, None, None, 2, [FIRST]);
    RunThree(s, JobStep(0, Completes), MoveHead(5, 1), JobStep(1, Completes));
  }

  lemma {:induction false} LateUpdate()
    ensures Next(TwoJobs(Superseding, PostSummary, Running, None, None, 1, [FIRST, SECOND]), JobStep(0, Completes))
         == TwoJobs(Succeeding, PostSummary, Superseded, Some(0), Some("current_head_sha_changed"), 1, [FIRST, SECOND])
  {
  }

  /**
    A check's UPDATE after the head is back supersedes the run behind the back of another job's good check, which
    then posts.
   */
  lemma {:induction false} LateUpdateSupersedes()
    ensures var s := TwoJobs(Checking, Checking, Running, None, None, 2, []);
      var t := Run(s, [JobStep(0, Completes), MoveHead(5, 1), JobStep(1, Completes)] + [JobStep(0, Completes)]
        + [JobStep(1, Completes)]);
      && t.log == [FIRST, SECOND, SummaryPosted(1)]
      && 7 in t.db.runs && t.db.runs[7].status == Superseded
  {
    hide Run;
    var s := TwoJobs(Checking, Checking, Running, None, None, 2, []);
    var actions := [JobStep(0, Completes), MoveHead(5, 1), JobStep(1, Completes)];
    HeadComesBack();
    LateUpdate();
    RunAppend(s, actions, JobStep(0, Completes));
    RunAppend(s, actions + [JobStep(0, Completes)], JobStep(1, Completes));
  }

  /**
    A retry puts a finished run back to running with its finish time: a finish time does not mean the run has
    ended.
   */
  lemma {:induction false} FinishedRunMayRunAgain(db: Db, id: int)
    requires id in db.runs && IsTerminal(db.runs[id].status) && TerminalFinished(db)
    ensures var row := MarkRunning(db, id).runs[id];
      && row.finishedAt == db.runs[id].finishedAt && row.finishedAt.Some?
      && (row.status == Running <==> db.runs[id].status != Superseded)
  {
  }

  // ---- The store and one job, as the worker runs them --------------------------------------------

  datatype Post = InlineReview(run: int) | SummaryComment(run: int)

  /** The first point of a job that raises, if any. */
  datatype Fails = Never | InAnalysis | InCheck | InInline | InRecordInline | InSummary | InRecordSummary

  class ReviewStore {
    var runs: map<int, Row>
    var heads: map<int, int>
    var now: nat
    var posts: seq<Post>

    constructor (db: Db)
      ensures State() == db && posts == []
    {
      runs, heads, now, posts := db.runs, db.heads, db.now, [];
    }

    function State(): Db
      reads this
    {
      Db(runs, heads, now)
    }

    method SetRunning(id: int)
      modifies this`runs
      ensures State() == MarkRunning(old(State()), id)
    {
      if id in runs && runs[id].status != Superseded {
        runs :=
          runs[id := runs[id].(status := Running, startedAt := Coalesce(runs[id].startedAt, now), errorCode := None)];
      }
    }

    method SetSucceeded(id: int)
      modifies this`runs
      ensures State() == MarkSucceeded(old(State()), id)
    {
      if id in runs && runs[id].status != Superseded {
        runs := runs[id :=
          runs[id].(status := Succeeded, finishedAt := Coalesce(runs[id].finishedAt, now), errorCode := None)];
      }
    }

    method SetFailed(id: int, code: string)
      modifies this`runs
      ensures State() == MarkFailed(old(State()), id, code)
    {
      if id in runs && runs[id].status != Superseded {
        runs := runs[id :=
          runs[id].(status := Failed, finishedAt := Coalesce(runs[id].finishedAt, now), errorCode := Some(code))];
      }
    }

    method VerifyPublishable(id: int) returns (check: Check)
      modifies this`runs
      ensures check == CheckOf(old(State()), id) && State() == AfterCheck(old(State()), id)
    {
      if id !in runs || runs[id].pr !in heads {
        return RunNotFound;
      }
      var row := runs[id];
      if row.status == Superseded {
        return RunSuperseded;
      }
      if row.headSha != heads[row.pr] {
        runs := runs[id := SupersededRow(row, now, "current_head_sha_changed")];
        return HeadChanged;
      }
      return Publishable;
    }

    /** The pipeline's run: true when it returns, false when it raises. */
    method RunPipeline(id: int, hasInline: bool, fails: Fails) returns (ok: bool)
      modifies this`runs, this`posts
      ensures State() == if id in old(runs) && !(fails.InAnalysis? || fails.InCheck?)
                         then AfterCheck(old(State()), id) else old(State())
      ensures posts == old(posts) + PostsOf(old(State()), id, hasInline, fails)
      ensures ok == Returns(old(State()), id, hasInline, fails)
    {
      if id !in runs || fails.InAnalysis? || fails.InCheck? {
        return false;
      }
      var check := VerifyPublishable(id);
      if check != Publishable {
        return true;
      }
      if hasInline {
        if fails.InInline? {
          return false;
        }
        posts := posts + [InlineReview(id)];
        if fails.InRecordInline? {
          return false;
        }
      }
      if fails.InSummary? {
        return false;
      }
      posts := posts + [SummaryComment(id)];
      return !fails.InRecordSummary?;
    }

    /** `process_review_pull_request_job`, with nothing else going on. */
    method ProcessJob(id: int, hasInline: bool, fails: Fails) returns (ok: bool)
      modifies this`runs, this`posts
      ensures posts == old(posts) + PostsOf(MarkRunning(old(State()), id), id, hasInline, fails)
      ensures State() == Processed(old(State()), id, hasInline, fails)
      ensures ok == Returns(MarkRunning(old(State()), id), id, hasInline, fails)
    {
      SetRunning(id);
      ok := RunPipeline(id, hasInline, fails);
      if ok {
        SetSucceeded(id);
      } else {
        SetFailed(id, "error");
      }
    }
  }

  function PostsOf(db: Db, id: int, hasInline: bool, fails: Fails): seq<Post> {
    if CheckOf(db, id) != Publishable || fails.InAnalysis? || fails.InCheck? then []
    else
      var inline := if hasInline && !fails.InInline? then [InlineReview(id)] else [];
      var stopped := (hasInline && (fails.InInline? || fails.InRecordInline?)) || fails.InSummary?;
      inline + if stopped then [] else [SummaryComment(id)]
  }

  predicate Returns(db: Db, id: int, hasInline: bool, fails: Fails) {
    && id in db.runs && !fails.InAnalysis? && !fails.InCheck?
    && (CheckOf(db, id) == Publishable ==>
          !((hasInline && (fails.InInline? || fails.InRecordInline?)) || fails.InSummary? || fails.InRecordSummary?))
  }

  function Processed(db: Db, id: int, hasInline: bool, fails: Fails): Db {
    var running := MarkRunning(db, id);
    var checked :=
      if id in running.runs && !fails.InAnalysis? && !fails.InCheck? then AfterCheck(running, id) else running;
    if Returns(running, id, hasInline, fails) then MarkSucceeded(checked, id) else MarkFailed(checked, id, "error")
  }

  /** How a job that is alone ends, in terms of the run it finds. */
  lemma {:induction false} JobAloneEnds(db: Db, id: int, hasInline: bool, fails: Fails)
    requires id in db.runs && db.runs[id].pr in db.heads
    ensures var row, end := db.runs[id], Processed(db, id, hasInline, fails).runs[id];
      var current := row.status != Superseded && row.headSha == db.heads[row.pr];
      && (end.status == Superseded <==>
            row.status == Superseded || (row.headSha != db.heads[row.pr] && !fails.InAnalysis? && !fails.InCheck?))
      && (end.status == Succeeded <==> current && Returns(MarkRunning(db, id), id, hasInline, fails))
      && (end.status != Superseded && end.status != Succeeded ==> end.status == Failed)
      && end.finishedAt.Some? == (row.finishedAt.Some? || row.status != Superseded)
  {
  }
}
