/**
  What one scan does when nothing else goes on: whether it is skipped, and
  otherwise the exact tables it leaves; and the rows of scan runs over every
  interleaving.
 */
module ScanRuns {
  import opened Basics
  import opened FindingLifecycle

  /** Another scan of the repository and the commit has succeeded. */
  predicate ScannedBefore(db: Db, job: Job) {
    exists id | id in db.scans ::
      && id != job.scan && db.scans[id].repo == job.repo && db.scans[id].commit == job.commit
      && db.scans[id].status == Succeeded
  }

  function Stamp(t: Option<nat>, now: nat): Option<nat> {
    if t.Some? then t else Some(now)
  }

  lemma {:induction false} OneStep(s: Sys, j: nat, n: nat)
    requires j < |s.jobs|
    ensures Times(s, j, n + 1) == Times(StepJob(s, j, false), j, n) && Times(s, j, 0) == s
  {
  }

  lemma {:induction false} TwoSteps(s: Sys, j: nat)
    requires j < |s.jobs|
    ensures Times(s, j, 2) == StepJob(StepJob(s, j, false), j, false)
  {
    hide StepJob;
    OneStep(s, j, 1);
    OneStep(StepJob(s, j, false), j, 0);
  }

  /** A scan of a commit that was scanned before ends superseded and touches no finding. */
  lemma {:induction false} SkippedAlone(s: Sys, j: nat)
    requires j < |s.jobs| && s.jobs[j].pc == Begin && s.jobs[j].scan in s.db.scans && ScannedBefore(s.db, s.jobs[j])
    ensures var t, job := Times(s, j, 2), s.jobs[j];
      && t.jobs[j].pc == Skipped && t.db.findings == s.db.findings && t.db.now == s.db.now
      && t.db.scans == s.db.scans[job.scan :=
           Scan(s.db.scans[job.scan].repo, job.commit, Superseded, s.db.scans[job.scan].startedAt,
                Stamp(s.db.scans[job.scan].finishedAt, s.db.now))]
  {
    hide Times, Upsert, Sweep;
    TwoSteps(s, j);
  }

  lemma {:induction false} UpsertsAlone(before: Db, s: Sys, j: nat, m: nat)
    requires j < |s.jobs| && s.jobs[j].pc == Upserting(m) && m <= |s.jobs[j].observed|
    requires Upserted(before, s.db, s.jobs[j].repo, s.jobs[j].observed[..m], s.jobs[j].scan)
    ensures var t, job := Times(s, j, |s.jobs[j].observed| - m), s.jobs[j];
      && t.jobs == s.jobs[j := job.(pc := Upserting(|job.observed|))]
      && Upserted(before, t.db, job.repo, job.observed, job.scan)
    decreases |s.jobs[j].observed| - m
  {
    hide Upserted, Upsert, Sweep, HasSuccessfulScan;
    var job := s.jobs[j];
    if m < |job.observed| {
      var t := StepJob(s, j, false);
      assert t == Sys(Upsert(s.db, FindingKey(job.repo, job.observed[m]), job.scan),
                      s.jobs[j := job.(pc := Upserting(m + 1))]);
      UpsertedStep(before, s.db, job.repo, job.observed[..m], job.observed[m], job.scan);
      assert job.observed[..m] + [job.observed[m]] == job.observed[..m + 1];
      OneStep(s, j, |job.observed| - m - 1);
      UpsertsAlone(before, t, j, m + 1);
    } else {
      assert job.observed[..m] == job.observed;
    }
  }

  lemma {:induction false} StartsAlone(s: Sys, j: nat)
    requires j < |s.jobs| && s.jobs[j].pc == Begin && s.jobs[j].scan in s.db.scans && !ScannedBefore(s.db, s.jobs[j])
    ensures var t, job := Times(s, j, 2), s.jobs[j];
      && t.jobs == s.jobs[j := job.(pc := Upserting(0))] && t.db.findings == s.db.findings && t.db.now == s.db.now
      && t.db.scans == s.db.scans[job.scan :=
           Scan(s.db.scans[job.scan].repo, job.commit, Running, Stamp(s.db.scans[job.scan].startedAt, s.db.now),
                s.db.scans[job.scan].finishedAt)]
  {
    hide Times, Upsert, Sweep;
    TwoSteps(s, j);
  }

  lemma {:induction false} EndsAlone(s: Sys, j: nat)
    requires j < |s.jobs| && s.jobs[j].pc == Upserting(|s.jobs[j].observed|) && s.jobs[j].scan in s.db.scans
    requires s.db.scans[s.jobs[j].scan].repo == s.jobs[j].repo
    ensures var t, job := Times(s, j, 4), s.jobs[j];
      var marked := ScanEnds(s.db, job.scan, Succeeded);
      && t.jobs == s.jobs[j := job.(pc := Completed)]
      && t.db == ScanEnds(ResolveStale(marked, job.scan, job.repo, job.observed), job.scan, Succeeded)
  {
    hide Upsert, Sweep, Times, HasSuccessfulScan;
    TwoSteps(s, j);
    TwoSteps(Times(s, j, 2), j);
    TimesAdd(s, j, 2, 2);
  }

  /**
    A scan that is alone completes exactly if its commit was not scanned before; it then leaves every finding as a
    scan does and its own row succeeded.
   */
  lemma {:induction false} CompletesAlone(s: Sys, j: nat)
    requires j < |s.jobs| && s.jobs[j].pc == Begin && s.jobs[j].scan in s.db.scans && !ScannedBefore(s.db, s.jobs[j])
    requires s.db.scans[s.jobs[j].scan].repo == s.jobs[j].repo
    ensures var t, job := Times(s, j, 2 + |s.jobs[j].observed| + 4), s.jobs[j];
      && t.jobs == s.jobs[j := job.(pc := Completed)] && t.db.now == s.db.now
      && Scanned(s.db, t.db, job.repo, job.observed, job.scan)
      && t.db.scans == s.db.scans[job.scan :=
           Scan(job.repo, job.commit, Succeeded, Stamp(s.db.scans[job.scan].startedAt, s.db.now),
                Stamp(s.db.scans[job.scan].finishedAt, s.db.now))]
  {
    hide StepJob, Times, Upserted, Scanned, ResolveStale, ScannedBefore;
    var job := s.jobs[j];
    StartsAlone(s, j);
    var t := Times(s, j, 2);
    NothingUpserted(t.db, job.repo, job.scan);
    assert job.observed[..0] == [];
    UpsertsAlone(t.db, t, j, 0);
    TimesAdd(s, j, 2, |job.observed|);
    var u := Times(t, j, |job.observed|);
    UpsertedScans(t.db, u.db, job.repo, job.observed, job.scan);
    RecordedRight(t.db, u.db, job.scan, job.repo, job.observed);
    EndsAlone(u, j);
    TimesAdd(s, j, 2 + |job.observed|, 4);
    ScannedSame(s.db, t.db, Times(u, j, 4).db, job.repo, job.observed, job.scan);
  }

  lemma {:induction false} UpsertedScans(before: Db, after: Db, repo: int, observed: seq<string>, scan: int)
    requires Upserted(before, after, repo, observed, scan)
    ensures after.scans == before.scans && after.now == before.now
  {
  }

  lemma {:induction false} ScannedSame(before: Db, db: Db, end: Db, repo: int, observed: seq<string>, scan: int)
    requires before.findings == db.findings && before.now == db.now && Scanned(db, end, repo, observed, scan)
    ensures Scanned(before, end, repo, observed, scan)
  {
  }

  /** Which of the two happens. */
  lemma {:induction false} SkippedIff(s: Sys, j: nat)
    requires j < |s.jobs| && s.jobs[j].pc == Begin && s.jobs[j].scan in s.db.scans
    ensures Times(s, j, 2).jobs[j].pc == Skipped <==> ScannedBefore(s.db, s.jobs[j])
  {
    hide Times, ScannedBefore;
    if ScannedBefore(s.db, s.jobs[j]) {
      SkippedAlone(s, j);
    } else {
      StartsAlone(s, j);
    }
  }

  /** After a scan that was alone and completed, another scan of the same commit is skipped. */
  lemma {:induction false} SecondScanIsSkipped(s: Sys, i: nat, j: nat)
    requires i < |s.jobs| && j < |s.jobs| && i != j && s.jobs[i].pc == Begin && s.jobs[j].pc == Begin
    requires s.jobs[i].scan in s.db.scans && s.jobs[j].scan in s.db.scans && s.jobs[i].scan != s.jobs[j].scan
    requires s.db.scans[s.jobs[i].scan].repo == s.jobs[i].repo == s.jobs[j].repo && s.jobs[i].commit == s.jobs[j].commit
    requires !ScannedBefore(s.db, s.jobs[i])
    ensures var t := Times(s, i, 2 + |s.jobs[i].observed| + 4);
      t.jobs[i].pc == Completed && Times(t, j, 2).jobs[j].pc == Skipped
  {
    hide Times, Scanned;
    CompletesAlone(s, i);
    var t := Times(s, i, 2 + |s.jobs[i].observed| + 4);
    assert s.jobs[i].scan in t.db.scans;
    SkippedIff(t, j);
  }

  /** A step that raises leads to a failed scan run; what was upserted before stays. */
  lemma {:induction false} RaisingFails(s: Sys, j: nat)
    requires j < |s.jobs| && s.jobs[j].scan in s.db.scans
    requires !(s.jobs[j].pc in {Completed, Skipped, Ended, Failing})
    ensures var t, row := StepJob(StepJob(s, j, true), j, false), s.db.scans[s.jobs[j].scan];
      && t.jobs[j].pc == Ended && t.db.findings == s.db.findings
      && t.db.scans == s.db.scans[s.jobs[j].scan :=
           Scan(row.repo, row.commit, Failed, row.startedAt, Stamp(row.finishedAt, s.db.now))]
  {
    hide Upsert, Sweep, HasSuccessfulScan;
  }

  /** Findings are resolved as stale for a scan run of the repository that has succeeded, and for no other. */
  lemma {:induction false} ResolvesOnlyAfterSuccess(db: Db, scan: int, repo: int, observed: seq<string>)
    ensures var after := ResolveStale(db, scan, repo, observed);
      && after.scans == db.scans && after.findings.Keys == db.findings.Keys
      && forall k | k in db.findings ::
           var f := db.findings[k];
           after.findings[k]
           == if scan in db.scans && db.scans[scan].repo == repo && db.scans[scan].status == Succeeded
                 && k.repo == repo && f.status == Open && k.key !in observed
              then Finding(Resolved, f.scan, f.lastSeen, Some(db.now)) else f
  {
  }

  /** A user sets the status of one finding; the time of resolution is now if resolved, and none otherwise. */
  lemma {:induction false} UserSetsOne(db: Db, k: FindingKey, st: FindingStatus)
    ensures k !in db.findings ==> UserSets(db, k, st) == db
    ensures k in db.findings ==>
              UserSets(db, k, st)
              == Db(db.findings[k := Finding(st, db.findings[k].scan, db.findings[k].lastSeen,
                                             if st == Resolved then Some(db.now) else None)],
                    db.scans, db.now)
  {
  }

  // ---- The rows of scan runs over every interleaving -------------------------------------------

  predicate InOrder(first: Option<nat>, second: Option<nat>) {
    first.Some? && second.Some? ==> first.value <= second.value
  }

  /** What goes with the status of a scan run. */
  predicate ScanOk(row: Scan, now: nat) {
    && InOrder(row.startedAt, Some(now)) && InOrder(row.finishedAt, Some(now))
    && match row.status
       case Queued => row.startedAt.None? && row.finishedAt.None?
       case Running => row.startedAt.Some?
       case Succeeded => row.startedAt.Some? && row.finishedAt.Some?
       case Failed => row.finishedAt.Some?
       case Superseded => row.finishedAt.Some?
  }

  predicate ScansOk(db: Db) {
    forall id | id in db.scans :: ScanOk(db.scans[id], db.now)
  }

  /** The job is between marking its scan running and its end. */
  predicate InProgress(pc: Pc) {
    pc.Upserting? || pc == Resolving || pc == Sweeping || pc == Confirming
  }

  predicate ScanStarted(db: Db, job: Job) {
    job.scan in db.scans && (InProgress(job.pc) ==> db.scans[job.scan].startedAt.Some?)
  }

  predicate ScanInv(s: Sys) {
    ScansOk(s.db) && forall j | 0 <= j < |s.jobs| :: ScanStarted(s.db, s.jobs[j])
  }

  /** By the columns each UPDATE sets. */
  function WrittenScan(row: Scan, job: Job, raises: bool, now: nat): Scan {
    if raises then row
    else match job.pc
      case Skipping => Scan(row.repo, job.commit, Superseded, row.startedAt, Stamp(row.finishedAt, now))
      case Starting => Scan(row.repo, job.commit, Running, Stamp(row.startedAt, now), row.finishedAt)
      case Upserting(n) =>
        if n < |job.observed| then row
        else Scan(row.repo, row.commit, Succeeded, row.startedAt, Stamp(row.finishedAt, now))
      case Confirming => Scan(row.repo, row.commit, Succeeded, row.startedAt, Stamp(row.finishedAt, now))
      case Failing => Scan(row.repo, row.commit, Failed, row.startedAt, Stamp(row.finishedAt, now))
      case _ => row
  }

  lemma {:induction false} WhatAScanStepWrites(s: Sys, j: nat, raises: bool)
    requires j < |s.jobs| && s.jobs[j].scan in s.db.scans
    ensures var t, id := StepJob(s, j, raises), s.jobs[j].scan;
      && t.db.now == s.db.now
      && t.db.scans == s.db.scans[id := WrittenScan(s.db.scans[id], s.jobs[j], raises, s.db.now)]
  {
    hide Sweep, HasSuccessfulScan;
    UpsertKeepsClock(s.db, s.jobs[j]);
    var id := s.jobs[j].scan;
    assert s.db.scans[id := s.db.scans[id]] == s.db.scans;
    KeepsScans(s.db, s.jobs[j]);
  }

  lemma {:induction false} KeepsScans(db: Db, job: Job)
    ensures Sweep(db, job.repo, job.observed).scans == db.scans
    ensures forall k: FindingKey :: Upsert(db, k, job.scan).scans == db.scans
  {
  }

  /** Only a job that has just marked its scan running gets in progress. */
  lemma {:induction false} ProgressStep(s: Sys, j: nat, raises: bool)
    requires j < |s.jobs| && InProgress(StepJob(s, j, raises).jobs[j].pc)
    ensures InProgress(s.jobs[j].pc) || (s.jobs[j].pc == Starting && !raises)
  {
    hide Upsert, Sweep, HasSuccessfulScan, ScanEnds, ScanRunning, ScanSuperseded;
  }

  lemma {:induction false} WrittenScanOk(row: Scan, job: Job, raises: bool, now: nat)
    requires ScanOk(row, now) && (InProgress(job.pc) ==> row.startedAt.Some?)
    ensures ScanOk(WrittenScan(row, job, raises, now), now)
    ensures row.startedAt.Some? ==> WrittenScan(row, job, raises, now).startedAt == row.startedAt
    ensures job.pc == Starting && !raises ==> WrittenScan(row, job, raises, now).startedAt.Some?
  {
  }

  lemma {:induction false} StepKeepsScans(s: Sys, j: nat, raises: bool)
    requires j < |s.jobs| && ScanInv(s)
    ensures ScanInv(StepJob(s, j, raises))
  {
    hide StepJob, WrittenScan, ScanOk, InProgress;
    var t, job := StepJob(s, j, raises), s.jobs[j];
    assert ScanStarted(s.db, job);
    WhatAScanStepWrites(s, j, raises);
    WrittenScanOk(s.db.scans[job.scan], job, raises, s.db.now);
    JobStepsByStatement(s, j, raises);
    if InProgress(t.jobs[j].pc) {
      ProgressStep(s, j, raises);
    }
    forall i | 0 <= i < |t.jobs| ensures ScanStarted(t.db, t.jobs[i]) {
      assert ScanStarted(s.db, s.jobs[i]);
    }
  }

  /** Scans are enqueued for scan runs that exist by then. */
  predicate ScanRunsExist(s: Sys, actions: seq<Action>)
    decreases |actions|
  {
    actions == []
    || ((actions[0].Enqueue? ==> actions[0].scan in s.db.scans) && ScanRunsExist(Next(s, actions[0]), actions[1..]))
  }

  lemma {:induction false} ScanInvKept(s: Sys, a: Action)
    requires ScanInv(s) && (a.Enqueue? ==> a.scan in s.db.scans)
    ensures ScanInv(Next(s, a))
  {
    hide StepJob;
    match a {
      case Step(j, raises) =>
        if j < |s.jobs| {
          StepKeepsScans(s, j, raises);
        }
      case _ =>
        var t := Next(s, a);
        forall i | 0 <= i < |t.jobs| ensures ScanStarted(t.db, t.jobs[i]) {
          assert i < |s.jobs| ==> ScanStarted(s.db, s.jobs[i]);
        }
    }
  }

  /** Over every interleaving each scan run has the time stamps that go with its status. */
  lemma {:induction false} ScanRowsOverRuns(s: Sys, actions: seq<Action>)
    requires ScanInv(s) && ScanRunsExist(s, actions)
    ensures ScanInv(Run(s, actions))
    decreases |actions|
  {
    hide Next, ScanInv;
    if actions != [] {
      ScanInvKept(s, actions[0]);
      ScanRowsOverRuns(Next(s, actions[0]), actions[1..]);
    }
  }
}
