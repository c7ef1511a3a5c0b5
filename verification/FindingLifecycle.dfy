/**
  The life of codebase scan findings: the worker's statements
  (`upsert_finding`, `resolve_stale_findings`, the scan run updates), the order of
  steps of a scan, and the dashboard user who changes a finding's status.  Every
  statement is one atomic step on the two tables.
 */
module FindingLifecycle {
  import opened Basics

  datatype FindingStatus = Open | Resolved | Suppressed | FalsePositive

  /** The unique key of a finding: its repository and its dedupe key. */
  datatype FindingKey = FindingKey(repo: int, key: string)

  datatype Finding = Finding(status: FindingStatus, scan: int, lastSeen: nat, resolvedAt: Option<nat>)

  datatype ScanStatus = Queued | Running | Succeeded | Failed | Superseded

  datatype Scan = Scan(repo: int, commit: string, status: ScanStatus, startedAt: Option<nat>, finishedAt: Option<nat>)

  datatype Db = Db(findings: map<FindingKey, Finding>, scans: map<int, Scan>, now: nat)

  predicate Muted(st: FindingStatus) {
    st == Suppressed || st == FalsePositive
  }

  function Coalesce(t: Option<nat>, now: nat): Option<nat> {
    if t.Some? then t else Some(now)
  }

  // ---- The statements -----------------------------------------------------------

  /** INSERT ... ON CONFLICT DO UPDATE: a muted finding keeps its status and its resolution time. */
  function UpsertedRow(db: Db, k: FindingKey, scan: int): Finding {
    if k in db.findings && Muted(db.findings[k].status)
    then db.findings[k].(scan := scan, lastSeen := db.now)
    else Finding(Open, scan, db.now, None)
  }

  function Upsert(db: Db, k: FindingKey, scan: int): Db {
    db.(findings := db.findings[k := UpsertedRow(db, k, scan)])
  }

  predicate IsStale(k: FindingKey, f: Finding, repo: int, observed: seq<string>) {
    k.repo == repo && f.status == Open && k.key !in observed
  }

  predicate MayResolve(db: Db, scan: int, repo: int) {
    scan in db.scans && db.scans[scan].repo == repo && db.scans[scan].status == Succeeded
  }

  /** The UPDATE of resolve_stale_findings. */
  function Sweep(db: Db, repo: int, observed: seq<string>): Db {
    db.(findings := map k | k in db.findings ::
          if IsStale(k, db.findings[k], repo, observed)
          then db.findings[k].(status := Resolved, resolvedAt := Some(db.now)) else db.findings[k])
  }

  /** The SELECT of the scan's status and, if it has succeeded, the UPDATE, with nothing in between. */
  function ResolveStale(db: Db, scan: int, repo: int, observed: seq<string>): Db {
    if MayResolve(db, scan, repo) then Sweep(db, repo, observed) else db
  }

  function SetScan(db: Db, id: int, scan: Scan): Db {
    db.(scans := db.scans[id := scan])
  }

  function ScanRunning(db: Db, id: int, commit: string): Db {
    if id !in db.scans then db
    else SetScan(db, id,
      db.scans[id].(status := Running, commit := commit, startedAt := Coalesce(db.scans[id].startedAt, db.now)))
  }

  function ScanEnds(db: Db, id: int, st: ScanStatus): Db {
    if id !in db.scans then db
    else SetScan(db, id, db.scans[id].(status := st, finishedAt := Coalesce(db.scans[id].finishedAt, db.now)))
  }

  function ScanSuperseded(db: Db, id: int, commit: string): Db {
    if id !in db.scans then db
    else SetScan(db, id, db.scans[id].(status := Superseded, commit := commit,
                                       finishedAt := Coalesce(db.scans[id].finishedAt, db.now)))
  }

  predicate HasSuccessfulScan(db: Db, repo: int, commit: string, scan: int) {
    exists id | id in db.scans ::
      id != scan && db.scans[id].repo == repo && db.scans[id].commit == commit && db.scans[id].status == Succeeded
  }

  /** The dashboard's update: the resolution time is set with 'resolved' and cleared otherwise. */
  function UserSets(db: Db, k: FindingKey, st: FindingStatus): Db {
    if k !in db.findings then db
    else db.(findings :=
      db.findings[k := db.findings[k].(status := st, resolvedAt := if st == Resolved then Some(db.now) else None)])
  }

  // ---- Scans and their interleavings ------------------------------------------------

  /**
    Upserting(n) stands before the n-th upsert, and behind the last one before the first success update;
    Resolving before the SELECT of resolve_stale_findings, Sweeping before its UPDATE.
   */
  datatype Pc =
    | Begin | Skipping | Starting | Upserting(n: nat) | Resolving | Sweeping | Confirming
    | Failing | Completed | Skipped | Ended

  datatype Job = Job(scan: int, repo: int, commit: string, observed: seq<string>, pc: Pc)

  datatype Sys = Sys(db: Db, jobs: seq<Job>)

  datatype Action =
    | Step(job: nat, raises: bool)
    | Enqueue(scan: int, repo: int, commit: string, observed: seq<string>)
    | CreateScan(scan: int, repo: int, commit: string)
    | UserAction(k: FindingKey, st: FindingStatus)
    | Tick

  function Goto(s: Sys, j: nat, pc: Pc): Sys
    requires j < |s.jobs|
  {
    s.(jobs := s.jobs[j := s.jobs[j].(pc := pc)])
  }

  /** One step of a scan, in the order of the pipeline's run; an exception leads to mark_failed. */
  function StepJob(s: Sys, j: nat, raises: bool): (t: Sys)
    requires j < |s.jobs|
    ensures |t.jobs| == |s.jobs|
  {
    var job := s.jobs[j];
    if job.pc.Completed? || job.pc.Skipped? || job.pc.Ended? then s
    else if raises then Goto(s, j, if job.pc.Failing? then Ended else Failing)
    else match job.pc
      case Begin =>
        Goto(s, j, if HasSuccessfulScan(s.db, job.repo, job.commit, job.scan) then Skipping else Starting)
      case Skipping => Goto(s.(db := ScanSuperseded(s.db, job.scan, job.commit)), j, Skipped)
      case Starting => Goto(s.(db := ScanRunning(s.db, job.scan, job.commit)), j, Upserting(0))
      case Upserting(n) =>
        if n < |job.observed|
        then Goto(s.(db := Upsert(s.db, FindingKey(job.repo, job.observed[n]), job.scan)), j, Upserting(n + 1))
        else Goto(s.(db := ScanEnds(s.db, job.scan, Succeeded)), j, Resolving)
      case Resolving => Goto(s, j, if MayResolve(s.db, job.scan, job.repo) then Sweeping else Confirming)
      case Sweeping => Goto(s.(db := Sweep(s.db, job.repo, job.observed)), j, Confirming)
      case Confirming => Goto(s.(db := ScanEnds(s.db, job.scan, Succeeded)), j, Completed)
      case Failing => Goto(s.(db := ScanEnds(s.db, job.scan, Failed)), j, Ended)
      case _ => s
  }

  function Next(s: Sys, a: Action): Sys {
    match a
    case Step(j, raises) => if j < |s.jobs| then StepJob(s, j, raises) else s
    case Enqueue(scan, repo, commit, observed) => s.(jobs := s.jobs + [Job(scan, repo, commit, observed, Begin)])
    case CreateScan(scan, repo, commit) =>
      if scan in s.db.scans then s else s.(db := SetScan(s.db, scan, Scan(repo, commit, Queued, None, None)))
    case UserAction(k, st) => s.(db := UserSets(s.db, k, st))
    case Tick => s.(db := s.db.(now := s.db.now + 1))
  }

  function Run(s: Sys, actions: seq<Action>): Sys
    decreases |actions|
  {
    if actions == [] then s else Run(Next(s, actions[0]), actions[1..])
  }

  // ---- What holds under every interleaving --------------------------------------------------

  /** A row has a resolution time exactly when it is resolved; so no open row has one. */
  predicate ResolutionTimed(db: Db) {
    forall k | k in db.findings :: db.findings[k].resolvedAt.Some? <==> db.findings[k].status == Resolved
  }

  lemma {:induction false} StatementsKeepTimes(db: Db, k: FindingKey, scan: int, repo: int, observed: seq<string>,
                                               st: FindingStatus)
    requires ResolutionTimed(db)
    ensures ResolutionTimed(Upsert(db, k, scan)) && ResolutionTimed(UserSets(db, k, st))
    ensures ResolutionTimed(Sweep(db, repo, observed))
  {
  }

  /** What a worker step may not do: touch another repository, or change a muted finding's status. */
  predicate WorkerKeeps(before: Db, after: Db, repo: int) {
    forall k | k in before.findings ::
      && k in after.findings
      && (k.repo != repo ==> after.findings[k] == before.findings[k])
      && (Muted(before.findings[k].status) ==> after.findings[k].status == before.findings[k].status
                                               && after.findings[k].resolvedAt == before.findings[k].resolvedAt)
  }

  predicate OnlyRepo(before: Db, after: Db, repo: int) {
    forall k | k in after.findings && k !in before.findings :: k.repo == repo
  }

  /** Which statement a job step is. */
  predicate ByStatement(before: Db, after: Db, job: Job) {
    || after.findings == before.findings
    || (exists n | 0 <= n < |job.observed| :: after == Upsert(before, FindingKey(job.repo, job.observed[n]), job.scan))
    || after == Sweep(before, job.repo, job.observed)
  }

  lemma {:induction false} JobStepsByStatement(s: Sys, j: nat, raises: bool)
    requires j < |s.jobs|
    ensures ByStatement(s.db, StepJob(s, j, raises).db, s.jobs[j])
    ensures |StepJob(s, j, raises).jobs| == |s.jobs|
    ensures forall k | 0 <= k < |s.jobs| && k != j :: StepJob(s, j, raises).jobs[k] == s.jobs[k]
    ensures StepJob(s, j, raises).jobs[j] == s.jobs[j].(pc := StepJob(s, j, raises).jobs[j].pc)
    ensures StepJob(s, j, raises).db.now == s.db.now
  {
    hide Upsert, Sweep, HasSuccessfulScan;
    UpsertKeepsClock(s.db, s.jobs[j]);
  }

  lemma {:induction false} UpsertKeepsClock(db: Db, job: Job)
    ensures forall k: FindingKey :: Upsert(db, k, job.scan).now == db.now
    ensures Sweep(db, job.repo, job.observed).now == db.now
  {
  }

  /** No worker step changes a muted status or a row of another repository, under any interleaving. */
  lemma {:induction false} WorkerStepsKeep(s: Sys, j: nat, raises: bool)
    requires j < |s.jobs|
    ensures WorkerKeeps(s.db, StepJob(s, j, raises).db, s.jobs[j].repo)
    ensures OnlyRepo(s.db, StepJob(s, j, raises).db, s.jobs[j].repo)
    ensures ResolutionTimed(s.db) ==> ResolutionTimed(StepJob(s, j, raises).db)
  {
    hide StepJob;
    JobStepsByStatement(s, j, raises);
  }

  /** Over every run of the system, users included, resolution times go with 'resolved'. */
  lemma {:induction false} TimesOverRuns(s: Sys, actions: seq<Action>)
    requires ResolutionTimed(s.db)
    ensures ResolutionTimed(Run(s, actions).db)
    decreases |actions|
  {
    hide StepJob, ResolutionTimed;
    if actions != [] {
      var a := actions[0];
      match a {
        case Step(j, raises) =>
          if j < |s.jobs| {
            WorkerStepsKeep(s, j, raises);
          }
        case UserAction(k, st) => StatementsKeepTimes(s.db, k, 0, 0, [], st);
        case _ => SameFindings(s.db, Next(s, a).db);
      }
      TimesOverRuns(Next(s, a), actions[1..]);
    }
  }

  lemma {:induction false} SameFindings(a: Db, b: Db)
    requires a.findings == b.findings && ResolutionTimed(a)
    ensures ResolutionTimed(b)
  {
  }

  // ---- What a completed scan leaves open --------------------------------------------------------

  /** The observed keys the job has upserted so far. */
  function Seen(job: Job): seq<string> {
    match job.pc
    case Upserting(n) => if n <= |job.observed| then job.observed[..n] else job.observed
    case Resolving => job.observed
    case Sweeping => job.observed
    case Confirming => job.observed
    case Completed => job.observed
    case _ => []
  }

  /** The observed keys the job has still to upsert. */
  function Coming(job: Job): seq<string> {
    if job.pc.Upserting? && job.pc.n <= |job.observed| then job.observed[job.pc.n..] else []
  }

  /** The job has upserted the key for the last time. */
  predicate Settled(job: Job, key: string) {
    key in Seen(job) && key !in Coming(job)
  }

  /** The job has swept what it did not observe. */
  predicate Swept(job: Job) {
    job.pc.Confirming? || job.pc.Completed?
  }

  /**
    The dashboard actions the scan does not repair: resolving an observed finding after its last upsert, and
    opening a finding that was not observed after the sweep.
   */
  predicate Harms(s: Sys, j: nat, k: FindingKey, st: FindingStatus)
    requires j < |s.jobs|
  {
    && k in s.db.findings
    && if k.key in s.jobs[j].observed then st == Resolved && Settled(s.jobs[j], k.key)
       else st == Open && Swept(s.jobs[j])
  }

  /**
    Users do no harm to the finding `k`, and other scans of the repository agree with job `j` on whether it is
    observed.
   */
  predicate NoInterference(s: Sys, j: nat, k: FindingKey, a: Action)
    requires j < |s.jobs|
  {
    match a
    case Step(i, _) => i < |s.jobs| && i != j ==> Agrees(s.jobs[i], s.jobs[j], k)
    case UserAction(u, st) => u == k ==> !Harms(s, j, k, st)
    case _ => true
  }

  predicate Agrees(other: Job, job: Job, k: FindingKey) {
    other.scan != job.scan && (other.repo == job.repo ==> (k.key in other.observed <==> k.key in job.observed))
  }

  predicate NoInterferenceIn(s: Sys, j: nat, k: FindingKey, actions: seq<Action>)
    requires j < |s.jobs|
    decreases |actions|
  {
    actions == [] || (NoInterference(s, j, k, actions[0]) && j < |Next(s, actions[0]).jobs|
                      && NoInterferenceIn(Next(s, actions[0]), j, k, actions[1..]))
  }

  lemma {:induction false} SeenIsObserved(job: Job, key: string)
    ensures key in Seen(job) ==> key in job.observed
  {
  }

  /** What is true of the finding `k` at each point of the job. */
  predicate Progress(s: Sys, j: nat, k: FindingKey)
    requires j < |s.jobs|
  {
    var job := s.jobs[j];
    && (job.pc.Upserting? ==> job.pc.n <= |job.observed|)
    && (job.scan in s.db.scans && s.db.scans[job.scan].repo == job.repo)
    && (job.pc.Resolving? ==> s.db.scans[job.scan].status == Succeeded)
    && (Settled(job, k.key) ==> k in s.db.findings && s.db.findings[k].status != Resolved)
    && (Swept(job) && k.key !in job.observed && k in s.db.findings ==> s.db.findings[k].status != Open)
  }

  /** Only the last upsert of a key settles it. */
  lemma {:induction false} SettledStep(s: Sys, j: nat, key: string, raises: bool)
    requires j < |s.jobs| && Settled(StepJob(s, j, raises).jobs[j], key)
    ensures var job := s.jobs[j];
      Settled(job, key) || (job.pc.Upserting? && !raises && job.pc.n < |job.observed| && job.observed[job.pc.n] == key)
  {
    hide HasSuccessfulScan, Upsert, Sweep, ScanEnds, ScanRunning, ScanSuperseded;
    if s.jobs[j].pc.Upserting? && !raises {
      SettledByUpsert(s.jobs[j], key);
      hide Settled;
    }
  }

  lemma {:induction false} SettledByUpsert(job: Job, key: string)
    requires job.pc.Upserting?
    ensures job.pc.n < |job.observed| && Settled(job.(pc := Upserting(job.pc.n + 1)), key) ==>
              Settled(job, key) || job.observed[job.pc.n] == key
    ensures job.pc.n >= |job.observed| && Settled(job.(pc := Resolving), key) ==> Settled(job, key)
  {
    var n := job.pc.n;
    if n < |job.observed| {
      assert job.observed[..n + 1] == job.observed[..n] + [job.observed[n]];
      assert job.observed[n..] == [job.observed[n]] + job.observed[n + 1..];
    } else if n == |job.observed| {
      assert job.observed[..n] == job.observed;
    }
  }

  lemma {:induction false} OwnStepProgress(s: Sys, j: nat, k: FindingKey, raises: bool)
    requires j < |s.jobs| && Progress(s, j, k) && k.repo == s.jobs[j].repo
    ensures Progress(StepJob(s, j, raises), j, k)
  {
    hide HasSuccessfulScan, Settled;
    var job := s.jobs[j];
    if Settled(StepJob(s, j, raises).jobs[j], k.key) {
      SettledStep(s, j, k.key, raises);
      SettledWasObserved(job, k.key);
    }
  }

  lemma {:induction false} SettledWasObserved(job: Job, key: string)
    ensures Settled(job, key) ==> key in job.observed
    ensures job.pc.Completed? ==> (Settled(job, key) <==> key in job.observed)
  {
  }

  lemma {:induction false} ForeignScan(s: Sys, i: nat, raises: bool, scan: int)
    requires i < |s.jobs| && s.jobs[i].scan != scan && scan in s.db.scans
    ensures scan in StepJob(s, i, raises).db.scans && StepJob(s, i, raises).db.scans[scan] == s.db.scans[scan]
  {
    hide HasSuccessfulScan;
  }

  /** What a statement of a scan does to a finding of another repository, or to one it observes, or does not. */
  lemma {:induction false} AgreeingStatement(before: Db, after: Db, other: Job, k: FindingKey)
    requires ByStatement(before, after, other)
    ensures k.repo != other.repo || k.key in other.observed ==>
              (k in before.findings && before.findings[k].status != Resolved ==>
                 k in after.findings && after.findings[k].status != Resolved)
    ensures k.repo != other.repo || k.key !in other.observed ==>
              (k in after.findings && after.findings[k].status == Open ==>
                 k in before.findings && before.findings[k].status == Open)
  {
  }

  lemma {:induction false} OtherStepProgress(s: Sys, j: nat, k: FindingKey, a: Action)
    requires j < |s.jobs| && Progress(s, j, k) && k.repo == s.jobs[j].repo
    requires NoInterference(s, j, k, a) && (a.Step? ==> a.job != j)
    ensures j < |Next(s, a).jobs| && Next(s, a).jobs[j] == s.jobs[j] && Progress(Next(s, a), j, k)
  {
    hide StepJob, Seen;
    match a {
      case Step(i, raises) =>
        if i < |s.jobs| {
          JobStepsByStatement(s, i, raises);
          WorkerStepsKeep(s, i, raises);
          ForeignScan(s, i, raises, s.jobs[j].scan);
          AgreeingStatement(s.db, Next(s, a).db, s.jobs[i], k);
          SeenIsObserved(s.jobs[j], k.key);
        }
      case UserAction(u, st) => SeenIsObserved(s.jobs[j], k.key);
      case _ =>
    }
  }

  lemma {:induction false} ProgressOverRuns(s: Sys, j: nat, k: FindingKey, actions: seq<Action>)
    requires j < |s.jobs| && Progress(s, j, k) && k.repo == s.jobs[j].repo
    requires NoInterferenceIn(s, j, k, actions)
    ensures var t := Run(s, actions);
      j < |t.jobs| && t.jobs[j] == s.jobs[j].(pc := t.jobs[j].pc) && Progress(t, j, k)
    decreases |actions|
  {
    hide StepJob, Progress, NoInterference;
    if actions != [] {
      var a := actions[0];
      if a.Step? && a.job == j {
        JobStepsByStatement(s, j, a.raises);
        OwnStepProgress(s, j, k, a.raises);
      } else {
        OtherStepProgress(s, j, k, a);
      }
      ProgressOverRuns(Next(s, a), j, k, actions[1..]);
    }
  }

  /**
    When a scan has completed, the other scans of its repository agreed on the finding and users did it no harm,
    it is open exactly when it was observed and is not muted.
   */
  lemma {:induction false} CompletedScanLeavesObservedOpen(s: Sys, j: nat, k: FindingKey, actions: seq<Action>)
    requires j < |s.jobs| && s.jobs[j].pc.Begin? && k.repo == s.jobs[j].repo
    requires s.jobs[j].scan in s.db.scans && s.db.scans[s.jobs[j].scan].repo == s.jobs[j].repo
    requires NoInterferenceIn(s, j, k, actions)
    requires j < |Run(s, actions).jobs| && Run(s, actions).jobs[j].pc.Completed?
    ensures var t := Run(s, actions).db;
      (k in t.findings && t.findings[k].status == Open)
      <==> k.key in s.jobs[j].observed && !(k in t.findings && Muted(t.findings[k].status))
  {
    hide NoInterferenceIn, Run;
    ProgressOverRuns(s, j, k, actions);
  }

  /** A scan of the repository that has upserted all it observed and marks success next. */
  predicate AllUpserted(db: Db, job: Job) {
    job.scan in db.scans && db.scans[job.scan].repo == job.repo && job.pc == Upserting(|job.observed|)
  }

  /**
    Two scans of one repository at once: if both have upserted their findings before either resolves, only what
    both observed stays open; each closes what the other one alone observed.
   */
  lemma {:induction false} ConcurrentScansCloseEachOther(db: Db, a: Job, b: Job, k: FindingKey)
    requires AllUpserted(db, a) && AllUpserted(db, b)
    requires a.scan != b.scan && a.repo == b.repo == k.repo
    ensures var t := Times(Times(Times(Times(Sys(db, [a, b]), 0, 1), 1, 1), 0, 2), 1, 2);
      && t.jobs == [a.(pc := Confirming), b.(pc := Confirming)]
      && ((k in t.db.findings && t.db.findings[k].status == Open)
          <==> k in db.findings && db.findings[k].status == Open && k.key in a.observed && k.key in b.observed)
  {
    hide HasSuccessfulScan, StepJob, Sweep, ScanEnds;
    var s0 := Sys(db, [a, b]);
    MarkStep(s0, 0);
    var s1 := Times(s0, 0, 1);
    MarkStep(s1, 1);
    var s2 := Times(s1, 1, 1);
    SweepSteps(s2, 0, k);
    SweepSteps(Times(s2, 0, 2), 1, k);
  }

  /** The job alone takes `n` steps. */
  function Times(s: Sys, j: nat, n: nat): (t: Sys)
    requires j < |s.jobs|
    ensures |t.jobs| == |s.jobs|
    decreases n
  {
    if n == 0 then s else Times(StepJob(s, j, false), j, n - 1)
  }

  function Steps(j: nat, n: nat): seq<Action> {
    if n == 0 then [] else [Step(j, false)] + Steps(j, n - 1)
  }

  lemma {:induction false} TimesAreSteps(s: Sys, j: nat, n: nat)
    requires j < |s.jobs|
    ensures Run(s, Steps(j, n)) == Times(s, j, n)
    ensures OnlySteps(Steps(j, n))
    decreases n
  {
    hide StepJob;
    if n > 0 {
      assert Steps(j, n)[1..] == Steps(j, n - 1);
      TimesAreSteps(StepJob(s, j, false), j, n - 1);
    }
  }

  lemma {:induction false} TimesAdd(s: Sys, j: nat, m: nat, n: nat)
    requires j < |s.jobs|
    ensures Times(s, j, m + n) == Times(Times(s, j, m), j, n)
    decreases m
  {
    hide StepJob;
    if m > 0 {
      TimesAdd(StepJob(s, j, false), j, m - 1, n);
    }
  }

  lemma {:induction false} MarkStep(s: Sys, j: nat)
    requires j < |s.jobs| && AllUpserted(s.db, s.jobs[j])
    ensures var t := Times(s, j, 1);
      && t.jobs == s.jobs[j := s.jobs[j].(pc := Resolving)] && t.db.findings == s.db.findings
      && MayResolve(t.db, s.jobs[j].scan, s.jobs[j].repo)
      && (forall id | id in s.db.scans && id != s.jobs[j].scan :: id in t.db.scans && t.db.scans[id] == s.db.scans[id])
  {
    hide HasSuccessfulScan, Sweep;
    assert Times(s, j, 1) == Times(StepJob(s, j, false), j, 0);
  }

  lemma {:induction false} SweepSteps(s: Sys, j: nat, k: FindingKey)
    requires j < |s.jobs| && s.jobs[j].pc == Resolving && MayResolve(s.db, s.jobs[j].scan, s.jobs[j].repo)
    requires k.repo == s.jobs[j].repo
    ensures var t := Times(s, j, 2);
      && t.jobs == s.jobs[j := s.jobs[j].(pc := Confirming)] && t.db.scans == s.db.scans
      && (k in t.db.findings <==> k in s.db.findings)
      && (k in s.db.findings ==>
            t.db.findings[k].status
            == if s.db.findings[k].status == Open && k.key !in s.jobs[j].observed then Resolved
               else s.db.findings[k].status)
  {
    hide HasSuccessfulScan;
    assert Times(s, j, 2) == Times(StepJob(s, j, false), j, 1);
    assert Times(StepJob(s, j, false), j, 1) == StepJob(StepJob(s, j, false), j, false);
  }

  // ---- The exclusion is exact ------------------------------------------------------------------

  /** Two scans of one repository, both about to begin. */
  predicate TwoScans(db: Db, a: Job, b: Job) {
    && a.pc == Begin && b.pc == Begin && a.scan != b.scan && a.repo == b.repo
    && a.scan in db.scans && b.scan in db.scans && db.scans[a.scan].repo == a.repo == db.scans[b.scan].repo
    && !HasSuccessfulScan(db, a.repo, a.commit, a.scan) && !HasSuccessfulScan(db, b.repo, b.commit, b.scan)
  }

  predicate OnlySteps(actions: seq<Action>) {
    forall a <- actions :: a.Step?
  }

  predicate OpenIn(db: Db, k: FindingKey) {
    k in db.findings && db.findings[k].status == Open
  }

  /** If job `j` has completed, the finding is open exactly when the job observed it and it is not muted. */
  predicate LeavesRight(s: Sys, j: nat, k: FindingKey) {
    j < |s.jobs| && s.jobs[j].pc.Completed? ==>
      (OpenIn(s.db, k) <==> k.key in s.jobs[j].observed && !(k in s.db.findings && Muted(s.db.findings[k].status)))
  }

  lemma {:induction false} StepsStart(s: Sys, j: nat)
    requires j < |s.jobs| && s.jobs[j].pc == Begin && s.jobs[j].scan in s.db.scans
    requires !HasSuccessfulScan(s.db, s.jobs[j].repo, s.jobs[j].commit, s.jobs[j].scan)
    ensures var t, job := Times(s, j, 2), s.jobs[j];
      && t.jobs == s.jobs[j := job.(pc := Upserting(0))] && t.db.findings == s.db.findings
      && t.db.scans.Keys == s.db.scans.Keys && t.db.scans[job.scan].repo == s.db.scans[job.scan].repo
      && t.db.scans[job.scan].status == Running
      && (forall id | id in s.db.scans && id != job.scan :: t.db.scans[id] == s.db.scans[id])
  {
    assert Times(s, j, 2) == Times(StepJob(s, j, false), j, 1);
    assert Times(StepJob(s, j, false), j, 1) == StepJob(StepJob(s, j, false), j, false);
  }

  /** The finding is there, open or resolved but not muted. */
  predicate Unmuted(db: Db, k: FindingKey) {
    k in db.findings ==> !Muted(db.findings[k].status)
  }

  lemma {:induction false} UpsertOf(db: Db, k: FindingKey, key: string, scan: int)
    requires Unmuted(db, k)
    ensures var t := Upsert(db, FindingKey(k.repo, key), scan);
      && t.scans == db.scans && Unmuted(t, k) && (k in db.findings ==> k in t.findings)
      && (OpenIn(t, k) <==> OpenIn(db, k) || key == k.key)
  {
  }

  lemma {:induction false} StepsUpsert(s: Sys, j: nat, m: nat, k: FindingKey)
    requires j < |s.jobs| && s.jobs[j].pc == Upserting(m) && m <= |s.jobs[j].observed|
    requires k.repo == s.jobs[j].repo && Unmuted(s.db, k)
    ensures var t, job := Times(s, j, |s.jobs[j].observed| - m), s.jobs[j];
      && t.jobs == s.jobs[j := job.(pc := Upserting(|job.observed|))] && t.db.scans == s.db.scans
      && Unmuted(t.db, k) && (OpenIn(t.db, k) <==> OpenIn(s.db, k) || k.key in job.observed[m..])
      && (k in s.db.findings ==> k in t.db.findings)
    decreases |s.jobs[j].observed| - m
  {
    hide HasSuccessfulScan, Upsert, Sweep, Unmuted, OpenIn;
    var job := s.jobs[j];
    if m < |job.observed| {
      var t := StepJob(s, j, false);
      assert t == Sys(Upsert(s.db, FindingKey(job.repo, job.observed[m]), job.scan),
                      s.jobs[j := job.(pc := Upserting(m + 1))]);
      UpsertOf(s.db, k, job.observed[m], job.scan);
      StepsUpsert(t, j, m + 1, k);
      assert job.observed[m..] == [job.observed[m]] + job.observed[m + 1..];
    }
  }

  /** What a scan does from its begin to its last upsert. */
  lemma {:induction false} StepsReach(s: Sys, j: nat, k: FindingKey)
    requires j < |s.jobs| && s.jobs[j].pc == Begin && s.jobs[j].scan in s.db.scans
    requires s.db.scans[s.jobs[j].scan].repo == s.jobs[j].repo == k.repo && Unmuted(s.db, k)
    requires !HasSuccessfulScan(s.db, s.jobs[j].repo, s.jobs[j].commit, s.jobs[j].scan)
    ensures var t, job := Times(s, j, 2 + |s.jobs[j].observed|), s.jobs[j];
      && t.jobs == s.jobs[j := job.(pc := Upserting(|job.observed|))] && AllUpserted(t.db, t.jobs[j])
      && t.db.scans.Keys == s.db.scans.Keys && t.db.scans[job.scan].status == Running
      && (forall id | id in s.db.scans && id != job.scan :: t.db.scans[id] == s.db.scans[id])
      && Unmuted(t.db, k) && (OpenIn(t.db, k) <==> OpenIn(s.db, k) || k.key in job.observed)
      && (k in s.db.findings ==> k in t.db.findings)
  {
    hide StepJob, HasSuccessfulScan, Times;
    StepsStart(s, j);
    var t := Times(s, j, 2);
    assert s.jobs[j].observed[0..] == s.jobs[j].observed;
    StepsUpsert(t, j, 0, k);
    TimesAdd(s, j, 2, |s.jobs[j].observed|);
  }

  /** And from there to its end. */
  lemma {:induction false} StepsEnd(s: Sys, j: nat, k: FindingKey)
    requires j < |s.jobs| && AllUpserted(s.db, s.jobs[j]) && k.repo == s.jobs[j].repo && Unmuted(s.db, k)
    ensures var t, job := Times(s, j, 4), s.jobs[j];
      && t.jobs == s.jobs[j := job.(pc := Completed)]
      && (forall id | id in s.db.scans && id != job.scan :: id in t.db.scans && t.db.scans[id] == s.db.scans[id])
      && Unmuted(t.db, k) && (OpenIn(t.db, k) <==> OpenIn(s.db, k) && k.key in job.observed)
  {
    hide StepJob, HasSuccessfulScan, Times;
    MarkStep(s, j);
    var t := Times(s, j, 1);
    SweepSteps(t, j, k);
    ConfirmStep(Times(t, j, 2), j);
    TimesAdd(s, j, 1, 2);
    TimesAdd(s, j, 3, 1);
  }

  lemma {:induction false} ConfirmStep(s: Sys, j: nat)
    requires j < |s.jobs| && s.jobs[j].pc == Confirming
    ensures var t := Times(s, j, 1);
      && t.jobs == s.jobs[j := s.jobs[j].(pc := Completed)] && t.db.findings == s.db.findings
      && (forall id | id in s.db.scans && id != s.jobs[j].scan :: id in t.db.scans && t.db.scans[id] == s.db.scans[id])
  {
    hide HasSuccessfulScan, Sweep;
    assert Times(s, j, 1) == Times(StepJob(s, j, false), j, 0);
  }

  lemma {:induction false} StillNoSuccess(before: Db, after: Db, repo: int, commit: string, scan: int, running: int)
    requires !HasSuccessfulScan(before, repo, commit, scan) && after.scans.Keys == before.scans.Keys
    requires running in before.scans && after.scans[running].status == Running
    requires forall id | id in before.scans && id != running :: after.scans[id] == before.scans[id]
    ensures !HasSuccessfulScan(after, repo, commit, scan)
  {
  }

  /** The scan `i` alone observes the finding; the scan `j` runs between its last upsert and its end, and closes it. */
  function CrossedRun(s: Sys, i: nat, j: nat): seq<Action>
    requires i < |s.jobs| && j < |s.jobs|
  {
    Steps(i, 2 + |s.jobs[i].observed|) + (Steps(j, 2 + |s.jobs[j].observed|) + (Steps(j, 4) + Steps(i, 4)))
  }

  lemma {:induction false} RunConcat(s: Sys, a: seq<Action>, b: seq<Action>)
    ensures Run(s, a + b) == Run(Run(s, a), b)
    decreases |a|
  {
    hide Next;
    if a == [] {
      assert a + b == b;
    } else {
      assert (a + b)[0] == a[0] && (a + b)[1..] == a[1..] + b;
      RunConcat(Next(s, a[0]), a[1..], b);
    }
  }

  lemma {:induction false} CrossedRunIsTimes(s: Sys, i: nat, j: nat)
    requires i < |s.jobs| && j < |s.jobs|
    ensures var m, n := 2 + |s.jobs[i].observed|, 2 + |s.jobs[j].observed|;
      Run(s, CrossedRun(s, i, j)) == Times(Times(Times(Times(s, i, m), j, n), j, 4), i, 4)
    ensures OnlySteps(CrossedRun(s, i, j))
  {
    hide Run, Times, Steps, StepJob;
    var m, n := 2 + |s.jobs[i].observed|, 2 + |s.jobs[j].observed|;
    RunConcat(s, Steps(i, m), Steps(j, n) + (Steps(j, 4) + Steps(i, 4)));
    TimesAreSteps(s, i, m);
    var t := Times(s, i, m);
    RunConcat(t, Steps(j, n), Steps(j, 4) + Steps(i, 4));
    TimesAreSteps(t, j, n);
    RunConcat(Times(t, j, n), Steps(j, 4), Steps(i, 4));
    TimesAreSteps(Times(t, j, n), j, 4);
    TimesAreSteps(Times(Times(t, j, n), j, 4), i, 4);
  }

  lemma {:induction false} DisagreementHurts(s: Sys, i: nat, j: nat, k: FindingKey)
    requires |s.jobs| == 2 && i < 2 && j < 2 && i != j && TwoScans(s.db, s.jobs[i], s.jobs[j])
    requires k.repo == s.jobs[i].repo && Unmuted(s.db, k)
    requires k.key in s.jobs[i].observed && k.key !in s.jobs[j].observed
    ensures var t := Run(s, CrossedRun(s, i, j));
      |t.jobs| == 2 && t.jobs[i].pc.Completed? && t.jobs[j].pc.Completed? && !LeavesRight(t, i, k)
  {
    hide Run, Times, StepJob, HasSuccessfulScan, CrossedRun, OpenIn;
    CrossedRunIsTimes(s, i, j);
    var a, b := s.jobs[i], s.jobs[j];
    StepsReach(s, i, k);
    var s1 := Times(s, i, 2 + |a.observed|);
    StillNoSuccess(s.db, s1.db, b.repo, b.commit, b.scan, a.scan);
    StepsReach(s1, j, k);
    var s2 := Times(s1, j, 2 + |b.observed|);
    StepsEnd(s2, j, k);
    StepsEnd(Times(s2, j, 4), i, k);
  }

  lemma {:induction false} AgreementProtects(s: Sys, actions: seq<Action>, j: nat, k: FindingKey)
    requires |s.jobs| == 2 && j < 2 && OnlySteps(actions) && Agrees(s.jobs[1 - j], s.jobs[j], k)
    ensures NoInterferenceIn(s, j, k, actions) && |Run(s, actions).jobs| == 2
    ensures Run(s, actions).jobs[j].observed == s.jobs[j].observed
    decreases |actions|
  {
    hide StepJob, HasSuccessfulScan;
    if actions != [] {
      var a := actions[0];
      assert a in actions;
      if a.job < 2 {
        JobStepsByStatement(s, a.job, a.raises);
      }
      AgreementProtects(Next(s, a), actions[1..], j, k);
    }
  }

  lemma {:induction false} AgreeingLeavesRight(s: Sys, actions: seq<Action>, j: nat, k: FindingKey)
    requires |s.jobs| == 2 && j < 2 && TwoScans(s.db, s.jobs[j], s.jobs[1 - j])
    requires OnlySteps(actions) && Agrees(s.jobs[1 - j], s.jobs[j], k) && k.repo == s.jobs[j].repo
    ensures LeavesRight(Run(s, actions), j, k)
  {
    hide Run, NoInterferenceIn, Agrees, HasSuccessfulScan;
    AgreementProtects(s, actions, j, k);
    if Run(s, actions).jobs[j].pc.Completed? {
      CompletedScanLeavesObservedOpen(s, j, k, actions);
    }
  }

  /** Every interleaving leaves a finding right. */
  ghost predicate AlwaysRight(s: Sys, k: FindingKey) {
    forall actions: seq<Action> | OnlySteps(actions) ::
      LeavesRight(Run(s, actions), 0, k) && LeavesRight(Run(s, actions), 1, k)
  }

  /** Two concurrent scans leave an unmuted finding right under every interleaving if and only if they agree on it. */
  lemma {:induction false} ConcurrentScansRightIff(db: Db, a: Job, b: Job, k: FindingKey)
    requires TwoScans(db, a, b) && k.repo == a.repo && Unmuted(db, k)
    ensures AlwaysRight(Sys(db, [a, b]), k) <==> (k.key in a.observed <==> k.key in b.observed)
  {
    hide Run, LeavesRight, HasSuccessfulScan, CrossedRun;
    var s := Sys(db, [a, b]);
    if k.key in a.observed <==> k.key in b.observed {
      forall actions: seq<Action> | OnlySteps(actions)
        ensures LeavesRight(Run(s, actions), 0, k) && LeavesRight(Run(s, actions), 1, k)
      {
        AgreeingLeavesRight(s, actions, 0, k);
        AgreeingLeavesRight(s, actions, 1, k);
      }
    } else {
      var i := if k.key in a.observed then 0 else 1;
      CrossedRunIsTimes(s, i, 1 - i);
      DisagreementHurts(s, i, 1 - i, k);
    }
  }

  // ---- A user's action during a scan -------------------------------------------------------------

  /** The step leaves the finding to job `j` and the users' actions before it. */
  predicate Quiet(s: Sys, j: nat, k: FindingKey, a: Action)
    requires j < |s.jobs|
  {
    match a
    case Step(i, _) => i < |s.jobs| && i != j ==> s.jobs[i].scan != s.jobs[j].scan && s.jobs[i].repo != s.jobs[j].repo
    case UserAction(u, _) => u != k
    case _ => true
  }

  predicate QuietIn(s: Sys, j: nat, k: FindingKey, actions: seq<Action>)
    requires j < |s.jobs|
    decreases |actions|
  {
    actions == [] || (Quiet(s, j, k, actions[0]) && j < |Next(s, actions[0]).jobs|
                      && QuietIn(Next(s, actions[0]), j, k, actions[1..]))
  }

  lemma {:induction false} QuietDoesNotInterfere(s: Sys, j: nat, k: FindingKey, actions: seq<Action>)
    requires j < |s.jobs| && QuietIn(s, j, k, actions)
    ensures NoInterferenceIn(s, j, k, actions)
    decreases |actions|
  {
    hide Next, Harms;
    if actions != [] {
      QuietDoesNotInterfere(Next(s, actions[0]), j, k, actions[1..]);
    }
  }

  /** The finding has the wrong status and the job, unless it fails, will not change it. */
  predicate Harmed(s: Sys, j: nat, k: FindingKey)
    requires j < |s.jobs|
  {
    var job := s.jobs[j];
    || job.pc.Failing? || job.pc.Ended?
    || (k in s.db.findings
        && if k.key in job.observed then Settled(job, k.key) && s.db.findings[k].status == Resolved
           else Swept(job) && s.db.findings[k].status == Open)
  }

  lemma {:induction false} NextIsAnother(observed: seq<string>, n: nat)
    requires n < |observed|
    ensures observed[..n + 1] == observed[..n] + [observed[n]] && observed[n..] == [observed[n]] + observed[n + 1..]
  {
  }

  lemma {:induction false} SettledStays(s: Sys, j: nat, key: string, raises: bool)
    requires j < |s.jobs| && Settled(s.jobs[j], key)
    ensures var job := StepJob(s, j, raises).jobs[j];
      Settled(job, key) || job.pc.Failing? || job.pc.Ended?
    ensures !raises && s.jobs[j].pc.Upserting? && s.jobs[j].pc.n < |s.jobs[j].observed| ==>
            s.jobs[j].observed[s.jobs[j].pc.n] != key
  {
    hide HasSuccessfulScan, Upsert, Sweep, ScanEnds, ScanRunning, ScanSuperseded, MayResolve;
    var job := s.jobs[j];
    if job.pc.Upserting? && job.pc.n < |job.observed| {
      NextIsAnother(job.observed, job.pc.n);
    }
  }

  lemma {:induction false} HarmedOwnStep(s: Sys, j: nat, k: FindingKey, raises: bool)
    requires j < |s.jobs| && k.repo == s.jobs[j].repo && Harmed(s, j, k)
    ensures Harmed(StepJob(s, j, raises), j, k)
  {
    hide HasSuccessfulScan, Settled;
    if Settled(s.jobs[j], k.key) {
      SettledStays(s, j, k.key, raises);
    }
  }

  lemma {:induction false} HarmedStays(s: Sys, j: nat, k: FindingKey, actions: seq<Action>)
    requires j < |s.jobs| && k.repo == s.jobs[j].repo && Harmed(s, j, k) && QuietIn(s, j, k, actions)
    ensures j < |Run(s, actions).jobs| && Harmed(Run(s, actions), j, k)
    ensures Run(s, actions).jobs[j].observed == s.jobs[j].observed
    decreases |actions|
  {
    hide StepJob, Settled, Swept;
    if actions != [] {
      var a := actions[0];
      if a.Step? && a.job < |s.jobs| {
        JobStepsByStatement(s, a.job, a.raises);
        WorkerStepsKeep(s, a.job, a.raises);
        if a.job == j {
          HarmedOwnStep(s, j, k, a.raises);
        }
      }
      HarmedStays(Next(s, a), j, k, actions[1..]);
    }
  }

  lemma {:induction false} ProgressOfBegin(s: Sys, j: nat, k: FindingKey)
    requires j < |s.jobs| && s.jobs[j].pc.Begin?
    requires s.jobs[j].scan in s.db.scans && s.db.scans[s.jobs[j].scan].repo == s.jobs[j].repo
    ensures Progress(s, j, k)
  {
  }

  lemma {:induction false} CompletedRightOrHarmed(s: Sys, j: nat, k: FindingKey)
    requires j < |s.jobs| && s.jobs[j].pc.Completed?
    ensures Progress(s, j, k) ==> LeavesRight(s, j, k)
    ensures Harmed(s, j, k) ==> !LeavesRight(s, j, k)
  {
    hide Settled;
    SettledWasObserved(s.jobs[j], k.key);
  }

  /**
    A user's action at any moment of a scan, after which only this scan touches the finding: the completed scan
    leaves the finding right if and only if the action was harmless.
   */
  lemma {:induction false} UserActionRightIff(s: Sys, j: nat, k: FindingKey, st: FindingStatus,
                                              before: seq<Action>, after: seq<Action>)
    requires j < |s.jobs| && s.jobs[j].pc.Begin? && k.repo == s.jobs[j].repo
    requires s.jobs[j].scan in s.db.scans && s.db.scans[s.jobs[j].scan].repo == s.jobs[j].repo
    requires NoInterferenceIn(s, j, k, before)
    requires j < |Run(s, before).jobs| && QuietIn(Next(Run(s, before), UserAction(k, st)), j, k, after)
    requires var t := Run(s, before + ([UserAction(k, st)] + after)); j < |t.jobs| && t.jobs[j].pc.Completed?
    ensures LeavesRight(Run(s, before + ([UserAction(k, st)] + after)), j, k) <==> !Harms(Run(s, before), j, k, st)
  {
    hide NoInterferenceIn, QuietIn, Progress, Harmed, LeavesRight;
    var mid, u := Run(s, before), UserAction(k, st);
    ProgressOfBegin(s, j, k);
    ProgressOverRuns(s, j, k, before);
    RunConcat(s, before, [u] + after);
    assert ([u] + after)[0] == u && ([u] + after)[1..] == after;
    var acted := Next(mid, u);
    hide Run;
    CompletedRightOrHarmed(Run(acted, after), j, k);
    if Harms(mid, j, k, st) {
      HarmBegins(mid, j, k, st);
      HarmedStays(acted, j, k, after);
    } else {
      OtherStepProgress(mid, j, k, u);
      QuietDoesNotInterfere(acted, j, k, after);
      ProgressOverRuns(acted, j, k, after);
    }
  }

  lemma {:induction false} HarmBegins(s: Sys, j: nat, k: FindingKey, st: FindingStatus)
    requires j < |s.jobs| && Harms(s, j, k, st)
    ensures Harmed(Next(s, UserAction(k, st)), j, k)
  {
  }

  /** Nothing else running, resolving an observed finding behind the last upsert leaves it resolved. */
  lemma {:induction false} ResolvingAfterUpsertHurts(s: Sys, j: nat, k: FindingKey)
    requires j < |s.jobs| && s.jobs[j].pc == Begin && s.jobs[j].scan in s.db.scans
    requires s.db.scans[s.jobs[j].scan].repo == s.jobs[j].repo == k.repo && Unmuted(s.db, k)
    requires !HasSuccessfulScan(s.db, s.jobs[j].repo, s.jobs[j].commit, s.jobs[j].scan)
    requires k.key in s.jobs[j].observed
    ensures var t := Times(Next(Times(s, j, 2 + |s.jobs[j].observed|), UserAction(k, Resolved)), j, 4);
      t.jobs[j].pc.Completed? && !LeavesRight(t, j, k)
  {
    hide Times, StepJob, HasSuccessfulScan;
    StepsReach(s, j, k);
    var t := Next(Times(s, j, 2 + |s.jobs[j].observed|), UserAction(k, Resolved));
    StepsEnd(t, j, k);
  }

  /** Nothing else running, opening a finding that was not observed behind the sweep leaves it open. */
  lemma {:induction false} OpeningAfterSweepHurts(s: Sys, j: nat, k: FindingKey)
    requires j < |s.jobs| && s.jobs[j].pc == Begin && s.jobs[j].scan in s.db.scans
    requires s.db.scans[s.jobs[j].scan].repo == s.jobs[j].repo == k.repo && Unmuted(s.db, k)
    requires !HasSuccessfulScan(s.db, s.jobs[j].repo, s.jobs[j].commit, s.jobs[j].scan)
    requires k.key !in s.jobs[j].observed && k in s.db.findings
    ensures var swept := Times(Times(Times(s, j, 2 + |s.jobs[j].observed|), j, 1), j, 2);
      var t := Times(Next(swept, UserAction(k, Open)), j, 1);
      t.jobs[j].pc.Completed? && !LeavesRight(t, j, k)
  {
    hide Times, StepJob, HasSuccessfulScan;
    var s1 := Times(s, j, 2 + |s.jobs[j].observed|);
    StepsReach(s, j, k);
    MarkStep(s1, j);
    SweepSteps(Times(s1, j, 1), j, k);
    ConfirmStep(Next(Times(Times(s1, j, 1), j, 2), UserAction(k, Open)), j);
  }

  // ---- Upserting all findings of a scan --------------------------------------------------------------

  /** An observed finding after its upsert: seen now by this scan, and open unless a user muted it. */
  function SeenNow(before: Db, k: FindingKey, scan: int): Finding {
    if k in before.findings && before.findings[k].status in {Suppressed, FalsePositive}
    then Finding(before.findings[k].status, scan, before.now, before.findings[k].resolvedAt)
    else Finding(Open, scan, before.now, None)
  }

  /** A finding after the scan: seen now if observed, resolved now if it was open, else as before. */
  function AfterScan(before: Db, k: FindingKey, repo: int, observed: seq<string>, scan: int): Finding
    requires k in before.findings || (k.repo == repo && k.key in observed)
  {
    if k.repo == repo && k.key in observed then SeenNow(before, k, scan)
    else
      var f := before.findings[k];
      if k.repo == repo && f.status == Open then Finding(Resolved, f.scan, f.lastSeen, Some(before.now)) else f
  }

  /** The table holds the findings it held and the observed ones. */
  ghost predicate HoldsObserved(before: Db, after: Db, repo: int, observed: seq<string>) {
    forall k :: k in after.findings <==> k in before.findings || (k.repo == repo && k.key in observed)
  }

  /** The observed findings are seen now, all others as they were. */
  ghost predicate Upserted(before: Db, after: Db, repo: int, observed: seq<string>, scan: int) {
    && after.scans == before.scans && after.now == before.now && HoldsObserved(before, after, repo, observed)
    && forall k | k in after.findings ::
         after.findings[k] == if k.repo == repo && k.key in observed then SeenNow(before, k, scan)
                              else before.findings[k]
  }

  /** Every finding is as a scan leaves it. */
  ghost predicate Scanned(before: Db, after: Db, repo: int, observed: seq<string>, scan: int) {
    && HoldsObserved(before, after, repo, observed)
    && forall k | k in after.findings :: after.findings[k] == AfterScan(before, k, repo, observed, scan)
  }

  lemma {:induction false} NothingUpserted(db: Db, repo: int, scan: int)
    ensures Upserted(db, db, repo, [], scan)
  {
  }

  lemma {:induction false} UpsertedStep(before: Db, db: Db, repo: int, observed: seq<string>, key: string, scan: int)
    requires Upserted(before, db, repo, observed, scan)
    ensures Upserted(before, Upsert(db, FindingKey(repo, key), scan), repo, observed + [key], scan)
  {
    var after := Upsert(db, FindingKey(repo, key), scan);
    forall k | k in after.findings
      ensures after.findings[k] == if k.repo == repo && k.key in observed + [key] then SeenNow(before, k, scan)
                                   else before.findings[k]
    {
      assert k in db.findings || k == FindingKey(repo, key);
    }
  }

  /** Marking a scan succeeded, resolving the rest and confirming, after all findings are upserted. */
  lemma {:induction false} RecordedRight(before: Db, db: Db, scan: int, repo: int, observed: seq<string>)
    requires Upserted(before, db, repo, observed, scan) && scan in db.scans && db.scans[scan].repo == repo
    ensures var end := ScanEnds(ResolveStale(ScanEnds(db, scan, Succeeded), scan, repo, observed), scan, Succeeded);
      && end.scans == ScanEnds(before, scan, Succeeded).scans && end.now == before.now
      && Scanned(before, end, repo, observed, scan)
  {
  }

  /** The upserts change nothing about which findings are stale. */
  lemma {:induction false} StaleStays(before: Db, db: Db, scan: int, repo: int, observed: seq<string>)
    requires Upserted(before, db, repo, observed, scan)
    ensures (set k: FindingKey | k in db.findings && IsStale(k, db.findings[k], repo, observed))
         == set k: FindingKey | k in before.findings && k.repo == repo && before.findings[k].status == Open
                                && k.key !in observed
  {
  }

  lemma {:induction false} MarkedTwice(db: Db, scan: int)
    requires scan in db.scans
    ensures var row := db.scans[scan];
      ScanEnds(db, scan, Succeeded).scans
      == db.scans[scan := row.(status := Succeeded,
                               finishedAt := if row.finishedAt.Some? then row.finishedAt else Some(db.now))]
    ensures MayResolve(ScanEnds(db, scan, Succeeded), scan, db.scans[scan].repo)
  {
  }

  /** So exactly the observed findings that are not muted are open, and no other repository is touched. */
  lemma {:induction false} ScannedOpenIff(before: Db, end: Db, scan: int, repo: int, observed: seq<string>)
    requires Scanned(before, end, repo, observed, scan)
    ensures WorkerKeeps(before, end, repo) && (ResolutionTimed(before) ==> ResolutionTimed(end))
    ensures forall k: FindingKey | k.repo == repo ::
      OpenIn(end, k) <==> k.key in observed && !(k in before.findings && Muted(before.findings[k].status))
  {
  }

  // ---- The store and one scan, as the worker runs them ----------------------------------------------

  class ScanStore {
    var findings: map<FindingKey, Finding>
    var scans: map<int, Scan>
    var now: nat

    constructor (db: Db)
      ensures State() == db
    {
      findings, scans, now := db.findings, db.scans, db.now;
    }

    function State(): Db
      reads this
    {
      Db(findings, scans, now)
    }

    method UpsertFinding(k: FindingKey, scan: int)
      modifies this`findings
      ensures State() == Upsert(old(State()), k, scan)
    {
      if k in findings && Muted(findings[k].status) {
        findings := findings[k := findings[k].(scan := scan, lastSeen := now)];
      } else {
        findings := findings[k := Finding(Open, scan, now, None)];
      }
    }

    method ResolveStaleFindings(scan: int, repo: int, observed: seq<string>) returns (count: nat)
      modifies this`findings
      ensures State() == ResolveStale(old(State()), scan, repo, observed)
      ensures count == if MayResolve(old(State()), scan, repo)
                       then |set k | k in old(findings) && IsStale(k, old(findings)[k], repo, observed)| else 0
    {
      if !(scan in scans && scans[scan].repo == repo && scans[scan].status == Succeeded) {
        return 0;
      }
      var stale := set k | k in findings && IsStale(k, findings[k], repo, observed);
      findings := map k | k in findings ::
        if k in stale then findings[k].(status := Resolved, resolvedAt := Some(now)) else findings[k];
      count := |stale|;
    }

    method MarkScan(scan: int, st: ScanStatus)
      modifies this`scans
      ensures State() == ScanEnds(old(State()), scan, st)
    {
      if scan in scans {
        scans := scans[scan := scans[scan].(status := st, finishedAt := Coalesce(scans[scan].finishedAt, now))];
      }
    }

    /** Every observed finding is upserted; a muted one keeps its status. */
    method UpsertFindings(scan: int, repo: int, observed: seq<string>)
      modifies this`findings
      ensures Upserted(old(State()), State(), repo, observed, scan)
    {
      hide Upserted, Upsert;
      var i := 0;
      NothingUpserted(State(), repo, scan);
      while i < |observed|
        invariant 0 <= i <= |observed|
        invariant Upserted(old(State()), State(), repo, observed[..i], scan)
      {
        assert observed[..i + 1] == observed[..i] + [observed[i]];
        UpsertedStep(old(State()), State(), repo, observed[..i], observed[i], scan);
        UpsertFinding(FindingKey(repo, observed[i]), scan);
        i := i + 1;
      }
      assert observed[..i] == observed;
    }

    /** The recording part of a scan: upsert every finding, mark success, resolve the rest, confirm. */
    method RecordScan(scan: int, repo: int, observed: seq<string>) returns (resolved: nat)
      requires scan in scans && scans[scan].repo == repo
      modifies this`findings, this`scans
      ensures Scanned(old(State()), State(), repo, observed, scan)
      ensures scans == old(scans)[scan := old(scans)[scan].(status := Succeeded,
                finishedAt := if old(scans)[scan].finishedAt.Some? then old(scans)[scan].finishedAt else Some(now))]
      ensures resolved == |set k: FindingKey | k in old(findings) && k.repo == repo
                                               && old(findings)[k].status == Open && k.key !in observed|
      ensures forall k: FindingKey | k.repo == repo ::
                OpenIn(State(), k) <==> k.key in observed && !(k in old(findings) && Muted(old(findings)[k].status))
      ensures WorkerKeeps(old(State()), State(), repo)
      ensures ResolutionTimed(old(State())) ==> ResolutionTimed(State())
    {
      hide Upserted, ResolveStale, ScanEnds, WorkerKeeps, ResolutionTimed, Scanned, OpenIn;
      MarkedTwice(State(), scan);
      UpsertFindings(scan, repo, observed);
      RecordedRight(old(State()), State(), scan, repo, observed);
      StaleStays(old(State()), State(), scan, repo, observed);
      MarkedTwice(State(), scan);
      MarkScan(scan, Succeeded);
      resolved := ResolveStaleFindings(scan, repo, observed);
      MarkScan(scan, Succeeded);
      ScannedOpenIff(old(State()), State(), scan, repo, observed);
    }
  }
}
