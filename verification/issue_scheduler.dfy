/** The job queue of scripts/run-issues-controller.ts. */
module IssueScheduler {
  import opened Numbers
  import opened Sequences

  datatype Status = Pending | Blocked | Done

  datatype Job = Job(issue: nat, status: Status, failures: nat, outages: nat, nextAttempt: int)

  /** Limits from the environment: positive integers, delays in milliseconds. */
  datatype Settings = Settings(attempts: nat, delay: nat, outageDelay: nat, outageCap: nat) {
    predicate Positive() {
      attempts > 0 && delay > 0 && outageDelay > 0 && outageCap > 0
    }
  }

  // ---------- Backoff ----------

  function Backoff(attempt: int, initial: nat, cap: nat): int {
    Min(cap, initial * Pow2(Min(20, Max(0, attempt - 1))))
  }

  lemma {:induction false} Pow2Grows(m: nat, n: nat)
    requires m <= n
    ensures Pow2(m) <= Pow2(n)
  {
    if m < n {
      Pow2Grows(m, n - 1);
    }
  }

  /** Delays are positive, capped and never shrink; each one doubles until the cap or the twentieth. */
  lemma {:induction false} BackoffLaws(attempt: nat, initial: nat, cap: nat)
    requires initial > 0 && cap > 0 && attempt > 0
    ensures 0 < Backoff(attempt, initial, cap) <= cap
    ensures Backoff(1, initial, cap) == Min(cap, initial)
    ensures Backoff(attempt, initial, cap) <= Backoff(attempt + 1, initial, cap)
    ensures attempt <= 20 ==> Backoff(attempt + 1, initial, cap) == Min(cap, 2 * Backoff(attempt, initial, cap))
    ensures attempt > 20 ==> Backoff(attempt + 1, initial, cap) == Backoff(attempt, initial, cap)
  {
    var e := Min(20, attempt - 1);
    var p := Pow2(e);
    assert initial * p > 0;
    if attempt <= 20 {
      assert Pow2(e + 1) == 2 * p;
      assert initial * (2 * p) == 2 * (initial * p);
    }
  }

  // ---------- One job ----------

  /** `recordFailure`: an outage only delays; a failure counts against the attempts. */
  function Failed(job: Job, infrastructure: bool, now: int, settings: Settings): Job {
    if infrastructure then
      job.(outages := job.outages + 1,
           nextAttempt := now + Backoff(job.outages + 1, settings.outageDelay, settings.outageCap))
    else
      job.(failures := job.failures + 1,
           outages := 0,
           nextAttempt := now + settings.delay,
           status := if job.failures + 1 >= settings.attempts then Blocked else job.status)
  }

  lemma FailedIsLater(job: Job, infrastructure: bool, now: int, settings: Settings)
    requires settings.Positive()
    ensures Failed(job, infrastructure, now, settings).nextAttempt > now
  {
    BackoffLaws(job.outages + 1, settings.outageDelay, settings.outageCap);
  }

  // ---------- The queue ----------

  ghost predicate Unique(jobs: seq<Job>) {
    forall i, j :: 0 <= i < j < |jobs| ==> jobs[i].issue != jobs[j].issue
  }

  function Issues(jobs: seq<Job>): set<nat> {
    set j | j in jobs :: j.issue
  }

  /** `state.jobs.find` by issue number. */
  function Find(jobs: seq<Job>, issue: nat): Option<Job> {
    if jobs == [] then None
    else if jobs[0].issue == issue then Some(jobs[0])
    else Find(jobs[1..], issue)
  }

  function Add(jobs: seq<Job>, issue: nat): seq<Job> {
    if Find(jobs, issue).Some? then jobs else jobs + [Job(issue, Pending, 0, 0, 0)]
  }

  function AddAll(jobs: seq<Job>, issues: seq<nat>): seq<Job>
    decreases issues
  {
    if issues == [] then jobs else AddAll(Add(jobs, issues[0]), issues[1..])
  }

  predicate Ready(job: Job, now: int) {
    job.status == Pending && job.nextAttempt <= now
  }

  /** The first of the ready jobs with the earliest due time: a stable sort's head. */
  function Pick(jobs: seq<Job>, now: int): (pick: Option<nat>)
    ensures pick.None? ==> forall j :: 0 <= j < |jobs| ==> !Ready(jobs[j], now)
    ensures pick.Some? ==> pick.value < |jobs| && Ready(jobs[pick.value], now)
    ensures pick.Some? ==> forall j :: 0 <= j < |jobs| && Ready(jobs[j], now) ==>
      jobs[pick.value].nextAttempt < jobs[j].nextAttempt
      || (jobs[pick.value].nextAttempt == jobs[j].nextAttempt && pick.value <= j)
  {
    if jobs == [] then None
    else
      var last := |jobs| - 1;
      var before := Pick(jobs[..last], now);
      if Ready(jobs[last], now) && (before.None? || jobs[last].nextAttempt < jobs[before.value].nextAttempt)
      then Some(last) else before
  }

  // ---------- One turn of the loop ----------

  /** What the world did to the picked job; `later` is the clock when a failure is recorded. */
  datatype Visit =
    | Closed
    | StillOpen(later: int)
    | LookupError(infrastructure: bool, later: int)
    | Ineligible
    | PreparationError(infrastructure: bool, later: int)
    | Finished(code: nat, marked: bool, later: int)
    | UnsafeMarker
    | Interrupted(launched: bool)

  datatype Answer =
    | DiscoveryFailed(infrastructure: bool)
    | Discovered(found: seq<nat>, now: int, visit: Visit)

  datatype Outcome = Running | Exited(code: nat) | Thrown

  /** One pick: the issue, what the world did to it, and the issues of the jobs that were ready. */
  datatype Record = Record(issue: nat, visit: Visit, waiting: set<nat>)

  datatype State = State(jobs: seq<Job>, clock: int, log: seq<Record>, outcome: Outcome)

  const UNSAFE_CODE := 70
  const OUTAGE_CODE := 75
  const REFUSED_CODE := 78

  predicate Launches(visit: Visit) {
    visit.Finished? || (visit.Interrupted? && visit.launched)
  }

  predicate IsOutage(visit: Visit) {
    match visit
    case StillOpen(_) => true
    case LookupError(infrastructure, _) => infrastructure
    case PreparationError(infrastructure, _) => infrastructure
    case Finished(code, marked, _) => code != 0 && code != UNSAFE_CODE && (code == OUTAGE_CODE || marked)
    case _ => false
  }

  predicate Throws(visit: Visit) {
    visit.UnsafeMarker? || visit.Interrupted? || (visit.Finished? && visit.code == UNSAFE_CODE)
  }

  function ClockAfter(now: int, visit: Visit): int {
    match visit
    case StillOpen(later) => later
    case LookupError(_, later) => later
    case PreparationError(_, later) => later
    case Finished(_, _, later) => later
    case _ => now
  }

  function Visited(job: Job, visit: Visit, settings: Settings): Job {
    match visit
    case Closed => job.(status := Done)
    case StillOpen(later) => Failed(job, true, later, settings)
    case LookupError(infrastructure, later) => Failed(job, infrastructure, later, settings)
    case Ineligible => job.(status := Blocked)
    case PreparationError(infrastructure, later) => Failed(job, infrastructure, later, settings)
    case Finished(code, marked, later) =>
      if code == 0 then job.(status := Done)
      else if code == UNSAFE_CODE then job
      else
        var failed := Failed(job, code == OUTAGE_CODE || marked, later, settings);
        if code == REFUSED_CODE then failed.(status := Blocked) else failed
    case UnsafeMarker => job
    case Interrupted(_) => job
  }

  function Waiting(jobs: seq<Job>, now: int): set<nat> {
    set j | j in jobs && Ready(j, now) :: j.issue
  }

  function RecordOf(jobs: seq<Job>, i: nat, now: int, visit: Visit): Record
    requires i < |jobs|
  {
    Record(jobs[i].issue, visit, Waiting(jobs, now))
  }

  function AfterVisit(settings: Settings, s: State, i: nat, now: int, visit: Visit): State
    requires i < |s.jobs|
  {
    State(s.jobs[i := Visited(s.jobs[i], visit, settings)],
          ClockAfter(now, visit),
          s.log + [RecordOf(s.jobs, i, now, visit)],
          if Throws(visit) then Thrown else Running)
  }

  /** Discovery, then either the drained queue, a pause, or one visit to the earliest due job. */
  function Turn(settings: Settings, s: State, a: Answer): State {
    match a
    case DiscoveryFailed(infrastructure) => if infrastructure then s else s.(outcome := Thrown)
    case Discovered(found, now, visit) =>
      var jobs := AddAll(s.jobs, found);
      match Pick(jobs, now)
      case None =>
        State(jobs, now, s.log,
              if exists j :: j in jobs && j.status == Pending then Running
              else Exited(if exists j :: j in jobs && j.status == Blocked then 2 else 0))
      case Some(i) => AfterVisit(settings, s.(jobs := jobs), i, now, visit)
  }

  /** The loop ends at the first turn that does not leave it running. */
  ghost function Run(settings: Settings, s: State, answers: seq<Answer>): State {
    if answers == [] then s
    else
      var before := Run(settings, s, answers[..|answers| - 1]);
      if before.outcome.Running? then Turn(settings, before, Last(answers)) else before
  }

  /** `--retry`: only an unfinished job can be put back, with a clean slate. */
  function Retry(jobs: seq<Job>, issue: nat): Option<seq<Job>> {
    if Find(jobs, issue).None? || Find(jobs, issue).value.status == Done then None
    else Some(Reset(jobs, issue))
  }

  function Reset(jobs: seq<Job>, issue: nat): seq<Job> {
    if jobs == [] then []
    else if jobs[0].issue == issue then [Job(issue, Pending, 0, 0, 0)] + jobs[1..]
    else [jobs[0]] + Reset(jobs[1..], issue)
  }

  // ---------- Adding discovered issues ----------

  lemma {:induction false} FindExact(jobs: seq<Job>, issue: nat)
    ensures match Find(jobs, issue)
            case Some(job) => job in jobs && job.issue == issue
            case None => forall j :: j in jobs ==> j.issue != issue
  {
    if jobs != [] && jobs[0].issue != issue {
      FindExact(jobs[1..], issue);
    }
  }

  lemma AddAppends(jobs: seq<Job>, issue: nat)
    requires Unique(jobs)
    ensures Unique(Add(jobs, issue)) && Issues(Add(jobs, issue)) == Issues(jobs) + {issue}
    ensures Add(jobs, issue) == jobs || Add(jobs, issue) == jobs + [Job(issue, Pending, 0, 0, 0)]
  {
    FindExact(jobs, issue);
    var added := Add(jobs, issue);
    if Find(jobs, issue).Some? {
      assert Find(jobs, issue).value in jobs;
    } else {
      assert added[|jobs|] in added;
      assert forall j :: j in added <==> j in jobs || j == added[|jobs|];
    }
  }

  /** Jobs are only appended, one per issue, and start pending with nothing against them. */
  lemma {:induction false} AddAllAppends(jobs: seq<Job>, issues: seq<nat>)
    requires Unique(jobs)
    ensures var all := AddAll(jobs, issues);
      && Unique(all) && jobs <= all
      && (forall k :: |jobs| <= k < |all| ==> all[k] == Job(all[k].issue, Pending, 0, 0, 0))
      && Issues(all) == Issues(jobs) + Elements(issues)
    decreases issues
  {
    if issues != [] {
      AddAppends(jobs, issues[0]);
      AddAllAppends(Add(jobs, issues[0]), issues[1..]);
      assert Elements(issues) == {issues[0]} + Elements(issues[1..]);
    }
  }

  // ---------- The work bound ----------

  /** A job as this controller leaves it: pending and done jobs have attempts left. */
  predicate SoundJob(job: Job, settings: Settings) {
    job.failures <= settings.attempts && (job.status != Blocked ==> job.failures < settings.attempts)
  }

  ghost predicate SoundJobs(jobs: seq<Job>, settings: Settings) {
    Unique(jobs) && forall j :: j in jobs ==> SoundJob(j, settings)
  }

  function CountLaunches(log: seq<Record>, issue: nat): nat {
    if log == [] then 0
    else CountLaunches(log[..|log| - 1], issue) + if Last(log).issue == issue && Launches(Last(log).visit) then 1 else 0
  }

  function CountOutages(log: seq<Record>, issue: nat): nat {
    if log == [] then 0
    else CountOutages(log[..|log| - 1], issue) + if Last(log).issue == issue && IsOutage(Last(log).visit) then 1 else 0
  }

  /** Launches of the worker for the issue that ended by an error thrown, so that no result was recorded. */
  function CountLost(log: seq<Record>, issue: nat): nat {
    if log == [] then 0
    else
      CountLost(log[..|log| - 1], issue)
      + if Last(log).issue == issue && Launches(Last(log).visit) && Throws(Last(log).visit) then 1 else 0
  }

  function CountPicks(log: seq<Record>, issue: nat): (count: nat)
    ensures count <= |log|
  {
    if log == [] then 0
    else CountPicks(log[..|log| - 1], issue) + if Last(log).issue == issue then 1 else 0
  }

  /** Every launch is recorded as a failure or an outage, or it is lost, or it finished the job. */
  ghost predicate Paid(first: seq<Job>, s: State, k: nat)
    requires k < |s.jobs|
  {
    var job := s.jobs[k];
    CountLaunches(s.log, job.issue) + (if k < |first| then first[k].failures else 0)
    <= job.failures + CountOutages(s.log, job.issue) + CountLost(s.log, job.issue)
       + (if job.status == Done then 1 else 0)
  }

  /** A pick that met an outage left the failures of its job alone. */
  ghost predicate Spent(first: seq<Job>, s: State, k: nat)
    requires k < |s.jobs|
  {
    var job := s.jobs[k];
    job.failures + CountOutages(s.log, job.issue)
    <= (if k < |first| then first[k].failures else 0) + CountPicks(s.log, job.issue)
  }

  ghost predicate Kept(settings: Settings, first: seq<Job>, s: State) {
    && SoundJobs(s.jobs, settings)
    && |first| <= |s.jobs|
    && (forall k :: 0 <= k < |first| ==> s.jobs[k].issue == first[k].issue)
    && (forall k :: 0 <= k < |s.jobs| ==> Paid(first, s, k) && Spent(first, s, k))
    && (forall r :: r in s.log ==> r.issue in Issues(s.jobs) && r.waiting <= Issues(s.jobs))
    && (s.outcome.Exited? ==>
          && (forall j :: j in s.jobs ==> j.status != Pending)
          && s.outcome.code in {0, 2}
          && (s.outcome.code == 2 <==> exists j :: j in s.jobs && j.status == Blocked))
  }

  lemma {:induction false} NeverLogged(log: seq<Record>, issue: nat)
    requires forall r :: r in log ==> r.issue != issue
    ensures CountLaunches(log, issue) == 0 && CountOutages(log, issue) == 0 && CountLost(log, issue) == 0
  {
    if log != [] {
      NeverLogged(log[..|log| - 1], issue);
    }
  }

  lemma AddAllKept(settings: Settings, first: seq<Job>, s: State, found: seq<nat>)
    requires settings.Positive() && Kept(settings, first, s) && s.outcome.Running?
    ensures Kept(settings, first, s.(jobs := AddAll(s.jobs, found)))
  {
    AddAllAppends(s.jobs, found);
    var t := s.(jobs := AddAll(s.jobs, found));
    forall k | 0 <= k < |t.jobs| ensures Paid(first, t, k) && Spent(first, t, k) && SoundJob(t.jobs[k], settings) {
      if k < |s.jobs| {
        assert Paid(first, s, k) && Spent(first, s, k) && t.jobs[k] == s.jobs[k] && s.jobs[k] in s.jobs;
      } else {
        forall r | r in t.log ensures r.issue != t.jobs[k].issue {
          var i :| 0 <= i < |s.jobs| && s.jobs[i].issue == r.issue;
          assert t.jobs[i].issue != t.jobs[k].issue;
        }
        NeverLogged(t.log, t.jobs[k].issue);
      }
    }
  }

  lemma VisitedSound(job: Job, visit: Visit, settings: Settings)
    requires settings.Positive() && job.status == Pending && SoundJob(job, settings)
    ensures var v := Visited(job, visit, settings);
      && SoundJob(v, settings) && v.issue == job.issue
      && (if Launches(visit) then 1 else 0) + job.failures
         <= v.failures + (if IsOutage(visit) then 1 else 0) + (if Launches(visit) && Throws(visit) then 1 else 0)
            + (if v.status == Done then 1 else 0)
      && v.failures + (if IsOutage(visit) then 1 else 0) <= job.failures + 1
  {
  }

  /**
   One more record counts as a launch if its worker ran, to its end or until it was interrupted; as an outage
   if it was one; and as lost if a launch ended by an error thrown.
   */
  lemma CountSnoc(log: seq<Record>, r: Record, issue: nat)
    ensures CountLaunches(log + [r], issue)
         == CountLaunches(log, issue)
            + if r.issue == issue && (r.visit.Finished? || r.visit == Interrupted(true)) then 1 else 0
    ensures CountOutages(log + [r], issue)
         == CountOutages(log, issue) + if r.issue == issue && CountsAsOutage(r.visit) then 1 else 0
    ensures CountLost(log + [r], issue)
         == CountLost(log, issue)
            + if r.issue == issue && (IsExit(r.visit, 70) || r.visit == Interrupted(true)) then 1 else 0
    ensures CountPicks(log + [r], issue) == CountPicks(log, issue) + if r.issue == issue then 1 else 0
  {
    assert (log + [r])[..|log + [r]| - 1] == log;
  }

  lemma VisitPaid(settings: Settings, first: seq<Job>, s: State, i: nat, now: int, visit: Visit, k: nat)
    requires settings.Positive() && SoundJobs(s.jobs, settings) && s.outcome.Running?
    requires i < |s.jobs| && s.jobs[i].status == Pending
    requires k < |s.jobs| && Paid(first, s, k) && Spent(first, s, k)
    ensures var t := AfterVisit(settings, s, i, now, visit);
      && Paid(first, t, k) && Spent(first, t, k)
      && SoundJob(t.jobs[k], settings) && t.jobs[k].issue == s.jobs[k].issue
  {
    assert s.jobs[i] in s.jobs && s.jobs[k] in s.jobs;
    VisitedSound(s.jobs[i], visit, settings);
    CountSnoc(s.log, RecordOf(s.jobs, i, now, visit), s.jobs[k].issue);
  }

  lemma VisitKept(settings: Settings, first: seq<Job>, s: State, i: nat, now: int, visit: Visit)
    requires settings.Positive() && Kept(settings, first, s) && s.outcome.Running?
    requires i < |s.jobs| && Ready(s.jobs[i], now)
    ensures Kept(settings, first, AfterVisit(settings, s, i, now, visit))
  {
    var t := AfterVisit(settings, s, i, now, visit);
    forall k | 0 <= k < |t.jobs|
      ensures Paid(first, t, k) && Spent(first, t, k)
      ensures SoundJob(t.jobs[k], settings) && t.jobs[k].issue == s.jobs[k].issue
    {
      VisitPaid(settings, first, s, i, now, visit, k);
    }
    SameIssues(s.jobs, t.jobs);
    assert s.jobs[i] in s.jobs;
  }

  lemma SameIssues(jobs: seq<Job>, changed: seq<Job>)
    requires |changed| == |jobs| && forall k :: 0 <= k < |jobs| ==> changed[k].issue == jobs[k].issue
    ensures Issues(jobs) <= Issues(changed)
  {
    forall n | n in Issues(jobs) ensures n in Issues(changed) {
      var k :| 0 <= k < |jobs| && jobs[k].issue == n;
      assert changed[k] in changed;
    }
  }

  lemma TurnKept(settings: Settings, first: seq<Job>, s: State, a: Answer)
    requires settings.Positive() && Kept(settings, first, s) && s.outcome.Running?
    ensures Kept(settings, first, Turn(settings, s, a))
  {
    match a
    case DiscoveryFailed(_) => OutcomeIsFree(first, s, Thrown);
    case Discovered(found, now, visit) =>
      AddAllKept(settings, first, s, found);
      var mid := s.(jobs := AddAll(s.jobs, found));
      match Pick(mid.jobs, now)
      case Some(i) => VisitKept(settings, first, mid, i, now, visit);
      case None =>
        var t := Turn(settings, s, a);
        forall k | 0 <= k < |t.jobs| ensures Paid(first, t, k) && Spent(first, t, k) {
          assert Paid(first, mid, k) && Spent(first, mid, k);
        }
        assert t.outcome.Exited? ==> forall j :: j in t.jobs ==> j.status != Pending;
  }

  lemma OutcomeIsFree(first: seq<Job>, s: State, outcome: Outcome)
    ensures forall k :: 0 <= k < |s.jobs| && Paid(first, s, k) ==> Paid(first, s.(outcome := outcome), k)
    ensures forall k :: 0 <= k < |s.jobs| && Spent(first, s, k) ==> Spent(first, s.(outcome := outcome), k)
  {
  }

  lemma {:induction false} RunKeeps(settings: Settings, first: seq<Job>, s: State, answers: seq<Answer>)
    requires settings.Positive() && Kept(settings, first, s) && s.outcome.Running?
    ensures Kept(settings, first, Run(settings, s, answers))
  {
    if answers == [] {
    } else {
      RunKeeps(settings, first, s, answers[..|answers| - 1]);
      var before := Run(settings, s, answers[..|answers| - 1]);
      if before.outcome.Running? {
        TurnKept(settings, first, before, Last(answers));
      }
    }
  }

  lemma {:induction false} RunKept(settings: Settings, s: State, answers: seq<Answer>)
    requires settings.Positive() && SoundJobs(s.jobs, settings) && s.log == [] && s.outcome.Running?
    ensures Kept(settings, s.jobs, Run(settings, s, answers))
  {
    RunKeeps(settings, s.jobs, s, answers);
  }

  /** An error thrown ends the run, so at most one launch is lost, and its job is pending still. */
  ghost predicate LosesOne(s: State) {
    && (s.outcome.Running? ==> forall issue :: CountLost(s.log, issue) == 0)
    && forall k :: 0 <= k < |s.jobs| ==>
         CountLost(s.log, s.jobs[k].issue) == 0
         || (CountLost(s.log, s.jobs[k].issue) == 1 && s.jobs[k].status == Pending)
  }

  lemma VisitLoses(settings: Settings, s: State, i: nat, now: int, visit: Visit)
    requires Unique(s.jobs) && i < |s.jobs| && s.jobs[i].status == Pending
    requires forall issue :: CountLost(s.log, issue) == 0
    ensures LosesOne(AfterVisit(settings, s, i, now, visit))
  {
    var t, r := AfterVisit(settings, s, i, now, visit), RecordOf(s.jobs, i, now, visit);
    forall issue
      ensures CountLost(t.log, issue) == if issue == r.issue && Launches(r.visit) && Throws(r.visit) then 1 else 0
    {
      CountSnoc(s.log, r, issue);
    }
  }

  lemma {:induction false} RunLoses(settings: Settings, s: State, answers: seq<Answer>)
    requires settings.Positive() && SoundJobs(s.jobs, settings) && s.log == [] && s.outcome.Running?
    ensures LosesOne(Run(settings, s, answers))
  {
    if answers != [] {
      var init := answers[..|answers| - 1];
      RunLoses(settings, s, init);
      RunKept(settings, s, init);
      var before := Run(settings, s, init);
      if before.outcome.Running? && Last(answers).Discovered? {
        AddAllAppends(before.jobs, Last(answers).found);
        var mid := before.(jobs := AddAll(before.jobs, Last(answers).found));
        if Pick(mid.jobs, Last(answers).now).Some? {
          VisitLoses(settings, mid, Pick(mid.jobs, Last(answers).now).value, Last(answers).now, Last(answers).visit);
        }
      }
    }
  }

  /**
   In every run of the controller the worker is launched for an issue at most as often as it has
   attempts left plus the outages recorded for it, whatever the world answers.
   */
  lemma {:induction false} LaunchBound(settings: Settings, s: State, answers: seq<Answer>, k: nat)
    requires settings.Positive() && SoundJobs(s.jobs, settings) && s.log == [] && s.outcome.Running?
    requires k < |Run(settings, s, answers).jobs|
    ensures var t := Run(settings, s, answers);
      CountLaunches(t.log, t.jobs[k].issue) + (if k < |s.jobs| then s.jobs[k].failures else 0)
      <= settings.attempts + CountOutages(t.log, t.jobs[k].issue)
  {
    RunKept(settings, s, answers);
    RunLoses(settings, s, answers);
    var t := Run(settings, s, answers);
    assert Paid(s.jobs, t, k) && t.jobs[k] in t.jobs;
  }

  // ---------- Restarts ----------

  /** A restart takes up the saved jobs; the records of all the runs are kept together here. */
  function Resumed(s: State): State {
    s.(outcome := Running)
  }

  /** One controller after another on the same jobs, each ended by its outcome or killed between two turns. */
  ghost function Runs(settings: Settings, s: State, runs: seq<seq<Answer>>): State {
    if runs == [] then s
    else Run(settings, Resumed(Runs(settings, s, runs[..|runs| - 1])), Last(runs))
  }

  lemma ResumedKept(settings: Settings, first: seq<Job>, s: State)
    requires Kept(settings, first, s)
    ensures Kept(settings, first, Resumed(s))
  {
    OutcomeIsFree(first, s, Running);
  }

  lemma {:induction false} RunsKept(settings: Settings, s: State, runs: seq<seq<Answer>>)
    requires settings.Positive() && SoundJobs(s.jobs, settings) && s.log == [] && s.outcome.Running?
    ensures Kept(settings, s.jobs, Resumed(Runs(settings, s, runs)))
  {
    if runs == [] {
    } else {
      var init := runs[..|runs| - 1];
      RunsKept(settings, s, init);
      RunKeeps(settings, s.jobs, Resumed(Runs(settings, s, init)), Last(runs));
      ResumedKept(settings, s.jobs, Runs(settings, s, runs));
    }
  }

  /**
   Over any number of restarts without a manual retry, the worker is launched for an issue at most as often
   as it had attempts left, plus the outages recorded for it, plus its own launches that ended by an error
   thrown.
   */
  lemma {:induction false} LaunchBoundOverRuns(settings: Settings, s: State, runs: seq<seq<Answer>>, k: nat)
    requires settings.Positive() && SoundJobs(s.jobs, settings) && s.log == [] && s.outcome.Running?
    requires k < |Runs(settings, s, runs).jobs|
    ensures var t := Runs(settings, s, runs);
      CountLaunches(t.log, t.jobs[k].issue) + (if k < |s.jobs| then s.jobs[k].failures else 0)
      <= settings.attempts + CountOutages(t.log, t.jobs[k].issue) + CountLost(t.log, t.jobs[k].issue)
  {
    RunsKept(settings, s, runs);
    var t := Resumed(Runs(settings, s, runs));
    assert Paid(s.jobs, t, k) && t.jobs[k] in t.jobs;
  }

  /** A run in which the controller is interrupted while the worker is at its one job. */
  const INTERRUPTED: seq<Answer> := [Discovered([], 0, Interrupted(true))]

  /** No number of launches is too many for lost ones: restarted again and again, each run launches once more. */
  lemma {:induction false} LostLaunches(settings: Settings, issue: nat, n: nat)
    ensures var s := State([Job(issue, Pending, 0, 0, 0)], 0, [], Running);
      var t := Runs(settings, s, seq(n, _ => INTERRUPTED));
      && t.jobs == s.jobs && CountLaunches(t.log, issue) == n
      && CountOutages(t.log, issue) == 0 && CountLost(t.log, issue) == n
  {
    if n > 0 {
      var s, runs := State([Job(issue, Pending, 0, 0, 0)], 0, [], Running), seq(n, _ => INTERRUPTED);
      LostLaunches(settings, issue, n - 1);
      assert runs[..n - 1] == seq(n - 1, _ => INTERRUPTED) && Last(runs) == INTERRUPTED;
      OneMoreLost(settings, Runs(settings, s, runs[..n - 1]), issue);
    }
  }

  lemma {:induction false} OneMoreLost(settings: Settings, s: State, issue: nat)
    requires s.jobs == [Job(issue, Pending, 0, 0, 0)]
    ensures var t := Run(settings, Resumed(s), INTERRUPTED);
      && t.jobs == s.jobs
      && CountLaunches(t.log, issue) == CountLaunches(s.log, issue) + 1
      && CountOutages(t.log, issue) == CountOutages(s.log, issue)
      && CountLost(t.log, issue) == CountLost(s.log, issue) + 1
  {
    assert INTERRUPTED[..0] == [] && Run(settings, Resumed(s), []) == Resumed(s);
    assert Pick(s.jobs[..0], 0) == None && Pick(s.jobs, 0) == Some(0);
    assert s.jobs[0 := s.jobs[0]] == s.jobs;
    CountSnoc(s.log, RecordOf(s.jobs, 0, 0, Interrupted(true)), issue);
  }

  // ---------- What a turn does ----------

  predicate IsDue(job: Job, now: int) {
    job.status == Pending && job.nextAttempt <= now
  }

  /** The job at i is due, none is due earlier, and among equals it comes first. */
  ghost predicate DueFirst(jobs: seq<Job>, now: int, i: int) {
    && 0 <= i < |jobs| && IsDue(jobs[i], now)
    && forall j :: 0 <= j < |jobs| && IsDue(jobs[j], now) ==>
         jobs[i].nextAttempt < jobs[j].nextAttempt || (jobs[i].nextAttempt == jobs[j].nextAttempt && i <= j)
  }

  /**
   A turn records a visit to the job that is due first, beside all that were due, and leaves the other jobs
   alone. With none due it only adds what was discovered, and ends the run if nothing is pending.
   */
  lemma {:induction false} TurnVisitsDue(settings: Settings, s: State, found: seq<nat>, now: int, visit: Visit)
    requires s.outcome.Running?
    ensures var jobs, t := AddAll(s.jobs, found), Turn(settings, s, Discovered(found, now, visit));
      if forall j :: 0 <= j < |jobs| ==> !IsDue(jobs[j], now) then
        && t.jobs == jobs && t.log == s.log && t.clock == now
        && (t.outcome.Running? <==> exists j :: j in jobs && j.status == Pending)
        && (!t.outcome.Running? ==>
              t.outcome == if exists j :: j in jobs && j.status == Blocked then Exited(2) else Exited(0))
      else
        exists i, waiting ::
          && DueFirst(jobs, now, i) && t.log == s.log + [Record(jobs[i].issue, visit, waiting)]
          && (forall n :: n in waiting <==> exists j :: 0 <= j < |jobs| && IsDue(jobs[j], now) && jobs[j].issue == n)
          && |t.jobs| == |jobs| && forall j :: 0 <= j < |jobs| && j != i ==> t.jobs[j] == jobs[j]
  {
    var jobs, t := AddAll(s.jobs, found), Turn(settings, s, Discovered(found, now, visit));
    if j :| 0 <= j < |jobs| && IsDue(jobs[j], now) {
      assert Ready(jobs[j], now);
      var i, waiting := Pick(jobs, now).value, Waiting(jobs, now);
      DueFirstPicked(jobs, now, i);
      forall n ensures n in waiting <==> exists j :: 0 <= j < |jobs| && IsDue(jobs[j], now) && jobs[j].issue == n {
        if n in waiting {
          var job :| job in jobs && Ready(job, now) && job.issue == n;
          var j :| 0 <= j < |jobs| && jobs[j] == job;
        }
      }
      assert t.log == s.log + [Record(jobs[i].issue, visit, waiting)];
    } else {
      PickedIsDue(jobs, now);
    }
  }

  lemma PickedIsDue(jobs: seq<Job>, now: int)
    ensures Pick(jobs, now).Some? ==> IsDue(jobs[Pick(jobs, now).value], now)
  {
  }

  lemma {:induction false} DueFirstPicked(jobs: seq<Job>, now: int, i: nat)
    requires Pick(jobs, now) == Some(i)
    ensures DueFirst(jobs, now, i)
  {
    assert forall j :: 0 <= j < |jobs| ==> (IsDue(jobs[j], now) <==> Ready(jobs[j], now));
  }

  /** The worker's cleanup could not be confirmed, or the controller was told to stop. */
  predicate EndsTheRun(visit: Visit) {
    visit.UnsafeMarker? || visit.Interrupted? || IsExit(visit, 70)
  }

  ghost predicate LookedInVain(settings: Settings, s: State, answers: seq<Answer>) {
    exists n :: 0 <= n < |answers|
      && Run(settings, s, answers[..n]).outcome.Running? && answers[n] == DiscoveryFailed(false)
  }

  /** A run ends by an error thrown exactly if a visit ends it, or discovery fails other than by an outage. */
  lemma {:induction false} ThrownExactly(settings: Settings, s: State, answers: seq<Answer>)
    requires s.log == [] && s.outcome.Running?
    ensures var t := Run(settings, s, answers);
      t.outcome.Thrown? <==>
        LookedInVain(settings, s, answers) || exists k :: 0 <= k < |t.log| && EndsTheRun(t.log[k].visit)
  {
    if answers != [] {
      var init, a := answers[..|answers| - 1], Last(answers);
      var before, t := Run(settings, s, init), Run(settings, s, answers);
      ThrownExactly(settings, s, init);
      if n :| 0 <= n < |init| && Run(settings, s, init[..n]).outcome.Running? && init[n] == DiscoveryFailed(false) {
        assert init[..n] == answers[..n] && answers[n] == init[n];
      }
      if n :| 0 <= n < |answers| && Run(settings, s, answers[..n]).outcome.Running?
              && answers[n] == DiscoveryFailed(false)
      {
        if n < |init| {
          assert init[..n] == answers[..n] && init[n] == answers[n];
        }
      }
      if before.outcome.Running? {
        LastThrown(settings, before, a);
        assert answers[..|answers| - 1] == init;
      }
    }
  }

  lemma {:induction false} LastThrown(settings: Settings, s: State, a: Answer)
    requires s.outcome.Running? && forall k :: 0 <= k < |s.log| ==> !EndsTheRun(s.log[k].visit)
    ensures var t := Turn(settings, s, a);
      t.outcome.Thrown? <==>
        a == DiscoveryFailed(false) || exists k :: 0 <= k < |t.log| && EndsTheRun(t.log[k].visit)
  {
    var t := Turn(settings, s, a);
    if a.Discovered? && Pick(AddAll(s.jobs, a.found), a.now).Some? {
      assert t.log[|s.log|].visit == a.visit;
      assert forall k :: 0 <= k < |s.log| ==> t.log[k] == s.log[k];
    }
  }

  // ---------- What the records make of a job ----------

  /** The issue was found closed, or its worker ended with success. */
  ghost predicate Completed(log: seq<Record>, issue: nat) {
    exists k :: 0 <= k < |log| && log[k].issue == issue && (log[k].visit.Closed? || IsExit(log[k].visit, 0))
  }

  /** The issue was found ineligible, or its worker refused it. */
  ghost predicate Rejected(log: seq<Record>, issue: nat) {
    exists k :: 0 <= k < |log| && log[k].issue == issue && (log[k].visit.Ineligible? || IsExit(log[k].visit, 78))
  }

  predicate IsExit(visit: Visit, code: nat) {
    visit.Finished? && visit.code == code
  }

  /** A failed lookup, preparation or worker that was neither an outage nor unsafe. */
  predicate CountsAgainst(visit: Visit) {
    match visit
    case LookupError(infrastructure, _) => !infrastructure
    case PreparationError(infrastructure, _) => !infrastructure
    case Finished(code, marked, _) => code !in {0, 70, 75} && !marked
    case _ => false
  }

  /** An issue not in the listing but open, or an outage of a lookup, a preparation or a worker. */
  predicate CountsAsOutage(visit: Visit) {
    match visit
    case StillOpen(_) => true
    case LookupError(infrastructure, _) => infrastructure
    case PreparationError(infrastructure, _) => infrastructure
    case Finished(code, marked, _) => code == 75 || (marked && code !in {0, 70})
    case _ => false
  }

  function CountAgainst(log: seq<Record>, issue: nat): nat {
    if log == [] then 0
    else
      CountAgainst(log[..|log| - 1], issue)
      + if Last(log).issue == issue && CountsAgainst(Last(log).visit) then 1 else 0
  }

  /** The outages recorded for the issue since the last failure, on top of those it began with if there was none. */
  function OutagesInARow(log: seq<Record>, issue: nat, first: nat): nat {
    if log == [] then first
    else
      var before := OutagesInARow(log[..|log| - 1], issue, first);
      if Last(log).issue != issue then before
      else if CountsAgainst(Last(log).visit) then 0
      else if CountsAsOutage(Last(log).visit) then before + 1
      else before
  }

  /** When the job is due: a delay after the last failure or outage, which grows with the outages in a row. */
  ghost predicate DueBy(settings: Settings, log: seq<Record>, start: Job, due: int) {
    if log == [] then due == start.nextAttempt
    else
      var visit, before := Last(log).visit, log[..|log| - 1];
      if Last(log).issue != start.issue || !(CountsAgainst(visit) || CountsAsOutage(visit))
      then DueBy(settings, before, start, due)
      else if CountsAgainst(visit) then due == visit.later + settings.delay
      else
        var n := Min(20, OutagesInARow(before, start.issue, start.outages));
        due == visit.later + Min(settings.outageCap, settings.outageDelay * Pow2(n))
  }

  /** How the job began: as it was saved, or as discovery adds it. */
  function StartOf(first: seq<Job>, jobs: seq<Job>, k: nat): Job
    requires k < |jobs|
  {
    if k < |first| then first[k] else Job(jobs[k].issue, Pending, 0, 0, 0)
  }

  /**
   A job is done exactly if it was, or some record completed it, and blocked exactly if it was, or some record
   rejected it, or its attempts are used up. Its counts and its due time are those of its records alone.
   */
  ghost predicate ByRecords(settings: Settings, log: seq<Record>, start: Job, job: Job) {
    && job.issue == start.issue
    && (job.status == Done <==> start.status == Done || Completed(log, job.issue))
    && (job.status == Blocked <==>
          start.status == Blocked || Rejected(log, job.issue) || job.failures >= settings.attempts)
    && job.failures == start.failures + CountAgainst(log, job.issue)
    && job.outages == OutagesInARow(log, job.issue, start.outages)
    && DueBy(settings, log, start, job.nextAttempt)
  }

  ghost predicate AllByRecords(settings: Settings, first: seq<Job>, s: State) {
    && |first| <= |s.jobs|
    && forall k :: 0 <= k < |s.jobs| ==> ByRecords(settings, s.log, StartOf(first, s.jobs, k), s.jobs[k])
  }

  lemma {:induction false} NothingRecorded(settings: Settings, log: seq<Record>, start: Job)
    requires forall r :: r in log ==> r.issue != start.issue
    ensures CountAgainst(log, start.issue) == 0 && OutagesInARow(log, start.issue, start.outages) == start.outages
    ensures DueBy(settings, log, start, start.nextAttempt)
    ensures !Completed(log, start.issue) && !Rejected(log, start.issue)
  {
    if log != [] {
      NothingRecorded(settings, log[..|log| - 1], start);
    }
  }

  lemma {:induction false} EndsSnoc(log: seq<Record>, r: Record, issue: nat)
    ensures Completed(log + [r], issue) <==>
      Completed(log, issue) || (r.issue == issue && (r.visit.Closed? || IsExit(r.visit, 0)))
    ensures Rejected(log + [r], issue) <==>
      Rejected(log, issue) || (r.issue == issue && (r.visit.Ineligible? || IsExit(r.visit, 78)))
  {
    var all := log + [r];
    assert all[|log|] == r;
    if Completed(log, issue) {
      var k :| 0 <= k < |log| && log[k].issue == issue && (log[k].visit.Closed? || IsExit(log[k].visit, 0));
      assert all[k] == log[k];
    }
    if Rejected(log, issue) {
      var k :| 0 <= k < |log| && log[k].issue == issue && (log[k].visit.Ineligible? || IsExit(log[k].visit, 78));
      assert all[k] == log[k];
    }
  }

  /** One more record of the job, and what the visit makes of it. */
  lemma {:induction false} VisitRecorded(settings: Settings, log: seq<Record>, r: Record, start: Job, job: Job)
    requires settings.Positive() && ByRecords(settings, log, start, job) && r.issue == job.issue
    requires job.status == Pending && SoundJob(job, settings)
    ensures ByRecords(settings, log + [r], start, Visited(job, r.visit, settings))
  {
    EndsSnoc(log, r, job.issue);
    CountsSnoc(settings, log, r, start);
    VisitCounts(settings, job, r.visit);
  }

  lemma {:induction false} VisitCounts(settings: Settings, job: Job, visit: Visit)
    requires job.status == Pending
    ensures var v := Visited(job, visit, settings);
      && v.issue == job.issue
      && v.failures == job.failures + (if CountsAgainst(visit) then 1 else 0)
      && v.outages == (if CountsAgainst(visit) then 0 else job.outages + if CountsAsOutage(visit) then 1 else 0)
      && (v.status == Done <==> visit.Closed? || IsExit(visit, 0))
      && (v.status == Blocked <==>
            || visit.Ineligible? || IsExit(visit, 78)
            || (CountsAgainst(visit) && job.failures + 1 >= settings.attempts))
      && (if CountsAgainst(visit) then v.nextAttempt == visit.later + settings.delay
          else if CountsAsOutage(visit) then
            v.nextAttempt == visit.later + Backoff(job.outages + 1, settings.outageDelay, settings.outageCap)
          else v.nextAttempt == job.nextAttempt)
  {
  }

  lemma {:induction false} CountsSnoc(settings: Settings, log: seq<Record>, r: Record, start: Job)
    requires r.issue == start.issue
    ensures CountAgainst(log + [r], start.issue)
         == CountAgainst(log, start.issue) + if CountsAgainst(r.visit) then 1 else 0
    ensures OutagesInARow(log + [r], start.issue, start.outages)
         == if CountsAgainst(r.visit) then 0
            else OutagesInARow(log, start.issue, start.outages) + if CountsAsOutage(r.visit) then 1 else 0
    ensures forall due :: DueBy(settings, log + [r], start, due) <==>
      if CountsAgainst(r.visit) then due == r.visit.later + settings.delay
      else if CountsAsOutage(r.visit) then
        due == r.visit.later
          + Backoff(OutagesInARow(log, start.issue, start.outages) + 1, settings.outageDelay, settings.outageCap)
      else DueBy(settings, log, start, due)
  {
    assert (log + [r])[..|log + [r]| - 1] == log;
  }

  lemma {:induction false} OtherRecorded(settings: Settings, log: seq<Record>, r: Record, start: Job, job: Job)
    requires ByRecords(settings, log, start, job) && r.issue != job.issue
    ensures ByRecords(settings, log + [r], start, job)
  {
    EndsSnoc(log, r, job.issue);
    assert (log + [r])[..|log + [r]| - 1] == log;
  }

  lemma {:induction false} VisitByRecords(settings: Settings, first: seq<Job>, s: State, i: nat, now: int, visit: Visit)
    requires settings.Positive() && SoundJobs(s.jobs, settings) && AllByRecords(settings, first, s)
    requires i < |s.jobs| && s.jobs[i].status == Pending
    ensures AllByRecords(settings, first, AfterVisit(settings, s, i, now, visit))
  {
    var t, r := AfterVisit(settings, s, i, now, visit), RecordOf(s.jobs, i, now, visit);
    forall k | 0 <= k < |t.jobs| ensures ByRecords(settings, t.log, StartOf(first, t.jobs, k), t.jobs[k]) {
      var start := StartOf(first, s.jobs, k);
      assert ByRecords(settings, s.log, start, s.jobs[k]) && s.jobs[i] in s.jobs;
      if k == i {
        VisitRecorded(settings, s.log, r, start, s.jobs[i]);
      } else {
        OtherRecorded(settings, s.log, r, start, s.jobs[k]);
      }
    }
  }

  lemma {:induction false} AddedByRecords(settings: Settings, first: seq<Job>, s: State, found: seq<nat>)
    requires settings.Positive() && Kept(settings, first, s) && AllByRecords(settings, first, s)
    ensures AllByRecords(settings, first, s.(jobs := AddAll(s.jobs, found)))
  {
    AddAllAppends(s.jobs, found);
    var all := AddAll(s.jobs, found);
    forall k | 0 <= k < |all| ensures ByRecords(settings, s.log, StartOf(first, all, k), all[k]) {
      if k < |s.jobs| {
        assert ByRecords(settings, s.log, StartOf(first, s.jobs, k), s.jobs[k]) && all[k] == s.jobs[k];
      } else {
        forall r | r in s.log ensures r.issue != all[k].issue {
          var i :| 0 <= i < |s.jobs| && s.jobs[i].issue == r.issue;
          assert all[i].issue != all[k].issue;
        }
        NothingRecorded(settings, s.log, all[k]);
      }
    }
  }

  lemma {:induction false} TurnByRecords(settings: Settings, first: seq<Job>, s: State, a: Answer)
    requires settings.Positive() && s.outcome.Running? && Kept(settings, first, s) && AllByRecords(settings, first, s)
    ensures AllByRecords(settings, first, Turn(settings, s, a))
  {
    if a.Discovered? {
      AddAllKept(settings, first, s, a.found);
      AddedByRecords(settings, first, s, a.found);
      var mid := s.(jobs := AddAll(s.jobs, a.found));
      if Pick(mid.jobs, a.now).Some? {
        VisitByRecords(settings, first, mid, Pick(mid.jobs, a.now).value, a.now, a.visit);
      }
    }
  }

  lemma {:induction false} RunByRecords(settings: Settings, first: seq<Job>, s: State, answers: seq<Answer>)
    requires settings.Positive() && s.outcome.Running? && Kept(settings, first, s) && AllByRecords(settings, first, s)
    ensures AllByRecords(settings, first, Run(settings, s, answers))
  {
    if answers != [] {
      var init := answers[..|answers| - 1];
      RunByRecords(settings, first, s, init);
      RunKeeps(settings, first, s, init);
      if Run(settings, s, init).outcome.Running? {
        TurnByRecords(settings, first, Run(settings, s, init), Last(answers));
      }
    }
  }

  /**
   Over any number of runs without a manual retry, what has become of every job follows from its records
   alone, and from how it began.
   */
  lemma {:induction false} JobsByRecords(settings: Settings, s: State, runs: seq<seq<Answer>>)
    requires settings.Positive() && SoundJobs(s.jobs, settings) && s.log == [] && s.outcome.Running?
    ensures AllByRecords(settings, s.jobs, Runs(settings, s, runs))
  {
    if runs == [] {
      forall k | 0 <= k < |s.jobs| ensures ByRecords(settings, [], s.jobs[k], s.jobs[k]) {
        assert s.jobs[k] in s.jobs;
      }
    } else {
      var init := runs[..|runs| - 1];
      JobsByRecords(settings, s, init);
      RunsKept(settings, s, init);
      RunByRecords(settings, s.jobs, Resumed(Runs(settings, s, init)), Last(runs));
    }
  }

  /** In every run outages are free: the failures of a job are at most its picks that met no outage. */
  lemma {:induction false} OutagesAreFree(settings: Settings, s: State, answers: seq<Answer>, k: nat)
    requires settings.Positive() && SoundJobs(s.jobs, settings) && s.log == [] && s.outcome.Running?
    requires k < |Run(settings, s, answers).jobs|
    ensures var t := Run(settings, s, answers);
      t.jobs[k].failures <= (if k < |s.jobs| then s.jobs[k].failures else 0)
        + CountPicks(t.log, t.jobs[k].issue) - CountOutages(t.log, t.jobs[k].issue)
  {
    RunKept(settings, s, answers);
    assert Spent(s.jobs, Run(settings, s, answers), k);
  }

  /** The loop returns 0 exactly when every job is done, and 2 when nothing is pending but some are blocked. */
  lemma {:induction false} ExitCode(settings: Settings, s: State, answers: seq<Answer>)
    requires settings.Positive() && SoundJobs(s.jobs, settings) && s.log == [] && s.outcome.Running?
    ensures var t := Run(settings, s, answers);
      t.outcome.Exited? ==>
        && (t.outcome.code == 0 <==> forall j :: j in t.jobs ==> j.status == Done)
        && (t.outcome.code == 2 <==> exists j :: j in t.jobs && j.status == Blocked)
        && (forall j :: j in t.jobs ==> j.status != Pending)
        && t.outcome.code in {0, 2}
  {
    RunKept(settings, s, answers);
  }

  /** A retried job is pending with its whole budget again, and nothing else changes. */
  lemma {:induction false} RetrySound(settings: Settings, jobs: seq<Job>, issue: nat)
    requires settings.Positive() && SoundJobs(jobs, settings)
    ensures match Retry(jobs, issue)
      case None => forall j :: j in jobs && j.issue == issue ==> j.status == Done
      case Some(again) =>
        && SoundJobs(again, settings) && |again| == |jobs|
        && exists k :: 0 <= k < |jobs| && jobs[k].issue == issue && jobs[k].status != Done
                       && again == jobs[k := Job(issue, Pending, 0, 0, 0)]
  {
    FindExact(jobs, issue);
    if Retry(jobs, issue).Some? {
      var k := ResetIsUpdate(jobs, issue);
    } else if j :| j in jobs && j.issue == issue {
      assert Find(jobs, issue).Some?;
    }
  }

  lemma {:induction false} ResetIsUpdate(jobs: seq<Job>, issue: nat) returns (k: nat)
    requires Find(jobs, issue).Some?
    ensures k < |jobs| && jobs[k] == Find(jobs, issue).value && jobs[k].issue == issue
    ensures Reset(jobs, issue) == jobs[k := Job(issue, Pending, 0, 0, 0)]
  {
    if jobs[0].issue == issue {
      k := 0;
    } else {
      k := ResetIsUpdate(jobs[1..], issue);
      k := k + 1;
    }
  }

  // ---------- Fairness ----------

  /** The clock never goes back: each turn selects, and then records, no earlier than before. */
  ghost predicate ClockForward(settings: Settings, s: State, answers: seq<Answer>) {
    answers == [] || (
      var before, a := answers[..|answers| - 1], Last(answers);
      && ClockForward(settings, s, before)
      && (a.Discovered? ==> Run(settings, s, before).clock <= a.now <= ClockAfter(a.now, a.visit)))
  }

  ghost predicate PickedIn(log: seq<Record>, issue: nat, from: int, to: int) {
    exists m :: 0 <= from <= m < to <= |log| && log[m].issue == issue
  }

  lemma PickedGrows(log: seq<Record>, longer: seq<Record>, issue: nat, from: int, to: int)
    requires log <= longer && PickedIn(log, issue, from, to)
    ensures PickedIn(longer, issue, from, to)
  {
    var m :| 0 <= from <= m < to <= |log| && log[m].issue == issue;
    assert longer[m].issue == issue;
  }

  /** Who was ready at a pick is ready at every later pick until picked, and no one overtakes it twice. */
  ghost predicate FairLog(log: seq<Record>) {
    forall i, k, issue :: 0 <= i < k < |log| && issue in log[i].waiting && !PickedIn(log, issue, i, k) ==>
      issue in log[k].waiting && log[k].issue != log[i].issue
  }

  /** Until it is picked, who was ready at a pick is due, and before the job that was picked then. */
  ghost predicate FairNow(s: State) {
    forall i, issue :: 0 <= i < |s.log| && issue in s.log[i].waiting && !PickedIn(s.log, issue, i, |s.log|) ==>
      Find(s.jobs, issue).Some? && Ready(Find(s.jobs, issue).value, s.clock)
      && Find(s.jobs, s.log[i].issue).Some?
      && (Find(s.jobs, s.log[i].issue).value.status == Pending ==>
            Find(s.jobs, issue).value.nextAttempt < Find(s.jobs, s.log[i].issue).value.nextAttempt)
  }

  lemma {:induction false} FindAt(jobs: seq<Job>, k: nat)
    requires Unique(jobs) && k < |jobs|
    ensures Find(jobs, jobs[k].issue) == Some(jobs[k])
  {
    if k > 0 {
      FindAt(jobs[1..], k - 1);
    }
  }

  lemma FindUpdated(jobs: seq<Job>, k: nat, job: Job, issue: nat)
    requires Unique(jobs) && k < |jobs| && job.issue == jobs[k].issue
    ensures Find(jobs[k := job], issue) == if issue == job.issue then Some(job) else Find(jobs, issue)
  {
    var t := jobs[k := job];
    FindExact(jobs, issue);
    FindExact(t, issue);
    FindAt(t, k);
    if issue != job.issue && Find(jobs, issue).Some? {
      var m :| 0 <= m < |jobs| && jobs[m] == Find(jobs, issue).value;
      FindAt(jobs, m);
      FindAt(t, m);
    }
  }

  lemma FindAdded(jobs: seq<Job>, all: seq<Job>, issue: nat)
    requires Unique(all) && jobs <= all && Find(jobs, issue).Some?
    ensures Find(all, issue) == Find(jobs, issue)
  {
    FindExact(jobs, issue);
    var m :| 0 <= m < |jobs| && jobs[m] == Find(jobs, issue).value;
    FindAt(all, m);
  }

  lemma {:induction false} VisitFair(settings: Settings, s: State, i: nat, now: int, visit: Visit)
    requires settings.Positive() && Unique(s.jobs) && FairLog(s.log) && FairNow(s)
    requires s.clock <= now <= ClockAfter(now, visit)
    requires Pick(s.jobs, now) == Some(i)
    ensures var t := AfterVisit(settings, s, i, now, visit);
      FairLog(t.log) && (t.outcome.Running? ==> FairNow(t))
  {
    var record, t := RecordOf(s.jobs, i, now, visit), AfterVisit(settings, s, i, now, visit);
    var last := |s.log|;
    FindAt(s.jobs, i);
    forall a, issue | 0 <= a < last && issue in s.log[a].waiting && !PickedIn(t.log, issue, a, last)
      ensures issue in record.waiting && record.issue != s.log[a].issue
      ensures Find(s.jobs, issue).Some? && Ready(Find(s.jobs, issue).value, now)
    {
      if PickedIn(s.log, issue, a, last) {
        PickedGrows(s.log, t.log, issue, a, last);
      }
      FindExact(s.jobs, issue);
      var m :| 0 <= m < |s.jobs| && s.jobs[m] == Find(s.jobs, issue).value;
    }
    forall a, k, issue | 0 <= a < k < |t.log| && issue in t.log[a].waiting && !PickedIn(t.log, issue, a, k)
      ensures issue in t.log[k].waiting && t.log[k].issue != t.log[a].issue
    {
      if k < last {
        if PickedIn(s.log, issue, a, k) {
          PickedGrows(s.log, t.log, issue, a, k);
        }
      }
    }
    if t.outcome.Running? {
      forall a, issue | 0 <= a < |t.log| && issue in t.log[a].waiting && !PickedIn(t.log, issue, a, |t.log|)
        ensures Find(t.jobs, issue).Some? && Ready(Find(t.jobs, issue).value, t.clock)
          && Find(t.jobs, t.log[a].issue).Some?
          && (Find(t.jobs, t.log[a].issue).value.status == Pending ==>
                Find(t.jobs, issue).value.nextAttempt < Find(t.jobs, t.log[a].issue).value.nextAttempt)
      {
        StillFirst(settings, s, i, now, visit, a, issue);
      }
    }
  }

  lemma StillFirst(settings: Settings, s: State, i: nat, now: int, visit: Visit, a: nat, issue: nat)
    requires settings.Positive() && Unique(s.jobs) && FairNow(s) && !Throws(visit)
    requires s.clock <= now <= ClockAfter(now, visit) && Pick(s.jobs, now) == Some(i)
    requires var log := AfterVisit(settings, s, i, now, visit).log;
      a < |log| && issue in log[a].waiting && !PickedIn(log, issue, a, |log|)
    ensures var t := AfterVisit(settings, s, i, now, visit);
      && Find(t.jobs, issue).Some? && Ready(Find(t.jobs, issue).value, t.clock)
      && Find(t.jobs, t.log[a].issue).Some?
      && (Find(t.jobs, t.log[a].issue).value.status == Pending ==>
            Find(t.jobs, issue).value.nextAttempt < Find(t.jobs, t.log[a].issue).value.nextAttempt)
  {
    var job, visited, last := s.jobs[i], Visited(s.jobs[i], visit, settings), |s.log|;
    var t := AfterVisit(settings, s, i, now, visit);
    assert t.log[last].issue == job.issue;
    assert issue != job.issue;
    FindUpdated(s.jobs, i, visited, issue);
    FindUpdated(s.jobs, i, visited, t.log[a].issue);
    VisitedIsLater(job, visit, settings, now);
    if a < last {
      if PickedIn(s.log, issue, a, last) {
        PickedGrows(s.log, t.log, issue, a, last);
      }
    } else {
      var j :| j in s.jobs && Ready(j, now) && j.issue == issue;
      var m :| 0 <= m < |s.jobs| && s.jobs[m] == j;
      FindAt(s.jobs, m);
    }
  }

  /** A job still pending after its visit is due strictly later than everything that was due. */
  lemma VisitedIsLater(job: Job, visit: Visit, settings: Settings, now: int)
    requires settings.Positive() && job.status == Pending && !Throws(visit) && now <= ClockAfter(now, visit)
    ensures var v := Visited(job, visit, settings); v.status == Pending ==> v.nextAttempt > now
  {
    match visit
    case StillOpen(later) => FailedIsLater(job, true, later, settings);
    case LookupError(infrastructure, later) => FailedIsLater(job, infrastructure, later, settings);
    case PreparationError(infrastructure, later) => FailedIsLater(job, infrastructure, later, settings);
    case Finished(code, marked, later) => FailedIsLater(job, code == OUTAGE_CODE || marked, later, settings);
    case _ =>
  }

  lemma TurnFair(settings: Settings, s: State, a: Answer)
    requires settings.Positive() && Unique(s.jobs) && FairLog(s.log) && FairNow(s)
    requires a.Discovered? ==> s.clock <= a.now <= ClockAfter(a.now, a.visit)
    ensures var t := Turn(settings, s, a);
      FairLog(t.log) && (t.outcome.Running? ==> FairNow(t))
  {
    if a.Discovered? {
      AddAllAppends(s.jobs, a.found);
      var mid := s.(jobs := AddAll(s.jobs, a.found));
      forall i, issue | 0 <= i < |s.log| && issue in s.log[i].waiting && !PickedIn(s.log, issue, i, |s.log|)
        ensures Find(mid.jobs, issue) == Find(s.jobs, issue)
        ensures Find(mid.jobs, s.log[i].issue) == Find(s.jobs, s.log[i].issue)
      {
        FindAdded(s.jobs, mid.jobs, issue);
        FindAdded(s.jobs, mid.jobs, s.log[i].issue);
      }
      match Pick(mid.jobs, a.now)
      case Some(i) => VisitFair(settings, mid, i, a.now, a.visit);
      case None =>
    }
  }

  lemma {:induction false} RunFair(settings: Settings, s: State, answers: seq<Answer>)
    requires settings.Positive() && SoundJobs(s.jobs, settings) && s.log == [] && s.outcome.Running?
    requires ClockForward(settings, s, answers)
    ensures var t := Run(settings, s, answers);
      FairLog(t.log) && (t.outcome.Running? ==> FairNow(t))
  {
    if answers != [] {
      RunFair(settings, s, answers[..|answers| - 1]);
      RunKept(settings, s, answers[..|answers| - 1]);
      var before := Run(settings, s, answers[..|answers| - 1]);
      if before.outcome.Running? {
        TurnFair(settings, before, Last(answers));
      }
    }
  }

  /** A ready job is bypassed at most once by each other job before it is picked itself. */
  lemma {:induction false} BypassedOnce(settings: Settings, s: State, answers: seq<Answer>, i: nat, k: nat, issue: nat)
    requires settings.Positive() && SoundJobs(s.jobs, settings) && s.log == [] && s.outcome.Running?
    requires ClockForward(settings, s, answers)
    requires var log := Run(settings, s, answers).log;
      i < k < |log| && issue in log[i].waiting && log[i].issue == log[k].issue
    ensures PickedIn(Run(settings, s, answers).log, issue, i, k)
  {
    RunFair(settings, s, answers);
  }

  lemma IssuesSize(jobs: seq<Job>)
    ensures |Issues(jobs)| <= |jobs|
  {
    if jobs != [] {
      IssuesSize(jobs[1..]);
      assert jobs == [jobs[0]] + jobs[1..];
      assert Issues(jobs) == {jobs[0].issue} + Issues(jobs[1..]);
    }
  }

  /** So a ready job is picked within as many picks as there are jobs. */
  lemma {:induction false} PickedSoon(settings: Settings, s: State, answers: seq<Answer>, i: nat, issue: nat)
    requires settings.Positive() && SoundJobs(s.jobs, settings) && s.log == [] && s.outcome.Running?
    requires ClockForward(settings, s, answers)
    requires var log := Run(settings, s, answers).log; i < |log| && issue in log[i].waiting
    requires !PickedIn(Run(settings, s, answers).log, issue, i, |Run(settings, s, answers).log|)
    ensures |Run(settings, s, answers).log| - i < |Run(settings, s, answers).jobs|
  {
    var t := Run(settings, s, answers);
    RunFair(settings, s, answers);
    RunKept(settings, s, answers);
    var picked := PicksAreDistinct(t.log, i, issue);
    forall n | 0 <= n < |picked| ensures picked[n] in Issues(t.jobs) - {issue} {
      assert t.log[i + n] in t.log;
    }
    assert t.log[i] in t.log;
    DistinctSize(picked);
    SubsetSize(Elements(picked), Issues(t.jobs) - {issue});
    IssuesSize(t.jobs);
  }

  lemma PicksAreDistinct(log: seq<Record>, i: nat, issue: nat) returns (picked: seq<nat>)
    requires FairLog(log) && i < |log| && issue in log[i].waiting && !PickedIn(log, issue, i, |log|)
    ensures |picked| == |log| - i
    ensures forall n :: 0 <= n < |picked| ==> picked[n] == log[i + n].issue && picked[n] != issue
    ensures Distinct(picked)
  {
    picked := seq(|log| - i, n requires 0 <= n < |log| - i => log[i + n].issue);
    forall m, n | 0 <= m < n < |picked| ensures picked[m] != picked[n] {
      assert !PickedIn(log, issue, i, i + m) && !PickedIn(log, issue, i + m, i + n);
      assert m > 0 ==> issue in log[i + m].waiting;
    }
  }

  // ---------- The controller ----------

  class Controller {
    const settings: Settings
    var jobs: seq<Job>
    var outcome: Outcome
    ghost var clock: int
    ghost var log: seq<Record>

    ghost function Value(): State
      reads this
    {
      State(jobs, clock, log, outcome)
    }

    constructor (settings: Settings, saved: seq<Job>)
      ensures this.settings == settings && Value() == State(saved, 0, [], Running)
    {
      this.settings, jobs, outcome := settings, saved, Running;
      clock, log := 0, [];
    }

    method RecordFailure(k: nat, infrastructure: bool, now: int)
      requires k < |jobs|
      modifies this`jobs
      ensures jobs == old(jobs)[k := Failed(old(jobs)[k], infrastructure, now, settings)]
    {
      var job := jobs[k];
      if infrastructure {
        job := job.(outages := job.outages + 1);
        job := job.(nextAttempt := now + Backoff(job.outages, settings.outageDelay, settings.outageCap));
      } else {
        job := job.(failures := job.failures + 1);
        job := job.(outages := 0);
        job := job.(nextAttempt := now + settings.delay);
        if job.failures >= settings.attempts {
          job := job.(status := Blocked);
        }
      }
      jobs := jobs[k := job];
    }

    method AddFound(found: seq<nat>)
      modifies this`jobs
      ensures jobs == AddAll(old(jobs), found)
    {
      for n := 0 to |found|
        invariant AddAll(jobs, found[n..]) == AddAll(old(jobs), found)
      {
        if Find(jobs, found[n]).None? {
          jobs := jobs + [Job(found[n], Pending, 0, 0, 0)];
        }
        assert found[n..][1..] == found[n + 1..];
      }
    }

    method VisitJob(k: nat, visit: Visit)
      requires k < |jobs|
      modifies this`jobs, this`outcome
      ensures jobs == old(jobs)[k := Visited(old(jobs)[k], visit, settings)]
      ensures outcome == if Throws(visit) then Thrown else old(outcome)
    {
      match visit {
        case Closed => jobs := jobs[k := jobs[k].(status := Done)];
        case StillOpen(later) => RecordFailure(k, true, later);
        case LookupError(infrastructure, later) => RecordFailure(k, infrastructure, later);
        case Ineligible => jobs := jobs[k := jobs[k].(status := Blocked)];
        case PreparationError(infrastructure, later) => RecordFailure(k, infrastructure, later);
        case Finished(code, marked, later) =>
          if code == UNSAFE_CODE {
            outcome := Thrown;
          } else if code == 0 {
            jobs := jobs[k := jobs[k].(status := Done)];
          } else {
            RecordFailure(k, code == OUTAGE_CODE || marked, later);
            if code == REFUSED_CODE {
              jobs := jobs[k := jobs[k].(status := Blocked)];
            }
          }
        case UnsafeMarker => outcome := Thrown;
        case Interrupted(_) => outcome := Thrown;
      }
    }

    method TakeTurn(a: Answer)
      requires outcome.Running?
      modifies this
      ensures Value() == Turn(settings, old(Value()), a)
    {
      match a {
        case DiscoveryFailed(infrastructure) =>
          if !infrastructure {
            outcome := Thrown;
          }
        case Discovered(found, now, visit) =>
          AddFound(found);
          var pick := Pick(jobs, now);
          if pick.None? {
            clock := now;
            if !exists j :: j in jobs && j.status == Pending {
              outcome := Exited(if exists j :: j in jobs && j.status == Blocked then 2 else 0);
            }
          } else {
            var k := pick.value;
            clock := ClockAfter(now, visit);
            log := log + [Record(jobs[k].issue, visit, Waiting(jobs, now))];
            VisitJob(k, visit);
          }
      }
    }

    /** The loop of `main`, against any answers of the world. */
    method Drain(answers: seq<Answer>)
      requires outcome.Running?
      modifies this
      ensures Value() == Run(settings, old(Value()), answers)
    {
      var n := 0;
      while n < |answers| && outcome.Running?
        invariant n <= |answers|
        invariant Value() == Run(settings, old(Value()), answers[..n])
      {
        assert answers[..n + 1][..n] == answers[..n];
        TakeTurn(answers[n]);
        n := n + 1;
      }
      StoppedRun(settings, old(Value()), answers, n);
      assert answers[..|answers|] == answers;
    }
  }

  lemma {:induction false} StoppedRun(settings: Settings, s: State, answers: seq<Answer>, n: nat)
    requires n <= |answers|
    requires n < |answers| ==> !Run(settings, s, answers[..n]).outcome.Running?
    ensures Run(settings, s, answers[..n]) == Run(settings, s, answers)
  {
    if n < |answers| {
      var init := answers[..|answers| - 1];
      assert init[..n] == answers[..n];
      if n < |init| {
        StoppedRun(settings, s, init, n);
      } else {
        assert answers[..n] == init;
      }
    } else {
      assert answers[..n] == answers;
    }
  }
}
