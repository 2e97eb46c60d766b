/** One download job over whole runs: starting, failing, waiting, crashing, recovering, canceling and retrying. */
module DownloadJobs {
  import opened Common
  import opened DownloadContract

  datatype State =
    | Queued | Recovering | RetryWait | WaitingForRateLimit | WaitingForSession
    | Preparing | Downloading | Verifying | Packaging | Committing
    | Completed | Failed | Canceled

  predicate Runnable(s: State) {
    s == Queued || s == Recovering || s == RetryWait || s == WaitingForRateLimit || s == WaitingForSession
  }

  predicate Active(s: State) {
    s == Preparing || s == Downloading || s == Verifying || s == Packaging || s == Committing
  }

  /**
   A job row. `working` says that its worker is alive, `stopping` that the worker was told to cancel; `threads`
   counts commits handed to a thread, which no cancel can stop, and not yet in the journal; `journal` counts the
   open rows of the commit journal that are not yet registered. `pages`, `file` and `staged` say what of an earlier
   attempt is still kept for it.
   */
  datatype Job = Job(
    state: State, contract: Contract, attempts: nat, error: Option<string>, options: Option<seq<string>>,
    pages: bool, file: bool, staged: bool, working: bool, stopping: bool, threads: nat, journal: nat)

  datatype Event =
    | Start
    | Advance(to: State)
    | Keep(pages: bool, file: bool)
    | Commit       // the worker hands its artifact to the commit thread
    | Refuse       // the thread finds nothing to journal, or no room for the file
    | Journal      // the thread writes the journal row
    | Register     // an open row is carried to its registration, by the thread or by a replay at startup
    | Abort        // an open row is given up
    | Fail(category: string)
    | Cancel
    | Stop         // the worker ends: told to, or done and its staging area removed
    | Crash
    | Recover
    | Again(way: Option<string>)

  predicate Enabled(job: Job, ev: Event) {
    match ev
    case Start => Runnable(job.state) && !job.working
    case Advance(to) => job.working && Active(job.state) && Active(to) && to != Preparing
    case Keep(_, _) => job.working && Active(job.state)
    case Commit => job.working && !job.stopping && job.state == Committing
    case Refuse => job.threads > 0
    case Journal => job.threads > 0
    case Register => job.journal > 0
    case Abort => job.journal > 0
    case Fail(_) => job.working && !job.stopping
    case Stop => job.working && (job.stopping || job.state == Completed)
    case Recover => !job.working
    case _ => true
  }

  /** `_handle_failure`: a canceled job is left alone, and no commit is taken back. */
  function AfterFailure(job: Job, category: string, budget: nat): Job {
    var j := job.(working := false);
    if job.state == Canceled then j
    else
      match Decided(job.contract, job.attempts, budget, category)
      case Retry => j.(state := RetryWait, error := Some(category))
      case WaitForSession => j.(state := WaitingForSession, error := Some(category), attempts := 0)
      case WaitForRateLimit => j.(state := WaitingForRateLimit, error := Some(category), attempts := 0)
      case Fallback(way) =>
        var switched := WithMethod(job.contract, way);
        if switched.None? then j
        else j.(state := Queued, attempts := 0, contract := switched.value, pages := false, file := false,
                staged := false, error := Some(category))
      case Ask => j.(state := Failed, error := Some(category), options := Some(job.contract.order))
      case GiveUp => j.(state := Failed, error := Some(category), options := None)
  }

  function Next(job: Job, ev: Event, budget: nat): Job {
    match ev
    case Start => job.(state := Preparing, attempts := job.attempts + 1, staged := true, working := true)
    case Advance(to) => job.(state := to)
    case Keep(pages, file) => job.(pages := pages, file := file)
    case Commit => job.(threads := job.threads + 1)
    case Refuse => if job.threads == 0 then job else job.(threads := job.threads - 1)
    case Journal => if job.threads == 0 then job else job.(threads := job.threads - 1, journal := job.journal + 1)
    case Register =>
      if job.journal == 0 then job else job.(state := Completed, journal := job.journal - 1, error := None)
    case Abort => if job.journal == 0 then job else job.(journal := job.journal - 1)
    case Fail(category) => AfterFailure(job, category, budget)
    case Cancel =>
      if job.state == Canceled || job.state == Completed then job
      else job.(state := Canceled, stopping := job.stopping || (job.working && Active(job.state)))
    case Stop => job.(working := false, stopping := false, staged := job.staged && job.stopping)
    case Crash => job.(working := false, stopping := false, threads := 0)
    case Recover =>
      if !Active(job.state) then job
      else if job.attempts > budget then job.(state := Failed, error := Some("interrupted"))
      else job.(state := Recovering)
    case Again(way) =>
      if job.working then job
      else
        var c := if way.None? then Some(job.contract) else WithMethod(job.contract, way.value);
        if c.None? then job
        else job.(state := Queued, attempts := 0, error := None, options := None, contract := c.value, file := false)
  }

  function After(job: Job, evs: seq<Event>, budget: nat): Job {
    if evs == [] then job else Next(After(job, evs[..|evs| - 1], budget), evs[|evs| - 1], budget)
  }

  predicate IsRun(job: Job, evs: seq<Event>, budget: nat) {
    evs == [] || (IsRun(job, evs[..|evs| - 1], budget)
                  && Enabled(After(job, evs[..|evs| - 1], budget), evs[|evs| - 1]))
  }

  /** A job as `enqueue` writes it. */
  function Enqueued(c: Contract): Job {
    Job(Queued, c, 0, None, None, false, false, false, false, false, 0, 0)
  }

  // ---- The contract ------------------------------------------------------------------------------

  /** The methods tried so far only grow, and the first one stays the first. */
  lemma StepKeepsPromise(job: Job, ev: Event, budget: nat)
    requires WellMade(job.contract)
    ensures var c := Next(job, ev, budget).contract;
            WellMade(c) && SamePromise(job.contract, c) && job.contract.attempted <= c.attempted
  {
    hide AfterFailure, Decided, WithMethod, WellMade;
    if ev.Fail? {
      FailureKeepsPromise(job, ev.category, budget);
    } else if ev.Again? && ev.way.Some? {
      SwitchKeepsPromise(job.contract, ev.way.value);
    }
  }

  lemma SwitchKeepsPromise(c: Contract, way: string)
    requires WellMade(c)
    ensures var next := WithMethod(c, way);
            next.Some? ==> WellMade(next.value) && SamePromise(c, next.value) && c.attempted <= next.value.attempted
  {
  }

  lemma FailureKeepsPromise(job: Job, category: string, budget: nat)
    requires WellMade(job.contract)
    ensures var c := AfterFailure(job, category, budget).contract;
            WellMade(c) && SamePromise(job.contract, c) && job.contract.attempted <= c.attempted
  {
    hide Decided;
    if Decided(job.contract, job.attempts, budget, category).Fallback? {
      FallbackKeepsPromise(job.contract, job.attempts, budget, category);
    }
  }

  /**
   Whatever happens to a job, its source, language, unit, output, file format, mode and fallback order are
   the ones it was queued with; only the method changes, and it is always a known one.
   */
  lemma {:induction false} PromiseKept(job: Job, evs: seq<Event>, budget: nat)
    requires WellMade(job.contract)
    ensures var c := After(job, evs, budget).contract;
            WellMade(c) && SamePromise(job.contract, c) && job.contract.attempted <= c.attempted
  {
    if evs != [] {
      hide Next, WellMade;
      PromiseKept(job, evs[..|evs| - 1], budget);
      StepKeepsPromise(After(job, evs[..|evs| - 1], budget), evs[|evs| - 1], budget);
    }
  }

  // ---- How often a job can start -----------------------------------------------------------------

  /** No manual retry, and no failure that makes the job wait for something outside it. */
  predicate Unaided(evs: seq<Event>) {
    forall ev :: ev in evs ==> !ev.Again? && (ev.Fail? ==> ev.category !in WAITING)
  }

  predicate NeverCrashes(evs: seq<Event>) {
    Crash !in evs && Recover !in evs
  }

  function Starts(job: Job, evs: seq<Event>, budget: nat): nat {
    if evs == [] then 0
    else Starts(job, evs[..|evs| - 1], budget) + if evs[|evs| - 1] == Start then 1 else 0
  }

  function StartsWith(job: Job, evs: seq<Event>, budget: nat, way: string): nat {
    if evs == [] then 0
    else
      var before := After(job, evs[..|evs| - 1], budget);
      StartsWith(job, evs[..|evs| - 1], budget, way)
      + if evs[|evs| - 1] == Start && before.contract.way == way then 1 else 0
  }

  /** How often one method may start: a crash may take one attempt more than the failures count. */
  function Cap(budget: nat, crashes: bool): nat {
    if crashes then budget + 1 else Max(1, budget)
  }

  /** A job waiting to run still has an attempt left. */
  predicate Paced(job: Job, budget: nat, crashes: bool) {
    && job.attempts <= Cap(budget, crashes)
    && (Runnable(job.state) ==> job.attempts < Cap(budget, crashes))
  }

  lemma StepPaced(job: Job, ev: Event, budget: nat, crashes: bool)
    requires Paced(job, budget, crashes) && Enabled(job, ev) && Unaided([ev])
    requires !crashes ==> ev != Crash && ev != Recover
    ensures Paced(Next(job, ev, budget), budget, crashes)
  {
    assert ev in [ev];
  }

  lemma UnaidedPrefix(evs: seq<Event>)
    requires evs != [] && Unaided(evs)
    ensures Unaided(evs[..|evs| - 1]) && Unaided([evs[|evs| - 1]])
    ensures NeverCrashes(evs) ==> NeverCrashes(evs[..|evs| - 1]) && evs[|evs| - 1] != Crash && evs[|evs| - 1] != Recover
  {
    assert evs[|evs| - 1] in evs;
  }

  lemma {:induction false} AlwaysPaced(c: Contract, evs: seq<Event>, budget: nat, crashes: bool)
    requires IsRun(Enqueued(c), evs, budget) && Unaided(evs) && (!crashes ==> NeverCrashes(evs))
    ensures Paced(After(Enqueued(c), evs, budget), budget, crashes)
  {
    if evs != [] {
      hide Next, Enabled, Paced, Unaided, NeverCrashes;
      UnaidedPrefix(evs);
      AlwaysPaced(c, evs[..|evs| - 1], budget, crashes);
      StepPaced(After(Enqueued(c), evs[..|evs| - 1], budget), evs[|evs| - 1], budget, crashes);
    } else {
      assert Paced(Enqueued(c), budget, crashes);
    }
  }

  /** What one unaided step does to the count of tries: a fallback brings a method never tried before. */
  lemma StepTries(job: Job, ev: Event, budget: nat)
    requires WellMade(job.contract) && Enabled(job, ev) && Unaided([ev])
    ensures var j := Next(job, ev, budget);
            if j.contract == job.contract then j.attempts == job.attempts + if ev == Start then 1 else 0
            else ev != Start && j.attempts == 0 && j.contract.way !in job.contract.attempted
                 && j.contract.attempted == job.contract.attempted + [j.contract.way]
  {
    assert ev in [ev];
  }

  /** The exact account: the current method has started `attempts` times, the earlier ones within the cap. */
  ghost predicate Accounted(c: Contract, evs: seq<Event>, budget: nat, crashes: bool) {
    var job := After(Enqueued(c), evs, budget);
    && Distinct(job.contract.attempted)
    && (forall way :: way !in job.contract.attempted ==> StartsWith(Enqueued(c), evs, budget, way) == 0)
    && (forall way :: StartsWith(Enqueued(c), evs, budget, way) <= Cap(budget, crashes))
    && StartsWith(Enqueued(c), evs, budget, job.contract.way) == job.attempts
    && Starts(Enqueued(c), evs, budget)
       <= Times(Cap(budget, crashes), |job.contract.attempted|) - Cap(budget, crashes) + job.attempts
  }

  function Times(cap: nat, n: nat): nat {
    cap * n
  }

  lemma OneMoreTime(cap: nat, n: nat)
    ensures Times(cap, n + 1) == Times(cap, n) + cap && Times(cap, 1) == cap
  {
  }

  lemma {:induction false} StartsAccounted(c: Contract, evs: seq<Event>, budget: nat, crashes: bool)
    requires WellMade(c) && c.attempted == [c.way]
    requires IsRun(Enqueued(c), evs, budget) && Unaided(evs) && (!crashes ==> NeverCrashes(evs))
    ensures Accounted(c, evs, budget, crashes)
  {
    var job0 := Enqueued(c);
    if evs != [] {
      hide Next, Enabled, Unaided, NeverCrashes, Cap, WellMade;
      var k := |evs| - 1;
      var before := After(job0, evs[..k], budget);
      UnaidedPrefix(evs);
      StartsAccounted(c, evs[..k], budget, crashes);
      PromiseKept(job0, evs[..k], budget);
      StepTries(before, evs[k], budget);
      AlwaysPaced(c, evs[..k], budget, crashes);
      AlwaysPaced(c, evs, budget, crashes);
      AttemptedLast(before.contract);
      AccountStep(c, evs, budget, crashes);
    }
  }

  lemma AttemptedLast(c: Contract)
    requires WellMade(c)
    ensures c.attempted != [] && c.way in c.attempted
  {
  }

  lemma StartsLast(job: Job, evs: seq<Event>, budget: nat, way: string)
    requires evs != []
    ensures var k := |evs| - 1;
            && Starts(job, evs, budget) == Starts(job, evs[..k], budget) + (if evs[k] == Start then 1 else 0)
            && StartsWith(job, evs, budget, way)
               == StartsWith(job, evs[..k], budget, way)
                  + if evs[k] == Start && After(job, evs[..k], budget).contract.way == way then 1 else 0
  {
  }

  lemma AccountStep(c: Contract, evs: seq<Event>, budget: nat, crashes: bool)
    requires evs != [] && Accounted(c, evs[..|evs| - 1], budget, crashes)
    requires var before := After(Enqueued(c), evs[..|evs| - 1], budget);
             var after := After(Enqueued(c), evs, budget);
             var last := evs[|evs| - 1];
             && before.contract.attempted != [] && before.contract.way in before.contract.attempted
             && before.attempts <= Cap(budget, crashes) && after.attempts <= Cap(budget, crashes)
             && if after.contract == before.contract then after.attempts == before.attempts + if last == Start then 1 else 0
                else last != Start && after.attempts == 0 && after.contract.way !in before.contract.attempted
                     && after.contract.attempted == before.contract.attempted + [after.contract.way]
    ensures Accounted(c, evs, budget, crashes)
  {
    hide After, Cap, Starts, StartsWith, Distinct, Times;
    var job0, k := Enqueued(c), |evs| - 1;
    var before := After(job0, evs[..k], budget);
    var after := After(job0, evs, budget);
    StartsLast(job0, evs, budget, after.contract.way);
    if after.contract != before.contract {
      DistinctAppend(before.contract.attempted, after.contract.way);
      OneMoreTime(Cap(budget, crashes), |before.contract.attempted|);
    }
    forall way
      ensures StartsWith(job0, evs, budget, way) <= Cap(budget, crashes)
      ensures way !in after.contract.attempted ==> StartsWith(job0, evs, budget, way) == 0
    {
      AccountWay(c, evs, budget, crashes, way);
    }
  }

  lemma AccountWay(c: Contract, evs: seq<Event>, budget: nat, crashes: bool, way: string)
    requires evs != [] && Accounted(c, evs[..|evs| - 1], budget, crashes)
    requires var before := After(Enqueued(c), evs[..|evs| - 1], budget);
             && before.contract.way in before.contract.attempted
             && (evs[|evs| - 1] == Start ==> before.attempts + 1 <= Cap(budget, crashes))
    ensures StartsWith(Enqueued(c), evs, budget, way) <= Cap(budget, crashes)
    ensures way !in After(Enqueued(c), evs[..|evs| - 1], budget).contract.attempted ==>
              StartsWith(Enqueued(c), evs, budget, way) == 0
  {
    hide After, Cap, Starts, StartsWith, Distinct;
    var job0, k := Enqueued(c), |evs| - 1;
    StartsLast(job0, evs, budget, way);
    assert StartsWith(job0, evs[..k], budget, way) <= Cap(budget, crashes);
  }

  lemma {:induction false} DistinctSize<T>(s: seq<T>)
    requires Distinct(s)
    ensures |Elements(s)| == |s|
  {
    if s != [] {
      var k := |s| - 1;
      DistinctSize(s[..k]);
      ElementsLast(s);
      assert s[k] !in s[..k];
    } else {
      assert Elements(s) == {};
    }
  }

  lemma AtMostFour(c: Contract)
    requires WellMade(c) && Distinct(c.attempted)
    ensures |c.attempted| <= 4
  {
    DistinctSize(c.attempted);
    SubsetSize(Elements(c.attempted), METHODS);
    assert |METHODS| == 4;
  }

  /**
   Without waits or manual retries a job starts at most max(1, budget) times with each method, one time more
   when the process may crash; no method is tried twice; and since there are four, it starts at most
   four times as often in all. So every such job comes to rest.
   */
  lemma RetriesEnd(c: Contract, evs: seq<Event>, budget: nat, crashes: bool, way: string)
    requires WellMade(c) && c.attempted == [c.way]
    requires IsRun(Enqueued(c), evs, budget) && Unaided(evs) && (!crashes ==> NeverCrashes(evs))
    ensures StartsWith(Enqueued(c), evs, budget, way) <= Cap(budget, crashes)
    ensures Distinct(After(Enqueued(c), evs, budget).contract.attempted)
    ensures Starts(Enqueued(c), evs, budget) <= 4 * Cap(budget, crashes)
  {
    hide Cap, IsRun, After;
    StartsAccounted(c, evs, budget, crashes);
    PromiseKept(Enqueued(c), evs, budget);
    AlwaysPaced(c, evs, budget, crashes);
    var job := After(Enqueued(c), evs, budget);
    AtMostFour(job.contract);
    AttemptedLast(job.contract);
    FourTimes(Cap(budget, crashes), |job.contract.attempted|);
  }

  lemma FourTimes(cap: nat, n: nat)
    requires n <= 4
    ensures Times(cap, n) <= 4 * cap
  {
  }

  /** An active job has its worker, and only the worker of an ended job is stopping. */
  predicate AtWork(job: Job) {
    && (Active(job.state) ==> job.working)
    && (job.stopping ==> job.working && (job.state == Canceled || job.state == Completed))
  }

  lemma StepAtWork(job: Job, ev: Event, budget: nat)
    requires WellMade(job.contract) && Enabled(job, ev) && AtWork(job) && ev != Crash
    ensures AtWork(Next(job, ev, budget))
  {
    hide Decided;
    if ev.Fail? && Decided(job.contract, job.attempts, budget, ev.category).Fallback? {
      FallbackKeepsPromise(job.contract, job.attempts, budget, ev.category);
    }
  }

  /** While the process lives, a job that is neither worked on nor waiting to run has ended. */
  lemma {:induction false} RestIsFinal(c: Contract, evs: seq<Event>, budget: nat)
    requires WellMade(c) && IsRun(Enqueued(c), evs, budget) && Crash !in evs
    ensures var job := After(Enqueued(c), evs, budget);
            !job.working && !Runnable(job.state) ==>
              job.state == Completed || job.state == Failed || job.state == Canceled
    ensures AtWork(After(Enqueued(c), evs, budget))
  {
    if evs != [] {
      hide Next, Enabled, WellMade;
      var k := |evs| - 1;
      RestIsFinal(c, evs[..k], budget);
      PromiseKept(Enqueued(c), evs[..k], budget);
      StepAtWork(After(Enqueued(c), evs[..k], budget), evs[k], budget);
    }
  }

  /** Waiting for a rate limit starts the count again, so a job may start any number of times. */
  lemma {:induction false} WaitsNeverEnd(c: Contract, n: nat, budget: nat)
    ensures var evs := Limited(n);
            && IsRun(Enqueued(c), evs, budget) && NeverCrashes(evs)
            && Starts(Enqueued(c), evs, budget) == n
            && var j := After(Enqueued(c), evs, budget); Runnable(j.state) && !j.working && !j.stopping
  {
    hide Next, Enabled, IsRun, After, Starts, NeverCrashes;
    if n == 0 {
      NoEvents(Enqueued(c), budget);
    } else {
      WaitsNeverEnd(c, n - 1, budget);
      var evs := Limited(n - 1);
      LimitedOnce(After(Enqueued(c), evs, budget), budget);
      OneMoreEvent(Enqueued(c), evs, Start, budget);
      OneMoreEvent(Enqueued(c), evs + [Start], Fail("rate_limit"), budget);
      assert Limited(n) == evs + [Start] + [Fail("rate_limit")];
      NoCrashAdded(evs, Start);
      NoCrashAdded(evs + [Start], Fail("rate_limit"));
    }
  }

  lemma NoEvents(job: Job, budget: nat)
    ensures IsRun(job, [], budget) && NeverCrashes([]) && After(job, [], budget) == job && Starts(job, [], budget) == 0
  {
  }

  lemma NoCrashAdded(evs: seq<Event>, ev: Event)
    requires NeverCrashes(evs) && ev != Crash && ev != Recover
    ensures NeverCrashes(evs + [ev])
  {
  }

  lemma OneMoreEvent(job: Job, evs: seq<Event>, ev: Event, budget: nat)
    requires IsRun(job, evs, budget) && Enabled(After(job, evs, budget), ev)
    ensures IsRun(job, evs + [ev], budget)
    ensures After(job, evs + [ev], budget) == Next(After(job, evs, budget), ev, budget)
    ensures Starts(job, evs + [ev], budget) == Starts(job, evs, budget) + if ev == Start then 1 else 0
  {
    hide Next, Enabled;
    assert (evs + [ev])[..|evs|] == evs;
  }

  lemma LimitedOnce(job: Job, budget: nat)
    requires Runnable(job.state) && !job.working && !job.stopping
    ensures var started := Next(job, Start, budget);
            var j := Next(started, Fail("rate_limit"), budget);
            && Enabled(job, Start) && Enabled(started, Fail("rate_limit"))
            && Runnable(j.state) && !j.working && !j.stopping
  {
  }

  function Limited(n: nat): (r: seq<Event>)
    ensures forall ev :: ev in r ==> ev == Start || ev == Fail("rate_limit")
  {
    if n == 0 then [] else Limited(n - 1) + [Start, Fail("rate_limit")]
  }

  // ---- Ended jobs --------------------------------------------------------------------------------

  predicate NeverRetried(evs: seq<Event>) {
    forall ev :: ev in evs ==> !ev.Again?
  }

  /** A worker of a canceled job has been told to stop: that is how jobs are canceled. */
  predicate Dropped(job: Job) {
    job.state == Canceled && (job.working ==> job.stopping)
  }

  /** A worker is on an active job, on one whose file was just registered, or told to stop. */
  predicate WorkerFits(job: Job) {
    job.working ==> Active(job.state) || job.state == Completed || (job.state == Canceled && job.stopping)
  }

  lemma StepWorkerFits(job: Job, ev: Event, budget: nat)
    requires WorkerFits(job) && Enabled(job, ev)
    ensures WorkerFits(Next(job, ev, budget))
  {
    hide Decided, WithMethod;
  }

  /** In every run, crashes and retries included, the worker of a canceled job has been told to stop. */
  lemma {:induction false} CanceledIsDropped(c: Contract, evs: seq<Event>, budget: nat)
    requires IsRun(Enqueued(c), evs, budget)
    ensures var job := After(Enqueued(c), evs, budget); WorkerFits(job) && (job.state == Canceled ==> Dropped(job))
  {
    if evs != [] {
      hide Next, Enabled;
      CanceledIsDropped(c, evs[..|evs| - 1], budget);
      StepWorkerFits(After(Enqueued(c), evs[..|evs| - 1], budget), evs[|evs| - 1], budget);
    }
  }

  /** Commits that can still complete the job: in a thread, or open in the journal. */
  function Loose(job: Job): nat {
    job.threads + job.journal
  }

  /** Canceled, or completed by a loose commit, with no live worker but a stopping one. */
  predicate Gone(job: Job) {
    && (job.working ==> job.stopping)
    && (job.state == Canceled || job.state == Completed)
  }

  lemma GoneStep(job: Job, ev: Event, budget: nat)
    requires Gone(job) && Enabled(job, ev) && !ev.Again?
    ensures var j := Next(job, ev, budget);
            && Gone(j) && j.contract == job.contract && j.attempts == job.attempts
            && Loose(j) <= Loose(job)
            && (j.state == job.state || (Loose(job) > 0 && j.state == Completed))
  {
  }

  /**
   A canceled job stays canceled, with its contract, through anything but a manual retry; only a commit that was
   already handed to a thread or open in the journal when it was canceled still completes it.
   */
  lemma {:induction false} CanceledStays(job: Job, evs: seq<Event>, budget: nat)
    requires Dropped(job) && IsRun(job, evs, budget) && NeverRetried(evs)
    ensures var j := After(job, evs, budget);
            && Gone(j) && j.contract == job.contract && j.attempts == job.attempts
            && Loose(j) <= Loose(job)
            && (j.state == Canceled || Loose(job) > 0)
  {
    if evs != [] {
      hide Next, Enabled, Loose;
      var k := |evs| - 1;
      assert evs[k] in evs && forall ev :: ev in evs[..k] ==> ev in evs;
      CanceledStays(job, evs[..k], budget);
      GoneStep(After(job, evs[..k], budget), evs[k], budget);
    }
  }

  lemma CommitCompletes(job: Job, budget: nat) returns (evs: seq<Event>)
    requires Loose(job) > 0
    ensures IsRun(job, evs, budget) && NeverRetried(evs) && After(job, evs, budget).state == Completed
  {
    hide IsRun, After;
    NoEvents(job, budget);
    evs := [];
    if job.journal == 0 {
      OneMoreEvent(job, evs, Journal, budget);
      evs := evs + [Journal];
    }
    OneMoreEvent(job, evs, Register, budget);
    evs := evs + [Register];
  }

  /** Exactly the jobs with a commit in a thread or open in the journal can be completed after they were canceled. */
  lemma OvertakenIff(job: Job, budget: nat)
    requires Dropped(job)
    ensures Loose(job) > 0 <==>
            exists evs :: IsRun(job, evs, budget) && NeverRetried(evs) && After(job, evs, budget).state == Completed
  {
    hide IsRun, After, Next, Loose, NeverRetried;
    if Loose(job) > 0 { var _ := CommitCompletes(job, budget); }
    if evs :| IsRun(job, evs, budget) && NeverRetried(evs) && After(job, evs, budget).state == Completed {
      CanceledStays(job, evs, budget);
    }
  }

  /**
   A failure leaves what the journal holds: a commit interrupted on the way, by a full disk say, is still open when
   the owner cancels the job, and the replay at the next startup completes it.
   */
  lemma JournalOutlivesCancel(c: Contract, category: string, budget: nat) returns (evs: seq<Event>)
    requires WellMade(c)
    ensures evs != [] && IsRun(Enqueued(c), evs, budget) && NeverRetried(evs)
    ensures After(Enqueued(c), evs[..|evs| - 1], budget).state == Canceled
    ensures After(Enqueued(c), evs, budget).state == Completed
  {
    hide IsRun, After;
    var job := Enqueued(c);
    NoEvents(job, budget);
    evs := CommitInterrupted(c, category, budget);
    var open := After(job, evs, budget);
    OneMoreEvent(job, evs, Cancel, budget);
    OneMoreEvent(job, evs + [Cancel], Crash, budget);
    OneMoreEvent(job, evs + [Cancel] + [Crash], Recover, budget);
    var before := evs + [Cancel] + [Crash] + [Recover];
    OneMoreEvent(job, before, Register, budget);
    evs := before + [Register];
    assert evs[..|evs| - 1] == before;
  }

  /** From the queue to an open row of the journal. */
  lemma CommitSteps(job: Job, budget: nat)
    requires Runnable(job.state) && !job.working && !job.stopping && job.threads == 0 && job.journal == 0
    ensures var started := Next(job, Start, budget);
            var ready := Next(started, Advance(Committing), budget);
            var handed := Next(ready, Commit, budget);
            var open := Next(handed, Journal, budget);
            && Enabled(job, Start) && Enabled(started, Advance(Committing)) && Enabled(ready, Commit)
            && Enabled(handed, Journal)
            && open.journal == 1 && open.state == Committing && open.working && !open.stopping
            && open.contract == job.contract
  {
  }

  lemma CommitInterrupted(c: Contract, category: string, budget: nat) returns (evs: seq<Event>)
    requires WellMade(c)
    ensures IsRun(Enqueued(c), evs, budget) && NeverRetried(evs)
    ensures var j := After(Enqueued(c), evs, budget);
            j.journal == 1 && !j.working && j.state != Canceled && j.state != Completed
  {
    hide IsRun, After, Next, WellMade;
    var job := Enqueued(c);
    NoEvents(job, budget);
    CommitSteps(job, budget);
    evs := [];
    OneMoreEvent(job, evs, Start, budget);
    evs := evs + [Start];
    OneMoreEvent(job, evs, Advance(Committing), budget);
    evs := evs + [Advance(Committing)];
    OneMoreEvent(job, evs, Commit, budget);
    evs := evs + [Commit];
    OneMoreEvent(job, evs, Journal, budget);
    evs := evs + [Journal];
    FailureKeepsJournal(After(job, evs, budget), category, budget);
    OneMoreEvent(job, evs, Fail(category), budget);
    evs := evs + [Fail(category)];
  }

  lemma FailureKeepsJournal(job: Job, category: string, budget: nat)
    requires WellMade(job.contract) && Active(job.state)
    ensures var j := Next(job, Fail(category), budget);
            && j.journal == job.journal && j.threads == job.threads && !j.working
            && (Runnable(j.state) || j.state == Failed)
  {
    hide Decided;
    if Decided(job.contract, job.attempts, budget, category).Fallback? {
      FallbackKeepsPromise(job.contract, job.attempts, budget, category);
    }
  }

  /**
   A manual retry puts any job back into the queue, whatever its state, exactly when no worker is on it and
   the method asked for is a known one. So a completed job can be queued again.
   */
  lemma RetryRequeuesIff(job: Job, way: Option<string>, budget: nat)
    requires WellMade(job.contract)
    ensures var j := Next(job, Again(way), budget);
            if !job.working && (way.None? || way.value in METHODS)
            then && j.state == Queued && j.attempts == 0 && j.error == None && j.options == None
                 && !j.file && j.pages == job.pages && Enabled(j, Start)
            else j == job
  {
  }

  /** No manual retry asks for another method. */
  predicate NeverSwitched(evs: seq<Event>) {
    forall ev :: ev in evs ==> !(ev.Again? && ev.way.Some?)
  }

  predicate Keeps(job: Job) {
    job.pages || job.file || job.staged || job.working
  }

  lemma StepKeeps(job: Job, ev: Event, budget: nat)
    requires WellMade(job.contract) && Enabled(job, ev) && !(ev.Again? && ev.way.Some?) && ev != Start
    ensures var j := Next(job, ev, budget); Keeps(j) ==> Keeps(job) && j.contract.way == job.contract.way
  {
    hide Decided;
    if ev.Fail? && Decided(job.contract, job.attempts, budget, ev.category).Fallback? {
      FallbackKeepsPromise(job.contract, job.attempts, budget, ev.category);
    }
  }

  /**
   Nothing fetched with one method is handed to the next: in every run without a manual change of method, whatever
   a job keeps of earlier attempts comes from starts with its present method.
   */
  lemma {:induction false} KeptIsOwn(c: Contract, evs: seq<Event>, budget: nat)
    requires WellMade(c) && IsRun(Enqueued(c), evs, budget) && NeverSwitched(evs)
    ensures var job := After(Enqueued(c), evs, budget);
            Keeps(job) ==> StartsWith(Enqueued(c), evs, budget, job.contract.way) > 0
  {
    if evs != [] {
      hide Next, Enabled, WellMade, Keeps;
      var k := |evs| - 1;
      var before := After(Enqueued(c), evs[..k], budget);
      assert evs[k] in evs && forall ev :: ev in evs[..k] ==> ev in evs;
      KeptIsOwn(c, evs[..k], budget);
      PromiseKept(Enqueued(c), evs[..k], budget);
      if evs[k] == Start {
        StartKeepsMethod(before, budget);
      } else {
        StepKeeps(before, evs[k], budget);
      }
    }
  }

  lemma StartKeepsMethod(job: Job, budget: nat)
    ensures Next(job, Start, budget).contract == job.contract
  {
  }

  /** But a manual retry with another method hands it the pages of the last one. */
  lemma SwitchKeepsPages(job: Job, way: string, budget: nat)
    requires WellMade(job.contract) && job.pages && !job.working && way in METHODS && way != job.contract.way
    ensures var j := Next(job, Again(Some(way)), budget); j.pages && j.contract.way == way
  {
  }
}
