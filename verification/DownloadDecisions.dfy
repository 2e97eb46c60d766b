/** When a failed download is retried, switched, asked about, given up or parked, and what every run makes of that. */
module DownloadDecisions {
  import opened Common
  import opened DownloadContract
  import opened DownloadJobs

  // ---- What a job is queued with -----------------------------------------------------------------

  /** The settings that decide, strongest first: the source's own, then the global one. */
  function Setting(store: Store, source: string, key: string): Option<Value> {
    if ("source", source, key) in store then Some(store[("source", source, key)])
    else if ("global", "", key) in store then Some(store[("global", "", key)])
    else None
  }

  /** Where each part of what a job is queued with comes from, and when there is nothing to queue it with. */
  lemma ResolvedExactly(store: Store, source: string, recommendation: Option<string>, oneTime: Option<string>)
    requires Sane(store)
    ensures var r := Resolve(store, source, recommendation, oneTime);
            var way := Setting(store, source, "extraction.method");
            var mode := Setting(store, source, "extraction.mode");
            var own := ("source", source, "extraction.fallback_order");
            var all := ("global", "", "extraction.fallback_order");
            var advised := if recommendation.Some? && recommendation.value != "" then recommendation.value else "html_api";
            && (r == None <==>
                  if oneTime.Some? then oneTime.value !in METHODS else way == None && advised !in METHODS)
            && (r.Some? ==>
                  && Text(r.value.way)
                     == (if oneTime.Some? then Text(oneTime.value) else if way.Some? then way.value else Text(advised))
                  && Text(r.value.mode) == (if mode.Some? then mode.value else Text("preferred_ask"))
                  && List(r.value.order)
                     == if own in store && store[own] != List([]) then store[own]
                        else if all in store then store[all] else List([]))
  {
    forall scope, id, key | (scope, id, key) in store ensures Settable(scope, key, store[(scope, id, key)]) {}
  }

  // ---- One decision ------------------------------------------------------------------------------

  /** The retries within the method are used up, and another method could help. */
  predicate AnotherCouldHelp(attempts: nat, budget: nat, category: string) {
    category in METHOD_SPECIFIC && attempts >= budget
  }

  /** The place of the first method of the order that was not tried yet. */
  predicate FirstLeft(c: Contract, i: nat) {
    i < |c.order| && c.order[i] !in c.attempted && forall j :: 0 <= j < i ==> c.order[j] in c.attempted
  }

  predicate SomethingLeft(c: Contract) {
    exists i :: 0 <= i < |c.order| && c.order[i] !in c.attempted
  }

  lemma {:induction false} FirstUntriedPlace(order: seq<string>, attempted: seq<string>) returns (i: nat)
    requires FirstUntried(order, attempted).Some?
    ensures i < |order| && order[i] == FirstUntried(order, attempted).value && order[i] !in attempted
    ensures forall j :: 0 <= j < i ==> order[j] in attempted
  {
    if order[0] !in attempted {
      i := 0;
    } else {
      var k := FirstUntriedPlace(order[1..], attempted);
      i := k + 1;
    }
  }

  /** Each decision has its own condition; together they leave no failure undecided. */
  lemma DecisionsExactly(c: Contract, attempts: nat, budget: nat, category: string)
    requires c.mode in MODES
    ensures var d := Decided(c, attempts, budget, category);
            && (d == WaitForSession <==> category == "auth_failure")
            && (d == WaitForRateLimit <==> category == "rate_limit")
            && (d == Retry <==> category !in TERMINAL && category !in WAITING && attempts < budget)
            && (d == Ask <==> AnotherCouldHelp(attempts, budget, category) && c.mode == "preferred_ask")
            && (d == GiveUp <==>
                  || category in TERMINAL
                  || (category !in WAITING && attempts >= budget
                      && (category !in METHOD_SPECIFIC || c.mode == "strict"
                          || (c.mode == "automatic" && !SomethingLeft(c)))))
            && (forall way :: d == Fallback(way) <==>
                  && AnotherCouldHelp(attempts, budget, category) && c.mode == "automatic"
                  && exists i: nat :: FirstLeft(c, i) && c.order[i] == way)
  {
    var next := FirstUntried(c.order, c.attempted);
    if next.Some? {
      var i := FirstUntriedPlace(c.order, c.attempted);
      assert FirstLeft(c, i);
      assert forall k: nat :: FirstLeft(c, k) ==> k == i;
    }
  }

  // ---- What a failure leaves ---------------------------------------------------------------------

  ghost predicate SwitchedToFirstLeft(c: Contract, next: Contract) {
    exists i: nat :: FirstLeft(c, i) && next.way == c.order[i] && next.attempted == c.attempted + [c.order[i]]
  }

  /** Where the failure of its worker takes a job. */
  lemma FailureGoesExactly(job: Job, category: string, budget: nat)
    requires WellMade(job.contract) && job.state != Canceled
    ensures var j := Next(job, Fail(category), budget);
            var c := job.contract;
            && (j.state == RetryWait <==> category !in TERMINAL && category !in WAITING && job.attempts < budget)
            && (j.state == WaitingForSession <==> category == "auth_failure")
            && (j.state == WaitingForRateLimit <==> category == "rate_limit")
            && (j.state == Queued <==>
                  AnotherCouldHelp(job.attempts, budget, category) && c.mode == "automatic" && SomethingLeft(c))
            && (Runnable(j.state) || j.state == Failed)
  {
    DecisionsExactly(job.contract, job.attempts, budget, category);
    SwitchWorks(job.contract, job.attempts, budget, category);
    NothingLeft(job.contract);
    hide Decided, FirstLeft, SomethingLeft, AnotherCouldHelp, WithMethod, WellMade;
  }

  /** The failure frees the worker, is recorded, takes no commit back, and starts the count again unless it may retry. */
  lemma FailureLeavesExactly(job: Job, category: string, budget: nat)
    requires WellMade(job.contract) && job.state != Canceled
    ensures var j := Next(job, Fail(category), budget);
            && !j.working && j.error == Some(category)
            && j.threads == job.threads && j.journal == job.journal && j.stopping == job.stopping
            && j.attempts == (if j.state == RetryWait || j.state == Failed then job.attempts else 0)
  {
    SwitchIs(job.contract, job.attempts, budget, category);
    hide Decided, WithMethod, WellMade, SwitchedToFirstLeft;
  }

  /** It drops what was kept exactly when it switches, to the first method left, and else changes neither. */
  lemma FailureKeepsOrSwitches(job: Job, category: string, budget: nat)
    requires WellMade(job.contract) && job.state != Canceled
    ensures var j := Next(job, Fail(category), budget);
            if j.state == Queued then
              !j.pages && !j.file && !j.staged && SwitchedToFirstLeft(job.contract, j.contract)
            else
              j.contract == job.contract && j.pages == job.pages && j.file == job.file && j.staged == job.staged
  {
    hide Next, Decided, WithMethod, WellMade, SwitchedToFirstLeft;
    var d := Decided(job.contract, job.attempts, budget, category);
    if d.Fallback? {
      SwitchIs(job.contract, job.attempts, budget, category);
      FallbackDrops(job, category, budget);
    } else {
      OthersKeep(job, category, budget);
    }
  }

  lemma FallbackDrops(job: Job, category: string, budget: nat)
    requires job.state != Canceled && Decided(job.contract, job.attempts, budget, category).Fallback?
    requires WithMethod(job.contract, Decided(job.contract, job.attempts, budget, category).way).Some?
    ensures var j := Next(job, Fail(category), budget);
            && j.state == Queued && !j.pages && !j.file && !j.staged
            && Some(j.contract) == WithMethod(job.contract, Decided(job.contract, job.attempts, budget, category).way)
  {
    hide Decided, WithMethod;
  }

  lemma OthersKeep(job: Job, category: string, budget: nat)
    requires job.state != Canceled && !Decided(job.contract, job.attempts, budget, category).Fallback?
    ensures var j := Next(job, Fail(category), budget);
            && j.state != Queued
            && j.contract == job.contract && j.pages == job.pages && j.file == job.file && j.staged == job.staged
  {
    hide Decided, WithMethod;
  }

  lemma SwitchIs(c: Contract, attempts: nat, budget: nat, category: string)
    requires WellMade(c)
    ensures var d := Decided(c, attempts, budget, category);
            d.Fallback? ==> WithMethod(c, d.way).Some? && SwitchedToFirstLeft(c, WithMethod(c, d.way).value)
  {
    SwitchWorks(c, attempts, budget, category);
    hide Decided, WithMethod, WellMade, SwitchedToFirstLeft;
  }

  /** It asks the user exactly when the mode asks first and another method could help, and offers the whole order. */
  lemma FailureAsksExactly(job: Job, category: string, budget: nat)
    requires WellMade(job.contract) && job.state != Canceled
    ensures var j := Next(job, Fail(category), budget);
            var c := job.contract;
            j.options == if j.state != Failed then job.options
                         else if c.mode == "preferred_ask" && AnotherCouldHelp(job.attempts, budget, category)
                         then Some(c.order) else None
  {
    DecisionsExactly(job.contract, job.attempts, budget, category);
    SwitchWorks(job.contract, job.attempts, budget, category);
    hide Decided, FirstLeft, SomethingLeft, AnotherCouldHelp, WithMethod, WellMade, SwitchedToFirstLeft;
  }

  lemma SwitchWorks(c: Contract, attempts: nat, budget: nat, category: string)
    requires WellMade(c)
    ensures var d := Decided(c, attempts, budget, category);
            d.Fallback? ==>
              var next := WithMethod(c, d.way);
              && next.Some? && SwitchedToFirstLeft(c, next.value)
              && exists i: nat :: FirstLeft(c, i) && c.order[i] == d.way
  {
    var d := Decided(c, attempts, budget, category);
    if d.Fallback? {
      FallbackKeepsPromise(c, attempts, budget, category);
      DecisionsExactly(c, attempts, budget, category);
      hide Decided;
      assert d == Fallback(d.way);
    }
  }

  lemma NothingLeft(c: Contract)
    ensures SomethingLeft(c) <==> exists i: nat :: FirstLeft(c, i)
  {
    if SomethingLeft(c) {
      var i :| 0 <= i < |c.order| && c.order[i] !in c.attempted;
      assert FirstUntried(c.order, c.attempted).Some? by { assert c.order[i] in c.order; }
      var k := FirstUntriedPlace(c.order, c.attempted);
      assert FirstLeft(c, k);
    }
  }

  // ---- Every run ---------------------------------------------------------------------------------

  /** What a failed job says: an error nobody can fix by repeating, or all its attempts with this method spent. */
  predicate EndedRightly(job: Job, budget: nat) {
    && (job.working ==> job.attempts >= 1)
    && (job.options.Some? ==> !job.working && !Active(job.state) && !Runnable(job.state))
    && (job.state == Failed ==>
          && job.error.Some?
          && (job.error.value in TERMINAL || job.attempts >= Max(1, budget))
          && job.options == if job.contract.mode == "preferred_ask" && job.error.value in METHOD_SPECIFIC
                            then Some(job.contract.order) else None)
    && (job.state == RetryWait ==> 1 <= job.attempts < budget)
    && (job.state == WaitingForSession ==> job.error == Some("auth_failure") && job.attempts == 0)
    && (job.state == WaitingForRateLimit ==> job.error == Some("rate_limit") && job.attempts == 0)
  }

  lemma StepEndsRightly(job: Job, ev: Event, budget: nat)
    requires WellMade(job.contract) && Enabled(job, ev) && EndedRightly(job, budget) && WorkerFits(job)
    requires ev.Advance? ==> Active(ev.to)
    ensures EndedRightly(Next(job, ev, budget), budget)
  {
    if ev.Fail? {
      FailureEndsRightly(job, ev.category, budget);
    } else {
      hide Decided, WithMethod, WellMade;
    }
  }

  lemma FailureEndsRightly(job: Job, category: string, budget: nat)
    requires WellMade(job.contract) && job.working && EndedRightly(job, budget) && WorkerFits(job)
    ensures EndedRightly(Next(job, Fail(category), budget), budget)
  {
    if job.state != Canceled {
      FailureLeavesExactly(job, category, budget);
      FailureKeepsOrSwitches(job, category, budget);
      FailureGoesExactly(job, category, budget);
      FailureAsksExactly(job, category, budget);
      hide Next, WellMade;
    }
  }

  /** The present method has started at least as often as the count of attempts says. */
  lemma StartsCover(job: Job, ev: Event, budget: nat)
    requires WellMade(job.contract) && Enabled(job, ev)
    ensures var j := Next(job, ev, budget);
            j.attempts <= if ev == Start then job.attempts + 1 else if j.contract.way == job.contract.way then job.attempts
                          else 0
    ensures ev == Start ==> Next(job, ev, budget).contract == job.contract
  {
    if ev.Fail? && job.state != Canceled {
      FailureLeavesExactly(job, ev.category, budget);
      FailureKeepsOrSwitches(job, ev.category, budget);
      hide Next, WellMade;
    } else {
      hide Decided, WithMethod, WellMade;
    }
  }

  /**
   In every run, crashes, waits, cancels and manual retries included: a job that has failed did so on an error that
   repeating cannot fix, or after it started at least max(1, budget) times with its present method; it offers the other
   methods exactly when the mode asks first and the error is one of the method; and it waits to retry only while it has
   attempts left, for a session only after a refused login, for a rate limit only after one.
   */
  lemma {:induction false} FailedOnlyWhenSpent(c: Contract, evs: seq<Event>, budget: nat)
    requires WellMade(c) && IsRun(Enqueued(c), evs, budget)
    ensures var job := After(Enqueued(c), evs, budget);
            && EndedRightly(job, budget)
            && StartsWith(Enqueued(c), evs, budget, job.contract.way) >= job.attempts
            && (job.state == Failed && job.error.Some? && job.error.value !in TERMINAL ==>
                  StartsWith(Enqueued(c), evs, budget, job.contract.way) >= Max(1, budget))
  {
    if evs != [] {
      hide Next, Enabled, WellMade, EndedRightly, WorkerFits;
      var k := |evs| - 1;
      var before := After(Enqueued(c), evs[..k], budget);
      FailedOnlyWhenSpent(c, evs[..k], budget);
      PromiseKept(Enqueued(c), evs[..k], budget);
      CanceledIsDropped(c, evs[..k], budget);
      AdvancesActive(before, evs[k]);
      StepEndsRightly(before, evs[k], budget);
      StartsCover(before, evs[k], budget);
      SpentMeans(After(Enqueued(c), evs, budget), budget);
    } else {
      assert EndedRightly(Enqueued(c), budget);
    }
  }

  lemma AdvancesActive(job: Job, ev: Event)
    requires Enabled(job, ev)
    ensures ev.Advance? ==> Active(ev.to)
  {
  }

  lemma SpentMeans(job: Job, budget: nat)
    requires EndedRightly(job, budget)
    ensures job.state == Failed && job.error.Some? && job.error.value !in TERMINAL ==> job.attempts >= Max(1, budget)
  {
  }

  // ---- Cancelling and recovering -----------------------------------------------------------------

  /** Cancelling leaves every job canceled but a completed one, and tells a live worker to stop. */
  lemma CancelLeavesCanceled(job: Job, budget: nat)
    requires WorkerFits(job)
    ensures var j := Next(job, Cancel, budget);
            && j.state == (if job.state == Completed then Completed else Canceled)
            && j == job.(state := j.state, stopping := j.stopping)
            && (job.working && job.state != Completed ==> j.stopping)
            && (!job.working && !job.stopping ==> !j.stopping)
            && (j.state == Canceled ==> !Enabled(j, Start) && Next(j, Stop, budget).state == Canceled)
  {
  }

  /**
   In every run: the job that is being worked on when the process dies is runnable again after the recovery, or has
   failed because it had started more often than the budget allows; a job that is not keeps its state.
   */
  lemma CrashThenRecover(c: Contract, evs: seq<Event>, budget: nat)
    requires WellMade(c) && IsRun(Enqueued(c), evs, budget)
    ensures var job := After(Enqueued(c), evs, budget);
            var all := evs + [Crash] + [Recover];
            var j := After(Enqueued(c), all, budget);
            && IsRun(Enqueued(c), all, budget)
            && !j.working && !j.stopping && j.threads == 0
            && !Active(j.state) && j.attempts == job.attempts && j.contract == job.contract
            && (Active(job.state) && job.attempts <= budget ==> Enabled(j, Start))
            && (Active(job.state) && job.attempts > budget ==>
                  j.state == Failed && j.error == Some("interrupted")
                  && StartsWith(Enqueued(c), evs, budget, j.contract.way) > budget)
            && (!Active(job.state) ==> j.state == job.state)
            && j.journal == job.journal
  {
    FailedOnlyWhenSpent(c, evs, budget);
    hide After, IsRun, WellMade, StartsWith, EndedRightly, Next;
    var job := After(Enqueued(c), evs, budget);
    CrashedRecovers(job, budget);
    OneMoreEvent(Enqueued(c), evs, Crash, budget);
    OneMoreEvent(Enqueued(c), evs + [Crash], Recover, budget);
  }

  lemma CrashedRecovers(job: Job, budget: nat)
    ensures var crashed := Next(job, Crash, budget);
            var j := Next(crashed, Recover, budget);
            && Enabled(job, Crash) && Enabled(crashed, Recover)
            && !j.working && !j.stopping && j.threads == 0
            && !Active(j.state) && j.attempts == job.attempts && j.contract == job.contract
            && (Active(job.state) && job.attempts <= budget ==> Enabled(j, Start))
            && (Active(job.state) && job.attempts > budget ==> j.state == Failed && j.error == Some("interrupted"))
            && (!Active(job.state) ==> j.state == job.state)
            && j.journal == job.journal
  {
  }
}
