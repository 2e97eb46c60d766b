/**
 What a scheduling pass grants and to whom, said of the live leases, the waiters and the sources alone: limits,
 turns, preemption, promotion and cancellation.
 */
module GovernorLimits {
  import opened Common
  import opened GovernorState
  import opened GovernorSafety
  import opened GovernorTiming

  // ---- Who may start -----------------------------------------------------------------------------

  /** Fewer leases on the source than its concurrency, and fewer of the kind than its capacity, less the reserve. */
  predicate HasRoom(g: Gov, w: Waiter) {
    && Count(g.leases, OfSource(w.source)) < g.Source(w.source).concurrency
    && if w.kind == Browser then Count(g.leases, OfKind(Browser)) < g.browserCapacity
       else Count(g.leases, OfKind(Http)) < g.httpCapacity - if w.priority >= 4 then g.reserve else 0
  }

  predicate Due(g: Gov, name: string, now: real) {
    g.Source(name).nextStart <= now && g.Source(name).retryUntil <= now
  }

  predicate MayStart(g: Gov, w: Waiter, now: real) {
    w.ticket in g.futures && g.futures[w.ticket] == Pending && HasRoom(g, w) && Due(g, w.source, now)
  }

  lemma MayStartIff(g: Gov, w: Waiter, now: real)
    requires CountersExact(g)
    ensures g.Grantable(w, now) <==> MayStart(g, w, now)
  {
    assert g.Source(w.source).inUse == Count(g.leases, OfSource(w.source));
  }

  /** No later in priority, then no more served a source, then no later an arrival. */
  predicate NoLater(g: Gov, a: Waiter, b: Waiter) {
    || a.priority < b.priority
    || (a.priority == b.priority
        && var x, y := g.Source(a.source).served, g.Source(b.source).served;
           x < y || (x == y && a.ticket <= b.ticket))
  }

  /** At the moment of a grant: the waiter queues and may start, and nobody who may start comes before it. */
  ghost predicate InTurn(h: Gov, w: Waiter, now: real) {
    w in h.waiters && MayStart(h, w, now) && forall v :: v in h.waiters && MayStart(h, v, now) ==> NoLater(h, w, v)
  }

  lemma {:induction false} GrantInTurn(g: Gov, now: real, grants: seq<Waiter>, j: nat)
    requires Inv(g) && GrantsInOrder(g, now, grants) && j < |grants|
    ensures InTurn(AfterGrants(g, now, grants[..j]), grants[j], now)
  {
    var k := |grants| - 1;
    if j < k {
      hide InTurn, Inv, AfterGrants;
      assert grants[..k][..j] == grants[..j] && grants[..k][j] == grants[j];
      GrantInTurn(g, now, grants[..k], j);
    } else {
      LastInTurn(g, now, grants);
    }
  }

  lemma LastInTurn(g: Gov, now: real, grants: seq<Waiter>)
    requires Inv(g) && GrantsInOrder(g, now, grants) && grants != []
    ensures InTurn(AfterGrants(g, now, grants[..|grants| - 1]), grants[|grants| - 1], now)
  {
    hide InTurn, AfterGrants, CountersExact;
    var k := |grants| - 1;
    GrantsKeep(g, now, grants[..k]);
    NextInTurn(AfterGrants(g, now, grants[..k]), grants[k], now);
  }

  lemma NextInTurn(h: Gov, w: Waiter, now: real)
    requires CountersExact(h) && h.IsNext(w, now)
    ensures InTurn(h, w, now)
  {
    MayStartIff(h, w, now);
    forall v | v in h.waiters && MayStart(h, v, now) ensures NoLater(h, w, v) {
      MayStartIff(h, v, now);
    }
  }

  /**
   In every run, every grant of every pass goes to a waiter whose source has fewer live leases than its concurrency,
   whose kind has room, whose source's pacing and Retry-After are past, and before whom nobody else could start.
   */
  lemma EveryGrantInTurn(g0: Gov, run: seq<Entry>, i: nat, j: nat)
    requires Inv(g0) && IsRun(g0, run) && i < |run| && j < |run[i].grants|
    ensures var p := Prepared(StateAt(g0, run, i), run[i].event, run[i].now);
            InTurn(AfterGrants(p, run[i].now, run[i].grants[..j]), run[i].grants[j], run[i].now)
  {
    hide InTurn, Inv;
    RunKeeps(g0, run, i);
    assert RunStep(g0, run, i);
    PreparedKeeps(StateAt(g0, run, i), run[i].event, run[i].now);
    GrantInTurn(Prepared(StateAt(g0, run, i), run[i].event, run[i].now), run[i].now, run[i].grants, j);
  }

  // ---- Nobody is left who may start --------------------------------------------------------------

  lemma PassLeavesNobody(g: Gov, now: real, inLoop: bool, grants: seq<Waiter>, g': Gov, w: Waiter)
    requires Inv(g) && Dispatched(g, now, inLoop, grants, g') && w in g'.waiters
    ensures !MayStart(g', w, now)
  {
    DispatchKeeps(g, now, inLoop, grants, g');
    MayStartIff(g', w, now);
    SameGrantable(g, now, inLoop, grants, g', w);
  }

  lemma SameGrantable(g: Gov, now: real, inLoop: bool, grants: seq<Waiter>, g': Gov, w: Waiter)
    requires Dispatched(g, now, inLoop, grants, g') && w in g'.waiters
    ensures !g'.Grantable(w, now)
  {
    hide PreemptionDone, TimerSet;
    var h := AfterGrants(g, now, grants);
    var clean := h.(waiters := Undecided(g.waiters, h.futures));
    assert clean.Grantable(w, now) == g'.Grantable(w, now);
  }

  /** The steps that look at the queue: all but cancelling, resuming, and giving up without a lease. */
  predicate LooksAtQueue(g: Gov, e: Event) {
    match e
    case CancelTask(_) => false
    case Resume(_) => false
    case Abort(t) => t in g.leases
    case Release(t) => t in g.leases
    case _ => true
  }

  /** After every such step of every run, nobody waits who may start. */
  lemma NobodyOverlooked(g0: Gov, run: seq<Entry>, i: nat, w: Waiter)
    requires Inv(g0) && IsRun(g0, run) && i < |run| && LooksAtQueue(StateAt(g0, run, i), run[i].event)
    requires w in run[i].post.waiters
    ensures !MayStart(run[i].post, w, run[i].now)
  {
    hide MayStart;
    var g, e := StateAt(g0, run, i), run[i];
    RunKeeps(g0, run, i);
    assert RunStep(g0, run, i);
    PassRuns(g, e.event);
    PreparedKeeps(g, e.event, e.now);
    PassLeavesNobody(Prepared(g, e.event, e.now), e.now, e.inLoop, e.grants, e.post, w);
  }

  lemma PassRuns(g: Gov, e: Event)
    requires Inv(g) && Enabled(g, e) && LooksAtQueue(g, e)
    ensures RunsPass(g, e)
  {
  }

  /** Cancelling a task decides its pending future and wakes nobody; a resumed call is just no longer suspended. */
  lemma QuietSteps(g: Gov, t: nat, now: real, inLoop: bool, grants: seq<Waiter>, g': Gov)
    ensures Step(g, CancelTask(t), now, inLoop, grants, g') ==>
              && grants == [] && t in g.futures && g' == g.(futures := g'.futures)
              && g'.futures == if g.futures[t] == Pending then g.futures[t := Cancelled] else g.futures
    ensures Step(g, Resume(t), now, inLoop, grants, g') ==>
              && grants == [] && t in g.futures && g.futures[t] == Granted
              && g' == g.(futures := g'.futures) && g'.futures == g.futures - {t}
  {
  }

  // ---- The timer ---------------------------------------------------------------------------------

  /** The source has a lease to spare, and allows a start exactly from this moment on. */
  predicate OpensAt(g: Gov, name: string, at: real) {
    var s := g.Source(name);
    && Count(g.leases, OfSource(name)) < s.concurrency
    && at >= s.nextStart && at >= s.retryUntil && (at == s.nextStart || at == s.retryUntil)
  }

  /**
   A pass arms the timer only in an event loop, for a moment still to come at which a waiting call's source opens, and
   no later than that of any waiting call with room, for which it always arms one.
   */
  lemma TimerExactly(g: Gov, now: real, inLoop: bool, grants: seq<Waiter>, g': Gov)
    requires Inv(g) && Dispatched(g, now, inLoop, grants, g')
    ensures !inLoop ==> g'.timer == None
    ensures g'.timer.Some? ==> now < g'.timer.value && exists w :: w in g'.waiters && OpensAt(g', w.source, g'.timer.value)
    ensures inLoop ==>
              forall w, at :: w in g'.waiters && HasRoom(g', w) && OpensAt(g', w.source, at) ==>
                g'.timer.Some? && g'.timer.value <= at
  {
    DispatchKeeps(g, now, inLoop, grants, g');
    var h := AfterGrants(g, now, grants);
    TimerOf(h.(waiters := Undecided(g.waiters, h.futures)), g', now, inLoop);
  }

  lemma TimerOf(clean: Gov, g': Gov, now: real, inLoop: bool)
    requires CountersExact(g') && TimerSet(clean, now, inLoop, g'.timer)
    requires g' == clean.(leases := g'.leases, cancelRequests := g'.cancelRequests, timer := g'.timer)
    ensures !inLoop ==> g'.timer == None
    ensures g'.timer.Some? ==> now < g'.timer.value && exists w :: w in g'.waiters && OpensAt(g', w.source, g'.timer.value)
    ensures inLoop ==>
              forall w, at :: w in g'.waiters && HasRoom(g', w) && OpensAt(g', w.source, at) ==>
                g'.timer.Some? && g'.timer.value <= at
  {
    forall name ensures g'.Source(name).inUse == Count(g'.leases, OfSource(name)) && g'.ReadyAt(name) == clean.ReadyAt(name) {}
    if inLoop && g'.timer.Some? {
      var w :| w in clean.waiters && clean.ReadyAt(w.source) == Some(g'.timer.value);
      assert OpensAt(g', w.source, g'.timer.value);
    }
    forall w, at | inLoop && w in g'.waiters && HasRoom(g', w) && OpensAt(g', w.source, at)
      ensures g'.timer.Some? && g'.timer.value <= at
    {
      assert clean.ReadyAt(w.source) == Some(at) && clean.CapacityOk(w);
    }
  }

  // ---- A source's concurrency over a run ---------------------------------------------------------

  /** The concurrency a source was last given in the first `k` steps, two at first. */
  function LastGiven(run: seq<Entry>, k: nat, name: string): int
    requires k <= |run|
  {
    if k == 0 then 2
    else
      var e := run[k - 1].event;
      if e.Configure? && e.source == name then Max(1, e.concurrency) else LastGiven(run, k - 1, name)
  }

  function LargestGiven(run: seq<Entry>, k: nat, name: string): int
    requires k <= |run|
  {
    if k == 0 then 2 else Max(LargestGiven(run, k - 1, name), LastGiven(run, k, name))
  }

  lemma PreparedConcurrency(g: Gov, e: Event, now: real, name: string)
    ensures Prepared(g, e, now).Source(name).concurrency
            == if e.Configure? && e.source == name then Max(1, e.concurrency) else g.Source(name).concurrency
  {
  }

  lemma {:induction false} GrantsKeepConcurrency(g: Gov, now: real, grants: seq<Waiter>, name: string)
    ensures AfterGrants(g, now, grants).Source(name).concurrency == g.Source(name).concurrency
  {
    if grants != [] {
      GrantsKeepConcurrency(g, now, grants[..|grants| - 1], name);
    }
  }

  lemma StepConcurrency(g: Gov, e: Entry, name: string)
    requires Step(g, e.event, e.now, e.inLoop, e.grants, e.post)
    ensures e.post.Source(name).concurrency == Prepared(g, e.event, e.now).Source(name).concurrency
  {
    var p := Prepared(g, e.event, e.now);
    if RunsPass(g, e.event) {
      PassSource(p, e.now, e.inLoop, e.grants, e.post, name);
      GrantsKeepConcurrency(p, e.now, e.grants, name);
    }
  }

  /** In every run a source's concurrency is what it was last given. */
  lemma {:induction false} ConcurrencyIsLastGiven(
    http: int, browser: int, reserved: int, run: seq<Entry>, k: nat, name: string)
    requires IsRun(Initial(http, browser, reserved), run) && k <= |run|
    ensures StateAt(Initial(http, browser, reserved), run, k).Source(name).concurrency == LastGiven(run, k, name)
  {
    var g0 := Initial(http, browser, reserved);
    if k > 0 {
      ConcurrencyIsLastGiven(http, browser, reserved, run, k - 1, name);
      assert RunStep(g0, run, k - 1);
      StepConcurrency(StateAt(g0, run, k - 1), run[k - 1], name);
      PreparedConcurrency(StateAt(g0, run, k - 1), run[k - 1].event, run[k - 1].now, name);
    }
  }

  lemma {:induction false} GrantsWithinLimit(g: Gov, now: real, grants: seq<Waiter>, name: string, limit: int)
    requires Inv(g) && GrantsInOrder(g, now, grants)
    requires Count(g.leases, OfSource(name)) <= limit && g.Source(name).concurrency <= limit
    ensures Count(AfterGrants(g, now, grants).leases, OfSource(name)) <= limit
  {
    if grants != [] {
      hide Inv, Count, InTurn;
      var k := |grants| - 1;
      var h := AfterGrants(g, now, grants[..k]);
      GrantsWithinLimit(g, now, grants[..k], name, limit);
      GrantInTurn(g, now, grants, k);
      GrantsKeepConcurrency(g, now, grants[..k], name);
      GrantsKeep(g, now, grants[..k]);
      GrantCounts(h, grants[k], now, name);
    }
  }

  lemma GrantCounts(h: Gov, w: Waiter, now: real, name: string)
    requires Inv(h) && InTurn(h, w, now)
    ensures Count(h.GrantTo(w, now).leases, OfSource(name))
            == Count(h.leases, OfSource(name)) + if w.source == name then 1 else 0
    ensures w.source == name ==> Count(h.leases, OfSource(name)) < h.Source(name).concurrency
  {
    CountAdd(h.leases, w.ticket, Lease(w.source, w.priority, w.kind, w.task, false), OfSource(name));
  }

  /** Taking leases away, or marking them, adds none to any source. */
  lemma PreparedCount(g: Gov, e: Event, now: real, name: string)
    ensures Count(Prepared(g, e, now).leases, OfSource(name)) <= Count(g.leases, OfSource(name))
  {
    SubsetSize(Selected(Prepared(g, e, now).leases, OfSource(name)), Selected(g.leases, OfSource(name)));
  }

  lemma PassCount(g: Gov, now: real, inLoop: bool, grants: seq<Waiter>, g': Gov, name: string)
    requires Dispatched(g, now, inLoop, grants, g')
    ensures GrantsInOrder(g, now, grants)
    ensures Count(g'.leases, OfSource(name)) == Count(AfterGrants(g, now, grants).leases, OfSource(name))
  {
    var h := AfterGrants(g, now, grants);
    CountMarked(h.leases, NewlyPreempted(h.leases, g'.leases), OfSource(name));
  }

  /** In every run the live leases on a source are at most the largest concurrency it was given. */
  lemma {:induction false} SourceWithinConcurrency(
    http: int, browser: int, reserved: int, run: seq<Entry>, k: nat, name: string)
    requires http >= 1 && browser >= 1 && IsRun(Initial(http, browser, reserved), run) && k <= |run|
    ensures Count(StateAt(Initial(http, browser, reserved), run, k).leases, OfSource(name)) <= LargestGiven(run, k, name)
  {
    hide Inv, Count, Dispatched;
    var g0 := Initial(http, browser, reserved);
    InitialInv(http, browser, reserved);
    if k == 0 {
      NoLeases(name);
    } else {
      SourceWithinConcurrency(http, browser, reserved, run, k - 1, name);
      var g, e := StateAt(g0, run, k - 1), run[k - 1];
      RunKeeps(g0, run, k - 1);
      assert RunStep(g0, run, k - 1);
      PreparedCount(g, e.event, e.now, name);
      ConcurrencyIsLastGiven(http, browser, reserved, run, k, name);
      StepConcurrency(g, e, name);
      if RunsPass(g, e.event) {
        var p := Prepared(g, e.event, e.now);
        PreparedKeeps(g, e.event, e.now);
        PassCount(p, e.now, e.inLoop, e.grants, e.post, name);
        GrantsWithinLimit(p, e.now, e.grants, name, LargestGiven(run, k, name));
      }
    }
  }

  lemma NoLeases(name: string)
    ensures Count(map[], OfSource(name)) == 0
  {
    assert Selected(map[], OfSource(name)) == {};
  }

  // ---- Served counts -----------------------------------------------------------------------------

  lemma {:induction false} GrantsServe(g: Gov, now: real, grants: seq<Waiter>, name: string)
    ensures AfterGrants(g, now, grants).Source(name).served == g.Source(name).served + |Starts(grants, name, now)|
  {
    if grants != [] {
      GrantsServe(g, now, grants[..|grants| - 1], name);
    }
  }

  /** What fairness compares is what it should be: how often the source was served in the run. */
  lemma {:induction false} ServedIsStarts(g0: Gov, run: seq<Entry>, k: nat, name: string)
    requires IsRun(g0, run) && k <= |run|
    ensures StateAt(g0, run, k).Source(name).served == g0.Source(name).served + |RunStarts(run[..k], name)|
  {
    if k > 0 {
      ServedIsStarts(g0, run, k - 1, name);
      assert RunStep(g0, run, k - 1);
      assert run[..k][..k - 1] == run[..k - 1];
      var g, e := StateAt(g0, run, k - 1), run[k - 1];
      PreparedSource(g, e.event, e.now, name);
      if RunsPass(g, e.event) {
        PassSource(Prepared(g, e.event, e.now), e.now, e.inLoop, e.grants, e.post, name);
        GrantsServe(Prepared(g, e.event, e.now), e.now, e.grants, name);
      }
    }
  }

  /** An interval is a minute divided by the rate; without a rate there is none. */
  lemma IntervalIsRate(requestsPerMinute: Option<int>)
    ensures requestsPerMinute.None? || requestsPerMinute.value == 0 ==> Interval(requestsPerMinute) == 0.0
    ensures requestsPerMinute.Some? && requestsPerMinute.value != 0 ==>
              Interval(requestsPerMinute) * requestsPerMinute.value as real == 60.0
  {
  }

  /** A Retry-After makes its source wait exactly until then, or as long as it already had to. */
  lemma DelayedExactly(g: Gov, name: string, seconds: real, now: real)
    ensures var before, after := g.Source(name).retryUntil, Prepared(g, RetryAfter(name, seconds), now).Source(name).retryUntil;
            && after >= before && after >= now + seconds && after >= now
            && (after == before || after == now || after == now + seconds)
  {
  }

  // ---- Promotion ---------------------------------------------------------------------------------

  /** The smaller of two priorities is the more urgent. */
  function Urgent(a: Priority, b: Priority): Priority {
    if a <= b then a else b
  }

  /** Promoting a task raises its waiters and what it will ask for, and nothing else. */
  lemma PromoteRaises(g: Gov, task: nat, p: Priority, now: real)
    ensures var g' := Prepared(g, Promote(task, p), now);
            && g' == g.(waiters := g'.waiters, promoted := g'.promoted)
            && g'.promoted == g.promoted[task := if task in g.promoted then Urgent(p, g.promoted[task]) else p]
            && |g'.waiters| == |g.waiters|
            && forall i :: 0 <= i < |g.waiters| ==>
                 g'.waiters[i]
                 == g.waiters[i].(priority := if g.waiters[i].task == Some(task) then Urgent(p, g.waiters[i].priority)
                                              else g.waiters[i].priority)
  {
  }

  /** A new call queues last, undecided, with the priority it asks for or the better one its task was promoted to. */
  lemma WaitQueues(g: Gov, source: string, p: Priority, kind: Kind, task: Option<nat>, now: real)
    ensures var g' := Prepared(g, Wait(source, p, kind, task), now);
            && |g'.waiters| == |g.waiters| + 1 && g'.waiters[..|g.waiters|] == g.waiters
            && g'.waiters[|g.waiters|]
               == Waiter(g.nextTicket, source,
                         if task.Some? && task.value in g.promoted then Urgent(p, g.promoted[task.value]) else p,
                         kind, task)
            && g'.nextTicket == g.nextTicket + 1
            && g.nextTicket in g'.futures && g'.futures[g.nextTicket] == Pending
            && g'.leases == g.leases && g'.sources == g.sources
  {
  }

  /** The task was promoted at least so far, and so is everything it waits for. */
  ghost predicate PromotedTo(g: Gov, task: nat, p: Priority) {
    && task in g.promoted && g.promoted[task] <= p
    && forall w :: w in g.waiters && w.task == Some(task) ==> w.priority <= p
  }

  lemma PreparedPromoted(g: Gov, e: Event, now: real, task: nat, p: Priority)
    requires PromotedTo(g, task, p) || e == Promote(task, p)
    ensures PromotedTo(Prepared(g, e, now), task, p)
  {
    var g' := Prepared(g, e, now);
    match e
    case Promote(raised, q) =>
      PromoteRaises(g, raised, q, now);
      forall w | w in g'.waiters && w.task == Some(task) ensures w.priority <= p {
        var i :| 0 <= i < |g'.waiters| && g'.waiters[i] == w;
        assert g.waiters[i] in g.waiters;
      }
    case Abort(t) =>
      WithoutMembers(g.waiters, t);
    case _ =>
  }

  lemma {:induction false} GrantsKeepPromoted(g: Gov, now: real, grants: seq<Waiter>)
    ensures AfterGrants(g, now, grants).promoted == g.promoted
  {
    if grants != [] {
      GrantsKeepPromoted(g, now, grants[..|grants| - 1]);
    }
  }

  lemma StepPromoted(g: Gov, e: Entry, task: nat, p: Priority)
    requires Step(g, e.event, e.now, e.inLoop, e.grants, e.post)
    requires PromotedTo(g, task, p) || e.event == Promote(task, p)
    ensures PromotedTo(e.post, task, p)
  {
    PreparedPromoted(g, e.event, e.now, task, p);
    if RunsPass(g, e.event) {
      var q := Prepared(g, e.event, e.now);
      GrantsKeepPromoted(q, e.now, e.grants);
      UndecidedMembers(q.waiters, AfterGrants(q, e.now, e.grants).futures);
    }
  }

  /** Once a task is promoted, no later state of the run has a call of it waiting with a lower priority. */
  lemma {:induction false} PromotionLasts(g0: Gov, run: seq<Entry>, i: nat, k: nat)
    requires IsRun(g0, run) && i < k <= |run| && run[i].event.Promote?
    ensures PromotedTo(StateAt(g0, run, k), run[i].event.raised, run[i].event.priority)
  {
    hide PromotedTo;
    assert RunStep(g0, run, k - 1);
    if k - 1 > i {
      PromotionLasts(g0, run, i, k - 1);
    }
    StepPromoted(StateAt(g0, run, k - 1), run[k - 1], run[i].event.raised, run[i].event.priority);
  }

  // ---- Cancellation ------------------------------------------------------------------------------

  /** The call was given up: no lease, and its future, while there is one, cancelled. */
  predicate GivenUp(g: Gov, t: nat) {
    t < g.nextTicket && t !in g.leases && (t in g.futures ==> g.futures[t] == Cancelled)
  }

  lemma {:induction false} GrantsSkipGivenUp(g: Gov, now: real, grants: seq<Waiter>, t: nat)
    requires GivenUp(g, t) && GrantsInOrder(g, now, grants)
    ensures GivenUp(AfterGrants(g, now, grants), t)
  {
    if grants != [] {
      GrantsSkipGivenUp(g, now, grants[..|grants| - 1], t);
    }
  }

  lemma PreparedGivenUp(g: Gov, e: Event, now: real, t: nat)
    requires Enabled(g, e) && GivenUp(g, t)
    ensures GivenUp(Prepared(g, e, now), t)
  {
  }

  lemma CancelGivesUp(g: Gov, t: nat, now: real)
    requires Inv(g) && t in g.futures && g.futures[t] == Pending
    ensures GivenUp(Prepared(g, CancelTask(t), now), t)
  {
    hide CountersExact;
  }

  lemma PassGivenUp(g: Gov, now: real, inLoop: bool, grants: seq<Waiter>, g': Gov, t: nat)
    requires Dispatched(g, now, inLoop, grants, g') && GivenUp(g, t)
    ensures GivenUp(g', t)
  {
    hide TimerSet, UrgentCount, Undecided;
    GrantsSkipGivenUp(g, now, grants, t);
  }

  lemma StepGivenUp(g: Gov, e: Entry, t: nat)
    requires Inv(g) && Step(g, e.event, e.now, e.inLoop, e.grants, e.post)
    requires GivenUp(g, t) || (e.event == CancelTask(t) && g.futures[t] == Pending)
    ensures GivenUp(e.post, t)
  {
    hide GivenUp, Inv, Dispatched, Prepared;
    if e.event == CancelTask(t) && g.futures[t] == Pending {
      CancelGivesUp(g, t, e.now);
    } else {
      PreparedGivenUp(g, e.event, e.now, t);
    }
    if RunsPass(g, e.event) {
      PassGivenUp(Prepared(g, e.event, e.now), e.now, e.inLoop, e.grants, e.post, t);
    }
  }

  /** A call cancelled before its grant is never granted anything later. */
  lemma {:induction false} CancelledNeverGranted(g0: Gov, run: seq<Entry>, i: nat, k: nat, t: nat)
    requires Inv(g0) && IsRun(g0, run) && i < k <= |run|
    requires run[i].event == CancelTask(t) && t in StateAt(g0, run, i).futures && StateAt(g0, run, i).futures[t] == Pending
    ensures t !in StateAt(g0, run, k).leases && GivenUp(StateAt(g0, run, k), t)
  {
    hide Inv;
    assert RunStep(g0, run, k - 1);
    RunKeeps(g0, run, k - 1);
    if k - 1 > i {
      CancelledNeverGranted(g0, run, i, k - 1, t);
    }
    StepGivenUp(StateAt(g0, run, k - 1), run[k - 1], t);
  }

  // ---- Preemption --------------------------------------------------------------------------------

  /** A foreground browser call that only the full browser holds back: its source has a lease to spare. */
  predicate IsPressing(g: Gov, w: Waiter) {
    w.kind == Browser && w.priority < 4 && Count(g.leases, OfSource(w.source)) < g.Source(w.source).concurrency
  }

  function Pressing(g: Gov, ws: seq<Waiter>): set<nat> {
    set w | w in ws && IsPressing(g, w) :: w.ticket
  }

  function NewlyMarked(before: map<nat, Lease>, after: map<nat, Lease>): set<nat> {
    set id | id in after && after[id].preempted && !(id in before && before[id].preempted)
  }

  function StillEligible(leases: map<nat, Lease>): set<nat> {
    set id | id in leases && leases[id].kind == Browser && leases[id].priority >= 4 && !leases[id].preempted
  }

  /** The tasks that hold these leases. */
  function HoldersOf(leases: map<nat, Lease>, ids: set<nat>): set<nat> {
    set id | id in ids && id in leases && leases[id].task.Some? :: leases[id].task.value
  }

  lemma {:induction false} UrgentIsPressing(g: Gov, ws: seq<Waiter>)
    requires CountersExact(g) && OneEach(ws)
    ensures UrgentCount(g, ws) == |Pressing(g, ws)|
  {
    if ws == [] {
      assert Pressing(g, ws) == {};
    } else {
      PressingFirst(g, ws);
      hide CountersExact, OneEach, IsPressing, Pressing;
      UrgentIsPressing(g, ws[1..]);
    }
  }

  lemma PressingFirst(g: Gov, ws: seq<Waiter>)
    requires CountersExact(g) && OneEach(ws) && ws != []
    ensures OneEach(ws[1..])
    ensures |Pressing(g, ws)| == |Pressing(g, ws[1..])| + if g.IsUrgent(ws[0]) then 1 else 0
  {
    UrgentIff(g, ws[0]);
    PressingSplit(g, ws);
    hide IsPressing, CountersExact, Pressing;
    hide Gov.IsUrgent;
  }

  lemma PressingSplit(g: Gov, ws: seq<Waiter>)
    requires OneEach(ws) && ws != []
    ensures OneEach(ws[1..]) && ws[0].ticket !in Pressing(g, ws[1..])
    ensures Pressing(g, ws) == Pressing(g, ws[1..]) + if IsPressing(g, ws[0]) then {ws[0].ticket} else {}
  {
    hide IsPressing;
    assert forall w :: w in ws <==> w == ws[0] || w in ws[1..];
  }

  lemma UrgentIff(g: Gov, w: Waiter)
    requires CountersExact(g)
    ensures g.IsUrgent(w) <==> IsPressing(g, w)
  {
    assert g.Source(w.source).inUse == Count(g.leases, OfSource(w.source));
  }

  /**
   A pass preempts only background browser leases, and only while the browser is full: one for each pressing call as
   long as there are any, the least important first, and it asks exactly their tasks to stop.
   */
  ghost predicate FairlyPreempted(g: Gov, g': Gov) {
    var marked, left := NewlyMarked(g.leases, g'.leases), StillEligible(g'.leases);
    && (forall id :: id in marked ==> g'.leases[id].kind == Browser && g'.leases[id].priority >= 4)
    && |marked| == (if Count(g'.leases, OfKind(Browser)) < g'.browserCapacity then 0
                    else Min(|Pressing(g', g'.waiters)|, |marked| + |left|))
    && (forall c, v :: c in marked && v in left ==> g'.leases[c].priority >= g'.leases[v].priority)
    && g'.cancelRequests == g.cancelRequests + HoldersOf(g'.leases, marked)
  }

  lemma PreemptsForPressing(g: Gov, now: real, inLoop: bool, grants: seq<Waiter>, g': Gov)
    requires Inv(g) && Dispatched(g, now, inLoop, grants, g')
    ensures FairlyPreempted(g, g')
  {
    var h := AfterGrants(g, now, grants);
    GrantsAreFresh(g, now, grants);
    MarksAreFair(g, now, inLoop, grants, g');
    SameMarks(g.leases, h.leases, g'.leases);
    hide Inv, Dispatched, AfterGrants, Count, Pressing, NewlyMarked, StillEligible, HoldersOf;
  }

  lemma SameMarks(before: map<nat, Lease>, between: map<nat, Lease>, after: map<nat, Lease>)
    requires forall id :: id in before ==> id in between && between[id] == before[id]
    requires forall id :: id in between && id !in before ==> !between[id].preempted
    ensures NewlyMarked(before, after) == NewlyMarked(between, after)
  {
  }

  lemma MarksAreFair(g: Gov, now: real, inLoop: bool, grants: seq<Waiter>, g': Gov)
    requires Inv(g) && Dispatched(g, now, inLoop, grants, g')
    ensures FairlyPreempted(AfterGrants(g, now, grants), g')
  {
    var h := AfterGrants(g, now, grants);
    var clean := h.(waiters := Undecided(g.waiters, h.futures));
    DispatchKeeps(g, now, inLoop, grants, g');
    InvParts(g');
    UrgentIsPressing(g', g'.waiters);
    UrgentSame(clean, g', g'.waiters);
    MarkedNumber(clean, g'.leases, g'.cancelRequests);
    MarkedLeastImportant(clean, g'.leases, g'.cancelRequests);
    TasksOfPreemption(clean, g'.leases, g'.cancelRequests);
    MarkedAreBackground(clean.leases, g'.leases);
    hide Inv, PreemptionDone, GrantsInOrder, TimerSet, CountersExact, OneEach, Count, AfterGrants, Undecided;
    hide NewlyMarked, StillEligible, HoldersOf, TasksOf, Marked, NewlyPreempted, Pressing, UrgentCount, Victims;
  }

  lemma InvParts(g: Gov)
    requires Inv(g)
    ensures CountersExact(g) && OneEach(g.waiters) && g.browserInUse == Count(g.leases, OfKind(Browser))
  {
  }

  /** What grants add is not preempted, and what was live stays as it was. */
  lemma {:induction false} GrantsAreFresh(g: Gov, now: real, grants: seq<Waiter>)
    requires Inv(g) && GrantsInOrder(g, now, grants)
    ensures var h := AfterGrants(g, now, grants);
            && h.cancelRequests == g.cancelRequests
            && (forall id :: id in g.leases ==> id in h.leases && h.leases[id] == g.leases[id])
            && (forall id :: id in h.leases && id !in g.leases ==> !h.leases[id].preempted)
  {
    if grants != [] {
      var k := |grants| - 1;
      GrantsAreFresh(g, now, grants[..k]);
      GrantsKeep(g, now, grants[..k]);
      assert AfterGrants(g, now, grants[..k]).IsNext(grants[k], now);
    }
  }

  lemma {:induction false} UrgentSame(a: Gov, b: Gov, ws: seq<Waiter>)
    requires a.sources == b.sources
    ensures UrgentCount(a, ws) == UrgentCount(b, ws)
  {
    if ws != [] {
      UrgentSame(a, b, ws[1..]);
    }
  }

  lemma MarkedAreChosen(before: map<nat, Lease>, after: map<nat, Lease>)
    requires after == Marked(before, NewlyPreempted(before, after))
    ensures NewlyMarked(before, after) == NewlyPreempted(before, after)
    ensures StillEligible(after) == Victims(before) - NewlyPreempted(before, after)
  {
  }

  /** Marking a lease changes neither its priority nor its kind nor its task. */
  lemma MarkedAreBackground(before: map<nat, Lease>, after: map<nat, Lease>)
    requires after == Marked(before, NewlyPreempted(before, after))
    ensures forall id :: id in NewlyMarked(before, after) ==> after[id].kind == Browser && after[id].priority >= 4
    ensures HoldersOf(after, NewlyMarked(before, after)) == TasksOf(before, NewlyPreempted(before, after))
  {
    MarkedAreChosen(before, after);
  }

  lemma MarkedNumber(h: Gov, leases: map<nat, Lease>, cancelRequests: set<nat>)
    requires PreemptionDone(h, leases, cancelRequests)
    ensures |NewlyMarked(h.leases, leases)|
            == if h.browserInUse < h.browserCapacity then 0
               else Min(UrgentCount(h, h.waiters), |NewlyMarked(h.leases, leases)| + |StillEligible(leases)|)
  {
    var chosen, victims := NewlyPreempted(h.leases, leases), Victims(h.leases);
    MarkedAreChosen(h.leases, leases);
    assert chosen <= victims;
    hide Marked, NewlyMarked, StillEligible, Victims, NewlyPreempted, TasksOf;
    assert victims == chosen + (victims - chosen);
  }

  lemma MarkedLeastImportant(h: Gov, leases: map<nat, Lease>, cancelRequests: set<nat>)
    requires PreemptionDone(h, leases, cancelRequests)
    ensures forall c, v :: c in NewlyMarked(h.leases, leases) && v in StillEligible(leases) ==>
              leases[c].priority >= leases[v].priority
  {
    MarkedAreChosen(h.leases, leases);
    hide UrgentCount, TasksOf;
  }

  lemma TasksOfPreemption(h: Gov, leases: map<nat, Lease>, cancelRequests: set<nat>)
    requires PreemptionDone(h, leases, cancelRequests)
    ensures leases == Marked(h.leases, NewlyPreempted(h.leases, leases))
    ensures cancelRequests == h.cancelRequests + TasksOf(h.leases, NewlyPreempted(h.leases, leases))
  {
  }
}
