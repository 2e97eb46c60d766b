/** No lost wake-up, no leaked slot, and when capacity is respected. */
module GovernorProgress {
  import opened Common
  import opened GovernorState
  import opened GovernorSafety

  // ---- No lost wake-up ---------------------------------------------------------------------------

  /**
   Every undecided waiter will be looked at again: some lease is live, and its release runs a pass, or the
   timer is armed no later than the moment the waiter's source is ready.
   */
  ghost predicate WillWake(g: Gov) {
    forall w :: w in g.waiters && g.IsPending(w) ==> HasWakeUp(g, w)
  }

  predicate HasWakeUp(g: Gov, w: Waiter) {
    || g.leases != map[]
    || (g.timer.Some? && g.ReadyAt(w.source).Some? && g.timer.value <= g.ReadyAt(w.source).value)
  }

  /** With no live lease, neither capacity nor source concurrency can hold a waiter back. */
  lemma IdleBlocksNobody(g: Gov, w: Waiter)
    requires Inv(g) && g.leases == map[]
    ensures g.CapacityOk(w) && g.ReadyAt(w.source).Some?
  {
    assert forall sel :: Selected(g.leases, sel) == {};
    assert g.Source(w.source).inUse == Count(g.leases, OfSource(w.source)) == 0;
  }

  lemma PassLeaves(g: Gov, now: real, inLoop: bool, grants: seq<Waiter>, g': Gov)
    requires Inv(g) && Dispatched(g, now, inLoop, grants, g')
    ensures WillWake(g') <==> inLoop || g'.waiters == [] || g'.leases != map[]
  {
    DispatchKeeps(g, now, inLoop, grants, g');
    var h := AfterGrants(g, now, grants);
    var clean := h.(waiters := Undecided(g.waiters, h.futures));
    UndecidedMembers(g.waiters, h.futures);
    if g'.leases == map[] && g'.waiters != [] {
      forall w | w in g'.waiters ensures inLoop ==> HasWakeUp(g', w) {
        IdleBlocksNobody(g', w);
        assert clean.CapacityOk(w) && clean.ReadyAt(w.source) == g'.ReadyAt(w.source);
      }
      if !inLoop {
        assert g'.waiters[0] in g'.waiters;
        assert !HasWakeUp(g', g'.waiters[0]);
      }
    }
  }

  lemma {:induction false} LeasesStay(g: Gov, now: real, grants: seq<Waiter>)
    requires GrantsInOrder(g, now, grants)
    ensures AfterGrants(g, now, grants).leases.Keys >= g.leases.Keys
    ensures grants != [] ==> AfterGrants(g, now, grants).leases != map[]
  {
    if grants != [] {
      var k := |grants| - 1;
      LeasesStay(g, now, grants[..k]);
      assert grants[k].ticket in AfterGrants(g, now, grants).leases;
    }
  }

  lemma {:induction false} FirstGrant(g: Gov, now: real, grants: seq<Waiter>)
    requires GrantsInOrder(g, now, grants) && grants != []
    ensures grants[0] in g.waiters && g.Grantable(grants[0], now)
  {
    var k := |grants| - 1;
    if k > 0 {
      FirstGrant(g, now, grants[..k]);
    } else {
      assert AfterGrants(g, now, grants[..0]) == g;
    }
  }

  /** A pass leaves leases exactly when there were some or somebody could be granted; else whoever is pending waits. */
  lemma PassOutlook(g: Gov, now: real, inLoop: bool, grants: seq<Waiter>, g': Gov)
    requires Inv(g) && Dispatched(g, now, inLoop, grants, g')
    ensures g'.leases != map[] <==> g.leases != map[] || exists w :: w in g.waiters && g.Grantable(w, now)
    ensures g'.leases == map[] ==> (g'.waiters == [] <==> forall w :: w in g.waiters ==> !g.IsPending(w))
  {
    hide Inv, PreemptionDone, TimerSet;
    var h := AfterGrants(g, now, grants);
    LeasesStay(g, now, grants);
    SameLeases(g, now, inLoop, grants, g');
    UndecidedMembers(g.waiters, h.futures);
    if grants != [] {
      FirstGrant(g, now, grants);
    } else {
      var clean := g.(waiters := Undecided(g.waiters, g.futures));
      forall w | w in g.waiters && g.IsPending(w) ensures !g.Grantable(w, now) {
        assert w in clean.waiters;
        assert clean.Grantable(w, now) == g.Grantable(w, now);
      }
      if g'.waiters != [] {
        assert g'.waiters[0] in g'.waiters;
      }
    }
  }

  /** Preemption marks leases; it removes none. */
  lemma SameLeases(g: Gov, now: real, inLoop: bool, grants: seq<Waiter>, g': Gov)
    requires Dispatched(g, now, inLoop, grants, g')
    ensures g'.leases.Keys == AfterGrants(g, now, grants).leases.Keys
  {
  }

  /**
   A pass leaves everybody who waits sure to be looked at again exactly when it runs in an event loop, or finds a
   live lease, a waiter it can grant to, or nobody waiting at all.
   */
  lemma PassWakes(g: Gov, now: real, inLoop: bool, grants: seq<Waiter>, g': Gov)
    requires Inv(g) && Dispatched(g, now, inLoop, grants, g')
    ensures WillWake(g')
            <==> || inLoop
                 || g.leases != map[]
                 || (exists w :: w in g.waiters && g.Grantable(w, now))
                 || (forall w :: w in g.waiters ==> !g.IsPending(w))
  {
    hide Inv, Dispatched, WillWake;
    PassLeaves(g, now, inLoop, grants, g');
    PassOutlook(g, now, inLoop, grants, g');
  }

  /** Steps that run no pass either leave the queue's prospects alone or only shorten it. */
  lemma QuietStepWakes(g: Gov, e: Event, now: real)
    requires Inv(g) && WillWake(g) && Enabled(g, e) && !RunsPass(g, e)
    ensures WillWake(Prepared(g, e, now))
  {
    var g' := Prepared(g, e, now);
    if e.Abort? {
      WithoutMembers(g.waiters, e.ticket);
    }
    forall w | w in g'.waiters && g'.IsPending(w) ensures HasWakeUp(g', w) {
      assert w in g.waiters && g.IsPending(w);
      assert HasWakeUp(g, w);
      assert g'.Source(w.source) == g.Source(w.source);
    }
  }

  /** No interleaving inside the event loop ever loses a wake-up. */
  lemma {:induction false} RunNeverLosesWakeUp(g0: Gov, run: seq<Entry>, k: nat)
    requires Inv(g0) && WillWake(g0) && IsRun(g0, run) && k <= |run|
    requires forall i :: 0 <= i < |run| ==> run[i].inLoop
    ensures WillWake(StateAt(g0, run, k))
  {
    if k > 0 {
      RunNeverLosesWakeUp(g0, run, k - 1);
      RunKeeps(g0, run, k - 1);
      assert RunStep(g0, run, k - 1);
      StepWakes(StateAt(g0, run, k - 1), run[k - 1]);
    }
  }

  lemma StepWakes(g: Gov, e: Entry)
    requires Inv(g) && WillWake(g) && e.inLoop
    requires Step(g, e.event, e.now, e.inLoop, e.grants, e.post)
    ensures WillWake(e.post)
  {
    if RunsPass(g, e.event) {
      PreparedKeeps(g, e.event, e.now);
      PassWakes(Prepared(g, e.event, e.now), e.now, e.inLoop, e.grants, e.post);
    } else {
      QuietStepWakes(g, e.event, e.now);
    }
  }

  lemma NothingToPreempt(h: Gov)
    requires UrgentCount(h, h.waiters) == 0
    ensures PreemptionDone(h, h.leases, h.cancelRequests)
  {
    assert NewlyPreempted(h.leases, h.leases) == {};
    assert Marked(h.leases, {}) == h.leases;
    assert TasksOf(h.leases, {}) == {};
  }

  /** A pass outside the event loop over one waiter that its source still holds back. */
  lemma QuietPass(p: Gov, w: Waiter, now: real)
    requires p.waiters == [w] && p.IsPending(w) && !p.Grantable(w, now) && w.kind == Http
    ensures Dispatched(p, now, false, [], p.(timer := None))
  {
    assert AfterGrants(p, now, []) == p;
    assert Undecided(p.waiters, p.futures) == [w] by {
      assert Undecided(p.waiters[1..], p.futures) == [];
    }
    assert UrgentCount(p, p.waiters) == 0 by {
      assert UrgentCount(p, p.waiters[1..]) == 0;
    }
    NothingToPreempt(p);
  }

  /**
   A settings change made outside the event loop does lose one: it cancels the timer of a paced request
   and cannot arm another, so with no lease live nothing will look at that request again.
   */
  lemma WakeUpLostOutsideLoop() returns (g: Gov, g': Gov)
    ensures Inv(g) && WillWake(g) && g.timer.Some?
    ensures Step(g, Configure("other", 1, None), 0.0, false, [], g')
    ensures g'.waiters != [] && g'.leases == map[] && !WillWake(g')
  {
    var w := Waiter(0, "paced", 1, Http, None);
    g := Initial(4, 1, 1).(
      sources := map["paced" := FRESH_SOURCE.(nextStart := 5.0)],
      waiters := [w], futures := map[0 := Pending], nextTicket := 1, timer := Some(5.0));
    assert forall sel :: Selected(g.leases, sel) == {};
    assert w in g.waiters;
    hide Dispatched;
    var p := Prepared(g, Configure("other", 1, None), 0.0);
    g' := p.(timer := None);
    QuietPass(p, w, 0.0);
    assert !HasWakeUp(g', w) && g'.IsPending(w);
  }

  // ---- No leaked slot ----------------------------------------------------------------------------

  /** When every lease has been given back, every counter is back at zero. */
  lemma IdleCountsZero(g: Gov, name: string)
    requires Inv(g) && g.leases == map[]
    ensures g.httpInUse == 0 && g.browserInUse == 0 && g.Source(name).inUse == 0
  {
    assert forall sel :: Selected(g.leases, sel) == {};
  }

  lemma {:induction false} GrantsOnlyFromQueue(g: Gov, now: real, grants: seq<Waiter>)
    requires Inv(g) && GrantsInOrder(g, now, grants)
    ensures AfterGrants(g, now, grants).leases.Keys <= g.leases.Keys + TicketsOf(g.waiters)
    ensures AfterGrants(g, now, grants).futures.Keys == g.futures.Keys
    ensures forall w :: w in AfterGrants(g, now, grants).waiters ==> w in g.waiters
  {
    if grants != [] {
      var k := |grants| - 1;
      GrantsOnlyFromQueue(g, now, grants[..k]);
      GrantsKeep(g, now, grants[..k]);
      var h := AfterGrants(g, now, grants[..k]);
      assert h.IsNext(grants[k], now);
      WithoutMembers(h.waiters, grants[k].ticket);
    }
  }

  /** A call whose task was cancelled, before or after its grant, leaves nothing behind. */
  lemma AbortLeaksNothing(g: Gov, t: nat, now: real, inLoop: bool, grants: seq<Waiter>, g': Gov)
    requires Inv(g) && Step(g, Abort(t), now, inLoop, grants, g')
    ensures t !in g'.futures && t !in g'.leases && t !in TicketsOf(g'.waiters)
  {
    PreparedKeeps(g, Abort(t), now);
    var p := Prepared(g, Abort(t), now);
    WithoutMembers(g.waiters, t);
    if RunsPass(g, Abort(t)) {
      GrantsOnlyFromQueue(p, now, grants);
      UndecidedMembers(p.waiters, AfterGrants(p, now, grants).futures);
    }
  }

  // ---- Capacity and the reserve ------------------------------------------------------------------

  /** HTTP use stays within capacity in every run, provided the reserve is not negative. */
  lemma HttpWithinCapacity(http: int, browser: int, reserved: int, run: seq<Entry>, k: nat)
    requires http >= 1 && browser >= 1 && IsRun(Initial(http, browser, reserved), run) && k <= |run|
    ensures var g := StateAt(Initial(http, browser, reserved), run, k);
            && g.httpInUse == Count(g.leases, OfKind(Http)) <= (if reserved >= 0 then http else http - reserved)
            && g.browserInUse == Count(g.leases, OfKind(Browser)) <= browser
            && Count(g.leases, BackgroundHttp) <= http - Min(reserved, http - 1)
  {
    InitialInv(http, browser, reserved);
    RunKeeps(Initial(http, browser, reserved), run, k);
    CapacitiesFixed(Initial(http, browser, reserved), run, k);
  }

  lemma {:induction false} GrantsKeepCapacities(g: Gov, now: real, grants: seq<Waiter>)
    ensures var h := AfterGrants(g, now, grants);
            h.httpCapacity == g.httpCapacity && h.browserCapacity == g.browserCapacity && h.reserve == g.reserve
  {
    if grants != [] {
      GrantsKeepCapacities(g, now, grants[..|grants| - 1]);
    }
  }

  lemma {:induction false} CapacitiesFixed(g0: Gov, run: seq<Entry>, k: nat)
    requires IsRun(g0, run) && k <= |run|
    ensures var g := StateAt(g0, run, k);
            g.httpCapacity == g0.httpCapacity && g.browserCapacity == g0.browserCapacity && g.reserve == g0.reserve
  {
    if k > 0 {
      CapacitiesFixed(g0, run, k - 1);
      assert RunStep(g0, run, k - 1);
      var g, e := StateAt(g0, run, k - 1), run[k - 1];
      GrantsKeepCapacities(Prepared(g, e.event, e.now), e.now, e.grants);
    }
  }

  /** An idle queue, and sources that all have short names: the states `Overrun` passes through. */
  ghost predicate Busy(g: Gov, n: nat) {
    && Inv(g) && g.waiters == [] && g.httpInUse == n && g.promoted == map[]
    && forall name :: name in g.sources ==> |name| <= n
  }

  /** A pass over a queue of one that can be granted at once. */
  lemma SingleGrant(p: Gov, w: Waiter, now: real)
    requires p.waiters == [w] && p.Grantable(w, now)
    ensures Dispatched(p, now, true, [w], p.GrantTo(w, now).(timer := None))
  {
    var h := p.GrantTo(w, now);
    assert AfterGrants(p, now, [w][..0]) == p;
    assert p.IsNext(w, now);
    assert AfterGrants(p, now, [w]) == h;
    assert Undecided(p.waiters, h.futures) == [] && h.waiters == [] by {
      assert Undecided(p.waiters[1..], h.futures) == [] && Without(p.waiters[1..], w.ticket) == [];
    }
    NothingToPreempt(h);
  }

  lemma OneMoreGrant(g: Gov, n: nat) returns (e: Entry)
    requires Busy(g, n) && n < g.HttpLimit(6)
    ensures Step(g, e.event, e.now, e.inLoop, e.grants, e.post) && e.now == 0.0
    ensures Busy(e.post, n + 1) && e.post.reserve == g.reserve && e.post.httpCapacity == g.httpCapacity
  {
    hide Inv, Dispatched, Count;
    var name: string := seq(n + 1, _ => 's');
    assert |name| == n + 1 && name !in g.sources;
    var event := Wait(name, 6, Http, None);
    var p := Prepared(g, event, 0.0);
    var w := Waiter(g.nextTicket, name, 6, Http, None);
    assert p.waiters == [w];
    e := Entry(event, 0.0, true, [w], p.GrantTo(w, 0.0).(timer := None));
    GrantsOneWaiter(p, w);
    SingleGrant(p, w, 0.0);
    PreparedKeeps(g, event, 0.0);
    DispatchKeeps(p, 0.0, true, [w], e.post);
  }

  lemma GrantsOneWaiter(p: Gov, w: Waiter)
    requires p.waiters == [w]
    ensures p.GrantTo(w, 0.0).waiters == []
  {
    assert Without(p.waiters[1..], w.ticket) == [];
  }

  lemma {:induction false} Overrun(http: int, browser: int, reserved: int, n: nat) returns (run: seq<Entry>)
    requires http >= 1 && browser >= 1 && n <= http - Min(reserved, http - 1)
    ensures IsRun(Initial(http, browser, reserved), run) && |run| == n
    ensures var g := StateAt(Initial(http, browser, reserved), run, n);
            Busy(g, n) && g.httpCapacity == http && g.reserve == Min(reserved, http - 1)
    ensures n > 0 ==> run[n - 1].now == 0.0
  {
    var g0 := Initial(http, browser, reserved);
    InitialInv(http, browser, reserved);
    if n == 0 {
      run := [];
    } else {
      var shorter := Overrun(http, browser, reserved, n - 1);
      var e := OneMoreGrant(StateAt(g0, shorter, n - 1), n - 1);
      run := shorter + [e];
      forall k | 0 <= k < n ensures RunStep(g0, run, k) {
        if k < n - 1 {
          assert RunStep(g0, shorter, k);
          assert StateAt(g0, run, k) == StateAt(g0, shorter, k);
        }
      }
    }
  }

  ghost predicate NeverOverCapacity(http: int, browser: int, reserved: int) {
    forall run, k :: IsRun(Initial(http, browser, reserved), run) && 0 <= k <= |run| ==>
      StateAt(Initial(http, browser, reserved), run, k).httpInUse <= http
  }

  /** The constructor does not refuse a negative reserve, and that is the one way past the HTTP capacity. */
  lemma CapacityRespectedIff(http: int, browser: int, reserved: int)
    requires http >= 1 && browser >= 1
    ensures NeverOverCapacity(http, browser, reserved) <==> reserved >= 0
  {
    if reserved >= 0 {
      forall run, k | IsRun(Initial(http, browser, reserved), run) && 0 <= k <= |run|
        ensures StateAt(Initial(http, browser, reserved), run, k).httpInUse <= http
      {
        HttpWithinCapacity(http, browser, reserved, run, k);
      }
    } else {
      var run := Overrun(http, browser, reserved, http + 1);
      assert StateAt(Initial(http, browser, reserved), run, http + 1).httpInUse == http + 1;
    }
  }
}
