/** Fairness between sources, pacing, and Retry-After, over whole runs. */
module GovernorTiming {
  import opened Common
  import opened GovernorState

  // ---- What one pass does to a source ------------------------------------------------------------

  /** When the grants of one pass started requests on a source. */
  function Starts(grants: seq<Waiter>, name: string, now: real): seq<real> {
    if grants == [] then []
    else
      var k := |grants| - 1;
      Starts(grants[..k], name, now) + if grants[k].source == name then [now] else []
  }

  function Latest(times: seq<real>): real
    requires times != []
  {
    times[|times| - 1]
  }

  ghost predicate Spaced(times: seq<real>, gap: real) {
    forall i :: 0 < i < |times| ==> times[i] >= times[i - 1] + gap
  }

  /** The source's clock is at least `gap` past its latest start. */
  ghost predicate Paced(times: seq<real>, gap: real, s: SourceState) {
    && s.minInterval == gap
    && Spaced(times, gap)
    && (times != [] ==> Latest(times) + gap <= s.nextStart)
  }

  lemma GrantPaced(h: Gov, now: real, w: Waiter, name: string, times: seq<real>, gap: real)
    requires h.Grantable(w, now) && Paced(times, gap, h.Source(name))
    ensures Paced(times + if w.source == name then [now] else [], gap, h.GrantTo(w, now).Source(name))
  {
    if w.source != name {
      assert times + [] == times;
    }
  }

  lemma {:induction false} PassPaced(g: Gov, now: real, grants: seq<Waiter>, name: string, times: seq<real>, gap: real)
    requires GrantsInOrder(g, now, grants) && Paced(times, gap, g.Source(name))
    ensures Paced(times + Starts(grants, name, now), gap, AfterGrants(g, now, grants).Source(name))
  {
    if grants == [] {
      assert times + Starts(grants, name, now) == times;
    } else {
      var k := |grants| - 1;
      PassPaced(g, now, grants[..k], name, times, gap);
      var h, so := AfterGrants(g, now, grants[..k]), times + Starts(grants[..k], name, now);
      GrantPaced(h, now, grants[k], name, so, gap);
      assert times + Starts(grants, name, now) == so + if grants[k].source == name then [now] else [];
    }
  }

  /** A pass moves no source's Retry-After, and grants nothing that its Retry-After still forbids. */
  lemma {:induction false} PassHonoursRetryAfter(g: Gov, now: real, grants: seq<Waiter>, name: string)
    requires GrantsInOrder(g, now, grants)
    ensures AfterGrants(g, now, grants).Source(name).retryUntil == g.Source(name).retryUntil
    ensures forall w :: w in grants && w.source == name ==> g.Source(name).retryUntil <= now
  {
    if grants != [] {
      var k := |grants| - 1;
      PassHonoursRetryAfter(g, now, grants[..k], name);
      assert AfterGrants(g, now, grants[..k]).Grantable(grants[k], now);
      assert grants == grants[..k] + [grants[k]];
    }
  }

  // ---- Pacing ------------------------------------------------------------------------------------

  /** Everything a run started on one source, in order. */
  function RunStarts(run: seq<Entry>, name: string): seq<real> {
    if run == [] then []
    else
      var k := |run| - 1;
      RunStarts(run[..k], name) + Starts(run[k].grants, name, run[k].now)
  }

  /** The source keeps its rate: whenever the run configures it, it is with the same interval. */
  ghost predicate RateKept(run: seq<Entry>, name: string, gap: real) {
    forall i :: 0 <= i < |run| && run[i].event.Configure? && run[i].event.source == name ==>
      Interval(run[i].event.requestsPerMinute) == gap
  }

  lemma {:induction false} RunPaced(g0: Gov, run: seq<Entry>, k: nat, name: string, gap: real)
    requires IsRun(g0, run) && k <= |run| && RateKept(run, name, gap)
    requires g0.Source(name).minInterval == gap
    ensures Paced(RunStarts(run[..k], name), gap, StateAt(g0, run, k).Source(name))
  {
    if k > 0 {
      RunPaced(g0, run, k - 1, name, gap);
      assert RunStep(g0, run, k - 1);
      assert run[..k][..k - 1] == run[..k - 1];
      EntryPaced(StateAt(g0, run, k - 1), run[k - 1], RunStarts(run[..k - 1], name), name, gap);
    }
  }

  /** A step touches a source's pacing only by configuring it, and its Retry-After only by extending it. */
  lemma PreparedSource(g: Gov, e: Event, now: real, name: string)
    ensures var s, s' := g.Source(name), Prepared(g, e, now).Source(name);
            && s'.nextStart == s.nextStart && s'.served == s.served
            && s'.retryUntil >= s.retryUntil
            && (!(e.Configure? && e.source == name) ==> s'.minInterval == s.minInterval)
            && (e.Configure? && e.source == name ==> s'.minInterval == Interval(e.requestsPerMinute))
            && (e.RetryAfter? && e.source == name ==> s'.retryUntil >= now + e.seconds)
  {
  }

  /** A pass ends with the sources as its grants left them. */
  lemma PassSource(g: Gov, now: real, inLoop: bool, grants: seq<Waiter>, g': Gov, name: string)
    requires Dispatched(g, now, inLoop, grants, g')
    ensures GrantsInOrder(g, now, grants) && g'.Source(name) == AfterGrants(g, now, grants).Source(name)
  {
  }

  lemma EntryPaced(g: Gov, e: Entry, times: seq<real>, name: string, gap: real)
    requires Step(g, e.event, e.now, e.inLoop, e.grants, e.post)
    requires e.event.Configure? && e.event.source == name ==> Interval(e.event.requestsPerMinute) == gap
    requires Paced(times, gap, g.Source(name))
    ensures Paced(times + Starts(e.grants, name, e.now), gap, e.post.Source(name))
  {
    var p := Prepared(g, e.event, e.now);
    PreparedSource(g, e.event, e.now, name);
    if RunsPass(g, e.event) {
      PassPaced(p, e.now, e.grants, name, times, gap);
      PassSource(p, e.now, e.inLoop, e.grants, e.post, name);
    } else {
      assert times + Starts(e.grants, name, e.now) == times;
    }
  }

  function InWindow(times: seq<real>, from: real, length: real): set<int> {
    set i | 0 <= i < |times| && from <= times[i] < from + length
  }

  lemma {:induction false} SpacedApart(times: seq<real>, gap: real, i: nat, n: nat)
    requires Spaced(times, gap) && i + n < |times|
    ensures times[i + n] >= times[i] + gap * n as real
  {
    if n > 0 {
      SpacedApart(times, gap, i, n - 1);
      assert gap * n as real == gap * (n - 1) as real + gap;
    }
  }

  lemma WindowBound(times: seq<real>, gap: real, r: nat, from: real, length: real)
    requires Spaced(times, gap) && gap >= 0.0 && gap * r as real >= length
    ensures |InWindow(times, from, length)| <= r
  {
    var inside := InWindow(times, from, length);
    if inside != {} {
      var first := Smallest(inside);
      forall i | i in inside ensures first <= i < first + r {
        if i >= first + r {
          SpacedApart(times, gap, first, r);
          SpacedApart(times, gap, first + r, i - (first + r));
          assert false;
        }
      }
      RangeBound(inside, first, r);
    }
  }

  /**
   Pacing, at every priority: while a source is configured for `r` requests a minute, no minute of any run
   contains more than `r` starts on it.
   */
  lemma PacingBound(g0: Gov, run: seq<Entry>, name: string, r: nat, from: real)
    requires IsRun(g0, run) && r > 0
    requires g0.Source(name).minInterval == Interval(Some(r)) && RateKept(run, name, Interval(Some(r)))
    ensures |InWindow(RunStarts(run, name), from, 60.0)| <= r
  {
    var gap := Interval(Some(r));
    RunPaced(g0, run, |run|, name, gap);
    assert run[..|run|] == run;
    assert gap * r as real == 60.0;
    WindowBound(RunStarts(run, name), gap, r, from, 60.0);
  }

  // ---- Retry-After -------------------------------------------------------------------------------

  lemma EntryRetryAfter(g: Gov, e: Entry, name: string)
    requires Step(g, e.event, e.now, e.inLoop, e.grants, e.post)
    ensures g.Source(name).retryUntil <= e.post.Source(name).retryUntil
    ensures e.event.RetryAfter? && e.event.source == name ==>
              e.post.Source(name).retryUntil >= e.now + e.event.seconds
    ensures forall w :: w in e.grants && w.source == name ==> e.post.Source(name).retryUntil <= e.now
  {
    var p := Prepared(g, e.event, e.now);
    PreparedSource(g, e.event, e.now, name);
    if RunsPass(g, e.event) {
      PassSource(p, e.now, e.inLoop, e.grants, e.post, name);
      PassHonoursRetryAfter(p, e.now, e.grants, name);
    }
  }

  lemma {:induction false} RetryAfterNeverShrinks(g0: Gov, run: seq<Entry>, name: string, i: nat, j: nat)
    requires IsRun(g0, run) && i <= j <= |run|
    ensures StateAt(g0, run, i).Source(name).retryUntil <= StateAt(g0, run, j).Source(name).retryUntil
  {
    if i < j {
      RetryAfterNeverShrinks(g0, run, name, i, j - 1);
      assert RunStep(g0, run, j - 1);
      EntryRetryAfter(StateAt(g0, run, j - 1), run[j - 1], name);
    }
  }

  /** Once a source asks to be left alone for some seconds, no later step starts a request on it before then. */
  lemma RetryAfterHonoured(g0: Gov, run: seq<Entry>, name: string, i: nat, j: nat, w: Waiter)
    requires IsRun(g0, run) && i <= j < |run|
    requires run[i].event.RetryAfter? && run[i].event.source == name
    requires w in run[j].grants && w.source == name
    ensures run[j].now >= run[i].now + run[i].event.seconds
  {
    assert RunStep(g0, run, i) && RunStep(g0, run, j);
    EntryRetryAfter(StateAt(g0, run, i), run[i], name);
    EntryRetryAfter(StateAt(g0, run, j), run[j], name);
    RetryAfterNeverShrinks(g0, run, name, i + 1, j + 1);
  }

  // ---- Fairness ----------------------------------------------------------------------------------

  function Gap(g: Gov, a: string, b: string): int {
    var d := g.Source(a).served - g.Source(b).served;
    if d >= 0 then d else -d
  }

  /** Both sources have a grantable waiter at the best priority anyone could be granted at. */
  ghost predicate Contending(g: Gov, now: real, a: string, b: string) {
    exists v, w ::
      && v in g.waiters && w in g.waiters && g.Grantable(v, now) && g.Grantable(w, now)
      && v.source == a && w.source == b && v.priority == w.priority
      && forall u :: u in g.waiters && g.Grantable(u, now) ==> v.priority <= u.priority
  }

  lemma GrantNarrowsGap(g: Gov, now: real, w: Waiter, a: string, b: string)
    requires g.IsNext(w, now) && a != b
    requires w.source == a || w.source == b ==> Contending(g, now, a, b)
    ensures Gap(g.GrantTo(w, now), a, b) <= Max(1, Gap(g, a, b))
  {
    if w.source == a || w.source == b {
      var x, y :| x in g.waiters && y in g.waiters && g.Grantable(x, now) && g.Grantable(y, now)
        && x.source == a && y.source == b && x.priority == y.priority
        && forall u :: u in g.waiters && g.Grantable(u, now) ==> x.priority <= u.priority;
      assert w == x || g.Before(w, x);
      assert w == y || g.Before(w, y);
    }
  }

  /** Whenever the pass serves one of the two sources, both are contending at that moment. */
  ghost predicate ContendingThroughout(g: Gov, now: real, grants: seq<Waiter>, a: string, b: string) {
    grants != [] ==>
      var k := |grants| - 1;
      && ContendingThroughout(g, now, grants[..k], a, b)
      && (grants[k].source == a || grants[k].source == b ==> Contending(AfterGrants(g, now, grants[..k]), now, a, b))
  }

  ghost predicate AlwaysContending(g0: Gov, run: seq<Entry>, a: string, b: string) {
    forall k :: 0 <= k < |run| ==> ContendingAt(g0, run, k, a, b)
  }

  ghost predicate ContendingAt(g0: Gov, run: seq<Entry>, k: nat, a: string, b: string)
    requires k < |run|
  {
    ContendingThroughout(Prepared(StateAt(g0, run, k), run[k].event, run[k].now), run[k].now, run[k].grants, a, b)
  }

  lemma {:induction false} PassFair(g: Gov, now: real, grants: seq<Waiter>, a: string, b: string)
    requires GrantsInOrder(g, now, grants) && a != b && ContendingThroughout(g, now, grants, a, b)
    ensures Gap(AfterGrants(g, now, grants), a, b) <= Max(1, Gap(g, a, b))
  {
    if grants != [] {
      var k := |grants| - 1;
      PassFair(g, now, grants[..k], a, b);
      GrantNarrowsGap(AfterGrants(g, now, grants[..k]), now, grants[k], a, b);
    }
  }

  /**
   Least-served fairness: over a run in which two sources are served only while both have work at the best
   priority, the difference between their served counts never grows past one, or past where it began.
   */
  lemma {:induction false} FairBetweenSources(g0: Gov, run: seq<Entry>, k: nat, a: string, b: string)
    requires IsRun(g0, run) && AlwaysContending(g0, run, a, b) && a != b && k <= |run|
    ensures Gap(StateAt(g0, run, k), a, b) <= Max(1, Gap(g0, a, b))
  {
    if k > 0 {
      FairBetweenSources(g0, run, k - 1, a, b);
      EntryFair(g0, run, k - 1, a, b);
    }
  }

  lemma EntryFair(g0: Gov, run: seq<Entry>, k: nat, a: string, b: string)
    requires IsRun(g0, run) && AlwaysContending(g0, run, a, b) && a != b && k < |run|
    ensures Gap(StateAt(g0, run, k + 1), a, b) <= Max(1, Gap(StateAt(g0, run, k), a, b))
  {
    assert RunStep(g0, run, k);
    var g, e := StateAt(g0, run, k), run[k];
    var p := Prepared(g, e.event, e.now);
    PreparedSource(g, e.event, e.now, a);
    PreparedSource(g, e.event, e.now, b);
    if RunsPass(g, e.event) {
      assert ContendingAt(g0, run, k, a, b);
      PassFair(p, e.now, e.grants, a, b);
      PassSource(p, e.now, e.inLoop, e.grants, e.post, a);
      PassSource(p, e.now, e.inLoop, e.grants, e.post, b);
    }
  }
}
