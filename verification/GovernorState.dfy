/**
 The state of the traffic governor and the meaning of one scheduling pass.

 A waiter and the lease it is granted share one ticket (the source's `seq`), which stands for the object
 identity that the source passes around. `futures` holds one entry for every suspended `_wait` call: the
 state of the future that call is awaiting.
 */
module GovernorState {
  import opened Common

  datatype Kind = Http | Browser

  type Priority = p: int | 1 <= p <= 6 witness 1

  // Priorities at or above this value are background work.
  const BACKGROUND := 4
  const DEFAULT_SOURCE_CONCURRENCY := 2

  datatype SourceState = SourceState(
    concurrency: int, minInterval: real, inUse: int, served: int, nextStart: real, retryUntil: real)

  const FRESH_SOURCE := SourceState(DEFAULT_SOURCE_CONCURRENCY, 0.0, 0, 0, 0.0, 0.0)

  datatype Waiter = Waiter(ticket: nat, source: string, priority: Priority, kind: Kind, task: Option<nat>)

  datatype Future = Pending | Granted | Cancelled

  datatype Lease = Lease(source: string, priority: Priority, kind: Kind, task: Option<nat>, preempted: bool)

  datatype Gov = Gov(
    httpCapacity: int, browserCapacity: int, reserve: int,
    sources: map<string, SourceState>,
    waiters: seq<Waiter>,
    leases: map<nat, Lease>,
    futures: map<nat, Future>,
    httpInUse: int, browserInUse: int,
    nextTicket: nat,
    timer: Option<real>,
    promoted: map<nat, Priority>,
    cancelRequests: set<nat>)
  {
    function Source(name: string): SourceState {
      if name in sources then sources[name] else FRESH_SOURCE
    }

    /** None while the source is at its concurrency limit, else the time it allows a start. */
    function ReadyAt(name: string): Option<real> {
      var s := Source(name);
      if s.inUse >= s.concurrency then None else Some(MaxReal(s.nextStart, s.retryUntil))
    }

    function HttpLimit(p: Priority): int {
      httpCapacity - if p >= BACKGROUND then reserve else 0
    }

    predicate CapacityOk(w: Waiter) {
      if w.kind == Browser then browserInUse < browserCapacity else httpInUse < HttpLimit(w.priority)
    }

    predicate IsPending(w: Waiter) {
      w.ticket in futures && futures[w.ticket] == Pending
    }

    predicate Grantable(w: Waiter, now: real) {
      && IsPending(w)
      && CapacityOk(w)
      && ReadyAt(w.source).Some?
      && ReadyAt(w.source).value <= now
    }

    /** Strict service order: priority, then the least served source, then arrival. */
    predicate Before(a: Waiter, b: Waiter) {
      || a.priority < b.priority
      || (a.priority == b.priority
          && (|| Source(a.source).served < Source(b.source).served
              || (Source(a.source).served == Source(b.source).served && a.ticket < b.ticket)))
    }

    /** The waiter a grant must go to: grantable, and before every other grantable waiter. */
    ghost predicate IsNext(w: Waiter, now: real) {
      && w in waiters
      && Grantable(w, now)
      && forall v :: v in waiters && v != w && Grantable(v, now) ==> Before(w, v)
    }

    ghost predicate NothingGrantable(now: real) {
      forall w :: w in waiters ==> !Grantable(w, now)
    }

    function GrantTo(w: Waiter, now: real): Gov {
      var s := Source(w.source);
      this.(
        waiters := Without(waiters, w.ticket),
        sources := sources[w.source := s.(inUse := s.inUse + 1, served := s.served + 1, nextStart := now + s.minInterval)],
        httpInUse := if w.kind == Http then httpInUse + 1 else httpInUse,
        browserInUse := if w.kind == Browser then browserInUse + 1 else browserInUse,
        leases := leases[w.ticket := Lease(w.source, w.priority, w.kind, w.task, false)],
        futures := futures[w.ticket := Granted])
    }

    /** A browser request that foreground work makes and whose source would allow a start. */
    predicate IsUrgent(w: Waiter) {
      w.kind == Browser && w.priority < BACKGROUND && ReadyAt(w.source).Some?
    }
  }

  /** `list.remove` by identity. */
  function Without(ws: seq<Waiter>, ticket: nat): seq<Waiter> {
    if ws == [] then []
    else if ws[0].ticket == ticket then Without(ws[1..], ticket)
    else [ws[0]] + Without(ws[1..], ticket)
  }

  /** The waiters whose future is still undecided, in arrival order. */
  function Undecided(ws: seq<Waiter>, futures: map<nat, Future>): seq<Waiter> {
    if ws == [] then []
    else if ws[0].ticket in futures && futures[ws[0].ticket] == Pending then [ws[0]] + Undecided(ws[1..], futures)
    else Undecided(ws[1..], futures)
  }

  predicate IsVictim(l: Lease) {
    l.kind == Browser && l.priority >= BACKGROUND && !l.preempted
  }

  function Victims(leases: map<nat, Lease>): set<nat> {
    set id | id in leases && IsVictim(leases[id])
  }

  function NewlyPreempted(before: map<nat, Lease>, after: map<nat, Lease>): set<nat> {
    set id | id in Victims(before) && id in after && after[id].preempted
  }

  function UrgentCount(g: Gov, ws: seq<Waiter>): nat {
    if ws == [] then 0 else (if g.IsUrgent(ws[0]) then 1 else 0) + UrgentCount(g, ws[1..])
  }

  function Marked(leases: map<nat, Lease>, chosen: set<nat>): map<nat, Lease> {
    map id | id in leases :: if id in chosen then leases[id].(preempted := true) else leases[id]
  }

  function TasksOf(leases: map<nat, Lease>, chosen: set<nat>): set<nat> {
    set id | id in chosen && id in leases && leases[id].task.Some? :: leases[id].task.value
  }

  /** The state after granting to `grants`, in that order, all at the same instant. */
  function AfterGrants(g: Gov, now: real, grants: seq<Waiter>): Gov {
    if grants == [] then g
    else AfterGrants(g, now, grants[..|grants| - 1]).GrantTo(grants[|grants| - 1], now)
  }

  /** Each grant goes to the waiter whose turn it is at that very moment. */
  ghost predicate GrantsInOrder(g: Gov, now: real, grants: seq<Waiter>) {
    grants != [] ==>
      var k := |grants| - 1;
      && GrantsInOrder(g, now, grants[..k])
      && AfterGrants(g, now, grants[..k]).IsNext(grants[k], now)
  }

  /**
   Preemption: only background browser leases, only when foreground browser work finds the browser full,
   at most one lease for each such request, and the least important leases first.
   */
  ghost predicate PreemptionDone(h: Gov, leases: map<nat, Lease>, cancelRequests: set<nat>) {
    var urgent := UrgentCount(h, h.waiters);
    var victims := Victims(h.leases);
    var chosen := NewlyPreempted(h.leases, leases);
    && leases == Marked(h.leases, chosen)
    && cancelRequests == h.cancelRequests + TasksOf(h.leases, chosen)
    && (if urgent == 0 || h.browserInUse < h.browserCapacity then chosen == {}
        else
          && |chosen| == Min(urgent, |victims|)
          && forall c, v :: c in chosen && v in victims - chosen ==> h.leases[c].priority >= h.leases[v].priority)
  }

  /**
   The timer after a pass: no later than the ready time of any waiter that only its source's clock holds
   back, and never armed without a waiter that is due at that time. Outside an event loop none is armed.
   */
  ghost predicate TimerSet(h: Gov, now: real, inLoop: bool, timer: Option<real>) {
    if !inLoop then timer == None
    else
      && (timer.Some? ==>
            && now < timer.value
            && exists w :: w in h.waiters && h.ReadyAt(w.source) == Some(timer.value))
      && (forall w :: w in h.waiters && h.CapacityOk(w) && h.ReadyAt(w.source).Some? ==>
            timer.Some? && timer.value <= h.ReadyAt(w.source).value)
  }

  /** What one call of `_dispatch` does. */
  ghost predicate Dispatched(g: Gov, now: real, inLoop: bool, grants: seq<Waiter>, g': Gov) {
    var h := AfterGrants(g, now, grants);
    var clean := h.(waiters := Undecided(g.waiters, h.futures));
    && GrantsInOrder(g, now, grants)
    && clean.NothingGrantable(now)
    && PreemptionDone(clean, g'.leases, g'.cancelRequests)
    && TimerSet(clean, now, inLoop, g'.timer)
    && g' == clean.(leases := g'.leases, cancelRequests := g'.cancelRequests, timer := g'.timer)
  }

  // ---- Events ------------------------------------------------------------------------------------

  datatype Event =
    | Wait(source: string, priority: Priority, kind: Kind, task: Option<nat>)
    | CancelTask(ticket: nat)      // the task awaiting this ticket's future is cancelled
    | Resume(ticket: nat)          // the suspended call returns its lease
    | Abort(ticket: nat)           // the suspended call resumes with CancelledError
    | Release(ticket: nat)         // the lease context exits
    | RetryAfter(source: string, seconds: real)
    | Configure(source: string, concurrency: int, requestsPerMinute: Option<int>)
    | Promote(raised: nat, priority: Priority)
    | Dispatch                     // the timer fires, or the second pass of an aborted call

  function Effective(g: Gov, priority: Priority, task: Option<nat>): Priority {
    if task.Some? && task.value in g.promoted then Min(priority, g.promoted[task.value]) else priority
  }

  function Enqueued(g: Gov, source: string, priority: Priority, kind: Kind, task: Option<nat>): Gov {
    g.(waiters := g.waiters + [Waiter(g.nextTicket, source, Effective(g, priority, task), kind, task)],
       futures := g.futures[g.nextTicket := Pending],
       nextTicket := g.nextTicket + 1)
  }

  function Released(g: Gov, ticket: nat): Gov
    requires ticket in g.leases
  {
    var l := g.leases[ticket];
    var s := g.Source(l.source);
    g.(leases := g.leases - {ticket},
       sources := g.sources[l.source := s.(inUse := s.inUse - 1)],
       httpInUse := if l.kind == Http then g.httpInUse - 1 else g.httpInUse,
       browserInUse := if l.kind == Browser then g.browserInUse - 1 else g.browserInUse)
  }

  function Interval(requestsPerMinute: Option<int>): real {
    if requestsPerMinute.Some? && requestsPerMinute.value != 0 then 60.0 / requestsPerMinute.value as real else 0.0
  }

  function Configured(g: Gov, source: string, concurrency: int, requestsPerMinute: Option<int>): Gov {
    g.(sources := g.sources[source :=
         g.Source(source).(concurrency := Max(1, concurrency), minInterval := Interval(requestsPerMinute))])
  }

  function Delayed(g: Gov, source: string, seconds: real, now: real): Gov {
    var s := g.Source(source);
    g.(sources := g.sources[source := s.(retryUntil := MaxReal(s.retryUntil, now + MaxReal(0.0, seconds)))])
  }

  function RaisedOne(w: Waiter, task: nat, priority: Priority): Waiter {
    if w.task == Some(task) && priority < w.priority then w.(priority := priority) else w
  }

  function Raised(ws: seq<Waiter>, task: nat, priority: Priority): seq<Waiter> {
    seq(|ws|, i requires 0 <= i < |ws| => RaisedOne(ws[i], task, priority))
  }

  function Promoted(g: Gov, task: nat, priority: Priority): Gov {
    g.(promoted := g.promoted[task := if task in g.promoted then Min(priority, g.promoted[task]) else priority],
       waiters := Raised(g.waiters, task, priority))
  }

  /** What the event does before any scheduling pass it makes. */
  function Prepared(g: Gov, e: Event, now: real): Gov {
    match e
    case Wait(source, priority, kind, task) => Enqueued(g, source, priority, kind, task)
    case CancelTask(t) =>
      if t in g.futures && g.futures[t] == Pending then g.(futures := g.futures[t := Cancelled]) else g
    case Resume(t) => g.(futures := g.futures - {t})
    case Abort(t) =>
      var f := g.(futures := g.futures - {t});
      if ReturnsSlot(g, t) then Released(f, t) else f.(waiters := Without(g.waiters, t))
    case Release(t) => if t in g.leases then Released(g, t) else g
    case RetryAfter(source, seconds) => Delayed(g, source, seconds, now)
    case Configure(source, concurrency, rpm) => Configured(g, source, concurrency, rpm)
    case Promote(task, priority) => Promoted(g, task, priority)
    case Dispatch => g
  }

  /** The call was granted before its task was cancelled, so the lease goes back. */
  predicate ReturnsSlot(g: Gov, t: nat) {
    t in g.futures && g.futures[t] == Granted && t in g.leases
  }

  predicate Enabled(g: Gov, e: Event) {
    match e
    case CancelTask(t) => t in g.futures
    case Resume(t) => t in g.futures && g.futures[t] == Granted
    case Abort(t) => t in g.futures && g.futures[t] != Pending
    case Release(t) => t !in g.futures
    case _ => true
  }

  predicate RunsPass(g: Gov, e: Event) {
    match e
    case CancelTask(_) => false
    case Resume(_) => false
    case Abort(t) => ReturnsSlot(g, t)
    case Release(t) => t in g.leases
    case _ => true
  }

  /** One atomic step of the event loop. Steps that run a scheduling pass report its grants. */
  ghost predicate Step(g: Gov, e: Event, now: real, inLoop: bool, grants: seq<Waiter>, g': Gov) {
    && Enabled(g, e)
    && if RunsPass(g, e) then Dispatched(Prepared(g, e, now), now, inLoop, grants, g')
       else grants == [] && g' == Prepared(g, e, now)
  }

  // ---- Runs --------------------------------------------------------------------------------------

  datatype Entry = Entry(event: Event, now: real, inLoop: bool, grants: seq<Waiter>, post: Gov)

  /** Any interleaving of events from `g0`, with a clock that never goes back. */
  ghost predicate IsRun(g0: Gov, run: seq<Entry>) {
    forall k :: 0 <= k < |run| ==> RunStep(g0, run, k)
  }

  ghost predicate RunStep(g0: Gov, run: seq<Entry>, k: nat)
    requires k < |run|
  {
    && Step(StateAt(g0, run, k), run[k].event, run[k].now, run[k].inLoop, run[k].grants, run[k].post)
    && (k > 0 ==> run[k - 1].now <= run[k].now)
  }

  /** The state in which entry `k` of a run starts. */
  function StateAt(g0: Gov, run: seq<Entry>, k: nat): Gov
    requires k <= |run|
  {
    if k == 0 then g0 else run[k - 1].post
  }

  function Initial(httpCapacity: int, browserCapacity: int, reservedForForeground: int): Gov {
    Gov(httpCapacity, browserCapacity, Min(reservedForForeground, httpCapacity - 1),
        map[], [], map[], map[], 0, 0, 0, None, map[], {})
  }
}
