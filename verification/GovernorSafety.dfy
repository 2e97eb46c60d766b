/** What every step of the traffic governor keeps, in every interleaving. */
module GovernorSafety {
  import opened Common
  import opened GovernorState

  // ---- Counting live leases ----------------------------------------------------------------------

  datatype Selector = OfKind(kind: Kind) | OfSource(name: string) | BackgroundHttp

  predicate Selects(sel: Selector, l: Lease) {
    match sel
    case OfKind(kind) => l.kind == kind
    case OfSource(name) => l.source == name
    case BackgroundHttp => l.kind == Http && l.priority >= 4
  }

  function Selected(leases: map<nat, Lease>, sel: Selector): set<nat> {
    set id | id in leases && Selects(sel, leases[id])
  }

  function Count(leases: map<nat, Lease>, sel: Selector): nat {
    |Selected(leases, sel)|
  }

  lemma CountAdd(leases: map<nat, Lease>, id: nat, l: Lease, sel: Selector)
    requires id !in leases
    ensures Count(leases[id := l], sel) == Count(leases, sel) + if Selects(sel, l) then 1 else 0
  {
    var before, after := Selected(leases, sel), Selected(leases[id := l], sel);
    assert after == if Selects(sel, l) then before + {id} else before;
  }

  lemma CountDrop(leases: map<nat, Lease>, id: nat, sel: Selector)
    requires id in leases
    ensures Count(leases - {id}, sel) == Count(leases, sel) - if Selects(sel, leases[id]) then 1 else 0
  {
    var before, after := Selected(leases, sel), Selected(leases - {id}, sel);
    assert before == if Selects(sel, leases[id]) then after + {id} else after;
  }

  lemma CountMarked(leases: map<nat, Lease>, chosen: set<nat>, sel: Selector)
    ensures Count(Marked(leases, chosen), sel) == Count(leases, sel)
  {
    assert Selected(Marked(leases, chosen), sel) == Selected(leases, sel);
  }

  // ---- The invariant -----------------------------------------------------------------------------

  function TicketsOf(ws: seq<Waiter>): set<nat> {
    set w | w in ws :: w.ticket
  }

  ghost predicate OneEach(ws: seq<Waiter>) {
    forall i, j :: 0 <= i < j < |ws| ==> ws[i].ticket != ws[j].ticket
  }

  /** Every slot counter is the number of live leases it counts. */
  ghost predicate CountersExact(g: Gov) {
    && g.httpInUse == Count(g.leases, OfKind(Http))
    && g.browserInUse == Count(g.leases, OfKind(Browser))
    && forall name :: g.Source(name).inUse == Count(g.leases, OfSource(name))
  }

  ghost predicate WithinCapacity(g: Gov) {
    && g.httpInUse <= Max(g.httpCapacity, g.httpCapacity - g.reserve)
    && g.browserInUse <= g.browserCapacity
    && Count(g.leases, BackgroundHttp) <= g.httpCapacity - g.reserve
  }

  /** No waiter is lost or served twice: an undecided call is queued, a granted one holds a live lease. */
  ghost predicate TicketsMatch(g: Gov) {
    && OneEach(g.waiters)
    && (forall w :: w in g.waiters ==>
          w.ticket < g.nextTicket && w.ticket in g.futures && g.futures[w.ticket] != Granted)
    && (forall t :: t in g.leases ==> t < g.nextTicket && (t in g.futures ==> g.futures[t] == Granted))
    && (forall t :: t in g.futures ==>
          && t < g.nextTicket
          && (g.futures[t] == Granted ==> t in g.leases)
          && (g.futures[t] == Pending ==> t in TicketsOf(g.waiters)))
  }

  ghost predicate Sane(g: Gov) {
    && g.httpCapacity >= 1 && g.browserCapacity >= 1 && g.reserve <= g.httpCapacity - 1
    && (forall name :: g.Source(name).concurrency >= 1)
    && (forall t :: t in g.leases && g.leases[t].preempted ==>
          g.leases[t].kind == Browser && g.leases[t].priority >= BACKGROUND)
  }

  ghost predicate Inv(g: Gov) {
    Sane(g) && CountersExact(g) && WithinCapacity(g) && TicketsMatch(g)
  }

  // ---- Lists of waiters --------------------------------------------------------------------------

  lemma {:induction false} WithoutMembers(ws: seq<Waiter>, ticket: nat)
    ensures forall w :: w in Without(ws, ticket) <==> w in ws && w.ticket != ticket
    ensures OneEach(ws) ==> OneEach(Without(ws, ticket))
  {
    if ws != [] {
      WithoutMembers(ws[1..], ticket);
      assert ws == [ws[0]] + ws[1..];
    }
  }

  lemma {:induction false} UndecidedMembers(ws: seq<Waiter>, futures: map<nat, Future>)
    ensures forall w :: w in Undecided(ws, futures) <==>
              w in ws && w.ticket in futures && futures[w.ticket] == Pending
    ensures OneEach(ws) ==> OneEach(Undecided(ws, futures))
  {
    if ws != [] {
      UndecidedMembers(ws[1..], futures);
      assert ws == [ws[0]] + ws[1..];
    }
  }

  /** Removing a waiter that is decided anyway leaves the undecided ones as they were. */
  lemma {:induction false} UndecidedWithout(ws: seq<Waiter>, ticket: nat, futures: map<nat, Future>)
    requires ticket in futures ==> futures[ticket] != Pending
    ensures Undecided(Without(ws, ticket), futures) == Undecided(ws, futures)
  {
    if ws != [] {
      UndecidedWithout(ws[1..], ticket, futures);
      if ws[0].ticket != ticket {
        assert Without(ws, ticket)[1..] == Without(ws[1..], ticket);
      }
    }
  }

  /** Deciding more futures only shortens the undecided list, wherever the decided ones were removed. */
  lemma {:induction false} UndecidedTwice(ws: seq<Waiter>, ticket: nat, futures: map<nat, Future>, f: Future)
    requires f != Pending
    ensures Undecided(Undecided(ws, futures), futures[ticket := f]) == Undecided(ws, futures[ticket := f])
  {
    if ws != [] {
      UndecidedTwice(ws[1..], ticket, futures, f);
      var us := Undecided(ws, futures);
      if ws[0].ticket in futures && futures[ws[0].ticket] == Pending {
        assert us[1..] == Undecided(ws[1..], futures);
      }
    }
  }

  lemma RaisedTickets(ws: seq<Waiter>, task: nat, priority: Priority)
    ensures TicketsOf(Raised(ws, task, priority)) == TicketsOf(ws)
  {
    var rs := Raised(ws, task, priority);
    TicketsByIndex(ws);
    TicketsByIndex(rs);
    forall t ensures t in TicketsOf(rs) <==> t in TicketsOf(ws) {
      if t in TicketsOf(ws) {
        var i :| 0 <= i < |ws| && ws[i].ticket == t;
        assert rs[i].ticket == t;
      }
    }
  }

  lemma TicketsByIndex(ws: seq<Waiter>)
    ensures forall t :: t in TicketsOf(ws) <==> exists i :: 0 <= i < |ws| && ws[i].ticket == t
  {
    forall t | t in TicketsOf(ws)
      ensures exists i :: 0 <= i < |ws| && ws[i].ticket == t
    {
      var w :| w in ws && w.ticket == t;
      var i :| 0 <= i < |ws| && ws[i] == w;
      assert ws[i].ticket == t;
    }
    forall i | 0 <= i < |ws| ensures ws[i].ticket in TicketsOf(ws) {
      assert ws[i] in ws;
    }
  }

  // ---- One pass keeps the invariant --------------------------------------------------------------

  lemma GrantKeeps(g: Gov, w: Waiter, now: real)
    requires Inv(g) && w in g.waiters && g.Grantable(w, now)
    ensures Inv(g.GrantTo(w, now))
  {
    var g' := g.GrantTo(w, now);
    var l := Lease(w.source, w.priority, w.kind, w.task, false);
    WithoutMembers(g.waiters, w.ticket);
    CountAdd(g.leases, w.ticket, l, OfKind(Http));
    CountAdd(g.leases, w.ticket, l, OfKind(Browser));
    CountAdd(g.leases, w.ticket, l, BackgroundHttp);
    forall name ensures g'.Source(name).inUse == Count(g'.leases, OfSource(name)) {
      CountAdd(g.leases, w.ticket, l, OfSource(name));
    }
    assert Selected(g.leases, BackgroundHttp) <= Selected(g.leases, OfKind(Http));
    SubsetSize(Selected(g.leases, BackgroundHttp), Selected(g.leases, OfKind(Http)));
    forall t | t in g'.futures && g'.futures[t] == Pending ensures t in TicketsOf(g'.waiters) {
      var v :| v in g.waiters && v.ticket == t;
      assert v in g'.waiters;
    }
    assert CountersExact(g');
    assert Sane(g');
    assert TicketsMatch(g');
  }

  lemma {:induction false} GrantsKeep(g: Gov, now: real, grants: seq<Waiter>)
    requires Inv(g) && GrantsInOrder(g, now, grants)
    ensures Inv(AfterGrants(g, now, grants))
  {
    if grants != [] {
      var k := |grants| - 1;
      GrantsKeep(g, now, grants[..k]);
      GrantKeeps(AfterGrants(g, now, grants[..k]), grants[k], now);
    }
  }

  /** Granted waiters leave the list at once; the undecided ones are those of the list before the pass. */
  lemma {:induction false} GrantsUndecided(g: Gov, now: real, grants: seq<Waiter>)
    ensures var h := AfterGrants(g, now, grants);
            Undecided(h.waiters, h.futures) == Undecided(g.waiters, h.futures)
  {
    if grants != [] {
      var k := |grants| - 1;
      var h, w := AfterGrants(g, now, grants[..k]), grants[k];
      GrantsUndecided(g, now, grants[..k]);
      UndecidedGrant(h.waiters, g.waiters, w.ticket, h.futures);
    }
  }

  lemma UndecidedGrant(ws: seq<Waiter>, vs: seq<Waiter>, ticket: nat, futures: map<nat, Future>)
    requires Undecided(ws, futures) == Undecided(vs, futures)
    ensures Undecided(Without(ws, ticket), futures[ticket := Granted]) == Undecided(vs, futures[ticket := Granted])
  {
    UndecidedWithout(ws, ticket, futures[ticket := Granted]);
    UndecidedTwice(ws, ticket, futures, Granted);
    UndecidedTwice(vs, ticket, futures, Granted);
  }

  lemma CleanKeeps(h: Gov)
    requires Inv(h)
    ensures Inv(h.(waiters := Undecided(h.waiters, h.futures)))
  {
    UndecidedMembers(h.waiters, h.futures);
    var c := h.(waiters := Undecided(h.waiters, h.futures));
    forall t | t in c.futures && c.futures[t] == Pending ensures t in TicketsOf(c.waiters) {
      var v :| v in h.waiters && v.ticket == t;
      assert v in c.waiters;
    }
    assert forall name :: c.Source(name) == h.Source(name);
  }

  lemma MarkKeeps(c: Gov, chosen: set<nat>, cancelRequests: set<nat>, timer: Option<real>)
    requires Inv(c) && chosen <= Victims(c.leases)
    ensures Inv(c.(leases := Marked(c.leases, chosen), cancelRequests := cancelRequests, timer := timer))
  {
    var g' := c.(leases := Marked(c.leases, chosen), cancelRequests := cancelRequests, timer := timer);
    CountMarked(c.leases, chosen, OfKind(Http));
    CountMarked(c.leases, chosen, OfKind(Browser));
    CountMarked(c.leases, chosen, BackgroundHttp);
    forall name ensures g'.Source(name).inUse == Count(g'.leases, OfSource(name)) {
      CountMarked(c.leases, chosen, OfSource(name));
      assert g'.Source(name) == c.Source(name);
    }
    assert Sane(g') by { assert forall name :: g'.Source(name) == c.Source(name); }
  }

  lemma DispatchKeeps(g: Gov, now: real, inLoop: bool, grants: seq<Waiter>, g': Gov)
    requires Inv(g) && Dispatched(g, now, inLoop, grants, g')
    ensures Inv(g')
  {
    var h := AfterGrants(g, now, grants);
    GrantsKeep(g, now, grants);
    GrantsUndecided(g, now, grants);
    CleanKeeps(h);
    var clean := h.(waiters := Undecided(g.waiters, h.futures));
    var chosen := NewlyPreempted(clean.leases, g'.leases);
    MarkKeeps(clean, chosen, g'.cancelRequests, g'.timer);
  }

  // ---- Every step keeps the invariant ------------------------------------------------------------

  lemma EnqueueKeeps(g: Gov, source: string, priority: Priority, kind: Kind, task: Option<nat>)
    requires Inv(g)
    ensures Inv(Enqueued(g, source, priority, kind, task))
  {
    var g' := Enqueued(g, source, priority, kind, task);
    assert forall name :: g'.Source(name) == g.Source(name);
    forall t | t in g'.futures && g'.futures[t] == Pending ensures t in TicketsOf(g'.waiters) {
      if t == g.nextTicket {
        assert g'.waiters[|g.waiters|] in g'.waiters;
      } else {
        var v :| v in g.waiters && v.ticket == t;
        assert v in g'.waiters;
      }
    }
    assert forall i :: 0 <= i < |g.waiters| ==> g.waiters[i] in g.waiters;
    assert TicketsMatch(g');
  }

  lemma CancelKeeps(g: Gov, t: nat)
    requires Inv(g) && t in g.futures && g.futures[t] == Pending
    ensures Inv(g.(futures := g.futures[t := Cancelled]))
  {
    var g' := g.(futures := g.futures[t := Cancelled]);
    assert forall name :: g'.Source(name) == g.Source(name);
  }

  /** The suspended call is gone: its future is forgotten and, if it still queued, its waiter too. */
  lemma ForgetKeeps(g: Gov, t: nat)
    requires Inv(g) && t in g.futures && g.futures[t] != Pending
    ensures Inv(g.(futures := g.futures - {t}, waiters := Without(g.waiters, t)))
    ensures g.futures[t] == Granted ==> Without(g.waiters, t) == g.waiters
  {
    var g' := g.(futures := g.futures - {t}, waiters := Without(g.waiters, t));
    WithoutMembers(g.waiters, t);
    if g.futures[t] == Granted {
      WithoutNothing(g.waiters, t);
    }
    assert forall name :: g'.Source(name) == g.Source(name);
    forall u | u in g'.futures && g'.futures[u] == Pending ensures u in TicketsOf(g'.waiters) {
      var v :| v in g.waiters && v.ticket == u;
      assert v in g'.waiters;
    }
  }

  lemma {:induction false} WithoutNothing(ws: seq<Waiter>, ticket: nat)
    requires forall w :: w in ws ==> w.ticket != ticket
    ensures Without(ws, ticket) == ws
  {
    if ws != [] {
      assert ws[0] in ws;
      WithoutNothing(ws[1..], ticket);
    }
  }

  lemma ReleaseKeeps(g: Gov, t: nat)
    requires Inv(g) && t in g.leases && t !in g.futures
    ensures Inv(Released(g, t))
  {
    var g' := Released(g, t);
    CountDrop(g.leases, t, OfKind(Http));
    CountDrop(g.leases, t, OfKind(Browser));
    CountDrop(g.leases, t, BackgroundHttp);
    forall name ensures g'.Source(name).inUse == Count(g'.leases, OfSource(name)) {
      CountDrop(g.leases, t, OfSource(name));
    }
    assert Sane(g');
  }

  lemma ConfigureKeeps(g: Gov, source: string, s: SourceState)
    requires Inv(g) && s.concurrency >= 1 && s.inUse == g.Source(source).inUse
    ensures Inv(g.(sources := g.sources[source := s]))
  {
    var g' := g.(sources := g.sources[source := s]);
    assert forall name :: g'.Source(name) == if name == source then s else g.Source(name);
  }

  lemma PromoteKeeps(g: Gov, task: nat, priority: Priority)
    requires Inv(g)
    ensures Inv(Promoted(g, task, priority))
  {
    var g' := Promoted(g, task, priority);
    RaisedTickets(g.waiters, task, priority);
    assert forall name :: g'.Source(name) == g.Source(name);
    forall w | w in g'.waiters
      ensures w.ticket < g.nextTicket && w.ticket in g.futures && g.futures[w.ticket] != Granted
    {
      var i :| 0 <= i < |g'.waiters| && g'.waiters[i] == w;
      assert g.waiters[i] in g.waiters;
    }
  }

  lemma PreparedKeeps(g: Gov, e: Event, now: real)
    requires Inv(g) && Enabled(g, e)
    ensures Inv(Prepared(g, e, now))
  {
    match e
    case Wait(source, priority, kind, task) =>
      EnqueueKeeps(g, source, priority, kind, task);
    case CancelTask(t) =>
      if g.futures[t] == Pending { CancelKeeps(g, t); }
    case Resume(t) =>
      ForgetKeeps(g, t);
    case Abort(t) =>
      ForgetKeeps(g, t);
      if ReturnsSlot(g, t) { ReleaseKeeps(g.(futures := g.futures - {t}), t); }
    case Release(t) =>
      if t in g.leases { ReleaseKeeps(g, t); }
    case RetryAfter(source, seconds) =>
      ConfigureKeeps(g, source, Delayed(g, source, seconds, now).Source(source));
    case Configure(source, concurrency, rpm) =>
      ConfigureKeeps(g, source, Configured(g, source, concurrency, rpm).Source(source));
    case Promote(task, priority) =>
      PromoteKeeps(g, task, priority);
    case Dispatch =>
  }

  lemma StepKeeps(g: Gov, e: Event, now: real, inLoop: bool, grants: seq<Waiter>, g': Gov)
    requires Inv(g) && Step(g, e, now, inLoop, grants, g')
    ensures Inv(g')
  {
    PreparedKeeps(g, e, now);
    if RunsPass(g, e) {
      DispatchKeeps(Prepared(g, e, now), now, inLoop, grants, g');
    }
  }

  // ---- Whole runs --------------------------------------------------------------------------------

  lemma InitialInv(httpCapacity: int, browserCapacity: int, reservedForForeground: int)
    requires httpCapacity >= 1 && browserCapacity >= 1
    ensures Inv(Initial(httpCapacity, browserCapacity, reservedForForeground))
  {
    var g := Initial(httpCapacity, browserCapacity, reservedForForeground);
    assert forall sel :: Selected(g.leases, sel) == {};
  }

  /** The invariant holds before and after every step of every run. */
  lemma {:induction false} RunKeeps(g0: Gov, run: seq<Entry>, k: nat)
    requires Inv(g0) && IsRun(g0, run) && k <= |run|
    ensures Inv(StateAt(g0, run, k))
  {
    if k > 0 {
      RunKeeps(g0, run, k - 1);
      EntryKeeps(g0, run, k - 1);
    }
  }

  lemma EntryKeeps(g0: Gov, run: seq<Entry>, k: nat)
    requires IsRun(g0, run) && k < |run| && Inv(StateAt(g0, run, k))
    ensures Inv(StateAt(g0, run, k + 1))
  {
    var g, e := StateAt(g0, run, k), run[k];
    assert RunStep(g0, run, k);
    StepKeeps(g, e.event, e.now, e.inLoop, e.grants, e.post);
  }
}
