/** The traffic governor itself: the object whose methods the event loop interleaves. */
module Governor {
  import opened Common
  import opened GovernorState
  import opened GovernorSafety

  /** Waiters in strict service order. */
  ghost predicate Sorted(g: Gov, ws: seq<Waiter>) {
    ws != [] ==> (forall v :: v in ws[1..] ==> g.Before(ws[0], v)) && Sorted(g, ws[1..])
  }

  lemma {:induction false} SortedPairs(g: Gov, ws: seq<Waiter>, i: nat, j: nat)
    requires Sorted(g, ws) && i < j < |ws|
    ensures g.Before(ws[i], ws[j])
  {
    if i == 0 {
      assert ws[j] == ws[1..][j - 1];
    } else {
      SortedPairs(g, ws[1..], i - 1, j - 1);
    }
  }

  function Inserted(g: Gov, w: Waiter, ws: seq<Waiter>): (r: seq<Waiter>)
    ensures forall v :: v in r <==> v == w || v in ws
    ensures Sorted(g, ws) && (forall v :: v in ws ==> v.ticket != w.ticket) ==> Sorted(g, r)
  {
    if ws == [] then [w]
    else if g.Before(w, ws[0]) then
      assert ([w] + ws)[1..] == ws && ws == [ws[0]] + ws[1..];
      [w] + ws
    else
      var rest := Inserted(g, w, ws[1..]);
      assert ws == [ws[0]] + ws[1..];
      assert forall v :: v in ws[1..] ==> v in ws;
      [ws[0]] + rest
  }

  /** `sorted` by (priority, served, seq). */
  function Ordered(g: Gov, ws: seq<Waiter>): (r: seq<Waiter>)
    ensures forall v :: v in r <==> v in ws
    ensures OneEach(ws) ==> Sorted(g, r)
  {
    if ws == [] then []
    else
      assert ws == [ws[0]] + ws[1..];
      assert OneEach(ws) ==> OneEach(ws[1..]) && forall v :: v in ws[1..] ==> v.ticket != ws[0].ticket;
      Inserted(g, ws[0], Ordered(g, ws[1..]))
  }

  lemma {:induction false} HighestNumber(leases: map<nat, Lease>, ids: set<nat>) returns (id: nat)
    requires ids != {} && ids <= leases.Keys
    ensures id in ids && forall o :: o in ids ==> leases[o].priority <= leases[id].priority
  {
    var x := Member(ids);
    if ids == {x} {
      id := x;
    } else {
      var y := HighestNumber(leases, ids - {x});
      id := if leases[y].priority >= leases[x].priority then y else x;
      forall o | o in ids ensures leases[o].priority <= leases[id].priority {
        if o != x { assert o in ids - {x}; }
      }
    }
  }

  // ---- What a round knows ------------------------------------------------------------------------

  /** The noted time lies ahead, and some undecided waiter's source is ready exactly then. */
  ghost predicate Collected(g: Gov, earliest: Option<real>, now: real) {
    earliest.Some? ==>
      && now < earliest.value
      && exists w :: w in g.waiters && g.IsPending(w) && g.ReadyAt(w.source) == Some(earliest.value)
  }

  ghost predicate Covers(g: Gov, earliest: Option<real>, w: Waiter) {
    g.CapacityOk(w) && g.ReadyAt(w.source).Some? ==>
      earliest.Some? && earliest.value <= g.ReadyAt(w.source).value
  }

  ghost predicate Exhausted(g: Gov, earliest: Option<real>, now: real) {
    forall w :: w in g.waiters ==> g.IsPending(w) && !g.Grantable(w, now) && Covers(g, earliest, w)
  }

  /** A grant is on a source that is ready, so it moves no time that was noted as lying ahead. */
  lemma StillCollected(g: Gov, earliest: Option<real>, w: Waiter, now: real)
    requires OneEach(g.waiters) && Collected(g, earliest, now) && g.IsNext(w, now)
    ensures Collected(g.GrantTo(w, now), earliest, now)
  {
    if earliest.Some? {
      var u :| u in g.waiters && g.IsPending(u) && g.ReadyAt(u.source) == Some(earliest.value);
      WithoutMembers(g.waiters, w.ticket);
      UniqueTicket(g.waiters, u, w);
      assert u.source != w.source;
      assert u in g.GrantTo(w, now).waiters;
    }
  }

  lemma UniqueTicket(ws: seq<Waiter>, u: Waiter, w: Waiter)
    requires OneEach(ws) && u in ws && w in ws && u != w
    ensures u.ticket != w.ticket
  {
    var i :| 0 <= i < |ws| && ws[i] == u;
    var j :| 0 <= j < |ws| && ws[j] == w;
    assert i < j || j < i;
  }

  /** A list from which only decided waiters are missing has the same next waiter. */
  lemma NextAnyway(h: Gov, g: Gov, w: Waiter, now: real)
    requires g == h.(waiters := g.waiters) && Undecided(g.waiters, g.futures) == Undecided(h.waiters, h.futures)
    requires g.IsNext(w, now)
    ensures h.IsNext(w, now)
  {
    StillListed(g.waiters, h.waiters, w, g.futures);
    forall v | v in h.waiters && v != w && h.Grantable(v, now) ensures h.Before(w, v) {
      StillListed(h.waiters, g.waiters, v, g.futures);
    }
  }

  lemma {:induction false} UndecidedShrinks(ws: seq<Waiter>, w: Waiter, futures: map<nat, Future>)
    requires w in ws && w.ticket in futures && futures[w.ticket] == Pending
    ensures |Undecided(ws, futures[w.ticket := Granted])| < |Undecided(ws, futures)|
  {
    FewerUndecided(ws[1..], w.ticket, futures);
    if ws[0] != w {
      UndecidedShrinks(ws[1..], w, futures);
    }
  }

  lemma {:induction false} FewerUndecided(ws: seq<Waiter>, ticket: nat, futures: map<nat, Future>)
    ensures |Undecided(ws, futures[ticket := Granted])| <= |Undecided(ws, futures)|
  {
    if ws != [] {
      FewerUndecided(ws[1..], ticket, futures);
    }
  }

  lemma {:induction false} AllUndecided(ws: seq<Waiter>, futures: map<nat, Future>)
    requires forall w :: w in ws ==> w.ticket in futures && futures[w.ticket] == Pending
    ensures Undecided(ws, futures) == ws
  {
    if ws != [] {
      assert ws[0] in ws;
      AllUndecided(ws[1..], futures);
    }
  }

  function TaskOf(l: Lease): set<nat> {
    if l.task.Some? then {l.task.value} else {}
  }

  lemma MarkGrows(was: map<nat, Lease>, chosen: set<nat>, id: nat)
    requires id in was
    ensures Marked(was, chosen + {id}) == Marked(was, chosen)[id := was[id].(preempted := true)]
  {
  }

  lemma TasksGrow(was: map<nat, Lease>, asked: set<nat>, chosen: set<nat>, id: nat)
    requires id in was
    ensures asked + TasksOf(was, chosen) + TaskOf(was[id]) == asked + TasksOf(was, chosen + {id})
  {
    assert forall t :: t in TasksOf(was, chosen) ==> t in TasksOf(was, chosen + {id});
    assert id in chosen + {id};
  }

  lemma CardinalityOfPart(part: set<nat>, all: set<nat>)
    requires part <= all
    ensures |all| == |part| + |all - part|
  {
    assert all == part + (all - part);
  }

  /** Granting to the next waiter extends the pass by one grant. */
  lemma OneMore(g: Gov, before: Gov, now: real, grants: seq<Waiter>, w: Waiter)
    requires GrantsInOrder(g, now, grants) && before.IsNext(w, now)
    requires before == AfterGrants(g, now, grants).(waiters := before.waiters)
    requires Undecided(before.waiters, before.futures) == Undecided(g.waiters, before.futures)
    ensures GrantsInOrder(g, now, grants + [w])
    ensures AfterGrants(g, now, grants + [w]) == AfterGrants(g, now, grants).GrantTo(w, now)
  {
    GrantsUndecided(g, now, grants);
    NextAnyway(AfterGrants(g, now, grants), before, w, now);
    assert (grants + [w])[..|grants|] == grants;
  }

  lemma DropCollected(g: Gov, earliest: Option<real>, now: real, w: Waiter)
    requires Collected(g, earliest, now) && !g.IsPending(w)
    ensures Collected(g.(waiters := Without(g.waiters, w.ticket)), earliest, now)
  {
    if earliest.Some? {
      var u :| u in g.waiters && g.IsPending(u) && g.ReadyAt(u.source) == Some(earliest.value);
      WithoutMembers(g.waiters, w.ticket);
      assert u in Without(g.waiters, w.ticket);
    }
  }

  /** The waiters a round has met: those still listed are undecided and could not be granted. */
  ghost predicate PassedOver(g: Gov, ws: seq<Waiter>, met: seq<Waiter>, earliest: Option<real>, now: real) {
    forall w :: w in met && w in ws ==> g.IsPending(w) && !g.Grantable(w, now) && Covers(g, earliest, w)
  }

  lemma StillListed(all: seq<Waiter>, ws: seq<Waiter>, w: Waiter, futures: map<nat, Future>)
    requires Undecided(ws, futures) == Undecided(all, futures)
    requires w in all && w.ticket in futures && futures[w.ticket] == Pending
    ensures w in ws
  {
    UndecidedMembers(ws, futures);
    UndecidedMembers(all, futures);
    assert w in Undecided(all, futures);
  }

  /** Where a round stands after meeting `met`: `g` is where it began, `h` where it is now. */
  ghost predicate Scanned(g: Gov, h: Gov, met: seq<Waiter>, earliest: Option<real>, now: real) {
    && h == g.(waiters := h.waiters)
    && OneEach(h.waiters)
    && Undecided(h.waiters, g.futures) == Undecided(g.waiters, g.futures)
    && (forall w :: w in h.waiters ==> w in g.waiters)
    && Collected(h, earliest, now)
    && PassedOver(g, h.waiters, met, earliest, now)
  }

  lemma ScanBegins(g: Gov, earliest: Option<real>, now: real)
    requires OneEach(g.waiters) && Collected(g, earliest, now)
    ensures Scanned(g, g, [], earliest, now)
  {
  }

  /** Every stage of a scan keeps what the pass needs. */
  lemma ScanKeeps(g: Gov, h: Gov, met: seq<Waiter>, earliest: Option<real>, now: real)
    requires Scanned(g, h, met, earliest, now)
    ensures OneEach(h.waiters) && Collected(h, earliest, now)
    ensures h.futures == g.futures && Undecided(h.waiters, h.futures) == Undecided(g.waiters, g.futures)
  {
  }

  lemma ScanDrops(g: Gov, h: Gov, met: seq<Waiter>, earliest: Option<real>, now: real, w: Waiter)
    requires Scanned(g, h, met, earliest, now) && !g.IsPending(w)
    ensures Scanned(g, h.(waiters := Without(h.waiters, w.ticket)), met + [w], earliest, now)
  {
    UndecidedWithout(h.waiters, w.ticket, g.futures);
    WithoutMembers(h.waiters, w.ticket);
    DropCollected(h, earliest, now, w);
  }

  lemma ScanNotes(g: Gov, h: Gov, met: seq<Waiter>, earliest: Option<real>, now: real, w: Waiter)
    requires Scanned(g, h, met, earliest, now) && w in g.waiters && g.IsPending(w)
    requires g.ReadyAt(w.source).Some? && g.ReadyAt(w.source).value > now
    ensures var at := g.ReadyAt(w.source).value;
            Scanned(g, h, met + [w], Some(if earliest.None? then at else MinReal(earliest.value, at)), now)
  {
    StillListed(g.waiters, h.waiters, w, g.futures);
  }

  /** Everything before it was passed over, so the first grantable waiter in service order is the next one. */
  lemma ScanFinds(g: Gov, h: Gov, ordered: seq<Waiter>, i: nat, earliest: Option<real>, now: real)
    requires i < |ordered| && Sorted(g, ordered) && forall w :: w in ordered <==> w in g.waiters
    requires Scanned(g, h, ordered[..i], earliest, now) && g.Grantable(ordered[i], now)
    ensures h.IsNext(ordered[i], now)
  {
    StillListed(g.waiters, h.waiters, ordered[i], g.futures);
    forall j | 0 <= j < i ensures ordered[j] in h.waiters ==> !g.Grantable(ordered[j], now) {
      assert ordered[..i][j] == ordered[j];
    }
    forall v | v in h.waiters && v != ordered[i] && h.Grantable(v, now) ensures h.Before(ordered[i], v) {
      var k :| 0 <= k < |ordered| && ordered[k] == v;
      assert g.Grantable(v, now);
      if k > i {
        SortedPairs(g, ordered, i, k);
      }
    }
  }

  lemma ScanEnds(g: Gov, h: Gov, ordered: seq<Waiter>, earliest: Option<real>, now: real)
    requires Scanned(g, h, ordered, earliest, now) && forall w :: w in ordered <==> w in g.waiters
    ensures Exhausted(h, earliest, now)
  {
    forall w | w in h.waiters ensures h.IsPending(w) && !h.Grantable(w, now) && Covers(h, earliest, w) {
      assert w in ordered;
      assert Covers(g, earliest, w);
    }
  }

  /** Where a pass stands after `grants`: `g` is where it began, `h` where it is now. */
  ghost predicate Passing(g: Gov, h: Gov, now: real, grants: seq<Waiter>, earliest: Option<real>) {
    && OneEach(h.waiters)
    && GrantsInOrder(g, now, grants)
    && h == AfterGrants(g, now, grants).(waiters := h.waiters)
    && Undecided(h.waiters, h.futures) == Undecided(g.waiters, h.futures)
    && Collected(h, earliest, now)
  }

  lemma GrantSame(a: Gov, h: Gov, w: Waiter, now: real)
    requires h == a.(waiters := h.waiters)
    ensures h.GrantTo(w, now) == a.GrantTo(w, now).(waiters := h.GrantTo(w, now).waiters)
  {
  }

  lemma GrantedFutures(h: Gov, w: Waiter, now: real)
    ensures h.GrantTo(w, now).futures == h.futures[w.ticket := Granted]
    ensures h.GrantTo(w, now).waiters == Without(h.waiters, w.ticket)
  {
  }

  lemma GrantedUndecided(g: Gov, h: Gov, w: Waiter, now: real)
    requires Undecided(h.waiters, h.futures) == Undecided(g.waiters, h.futures)
    ensures var h' := h.GrantTo(w, now); Undecided(h'.waiters, h'.futures) == Undecided(g.waiters, h'.futures)
  {
    GrantedFutures(h, w, now);
    UndecidedGrant(h.waiters, g.waiters, w.ticket, h.futures);
  }

  lemma GrantShrinks(h: Gov, w: Waiter, now: real)
    requires h.IsNext(w, now)
    ensures var h' := h.GrantTo(w, now); |Undecided(h'.waiters, h'.futures)| < |Undecided(h.waiters, h.futures)|
  {
    GrantedFutures(h, w, now);
    UndecidedGrant(h.waiters, h.waiters, w.ticket, h.futures);
    UndecidedShrinks(h.waiters, w, h.futures);
  }

  lemma PassGrants(g: Gov, h: Gov, now: real, grants: seq<Waiter>, earliest: Option<real>, w: Waiter)
    requires Passing(g, h, now, grants, earliest) && h.IsNext(w, now)
    ensures Passing(g, h.GrantTo(w, now), now, grants + [w], earliest)
    ensures |Undecided(h.GrantTo(w, now).waiters, h.GrantTo(w, now).futures)| < |Undecided(h.waiters, h.futures)|
  {
    StillCollected(h, earliest, w, now);
    OneMore(g, h, now, grants, w);
    GrantSame(AfterGrants(g, now, grants), h, w, now);
    GrantedUndecided(g, h, w, now);
    GrantShrinks(h, w, now);
    assert OneEach(h.GrantTo(w, now).waiters) by {
      GrantedFutures(h, w, now);
      WithoutMembers(h.waiters, w.ticket);
    }
  }

  /** A pass that ends with an exhausted list, preempts and sets the timer is what `_dispatch` promises. */
  lemma PassEnds(g: Gov, h: Gov, now: real, inLoop: bool, grants: seq<Waiter>, earliest: Option<real>, g': Gov)
    requires Passing(g, h, now, grants, earliest) && Exhausted(h, earliest, now)
    requires PreemptionDone(h, g'.leases, g'.cancelRequests)
    requires TimerSet(h, now, inLoop, g'.timer)
    requires g' == h.(leases := g'.leases, cancelRequests := g'.cancelRequests, timer := g'.timer)
    ensures Dispatched(g, now, inLoop, grants, g')
  {
    AllUndecided(h.waiters, h.futures);
  }

  /** Preemption changes nothing a timer depends on. */
  lemma TimerIgnoresPreemption(h: Gov, p: Gov, earliest: Option<real>, now: real)
    requires p == h.(leases := p.leases, cancelRequests := p.cancelRequests)
    requires Collected(h, earliest, now) && Exhausted(h, earliest, now)
    ensures forall inLoop, timer :: TimerSet(p, now, inLoop, timer) ==> TimerSet(h, now, inLoop, timer)
    ensures Collected(p, earliest, now) && Exhausted(p, earliest, now)
  {
    assert forall w :: h.CapacityOk(w) == p.CapacityOk(w) && h.ReadyAt(w.source) == p.ReadyAt(w.source);
  }

  lemma ScanSkips(g: Gov, h: Gov, met: seq<Waiter>, earliest: Option<real>, now: real, w: Waiter)
    requires Scanned(g, h, met, earliest, now) && g.IsPending(w)
    requires g.ReadyAt(w.source).None? || !g.CapacityOk(w)
    ensures Scanned(g, h, met + [w], earliest, now)
  {
  }

  /** Where the choice of victims stands: `chosen` were taken from all, `rest` are still eligible. */
  ghost predicate Choosing(was: map<nat, Lease>, chosen: set<nat>, rest: set<nat>) {
    && rest <= Victims(was) && chosen == Victims(was) - rest
    && forall c, v :: c in chosen && v in rest ==> was[c].priority >= was[v].priority
  }

  lemma ChooseOne(was: map<nat, Lease>, chosen: set<nat>, rest: set<nat>, id: nat)
    requires Choosing(was, chosen, rest)
    requires id in rest && forall o :: o in rest ==> was[o].priority <= was[id].priority
    ensures Choosing(was, chosen + {id}, rest - {id}) && |chosen + {id}| == |chosen| + 1
  {
  }

  lemma RestUnmarked(was: map<nat, Lease>, chosen: set<nat>, rest: set<nat>)
    requires Choosing(was, chosen, rest)
    ensures forall id :: id in rest ==> id in was && id in Marked(was, chosen) && Marked(was, chosen)[id] == was[id]
  {
  }

  lemma NobodyChosen(was: map<nat, Lease>)
    ensures Choosing(was, {}, Victims(was))
  {
  }

  /** When the choice ends, whoever was chosen is no more important than any victim left. */
  lemma ChoosingEnds(was: map<nat, Lease>, chosen: set<nat>, rest: set<nat>, urgent: nat, count: nat)
    requires Choosing(was, chosen, rest) && |chosen| + urgent == count && (urgent == 0 || rest == {})
    ensures chosen <= Victims(was) && |chosen| == Min(count, |Victims(was)|)
    ensures forall c, v :: c in chosen && v in Victims(was) - chosen ==> was[c].priority >= was[v].priority
  {
    CardinalityOfPart(chosen, Victims(was));
  }

  lemma NobodyMarked(leases: map<nat, Lease>)
    ensures Marked(leases, {}) == leases && TasksOf(leases, {}) == {}
  {
  }

  lemma NobodyPreempted(h: Gov)
    requires UrgentCount(h, h.waiters) == 0 || h.browserInUse < h.browserCapacity
    ensures PreemptionDone(h, h.leases, h.cancelRequests)
  {
    assert NewlyPreempted(h.leases, h.leases) == {};
    NobodyMarked(h.leases);
  }

  lemma ChosenArePreempted(leases: map<nat, Lease>, chosen: set<nat>)
    requires chosen <= Victims(leases)
    ensures NewlyPreempted(leases, Marked(leases, chosen)) == chosen
  {
  }

  lemma AbortParts(g: Gov, t: nat)
    requires Inv(g) && t in g.futures && g.futures[t] != Pending
    ensures ReturnsSlot(g, t) <==> g.futures[t] == Granted
  {
  }

  class TrafficGovernor {
    const httpCapacity: int
    const browserCapacity: int
    const reserve: int
    var sources: map<string, SourceState>
    var waiters: seq<Waiter>
    var leases: map<nat, Lease>
    var futures: map<nat, Future>
    var httpInUse: int
    var browserInUse: int
    var nextTicket: nat
    var timer: Option<real>
    var promoted: map<nat, Priority>
    var cancelRequests: set<nat>

    function State(): Gov
      reads this
    {
      Gov(httpCapacity, browserCapacity, reserve, sources, waiters, leases, futures, httpInUse, browserInUse,
          nextTicket, timer, promoted, cancelRequests)
    }

    ghost predicate Valid()
      reads this
    {
      Inv(State())
    }

    constructor (http: int, browser: int, reservedForForeground: int)
      requires http >= 1 && browser >= 1
      ensures Valid() && State() == Initial(http, browser, reservedForForeground)
    {
      httpCapacity, browserCapacity := http, browser;
      reserve := Min(reservedForForeground, http - 1);
      sources, waiters, leases, futures := map[], [], map[], map[];
      httpInUse, browserInUse, nextTicket, timer, promoted, cancelRequests := 0, 0, 0, None, map[], {};
      new;
      InitialInv(http, browser, reservedForForeground);
    }

    // ---- The scheduling pass ---------------------------------------------------------------------

    method Grant(w: Waiter, now: real)
      modifies this
      ensures State() == old(State()).GrantTo(w, now)
    {
      waiters := Without(waiters, w.ticket);
      var s := State().Source(w.source);
      sources := sources[w.source := s.(inUse := s.inUse + 1, served := s.served + 1, nextStart := now + s.minInterval)];
      if w.kind == Http {
        httpInUse := httpInUse + 1;
      } else {
        browserInUse := browserInUse + 1;
      }
      leases := leases[w.ticket := Lease(w.source, w.priority, w.kind, w.task, false)];
      futures := futures[w.ticket := Granted];
    }

    /**
     One round of `_dispatch`: drops decided waiters as it meets them, stops at the first grantable one in
     service order, and notes the earliest time any other could start.
     */
    method Scan(now: real, noted: Option<real>) returns (next: Option<Waiter>, earliest: Option<real>)
      requires OneEach(waiters) && Collected(State(), noted, now)
      modifies this`waiters
      ensures OneEach(waiters) && Undecided(waiters, futures) == Undecided(old(waiters), futures)
      ensures Collected(State(), earliest, now)
      ensures next.Some? ==> State().IsNext(next.value, now)
      ensures next.None? ==> Exhausted(State(), earliest, now)
    {
      hide Scanned, Exhausted, Collected;
      next, earliest := None, noted;
      var ordered := Ordered(State(), waiters);
      ghost var g := State();
      ScanBegins(g, earliest, now);
      assert ordered[..0] == [];
      for i := 0 to |ordered|
        invariant Scanned(g, State(), ordered[..i], earliest, now)
      {
        assert ordered[..i + 1] == ordered[..i] + [ordered[i]];
        var grantable;
        grantable, earliest := Consider(g, ordered[..i], ordered[i], now, earliest);
        if grantable {
          ScanFinds(g, State(), ordered, i, earliest, now);
          ScanKeeps(g, State(), ordered[..i], earliest, now);
          return Some(ordered[i]), earliest;
        }
      }
      assert ordered[..|ordered|] == ordered;
      ScanEnds(g, State(), ordered, earliest, now);
      ScanKeeps(g, State(), ordered, earliest, now);
    }

    /** The round meets one waiter: it drops it, passes it over, or finds that it can be granted. */
    method Consider(ghost g: Gov, ghost met: seq<Waiter>, w: Waiter, now: real, noted: Option<real>)
      returns (grantable: bool, earliest: Option<real>)
      requires Scanned(g, State(), met, noted, now) && w in g.waiters
      modifies this`waiters
      ensures if grantable then State() == old(State()) && earliest == noted && g.Grantable(w, now)
              else Scanned(g, State(), met + [w], earliest, now)
    {
      grantable, earliest := false, noted;
      if !State().IsPending(w) {
        ScanDrops(g, State(), met, noted, now, w);
        waiters := Without(waiters, w.ticket);
        return;
      }
      var readyAt := State().ReadyAt(w.source);
      if readyAt.None? || !State().CapacityOk(w) {
        ScanSkips(g, State(), met, noted, now, w);
        return;
      }
      if readyAt.value > now {
        ScanNotes(g, State(), met, noted, now, w);
        earliest := Some(if noted.None? then readyAt.value else MinReal(noted.value, readyAt.value));
        return;
      }
      grantable := true;
    }

    method RunPass(now: real, inLoop: bool) returns (ghost grants: seq<Waiter>)
      requires OneEach(waiters)
      modifies this
      ensures Dispatched(old(State()), now, inLoop, grants, State())
    {
      var earliest: Option<real> := None;
      var granted := true;
      grants := [];
      ghost var g := State();
      while granted
        invariant Passing(g, State(), now, grants, earliest)
        invariant !granted ==> Exhausted(State(), earliest, now)
        decreases |Undecided(waiters, futures)|, granted
      {
        granted := false;
        var next;
        next, earliest := Scan(now, earliest);
        if next.Some? {
          ghost var h := State();
          PassGrants(g, h, now, grants, earliest, next.value);
          Grant(next.value, now);
          grants := grants + [next.value];
          granted := true;
        }
      }
      ghost var h := State();
      PreemptBackgroundBrowser();
      TimerIgnoresPreemption(h, State(), earliest, now);
      Schedule(earliest, now, inLoop);
      PassEnds(g, h, now, inLoop, grants, earliest, State());
    }

    method PreemptBackgroundBrowser()
      modifies this`leases, this`cancelRequests
      ensures PreemptionDone(old(State()), leases, cancelRequests)
    {
      var urgent := UrgentCount(State(), waiters);
      ghost var g := State();
      if urgent == 0 || browserInUse < browserCapacity {
        NobodyPreempted(g);
        return;
      }
      ghost var chosen := PreemptSome(urgent);
      ChosenArePreempted(g.leases, chosen);
    }

    method LeastImportant(ids: set<nat>) returns (id: nat)
      requires ids != {} && ids <= leases.Keys
      ensures id in ids && forall o :: o in ids ==> leases[o].priority <= leases[id].priority
    {
      ghost var _ := HighestNumber(leases, ids);
      id :| id in ids && forall o :: o in ids ==> leases[o].priority <= leases[id].priority;
    }

    method PreemptLease(id: nat)
      requires id in leases
      modifies this`leases, this`cancelRequests
      ensures leases == old(leases)[id := old(leases)[id].(preempted := true)]
      ensures cancelRequests == old(cancelRequests) + TaskOf(old(leases)[id])
    {
      var lease := leases[id];
      leases := leases[id := lease.(preempted := true)];
      cancelRequests := cancelRequests + TaskOf(lease);
    }

    method PreemptSome(count: nat) returns (ghost chosen: set<nat>)
      modifies this`leases, this`cancelRequests
      ensures chosen <= Victims(old(leases)) && |chosen| == Min(count, |Victims(old(leases))|)
      ensures leases == Marked(old(leases), chosen)
      ensures cancelRequests == old(cancelRequests) + TasksOf(old(leases), chosen)
      ensures forall c, v :: c in chosen && v in Victims(old(leases)) - chosen ==>
                old(leases)[c].priority >= old(leases)[v].priority
    {
      hide Marked, TasksOf, TaskOf, Victims, Choosing;
      ghost var was, asked := leases, cancelRequests;
      var rest, urgent := Victims(leases), count;
      chosen := {};
      NobodyMarked(was);
      NobodyChosen(was);
      while urgent > 0 && rest != {}
        invariant Choosing(was, chosen, rest) && |chosen| + urgent == count
        invariant leases == Marked(was, chosen)
        invariant cancelRequests == asked + TasksOf(was, chosen)
      {
        RestUnmarked(was, chosen, rest);
        var id := LeastImportant(rest);
        ChooseOne(was, chosen, rest, id);
        MarkGrows(was, chosen, id);
        TasksGrow(was, asked, chosen, id);
        PreemptLease(id);
        chosen := chosen + {id};
        rest := rest - {id};
        urgent := urgent - 1;
      }
      ChoosingEnds(was, chosen, rest, urgent, count);
    }

    method Schedule(earliest: Option<real>, now: real, inLoop: bool)
      requires Collected(State(), earliest, now) && Exhausted(State(), earliest, now)
      modifies this`timer
      ensures TimerSet(old(State()), now, inLoop, timer)
    {
      timer := None;
      if earliest.None? || waiters == [] || !inLoop {
        return;
      }
      timer := Some(now + MaxReal(0.0, earliest.value - now));
    }

    method Dispatch(now: real, inLoop: bool) returns (ghost grants: seq<Waiter>)
      requires Valid()
      modifies this
      ensures Valid() && Dispatched(old(State()), now, inLoop, grants, State())
    {
      grants := RunPass(now, inLoop);
      DispatchKeeps(old(State()), now, inLoop, grants, State());
    }

    // ---- The steps of the event loop ---------------------------------------------------------------

    static method Create(http: int, browser: int, reservedForForeground: int) returns (g: TrafficGovernor?)
      ensures g == null <==> http < 1 || browser < 1
      ensures g != null ==>
                fresh(g) && g.Valid() && g.State() == Initial(http, browser, reservedForForeground)
    {
      if http < 1 || browser < 1 {
        return null;
      }
      g := new TrafficGovernor(http, browser, reservedForForeground);
    }

    method Wait(source: string, priority: Priority, kind: Kind, task: Option<nat>, now: real, inLoop: bool)
      returns (ticket: nat, ghost grants: seq<Waiter>)
      requires Valid()
      modifies this
      ensures Valid() && ticket == old(nextTicket)
      ensures Step(old(State()), Event.Wait(source, priority, kind, task), now, inLoop, grants, State())
    {
      hide Inv, Dispatched;
      ghost var g := State();
      PreparedKeeps(g, Event.Wait(source, priority, kind, task), now);
      var effective := if task.Some? && task.value in promoted then Min(priority, promoted[task.value]) else priority;
      ticket := nextTicket;
      nextTicket := nextTicket + 1;
      waiters := waiters + [Waiter(ticket, source, effective, kind, task)];
      futures := futures[ticket := Pending];
      assert State() == Prepared(g, Event.Wait(source, priority, kind, task), now);
      grants := Dispatch(now, inLoop);
    }

    /** The waiting task is cancelled: its future too, unless it was already granted. */
    method CancelTask(ticket: nat)
      requires Valid() && ticket in futures
      modifies this
      ensures Valid() && forall now, inLoop :: Step(old(State()), Event.CancelTask(ticket), now, inLoop, [], State())
    {
      PreparedKeeps(State(), Event.CancelTask(ticket), 0.0);
      if futures[ticket] == Pending {
        futures := futures[ticket := Cancelled];
      }
    }

    /** The suspended call returns the lease it was granted. */
    method Resume(ticket: nat) returns (lease: Lease)
      requires Valid() && ticket in futures && futures[ticket] == Granted
      modifies this
      ensures Valid() && ticket in leases && lease == leases[ticket]
      ensures forall now, inLoop :: Step(old(State()), Event.Resume(ticket), now, inLoop, [], State())
    {
      PreparedKeeps(State(), Event.Resume(ticket), 0.0);
      lease := leases[ticket];
      futures := futures - {ticket};
    }

    /**
     The suspended call resumes with CancelledError, after the grant or before it. It ends with a second
     pass of its own, which reads the clock again.
     */
    method Abort(ticket: nat, now: real, later: real, inLoop: bool)
      returns (ghost first: seq<Waiter>, ghost mid: Gov, ghost second: seq<Waiter>)
      requires Valid() && ticket in futures && futures[ticket] != Pending
      modifies this
      ensures Valid()
      ensures Step(old(State()), Event.Abort(ticket), now, inLoop, first, mid)
      ensures Step(mid, Event.Dispatch, later, inLoop, second, State())
    {
      hide Inv, Dispatched;
      first := Withdraw(ticket, now, inLoop);
      mid := State();
      second := Dispatch(later, inLoop);
    }

    /** Gives back what the call holds: its place in the queue, or the lease it was granted. */
    method Withdraw(ticket: nat, now: real, inLoop: bool) returns (ghost grants: seq<Waiter>)
      requires Valid() && ticket in futures && futures[ticket] != Pending
      modifies this
      ensures Valid() && Step(old(State()), Event.Abort(ticket), now, inLoop, grants, State())
    {
      PreparedKeeps(State(), Event.Abort(ticket), now);
      AbortParts(State(), ticket);
      var granted := futures[ticket] == Granted;
      futures := futures - {ticket};
      grants := [];
      if granted {
        grants := ReleaseLease(ticket, now, inLoop);
      } else {
        waiters := Without(waiters, ticket);
      }
    }

    method ReleaseLease(ticket: nat, now: real, inLoop: bool) returns (ghost grants: seq<Waiter>)
      requires ticket in leases && Inv(Released(State(), ticket))
      modifies this
      ensures Valid() && Dispatched(Released(old(State()), ticket), now, inLoop, grants, State())
    {
      hide Dispatched;
      ghost var g := State();
      var lease := leases[ticket];
      leases := leases - {ticket};
      var s := State().Source(lease.source);
      sources := sources[lease.source := s.(inUse := s.inUse - 1)];
      if lease.kind == Http {
        httpInUse := httpInUse - 1;
      } else {
        browserInUse := browserInUse - 1;
      }
      assert State() == Released(g, ticket);
      grants := Dispatch(now, inLoop);
    }

    /** Releasing twice is releasing once. */
    method Release(ticket: nat, now: real, inLoop: bool) returns (ghost grants: seq<Waiter>)
      requires Valid() && ticket !in futures
      modifies this
      ensures Valid() && Step(old(State()), Event.Release(ticket), now, inLoop, grants, State())
    {
      PreparedKeeps(State(), Event.Release(ticket), now);
      grants := [];
      if ticket in leases {
        grants := ReleaseLease(ticket, now, inLoop);
      }
    }

    method SetRetryAfter(source: string, seconds: real, now: real, inLoop: bool) returns (ghost grants: seq<Waiter>)
      requires Valid()
      modifies this
      ensures Valid() && Step(old(State()), RetryAfter(source, seconds), now, inLoop, grants, State())
    {
      ghost var g := State();
      PreparedKeeps(g, RetryAfter(source, seconds), now);
      var s := State().Source(source);
      sources := sources[source := s.(retryUntil := MaxReal(s.retryUntil, now + MaxReal(0.0, seconds)))];
      assert State() == Prepared(g, RetryAfter(source, seconds), now);
      grants := Dispatch(now, inLoop);
    }

    method ConfigureSource(source: string, concurrency: int, rpm: Option<int>, now: real, inLoop: bool)
      returns (ghost grants: seq<Waiter>)
      requires Valid()
      modifies this
      ensures Valid() && Step(old(State()), Configure(source, concurrency, rpm), now, inLoop, grants, State())
    {
      ghost var g := State();
      PreparedKeeps(g, Configure(source, concurrency, rpm), now);
      var s := State().Source(source);
      var interval := if rpm.Some? && rpm.value != 0 then 60.0 / rpm.value as real else 0.0;
      sources := sources[source := s.(concurrency := Max(1, concurrency), minInterval := interval)];
      assert State() == Prepared(g, Configure(source, concurrency, rpm), now);
      grants := Dispatch(now, inLoop);
    }

    method Promote(task: nat, priority: Priority, now: real, inLoop: bool) returns (ghost grants: seq<Waiter>)
      requires Valid()
      modifies this
      ensures Valid() && Step(old(State()), Event.Promote(task, priority), now, inLoop, grants, State())
    {
      ghost var g := State();
      PreparedKeeps(g, Event.Promote(task, priority), now);
      promoted := promoted[task := if task in promoted then Min(priority, promoted[task]) else priority];
      RaiseWaiters(task, priority);
      assert State() == Prepared(g, Event.Promote(task, priority), now);
      grants := Dispatch(now, inLoop);
    }

    method RaiseWaiters(task: nat, priority: Priority)
      modifies this`waiters
      ensures waiters == Raised(old(waiters), task, priority)
    {
      var i := 0;
      ghost var was := waiters;
      while i < |waiters|
        invariant 0 <= i <= |waiters| == |was|
        invariant forall k :: 0 <= k < i ==> waiters[k] == RaisedOne(was[k], task, priority)
        invariant forall k :: i <= k < |was| ==> waiters[k] == was[k]
      {
        if waiters[i].task == Some(task) && priority < waiters[i].priority {
          waiters := waiters[i := waiters[i].(priority := priority)];
        }
        i := i + 1;
      }
    }

    method TimerFires(now: real, inLoop: bool) returns (ghost grants: seq<Waiter>)
      requires Valid()
      modifies this
      ensures Valid() && Step(old(State()), Event.Dispatch, now, inLoop, grants, State())
    {
      grants := Dispatch(now, inLoop);
    }
  }
}
