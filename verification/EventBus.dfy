/** The bounded event bus: nothing is lost silently. */
module EventBus {
  import opened Common

  const MAX_SUBSCRIBERS := 100

  datatype Event = Event(id: nat, kind: string, data: string)

  /** What a queue holds: an event as published, or the bus's own last word. */
  datatype Item = Plain(event: Event) | Resync(id: nat)

  // ---- One subscription --------------------------------------------------------------------------

  datatype Sub = Sub(queue: seq<Item>, closed: bool)

  /** Putting into a full queue raises `QueueFull`. */
  function Put(queue: seq<Item>, item: Item, size: int): Option<seq<Item>> {
    if |queue| >= size then None else Some(queue + [item])
  }

  /** `_deliver`. */
  function Delivered(s: Sub, e: Event, size: int): Sub {
    if s.closed then s
    else if |s.queue| >= size - 1 then
      var q := Put(s.queue, Resync(e.id), size);
      Sub(if q.Some? then q.value else s.queue, true)
    else
      var q := Put(s.queue, Plain(e), size);
      if q.Some? then Sub(q.value, false)
      else
        var r := Put(s.queue, Resync(e.id), size);
        Sub(if r.Some? then r.value else s.queue, true)
  }

  // ---- What a subscription has seen --------------------------------------------------------------

  /**
   A subscription with everything handed to its reader, every delivery still to come (for ever, once its loop has
   closed), all it was sent, and whether it was given up by `unsubscribe`.
   */
  datatype Feed =
    Feed(sub: Sub, consumed: seq<Item>, pending: multiset<Event>, sent: multiset<Event>, left: bool)

  const FRESH := Feed(Sub([], false), [], multiset{}, multiset{}, false)

  function Left(f: Feed): Feed {
    f.(sub := f.sub.(closed := true), left := true)
  }

  function Events(items: seq<Item>): multiset<Event> {
    if items == [] then multiset{}
    else
      Events(items[..|items| - 1])
      + match items[|items| - 1]
        case Plain(e) => multiset{e}
        case Resync(_) => multiset{}
  }

  predicate AllPlain(items: seq<Item>) {
    forall i :: 0 <= i < |items| ==> items[i].Plain?
  }

  function Seen(f: Feed): seq<Item> {
    f.consumed + f.sub.queue
  }

  /**
   While the subscription is open, what it consumed, what is queued and what is still to be delivered is
   exactly what was published since it began, and one place stays free in its queue. Once closed, its reader
   finds events it was sent and then one `resync` and nothing after it, unless it was given up.
   */
  ghost predicate Honest(f: Feed, size: int) {
    && |f.sub.queue| <= size
    && (!f.sub.closed ==>
          && |f.sub.queue| <= size - 1 && AllPlain(Seen(f)) && !f.left
          && Events(Seen(f)) + f.pending == f.sent)
    && (f.sub.closed ==>
          && Events(Seen(f)) <= f.sent
          && (Overflowed(f) || (f.left && AllPlain(Seen(f)))))
  }

  predicate Overflowed(f: Feed) {
    var seen := Seen(f);
    seen != [] && seen[|seen| - 1].Resync? && AllPlain(seen[..|seen| - 1])
  }

  lemma EventsAppend(items: seq<Item>, item: Item)
    ensures Events(items + [item]) == Events(items) + match item case Plain(e) => multiset{e} case Resync(_) => multiset{}
  {
    assert (items + [item])[..|items|] == items;
  }

  function DeliveredTo(f: Feed, e: Event, size: int): Feed {
    f.(sub := Delivered(f.sub, e, size), pending := f.pending - multiset{e})
  }

  /** An open queue always has room: the `QueueFull` handlers are never reached. */
  lemma AlwaysRoom(f: Feed, e: Event, size: int)
    requires size >= 2 && Honest(f, size) && !f.sub.closed
    ensures Put(f.sub.queue, Plain(e), size).Some? && Put(f.sub.queue, Resync(e.id), size).Some?
    ensures Delivered(f.sub, e, size)
            == if |f.sub.queue| >= size - 1 then Sub(f.sub.queue + [Resync(e.id)], true)
               else Sub(f.sub.queue + [Plain(e)], false)
  {
  }

  /** Delivering keeps the account. */
  lemma DeliverHonest(f: Feed, e: Event, size: int)
    requires size >= 2 && Honest(f, size) && e in f.pending
    ensures Honest(DeliveredTo(f, e, size), size)
  {
    hide Events, Delivered;
    if f.sub.closed {
      StaysClosed(f.sub, e, size);
    } else {
      AlwaysRoom(f, e, size);
      var last := if |f.sub.queue| >= size - 1 then Resync(e.id) else Plain(e);
      var g := DeliveredTo(f, e, size);
      assert Seen(g) == Seen(f) + [last];
      EventsAppend(Seen(f), last);
      if last.Resync? {
        assert Seen(g)[..|Seen(g)| - 1] == Seen(f);
      } else {
        assert f.pending == (f.pending - multiset{e}) + multiset{e};
      }
    }
  }

  function Consumed(f: Feed): Feed
    requires f.sub.queue != []
  {
    f.(sub := f.sub.(queue := f.sub.queue[1..]), consumed := f.consumed + [f.sub.queue[0]])
  }

  lemma ConsumeHonest(f: Feed, size: int)
    requires Honest(f, size) && f.sub.queue != []
    ensures Honest(Consumed(f), size) && Seen(Consumed(f)) == Seen(f)
  {
    assert Seen(Consumed(f)) == Seen(f);
  }

  lemma PublishHonest(f: Feed, e: Event, size: int)
    requires Honest(f, size)
    ensures Honest(f.(pending := f.pending + multiset{e}, sent := f.sent + multiset{e}), size)
  {
    var g := f.(pending := f.pending + multiset{e}, sent := f.sent + multiset{e});
    assert Seen(g) == Seen(f);
  }

  lemma CloseHonest(f: Feed, size: int)
    requires Honest(f, size)
    ensures Honest(Left(f), size)
  {
    var g := Left(f);
    assert Seen(g) == Seen(f);
    if !f.sub.closed { assert Events(Seen(f)) <= Events(Seen(f)) + f.pending; }
  }

  // ---- The bus -----------------------------------------------------------------------------------

  /** `size` is the queue size; `open` the subscriptions the bus still delivers to. */
  datatype Bus = Bus(size: int, nextId: nat, open: set<nat>, feeds: map<nat, Feed>)

  datatype Step =
    | Subscribe(sub: nat)
    | Unsubscribe(sub: nat)
    | Publish(kind: string, data: string)
    | Deliver(sub: nat, event: Event)
    | Get(sub: nat)

  predicate Enabled(b: Bus, s: Step) {
    match s
    case Subscribe(sub) => sub !in b.feeds
    case Unsubscribe(sub) => sub in b.feeds
    case Publish(_, _) => true
    case Deliver(sub, e) => sub in b.feeds && e in b.feeds[sub].pending
    case Get(sub) => sub in b.feeds && b.feeds[sub].sub.queue != []
  }

  function Sent(b: Bus, e: Event): map<nat, Feed> {
    map s | s in b.feeds ::
      if s in b.open then b.feeds[s].(pending := b.feeds[s].pending + multiset{e}, sent := b.feeds[s].sent + multiset{e})
      else b.feeds[s]
  }

  function Next(b: Bus, s: Step): Bus
    requires Enabled(b, s)
  {
    match s
    case Subscribe(sub) =>
      if |b.open| >= MAX_SUBSCRIBERS then b else b.(open := b.open + {sub}, feeds := b.feeds[sub := FRESH])
    case Unsubscribe(sub) =>
      b.(open := b.open - {sub}, feeds := b.feeds[sub := Left(b.feeds[sub])])
    case Publish(kind, data) =>
      var e := Event(b.nextId, kind, data);
      b.(nextId := b.nextId + 1, feeds := Sent(b, e))
    case Deliver(sub, e) =>
      var f := DeliveredTo(b.feeds[sub], e, b.size);
      b.(open := if f.sub.closed then b.open - {sub} else b.open, feeds := b.feeds[sub := f])
    case Get(sub) =>
      b.(feeds := b.feeds[sub := Consumed(b.feeds[sub])])
  }

  /** Exactly the subscriptions that are not closed are open, at most a hundred, each with a true account. */
  ghost predicate Good(b: Bus) {
    && b.size >= 2
    && |b.open| <= 100
    && (forall s :: s in b.open <==> s in b.feeds && !b.feeds[s].sub.closed)
    && (forall s :: s in b.feeds ==> Honest(b.feeds[s], b.size))
    && (forall s, e :: s in b.feeds && e in b.feeds[s].sent ==> e.id < b.nextId)
    && (forall s, e :: s in b.feeds ==> b.feeds[s].sent[e] <= 1)
  }

  lemma FreshHonest(size: int)
    requires size >= 2
    ensures Honest(FRESH, size)
  {
  }

  /** Changing one subscription to another true account keeps the bus good. */
  lemma FeedGood(b: Bus, sub: nat, f: Feed)
    requires Good(b) && sub in b.feeds && Honest(f, b.size) && f.sent == b.feeds[sub].sent
    requires b.feeds[sub].sub.closed ==> f.sub.closed
    ensures Good(b.(open := if f.sub.closed then b.open - {sub} else b.open, feeds := b.feeds[sub := f]))
  {
    hide Honest;
    SubsetSize(b.open - {sub}, b.open);
  }

  lemma SubscribeGood(b: Bus, sub: nat)
    requires Good(b) && sub !in b.feeds
    ensures Good(Next(b, Subscribe(sub)))
  {
    hide Honest;
    FreshHonest(b.size);
  }

  /** A subscription is taken just while there are fewer than a hundred, and begins with nothing. */
  lemma SubscribeExactly(b: Bus, sub: nat)
    requires Enabled(b, Subscribe(sub))
    ensures var b' := Next(b, Subscribe(sub));
            && (sub in b'.feeds <==> |b.open| < 100)
            && (sub !in b'.feeds ==> b' == b)
            && (sub in b'.feeds ==>
                  && b'.open == b.open + {sub} && Seen(b'.feeds[sub]) == [] && !b'.feeds[sub].sub.closed
                  && b'.feeds[sub].pending == multiset{} && b'.feeds[sub].sent == multiset{})
  {
  }

  lemma GetGood(b: Bus, sub: nat)
    requires Good(b) && Enabled(b, Get(sub))
    ensures Good(Next(b, Get(sub)))
  {
    hide Honest;
    ConsumeHonest(b.feeds[sub], b.size);
    FeedGood(b, sub, Consumed(b.feeds[sub]));
    if b.feeds[sub].sub.closed { assert b.open - {sub} == b.open; }
  }

  lemma DeliverGood(b: Bus, sub: nat, e: Event)
    requires Good(b) && Enabled(b, Deliver(sub, e))
    ensures Good(Next(b, Deliver(sub, e)))
  {
    hide Honest, Delivered;
    DeliverHonest(b.feeds[sub], e, b.size);
    StaysClosed(b.feeds[sub].sub, e, b.size);
    FeedGood(b, sub, DeliveredTo(b.feeds[sub], e, b.size));
  }

  lemma UnsubscribeGood(b: Bus, sub: nat)
    requires Good(b) && Enabled(b, Unsubscribe(sub))
    ensures Good(Next(b, Unsubscribe(sub)))
  {
    hide Honest;
    CloseHonest(b.feeds[sub], b.size);
    FeedGood(b, sub, Left(b.feeds[sub]));
  }

  lemma NextGood(b: Bus, s: Step)
    requires Good(b) && Enabled(b, s)
    ensures Good(Next(b, s)) && Next(b, s).size == b.size
  {
    hide Good;
    match s
    case Subscribe(sub) => SubscribeGood(b, sub);
    case Unsubscribe(sub) => UnsubscribeGood(b, sub);
    case Publish(kind, data) => PublishGood(b, kind, data);
    case Deliver(sub, e) => DeliverGood(b, sub, e);
    case Get(sub) => GetGood(b, sub);
  }

  lemma StaysClosed(s: Sub, e: Event, size: int)
    ensures s.closed ==> Delivered(s, e, size) == s
  {
  }

  lemma PublishGood(b: Bus, kind: string, data: string)
    requires Good(b)
    ensures Good(Next(b, Publish(kind, data)))
  {
    hide Honest;
    var e := Event(b.nextId, kind, data);
    forall s | s in b.feeds ensures Honest(Sent(b, e)[s], b.size) {
      PublishHonest(b.feeds[s], e, b.size);
    }
  }

  // ---- Runs --------------------------------------------------------------------------------------

  predicate IsRun(size: int, steps: seq<Step>)
    decreases |steps|, 0
  {
    steps == [] || (IsRun(size, steps[..|steps| - 1]) && Enabled(After(size, steps[..|steps| - 1]), steps[|steps| - 1]))
  }

  function After(size: int, steps: seq<Step>): Bus
    requires IsRun(size, steps)
    decreases |steps|, 1
  {
    if steps == [] then Bus(size, 1, {}, map[])
    else Next(After(size, steps[..|steps| - 1]), steps[|steps| - 1])
  }

  /**
   In every run, for every subscription: what is open has consumed, queued or still to come exactly what was
   published since it began, each event once; an overflowed one ends with its only `resync`; no queue ever
   outgrows its size; and at most a hundred subscriptions are open.
   */
  lemma {:induction false} AlwaysGood(size: int, steps: seq<Step>)
    requires size >= 2 && IsRun(size, steps)
    ensures Good(After(size, steps)) && After(size, steps).size == size
  {
    if steps != [] {
      hide Good, Next;
      AlwaysGood(size, steps[..|steps| - 1]);
      NextGood(After(size, steps[..|steps| - 1]), steps[|steps| - 1]);
    }
  }

  /** What was sent to a subscription: everything published while it was open. */
  function PublishedWhileOpen(size: int, steps: seq<Step>, sub: nat): multiset<Event>
    requires IsRun(size, steps)
  {
    if steps == [] then multiset{}
    else
      var before := After(size, steps[..|steps| - 1]);
      PublishedWhileOpen(size, steps[..|steps| - 1], sub) + SentBy(before, steps[|steps| - 1], sub)
  }

  lemma {:induction false} SentIsPublished(size: int, steps: seq<Step>, sub: nat)
    requires size >= 2 && IsRun(size, steps)
    ensures var b := After(size, steps);
            (sub in b.feeds ==> b.feeds[sub].sent == PublishedWhileOpen(size, steps, sub))
            && (sub !in b.feeds ==> PublishedWhileOpen(size, steps, sub) == multiset{})
  {
    if steps != [] {
      hide Good, Next, Enabled;
      var k := |steps| - 1;
      SentIsPublished(size, steps[..k], sub);
      AlwaysGood(size, steps[..k]);
      SentStep(After(size, steps[..k]), steps[k], sub);
    }
  }

  /** What one step sends to one subscription. */
  function SentBy(b: Bus, s: Step, sub: nat): multiset<Event> {
    match s
    case Publish(kind, data) => if sub in b.open then multiset{Event(b.nextId, kind, data)} else multiset{}
    case _ => multiset{}
  }

  lemma SentStep(b: Bus, s: Step, sub: nat)
    requires Good(b) && Enabled(b, s)
    ensures var b' := Next(b, s);
            && (sub in b.feeds ==> sub in b'.feeds && b'.feeds[sub].sent == b.feeds[sub].sent + SentBy(b, s, sub))
            && (sub !in b.feeds ==> SentBy(b, s, sub) == multiset{})
            && (sub !in b.feeds && sub in b'.feeds ==> b'.feeds[sub].sent == multiset{})
  {
    hide Honest, Delivered;
  }

  // ---- Reading -----------------------------------------------------------------------------------

  function Gets(steps: seq<Step>, sub: nat): nat {
    if steps == [] then 0 else Gets(steps[..|steps| - 1], sub) + if steps[|steps| - 1] == Get(sub) then 1 else 0
  }

  function Publications(steps: seq<Step>): nat {
    if steps == [] then 0 else Publications(steps[..|steps| - 1]) + if steps[|steps| - 1].Publish? then 1 else 0
  }

  /** Events are numbered from one, without a gap. */
  lemma {:induction false} NumberedInOrder(size: int, steps: seq<Step>)
    requires IsRun(size, steps)
    ensures After(size, steps).nextId == 1 + Publications(steps)
  {
    if steps != [] {
      NumberedInOrder(size, steps[..|steps| - 1]);
      StepNumbers(After(size, steps[..|steps| - 1]), steps[|steps| - 1]);
    }
  }

  lemma StepNumbers(b: Bus, s: Step)
    requires Enabled(b, s)
    ensures Next(b, s).nextId == b.nextId + if s.Publish? then 1 else 0
  {
    hide Delivered;
  }

  /** What a subscription has been given is only ever added to at its end, and a read takes the first it has not read. */
  lemma StepReads(b: Bus, s: Step, sub: nat)
    requires Good(b) && Enabled(b, s) && sub in b.feeds
    ensures var f, f' := b.feeds[sub], Next(b, s).feeds[sub];
            && Seen(f) <= Seen(f')
            && (s == Get(sub) ==> |f.consumed| < |Seen(f)| && f'.consumed == f.consumed + [Seen(f)[|f.consumed|]])
            && (s != Get(sub) ==> f'.consumed == f.consumed)
  {
    var f := b.feeds[sub];
    if s == Get(sub) {
      ConsumeHonest(f, b.size);
    } else if s.Deliver? && s.sub == sub {
      AppendsOne(f.sub, s.event, b.size);
    }
  }

  lemma AppendsOne(s: Sub, e: Event, size: int)
    ensures s.queue <= Delivered(s, e, size).queue
  {
  }

  /**
   In every run a reader has read as many items as it asked for; and whatever happens next, everything it was given so
   far stays as it was and where it was.
   */
  lemma {:induction false} ReadInOrder(size: int, steps: seq<Step>, more: seq<Step>, sub: nat)
    requires size >= 2 && IsRun(size, steps + more) && IsRun(size, steps)
    ensures var before, after := After(size, steps), After(size, steps + more);
            sub in before.feeds ==>
              && sub in after.feeds && Seen(before.feeds[sub]) <= Seen(after.feeds[sub])
              && before.feeds[sub].consumed <= after.feeds[sub].consumed
  {
    if more == [] {
      assert steps + more == steps;
    } else {
      hide Good, Next, Enabled, Seen;
      var k := |more| - 1;
      var all := steps + more;
      assert all[..|all| - 1] == steps + more[..k] && all[|all| - 1] == more[k];
      ReadInOrder(size, steps, more[..k], sub);
      AlwaysGood(size, steps + more[..k]);
      var b := After(size, steps + more[..k]);
      FeedStays(b, more[k], sub);
      if sub in b.feeds { StepReads(b, more[k], sub); }
    }
  }

  lemma FeedStays(b: Bus, s: Step, sub: nat)
    requires Enabled(b, s)
    ensures sub in b.feeds ==> sub in Next(b, s).feeds
    ensures sub !in b.feeds ==> s != Get(sub)
    ensures sub !in b.feeds && sub in Next(b, s).feeds ==> Next(b, s).feeds[sub].consumed == []
  {
    hide Delivered;
  }

  lemma {:induction false} ReadAsAsked(size: int, steps: seq<Step>, sub: nat)
    requires size >= 2 && IsRun(size, steps)
    ensures var b := After(size, steps);
            Gets(steps, sub) == if sub in b.feeds then |b.feeds[sub].consumed| else 0
  {
    if steps != [] {
      hide Good, Next, Enabled, Seen;
      var k := |steps| - 1;
      ReadAsAsked(size, steps[..k], sub);
      AlwaysGood(size, steps[..k]);
      var b := After(size, steps[..k]);
      FeedStays(b, steps[k], sub);
      if sub in b.feeds { StepReads(b, steps[k], sub); }
    }
  }

  // ---- Overflow ----------------------------------------------------------------------------------

  /** The bus drops a subscription: a delivery finds it open and leaves it closed. */
  predicate Drops(b: Bus, s: Step, sub: nat) {
    && s.Deliver? && s.sub == sub && sub in b.feeds
    && !b.feeds[sub].sub.closed && Delivered(b.feeds[sub].sub, s.event, b.size).closed
  }

  predicate DroppedByBus(size: int, steps: seq<Step>, sub: nat)
    requires IsRun(size, steps)
  {
    steps != []
    && var before := steps[..|steps| - 1];
       DroppedByBus(size, before, sub) || Drops(After(size, before), steps[|steps| - 1], sub)
  }

  lemma DeliverDrops(f: Feed, e: Event, size: int)
    requires size >= 2 && Honest(f, size) && e in f.pending
    ensures var g := DeliveredTo(f, e, size); Overflowed(g) <==> Overflowed(f) || (!f.sub.closed && g.sub.closed)
  {
    hide Events, Delivered;
    if f.sub.closed {
      StaysClosed(f.sub, e, size);
    } else {
      AlwaysRoom(f, e, size);
      var last := if |f.sub.queue| >= size - 1 then Resync(e.id) else Plain(e);
      var g := DeliveredTo(f, e, size);
      assert Seen(g) == Seen(f) + [last];
      assert Seen(g)[..|Seen(g)| - 1] == Seen(f);
    }
  }

  /** One step overflows a subscription exactly when the bus drops it, and gives it up exactly when it unsubscribes. */
  lemma DropStep(b: Bus, s: Step, sub: nat)
    requires Good(b) && Enabled(b, s) && sub in b.feeds
    ensures var b' := Next(b, s);
            && sub in b'.feeds
            && (Overflowed(b'.feeds[sub]) <==> Overflowed(b.feeds[sub]) || Drops(b, s, sub))
            && (b'.feeds[sub].left <==> b.feeds[sub].left || s == Unsubscribe(sub))
  {
    hide Honest, Overflowed, Delivered;
    if s.Deliver? && s.sub == sub {
      DeliverDrops(b.feeds[sub], s.event, b.size);
      StaysClosed(b.feeds[sub].sub, s.event, b.size);
    } else if s.Get? && s.sub == sub {
      ConsumeHonest(b.feeds[sub], b.size);
      SeenDecides(b.feeds[sub], Consumed(b.feeds[sub]));
    } else if s.Subscribe? && s.sub == sub {
    } else {
      SeenDecides(b.feeds[sub], Next(b, s).feeds[sub]);
    }
  }

  lemma SeenDecides(f: Feed, g: Feed)
    requires Seen(f) == Seen(g)
    ensures Overflowed(f) == Overflowed(g)
  {
  }

  lemma UntouchedFeed(b: Bus, s: Step, sub: nat)
    requires Enabled(b, s) && sub !in b.feeds && sub in Next(b, s).feeds
    ensures Next(b, s).feeds[sub] == FRESH && !Drops(b, s, sub)
  {
  }

  /**
   In every run, what a subscription has seen ends with its one `resync` if and only if the bus dropped it, even
   if it is given up later.
   */
  lemma {:induction false} OverflowedIffDropped(size: int, steps: seq<Step>, sub: nat)
    requires size >= 2 && IsRun(size, steps) && sub in After(size, steps).feeds
    ensures var f := After(size, steps).feeds[sub];
            && (Overflowed(f) <==> DroppedByBus(size, steps, sub))
            && (f.left ==> Unsubscribe(sub) in steps)
  {
    if steps != [] {
      hide Good, Next, Enabled, Overflowed, Drops;
      var k := |steps| - 1;
      var b := After(size, steps[..k]);
      AlwaysGood(size, steps[..k]);
      if sub in b.feeds {
        OverflowedIffDropped(size, steps[..k], sub);
        DropStep(b, steps[k], sub);
      } else {
        UntouchedFeed(b, steps[k], sub);
        NeverSeen(size, steps[..k], sub);
        FreshNotOverflowed();
      }
    }
  }

  lemma FreshNotOverflowed()
    ensures !Overflowed(FRESH)
  {
  }

  lemma {:induction false} NeverSeen(size: int, steps: seq<Step>, sub: nat)
    requires size >= 2 && IsRun(size, steps) && sub !in After(size, steps).feeds
    ensures !DroppedByBus(size, steps, sub)
  {
    if steps != [] {
      hide Good, Enabled, Overflowed, Delivered;
      NeverSeen(size, steps[..|steps| - 1], sub);
    }
  }

  /**
   Nothing is lost silently. What an open subscription has seen or is still to get is exactly what was published
   while it was open. A closed one has seen only such events; if nobody unsubscribed it, its reader finds one
   `resync` after them and nothing else.
   */
  lemma NeverLostSilently(size: int, steps: seq<Step>, sub: nat)
    requires size >= 2 && IsRun(size, steps) && sub in After(size, steps).feeds
    ensures var f := After(size, steps).feeds[sub];
            && (!f.sub.closed ==>
                  AllPlain(Seen(f)) && Events(Seen(f)) + f.pending == PublishedWhileOpen(size, steps, sub))
            && (f.sub.closed ==> Events(Seen(f)) <= PublishedWhileOpen(size, steps, sub))
            && (f.sub.closed && Unsubscribe(sub) !in steps ==> Overflowed(f))
            && (Overflowed(f) <==> DroppedByBus(size, steps, sub))
            && |f.sub.queue| <= size
  {
    hide IsRun, After, PublishedWhileOpen, Overflowed, DroppedByBus;
    AlwaysGood(size, steps);
    SentIsPublished(size, steps, sub);
    OverflowedIffDropped(size, steps, sub);
  }

  // ---- The objects -------------------------------------------------------------------------------

  class Subscription {
    var queue: seq<Item>
    var closed: bool

    ghost function State(): Sub
      reads this
    {
      Sub(queue, closed)
    }

    constructor ()
      ensures State() == Sub([], false)
    {
      queue, closed := [], false;
    }

    method Get() returns (item: Item)
      requires queue != []
      modifies this`queue
      ensures item == old(queue)[0] && queue == old(queue)[1..]
    {
      item := queue[0];
      queue := queue[1..];
    }

    /** `put_nowait`; false for `QueueFull`. */
    method PutNowait(item: Item, size: int) returns (ok: bool)
      modifies this`queue
      ensures var q := Put(old(queue), item, size); ok == q.Some? && queue == if ok then q.value else old(queue)
    {
      ok := |queue| < size;
      if ok {
        queue := queue + [item];
      }
    }
  }

  /** One callback with the event for each of these. */
  ghost function Calls(subs: set<Subscription>, event: Event): multiset<(Subscription, Event)> {
    multiset(set s | s in subs :: (s, event))
  }

  lemma NoCalls(subs: set<Subscription>, event: Event)
    requires subs == {}
    ensures Calls(subs, event) == multiset{}
  {
  }

  lemma CallsGrow(subs: set<Subscription>, sub: Subscription, event: Event)
    requires sub !in subs
    ensures Calls(subs + {sub}, event) == Calls(subs, event) + multiset{(sub, event)}
  {
    assert (set s | s in subs + {sub} :: (s, event)) == (set s | s in subs :: (s, event)) + {(sub, event)};
  }

  class Broker {
    const size: int
    var nextId: nat
    var subscribers: set<Subscription>
    /** Deliveries handed to the loops of other threads. */
    var callbacks: seq<(Subscription, Event)>

    constructor (size: int)
      requires size >= 2
      ensures this.size == size && nextId == 1 && subscribers == {} && callbacks == []
    {
      this.size := size;
      nextId, subscribers, callbacks := 1, {}, [];
    }

    /** Refused when the queue would not leave room for a resync. */
    static method Create(size: int) returns (r: Broker?)
      ensures r == null <==> size < 2
      ensures r != null ==> fresh(r) && r.size == size && r.subscribers == {} && r.callbacks == []
    {
      if size < 2 {
        return null;
      }
      r := new Broker(size);
    }

    method Subscribe() returns (sub: Subscription?)
      modifies this`subscribers
      ensures sub == null <==> |old(subscribers)| >= MAX_SUBSCRIBERS
      ensures sub == null ==> subscribers == old(subscribers)
      ensures sub != null ==> fresh(sub) && subscribers == old(subscribers) + {sub} && sub.State() == Sub([], false)
    {
      if |subscribers| >= MAX_SUBSCRIBERS {
        return null;
      }
      sub := new Subscription();
      subscribers := subscribers + {sub};
    }

    method Unsubscribe(sub: Subscription)
      modifies this`subscribers, sub`closed
      ensures sub.closed && subscribers == old(subscribers) - {sub}
    {
      sub.closed := true;
      subscribers := subscribers - {sub};
    }

    method Deliver(sub: Subscription, event: Event)
      modifies this`subscribers, sub
      ensures sub.State() == Delivered(old(sub.State()), event, size)
      ensures subscribers == if sub.closed && !old(sub.closed) then old(subscribers) - {sub} else old(subscribers)
    {
      if sub.closed {
        return;
      }
      if |sub.queue| >= size - 1 {
        var _ := sub.PutNowait(Resync(event.id), size);
        Unsubscribe(sub);
        return;
      }
      var ok := sub.PutNowait(Plain(event), size);
      if !ok {
        assert false;   // the queue was found to have room: this handler never runs
      }
    }

    /**
     Every subscriber at that moment gets the event: at once when its loop is the publisher's (`here`),
     otherwise by one callback to its loop, unless that has closed (`dead`). Nobody else is called.
     */
    method Publish(kind: string, data: string, here: set<Subscription>, dead: set<Subscription>)
        returns (event: Event)
      modifies this`nextId, this`subscribers, this`callbacks, here
      ensures event == Event(old(nextId), kind, data) && nextId == old(nextId) + 1
      ensures forall s :: s in old(subscribers) && s in here ==> s.State() == Delivered(old(s.State()), event, size)
      ensures forall s :: s in here && s !in old(subscribers) ==> s.State() == old(s.State())
      ensures old(callbacks) <= callbacks
      ensures multiset(callbacks[|old(callbacks)|..]) == Calls(old(subscribers) - here - dead, event)
      ensures subscribers == old(subscribers) - set s | s in old(subscribers) && s in here && s.closed && !old(s.closed)
    {
      hide Delivered, Calls;
      event := Event(nextId, kind, data);
      nextId := nextId + 1;
      var rest := subscribers;
      NoCalls(old(subscribers) - here - dead - rest, event);
      while rest != {}
        invariant rest <= old(subscribers) && nextId == old(nextId) + 1
        invariant forall s :: s in here && (s in rest || s !in old(subscribers)) ==> s.State() == old(s.State())
        invariant forall s :: s in here && s in old(subscribers) && s !in rest ==>
                    s.State() == Delivered(old(s.State()), event, size)
        invariant old(callbacks) <= callbacks
        invariant multiset(callbacks[|old(callbacks)|..]) == Calls(old(subscribers) - here - dead - rest, event)
        invariant subscribers == old(subscribers)
                                 - set s | s in old(subscribers) - rest && s in here && s.closed && !old(s.closed)
      {
        var sub :| sub in rest;
        ghost var done := old(subscribers) - here - dead - rest;
        rest := rest - {sub};
        if sub in here {
          Deliver(sub, event);
          assert old(subscribers) - here - dead - rest == done;
        } else if sub in dead {
          assert old(subscribers) - here - dead - rest == done;
        } else {
          CallsGrow(done, sub, event);
          assert old(subscribers) - here - dead - rest == done + {sub};
          assert (callbacks + [(sub, event)])[|old(callbacks)|..] == callbacks[|old(callbacks)|..] + [(sub, event)];
          callbacks := callbacks + [(sub, event)];
        }
      }
      assert old(subscribers) - here - dead - rest == old(subscribers) - here - dead;
    }

    /** The loop of another thread runs one of its callbacks. */
    method RunCallback()
      requires callbacks != []
      modifies this`subscribers, this`callbacks, callbacks[0].0
      ensures callbacks == old(callbacks)[1..]
      ensures var (sub, event) := old(callbacks)[0]; sub.State() == Delivered(old(sub.State()), event, size)
      ensures var sub := old(callbacks)[0].0;
              subscribers == if sub.closed && !old(sub.closed) then old(subscribers) - {sub} else old(subscribers)
    {
      var (sub, event) := callbacks[0];
      callbacks := callbacks[1..];
      Deliver(sub, event);
    }
  }
}
