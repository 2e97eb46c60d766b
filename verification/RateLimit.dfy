/** The sliding-window rate limiter for sensitive endpoints. */
module RateLimit {
  import opened Common

  // ---- One address -------------------------------------------------------------------------------

  /** The hits after the cutoff, in order. */
  function Recent(hits: seq<real>, cutoff: real): (r: seq<real>)
    ensures |r| <= |hits| && forall t :: t in r <==> t in hits && t > cutoff
  {
    if hits == [] then []
    else
      var k := |hits| - 1;
      var before := Recent(hits[..k], cutoff);
      assert hits == hits[..k] + [hits[k]];
      if hits[k] > cutoff then before + [hits[k]] else before
  }

  ghost predicate Sorted(hits: seq<real>) {
    forall i, j :: 0 <= i < j < |hits| ==> hits[i] <= hits[j]
  }

  /** Allowed; to be tried again after so many seconds; or, with no hit to count from, an `IndexError`. */
  datatype Answer = Allowed | Wait(seconds: real) | Failed

  function Judged(recent: seq<real>, window: real, max: int, now: real): Answer {
    if |recent| >= max then (if recent == [] then Failed else Wait(window - (now - recent[0]))) else Allowed
  }

  // ---- The table ---------------------------------------------------------------------------------

  type Table = map<string, seq<real>>

  datatype Limiter = Limiter(window: real, max: int, hits: Table, lastCleanup: real)

  function HitsOf(hits: Table, ip: string): seq<real> {
    if ip in hits then hits[ip] else []
  }

  function Cleaned(l: Limiter, now: real): Limiter {
    if now - l.lastCleanup < l.window then l
    else l.(lastCleanup := now,
            hits := map ip | ip in l.hits && Recent(l.hits[ip], now - l.window) != [] :: Recent(l.hits[ip], now - l.window))
  }

  function Checked(l: Limiter, ip: string, now: real): (Answer, Limiter) {
    var c := Cleaned(l, now);
    var recent := Recent(HitsOf(c.hits, ip), now - l.window);
    var answer := Judged(recent, l.window, l.max, now);
    (answer, c.(hits := c.hits[ip := if answer == Allowed then recent + [now] else recent]))
  }

  /** A limiter that never forgets: it judges by everything it ever allowed. */
  function Remembered(window: real, max: int, all: Table, ip: string, now: real): (Answer, Table) {
    var answer := Judged(Recent(HitsOf(all, ip), now - window), window, max, now);
    (answer, if answer == Allowed then all[ip := HitsOf(all, ip) + [now]] else all)
  }

  // ---- Runs --------------------------------------------------------------------------------------

  datatype Call = Call(ip: string, at: real)

  /** The clock never goes back. */
  predicate Ordered(calls: seq<Call>) {
    forall i, j :: 0 <= i < j < |calls| ==> calls[i].at <= calls[j].at
  }

  function After(l: Limiter, calls: seq<Call>): Limiter {
    if calls == [] then l
    else Checked(After(l, calls[..|calls| - 1]), calls[|calls| - 1].ip, calls[|calls| - 1].at).1
  }

  function AllAllowed(window: real, max: int, calls: seq<Call>): Table {
    if calls == [] then map[]
    else
      var last := calls[|calls| - 1];
      Remembered(window, max, AllAllowed(window, max, calls[..|calls| - 1]), last.ip, last.at).1
  }

  function New(window: real, max: int, start: real): Limiter {
    Limiter(window, max, map[], start)
  }

  // ---- Forgetting changes no answer --------------------------------------------------------------

  lemma {:induction false} RecentTwice(hits: seq<real>, a: real, b: real)
    requires a <= b
    ensures Recent(Recent(hits, a), b) == Recent(hits, b)
  {
    if hits != [] {
      var k := |hits| - 1;
      RecentTwice(hits[..k], a, b);
      if hits[k] > a {
        var before := Recent(hits[..k], a);
        assert (before + [hits[k]])[..|before|] == before;
      }
    }
  }

  lemma RecentAppend(hits: seq<real>, t: real, cutoff: real)
    ensures Recent(hits + [t], cutoff) == if t > cutoff then Recent(hits, cutoff) + [t] else Recent(hits, cutoff)
  {
    assert (hits + [t])[..|hits|] == hits;
  }

  /** Both limiters hold the same hits, as far as any cutoff from now on can tell. */
  ghost predicate SameRecent(hits: Table, all: Table, since: real) {
    forall ip, cutoff :: cutoff >= since ==> Recent(HitsOf(hits, ip), cutoff) == Recent(HitsOf(all, ip), cutoff)
  }

  lemma CleanedSame(l: Limiter, all: Table, since: real, now: real)
    requires SameRecent(l.hits, all, since) && since <= now - l.window
    ensures SameRecent(Cleaned(l, now).hits, all, now - l.window)
  {
    var c := Cleaned(l, now);
    forall ip, cutoff | cutoff >= now - l.window
      ensures Recent(HitsOf(c.hits, ip), cutoff) == Recent(HitsOf(all, ip), cutoff)
    {
      RecentTwice(HitsOf(l.hits, ip), now - l.window, cutoff);
      assert Recent(HitsOf(l.hits, ip), cutoff) == Recent(HitsOf(all, ip), cutoff);
    }
  }

  lemma CheckedSame(l: Limiter, all: Table, since: real, ip: string, now: real)
    requires SameRecent(l.hits, all, since) && since <= now - l.window
    ensures var (answer, l') := Checked(l, ip, now);
            var (expected, all') := Remembered(l.window, l.max, all, ip, now);
            answer == expected && SameRecent(l'.hits, all', now - l.window)
  {
    hide Cleaned, Recent, SameRecent;
    CleanedSame(l, all, since, now);
    CleanedKeeps(l, now);
    SameAt(Cleaned(l, now).hits, all, now - l.window, ip, now - l.window);
    CountedSame(Cleaned(l, now).hits, all, ip, now - l.window, now);
  }

  lemma SameAt(hits: Table, all: Table, since: real, ip: string, cutoff: real)
    requires SameRecent(hits, all, since) && cutoff >= since
    ensures Recent(HitsOf(hits, ip), cutoff) == Recent(HitsOf(all, ip), cutoff)
  {
  }

  /** Dropping the old hits of one address, and counting a new one on both sides, keeps them the same. */
  lemma CountedSame(hits: Table, all: Table, ip: string, since: real, now: real)
    requires SameRecent(hits, all, since)
    ensures var recent := Recent(HitsOf(hits, ip), since);
            && SameRecent(hits[ip := recent], all, since)
            && SameRecent(hits[ip := recent + [now]], all[ip := HitsOf(all, ip) + [now]], since)
  {
    hide Recent;
    var recent := Recent(HitsOf(hits, ip), since);
    var dropped, counted, more := hits[ip := recent], hits[ip := recent + [now]], all[ip := HitsOf(all, ip) + [now]];
    forall o, cutoff | cutoff >= since
      ensures Recent(HitsOf(dropped, o), cutoff) == Recent(HitsOf(all, o), cutoff)
      ensures Recent(HitsOf(counted, o), cutoff) == Recent(HitsOf(more, o), cutoff)
    {
      assert Recent(HitsOf(hits, o), cutoff) == Recent(HitsOf(all, o), cutoff);
      if o == ip {
        RecentTwice(HitsOf(hits, ip), since, cutoff);
        RecentAppend(recent, now, cutoff);
        RecentAppend(HitsOf(all, ip), now, cutoff);
      }
    }
    TheSame(dropped, all, since);
    TheSame(counted, more, since);
  }

  lemma TheSame(a: Table, b: Table, since: real)
    requires forall ip, cutoff :: cutoff >= since ==> Recent(HitsOf(a, ip), cutoff) == Recent(HitsOf(b, ip), cutoff)
    ensures SameRecent(a, b, since)
  {
  }

  lemma CleanedKeeps(l: Limiter, now: real)
    ensures Cleaned(l, now).window == l.window && Cleaned(l, now).max == l.max
  {
  }

  lemma OrderedPrefix(calls: seq<Call>)
    requires Ordered(calls) && calls != []
    ensures Ordered(calls[..|calls| - 1])
    ensures |calls| > 1 ==> calls[|calls| - 2].at <= calls[|calls| - 1].at
  {
  }

  /** The moment before which nothing matters any more. */
  function Since(window: real, start: real, calls: seq<Call>): real {
    if calls == [] then start - window else calls[|calls| - 1].at - window
  }

  predicate StartsAt(calls: seq<Call>, start: real) {
    forall i :: 0 <= i < |calls| ==> start <= calls[i].at
  }

  lemma {:induction false} AfterSame(window: real, max: int, start: real, calls: seq<Call>)
    requires Ordered(calls) && StartsAt(calls, start)
    ensures var l := After(New(window, max, start), calls);
            l.window == window && l.max == max
            && SameRecent(l.hits, AllAllowed(window, max, calls), Since(window, start, calls))
  {
    if calls != [] {
      hide Checked, Remembered, SameRecent;
      var k := |calls| - 1;
      OrderedPrefix(calls);
      AfterSame(window, max, start, calls[..k]);
      var l := After(New(window, max, start), calls[..k]);
      CheckedSame(l, AllAllowed(window, max, calls[..k]), Since(window, start, calls[..k]), calls[k].ip, calls[k].at);
      CheckedKeeps(l, calls[k].ip, calls[k].at);
    }
  }

  lemma CheckedKeeps(l: Limiter, ip: string, now: real)
    ensures Checked(l, ip, now).1.window == l.window && Checked(l, ip, now).1.max == l.max
  {
  }

  /** Cleaning up and dropping old hits never changes an answer: it is what a limiter that keeps all would say. */
  lemma ForgettingChangesNothing(window: real, max: int, start: real, calls: seq<Call>, ip: string, now: real)
    requires Ordered(calls + [Call(ip, now)]) && StartsAt(calls + [Call(ip, now)], start)
    ensures Checked(After(New(window, max, start), calls), ip, now).0
            == Remembered(window, max, AllAllowed(window, max, calls), ip, now).0
  {
    var all := calls + [Call(ip, now)];
    assert all[..|calls|] == calls && all[|calls|] == Call(ip, now);
    OrderedPrefix(all);
    assert forall i :: 0 <= i < |calls| ==> all[i] == calls[i];
    AfterSame(window, max, start, calls);
    CheckedSame(After(New(window, max, start), calls), AllAllowed(window, max, calls), Since(window, start, calls), ip, now);
  }

  // ---- The bound ---------------------------------------------------------------------------------

  /** Allowed hits come in order, none after `now`, and any `max + 1` in a row span a whole window. */
  ghost predicate Spaced(hits: seq<real>, window: real, max: int, now: real)
    requires max > 0
  {
    && Sorted(hits)
    && (forall i :: 0 <= i < |hits| ==> hits[i] <= now)
    && (forall i, j :: 0 <= i && i + max <= j < |hits| ==> hits[j] - hits[i] >= window)
  }

  lemma FarApart(hits: seq<real>, window: real, max: int, now: real, i: int, j: int)
    requires max > 0 && Spaced(hits, window, max, now) && 0 <= i <= j < |hits|
    ensures j - i >= max ==> hits[j] - hits[i] >= window
  {
  }

  /** If the k-th last of ordered hits is recent, at least k are. */
  lemma {:induction false} RecentTail(hits: seq<real>, cutoff: real, k: nat)
    requires k <= |hits| && Sorted(hits)
    requires k > 0 ==> hits[|hits| - k] > cutoff
    ensures |Recent(hits, cutoff)| >= k
  {
    if k > 0 {
      var n := |hits| - 1;
      if k > 1 { assert hits[..n][n - (k - 1)] == hits[|hits| - k]; }
      RecentTail(hits[..n], cutoff, k - 1);
    }
  }

  lemma AllowedSpaced(hits: seq<real>, window: real, max: int, before: real, now: real)
    requires max > 0 && Spaced(hits, window, max, before) && before <= now
    requires Judged(Recent(hits, now - window), window, max, now) == Allowed
    ensures Spaced(hits + [now], window, max, now)
  {
    var all := hits + [now];
    var n := |hits|;
    forall i, j | 0 <= i && i + max <= j < |all| ensures all[j] - all[i] >= window {
      if j == n {
        if hits[n - max] > now - window {
          RecentTail(hits, now - window, max);
        }
        assert all[i] <= hits[n - max];
      }
    }
  }

  lemma {:induction false} AlwaysSpaced(window: real, max: int, calls: seq<Call>, ip: string, now: real)
    requires max > 0 && Ordered(calls) && forall i :: 0 <= i < |calls| ==> calls[i].at <= now
    ensures Spaced(HitsOf(AllAllowed(window, max, calls), ip), window, max, now)
  {
    hide Judged, Recent, Spaced;
    if calls == [] {
      NothingSpaced(window, max, now);
    } else {
      var k := |calls| - 1;
      var at := calls[k].at;
      OrderedPrefix(calls);
      AlwaysSpaced(window, max, calls[..k], ip, at);
      var before := AllAllowed(window, max, calls[..k]);
      if ip == calls[k].ip && Remembered(window, max, before, ip, at).0 == Allowed {
        AllowedSpaced(HitsOf(before, ip), window, max, at, at);
      }
      SpacedLater(HitsOf(AllAllowed(window, max, calls), ip), window, max, at, now);
    }
  }

  lemma NothingSpaced(window: real, max: int, now: real)
    requires max > 0
    ensures Spaced([], window, max, now)
  {
  }

  lemma SpacedLater(hits: seq<real>, window: real, max: int, now: real, later: real)
    requires max > 0 && Spaced(hits, window, max, now) && now <= later
    ensures Spaced(hits, window, max, later)
  {
  }

  /**
   In any half-open window of the configured length at most `max` hits of an address were ever allowed,
   whether it is open on the left or on the right.
   */
  lemma AtMostMaxInWindow(window: real, max: int, calls: seq<Call>, ip: string, x: real, open: bool)
    requires max > 0 && Ordered(calls)
    ensures var hits := HitsOf(AllAllowed(window, max, calls), ip);
            |set i | 0 <= i < |hits| && (if open then x < hits[i] <= x + window else x <= hits[i] < x + window)| <= max
  {
    var now := if calls == [] then 0.0 else calls[|calls| - 1].at;
    AlwaysSpaced(window, max, calls, ip, now);
    var hits := HitsOf(AllAllowed(window, max, calls), ip);
    var inside := set i: int | 0 <= i < |hits| && (if open then x < hits[i] <= x + window else x <= hits[i] < x + window);
    if inside != {} {
      var first := Smallest(inside);
      forall i | i in inside ensures first <= i < first + max {
        FarApart(hits, window, max, now, first, i);
      }
      RangeBound(inside, first, max);
    }
  }

  // ---- The wait ----------------------------------------------------------------------------------

  /** A table in use never holds more than `max` hits of an address. */
  lemma {:induction false} NeverMoreThanMax(l: Limiter, ip: string, calls: seq<Call>)
    requires l.max > 0 && |HitsOf(l.hits, ip)| <= l.max
    ensures |HitsOf(After(l, calls).hits, ip)| <= l.max && After(l, calls).max == l.max && After(l, calls).window == l.window
  {
    if calls != [] {
      NeverMoreThanMax(l, ip, calls[..|calls| - 1]);
    }
  }

  /** Hits in order: what is recent starts with the oldest recent one. */
  lemma {:induction false} RecentOrdered(hits: seq<real>, cutoff: real)
    requires Sorted(hits)
    ensures Sorted(Recent(hits, cutoff))
  {
    if hits != [] {
      var k := |hits| - 1;
      RecentOrdered(hits[..k], cutoff);
      var before := Recent(hits[..k], cutoff);
      forall i | 0 <= i < |before| ensures before[i] <= hits[k] {
        assert before[i] in hits[..k];
        var j :| 0 <= j < k && hits[..k][j] == before[i];
      }
    }
  }

  lemma {:induction false} KeepsAll(hits: seq<real>, cutoff: real)
    requires forall i :: 0 <= i < |hits| ==> hits[i] > cutoff
    ensures Recent(hits, cutoff) == hits
  {
    if hits != [] {
      var k := |hits| - 1;
      KeepsAll(hits[..k], cutoff);
      assert hits == hits[..k] + [hits[k]];
    }
  }

  /** Nothing of what was recent is dropped until its first hit grows old; then at least that one is. */
  lemma DropsFirst(recent: seq<real>, cutoff: real)
    requires recent != [] && Sorted(recent)
    ensures cutoff < recent[0] ==> Recent(recent, cutoff) == recent
    ensures cutoff >= recent[0] ==> |Recent(recent, cutoff)| < |recent|
  {
    if cutoff < recent[0] {
      KeepsAll(recent, cutoff);
    } else {
      RecentWithoutFirst(recent, cutoff, |recent|);
      assert recent[..|recent|] == recent;
    }
  }

  lemma {:induction false} RecentWithoutFirst(hits: seq<real>, cutoff: real, n: nat)
    requires 0 < n <= |hits| && hits[0] <= cutoff
    ensures |Recent(hits[..n], cutoff)| < n
  {
    assert hits[..n][..n - 1] == hits[..n - 1];
    if n > 1 {
      RecentWithoutFirst(hits, cutoff, n - 1);
    } else {
      assert hits[..0] == [];
    }
  }

  /** Judged by the same hits, a later call is allowed exactly when the wait told has passed. */
  lemma WaitOnHits(hits: seq<real>, window: real, max: int, now: real, later: real)
    requires max > 0 && |Recent(hits, now - window)| <= max
    requires Sorted(hits) && forall t :: t in hits ==> t <= now
    requires Judged(Recent(hits, now - window), window, max, now).Wait? && now <= later
    ensures var wait := Judged(Recent(hits, now - window), window, max, now).seconds;
            && 0.0 < wait <= window
            && (Judged(Recent(hits, later - window), window, max, later) == Allowed <==> later >= now + wait)
  {
    hide Recent, Sorted;
    var recent := Recent(hits, now - window);
    assert recent[0] in recent;
    RecentOrdered(hits, now - window);
    DropsFirst(recent, later - window);
    RecentTwice(hits, now - window, later - window);
  }

  function AnswerTo(window: real, max: int, start: real, calls: seq<Call>, ip: string, now: real): Answer {
    Checked(After(New(window, max, start), calls), ip, now).0
  }

  lemma {:induction false} NothingCounted(window: real, max: int, start: real, calls: seq<Call>, ip: string)
    requires max <= 0
    ensures var l := After(New(window, max, start), calls); l.max == max && HitsOf(l.hits, ip) == []
  {
    if calls != [] {
      var k := |calls| - 1;
      NothingCounted(window, max, start, calls[..k], ip);
      NothingCounted(window, max, start, calls[..k], calls[k].ip);
    }
  }

  /** A limiter set to allow nothing has no hit to count from: every check fails, and only then does one. */
  lemma FailsIff(window: real, max: int, start: real, calls: seq<Call>, ip: string, now: real)
    ensures AnswerTo(window, max, start, calls, ip, now) == Failed <==> max <= 0
  {
    if max <= 0 {
      NothingCounted(window, max, start, calls, ip);
    } else {
      NeverMoreThanMax(New(window, max, start), ip, calls);
    }
  }

  lemma RefusedNeedsMax(window: real, max: int, start: real, calls: seq<Call>, ip: string, now: real)
    requires AnswerTo(window, max, start, calls, ip, now).Wait?
    ensures max > 0
  {
    FailsIff(window, max, start, calls, ip, now);
  }

  /** What was ever allowed to an address that is refused now: in order, and few enough of it recent. */
  lemma RefusedHits(window: real, max: int, start: real, calls: seq<Call>, ip: string, now: real)
    requires Ordered(calls + [Call(ip, now)]) && StartsAt(calls + [Call(ip, now)], start)
    requires AnswerTo(window, max, start, calls, ip, now).Wait?
    ensures var hits := HitsOf(AllAllowed(window, max, calls), ip);
            && max > 0 && |Recent(hits, now - window)| <= max
            && Sorted(hits) && (forall t :: t in hits ==> t <= now)
            && Judged(Recent(hits, now - window), window, max, now) == AnswerTo(window, max, start, calls, ip, now)
  {
    hide Judged, Checked, After;
    var all := calls + [Call(ip, now)];
    assert all[..|calls|] == calls && all[|calls|] == Call(ip, now);
    assert forall i :: 0 <= i < |calls| ==> all[i] == calls[i];
    RefusedNeedsMax(window, max, start, calls, ip, now);
    ForgettingChangesNothing(window, max, start, calls, ip, now);
    AlwaysSpaced(window, max, calls, ip, now);
    FewRecent(HitsOf(AllAllowed(window, max, calls), ip), window, max, now);
  }

  /** Of spaced hits at most `max` are recent. */
  lemma FewRecent(hits: seq<real>, window: real, max: int, now: real)
    requires max > 0 && Spaced(hits, window, max, now)
    ensures |Recent(hits, now - window)| <= max
  {
    if |hits| > max {
      var k := |hits| - max;
      assert hits[|hits| - 1] - hits[k - 1] >= window;
      FewerRecent(hits, now - window, k);
    }
  }

  lemma {:induction false} FewerRecent(hits: seq<real>, cutoff: real, k: nat)
    requires k <= |hits| && Sorted(hits) && (k > 0 ==> hits[k - 1] <= cutoff)
    ensures |Recent(hits, cutoff)| <= |hits| - k
  {
    if |hits| > k {
      FewerRecent(hits[..|hits| - 1], cutoff, k);
    } else if k > 0 {
      FewerRecent(hits[..k - 1], cutoff, k - 1);
    }
  }

  /** While the wait lasts the address is refused, so nothing is added to what it was ever allowed. */
  lemma {:induction false} StillRefused(
    window: real, max: int, start: real, calls: seq<Call>, ip: string, now: real, between: seq<Call>)
    requires Ordered(calls + [Call(ip, now)] + between) && StartsAt(calls + [Call(ip, now)] + between, start)
    requires AnswerTo(window, max, start, calls, ip, now).Wait?
    requires forall c :: c in between && c.ip == ip ==>
               c.at < now + AnswerTo(window, max, start, calls, ip, now).seconds
    ensures HitsOf(AllAllowed(window, max, calls + [Call(ip, now)] + between), ip)
            == HitsOf(AllAllowed(window, max, calls), ip)
  {
    hide Judged, Checked, After, Recent, Sorted, StartsAt, AllAllowed, AnswerTo;
    var all := calls + [Call(ip, now)] + between;
    FirstPart(all, |calls| + 1, start);
    assert all[..|calls| + 1] == calls + [Call(ip, now)];
    RefusedHits(window, max, start, calls, ip, now);
    if between == [] {
      assert all == calls + [Call(ip, now)];
      CallAdds(window, max, calls, Call(ip, now), ip);
    } else {
      var k := |between| - 1;
      var shorter := calls + [Call(ip, now)] + between[..k];
      assert all[..|all| - 1] == shorter && all == shorter + [between[k]];
      FirstPart(all, |all| - 1, start);
      StillRefused(window, max, start, calls, ip, now, between[..k]);
      CallAdds(window, max, shorter, between[k], ip);
      if between[k].ip == ip {
        assert all[|calls|] == Call(ip, now) && all[|all| - 1] == between[k] && between[k] in between;
        WaitOnHits(HitsOf(AllAllowed(window, max, calls), ip), window, max, now, between[k].at);
      }
    }
  }

  /** A call adds to what an address was ever allowed only if it is its own and allowed. */
  lemma CallAdds(window: real, max: int, calls: seq<Call>, c: Call, ip: string)
    ensures var hits := HitsOf(AllAllowed(window, max, calls), ip);
            c.ip != ip || Judged(Recent(hits, c.at - window), window, max, c.at) != Allowed ==>
              HitsOf(AllAllowed(window, max, calls + [c]), ip) == hits
  {
    assert (calls + [c])[..|calls|] == calls;
  }

  lemma FirstPart(calls: seq<Call>, k: nat, start: real)
    requires Ordered(calls) && StartsAt(calls, start) && k <= |calls|
    ensures Ordered(calls[..k]) && StartsAt(calls[..k], start)
  {
  }

  /**
   In every run: a refused call is told to wait more than nothing and at most a window; and whatever other addresses
   do meanwhile, and however often this one tries before, its later check is allowed exactly when that long has passed.
   */
  lemma WaitIsExact(
    window: real, max: int, start: real, calls: seq<Call>, ip: string, now: real, between: seq<Call>, later: real)
    requires var all := calls + [Call(ip, now)] + between + [Call(ip, later)]; Ordered(all) && StartsAt(all, start)
    requires AnswerTo(window, max, start, calls, ip, now).Wait?
    requires forall c :: c in between && c.ip == ip ==>
               c.at < now + AnswerTo(window, max, start, calls, ip, now).seconds
    ensures var wait := AnswerTo(window, max, start, calls, ip, now).seconds;
            && 0.0 < wait <= window
            && (AnswerTo(window, max, start, calls + [Call(ip, now)] + between, ip, later) == Allowed
                <==> later >= now + wait)
  {
    hide Judged, Checked, After, Recent, Sorted, AllAllowed, StartsAt;
    var before := calls + [Call(ip, now)] + between;
    var all := before + [Call(ip, later)];
    assert all[..|before|] == before && before[..|calls| + 1] == calls + [Call(ip, now)];
    FirstPart(all, |before|, start);
    FirstPart(before, |calls| + 1, start);
    assert all[|calls|] == Call(ip, now) && all[|before|] == Call(ip, later);
    RefusedHits(window, max, start, calls, ip, now);
    StillRefused(window, max, start, calls, ip, now, between);
    ForgettingChangesNothing(window, max, start, before, ip, later);
    WaitOnHits(HitsOf(AllAllowed(window, max, calls), ip), window, max, now, later);
  }

  /** The `Retry-After` header, in whole seconds, is always enough. */
  lemma RetryAfterSuffices(
    window: real, max: int, start: real, calls: seq<Call>, ip: string, now: real, between: seq<Call>, later: real)
    requires var all := calls + [Call(ip, now)] + between + [Call(ip, later)]; Ordered(all) && StartsAt(all, start)
    requires AnswerTo(window, max, start, calls, ip, now).Wait?
    requires forall c :: c in between && c.ip == ip ==>
               c.at < now + AnswerTo(window, max, start, calls, ip, now).seconds
    requires later >= now + (AnswerTo(window, max, start, calls, ip, now).seconds.Floor + 1) as real
    ensures AnswerTo(window, max, start, calls + [Call(ip, now)] + between, ip, later) == Allowed
  {
    hide AnswerTo, Ordered, StartsAt;
    WaitIsExact(window, max, start, calls, ip, now, between, later);
  }

  // ---- What the table forgets --------------------------------------------------------------------

  /** Every address in the table was let through since shortly before the last cleanup. */
  ghost predicate OnlyLively(l: Limiter) {
    forall ip :: ip in l.hits ==> exists t :: t in l.hits[ip] && t > l.lastCleanup - l.window
  }

  lemma CleanedLively(l: Limiter, now: real)
    requires OnlyLively(l) && l.window > 0.0 && l.lastCleanup <= now
    ensures var c := Cleaned(l, now);
            && OnlyLively(c) && c.window == l.window && c.max == l.max
            && now - c.lastCleanup < l.window && c.lastCleanup <= now
  {
    var c := Cleaned(l, now);
    forall ip | ip in c.hits ensures exists t :: t in c.hits[ip] && t > c.lastCleanup - c.window {
      if c.lastCleanup != l.lastCleanup || c.hits != l.hits {
        assert c.hits[ip][0] in c.hits[ip];
      }
    }
  }

  lemma CheckedLively(l: Limiter, ip: string, now: real)
    requires OnlyLively(l) && l.window > 0.0 && l.max >= 1 && l.lastCleanup <= now
    ensures var l' := Checked(l, ip, now).1;
            && OnlyLively(l') && l'.window == l.window && l'.max == l.max
            && now - l'.lastCleanup < l.window && l'.lastCleanup <= now
  {
    hide Cleaned;
    CleanedLively(l, now);
    var c := Cleaned(l, now);
    var l' := Checked(l, ip, now).1;
    assert l'.hits[ip][|l'.hits[ip]| - 1] in l'.hits[ip];
    assert l'.hits[ip][|l'.hits[ip]| - 1] > l'.lastCleanup - l'.window;
  }

  /**
   The table does not grow without bound: after any run of checks it holds only addresses that were let through within
   the last two windows, the last cleanup being less than one window ago.
   */
  lemma {:induction false} ForgetsTheSilent(window: real, max: int, start: real, calls: seq<Call>)
    requires window > 0.0 && max >= 1 && Ordered(calls) && StartsAt(calls, start)
    ensures var l := After(New(window, max, start), calls);
            && OnlyLively(l) && l.window == window && l.max == max
            && (calls == [] ==> l.lastCleanup == start)
            && (calls != [] ==>
                  var now := calls[|calls| - 1].at;
                  && l.lastCleanup <= now && now - l.lastCleanup < window
                  && forall ip :: ip in l.hits ==> exists t :: t in l.hits[ip] && t > now - 2.0 * window)
  {
    if calls != [] {
      hide Checked, OnlyLively;
      var k := |calls| - 1;
      var before := After(New(window, max, start), calls[..k]);
      OrderedPrefix(calls);
      assert StartsAt(calls[..k], start);
      ForgetsTheSilent(window, max, start, calls[..k]);
      CheckedLively(before, calls[k].ip, calls[k].at);
      LivelyRecent(After(New(window, max, start), calls), calls[k].at);
    } else {
      assert OnlyLively(New(window, max, start));
    }
  }

  lemma LivelyRecent(l: Limiter, now: real)
    requires OnlyLively(l) && now - l.lastCleanup < l.window
    ensures forall ip :: ip in l.hits ==> exists t :: t in l.hits[ip] && t > now - 2.0 * l.window
  {
    forall ip | ip in l.hits ensures exists t :: t in l.hits[ip] && t > now - 2.0 * l.window {
      var t :| t in l.hits[ip] && t > l.lastCleanup - l.window;
      assert t > now - 2.0 * l.window;
    }
  }

  // ---- The limiter -------------------------------------------------------------------------------

  class RateLimiter {
    const window: real
    const max: int
    var hits: Table
    var lastCleanup: real

    ghost function State(): Limiter
      reads this
    {
      Limiter(window, max, hits, lastCleanup)
    }

    constructor (window: real, max: int, now: real)
      ensures State() == New(window, max, now)
    {
      this.window, this.max := window, max;
      hits, lastCleanup := map[], now;
    }

    method Kept(ts: seq<real>, cutoff: real) returns (r: seq<real>)
      ensures r == Recent(ts, cutoff)
    {
      r := [];
      for i := 0 to |ts|
        invariant r == Recent(ts[..i], cutoff)
      {
        assert ts[..i + 1][..i] == ts[..i];
        if ts[i] > cutoff {
          r := r + [ts[i]];
        }
      }
      assert ts[..|ts|] == ts;
    }

    method Cleanup(now: real)
      modifies this`hits, this`lastCleanup
      ensures State() == Cleaned(old(State()), now)
    {
      if now - lastCleanup < window {
        return;
      }
      lastCleanup := now;
      var rest := hits.Keys;
      var kept := hits;
      while rest != {}
        invariant rest <= hits.Keys && hits == old(hits) && lastCleanup == now
        invariant forall ip :: ip in rest ==> ip in kept && kept[ip] == hits[ip]
        invariant forall ip :: ip in hits && ip !in rest ==>
                    && (ip in kept <==> Recent(hits[ip], now - window) != [])
                    && (ip in kept ==> kept[ip] == Recent(hits[ip], now - window))
        invariant kept.Keys <= hits.Keys
      {
        var ip :| ip in rest;
        var left := Kept(kept[ip], now - window);
        if left == [] {
          kept := kept - {ip};
        } else {
          kept := kept[ip := left];
        }
        rest := rest - {ip};
      }
      hits := kept;
    }

    method Check(ip: string, now: real) returns (answer: Answer)
      modifies this`hits, this`lastCleanup
      ensures (answer, State()) == Checked(old(State()), ip, now)
    {
      Cleanup(now);
      var timestamps := Kept(HitsOf(hits, ip), now - window);
      hits := hits[ip := timestamps];
      if |timestamps| >= max {
        return if timestamps == [] then Failed else Wait(window - (now - timestamps[0]));
      }
      hits := hits[ip := timestamps + [now]];
      assert hits == Cleaned(old(State()), now).hits[ip := timestamps + [now]];
      answer := Allowed;
    }
  }
}
