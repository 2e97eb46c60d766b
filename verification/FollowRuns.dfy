/** New-release detection over whole histories of catalog operations and follow operations. */
module FollowRuns {
  import opened Common
  import opened CatalogState
  import opened CatalogTrust
  import opened CatalogRuns
  import opened CatalogHistory
  import opened CatalogUnits
  import opened FollowState

  // ---- Histories ---------------------------------------------------------------------------------

  datatype FollowOp =
    | Start(offer: Offer, offers: set<Offer>)
    | Stop(work: string, language: Option<string>)
    | TakeBack(token: nat)
    | Move(work: string, language: Option<string>, source: string, track: string, offers: set<Offer>)
    | Check(work: string, language: Option<string>)
    | Fail(work: string, language: Option<string>, category: string)
    | SeeAll(work: string, language: Option<string>)

  ghost function Act(desk: Desk, op: FollowOp, view: View): Desk {
    match op
    case Start(offer, offers) => Followed(desk, offer, offers, view).1
    case Stop(work, language) => Unfollowed(desk, work, language).1
    case TakeBack(token) => Undone(desk, token).1
    case Move(work, language, source, track, offers) =>
      SourceChanged(desk, work, language, source, track, offers, view).1
    case Check(work, language) => Checked(desk, work, language, view).1
    case Fail(work, language, category) => Attempted(desk, work, language, Some(category))
    case SeeAll(work, language) => MarkedSeen(desk, work, language).1
  }

  /** The track whose catalog the operation looks at. */
  ghost function Consulted(desk: Desk, op: FollowOp): Option<string> {
    match op
    case Start(offer, _) => Some(offer.track)
    case Move(_, _, _, track, _) => Some(track)
    case Check(work, language) =>
      var row := Row(desk.follows, work, language);
      if row.None? then None else Some(desk.follows[row.value].track)
    case _ => None
  }

  /** The catalog of one track, and the follow tables, side by side. */
  datatype World = World(lib: Lib, desk: Desk)

  /** `elsewhere` is what the catalog says when the operation looks at another track. */
  datatype Step = OnCatalog(op: Op) | OnDesk(act: FollowOp, elsewhere: View)

  ghost function Looked(w: World, track: string, s: Step): View
    requires s.OnDesk?
  {
    if Consulted(w.desk, s.act) == Some(track) then ViewOf(w.lib.track) else s.elsewhere
  }

  ghost function Next(w: World, track: string, s: Step): World {
    match s
    case OnCatalog(op) => w.(lib := Do(w.lib, op).1)
    case OnDesk(act, _) => w.(desk := Act(w.desk, act, Looked(w, track, s)))
  }

  ghost function Run(w: World, track: string, steps: seq<Step>): World {
    if steps == [] then w else Next(Run(w, track, steps[..|steps| - 1]), track, steps[|steps| - 1])
  }

  const NOTHING := World(EMPTY, Desk(map[], [], 0, 0))

  // ---- The invariant of the tables ---------------------------------------------------------------

  /** One follow for each work and language, one event for each key of a follow, and at most 100 undos. */
  ghost predicate Tidy(desk: Desk) {
    && (forall f :: f in desk.follows ==> f < desk.nextId && Distinct(ReleaseKeys(desk.follows[f].releases)))
    && OneEach(desk.follows)
    && |desk.undo| <= 100
    && (forall s :: s in desk.undo ==> s.token < desk.nextId && s.id < desk.nextId)
    && TokensRise(desk.undo)
  }

  ghost predicate TokensRise(undo: seq<Kept>) {
    forall i, j :: 0 <= i < j < |undo| ==> undo[i].token < undo[j].token
  }

  lemma {:induction false} AddedKeys(releases: seq<Release>, units: Units, keys: seq<string>, now: nat)
    requires Distinct(ReleaseKeys(releases))
    ensures var all := AllAdded(releases, units, keys, now);
            && Distinct(ReleaseKeys(all))
            && Elements(ReleaseKeys(all)) == Elements(ReleaseKeys(releases)) + Elements(keys)
  {
    hide Added, Distinct, ReleaseKeys, Elements;
    if keys == [] {
      assert Elements(keys) == {} by { NoElements<string>(); }
    } else {
      var k := |keys| - 1;
      AddedKeys(releases, units, keys[..k], now);
      ElementsLast(keys);
      AddedOne(AllAdded(releases, units, keys[..k], now), units, keys[k], now);
    }
  }

  lemma NoElements<T>()
    ensures Elements<T>([]) == {}
  {
  }

  lemma AddedOne(releases: seq<Release>, units: Units, key: string, now: nat)
    requires Distinct(ReleaseKeys(releases))
    ensures var all := Added(releases, units, key, now);
            Distinct(ReleaseKeys(all)) && Elements(ReleaseKeys(all)) == Elements(ReleaseKeys(releases)) + {key}
  {
    var r := Release(key, UnitOf(units, key), now, false);
    if key !in ReleaseKeys(releases) {
      assert (releases + [r])[..|releases|] == releases;
      assert ReleaseKeys(releases + [r]) == ReleaseKeys(releases) + [key];
      DistinctAppend(ReleaseKeys(releases), key);
    }
  }

  lemma SeenKeys(releases: seq<Release>)
    ensures ReleaseKeys(AllSeen(releases)) == ReleaseKeys(releases)
  {
  }

  lemma {:induction false} WithoutKeeps(undo: seq<Kept>, token: nat)
    ensures |Without(undo, token)| <= |undo| && forall s :: s in Without(undo, token) ==> s in undo
    ensures TokensRise(undo) ==> TokensRise(Without(undo, token))
    ensures TokensRise(undo) ==> Find(Without(undo, token), token) == None
  {
    if undo != [] {
      WithoutKeeps(undo[1..], token);
    }
  }

  /** Replacing one row by another of the same work and language keeps the tables tidy. */
  lemma TidyUpdate(desk: Desk, f: nat, row: Follow, clock: nat)
    requires Tidy(desk) && f in desk.follows
    requires row.work == desk.follows[f].work && row.language == desk.follows[f].language
    requires Distinct(ReleaseKeys(row.releases))
    ensures Tidy(desk.(follows := desk.follows[f := row], clock := clock))
  {
  }

  lemma CheckedRowKeeps(follow: Follow, view: View, now: nat)
    requires Distinct(ReleaseKeys(follow.releases))
    ensures var row := CheckedRow(follow, view, now).1;
            && row.work == follow.work && row.language == follow.language && row.track == follow.track
            && Distinct(ReleaseKeys(row.releases))
  {
    if follow.baseline.Some? && view.trusted.Some? {
      AddedKeys(follow.releases, view.units, NewKeys(view.trusted.value, Known(follow)), now);
    }
  }

  lemma StopTidy(desk: Desk, work: string, language: Option<string>)
    requires Tidy(desk)
    ensures Tidy(Unfollowed(desk, work, language).1)
  {
    hide Trimmed;
    var row := Row(desk.follows, work, language);
    if row.Some? {
      TrimmedTokens(desk.undo, Kept(desk.nextId, row.value, desk.follows[row.value]));
    }
  }

  lemma TrimmedTokens(undo: seq<Kept>, s: Kept)
    requires TokensRise(undo) && forall x :: x in undo ==> x.token < s.token
    ensures var all := Trimmed(undo + [s]);
            && TokensRise(all) && |all| <= MAX_UNDO
            && forall x :: x in all ==> x in undo || x == s
  {
    var all := undo + [s];
    assert forall i :: 0 <= i < |undo| ==> undo[i] in undo;
    forall x | x in Trimmed(all) ensures x in undo || x == s {
      assert x in all;
    }
  }

  lemma StartTidy(desk: Desk, offer: Offer, offers: set<Offer>, view: View)
    requires Tidy(desk)
    ensures Tidy(Followed(desk, offer, offers, view).1)
  {
    var row := Row(desk.follows, offer.work, Some(offer.language));
    if row.None? {
      assert forall g :: g in desk.follows ==> g !in Matching(desk.follows, offer.work, Some(offer.language));
    }
  }

  lemma UndoTidy(desk: Desk, token: nat)
    requires Tidy(desk)
    ensures Tidy(Undone(desk, token).1)
  {
    WithoutKeeps(desk.undo, token);
    var saved := Find(desk.undo, token);
    if saved.Some? {
      var f := saved.value.follow;
      assert forall g :: g in desk.follows && g !in Matching(desk.follows, f.work, Some(f.language))
                         ==> !SamePair(desk.follows[g], f);
    }
  }

  lemma ActTidy(desk: Desk, op: FollowOp, view: View)
    requires Tidy(desk)
    ensures Tidy(Act(desk, op, view))
  {
    hide Tidy;
    match op
    case Start(offer, offers) => StartTidy(desk, offer, offers, view);
    case Stop(work, language) => StopTidy(desk, work, language);
    case TakeBack(token) => UndoTidy(desk, token);
    case _ => RowActTidy(desk, op, view);
  }

  lemma RowActTidy(desk: Desk, op: FollowOp, view: View)
    requires Tidy(desk) && !op.Start? && !op.Stop? && !op.TakeBack?
    ensures Tidy(Act(desk, op, view))
  {
    hide CheckedRow, Tidy, AllSeen, ReleaseKeys, Distinct;
    var row := Row(desk.follows, op.work, op.language);
    if row.Some? {
      var f := row.value;
      var follow := desk.follows[f];
      TidyRow(desk, f);
      match op
      case Check(_, _) =>
        CheckedRowKeeps(follow, view, desk.clock);
        TidyUpdate(desk, f, CheckedRow(follow, view, desk.clock).1, desk.clock + 1);
      case Fail(_, _, category) =>
        TidyUpdate(desk, f, Attempt(follow, Some(category), desk.clock), desk.clock + 1);
      case SeeAll(_, _) =>
        SeenKeys(follow.releases);
        TidyUpdate(desk, f, follow.(releases := AllSeen(follow.releases)), desk.clock);
      case Move(_, _, source, track, offers) =>
        if Offer(op.work, follow.language, source, track) in offers {
          EmptyDistinct();
          TidyUpdate(desk, f, follow.(source := source, track := track, releases := [],
                                      baseline := BaselineFrom(SourceChange, view)), desk.clock + 1);
        }
    }
  }

  lemma TidyRow(desk: Desk, f: nat)
    requires Tidy(desk) && f in desk.follows
    ensures Distinct(ReleaseKeys(desk.follows[f].releases))
  {
  }

  lemma EmptyDistinct()
    ensures Distinct(ReleaseKeys([]))
  {
  }

  lemma {:induction false} AlwaysTidy(w: World, track: string, steps: seq<Step>)
    requires Tidy(w.desk)
    ensures Tidy(Run(w, track, steps).desk)
  {
    if steps != [] {
      hide Tidy, Act;
      var k := |steps| - 1;
      AlwaysTidy(w, track, steps[..k]);
      var before := Run(w, track, steps[..k]);
      if steps[k].OnDesk? {
        ActTidy(before.desk, steps[k].act, Looked(before, track, steps[k]));
      }
    }
  }

  // ---- One follow, left in place -----------------------------------------------------------------

  /** The operation neither ends the follow nor points it at another source. */
  ghost predicate Leaves(desk: Desk, op: FollowOp, f: nat)
    requires f in desk.follows
  {
    match op
    case Start(offer, offers) =>
      Row(desk.follows, offer.work, Some(offer.language)) == Some(f) && offer in offers ==>
        desk.follows[f].source == offer.source && desk.follows[f].track == offer.track
    case Stop(work, language) => Row(desk.follows, work, language) != Some(f)
    case Move(work, language, _, _, _) => Row(desk.follows, work, language) != Some(f)
    case _ => true
  }

  ghost predicate LeavesAlone(w: World, track: string, steps: seq<Step>, f: nat) {
    if steps == [] then f in w.desk.follows
    else
      var k := |steps| - 1;
      var before := Run(w, track, steps[..k]);
      && LeavesAlone(w, track, steps[..k], f)
      && f in before.desk.follows
      && (steps[k].OnDesk? ==> Leaves(before.desk, steps[k].act, f))
  }

  /** The check is about this follow, and finds a trusted catalog that is not in doubt. */
  ghost predicate Succeeds(desk: Desk, op: FollowOp, view: View, f: nat) {
    op.Check? && Row(desk.follows, op.work, op.language) == Some(f) && !view.candidate && view.trusted.Some?
  }

  /** The trusted catalogs that successful checks of the follow have looked at, in order. */
  ghost function Seen(w: World, track: string, steps: seq<Step>, f: nat): seq<set<string>> {
    if steps == [] then []
    else
      var k := |steps| - 1;
      var before := Run(w, track, steps[..k]);
      var s := steps[k];
      if s.OnDesk? && Succeeds(before.desk, s.act, Looked(before, track, s), f)
      then Seen(w, track, steps[..k], f) + [Elements(Looked(before, track, s).trusted.value)]
      else Seen(w, track, steps[..k], f)
  }

  function Union(sets: seq<set<string>>): set<string> {
    if sets == [] then {} else Union(sets[..|sets| - 1]) + sets[|sets| - 1]
  }

  /** What the follow has in its tables after it has seen these catalogs since it stood as `first`. */
  ghost predicate Reports(first: Follow, row: Follow, seen: seq<set<string>>) {
    && row.baseline == (if first.baseline.Some? then first.baseline
                        else if seen == [] then None else Some(Baseline(FirstFollow, seen[0])))
    && Distinct(ReleaseKeys(row.releases))
    && (row.baseline.None? ==> row.releases == [])
    && (row.baseline.Some? ==>
          Elements(ReleaseKeys(row.releases)) == Union(seen) - row.baseline.value.keys)
  }

  /** An operation that leaves the follow in place only touches its row when it checks it. */
  lemma LeftRow(desk: Desk, op: FollowOp, view: View, f: nat)
    requires Tidy(desk) && f in desk.follows && Leaves(desk, op, f)
    ensures var desk' := Act(desk, op, view);
            && f in desk'.follows
            && (Succeeds(desk, op, view, f) ==>
                  desk'.follows[f] == CheckedRow(desk.follows[f], view, desk.clock).1)
            && (!Succeeds(desk, op, view, f) ==>
                  && desk'.follows[f].baseline == desk.follows[f].baseline
                  && ReleaseKeys(desk'.follows[f].releases) == ReleaseKeys(desk.follows[f].releases))
            && desk'.follows[f].track == desk.follows[f].track
  {
    hide CheckedRow, AllSeen, ReleaseKeys;
    SeenKeys(desk.follows[f].releases);
    if op.Check? && Row(desk.follows, op.work, op.language) == Some(f) {
      CheckedRowTrack(desk.follows[f], view, desk.clock);
    }
  }

  lemma CheckedRowTrack(follow: Follow, view: View, now: nat)
    ensures var row := CheckedRow(follow, view, now).1;
            && row.track == follow.track
            && (view.candidate || view.trusted.None? ==>
                  row.baseline == follow.baseline && row.releases == follow.releases)
  {
  }

  lemma UnionAppend(sets: seq<set<string>>, s: set<string>)
    ensures Union(sets + [s]) == Union(sets) + s
  {
    assert (sets + [s])[..|sets|] == sets;
  }

  lemma CheckReports(first: Follow, row: Follow, seen: seq<set<string>>, view: View, now: nat)
    requires Reports(first, row, seen) && !view.candidate && view.trusted.Some?
    ensures Reports(first, CheckedRow(row, view, now).1, seen + [Elements(view.trusted.value)])
  {
    var catalog := Elements(view.trusted.value);
    UnionAppend(seen, catalog);
    if row.baseline.Some? {
      var keys := NewKeys(view.trusted.value, Known(row));
      AddedKeys(row.releases, view.units, keys, now);
    } else {
      assert ReleaseKeys(row.releases) == [] && Elements<string>([]) == {};
      assert seen == [] && Union(seen) == {};
    }
  }

  /**
   For a follow that is neither ended nor re-pointed, over every mixture of catalog operations, checks and
   operations on other follows: no key is reported twice, none of the baseline is reported, and what is
   reported is exactly the trusted catalogs its successful checks have seen, less the baseline. While the
   baseline is pending nothing is reported, and the first catalog seen becomes the baseline.
   */
  lemma {:induction false} ReportedExactly(w: World, track: string, steps: seq<Step>, f: nat)
    requires Tidy(w.desk) && LeavesAlone(w, track, steps, f)
    requires f in w.desk.follows && w.desk.follows[f].releases == []
    ensures f in Run(w, track, steps).desk.follows
    ensures Reports(w.desk.follows[f], Run(w, track, steps).desk.follows[f], Seen(w, track, steps, f))
  {
    if steps == [] {
      assert Elements<string>([]) == {};
    } else {
      hide Tidy, Act, Leaves, CheckedRow;
      var k := |steps| - 1;
      var before, s := Run(w, track, steps[..k]), steps[k];
      AlwaysTidy(w, track, steps[..k]);
      ReportedExactly(w, track, steps[..k], f);
      if s.OnDesk? {
        var view := Looked(before, track, s);
        LeftRow(before.desk, s.act, view, f);
        if Succeeds(before.desk, s.act, view, f) {
          CheckReports(w.desk.follows[f], before.desk.follows[f], Seen(w, track, steps[..k], f), view, before.desk.clock);
        } else {
          SameKeysReport(w.desk.follows[f], before.desk.follows[f], Run(w, track, steps).desk.follows[f],
                         Seen(w, track, steps, f));
        }
      }
    }
  }

  lemma SameKeysReport(first: Follow, a: Follow, b: Follow, seen: seq<set<string>>)
    requires Reports(first, a, seen) && a.baseline == b.baseline && ReleaseKeys(a.releases) == ReleaseKeys(b.releases)
    ensures Reports(first, b, seen)
  {
    if a.releases == [] { assert |ReleaseKeys(b.releases)| == 0; }
  }

  function NewsKeys(answer: CheckAnswer): seq<string> {
    if answer.NewReleases? then KeysOf(answer.news) else []
  }

  function KeysOf(news: seq<New>): (r: seq<string>)
    ensures |r| == |news| && forall i :: 0 <= i < |r| ==> r[i] == news[i].key
  {
    if news == [] then [] else KeysOf(news[..|news| - 1]) + [news[|news| - 1].key]
  }

  /**
   What the next check reports: a unit is reported exactly when the trusted catalog lists it, there is a
   baseline without it, and no earlier successful check saw it. So a unit that vanished and returned is never
   reported, and a check that finds a suspicious candidate, no trusted catalog or no baseline reports nothing.
   */
  lemma CheckReportsIff(w: World, track: string, steps: seq<Step>, f: nat, view: View, key: string)
    requires Tidy(w.desk) && LeavesAlone(w, track, steps, f)
    requires f in w.desk.follows && w.desk.follows[f].releases == []
    requires f in Run(w, track, steps).desk.follows
    ensures var row := Run(w, track, steps).desk.follows[f];
            var seen := Seen(w, track, steps, f);
            var first := w.desk.follows[f].baseline;
            key in NewsKeys(CheckedRow(row, view, Run(w, track, steps).desk.clock).0)
            <==> && !view.candidate && view.trusted.Some? && key in view.trusted.value
                 && (first.Some? || seen != [])
                 && (first.Some? ==> key !in first.value.keys)
                 && key !in Union(seen)
  {
    hide Tidy, Run, Seen, LeavesAlone, CheckedRow, Reports;
    ReportedExactly(w, track, steps, f);
    RowReportsIff(w.desk.follows[f], Run(w, track, steps).desk.follows[f], Seen(w, track, steps, f), view,
                  Run(w, track, steps).desk.clock, key);
  }

  lemma RowReportsIff(first: Follow, row: Follow, seen: seq<set<string>>, view: View, now: nat, key: string)
    requires Reports(first, row, seen)
    ensures key in NewsKeys(CheckedRow(row, view, now).0)
            <==> && !view.candidate && view.trusted.Some? && key in view.trusted.value
                 && (first.baseline.Some? || seen != [])
                 && (first.baseline.Some? ==> key !in first.baseline.value.keys)
                 && key !in Union(seen)
  {
    hide CheckedRow, NewsKeys;
    NewsExactly(row, view, now);
    if first.baseline.None? && seen != [] {
      FirstInUnion(seen);
    }
    assert key in NewsKeys(CheckedRow(row, view, now).0) <==> key in Elements(NewsKeys(CheckedRow(row, view, now).0));
    assert view.trusted.Some? ==> (key in view.trusted.value <==> key in Elements(view.trusted.value));
  }

  /** What one check reports, as a set. */
  lemma NewsExactly(follow: Follow, view: View, now: nat)
    ensures Elements(NewsKeys(CheckedRow(follow, view, now).0))
            == if view.candidate || view.trusted.None? || follow.baseline.None? then {}
               else Elements(view.trusted.value) - Known(follow)
  {
    var answer := CheckedRow(follow, view, now).0;
    if answer.NewReleases? {
      assert NewsKeys(answer) == NewKeys(view.trusted.value, Known(follow));
    } else {
      NoElements<string>();
    }
  }

  lemma {:induction false} FirstInUnion(sets: seq<set<string>>)
    requires sets != []
    ensures sets[0] <= Union(sets)
  {
    if |sets| > 1 {
      FirstInUnion(sets[..|sets| - 1]);
    }
  }
}
