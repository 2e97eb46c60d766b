/** What following, moving, checking and undoing leave in the rows, said of the columns and of the catalogs shown. */
module FollowMoves {
  import opened Common
  import opened CatalogState
  import opened FollowState
  import opened FollowRuns
  import opened FollowEvidence

  // ---- The row an operation is about -------------------------------------------------------------

  predicate IsAbout(follow: Follow, work: string, language: Option<string>) {
    follow.work == work && (language.None? || follow.language == language.value)
  }

  /** The earliest follow of the work, or the one in the given language. */
  ghost predicate Earliest(follows: map<nat, Follow>, work: string, language: Option<string>, f: nat) {
    && f in follows && IsAbout(follows[f], work, language)
    && forall g :: g in follows && IsAbout(follows[g], work, language) ==> f <= g
  }

  lemma RowIsEarliest(follows: map<nat, Follow>, work: string, language: Option<string>)
    ensures var row := Row(follows, work, language);
            && (row.None? <==> forall f :: f in follows ==> !IsAbout(follows[f], work, language))
            && forall f: nat :: Earliest(follows, work, language, f) <==> row == Some(f)
  {
    var s := Matching(follows, work, language);
    assert forall f :: f in s <==> f in follows && IsAbout(follows[f], work, language);
  }

  /** Only the row of `f` may differ. */
  ghost predicate OnlyRow(before: Desk, after: Desk, f: nat) {
    && f in after.follows
    && after.follows.Keys == before.follows.Keys + {f}
    && (forall g :: g in before.follows && g != f ==> after.follows[g] == before.follows[g])
    && after.undo == before.undo
  }

  /** The baseline is the trusted catalog shown, and the answer counts its keys; without one both are empty. */
  ghost predicate Baselined(row: Follow, kind: Kind, view: View, answer: Receipt, f: nat) {
    match view.trusted
    case None => row.baseline == None && answer == Recorded(f, 0, None)
    case Some(keys) =>
      && row.baseline.Some? && row.baseline.value.kind == kind
      && (forall k :: k in row.baseline.value.keys <==> k in keys)
      && answer == Recorded(f, |keys|, Some(kind))
  }

  /** The answer about a follow that is there already counts its baseline; a pending one counts nothing. */
  ghost predicate Counted(row: Follow, answer: Receipt, f: nat) {
    match row.baseline
    case None => answer == Recorded(f, 0, None)
    case Some(b) => answer == Recorded(f, |b.keys|, Some(b.kind))
  }

  /** The next check of the row looks at the catalog of the track stored in it, and reports nothing. */
  ghost predicate NextCheckSilent(desk: Desk, f: nat, views: string -> View) {
    f in desk.follows
    && forall work, language :: Earliest(desk.follows, work, language, f) ==>
         !Checked(desk, work, language, views(desk.follows[f].track)).0.NewReleases?
  }

  lemma SilentRow(desk: Desk, f: nat, views: string -> View)
    requires f in desk.follows
    requires var row, view := desk.follows[f], views(desk.follows[f].track);
             view.trusted.Some? && row.baseline.Some? ==>
               forall k :: k in view.trusted.value ==> k in row.baseline.value.keys
    ensures NextCheckSilent(desk, f, views)
  {
    var row, view := desk.follows[f], views(desk.follows[f].track);
    NewsExactly(row, view, desk.clock);
    EmptyElements(NewsKeys(CheckedRow(row, view, desk.clock).0));
    forall work, language | Earliest(desk.follows, work, language, f)
      ensures !Checked(desk, work, language, view).0.NewReleases?
    {
      RowIsEarliest(desk.follows, work, language);
      SilentAnswer(row, view, desk.clock);
    }
  }

  lemma SilentAnswer(follow: Follow, view: View, now: nat)
    requires NewsKeys(CheckedRow(follow, view, now).0) == []
    ensures !CheckedRow(follow, view, now).0.NewReleases?
  {
  }

  // ---- Moving a follow ---------------------------------------------------------------------------

  /**
   Changing the preferred source is refused exactly when nobody follows or the track is not on offer, and then
   changes nothing. Else the row points at the new source and track, starts from that track's catalog without any
   event, and its next check, of the track it now points at, reports nothing; no other row changes.
   */
  lemma MoveMovesExactly(
    desk: Desk, work: string, language: Option<string>, source: string, track: string, offers: set<Offer>,
    views: string -> View)
    ensures var (answer, after) := SourceChanged(desk, work, language, source, track, offers, views(track));
            && (answer == Denied <==>
                  forall f :: Earliest(desk.follows, work, language, f) ==>
                    Offer(work, desk.follows[f].language, source, track) !in offers)
            && (answer == Denied ==> after == desk)
            && (answer != Denied ==>
                  && answer.Recorded? && Earliest(desk.follows, work, language, answer.id)
                  && OnlyRow(desk, after, answer.id)
                  && var row := after.follows[answer.id];
                     && row == desk.follows[answer.id].(
                          source := source, track := track, releases := [], baseline := row.baseline)
                     && Baselined(row, SourceChange, views(track), answer, answer.id)
                     && NextCheckSilent(after, answer.id, views))
  {
    RowIsEarliest(desk.follows, work, language);
    var (answer, after) := SourceChanged(desk, work, language, source, track, offers, views(track));
    if answer.Recorded? {
      hide Checked, Row;
      SilentRow(after, answer.id, views);
    }
  }

  /**
   Following is refused exactly when the track is not on offer. It makes a new row, or points the one of that work and
   language at the track; a follow already there stays as it is. A row made or pointed starts from the track's catalog.
   */
  lemma FollowPointsExactly(desk: Desk, offer: Offer, offers: set<Offer>, view: View)
    requires Tidy(desk)
    ensures var (answer, after) := Followed(desk, offer, offers, view);
            && (answer == Denied <==> offer !in offers)
            && (answer == Denied ==> after == desk)
            && (answer != Denied ==>
                  && answer.Recorded? && OnlyRow(desk, after, answer.id)
                  && var f := answer.id;
                     var row := after.follows[f];
                     && Earliest(after.follows, offer.work, Some(offer.language), f)
                     && row.work == offer.work && row.language == offer.language && SameTarget(row, offer)
                     && if f in desk.follows && SameTarget(desk.follows[f], offer) then
                          row == desk.follows[f] && Counted(row, answer, f)
                        else
                          && Baselined(row, FirstFollow, view, answer, f)
                          && if f in desk.follows then
                               row == desk.follows[f].(source := row.source, track := row.track, baseline := row.baseline)
                             else
                               && f == desk.nextId && row.releases == []
                               && row.attempted == None && row.succeeded == None && row.error == None)
  {
    if offer in offers {
      FreshId(desk);
      FollowedEarliest(desk, offer, offers, view);
      FollowedRow(desk, offer, offers, view);
      var (answer, after) := Followed(desk, offer, offers, view);
      assert IsAbout(after.follows[answer.id], offer.work, Some(offer.language));
    }
    hide Tidy, Earliest, Matching, OnlyRow, Baselined, Counted;
  }

  lemma FollowedRow(desk: Desk, offer: Offer, offers: set<Offer>, view: View)
    requires offer in offers && desk.nextId !in desk.follows
    ensures var (answer, after) := Followed(desk, offer, offers, view);
            && answer.Recorded? && OnlyRow(desk, after, answer.id)
            && var f := answer.id;
               var row := after.follows[f];
               && SameTarget(row, offer)
               && if f in desk.follows && SameTarget(desk.follows[f], offer) then
                    row == desk.follows[f] && Counted(row, answer, f)
                  else
                    && Baselined(row, FirstFollow, view, answer, f)
                    && if f in desk.follows then
                         row == desk.follows[f].(source := row.source, track := row.track, baseline := row.baseline)
                       else
                         && f == desk.nextId && row.releases == []
                         && row.attempted == None && row.succeeded == None && row.error == None
  {
    hide Row, Matching;
  }

  /** The next check of a row made or pointed by following, of the track it now points at, reports nothing. */
  lemma FollowedSilent(desk: Desk, offer: Offer, offers: set<Offer>, views: string -> View)
    requires Tidy(desk) && offer in offers
    ensures var (answer, after) := Followed(desk, offer, offers, views(offer.track));
            && answer.Recorded?
            && (!(answer.id in desk.follows && SameTarget(desk.follows[answer.id], offer)) ==>
                  NextCheckSilent(after, answer.id, views))
  {
    var (answer, after) := Followed(desk, offer, offers, views(offer.track));
    FollowPointsExactly(desk, offer, offers, views(offer.track));
    if !(answer.id in desk.follows && SameTarget(desk.follows[answer.id], offer)) {
      hide Tidy, Earliest, Followed;
      SilentRow(after, answer.id, views);
    }
  }

  predicate SameTarget(follow: Follow, offer: Offer) {
    follow.source == offer.source && follow.track == offer.track
  }

  lemma FollowedEarliest(desk: Desk, offer: Offer, offers: set<Offer>, view: View)
    requires Tidy(desk) && offer in offers
    ensures var (answer, after) := Followed(desk, offer, offers, view);
            answer.Recorded? && Earliest(after.follows, offer.work, Some(offer.language), answer.id)
  {
    RowIsEarliest(desk.follows, offer.work, Some(offer.language));
  }

  // ---- A follow that stays where it was pointed --------------------------------------------------

  /** A follow that nobody ends or points elsewhere keeps its target, and its checks look at that track. */
  lemma {:induction false} StaysOnTarget(w: World, track: string, steps: seq<Step>, f: nat)
    requires Tidy(w.desk) && LeavesAlone(w, track, steps, f) && f in w.desk.follows
    ensures var desk := Run(w, track, steps).desk;
            && f in desk.follows
            && desk.follows[f].source == w.desk.follows[f].source && desk.follows[f].track == w.desk.follows[f].track
            && forall work, language :: Earliest(desk.follows, work, language, f) ==>
                 Consulted(desk, Check(work, language)) == Some(w.desk.follows[f].track)
  {
    hide Act, Leaves, Earliest, Row, Tidy;
    if steps != [] {
      var k := |steps| - 1;
      var before := Run(w, track, steps[..k]);
      StaysOnTarget(w, track, steps[..k], f);
      AlwaysTidy(w, track, steps[..k]);
      if steps[k].OnDesk? {
        LeftTarget(before.desk, steps[k].act, Looked(before, track, steps[k]), f);
      }
    }
    var desk := Run(w, track, steps).desk;
    forall work, language | Earliest(desk.follows, work, language, f)
      ensures Consulted(desk, Check(work, language)) == Some(w.desk.follows[f].track)
    {
      RowIsEarliest(desk.follows, work, language);
    }
  }

  lemma LeftTarget(desk: Desk, op: FollowOp, view: View, f: nat)
    requires Tidy(desk) && f in desk.follows && Leaves(desk, op, f)
    ensures var desk' := Act(desk, op, view);
            f in desk'.follows && desk'.follows[f].source == desk.follows[f].source && desk'.follows[f].track == desk.follows[f].track
  {
    hide Tidy, CheckedRow, AllSeen, Find, Trimmed;
    LeftRow(desk, op, view, f);
    CheckedRowSource(desk.follows[f], view, desk.clock);
    assert desk.nextId !in desk.follows by { FreshId(desk); }
  }

  lemma FreshId(desk: Desk)
    requires Tidy(desk)
    ensures desk.nextId !in desk.follows
  {
  }

  lemma CheckedRowSource(follow: Follow, view: View, now: nat)
    ensures CheckedRow(follow, view, now).1.source == follow.source
  {
  }

  /**
   Over every history after a move: the events of the follow are exactly the keys of the catalogs its successful checks
   saw on the track it was moved to, less the catalog that track showed at the move.
   */
  lemma MovedReportsNewer(
    w: World, work: string, language: Option<string>, source: string, track: string, offers: set<Offer>,
    steps: seq<Step>, f: nat)
    requires Tidy(w.desk) && Earliest(w.desk.follows, work, language, f)
    requires Offer(work, w.desk.follows[f].language, source, track) in offers
    requires ViewOf(w.lib.track).trusted.Some?
    requires LeavesAlone(Next(w, track, Moving(work, language, source, track, offers)), track, steps, f)
    ensures var moved := Next(w, track, Moving(work, language, source, track, offers));
            var end := Run(moved, track, steps).desk;
            && f in end.follows && end.follows[f].source == source && end.follows[f].track == track
            && Elements(ReleaseKeys(end.follows[f].releases))
               == Union(Seen(moved, track, steps, f)) - Elements(ViewOf(w.lib.track).trusted.value)
  {
    var s := Moving(work, language, source, track, offers);
    var moved := Next(w, track, s);
    var view := ViewOf(w.lib.track);
    assert Looked(w, track, s) == view;
    MoveMovesExactly(w.desk, work, language, source, track, offers, t => view);
    RowIsEarliest(w.desk.follows, work, language);
    ActTidy(w.desk, s.act, view);
    hide Tidy, Act, SourceChanged, Run, Seen, LeavesAlone, Union;
    BaselineIs(moved.desk.follows[f], view, f);
    ReportedExactly(moved, track, steps, f);
    StaysOnTarget(moved, track, steps, f);
  }

  function Moving(work: string, language: Option<string>, source: string, track: string, offers: set<Offer>): Step {
    OnDesk(Move(work, language, source, track, offers), View(false, None, map[]))
  }

  lemma BaselineIs(row: Follow, view: View, f: nat)
    requires view.trusted.Some? && exists answer :: Baselined(row, SourceChange, view, answer, f)
    ensures row.baseline.Some? && row.baseline.value.keys == Elements(view.trusted.value)
  {
  }

  // ---- Checking ----------------------------------------------------------------------------------

  /** Each answer of a check has its own condition on what the catalog shows, and leaves its own mark on the row. */
  lemma CheckAnswersExactly(follow: Follow, view: View, now: nat)
    ensures var (answer, row) := CheckedRow(follow, view, now);
            && (answer == CatalogSuspicious <==> view.candidate)
            && (answer == Degraded <==> !view.candidate && view.trusted.None?)
            && (answer.NewReleases? <==>
                  && !view.candidate && view.trusted.Some? && follow.baseline.Some?
                  && exists k :: k in view.trusted.value && k !in follow.baseline.value.keys
                                 && k !in ReleaseKeys(follow.releases))
            && answer != NotFollowed
            && row.attempted == Some(now)
            && row.succeeded == (if view.candidate || view.trusted.None? then follow.succeeded else Some(now))
            && row.error == (if view.candidate then Some("catalog_suspicious")
                             else if view.trusted.None? then Some("no_trusted_catalog") else None)
  {
    NewsExactly(follow, view, now);
    var (answer, row) := CheckedRow(follow, view, now);
    if !view.candidate && view.trusted.Some? && follow.baseline.Some? {
      var keys := NewKeys(view.trusted.value, Known(follow));
      if keys != [] {
        assert keys[0] in Elements(keys);
      }
      forall k | k in view.trusted.value && k !in follow.baseline.value.keys && k !in ReleaseKeys(follow.releases)
        ensures k in keys
      {
        assert k in Elements(keys);
      }
    }
  }

  /** Every release named in an answer points at the reading unit of its key, with that unit's title and number. */
  lemma NewsPointAtUnits(follow: Follow, view: View, now: nat)
    ensures var answer := CheckedRow(follow, view, now).0;
            answer.NewReleases? ==>
              forall n :: n in answer.news ==>
                if n.key in view.units then
                  var u := view.units[n.key];
                  n.unit == Some(u.id) && n.title == Some(u.rawTitle) && n.number == Some(u.sourceNumber)
                else n.unit == None && n.title == None && n.number == None
  {
  }

  /** A check adds events behind the old ones: unseen, dated now, each pointing at the unit of its key. */
  lemma {:induction false} EventsAdded(releases: seq<Release>, units: Units, keys: seq<string>, now: nat)
    ensures var all := AllAdded(releases, units, keys, now);
            && |all| >= |releases| && all[..|releases|] == releases
            && forall i :: |releases| <= i < |all| ==>
                 all[i] == Release(all[i].key, if all[i].key in units then Some(units[all[i].key].id) else None, now, false)
  {
    if keys != [] {
      EventsAdded(releases, units, keys[..|keys| - 1], now);
    }
  }

  lemma CheckKeepsEvents(follow: Follow, view: View, now: nat)
    ensures var old_, all := follow.releases, CheckedRow(follow, view, now).1.releases;
            && |all| >= |old_| && all[..|old_|] == old_
            && forall i :: |old_| <= i < |all| ==>
                 && all[i].detectedAt == now && !all[i].seen
                 && all[i].unit == if all[i].key in view.units then Some(view.units[all[i].key].id) else None
  {
    if !view.candidate && view.trusted.Some? && follow.baseline.Some? {
      EventsAdded(follow.releases, view.units, NewKeys(view.trusted.value, Known(follow)), now);
    }
  }

  lemma {:induction false} UnseenZero(releases: seq<Release>)
    ensures Unseen(releases) == 0 <==> forall r :: r in releases ==> r.seen
    ensures Unseen(releases) <= |releases|
    ensures Unseen(releases) == |releases| <==> forall r :: r in releases ==> !r.seen
  {
    if releases != [] {
      var k := |releases| - 1;
      assert releases == releases[..k] + [releases[k]];
      UnseenZero(releases[..k]);
    }
  }

  lemma {:induction false} UnseenAdds(a: seq<Release>, b: seq<Release>)
    ensures Unseen(a + b) == Unseen(a) + Unseen(b)
  {
    if b == [] {
      assert a + b == a;
    } else {
      assert (a + b)[..|a + b| - 1] == a + b[..|b| - 1];
      UnseenAdds(a, b[..|b| - 1]);
    }
  }

  /** Marking counts the unseen events, changes only their mark, and leaves nothing to count a second time. */
  lemma SeenOnce(desk: Desk, work: string, language: Option<string>, f: nat)
    requires Earliest(desk.follows, work, language, f)
    ensures var (count, after) := MarkedSeen(desk, work, language);
            var old_ := desk.follows[f].releases;
            && OnlyRow(desk, after, f)
            && var all := after.follows[f].releases;
               && after.follows[f] == desk.follows[f].(releases := all)
               && |all| == |old_| && (forall i :: 0 <= i < |all| ==> all[i] == old_[i].(seen := true))
               && (count == 0 <==> forall r :: r in old_ ==> r.seen)
               && MarkedSeen(after, work, language).0 == 0
  {
    RowIsEarliest(desk.follows, work, language);
    var after := MarkedSeen(desk, work, language).1;
    assert after.follows[f] == desk.follows[f].(releases := AllSeen(desk.follows[f].releases));
    SameEarliest(desk.follows, after.follows, work, language, f);
    RowIsEarliest(after.follows, work, language);
    hide Earliest, Row, AllSeen;
    UnseenZero(desk.follows[f].releases);
    UnseenZero(after.follows[f].releases);
  }

  /** Replacing a row by one of the same work and language changes nobody's place. */
  lemma SameEarliest(follows: map<nat, Follow>, after: map<nat, Follow>, work: string, language: Option<string>, f: nat)
    requires Earliest(follows, work, language, f)
    requires f in after && after == follows[f := after[f]] && SamePair(after[f], follows[f])
    ensures Earliest(after, work, language, f)
  {
  }

  /** Where nobody follows the work, or not in that language, every operation on it says so and changes nothing. */
  lemma NobodyFollows(
    desk: Desk, work: string, language: Option<string>, source: string, track: string, offers: set<Offer>, view: View,
    category: Option<string>)
    requires forall f :: f in desk.follows ==> !IsAbout(desk.follows[f], work, language)
    ensures Unfollowed(desk, work, language) == (None, desk)
    ensures SourceChanged(desk, work, language, source, track, offers, view) == (Denied, desk)
    ensures Checked(desk, work, language, view) == (NotFollowed, desk)
    ensures Attempted(desk, work, language, category) == desk
    ensures MarkedSeen(desk, work, language) == (0, desk)
  {
    RowIsEarliest(desk.follows, work, language);
  }

  // ---- Undo --------------------------------------------------------------------------------------

  /** Unfollowing takes exactly that row and remembers it last; undoing at once brings back all but events and error. */
  lemma UndoBringsBack(desk: Desk, work: string, language: Option<string>, f: nat)
    requires Tidy(desk) && Earliest(desk.follows, work, language, f)
    ensures var (token, gone) := Unfollowed(desk, work, language);
            && token.Some? && gone.follows == desk.follows - {f}
            && gone.undo != [] && gone.undo[|gone.undo| - 1] == Kept(token.value, f, desk.follows[f])
            && var back := Undone(gone, token.value).1;
               && OnlyRow(desk.(undo := back.undo), back, f)
               && back.follows[f] == desk.follows[f].(error := None, releases := [])
  {
    RowIsEarliest(desk.follows, work, language);
    hide Tidy, Row, Without, Find;
    UndoRestoresIff(desk, work, language);
  }
}
