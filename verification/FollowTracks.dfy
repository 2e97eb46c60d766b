/** The follow service: the object that reads and rewrites the follow tables. */
module FollowTracks {
  import opened Common
  import opened CatalogState
  import opened CatalogTrust
  import opened Catalog
  import opened FollowState

  class FollowService {
    const catalog: Service
    var follows: map<nat, Follow>
    var undo: seq<Kept>
    var nextId: nat
    var clock: nat

    ghost function State(): Desk
      reads this
    {
      Desk(follows, undo, nextId, clock)
    }

    /** What the catalog says about a track right now. */
    ghost function Shows(track: string): View
      reads catalog`snapshots, catalog`units
    {
      ViewOf(Track(catalog.SnapsOf(track), catalog.UnitsOf(track)))
    }

    ghost predicate Dated(track: string)
      reads catalog`snapshots, catalog`clock
    {
      Timely(catalog.SnapsOf(track), catalog.clock + 1)
    }

    constructor (catalog: Service)
      ensures State() == Desk(map[], [], 0, 0) && this.catalog == catalog
    {
      this.catalog := catalog;
      follows, undo, nextId, clock := map[], [], 0, 0;
    }

    // ---- Rows ------------------------------------------------------------------------------------

    method RowOf(work: string, language: Option<string>) returns (r: Option<nat>)
      ensures r == Row(follows, work, language)
    {
      var all := Matching(follows, work, language);
      if all == {} {
        return None;
      }
      ghost var _ := Member(all);
      var least :| least in all;
      var rest := all - {least};
      while rest != {}
        invariant rest <= all && least in all
        invariant forall i :: i in all && i !in rest ==> least <= i
      {
        var f :| f in rest;
        if f < least {
          least := f;
        }
        rest := rest - {f};
      }
      assert IsLeast(all, least);
      r := Some(least);
    }

    method SetRow(f: nat, row: Follow)
      modifies this`follows
      ensures State() == old(State()).(follows := old(follows)[f := row])
    {
      follows := follows[f := row];
    }

    method Tick()
      modifies this`clock
      ensures State() == old(State()).(clock := old(clock) + 1)
    {
      clock := clock + 1;
    }

    /** `_baseline`: the trusted catalog becomes the baseline; without one the baseline is pending. */
    method SetBaseline(f: nat, kind: Kind) returns (count: nat, set_: Option<Kind>)
      requires f in follows && Dated(follows[f].track)
      modifies this`follows
      ensures var view := Shows(old(follows[f].track));
              && State() == old(State()).(
                   follows := old(follows)[f := old(follows[f]).(baseline := BaselineFrom(kind, view))])
              && Recorded(f, count, set_) == NewRecord(f, kind, view)
    {
      var trusted := catalog.TrustedCatalog(follows[f].track);
      follows := follows[f := follows[f].(baseline := None)];
      if trusted.None? {
        return 0, None;
      }
      follows := follows[f := follows[f].(baseline := Some(Baseline(kind, Elements(trusted.value))))];
      return |trusted.value|, Some(kind);
    }

    // ---- Lifecycle -------------------------------------------------------------------------------

    method FollowTrack(offer: Offer, offers: set<Offer>) returns (r: Receipt)
      requires Dated(offer.track)
      modifies this
      ensures (r, State()) == Followed(old(State()), offer, offers, Shows(offer.track))
    {
      if offer !in offers {
        return Denied;
      }
      var existing := RowOf(offer.work, Some(offer.language));
      Tick();
      if existing.None? {
        r := Insert(offer);
        return;
      }
      var f := existing.value;
      if follows[f].source == offer.source && follows[f].track == offer.track {
        return Record(f, follows[f]);
      }
      SetRow(f, follows[f].(source := offer.source, track := offer.track));
      var count, kind := SetBaseline(f, FirstFollow);
      assert follows == old(follows)[f := follows[f]];
      r := Recorded(f, count, kind);
    }

    method Insert(offer: Offer) returns (r: Receipt)
      requires Dated(offer.track)
      modifies this`follows, this`nextId
      ensures var view := Shows(offer.track);
              var f := old(nextId);
              var row := Follow(offer.work, offer.language, offer.source, offer.track, None, None, None,
                                BaselineFrom(FirstFollow, view), []);
              && State() == old(State()).(follows := old(follows)[f := row], nextId := f + 1)
              && r == NewRecord(f, FirstFollow, view)
    {
      var f := nextId;
      nextId := nextId + 1;
      SetRow(f, Follow(offer.work, offer.language, offer.source, offer.track, None, None, None, None, []));
      var count, kind := SetBaseline(f, FirstFollow);
      r := Recorded(f, count, kind);
    }

    method Unfollow(work: string, language: Option<string>) returns (token: Option<nat>)
      modifies this
      ensures (token, State()) == Unfollowed(old(State()), work, language)
    {
      var row := RowOf(work, language);
      if row.None? {
        return None;
      }
      var f := row.value;
      token := Some(nextId);
      undo := undo + [Kept(nextId, f, follows[f])];
      nextId := nextId + 1;
      ForgetOldest();
      follows := follows - {f};
      clock := clock + 1;
    }

    /** `popitem(last=False)` until 100 undos are left. */
    method ForgetOldest()
      modifies this`undo
      ensures undo == Trimmed(old(undo))
    {
      var kept := undo;
      ghost var dropped := 0;
      while |kept| > MAX_UNDO
        invariant dropped <= |undo| && kept == undo[dropped..]
        invariant dropped == 0 || |kept| >= MAX_UNDO
      {
        assert undo[dropped..][1..] == undo[dropped + 1..];
        kept := kept[1..];
        dropped := dropped + 1;
      }
      undo := kept;
    }

    method UndoUnfollow(token: nat) returns (r: Receipt)
      modifies this
      ensures (r, State()) == Undone(old(State()), token)
    {
      var saved := Find(undo, token);
      if saved.None? {
        return Denied;
      }
      undo := Without(undo, token);
      clock := clock + 1;
      var s := saved.value;
      if s.id in follows || Matching(follows, s.follow.work, Some(s.follow.language)) != {} {
        return Denied;
      }
      SetRow(s.id, Revived(s.follow));
      r := Record(s.id, Revived(s.follow));
    }

    method ChangePreferredSource(
      work: string, language: Option<string>, source: string, track: string, offers: set<Offer>) returns (r: Receipt)
      requires Dated(track)
      modifies this
      ensures (r, State()) == SourceChanged(old(State()), work, language, source, track, offers, Shows(track))
    {
      var row := RowOf(work, language);
      if row.None? || Offer(work, follows[row.value].language, source, track) !in offers {
        return Denied;
      }
      var f := row.value;
      SetRow(f, follows[f].(source := source, track := track, releases := []));
      var count, kind := SetBaseline(f, SourceChange);
      assert follows == old(follows)[f := follows[f]];
      Tick();
      r := Recorded(f, count, kind);
    }

    // ---- Checking --------------------------------------------------------------------------------

    method RecordAttempt(work: string, language: Option<string>, category: Option<string>)
      modifies this`follows, this`clock
      ensures State() == Attempted(old(State()), work, language, category)
    {
      var row := RowOf(work, language);
      if row.None? {
        return;
      }
      var f := row.value;
      SetRow(f, follows[f].(attempted := Some(clock)));
      if category.None? {
        SetRow(f, follows[f].(succeeded := Some(clock), error := None));
      } else {
        SetRow(f, follows[f].(error := category));
      }
      Tick();
    }

    method Check(work: string, language: Option<string>) returns (answer: CheckAnswer)
      requires OneEach(follows) && forall f :: f in follows ==> Dated(follows[f].track)
      modifies this`follows, this`clock
      ensures var row := Row(old(follows), work, language);
              var track := if row.None? then "" else old(follows)[row.value].track;
              (answer, State()) == Checked(old(State()), work, language, Shows(track))
    {
      hide NewKeys, News, AllAdded, Known, Latest, Matching, Timely;
      var row := RowOf(work, language);
      if row.None? {
        return NotFollowed;
      }
      var f := row.value;
      var track := follows[f].track;
      var candidate := catalog.SuspiciousCandidate(track);
      if candidate {
        Finish(f, Some("catalog_suspicious"));
        return CatalogSuspicious;
      }
      var trusted := catalog.TrustedCatalog(track);
      if trusted.None? {
        Finish(f, Some("no_trusted_catalog"));
        return Degraded;
      }
      if follows[f].baseline.None? {
        var _, _ := SetBaseline(f, FirstFollow);
        Finish(f, None);
        assert follows == old(follows)[f := follows[f]];
        return UpToDate;
      }
      var keys := NewKeys(trusted.value, Known(follows[f]));
      var units := catalog.UnitsOf(track);
      Report(f, units, keys);
      Finish(f, None);
      assert follows == old(follows)[f := follows[f]];
      answer := if keys == [] then UpToDate else NewReleases(News(units, keys));
    }

    /** The attempt is recorded by work and language, which finds the very row that was checked. */
    method Finish(f: nat, category: Option<string>)
      requires f in follows && OneEach(follows)
      modifies this`follows, this`clock
      ensures State() == old(State()).(
                follows := old(follows)[f := Attempt(old(follows[f]), category, old(clock))], clock := old(clock) + 1)
    {
      RowInItsLanguage(follows, f);
      RecordAttempt(follows[f].work, Some(follows[f].language), category);
    }

    method Report(f: nat, units: Units, keys: seq<string>)
      requires f in follows
      modifies this`follows
      ensures State() == old(State()).(
                follows := old(follows)[f :=
                  old(follows[f]).(releases := AllAdded(old(follows[f].releases), units, keys, clock))])
    {
      var releases := follows[f].releases;
      for i := 0 to |keys|
        invariant releases == AllAdded(old(follows[f].releases), units, keys[..i], clock)
        invariant follows == old(follows)
      {
        assert keys[..i + 1][..i] == keys[..i];
        releases := Added(releases, units, keys[i], clock);
      }
      assert keys[..|keys|] == keys;
      SetRow(f, follows[f].(releases := releases));
    }

    method MarkReleasesSeen(work: string, language: Option<string>) returns (count: nat)
      modifies this`follows
      ensures (count, State()) == MarkedSeen(old(State()), work, language)
    {
      var row := RowOf(work, language);
      if row.None? {
        return 0;
      }
      var f := row.value;
      count := Unseen(follows[f].releases);
      SetRow(f, follows[f].(releases := AllSeen(follows[f].releases)));
    }
  }
}
