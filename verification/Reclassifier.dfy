/** The repair itself: the object that plans it and rewrites the tables row by row. */
module Reclassifier {
  import opened Common
  import opened MergeState
  import opened MergeTrack
  import opened MergeRepair
  import opened Reclassify

  /** Until now, the assets in `done` were moved. */
  function PartlyMoved(assets: map<nat, Asset>, done: set<nat>, from: nat, to: nat): map<nat, Asset> {
    map a | a in assets :: if a in done then MovedAssets(assets, from, to)[a] else assets[a]
  }

  /** What was moved so far cannot make another asset of the unit clash. */
  lemma ClashesAlike(assets: map<nat, Asset>, done: set<nat>, from: nat, to: nat, x: nat)
    requires NoClash(assets) && OwnVariants(assets) && from != to && x in assets && assets[x].unit == from && x !in done
    ensures Clash(PartlyMoved(assets, done, from, to), to, assets[x].format, assets[x].variant)
            <==> Clash(assets, to, assets[x].format, assets[x].variant)
  {
    var now := PartlyMoved(assets, done, from, to);
    if Clash(assets, to, assets[x].format, assets[x].variant) {
      var a :| a in assets && assets[a].unit == to && assets[a].format == assets[x].format
               && assets[a].variant == assets[x].variant;
      assert now[a] == assets[a];
    }
    if Clash(now, to, assets[x].format, assets[x].variant) {
      var a :| a in now && now[a].unit == to && now[a].format == assets[x].format && now[a].variant == assets[x].variant;
      assert OwnVariant(assets[x].variant, x);
      if assets[a].unit == from {
        assert now[a].variant == assets[a].variant || now[a].variant == Merged(assets[a].variant, a);
        assert !SamePlace(assets[a], assets[x]);
      }
    }
  }

  lemma OnlyTwin(s: Shelf, track: nat, u: nat, t: nat)
    requires OneOfKey(s) && u in s.units && t in Twins(s, track, s.units[u].key)
    ensures TwinOf(s, track, u) == Some(t)
  {
  }

  lemma OnlyOther(follows: map<nat, FollowRow>, f: nat, kept: nat, language: string)
    requires OneFollowEach(follows) && f in follows && kept in FollowsOf(follows, follows[f].work, language) && kept != f
    ensures OtherFollow(follows, f, language) == Some(kept)
  {
    var other := OtherFollow(follows, f, language);
    assert other.Some? ==> SameFollowed(follows[other.value], follows[kept]);
  }

  lemma OnlySibling(tracks: Tracks, t: nat, s: nat, language: string)
    requires OneOfListing(tracks) && t in tracks && s in Siblings(tracks, t, language)
    ensures Siblings(tracks, t, language) == {s}
  {
    forall r | r in Siblings(tracks, t, language) ensures r == s {
      assert Alike(tracks[r], tracks[s]);
    }
  }

  class Repair {
    const defaults: Defaults
    var tracks: Tracks
    var works: Works
    var shelf: Shelf
    var trail: Trail

    constructor (defaults: Defaults, tracks: Tracks, works: Works, shelf: Shelf, trail: Trail)
      ensures this.defaults == defaults && this.tracks == tracks && this.works == works
      ensures this.shelf == shelf && this.trail == trail
    {
      this.defaults, this.tracks, this.works, this.shelf, this.trail := defaults, tracks, works, shelf, trail;
    }

    // ---- Units -----------------------------------------------------------------------------------

    method MoveAssets(from: nat, to: nat)
      requires NoClash(shelf.assets) && OwnVariants(shelf.assets) && from != to
      modifies this`shelf
      ensures shelf == old(shelf).(assets := MovedAssets(old(shelf).assets, from, to))
    {
      ghost var was := shelf.assets;
      ghost var done: set<nat> := {};
      var rest := set a | a in shelf.assets && shelf.assets[a].unit == from;
      var assets := shelf.assets;
      while rest != {}
        invariant rest == (set a | a in was && was[a].unit == from) - done && done <= was.Keys
        invariant assets == PartlyMoved(was, done, from, to) && shelf == old(shelf)
      {
        var a :| a in rest;
        ClashesAlike(was, done, from, to, a);
        var clash := Clash(assets, to, assets[a].format, assets[a].variant);
        var variant := if clash then Merged(assets[a].variant, a) else assets[a].variant;
        assets := assets[a := assets[a].(unit := to, variant := variant)];
        rest := rest - {a};
        done := done + {a};
      }
      assert assets == MovedAssets(was, from, to);
      shelf := shelf.(assets := assets);
    }

    method MoveProgress(from: nat, to: nat)
      requires from != to
      modifies this`shelf
      ensures shelf == old(shelf).(states := MovedStates(old(shelf).states, from, to))
    {
      if from !in shelf.states {
        return;
      }
      var theirs := shelf.states[from];
      if to !in shelf.states {
        shelf := shelf.(states := (shelf.states - {from})[to := theirs]);
        return;
      }
      var ours := shelf.states[to];
      if MoreAdvanced(theirs, ours) {
        ours := Reading(theirs.state, theirs.fraction, theirs.locator, ours.revision + 1);
      }
      shelf := shelf.(states := shelf.states[to := ours]);
      shelf := shelf.(states := shelf.states - {from});
      assert shelf.states == (old(shelf).states - {from})[to := ours];
    }

    method MergeUnit(from: nat, to: nat)
      requires Ruled(shelf) && from != to
      modifies this`shelf
      ensures shelf == MergedUnit(old(shelf), from, to)
    {
      MoveAssets(from, to);
      MoveProgress(from, to);
      shelf := shelf.(marks := MovedMarks(shelf.marks, from, to));
      shelf := shelf.(rows := MovedRows(shelf.rows, from, to));
      shelf := shelf.(overrides := MovedOverrides(shelf.overrides, from, to));
      shelf := shelf.(units := shelf.units - {from});
    }

    method Twin(track: nat, u: nat) returns (r: Option<nat>)
      requires OneOfKey(shelf) && u in shelf.units
      ensures r == TwinOf(shelf, track, u)
    {
      var found := Twins(shelf, track, shelf.units[u].key);
      if found == {} {
        return None;
      }
      ghost var _ := Member(found);
      var t :| t in found;
      OnlyTwin(shelf, track, u, t);
      r := Some(t);
    }

    /** The units of the old track, one after the other; `us` is the order in which they were merged. */
    method MergeUnits(from: nat, track: nat) returns (ghost us: seq<nat>)
      requires Ruled(shelf) && from != track
      modifies this`shelf
      ensures Distinct(us) && forall u :: u in us <==> u in old(shelf).units && old(shelf).units[u].track == from
      ensures shelf == MergedAll(old(shelf), us, track)
    {
      hide Ruled, MergedUnit;
      us := [];
      var rest := UnitsOf(shelf, from);
      while rest != {}
        invariant rest <= UnitsOf(old(shelf), from) && Distinct(us)
        invariant forall u :: u in us <==> u in UnitsOf(old(shelf), from) && u !in rest
        invariant shelf == MergedAll(old(shelf), us, track)
      {
        MergedAllAccount(old(shelf), us, from, track);
        AccountRules(old(shelf), shelf, Elements(us), track);
        var u :| u in rest;
        StillThere(old(shelf), shelf, us, from, track, u);
        var twin := Twin(track, u);
        if twin.Some? {
          assert twin.value in Twins(shelf, track, shelf.units[u].key);
          MergeUnit(u, twin.value);
        } else {
          shelf := shelf.(units := shelf.units[u := shelf.units[u].(track := track)]);
        }
        assert (us + [u])[..|us|] == us;
        DistinctAppend(us, u);
        us := us + [u];
        rest := rest - {u};
      }
    }

    // ---- Follows, snapshots and events -----------------------------------------------------------

    method MergeTrail(from: nat, to: nat, language: string) returns (follow: Option<nat>)
      requires from != to && OneFollowEach(trail.follows)
      modifies this`trail
      ensures if follow.Some? then follow.value in old(trail).follows && old(trail).follows[follow.value].track == from
              else forall f :: f in old(trail).follows ==> old(trail).follows[f].track != from
      ensures trail == MovedTrail(old(trail), follow, from, to, language)
    {
      hide JoinedEvents, MovedSnaps, Retracked, MovedOverrides, OneFollowEach;
      var found := set f | f in trail.follows && trail.follows[f].track == from;
      if found == {} {
        follow := None;
        assert forall f :: f in trail.follows ==> f !in found;
      } else {
        ghost var _ := Member(found);
        var f :| f in found;
        follow := Some(f);
        var others := FollowsOf(trail.follows, trail.follows[f].work, language) - {f};
        if others == {} {
          trail := FollowMoved(trail, f, to, language);
        } else {
          ghost var _ := Member(others);
          var kept :| kept in others;
          OnlyOther(trail.follows, f, kept, language);
          trail := trail.(events := JoinedEvents(trail.events, f, kept));
          trail := trail.(baselines := map b | b in trail.baselines && trail.baselines[b].follow != f :: trail.baselines[b]);
          trail := trail.(follows := trail.follows - {f});
        }
      }
      trail := trail.(snaps := MovedSnaps(trail.snaps, from, to));
      trail := trail.(baselines := map b | b in trail.baselines ::
                        if trail.baselines[b].track == from then trail.baselines[b].(track := to) else trail.baselines[b]);
      trail := trail.(events := Retracked(trail.events, from, to));
      trail := trail.(overrides := MovedOverrides(trail.overrides, from, to));
    }

    /** The foreign keys refuse it while a unit, a snapshot or a follow is on the track. */
    method DeleteTrack(track: nat) returns (ok: bool)
      modifies this`tracks
      ensures ok <==> UnitsOf(shelf, track) == {} && OnTrack(trail.follows, track) == {}
                      && forall s :: s in trail.snaps ==> trail.snaps[s].track != track
      ensures tracks == if ok then old(tracks) - {track} else old(tracks)
    {
      ok := && UnitsOf(shelf, track) == {}
            && OnTrack(trail.follows, track) == {}
            && forall s :: s in trail.snaps ==> trail.snaps[s].track != track;
      if ok {
        tracks := tracks - {track};
      }
    }

    /**
     The old track's units and everything on them, its trail, and then the track itself. It fails exactly when two
     follows are on that track; `homes` says where each unit's belongings are now.
     */
    method Merge(from: nat, to: nat, language: string) returns (ok: bool, ghost homes: Homes)
      requires Ruled(shelf) && from != to && OneFollowEach(trail.follows)
      modifies this`shelf, this`trail, this`tracks
      ensures Ruled(shelf) && OneFollowEach(trail.follows)
      ensures ok <==> |OnTrack(old(trail).follows, from)| <= 1
      ensures tracks == if ok then old(tracks) - {from} else old(tracks)
      ensures Conserved(old(shelf), shelf, homes) && UnitsOf(shelf, from) == {}
      ensures ok ==> OnTrack(trail.follows, from) == {}
      ensures forall t :: t != from && t != to ==> OnTrack(trail.follows, t) == OnTrack(old(trail).follows, t)
      ensures SameWorks(old(trail).follows, trail.follows)
    {
      hide Ruled, MovedTrail, OneFollowEach, OnTrack, Conserved;
      ghost var before := shelf;
      ghost var us := MergeUnits(from, to);
      TrackMerged(before, us, from, to);
      TrackConserved(before, us, from, to);
      homes := (u: nat) => Home(before, Elements(us), to, u);
      AccountRules(before, shelf, Elements(us), to);
      ghost var was := trail;
      var follow := MergeTrail(from, to, language);
      TakenIsOn(was.follows, follow, from);
      TrailMerged(was, follow, from, to, language);
      FollowsLeft(was, follow, from, to, language);
      ok := DeleteTrack(from);
    }

    /** Fails, without a change to the follows, exactly when two follows of one work are in each other's way. */
    method Relabel(track: nat, language: string) returns (ok: bool)
      requires track in tracks && OneFollowEach(trail.follows)
      modifies this`tracks, this`trail
      ensures tracks == old(tracks)[track := old(tracks)[track].(language := language)]
      ensures OneFollowEach(trail.follows)
      ensures ok <==> !RelabelClashes(old(trail).follows, track, language)
      ensures trail == if ok then old(trail).(follows := RelabelledFollows(old(trail).follows, track, language))
                       else old(trail)
    {
      RelabelledRuledIff(trail.follows, track, language);
      tracks := tracks[track := tracks[track].(language := language)];
      var follows := RelabelledFollows(trail.follows, track, language);
      ok := forall f, g :: f in follows && g in follows && SameFollowed(follows[f], follows[g]) ==> f == g;
      if ok {
        trail := trail.(follows := follows);
      }
    }

    // ---- Tracks and works ------------------------------------------------------------------------

    method ChangeOfTrack(t: nat) returns (c: Option<Change>)
      requires OneOfListing(tracks)
      ensures c == TrackChange(tracks, defaults, t)
    {
      if !Undetermined(tracks, t) {
        return None;
      }
      var language := LanguageOf(defaults, tracks[t].source);
      if language.None? {
        return None;
      }
      var siblings := Siblings(tracks, t, language.value);
      if siblings == {} {
        return Some(TrackLanguage(t, language.value));
      }
      ghost var _ := Member(siblings);
      var s :| s in siblings;
      OnlySibling(tracks, t, s, language.value);
      c := Some(TrackMerge(t, s, language.value));
    }

    method ChangeOfWork(w: nat) returns (c: Option<Change>)
      ensures c == WorkChange(tracks, works, defaults, w)
    {
      var kinds := Kinds(defaults, Sources(tracks, w));
      if !Untyped(works, w) || |kinds| != 1 {
        return None;
      }
      ghost var _ := Member(kinds);
      var kind :| kind in kinds;
      OneKind(kinds, kind);
      c := Some(WorkType(w, kind));
    }

    /** Everything is planned before anything is changed. */
    method Plan() returns (forTracks: map<nat, Change>, forWorks: map<nat, Change>)
      requires OneOfListing(tracks)
      ensures forTracks == (map t | t in tracks && TrackChange(tracks, defaults, t).Some? ::
                              TrackChange(tracks, defaults, t).value)
      ensures forWorks == (map w | w in works && WorkChange(tracks, works, defaults, w).Some? ::
                             WorkChange(tracks, works, defaults, w).value)
    {
      hide TrackChange, WorkChange;
      forTracks, forWorks := map[], map[];
      var rest := tracks.Keys;
      while rest != {}
        invariant rest <= tracks.Keys
        invariant forTracks == map t | t in tracks && t !in rest && TrackChange(tracks, defaults, t).Some? ::
                    TrackChange(tracks, defaults, t).value
      {
        var t :| t in rest;
        var c := ChangeOfTrack(t);
        if c.Some? {
          forTracks := forTracks[t := c.value];
        }
        rest := rest - {t};
      }
      var left := works.Keys;
      while left != {}
        invariant left <= works.Keys
        invariant forWorks == map w | w in works && w !in left && WorkChange(tracks, works, defaults, w).Some? ::
                    WorkChange(tracks, works, defaults, w).value
      {
        var w :| w in left;
        var c := ChangeOfWork(w);
        if c.Some? {
          forWorks := forWorks[w := c.value];
        }
        left := left - {w};
      }
    }

    method ApplyToTrack(t: nat, c: Change, ghost t0: Tracks) returns (ok: bool, ghost homes: Homes)
      requires TrackChange(t0, defaults, t) == Some(c)
      requires OneOfListing(t0)
      requires t in tracks && Ruled(shelf) && OneFollowEach(trail.follows)
      modifies this`shelf, this`trail, this`tracks
      ensures Ruled(shelf) && OneFollowEach(trail.follows) && Conserved(old(shelf), shelf, homes)
      ensures forall o :: o != t && TrackChange(t0, defaults, o).Some? ==>
                OnTrack(trail.follows, o) == OnTrack(old(trail).follows, o)
      ensures SameWorks(old(trail).follows, trail.follows)
      ensures c.TrackMerge? ==> (ok <==> |OnTrack(old(trail).follows, t)| <= 1)
      ensures !c.TrackMerge? && !ok ==> SameWorkTwice(old(trail).follows, t)
      ensures ok ==> tracks == if c.TrackMerge? then old(tracks) - {t}
                               else old(tracks)[t := old(tracks)[t].(language := c.to)]
    {
      hide Ruled, OneFollowEach, TrackChange, OnTrack, RelabelClashes, RelabelledFollows, SameWorks, Conserved;
      ChangeIsOf(t0, defaults, t);
      IntoUnchanged(t0, defaults, t);
      if c.TrackMerge? {
        ok, homes := Merge(c.from, c.into, c.to);
      } else {
        homes := Stay;
        NothingMoved(shelf);
        RelabelledTracks(trail.follows, c.track, c.to);
        ok := Relabel(c.track, c.to);
      }
    }

    /** Every planned change of a track, in some order, until one fails. */
    method ChangeTracks(changes: map<nat, Change>) returns (ok: bool, ghost homes: Homes)
      requires OneOfListing(tracks) && Ruled(shelf) && OneFollowEach(trail.follows)
      requires ArePlanned(tracks, defaults, changes)
      modifies this`shelf, this`trail, this`tracks
      ensures Ruled(shelf) && OneFollowEach(trail.follows) && Conserved(old(shelf), shelf, homes)
      ensures ok ==> tracks == AppliedTracks(old(tracks), defaults)
      ensures ok ==> !TwiceFollowed(old(tracks), defaults, old(trail).follows)
      ensures !ok ==> TwiceFollowed(old(tracks), defaults, old(trail).follows)
                      || RelabelDoubtful(old(tracks), defaults, old(trail).follows)
    {
      hide Ruled, TrackChange, OneFollowEach, OnTrack, SameWorks, Conserved, TwiceFollowed, RelabelDoubtful, Stage;
      hide SameWorkTwice, AppliedTracks, Onward;
      ghost var T0, S0, F0 := tracks, shelf, trail.follows;
      homes := Stay;
      NothingMoved(shelf);
      StageBegins(T0, F0, changes);
      var rest := changes.Keys;
      while rest != {}
        invariant rest <= changes.Keys && Ruled(shelf) && OneFollowEach(trail.follows)
        invariant Stage(T0, F0, tracks, trail.follows, changes, rest)
        invariant Conserved(S0, shelf, homes)
      {
        var t :| t in rest;
        StillATrack(T0, F0, tracks, trail.follows, defaults, changes, rest, t);
        ghost var mid, follows, now := shelf, trail.follows, tracks;
        ghost var moves;
        ok, moves := ApplyToTrack(t, changes[t], T0);
        ConservedThrough(S0, mid, shelf, homes, moves);
        homes := Onward(homes, moves);
        if !ok {
          StageFails(T0, F0, now, follows, defaults, changes, rest, t);
          return;
        }
        StageStep(T0, F0, now, follows, tracks, trail.follows, defaults, changes, rest, t);
        rest := rest - {t};
      }
      StageEnds(T0, F0, tracks, trail.follows, defaults, changes);
      ok := true;
    }

    /**
     The repair in one transaction: when a step fails, nothing is changed. It fails if two follows are on a track to be
     merged, and otherwise only if two follows of one work are on a track to be relabelled. Whatever it does, nothing
     that hangs on a unit is lost: `homes` says where it went.
     */
    method Apply() returns (answer: Repaired, ghost homes: Homes)
      requires OneOfListing(tracks) && Ruled(shelf) && OneFollowEach(trail.follows)
      modifies this
      ensures Ruled(shelf) && OneFollowEach(trail.follows) && Conserved(old(shelf), shelf, homes)
      ensures answer != Applied ==>
                tracks == old(tracks) && works == old(works) && shelf == old(shelf) && trail == old(trail)
      ensures answer != Failed ==> tracks == AppliedTracks(old(tracks), defaults)
      ensures answer != Failed ==> works == AppliedWorks(old(tracks), old(works), defaults)
      ensures TwiceFollowed(old(tracks), defaults, old(trail).follows) ==> answer == Failed
      ensures answer == Failed ==> TwiceFollowed(old(tracks), defaults, old(trail).follows)
                                   || RelabelDoubtful(old(tracks), defaults, old(trail).follows)
    {
      hide Ruled, WorkChange, TrackChange, OneFollowEach, Conserved, TwiceFollowed, RelabelDoubtful, AppliedTracks;
      hide AppliedWorks, OneOfListing;
      var forTracks, forWorks := Plan();
      ghost var T0, W0 := tracks, works;
      homes := Stay;
      NothingMoved(shelf);
      TwiceIsPlanned(T0, defaults, trail.follows, forTracks);
      if forTracks == map[] && forWorks == map[] {
        NoTrackChange(T0, defaults, forTracks);
        NoWorkChange(T0, W0, defaults, forWorks);
        return NothingToDo, homes;
      }
      var before := (tracks, shelf, trail);
      var ok;
      ghost var moves;
      ok, moves := ChangeTracks(forTracks);
      if !ok {
        tracks, shelf, trail := before.0, before.1, before.2;
        return Failed, homes;
      }
      works := map w | w in works :: if w in forWorks then Work(forWorks[w].to, "plugin_default") else works[w];
      WorksApplied(T0, W0, works, defaults, forWorks);
      return Applied, moves;
    }
  }

  datatype Repaired = NothingToDo | Applied | Failed

  /** A track to be merged has more than one follow. */
  ghost predicate TwiceFollowed(tracks: Tracks, defaults: Defaults, follows: map<nat, FollowRow>) {
    exists t :: TrackChange(tracks, defaults, t).Some? && TrackChange(tracks, defaults, t).value.TrackMerge?
                && |OnTrack(follows, t)| > 1
  }

  /** A track to be relabelled has two follows of one work. */
  ghost predicate RelabelDoubtful(tracks: Tracks, defaults: Defaults, follows: map<nat, FollowRow>) {
    exists t :: TrackChange(tracks, defaults, t).Some? && TrackChange(tracks, defaults, t).value.TrackLanguage?
                && SameWorkTwice(follows, t)
  }

  ghost predicate SameWorkTwice(follows: map<nat, FollowRow>, t: nat) {
    exists f, g :: f in OnTrack(follows, t) && g in OnTrack(follows, t) && f != g && follows[f].work == follows[g].work
  }

  /** The follows left are of the works they were of. */
  ghost predicate SameWorks(before: map<nat, FollowRow>, after: map<nat, FollowRow>) {
    forall f :: f in after ==> f in before && after[f].work == before[f].work
  }

  lemma TakenIsOn(follows: map<nat, FollowRow>, follow: Option<nat>, from: nat)
    requires if follow.Some? then follow.value in follows && follows[follow.value].track == from
             else forall f :: f in follows ==> follows[f].track != from
    ensures if follow.Some? then follow.value in OnTrack(follows, from) else OnTrack(follows, from) == {}
  {
  }

  /** Relabelling changes no follow's track or work; and if it cannot be done, two of one work are on the track. */
  lemma RelabelledTracks(follows: map<nat, FollowRow>, track: nat, language: string)
    ensures var after := RelabelledFollows(follows, track, language);
            SameWorks(follows, after) && forall o :: OnTrack(after, o) == OnTrack(follows, o)
    ensures SameWorks(follows, follows)
    ensures RelabelClashes(follows, track, language) ==> SameWorkTwice(follows, track)
  {
  }

  lemma TwiceIsPlanned(tracks: Tracks, defaults: Defaults, follows: map<nat, FollowRow>, changes: map<nat, Change>)
    requires changes == map t | t in tracks && TrackChange(tracks, defaults, t).Some? ::
                          TrackChange(tracks, defaults, t).value
    ensures TwiceFollowed(tracks, defaults, follows)
            <==> exists t :: t in changes && changes[t].TrackMerge? && |OnTrack(follows, t)| > 1
    ensures forall t :: t in changes <==> TrackChange(tracks, defaults, t).Some?
  {
    hide OnTrack;
    forall t | TrackChange(tracks, defaults, t).Some? ensures t in tracks {
    }
  }

  /** All planned changes but those of `rest` were made; the follows of each track in `rest` are those it always had. */
  ghost predicate Stage(
    before: Tracks, follows: map<nat, FollowRow>, now: Tracks, nowFollows: map<nat, FollowRow>,
    changes: map<nat, Change>, rest: set<nat>)
  {
    && rest <= changes.Keys
    && PartlyApplied(before, now, changes, rest)
    && SameWorks(follows, nowFollows)
    && (forall t :: t in rest ==> OnTrack(nowFollows, t) == OnTrack(follows, t))
    && (forall t :: t in changes.Keys - rest && changes[t].TrackMerge? ==> |OnTrack(follows, t)| <= 1)
  }

  ghost predicate ArePlanned(tracks: Tracks, defaults: Defaults, changes: map<nat, Change>) {
    changes == map t | t in tracks && TrackChange(tracks, defaults, t).Some? :: TrackChange(tracks, defaults, t).value
  }

  lemma StageBegins(tracks: Tracks, follows: map<nat, FollowRow>, changes: map<nat, Change>)
    ensures Stage(tracks, follows, tracks, follows, changes, changes.Keys)
  {
  }

  lemma StillATrack(
    before: Tracks, follows: map<nat, FollowRow>, now: Tracks, nowFollows: map<nat, FollowRow>, defaults: Defaults,
    changes: map<nat, Change>, rest: set<nat>, t: nat)
    requires Stage(before, follows, now, nowFollows, changes, rest) && t in rest
    requires ArePlanned(before, defaults, changes)
    ensures t in now && t in changes && TrackChange(before, defaults, t) == Some(changes[t])
  {
    hide TrackChange;
  }

  lemma StageStep(
    before: Tracks, follows: map<nat, FollowRow>, now: Tracks, nowFollows: map<nat, FollowRow>, after: Tracks,
    afterFollows: map<nat, FollowRow>, defaults: Defaults, changes: map<nat, Change>, rest: set<nat>, t: nat)
    requires Stage(before, follows, now, nowFollows, changes, rest) && t in rest
    requires ArePlanned(before, defaults, changes)
    requires t in now && t in changes
    requires after == if changes[t].TrackMerge? then now - {t} else now[t := now[t].(language := changes[t].to)]
    requires SameWorks(nowFollows, afterFollows) && (changes[t].TrackMerge? ==> |OnTrack(nowFollows, t)| <= 1)
    requires forall o :: o != t && TrackChange(before, defaults, o).Some? ==>
               OnTrack(afterFollows, o) == OnTrack(nowFollows, o)
    ensures Stage(before, follows, after, afterFollows, changes, rest - {t})
  {
    hide TrackChange, OnTrack;
    assert forall o :: o in rest ==> TrackChange(before, defaults, o).Some?;
  }

  /** A step that fails was doomed from the start. */
  lemma StageFails(
    before: Tracks, follows: map<nat, FollowRow>, now: Tracks, nowFollows: map<nat, FollowRow>, defaults: Defaults,
    changes: map<nat, Change>, rest: set<nat>, t: nat)
    requires Stage(before, follows, now, nowFollows, changes, rest) && t in rest && t in changes
    requires TrackChange(before, defaults, t) == Some(changes[t])
    requires if changes[t].TrackMerge? then |OnTrack(nowFollows, t)| > 1 else SameWorkTwice(nowFollows, t)
    ensures TwiceFollowed(before, defaults, follows) || RelabelDoubtful(before, defaults, follows)
  {
    ChangeIsOf(before, defaults, t);
    hide TrackChange;
    if !changes[t].TrackMerge? {
      var f, g :| f in OnTrack(nowFollows, t) && g in OnTrack(nowFollows, t) && f != g
                  && nowFollows[f].work == nowFollows[g].work;
      assert f in OnTrack(follows, t) && g in OnTrack(follows, t) && follows[f].work == follows[g].work;
    }
  }

  lemma StageEnds(
    before: Tracks, follows: map<nat, FollowRow>, now: Tracks, nowFollows: map<nat, FollowRow>, defaults: Defaults,
    changes: map<nat, Change>)
    requires Stage(before, follows, now, nowFollows, changes, {}) && ArePlanned(before, defaults, changes)
    ensures now == AppliedTracks(before, defaults) && !TwiceFollowed(before, defaults, follows)
  {
    hide TrackChange, OnTrack;
    TwiceIsPlanned(before, defaults, follows, changes);
    AllApplied(before, now, defaults, changes);
  }

  lemma AllApplied(before: Tracks, after: Tracks, defaults: Defaults, changes: map<nat, Change>)
    requires PartlyApplied(before, after, changes, {})
    requires changes == map t | t in before && TrackChange(before, defaults, t).Some? ::
                          TrackChange(before, defaults, t).value
    ensures after == AppliedTracks(before, defaults)
  {
    hide TrackChange;
    TracksApplied(before, after, defaults, changes);
  }

  /** All but the changes of the tracks in `rest` were made. */
  ghost predicate PartlyApplied(before: Tracks, after: Tracks, changes: map<nat, Change>, rest: set<nat>) {
    && (forall t :: t in after <==> t in before && (t in rest || t !in changes || !changes[t].TrackMerge?))
    && (forall t :: t in after ==>
          after[t] == if t in rest || t !in changes then before[t] else before[t].(language := changes[t].to))
  }

  lemma OneKind(kinds: set<string>, kind: string)
    requires |kinds| == 1 && kind in kinds
    ensures kinds == {kind}
  {
    if kinds != {kind} {
      var other := Member(kinds - {kind});
      assert {kind, other} <= kinds;
      SubsetSize({kind, other}, kinds);
    }
  }

  lemma AccountRules(s0: Shelf, s: Shelf, done: set<nat>, track: nat)
    requires Account(s0, s, done, track)
    ensures Ruled(s) && OneOfKey(s)
  {
  }

  /** A unit not merged yet is still where it was, and its twin is another unit. */
  lemma StillThere(s0: Shelf, s: Shelf, us: seq<nat>, from: nat, track: nat, u: nat)
    requires Ruled(s0) && from != track && Account(s0, s, Elements(us), track)
    requires forall v :: v in us ==> v in s0.units && s0.units[v].track == from
    requires u in s0.units && s0.units[u].track == from && u !in us
    ensures u in s.units && s.units[u].track == from
    ensures TwinOf(s, track, u).Some? ==> TwinOf(s, track, u).value != u
  {
    SameTwinRuled(s0, s, Elements(us), from, track, u);
  }

  lemma ChangeIsOf(tracks: Tracks, defaults: Defaults, t: nat)
    requires TrackChange(tracks, defaults, t).Some?
    ensures var c := TrackChange(tracks, defaults, t).value;
            && !c.WorkType?
            && (c.TrackMerge? ==> c.from == t && c.into != t)
            && (c.TrackLanguage? ==> c.track == t)
  {
  }

  /** A track that another is merged into is not itself changed. */
  lemma IntoUnchanged(tracks: Tracks, defaults: Defaults, t: nat)
    requires OneOfListing(tracks)
    requires TrackChange(tracks, defaults, t).Some?
    ensures var c := TrackChange(tracks, defaults, t).value;
            c.TrackMerge? ==> TrackChange(tracks, defaults, c.into) == None
  {
    var c := TrackChange(tracks, defaults, t).value;
    if c.TrackMerge? {
      assert c.into in Siblings(tracks, t, c.to);
      assert !Alike(tracks[t], tracks[c.into]);
    }
  }

  lemma NoTrackChange(tracks: Tracks, defaults: Defaults, changes: map<nat, Change>)
    requires changes == map t | t in tracks && TrackChange(tracks, defaults, t).Some? ::
                          TrackChange(tracks, defaults, t).value
    ensures changes == map[] ==> AppliedTracks(tracks, defaults) == tracks
  {
    hide TrackChange;
    if changes == map[] {
      forall t | t in tracks ensures TrackChange(tracks, defaults, t).None? {
        assert t !in changes;
      }
    }
  }

  lemma NoWorkChange(tracks: Tracks, works: Works, defaults: Defaults, changes: map<nat, Change>)
    requires changes == map w | w in works && WorkChange(tracks, works, defaults, w).Some? ::
                          WorkChange(tracks, works, defaults, w).value
    ensures changes == map[] ==> AppliedWorks(tracks, works, defaults) == works
  {
    hide WorkChange;
    if changes == map[] {
      forall w | w in works ensures WorkChange(tracks, works, defaults, w).None? {
        assert w !in changes;
      }
    }
  }

  lemma WorksApplied(tracks: Tracks, works: Works, after: Works, defaults: Defaults, changes: map<nat, Change>)
    requires changes == map w | w in works && WorkChange(tracks, works, defaults, w).Some? ::
                          WorkChange(tracks, works, defaults, w).value
    requires after == map w | w in works :: if w in changes then Work(changes[w].to, "plugin_default") else works[w]
    ensures after == AppliedWorks(tracks, works, defaults)
  {
    hide WorkChange;
  }

  lemma TracksApplied(tracks: Tracks, after: Tracks, defaults: Defaults, changes: map<nat, Change>)
    requires changes == map t | t in tracks && TrackChange(tracks, defaults, t).Some? ::
                          TrackChange(tracks, defaults, t).value
    requires forall t :: t in after <==> t in tracks && (t !in changes || !changes[t].TrackMerge?)
    requires forall t :: t in after ==> after[t] == if t !in changes then tracks[t] else tracks[t].(language := changes[t].to)
    ensures after == AppliedTracks(tracks, defaults)
  {
    hide TrackChange;
  }
}
