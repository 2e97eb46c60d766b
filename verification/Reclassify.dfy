/**
 Repairing tracks and works that were stored without a language or a type: the plan, what applying it does,
 and the object that does it.
 */
module Reclassify {
  import opened Common
  import opened MergeState
  import opened MergeTrack

  const UNDETERMINED := "und"

  datatype Track = Track(work: nat, source: string, language: string, listing: Option<nat>, local: bool)

  datatype Work = Work(kind: string, from: string)

  /** What a source's active plugin declares; a plugin that cannot be loaded declares nothing. */
  datatype Default = Default(language: Option<string>, kind: Option<string>)

  type Tracks = map<nat, Track>
  type Works = map<nat, Work>
  type Defaults = map<string, Default>

  datatype Change =
    | WorkType(work: nat, to: string)
    | TrackLanguage(track: nat, to: string)
    | TrackMerge(from: nat, into: nat, to: string)

  // ---- The plan ----------------------------------------------------------------------------------

  function LanguageOf(defaults: Defaults, source: string): Option<string> {
    if source in defaults && defaults[source].language.Some? && defaults[source].language.value != ""
    then defaults[source].language else None
  }

  /** The other tracks of the listing in that language; the table allows one. */
  function Siblings(tracks: Tracks, t: nat, language: string): set<nat>
    requires t in tracks
  {
    set s | s in tracks && s != t && tracks[t].listing.Some? && tracks[s].listing == tracks[t].listing
            && tracks[s].language == language
  }

  predicate Undetermined(tracks: Tracks, t: nat) {
    t in tracks && tracks[t].language == UNDETERMINED && !tracks[t].local
  }

  ghost function TrackChange(tracks: Tracks, defaults: Defaults, t: nat): Option<Change> {
    if !Undetermined(tracks, t) || LanguageOf(defaults, tracks[t].source).None? then None
    else
      var language := LanguageOf(defaults, tracks[t].source).value;
      var siblings := Siblings(tracks, t, language);
      if siblings == {} then Some(TrackLanguage(t, language))
      else
        var s :| s in siblings;
        Some(TrackMerge(t, s, language))
  }

  function Sources(tracks: Tracks, w: nat): set<string> {
    set t | t in tracks && tracks[t].work == w && !tracks[t].local :: tracks[t].source
  }

  function Kinds(defaults: Defaults, sources: set<string>): set<string> {
    set s | s in sources && s in defaults && defaults[s].kind.Some? :: defaults[s].kind.value
  }

  function Untyped(works: Works, w: nat): bool {
    w in works && works[w] == Work("unknown", "unknown")
  }

  ghost function WorkChange(tracks: Tracks, works: Works, defaults: Defaults, w: nat): Option<Change> {
    var kinds := Kinds(defaults, Sources(tracks, w));
    if !Untyped(works, w) || |kinds| != 1 then None
    else
      var kind :| kind in kinds;
      Some(WorkType(w, kind))
  }

  ghost predicate NothingPlanned(tracks: Tracks, works: Works, defaults: Defaults) {
    && (forall t :: TrackChange(tracks, defaults, t) == None)
    && (forall w :: WorkChange(tracks, works, defaults, w) == None)
  }

  /** A track that is not local has no language, and its source declares one. */
  predicate Relabels(tracks: Tracks, defaults: Defaults, t: nat, language: string) {
    && t in tracks && tracks[t].language == "und" && !tracks[t].local
    && language != "" && tracks[t].source in defaults && defaults[tracks[t].source].language == Some(language)
  }

  /** Another track of the listing, already in the language. */
  predicate Already(tracks: Tracks, t: nat, other: nat, language: string) {
    && t in tracks && other in tracks && other != t && tracks[t].listing.Some?
    && tracks[other].listing == tracks[t].listing && tracks[other].language == language
  }

  /** A track is planned for just if it is to be relabelled, and merged just if its listing has the language already. */
  lemma TrackPlannedExactly(tracks: Tracks, defaults: Defaults, t: nat)
    ensures match TrackChange(tracks, defaults, t)
            case None => forall language :: !Relabels(tracks, defaults, t, language)
            case Some(WorkType(_, _)) => false
            case Some(TrackLanguage(track, to)) =>
              track == t && Relabels(tracks, defaults, t, to) && forall o :: !Already(tracks, t, o, to)
            case Some(TrackMerge(from, into, to)) =>
              from == t && Relabels(tracks, defaults, t, to) && Already(tracks, t, into, to)
  {
    if TrackChange(tracks, defaults, t).Some? {
      var to := TrackChange(tracks, defaults, t).value.to;
      forall o ensures Already(tracks, t, o, to) <==> o in Siblings(tracks, t, to) {}
    }
  }

  /** The source of some track of the work that is not local declares this type. */
  ghost predicate Declared(tracks: Tracks, defaults: Defaults, w: nat, kind: string) {
    exists t :: t in tracks && tracks[t].work == w && !tracks[t].local
                && tracks[t].source in defaults && defaults[tracks[t].source].kind == Some(kind)
  }

  /** A work is given a type just if it has none and all its sources that declare one agree on that. */
  lemma WorkPlannedExactly(tracks: Tracks, works: Works, defaults: Defaults, w: nat)
    ensures forall kind ::
              WorkChange(tracks, works, defaults, w) == Some(WorkType(w, kind))
              <==> && w in works && works[w] == Work("unknown", "unknown") && Declared(tracks, defaults, w, kind)
                   && forall other :: Declared(tracks, defaults, w, other) ==> other == kind
    ensures var c := WorkChange(tracks, works, defaults, w); c.Some? ==> c.value.WorkType? && c.value.work == w
  {
    var kinds := Kinds(defaults, Sources(tracks, w));
    forall kind ensures kind in kinds <==> Declared(tracks, defaults, w, kind) {
      if kind in kinds {
        var s :| s in Sources(tracks, w) && s in defaults && defaults[s].kind.Some? && defaults[s].kind.value == kind;
        var t :| t in tracks && tracks[t].work == w && !tracks[t].local && tracks[t].source == s;
        assert defaults[tracks[t].source].kind == Some(kind);
      }
      if Declared(tracks, defaults, w, kind) {
        var t :| t in tracks && tracks[t].work == w && !tracks[t].local
                 && tracks[t].source in defaults && defaults[tracks[t].source].kind == Some(kind);
        assert tracks[t].source in Sources(tracks, w);
      }
    }
    forall kind ensures |kinds| == 1 && kind in kinds <==> kind in kinds && forall other :: other in kinds ==> other == kind {
      OnlyElement(kinds, kind);
    }
  }

  lemma OnlyElement<T>(s: set<T>, x: T)
    ensures |s| == 1 && x in s <==> x in s && forall y :: y in s ==> y == x
  {
    if x in s {
      if |s| == 1 && s != {x} {
        var y := Member(s - {x});
        assert {x, y} <= s;
        SubsetSize({x, y}, s);
      }
      if forall y :: y in s ==> y == x { assert s == {x}; }
    }
  }

  // ---- Applying it -------------------------------------------------------------------------------

  ghost function AppliedTracks(tracks: Tracks, defaults: Defaults): Tracks {
    map t | t in tracks && !(TrackChange(tracks, defaults, t).Some? && TrackChange(tracks, defaults, t).value.TrackMerge?) ::
      if TrackChange(tracks, defaults, t).Some? then tracks[t].(language := TrackChange(tracks, defaults, t).value.to)
      else tracks[t]
  }

  ghost function AppliedWorks(tracks: Tracks, works: Works, defaults: Defaults): Works {
    map w | w in works ::
      var c := WorkChange(tracks, works, defaults, w);
      if c.Some? then Work(c.value.to, "plugin_default") else works[w]
  }

  /** All tracks of a listing are of one work and one source. */
  ghost predicate ListingsAgree(tracks: Tracks) {
    forall s, t :: s in tracks && t in tracks && tracks[s].listing.Some? && tracks[s].listing == tracks[t].listing ==>
      tracks[s].work == tracks[t].work && tracks[s].source == tracks[t].source && tracks[s].local == tracks[t].local
  }

  /** The table allows one track for each listing and language. */
  ghost predicate OneOfListing(tracks: Tracks) {
    forall s, t :: s in tracks && t in tracks && Alike(tracks[s], tracks[t]) ==> s == t
  }

  predicate Alike(a: Track, b: Track) {
    a.listing.Some? && a.listing == b.listing && a.language == b.language
  }

  /** Some source declares, as its language, that it has none. */
  predicate DeclaresUndetermined(tracks: Tracks, defaults: Defaults) {
    exists t :: t in tracks && Undetermined(tracks, t) && LanguageOf(defaults, tracks[t].source) == Some(UNDETERMINED)
  }

  lemma SourcesStay(tracks: Tracks, defaults: Defaults, w: nat)
    requires ListingsAgree(tracks) && OneOfListing(tracks)
    ensures Sources(AppliedTracks(tracks, defaults), w) == Sources(tracks, w)
  {
    var after := AppliedTracks(tracks, defaults);
    forall s | s in Sources(tracks, w) ensures s in Sources(after, w) {
      var t :| t in tracks && tracks[t].work == w && !tracks[t].local && tracks[t].source == s;
      var c := TrackChange(tracks, defaults, t);
      if c.Some? && c.value.TrackMerge? {
        SiblingStays(tracks, defaults, t);
        assert after[c.value.into].source == s;
      } else {
        assert after[t].source == s;
      }
    }
  }

  /** The track merged into is not itself changed. */
  lemma SiblingStays(tracks: Tracks, defaults: Defaults, t: nat)
    requires ListingsAgree(tracks) && OneOfListing(tracks)
    requires TrackChange(tracks, defaults, t).Some? && TrackChange(tracks, defaults, t).value.TrackMerge?
    ensures var into := TrackChange(tracks, defaults, t).value.into;
            && into in AppliedTracks(tracks, defaults) && into != t
            && AppliedTracks(tracks, defaults)[into].work == tracks[t].work
            && AppliedTracks(tracks, defaults)[into].source == tracks[t].source
            && AppliedTracks(tracks, defaults)[into].local == tracks[t].local
  {
    var c := TrackChange(tracks, defaults, t).value;
    assert c.into in Siblings(tracks, t, c.to);
  }

  /**
   Applying the plan leaves nothing planned, exactly when no source declares the undetermined language as
   its own: such a track is relabelled to what it was, again and again.
   */
  lemma NothingLeftIff(tracks: Tracks, works: Works, defaults: Defaults)
    requires ListingsAgree(tracks) && OneOfListing(tracks)
    ensures NothingPlanned(AppliedTracks(tracks, defaults), AppliedWorks(tracks, works, defaults), defaults)
            <==> !DeclaresUndetermined(tracks, defaults)
  {
    var tracks', works' := AppliedTracks(tracks, defaults), AppliedWorks(tracks, works, defaults);
    forall w ensures WorkChange(tracks', works', defaults, w) == None {
      SourcesStay(tracks, defaults, w);
      WorkChangeOnce(tracks, tracks', works, defaults, w);
    }
    if DeclaresUndetermined(tracks, defaults) {
      var t :| t in tracks && Undetermined(tracks, t) && LanguageOf(defaults, tracks[t].source) == Some(UNDETERMINED);
      RelabelledForNothing(tracks, defaults, t);
      assert TrackChange(tracks', defaults, t) != None;
    } else {
      forall t ensures TrackChange(tracks', defaults, t) == None {
        if Undetermined(tracks', t) {
          assert Undetermined(tracks, t);
        }
      }
    }
  }

  lemma WorkChangeOnce(tracks: Tracks, tracks': Tracks, works: Works, defaults: Defaults, w: nat)
    requires Sources(tracks', w) == Sources(tracks, w)
    ensures WorkChange(tracks', AppliedWorks(tracks, works, defaults), defaults, w) == None
  {
  }

  lemma RelabelledForNothing(tracks: Tracks, defaults: Defaults, t: nat)
    requires OneOfListing(tracks) && Undetermined(tracks, t) && LanguageOf(defaults, tracks[t].source) == Some(UNDETERMINED)
    ensures TrackChange(tracks, defaults, t) == Some(TrackLanguage(t, UNDETERMINED))
    ensures var after := AppliedTracks(tracks, defaults);
            t in after && after[t] == tracks[t] && TrackChange(after, defaults, t) != None
  {
    assert Siblings(tracks, t, UNDETERMINED) == {};
  }

  /** A repair never unsettles the table: one track for each listing and language, and listings still agree. */
  lemma AppliedRuled(tracks: Tracks, defaults: Defaults)
    requires ListingsAgree(tracks) && OneOfListing(tracks)
    ensures ListingsAgree(AppliedTracks(tracks, defaults)) && OneOfListing(AppliedTracks(tracks, defaults))
  {
    var after := AppliedTracks(tracks, defaults);
    forall s, t | s in after && t in after && Alike(after[s], after[t]) ensures s == t {
      if s != t {
        ChangedAlone(tracks, defaults, s, t);
        ChangedAlone(tracks, defaults, t, s);
      }
    }
  }

  lemma ChangedAlone(tracks: Tracks, defaults: Defaults, s: nat, t: nat)
    requires ListingsAgree(tracks) && OneOfListing(tracks) && s in tracks && t in tracks && s != t
    requires tracks[s].listing.Some? && tracks[s].listing == tracks[t].listing
    ensures TrackChange(tracks, defaults, s).Some? && TrackChange(tracks, defaults, s).value.TrackLanguage? ==>
              TrackChange(tracks, defaults, s).value.to != tracks[t].language && TrackChange(tracks, defaults, t) == None
  {
    var language := LanguageOf(defaults, tracks[s].source);
    if language.Some? {
      assert tracks[t].language == language.value <==> t in Siblings(tracks, s, language.value);
    }
    assert !Alike(tracks[s], tracks[t]);
  }

  // ---- What hangs on a track ---------------------------------------------------------------------

  datatype SnapTrust = Current | Previous | Suspicious | Incomplete

  datatype Snap = Snap(track: nat, trust: SnapTrust)
  datatype FollowRow = FollowRow(work: nat, language: string, track: nat)
  datatype EventRow = EventRow(follow: nat, key: string, track: nat)
  datatype BaselineRow = BaselineRow(follow: nat, track: nat)

  datatype Trail = Trail(
    snaps: map<nat, Snap>, follows: map<nat, FollowRow>, events: map<nat, EventRow>, baselines: map<nat, BaselineRow>,
    overrides: map<(nat, string), string>)

  function MovedSnaps(snaps: map<nat, Snap>, from: nat, to: nat): map<nat, Snap> {
    if exists s :: s in snaps && IsCurrent(snaps[s], to)
    then map s | s in snaps && snaps[s].track != from :: snaps[s]
    else map s | s in snaps :: if snaps[s].track == from then snaps[s].(track := to) else snaps[s]
  }

  predicate Reported(events: map<nat, EventRow>, follow: nat, key: string) {
    exists e :: e in events && events[e].follow == follow && events[e].key == key
  }

  /** The other follow's events join the one kept, unless it has that key already. */
  function JoinedEvents(events: map<nat, EventRow>, from: nat, to: nat): map<nat, EventRow> {
    map e | e in events && (events[e].follow == from ==> !Reported(events, to, events[e].key)) ::
      if events[e].follow == from then events[e].(follow := to) else events[e]
  }

  /** The follows of a work in a language; the table allows one. */
  function FollowsOf(follows: map<nat, FollowRow>, work: nat, language: string): set<nat> {
    set f | f in follows && follows[f].work == work && follows[f].language == language
  }

  ghost predicate OneFollowEach(follows: map<nat, FollowRow>) {
    forall f, g :: f in follows && g in follows && SameFollowed(follows[f], follows[g]) ==> f == g
  }

  predicate SameFollowed(a: FollowRow, b: FollowRow) {
    a.work == b.work && a.language == b.language
  }

  function Retracked(events: map<nat, EventRow>, from: nat, to: nat): map<nat, EventRow> {
    map e | e in events :: if events[e].track == from then events[e].(track := to) else events[e]
  }

  /** The follow moves to the surviving track. */
  function FollowMoved(t: Trail, f: nat, to: nat, language: string): Trail
    requires f in t.follows
  {
    t.(follows := t.follows[f := t.follows[f].(track := to, language := language)])
  }

  /** The follow goes; its events join another's. */
  function FollowJoined(t: Trail, f: nat, kept: nat): Trail {
    t.(follows := t.follows - {f}, events := JoinedEvents(t.events, f, kept),
       baselines := map b | b in t.baselines && t.baselines[b].follow != f :: t.baselines[b])
  }

  function Repointed(t: Trail, from: nat, to: nat): Trail {
    Trail(MovedSnaps(t.snaps, from, to), t.follows, Retracked(t.events, from, to),
          map b | b in t.baselines :: if t.baselines[b].track == from then t.baselines[b].(track := to) else t.baselines[b],
          MovedOverrides(t.overrides, from, to))
  }

  /** The follow the work already has in that language, if it is not this one. */
  ghost function OtherFollow(follows: map<nat, FollowRow>, f: nat, language: string): (r: Option<nat>)
    requires f in follows
    ensures r.Some? ==> r.value in FollowsOf(follows, follows[f].work, language) && r.value != f
    ensures r.None? ==> FollowsOf(follows, follows[f].work, language) <= {f}
  {
    var others := FollowsOf(follows, follows[f].work, language) - {f};
    if others == {} then None
    else
      var kept :| kept in others;
      Some(kept)
  }

  /** The follow of the removed track moves, or joins the follow the work already has in that language. */
  ghost function MovedTrail(t: Trail, follow: Option<nat>, from: nat, to: nat, language: string): Trail
    requires follow.Some? ==> follow.value in t.follows
  {
    if follow.None? then Repointed(t, from, to)
    else
      var kept := OtherFollow(t.follows, follow.value, language);
      Repointed(if kept.None? then FollowMoved(t, follow.value, to, language) else FollowJoined(t, follow.value, kept.value),
                from, to)
  }

  predicate IsCurrent(s: Snap, track: nat) {
    s.track == track && s.trust == Current
  }

  function Labelled(snaps: map<nat, Snap>, track: nat, trust: SnapTrust): set<nat> {
    set s | s in snaps && snaps[s].track == track && snaps[s].trust == trust
  }

  /**
   What the surviving track has of each kind of snapshot: its own if it has a trusted catalog, and otherwise its own
   and the other's, which nothing prunes; and nothing is left on the old track. So a trusted catalog is kept if either
   had one, and there is still at most one.
   */
  lemma SnapsMerged(snaps: map<nat, Snap>, from: nat, to: nat, trust: SnapTrust)
    requires from != to
    ensures var after := MovedSnaps(snaps, from, to);
            var trusted := Labelled(snaps, to, Current) != {};
            && Labelled(after, to, trust)
               == Labelled(snaps, to, trust) + (if trusted then {} else Labelled(snaps, from, trust))
            && |Labelled(after, to, trust)|
               == |Labelled(snaps, to, trust)| + (if trusted then 0 else |Labelled(snaps, from, trust)|)
            && Labelled(after, from, trust) == {}
  {
    hide Labelled, MovedSnaps;
    MovedSets(snaps, from, to, trust);
    ApartSets(snaps, from, to, trust);
    if Labelled(snaps, to, Current) == {} {
      DisjointSum(Labelled(snaps, to, trust), Labelled(snaps, from, trust));
    } else {
      assert Labelled(snaps, to, trust) + {} == Labelled(snaps, to, trust);
    }
  }

  lemma MovedSets(snaps: map<nat, Snap>, from: nat, to: nat, trust: SnapTrust)
    requires from != to
    ensures var after := MovedSnaps(snaps, from, to);
            && Labelled(after, from, trust) == {}
            && Labelled(after, to, trust)
               == Labelled(snaps, to, trust)
                  + (if Labelled(snaps, to, Current) != {} then {} else Labelled(snaps, from, trust))
  {
    var after := MovedSnaps(snaps, from, to);
    if s :| s in snaps && IsCurrent(snaps[s], to) {
      assert s in Labelled(snaps, to, Current);
      assert Labelled(after, to, trust) == Labelled(snaps, to, trust);
    } else {
      assert Labelled(snaps, to, Current) == {};
      assert Labelled(after, to, trust) == Labelled(snaps, to, trust) + Labelled(snaps, from, trust);
    }
  }

  lemma ApartSets(snaps: map<nat, Snap>, from: nat, to: nat, trust: SnapTrust)
    requires from != to
    ensures Labelled(snaps, to, trust) !! Labelled(snaps, from, trust)
  {
  }

  lemma DisjointSum(a: set<nat>, b: set<nat>)
    requires a !! b
    ensures |a + b| == |a| + |b|
  {
  }

  /** A bound that the surviving track keeps holds after exactly if it has a trusted catalog, or both together keep it. */
  lemma SnapsWithinIff(snaps: map<nat, Snap>, from: nat, to: nat, trust: SnapTrust, bound: nat)
    requires from != to && |Labelled(snaps, to, trust)| <= bound
    ensures |Labelled(MovedSnaps(snaps, from, to), to, trust)| <= bound
            <==> || Labelled(snaps, to, Current) != {}
                 || |Labelled(snaps, to, trust)| + |Labelled(snaps, from, trust)| <= bound
  {
    SnapsMerged(snaps, from, to, trust);
  }

  lemma EventsJoined(events: map<nat, EventRow>, from: nat, to: nat)
    requires from != to
    ensures var after := JoinedEvents(events, from, to);
            && (forall e :: e in after ==> after[e].follow != from)
            && forall key :: Reported(after, to, key) <==> Reported(events, to, key) || Reported(events, from, key)
  {
    var after := JoinedEvents(events, from, to);
    forall key ensures Reported(after, to, key) <==> Reported(events, to, key) || Reported(events, from, key) {
      if Reported(events, to, key) {
        var e :| e in events && events[e].follow == to && events[e].key == key;
        assert after[e] == events[e];
      } else if Reported(events, from, key) {
        var e :| e in events && events[e].follow == from && events[e].key == key;
        assert after[e] == events[e].(follow := to);
      }
    }
  }

  lemma RepointedTrail(t: Trail, from: nat, to: nat)
    requires from != to
    ensures var after := Repointed(t, from, to);
            && (forall s :: s in after.snaps ==> after.snaps[s].track != from)
            && (forall e :: e in after.events ==> after.events[e].track != from)
            && (forall b :: b in after.baselines ==> after.baselines[b].track != from)
            && (forall field :: (from, field) !in after.overrides)
            && forall f, key :: Reported(t.events, f, key) ==> Reported(after.events, f, key)
  {
    OverridesKept(t.overrides, from, to);
    var after := Repointed(t, from, to);
    forall f, key | Reported(t.events, f, key) ensures Reported(after.events, f, key) {
      var e :| e in t.events && t.events[e].follow == f && t.events[e].key == key;
      assert after.events[e].follow == f && after.events[e].key == key;
    }
  }

  /** The follows that point at the track. Nothing keeps them to one: a split leaves its follow on the old work. */
  function OnTrack(follows: map<nat, FollowRow>, track: nat): set<nat> {
    set f | f in follows && follows[f].track == track
  }

  lemma FollowMovedAlone(t: Trail, f: nat, from: nat, to: nat, language: string)
    requires from != to && OneFollowEach(t.follows) && f in t.follows && OtherFollow(t.follows, f, language).None?
    ensures OneFollowEach(FollowMoved(t, f, to, language).follows)
  {
    forall g | g in t.follows && g != f && t.follows[g].work == t.follows[f].work ensures t.follows[g].language != language {
      assert g !in FollowsOf(t.follows, t.follows[f].work, language);
    }
  }

  /** A follow of the merged track that is kept: in its place, with all the reports it had. */
  ghost predicate Carries(before: Trail, f: nat, after: Trail, kept: nat, language: string)
    requires f in before.follows
  {
    && kept in after.follows && after.follows[kept].work == before.follows[f].work
    && after.follows[kept].language == language
    && forall key :: Reported(before.events, f, key) ==> Reported(after.events, kept, key)
  }

  /** The merge takes one follow off the old track, and touches no other track's but the survivor's. */
  lemma FollowsLeft(t: Trail, follow: Option<nat>, from: nat, to: nat, language: string)
    requires from != to && (follow.Some? ==> follow.value in OnTrack(t.follows, from))
    ensures var after := MovedTrail(t, follow, from, to, language);
            && OnTrack(after.follows, from) == OnTrack(t.follows, from) - (if follow.Some? then {follow.value} else {})
            && (forall o :: o != from && o != to ==> OnTrack(after.follows, o) == OnTrack(t.follows, o))
            && (forall f :: f in after.follows ==> f in t.follows && after.follows[f].work == t.follows[f].work)
  {
  }

  /**
   What is left of the trail of a merged track: every report of the follow taken along is kept, no snapshot, event,
   baseline or correction is on the old track; and no follow is, if and only if no other follow was on it.
   */
  lemma TrailMerged(t: Trail, follow: Option<nat>, from: nat, to: nat, language: string)
    requires from != to && OneFollowEach(t.follows)
    requires if follow.Some? then follow.value in OnTrack(t.follows, from) else OnTrack(t.follows, from) == {}
    ensures var after := MovedTrail(t, follow, from, to, language);
            && OneFollowEach(after.follows)
            && (OnTrack(after.follows, from) == {} <==> |OnTrack(t.follows, from)| <= 1)
            && (forall s :: s in after.snaps ==> after.snaps[s].track != from)
            && (forall e :: e in after.events ==> after.events[e].track != from)
            && (forall b :: b in after.baselines ==> after.baselines[b].track != from)
            && (forall field :: (from, field) !in after.overrides)
            && (follow.Some? ==> exists kept :: Carries(t, follow.value, after, kept, language))
  {
    hide Repointed, OneFollowEach, Reported, OnTrack;
    FollowsLeft(t, follow, from, to, language);
    OneTaken(OnTrack(t.follows, from), follow);
    if follow.None? {
      RepointedTrail(t, from, to);
      FollowsStay(t, from, to);
    } else {
      var f := follow.value;
      assert f in t.follows by { OnTrackIn(t.follows, from, f); }
      var other := OtherFollow(t.follows, f, language);
      var mid := if other.None? then FollowMoved(t, f, to, language) else FollowJoined(t, f, other.value);
      var kept := if other.None? then f else other.value;
      RepointedTrail(mid, from, to);
      FollowsStay(mid, from, to);
      if other.None? {
        FollowMovedAlone(t, f, from, to, language);
      } else {
        EventsJoined(t.events, f, kept);
        FewerFollows(t.follows, f);
      }
      assert Carries(t, f, MovedTrail(t, follow, from, to, language), kept, language);
    }
  }

  /** A merge drops exactly the baselines of a follow that it drops, and changes no other one's follow. */
  lemma BaselinesStay(t: Trail, follow: Option<nat>, from: nat, to: nat, language: string)
    requires from != to && (follow.Some? ==> follow.value in t.follows)
    ensures var after := MovedTrail(t, follow, from, to, language);
            && (forall b :: b in after.baselines <==>
                  b in t.baselines && (t.baselines[b].follow in t.follows ==> t.baselines[b].follow in after.follows)
                  && (follow.Some? && t.baselines[b].follow == follow.value ==> follow.value in after.follows))
            && forall b :: b in after.baselines ==>
                 after.baselines[b] == BaselineRow(t.baselines[b].follow,
                                                   if t.baselines[b].track == from then to else t.baselines[b].track)
  {
    hide MovedSnaps, MovedOverrides, JoinedEvents, Retracked;
  }

  lemma OnTrackIn(follows: map<nat, FollowRow>, track: nat, f: nat)
    requires f in OnTrack(follows, track)
    ensures f in follows
  {
  }

  lemma OneTaken(all: set<nat>, one: Option<nat>)
    requires if one.Some? then one.value in all else all == {}
    ensures all - (if one.Some? then {one.value} else {}) == {} <==> |all| <= 1
  {
    if one.Some? {
      assert |all| == |all - {one.value}| + 1;
    }
  }

  /**
   Two works follow one undetermined track, as after a split: one follow goes with the merge, the other still points
   at the old track, so deleting that track breaks a foreign key and the repair fails.
   */
  lemma SplitLeavesFollow() returns (t: Trail)
    ensures OneFollowEach(t.follows) && |OnTrack(t.follows, 1)| == 2
    ensures forall follow :: follow in OnTrack(t.follows, 1) ==>
              OnTrack(MovedTrail(t, Some(follow), 1, 2, "en").follows, 1) != {}
  {
    var follows := map[10 := FollowRow(5, UNDETERMINED, 1), 11 := FollowRow(6, UNDETERMINED, 1)];
    t := Trail(map[], follows, map[], map[], map[]);
    assert OnTrack(t.follows, 1) == {10, 11};
    forall follow | follow in OnTrack(t.follows, 1)
      ensures OnTrack(MovedTrail(t, Some(follow), 1, 2, "en").follows, 1) != {}
    {
      TrailMerged(t, Some(follow), 1, 2, "en");
    }
  }

  lemma FollowsStay(t: Trail, from: nat, to: nat)
    ensures Repointed(t, from, to).follows == t.follows
  {
  }

  lemma FewerFollows(follows: map<nat, FollowRow>, f: nat)
    requires OneFollowEach(follows)
    ensures OneFollowEach(follows - {f})
  {
  }

  /** A relabelled track takes its follow along, unless the work is already followed in that language. */
  function RelabelledFollows(follows: map<nat, FollowRow>, track: nat, language: string): map<nat, FollowRow> {
    map f | f in follows ::
      if follows[f].track == track && FollowsOf(follows, follows[f].work, language) == {}
      then follows[f].(language := language) else follows[f]
  }

  /** Two follows of one work on the track, neither of which the work has in the language yet. */
  ghost predicate RelabelClashes(follows: map<nat, FollowRow>, track: nat, language: string) {
    exists f, g :: f in OnTrack(follows, track) && g in OnTrack(follows, track) && f != g
                   && follows[f].work == follows[g].work && FollowsOf(follows, follows[f].work, language) == {}
  }

  /** Relabelling loses no follow, and leaves one for each work and language exactly unless two of one work clash. */
  lemma RelabelledRuledIff(follows: map<nat, FollowRow>, track: nat, language: string)
    requires OneFollowEach(follows)
    ensures var after := RelabelledFollows(follows, track, language);
            && (OneFollowEach(after) <==> !RelabelClashes(follows, track, language))
            && after.Keys == follows.Keys
            && forall f :: f in follows ==> after[f].work == follows[f].work && after[f].track == follows[f].track
  {
    var after := RelabelledFollows(follows, track, language);
    if RelabelClashes(follows, track, language) {
      var f, g :| f in OnTrack(follows, track) && g in OnTrack(follows, track) && f != g
                  && follows[f].work == follows[g].work && FollowsOf(follows, follows[f].work, language) == {};
      assert SameFollowed(after[f], after[g]);
    } else {
      forall f, g | f in after && g in after && SameFollowed(after[f], after[g]) ensures f == g {
        if f != g && follows[f].track == track {
          RelabelledApart(follows, track, language, f, g);
        } else if f != g && follows[g].track == track {
          RelabelledApart(follows, track, language, g, f);
        }
      }
    }
  }

  lemma RelabelledApart(follows: map<nat, FollowRow>, track: nat, language: string, f: nat, g: nat)
    requires OneFollowEach(follows) && !RelabelClashes(follows, track, language)
    requires f in follows && g in follows && f != g
    requires follows[f].track == track
    ensures var after := RelabelledFollows(follows, track, language); !SameFollowed(after[f], after[g])
  {
    assert !SameFollowed(follows[f], follows[g]);
    if FollowsOf(follows, follows[f].work, language) == {} {
      assert g !in FollowsOf(follows, follows[f].work, language);
      if follows[g].track == track {
        assert f in OnTrack(follows, track) && g in OnTrack(follows, track);
      }
    }
  }
}
