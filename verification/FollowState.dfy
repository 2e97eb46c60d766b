/**
 What the follow tables hold, and what following, checking and undoing do to them.

 The baseline and the release events of a follow are kept with its row. Follows get increasing ids, so the
 order of their creation is the order of their ids.
 */
module FollowState {
  import opened Common
  import opened CatalogState

  datatype Kind = FirstFollow | SourceChange

  datatype Baseline = Baseline(kind: Kind, keys: set<string>)

  datatype Release = Release(key: string, unit: Option<nat>, detectedAt: nat, seen: bool)

  /** Without a baseline the follow is pending: its first trusted catalog will become the baseline. */
  datatype Follow = Follow(
    work: string, language: string, source: string, track: string,
    attempted: Option<nat>, succeeded: Option<nat>, error: Option<string>,
    baseline: Option<Baseline>, releases: seq<Release>)

  /** What `unfollow` remembers: the row and its baseline. */
  datatype Kept = Kept(token: nat, id: nat, follow: Follow)

  datatype Desk = Desk(follows: map<nat, Follow>, undo: seq<Kept>, nextId: nat, clock: nat)

  /** A row of `source_tracks` that is not unavailable. */
  datatype Offer = Offer(work: string, language: string, source: string, track: string)

  const MAX_UNDO := 100

  // ---- Rows --------------------------------------------------------------------------------------

  function Matching(follows: map<nat, Follow>, work: string, language: Option<string>): set<nat> {
    set f | f in follows && follows[f].work == work && (language.None? || follows[f].language == language.value)
  }

  ghost predicate IsLeast(s: set<nat>, m: nat) {
    m in s && forall i :: i in s ==> m <= i
  }

  lemma LeastExists(s: set<nat>)
    requires s != {}
    ensures exists m :: IsLeast(s, m)
  {
    var ints: set<int> := set i | i in s;
    assert forall i: nat :: i in s ==> (i as int) in ints;
    var m := Smallest(ints);
    assert IsLeast(s, m);
  }

  /** The earliest follow of the work, or the one in the given language. */
  ghost function Row(follows: map<nat, Follow>, work: string, language: Option<string>): (r: Option<nat>)
    ensures r.None? <==> Matching(follows, work, language) == {}
    ensures r.Some? ==> r.value in follows && IsLeast(Matching(follows, work, language), r.value)
  {
    var s := Matching(follows, work, language);
    if s == {} then None
    else
      LeastExists(s);
      var m :| IsLeast(s, m);
      Some(m)
  }

  predicate SamePair(a: Follow, b: Follow) {
    a.work == b.work && a.language == b.language
  }

  /** The table allows one follow for each work and language. */
  ghost predicate OneEach(follows: map<nat, Follow>) {
    forall f, g :: f in follows && g in follows && SamePair(follows[f], follows[g]) ==> f == g
  }

  lemma RowInItsLanguage(follows: map<nat, Follow>, f: nat)
    requires OneEach(follows) && f in follows
    ensures Row(follows, follows[f].work, Some(follows[f].language)) == Some(f)
  {
    var s := Matching(follows, follows[f].work, Some(follows[f].language));
    assert f in s;
    forall g | g in s ensures g == f {
      assert SamePair(follows[f], follows[g]);
    }
  }

  function ReleaseKeys(releases: seq<Release>): (r: seq<string>)
    ensures |r| == |releases| && forall i :: 0 <= i < |r| ==> r[i] == releases[i].key
  {
    if releases == [] then []
    else ReleaseKeys(releases[..|releases| - 1]) + [releases[|releases| - 1].key]
  }

  /** Everything that is not news to this follow. */
  function Known(follow: Follow): set<string> {
    (if follow.baseline.Some? then follow.baseline.value.keys else {}) + Elements(ReleaseKeys(follow.releases))
  }

  function BaselineFrom(kind: Kind, view: View): Option<Baseline> {
    if view.trusted.None? then None else Some(Baseline(kind, Elements(view.trusted.value)))
  }

  // ---- Following ---------------------------------------------------------------------------------

  datatype Receipt = Denied | Recorded(id: nat, baselineUnits: nat, kind: Option<Kind>)

  function Record(id: nat, follow: Follow): Receipt {
    if follow.baseline.None? then Recorded(id, 0, None)
    else Recorded(id, |follow.baseline.value.keys|, Some(follow.baseline.value.kind))
  }

  /** The count returned for a baseline just set is the length of the catalog's list. */
  function NewRecord(id: nat, kind: Kind, view: View): Receipt {
    if view.trusted.None? then Recorded(id, 0, None) else Recorded(id, |view.trusted.value|, Some(kind))
  }

  ghost function Followed(desk: Desk, offer: Offer, offers: set<Offer>, view: View): (Receipt, Desk) {
    if offer !in offers then (Denied, desk)
    else
      var existing := Row(desk.follows, offer.work, Some(offer.language));
      var d := desk.(clock := desk.clock + 1);
      if existing.None? then
        var f := desk.nextId;
        var follow := Follow(offer.work, offer.language, offer.source, offer.track, None, None, None,
                             BaselineFrom(FirstFollow, view), []);
        (NewRecord(f, FirstFollow, view), d.(follows := desk.follows[f := follow], nextId := f + 1))
      else
        var f := existing.value;
        var follow := desk.follows[f];
        if follow.source == offer.source && follow.track == offer.track then (Record(f, follow), d)
        else
          var repointed := follow.(source := offer.source, track := offer.track,
                                   baseline := BaselineFrom(FirstFollow, view));
          (NewRecord(f, FirstFollow, view), d.(follows := desk.follows[f := repointed]))
  }

  function Trimmed(undo: seq<Kept>): seq<Kept> {
    if |undo| > MAX_UNDO then undo[|undo| - MAX_UNDO..] else undo
  }

  /** The follow goes with its baseline and its release events. */
  ghost function Unfollowed(desk: Desk, work: string, language: Option<string>): (Option<nat>, Desk) {
    var row := Row(desk.follows, work, language);
    if row.None? then (None, desk)
    else
      var f := row.value;
      var token := desk.nextId;
      (Some(token), Desk(desk.follows - {f}, Trimmed(desk.undo + [Kept(token, f, desk.follows[f])]),
                         token + 1, desk.clock + 1))
  }

  /** What an undo puts back of a row: neither its release events nor its last error. */
  function Revived(follow: Follow): Follow {
    follow.(error := None, releases := [])
  }

  function Without(undo: seq<Kept>, token: nat): seq<Kept> {
    if undo == [] then []
    else if undo[0].token == token then undo[1..]
    else [undo[0]] + Without(undo[1..], token)
  }

  function Find(undo: seq<Kept>, token: nat): (r: Option<Kept>)
    ensures r.Some? ==> r.value in undo && r.value.token == token
    ensures r.None? ==> forall s :: s in undo ==> s.token != token
  {
    if undo == [] then None else if undo[0].token == token then Some(undo[0]) else Find(undo[1..], token)
  }

  /** The token is spent either way; the row cannot come back beside another of its work and language. */
  ghost function Undone(desk: Desk, token: nat): (Receipt, Desk) {
    var saved := Find(desk.undo, token);
    if saved.None? then (Denied, desk)
    else
      var d := desk.(undo := Without(desk.undo, token), clock := desk.clock + 1);
      var s := saved.value;
      if s.id in desk.follows || Matching(desk.follows, s.follow.work, Some(s.follow.language)) != {} then (Denied, d)
      else (Record(s.id, Revived(s.follow)), d.(follows := desk.follows[s.id := Revived(s.follow)]))
  }

  ghost function SourceChanged(
    desk: Desk, work: string, language: Option<string>, source: string, track: string, offers: set<Offer>, view: View)
    : (Receipt, Desk)
  {
    var row := Row(desk.follows, work, language);
    if row.None? || Offer(work, desk.follows[row.value].language, source, track) !in offers then (Denied, desk)
    else
      var f := row.value;
      var moved := desk.follows[f].(source := source, track := track, releases := [],
                                    baseline := BaselineFrom(SourceChange, view));
      (NewRecord(f, SourceChange, view), desk.(follows := desk.follows[f := moved], clock := desk.clock + 1))
  }

  // ---- Checking ----------------------------------------------------------------------------------

  function Attempt(follow: Follow, category: Option<string>, now: nat): Follow {
    if category.None? then follow.(attempted := Some(now), succeeded := Some(now), error := None)
    else follow.(attempted := Some(now), error := category)
  }

  /** `record_attempt`; no category means the attempt succeeded. */
  ghost function Attempted(desk: Desk, work: string, language: Option<string>, category: Option<string>): Desk {
    var row := Row(desk.follows, work, language);
    if row.None? then desk
    else
      var f := row.value;
      desk.(follows := desk.follows[f := Attempt(desk.follows[f], category, desk.clock)], clock := desk.clock + 1)
  }

  datatype New = New(key: string, unit: Option<nat>, title: Option<string>, number: Option<string>)

  datatype CheckAnswer =
    | NotFollowed
    | UpToDate
    | NewReleases(news: seq<New>)
    | Degraded
    | CatalogSuspicious

  function NewKeys(trusted: seq<string>, known: set<string>): (r: seq<string>)
    ensures Elements(r) == Elements(trusted) - known
  {
    if trusted == [] then []
    else
      var k := |trusted| - 1;
      var before := NewKeys(trusted[..k], known);
      assert trusted == trusted[..k] + [trusted[k]];
      assert Elements(trusted) == Elements(trusted[..k]) + {trusted[k]};
      assert Elements(before + [trusted[k]]) == Elements(before) + {trusted[k]};
      if trusted[k] in known then before else before + [trusted[k]]
  }

  function UnitOf(units: Units, key: string): Option<nat> {
    if key in units then Some(units[key].id) else None
  }

  function NewOf(units: Units, key: string): New {
    if key in units then New(key, Some(units[key].id), Some(units[key].rawTitle), Some(units[key].sourceNumber))
    else New(key, None, None, None)
  }

  function News(units: Units, keys: seq<string>): (r: seq<New>)
    ensures |r| == |keys| && forall i :: 0 <= i < |r| ==> r[i] == NewOf(units, keys[i])
  {
    if keys == [] then []
    else News(units, keys[..|keys| - 1]) + [NewOf(units, keys[|keys| - 1])]
  }

  /** `INSERT OR IGNORE`: one event for each key of the follow. */
  function Added(releases: seq<Release>, units: Units, key: string, now: nat): seq<Release> {
    if key in ReleaseKeys(releases) then releases else releases + [Release(key, UnitOf(units, key), now, false)]
  }

  function AllAdded(releases: seq<Release>, units: Units, keys: seq<string>, now: nat): seq<Release> {
    if keys == [] then releases
    else Added(AllAdded(releases, units, keys[..|keys| - 1], now), units, keys[|keys| - 1], now)
  }

  /** What a check of one follow answers, and the row it leaves. */
  function CheckedRow(follow: Follow, view: View, now: nat): (CheckAnswer, Follow) {
    if view.candidate then (CatalogSuspicious, Attempt(follow, Some("catalog_suspicious"), now))
    else if view.trusted.None? then (Degraded, Attempt(follow, Some("no_trusted_catalog"), now))
    else if follow.baseline.None? then
      (UpToDate, Attempt(follow.(baseline := BaselineFrom(FirstFollow, view)), None, now))
    else
      var keys := NewKeys(view.trusted.value, Known(follow));
      (if keys == [] then UpToDate else NewReleases(News(view.units, keys)),
       Attempt(follow.(releases := AllAdded(follow.releases, view.units, keys, now)), None, now))
  }

  ghost function Checked(desk: Desk, work: string, language: Option<string>, view: View): (CheckAnswer, Desk) {
    var row := Row(desk.follows, work, language);
    if row.None? then (NotFollowed, desk)
    else
      var f := row.value;
      var (answer, follow) := CheckedRow(desk.follows[f], view, desk.clock);
      (answer, desk.(follows := desk.follows[f := follow], clock := desk.clock + 1))
  }

  function AllSeen(releases: seq<Release>): (r: seq<Release>)
    ensures |r| == |releases| && forall i :: 0 <= i < |r| ==> r[i] == releases[i].(seen := true)
  {
    if releases == [] then []
    else AllSeen(releases[..|releases| - 1]) + [releases[|releases| - 1].(seen := true)]
  }

  function Unseen(releases: seq<Release>): nat {
    if releases == [] then 0
    else Unseen(releases[..|releases| - 1]) + if releases[|releases| - 1].seen then 0 else 1
  }

  ghost function MarkedSeen(desk: Desk, work: string, language: Option<string>): (nat, Desk) {
    var row := Row(desk.follows, work, language);
    if row.None? then (0, desk)
    else
      var f := row.value;
      var follow := desk.follows[f];
      (Unseen(follow.releases), desk.(follows := desk.follows[f := follow.(releases := AllSeen(follow.releases))]))
  }
}
