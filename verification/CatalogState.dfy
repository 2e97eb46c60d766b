/**
 What the catalog tables hold for one source track, and what a refresh does to them.

 Rows are keyed by id. Timestamps are natural numbers that strictly increase from one operation to the next.
 */
module CatalogState {
  import opened Common

  // ---- Rows --------------------------------------------------------------------------------------

  datatype Trust = Untrusted | TrustedCurrent | TrustedPrevious | Suspicious

  /** A unit as the source lists it. */
  datatype Listed = Listed(key: string, title: string, unitType: string, number: string)

  /** `units` is what `snapshot_units` stores: one row per key. */
  datatype Snapshot = Snapshot(complete: bool, trust: Trust, units: seq<Listed>, fetchedAt: nat)

  type Snapshots = map<nat, Snapshot>

  datatype Availability = Available | Unavailable | Unknown

  datatype ReadingUnit = ReadingUnit(
    id: nat, rawTitle: string, displayTitle: string, unitType: string, sourceNumber: string,
    userNumber: Option<string>, availability: Availability, firstSeen: nat, lastSeen: nat,
    missingSince: Option<nat>)

  type Units = map<string, ReadingUnit>

  datatype Field = Number | DisplayTitle | UnitType

  /** `user_overrides` rows about reading units: (unit id, field) to the user's value. */
  type Overrides = map<(nat, Field), string>

  datatype Track = Track(snaps: Snapshots, units: Units)

  // ---- Keys --------------------------------------------------------------------------------------

  function Keys(units: seq<Listed>): set<string> {
    set u | u in units :: u.key
  }

  /** `INSERT OR IGNORE`: the first row of each key stays. */
  function Stored(units: seq<Listed>): (r: seq<Listed>)
    ensures Keys(r) == Keys(units)
  {
    if units == [] then []
    else
      var k := |units| - 1;
      var before := Stored(units[..k]);
      assert units == units[..k] + [units[k]];
      assert Keys(units) == Keys(units[..k]) + {units[k].key};
      if units[k].key in Keys(before) then before
      else
        assert Keys(before + [units[k]]) == Keys(before) + {units[k].key};
        before + [units[k]]
  }

  function KeyList(units: seq<Listed>): (r: seq<string>)
    ensures |r| == |units| && forall i :: 0 <= i < |r| ==> r[i] == units[i].key
  {
    if units == [] then [] else [units[0].key] + KeyList(units[1..])
  }

  // ---- Selecting snapshot rows -------------------------------------------------------------------

  function Ids(snaps: Snapshots, trust: Trust): set<nat> {
    set id | id in snaps && snaps[id].trust == trust
  }

  function IncompleteIds(snaps: Snapshots): set<nat> {
    set id | id in snaps && !snaps[id].complete
  }

  ghost predicate IsLatest(snaps: Snapshots, ids: set<nat>, id: nat)
    requires ids <= snaps.Keys
  {
    id in ids && forall o :: o in ids ==> snaps[o].fetchedAt <= snaps[id].fetchedAt
  }

  lemma {:induction false} LatestExists(snaps: Snapshots, ids: set<nat>)
    requires ids != {} && ids <= snaps.Keys
    ensures exists id :: IsLatest(snaps, ids, id)
  {
    var x := Member(ids);
    if ids == {x} {
      assert IsLatest(snaps, ids, x);
    } else {
      var rest := ids - {x};
      LatestExists(snaps, rest);
      var y :| IsLatest(snaps, rest, y);
      var id := if snaps[y].fetchedAt >= snaps[x].fetchedAt then y else x;
      forall o | o in ids ensures snaps[o].fetchedAt <= snaps[id].fetchedAt {
        if o != x { assert o in rest; }
      }
      assert IsLatest(snaps, ids, id);
    }
  }

  /** `ORDER BY fetched_at DESC LIMIT 1`. */
  ghost function Latest(snaps: Snapshots, trust: Trust): (r: Option<nat>)
    ensures r.None? <==> Ids(snaps, trust) == {}
    ensures r.Some? ==> r.value in snaps && snaps[r.value].trust == trust && IsLatest(snaps, Ids(snaps, trust), r.value)
  {
    if Ids(snaps, trust) == {} then None
    else
      LatestExists(snaps, Ids(snaps, trust));
      var id :| IsLatest(snaps, Ids(snaps, trust), id);
      Some(id)
  }

  ghost function CurrentKeys(snaps: Snapshots): Option<set<string>> {
    var c := Latest(snaps, TrustedCurrent);
    if c.None? then None else Some(Keys(snaps[c.value].units))
  }

  /** The stored rows of the current trusted catalog. */
  ghost function CurrentUnits(snaps: Snapshots): Option<seq<Listed>> {
    var c := Latest(snaps, TrustedCurrent);
    if c.None? then None else Some(snaps[c.value].units)
  }

  /** What the catalog says about one track at one moment. */
  datatype View = View(candidate: bool, trusted: Option<seq<string>>, units: Units)

  ghost function ViewOf(t: Track): View {
    var c := Latest(t.snaps, TrustedCurrent);
    View(Latest(t.snaps, Suspicious).Some?, if c.None? then None else Some(KeyList(t.snaps[c.value].units)), t.units)
  }

  // ---- Changing snapshot rows --------------------------------------------------------------------

  function Newer(snaps: Snapshots, ids: set<nat>, id: nat): set<nat>
    requires ids <= snaps.Keys && id in snaps
  {
    set o | o in ids && snaps[o].fetchedAt > snaps[id].fetchedAt
  }

  /** The rows that pruning deletes: those with at least `keep` newer ones. */
  function Doomed(snaps: Snapshots, ids: set<nat>, keep: nat): set<nat>
    requires ids <= snaps.Keys
  {
    set id | id in ids && |Newer(snaps, ids, id)| >= keep
  }

  function Pruned(snaps: Snapshots, ids: set<nat>, keep: nat): Snapshots
    requires ids <= snaps.Keys
  {
    snaps - Doomed(snaps, ids, keep)
  }

  function Relabelled(snaps: Snapshots, from: Trust, to: Trust): Snapshots {
    map id | id in snaps :: if snaps[id].trust == from then snaps[id].(trust := to) else snaps[id]
  }

  function Marked(snaps: Snapshots, id: nat, trust: Trust): Snapshots {
    if id in snaps then snaps[id := snaps[id].(trust := trust)] else snaps
  }

  /** `_promote`: the old previous goes, the current becomes previous, the snapshot becomes current. */
  ghost function PromotedSnaps(snaps: Snapshots, id: nat): Snapshots {
    var previous := Latest(snaps, TrustedPrevious);
    var a := if previous.Some? then snaps - {previous.value} else snaps;
    var b := Marked(Relabelled(a, TrustedCurrent, TrustedPrevious), id, TrustedCurrent);
    b - Ids(b, Suspicious)
  }

  // ---- Reading units -----------------------------------------------------------------------------

  /** The source's columns are written; the user's number and the unit's identity are not. */
  function Upserted(units: Units, u: Listed, id: nat, now: nat): Units {
    if u.key in units then
      units[u.key := units[u.key].(
        rawTitle := u.title, displayTitle := u.title, unitType := u.unitType, sourceNumber := u.number,
        availability := Available, lastSeen := now, missingSince := None)]
    else
      units[u.key := ReadingUnit(id, u.title, u.title, u.unitType, u.number, None, Available, now, now, None)]
  }

  function AllUpserted(units: Units, listed: seq<Listed>, firstId: nat, now: nat): Units {
    if listed == [] then units
    else
      var k := |listed| - 1;
      Upserted(AllUpserted(units, listed[..k], firstId, now), listed[k], firstId + k, now)
  }

  function Absent(u: ReadingUnit, now: nat): ReadingUnit {
    u.(availability := Unavailable, missingSince := if u.missingSince.Some? then u.missingSince else Some(now))
  }

  /** With no keys the statement compares against `NOT IN (NULL)` and updates no row. */
  function MissingMarked(units: Units, listed: seq<Listed>, now: nat): Units {
    if listed == [] then units
    else map k | k in units :: if k in Keys(listed) then units[k] else Absent(units[k], now)
  }

  function Corrected(u: ReadingUnit, overrides: Overrides): ReadingUnit {
    u.(userNumber := if (u.id, Number) in overrides then Some(overrides[(u.id, Number)]) else u.userNumber,
       displayTitle := if (u.id, DisplayTitle) in overrides then overrides[(u.id, DisplayTitle)] else u.displayTitle,
       unitType := if (u.id, UnitType) in overrides then overrides[(u.id, UnitType)] else u.unitType)
  }

  /** `apply_unit_overrides` over a whole track. */
  function AllCorrected(units: Units, overrides: Overrides): Units {
    map k | k in units :: Corrected(units[k], overrides)
  }

  function Materialized(units: Units, listed: seq<Listed>, overrides: Overrides, firstId: nat, now: nat): Units {
    AllCorrected(MissingMarked(AllUpserted(units, listed, firstId, now), listed, now), overrides)
  }

  // ---- Refresh -----------------------------------------------------------------------------------

  const MAX_INCOMPLETE := 3
  const MAX_CANDIDATES := 2
  const SUSPICIOUS_MIN_LOST := 5
  const SUSPICIOUS_FRACTION := 0.5

  datatype Verdict = Trusted | Unchanged | Suspected | Recovered | Incomplete

  datatype Outcome = Outcome(verdict: Verdict, snapshot: nat, unitCount: nat, previousCount: Option<nat>, lost: nat)

  function Lost(current: seq<string>, listed: set<string>): seq<string> {
    if current == [] then []
    else (if current[0] !in listed then [current[0]] else []) + Lost(current[1..], listed)
  }

  predicate IsSuspicious(current: nat, lost: nat) {
    current != 0 && lost >= SUSPICIOUS_MIN_LOST && lost as real / current as real >= SUSPICIOUS_FRACTION
  }

  function Inserted(snaps: Snapshots, id: nat, complete: bool, listed: seq<Listed>, now: nat): Snapshots {
    snaps[id := Snapshot(complete, Untrusted, Stored(listed), now)]
  }

  ghost function Refreshed(
    t: Track, overrides: Overrides, complete: bool, listed: seq<Listed>, id: nat, firstId: nat, now: nat): (Outcome, Track)
  {
    var snaps := Inserted(t.snaps, id, complete, listed, now);
    var materialized := Materialized(t.units, listed, overrides, firstId, now);
    if !complete then
      (Outcome(Incomplete, id, |listed|, None, 0), t.(snaps := Pruned(snaps, IncompleteIds(snaps), MAX_INCOMPLETE)))
    else
      var current := Latest(snaps, TrustedCurrent);
      if current.None? then
        (Outcome(Trusted, id, |listed|, None, 0), Track(PromotedSnaps(snaps, id), materialized))
      else
        var c := current.value;
        var keys := KeyList(snaps[c].units);
        var lost := |Lost(keys, Keys(listed))|;
        if Keys(snaps[c].units) == Keys(listed) then
          var kept := (snaps - {id})[c := snaps[c].(fetchedAt := now)];
          (Outcome(Unchanged, c, |listed|, Some(|keys|), 0), Track(kept - Ids(kept, Suspicious), materialized))
        else if !IsSuspicious(|keys|, lost) then
          (Outcome(Trusted, id, |listed|, Some(|keys|), lost), Track(PromotedSnaps(snaps, id), materialized))
        else
          var candidate := Latest(snaps, Suspicious);
          if candidate.Some? && Keys(snaps[candidate.value].units) == Keys(listed) then
            (Outcome(Recovered, id, |listed|, Some(|keys|), lost), Track(PromotedSnaps(snaps, id), materialized))
          else
            var marked := Marked(snaps, id, Suspicious);
            (Outcome(Suspected, id, |listed|, Some(|keys|), lost),
             t.(snaps := Pruned(marked, Ids(marked, Suspicious), MAX_CANDIDATES)))
  }

  datatype TrustAnswer = Rejected | TrustedNow(outcome: Outcome)

  /** Explicit trust: refused for an unknown or an incomplete snapshot. */
  ghost function TrustChosen(t: Track, overrides: Overrides, id: nat, firstId: nat, now: nat): (TrustAnswer, Track) {
    if id !in t.snaps || !t.snaps[id].complete then (Rejected, t)
    else
      var units := t.snaps[id].units;
      (TrustedNow(Outcome(Trusted, id, |units|, None, 0)),
       Track(PromotedSnaps(t.snaps, id), Materialized(t.units, units, overrides, firstId, now)))
  }

  // ---- User corrections --------------------------------------------------------------------------

  /** What the user says about one column: nothing, take my correction back, or this value. */
  datatype Patch = Keep | Clear | Put(value: string)

  datatype Edits = Edits(number: Patch, displayTitle: Patch, unitType: Patch)

  function Recorded(overrides: Overrides, unit: nat, field: Field, p: Patch): Overrides {
    match p
    case Keep => overrides
    case Clear => overrides - {(unit, field)}
    case Put(value) => overrides[(unit, field) := value]
  }

  function AllRecorded(overrides: Overrides, unit: nat, e: Edits): Overrides {
    Recorded(Recorded(Recorded(overrides, unit, Number, e.number), unit, DisplayTitle, e.displayTitle),
             unit, UnitType, e.unitType)
  }

  function TypeListed(units: seq<Listed>, key: string): string {
    if units == [] then "unknown" else if units[0].key == key then units[0].unitType else TypeListed(units[1..], key)
  }

  /** The type the current trusted catalog gives the unit. */
  ghost function SourceType(snaps: Snapshots, key: string): string {
    var c := Latest(snaps, TrustedCurrent);
    if c.None? then "unknown" else TypeListed(snaps[c.value].units, key)
  }

  /** The columns a cleared correction gives back to the source. */
  function Restored(u: ReadingUnit, e: Edits, sourceType: string): ReadingUnit {
    u.(userNumber := match e.number case Keep => u.userNumber case Clear => None case Put(value) => Some(value),
       displayTitle := if e.displayTitle == Clear then u.rawTitle else u.displayTitle,
       unitType := if e.unitType == Clear then sourceType else u.unitType)
  }

  /** `set_unit` on an existing unit. */
  ghost function Edited(t: Track, overrides: Overrides, key: string, e: Edits): (Track, Overrides)
    requires key in t.units
  {
    var u := t.units[key];
    var os := AllRecorded(overrides, u.id, e);
    (t.(units := t.units[key := Corrected(Restored(u, e, SourceType(t.snaps, key)), os)]), os)
  }
}
