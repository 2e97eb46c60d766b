/** The catalog of one track over whole histories of refreshes, explicit trust and user corrections. */
module CatalogRuns {
  import opened Common
  import opened CatalogState
  import opened CatalogTrust

  datatype Lib = Lib(track: Track, overrides: Overrides, nextId: nat, clock: nat)

  datatype Op =
    | Refresh(complete: bool, listed: seq<Listed>)
    | TrustThis(id: nat)
    | Edit(key: string, edits: Edits)
    | Elsewhere(used: nat, corrections: Overrides)     // an operation on another track of the library

  datatype Answer = Answered(outcome: Outcome) | Refused | Saved

  ghost predicate Owns(units: Units, id: nat) {
    exists k :: k in units && units[k].id == id
  }

  /** The corrections after an operation on another track: those of this track's units are not its to change. */
  ghost function Beside(units: Units, own: Overrides, others: Overrides, bound: nat): Overrides {
    map o | o in own.Keys + others.Keys && (if Owns(units, o.0) then o in own else o in others && o.0 < bound) ::
      if Owns(units, o.0) then own[o] else others[o]
  }

  /** One operation; it takes the next row id, then one unit id for each listed unit, and one tick. */
  ghost function Do(lib: Lib, op: Op): (Answer, Lib) {
    match op
    case Refresh(complete, listed) =>
      var (outcome, t) := Refreshed(lib.track, lib.overrides, complete, listed, lib.nextId, lib.nextId + 1, lib.clock);
      (Answered(outcome), Lib(t, lib.overrides, lib.nextId + 1 + |listed|, lib.clock + 1))
    case TrustThis(id) =>
      var (answer, t) := TrustChosen(lib.track, lib.overrides, id, lib.nextId, lib.clock);
      var used := if id in lib.track.snaps then |lib.track.snaps[id].units| else 0;
      (if answer.Rejected? then Refused else Answered(answer.outcome),
       Lib(t, lib.overrides, lib.nextId + used, lib.clock + 1))
    case Edit(key, edits) =>
      if key !in lib.track.units then (Refused, lib.(clock := lib.clock + 1))
      else
        var (t, os) := Edited(lib.track, lib.overrides, key, edits);
        (Saved, Lib(t, os, lib.nextId, lib.clock + 1))
    case Elsewhere(used, corrections) =>
      var os := Beside(lib.track.units, lib.overrides, corrections, lib.nextId + used);
      (Saved, Lib(lib.track, os, lib.nextId + used, lib.clock + 1))
  }

  const EMPTY := Lib(Track(map[], map[]), map[], 0, 0)

  ghost function After(ops: seq<Op>): Lib {
    if ops == [] then EMPTY else Do(After(ops[..|ops| - 1]), ops[|ops| - 1]).1
  }

  // ---- The invariant of the library --------------------------------------------------------------

  ghost predicate UnitIds(units: Units, bound: nat) {
    && (forall k :: k in units ==> units[k].id < bound)
    && (forall j, k :: j in units && k in units && units[j].id == units[k].id ==> j == k)
  }

  /** No unit was deleted or took over another's identity. */
  ghost predicate KeepsUnits(before: Units, after: Units) {
    forall k :: k in before ==> k in after && after[k].id == before[k].id && after[k].firstSeen == before[k].firstSeen
  }

  ghost predicate IdsUsed(lib: Lib) {
    && (forall id :: id in lib.track.snaps ==> id < lib.nextId)
    && UnitIds(lib.track.units, lib.nextId)
  }

  /** Every column the user corrected still holds the correction. */
  ghost predicate CorrectionsHold(units: Units, overrides: Overrides) {
    forall k :: k in units ==> Corrected(units[k], overrides) == units[k]
  }

  ghost predicate Good(lib: Lib) {
    && Sound(lib.track.snaps, lib.clock)
    && IdsUsed(lib)
    && CorrectionsHold(lib.track.units, lib.overrides)
  }

  lemma UpsertedOne(units: Units, u: Listed, id: nat, now: nat)
    requires UnitIds(units, id)
    ensures var us := Upserted(units, u, id, now);
            us.Keys == units.Keys + {u.key} && UnitIds(us, id + 1) && KeepsUnits(units, us)
  {
  }

  lemma {:induction false} UpsertedIds(units: Units, listed: seq<Listed>, firstId: nat, now: nat)
    requires UnitIds(units, firstId)
    ensures var us := AllUpserted(units, listed, firstId, now);
            us.Keys == units.Keys + Keys(listed) && UnitIds(us, firstId + |listed|) && KeepsUnits(units, us)
  {
    hide UnitIds, KeepsUnits, Upserted, Keys;
    if listed == [] {
      KeepsItself(units);
    } else {
      var k := |listed| - 1;
      var before := AllUpserted(units, listed[..k], firstId, now);
      UpsertedIds(units, listed[..k], firstId, now);
      UpsertedOne(before, listed[k], firstId + k, now);
      KeepsTransitively(units, before, AllUpserted(units, listed, firstId, now));
      KeysAppend(listed);
    }
  }

  lemma KeepsItself(units: Units)
    ensures KeepsUnits(units, units) && Keys([]) == {}
  {
  }

  lemma KeepsTransitively(a: Units, b: Units, c: Units)
    requires KeepsUnits(a, b) && KeepsUnits(b, c)
    ensures KeepsUnits(a, c)
  {
  }

  lemma KeysAppend(listed: seq<Listed>)
    requires listed != []
    ensures Keys(listed) == Keys(listed[..|listed| - 1]) + {listed[|listed| - 1].key}
  {
    var k := |listed| - 1;
    assert listed == listed[..k] + [listed[k]];
  }

  lemma CorrectedIds(units: Units, overrides: Overrides, bound: nat)
    requires UnitIds(units, bound)
    ensures var us := AllCorrected(units, overrides);
            us.Keys == units.Keys && UnitIds(us, bound) && KeepsUnits(units, us) && CorrectionsHold(us, overrides)
  {
  }

  lemma MarkedIds(units: Units, listed: seq<Listed>, now: nat, bound: nat)
    requires UnitIds(units, bound)
    ensures var us := MissingMarked(units, listed, now);
            us.Keys == units.Keys && UnitIds(us, bound) && KeepsUnits(units, us)
  {
  }

  lemma MaterializedIds(units: Units, listed: seq<Listed>, overrides: Overrides, firstId: nat, now: nat)
    requires UnitIds(units, firstId)
    ensures var us := Materialized(units, listed, overrides, firstId, now);
            && us.Keys == units.Keys + Keys(listed) && UnitIds(us, firstId + |listed|)
            && KeepsUnits(units, us) && CorrectionsHold(us, overrides)
  {
    UpsertedIds(units, listed, firstId, now);
    var a := AllUpserted(units, listed, firstId, now);
    MarkedIds(a, listed, now, firstId + |listed|);
    CorrectedIds(MissingMarked(a, listed, now), overrides, firstId + |listed|);
  }

  /** A correction of one unit leaves the others, and what is recorded about them, alone. */
  lemma EditFrame(t: Track, overrides: Overrides, key: string, edits: Edits)
    requires key in t.units
    ensures var (t', os) := Edited(t, overrides, key, edits);
            && t'.snaps == t.snaps && t'.units.Keys == t.units.Keys
            && KeepsUnits(t.units, t'.units)
            && (forall k :: k in t'.units && k != key ==> t'.units[k] == t.units[k])
            && (forall u, f :: u != t.units[key].id ==> ((u, f) in os <==> (u, f) in overrides))
            && (forall u, f :: u != t.units[key].id && (u, f) in os ==> os[(u, f)] == overrides[(u, f)])
  {
    var id := t.units[key].id;
    RecordedFrame(overrides, id, Number, edits.number);
    var a := Recorded(overrides, id, Number, edits.number);
    RecordedFrame(a, id, DisplayTitle, edits.displayTitle);
    RecordedFrame(Recorded(a, id, DisplayTitle, edits.displayTitle), id, UnitType, edits.unitType);
  }

  lemma RecordedFrame(overrides: Overrides, unit: nat, field: Field, p: Patch)
    ensures forall u, f :: u != unit ==> ((u, f) in Recorded(overrides, unit, field, p) <==> (u, f) in overrides)
    ensures forall u, f :: u != unit && (u, f) in overrides ==>
              Recorded(overrides, unit, field, p)[(u, f)] == overrides[(u, f)]
  {
  }

  lemma EditGood(lib: Lib, key: string, edits: Edits)
    requires Good(lib) && key in lib.track.units
    ensures var (t, os) := Edited(lib.track, lib.overrides, key, edits);
            CorrectionsHold(t.units, os) && UnitIds(t.units, lib.nextId)
  {
    var (t, os) := Edited(lib.track, lib.overrides, key, edits);
    EditFrame(lib.track, lib.overrides, key, edits);
    forall k | k in t.units ensures Corrected(t.units[k], os) == t.units[k] {
      if k != key {
        assert t.units[k].id != lib.track.units[key].id;
      }
    }
  }

  /** An operation on another track leaves what is recorded about this one's units alone. */
  lemma ElsewhereFrame(lib: Lib, used: nat, corrections: Overrides, key: string, f: Field)
    requires key in lib.track.units
    ensures var os := Do(lib, Elsewhere(used, corrections)).1.overrides;
            var o := (lib.track.units[key].id, f);
            (o in os <==> o in lib.overrides) && (o in os ==> os[o] == lib.overrides[o])
  {
  }

  lemma ElsewhereGood(lib: Lib, used: nat, corrections: Overrides)
    requires Good(lib)
    ensures Good(Do(lib, Elsewhere(used, corrections)).1)
  {
    hide Beside;
    var os := Do(lib, Elsewhere(used, corrections)).1.overrides;
    forall k | k in lib.track.units ensures Corrected(lib.track.units[k], os) == lib.track.units[k] {
      ElsewhereFrame(lib, used, corrections, k, Number);
      ElsewhereFrame(lib, used, corrections, k, DisplayTitle);
      ElsewhereFrame(lib, used, corrections, k, UnitType);
    }
  }

  lemma RefreshGood(lib: Lib, complete: bool, listed: seq<Listed>)
    requires Good(lib)
    ensures var lib' := Do(lib, Refresh(complete, listed)).1; Good(lib') && KeepsUnits(lib.track.units, lib'.track.units)
  {
    hide Refreshed, Materialized, Inserted, SameContents, KeepsUnits, Sound, CorrectionsHold;
    var id := lib.nextId;
    var t' := Refreshed(lib.track, lib.overrides, complete, listed, id, id + 1, lib.clock).1;
    RefreshSound(lib.track, lib.overrides, complete, listed, id, id + 1, lib.clock);
    RefreshRows(lib.track, lib.overrides, complete, listed, id, id + 1, lib.clock);
    RefreshUnits(lib.track, lib.overrides, complete, listed, id, id + 1, lib.clock);
    UnitsGood(lib.track.units, t'.units, listed, lib.overrides, id + 1, lib.clock);
    SnapsUsed(lib.track.snaps, t'.snaps, id, complete, listed, lib.clock);
  }

  lemma UnitsGood(units: Units, units': Units, listed: seq<Listed>, overrides: Overrides, firstId: nat, now: nat)
    requires UnitIds(units, firstId) && CorrectionsHold(units, overrides)
    requires units' == units || units' == Materialized(units, listed, overrides, firstId, now)
    ensures UnitIds(units', firstId + |listed|) && CorrectionsHold(units', overrides) && KeepsUnits(units, units')
  {
    if units' != units {
      MaterializedIds(units, listed, overrides, firstId, now);
    }
  }

  lemma SnapsUsed(snaps: Snapshots, snaps': Snapshots, id: nat, complete: bool, listed: seq<Listed>, now: nat)
    requires forall o :: o in snaps ==> o < id
    requires SameContents(Inserted(snaps, id, complete, listed, now), snaps')
    ensures forall o :: o in snaps' ==> o < id + 1 + |listed|
  {
  }

  lemma RefreshUnits(
    t: Track, overrides: Overrides, complete: bool, listed: seq<Listed>, id: nat, firstId: nat, now: nat)
    ensures var (answer, t') := Refreshed(t, overrides, complete, listed, id, firstId, now);
            t'.units == if answer.verdict == Incomplete || answer.verdict == Suspected then t.units
                        else Materialized(t.units, listed, overrides, firstId, now)
  {
  }

  lemma TrustGood(lib: Lib, id: nat)
    requires Good(lib)
    ensures var lib' := Do(lib, TrustThis(id)).1; Good(lib') && KeepsUnits(lib.track.units, lib'.track.units)
  {
    TrustChosenSound(lib.track, lib.overrides, id, lib.nextId, lib.clock);
    PromotedContents(lib.track.snaps, id);
    if id in lib.track.snaps {
      MaterializedIds(lib.track.units, lib.track.snaps[id].units, lib.overrides, lib.nextId, lib.clock);
    }
  }

  lemma DoGood(lib: Lib, op: Op)
    requires Good(lib)
    ensures Good(Do(lib, op).1) && KeepsUnits(lib.track.units, Do(lib, op).1.track.units)
  {
    match op
    case Refresh(complete, listed) =>
      RefreshGood(lib, complete, listed);
    case TrustThis(id) =>
      TrustGood(lib, id);
    case Edit(key, edits) =>
      if key in lib.track.units {
        EditGood(lib, key, edits);
        EditFrame(lib.track, lib.overrides, key, edits);
      }
    case Elsewhere(used, corrections) =>
      ElsewhereGood(lib, used, corrections);
  }

  lemma PromotedSame(snaps: Snapshots, id: nat)
    ensures SameContents(snaps, PromotedSnaps(snaps, id))
  {
    PromotedContents(snaps, id);
  }

  lemma PrunedSame(snaps: Snapshots, ids: set<nat>, keep: nat)
    requires ids <= snaps.Keys
    ensures SameContents(snaps, Pruned(snaps, ids, keep))
  {
  }

  /** Marking a row as a candidate, and dropping the oldest candidates. */
  lemma SuspectedSame(snaps: Snapshots, id: nat)
    ensures var m := Marked(snaps, id, Suspicious); SameContents(snaps, Pruned(m, Ids(m, Suspicious), MAX_CANDIDATES))
  {
    var m := Marked(snaps, id, Suspicious);
    PrunedSame(m, Ids(m, Suspicious), MAX_CANDIDATES);
  }

  lemma AgainSame(snaps: Snapshots, id: nat, c: nat, now: nat)
    requires c in snaps
    ensures var kept := (snaps - {id})[c := snaps[c].(fetchedAt := now)];
            SameContents(snaps, kept - Ids(kept, Suspicious))
  {
  }

  /** A refresh adds at most its own snapshot, and rewrites no other row's contents. */
  lemma RefreshRows(
    t: Track, overrides: Overrides, complete: bool, listed: seq<Listed>, id: nat, firstId: nat, now: nat)
    ensures var s := Inserted(t.snaps, id, complete, listed, now);
            SameContents(s, Refreshed(t, overrides, complete, listed, id, firstId, now).1.snaps)
  {
    hide Inserted, SameContents, Pruned, Marked, Materialized, PromotedSnaps, IsSuspicious, Lost, Ids;
    var s := Inserted(t.snaps, id, complete, listed, now);
    PromotedSame(s, id);
    SuspectedSame(s, id);
    PrunedSame(s, IncompleteIds(s), MAX_INCOMPLETE);
    if Latest(s, TrustedCurrent).Some? { AgainSame(s, id, Latest(s, TrustedCurrent).value, now); }
  }

  ghost predicate SameContents(before: Snapshots, after: Snapshots) {
    forall o :: o in after ==>
      o in before && after[o].units == before[o].units && after[o].complete == before[o].complete
  }

  /** In every history the table keeps its rules and every correction still stands. */
  lemma {:induction false} AlwaysGood(ops: seq<Op>)
    ensures Good(After(ops))
  {
    if ops != [] {
      var k := |ops| - 1;
      AlwaysGood(ops[..k]);
      DoGood(After(ops[..k]), ops[k]);
    } else {
      assert forall trust :: Ids(EMPTY.track.snaps, trust) == {};
      assert IncompleteIds(EMPTY.track.snaps) == {};
    }
  }
}
