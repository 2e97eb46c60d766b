/** The catalog service: the object that reads and rewrites the tables, one statement at a time. */
module Catalog {
  import opened Common
  import opened CatalogState
  import opened CatalogTrust
  import opened CatalogRuns

  function With(u: ReadingUnit, field: Field, value: string): ReadingUnit {
    match field
    case Number => u.(userNumber := Some(value))
    case DisplayTitle => u.(displayTitle := value)
    case UnitType => u.(unitType := value)
  }

  function Only(overrides: Overrides, done: set<(nat, Field)>): Overrides {
    map o | o in overrides && o in done :: overrides[o]
  }

  /** Writing one more correction into its column is correcting with one more override. */
  lemma CorrectOneMore(units: Units, overrides: Overrides, done: set<(nat, Field)>, o: (nat, Field))
    requires o in overrides
    ensures var us := AllCorrected(units, Only(overrides, done));
            AllCorrected(units, Only(overrides, done + {o}))
            == map k | k in us :: if us[k].id == o.0 then With(us[k], o.1, overrides[o]) else us[k]
  {
    var us := AllCorrected(units, Only(overrides, done));
    var more := Only(overrides, done + {o});
    forall k | k in units
      ensures Corrected(units[k], more) == if us[k].id == o.0 then With(us[k], o.1, overrides[o]) else us[k]
    {
      var id := units[k].id;
      assert us[k].id == id;
      match o.1
      case Number => assert (id, Number) == o <==> id == o.0;
      case DisplayTitle => assert (id, DisplayTitle) == o <==> id == o.0;
      case UnitType => assert (id, UnitType) == o <==> id == o.0;
    }
  }

  lemma CorrectAll(units: Units, overrides: Overrides)
    ensures AllCorrected(units, Only(overrides, overrides.Keys)) == AllCorrected(units, overrides)
    ensures AllCorrected(units, Only(overrides, {})) == units
  {
    assert Only(overrides, overrides.Keys) == overrides;
    assert Only(overrides, {}) == map[];
    assert forall k :: k in units ==> Corrected(units[k], map[]) == units[k];
  }

  // ---- Newest first ------------------------------------------------------------------------------

  ghost predicate NewestFirst(snaps: Snapshots, rows: seq<nat>)
    requires forall id :: id in rows ==> id in snaps
  {
    forall i, j :: 0 <= i < j < |rows| ==> snaps[rows[i]].fetchedAt > snaps[rows[j]].fetchedAt
  }

  /** In a list of rows, newest first, a row has as many newer ones as its position says. */
  lemma PositionCountsNewer(snaps: Snapshots, ids: set<nat>, rows: seq<nat>, i: nat)
    requires ids <= snaps.Keys && i < |rows|
    requires (forall id :: id in rows <==> id in ids) && NewestFirst(snaps, rows)
    ensures |Newer(snaps, ids, rows[i])| == i
  {
    assert Newer(snaps, ids, rows[i]) == Elements(rows[..i]) by {
      forall id ensures id in Newer(snaps, ids, rows[i]) <==> id in rows[..i] {
        if id in Newer(snaps, ids, rows[i]) {
          var j :| 0 <= j < |rows| && rows[j] == id;
          assert rows[..i][j] == id;
        }
      }
    }
    DistinctCount(rows[..i]);
  }

  lemma {:induction false} DistinctCount(rows: seq<nat>)
    requires forall i, j :: 0 <= i < j < |rows| ==> rows[i] != rows[j]
    ensures |Elements(rows)| == |rows|
  {
    if rows != [] {
      var k := |rows| - 1;
      DistinctCount(rows[..k]);
      assert rows == rows[..k] + [rows[k]];
      assert Elements(rows) == Elements(rows[..k]) + {rows[k]};
    } else {
      assert Elements(rows) == {};
    }
  }

  /** Deleting what follows the first `keep` rows is pruning. */
  lemma TailIsDoomed(snaps: Snapshots, ids: set<nat>, rows: seq<nat>, keep: nat)
    requires ids <= snaps.Keys
    requires (forall id :: id in rows <==> id in ids) && NewestFirst(snaps, rows)
    ensures Doomed(snaps, ids, keep) == Elements(rows[Min(keep, |rows|)..])
  {
    var from := Min(keep, |rows|);
    forall id ensures id in Doomed(snaps, ids, keep) <==> id in rows[from..] {
      if id in ids {
        var i :| 0 <= i < |rows| && rows[i] == id;
        PositionCountsNewer(snaps, ids, rows, i);
        if i >= from { assert rows[from..][i - from] == id; }
        if id in rows[from..] {
          var j :| 0 <= j < |rows[from..]| && rows[from..][j] == id;
          assert rows[from + j] == rows[i];
        }
      }
    }
  }

  lemma NothingDeleted(snaps: Snapshots)
    ensures snaps - Elements([]) == snaps
  {
  }

  lemma DeleteOneMore(snaps: Snapshots, rows: seq<nat>, row: nat)
    ensures snaps - Elements(rows) - {row} == snaps - Elements(rows + [row])
  {
  }

  lemma RelabelsTimely(snaps: Snapshots, gone: set<nat>, id: nat, now: nat)
    requires Timely(snaps, now)
    ensures Timely(Marked(Relabelled(snaps - gone, TrustedCurrent, TrustedPrevious), id, TrustedCurrent), now)
  {
  }

  lemma TouchedTimely(snaps: Snapshots, id: nat, current: nat, now: nat)
    requires Timely(snaps, now + 1) && id in snaps && current in snaps && snaps[id].fetchedAt == now
    ensures Timely((snaps - {id})[current := snaps[current].(fetchedAt := now)], now + 1)
  {
  }

  lemma InsertedRow(snaps: Snapshots, id: nat, complete: bool, listed: seq<Listed>, now: nat)
    ensures var s := Inserted(snaps, id, complete, listed, now); id in s && s[id].fetchedAt == now
  {
  }

  class Service {
    var snapshots: map<string, Snapshots>
    var units: map<string, Units>
    var overrides: Overrides
    var nextId: nat
    var clock: nat

    function SnapsOf(track: string): Snapshots
      reads this`snapshots
    {
      if track in snapshots then snapshots[track] else map[]
    }

    function UnitsOf(track: string): Units
      reads this`units
    {
      if track in units then units[track] else map[]
    }

    function LibOf(track: string): Lib
      reads this
    {
      Lib(Track(SnapsOf(track), UnitsOf(track)), overrides, nextId, clock)
    }

    constructor ()
      ensures forall track :: LibOf(track) == EMPTY
    {
      snapshots, units, overrides, nextId, clock := map[], map[], map[], 0, 0;
    }

    // ---- Queries ---------------------------------------------------------------------------------

    method Newest(track: string, ids: set<nat>) returns (r: nat)
      requires ids != {} && ids <= SnapsOf(track).Keys
      ensures IsLatest(SnapsOf(track), ids, r)
    {
      var snaps := SnapsOf(track);
      var rest := ids;
      ghost var _ := Member(ids);
      r :| r in rest;
      rest := rest - {r};
      while rest != {}
        invariant rest <= ids && r in ids
        invariant forall o :: o in ids - rest ==> snaps[o].fetchedAt <= snaps[r].fetchedAt
      {
        var id :| id in rest;
        if snaps[id].fetchedAt > snaps[r].fetchedAt {
          r := id;
        }
        rest := rest - {id};
      }
    }

    method Snapshot(track: string, trust: Trust) returns (r: Option<nat>)
      requires Timely(SnapsOf(track), clock + 1)
      ensures r == Latest(SnapsOf(track), trust)
    {
      var ids := Ids(SnapsOf(track), trust);
      if ids == {} {
        return None;
      }
      var id := Newest(track, ids);
      TheLatest(SnapsOf(track), trust, id, clock + 1);
      r := Some(id);
    }

    method TrustedCatalog(track: string) returns (r: Option<seq<string>>)
      requires Timely(SnapsOf(track), clock + 1)
      ensures r == ViewOf(Track(SnapsOf(track), UnitsOf(track))).trusted
    {
      var c := Snapshot(track, TrustedCurrent);
      r := if c.None? then None else Some(KeyList(SnapsOf(track)[c.value].units));
    }

    method SuspiciousCandidate(track: string) returns (r: bool)
      requires Timely(SnapsOf(track), clock + 1)
      ensures r == ViewOf(Track(SnapsOf(track), UnitsOf(track))).candidate
    {
      var c := Snapshot(track, Suspicious);
      r := c.Some?;
    }

    // ---- Statements on snapshots -----------------------------------------------------------------

    method SetSnaps(track: string, snaps: Snapshots)
      modifies this`snapshots
      ensures snapshots == old(snapshots)[track := snaps] && SnapsOf(track) == snaps
    {
      snapshots := snapshots[track := snaps];
    }

    /** `ORDER BY fetched_at DESC`. */
    method Rows(track: string, ids: set<nat>) returns (rows: seq<nat>)
      requires ids <= SnapsOf(track).Keys && Timely(SnapsOf(track), clock + 1)
      ensures forall id :: id in rows <==> id in ids
      ensures NewestFirst(SnapsOf(track), rows)
    {
      var snaps := SnapsOf(track);
      var rest := ids;
      rows := [];
      while rest != {}
        invariant rest <= ids && forall id :: id in rows <==> id in ids - rest
        invariant (forall id :: id in rows ==> id in snaps) && NewestFirst(snaps, rows)
        invariant forall i, id :: 0 <= i < |rows| && id in rest ==> snaps[rows[i]].fetchedAt > snaps[id].fetchedAt
      {
        var id := Newest(track, rest);
        rows := rows + [id];
        rest := rest - {id};
      }
    }

    method Prune(track: string, ids: set<nat>, keep: nat)
      requires ids <= SnapsOf(track).Keys && Timely(SnapsOf(track), clock + 1)
      modifies this`snapshots
      ensures snapshots == old(snapshots)[track := Pruned(old(SnapsOf(track)), ids, keep)]
    {
      ghost var was := SnapsOf(track);
      var rows := Rows(track, ids);
      TailIsDoomed(was, ids, rows, keep);
      var snaps := SnapsOf(track);
      var from := Min(keep, |rows|);
      hide Doomed, Timely, NewestFirst, Elements;
      assert rows[from..from] == [];
      NothingDeleted(was);
      for i := from to |rows|
        invariant snaps == was - Elements(rows[from..i]) && snapshots == old(snapshots)
      {
        assert rows[from..i + 1] == rows[from..i] + [rows[i]];
        DeleteOneMore(was, rows[from..i], rows[i]);
        snaps := snaps - {rows[i]};
      }
      assert rows[from..|rows|] == rows[from..];
      SetSnaps(track, snaps);
    }

    method ClearCandidates(track: string)
      requires Timely(SnapsOf(track), clock + 1)
      modifies this`snapshots
      ensures snapshots == old(snapshots)[track := old(SnapsOf(track)) - Ids(old(SnapsOf(track)), Suspicious)]
    {
      var ids := Ids(SnapsOf(track), Suspicious);
      assert Doomed(SnapsOf(track), ids, 0) == ids;
      Prune(track, ids, 0);
    }

    method PruneIncomplete(track: string)
      requires Timely(SnapsOf(track), clock + 1)
      modifies this`snapshots
      ensures var s := old(SnapsOf(track));
              snapshots == old(snapshots)[track := Pruned(s, IncompleteIds(s), MAX_INCOMPLETE)]
    {
      hide Timely;
      Prune(track, IncompleteIds(SnapsOf(track)), MAX_INCOMPLETE);
    }

    /** The row becomes a candidate; only the newest two candidates stay. */
    method Suspect(track: string, id: nat)
      requires Timely(SnapsOf(track), clock + 1)
      modifies this`snapshots
      ensures var marked := Marked(old(SnapsOf(track)), id, Suspicious);
              snapshots == old(snapshots)[track := Pruned(marked, Ids(marked, Suspicious), MAX_CANDIDATES)]
    {
      SetSnaps(track, Marked(SnapsOf(track), id, Suspicious));
      Prune(track, Ids(SnapsOf(track), Suspicious), MAX_CANDIDATES);
    }

    method Promote(track: string, id: nat)
      requires Timely(SnapsOf(track), clock + 1)
      modifies this`snapshots
      ensures snapshots == old(snapshots)[track := PromotedSnaps(old(SnapsOf(track)), id)]
    {
      hide Timely, Relabelled, Marked, Ids;
      var previous := Snapshot(track, TrustedPrevious);
      var snaps := SnapsOf(track);
      RelabelsTimely(snaps, if previous.Some? then {previous.value} else {}, id, clock + 1);
      if previous.Some? {
        snaps := snaps - {previous.value};
      } else {
        assert snaps - {} == snaps;
      }
      snaps := Relabelled(snaps, TrustedCurrent, TrustedPrevious);
      snaps := Marked(snaps, id, TrustedCurrent);
      SetSnaps(track, snaps);
      ClearCandidates(track);
    }

    // ---- Statements on reading units -------------------------------------------------------------

    method ApplyOverrides(track: string)
      modifies this`units
      ensures units == old(units)[track := AllCorrected(old(UnitsOf(track)), overrides)]
    {
      ghost var was := UnitsOf(track);
      var us := UnitsOf(track);
      var rest := overrides.Keys;
      ghost var done: set<(nat, Field)> := {};
      CorrectAll(was, overrides);
      while rest != {}
        invariant rest <= overrides.Keys && done == overrides.Keys - rest
        invariant us == AllCorrected(was, Only(overrides, done)) && units == old(units)
      {
        var o :| o in rest;
        CorrectOneMore(was, overrides, done, o);
        us := map k | k in us :: if us[k].id == o.0 then With(us[k], o.1, overrides[o]) else us[k];
        done := done + {o};
        rest := rest - {o};
      }
      assert done == overrides.Keys;
      assert us == AllCorrected(was, overrides);
      units := units[track := us];
    }

    method Materialize(track: string, listed: seq<Listed>, firstId: nat)
      modifies this`units
      ensures units == old(units)[track := Materialized(old(UnitsOf(track)), listed, overrides, firstId, clock)]
    {
      ghost var was := UnitsOf(track);
      var us := UnitsOf(track);
      for i := 0 to |listed|
        invariant us == AllUpserted(was, listed[..i], firstId, clock)
      {
        assert listed[..i + 1][..i] == listed[..i];
        us := Upserted(us, listed[i], firstId + i, clock);
      }
      assert listed[..|listed|] == listed;
      us := MissingMarked(us, listed, clock);
      units := units[track := us];
      ApplyOverrides(track);
    }

    // ---- The operations --------------------------------------------------------------------------

    method Refresh(track: string, complete: bool, listed: seq<Listed>) returns (outcome: Outcome)
      requires Good(LibOf(track))
      modifies this
      ensures (Answered(outcome), LibOf(track)) == Do(old(LibOf(track)), Op.Refresh(complete, listed))
      ensures Good(LibOf(track))
      ensures forall t :: t != track ==> SnapsOf(t) == old(SnapsOf(t)) && UnitsOf(t) == old(UnitsOf(t))
    {
      hide Refreshed, Good;
      ghost var was := LibOf(track);
      DoGood(was, Op.Refresh(complete, listed));
      GoodThenTimely(was, complete, listed);
      var id := nextId;
      nextId := nextId + 1 + |listed|;
      SetSnaps(track, Inserted(SnapsOf(track), id, complete, listed, clock));
      outcome := Judge(track, was.track, id, complete, listed);
      clock := clock + 1;
    }

    /** Everything a refresh decides once its snapshot row is written. */
    method Judge(track: string, ghost was: Track, id: nat, complete: bool, listed: seq<Listed>)
      returns (outcome: Outcome)
      requires SnapsOf(track) == Inserted(was.snaps, id, complete, listed, clock) && UnitsOf(track) == was.units
      requires Timely(SnapsOf(track), clock + 1)
      modifies this`snapshots, this`units
      ensures (outcome, Track(SnapsOf(track), UnitsOf(track)))
              == Refreshed(was, overrides, complete, listed, id, id + 1, clock)
      ensures forall t :: t != track ==> SnapsOf(t) == old(SnapsOf(t)) && UnitsOf(t) == old(UnitsOf(t))
    {
      hide Materialized, PromotedSnaps, Pruned, Inserted, Latest, IsSuspicious, Ids, IncompleteIds, Marked, Timely;
      hide Keys, KeyList, Lost;
      InsertedRow(was.snaps, id, complete, listed, clock);
      if !complete {
        PruneIncomplete(track);
        return Outcome(Incomplete, id, |listed|, None, 0);
      }
      var current := Snapshot(track, TrustedCurrent);
      if current.None? {
        PromoteAndShow(track, id, listed);
        return Outcome(Trusted, id, |listed|, None, 0);
      }
      outcome := Compare(track, was, id, current.value, listed);
    }

    /** A complete answer beside the current trusted catalog. */
    method Compare(track: string, ghost was: Track, id: nat, current: nat, listed: seq<Listed>)
      returns (outcome: Outcome)
      requires SnapsOf(track) == Inserted(was.snaps, id, true, listed, clock) && UnitsOf(track) == was.units
      requires Timely(SnapsOf(track), clock + 1) && Latest(SnapsOf(track), TrustedCurrent) == Some(current)
      modifies this`snapshots, this`units
      ensures (outcome, Track(SnapsOf(track), UnitsOf(track)))
              == Refreshed(was, overrides, true, listed, id, id + 1, clock)
      ensures forall t :: t != track ==> SnapsOf(t) == old(SnapsOf(t)) && UnitsOf(t) == old(UnitsOf(t))
    {
      hide Materialized, PromotedSnaps, Pruned, Inserted, Latest, IsSuspicious, Ids, IncompleteIds, Marked, Timely;
      hide Keys, KeyList, Lost;
      InsertedRow(was.snaps, id, true, listed, clock);
      var keys := KeyList(SnapsOf(track)[current].units);
      var lost := |Lost(keys, Keys(listed))|;
      if Keys(SnapsOf(track)[current].units) == Keys(listed) {
        Again(track, id, current, listed);
        return Outcome(Unchanged, current, |listed|, Some(|keys|), 0);
      }
      if IsSuspicious(|keys|, lost) {
        var candidate := Snapshot(track, Suspicious);
        if candidate.Some? && Keys(SnapsOf(track)[candidate.value].units) == Keys(listed) {
          PromoteAndShow(track, id, listed);
          return Outcome(Recovered, id, |listed|, Some(|keys|), lost);
        }
        Suspect(track, id);
        return Outcome(Suspected, id, |listed|, Some(|keys|), lost);
      }
      PromoteAndShow(track, id, listed);
      return Outcome(Trusted, id, |listed|, Some(|keys|), lost);
    }

    method PromoteAndShow(track: string, id: nat, listed: seq<Listed>)
      requires Timely(SnapsOf(track), clock + 1)
      modifies this`snapshots, this`units
      ensures snapshots == old(snapshots)[track := PromotedSnaps(old(SnapsOf(track)), id)]
      ensures units == old(units)[track := Materialized(old(UnitsOf(track)), listed, overrides, id + 1, clock)]
    {
      Promote(track, id);
      Materialize(track, listed, id + 1);
    }

    /** The same catalog again: the new row goes, the current row takes the time of this check. */
    method Again(track: string, id: nat, current: nat, listed: seq<Listed>)
      requires Timely(SnapsOf(track), clock + 1) && current in SnapsOf(track)
      requires id in SnapsOf(track) && SnapsOf(track)[id].fetchedAt == clock
      modifies this`snapshots, this`units
      ensures var s := old(SnapsOf(track));
              var kept := (s - {id})[current := s[current].(fetchedAt := clock)];
              snapshots == old(snapshots)[track := kept - Ids(kept, Suspicious)]
      ensures units == old(units)[track := Materialized(old(UnitsOf(track)), listed, overrides, id + 1, clock)]
    {
      hide Timely, Materialized, Ids;
      Materialize(track, listed, id + 1);
      var row := SnapsOf(track)[current];
      TouchedTimely(SnapsOf(track), id, current, clock);
      SetSnaps(track, SnapsOf(track) - {id});
      SetSnaps(track, SnapsOf(track)[current := row.(fetchedAt := clock)]);
      ClearCandidates(track);
    }

    method TrustCatalog(track: string, id: nat) returns (answer: Answer)
      requires Good(LibOf(track))
      modifies this
      ensures (answer, LibOf(track)) == Do(old(LibOf(track)), TrustThis(id))
      ensures Good(LibOf(track))
      ensures forall t :: t != track ==> SnapsOf(t) == old(SnapsOf(t)) && UnitsOf(t) == old(UnitsOf(t))
    {
      hide Good, Materialized, PromotedSnaps, Timely, KeepsUnits;
      ghost var was := LibOf(track);
      DoGood(was, TrustThis(id));
      GoodIsTimely(was);
      var used := if id in SnapsOf(track) then |SnapsOf(track)[id].units| else 0;
      if id !in SnapsOf(track) || !SnapsOf(track)[id].complete {
        nextId, clock := nextId + used, clock + 1;
        return Refused;
      }
      var listed := SnapsOf(track)[id].units;
      var first := nextId;
      Promote(track, id);
      Materialize(track, listed, first);
      nextId, clock := nextId + used, clock + 1;
      answer := Answered(Outcome(Trusted, id, |listed|, None, 0));
    }

    /** `set_unit`: records what the user decided, and lets the columns follow. */
    method SetUnit(track: string, key: string, edits: Edits) returns (answer: Answer)
      requires Good(LibOf(track))
      modifies this
      ensures (answer, LibOf(track)) == Do(old(LibOf(track)), Edit(key, edits))
      ensures Good(LibOf(track))
      ensures forall t :: t != track ==> SnapsOf(t) == old(SnapsOf(t)) && UnitsOf(t) == old(UnitsOf(t))
    {
      hide Good, Corrected, Restored, AllRecorded, Timely, KeepsUnits, TypeListed, Latest;
      ghost var was := LibOf(track);
      DoGood(was, Edit(key, edits));
      GoodIsTimely(was);
      if key !in UnitsOf(track) {
        clock := clock + 1;
        return Refused;
      }
      var u := UnitsOf(track)[key];
      var current := Snapshot(track, TrustedCurrent);
      var sourceType := if current.None? then "unknown" else TypeListed(SnapsOf(track)[current.value].units, key);
      overrides := AllRecorded(overrides, u.id, edits);
      units := units[track := UnitsOf(track)[key := Corrected(Restored(u, edits, sourceType), overrides)]];
      clock := clock + 1;
      answer := Saved;
    }
  }

  lemma GoodIsTimely(lib: Lib)
    requires Good(lib)
    ensures Timely(lib.track.snaps, lib.clock + 1)
  {
  }

  lemma GoodThenTimely(lib: Lib, complete: bool, listed: seq<Listed>)
    requires Good(lib)
    ensures Timely(Inserted(lib.track.snaps, lib.nextId, complete, listed, lib.clock), lib.clock + 1)
  {
    AddedTimely(lib.track.snaps, lib.nextId,
                Inserted(lib.track.snaps, lib.nextId, complete, listed, lib.clock)[lib.nextId], lib.clock);
  }
}
