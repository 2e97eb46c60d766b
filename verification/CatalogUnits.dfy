/** The reading units of a track mirror its trusted catalog. */
module CatalogUnits {
  import opened Common
  import opened CatalogState
  import opened CatalogTrust
  import opened CatalogRuns
  import opened CatalogHistory

  // ---- One materialization -----------------------------------------------------------------------

  /** The last row with the key: of two, the second is written last. */
  function LastRow(listed: seq<Listed>, key: string): (r: Listed)
    requires key in Keys(listed)
    ensures r in listed && r.key == key
  {
    var k := |listed| - 1;
    if listed[k].key == key then listed[k]
    else
      assert listed == listed[..k] + [listed[k]];
      LastRow(listed[..k], key)
  }

  lemma {:induction false} UpsertedUnit(units: Units, listed: seq<Listed>, firstId: nat, now: nat, k: string)
    ensures var us := AllUpserted(units, listed, firstId, now);
            && (k in us <==> k in units || k in Keys(listed))
            && (k in Keys(listed) ==>
                  && us[k].availability == Available && us[k].missingSince == None && us[k].lastSeen == now
                  && us[k].firstSeen == if k in units then units[k].firstSeen else now)
            && (k in us && k !in Keys(listed) ==> us[k] == units[k])
  {
    if listed != [] {
      UpsertedUnit(units, listed[..|listed| - 1], firstId, now, k);
      KeysAppend(listed);
    }
  }

  /** What materializing a non-empty answer does to one unit. */
  lemma MaterializedUnit(units: Units, listed: seq<Listed>, overrides: Overrides, firstId: nat, now: nat, k: string)
    requires listed != []
    ensures var us := Materialized(units, listed, overrides, firstId, now);
            && (k in us <==> k in units || k in Keys(listed))
            && (k in Keys(listed) ==>
                  && us[k].availability == Available && us[k].missingSince == None
                  && us[k].firstSeen == if k in units then units[k].firstSeen else now)
            && (k in us && k !in Keys(listed) ==>
                  && us[k].availability == Unavailable
                  && us[k].missingSince == (if units[k].missingSince.Some? then units[k].missingSince else Some(now))
                  && us[k].firstSeen == units[k].firstSeen)
  {
    UpsertedUnit(units, listed, firstId, now, k);
  }

  /**
   The units show exactly the listed keys as available after every non-empty answer; after an empty one
   they do so exactly when nothing was available before, because no row is then marked missing.
   */
  lemma MirrorsAnswerIff(units: Units, listed: seq<Listed>, overrides: Overrides, firstId: nat, now: nat)
    ensures var us := Materialized(units, listed, overrides, firstId, now);
            (forall k :: k in us ==> (us[k].availability == Available <==> k in Keys(listed)))
            <==> (listed != [] || forall k :: k in units ==> units[k].availability != Available)
  {
    var us := Materialized(units, listed, overrides, firstId, now);
    if listed != [] {
      forall k | k in us ensures us[k].availability == Available <==> k in Keys(listed) {
        MaterializedUnit(units, listed, overrides, firstId, now, k);
      }
    } else {
      assert us.Keys == units.Keys;
      assert forall k :: k in units ==> us[k].availability == units[k].availability;
    }
  }

  // ---- Histories ---------------------------------------------------------------------------------

  /** A moment at which a trusted catalog was written to the reading units. */
  datatype Showing = Showing(at: nat, keys: set<string>)

  ghost function Shown(ops: seq<Op>): seq<Showing> {
    if ops == [] then []
    else
      var k := |ops| - 1;
      var lib := After(ops[..k]);
      Shown(ops[..k]) + ShownBy(lib, ops[k])
  }

  ghost function ShownBy(lib: Lib, op: Op): seq<Showing> {
    match op
    case Refresh(_, listed) =>
      if AnsweredWith(Do(lib, op).0, Incomplete) || AnsweredWith(Do(lib, op).0, Suspected) then []
      else [Showing(lib.clock, Keys(listed))]
    case TrustThis(id) =>
      if Do(lib, op).0 == Refused then [] else [Showing(lib.clock, Keys(lib.track.snaps[id].units))]
    case _ => []
  }

  ghost predicate NeverEmpty(shown: seq<Showing>) {
    forall i :: 0 <= i < |shown| ==> shown[i].keys != {}
  }

  /** The unit was listed just before showing `i`, and by no showing since. */
  ghost predicate GoneSince(shown: seq<Showing>, key: string, i: int) {
    && 0 < i < |shown|
    && key in shown[i - 1].keys
    && forall j :: i <= j < |shown| ==> key !in shown[j].keys
  }

  ghost predicate FirstShown(shown: seq<Showing>, key: string, i: int) {
    0 <= i < |shown| && key in shown[i].keys && forall j :: 0 <= j < i ==> key !in shown[j].keys
  }

  /** The unit tells exactly what the showings say about its key. */
  ghost predicate Tells(u: ReadingUnit, key: string, shown: seq<Showing>) {
    && shown != []
    && (u.availability == if key in shown[|shown| - 1].keys then Available else Unavailable)
    && (u.missingSince.Some? <==> key !in shown[|shown| - 1].keys)
    && (u.missingSince.Some? ==> exists i :: GoneSince(shown, key, i) && shown[i].at == u.missingSince.value)
    && exists i :: FirstShown(shown, key, i) && shown[i].at == u.firstSeen
  }

  lemma TellsNext(u: ReadingUnit, u': ReadingUnit, key: string, shown: seq<Showing>, s: Showing)
    requires Tells(u, key, shown) && u'.firstSeen == u.firstSeen
    requires u'.availability == if key in s.keys then Available else Unavailable
    requires u'.missingSince == (if key in s.keys then None else if u.missingSince.Some? then u.missingSince else Some(s.at))
    ensures Tells(u', key, shown + [s])
  {
    var all := shown + [s];
    var f :| FirstShown(shown, key, f) && shown[f].at == u.firstSeen;
    assert FirstShown(all, key, f) && all[f].at == u'.firstSeen;
    if key !in s.keys {
      if u.missingSince.Some? {
        var i :| GoneSince(shown, key, i) && shown[i].at == u.missingSince.value;
        assert GoneSince(all, key, i) && all[i].at == u'.missingSince.value;
      } else {
        assert GoneSince(all, key, |shown|) && all[|shown|].at == u'.missingSince.value;
      }
    }
  }

  lemma TellsFirst(u: ReadingUnit, key: string, shown: seq<Showing>, s: Showing)
    requires key in s.keys && forall j :: 0 <= j < |shown| ==> key !in shown[j].keys
    requires u.availability == Available && u.missingSince == None && u.firstSeen == s.at
    ensures Tells(u, key, shown + [s])
  {
    var all := shown + [s];
    assert FirstShown(all, key, |shown|) && all[|shown|].at == u.firstSeen;
  }

  ghost predicate EverShown(shown: seq<Showing>, key: string) {
    exists i :: 0 <= i < |shown| && key in shown[i].keys
  }

  ghost predicate UnitsTell(units: Units, shown: seq<Showing>) {
    forall k :: (k in units <==> EverShown(shown, k)) && (k in units ==> Tells(units[k], k, shown))
  }

  lemma MaterializedTells(
    units: Units, listed: seq<Listed>, overrides: Overrides, firstId: nat, now: nat, shown: seq<Showing>)
    requires UnitsTell(units, shown) && listed != []
    ensures UnitsTell(Materialized(units, listed, overrides, firstId, now), shown + [Showing(now, Keys(listed))])
  {
    var us, s := Materialized(units, listed, overrides, firstId, now), Showing(now, Keys(listed));
    var all := shown + [s];
    forall k ensures (k in us <==> EverShown(all, k)) && (k in us ==> Tells(us[k], k, all)) {
      MaterializedUnit(units, listed, overrides, firstId, now, k);
      EverShownAppend(shown, s, k);
      if k in units {
        TellsNext(units[k], us[k], k, shown, s);
      } else if k in us {
        TellsFirst(us[k], k, shown, s);
      }
    }
  }

  lemma EverShownAppend(shown: seq<Showing>, s: Showing, key: string)
    ensures EverShown(shown + [s], key) <==> EverShown(shown, key) || key in s.keys
    ensures !EverShown(shown, key) ==> forall j :: 0 <= j < |shown| ==> key !in shown[j].keys
  {
    var all := shown + [s];
    if EverShown(shown, key) {
      var i :| 0 <= i < |shown| && key in shown[i].keys;
      assert key in all[i].keys;
    }
    if key in s.keys {
      assert key in all[|shown|].keys;
    }
  }

  lemma EditTells(t: Track, overrides: Overrides, key: string, edits: Edits, shown: seq<Showing>)
    requires key in t.units && UnitsTell(t.units, shown)
    ensures UnitsTell(Edited(t, overrides, key, edits).0.units, shown)
  {
    EditFrame(t, overrides, key, edits);
    var us := Edited(t, overrides, key, edits).0.units;
    forall k ensures (k in us <==> EverShown(shown, k)) && (k in us ==> Tells(us[k], k, shown)) {
      assert k in us <==> k in t.units;
      if k in us {
        assert Tells(t.units[k], k, shown);
        assert us[k].availability == t.units[k].availability && us[k].missingSince == t.units[k].missingSince;
      }
    }
  }

  /**
   In every history whose trusted catalogs were never empty: the units are exactly the keys ever trusted,
   none is ever deleted, each is available just when the latest trusted catalog lists it, and `missing_since`
   is the first trusted catalog without it since it was last there.
   */
  lemma {:induction false} UnitsTellHistory(ops: seq<Op>)
    requires NeverEmpty(Shown(ops))
    ensures UnitsTell(After(ops).track.units, Shown(ops))
  {
    if ops == [] {
      assert forall k :: k !in EMPTY.track.units;
    } else {
      var k := |ops| - 1;
      var lib := After(ops[..k]);
      var before, new_ := Shown(ops[..k]), ShownBy(lib, ops[k]);
      assert forall i :: 0 <= i < |before| ==> Shown(ops)[i] == before[i];
      UnitsTellHistory(ops[..k]);
      if new_ != [] {
        assert Shown(ops)[|before|] == new_[0];
      } else {
        assert before + new_ == before;
      }
      DoTells(lib, ops[k], before);
    }
  }

  lemma DoTells(lib: Lib, op: Op, shown: seq<Showing>)
    requires UnitsTell(lib.track.units, shown) && NeverEmpty(ShownBy(lib, op))
    ensures UnitsTell(Do(lib, op).1.track.units, shown + ShownBy(lib, op))
  {
    hide Refreshed, Materialized, UnitsTell;
    assert shown + [] == shown;
    match op
    case Refresh(complete, listed) =>
      RefreshUnits(lib.track, lib.overrides, complete, listed, lib.nextId, lib.nextId + 1, lib.clock);
      if ShownBy(lib, op) != [] {
        assert ShownBy(lib, op)[0].keys != {};
        MaterializedTells(lib.track.units, listed, lib.overrides, lib.nextId + 1, lib.clock, shown);
      }
    case TrustThis(id) =>
      if ShownBy(lib, op) != [] {
        assert ShownBy(lib, op)[0].keys != {};
        MaterializedTells(lib.track.units, lib.track.snaps[id].units, lib.overrides, lib.nextId, lib.clock, shown);
      }
    case Edit(key, edits) =>
      if key in lib.track.units { EditTells(lib.track, lib.overrides, key, edits, shown); }
    case Elsewhere(_, _) =>
  }

  // ---- The current catalog -----------------------------------------------------------------------

  /** No step of the history trusts the snapshot that is the previous one at that moment. */
  ghost predicate NeverTrustsPrevious(ops: seq<Op>) {
    if ops == [] then true
    else
      var k := |ops| - 1;
      NeverTrustsPrevious(ops[..k]) && !TrustsPrevious(After(ops[..k]), ops[k])
  }

  ghost predicate TrustsPrevious(lib: Lib, op: Op) {
    op.TrustThis? && op.id in lib.track.snaps && lib.track.snaps[op.id].trust == TrustedPrevious
  }

  /** The current catalog is the one last written to the units. */
  ghost predicate CurrentIsShown(snaps: Snapshots, shown: seq<Showing>) {
    if shown == [] then CurrentKeys(snaps) == None else CurrentKeys(snaps) == Some(shown[|shown| - 1].keys)
  }

  lemma RefreshCurrent(lib: Lib, complete: bool, listed: seq<Listed>)
    requires Good(lib)
    ensures var shown := ShownBy(lib, Refresh(complete, listed));
            CurrentKeys(Do(lib, Refresh(complete, listed)).1.track.snaps)
            == if shown == [] then CurrentKeys(lib.track.snaps) else Some(shown[0].keys)
  {
    hide Refreshed, Good, CurrentKeys, CurrentUnits;
    if !complete {
      IncompleteAnswer(lib, listed);
      IncompleteCurrent(lib, listed);
    } else if AnsweredWith(Do(lib, Refresh(true, listed)).0, Suspected) {
      CompleteSnaps(lib, listed);
      SuspectedCurrent(lib, listed);
    } else {
      CompleteSnaps(lib, listed);
      ShownCurrent(lib, listed);
    }
  }

  lemma IncompleteAnswer(lib: Lib, listed: seq<Listed>)
    ensures AnsweredWith(Do(lib, Refresh(false, listed)).0, Incomplete)
  {
  }

  lemma IncompleteCurrent(lib: Lib, listed: seq<Listed>)
    requires Good(lib)
    ensures var snaps := Do(lib, Refresh(false, listed)).1.track.snaps;
            CurrentKeys(snaps) == CurrentKeys(lib.track.snaps) && CurrentUnits(snaps) == CurrentUnits(lib.track.snaps)
  {
    var snaps, id, now := lib.track.snaps, lib.nextId, lib.clock;
    IncompleteRefreshKeeps(snaps, id, listed, now, TrustedCurrent);
    var s := Inserted(snaps, id, false, listed, now);
    SameRowsSameLatest(Pruned(s, IncompleteIds(s), MAX_INCOMPLETE), snaps, TrustedCurrent, now);
  }

  lemma ShownCurrent(lib: Lib, listed: seq<Listed>)
    requires Good(lib) && !AnsweredWith(Do(lib, Refresh(true, listed)).0, Suspected)
    ensures var (answer, lib') := Do(lib, Refresh(true, listed));
            && CurrentKeys(lib'.track.snaps) == Some(Keys(listed))
            && CurrentUnits(lib'.track.snaps)
               == if AnsweredWith(answer, Unchanged) then CurrentUnits(lib.track.snaps) else Some(Stored(listed))
  {
    hide Do, Inserted, PromotedSnaps, SuspectedSnaps, Sound, Good;
    var snaps, id, now := lib.track.snaps, lib.nextId, lib.clock;
    GoodSound(lib);
    CompleteSnaps(lib, listed);
    if AnsweredWith(Do(lib, Refresh(true, listed)).0, Unchanged) {
      InsertedLatest(snaps, id, true, listed, now, TrustedCurrent);
      InsertedContents(snaps, id, true, listed, now);
      UnchangedSound(snaps, id, listed, Latest(snaps, TrustedCurrent).value, now);
    } else {
      InsertedPromoteSound(snaps, id, listed, now);
    }
  }

  lemma InsertedContents(snaps: Snapshots, id: nat, complete: bool, listed: seq<Listed>, now: nat)
    ensures forall o :: o in snaps && o != id ==> Inserted(snaps, id, complete, listed, now)[o] == snaps[o]
    ensures Inserted(snaps, id, complete, listed, now)[id].units == Stored(listed)
  {
  }

  lemma SuspectedCurrent(lib: Lib, listed: seq<Listed>)
    requires Good(lib)
    ensures var snaps := SuspectedSnaps(lib.track.snaps, lib.nextId, listed, lib.clock);
            CurrentKeys(snaps) == CurrentKeys(lib.track.snaps) && CurrentUnits(snaps) == CurrentUnits(lib.track.snaps)
  {
    var snaps, id, now := lib.track.snaps, lib.nextId, lib.clock;
    SuspectedSound(snaps, id, listed, now);
    SameRowsSameLatest(SuspectedSnaps(snaps, id, listed, now), snaps, TrustedCurrent, now);
  }

  lemma {:induction false} CurrentAlwaysShown(ops: seq<Op>)
    requires NeverTrustsPrevious(ops)
    ensures CurrentIsShown(After(ops).track.snaps, Shown(ops))
  {
    hide Do, TrustsPrevious, ShownBy, CurrentKeys, Good;
    if ops == [] {
      NoCurrentAtFirst();
    } else {
      var k := |ops| - 1;
      AlwaysGood(ops[..k]);
      CurrentAlwaysShown(ops[..k]);
      DoCurrent(After(ops[..k]), ops[k]);
      AtMostOneShown(After(ops[..k]), ops[k]);
    }
  }

  lemma NoCurrentAtFirst()
    ensures CurrentKeys(EMPTY.track.snaps) == None
  {
    assert Ids(EMPTY.track.snaps, TrustedCurrent) == {};
  }

  lemma AtMostOneShown(lib: Lib, op: Op)
    ensures |ShownBy(lib, op)| <= 1
  {
    hide Do;
  }

  lemma DoCurrent(lib: Lib, op: Op)
    requires Good(lib) && !TrustsPrevious(lib, op)
    ensures var shown := ShownBy(lib, op);
            CurrentKeys(Do(lib, op).1.track.snaps)
            == if shown == [] then CurrentKeys(lib.track.snaps) else Some(shown[0].keys)
  {
    hide Refreshed, Edited;
    match op
    case Refresh(complete, listed) =>
      RefreshCurrent(lib, complete, listed);
    case TrustThis(id) =>
      if Do(lib, op).0 != Refused {
        TrustLeavesCurrentIff(lib.track, lib.overrides, id, lib.nextId, lib.clock);
      }
    case Edit(key, edits) =>
      if key in lib.track.units { EditFrame(lib.track, lib.overrides, key, edits); }
    case Elsewhere(_, _) =>
  }

  /** Reading units mirror trust: a unit is available exactly when the current trusted catalog has its key. */
  lemma UnitsMirrorTrust(ops: seq<Op>, key: string)
    requires NeverEmpty(Shown(ops)) && NeverTrustsPrevious(ops)
    requires key in After(ops).track.units
    ensures CurrentKeys(After(ops).track.snaps).Some?
    ensures After(ops).track.units[key].availability == Available <==> key in CurrentKeys(After(ops).track.snaps).value
  {
    hide After, Shown, CurrentKeys, NeverEmpty, NeverTrustsPrevious;
    UnitsTellHistory(ops);
    CurrentAlwaysShown(ops);
    assert Tells(After(ops).track.units[key], key, Shown(ops));
  }

  /**
   An empty complete answer over a catalog of one to four units is trusted at once, being too small a loss
   to be suspicious, and then no unit is marked missing: each stays available though the catalog is empty.
   */
  lemma EmptyAnswerLeavesAvailable(lib: Lib, key: string)
    requires Good(lib) && CurrentKeys(lib.track.snaps).Some? && CurrentKeys(lib.track.snaps).value != {}
    requires |lib.track.snaps[Latest(lib.track.snaps, TrustedCurrent).value].units| < SUSPICIOUS_MIN_LOST
    requires key in lib.track.units && lib.track.units[key].availability == Available
    ensures var lib' := Do(lib, Refresh(true, [])).1;
            && CurrentKeys(lib'.track.snaps) == Some({})
            && key in lib'.track.units && lib'.track.units[key].availability == Available
  {
    hide Refreshed;
    var c := Latest(lib.track.snaps, TrustedCurrent).value;
    assert Keys([]) == {};
    LostAtMost(KeyList(lib.track.snaps[c].units), {});
    VerdictOnLoss(lib, []);
    ShownCurrent(lib, []);
    RefreshUnits(lib.track, lib.overrides, true, [], lib.nextId, lib.nextId + 1, lib.clock);
  }

  lemma NothingToLose(listed: seq<Listed>)
    ensures !LosesTooMuch(EMPTY.track.snaps, listed) && Latest(EMPTY.track.snaps, TrustedCurrent) == None
  {
    assert Ids(EMPTY.track.snaps, TrustedCurrent) == {};
  }

  lemma FirstRows(listed: seq<Listed>)
    ensures forall id :: id in Do(EMPTY, Refresh(true, listed)).1.track.snaps ==>
              Do(EMPTY, Refresh(true, listed)).1.track.snaps[id].units == Stored(listed)
  {
    hide Refreshed, Stored;
    RefreshRows(EMPTY.track, map[], true, listed, 0, 1, 0);
  }

  /** A first complete answer is trusted as it is. */
  lemma FirstAnswerTrusted(listed: seq<Listed>, key: string)
    requires key in Keys(listed)
    ensures var lib := Do(EMPTY, Refresh(true, listed)).1;
            && Good(lib) && lib.overrides == map[]
            && CurrentKeys(lib.track.snaps) == Some(Keys(listed))
            && key in lib.track.units && lib.track.units[key].availability == Available
            && forall id :: id in lib.track.snaps ==> lib.track.snaps[id].units == Stored(listed)
  {
    hide Refreshed, Good, Materialized, LosesTooMuch, CurrentKeys, CurrentUnits, Stored, Latest;
    AlwaysGood([]);
    RefreshGood(EMPTY, true, listed);
    NothingToLose(listed);
    VerdictOnLoss(EMPTY, listed);
    ShownCurrent(EMPTY, listed);
    FirstRows(listed);
    RefreshUnits(EMPTY.track, map[], true, listed, 0, 1, 0);
    MaterializedUnit(map[], listed, map[], 1, 0, key);
  }

  lemma EmptyCatalogLeavesAvailable() returns (ops: seq<Op>)
    ensures CurrentKeys(After(ops).track.snaps) == Some({})
    ensures "1" in After(ops).track.units && After(ops).track.units["1"].availability == Available
  {
    var one := [Listed("1", "One", "chapter", "1")];
    var first := Refresh(true, one);
    ops := [first, Refresh(true, [])];
    assert ops[..1] == [first] && [first][..0] == [];
    hide Refreshed;
    assert After([first]) == Do(EMPTY, first).1;
    assert one[0] in one && |Stored(one)| <= 1;
    AlwaysGood([first]);
    FirstAnswerTrusted(one, "1");
    EmptyAnswerLeavesAvailable(After([first]), "1");
  }

  lemma {:induction false} LostAtMost(keys: seq<string>, listed: set<string>)
    ensures |Lost(keys, listed)| <= |keys|
  {
    if keys != [] {
      LostAtMost(keys[1..], listed);
    }
  }
}
