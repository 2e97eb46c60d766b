/** Correcting a reading unit and taking the correction back: when the unit is what it was before. */
module CatalogCorrections {
  import opened Common
  import opened CatalogState
  import opened CatalogTrust
  import opened CatalogRuns
  import opened CatalogHistory
  import opened CatalogUnits

  // ---- Titles and numbers ------------------------------------------------------------------------

  /** Without a correction, a unit shows the title its source gives it, and no number of the user's. */
  ghost predicate FromSource(units: Units, overrides: Overrides) {
    forall k :: k in units ==>
      && ((units[k].id, DisplayTitle) !in overrides ==> units[k].displayTitle == units[k].rawTitle)
      && ((units[k].id, Number) !in overrides ==> units[k].userNumber == None)
  }

  lemma {:induction false} UpsertedFromSource(
    units: Units, overrides: Overrides, listed: seq<Listed>, firstId: nat, now: nat)
    requires FromSource(units, overrides)
    ensures FromSource(AllUpserted(units, listed, firstId, now), overrides)
  {
    if listed != [] {
      UpsertedFromSource(units, overrides, listed[..|listed| - 1], firstId, now);
    }
  }

  lemma MaterializedFromSource(units: Units, overrides: Overrides, listed: seq<Listed>, firstId: nat, now: nat)
    requires FromSource(units, overrides)
    ensures FromSource(Materialized(units, listed, overrides, firstId, now), overrides)
  {
    UpsertedFromSource(units, overrides, listed, firstId, now);
  }

  lemma EditFromSource(lib: Lib, key: string, edits: Edits)
    requires Good(lib) && FromSource(lib.track.units, lib.overrides) && key in lib.track.units
    ensures var (t, os) := Edited(lib.track, lib.overrides, key, edits); FromSource(t.units, os)
  {
    hide Sound, SourceType, CorrectionsHold, KeepsUnits;
    EditFrame(lib.track, lib.overrides, key, edits);
    var (t, os) := Edited(lib.track, lib.overrides, key, edits);
    assert forall k :: k in t.units && k != key ==> t.units[k].id != lib.track.units[key].id;
  }

  lemma ElsewhereFromSource(lib: Lib, used: nat, corrections: Overrides)
    requires FromSource(lib.track.units, lib.overrides)
    ensures FromSource(lib.track.units, Do(lib, Elsewhere(used, corrections)).1.overrides)
  {
    hide Beside;
    forall k | k in lib.track.units
      ensures forall f :: var o := (lib.track.units[k].id, f);
                o in Do(lib, Elsewhere(used, corrections)).1.overrides <==> o in lib.overrides
    {
      forall f { ElsewhereFrame(lib, used, corrections, k, f); }
    }
  }

  lemma {:induction false} AlwaysFromSource(ops: seq<Op>)
    ensures FromSource(After(ops).track.units, After(ops).overrides)
  {
    if ops != [] {
      hide Refreshed, Materialized, Edited, FromSource, Good;
      var k := |ops| - 1;
      var lib := After(ops[..k]);
      AlwaysFromSource(ops[..k]);
      AlwaysGood(ops[..k]);
      match ops[k]
      case Refresh(complete, listed) =>
        RefreshUnits(lib.track, lib.overrides, complete, listed, lib.nextId, lib.nextId + 1, lib.clock);
        MaterializedFromSource(lib.track.units, lib.overrides, listed, lib.nextId + 1, lib.clock);
      case TrustThis(id) =>
        if id in lib.track.snaps {
          MaterializedFromSource(lib.track.units, lib.overrides, lib.track.snaps[id].units, lib.nextId, lib.clock);
        }
      case Edit(key, edits) =>
        if key in lib.track.units { EditFromSource(lib, key, edits); }
      case Elsewhere(used, corrections) =>
        ElsewhereFromSource(lib, used, corrections);
    } else {
      assert EMPTY.track.units == map[];
    }
  }

  // ---- Taking corrections back -------------------------------------------------------------------

  const CLEAR_ALL := Edits(Clear, Clear, Clear)

  ghost predicate Uncorrected(lib: Lib, key: string)
    requires key in lib.track.units
  {
    forall f :: (lib.track.units[key].id, f) !in lib.overrides
  }

  /**
   Taking every correction of a unit back leaves, whatever was corrected before, no override, no user number,
   the source's title, and the type stored with the current trusted catalog.
   */
  lemma ClearGivesBack(lib: Lib, key: string)
    requires key in lib.track.units
    ensures var (t, os) := Edited(lib.track, lib.overrides, key, CLEAR_ALL);
            var u := lib.track.units[key];
            && (forall f :: (u.id, f) !in os)
            && t.units[key] == u.(userNumber := None, displayTitle := u.rawTitle,
                                  unitType := SourceType(lib.track.snaps, key))
  {
    var u := lib.track.units[key];
    var os := AllRecorded(lib.overrides, u.id, CLEAR_ALL);
    forall f ensures (u.id, f) !in os {
      match f case Number => case DisplayTitle => case UnitType =>
    }
  }

  lemma RecordThenClear(overrides: Overrides, unit: nat, edits: Edits)
    requires forall f :: (unit, f) !in overrides
    ensures AllRecorded(AllRecorded(overrides, unit, edits), unit, CLEAR_ALL) == overrides
  {
    var a := Recorded(overrides, unit, Number, edits.number);
    var b := Recorded(a, unit, DisplayTitle, edits.displayTitle);
    var c := Recorded(b, unit, UnitType, edits.unitType);
    var gone := {(unit, Number), (unit, DisplayTitle), (unit, UnitType)};
    assert a - gone == overrides;
    assert b - gone == overrides;
    assert c - gone == overrides;
    assert AllRecorded(c, unit, CLEAR_ALL) == c - gone;
  }

  /**
   In every history: correcting an uncorrected unit and taking it all back changes nothing at all if and only if
   the unit's type is the one stored for it with the current trusted catalog ("unknown" if there is none).
   */
  lemma CorrectThenClearIff(ops: seq<Op>, key: string, edits: Edits)
    requires key in After(ops).track.units && Uncorrected(After(ops), key)
    ensures var lib := After(ops);
            var (t, os) := Edited(lib.track, lib.overrides, key, edits);
            Edited(t, os, key, CLEAR_ALL) == (lib.track, lib.overrides)
            <==> lib.track.units[key].unitType == SourceType(lib.track.snaps, key)
  {
    hide After;
    AlwaysFromSource(ops);
    var lib := After(ops);
    var u := lib.track.units[key];
    var (t, os) := Edited(lib.track, lib.overrides, key, edits);
    var (t', os') := Edited(t, os, key, CLEAR_ALL);
    ClearGivesBack(Lib(t, os, 0, 0), key);
    RecordThenClear(lib.overrides, u.id, edits);
    if u.unitType == SourceType(lib.track.snaps, key) {
      assert t'.units == lib.track.units;
    }
  }

  // ---- When the stored type is the unit's --------------------------------------------------------

  /** The type the units are told: of two rows with one key, the last is written last. */
  function TypeTold(units: seq<Listed>, key: string): string {
    if key in Keys(units) then LastRow(units, key).unitType else "unknown"
  }

  lemma {:induction false} UpsertedType(units: Units, listed: seq<Listed>, firstId: nat, now: nat, key: string)
    requires key in Keys(listed)
    ensures var us := AllUpserted(units, listed, firstId, now); key in us && us[key].unitType == TypeTold(listed, key)
  {
    var k := |listed| - 1;
    KeysAppend(listed);
    if listed[k].key != key {
      UpsertedType(units, listed[..k], firstId, now, key);
    }
  }

  /** What materializing an answer does to the type of one unit. */
  lemma MaterializedType(units: Units, listed: seq<Listed>, overrides: Overrides, firstId: nat, now: nat, key: string)
    requires key in Materialized(units, listed, overrides, firstId, now)
    ensures var u := Materialized(units, listed, overrides, firstId, now)[key];
            (u.id, UnitType) !in overrides && key in Keys(listed) ==> u.unitType == TypeTold(listed, key)
  {
    if key in Keys(listed) {
      UpsertedType(units, listed, firstId, now, key);
    }
  }

  /** Rows of one answer with the same key say the same type. */
  ghost predicate OneType(listed: seq<Listed>) {
    forall i, j :: 0 <= i < j < |listed| && listed[i].key == listed[j].key ==> listed[i].unitType == listed[j].unitType
  }

  lemma {:induction false} ToldIsSaid(listed: seq<Listed>, u: Listed)
    requires OneType(listed) && u in listed
    ensures TypeTold(listed, u.key) == u.unitType
  {
    var k := |listed| - 1;
    if listed[k].key != u.key {
      assert listed == listed[..k] + [listed[k]];
      ToldIsSaid(listed[..k], u);
    }
  }

  lemma {:induction false} ListedRow(listed: seq<Listed>, key: string) returns (u: Listed)
    requires key in Keys(listed)
    ensures u in listed && u.key == key && TypeListed(listed, key) == u.unitType
  {
    if listed[0].key == key {
      u := listed[0];
    } else {
      assert listed == [listed[0]] + listed[1..];
      u := ListedRow(listed[1..], key);
    }
  }

  lemma {:induction false} StoredRows(listed: seq<Listed>)
    ensures forall u :: u in Stored(listed) ==> u in listed
  {
    if listed != [] {
      StoredRows(listed[..|listed| - 1]);
    }
  }

  /** An answer of one type for each key tells the units just what it stores. */
  lemma StoredType(listed: seq<Listed>, key: string)
    requires OneType(listed) && key in Keys(listed)
    ensures TypeTold(listed, key) == TypeListed(Stored(listed), key)
  {
    var u := ListedRow(Stored(listed), key);
    StoredRows(listed);
    ToldIsSaid(listed, u);
  }

  /** The answer gives every unit the type already stored for it. */
  ghost predicate Repeats(snaps: Snapshots, listed: seq<Listed>) {
    forall u :: u in listed ==> u.unitType == SourceType(snaps, u.key)
  }

  /**
   No answer written to the units says two types for one key, and none that was found to be the same catalog again
   changes a type.
   */
  ghost predicate Steady(ops: seq<Op>) {
    ops == []
    || (Steady(ops[..|ops| - 1]) && SteadyStep(After(ops[..|ops| - 1]), ops[|ops| - 1]))
  }

  ghost predicate SteadyStep(lib: Lib, op: Op) {
    op.Refresh? && ShownBy(lib, op) != [] ==>
      && OneType(op.listed)
      && (AnsweredWith(Do(lib, op).0, Unchanged) ==> Repeats(lib.track.snaps, op.listed))
  }

  ghost predicate InCurrent(snaps: Snapshots, key: string) {
    CurrentUnits(snaps).Some? && key in Keys(CurrentUnits(snaps).value)
  }

  /** Every unit of the current catalog whose type is not corrected has the type stored there. */
  ghost predicate TypesStored(t: Track, overrides: Overrides) {
    forall k :: k in t.units && InCurrent(t.snaps, k) && (t.units[k].id, UnitType) !in overrides ==>
      t.units[k].unitType == SourceType(t.snaps, k)
  }

  /** Units written from an answer with just the types that the current catalog stores. */
  lemma WrittenTypes(t: Track, overrides: Overrides, units: Units, listed: seq<Listed>, firstId: nat, now: nat)
    requires t.units == Materialized(units, listed, overrides, firstId, now)
    requires CurrentUnits(t.snaps).Some? && Keys(CurrentUnits(t.snaps).value) == Keys(listed)
    requires forall k :: k in Keys(listed) ==> TypeTold(listed, k) == SourceType(t.snaps, k)
    ensures TypesStored(t, overrides)
  {
    hide Materialized, SourceType, TypeTold;
    forall k | k in t.units && InCurrent(t.snaps, k) && (t.units[k].id, UnitType) !in overrides
      ensures t.units[k].unitType == SourceType(t.snaps, k)
    {
      MaterializedType(units, listed, overrides, firstId, now, k);
    }
  }

  lemma SameCurrentSameTypes(a: Snapshots, b: Snapshots, key: string)
    requires CurrentUnits(a) == CurrentUnits(b)
    ensures SourceType(a, key) == SourceType(b, key) && InCurrent(a, key) == InCurrent(b, key)
  {
  }

  lemma CurrentType(snaps: Snapshots, key: string)
    requires CurrentUnits(snaps).Some?
    ensures SourceType(snaps, key) == TypeListed(CurrentUnits(snaps).value, key)
  {
  }

  lemma RefreshTypes(lib: Lib, complete: bool, listed: seq<Listed>)
    requires Good(lib) && TypesStored(lib.track, lib.overrides) && SteadyStep(lib, Refresh(complete, listed))
    ensures var lib' := Do(lib, Refresh(complete, listed)).1; TypesStored(lib'.track, lib'.overrides)
  {
    hide Refreshed, Good, CurrentUnits, InCurrent, SourceType, TypeTold;
    var (answer, lib') := Do(lib, Refresh(complete, listed));
    RefreshUnits(lib.track, lib.overrides, complete, listed, lib.nextId, lib.nextId + 1, lib.clock);
    if ShownBy(lib, Refresh(complete, listed)) == [] {
      QuietCurrent(lib, complete, listed);
      forall k ensures SourceType(lib'.track.snaps, k) == SourceType(lib.track.snaps, k)
                       && InCurrent(lib'.track.snaps, k) == InCurrent(lib.track.snaps, k) {
        SameCurrentSameTypes(lib'.track.snaps, lib.track.snaps, k);
      }
    } else {
      ShownTypes(lib, complete, listed);
      WrittenTypes(lib'.track, lib.overrides, lib.track.units, listed, lib.nextId + 1, lib.clock);
    }
  }

  /** A refresh that is not written to the units leaves the current catalog as it is. */
  lemma QuietCurrent(lib: Lib, complete: bool, listed: seq<Listed>)
    requires Good(lib) && ShownBy(lib, Refresh(complete, listed)) == []
    ensures CurrentUnits(Do(lib, Refresh(complete, listed)).1.track.snaps) == CurrentUnits(lib.track.snaps)
  {
    hide Good, CurrentUnits;
    if !complete {
      IncompleteCurrent(lib, listed);
    } else {
      CompleteSnaps(lib, listed);
      SuspectedCurrent(lib, listed);
    }
  }

  lemma ShownTypes(lib: Lib, complete: bool, listed: seq<Listed>)
    requires Good(lib) && SteadyStep(lib, Refresh(complete, listed)) && ShownBy(lib, Refresh(complete, listed)) != []
    ensures var snaps := Do(lib, Refresh(complete, listed)).1.track.snaps;
            && CurrentUnits(snaps).Some? && Keys(CurrentUnits(snaps).value) == Keys(listed)
            && forall k :: k in Keys(listed) ==> TypeTold(listed, k) == SourceType(snaps, k)
  {
    hide Good, Refreshed, TypeTold, SourceType, Stored;
    if complete {
      ShownCurrent(lib, listed);
      var (answer, lib') := Do(lib, Refresh(true, listed));
      var snaps := lib'.track.snaps;
      forall k | k in Keys(listed) ensures TypeTold(listed, k) == SourceType(snaps, k) {
        if AnsweredWith(answer, Unchanged) {
          var u :| u in listed && u.key == k;
          ToldIsSaid(listed, u);
          SameCurrentSameTypes(snaps, lib.track.snaps, k);
        } else {
          StoredType(listed, k);
          CurrentType(snaps, k);
        }
      }
    } else {
      IncompleteAnswer(lib, listed);
      assert false;
    }
  }

  lemma TrustTypes(lib: Lib, id: nat)
    requires Good(lib) && TypesStored(lib.track, lib.overrides)
    requires id in lib.track.snaps ==> Distinct(KeyList(lib.track.snaps[id].units))
    ensures var lib' := Do(lib, TrustThis(id)).1; TypesStored(lib'.track, lib'.overrides)
  {
    hide Materialized, SourceType, Good, CurrentUnits, PromotedSnaps, TypeTold;
    var (answer, lib') := Do(lib, TrustThis(id));
    if answer != Refused {
      ChosenCurrent(lib, id);
      if CurrentUnits(lib'.track.snaps).Some? {
        var listed := lib.track.snaps[id].units;
        DistinctOneType(listed);
        forall k | k in Keys(listed) ensures TypeTold(listed, k) == SourceType(lib'.track.snaps, k) {
          var u := ListedRow(listed, k);
          ToldIsSaid(listed, u);
          CurrentType(lib'.track.snaps, k);
        }
        WrittenTypes(lib'.track, lib.overrides, lib.track.units, listed, lib.nextId, lib.clock);
      }
    }
  }

  lemma DistinctOneType(listed: seq<Listed>)
    requires Distinct(KeyList(listed))
    ensures OneType(listed)
  {
    var keys := KeyList(listed);
    assert forall i, j :: 0 <= i < j < |listed| ==> keys[i] != keys[j];
    assert forall i :: 0 <= i < |listed| ==> keys[i] == listed[i].key;
  }

  lemma ChosenCurrent(lib: Lib, id: nat)
    requires Good(lib) && Do(lib, TrustThis(id)).0 != Refused
    ensures var c := CurrentUnits(Do(lib, TrustThis(id)).1.track.snaps); c.None? || c == Some(lib.track.snaps[id].units)
  {
    hide Materialized;
    PromotedRows(lib.track.snaps, id);
    PromotedContents(lib.track.snaps, id);
  }

  lemma EditTypes(lib: Lib, key: string, edits: Edits)
    requires Good(lib) && TypesStored(lib.track, lib.overrides) && key in lib.track.units
    ensures var (t, os) := Edited(lib.track, lib.overrides, key, edits); TypesStored(t, os)
  {
    hide InCurrent, SourceType;
    EditFrame(lib.track, lib.overrides, key, edits);
    var (t, os) := Edited(lib.track, lib.overrides, key, edits);
    assert forall k :: k in t.units && k != key ==> t.units[k].id != lib.track.units[key].id;
  }

  lemma ElsewhereTypes(lib: Lib, used: nat, corrections: Overrides)
    requires TypesStored(lib.track, lib.overrides)
    ensures TypesStored(lib.track, Do(lib, Elsewhere(used, corrections)).1.overrides)
  {
    hide Beside, InCurrent, SourceType;
    forall k | k in lib.track.units
      ensures var o := (lib.track.units[k].id, UnitType);
              o in Do(lib, Elsewhere(used, corrections)).1.overrides <==> o in lib.overrides
    {
      ElsewhereFrame(lib, used, corrections, k, UnitType);
    }
  }

  /** In every steady history an uncorrected unit of the current catalog has the type stored there. */
  lemma {:induction false} TypesAlwaysStored(ops: seq<Op>)
    requires Steady(ops)
    ensures TypesStored(After(ops).track, After(ops).overrides)
  {
    if ops != [] {
      hide Refreshed, TrustChosen, Edited, TypesStored, SteadyStep, Good;
      var k := |ops| - 1;
      var lib := After(ops[..k]);
      TypesAlwaysStored(ops[..k]);
      AlwaysGood(ops[..k]);
      match ops[k]
      case Refresh(complete, listed) =>
        RefreshTypes(lib, complete, listed);
      case TrustThis(id) =>
        if id in lib.track.snaps { RowsDistinct(ops[..k], id); }
        TrustTypes(lib, id);
      case Edit(key, edits) =>
        if key in lib.track.units { EditTypes(lib, key, edits); }
      case Elsewhere(used, corrections) =>
        ElsewhereTypes(lib, used, corrections);
    } else {
      NoTypesAtFirst();
    }
  }

  lemma NoTypesAtFirst()
    ensures TypesStored(EMPTY.track, EMPTY.overrides)
  {
  }

  /**
   So in a steady history correcting an uncorrected unit and taking it back changes nothing if and only if the
   current catalog lists the unit, or its type is "unknown" already: a unit that went missing loses its type.
   */
  lemma SteadyCorrectThenClearIff(ops: seq<Op>, key: string, edits: Edits)
    requires Steady(ops) && key in After(ops).track.units && Uncorrected(After(ops), key)
    ensures var lib := After(ops);
            var (t, os) := Edited(lib.track, lib.overrides, key, edits);
            Edited(t, os, key, CLEAR_ALL) == (lib.track, lib.overrides)
            <==> InCurrent(lib.track.snaps, key) || lib.track.units[key].unitType == "unknown"
  {
    hide After, Edited;
    CorrectThenClearIff(ops, key, edits);
    TypesAlwaysStored(ops);
    if !InCurrent(After(ops).track.snaps, key) { UnlistedUnknown(After(ops).track.snaps, key); }
  }

  lemma UnlistedUnknown(snaps: Snapshots, key: string)
    requires !InCurrent(snaps, key)
    ensures SourceType(snaps, key) == "unknown"
  {
    if CurrentUnits(snaps).Some? { UnlistedType(CurrentUnits(snaps).value, key); }
  }

  lemma {:induction false} UnlistedType(units: seq<Listed>, key: string)
    requires key !in Keys(units)
    ensures TypeListed(units, key) == "unknown"
  {
    if units != [] {
      assert units == [units[0]] + units[1..];
      assert units[0] in units && Keys(units[1..]) <= Keys(units);
      UnlistedType(units[1..], key);
    }
  }

  // ---- A type the source changed -----------------------------------------------------------------

  lemma SameKeysUnchanged(lib: Lib, listed: seq<Listed>)
    requires Good(lib) && CurrentKeys(lib.track.snaps) == Some(Keys(listed))
    ensures AnsweredWith(Do(lib, Refresh(true, listed)).0, Unchanged)
  {
    hide Materialized, PromotedSnaps, Stored, IsSuspicious;
    InsertedLatest(lib.track.snaps, lib.nextId, true, listed, lib.clock, TrustedCurrent);
  }

  /** The same catalog again: the units are told the new types, the stored rows keep the old. */
  lemma UnchangedKeepsStored(lib: Lib, listed: seq<Listed>, key: string)
    requires Good(lib) && CurrentKeys(lib.track.snaps) == Some(Keys(listed)) && key in Keys(listed)
    ensures var lib' := Do(lib, Refresh(true, listed)).1;
            && SourceType(lib'.track.snaps, key) == SourceType(lib.track.snaps, key)
            && key in lib'.track.units
            && var u := lib'.track.units[key];
               (u.id, UnitType) !in lib.overrides ==> u.unitType == TypeTold(listed, key)
  {
    hide Refreshed, Materialized, SourceType, CurrentUnits, Good;
    var lib' := Do(lib, Refresh(true, listed)).1;
    SameKeysUnchanged(lib, listed);
    ShownCurrent(lib, listed);
    SameCurrentSameTypes(lib.track.snaps, lib'.track.snaps, key);
    RefreshUnits(lib.track, lib.overrides, true, listed, lib.nextId, lib.nextId + 1, lib.clock);
    MaterializedKeys(lib.track.units, listed, lib.overrides, lib.nextId + 1, lib.clock, key);
    MaterializedType(lib.track.units, listed, lib.overrides, lib.nextId + 1, lib.clock, key);
  }

  lemma MaterializedKeys(units: Units, listed: seq<Listed>, overrides: Overrides, firstId: nat, now: nat, key: string)
    requires key in Keys(listed)
    ensures key in Materialized(units, listed, overrides, firstId, now)
  {
    UpsertedUnit(units, listed, firstId, now, key);
  }

  lemma FirstType(listed: seq<Listed>, key: string)
    requires key in Keys(listed)
    ensures SourceType(Do(EMPTY, Refresh(true, listed)).1.track.snaps, key) == TypeListed(Stored(listed), key)
  {
    hide Refreshed, Stored;
    AlwaysGood([]);
    FirstAnswerTrusted(listed, key);
    CurrentType(Do(EMPTY, Refresh(true, listed)).1.track.snaps, key);
  }

  lemma AfterTwo(a: Op, b: Op)
    ensures After([a, b]) == Do(Do(EMPTY, a).1, b).1
  {
    hide Do;
    var ops := [a, b];
    assert ops[..1] == [a] && [a][..0] == [];
    assert After([a]) == Do(EMPTY, a).1;
  }

  /** A second answer with the keys of the first: the unit has the new type, the catalog the old. */
  lemma FirstThenAgain(one: seq<Listed>, two: seq<Listed>, key: string)
    requires key in Keys(one) && Keys(one) == Keys(two)
    ensures var lib := After([Refresh(true, one), Refresh(true, two)]);
            && key in lib.track.units && lib.overrides == map[]
            && lib.track.units[key].unitType == TypeTold(two, key)
            && SourceType(lib.track.snaps, key) == TypeListed(Stored(one), key)
  {
    hide After, Refreshed, SourceType, Good, CurrentUnits, CurrentKeys, TypeTold, Stored;
    AfterTwo(Refresh(true, one), Refresh(true, two));
    FirstAnswerTrusted(one, key);
    FirstType(one, key);
    UnchangedKeepsStored(Do(EMPTY, Refresh(true, one)).1, two, key);
  }

  lemma TypeGivenBack(lib: Lib, key: string, edits: Edits)
    requires key in lib.track.units
    ensures var (t, os) := Edited(lib.track, lib.overrides, key, edits);
            key in t.units && Edited(t, os, key, CLEAR_ALL).0.units[key].unitType == SourceType(lib.track.snaps, key)
  {
    var (t, os) := Edited(lib.track, lib.overrides, key, edits);
    ClearGivesBack(Lib(t, os, 0, 0), key);
  }

  /**
   A history after which correcting a unit and taking it back changes its type: the source first called it a chapter
   and then, in a catalog with the same keys, a special. The unit says special; the correction gives back chapter.
   */
  lemma ClearGivesOldType(edits: Edits) returns (ops: seq<Op>)
    ensures var lib := After(ops);
            && "1" in lib.track.units && Uncorrected(lib, "1") && lib.track.units["1"].unitType == "special"
            && var (t, os) := Edited(lib.track, lib.overrides, "1", edits);
               "1" in t.units && Edited(t, os, "1", CLEAR_ALL).0.units["1"].unitType == "chapter"
  {
    hide After, Edited, SourceType;
    var one, two := [Listed("1", "One", "chapter", "1")], [Listed("1", "One", "special", "1")];
    ops := [Refresh(true, one), Refresh(true, two)];
    assert one[0] in one && two[0] in two && Keys(one) == {"1"} && Keys(two) == {"1"};
    FirstThenAgain(one, two, "1");
    TypeGivenBack(After(ops), "1", edits);
  }

  /** A first answer: each unit is told the last type listed for its key, and the first is stored. */
  lemma FirstTold(listed: seq<Listed>, key: string)
    requires key in Keys(listed)
    ensures var lib := After([Refresh(true, listed)]);
            && key in lib.track.units && lib.overrides == map[]
            && lib.track.units[key].unitType == TypeTold(listed, key)
            && SourceType(lib.track.snaps, key) == TypeListed(Stored(listed), key)
  {
    hide Refreshed, Materialized, SourceType, TypeTold, Stored, LosesTooMuch, Good, CurrentKeys, Latest;
    var ops := [Refresh(true, listed)];
    assert ops[..0] == [] && After(ops) == Do(EMPTY, ops[0]).1;
    FirstAnswerTrusted(listed, key);
    FirstType(listed, key);
    NothingToLose(listed);
    AlwaysGood([]);
    VerdictOnLoss(EMPTY, listed);
    RefreshUnits(EMPTY.track, map[], true, listed, 0, 1, 0);
    MaterializedType(map[], listed, map[], 1, 0, key);
  }

  /** A single answer that lists a key twice, as a chapter and as a special, is enough for the same. */
  lemma ClearGivesFirstType(edits: Edits) returns (ops: seq<Op>)
    ensures var lib := After(ops);
            && "1" in lib.track.units && Uncorrected(lib, "1") && lib.track.units["1"].unitType == "special"
            && var (t, os) := Edited(lib.track, lib.overrides, "1", edits);
               "1" in t.units && Edited(t, os, "1", CLEAR_ALL).0.units["1"].unitType == "chapter"
  {
    hide After, Edited, SourceType;
    var chapter, special := Listed("1", "One", "chapter", "1"), Listed("1", "One", "special", "1");
    var listed := [chapter, special];
    ops := [Refresh(true, listed)];
    assert listed[0] in listed && "1" in Keys(listed);
    assert listed[..1] == [chapter] && listed[..1][..0] == [];
    assert Stored([chapter]) == [chapter] && chapter in [chapter];
    FirstTold(listed, "1");
    TypeGivenBack(After(ops), "1", edits);
  }
}
