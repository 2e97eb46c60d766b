/** What each column of a reading unit shows, and which corrections are recorded about it, after every history. */
module CatalogValues {
  import opened Common
  import opened CatalogState
  import opened CatalogTrust
  import opened CatalogRuns
  import opened CatalogHistory
  import opened CatalogUnits

  // ---- One correction ----------------------------------------------------------------------------

  function PatchOf(e: Edits, f: Field): Patch {
    match f
    case Number => e.number
    case DisplayTitle => e.displayTitle
    case UnitType => e.unitType
  }

  /** What the unit shows in the column of a field; only the user's number can be absent. */
  function Column(u: ReadingUnit, f: Field): Option<string> {
    match f
    case Number => u.userNumber
    case DisplayTitle => Some(u.displayTitle)
    case UnitType => Some(u.unitType)
  }

  /** The row recorded about one field of a unit. */
  function RowOf(overrides: Overrides, unit: nat, f: Field): Option<string> {
    if (unit, f) in overrides then Some(overrides[(unit, f)]) else None
  }

  /** What the source gives: no number of the user's, the raw title, the type stored with the current catalog. */
  ghost function Given(t: Track, key: string, f: Field): Option<string>
    requires key in t.units
  {
    match f
    case Number => None
    case DisplayTitle => Some(t.units[key].rawTitle)
    case UnitType => Some(SourceType(t.snaps, key))
  }

  /** A value put is recorded and shown, a cleared field loses its row, and a kept one keeps row and column. */
  lemma EditRecordsAndShows(t: Track, overrides: Overrides, key: string, e: Edits, f: Field)
    requires key in t.units
    requires RowOf(overrides, t.units[key].id, f).Some? ==>
               Column(t.units[key], f) == RowOf(overrides, t.units[key].id, f)
    ensures var (t', os) := Edited(t, overrides, key, e);
            var u := t.units[key];
            && key in t'.units
            && var u' := t'.units[key];
               && u' == u.(userNumber := u'.userNumber, displayTitle := u'.displayTitle, unitType := u'.unitType)
               && var row, column := RowOf(os, u.id, f), Column(u', f);
                  match PatchOf(e, f)
                  case Put(v) => row == Some(v) && column == Some(v)
                  case Clear => row == None && column == Given(t, key, f)
                  case Keep => row == RowOf(overrides, u.id, f) && column == Column(u, f)
  {
    hide SourceType;
  }

  // ---- The story of a unit -----------------------------------------------------------------------

  /** The catalog the operation writes to the units, if any. */
  ghost function Written(lib: Lib, op: Op): seq<Listed> {
    match op
    case Refresh(complete, listed) => if complete && !AnsweredWith(Do(lib, op).0, Suspected) then listed else []
    case TrustThis(id) => if id in lib.track.snaps && lib.track.snaps[id].complete then lib.track.snaps[id].units else []
    case _ => []
  }

  datatype Telling = Telling(row: Listed, at: nat)

  /** What was said about one key: the row last written, the user's corrections, and the type when uncorrected. */
  datatype Story = Story(
    told: Option<Telling>, number: Option<string>, title: Option<string>, unitType: Option<string>, plainType: string)

  const UNTOLD := Story(None, None, None, None, "unknown")

  function Said(before: Option<string>, p: Patch): Option<string> {
    match p
    case Keep => before
    case Clear => None
    case Put(v) => Some(v)
  }

  function SaidOf(s: Story, f: Field): Option<string> {
    match f
    case Number => s.number
    case DisplayTitle => s.title
    case UnitType => s.unitType
  }

  ghost function StoryOf(ops: seq<Op>, key: string): Story {
    if ops == [] then UNTOLD
    else
      var k := |ops| - 1;
      Continued(StoryOf(ops[..k], key), After(ops[..k]), ops[k], key)
  }

  ghost function Continued(s: Story, lib: Lib, op: Op, key: string): Story {
    match op
    case Edit(k, e) =>
      if k != key || key !in lib.track.units then s
      else s.(number := Said(s.number, e.number), title := Said(s.title, e.displayTitle),
              unitType := Said(s.unitType, e.unitType),
              plainType := if e.unitType == Clear then SourceType(lib.track.snaps, key) else s.plainType)
    case _ =>
      if key !in Keys(Written(lib, op)) then s
      else
        var row := LastRow(Written(lib, op), key);
        s.(told := Some(Telling(row, lib.clock)), plainType := row.unitType)
  }

  function OrElse(a: Option<string>, b: string): string {
    if a.Some? then a.value else b
  }

  /** The unit shows what its story says, and what the user said is what is recorded about it. */
  predicate Shows(u: ReadingUnit, overrides: Overrides, s: Story) {
    && s.told.Some?
    && u.rawTitle == s.told.value.row.title && u.sourceNumber == s.told.value.row.number
    && u.lastSeen == s.told.value.at
    && RowOf(overrides, u.id, Number) == s.number
    && RowOf(overrides, u.id, DisplayTitle) == s.title
    && RowOf(overrides, u.id, UnitType) == s.unitType
    && u.userNumber == s.number
    && u.displayTitle == OrElse(s.title, s.told.value.row.title)
    && u.unitType == OrElse(s.unitType, s.plainType)
  }

  predicate Told(units: Units, overrides: Overrides, key: string, s: Story) {
    if key in units then Shows(units[key], overrides, s) else s == UNTOLD
  }

  /** No correction is recorded about a unit that does not exist yet. */
  predicate RowsBounded(lib: Lib) {
    forall o :: o in lib.overrides ==> o.0 < lib.nextId
  }

  // ---- One operation -----------------------------------------------------------------------------

  lemma {:induction false} UpsertedWrites(units: Units, listed: seq<Listed>, firstId: nat, now: nat, key: string)
    ensures var us := AllUpserted(units, listed, firstId, now);
            && (key in us <==> key in units || key in Keys(listed))
            && (key in units && key !in Keys(listed) ==> us[key] == units[key])
            && (key in Keys(listed) ==>
                  var u, row := us[key], LastRow(listed, key);
                  && u.rawTitle == row.title && u.displayTitle == row.title && u.unitType == row.unitType
                  && u.sourceNumber == row.number && u.lastSeen == now
                  && (if key in units then u.id == units[key].id && u.userNumber == units[key].userNumber
                      else u.id >= firstId && u.userNumber == None))
  {
    if listed != [] {
      UpsertedWrites(units, listed[..|listed| - 1], firstId, now, key);
      KeysAppend(listed);
    }
  }

  lemma MaterializedShows(
    units: Units, listed: seq<Listed>, overrides: Overrides, firstId: nat, now: nat, key: string, s: Story)
    requires Told(units, overrides, key, s)
    requires forall o :: o in overrides ==> o.0 < firstId
    ensures var s' := if key !in Keys(listed) then s
                      else s.(told := Some(Telling(LastRow(listed, key), now)),
                              plainType := LastRow(listed, key).unitType);
            Told(Materialized(units, listed, overrides, firstId, now), overrides, key, s')
  {
    UpsertedWrites(units, listed, firstId, now, key);
  }

  lemma EditShows(lib: Lib, key: string, e: Edits, other: string, s: Story)
    requires Good(lib) && Told(lib.track.units, lib.overrides, key, s)
    ensures var lib' := Do(lib, Edit(other, e)).1;
            Told(lib'.track.units, lib'.overrides, key, Continued(s, lib, Edit(other, e), key))
  {
    if other == key {
      if key in lib.track.units {
        OwnEditShows(lib, key, e, s);
      }
    } else if other in lib.track.units {
      hide Sound, CorrectionsHold, Edited;
      EditFrame(lib.track, lib.overrides, other, e);
    }
  }

  lemma OwnEditShows(lib: Lib, key: string, e: Edits, s: Story)
    requires key in lib.track.units && Told(lib.track.units, lib.overrides, key, s)
    ensures var lib' := Do(lib, Edit(key, e)).1;
            Told(lib'.track.units, lib'.overrides, key, Continued(s, lib, Edit(key, e), key))
  {
    hide Edited, SourceType;
    EditRecordsAndShows(lib.track, lib.overrides, key, e, Number);
    EditRecordsAndShows(lib.track, lib.overrides, key, e, DisplayTitle);
    EditRecordsAndShows(lib.track, lib.overrides, key, e, UnitType);
  }

  lemma ElsewhereShows(lib: Lib, used: nat, corrections: Overrides, key: string, s: Story)
    requires Told(lib.track.units, lib.overrides, key, s)
    ensures Told(lib.track.units, Do(lib, Elsewhere(used, corrections)).1.overrides, key, s)
  {
    hide Beside;
    if key in lib.track.units {
      ElsewhereFrame(lib, used, corrections, key, Number);
      ElsewhereFrame(lib, used, corrections, key, DisplayTitle);
      ElsewhereFrame(lib, used, corrections, key, UnitType);
    }
  }

  lemma RefreshShows(lib: Lib, complete: bool, listed: seq<Listed>, key: string, s: Story)
    requires RowsBounded(lib) && Told(lib.track.units, lib.overrides, key, s)
    ensures var lib' := Do(lib, Refresh(complete, listed)).1;
            Told(lib'.track.units, lib'.overrides, key, Continued(s, lib, Refresh(complete, listed), key))
  {
    hide Refreshed, Told, Materialized, LastRow;
    RefreshUnits(lib.track, lib.overrides, complete, listed, lib.nextId, lib.nextId + 1, lib.clock);
    MaterializedShows(lib.track.units, listed, lib.overrides, lib.nextId + 1, lib.clock, key, s);
    IncompleteIff(lib, complete, listed);
  }

  lemma IncompleteIff(lib: Lib, complete: bool, listed: seq<Listed>)
    ensures AnsweredWith(Do(lib, Refresh(complete, listed)).0, Incomplete) <==> !complete
  {
  }

  lemma TrustShows(lib: Lib, id: nat, key: string, s: Story)
    requires RowsBounded(lib) && Told(lib.track.units, lib.overrides, key, s)
    ensures var lib' := Do(lib, TrustThis(id)).1;
            Told(lib'.track.units, lib'.overrides, key, Continued(s, lib, TrustThis(id), key))
  {
    hide Told, Materialized, LastRow, PromotedSnaps;
    if id in lib.track.snaps {
      MaterializedShows(lib.track.units, lib.track.snaps[id].units, lib.overrides, lib.nextId, lib.clock, key, s);
    }
  }

  lemma DoBounded(lib: Lib, op: Op)
    requires Good(lib) && RowsBounded(lib)
    ensures RowsBounded(Do(lib, op).1)
  {
    hide Refreshed, TrustChosen, Sound, CorrectionsHold;
    match op
    case Edit(key, e) =>
      if key in lib.track.units { EditBounded(lib, key, e); }
    case Elsewhere(used, corrections) =>
    case _ =>
  }

  lemma EditBounded(lib: Lib, key: string, e: Edits)
    requires key in lib.track.units && lib.track.units[key].id < lib.nextId && RowsBounded(lib)
    ensures RowsBounded(Do(lib, Edit(key, e)).1)
  {
    hide Restored, Corrected, SourceType;
  }

  // ---- Every history -----------------------------------------------------------------------------

  lemma {:induction false} AlwaysBounded(ops: seq<Op>)
    ensures RowsBounded(After(ops))
  {
    if ops != [] {
      hide Do, Good, RowsBounded;
      AlwaysBounded(ops[..|ops| - 1]);
      AlwaysGood(ops[..|ops| - 1]);
      DoBounded(After(ops[..|ops| - 1]), ops[|ops| - 1]);
    }
  }

  /**
   In every history, a unit exists exactly if a written catalog listed it, it shows the title and number that the
   last such catalog gave it, under whatever the user last put there and did not take back, and the rows recorded
   about it are exactly those corrections.
   */
  lemma {:induction false} UnitsShowStory(ops: seq<Op>, key: string)
    ensures Told(After(ops).track.units, After(ops).overrides, key, StoryOf(ops, key))
  {
    if ops != [] {
      hide Do, Good, RowsBounded, Told, Continued;
      var k := |ops| - 1;
      var lib, s := After(ops[..k]), StoryOf(ops[..k], key);
      UnitsShowStory(ops[..k], key);
      AlwaysGood(ops[..k]);
      AlwaysBounded(ops[..k]);
      DoShows(lib, ops[k], key, s);
    }
  }

  lemma DoShows(lib: Lib, op: Op, key: string, s: Story)
    requires Good(lib) && RowsBounded(lib) && Told(lib.track.units, lib.overrides, key, s)
    ensures var lib' := Do(lib, op).1; Told(lib'.track.units, lib'.overrides, key, Continued(s, lib, op, key))
  {
    hide Good, RowsBounded, Told, Refreshed, TrustChosen, Edited, Beside, LastRow;
    match op
    case Refresh(complete, listed) =>
      RefreshShows(lib, complete, listed, key, s);
    case TrustThis(id) =>
      TrustShows(lib, id, key, s);
    case Edit(other, e) =>
      EditShows(lib, key, e, other, s);
    case Elsewhere(used, corrections) =>
      ElsewhereShows(lib, used, corrections, key, s);
  }

  /** No operation corrects that field of that unit. */
  predicate LeavesField(ops: seq<Op>, key: string, f: Field) {
    forall i :: 0 <= i < |ops| && ops[i].Edit? && ops[i].key == key ==> PatchOf(ops[i].edits, f) == Keep
  }

  lemma {:induction false} SaidStays(ops: seq<Op>, more: seq<Op>, key: string, f: Field)
    requires LeavesField(more, key, f)
    ensures SaidOf(StoryOf(ops + more, key), f) == SaidOf(StoryOf(ops, key), f)
  {
    if more == [] {
      assert ops + more == ops;
    } else {
      var k := |more| - 1;
      SaidStays(ops, more[..k], key, f);
      StoryLast(ops, more, key);
      SaidKept(StoryOf(ops + more[..k], key), After(ops + more[..k]), more[k], key, f);
    }
  }

  lemma StoryLast(ops: seq<Op>, more: seq<Op>, key: string)
    requires more != []
    ensures var k := |more| - 1;
            StoryOf(ops + more, key)
            == Continued(StoryOf(ops + more[..k], key), After(ops + more[..k]), more[k], key)
  {
    hide Continued, After;
    var all := ops + more;
    assert all[..|all| - 1] == ops + more[..|more| - 1];
  }

  lemma SaidKept(s: Story, lib: Lib, op: Op, key: string, f: Field)
    requires op.Edit? && op.key == key ==> PatchOf(op.edits, f) == Keep
    ensures SaidOf(Continued(s, lib, op, key), f) == SaidOf(s, f)
  {
    hide Written, LastRow, SourceType;
  }

  /**
   A correction lasts: whatever the source answers and whatever else is trusted or corrected, until the user says
   something else about that field of that unit its row and its column hold the value put there.
   */
  lemma CorrectionLasts(ops: seq<Op>, key: string, e: Edits, more: seq<Op>, f: Field)
    requires key in After(ops).track.units && PatchOf(e, f).Put? && LeavesField(more, key, f)
    ensures var lib := After(ops + [Edit(key, e)] + more);
            && key in lib.track.units
            && RowOf(lib.overrides, lib.track.units[key].id, f) == Some(PatchOf(e, f).value)
            && Column(lib.track.units[key], f) == Some(PatchOf(e, f).value)
  {
    var now := ops + [Edit(key, e)];
    hide After, Told, LeavesField, Edited;
    SaidNow(ops, key, e, f);
    SaidStays(now, more, key, f);
    UnitsShowStory(ops, key);
    UnitsShowStory(now + more, key);
    hide StoryOf;
    SaidIsShown(After(now + more), key, StoryOf(now + more, key), f);
  }

  lemma SaidNow(ops: seq<Op>, key: string, e: Edits, f: Field)
    requires key in After(ops).track.units && PatchOf(e, f).Put?
    ensures SaidOf(StoryOf(ops + [Edit(key, e)], key), f) == Some(PatchOf(e, f).value)
  {
    hide After, SourceType;
    assert (ops + [Edit(key, e)])[..|ops|] == ops;
  }

  lemma SaidIsShown(lib: Lib, key: string, s: Story, f: Field)
    requires Told(lib.track.units, lib.overrides, key, s) && SaidOf(s, f).Some?
    ensures key in lib.track.units
    ensures RowOf(lib.overrides, lib.track.units[key].id, f) == SaidOf(s, f)
    ensures Column(lib.track.units[key], f) == SaidOf(s, f)
  {
  }
}
