/** Many tracks share one library; each of them sees only a history of its own. */
module CatalogTracks {
  import opened Common
  import opened CatalogState
  import opened CatalogTrust
  import opened CatalogRuns

  /** The tables of all tracks, the corrections of all units, and what numbers rows and moments. */
  datatype Library = Library(tracks: map<string, Track>, overrides: Overrides, nextId: nat, clock: nat)

  datatype Act = Act(track: string, op: Op)

  const NEW_LIBRARY := Library(map[], map[], 0, 0)

  function LibAt(l: Library, name: string): Lib {
    Lib(if name in l.tracks then l.tracks[name] else Track(map[], map[]), l.overrides, l.nextId, l.clock)
  }

  ghost function Acted(l: Library, a: Act): Library {
    var lib := Do(LibAt(l, a.track), a.op).1;
    Library(l.tracks[a.track := lib.track], lib.overrides, lib.nextId, lib.clock)
  }

  ghost function AfterAll(acts: seq<Act>): Library {
    if acts == [] then NEW_LIBRARY else Acted(AfterAll(acts[..|acts| - 1]), acts[|acts| - 1])
  }

  /** Every operation is one on its own track. */
  predicate Own(acts: seq<Act>) {
    forall a :: a in acts ==> !a.op.Elsewhere?
  }

  /** What one track sees of an operation: itself, or that something happened elsewhere. */
  ghost function SeenBy(l: Library, a: Act, name: string): Op {
    if a.track == name then a.op else Elsewhere(Acted(l, a).nextId - l.nextId, Acted(l, a).overrides)
  }

  lemma IdsGrow(lib: Lib, op: Op)
    ensures lib.nextId <= Do(lib, op).1.nextId && Do(lib, op).1.clock == lib.clock + 1
  {
    hide Refreshed, TrustChosen, Edited;
  }

  ghost function History(acts: seq<Act>, name: string): seq<Op> {
    if acts == [] then []
    else
      var k := |acts| - 1;
      History(acts[..k], name) + [SeenBy(AfterAll(acts[..k]), acts[k], name)]
  }

  // ---- Tracks share no unit ----------------------------------------------------------------------

  ghost predicate UnitsApart(l: Library) {
    && (forall o :: o in l.overrides ==> o.0 < l.nextId)
    && (forall a, i: nat :: a in l.tracks && Owns(l.tracks[a].units, i) ==> i < l.nextId)
    && (forall a, b, i: nat ::
          a in l.tracks && b in l.tracks && Owns(l.tracks[a].units, i) && Owns(l.tracks[b].units, i) ==> a == b)
  }

  /** Every unit is an old one, or has an id given out since. */
  ghost predicate NewIds(before: Units, after: Units, firstId: nat) {
    forall k :: k in after ==> (k in before && after[k].id == before[k].id) || after[k].id >= firstId
  }

  lemma {:induction false} UpsertedNew(units: Units, listed: seq<Listed>, firstId: nat, now: nat)
    ensures NewIds(units, AllUpserted(units, listed, firstId, now), firstId)
  {
    if listed != [] {
      UpsertedNew(units, listed[..|listed| - 1], firstId, now);
    }
  }

  lemma MaterializedNew(units: Units, listed: seq<Listed>, overrides: Overrides, firstId: nat, now: nat)
    ensures NewIds(units, Materialized(units, listed, overrides, firstId, now), firstId)
  {
    UpsertedNew(units, listed, firstId, now);
  }

  lemma DoNew(lib: Lib, op: Op)
    requires Good(lib)
    ensures NewIds(lib.track.units, Do(lib, op).1.track.units, lib.nextId)
  {
    hide Refreshed, Materialized, PromotedSnaps;
    match op
    case Refresh(complete, listed) =>
      RefreshUnits(lib.track, lib.overrides, complete, listed, lib.nextId, lib.nextId + 1, lib.clock);
      MaterializedNew(lib.track.units, listed, lib.overrides, lib.nextId + 1, lib.clock);
    case TrustThis(id) =>
      if id in lib.track.snaps {
        MaterializedNew(lib.track.units, lib.track.snaps[id].units, lib.overrides, lib.nextId, lib.clock);
      }
    case Edit(key, edits) =>
      if key in lib.track.units { EditFrame(lib.track, lib.overrides, key, edits); }
    case Elsewhere(_, _) =>
  }

  /** Only a correction changes what is recorded, and only for a unit of its track. */
  lemma DoRecords(lib: Lib, op: Op, o: (nat, Field))
    requires !op.Elsewhere? && !Owns(lib.track.units, o.0)
    ensures var os := Do(lib, op).1.overrides;
            (o in os <==> o in lib.overrides) && (o in os ==> os[o] == lib.overrides[o])
  {
    hide Refreshed, TrustChosen;
    if op.Edit? && op.key in lib.track.units {
      EditFrame(lib.track, lib.overrides, op.key, op.edits);
      assert Owns(lib.track.units, lib.track.units[op.key].id);
    }
  }

  lemma ActApart(l: Library, a: Act)
    requires UnitsApart(l) && Good(LibAt(l, a.track)) && !a.op.Elsewhere?
    ensures UnitsApart(Acted(l, a))
  {
    hide Do, Good, NewIds;
    var before, lib := LibAt(l, a.track), Do(LibAt(l, a.track), a.op).1;
    IdsGrow(before, a.op);
    DoGood(before, a.op);
    DoNew(before, a.op);
    OwnsFew(before, lib, a.track, l);
    forall o | o in lib.overrides ensures o.0 < lib.nextId {
      if !Owns(before.track.units, o.0) { DoRecords(before, a.op, o); }
    }
  }

  /** The units of the track after an operation: its own of before, or new ones. */
  lemma OwnsFew(before: Lib, after: Lib, name: string, l: Library)
    requires UnitsApart(l) && before == LibAt(l, name) && Good(after)
    requires NewIds(before.track.units, after.track.units, before.nextId)
    ensures forall i: nat :: Owns(after.track.units, i) ==> Owns(before.track.units, i) || i >= before.nextId
    ensures forall i: nat :: Owns(after.track.units, i) ==> i < after.nextId
    ensures forall i: nat :: Owns(before.track.units, i) ==> i < before.nextId
  {
  }

  // ---- Each track has its own history ------------------------------------------------------------

  /** An operation on another track is, for this one, one that happened elsewhere. */
  lemma ActSeen(l: Library, a: Act, name: string)
    requires UnitsApart(l) && !a.op.Elsewhere? && Good(LibAt(l, a.track))
    ensures LibAt(Acted(l, a), name) == Do(LibAt(l, name), SeenBy(l, a, name)).1
  {
    hide Good, Do, Beside, UnitsApart;
    if a.track != name {
      IdsGrow(LibAt(l, a.track), a.op);
      ActApart(l, a);
      BesideIsAll(l, a, name);
      DoElsewhere(LibAt(l, name), Acted(l, a).nextId - l.nextId, Acted(l, a).overrides);
    }
  }

  lemma DoElsewhere(lib: Lib, used: nat, others: Overrides)
    ensures Do(lib, Elsewhere(used, others)).1
            == Lib(lib.track, Beside(lib.track.units, lib.overrides, others, lib.nextId + used), lib.nextId + used,
                   lib.clock + 1)
  {
  }

  lemma BesideIsAll(l: Library, a: Act, name: string)
    requires UnitsApart(l) && UnitsApart(Acted(l, a)) && !a.op.Elsewhere? && a.track != name
    ensures Beside(LibAt(l, name).track.units, l.overrides, Acted(l, a).overrides, Acted(l, a).nextId)
            == Acted(l, a).overrides
  {
    hide Do;
    var mine, os := LibAt(l, name).track.units, Acted(l, a).overrides;
    forall o: (nat, Field) | Owns(mine, o.0)
      ensures (o in os <==> o in l.overrides) && (o in os ==> os[o] == l.overrides[o])
    {
      assert !Owns(LibAt(l, a.track).track.units, o.0);
      DoRecords(LibAt(l, a.track), a.op, o);
    }
  }

  /**
   Whatever is done to any tracks of the library, in any order: each track is as after a history of its own, in which
   the operations on others are steps elsewhere. So all that holds over every history holds of every track.
   */
  lemma {:induction false} EachHasItsHistory(acts: seq<Act>, name: string)
    requires Own(acts)
    ensures UnitsApart(AfterAll(acts)) && LibAt(AfterAll(acts), name) == After(History(acts, name))
  {
    if acts != [] {
      hide Do, UnitsApart, Good;
      var k := |acts| - 1;
      var l, a := AfterAll(acts[..k]), acts[k];
      assert a in acts && forall b :: b in acts[..k] ==> b in acts;
      EachHasItsHistory(acts[..k], name);
      EachHasItsHistory(acts[..k], a.track);
      AlwaysGood(History(acts[..k], a.track));
      ActApart(l, a);
      ActSeen(l, a, name);
      var h := History(acts, name);
      assert h[..|h| - 1] == History(acts[..k], name);
    }
  }
}
