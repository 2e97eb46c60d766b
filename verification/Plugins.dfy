/** The plugin manager and the bundled sync: the object that rewrites the plugin tables and the store. */
module Plugins {
  import opened Common
  import opened PluginState
  import opened PluginRules
  import opened Bundled

  type Table = map<string, Entry>

  function At(t: Table, id: string): Entry {
    if id in t then t[id] else NEVER_INSTALLED
  }

  /** The only difference is what is kept about this plugin. */
  ghost predicate Sets(before: Table, after: Table, id: string, e: Entry) {
    At(after, id) == e && forall o :: o != id ==> At(after, o) == At(before, o)
  }

  // ---- Files nothing refers to -------------------------------------------------------------------

  function Stale(e: Entry): set<Version> {
    set v | v in e.files && !(v in e.versions && e.versions[v].status != Retired)
  }

  /** The stale files of these plugins. */
  ghost function StaleFiles(t: Table, ids: set<string>): set<(string, Version)> {
    set id, v | id in ids && id in t && v in t[id].files && v in Stale(t[id]) :: (id, v)
  }

  lemma StaleGone(e: Entry)
    ensures e.(files := e.files - Stale(e)) == Reconciled(e)
  {
    assert e.files - Stale(e) == Reconciled(e).files;
  }

  lemma NeverReconciled()
    ensures Reconciled(NEVER_INSTALLED) == NEVER_INSTALLED
  {
  }

  lemma NothingStale(t: Table)
    ensures StaleFiles(t, {}) == {}
  {
  }

  lemma StaleGrows(t: Table, ids: set<string>, id: string)
    requires id in t && id !in ids
    ensures |StaleFiles(t, ids + {id})| == |StaleFiles(t, ids)| + |Stale(t[id])|
  {
    var own := set v | v in Stale(t[id]) :: (id, v);
    assert StaleFiles(t, ids + {id}) == StaleFiles(t, ids) + own;
    assert StaleFiles(t, ids) !! own;
    AsMany(id, Stale(t[id]));
  }

  lemma {:induction false} AsMany(id: string, vs: set<Version>)
    ensures |set v | v in vs :: (id, v)| == |vs|
  {
    if vs == {} {
      assert (set v | v in vs :: (id, v)) == {};
    } else {
      var v := Member(vs);
      AsMany(id, vs - {v});
      assert (set w | w in vs :: (id, w)) == (set w | w in vs - {v} :: (id, w)) + {(id, v)};
    }
  }

  class PluginManager {
    /** The plugin's row, its version rows and its directory in the store, by plugin id. */
    var entries: Table
    var notes: map<string, Note>
    var marker: bool
    /** Packages copied in by installs that were stopped before they moved them. */
    var staging: set<string>

    ghost function State(): World
      reads this
    {
      World(entries, notes, marker)
    }

    ghost predicate Ruled(id: string)
      reads this`entries
    {
      RowsAgree(At(entries, id))
    }

    constructor ()
      ensures State() == NOTHING && staging == {}
    {
      entries, notes, marker, staging := map[], map[], false, {};
    }

    // ---- Rows ------------------------------------------------------------------------------------

    method RowWith(id: string, s: Status) returns (r: Option<Version>)
      requires |With(At(entries, id).versions, s)| <= 1
      ensures r == Only(At(entries, id).versions, s)
    {
      var versions := At(entries, id).versions;
      var found := With(versions, s);
      if found == {} {
        return None;
      }
      ghost var _ := Member(found);
      var v :| v in found;
      OnlyOne(found, v);
      TheOnly(versions, s, v);
      r := Some(v);
    }

    method Put(id: string, e: Entry)
      modifies this`entries
      ensures Sets(old(entries), entries, id, e)
    {
      entries := entries[id := e];
    }

    // ---- Installing ------------------------------------------------------------------------------

    method InstallFile(
      id: string, p: Package, approvals: set<string>, tier: string, channel: string, registry: Option<string>)
      returns (o: Outcome)
      requires Ruled(id)
      modifies this`entries
      ensures var (o', e) := PluginState.Installed(old(At(entries, id)), p, approvals, tier, channel, registry);
              o == o' && Sets(old(entries), entries, id, e)
    {
      hide Recorded, RowsAgree;
      RulesGiveOne(At(entries, id));
      var e := At(entries, id);
      if p.version in e.versions && e.versions[p.version].status != Retired {
        return if e.versions[p.version].sha == p.sha then AlreadyInstalled else Rejected;
      }
      var active := RowWith(id, Active);
      if active.Some? && Older(p.version, active.value) {
        return Rejected;
      }
      if !p.passes {
        return Rejected;
      }
      var baseline := if active.Some? then ApprovedOf(e.versions[active.value]) else {};
      var approved := baseline + approvals;
      var added := p.permissions - approved;
      assert added == {} <==> p.permissions <= approved by { NothingMissing(p.permissions, approved); }
      Put(id, Stored(e, p));
      if added != {} {
        Record(id, p.version, VersionRow(p.sha, p.permissions, None, Pending, tier), channel, registry);
        return WaitsForReview(added);
      }
      Record(id, p.version, VersionRow(p.sha, p.permissions, Some(approved * p.permissions), Active, tier),
             channel, registry);
      o := Activated;
    }

    method Record(id: string, version: Version, row: VersionRow, channel: string, registry: Option<string>)
      modifies this`entries
      ensures Sets(old(entries), entries, id, Recorded(old(At(entries, id)), version, row, channel, registry))
    {
      var e := At(entries, id);
      var inUse := InUse(e.plugin);
      var state, active := PendingReview, None;
      if row.status == Active && inUse && e.plugin.value.state == Disabled {
        state, active := Disabled, Some(version);
      } else if row.status == Active {
        state, active := Enabled, Some(version);
      } else if inUse {
        state, active := e.plugin.value.state, e.plugin.value.active;
      }
      var tier, chan := row.tier, channel;
      if row.status != Active && inUse {
        tier, chan := e.plugin.value.tier, e.plugin.value.channel;
      }
      var reg := registry;
      if reg.None? && e.plugin.Some? {
        reg := e.plugin.value.registry;
      }
      var versions := e.versions;
      if row.status == Active {
        versions := map v | v in versions ::
          if versions[v].status == Previous then versions[v].(status := Retired) else versions[v];
        versions := map v | v in versions ::
          if versions[v].status == Active then versions[v].(status := Previous) else versions[v];
        assert versions == Shifted(e.versions);
      }
      Put(id, e.(plugin := Some(Plugin(state, active, tier, chan, reg)), versions := versions[version := row]));
    }

    method Approve(id: string, version: Version, approvals: set<string>) returns (o: Outcome)
      requires Ruled(id)
      modifies this`entries
      ensures var (o', e) := Approved(old(At(entries, id)), version, approvals);
              o == o' && Sets(old(entries), entries, id, e)
    {
      hide Recorded, RowsAgree;
      RulesGiveOne(At(entries, id));
      var e := At(entries, id);
      if version !in e.versions || e.versions[version].status != Pending {
        return Rejected;
      }
      var row := e.versions[version];
      var active := RowWith(id, Active);
      var baseline := if active.Some? then ApprovedOf(e.versions[active.value]) else {};
      var approved := baseline + approvals;
      var remaining := row.permissions - approved;
      assert remaining == {} <==> row.permissions <= approved by { NothingMissing(row.permissions, approved); }
      if remaining != {} {
        return WaitsForReview(remaining);
      }
      if !Sound(e, version) || e.plugin.None? {
        return Rejected;
      }
      Record(id, version, row.(approved := Some(approved * row.permissions), status := Active),
             e.plugin.value.channel, e.plugin.value.registry);
      o := Activated;
    }

    // ---- Managing --------------------------------------------------------------------------------

    method Rollback(id: string) returns (ok: bool)
      requires Ruled(id)
      modifies this`entries
      ensures var (ok', e) := RolledBack(old(At(entries, id))); ok == ok' && Sets(old(entries), entries, id, e)
    {
      RulesGiveOne(At(entries, id));
      var e := At(entries, id);
      var previous := RowWith(id, Previous);
      var active := RowWith(id, Active);
      if previous.None? || active.None? || !Sound(e, previous.value) || e.plugin.None? {
        return false;
      }
      var versions := e.versions;
      versions := versions[active.value := versions[active.value].(status := Previous)];
      versions := versions[previous.value := versions[previous.value].(status := Active)];
      Put(id, e.(versions := versions, plugin := Some(e.plugin.value.(state := Enabled, active := previous))));
      ok := true;
    }

    method Disable(id: string) returns (ok: bool)
      modifies this`entries
      ensures var (ok', e) := DisabledNow(old(At(entries, id))); ok == ok' && Sets(old(entries), entries, id, e)
    {
      var e := At(entries, id);
      if e.plugin.None? || e.plugin.value.active.None? {
        return false;
      }
      Put(id, e.(plugin := Some(e.plugin.value.(state := Disabled))));
      ok := true;
    }

    method Enable(id: string) returns (ok: bool)
      modifies this`entries
      ensures var (ok', e) := EnabledNow(old(At(entries, id))); ok == ok' && Sets(old(entries), entries, id, e)
    {
      var e := At(entries, id);
      if e.plugin.None? || e.plugin.value.state != Disabled || e.plugin.value.active.None? {
        return false;
      }
      Put(id, e.(plugin := Some(e.plugin.value.(state := Enabled))));
      ok := true;
    }

    /** The rows first, then the directory. */
    method Uninstall(id: string) returns (ok: bool)
      modifies this`entries
      ensures var (ok', e) := UninstalledNow(old(At(entries, id))); ok == ok' && Sets(old(entries), entries, id, e)
    {
      var e := At(entries, id);
      if e.plugin.None? {
        return false;
      }
      Put(id, Deregistered(e));
      Put(id, At(entries, id).(files := map[]));
      ok := true;
    }

    method ClearStaging() returns (removed: nat)
      modifies this`staging
      ensures staging == {} && removed == |old(staging)|
    {
      removed := 0;
      while staging != {}
        invariant staging <= old(staging) && removed == |old(staging)| - |staging|
      {
        var name :| name in staging;
        staging := staging - {name};
        removed := removed + 1;
      }
    }

    /** What is left in staging, and every stored file that no row in use refers to, is removed and counted. */
    method ReconcileStore() returns (removed: nat)
      modifies this`entries, this`staging
      ensures forall id :: At(entries, id) == Reconciled(old(At(entries, id)))
      ensures staging == {} && removed == |old(staging)| + |StaleFiles(old(entries), old(entries).Keys)|
    {
      hide Stale, StaleFiles, Reconciled;
      removed := ClearStaging();
      var rest := entries.Keys;
      NothingStale(entries);
      assert entries.Keys - rest == {};
      while rest != {}
        invariant rest <= old(entries).Keys && entries.Keys == old(entries).Keys
        invariant forall id :: id in entries ==>
                    entries[id] == if id in rest then old(entries)[id] else Reconciled(old(entries)[id])
        invariant staging == {} && removed == |old(staging)| + |StaleFiles(old(entries), old(entries).Keys - rest)|
      {
        var id :| id in rest;
        var e := entries[id];
        StaleGrows(old(entries), old(entries).Keys - rest, id);
        StaleGone(e);
        removed := removed + |Stale(e)|;
        entries := entries[id := e.(files := e.files - Stale(e))];
        assert old(entries).Keys - (rest - {id}) == (old(entries).Keys - rest) + {id};
        rest := rest - {id};
      }
      assert old(entries).Keys - rest == old(entries).Keys;
      NeverReconciled();
    }

    // ---- The startup sync ------------------------------------------------------------------------

    method Note(id: string, n: Option<Note>)
      modifies this`notes
      ensures notes == if n.Some? then old(notes)[id := n.value] else old(notes)
    {
      if n.Some? {
        notes := notes[id := n.value];
      }
    }

    method InstallFirst(item: Built)
      requires Ruled(item.id)
      modifies this`entries, this`notes
      ensures var (_, e, n) := FirstInstall(old(At(entries, item.id)), item);
              Sets(old(entries), entries, item.id, e) && n.Some? && notes == old(notes)[item.id := n.value]
    {
      hide PluginState.Installed, RowsAgree;
      if item.package.None? {
        Note(item.id, NoteFor(item, Failed));
        return;
      }
      var p := item.package.value;
      var o := InstallFile(item.id, p, p.permissions, TRUST, CHANNEL, None);
      Note(item.id, NoteFor(item, if o == Rejected then Failed else Bundled.Installed));
    }

    method Maintain(item: Built)
      requires Ruled(item.id)
      modifies this`entries, this`notes
      ensures var note := if item.id in old(notes) then Some(old(notes)[item.id]) else None;
              var (_, e, n) := Maintained(old(At(entries, item.id)), note, item);
              Sets(old(entries), entries, item.id, e)
              && notes == if n.Some? then old(notes)[item.id := n.value] else old(notes)
    {
      hide PluginState.Installed, RowsAgree, Older, FirstInstall;
      var e := At(entries, item.id);
      var note := if item.id in notes then Some(notes[item.id]) else None;
      assert item.id in notes ==> notes[item.id := notes[item.id]] == notes;
      if note.Some? && note.value.status == Failed && note.value.sha == item.sha {
        return;
      }
      if e.plugin.None? {
        if note.Some? && note.value.status == Failed {
          InstallFirst(item);
        }
        return;
      }
      if e.plugin.value.channel != CHANNEL || e.plugin.value.state != Enabled || e.plugin.value.active.None? {
        return;
      }
      if item.package.None? {
        Note(item.id, NoteFor(item, Failed));
        return;
      }
      if Older(item.version, e.plugin.value.active.value) || item.version == e.plugin.value.active.value {
        return;
      }
      var o := InstallFile(item.id, item.package.value, {}, TRUST, CHANNEL, None);
      Note(item.id, NoteFor(item, if o == Rejected then Failed else Bundled.Installed));
    }

    /** The first run installs every adapter, unless the owner already chose some of them another way. */
    method Bootstrap(items: seq<Built>, ghost given: set<string>)
      requires !marker && GoodWorld(State(), given)
      modifies this`entries, this`notes
      ensures var w := if OwnerChose(old(State()), items) then SkipAll(old(State()), items)
                       else InstallAll(old(State()), items);
              (forall id :: At(entries, id) == EntryIn(w, id)) && notes == w.notes
    {
      hide FirstInstall, Good;
      ghost var w := State();
      var owned := exists item :: item in items && At(entries, item.id).plugin.Some?
                                  && At(entries, item.id).plugin.value.channel != CHANNEL;
      assert owned == OwnerChose(w, items) by { SameOwnership(w, entries, items); }
      for k := 0 to |items|
        invariant marker == old(marker)
        invariant owned ==> entries == w.entries && notes == SkipAll(w, items[..k]).notes
        invariant !owned ==> (forall id :: At(entries, id) == EntryIn(InstallAll(w, items[..k]), id))
                             && notes == InstallAll(w, items[..k]).notes
      {
        assert items[..k + 1][..k] == items[..k];
        if owned {
          Note(items[k].id, NoteFor(items[k], Skipped));
        } else {
          InstallAllGood(w, items[..k], given);
          EntryGood(InstallAll(w, items[..k]), items[k].id, given + Grants(w, items[..k]));
          GoodRows(At(entries, items[k].id), given + Grants(w, items[..k]));
          InstallFirst(items[k]);
        }
      }
      assert items[..|items|] == items;
      SkipAllEntries(w, items);
    }

    /** Every adapter is kept current, one after the other. */
    method MaintainEach(items: seq<Built>, ghost given: set<string>)
      requires GoodWorld(State(), given) && AllConsistent(items) && marker
      modifies this`entries, this`notes
      ensures var w := MaintainAll(old(State()), items);
              (forall id :: At(entries, id) == EntryIn(w, id)) && notes == w.notes
    {
      hide Maintained, Good, GoodWorld, AllConsistent;
      ghost var w := State();
      for k := 0 to |items|
        invariant forall id :: At(entries, id) == EntryIn(MaintainAll(w, items[..k]), id)
        invariant notes == MaintainAll(w, items[..k]).notes && marker
      {
        assert items[..k + 1][..k] == items[..k];
        RuledWithin(w, items, k, given);
        Maintain(items[k]);
      }
      assert items[..|items|] == items;
    }

    /** The first run bootstraps; after that the adapters are kept current. */
    method SyncBundled(items: seq<Built>, ghost given: set<string>)
      requires GoodWorld(State(), given) && AllConsistent(items)
      modifies this`entries, this`notes, this`marker
      ensures var w := Synced(old(State()), items);
              (forall id :: At(entries, id) == EntryIn(w, id)) && notes == w.notes && marker == w.marker
    {
      hide MaintainAll, InstallAll, SkipAll, Good;
      if items == [] {
        return;
      }
      if !marker {
        Bootstrap(items, given);
        marker := true;
      } else {
        MaintainAllRespects(State(), items, given);
        MaintainEach(items, given);
      }
    }
  }

  lemma SameOwnership(w: World, entries: Table, items: seq<Built>)
    requires w.entries == entries
    ensures OwnerChose(w, items) <==> exists item :: item in items && At(entries, item.id).plugin.Some?
                                                      && At(entries, item.id).plugin.value.channel != CHANNEL
  {
    forall item | item in items ensures At(entries, item.id) == EntryIn(w, item.id) { }
  }

  lemma GoodRows(e: Entry, given: set<string>)
    requires Good(e, given)
    ensures RowsAgree(e)
  {
  }

  lemma RulesGiveOne(e: Entry)
    requires RowsAgree(e)
    ensures |With(e.versions, Active)| <= 1 && |With(e.versions, Previous)| <= 1
  {
  }

  lemma NothingMissing(a: set<string>, b: set<string>)
    ensures a - b == {} <==> a <= b
  {
    if a - b == {} {
      forall x | x in a ensures x in b { assert x !in a - b; }
    }
  }

  lemma RuledWithin(w: World, items: seq<Built>, k: nat, given: set<string>)
    requires w.marker && GoodWorld(w, given) && AllConsistent(items) && k < |items|
    ensures RowsAgree(EntryIn(MaintainAll(w, items[..k]), items[k].id))
  {
    assert forall i :: i in items[..k] ==> i in items;
    MaintainAllRespects(w, items[..k], given);
    EntryGood(MaintainAll(w, items[..k]), items[k].id, given + Grants(w, items[..k]));
  }
}
