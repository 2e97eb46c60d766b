/** The adapters that ship with the image, and the startup sync that must not undo the owner's choices. */
module Bundled {
  import opened Common
  import opened PluginState
  import opened PluginRules

  const CHANNEL := "bundled"
  const TRUST := "official"

  /** A built adapter; one that does not load has no package. */
  datatype Built = Built(id: string, version: Version, sha: string, package: Option<Package>)

  predicate Consistent(item: Built) {
    item.package.Some? ==> item.package.value.version == item.version && item.package.value.sha == item.sha
  }

  datatype NoteStatus = Installed | Failed | Skipped

  datatype Note = Note(status: NoteStatus, version: Version, sha: string)

  datatype Result = Fresh | Updated | Unchanged | InReview | Broken | SkippedNow | LeftAlone

  // ---- One adapter -------------------------------------------------------------------------------

  function NoteFor(item: Built, status: NoteStatus): Option<Note> {
    Some(Note(status, item.version, item.sha))
  }

  /** The one place where permissions are approved without a review. */
  ghost function FirstInstall(e: Entry, item: Built): (Result, Entry, Option<Note>) {
    if item.package.None? then (Broken, e, NoteFor(item, Failed))
    else
      var p := item.package.value;
      var (o, e') := PluginState.Installed(e, p, p.permissions, TRUST, CHANNEL, None);
      if o == Rejected then (Broken, e', NoteFor(item, Failed))
      else (if o == Activated then Fresh else Unchanged, e', NoteFor(item, Installed))
  }

  /** An enabled plugin always names its version: `GoodNames` says so. */
  ghost function Maintained(e: Entry, note: Option<Note>, item: Built): (Result, Entry, Option<Note>) {
    if note.Some? && note.value.status == Failed && note.value.sha == item.sha then (Broken, e, note)
    else if e.plugin.None? then
      (if note.Some? && note.value.status == Failed then FirstInstall(e, item) else (LeftAlone, e, note))
    else if e.plugin.value.channel != CHANNEL || !(e.plugin.value.state == Enabled && e.plugin.value.active.Some?)
    then (LeftAlone, e, note)
    else if item.package.None? then (Broken, e, NoteFor(item, Failed))
    else if Older(item.version, e.plugin.value.active.value) then (LeftAlone, e, note)
    else if item.version == e.plugin.value.active.value then (Unchanged, e, note)
    else
      var p := item.package.value;
      var (o, e') := PluginState.Installed(e, p, {}, TRUST, CHANNEL, None);
      if o == Rejected then (Broken, e', NoteFor(item, Failed))
      else if o.WaitsForReview? || (p.version in e'.versions && e'.versions[p.version].status == Pending)
      then (InReview, e', NoteFor(item, Installed))
      else (if o == Activated then Updated else Unchanged, e', NoteFor(item, Installed))
  }

  lemma GoodNames(e: Entry, given: set<string>)
    requires Good(e, given)
    ensures e.plugin.Some? && e.plugin.value.state == Enabled ==> e.plugin.value.active.Some?
    ensures e.plugin.Some? ==> e.plugin.value.active == Only(e.versions, Active)
    ensures e.plugin.None? ==> e.versions == map[]
  {
  }

  /** Nothing of the owner's was touched: see `MaintainRespectsOwner`. */
  ghost predicate Respects(e: Entry, e': Entry) {
    e.plugin.Some? ==>
      && (e.plugin.value.channel != CHANNEL || e.plugin.value.state != Enabled ==> e' == e)
      && e'.plugin.Some? && e'.plugin.value.channel == e.plugin.value.channel
      && e'.plugin.value.state == e.plugin.value.state
      && Baseline(e') <= Baseline(e)
      && (Only(e.versions, Active).Some? ==>
            && Only(e'.versions, Active).Some?
            && !Older(Only(e'.versions, Active).value, Only(e.versions, Active).value))
  }

  /**
   Keeping an installed adapter current never touches one the owner disabled, removed, left waiting or manages
   through another channel; gives no permission; never lowers the version in use; and activates a version only
   if everything it asks for was approved for the version it replaces.
   */
  lemma MaintainRespectsOwner(e: Entry, note: Option<Note>, item: Built, given: set<string>)
    requires Good(e, given) && Consistent(item) && e.plugin.Some?
    ensures Respects(e, Maintained(e, note, item).1) && Good(Maintained(e, note, item).1, given)
  {
    hide Good, PluginState.Installed, Older, Baseline;
    assert given + {} == given;
    if Only(e.versions, Active).Some? { NotOlder(Only(e.versions, Active).value); }
    if item.package.Some? {
      var p := item.package.value;
      InstalledGood(e, p, {}, TRUST, CHANNEL, None, given);
      InstallNeverLowers(e, p, {}, TRUST, CHANNEL, None, given);
      InstallWithoutApprovals(e, p, given);
    }
  }

  lemma InstallWithoutApprovals(e: Entry, p: Package, given: set<string>)
    requires Good(e, given) && e.plugin.Some?
    ensures var e' := PluginState.Installed(e, p, {}, TRUST, CHANNEL, None).1;
            && Baseline(e') <= Baseline(e)
            && (e.plugin.value.state == Enabled && e.plugin.value.channel == CHANNEL ==>
                  e'.plugin.Some? && e'.plugin.value.channel == CHANNEL && e'.plugin.value.state == Enabled)
  {
    hide PermissionsAgree, StoreAgrees, Baseline, Only, Recorded;
    assert Baseline(e) + {} == Baseline(e);
    if Refusal(e, p).None? {
      var moved, row := Stored(e, p), RowFor(e, p, {}, TRUST);
      RowsOnly(e, moved);
      RecordedUse(moved, p.version, row);
      var after := Recorded(moved, p.version, row, CHANNEL, None);
      if row.status == Active {
        RecordedActive(moved, p.version, row, CHANNEL, None);
        TheOnly(after.versions, Active, p.version);
        BaselineOf(after, p.version);
        assert Baseline(e) * p.permissions <= Baseline(e);
      } else {
        RecordedPending(moved, p.version, row, CHANNEL, None);
        PendingBaseline(e, moved, p.version, row);
      }
    }
  }

  lemma BaselineOf(e: Entry, v: Version)
    requires Only(e.versions, Active) == Some(v)
    ensures Baseline(e) == ApprovedOf(e.versions[v])
  {
  }

  lemma RecordedUse(e: Entry, version: Version, row: VersionRow)
    requires RowsAgree(e) && e.plugin.Some? && (row.status == Active || row.status == Pending)
    ensures var e' := Recorded(e, version, row, CHANNEL, None);
            && version in e'.versions && e'.versions[version] == row && e'.plugin.Some?
            && (e.plugin.value.state == Enabled && e.plugin.value.channel == CHANNEL ==>
                  e'.plugin.value.channel == CHANNEL && e'.plugin.value.state == Enabled)
  {
  }

  lemma PendingBaseline(e: Entry, moved: Entry, version: Version, row: VersionRow)
    requires RowsAgree(moved) && row.status == Pending && moved.versions == e.versions
    requires version in e.versions ==> e.versions[version].status == Retired
    ensures Baseline(Recorded(moved, version, row, CHANNEL, None)) == Baseline(e)
  {
    RecordedPending(moved, version, row, CHANNEL, None);
  }

  lemma FirstInstallGood(e: Entry, item: Built, given: set<string>)
    requires Good(e, given)
    ensures var (r, e', n) := FirstInstall(e, item);
            Good(e', given + if item.package.Some? then item.package.value.permissions else {})
  {
    hide Good, PluginState.Installed;
    if item.package.Some? {
      var p := item.package.value;
      InstalledGood(e, p, p.permissions, TRUST, CHANNEL, None, given);
    } else {
      assert given + {} == given;
    }
  }

  lemma {:induction false} Trichotomy(a: Version, b: Version)
    ensures Older(a, b) || a == b || Older(b, a)
  {
    if a != [] && b != [] && a[0] == b[0] {
      Trichotomy(a[1..], b[1..]);
      if a[1..] == b[1..] { assert a == [a[0]] + a[1..] && b == [b[0]] + b[1..]; }
    }
  }

  /** Seeing the same adapter again right away changes nothing more. */
  lemma MaintainTwice(e: Entry, note: Option<Note>, item: Built, given: set<string>)
    requires Good(e, given) && Consistent(item)
    ensures var (r, e', n) := Maintained(e, note, item); Maintained(e', n, item).1 == e'
  {
    hide Good, Older, PluginState.Installed, RowsAgree, PermissionsAgree, StoreAgrees, Refusal;
    if item.package.Some? {
      var p := item.package.value;
      var approvals := if e.plugin.None? then p.permissions else {};
      var after := PluginState.Installed(e, p, approvals, TRUST, CHANNEL, None).1;
      RefusedUnchanged(e, p, approvals);
      RefusedUnchanged(e, p, {});
      RefusedUnchanged(after, p, {});
      if Refusal(e, p).None? { InstalledOnce(e, p, approvals, given); }
      InstalledGood(e, p, approvals, TRUST, CHANNEL, None, given);
      GoodNames(after, given + approvals);
    }
  }

  lemma RefusedUnchanged(e: Entry, p: Package, approvals: set<string>)
    ensures var (o, e') := PluginState.Installed(e, p, approvals, TRUST, CHANNEL, None);
            if Refusal(e, p).Some? then o == Refusal(e, p).value && e' == e else o.Activated? || o.WaitsForReview?
  {
  }

  /** After an installation the version is the active one or waits, so installing it again is refused. */
  lemma InstalledOnce(e: Entry, p: Package, approvals: set<string>, given: set<string>)
    requires Good(e, given) && Refusal(e, p).None?
    ensures var e' := PluginState.Installed(e, p, approvals, TRUST, CHANNEL, None).1;
            && e'.plugin.Some? && Refusal(e', p) == Some(AlreadyInstalled)
  {
  }

  // ---- The whole bundle --------------------------------------------------------------------------

  /** The tables of every plugin, the notes about bundled adapters, and whether the bootstrap has run. */
  datatype World = World(entries: map<string, Entry>, notes: map<string, Note>, marker: bool)

  function EntryIn(w: World, id: string): Entry {
    if id in w.entries then w.entries[id] else NEVER_INSTALLED
  }

  function NoteIn(w: World, id: string): Option<Note> {
    if id in w.notes then Some(w.notes[id]) else None
  }

  function Put(w: World, id: string, e: Entry, n: Option<Note>): World {
    w.(entries := w.entries[id := e], notes := if n.Some? then w.notes[id := n.value] else w.notes)
  }

  ghost function MaintainOne(w: World, item: Built): World {
    var (_, e, n) := Maintained(EntryIn(w, item.id), NoteIn(w, item.id), item);
    Put(w, item.id, e, n)
  }

  ghost function MaintainAll(w: World, items: seq<Built>): World {
    if items == [] then w else MaintainOne(MaintainAll(w, items[..|items| - 1]), items[|items| - 1])
  }

  /** The owner already chose some of these adapters another way. */
  predicate OwnerChose(w: World, items: seq<Built>) {
    exists item :: item in items && EntryIn(w, item.id).plugin.Some?
                   && EntryIn(w, item.id).plugin.value.channel != CHANNEL
  }

  ghost function InstallAll(w: World, items: seq<Built>): World {
    if items == [] then w
    else
      var before := InstallAll(w, items[..|items| - 1]);
      var item := items[|items| - 1];
      var (_, e, n) := FirstInstall(EntryIn(before, item.id), item);
      Put(before, item.id, e, n)
  }

  function SkipAll(w: World, items: seq<Built>): World {
    if items == [] then w
    else
      var before := SkipAll(w, items[..|items| - 1]);
      var item := items[|items| - 1];
      before.(notes := before.notes[item.id := Note(Skipped, item.version, item.sha)])
  }

  ghost function Synced(w: World, items: seq<Built>): World {
    if items == [] then w
    else if !w.marker then
      (if OwnerChose(w, items) then SkipAll(w, items) else InstallAll(w, items)).(marker := true)
    else MaintainAll(w, items)
  }

  ghost predicate GoodWorld(w: World, given: set<string>) {
    forall id :: id in w.entries ==> Good(w.entries[id], given)
  }

  predicate AllConsistent(items: seq<Built>) {
    forall item :: item in items ==> Consistent(item)
  }

  /** What a sync may approve: what an adapter asks for that the owner does not have yet. */
  function Grants(w: World, items: seq<Built>): set<string> {
    if items == [] then {}
    else
      var item := items[|items| - 1];
      Grants(w, items[..|items| - 1])
      + if item.package.Some? && (!w.marker || EntryIn(w, item.id).plugin.None?) then item.package.value.permissions else {}
  }

  lemma NothingGood(given: set<string>)
    ensures Good(NEVER_INSTALLED, given)
  {
    assert With(map[], Active) == {} && With(map[], Previous) == {};
  }

  lemma MoreGoodWorld(w: World, given: set<string>, more: set<string>)
    requires GoodWorld(w, given) && given <= more
    ensures GoodWorld(w, more)
  {
    forall id | id in w.entries ensures Good(w.entries[id], more) {
      MoreGiven(w.entries[id].versions, given, more);
    }
  }

  lemma EntryGood(w: World, id: string, given: set<string>)
    requires GoodWorld(w, given)
    ensures Good(EntryIn(w, id), given)
  {
    NothingGood(given);
  }

  lemma {:induction false} InstallAllGood(w: World, items: seq<Built>, given: set<string>)
    requires GoodWorld(w, given) && !w.marker
    ensures GoodWorld(InstallAll(w, items), given + Grants(w, items))
  {
    hide Good, FirstInstall;
    if items == [] {
      assert given + {} == given;
    } else {
      var k := |items| - 1;
      InstallAllGood(w, items[..k], given);
      var before := InstallAll(w, items[..k]);
      var g := given + Grants(w, items[..k]);
      EntryGood(before, items[k].id, g);
      FirstInstallGood(EntryIn(before, items[k].id), items[k], g);
      var all := given + Grants(w, items);
      assert all == g + if items[k].package.Some? then items[k].package.value.permissions else {};
      MoreGoodWorld(before, g, all);
    }
  }

  lemma {:induction false} SkipAllEntries(w: World, items: seq<Built>)
    ensures SkipAll(w, items).entries == w.entries
  {
    if items != [] { SkipAllEntries(w, items[..|items| - 1]); }
  }

  lemma RespectsItself(e: Entry)
    ensures Respects(e, e)
  {
    if Only(e.versions, Active).Some? { NotOlder(Only(e.versions, Active).value); }
  }

  lemma {:induction false} OlderChain(a: Version, b: Version, c: Version)
    requires !Older(b, a) && !Older(c, b)
    ensures !Older(c, a)
  {
    if a != [] && b != [] && c != [] && a[0] == b[0] == c[0] {
      OlderChain(a[1..], b[1..], c[1..]);
    }
  }

  lemma RespectsChain(a: Entry, b: Entry, c: Entry)
    requires Respects(a, b) && Respects(b, c)
    ensures Respects(a, c)
  {
    hide Older, Baseline;
    if Only(a.versions, Active).Some? && Only(b.versions, Active).Some? && Only(c.versions, Active).Some?
       && a.plugin.Some? {
      OlderChain(Only(a.versions, Active).value, Only(b.versions, Active).value, Only(c.versions, Active).value);
    }
  }

  lemma MaintainOneStep(w: World, item: Built, given: set<string>)
    requires GoodWorld(w, given) && Consistent(item)
    requires EntryIn(w, item.id).plugin.None? && item.package.Some? ==> item.package.value.permissions <= given
    ensures GoodWorld(MaintainOne(w, item), given) && MaintainOne(w, item).marker == w.marker
    ensures forall id :: Respects(EntryIn(w, id), EntryIn(MaintainOne(w, item), id))
  {
    hide Good, Respects, Maintained;
    var e, n := EntryIn(w, item.id), NoteIn(w, item.id);
    EntryGood(w, item.id, given);
    if e.plugin.Some? {
      MaintainRespectsOwner(e, n, item, given);
    } else {
      MaintainAbsent(e, n, item, given);
    }
    forall id ensures Respects(EntryIn(w, id), EntryIn(MaintainOne(w, item), id)) {
      RespectsItself(EntryIn(w, id));
    }
  }

  lemma MaintainAbsent(e: Entry, note: Option<Note>, item: Built, given: set<string>)
    requires Good(e, given) && e.plugin.None?
    requires item.package.Some? ==> item.package.value.permissions <= given
    ensures Good(Maintained(e, note, item).1, given) && Respects(e, Maintained(e, note, item).1)
  {
    hide Good, FirstInstall;
    FirstInstallGood(e, item, given);
    assert item.package.Some? ==> given + item.package.value.permissions == given;
    assert given + {} == given;
  }

  /** A maintaining sync keeps the rules, and respects the owner for every plugin. */
  lemma {:induction false} MaintainAllRespects(w: World, items: seq<Built>, given: set<string>)
    requires GoodWorld(w, given) && AllConsistent(items) && w.marker
    ensures GoodWorld(MaintainAll(w, items), given + Grants(w, items)) && MaintainAll(w, items).marker
    ensures forall id :: Respects(EntryIn(w, id), EntryIn(MaintainAll(w, items), id))
  {
    hide Respects, Good, Consistent, MaintainOne;
    if items == [] {
      assert given + {} == given;
      forall id ensures Respects(EntryIn(w, id), EntryIn(w, id)) { RespectsItself(EntryIn(w, id)); }
    } else {
      var k := |items| - 1;
      var item := items[k];
      assert item in items && forall i :: i in items[..k] ==> i in items;
      MaintainAllRespects(w, items[..k], given);
      var before := MaintainAll(w, items[..k]);
      var all := given + Grants(w, items);
      assert given + Grants(w, items[..k]) <= all;
      MoreGoodWorld(before, given + Grants(w, items[..k]), all);
      StillAbsent(EntryIn(w, item.id), EntryIn(before, item.id));
      MaintainOneStep(before, item, all);
      forall id ensures Respects(EntryIn(w, id), EntryIn(MaintainAll(w, items), id)) {
        RespectsChain(EntryIn(w, id), EntryIn(before, id), EntryIn(MaintainAll(w, items), id));
      }
    }
  }

  lemma StillAbsent(e: Entry, e': Entry)
    requires Respects(e, e')
    ensures e'.plugin.None? ==> e.plugin.None?
  {
  }

  /**
   After the bootstrap, a sync with any bundle leaves every plugin alone that is not enabled or not on the
   bundled channel, gives an installed plugin no permission, never lowers its version, and only ever uses a
   version all of whose permissions were approved before.
   */
  lemma SyncRespectsOwner(w: World, items: seq<Built>, given: set<string>, id: string)
    requires GoodWorld(w, given) && AllConsistent(items) && w.marker
    ensures var e, e' := EntryIn(w, id), EntryIn(Synced(w, items), id);
            && Respects(e, e')
            && (e.plugin.Some? && Only(e'.versions, Active).Some? ==>
                  e'.versions[Only(e'.versions, Active).value].permissions <= Baseline(e))
  {
    hide Respects;
    MaintainAllRespects(w, items, given);
    var e, e' := EntryIn(w, id), EntryIn(Synced(w, items), id);
    EntryGood(MaintainAll(w, items), id, given + Grants(w, items));
    if e.plugin.Some? && Only(e'.versions, Active).Some? {
      RespectsBaseline(e, e');
      BaselineOf(e', Only(e'.versions, Active).value);
    }
  }

  lemma RespectsBaseline(e: Entry, e': Entry)
    requires Respects(e, e') && e.plugin.Some?
    ensures Baseline(e') <= Baseline(e)
  {
  }

  // ---- A second sync -----------------------------------------------------------------------------

  function Ids(items: seq<Built>): (r: seq<string>)
    ensures |r| == |items| && forall i :: 0 <= i < |r| ==> r[i] == items[i].id
  {
    if items == [] then [] else Ids(items[..|items| - 1]) + [items[|items| - 1].id]
  }

  /** With one adapter for each id, each plugin sees its own adapter only. */
  lemma {:induction false} SeesItsOwn(w: World, items: seq<Built>, i: nat)
    requires Distinct(Ids(items)) && i < |items|
    ensures var id := items[i].id;
            var (_, e, n) := Maintained(EntryIn(w, id), NoteIn(w, id), items[i]);
            EntryIn(MaintainAll(w, items), id) == e && NoteIn(MaintainAll(w, items), id) == n
  {
    hide Maintained;
    var k := |items| - 1;
    assert Ids(items)[k] == items[k].id && Ids(items)[..k] == Ids(items[..k]);
    NoteStays(EntryIn(w, items[i].id), NoteIn(w, items[i].id), items[i]);
    if i < k {
      SeesItsOwn(w, items[..k], i);
      assert Ids(items)[i] != Ids(items)[k];
    } else {
      OthersUntouched(w, items[..k], items[k].id);
    }
  }

  lemma NoteStays(e: Entry, note: Option<Note>, item: Built)
    ensures Maintained(e, note, item).2.None? ==> note.None?
  {
  }

  lemma {:induction false} OthersUntouched(w: World, items: seq<Built>, id: string)
    requires id !in Ids(items)
    ensures EntryIn(MaintainAll(w, items), id) == EntryIn(w, id) && NoteIn(MaintainAll(w, items), id) == NoteIn(w, id)
  {
    if items != [] {
      hide Maintained;
      var k := |items| - 1;
      assert Ids(items)[k] == items[k].id && Ids(items)[..k] == Ids(items[..k]);
      OthersUntouched(w, items[..k], id);
    }
  }

  /** A second sync with the same bundle leaves every plugin's tables as the first left them. */
  lemma SyncTwice(w: World, items: seq<Built>, given: set<string>, id: string)
    requires GoodWorld(w, given) && AllConsistent(items) && w.marker && Distinct(Ids(items))
    ensures EntryIn(Synced(Synced(w, items), items), id) == EntryIn(Synced(w, items), id)
  {
    hide Maintained;
    if items != [] {
      var once := MaintainAll(w, items);
      MaintainAllRespects(w, items, given);
      if id in Ids(items) {
        var i :| 0 <= i < |items| && Ids(items)[i] == id;
        SeesItsOwn(w, items, i);
        SeesItsOwn(once, items, i);
        EntryGood(w, id, given);
        assert items[i] in items;
        MaintainTwice(EntryIn(w, id), NoteIn(w, id), items[i], given);
      } else {
        OthersUntouched(w, items, id);
        OthersUntouched(once, items, id);
      }
    }
  }

  /** Two adapters under one id can make a second sync install what the first left alone. */
  lemma TwoUnderOneId()
    ensures var p := Package([1], "a", {}, true);
            var items := [Built("x", [1], "a", Some(p)), Built("x", [1], "b", None)];
            var w := World(map[], map["x" := Note(Failed, [1], "a")], true);
            && AllConsistent(items)
            && EntryIn(Synced(w, items), "x").plugin == None
            && EntryIn(Synced(Synced(w, items), items), "x").plugin.Some?
  {
    var p := Package([1], "a", {}, true);
    var items := [Built("x", [1], "a", Some(p)), Built("x", [1], "b", None)];
    var w := World(map[], map["x" := Note(Failed, [1], "a")], true);
    assert items[..1] == [items[0]] && items[..1][..0] == [];
    OneAfterOther(w, items[0], items[1]);
    var once := Synced(w, items);
    assert once.marker && NoteIn(once, "x") == Some(Note(Failed, [1], "b"));
    OneAfterOther(once, items[0], items[1]);
  }

  lemma OneAfterOther(w: World, a: Built, b: Built)
    requires w.marker
    ensures Synced(w, [a, b]) == MaintainOne(MaintainOne(w, a), b)
  {
    hide MaintainOne;
    assert [a, b][..1] == [a] && [a][..0] == [];
    assert MaintainAll(w, [a]) == MaintainOne(MaintainAll(w, [a][..0]), a);
    assert MaintainAll(w, [a, b]) == MaintainOne(MaintainAll(w, [a, b][..1]), b);
  }

  // ---- Runs of owners and syncs ------------------------------------------------------------------

  datatype Happening = Owner(id: string, ev: Event) | Sync(items: seq<Built>)

  ghost function Next(w: World, h: Happening): World {
    match h
    case Owner(id, ev) => w.(entries := w.entries[id := PluginRules.Next(EntryIn(w, id), ev)])
    case Sync(items) => Synced(w, items)
  }

  const NOTHING := World(map[], map[], false)

  ghost function After(hs: seq<Happening>): World {
    if hs == [] then NOTHING else Next(After(hs[..|hs| - 1]), hs[|hs| - 1])
  }

  /** Everything approved so far: by the owner, or as shipped with an adapter the library did not have. */
  ghost function AllGiven(hs: seq<Happening>): set<string> {
    if hs == [] then {}
    else
      var h := hs[|hs| - 1];
      AllGiven(hs[..|hs| - 1]) + match h
                                 case Owner(_, ev) => Approvals(ev)
                                 case Sync(items) => Grants(After(hs[..|hs| - 1]), items)
  }

  predicate Shipped(hs: seq<Happening>) {
    forall h :: h in hs ==> (h.Sync? ==> AllConsistent(h.items))
  }

  /** The lifecycle rules hold for every plugin, through any mix of owner actions and startup syncs. */
  lemma {:induction false} WorldAlwaysGood(hs: seq<Happening>)
    requires Shipped(hs)
    ensures GoodWorld(After(hs), AllGiven(hs))
  {
    if hs != [] {
      hide Good, PluginRules.Next;
      var k := |hs| - 1;
      assert hs[k] in hs && forall h :: h in hs[..k] ==> h in hs;
      WorldAlwaysGood(hs[..k]);
      var w, given := After(hs[..k]), AllGiven(hs[..k]);
      match hs[k]
      case Owner(id, ev) =>
        EntryGood(w, id, given);
        NextGood(EntryIn(w, id), ev, given);
        MoreGoodWorld(w, given, given + Approvals(ev));
      case Sync(items) =>
        SyncedGood(w, items, given);
    }
  }

  lemma SyncedGood(w: World, items: seq<Built>, given: set<string>)
    requires GoodWorld(w, given) && AllConsistent(items)
    ensures GoodWorld(Synced(w, items), given + Grants(w, items))
  {
    hide Good, MaintainAll, InstallAll, SkipAll;
    if items == [] {
      assert given + {} == given;
    } else if w.marker {
      MaintainAllRespects(w, items, given);
    } else {
      InstallAllGood(w, items, given);
      SkipAllEntries(w, items);
      MoreGoodWorld(SkipAll(w, items), given, given + Grants(w, items));
    }
  }

  /** A library whose owner chose any of the adapters another way is left as it is by the bootstrap. */
  lemma BootstrapRespectsOwner(w: World, items: seq<Built>)
    requires !w.marker && OwnerChose(w, items)
    ensures Synced(w, items).entries == w.entries && Synced(w, items).marker
  {
    SkipAllEntries(w, items);
  }
}
