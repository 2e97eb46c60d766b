/** What the bootstrap and the maintaining sync make of each adapter, said of its rows, its note and the answer. */
module BundledOutcomes {
  import opened Common
  import opened PluginState
  import opened PluginRules
  import opened PluginOutcomes
  import opened Bundled
  import opened BundledAgain

  // ---- The first installation --------------------------------------------------------------------

  /** The package of the build can be installed, or is there already. */
  ghost predicate CanInstall(e: Entry, item: Built) {
    && item.package.Some?
    && if Occupied(e, item.version) then e.versions[item.version].sha == item.sha
       else item.package.value.passes && !NewerActive(e, item.version)
  }

  /**
   A first installation fails, changes nothing and is noted as failed exactly when the build does not load, does not
   pass its tests, or cannot replace what is there; else the adapter is in use with all it asks for, and noted.
   */
  lemma FirstInstallExactly(e: Entry, item: Built, given: set<string>)
    requires Good(e, given) && Consistent(item)
    ensures var (r, e', n) := FirstInstall(e, item);
            && (r == Broken <==> !CanInstall(e, item))
            && (r == Broken ==> e' == e)
            && (r == Fresh <==> CanInstall(e, item) && !Occupied(e, item.version))
            && (r == Fresh ==>
                  && Succeeds(e, e', item.version) && e'.plugin.value.channel == "bundled"
                  && e'.versions[item.version].sha == item.sha
                  && e'.versions[item.version].approved == Some(item.package.value.permissions))
            && (r != Broken && r != Fresh ==> e' == e)
            && n == Some(Note(if r == Broken then Failed else NoteStatus.Installed, item.version, item.sha))
  {
    if item.package.Some? {
      var p := item.package.value;
      InstallAnswersExactly(e, p, p.permissions, TRUST, CHANNEL, None, given);
      assert Permitted(e, p.permissions, p.permissions);
      if PluginState.Installed(e, p, p.permissions, TRUST, CHANNEL, None).0 == Activated {
        ActivatedExactly(e, p, p.permissions, TRUST, CHANNEL, None, given);
      }
    }
    hide Good, PluginState.Installed, Permitted, NewerActive, Succeeds;
  }

  // ---- The bootstrap -----------------------------------------------------------------------------

  /** The bundle has one build for the id, at this place. */
  predicate OnlyPlace(items: seq<Built>, i: nat) {
    i < |items| && forall j :: 0 <= j < |items| && j != i ==> items[j].id != items[i].id
  }

  /** Each adapter that the bundle has once gets its own first installation, whatever the others do. */
  lemma {:induction false} InstallAllEach(w: World, items: seq<Built>, i: nat)
    requires OnlyPlace(items, i)
    ensures var id := items[i].id;
            var (_, e, n) := FirstInstall(EntryIn(w, id), items[i]);
            EntryIn(InstallAll(w, items), id) == e && NoteIn(InstallAll(w, items), id) == n
  {
    hide FirstInstall;
    var k := |items| - 1;
    NotesIt(EntryIn(w, items[i].id), items[i]);
    if i < k {
      assert OnlyPlace(items[..k], i);
      InstallAllEach(w, items[..k], i);
    } else {
      InstallAllOthers(w, items[..k], items[i].id);
    }
  }

  lemma NotesIt(e: Entry, item: Built)
    ensures FirstInstall(e, item).2.Some?
  {
  }

  lemma {:induction false} InstallAllOthers(w: World, items: seq<Built>, id: string)
    requires forall item :: item in items ==> item.id != id
    ensures EntryIn(InstallAll(w, items), id) == EntryIn(w, id) && NoteIn(InstallAll(w, items), id) == NoteIn(w, id)
  {
    if items != [] {
      hide FirstInstall;
      var k := |items| - 1;
      assert items[k] in items && forall item :: item in items[..k] ==> item in items;
      InstallAllOthers(w, items[..k], id);
    }
  }

  predicate OursOrAbsent(w: World, id: string) {
    EntryIn(w, id).plugin.Some? ==> EntryIn(w, id).plugin.value.channel == "bundled"
  }

  /** The first sync of a library with no adapter of the owner's: an adapter it never had is installed and enabled. */
  lemma BootstrapInstalls(w: World, items: seq<Built>, i: nat, given: set<string>)
    requires GoodWorld(w, given) && !w.marker && forall item :: item in items ==> OursOrAbsent(w, item.id)
    requires OnlyPlace(items, i) && Consistent(items[i]) && EntryIn(w, items[i].id).plugin == None
    ensures var item := items[i];
            var w' := Synced(w, items);
            var e := EntryIn(w', item.id);
            && w'.marker
            && if item.package.Some? && item.package.value.passes then
                 && e.plugin.Some? && e.plugin.value.state == Enabled && e.plugin.value.active == Some(item.version)
                 && e.plugin.value.channel == "bundled"
                 && HasStatus(e, item.version, Active) && e.versions[item.version].sha == item.sha
                 && e.versions[item.version].approved == Some(item.package.value.permissions)
                 && NoteIn(w', item.id) == Some(Note(NoteStatus.Installed, item.version, item.sha))
               else
                 && e == EntryIn(w, item.id)
                 && NoteIn(w', item.id) == Some(Note(Failed, item.version, item.sha))
  {
    var e := EntryIn(w, items[i].id);
    EntryGood(w, items[i].id, given);
    GoodNames(e, given);
    FirstInstallExactly(e, items[i], given);
    InstallAllEach(w, items, i);
    hide Good, FirstInstall, InstallAll;
  }

  /** If the owner chose any adapter of the bundle another way, nothing is installed and all are noted as skipped. */
  lemma BootstrapSkips(w: World, items: seq<Built>)
    requires !w.marker && exists item :: item in items && !OursOrAbsent(w, item.id)
    ensures var w' := Synced(w, items);
            && w'.marker && w'.entries == w.entries
            && forall item :: item in items ==> NoteIn(w', item.id).Some? && NoteIn(w', item.id).value.status == Skipped
  {
    var chosen :| chosen in items && !OursOrAbsent(w, chosen.id);
    SkipAllEntries(w, items);
    AllSkipped(w, items);
  }

  lemma {:induction false} AllSkipped(w: World, items: seq<Built>)
    ensures forall item :: item in items ==>
              var n := NoteIn(SkipAll(w, items), item.id); n.Some? && n.value.status == Skipped
  {
    if items != [] {
      var k := |items| - 1;
      assert items == items[..k] + [items[k]];
      AllSkipped(w, items[..k]);
    }
  }

  // ---- Keeping current ---------------------------------------------------------------------------

  /** The plugin is enabled on the bundled channel, and the build is newer than the version in use. */
  ghost predicate IsUpdate(e: Entry, item: Built) {
    && e.plugin.Some? && e.plugin.value.channel == "bundled" && e.plugin.value.state == Enabled
    && exists a :: HasStatus(e, a, Active) && Precedes(a, item.version)
  }

  /**
   An update of the bundle is activated exactly when it did not fail before, loads, has not been installed before, passes
   its tests and asks for nothing the version in use had no approval for; it waits for a review when it asks for more.
   */
  lemma UpdatesExactly(e: Entry, note: Option<Note>, item: Built, given: set<string>)
    requires Good(e, given) && Consistent(item) && IsUpdate(e, item)
    ensures var (r, e', n) := Maintained(e, note, item);
            var untried := item.package.Some? && !HasFailed(note, item.sha) && !Occupied(e, item.version)
                         && item.package.value.passes;
            && (r == Updated <==> untried && Permitted(e, item.package.value.permissions, {}))
            && (r == Updated ==> Succeeds(e, e', item.version) && e'.versions[item.version].sha == item.sha)
            && (r == InReview <==>
                  || (untried && !Permitted(e, item.package.value.permissions, {}))
                  || (item.package.Some? && !HasFailed(note, item.sha) && HasStatus(e, item.version, Pending)
                      && e.versions[item.version].sha == item.sha))
            && (r != Updated && r != InReview ==> e' == e)
            && n == (if HasFailed(note, item.sha) then note
                     else Some(Note(if r == Broken then Failed else NoteStatus.Installed, item.version, item.sha)))
  {
    UpdateIsNewer(e, item, given);
    if item.package.Some? {
      var p := item.package.value;
      InstallAnswersExactly(e, p, {}, TRUST, CHANNEL, None, given);
      var o := PluginState.Installed(e, p, {}, TRUST, CHANNEL, None).0;
      if o == Activated {
        ActivatedExactly(e, p, {}, TRUST, CHANNEL, None, given);
      } else if o.WaitsForReview? {
        WaitingExactly(e, p, {}, TRUST, CHANNEL, None, given);
      }
      ActivatedIsActive(e, p, given);
    }
    hide Good, PluginState.Installed, Permitted, NewerActive, Succeeds, Older, IsUpdate;
  }

  lemma ActivatedIsActive(e: Entry, p: Package, given: set<string>)
    requires Good(e, given)
    ensures var (o, e') := PluginState.Installed(e, p, {}, TRUST, CHANNEL, None);
            o == Activated ==> HasStatus(e', p.version, Active)
  {
    if PluginState.Installed(e, p, {}, TRUST, CHANNEL, None).0 == Activated {
      ActivatedExactly(e, p, {}, TRUST, CHANNEL, None, given);
    }
  }

  lemma UpdateIsNewer(e: Entry, item: Built, given: set<string>)
    requires Good(e, given) && IsUpdate(e, item)
    ensures var active := e.plugin.value.active;
            active.Some? && Older(active.value, item.version) && !Older(item.version, active.value)
            && item.version != active.value && !NewerActive(e, item.version)
  {
    ActiveIs(e, given);
    GoodNames(e, given);
    var a :| HasStatus(e, a, Active) && Precedes(a, item.version);
    OlderExactly(a, item.version);
    OlderExactly(item.version, a);
    OlderOneWay(a, item.version);
  }
}
