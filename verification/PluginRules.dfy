/** The lifecycle of a plugin over every run of owner actions, and a store that survives crashes. */
module PluginRules {
  import opened Common
  import opened PluginState

  // ---- The invariant -----------------------------------------------------------------------------

  /** The plugin is in use exactly when some version is active, and then names that version. */
  ghost predicate RowsAgree(e: Entry) {
    && |With(e.versions, Active)| <= 1
    && |With(e.versions, Previous)| <= 1
    && (With(e.versions, Previous) != {} ==> With(e.versions, Active) != {})
    && (e.plugin.None? ==> e.versions == map[])
    && (e.plugin.Some? ==>
          && (e.plugin.value.state == Enabled || e.plugin.value.state == Disabled <==> With(e.versions, Active) != {})
          && e.plugin.value.active == Only(e.versions, Active))
  }

  /** A version that is or was in use has all its permissions approved, out of approvals really given. */
  ghost predicate PermissionsAgree(versions: Versions, given: set<string>) {
    forall v :: v in versions ==>
      && (versions[v].status == Active || versions[v].status == Previous ==>
            versions[v].approved == Some(versions[v].permissions))
      && ApprovedOf(versions[v]) <= given
  }

  /** Every version that is not retired has its own file in the store. */
  ghost predicate StoreAgrees(e: Entry) {
    forall v :: v in e.versions && e.versions[v].status != Retired ==> Sound(e, v)
  }

  ghost predicate Good(e: Entry, given: set<string>) {
    RowsAgree(e) && PermissionsAgree(e.versions, given) && StoreAgrees(e)
  }

  lemma OnlyOne(s: set<Version>, v: Version)
    requires |s| <= 1 && v in s
    ensures s == {v}
  {
    if s != {v} {
      var w := Member(s - {v});
      assert {v, w} <= s;
      SubsetSize({v, w}, s);
    }
  }

  lemma TheOnly(versions: Versions, s: Status, v: Version)
    requires With(versions, s) == {v}
    ensures Only(versions, s) == Some(v)
  {
  }

  // ---- Recording a version -----------------------------------------------------------------------

  lemma ShiftedRows(versions: Versions)
    requires |With(versions, Active)| <= 1
    ensures With(Shifted(versions), Active) == {}
    ensures With(Shifted(versions), Previous) == With(versions, Active)
  {
  }

  lemma RecordedActive(e: Entry, version: Version, row: VersionRow, channel: string, registry: Option<string>)
    requires RowsAgree(e) && row.status == Active
    requires version in e.versions ==> e.versions[version].status == Retired || e.versions[version].status == Pending
    ensures var e' := Recorded(e, version, row, channel, registry);
            && With(e'.versions, Active) == {version}
            && With(e'.versions, Previous) == With(e.versions, Active)
            && RowsAgree(e')
  {
    ShiftedRows(e.versions);
    var e' := Recorded(e, version, row, channel, registry);
    assert With(e'.versions, Active) == {version};
    assert With(e'.versions, Previous) == With(e.versions, Active);
    TheOnly(e'.versions, Active, version);
  }

  lemma SameActive(a: Versions, b: Versions)
    requires |With(a, Active)| <= 1 && With(a, Active) == With(b, Active)
    ensures Only(a, Active) == Only(b, Active)
  {
    if With(a, Active) != {} {
      var v := Member(With(a, Active));
      OnlyOne(With(a, Active), v);
    }
  }

  lemma RecordedPending(e: Entry, version: Version, row: VersionRow, channel: string, registry: Option<string>)
    requires RowsAgree(e) && row.status == Pending
    requires version in e.versions ==> e.versions[version].status == Retired
    ensures var e' := Recorded(e, version, row, channel, registry);
            && RowsAgree(e') && Only(e'.versions, Active) == Only(e.versions, Active)
            && (e.plugin.Some? && InUse(e.plugin) ==> e'.plugin.value.state == e.plugin.value.state
                                                       && e'.plugin.value.channel == e.plugin.value.channel)
  {
    var e' := Recorded(e, version, row, channel, registry);
    assert With(e'.versions, Active) == With(e.versions, Active);
    assert With(e'.versions, Previous) == With(e.versions, Previous);
    SameActive(e.versions, e'.versions);
  }

  lemma BaselineGiven(e: Entry, given: set<string>)
    requires PermissionsAgree(e.versions, given)
    ensures Baseline(e) <= given
  {
  }

  lemma RecordedPermissions(
    e: Entry, version: Version, row: VersionRow, channel: string, registry: Option<string>, given: set<string>)
    requires PermissionsAgree(e.versions, given)
    requires row.status == Active ==> row.approved == Some(row.permissions)
    requires row.status == Active || row.status == Pending
    requires ApprovedOf(row) <= given
    ensures PermissionsAgree(Recorded(e, version, row, channel, registry).versions, given)
  {
  }

  lemma MoreGiven(versions: Versions, given: set<string>, more: set<string>)
    requires PermissionsAgree(versions, given) && given <= more
    ensures PermissionsAgree(versions, more)
  {
  }

  lemma RecordedStore(e: Entry, version: Version, row: VersionRow, channel: string, registry: Option<string>)
    requires StoreAgrees(e) && version in e.files && e.files[version] == row.sha
    ensures StoreAgrees(Recorded(e, version, row, channel, registry))
  {
  }

  // ---- Every operation keeps the rules -----------------------------------------------------------

  /** Stopping between the move into the store and the transaction keeps every version's own file. */
  lemma MoveKeepsStore(e: Entry, p: Package)
    requires StoreAgrees(e) && (p.version in e.versions ==> e.versions[p.version].status == Retired)
    ensures StoreAgrees(Stored(e, p))
  {
  }

  lemma InstalledGood(
    e: Entry, p: Package, approvals: set<string>, tier: string, channel: string, registry: Option<string>, given: set<string>)
    requires Good(e, given)
    ensures var (o, e') := Installed(e, p, approvals, tier, channel, registry); Good(e', given + approvals)
  {
    hide RowsAgree, PermissionsAgree, StoreAgrees, Recorded, Baseline;
    MoreGiven(e.versions, given, given + approvals);
    if Refusal(e, p).None? {
      var row := RowFor(e, p, approvals, tier);
      var moved := Stored(e, p);
      BaselineGiven(e, given);
      MoveKeepsStore(e, p);
      RowsOnly(e, moved);
      assert row.status == Active ==> (Baseline(e) + approvals) * p.permissions == p.permissions;
      RecordedPermissions(moved, p.version, row, channel, registry, given + approvals);
      RecordedStore(moved, p.version, row, channel, registry);
      if row.status == Active {
        RecordedActive(moved, p.version, row, channel, registry);
      } else {
        RecordedPending(moved, p.version, row, channel, registry);
      }
    }
  }

  lemma RowsOnly(a: Entry, b: Entry)
    requires RowsAgree(a) && a.plugin == b.plugin && a.versions == b.versions
    ensures RowsAgree(b)
  {
  }

  lemma ApprovedGood(e: Entry, version: Version, approvals: set<string>, given: set<string>)
    requires Good(e, given)
    ensures Good(Approved(e, version, approvals).1, given + approvals)
  {
    hide RowsAgree, PermissionsAgree, StoreAgrees, Recorded, Baseline;
    MoreGiven(e.versions, given, given + approvals);
    if Approved(e, version, approvals).0 == Activated {
      var waiting := e.versions[version];
      var approved := Baseline(e) + approvals;
      var row := waiting.(approved := Some(approved * waiting.permissions), status := Active);
      BaselineGiven(e, given);
      assert approved * waiting.permissions == waiting.permissions;
      RecordedPermissions(e, version, row, e.plugin.value.channel, e.plugin.value.registry, given + approvals);
      RecordedStore(e, version, row, e.plugin.value.channel, e.plugin.value.registry);
      RecordedActive(e, version, row, e.plugin.value.channel, e.plugin.value.registry);
    }
  }

  lemma RolledBackGood(e: Entry, given: set<string>)
    requires Good(e, given)
    ensures Good(RolledBack(e).1, given)
  {
    if RolledBack(e).0 {
      RolledBackRows(e);
    }
  }

  lemma RolledBackRows(e: Entry)
    requires RowsAgree(e) && RolledBack(e).0
    ensures var previous, active := Only(e.versions, Previous).value, Only(e.versions, Active).value;
            var e' := RolledBack(e).1;
            && With(e'.versions, Active) == {previous} && With(e'.versions, Previous) == {active}
            && Only(e'.versions, Active) == Some(previous) && Only(e'.versions, Previous) == Some(active)
            && RowsAgree(e')
  {
    var previous, active := Only(e.versions, Previous).value, Only(e.versions, Active).value;
    OnlyOne(With(e.versions, Previous), previous);
    OnlyOne(With(e.versions, Active), active);
    var e' := RolledBack(e).1;
    forall v ensures v in With(e'.versions, Active) <==> v == previous {
      assert v in e.versions && e.versions[v].status == Active <==> v in With(e.versions, Active);
    }
    forall v ensures v in With(e'.versions, Previous) <==> v == active {
      assert v in e.versions && e.versions[v].status == Previous <==> v in With(e.versions, Previous);
    }
    assert With(e'.versions, Active) == {previous} && With(e'.versions, Previous) == {active};
    TheOnly(e'.versions, Active, previous);
    TheOnly(e'.versions, Previous, active);
  }

  lemma DeregisteredGood(e: Entry, given: set<string>)
    requires Good(e, given)
    ensures Good(Deregistered(e), given)
    ensures Good(UninstalledNow(e).1, given)
  {
    var e' := Deregistered(e);
    assert e.plugin.Some? ==> With(e'.versions, Active) == {} && With(e'.versions, Previous) == {};
  }

  /** While files are being removed, whichever are gone, the rules hold. */
  lemma PartlyRemovedGood(e: Entry, gone: set<Version>, given: set<string>)
    requires Good(e, given) && e.plugin.Some?
    ensures var d := Deregistered(e); Good(d.(files := d.files - gone), given)
  {
    DeregisteredGood(e, given);
  }

  lemma ReconciledGood(e: Entry, given: set<string>)
    requires Good(e, given)
    ensures Good(Reconciled(e), given)
  {
  }

  // ---- The store after a crash -------------------------------------------------------------------

  /**
   Reconciling leaves exactly the files that versions in use refer to, each with that version's own bytes,
   and doing it again changes nothing.
   */
  lemma ReconciledExactly(e: Entry)
    requires StoreAgrees(e)
    ensures var r := Reconciled(e);
            && (forall v :: v in r.files <==> v in e.versions && e.versions[v].status != Retired)
            && (forall v :: v in r.files ==> r.files[v] == e.versions[v].sha)
            && Reconciled(r) == r
            && r.plugin == e.plugin && r.versions == e.versions
  {
    assert forall v :: v in e.versions && e.versions[v].status != Retired ==> Sound(e, v);
  }

  // ---- Rollback ----------------------------------------------------------------------------------

  /** Rolling back twice restores every version row; the plugin is enabled even if it was disabled. */
  lemma RollbackTwice(e: Entry, given: set<string>)
    requires Good(e, given) && RolledBack(e).0
    ensures var once := RolledBack(e).1;
            var (ok, twice) := RolledBack(once);
            && ok && twice.versions == e.versions && twice.files == e.files
            && once.plugin.value.state == Enabled
            && (twice.plugin == e.plugin <==> e.plugin.value.state == Enabled)
  {
    var previous, active := Only(e.versions, Previous).value, Only(e.versions, Active).value;
    RolledBackRows(e);
    var once := RolledBack(e).1;
    assert previous != active;
    assert Sound(e, active);
    assert RolledBack(once).0;
    var twice := RolledBack(once).1;
    assert twice.versions == e.versions;
  }

  /** A disabled plugin is enabled by a rollback exactly when there is a version to go back to. */
  lemma RollbackEnablesIff(e: Entry, given: set<string>)
    requires Good(e, given) && e.plugin.Some? && e.plugin.value.state == Disabled
    ensures RolledBack(e).1.plugin.value.state == Enabled <==> With(e.versions, Previous) != {}
  {
    if With(e.versions, Previous) != {} {
      assert Sound(e, Only(e.versions, Previous).value);
    }
  }

  // ---- Versions going down -----------------------------------------------------------------------

  /** An installation never lowers the active version. */
  lemma InstallNeverLowers(e: Entry, p: Package, approvals: set<string>, tier: string, channel: string,
                           registry: Option<string>, given: set<string>)
    requires Good(e, given)
    ensures var e' := Installed(e, p, approvals, tier, channel, registry).1;
            var before, after := Only(e.versions, Active), Only(e'.versions, Active);
            before.Some? ==> after.Some? && !Older(after.value, before.value)
  {
    hide RowsAgree, Recorded;
    if Refusal(e, p).None? {
      var moved, row := Stored(e, p), RowFor(e, p, approvals, tier);
      RowsOnly(e, moved);
      if row.status == Active {
        RecordedActive(moved, p.version, row, channel, registry);
      } else {
        RecordedPending(moved, p.version, row, channel, registry);
      }
    }
    if Only(e.versions, Active).Some? { NotOlder(Only(e.versions, Active).value); }
  }

  lemma {:induction false} NotOlder(v: Version)
    ensures !Older(v, v)
  {
    if v != [] { NotOlder(v[1..]); }
  }

  /**
   An approval does, exactly when the version waits for review, everything it asks for is approved now or was for the
   version in use, and it is older than that version. The approval itself never compares the two.
   */
  lemma ApproveLowersIff(e: Entry, version: Version, approvals: set<string>, given: set<string>)
    requires Good(e, given)
    ensures var before, after := Only(e.versions, Active), Only(Approved(e, version, approvals).1.versions, Active);
            before.Some? && after.Some? && Older(after.value, before.value)
            <==> && version in e.versions && e.versions[version].status == Pending
                 && e.versions[version].permissions <= Baseline(e) + approvals
                 && before.Some? && Older(version, before.value)
  {
    hide Recorded, Baseline;
    var before := Only(e.versions, Active);
    if before.Some? {
      NotOlder(before.value);
      if Approved(e, version, approvals).0 == Activated {
        var row := e.versions[version].(
          approved := Some((Baseline(e) + approvals) * e.versions[version].permissions), status := Active);
        RecordedActive(e, version, row, e.plugin.value.channel, e.plugin.value.registry);
      } else if version in e.versions && e.versions[version].status == Pending {
        StoreKeeps(e, version);
      }
    }
  }

  /**
   And it can happen to any plugin in use: an update that needs more permissions waits, a later one that needs
   no more is activated, and approving the first takes the plugin back below the second.
   */
  lemma ApproveCanLower(e: Entry, p: Package, q: Package, tier: string, channel: string, given: set<string>)
    requires Good(e, given) && Only(e.versions, Active).Some?
    requires p.version !in e.versions && q.version !in e.versions && p.passes && q.passes
    requires !Older(p.version, Only(e.versions, Active).value) && !Older(q.version, Only(e.versions, Active).value)
    requires Older(p.version, q.version)
    requires !(p.permissions <= Baseline(e)) && q.permissions <= Baseline(e)
    ensures var e1 := Installed(e, p, {}, tier, channel, None).1;
            var e2 := Installed(e1, q, {}, tier, channel, None).1;
            var (o, e3) := Approved(e2, p.version, p.permissions);
            && Only(e2.versions, Active) == Some(q.version)
            && o == Activated && Only(e3.versions, Active) == Some(p.version)
  {
    hide RowsAgree, PermissionsAgree, StoreAgrees, Only, With, Shifted;
    var e1 := Installed(e, p, {}, tier, channel, None).1;
    InstalledGood(e, p, {}, tier, channel, None, given);
    Waits(e, p, tier, channel, given);
    NotOlder(p.version);
    assert p.version != q.version;
    var e2 := Installed(e1, q, {}, tier, channel, None).1;
    InstalledGood(e1, q, {}, tier, channel, None, given + {});
    Activates(e1, q, tier, channel, given + {});
    assert p.version in e2.versions && e2.versions[p.version] == e1.versions[p.version] by { ShiftedPending(e1.versions); }
    assert Sound(e2, p.version) by { StoreKeeps(e2, p.version); }
    RecordedActive(e2, p.version, e2.versions[p.version].(
                     approved := Some((Baseline(e2) + p.permissions) * p.permissions), status := Active),
                   e2.plugin.value.channel, e2.plugin.value.registry);
    TheOnly(Approved(e2, p.version, p.permissions).1.versions, Active, p.version);
  }

  lemma Waits(e: Entry, p: Package, tier: string, channel: string, given: set<string>)
    requires Good(e, given) && Refusal(e, p).None? && !(p.permissions <= Baseline(e))
    ensures var e1 := Installed(e, p, {}, tier, channel, None).1;
            && Only(e1.versions, Active) == Only(e.versions, Active) && Baseline(e1) == Baseline(e)
            && e1.versions.Keys == e.versions.Keys + {p.version}
            && e1.versions[p.version] == VersionRow(p.sha, p.permissions, None, Pending, tier)
  {
    hide PermissionsAgree, StoreAgrees;
    RowsOnly(e, Stored(e, p));
    assert Baseline(e) + {} == Baseline(e);
    RecordedPending(Stored(e, p), p.version, RowFor(e, p, {}, tier), channel, None);
  }

  lemma Activates(e: Entry, q: Package, tier: string, channel: string, given: set<string>)
    requires Good(e, given) && Refusal(e, q).None? && q.permissions <= Baseline(e)
    ensures var e1 := Installed(e, q, {}, tier, channel, None).1;
            && Only(e1.versions, Active) == Some(q.version) && e1.plugin.Some?
            && forall v :: v in e.versions && v != q.version ==> v in e1.versions && e1.versions[v] == Shifted(e.versions)[v]
  {
    hide PermissionsAgree, StoreAgrees;
    RowsOnly(e, Stored(e, q));
    RecordedActive(Stored(e, q), q.version, RowFor(e, q, {}, tier), channel, None);
    TheOnly(Installed(e, q, {}, tier, channel, None).1.versions, Active, q.version);
  }

  lemma ShiftedPending(versions: Versions)
    ensures forall v :: v in versions && versions[v].status == Pending ==> Shifted(versions)[v] == versions[v]
  {
  }

  lemma StoreKeeps(e: Entry, v: Version)
    requires StoreAgrees(e) && v in e.versions && e.versions[v].status != Retired
    ensures Sound(e, v)
  {
  }

  // ---- Runs --------------------------------------------------------------------------------------

  datatype Event =
    | Install(p: Package, approvals: set<string>, tier: string, channel: string, registry: Option<string>)
    | InstallFromRegistry(p: Package, approvals: set<string>, tier: string, registryUrl: string)
    | MoveOnly(p: Package)
    | Approve(version: Version, approvals: set<string>)
    | Rollback
    | Disable
    | Enable
    | Uninstall
    | UninstallHalf(gone: set<Version>)
    | Reconcile

  ghost function Next(e: Entry, ev: Event): Entry {
    match ev
    case Install(p, approvals, tier, channel, registry) => Installed(e, p, approvals, tier, channel, registry).1
    case InstallFromRegistry(p, approvals, tier, url) => FromRegistry(e, p, approvals, tier, url).1
    case MoveOnly(p) => if Refusal(e, p).None? then Stored(e, p) else e
    case Approve(version, approvals) => Approved(e, version, approvals).1
    case Rollback => RolledBack(e).1
    case Disable => DisabledNow(e).1
    case Enable => EnabledNow(e).1
    case Uninstall => UninstalledNow(e).1
    case UninstallHalf(gone) => if e.plugin.None? then e else Deregistered(e).(files := e.files - gone)
    case Reconcile => Reconciled(e)
  }

  function Approvals(ev: Event): set<string> {
    match ev
    case Install(_, approvals, _, _, _) => approvals
    case InstallFromRegistry(_, approvals, _, _) => approvals
    case Approve(_, approvals) => approvals
    case _ => {}
  }

  ghost function After(evs: seq<Event>): Entry {
    if evs == [] then NEVER_INSTALLED else Next(After(evs[..|evs| - 1]), evs[|evs| - 1])
  }

  /** Every permission the owner ever approved. */
  function Given(evs: seq<Event>): set<string> {
    if evs == [] then {} else Given(evs[..|evs| - 1]) + Approvals(evs[|evs| - 1])
  }

  lemma FromRegistryGood(e: Entry, p: Package, approvals: set<string>, tier: string, location: string, given: set<string>)
    requires Good(e, given)
    ensures Good(FromRegistry(e, p, approvals, tier, location).1, given + approvals)
  {
    hide Good, Installed, Approved;
    InstalledGood(e, p, approvals, tier, "registry", Some(location), given);
    var (o, e') := Installed(e, p, approvals, tier, "registry", Some(location));
    if o == AlreadyInstalled {
      ApprovedGood(e', p.version, approvals, given + approvals);
      assert given + approvals + approvals == given + approvals;
    } else if e'.plugin.Some? {
      Rechannelled(e', e'.plugin.value.(channel := "registry", registry := Some(location)), given + approvals);
    }
  }

  lemma Rechannelled(e: Entry, plugin: Plugin, given: set<string>)
    requires Good(e, given) && e.plugin.Some?
    requires plugin.state == e.plugin.value.state && plugin.active == e.plugin.value.active
    ensures Good(e.(plugin := Some(plugin)), given)
  {
  }

  lemma ToggledGood(e: Entry, given: set<string>)
    requires Good(e, given)
    ensures Good(DisabledNow(e).1, given) && Good(EnabledNow(e).1, given)
  {
  }

  lemma NextGood(e: Entry, ev: Event, given: set<string>)
    requires Good(e, given)
    ensures Good(Next(e, ev), given + Approvals(ev))
  {
    hide Good, Installed, Approved, RolledBack, Deregistered, Reconciled, FromRegistry, DisabledNow, EnabledNow, Stored;
    assert given + {} == given;
    match ev
    case Install(p, approvals, tier, channel, registry) =>
      InstalledGood(e, p, approvals, tier, channel, registry, given);
    case InstallFromRegistry(p, approvals, tier, url) =>
      FromRegistryGood(e, p, approvals, tier, url, given);
    case MoveOnly(p) =>
      if Refusal(e, p).None? { MovedGood(e, p, given); }
    case Approve(version, approvals) =>
      ApprovedGood(e, version, approvals, given);
    case Rollback =>
      RolledBackGood(e, given);
    case Disable =>
      ToggledGood(e, given);
    case Enable =>
      ToggledGood(e, given);
    case Uninstall =>
      DeregisteredGood(e, given);
    case UninstallHalf(gone) =>
      if e.plugin.Some? { HalfGood(e, gone, given); }
    case Reconcile =>
      ReconciledGood(e, given);
  }

  lemma MovedGood(e: Entry, p: Package, given: set<string>)
    requires Good(e, given) && Refusal(e, p).None?
    ensures Good(Stored(e, p), given)
  {
    MoveKeepsStore(e, p);
  }

  lemma HalfGood(e: Entry, gone: set<Version>, given: set<string>)
    requires Good(e, given) && e.plugin.Some?
    ensures Good(Deregistered(e).(files := e.files - gone), given)
  {
    PartlyRemovedGood(e, gone, given);
  }

  /**
   In every run of owner actions, crashes between the steps of an install or uninstall, and reconciliations:
   at most one version is active and one previous; a version is active exactly when the plugin is enabled or
   disabled, and is the one it names; its permissions are all approved, out of approvals really given; and
   every version not retired has its own bytes in the store.
   */
  lemma {:induction false} AlwaysGood(evs: seq<Event>)
    ensures Good(After(evs), Given(evs))
  {
    if evs != [] {
      hide Good, Next;
      AlwaysGood(evs[..|evs| - 1]);
      NextGood(After(evs[..|evs| - 1]), evs[|evs| - 1], Given(evs[..|evs| - 1]));
    } else {
      assert With(map[], Active) == {} && With(map[], Previous) == {};
    }
  }

  // ---- A disabled plugin stays disabled ----------------------------------------------------------

  /** Only the owner enabling, rolling back or removing it takes a plugin out of the disabled state. */
  lemma NextStaysDisabled(e: Entry, ev: Event, given: set<string>)
    requires Good(e, given) && e.plugin.Some? && e.plugin.value.state == Disabled
    requires ev != Enable && ev != Rollback && !ev.Uninstall? && !ev.UninstallHalf?
    ensures Next(e, ev).plugin.Some? && Next(e, ev).plugin.value.state == Disabled
  {
    hide PermissionsAgree, StoreAgrees, Baseline, Shifted, With;
    assert InUse(e.plugin);
    match ev
    case InstallFromRegistry(p, approvals, tier, url) =>
      var e' := Installed(e, p, approvals, tier, "registry", Some(url)).1;
      assert e'.plugin.Some? && e'.plugin.value.state == Disabled && e'.plugin.value.active.Some?;
    case _ =>
  }

  predicate LeavesDisabled(evs: seq<Event>) {
    forall ev :: ev in evs ==> ev != Enable && ev != Rollback && !ev.Uninstall? && !ev.UninstallHalf?
  }

  /** However often it is installed, updated or approved, a plugin the owner disabled stays disabled. */
  lemma {:induction false} StaysDisabled(before: seq<Event>, evs: seq<Event>)
    requires After(before).plugin.Some? && After(before).plugin.value.state == Disabled && LeavesDisabled(evs)
    ensures After(before + evs).plugin.Some? && After(before + evs).plugin.value.state == Disabled
  {
    if evs == [] {
      assert before + evs == before;
    } else {
      hide Next, Good;
      var k := |evs| - 1;
      var all := before + evs;
      assert all[..|all| - 1] == before + evs[..k] && all[|all| - 1] == evs[k];
      assert evs[k] in evs && forall ev :: ev in evs[..k] ==> ev in evs;
      StaysDisabled(before, evs[..k]);
      AlwaysGood(before + evs[..k]);
      NextStaysDisabled(After(before + evs[..k]), evs[k], Given(before + evs[..k]));
    }
  }
}
