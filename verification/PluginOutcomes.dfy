/** What installing, approving, managing and bootstrapping plugins answer and leave, said of the rows alone. */
module PluginOutcomes {
  import opened Common
  import opened PluginState
  import opened PluginRules

  // ---- Versions ----------------------------------------------------------------------------------

  /** The first number that differs decides; a version is older than any that continues it. */
  ghost predicate Precedes(a: Version, b: Version) {
    exists i: nat :: i <= |a| && i < |b| && a[..i] == b[..i] && (i == |a| || a[i] < b[i])
  }

  lemma {:induction false} OlderExactly(a: Version, b: Version)
    ensures Older(a, b) <==> Precedes(a, b)
  {
    if b != [] {
      assert a[..0] == b[..0];
    }
    if a != [] && b != [] {
      OlderExactly(a[1..], b[1..]);
      if a[0] == b[0] {
        PrecedesFurther(a, b);
        if Precedes(a[1..], b[1..]) { PrecedesAgain(a, b); }
      } else {
        if Precedes(a, b) { DifferAtOnce(a, b); }
      }
    }
  }

  lemma DifferAtOnce(a: Version, b: Version)
    requires a != [] && b != [] && a[0] != b[0] && Precedes(a, b)
    ensures a[0] < b[0]
  {
    var i: nat :| i <= |a| && i < |b| && a[..i] == b[..i] && (i == |a| || a[i] < b[i]);
    assert i > 0 ==> a[..i][0] == b[..i][0];
  }

  lemma PrecedesFurther(a: Version, b: Version)
    requires a != [] && b != [] && a[0] == b[0]
    ensures Precedes(a, b) ==> Precedes(a[1..], b[1..])
  {
    if Precedes(a, b) {
      var i: nat :| i <= |a| && i < |b| && a[..i] == b[..i] && (i == |a| || a[i] < b[i]);
      assert i > 0;
      assert a[1..][..i - 1] == a[..i][1..] && b[1..][..i - 1] == b[..i][1..];
    }
  }

  lemma PrecedesAgain(a: Version, b: Version)
    requires a != [] && b != [] && a[0] == b[0] && Precedes(a[1..], b[1..])
    ensures Precedes(a, b)
  {
    var s, t := a[1..], b[1..];
    var i: nat :| i <= |s| && i < |t| && s[..i] == t[..i] && (i == |s| || s[i] < t[i]);
    assert a[..i + 1] == [a[0]] + s[..i] && b[..i + 1] == [b[0]] + t[..i];
  }

  // ---- Installing --------------------------------------------------------------------------------

  predicate HasStatus(e: Entry, v: Version, s: Status) {
    v in e.versions && e.versions[v].status == s
  }

  /** The version has a row that is not retired. */
  predicate Occupied(e: Entry, v: Version) {
    v in e.versions && e.versions[v].status != Retired
  }

  ghost predicate NewerActive(e: Entry, v: Version) {
    exists a :: HasStatus(e, a, Active) && Precedes(v, a)
  }

  /** A permission was approved for the version in use. */
  ghost predicate Had(e: Entry, permission: string) {
    exists a :: HasStatus(e, a, Active) && e.versions[a].approved.Some? && permission in e.versions[a].approved.value
  }

  lemma ActiveIs(e: Entry, given: set<string>)
    requires Good(e, given)
    ensures forall v :: HasStatus(e, v, Active) <==> Only(e.versions, Active) == Some(v)
    ensures forall v :: HasStatus(e, v, Previous) <==> Only(e.versions, Previous) == Some(v)
    ensures forall permission :: permission in Baseline(e) <==> Had(e, permission)
  {
    forall v | HasStatus(e, v, Active) ensures Only(e.versions, Active) == Some(v) {
      OnlyOne(With(e.versions, Active), v);
    }
    forall v | HasStatus(e, v, Previous) ensures Only(e.versions, Previous) == Some(v) {
      OnlyOne(With(e.versions, Previous), v);
    }
    if Only(e.versions, Active).Some? {
      assert HasStatus(e, Only(e.versions, Active).value, Active);
    }
  }

  ghost predicate Permitted(e: Entry, wanted: set<string>, approvals: set<string>) {
    forall permission :: permission in wanted ==> permission in approvals || Had(e, permission)
  }

  /**
   Each answer of an installation has its own condition. Nothing changes when the package is refused or already there;
   and a package whose packaged tests fail changes nothing, whatever is installed.
   */
  lemma InstallAnswersExactly(
    e: Entry, p: Package, approvals: set<string>, tier: string, channel: string, registry: Option<string>, given: set<string>)
    requires Good(e, given)
    ensures var (o, e') := Installed(e, p, approvals, tier, channel, registry);
            && (o == AlreadyInstalled <==> Occupied(e, p.version) && e.versions[p.version].sha == p.sha)
            && (o == Rejected <==>
                  if Occupied(e, p.version) then e.versions[p.version].sha != p.sha
                  else NewerActive(e, p.version) || !p.passes)
            && (o == Activated <==>
                  && !Occupied(e, p.version) && !NewerActive(e, p.version) && p.passes
                  && Permitted(e, p.permissions, approvals))
            && (o.WaitsForReview? ==>
                  forall permission :: permission in o.missing
                    <==> permission in p.permissions && permission !in approvals && !Had(e, permission))
            && (o == Rejected || o == AlreadyInstalled ==> e' == e)
            && (!p.passes ==> e' == e && (o == Rejected || o == AlreadyInstalled))
  {
    ActiveIs(e, given);
    var active := Only(e.versions, Active);
    if active.Some? {
      OlderExactly(p.version, active.value);
      assert HasStatus(e, active.value, Active);
    }
    hide Good, Older, Precedes, Recorded, Baseline;
    assert Permitted(e, p.permissions, approvals) <==> p.permissions <= Baseline(e) + approvals;
  }

  /** The version is now the active one, the one before it the previous one, and the one before that retired. */
  ghost predicate Succeeds(e: Entry, e': Entry, v: Version) {
    && e'.versions.Keys == e.versions.Keys + {v}
    && (forall u :: u in e.versions && u != v ==>
          e'.versions[u] == e.versions[u].(status := match e.versions[u].status
                                                     case Active => Previous
                                                     case Previous => Retired
                                                     case s => s))
    && e'.versions[v].status == Active
    && e'.plugin.Some? && e'.plugin.value.active == Some(v)
    && e'.plugin.value.state == if e.plugin.Some? && e.plugin.value.state == Disabled then Disabled else Enabled
  }

  lemma RecordedSucceeds(e: Entry, v: Version, row: VersionRow, channel: string, registry: Option<string>)
    requires row.status == Active
    requires e.plugin.Some? && e.plugin.value.state == Disabled ==> InUse(e.plugin)
    ensures var e' := Recorded(e, v, row, channel, registry);
            && Succeeds(e, e', v) && e'.versions[v] == row && e'.files == e.files
            && e'.plugin.value.tier == row.tier && e'.plugin.value.channel == channel
            && e'.plugin.value.registry
               == if registry.Some? || e.plugin.None? then registry else e.plugin.value.registry
  {
  }

  /** An activated package is the active version, with all it asks for approved and its own bytes in the store. */
  lemma ActivatedExactly(
    e: Entry, p: Package, approvals: set<string>, tier: string, channel: string, registry: Option<string>, given: set<string>)
    requires Good(e, given) && Installed(e, p, approvals, tier, channel, registry).0 == Activated
    ensures var e' := Installed(e, p, approvals, tier, channel, registry).1;
            && Succeeds(e, e', p.version)
            && e'.versions[p.version] == VersionRow(p.sha, p.permissions, Some(p.permissions), Active, tier)
            && e'.files == e.files[p.version := p.sha]
            && e'.plugin.value.tier == tier && e'.plugin.value.channel == channel
            && e'.plugin.value.registry
               == if registry.Some? || e.plugin.None? then registry else e.plugin.value.registry
  {
    DisabledInUse(e, given);
    hide Good, Only, Baseline, Recorded;
    assert (Baseline(e) + approvals) * p.permissions == p.permissions;
    RecordedSucceeds(Stored(e, p), p.version, RowFor(e, p, approvals, tier), channel, registry);
  }

  lemma DisabledInUse(e: Entry, given: set<string>)
    requires Good(e, given)
    ensures e.plugin.Some? && (e.plugin.value.state == Disabled || e.plugin.value.state == Enabled) <==> InUse(e.plugin)
  {
  }

  /** A package that waits has its row and its bytes, but the version in use and its plugin stay as they were. */
  lemma WaitingExactly(
    e: Entry, p: Package, approvals: set<string>, tier: string, channel: string, registry: Option<string>, given: set<string>)
    requires Good(e, given) && Installed(e, p, approvals, tier, channel, registry).0.WaitsForReview?
    ensures var e' := Installed(e, p, approvals, tier, channel, registry).1;
            && e'.versions == e.versions[p.version := VersionRow(p.sha, p.permissions, None, Pending, tier)]
            && e'.files == e.files[p.version := p.sha]
            && e'.plugin.Some?
            && var reg := if registry.Some? || e.plugin.None? then registry else e.plugin.value.registry;
               e'.plugin.value
               == if e.plugin.Some? && (e.plugin.value.state == Enabled || e.plugin.value.state == Disabled)
                  then e.plugin.value.(registry := reg) else Plugin(PendingReview, None, tier, channel, reg)
  {
    DisabledInUse(e, given);
    hide Good, Only, Baseline;
  }

  // ---- Where versions come from ------------------------------------------------------------------

  function PackagesOf(ev: Event): set<Package> {
    match ev
    case Install(p, _, _, _, _) => {p}
    case InstallFromRegistry(p, _, _, _) => {p}
    case _ => {}
  }

  function AllPackages(evs: seq<Event>): set<Package> {
    if evs == [] then {} else AllPackages(evs[..|evs| - 1]) + PackagesOf(evs[|evs| - 1])
  }

  predicate Describes(p: Package, v: Version, row: VersionRow) {
    p.passes && p.version == v && p.sha == row.sha && p.permissions == row.permissions
  }

  ghost predicate FromPassing(e: Entry, packages: set<Package>) {
    forall v :: v in e.versions ==> exists p :: p in packages && Describes(p, v, e.versions[v])
  }

  lemma InstallFromPassing(
    e: Entry, p: Package, approvals: set<string>, tier: string, channel: string, registry: Option<string>,
    packages: set<Package>)
    requires FromPassing(e, packages)
    ensures FromPassing(Installed(e, p, approvals, tier, channel, registry).1, packages + {p})
  {
    hide Baseline, Only;
    var e' := Installed(e, p, approvals, tier, channel, registry).1;
    if Refusal(e, p).None? {
      assert p in packages + {p} && Describes(p, p.version, e'.versions[p.version]);
    }
    forall v | v in e'.versions ensures exists q :: q in packages + {p} && Describes(q, v, e'.versions[v]) {
      if v in e.versions {
        var q :| q in packages && Describes(q, v, e.versions[v]);
        assert v != p.version || e' == e ==> Describes(q, v, e'.versions[v]);
      }
    }
  }

  /** No row has other bytes or permissions than before. */
  ghost predicate SameBytes(before: Versions, after: Versions) {
    forall v :: v in after ==>
      v in before && after[v].sha == before[v].sha && after[v].permissions == before[v].permissions
  }

  lemma FromPassingStays(e: Entry, e': Entry, packages: set<Package>, more: set<Package>)
    requires FromPassing(e, packages) && SameBytes(e.versions, e'.versions) && packages <= more
    ensures FromPassing(e', more)
  {
    forall v | v in e'.versions ensures exists p :: p in more && Describes(p, v, e'.versions[v]) {
      var p :| p in packages && Describes(p, v, e.versions[v]);
      assert Describes(p, v, e'.versions[v]);
    }
  }

  lemma ApproveSameBytes(e: Entry, version: Version, approvals: set<string>)
    ensures SameBytes(e.versions, Approved(e, version, approvals).1.versions)
  {
    hide Baseline;
  }

  lemma OtherSameBytes(e: Entry, ev: Event)
    requires !ev.Install? && !ev.InstallFromRegistry? && !ev.Approve?
    ensures SameBytes(e.versions, Next(e, ev).versions)
  {
    hide Refusal;
  }

  lemma NextFromPassing(e: Entry, ev: Event, packages: set<Package>)
    requires FromPassing(e, packages)
    ensures FromPassing(Next(e, ev), packages + PackagesOf(ev))
  {
    hide Installed, Approved, FromPassing, SameBytes;
    match ev
    case Install(p, approvals, tier, channel, registry) =>
      InstallFromPassing(e, p, approvals, tier, channel, registry, packages);
    case InstallFromRegistry(p, approvals, tier, url) =>
      InstallFromPassing(e, p, approvals, tier, "registry", Some(url), packages);
      var e1 := Installed(e, p, approvals, tier, "registry", Some(url)).1;
      ApproveSameBytes(e1, p.version, approvals);
      SameBytesItself(e1);
      FromPassingStays(e1, Next(e, ev), packages + {p}, packages + {p});
    case Approve(version, approvals) =>
      ApproveSameBytes(e, version, approvals);
      FromPassingStays(e, Next(e, ev), packages, packages + PackagesOf(ev));
    case _ =>
      OtherSameBytes(e, ev);
      FromPassingStays(e, Next(e, ev), packages, packages + PackagesOf(ev));
  }

  lemma SameBytesItself(e: Entry)
    ensures SameBytes(e.versions, e.versions)
  {
  }

  /** In every run each version row, in use or not, has the bytes and permissions of a package that passed its tests. */
  lemma {:induction false} VersionsPassed(evs: seq<Event>)
    ensures FromPassing(After(evs), AllPackages(evs))
  {
    if evs != [] {
      hide Next, FromPassing;
      VersionsPassed(evs[..|evs| - 1]);
      NextFromPassing(After(evs[..|evs| - 1]), evs[|evs| - 1], AllPackages(evs[..|evs| - 1]));
    } else {
      assert FromPassing(NEVER_INSTALLED, {});
    }
  }

  // ---- Managing ----------------------------------------------------------------------------------

  /** Approving activates the version exactly when it waits and all it asks for is approved; else nothing changes. */
  lemma ApproveAnswersExactly(e: Entry, version: Version, approvals: set<string>, given: set<string>)
    requires Good(e, given)
    ensures var (o, e') := Approved(e, version, approvals);
            && (o == Activated <==>
                  HasStatus(e, version, Pending) && Permitted(e, e.versions[version].permissions, approvals))
            && (o == Rejected <==> !HasStatus(e, version, Pending))
            && (o == Rejected || o == Activated || o.WaitsForReview?)
            && (o.WaitsForReview? ==>
                  forall permission :: permission in o.missing
                    <==> permission in e.versions[version].permissions && permission !in approvals && !Had(e, permission))
            && (o != Activated ==> e' == e)
  {
    ActiveIs(e, given);
    ApproveCan(e, version, given);
    hide Good, Baseline, Sound, Recorded;
    if HasStatus(e, version, Pending) {
      var permissions := e.versions[version].permissions;
      assert Permitted(e, permissions, approvals) <==> permissions <= Baseline(e) + approvals;
    }
  }

  /** An approved version is the active one with all it asks for; a plugin's first version enables it. */
  lemma ApprovedExactly(e: Entry, version: Version, approvals: set<string>, given: set<string>)
    requires Good(e, given) && Approved(e, version, approvals).0 == Activated
    ensures var e' := Approved(e, version, approvals).1;
            && version in e.versions && e.plugin.Some?
            && Succeeds(e, e', version) && e'.files == e.files
            && e'.versions[version] == e.versions[version].(
                 approved := Some(e.versions[version].permissions), status := Active)
            && e'.plugin.value.channel == e.plugin.value.channel
            && e'.plugin.value.tier == e.versions[version].tier
            && ((forall v :: !HasStatus(e, v, Active)) ==> e'.plugin.value.state == Enabled)
  {
    DisabledInUse(e, given);
    NoActiveNoUse(e, given);
    hide Good, Baseline, Sound, Recorded;
    var row := e.versions[version];
    assert (Baseline(e) + approvals) * row.permissions == row.permissions;
    RecordedSucceeds(e, version, row.(approved := Some(row.permissions), status := Active),
                     e.plugin.value.channel, e.plugin.value.registry);
  }

  lemma ApproveCan(e: Entry, version: Version, given: set<string>)
    requires Good(e, given)
    ensures HasStatus(e, version, Pending) ==> Sound(e, version) && e.plugin.Some?
  {
  }

  lemma NoActiveNoUse(e: Entry, given: set<string>)
    requires Good(e, given)
    ensures e.plugin.Some? && e.plugin.value.state == Disabled ==> exists v :: HasStatus(e, v, Active)
  {
    if e.plugin.Some? && e.plugin.value.state == Disabled {
      var v := Member(With(e.versions, Active));
      assert HasStatus(e, v, Active);
    }
  }

  /** Rolling back works exactly while there is a previous version: it and the active one change places. */
  lemma RollbackExactly(e: Entry, given: set<string>)
    requires Good(e, given)
    ensures var (ok, e') := RolledBack(e);
            && (ok <==> exists v :: HasStatus(e, v, Previous))
            && (!ok ==> e' == e)
            && (ok ==>
                  && e'.files == e.files && e'.versions.Keys == e.versions.Keys
                  && (forall v :: v in e.versions ==>
                        e'.versions[v] == e.versions[v].(status := match e.versions[v].status
                                                                   case Active => Previous
                                                                   case Previous => Active
                                                                   case s => s))
                  && e'.plugin == Some(e.plugin.value.(state := Enabled, active := e'.plugin.value.active))
                  && e'.plugin.value.active.Some? && HasStatus(e, e'.plugin.value.active.value, Previous))
  {
    ActiveIs(e, given);
    RollbackCan(e, given);
    hide Good, Only, Sound;
    assert forall v :: v in e.versions ==>
        && (HasStatus(e, v, Active) <==> e.versions[v].status == Active)
        && (HasStatus(e, v, Previous) <==> e.versions[v].status == Previous);
  }

  lemma RollbackCan(e: Entry, given: set<string>)
    requires Good(e, given)
    ensures var previous := Only(e.versions, Previous);
            previous.Some? ==> Only(e.versions, Active).Some? && Sound(e, previous.value) && e.plugin.Some?
  {
  }

  /** Disabling and enabling change the state alone, and only of a plugin with a version in use. */
  lemma ToggleExactly(e: Entry, given: set<string>)
    requires Good(e, given)
    ensures var (off, disabled) := DisabledNow(e);
            var (on, enabled) := EnabledNow(e);
            && (off <==> exists v :: HasStatus(e, v, Active))
            && disabled == (if off then e.(plugin := Some(e.plugin.value.(state := Disabled))) else e)
            && (on <==> e.plugin.Some? && e.plugin.value.state == Disabled)
            && enabled == (if on then e.(plugin := Some(e.plugin.value.(state := Enabled))) else e)
  {
    ActiveIs(e, given);
    if Only(e.versions, Active).Some? {
      assert HasStatus(e, Only(e.versions, Active).value, Active);
    }
  }

  /** Uninstalling leaves the plugin uninstalled, with every version row kept but retired and no file at all. */
  lemma UninstallExactly(e: Entry)
    ensures var (ok, e') := UninstalledNow(e);
            && (ok <==> e.plugin.Some?)
            && (!ok ==> e' == e)
            && (ok ==>
                  && e'.plugin == Some(e.plugin.value.(state := Uninstalled, active := None))
                  && e'.files == map[] && e'.versions.Keys == e.versions.Keys
                  && forall v :: v in e.versions ==> e'.versions[v] == e.versions[v].(status := Retired))
  {
  }

  /**
   A version that already waits, with the same bytes, is approved by installing it from the registry again; a version
   that is activated or left waiting by such an installation makes the registry the plugin's channel.
   */
  lemma RegistryExactly(e: Entry, p: Package, approvals: set<string>, tier: string, location: string, given: set<string>)
    requires Good(e, given)
    ensures var (o, e') := FromRegistry(e, p, approvals, tier, location);
            var (o1, e1) := Installed(e, p, approvals, tier, "registry", Some(location));
            && (HasStatus(e, p.version, Pending) && e.versions[p.version].sha == p.sha ==>
                  (o, e') == Approved(e, p.version, approvals))
            && (!(HasStatus(e, p.version, Pending) && e.versions[p.version].sha == p.sha) ==>
                  && o == o1 && e'.versions == e1.versions && e'.files == e1.files
                  && (o == Activated || o.WaitsForReview? ==>
                        && e1.plugin.Some?
                        && e'.plugin == Some(e1.plugin.value.(channel := "registry", registry := Some(location))))
                  && (o != Activated && !o.WaitsForReview? ==> e' == e))
  {
    InstallAnswersExactly(e, p, approvals, tier, "registry", Some(location), given);
    var o1 := Installed(e, p, approvals, tier, "registry", Some(location)).0;
    if o1 == Activated {
      ActivatedExactly(e, p, approvals, tier, "registry", Some(location), given);
    } else if o1.WaitsForReview? {
      WaitingExactly(e, p, approvals, tier, "registry", Some(location), given);
    }
    hide Good, Installed, Approved, Permitted, Had, NewerActive, Succeeds;
  }
}
