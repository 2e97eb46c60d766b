/**
 What the plugin tables and the plugin store hold for one plugin, and what installing, approving, rolling
 back, disabling and uninstalling do to them.

 A version is the list of its numbers; a stored package is known by its hash.
 */
module PluginState {
  import opened Common

  type Version = seq<nat>

  /** `_vkey(a) < _vkey(b)`. */
  predicate Older(a: Version, b: Version) {
    if b == [] then false
    else if a == [] then true
    else a[0] < b[0] || (a[0] == b[0] && Older(a[1..], b[1..]))
  }

  datatype Status = Active | Previous | Retired | Pending

  datatype VersionRow = VersionRow(sha: string, permissions: set<string>, approved: Option<set<string>>, status: Status,
                                   tier: string)

  datatype PluginStatus = Enabled | Disabled | PendingReview | Uninstalled

  datatype Plugin = Plugin(state: PluginStatus, active: Option<Version>, tier: string, channel: string,
                           registry: Option<string>)

  type Versions = map<Version, VersionRow>

  /** The plugin's row, its version rows, and the store file of each version. */
  datatype Entry = Entry(plugin: Option<Plugin>, versions: Versions, files: map<Version, string>)

  const NEVER_INSTALLED := Entry(None, map[], map[])

  /** A package that loads; `passes` says whether its packaged tests pass. */
  datatype Package = Package(version: Version, sha: string, permissions: set<string>, passes: bool)

  datatype Outcome =
    | Activated
    | WaitsForReview(missing: set<string>)
    | AlreadyInstalled
    | Rejected

  // ---- Rows --------------------------------------------------------------------------------------

  function With(versions: Versions, s: Status): set<Version> {
    set v | v in versions && versions[v].status == s
  }

  ghost function TheOne(s: set<Version>): Version
    requires s != {}
  {
    var v :| v in s; v
  }

  /** The version of the plugin's row in this status; the invariant allows at most one. */
  ghost function Only(versions: Versions, s: Status): (r: Option<Version>)
    ensures r.None? <==> With(versions, s) == {}
    ensures r.Some? ==> r.value in versions && versions[r.value].status == s
  {
    if With(versions, s) == {} then None else Some(TheOne(With(versions, s)))
  }

  function ApprovedOf(row: VersionRow): set<string> {
    if row.approved.Some? then row.approved.value else {}
  }

  /** What the owner approved for the version in use. */
  ghost function Baseline(e: Entry): set<string> {
    var a := Only(e.versions, Active);
    if a.None? then {} else ApprovedOf(e.versions[a.value])
  }

  function InUse(plugin: Option<Plugin>): bool {
    plugin.Some? && (plugin.value.state == Enabled || plugin.value.state == Disabled) && plugin.value.active.Some?
  }

  // ---- Installing --------------------------------------------------------------------------------

  /** The older rows make room for a version that becomes the active one. */
  function Shifted(versions: Versions): Versions {
    map v | v in versions ::
      if versions[v].status == Previous then versions[v].(status := Retired)
      else if versions[v].status == Active then versions[v].(status := Previous)
      else versions[v]
  }

  /** `_record`. */
  function Recorded(e: Entry, version: Version, row: VersionRow, channel: string, registry: Option<string>): Entry {
    var inUse := InUse(e.plugin);
    var activates := row.status == Active;
    var (state, active) :=
      if activates then (if inUse && e.plugin.value.state == Disabled then Disabled else Enabled, Some(version))
      else if inUse then (e.plugin.value.state, e.plugin.value.active)
      else (PendingReview, None);
    var (tier, chan) :=
      if activates || !inUse then (row.tier, channel) else (e.plugin.value.tier, e.plugin.value.channel);
    var reg := if registry.Some? || e.plugin.None? then registry else e.plugin.value.registry;
    var versions := if activates then Shifted(e.versions) else e.versions;
    e.(plugin := Some(Plugin(state, active, tier, chan, reg)), versions := versions[version := row])
  }

  /** Everything `install_file` checks before it touches the store. */
  ghost function Refusal(e: Entry, p: Package): Option<Outcome> {
    var active := Only(e.versions, Active);
    if p.version in e.versions && e.versions[p.version].status != Retired then
      Some(if e.versions[p.version].sha == p.sha then AlreadyInstalled else Rejected)
    else if active.Some? && Older(p.version, active.value) then Some(Rejected)
    else if !p.passes then Some(Rejected)
    else None
  }

  /** The package is moved into the store. */
  function Stored(e: Entry, p: Package): Entry {
    e.(files := e.files[p.version := p.sha])
  }

  ghost function RowFor(e: Entry, p: Package, approvals: set<string>, tier: string): VersionRow {
    var approved := Baseline(e) + approvals;
    if p.permissions <= approved
    then VersionRow(p.sha, p.permissions, Some(approved * p.permissions), Active, tier)
    else VersionRow(p.sha, p.permissions, None, Pending, tier)
  }

  ghost function Installed(
    e: Entry, p: Package, approvals: set<string>, tier: string, channel: string, registry: Option<string>): (Outcome, Entry)
  {
    var refusal := Refusal(e, p);
    if refusal.Some? then (refusal.value, e)
    else
      var row := RowFor(e, p, approvals, tier);
      (if row.status == Active then Activated else WaitsForReview(p.permissions - (Baseline(e) + approvals)),
       Recorded(Stored(e, p), p.version, row, channel, registry))
  }

  // ---- Managing ----------------------------------------------------------------------------------

  predicate Sound(e: Entry, v: Version) {
    v in e.versions && v in e.files && e.files[v] == e.versions[v].sha
  }

  ghost function Approved(e: Entry, version: Version, approvals: set<string>): (Outcome, Entry) {
    if version !in e.versions || e.versions[version].status != Pending then (Rejected, e)
    else
      var row := e.versions[version];
      var approved := Baseline(e) + approvals;
      if !(row.permissions <= approved) then (WaitsForReview(row.permissions - approved), e)
      else if !Sound(e, version) || e.plugin.None? then (Rejected, e)
      else
        (Activated, Recorded(e, version, row.(approved := Some(approved * row.permissions), status := Active),
                             e.plugin.value.channel, e.plugin.value.registry))
  }

  /** The two versions change places, and the plugin is enabled. */
  ghost function RolledBack(e: Entry): (bool, Entry) {
    var previous, active := Only(e.versions, Previous), Only(e.versions, Active);
    if previous.None? || active.None? || !Sound(e, previous.value) || e.plugin.None? then (false, e)
    else
      var versions := e.versions[active.value := e.versions[active.value].(status := Previous)];
      (true, e.(versions := versions[previous.value := versions[previous.value].(status := Active)],
                plugin := Some(e.plugin.value.(state := Enabled, active := previous))))
  }

  function DisabledNow(e: Entry): (bool, Entry) {
    if e.plugin.None? || e.plugin.value.active.None? then (false, e)
    else (true, e.(plugin := Some(e.plugin.value.(state := Disabled))))
  }

  function EnabledNow(e: Entry): (bool, Entry) {
    if e.plugin.None? || e.plugin.value.state != Disabled || e.plugin.value.active.None? then (false, e)
    else (true, e.(plugin := Some(e.plugin.value.(state := Enabled))))
  }

  function AllRetired(versions: Versions): Versions {
    map v | v in versions :: versions[v].(status := Retired)
  }

  /** The rows of an uninstalled plugin are kept; its files go in a second step. */
  function Deregistered(e: Entry): Entry {
    if e.plugin.None? then e
    else e.(plugin := Some(e.plugin.value.(state := Uninstalled, active := None)), versions := AllRetired(e.versions))
  }

  function UninstalledNow(e: Entry): (bool, Entry) {
    if e.plugin.None? then (false, e) else (true, Deregistered(e).(files := map[]))
  }

  /** Installing from a registry makes the registry the plugin's channel even while the version waits. */
  ghost function FromRegistry(e: Entry, p: Package, approvals: set<string>, tier: string, location: string): (Outcome, Entry) {
    var (o, e') := Installed(e, p, approvals, tier, "registry", Some(location));
    if o == AlreadyInstalled && e'.versions[p.version].status == Pending then Approved(e', p.version, approvals)
    else if o.WaitsForReview? && e'.plugin.Some? then
      (o, e'.(plugin := Some(e'.plugin.value.(channel := "registry", registry := Some(location)))))
    else (o, e')
  }

  // ---- The store ---------------------------------------------------------------------------------

  /** Files of versions that no row in use refers to are removed. */
  function Reconciled(e: Entry): Entry {
    e.(files := map v | v in e.files && v in e.versions && e.versions[v].status != Retired :: e.files[v])
  }
}
