/** Several builds of one adapter in a bundle: when a sync installs, and when a second one changes what the first left. */
module BundledAgain {
  import opened Common
  import opened PluginState
  import opened PluginRules
  import opened Bundled

  // ---- One plugin's share of a sync --------------------------------------------------------------

  /** The builds of one id, in the order of the bundle. */
  function Of(items: seq<Built>, id: string): (r: seq<Built>)
    ensures forall z :: z in r <==> z in items && z.id == id
  {
    if items == [] then []
    else
      var k := |items| - 1;
      assert items == items[..k] + [items[k]];
      if items[k].id == id then Of(items[..k], id) + [items[k]] else Of(items[..k], id)
  }

  ghost function Kept(e: Entry, n: Option<Note>, items: seq<Built>): (Entry, Option<Note>) {
    if items == [] then (e, n)
    else
      var (e1, n1) := Kept(e, n, items[..|items| - 1]);
      var (_, e2, n2) := Maintained(e1, n1, items[|items| - 1]);
      (e2, n2)
  }

  lemma KeptLast(e: Entry, n: Option<Note>, items: seq<Built>, item: Built)
    ensures var (e1, n1) := Kept(e, n, items);
            var (_, e2, n2) := Maintained(e1, n1, item);
            Kept(e, n, items + [item]) == (e2, n2)
  {
    hide Maintained;
    assert (items + [item])[..|items|] == items;
  }

  lemma MaintainOneAt(w: World, item: Built, id: string)
    ensures var (_, e, n) := Maintained(EntryIn(w, id), NoteIn(w, id), item);
            (EntryIn(MaintainOne(w, item), id), NoteIn(MaintainOne(w, item), id))
            == if item.id == id then (e, n) else (EntryIn(w, id), NoteIn(w, id))
  {
    hide Maintained;
    NoteStays(EntryIn(w, id), NoteIn(w, id), item);
  }

  lemma OfLast(items: seq<Built>, item: Built, id: string)
    ensures Of(items + [item], id) == if item.id == id then Of(items, id) + [item] else Of(items, id)
  {
    assert (items + [item])[..|items|] == items;
  }

  /** A maintaining sync does to each plugin what its own builds do to it. */
  lemma {:induction false} MaintainAllKept(w: World, items: seq<Built>, id: string)
    ensures (EntryIn(MaintainAll(w, items), id), NoteIn(MaintainAll(w, items), id))
            == Kept(EntryIn(w, id), NoteIn(w, id), Of(items, id))
  {
    if items != [] {
      hide Maintained, MaintainOne, Of, Kept, EntryIn, NoteIn;
      var k := |items| - 1;
      assert items == items[..k] + [items[k]];
      MaintainAllKept(w, items[..k], id);
      OfLast(items[..k], items[k], id);
      MaintainOneAt(MaintainAll(w, items[..k]), items[k], id);
      KeptLast(EntryIn(w, id), NoteIn(w, id), Of(items[..k], id), items[k]);
    }
  }

  /** Equal bytes are one build: they load alike, and no two builds share a hash. */
  ghost predicate SameBuilds(items: seq<Built>) {
    forall y, z :: y in items && z in items && y.id == z.id && y.sha == z.sha ==> y == z
  }

  /** The builds are what they say, their permissions are within `given`, and the entry keeps the rules. */
  ghost predicate Fit(e: Entry, items: seq<Built>, given: set<string>) {
    && Good(e, given) && AllConsistent(items)
    && forall z :: z in items && z.package.Some? ==> z.package.value.permissions <= given
  }

  lemma {:induction false} KeptFit(e: Entry, n: Option<Note>, items: seq<Built>, given: set<string>)
    requires Fit(e, items, given)
    ensures Good(Kept(e, n, items).0, given)
  {
    if items != [] {
      hide Good, Maintained;
      var k := |items| - 1;
      assert items[k] in items && forall z :: z in items[..k] ==> z in items;
      KeptFit(e, n, items[..k], given);
      StepGood(Kept(e, n, items[..k]).0, Kept(e, n, items[..k]).1, items[k], given);
    }
  }

  lemma StepGood(e: Entry, n: Option<Note>, z: Built, given: set<string>)
    requires Good(e, given) && Consistent(z) && (z.package.Some? ==> z.package.value.permissions <= given)
    ensures Good(Maintained(e, n, z).1, given)
  {
    hide Good, Maintained;
    if e.plugin.Some? {
      MaintainRespectsOwner(e, n, z, given);
    } else {
      MaintainAbsent(e, n, z, given);
    }
  }

  lemma FitPrefix(e: Entry, items: seq<Built>, given: set<string>)
    requires items != [] && Fit(e, items, given)
    ensures Fit(e, items[..|items| - 1], given)
    ensures Consistent(items[|items| - 1])
    ensures items[|items| - 1].package.Some? ==> items[|items| - 1].package.value.permissions <= given
  {
    assert items[|items| - 1] in items;
  }

  // ---- What one build changes --------------------------------------------------------------------

  predicate HasFailed(n: Option<Note>, sha: string) {
    n.Some? && n.value.status == Failed && n.value.sha == sha
  }

  predicate AnyFailed(n: Option<Note>) {
    n.Some? && n.value.status == Failed
  }

  /** The sync would install the build: it is not noted as failed, nothing refuses it, and there is a use for it. */
  ghost predicate Wanted(e: Entry, n: Option<Note>, z: Built) {
    && z.package.Some? && Refusal(e, z.package.value).None? && !HasFailed(n, z.sha)
    && if e.plugin.None? then AnyFailed(n)
       else && e.plugin.value.channel == CHANNEL && e.plugin.value.state == Enabled
            && e.plugin.value.active.Some? && Older(e.plugin.value.active.value, z.version)
  }

  lemma {:induction false} OlderOneWay(a: Version, b: Version)
    requires Older(a, b)
    ensures !Older(b, a) && a != b
  {
    NotOlder(a);
    if a != [] && a[0] == b[0] { OlderOneWay(a[1..], b[1..]); }
  }

  lemma {:induction false} OlderYet(a: Version, b: Version, c: Version)
    requires Older(a, b) && !Older(c, b)
    ensures Older(a, c)
  {
    if a != [] && c != [] && a[0] == b[0] == c[0] { OlderYet(a[1..], b[1..], c[1..]); }
  }

  /** Exactly a wanted build changes a plugin's tables. */
  lemma ChangesIff(e: Entry, n: Option<Note>, z: Built, given: set<string>)
    requires Good(e, given) && Consistent(z)
    ensures Maintained(e, n, z).1 != e <==> Wanted(e, n, z)
  {
    hide Good, Older, PluginState.Installed, Refusal;
    GoodNames(e, given);
    if z.package.Some? {
      var p := z.package.value;
      RefusedUnchanged(e, p, p.permissions);
      RefusedUnchanged(e, p, {});
      if Refusal(e, p).None? {
        InstalledOnce(e, p, p.permissions, given);
        InstalledOnce(e, p, {}, given);
      }
      if e.plugin.Some? && e.plugin.value.active.Some? {
        Trichotomy(z.version, e.plugin.value.active.value);
        NotOlder(z.version);
        if Older(e.plugin.value.active.value, z.version) { OlderOneWay(e.plugin.value.active.value, z.version); }
      }
    }
  }

  /** A note that changes is the build's own; and a new failure left the tables alone and would be refused again. */
  lemma NoteStep(e: Entry, n: Option<Note>, z: Built)
    ensures var (_, e', n') := Maintained(e, n, z);
            && (n' == n || (n'.Some? && n'.value.sha == z.sha))
            && (e' != e ==> !AnyFailed(n'))
            && (AnyFailed(n') && n' != n ==>
                  e' == e && (z.package.None? || Refusal(e, z.package.value).Some?))
            && (e.plugin.None? && !AnyFailed(n) ==> e' == e && n' == n)
  {
    hide PluginState.Installed, Refusal, Older;
    if z.package.Some? {
      RefusedUnchanged(e, z.package.value, z.package.value.permissions);
      RefusedUnchanged(e, z.package.value, {});
    }
  }

  lemma AbsentNote(e: Entry, n: Option<Note>, z: Built, given: set<string>)
    requires Good(e, given) && e.plugin.None? && AnyFailed(n)
    ensures var (_, e', n') := Maintained(e, n, z);
            if z.sha == n.value.sha then e' == e && n' == n
            else if z.package.Some? && z.package.value.passes then e'.plugin.Some?
            else e' == e && AnyFailed(n') && n'.value.sha == z.sha
  {
    assert Only(e.versions, Active).None?;
    if z.package.Some? {
      RefusedUnchanged(e, z.package.value, z.package.value.permissions);
      if Refusal(e, z.package.value).None? { InstalledOnce(e, z.package.value, z.package.value.permissions, given); }
    }
  }

  // ---- A change is never undone ------------------------------------------------------------------

  predicate Waiting(e: Entry, v: Version) {
    v in e.versions && e.versions[v].status == Pending
  }

  /** The plugin is there now, or another version waits, or a newer one is in use. */
  ghost predicate Past(e: Entry, e': Entry) {
    || (e.plugin.None? && e'.plugin.Some?)
    || (exists v :: Waiting(e', v) && !Waiting(e, v))
    || (e.plugin.Some? && NewerInUse(e, e'))
  }

  ghost predicate NewerInUse(e: Entry, e': Entry) {
    var before, after := Only(e.versions, Active), Only(e'.versions, Active);
    before.Some? && after.Some? && Older(before.value, after.value)
  }

  lemma PastDiffers(e: Entry, e': Entry)
    requires Past(e, e')
    ensures e' != e
  {
    if Only(e.versions, Active).Some? { NotOlder(Only(e.versions, Active).value); }
  }

  lemma InstalledPast(e: Entry, p: Package, approvals: set<string>, given: set<string>)
    requires Good(e, given) && Refusal(e, p).None?
    requires e.plugin.Some? ==> Only(e.versions, Active).Some? && Older(Only(e.versions, Active).value, p.version)
    ensures Past(e, PluginState.Installed(e, p, approvals, TRUST, CHANNEL, None).1)
  {
    hide PermissionsAgree, StoreAgrees, Only, Recorded, Older;
    InstalledOnce(e, p, approvals, given);
    var moved, row := Stored(e, p), RowFor(e, p, approvals, TRUST);
    var after := Recorded(moved, p.version, row, CHANNEL, None);
    RowsOnly(e, moved);
    if row.status == Active {
      RecordedActive(moved, p.version, row, CHANNEL, None);
      TheOnly(after.versions, Active, p.version);
    } else {
      RecordedRow(moved, p.version, row);
      NotYetWaiting(e, p);
      assert Waiting(after, p.version);
    }
  }

  lemma RecordedRow(e: Entry, version: Version, row: VersionRow)
    ensures var e' := Recorded(e, version, row, CHANNEL, None);
            version in e'.versions && e'.versions[version] == row
  {
  }

  lemma NotYetWaiting(e: Entry, p: Package)
    requires Refusal(e, p).None?
    ensures !Waiting(e, p.version)
  {
  }

  lemma StepPast(e: Entry, n: Option<Note>, z: Built, given: set<string>)
    requires Good(e, given) && Consistent(z)
    ensures Maintained(e, n, z).1 == e || Past(e, Maintained(e, n, z).1)
  {
    hide Good, Past, PluginState.Installed, Older, Refusal;
    ChangesIff(e, n, z, given);
    GoodNames(e, given);
    if Wanted(e, n, z) {
      InstalledPast(e, z.package.value, if e.plugin.None? then z.package.value.permissions else {}, given);
      RefusedUnchanged(e, z.package.value, if e.plugin.None? then z.package.value.permissions else {});
      if e.plugin.Some? { OlderOneWay(e.plugin.value.active.value, z.version); }
    }
  }

  lemma WaitingStays(e: Entry, p: Package, approvals: set<string>, v: Version)
    requires Waiting(e, v)
    ensures Waiting(PluginState.Installed(e, p, approvals, TRUST, CHANNEL, None).1, v)
  {
  }

  lemma PastStays(e: Entry, f: Entry, n: Option<Note>, z: Built, given: set<string>)
    requires Past(e, f) && Good(f, given) && Consistent(z)
    ensures Past(e, Maintained(f, n, z).1)
  {
    hide Good, PluginState.Installed, Older, Refusal, Baseline;
    var g := Maintained(f, n, z).1;
    if g != f {
      StepPast(f, n, z, given);
      if v :| Waiting(f, v) && !Waiting(e, v) {
        WaitingStays(f, z.package.value, z.package.value.permissions, v);
        WaitingStays(f, z.package.value, {}, v);
        assert Waiting(g, v);
      } else {
        if e.plugin.Some? { NamesActive(f, given); }
        PluginStays(f, n, z, given);
        if e.plugin.Some? {
          MaintainRespectsOwner(f, n, z, given);
          OlderYet(Only(e.versions, Active).value, Only(f.versions, Active).value, Only(g.versions, Active).value);
        }
      }
    }
  }

  lemma NamesActive(e: Entry, given: set<string>)
    requires Good(e, given) && Only(e.versions, Active).Some?
    ensures e.plugin.Some?
  {
  }

  lemma PluginStays(e: Entry, n: Option<Note>, z: Built, given: set<string>)
    requires Good(e, given) && Consistent(z) && e.plugin.Some?
    ensures Maintained(e, n, z).1.plugin.Some?
  {
    hide Good, Maintained;
    MaintainRespectsOwner(e, n, z, given);
  }

  lemma {:induction false} KeptPast(e: Entry, n: Option<Note>, items: seq<Built>, given: set<string>)
    requires Fit(e, items, given)
    ensures Kept(e, n, items).0 == e || Past(e, Kept(e, n, items).0)
  {
    if items != [] {
      hide Good, Maintained, Past, Fit, Consistent;
      var k := |items| - 1;
      FitPrefix(e, items, given);
      KeptPast(e, n, items[..k], given);
      KeptFit(e, n, items[..k], given);
      var (e1, n1) := Kept(e, n, items[..k]);
      if e1 == e { StepPast(e1, n1, items[k], given); } else { PastStays(e, e1, n1, items[k], given); }
    }
  }

  /** A sync that leaves a plugin as it was left it so after each of its builds. */
  lemma QuietBefore(e: Entry, n: Option<Note>, items: seq<Built>, given: set<string>)
    requires Fit(e, items, given) && items != [] && Kept(e, n, items).0 == e
    ensures Kept(e, n, items[..|items| - 1]).0 == e
  {
    hide Good, Maintained, Past, Fit, Consistent;
    var k := |items| - 1;
    FitPrefix(e, items, given);
    KeptPast(e, n, items[..k], given);
    KeptFit(e, n, items[..k], given);
    var (e1, n1) := Kept(e, n, items[..k]);
    if e1 != e {
      PastStays(e, e1, n1, items[k], given);
      PastDiffers(e, Kept(e, n, items).0);
    }
  }

  // ---- A second sync -----------------------------------------------------------------------------

  /** While the tables stay, the note is the first one or that of a build seen; an absent plugin's failure stays one. */
  lemma {:induction false} QuietNote(e: Entry, n: Option<Note>, items: seq<Built>, given: set<string>)
    requires Fit(e, items, given) && Kept(e, n, items).0 == e
    ensures var m := Kept(e, n, items).1;
            && (m == n || (m.Some? && exists y :: y in items && y.sha == m.value.sha))
            && (e.plugin.None? ==> (AnyFailed(m) <==> AnyFailed(n)))
  {
    if items != [] {
      hide Good, Maintained, Fit, Consistent;
      var k := |items| - 1;
      FitPrefix(e, items, given);
      QuietBefore(e, n, items, given);
      QuietNote(e, n, items[..k], given);
      var m := Kept(e, n, items[..k]).1;
      NoteStep(e, m, items[k]);
      GoodOf(e, items, given);
      if e.plugin.None? && AnyFailed(m) { AbsentNote(e, m, items[k], given); }
      assert items[k] in items && forall y :: y in items[..k] ==> y in items;
    }
  }

  lemma GoodOf(e: Entry, items: seq<Built>, given: set<string>)
    requires Fit(e, items, given)
    ensures Good(e, given) && AllConsistent(items)
  {
  }

  /** A build that is wanted when the sync begins changes the tables, whatever comes before it. */
  lemma {:induction false} WantedChanges(e: Entry, n: Option<Note>, items: seq<Built>, z: Built, given: set<string>)
    requires Fit(e, items, given) && SameBuilds(items) && (forall y :: y in items ==> y.id == z.id)
    requires z in items && Wanted(e, n, z)
    ensures Kept(e, n, items).0 != e
  {
    hide Good, Maintained, Fit, Consistent, Wanted;
    var k := |items| - 1;
    FitPrefix(e, items, given);
    GoodOf(e, items, given);
    if Kept(e, n, items).0 == e {
      QuietBefore(e, n, items, given);
      assert forall y :: y in items[..k] ==> y in items;
      if z in items[..k] {
        WantedChanges(e, n, items[..k], z, given);
        assert false;
      } else {
        assert items[k] == z;
        QuietNote(e, n, items[..k], given);
        StillWanted(e, n, Kept(e, n, items[..k]).1, items[..k], z);
        ChangesIff(e, Kept(e, n, items[..k]).1, z, given);
      }
    }
  }

  lemma StillWanted(e: Entry, n: Option<Note>, m: Option<Note>, items: seq<Built>, z: Built)
    requires Wanted(e, n, z) && (forall y :: y in items ==> y.sha != z.sha)
    requires m == n || (m.Some? && exists y :: y in items && y.sha == m.value.sha)
    requires e.plugin.None? ==> (AnyFailed(m) <==> AnyFailed(n))
    ensures Wanted(e, m, z)
  {
  }

  /** The first build to change the tables was wanted when its turn came. */
  lemma {:induction false} FirstChange(e: Entry, n: Option<Note>, items: seq<Built>, given: set<string>)
    returns (i: nat)
    requires Fit(e, items, given) && Kept(e, n, items).0 != e
    ensures i < |items| && Kept(e, n, items[..i]).0 == e && Wanted(e, Kept(e, n, items[..i]).1, items[i])
  {
    hide Good, Maintained, Fit, Consistent, Wanted;
    var k := |items| - 1;
    FitPrefix(e, items, given);
    GoodOf(e, items, given);
    if Kept(e, n, items[..k]).0 != e {
      i := FirstChange(e, n, items[..k], given);
      assert items[..k][..i] == items[..i];
    } else {
      i := k;
      ChangesIff(e, Kept(e, n, items[..k]).1, items[k], given);
    }
  }

  /** If a sync changed anything and leaves a failure noted, that build left the tables alone and is refused by them. */
  lemma {:induction false} LastFailure(e: Entry, n: Option<Note>, items: seq<Built>)
    ensures var (e1, n1) := Kept(e, n, items);
            (e1, n1) != (e, n) && AnyFailed(n1) ==>
              exists y :: y in items && y.sha == n1.value.sha
                          && (y.package.None? || Refusal(e1, y.package.value).Some?)
  {
    if items != [] {
      hide Maintained, Refusal;
      var k := |items| - 1;
      LastFailure(e, n, items[..k]);
      NoteStep(Kept(e, n, items[..k]).0, Kept(e, n, items[..k]).1, items[k]);
      assert items[k] in items && forall y :: y in items[..k] ==> y in items;
    }
  }

  /** For one plugin: seeing its builds again changes nothing exactly when none is wanted after the first time. */
  lemma KeptTwiceIff(e: Entry, n: Option<Note>, items: seq<Built>, id: string, given: set<string>)
    requires Fit(e, items, given) && SameBuilds(items) && forall y :: y in items ==> y.id == id
    ensures var (e1, n1) := Kept(e, n, items);
            Kept(e1, n1, items).0 == e1 <==> forall z :: z in items ==> !Wanted(e1, n1, z)
  {
    hide Good, Maintained, Consistent, Wanted, Kept;
    var (e1, n1) := Kept(e, n, items);
    KeptFit(e, n, items, given);
    assert Fit(e1, items, given);
    if z :| z in items && Wanted(e1, n1, z) {
      WantedChanges(e1, n1, items, z, given);
    } else if Kept(e1, n1, items).0 != e1 {
      var i := FirstChange(e1, n1, items, given);
      LastFailure(e, n, items);
      FitTo(e1, items, given, i);
      QuietNote(e1, n1, items[..i], given);
      NotWantedAnew(e1, n1, Kept(e1, n1, items[..i]).1, items, items[i]);
      assert false;
    }
  }

  lemma FitTo(e: Entry, items: seq<Built>, given: set<string>, i: nat)
    requires Fit(e, items, given) && i <= |items|
    ensures Fit(e, items[..i], given)
  {
  }

  /** A build wanted only once the note was replaced is the one the note named. */
  lemma NotWantedAnew(e: Entry, n: Option<Note>, m: Option<Note>, items: seq<Built>, z: Built)
    requires SameBuilds(items) && z in items && (forall y :: y in items ==> y.id == z.id)
    requires Wanted(e, m, z) && !Wanted(e, n, z) && (e.plugin.None? ==> (AnyFailed(m) <==> AnyFailed(n)))
    ensures HasFailed(n, z.sha)
    ensures !exists y :: y in items && y.sha == n.value.sha && (y.package.None? || Refusal(e, y.package.value).Some?)
  {
  }

  function Asked(items: seq<Built>): (r: set<string>)
    ensures forall z :: z in items && z.package.Some? ==> z.package.value.permissions <= r
  {
    if items == [] then {}
    else
      var k := |items| - 1;
      assert items == items[..k] + [items[k]];
      Asked(items[..k]) + if items[k].package.Some? then items[k].package.value.permissions else {}
  }

  lemma EntryFits(w: World, items: seq<Built>, id: string, given: set<string>)
    requires GoodWorld(w, given) && AllConsistent(items)
    ensures Fit(EntryIn(w, id), Of(items, id), given + Asked(items))
  {
    hide Good;
    MoreGoodWorld(w, given, given + Asked(items));
    EntryGood(w, id, given + Asked(items));
  }

  /**
   A second sync with the same bundle leaves a plugin as the first left it, if and only if the first left none of its
   builds wanted: none that is not noted as failed, is newer than the version in use (or may be installed anew), and
   is refused by nothing.
   */
  lemma SyncTwiceIff(w: World, items: seq<Built>, given: set<string>, id: string)
    requires GoodWorld(w, given) && AllConsistent(items) && SameBuilds(items) && w.marker
    ensures var once := Synced(w, items);
            EntryIn(Synced(once, items), id) == EntryIn(once, id)
            <==> forall z :: z in items && z.id == id ==> !Wanted(EntryIn(once, id), NoteIn(once, id), z)
  {
    hide Wanted, Good, Fit, MaintainAll;
    if items != [] {
      var once := MaintainAll(w, items);
      MaintainAllRespects(w, items, given);
      MaintainAllKept(w, items, id);
      MaintainAllKept(once, items, id);
      EntryFits(w, items, id, given);
      KeptTwiceIff(EntryIn(w, id), NoteIn(w, id), Of(items, id), id, given + Asked(items));
    }
  }

  // ---- An adapter the library does not have ------------------------------------------------------

  predicate Installable(z: Built) {
    z.package.Some? && z.package.value.passes
  }

  /** A build that installs, and no later than it one that is not the build noted as failed. */
  predicate SomeInstallable(items: seq<Built>, sha: string) {
    exists i, j :: 0 <= j <= i < |items| && Installable(items[i]) && items[j].sha != sha
  }

  lemma {:induction false} AbsentIff(e: Entry, n: Option<Note>, items: seq<Built>, id: string, given: set<string>)
    requires Fit(e, items, given) && SameBuilds(items) && (forall y :: y in items ==> y.id == id) && e.plugin.None?
    ensures var (e1, n1) := Kept(e, n, items);
            && (e1.plugin.Some? <==> AnyFailed(n) && SomeInstallable(items, n.value.sha))
            && (e1.plugin.None? ==> e1 == e && (AnyFailed(n1) <==> AnyFailed(n)))
            && (e1.plugin.None? && AnyFailed(n) ==>
                  n1.value.sha == if items == [] then n.value.sha else items[|items| - 1].sha)
  {
    if items != [] {
      hide Good, Maintained, Fit, Consistent, SomeInstallable;
      var k := |items| - 1;
      var z := items[k];
      FitPrefix(e, items, given);
      GoodOf(e, items, given);
      assert z in items && forall y :: y in items[..k] ==> y in items;
      AbsentIff(e, n, items[..k], id, given);
      KeptFit(e, n, items[..k], given);
      var (e1, n1) := Kept(e, n, items[..k]);
      if AnyFailed(n) { InstallableLast(items, n.value.sha); }
      if e1.plugin.Some? {
        PluginStays(e1, n1, z, given);
      } else {
        NoteStep(e1, n1, z);
        if AnyFailed(n) { AbsentNote(e1, n1, z, given); }
      }
    } else {
      if AnyFailed(n) { assert !SomeInstallable(items, n.value.sha); }
    }
  }

  lemma InstallableLast(items: seq<Built>, sha: string)
    requires items != [] && SameBuilds(items) && forall y, z :: y in items && z in items ==> y.id == z.id
    ensures var k := |items| - 1;
            var noted := if k == 0 then sha else items[k - 1].sha;
            SomeInstallable(items, sha)
            <==> SomeInstallable(items[..k], sha) || (Installable(items[k]) && items[k].sha != noted)
  {
    var k := |items| - 1;
    if i, j :| 0 <= j <= i < |items| && Installable(items[i]) && items[j].sha != sha {
      InstallableFrom(items, sha, i, j);
    }
    if i, j :| 0 <= j <= i < k && Installable(items[..k][i]) && items[..k][j].sha != sha {
      assert Installable(items[i]) && items[j].sha != sha;
    } else if Installable(items[k]) {
      if items[k].sha != sha {
        assert Installable(items[k]) && items[k].sha != sha;
      } else if k > 0 && items[k - 1].sha != sha {
        assert Installable(items[k]) && items[k - 1].sha != sha;
      }
    }
  }

  lemma InstallableFrom(items: seq<Built>, sha: string, i: nat, j: nat)
    requires SameBuilds(items) && forall y, z :: y in items && z in items ==> y.id == z.id
    requires j <= i < |items| && Installable(items[i]) && items[j].sha != sha
    ensures var k := |items| - 1;
            var noted := if k == 0 then sha else items[k - 1].sha;
            SomeInstallable(items[..k], sha) || (Installable(items[k]) && items[k].sha != noted)
  {
    var k := |items| - 1;
    var before := items[..k];
    if i < k {
      assert before[i] == items[i] && before[j] == items[j];
    } else if k > 0 && items[k].sha == items[k - 1].sha {
      assert items[k - 1] in items && items[k] in items;
      var j' := if j == k then k - 1 else j;
      assert before[k - 1] == items[k] && before[j'].sha != sha;
    }
  }

  /**
   After the bootstrap a sync installs an adapter the library does not have, if and only if a build of it is noted as
   failed and the bundle has one that installs, together with or after one that is not that build.
   */
  lemma AbsentStaysAbsentIff(w: World, items: seq<Built>, given: set<string>, id: string)
    requires GoodWorld(w, given) && AllConsistent(items) && SameBuilds(items) && w.marker
    requires EntryIn(w, id).plugin.None?
    ensures var n := NoteIn(w, id);
            && (EntryIn(Synced(w, items), id).plugin.Some?
                <==> AnyFailed(n) && SomeInstallable(Of(items, id), n.value.sha))
            && (EntryIn(Synced(w, items), id).plugin.None? ==> EntryIn(Synced(w, items), id) == EntryIn(w, id))
  {
    hide Good, Fit, MaintainAll;
    MaintainAllKept(w, items, id);
    EntryFits(w, items, id, given);
    AbsentIff(EntryIn(w, id), NoteIn(w, id), Of(items, id), id, given + Asked(items));
    NoItems(w);
  }

  lemma NoItems(w: World)
    ensures MaintainAll(w, []) == w
  {
  }
}
