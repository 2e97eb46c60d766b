/**
 Two tracks of one listing become one: what happens to the reading units and to everything that hangs on them.

 The variant of an asset is kept as it was made: a text, or that text marked with the id of the asset that
 was moved beside another of the same format and variant.
 */
module MergeState {
  import opened Common

  datatype Variant = Original(text: string) | Merged(base: Variant, id: nat)

  datatype Asset = Asset(unit: nat, format: string, variant: Variant, file: string)

  /** `state` is 0 for unread, 1 for partial and 2 for read. */
  datatype Reading = Reading(state: nat, fraction: Option<real>, locator: string, revision: nat)

  datatype Mark = Mark(unit: nat, place: string)

  datatype Unit = Unit(track: nat, key: string)

  /** `rows` are the rows of the tables that refer to a unit and have no key of their own with it. */
  datatype Shelf = Shelf(
    units: map<nat, Unit>, assets: map<nat, Asset>, states: map<nat, Reading>, marks: map<nat, Mark>,
    rows: map<(string, nat), nat>, overrides: map<(nat, string), string>)

  // ---- One unit ----------------------------------------------------------------------------------

  predicate Clash(assets: map<nat, Asset>, unit: nat, format: string, variant: Variant) {
    exists a :: a in assets && assets[a].unit == unit && assets[a].format == format && assets[a].variant == variant
  }

  function MovedAssets(assets: map<nat, Asset>, from: nat, to: nat): map<nat, Asset> {
    map a | a in assets ::
      if assets[a].unit != from then assets[a]
      else assets[a].(unit := to,
                      variant := if Clash(assets, to, assets[a].format, assets[a].variant)
                                 then Merged(assets[a].variant, a) else assets[a].variant)
  }

  function Fraction(r: Reading): real {
    if r.fraction.Some? then r.fraction.value else 0.0
  }

  predicate MoreAdvanced(a: Reading, b: Reading) {
    a.state > b.state || (a.state == b.state && Fraction(a) > Fraction(b))
  }

  function Best(theirs: Reading, ours: Reading): Reading {
    if MoreAdvanced(theirs, ours)
    then Reading(theirs.state, theirs.fraction, theirs.locator, ours.revision + 1)
    else ours
  }

  function MovedStates(states: map<nat, Reading>, from: nat, to: nat): map<nat, Reading> {
    if from !in states then states
    else (states - {from})[to := if to in states then Best(states[from], states[to]) else states[from]]
  }

  predicate Marked(marks: map<nat, Mark>, unit: nat, place: string) {
    exists m :: m in marks && marks[m].unit == unit && marks[m].place == place
  }

  /** Where the survivor has a mark at the same place, that one stays. */
  function MovedMarks(marks: map<nat, Mark>, from: nat, to: nat): map<nat, Mark> {
    map m | m in marks && (marks[m].unit == from ==> !Marked(marks, to, marks[m].place)) ::
      if marks[m].unit == from then marks[m].(unit := to) else marks[m]
  }

  function MovedRows(rows: map<(string, nat), nat>, from: nat, to: nat): map<(string, nat), nat> {
    map r | r in rows :: if rows[r] == from then to else rows[r]
  }

  /** Where the survivor has a correction of the same field, that one stays. */
  function MovedOverrides(overrides: map<(nat, string), string>, from: nat, to: nat): map<(nat, string), string> {
    map k | k in (set o | o in overrides :: (if o.0 == from then to else o.0, o.1)) ::
      if k in overrides then overrides[k] else overrides[(from, k.1)]
  }

  function MergedUnit(s: Shelf, from: nat, to: nat): Shelf {
    Shelf(s.units - {from}, MovedAssets(s.assets, from, to), MovedStates(s.states, from, to),
          MovedMarks(s.marks, from, to), MovedRows(s.rows, from, to), MovedOverrides(s.overrides, from, to))
  }

  // ---- All units of a track ----------------------------------------------------------------------

  function UnitsOf(s: Shelf, track: nat): set<nat> {
    set u | u in s.units && s.units[u].track == track
  }

  /** The units of the track with this key; the table allows one. */
  function Twins(s: Shelf, track: nat, key: string): set<nat> {
    set u | u in s.units && s.units[u].track == track && s.units[u].key == key
  }

  ghost function TwinOf(s: Shelf, track: nat, u: nat): (r: Option<nat>)
    requires u in s.units
    ensures r.None? <==> Twins(s, track, s.units[u].key) == {}
    ensures r.Some? ==> r.value in Twins(s, track, s.units[u].key)
  {
    var found := Twins(s, track, s.units[u].key);
    if found == {} then None
    else
      var t :| t in found;
      Some(t)
  }

  /** A unit with a twin is merged into it; another is moved over. */
  ghost function MergedOne(s: Shelf, u: nat, track: nat): Shelf {
    if u !in s.units then s else
    var twin := TwinOf(s, track, u);
    if twin.Some? then MergedUnit(s, u, twin.value) else s.(units := s.units[u := s.units[u].(track := track)])
  }

  // ---- The rules of the tables -------------------------------------------------------------------

  ghost predicate OneOfKey(s: Shelf) {
    forall u, v :: u in s.units && v in s.units && s.units[u] == s.units[v] ==> u == v
  }

  predicate SamePlace(a: Asset, b: Asset) {
    a.unit == b.unit && a.format == b.format && a.variant == b.variant
  }

  /** No two assets of a unit share format and variant. */
  ghost predicate NoClash(assets: map<nat, Asset>) {
    forall a, b :: a in assets && b in assets && SamePlace(assets[a], assets[b]) ==> a == b
  }

  /** An asset is only ever marked with its own id. */
  predicate OwnVariant(v: Variant, id: nat) {
    v.Merged? ==> v.id == id && OwnVariant(v.base, id)
  }

  ghost predicate OwnVariants(assets: map<nat, Asset>) {
    forall a :: a in assets ==> OwnVariant(assets[a].variant, a)
  }

  ghost predicate OneMarkEach(marks: map<nat, Mark>) {
    forall m, n :: m in marks && n in marks && marks[m] == marks[n] ==> m == n
  }

  ghost predicate Ruled(s: Shelf) {
    OneOfKey(s) && NoClash(s.assets) && OwnVariants(s.assets) && OneMarkEach(s.marks)
  }

  /** No row of any table refers to the unit. */
  ghost predicate Unreferenced(s: Shelf, u: nat) {
    && u !in s.units && u !in s.states
    && (forall a :: a in s.assets ==> s.assets[a].unit != u)
    && (forall m :: m in s.marks ==> s.marks[m].unit != u)
    && (forall r :: r in s.rows ==> s.rows[r] != u)
    && (forall f :: (u, f) !in s.overrides)
  }

  // ---- What one merge keeps ----------------------------------------------------------------------

  /** Every asset is kept, with its file, and none clashes with another; only a clash costs an asset its variant. */
  lemma AssetsKept(assets: map<nat, Asset>, from: nat, to: nat)
    requires NoClash(assets) && OwnVariants(assets) && from != to
    ensures var after := MovedAssets(assets, from, to);
            && after.Keys == assets.Keys && NoClash(after) && OwnVariants(after)
            && forall a :: a in assets ==>
                 && after[a].file == assets[a].file && after[a].format == assets[a].format
                 && after[a].unit == (if assets[a].unit == from then to else assets[a].unit)
                 && after[a].variant == if assets[a].unit == from && exists b :: b in assets && SamePlace(assets[b], assets[a].(unit := to))
                                        then Merged(assets[a].variant, a) else assets[a].variant
  {
    var after := MovedAssets(assets, from, to);
    forall a, b | a in after && b in after && SamePlace(after[a], after[b]) ensures a == b
    {
      if assets[a].unit == from && assets[b].unit != from {
        NoClashMoved(assets, from, to, a, b);
      } else if assets[b].unit == from && assets[a].unit != from {
        NoClashMoved(assets, from, to, b, a);
      } else if assets[a].unit == from {
        assert after[a].variant == assets[a].variant || after[a].variant == Merged(assets[a].variant, a);
        assert after[b].variant == assets[b].variant || after[b].variant == Merged(assets[b].variant, b);
        assert OwnVariant(assets[a].variant, a) && OwnVariant(assets[b].variant, b);
      }
    }
  }

  lemma NoClashMoved(assets: map<nat, Asset>, from: nat, to: nat, a: nat, b: nat)
    requires OwnVariants(assets) && from != to && a in assets && b in assets
    requires assets[a].unit == from && assets[b].unit == to && assets[a].format == assets[b].format
    ensures MovedAssets(assets, from, to)[a].variant != assets[b].variant
  {
    if Clash(assets, to, assets[a].format, assets[a].variant) {
      assert OwnVariant(assets[b].variant, b);
    }
  }

  /** The further state, or the same and no smaller fraction; a missing fraction counts as nothing. */
  predicate AtLeast(a: Reading, b: Reading) {
    a.state > b.state
    || (a.state == b.state && (if a.fraction.Some? then a.fraction.value else 0.0)
                              >= if b.fraction.Some? then b.fraction.value else 0.0)
  }

  /** The survivor's progress is the greater of the two, its own if they are alike; taking the other's is a revision. */
  lemma ProgressKept(states: map<nat, Reading>, from: nat, to: nat)
    requires from != to
    ensures var after := MovedStates(states, from, to);
            && from !in after
            && (to in after <==> from in states || to in states)
            && (from in states ==> AtLeast(after[to], states[from]))
            && (to in states ==> AtLeast(after[to], states[to]))
            && (from in states && to in states ==>
                  after[to] == if AtLeast(states[to], states[from]) then states[to]
                               else states[from].(revision := states[to].revision + 1))
            && (from in states && to !in states ==> after[to] == states[from])
            && (to in after ==>
                  (from in states && after[to].state == states[from].state && after[to].fraction == states[from].fraction
                   && after[to].locator == states[from].locator)
                  || (to in states && after[to] == states[to]))
            && forall u :: u != from && u != to ==>
                 (u in after <==> u in states) && (u in states ==> after[u] == states[u])
  {
  }

  /** Every place marked before is marked after, and nothing else is. */
  lemma MarksKept(marks: map<nat, Mark>, from: nat, to: nat)
    requires OneMarkEach(marks) && from != to
    ensures var after := MovedMarks(marks, from, to);
            && OneMarkEach(after)
            && (forall m :: m in after ==> after[m].unit != from)
            && forall u, place :: u != from ==>
                 (Marked(after, u, place) <==> Marked(marks, u, place) || (u == to && Marked(marks, from, place)))
  {
    var after := MovedMarks(marks, from, to);
    forall u, place | u != from
      ensures Marked(after, u, place) <==> Marked(marks, u, place) || (u == to && Marked(marks, from, place))
    {
      if Marked(marks, u, place) {
        var m :| m in marks && marks[m].unit == u && marks[m].place == place;
        assert after[m] == marks[m];
      } else if u == to && Marked(marks, from, place) {
        var m :| m in marks && marks[m].unit == from && marks[m].place == place;
        assert after[m] == Mark(to, place);
      }
    }
  }

  /** A survivor's own correction stays; otherwise the other's becomes its own. */
  lemma OverridesKept(overrides: map<(nat, string), string>, from: nat, to: nat)
    requires from != to
    ensures var after := MovedOverrides(overrides, from, to);
            forall u, f ::
              && ((u, f) in after <==> u != from && ((u, f) in overrides || (u == to && (from, f) in overrides)))
              && ((u, f) in after ==>
                    after[(u, f)] == if (u, f) in overrides then overrides[(u, f)] else overrides[(from, f)])
  {
    var after := MovedOverrides(overrides, from, to);
    forall u, f ensures (u, f) in after <==> u != from && ((u, f) in overrides || (u == to && (from, f) in overrides)) {
      if u != from && (u, f) in overrides { assert (u, f) in after; }
      if u == to && (from, f) in overrides { assert (to, f) in after; }
    }
  }

  /** The merged unit is gone, with nothing left that refers to it, and the tables keep their rules. */
  lemma MergedUnitRuled(s: Shelf, from: nat, to: nat)
    requires Ruled(s) && from != to
    ensures Ruled(MergedUnit(s, from, to)) && Unreferenced(MergedUnit(s, from, to), from)
  {
    AssetsKept(s.assets, from, to);
    ProgressKept(s.states, from, to);
    MarksKept(s.marks, from, to);
    OverridesKept(s.overrides, from, to);
  }
}
