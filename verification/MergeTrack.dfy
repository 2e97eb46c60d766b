/** Merging a whole track: nothing is lost, nothing is left behind, and progress only grows. */
module MergeTrack {
  import opened Common
  import opened MergeState

  /** The units of the old track, one after the other. */
  ghost function MergedAll(s: Shelf, us: seq<nat>, track: nat): Shelf {
    if us == [] then s else MergedOne(MergedAll(s, us[..|us| - 1], track), us[|us| - 1], track)
  }

  /** Where a unit's belongings are, once the units in `done` were merged. */
  ghost function Home(s0: Shelf, done: set<nat>, track: nat, u: nat): nat {
    if u in done && u in s0.units && TwinOf(s0, track, u).Some? then TwinOf(s0, track, u).value else u
  }

  // ---- The account, table by table ---------------------------------------------------------------

  ghost predicate UnitsKept(s0: Shelf, s: Shelf, done: set<nat>, track: nat) {
    && (forall u :: u in s.units <==> u in s0.units && Home(s0, done, track, u) == u)
    && (forall u :: u in s.units ==> s.units[u] == if u in done then s0.units[u].(track := track) else s0.units[u])
  }

  ghost predicate FilesKept(s0: Shelf, s: Shelf, done: set<nat>, track: nat) {
    && s.assets.Keys == s0.assets.Keys
    && forall a :: a in s0.assets ==>
         && s.assets[a].file == s0.assets[a].file && s.assets[a].format == s0.assets[a].format
         && s.assets[a].unit == Home(s0, done, track, s0.assets[a].unit)
  }

  ghost predicate RowsKept(s0: Shelf, s: Shelf, done: set<nat>, track: nat) {
    && s.rows.Keys == s0.rows.Keys
    && forall r :: r in s0.rows ==> s.rows[r] == Home(s0, done, track, s0.rows[r])
  }

  /** A place is marked exactly where it was marked before, or in a unit that came here. */
  ghost predicate PlacesKept(s0: Shelf, s: Shelf, done: set<nat>, track: nat) {
    forall u, place :: Marked(s.marks, u, place) <==> Comes(s0, done, track, u, place)
  }

  /** The place was marked in the unit, or in one whose belongings are there now. */
  ghost predicate Comes(s0: Shelf, done: set<nat>, track: nat, u: nat, place: string) {
    exists v: nat :: Home(s0, done, track, v) == u && Marked(s0.marks, v, place)
  }

  predicate SameProgress(a: Reading, b: Reading) {
    a.state == b.state && a.fraction == b.fraction && a.locator == b.locator
  }

  /** Where the progress of each unit is now. */
  ghost function ProgressHomes(s0: Shelf, done: set<nat>, track: nat): map<nat, nat> {
    map v | v in s0.states :: Home(s0, done, track, v)
  }

  /** Each unit's progress is at least that of every unit that came here, and is that of one of them. */
  ghost predicate Grows(before: map<nat, Reading>, after: map<nat, Reading>, homes: map<nat, nat>) {
    homes.Keys == before.Keys && NoneShrinks(before, after, homes) && NoneInvented(before, after, homes)
  }

  ghost predicate NoneShrinks(before: map<nat, Reading>, after: map<nat, Reading>, homes: map<nat, nat>)
    requires homes.Keys == before.Keys
  {
    forall v :: v in before ==> homes[v] in after && AtLeast(after[homes[v]], before[v])
  }

  ghost predicate NoneInvented(before: map<nat, Reading>, after: map<nat, Reading>, homes: map<nat, nat>)
    requires homes.Keys == before.Keys
  {
    forall u :: u in after ==> exists v :: v in before && homes[v] == u && SameProgress(after[u], before[v])
  }

  ghost predicate ProgressGrows(s0: Shelf, s: Shelf, done: set<nat>, track: nat) {
    Grows(s0.states, s.states, ProgressHomes(s0, done, track))
  }

  /** No correction is lost, and a unit's own is never replaced. */
  ghost predicate CorrectionsKept(s0: Shelf, s: Shelf, done: set<nat>, track: nat) {
    && (forall v, f :: (v, f) in s0.overrides ==> (Home(s0, done, track, v), f) in s.overrides)
    && (forall u, f :: (u, f) in s.overrides ==> Home(s0, done, track, u) == u)
    && (forall u, f :: (u, f) in s.overrides ==>
          if (u, f) in s0.overrides then s.overrides[(u, f)] == s0.overrides[(u, f)]
          else exists v: nat :: Home(s0, done, track, v) == u && (v, f) in s0.overrides
                           && s.overrides[(u, f)] == s0.overrides[(v, f)])
  }

  ghost predicate Account(s0: Shelf, s: Shelf, done: set<nat>, track: nat) {
    && Ruled(s)
    && UnitsKept(s0, s, done, track)
    && FilesKept(s0, s, done, track)
    && RowsKept(s0, s, done, track)
    && PlacesKept(s0, s, done, track)
    && ProgressGrows(s0, s, done, track)
    && CorrectionsKept(s0, s, done, track)
  }

  // ---- One more unit -----------------------------------------------------------------------------

  /** The unit merged next, and where it goes; `to` is a unit of the surviving track. */
  ghost predicate NextMerge(s0: Shelf, done: set<nat>, from: nat, track: nat, u: nat) {
    && Ruled(s0) && from != track
    && (forall v :: v in done ==> v in s0.units && s0.units[v].track == from)
    && u in s0.units && s0.units[u].track == from && u !in done
  }

  lemma HomeStep(s0: Shelf, done: set<nat>, from: nat, track: nat, u: nat, v: nat)
    requires NextMerge(s0, done, from, track, u)
    ensures var twin := TwinOf(s0, track, u);
            Home(s0, done + {u}, track, v)
            == if twin.Some? && Home(s0, done, track, v) == u then twin.value else Home(s0, done, track, v)
    ensures Home(s0, done, track, u) == u
    ensures TwinOf(s0, track, u).Some? ==>
              TwinOf(s0, track, u).value != u && TwinOf(s0, track, u).value !in done
              && Home(s0, done, track, TwinOf(s0, track, u).value) == TwinOf(s0, track, u).value
  {
  }

  lemma SameTwin(s0: Shelf, s: Shelf, done: set<nat>, from: nat, track: nat, u: nat)
    requires NextMerge(s0, done, from, track, u) && UnitsKept(s0, s, done, track) && OneOfKey(s)
    ensures u in s.units && s.units[u] == s0.units[u]
    ensures TwinOf(s, track, u) == TwinOf(s0, track, u)
  {
    HomeStep(s0, done, from, track, u, u);
    var key := s0.units[u].key;
    forall t ensures t in Twins(s, track, key) <==> t in Twins(s0, track, key) {
      if t in Twins(s0, track, key) {
        assert t !in done;
      }
    }
    assert Twins(s, track, key) == Twins(s0, track, key);
    if Twins(s, track, key) != {} {
      assert s.units[TwinOf(s, track, u).value] == s.units[TwinOf(s0, track, u).value];
    }
  }

  lemma UnitsStep(s0: Shelf, s: Shelf, done: set<nat>, from: nat, track: nat, u: nat)
    requires NextMerge(s0, done, from, track, u) && UnitsKept(s0, s, done, track) && OneOfKey(s)
    ensures UnitsKept(s0, MergedOne(s, u, track), done + {u}, track)
    ensures OneOfKey(MergedOne(s, u, track))
  {
    SameTwin(s0, s, done, from, track, u);
    HomeSteps(s0, done, from, track, u);
    UnitsMoved(s0, s, MergedOne(s, u, track), done, done + {u}, track, u, TwinOf(s0, track, u));
    if TwinOf(s0, track, u).None? {
      MovedAlone(s, u, track);
    }
  }

  lemma UnitsMoved(
    s0: Shelf, s: Shelf, s': Shelf, done: set<nat>, more: set<nat>, track: nat, u: nat, twin: Option<nat>)
    requires UnitsKept(s0, s, done, track) && u in s.units && s.units[u] == s0.units[u] && more == done + {u}
    requires s'.units == if twin.Some? then s.units - {u} else s.units[u := s.units[u].(track := track)]
    requires Home(s0, done, track, u) == u && (twin.Some? ==> twin.value != u)
    requires forall v :: Home(s0, more, track, v)
                         == if twin.Some? && Home(s0, done, track, v) == u then twin.value else Home(s0, done, track, v)
    requires forall v :: Home(s0, done, track, v) == u ==> v == u
    ensures UnitsKept(s0, s', more, track)
  {
    hide Home;
    forall v ensures v in s'.units <==> v in s0.units && Home(s0, more, track, v) == v {
      assert v in s.units <==> v in s0.units && Home(s0, done, track, v) == v;
    }
  }

  lemma MovedAlone(s: Shelf, u: nat, track: nat)
    requires OneOfKey(s) && u in s.units && Twins(s, track, s.units[u].key) == {}
    ensures OneOfKey(s.(units := s.units[u := s.units[u].(track := track)]))
  {
    var units := s.units[u := s.units[u].(track := track)];
    assert forall v :: v in s.units ==> v !in Twins(s, track, s.units[u].key);
  }

  lemma FilesStep(s0: Shelf, s: Shelf, done: set<nat>, from: nat, track: nat, u: nat)
    requires NextMerge(s0, done, from, track, u) && UnitsKept(s0, s, done, track) && Ruled(s)
    requires FilesKept(s0, s, done, track)
    ensures FilesKept(s0, MergedOne(s, u, track), done + {u}, track)
  {
    hide Home, NextMerge;
    HomeSteps(s0, done, from, track, u);
    SameTwin(s0, s, done, from, track, u);
    if TwinOf(s, track, u).Some? {
      AssetsKept(s.assets, u, TwinOf(s, track, u).value);
    }
  }

  /** `HomeStep` for every unit at once. */
  lemma HomeSteps(s0: Shelf, done: set<nat>, from: nat, track: nat, u: nat)
    requires NextMerge(s0, done, from, track, u)
    ensures forall v :: Home(s0, done + {u}, track, v)
                        == if TwinOf(s0, track, u).Some? && Home(s0, done, track, v) == u then TwinOf(s0, track, u).value
                           else Home(s0, done, track, v)
    ensures Home(s0, done, track, u) == u
    ensures forall v :: Home(s0, done, track, v) == u ==> v == u
    ensures TwinOf(s0, track, u).Some? ==>
              TwinOf(s0, track, u).value != u
              && Home(s0, done, track, TwinOf(s0, track, u).value) == TwinOf(s0, track, u).value
  {
    forall v ensures Home(s0, done + {u}, track, v)
                     == if TwinOf(s0, track, u).Some? && Home(s0, done, track, v) == u then TwinOf(s0, track, u).value
                        else Home(s0, done, track, v)
    {
      HomeStep(s0, done, from, track, u, v);
    }
    HomeStep(s0, done, from, track, u, u);
  }

  lemma RowsStep(s0: Shelf, s: Shelf, done: set<nat>, from: nat, track: nat, u: nat)
    requires NextMerge(s0, done, from, track, u) && UnitsKept(s0, s, done, track) && Ruled(s)
    requires RowsKept(s0, s, done, track)
    ensures RowsKept(s0, MergedOne(s, u, track), done + {u}, track)
  {
    hide Home, NextMerge;
    HomeSteps(s0, done, from, track, u);
    SameTwin(s0, s, done, from, track, u);
  }

  lemma PlacesStep(s0: Shelf, s: Shelf, done: set<nat>, from: nat, track: nat, u: nat)
    requires NextMerge(s0, done, from, track, u) && UnitsKept(s0, s, done, track) && Ruled(s)
    requires PlacesKept(s0, s, done, track)
    ensures PlacesKept(s0, MergedOne(s, u, track), done + {u}, track)
  {
    hide Home, NextMerge, Marked, UnitsKept, NoClash, OwnVariants, OneOfKey, MovedMarks, Comes;
    HomeSteps(s0, done, from, track, u);
    SameTwinRuled(s0, s, done, from, track, u);
    var s' := MergedOne(s, u, track);
    var more := done + {u};
    if TwinOf(s0, track, u).Some? {
      var t := TwinOf(s0, track, u).value;
      MarksKept(s.marks, u, t);
      NoMarkLeft(s.marks, u, t);
      PlacesMoved(s0, s, s', done, more, track, u, t);
    } else {
      forall w, place ensures Marked(s'.marks, w, place) <==> Comes(s0, more, track, w, place) {
        ComesSame(s0, done, more, track, w, place);
      }
    }
  }

  lemma ComesSame(s0: Shelf, done: set<nat>, more: set<nat>, track: nat, w: nat, place: string)
    requires forall v :: Home(s0, more, track, v) == Home(s0, done, track, v)
    ensures Comes(s0, more, track, w, place) <==> Comes(s0, done, track, w, place)
  {
    hide Home, Marked;
  }

  lemma PlacesMoved(s0: Shelf, s: Shelf, s': Shelf, done: set<nat>, more: set<nat>, track: nat, u: nat, t: nat)
    requires PlacesKept(s0, s, done, track)
    requires forall v :: Home(s0, more, track, v) == if Home(s0, done, track, v) == u then t else Home(s0, done, track, v)
    requires forall w, place :: w != u ==>
               (Marked(s'.marks, w, place) <==> Marked(s.marks, w, place) || (w == t && Marked(s.marks, u, place)))
    requires (forall place :: !Marked(s'.marks, u, place)) && t != u
    ensures PlacesKept(s0, s', more, track)
  {
    hide Home, Marked, Comes;
    forall w, place ensures Marked(s'.marks, w, place) <==> Comes(s0, more, track, w, place) {
      ComesMore(s0, done, more, track, u, t, w, place);
    }
  }

  lemma ComesMore(s0: Shelf, done: set<nat>, more: set<nat>, track: nat, u: nat, t: nat, w: nat, place: string)
    requires forall v :: Home(s0, more, track, v) == if Home(s0, done, track, v) == u then t else Home(s0, done, track, v)
    requires t != u
    ensures Comes(s0, more, track, w, place)
            <==> (w != u && Comes(s0, done, track, w, place)) || (w == t && Comes(s0, done, track, u, place))
  {
    hide Home, Marked;
    if w != u && Comes(s0, done, track, w, place) {
      var v: nat :| Home(s0, done, track, v) == w && Marked(s0.marks, v, place);
      assert Home(s0, more, track, v) == w;
    }
    if w == t && Comes(s0, done, track, u, place) {
      var v: nat :| Home(s0, done, track, v) == u && Marked(s0.marks, v, place);
      assert Home(s0, more, track, v) == w;
    }
  }

  lemma NoMarkLeft(marks: map<nat, Mark>, from: nat, to: nat)
    requires from != to
    ensures forall place :: !Marked(MovedMarks(marks, from, to), from, place)
  {
  }

  lemma ProgressStep(s0: Shelf, s: Shelf, done: set<nat>, from: nat, track: nat, u: nat)
    requires NextMerge(s0, done, from, track, u) && UnitsKept(s0, s, done, track) && Ruled(s)
    requires ProgressGrows(s0, s, done, track)
    ensures ProgressGrows(s0, MergedOne(s, u, track), done + {u}, track)
  {
    hide Home, NextMerge, MovedStates, ProgressGrows, UnitsKept, Ruled, Grows, OneMerge;
    HomeSteps(s0, done, from, track, u);
    SameTwinRuled(s0, s, done, from, track, u);
    var s' := MergedOne(s, u, track);
    if TwinOf(s0, track, u).Some? {
      var t := TwinOf(s0, track, u).value;
      MovedIsOneMerge(s.states, u, t);
      ProgressUnfolds(s0, s, done, track);
      GrowsMore(s0.states, s.states, s'.states, ProgressHomes(s0, done, track), u, t);
      assert ProgressHomes(s0, done + {u}, track) == Redirected(ProgressHomes(s0, done, track), u, t);
    } else {
      assert ProgressHomes(s0, done + {u}, track) == ProgressHomes(s0, done, track);
      ProgressUnfolds(s0, s, done, track);
    }
    ProgressUnfolds(s0, s', done + {u}, track);
  }

  lemma ProgressUnfolds(s0: Shelf, s: Shelf, done: set<nat>, track: nat)
    ensures ProgressGrows(s0, s, done, track) <==> Grows(s0.states, s.states, ProgressHomes(s0, done, track))
  {
  }

  lemma SameTwinRuled(s0: Shelf, s: Shelf, done: set<nat>, from: nat, track: nat, u: nat)
    requires NextMerge(s0, done, from, track, u) && UnitsKept(s0, s, done, track) && Ruled(s)
    ensures u in s0.units && u in s.units && s.units[u] == s0.units[u] && TwinOf(s, track, u) == TwinOf(s0, track, u)
  {
    SameTwin(s0, s, done, from, track, u);
  }

  /** What `ProgressKept` says of one merge. */
  ghost predicate OneMerge(before: map<nat, Reading>, after: map<nat, Reading>, from: nat, to: nat) {
    && from !in after
    && (to in after <==> from in before || to in before)
    && (from in before ==> AtLeast(after[to], before[from]))
    && (to in before ==> AtLeast(after[to], before[to]))
    && (to in after ==>
          (from in before && SameProgress(after[to], before[from])) || (to in before && after[to] == before[to]))
    && forall u :: u != from && u != to ==> (u in after <==> u in before) && (u in before ==> after[u] == before[u])
  }

  lemma MovedIsOneMerge(states: map<nat, Reading>, from: nat, to: nat)
    requires from != to
    ensures OneMerge(states, MovedStates(states, from, to), from, to)
  {
    ProgressKept(states, from, to);
  }

  lemma AtLeastChain(a: Reading, b: Reading, c: Reading)
    requires AtLeast(a, b) && AtLeast(b, c)
    ensures AtLeast(a, c)
  {
  }

  function Redirected(homes: map<nat, nat>, u: nat, t: nat): map<nat, nat> {
    map v | v in homes :: if homes[v] == u then t else homes[v]
  }

  lemma GrowsMore(
    states0: map<nat, Reading>, before: map<nat, Reading>, after: map<nat, Reading>, homes: map<nat, nat>, u: nat, t: nat)
    requires Grows(states0, before, homes) && OneMerge(before, after, u, t) && u != t
    ensures Grows(states0, after, Redirected(homes, u, t))
  {
    hide NoneShrinks, NoneInvented, OneMerge;
    var to := Redirected(homes, u, t);
    assert NoneShrinks(states0, after, to) by { NoneShrinksMore(states0, before, after, homes, u, t); }
    assert NoneInvented(states0, after, to) by { NoneInventedMore(states0, before, after, homes, u, t); }
  }

  lemma NoneShrinksMore(
    states0: map<nat, Reading>, before: map<nat, Reading>, after: map<nat, Reading>, homes: map<nat, nat>, u: nat, t: nat)
    requires homes.Keys == states0.Keys && NoneShrinks(states0, before, homes) && OneMerge(before, after, u, t)
    ensures NoneShrinks(states0, after, Redirected(homes, u, t))
  {
    hide AtLeast, OneMerge;
    var to := Redirected(homes, u, t);
    forall v | v in states0 ensures to[v] in after && AtLeast(after[to[v]], states0[v]) {
      AtLeastIfMerged(before, after, u, t, homes[v], states0[v]);
    }
  }

  lemma NoneInventedMore(
    states0: map<nat, Reading>, before: map<nat, Reading>, after: map<nat, Reading>, homes: map<nat, nat>, u: nat, t: nat)
    requires homes.Keys == states0.Keys && NoneInvented(states0, before, homes) && OneMerge(before, after, u, t)
    ensures NoneInvented(states0, after, Redirected(homes, u, t))
  {
    hide AtLeast, SameProgress, OneMerge;
    var to := Redirected(homes, u, t);
    forall w | w in after ensures exists v :: v in states0 && to[v] == w && SameProgress(after[w], states0[v]) {
      var from := CameFrom(before, after, u, t, w);
      var v :| v in states0 && homes[v] == from && SameProgress(before[from], states0[v]);
      SameProgressChain(after[w], before[from], states0[v]);
      assert to[v] == w;
    }
  }

  lemma CameFrom(before: map<nat, Reading>, after: map<nat, Reading>, u: nat, t: nat, w: nat) returns (from: nat)
    requires OneMerge(before, after, u, t) && w in after
    ensures from in before && SameProgress(after[w], before[from])
    ensures (if from == u then t else from) == w
  {
    from := if w == t && !(t in before && after[t] == before[t]) then u else w;
  }

  lemma SameProgressChain(a: Reading, b: Reading, c: Reading)
    requires SameProgress(a, b) && SameProgress(b, c)
    ensures SameProgress(a, c)
  {
  }

  lemma AtLeastIfMerged(before: map<nat, Reading>, after: map<nat, Reading>, u: nat, t: nat, h: nat, r: Reading)
    requires OneMerge(before, after, u, t) && h in before && AtLeast(before[h], r)
    ensures var to := if h == u then t else h; to in after && AtLeast(after[to], r)
  {
    hide AtLeast;
    if h == u || h == t {
      AtLeastChain(after[t], before[h], r);
    }
  }

  lemma CorrectionsStep(s0: Shelf, s: Shelf, done: set<nat>, from: nat, track: nat, u: nat)
    requires NextMerge(s0, done, from, track, u) && UnitsKept(s0, s, done, track) && Ruled(s)
    requires CorrectionsKept(s0, s, done, track)
    ensures CorrectionsKept(s0, MergedOne(s, u, track), done + {u}, track)
  {
    hide Home, NextMerge, MovedOverrides;
    HomeSteps(s0, done, from, track, u);
    SameTwin(s0, s, done, from, track, u);
    var s' := MergedOne(s, u, track);
    var twin := TwinOf(s0, track, u);
    if twin.Some? {
      var t := twin.value;
      OverridesKept(s.overrides, u, t);
      assert s'.overrides == MovedOverrides(s.overrides, u, t);
      forall v, f | (v, f) in s0.overrides ensures (Home(s0, done + {u}, track, v), f) in s'.overrides {
        assert (Home(s0, done, track, v), f) in s.overrides;
      }
      forall w, f | (w, f) in s'.overrides
        ensures Home(s0, done + {u}, track, w) == w
        ensures if (w, f) in s0.overrides then s'.overrides[(w, f)] == s0.overrides[(w, f)]
                else exists v: nat :: Home(s0, done + {u}, track, v) == w && (v, f) in s0.overrides
                                 && s'.overrides[(w, f)] == s0.overrides[(v, f)]
      {
        OneCorrection(s0, s, s', done, track, u, t, w, f);
      }
    }
  }

  lemma OneCorrection(s0: Shelf, s: Shelf, s': Shelf, done: set<nat>, track: nat, u: nat, t: nat, w: nat, f: string)
    requires CorrectionsKept(s0, s, done, track) && (w, f) in s'.overrides && w != u
    requires forall v :: Home(s0, done + {u}, track, v)
                         == if Home(s0, done, track, v) == u then t else Home(s0, done, track, v)
    requires Home(s0, done, track, t) == t && Home(s0, done, track, u) == u && t != u
    requires (w, f) in s.overrides || (w == t && (u, f) in s.overrides)
    requires s'.overrides[(w, f)] == if (w, f) in s.overrides then s.overrides[(w, f)] else s.overrides[(u, f)]
    ensures Home(s0, done + {u}, track, w) == w
    ensures if (w, f) in s0.overrides then s'.overrides[(w, f)] == s0.overrides[(w, f)]
            else exists v: nat :: Home(s0, done + {u}, track, v) == w && (v, f) in s0.overrides
                             && s'.overrides[(w, f)] == s0.overrides[(v, f)]
  {
    hide Home;
    if (w, f) !in s0.overrides {
      var from := if (w, f) in s.overrides then w else u;
      if (from, f) in s0.overrides {
        assert Home(s0, done + {u}, track, from) == w;
      } else {
        var v: nat :| Home(s0, done, track, v) == from && (v, f) in s0.overrides
                      && s.overrides[(from, f)] == s0.overrides[(v, f)];
        assert Home(s0, done + {u}, track, v) == w;
      }
    }
  }

  // ---- The whole track ---------------------------------------------------------------------------

  lemma RuledStep(s0: Shelf, s: Shelf, done: set<nat>, from: nat, track: nat, u: nat)
    requires NextMerge(s0, done, from, track, u) && UnitsKept(s0, s, done, track) && Ruled(s)
    ensures Ruled(MergedOne(s, u, track))
  {
    hide NextMerge, UnitsKept, Home, NoClash, OwnVariants, OneMarkEach, Unreferenced;
    SameTwin(s0, s, done, from, track, u);
    HomeSteps(s0, done, from, track, u);
    UnitsStep(s0, s, done, from, track, u);
    if TwinOf(s, track, u).Some? {
      MergedUnitRuled(s, u, TwinOf(s, track, u).value);
    }
  }

  lemma AccountStep(s0: Shelf, s: Shelf, done: set<nat>, from: nat, track: nat, u: nat)
    requires NextMerge(s0, done, from, track, u) && Account(s0, s, done, track)
    ensures Account(s0, MergedOne(s, u, track), done + {u}, track)
  {
    hide NextMerge, UnitsKept, FilesKept, RowsKept, PlacesKept, ProgressGrows, CorrectionsKept, MergedOne;
    RuledStep(s0, s, done, from, track, u);
    UnitsStep(s0, s, done, from, track, u);
    FilesStep(s0, s, done, from, track, u);
    RowsStep(s0, s, done, from, track, u);
    PlacesStep(s0, s, done, from, track, u);
    ProgressStep(s0, s, done, from, track, u);
    CorrectionsStep(s0, s, done, from, track, u);
  }

  lemma AccountStart(s0: Shelf, track: nat)
    requires Ruled(s0)
    ensures Account(s0, s0, {}, track)
  {
    hide Ruled, AtLeast, Home, ProgressGrows, PlacesKept, Marked;
    HomeAtFirst(s0, track);
    ProgressStart(s0, track);
    PlacesStart(s0, track);
  }

  lemma HomeAtFirst(s0: Shelf, track: nat)
    ensures forall u :: Home(s0, {}, track, u) == u
  {
  }

  lemma PlacesStart(s0: Shelf, track: nat)
    ensures PlacesKept(s0, s0, {}, track)
  {
    hide Home, Marked;
    HomeAtFirst(s0, track);
    forall u, place ensures Marked(s0.marks, u, place) <==> Comes(s0, {}, track, u, place) {
      if Marked(s0.marks, u, place) { assert Home(s0, {}, track, u) == u; }
    }
  }

  lemma ProgressStart(s0: Shelf, track: nat)
    ensures ProgressGrows(s0, s0, {}, track)
  {
    hide Grows;
    var homes := ProgressHomes(s0, {}, track);
    assert forall v :: v in s0.states ==> homes[v] == v;
    GrowsNot(s0.states, homes);
  }

  lemma GrowsNot(states: map<nat, Reading>, homes: map<nat, nat>)
    requires homes.Keys == states.Keys && forall v :: v in states ==> homes[v] == v
    ensures Grows(states, states, homes)
  {
    hide NoneShrinks, NoneInvented;
    assert NoneShrinks(states, states, homes) by { ShrinksNot(states, homes); }
    assert NoneInvented(states, states, homes) by { InventsNot(states, homes); }
  }

  lemma ShrinksNot(states: map<nat, Reading>, homes: map<nat, nat>)
    requires homes.Keys == states.Keys && forall v :: v in states ==> homes[v] == v
    ensures NoneShrinks(states, states, homes)
  {
  }

  lemma InventsNot(states: map<nat, Reading>, homes: map<nat, nat>)
    requires homes.Keys == states.Keys && forall v :: v in states ==> homes[v] == v
    ensures NoneInvented(states, states, homes)
  {
    forall u | u in states ensures exists v :: v in states && homes[v] == u && SameProgress(states[u], states[v]) {
      assert homes[u] == u;
    }
  }

  lemma {:induction false} MergedAllAccount(s0: Shelf, us: seq<nat>, from: nat, track: nat)
    requires Ruled(s0) && from != track && Distinct(us)
    requires forall u :: u in us ==> u in s0.units && s0.units[u].track == from
    ensures Account(s0, MergedAll(s0, us, track), Elements(us), track)
  {
    if us == [] {
      AccountStart(s0, track);
      assert Elements(us) == {};
    } else {
      hide Account, MergedOne, Ruled;
      var k := |us| - 1;
      assert us[k] !in us[..k] && forall u :: u in us[..k] ==> u in us;
      MergedAllAccount(s0, us[..k], from, track);
      AccountStep(s0, MergedAll(s0, us[..k], track), Elements(us[..k]), from, track, us[k]);
      ElementsLast(us);
    }
  }

  lemma GoneForGood(s0: Shelf, s: Shelf, done: set<nat>, track: nat, u: nat)
    requires Account(s0, s, done, track) && Home(s0, done, track, u) != u
    requires forall v :: Home(s0, done, track, Home(s0, done, track, v)) == Home(s0, done, track, v)
    ensures Unreferenced(s, u)
  {
    hide Home, Ruled, AtLeast, SameProgress;
    forall m | m in s.marks ensures s.marks[m].unit != u {
      assert Marked(s.marks, s.marks[m].unit, s.marks[m].place);
    }
  }

  /**
   Merging a track into its twin: every asset is kept with its file and none clashes; every row, marked place
   and correction follows its unit; each surviving unit's progress is the greatest of those that met in it;
   a unit is gone exactly when it had a twin, and nothing refers to it; and no unit is left on the old track.
   */
  lemma TrackMerged(s: Shelf, us: seq<nat>, from: nat, track: nat)
    requires Ruled(s) && from != track && Distinct(us)
    requires forall u :: u in us <==> u in s.units && s.units[u].track == from
    ensures var after := MergedAll(s, us, track);
            && Account(s, after, Elements(us), track)
            && UnitsOf(after, from) == {}
            && forall u :: u in us && TwinOf(s, track, u).Some? ==> Unreferenced(after, u)
  {
    hide Account, Ruled;
    MergedAllAccount(s, us, from, track);
    var after := MergedAll(s, us, track);
    HomeStays(s, Elements(us), from, track);
    AccountUnits(s, after, Elements(us), track);
    forall u | u in after.units ensures after.units[u].track != from {
    }
    forall u | u in us && TwinOf(s, track, u).Some? ensures Unreferenced(after, u) {
      GoneForGood(s, after, Elements(us), track, u);
    }
  }

  lemma AccountUnits(s0: Shelf, s: Shelf, done: set<nat>, track: nat)
    requires Account(s0, s, done, track)
    ensures UnitsKept(s0, s, done, track)
  {
  }

  lemma HomeStays(s0: Shelf, done: set<nat>, from: nat, track: nat)
    requires from != track && forall u :: u in done ==> u in s0.units && s0.units[u].track == from
    ensures forall v :: Home(s0, done, track, Home(s0, done, track, v)) == Home(s0, done, track, v)
    ensures forall u :: u in done && TwinOf(s0, track, u).Some? ==> Home(s0, done, track, u) != u
  {
    forall u | u in done && TwinOf(s0, track, u).Some?
      ensures Home(s0, done, track, u) != u && Home(s0, done, track, u) !in done
    {
      var t := TwinOf(s0, track, u).value;
      assert t in s0.units && s0.units[t].track == track;
    }
  }
}
