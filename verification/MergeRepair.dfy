/** Several merges in a row: whatever hung on a unit follows it, through all of them. */
module MergeRepair {
  import opened Common
  import opened MergeState
  import opened MergeTrack

  /** Where the belongings of each unit are in the end. */
  type Homes = nat -> nat

  function Stay(u: nat): nat {
    u
  }

  ghost predicate UnitsFollow(s0: Shelf, s: Shelf, h: Homes) {
    && (forall u :: u in s.units <==> u in s0.units && h(u) == u)
    && (forall u :: u in s.units ==> s.units[u].key == s0.units[u].key)
    && (forall u :: h(u) == u || h(u) in s.units)
  }

  ghost predicate FilesFollow(before: map<nat, Asset>, after: map<nat, Asset>, h: Homes) {
    && after.Keys == before.Keys
    && forall a :: a in before ==>
         && after[a].file == before[a].file && after[a].format == before[a].format
         && after[a].unit == h(before[a].unit)
  }

  ghost predicate RowsFollow(before: map<(string, nat), nat>, after: map<(string, nat), nat>, h: Homes) {
    after.Keys == before.Keys && forall r :: r in before ==> after[r] == h(before[r])
  }

  ghost predicate PlacesFollow(before: map<nat, Mark>, after: map<nat, Mark>, h: Homes) {
    forall u, place :: Marked(after, u, place) <==> Brought(before, h, u, place)
  }

  ghost predicate Brought(marks: map<nat, Mark>, h: Homes, u: nat, place: string) {
    exists v: nat :: h(v) == u && Marked(marks, v, place)
  }

  function HomesOf(before: map<nat, Reading>, h: Homes): map<nat, nat> {
    map v | v in before :: h(v)
  }

  ghost predicate ProgressFollows(before: map<nat, Reading>, after: map<nat, Reading>, h: Homes) {
    Grows(before, after, HomesOf(before, h))
  }

  ghost predicate CorrectionsFollow(before: map<(nat, string), string>, after: map<(nat, string), string>, h: Homes) {
    && (forall v, f :: (v, f) in before ==> (h(v), f) in after)
    && (forall u, f :: (u, f) in after ==> h(u) == u)
    && (forall u, f :: (u, f) in after ==> CorrectedFrom(before, after[(u, f)], h, u, f))
  }

  /** A unit's own correction, or where it had none, one of a unit that came to it. */
  ghost predicate CorrectedFrom(before: map<(nat, string), string>, value: string, h: Homes, u: nat, f: string) {
    if (u, f) in before then value == before[(u, f)]
    else exists v: nat :: h(v) == u && (v, f) in before && value == before[(v, f)]
  }

  /**
   Nothing is lost: every asset is there with its file, every row, place and correction is with the unit its own
   went to, and each unit's progress is the greatest of those that met in it.
   */
  ghost predicate Conserved(s0: Shelf, s: Shelf, h: Homes) {
    && UnitsFollow(s0, s, h)
    && FilesFollow(s0.assets, s.assets, h)
    && RowsFollow(s0.rows, s.rows, h)
    && PlacesFollow(s0.marks, s.marks, h)
    && ProgressFollows(s0.states, s.states, h)
    && CorrectionsFollow(s0.overrides, s.overrides, h)
  }

  // ---- Nothing done ------------------------------------------------------------------------------

  lemma NothingMoved(s: Shelf)
    ensures Conserved(s, s, Stay)
  {
    hide Marked, Grows;
    GrowsNot(s.states, HomesOf(s.states, Stay));
    forall u, place ensures Marked(s.marks, u, place) <==> Brought(s.marks, Stay, u, place) {
      if Marked(s.marks, u, place) { assert Stay(u) == u; }
    }
  }

  // ---- One track ---------------------------------------------------------------------------------

  /** The account of one merged track, in these words. */
  lemma TrackConserved(s: Shelf, us: seq<nat>, from: nat, track: nat)
    requires Ruled(s) && from != track && Distinct(us)
    requires forall u :: u in us <==> u in s.units && s.units[u].track == from
    ensures Conserved(s, MergedAll(s, us, track), (u: nat) => Home(s, Elements(us), track, u))
  {
    hide Ruled, Home, MergedAll;
    var s', done := MergedAll(s, us, track), Elements(us);
    var h := (u: nat) => Home(s, done, track, u);
    TrackMerged(s, us, from, track);
    AccountParts(s, s', done, track);
    HomeLands(s, s', done, from, track);
    PlacesInWords(s, s', done, track, h);
    ProgressInWords(s, s', done, track, h);
    CorrectionsInWords(s, s', done, track, h);
  }

  lemma AccountParts(s0: Shelf, s: Shelf, done: set<nat>, track: nat)
    requires Account(s0, s, done, track)
    ensures UnitsKept(s0, s, done, track) && FilesKept(s0, s, done, track) && RowsKept(s0, s, done, track)
    ensures PlacesKept(s0, s, done, track) && ProgressGrows(s0, s, done, track) && CorrectionsKept(s0, s, done, track)
  {
  }

  lemma HomeLands(s0: Shelf, s: Shelf, done: set<nat>, from: nat, track: nat)
    requires UnitsKept(s0, s, done, track) && from != track
    requires forall u :: u in done ==> u in s0.units && s0.units[u].track == from
    ensures forall u :: Home(s0, done, track, u) == u || Home(s0, done, track, u) in s.units
  {
    forall u ensures Home(s0, done, track, u) == u || Home(s0, done, track, u) in s.units {
      if Home(s0, done, track, u) != u {
        var t := TwinOf(s0, track, u).value;
        assert t in s0.units && s0.units[t].track == track && t !in done;
      }
    }
  }

  lemma PlacesInWords(s0: Shelf, s: Shelf, done: set<nat>, track: nat, h: Homes)
    requires PlacesKept(s0, s, done, track) && forall u :: h(u) == Home(s0, done, track, u)
    ensures PlacesFollow(s0.marks, s.marks, h)
  {
    hide Home, Marked;
    forall u, place ensures Comes(s0, done, track, u, place) <==> Brought(s0.marks, h, u, place) {
      if Comes(s0, done, track, u, place) {
        var v: nat :| Home(s0, done, track, v) == u && Marked(s0.marks, v, place);
        assert h(v) == u;
      }
      if Brought(s0.marks, h, u, place) {
        var v: nat :| h(v) == u && Marked(s0.marks, v, place);
        assert Home(s0, done, track, v) == u;
      }
    }
  }

  lemma ProgressInWords(s0: Shelf, s: Shelf, done: set<nat>, track: nat, h: Homes)
    requires ProgressGrows(s0, s, done, track) && forall u :: h(u) == Home(s0, done, track, u)
    ensures ProgressFollows(s0.states, s.states, h)
  {
    hide Home, Grows;
    assert HomesOf(s0.states, h) == ProgressHomes(s0, done, track);
  }

  lemma CorrectionsInWords(s0: Shelf, s: Shelf, done: set<nat>, track: nat, h: Homes)
    requires CorrectionsKept(s0, s, done, track) && forall u :: h(u) == Home(s0, done, track, u)
    ensures CorrectionsFollow(s0.overrides, s.overrides, h)
  {
    hide Home;
    forall u, f | (u, f) in s.overrides ensures CorrectedFrom(s0.overrides, s.overrides[(u, f)], h, u, f) {
      if (u, f) !in s0.overrides {
        var v: nat :| Home(s0, done, track, v) == u && (v, f) in s0.overrides
                      && s.overrides[(u, f)] == s0.overrides[(v, f)];
        assert h(v) == u;
      }
    }
  }

  // ---- One merge after another -------------------------------------------------------------------

  function Onward(h: Homes, g: Homes): Homes {
    (u: nat) => g(h(u))
  }

  /** What two merges conserve, one after the other, they conserve together. */
  lemma ConservedThrough(a: Shelf, b: Shelf, c: Shelf, h: Homes, g: Homes)
    requires Conserved(a, b, h) && Conserved(b, c, g)
    ensures Conserved(a, c, Onward(h, g))
  {
    hide FilesFollow, RowsFollow, PlacesFollow, ProgressFollows, CorrectionsFollow;
    FilesThrough(a.assets, b.assets, c.assets, h, g);
    RowsThrough(a.rows, b.rows, c.rows, h, g);
    PlacesThrough(a.marks, b.marks, c.marks, h, g);
    ProgressThrough(a.states, b.states, c.states, h, g);
    LandsWhereKept(a, b, c, h, g);
    CorrectionsThrough(a.overrides, b.overrides, c.overrides, h, g);
  }

  /** What a second merge brings to a unit is its own, or comes to a unit the first merge kept. */
  lemma LandsWhereKept(a: Shelf, b: Shelf, c: Shelf, h: Homes, g: Homes)
    requires UnitsFollow(a, b, h) && UnitsFollow(b, c, g)
    ensures forall u, v :: g(v) == u && u != v ==> h(u) == u
    ensures UnitsFollow(a, c, Onward(h, g))
  {
    forall u, v | g(v) == u && u != v ensures h(u) == u {
      assert u in c.units;
    }
    forall u ensures Onward(h, g)(u) == u || Onward(h, g)(u) in c.units {
      assert h(u) == u || h(u) in b.units;
    }
  }

  lemma FilesThrough(a: map<nat, Asset>, b: map<nat, Asset>, c: map<nat, Asset>, h: Homes, g: Homes)
    requires FilesFollow(a, b, h) && FilesFollow(b, c, g)
    ensures FilesFollow(a, c, Onward(h, g))
  {
  }

  lemma RowsThrough(
    a: map<(string, nat), nat>, b: map<(string, nat), nat>, c: map<(string, nat), nat>, h: Homes, g: Homes)
    requires RowsFollow(a, b, h) && RowsFollow(b, c, g)
    ensures RowsFollow(a, c, Onward(h, g))
  {
  }

  lemma PlacesThrough(a: map<nat, Mark>, b: map<nat, Mark>, c: map<nat, Mark>, h: Homes, g: Homes)
    requires PlacesFollow(a, b, h) && PlacesFollow(b, c, g)
    ensures PlacesFollow(a, c, Onward(h, g))
  {
    hide Marked, Brought, Onward;
    forall u, place ensures Marked(c, u, place) <==> Brought(a, Onward(h, g), u, place) {
      BroughtTwice(a, b, h, g, u, place);
    }
  }

  lemma BroughtTwice(a: map<nat, Mark>, b: map<nat, Mark>, h: Homes, g: Homes, u: nat, place: string)
    requires PlacesFollow(a, b, h)
    ensures Brought(b, g, u, place) <==> Brought(a, Onward(h, g), u, place)
  {
    if Brought(b, g, u, place) {
      BroughtOnward(a, b, h, g, u, place);
    }
    if Brought(a, Onward(h, g), u, place) {
      BroughtBefore(a, b, h, g, u, place);
    }
  }

  lemma BroughtOnward(a: map<nat, Mark>, b: map<nat, Mark>, h: Homes, g: Homes, u: nat, place: string)
    requires PlacesFollow(a, b, h) && Brought(b, g, u, place)
    ensures Brought(a, Onward(h, g), u, place)
  {
    hide Marked;
    var w: nat :| g(w) == u && Marked(b, w, place);
    assert Brought(a, h, w, place);
    var v: nat :| h(v) == w && Marked(a, v, place);
    assert Onward(h, g)(v) == u;
  }

  lemma BroughtBefore(a: map<nat, Mark>, b: map<nat, Mark>, h: Homes, g: Homes, u: nat, place: string)
    requires PlacesFollow(a, b, h) && Brought(a, Onward(h, g), u, place)
    ensures Brought(b, g, u, place)
  {
    hide Marked;
    var v: nat :| Onward(h, g)(v) == u && Marked(a, v, place);
    assert Brought(a, h, h(v), place);
    assert g(h(v)) == u && Marked(b, h(v), place);
  }

  lemma ProgressThrough(a: map<nat, Reading>, b: map<nat, Reading>, c: map<nat, Reading>, h: Homes, g: Homes)
    requires ProgressFollows(a, b, h) && ProgressFollows(b, c, g)
    ensures ProgressFollows(a, c, Onward(h, g))
  {
    hide NoneShrinks, NoneInvented, Onward;
    ShrinksThrough(a, b, c, HomesOf(a, h), HomesOf(b, g), HomesOf(a, Onward(h, g))) by { HomesOnward(a, b, h, g); }
    InventsThrough(a, b, c, HomesOf(a, h), HomesOf(b, g), HomesOf(a, Onward(h, g))) by { HomesOnward(a, b, h, g); }
  }

  lemma HomesOnward(a: map<nat, Reading>, b: map<nat, Reading>, h: Homes, g: Homes)
    requires NoneShrinks(a, b, HomesOf(a, h))
    ensures Joined(HomesOf(a, h), HomesOf(b, g), HomesOf(a, Onward(h, g)))
  {
  }

  /** `both` leads where `second` leads from where `first` led. */
  predicate Joined(first: map<nat, nat>, second: map<nat, nat>, both: map<nat, nat>) {
    both.Keys == first.Keys && forall v :: v in first ==> first[v] in second && both[v] == second[first[v]]
  }

  lemma ShrinksThrough(
    a: map<nat, Reading>, b: map<nat, Reading>, c: map<nat, Reading>, first: map<nat, nat>, second: map<nat, nat>,
    both: map<nat, nat>)
    requires first.Keys == a.Keys && second.Keys == b.Keys && Joined(first, second, both)
    requires NoneShrinks(a, b, first) && NoneShrinks(b, c, second)
    ensures NoneShrinks(a, c, both)
  {
    hide AtLeast;
    forall v | v in a ensures both[v] in c && AtLeast(c[both[v]], a[v]) {
      AtLeastChain(c[both[v]], b[first[v]], a[v]);
    }
  }

  lemma InventsThrough(
    a: map<nat, Reading>, b: map<nat, Reading>, c: map<nat, Reading>, first: map<nat, nat>, second: map<nat, nat>,
    both: map<nat, nat>)
    requires first.Keys == a.Keys && second.Keys == b.Keys && Joined(first, second, both)
    requires NoneInvented(a, b, first) && NoneInvented(b, c, second)
    ensures NoneInvented(a, c, both)
  {
    hide SameProgress;
    forall u | u in c ensures exists v :: v in a && both[v] == u && SameProgress(c[u], a[v]) {
      var w :| w in b && second[w] == u && SameProgress(c[u], b[w]);
      var v :| v in a && first[v] == w && SameProgress(b[w], a[v]);
      SameProgressChain(c[u], b[w], a[v]);
      assert both[v] == u;
    }
  }

  lemma CorrectionsThrough(
    a: map<(nat, string), string>, b: map<(nat, string), string>, c: map<(nat, string), string>, h: Homes, g: Homes)
    requires CorrectionsFollow(a, b, h) && CorrectionsFollow(b, c, g)
    requires forall u, v :: g(v) == u && u != v ==> h(u) == u
    ensures CorrectionsFollow(a, c, Onward(h, g))
  {
    forall v, f | (v, f) in a ensures (Onward(h, g)(v), f) in c {
      assert (h(v), f) in b;
    }
    forall u, f | (u, f) in c ensures Onward(h, g)(u) == u && CorrectedFrom(a, c[(u, f)], Onward(h, g), u, f) {
      CorrectionThrough(a, b, c, h, g, u, f);
    }
  }

  lemma CorrectionThrough(
    a: map<(nat, string), string>, b: map<(nat, string), string>, c: map<(nat, string), string>, h: Homes, g: Homes,
    u: nat, f: string)
    requires CorrectionsFollow(a, b, h) && CorrectionsFollow(b, c, g) && (u, f) in c
    requires forall v :: g(v) == u && u != v ==> h(u) == u
    ensures Onward(h, g)(u) == u && CorrectedFrom(a, c[(u, f)], Onward(h, g), u, f)
  {
    assert CorrectedFrom(b, c[(u, f)], g, u, f);
    var w: nat :| g(w) == u && (w, f) in b && c[(u, f)] == b[(w, f)] && ((u, f) in b ==> w == u) by {
      if (u, f) in b { assert g(u) == u; }
    }
    assert h(w) == w;
    assert h(u) == u;
    assert CorrectedFrom(a, b[(w, f)], h, w, f);
    if (u, f) in a {
      assert (h(u), f) in b;
    } else if (w, f) in a {
      assert Onward(h, g)(w) == u;
    } else {
      var v: nat :| h(v) == w && (v, f) in a && b[(w, f)] == a[(v, f)];
      assert Onward(h, g)(v) == u;
    }
  }

  // ---- Nothing left behind -----------------------------------------------------------------------

  /** Nothing refers to a unit whose belongings went elsewhere. */
  lemma GoneUnreferenced(s0: Shelf, s: Shelf, h: Homes, u: nat)
    requires Conserved(s0, s, h) && h(u) != u
    ensures Unreferenced(s, u)
  {
    hide AtLeast, SameProgress;
    assert forall v :: h(v) == v || h(v) in s.units;
    forall m | m in s.marks ensures s.marks[m].unit != u {
      assert Marked(s.marks, s.marks[m].unit, s.marks[m].place);
      assert Brought(s0.marks, h, s.marks[m].unit, s.marks[m].place);
    }
    forall w | w in s.states ensures w != u {
      var homes := HomesOf(s0.states, h);
      var v :| v in s0.states && homes[v] == w && SameProgress(s.states[w], s0.states[v]);
      assert h(v) == w;
    }
  }
}
