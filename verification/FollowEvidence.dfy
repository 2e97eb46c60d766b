/** What stands behind a reported release, and what undoing or re-pointing a follow makes of the next reports. */
module FollowEvidence {
  import opened Common
  import opened CatalogState
  import opened CatalogTrust
  import opened CatalogRuns
  import opened CatalogHistory
  import opened CatalogUnits
  import opened FollowState
  import opened FollowRuns

  // ---- The catalog part of a history -------------------------------------------------------------

  function CatalogOps(steps: seq<Step>): seq<Op> {
    if steps == [] then []
    else
      var s := steps[|steps| - 1];
      CatalogOps(steps[..|steps| - 1]) + if s.OnCatalog? then [s.op] else []
  }

  lemma {:induction false} CatalogPart(track: string, steps: seq<Step>)
    ensures Run(NOTHING, track, steps).lib == After(CatalogOps(steps))
  {
    if steps != [] {
      hide Do, Act;
      var k := |steps| - 1;
      CatalogPart(track, steps[..k]);
      var ops := CatalogOps(steps[..k]);
      if steps[k].OnCatalog? {
        assert (ops + [steps[k].op])[..|ops|] == ops;
      } else {
        assert ops + [] == ops;
      }
    }
  }

  /** Every unit of the current trusted catalog has a reading unit, in every history. */
  lemma {:induction false} CurrentHasUnits(ops: seq<Op>)
    ensures var lib := After(ops);
            CurrentKeys(lib.track.snaps).Some? ==> CurrentKeys(lib.track.snaps).value <= lib.track.units.Keys
  {
    if ops == [] {
      assert Ids(EMPTY.track.snaps, TrustedCurrent) == {};
    } else {
      hide CurrentKeys, Do;
      var k := |ops| - 1;
      AlwaysGood(ops[..k]);
      CurrentHasUnits(ops[..k]);
      DoHasUnits(After(ops[..k]), ops[k]);
    }
  }

  lemma DoHasUnits(lib: Lib, op: Op)
    requires Good(lib)
    requires CurrentKeys(lib.track.snaps).Some? ==> CurrentKeys(lib.track.snaps).value <= lib.track.units.Keys
    ensures var lib' := Do(lib, op).1;
            CurrentKeys(lib'.track.snaps).Some? ==> CurrentKeys(lib'.track.snaps).value <= lib'.track.units.Keys
  {
    hide CurrentKeys, Refreshed, Materialized, Edited, Good, PromotedSnaps;
    DoGood(lib, op);
    if TrustsPrevious(lib, op) {
      TrustingPreviousLeavesNone(lib, op.id);
    } else {
      DoCurrent(lib, op);
      ShownHasUnits(lib, op);
    }
  }

  lemma TrustingPreviousLeavesNone(lib: Lib, id: nat)
    requires Good(lib) && TrustsPrevious(lib, TrustThis(id))
    ensures CurrentKeys(Do(lib, TrustThis(id)).1.track.snaps) == None
  {
    TrustLeavesCurrentIff(lib.track, lib.overrides, id, lib.nextId, lib.clock);
  }

  lemma ShownHasUnits(lib: Lib, op: Op)
    requires Good(lib)
    ensures var shown := ShownBy(lib, op);
            shown != [] ==> shown[0].keys <= Do(lib, op).1.track.units.Keys
  {
    hide Refreshed, Materialized, Edited, PromotedSnaps;
    match op
    case Refresh(complete, listed) =>
      RefreshUnits(lib.track, lib.overrides, complete, listed, lib.nextId, lib.nextId + 1, lib.clock);
      MaterializedIds(lib.track.units, listed, lib.overrides, lib.nextId + 1, lib.clock);
    case TrustThis(id) =>
      if id in lib.track.snaps {
        MaterializedIds(lib.track.units, lib.track.snaps[id].units, lib.overrides, lib.nextId, lib.clock);
      }
    case _ =>
  }

  // ---- Behind a report ---------------------------------------------------------------------------

  lemma NewsAreTrusted(follow: Follow, view: View, now: nat, key: string)
    requires key in NewsKeys(CheckedRow(follow, view, now).0)
    ensures !view.candidate && view.trusted.Some? && key in Elements(view.trusted.value)
  {
    var keys := NewKeys(view.trusted.value, Known(follow));
    assert NewsKeys(CheckedRow(follow, view, now).0) == keys;
    assert key in Elements(keys);
  }

  /**
   Nothing is ever reported on untrusted evidence: behind every reported key stands a complete check of the
   source that listed exactly the catalog now trusted, the last complete check is not in doubt, and the
   report points at a reading unit (an available one, unless an empty or a previous catalog was trusted).
   */
  lemma ReportsHaveEvidence(track: string, steps: seq<Step>, work: string, language: Option<string>, key: string)
    requires var w := Run(NOTHING, track, steps);
             var row := Row(w.desk.follows, work, language);
             && row.Some? && w.desk.follows[row.value].track == track
             && key in NewsKeys(Checked(w.desk, work, language, ViewOf(w.lib.track)).0)
    ensures var lib := Run(NOTHING, track, steps).lib;
            var ops := CatalogOps(steps);
            var current := CurrentKeys(lib.track.snaps);
            && Doubt(ops) == None
            && current.Some? && key in current.value && CheckedCompletely(ops, current.value)
            && key in lib.track.units
            && (NeverEmpty(Shown(ops)) && NeverTrustsPrevious(ops) ==> lib.track.units[key].availability == Available)
  {
    hide Run, CheckedRow, Doubt, Shown, After;
    var w := Run(NOTHING, track, steps);
    var ops := CatalogOps(steps);
    CatalogPart(track, steps);
    NewsAreTrusted(w.desk.follows[Row(w.desk.follows, work, language).value], ViewOf(w.lib.track), w.desk.clock, key);
    var c := Latest(w.lib.track.snaps, TrustedCurrent).value;
    KeyListKeys(w.lib.track.snaps[c].units);
    AlwaysGood(ops);
    TrustedFromCompleteChecks(ops, c);
    CandidateIsDoubt(ops);
    CurrentHasUnits(ops);
    if NeverEmpty(Shown(ops)) && NeverTrustsPrevious(ops) {
      UnitsMirrorTrust(ops, key);
    }
  }

  lemma {:induction false} NewKeysDistinct(trusted: seq<string>, known: set<string>)
    requires Distinct(trusted)
    ensures Distinct(NewKeys(trusted, known))
  {
    if trusted != [] {
      var k := |trusted| - 1;
      NewKeysDistinct(trusted[..k], known);
      var before := NewKeys(trusted[..k], known);
      assert trusted[k] !in trusted[..k];
      assert trusted[k] !in Elements(before);
      DistinctAppend(before, trusted[k]);
    }
  }

  /** One answer names each new release once. */
  lemma NewsAreDistinct(ops: seq<Op>, follow: Follow, now: nat)
    ensures Distinct(NewsKeys(CheckedRow(follow, ViewOf(After(ops).track), now).0))
  {
    hide After;
    var view := ViewOf(After(ops).track);
    if !view.candidate && view.trusted.Some? && follow.baseline.Some? {
      RowsDistinct(ops, Latest(After(ops).track.snaps, TrustedCurrent).value);
      var keys := NewKeys(view.trusted.value, Known(follow));
      NewKeysDistinct(view.trusted.value, Known(follow));
      assert NewsKeys(CheckedRow(follow, view, now).0) == keys;
    }
  }

  // ---- Answers that are not trusted --------------------------------------------------------------

  /** An incomplete answer changes nothing a follow can see. */
  lemma IncompleteInvisible(lib: Lib, listed: seq<Listed>)
    requires Good(lib)
    ensures ViewOf(Do(lib, Refresh(false, listed)).1.track) == ViewOf(lib.track)
  {
    var snaps, id, now := lib.track.snaps, lib.nextId, lib.clock;
    var s := Inserted(snaps, id, false, listed, now);
    IncompleteRefreshKeeps(snaps, id, listed, now, Suspicious);
    IncompleteRefreshKeeps(snaps, id, listed, now, TrustedCurrent);
    SameRowsSameLatest(Pruned(s, IncompleteIds(s), MAX_INCOMPLETE), snaps, Suspicious, now);
    SameRowsSameLatest(Pruned(s, IncompleteIds(s), MAX_INCOMPLETE), snaps, TrustedCurrent, now);
  }

  /** After a suspicious answer every check reports nothing and leaves baseline and events as they are. */
  lemma SuspectedSilences(lib: Lib, listed: seq<Listed>, follow: Follow, now: nat)
    requires Good(lib) && AnsweredWith(Do(lib, Refresh(true, listed)).0, Suspected)
    ensures var view := ViewOf(Do(lib, Refresh(true, listed)).1.track);
            var (answer, row) := CheckedRow(follow, view, now);
            answer == CatalogSuspicious && row.baseline == follow.baseline && row.releases == follow.releases
  {
    CompleteDoubt(lib, listed);
  }

  // ---- Undo --------------------------------------------------------------------------------------

  lemma {:induction false} WithoutLast(undo: seq<Kept>, s: Kept)
    requires forall x :: x in undo ==> x.token < s.token
    ensures Without(undo + [s], s.token) == undo && Find(undo + [s], s.token) == Some(s)
  {
    if undo != [] {
      assert (undo + [s])[1..] == undo[1..] + [s];
      WithoutLast(undo[1..], s);
    } else {
      assert undo + [s] == [s];
    }
  }

  /**
   Undoing an unfollow at once always brings the follow back, but brings the tables back exactly when the
   follow had no release events and no recorded error; and it costs the oldest undo when there were 100.
   */
  lemma UndoRestoresIff(desk: Desk, work: string, language: Option<string>)
    requires Tidy(desk) && Row(desk.follows, work, language).Some?
    ensures var f := Row(desk.follows, work, language).value;
            var (token, gone) := Unfollowed(desk, work, language);
            && token.Some?
            && var (answer, back) := Undone(gone, token.value);
            && answer == Record(f, Revived(desk.follows[f]))
            && back.follows == desk.follows[f := Revived(desk.follows[f])]
            && (back.follows == desk.follows <==> desk.follows[f].releases == [] && desk.follows[f].error == None)
            && back.undo == if |desk.undo| == 100 then desk.undo[1..] else desk.undo
  {
    hide Trimmed, Without, Find, Matching;
    var f := Row(desk.follows, work, language).value;
    UndoFinds(desk, Kept(desk.nextId, f, desk.follows[f]));
    NobodyElse(desk, f);
    var back := (desk.follows - {f})[f := Revived(desk.follows[f])];
    assert back == desk.follows[f := Revived(desk.follows[f])];
    assert back == desk.follows ==> back[f] == desk.follows[f];
  }

  lemma UndoFinds(desk: Desk, s: Kept)
    requires Tidy(desk) && s.token == desk.nextId
    ensures var undo := Trimmed(desk.undo + [s]);
            && Find(undo, s.token) == Some(s)
            && Without(undo, s.token) == if |desk.undo| == 100 then desk.undo[1..] else desk.undo
  {
    var kept := if |desk.undo| == 100 then desk.undo[1..] else desk.undo;
    assert Trimmed(desk.undo + [s]) == kept + [s];
    WithoutLast(kept, s);
  }

  lemma NobodyElse(desk: Desk, f: nat)
    requires Tidy(desk) && f in desk.follows
    ensures Matching(desk.follows - {f}, desk.follows[f].work, Some(desk.follows[f].language)) == {}
  {
    forall g | g in desk.follows - {f} ensures !SamePair(desk.follows[g], desk.follows[f]) {
      assert g != f;
    }
  }

  lemma EmptyElements<T>(s: seq<T>)
    requires Elements(s) == {}
    ensures s == []
  {
    if s != [] { ElementsLast(s); }
  }

  /** After the undo, the next check reports again every release that is still in the catalog. */
  lemma UndoReportsAgain(follow: Follow, view: View, now: nat)
    requires follow.baseline.Some? && !view.candidate && view.trusted.Some?
    ensures Elements(NewsKeys(CheckedRow(Revived(follow), view, now).0))
            == Elements(NewsKeys(CheckedRow(follow, view, now).0))
               + (Elements(ReleaseKeys(follow.releases)) * Elements(view.trusted.value) - follow.baseline.value.keys)
  {
    NewsExactly(follow, view, now);
    NewsExactly(Revived(follow), view, now);
    NoElements<string>();
    assert ReleaseKeys(Revived(follow).releases) == [];
  }

  /** A release reported before the unfollow is reported once more after the undo. */
  lemma ReportedTwice()
    ensures var follow := Follow("w", "en", "s", "t", None, None, None, Some(Baseline(FirstFollow, {"1"})), []);
            var view := View(false, Some(["1", "2"]), map[]);
            var (answer, row) := CheckedRow(follow, view, 0);
            && "2" in NewsKeys(answer)
            && "2" !in NewsKeys(CheckedRow(row, view, 1).0)
            && "2" in NewsKeys(CheckedRow(Revived(row), view, 1).0)
  {
    var follow := Follow("w", "en", "s", "t", None, None, None, Some(Baseline(FirstFollow, {"1"})), []);
    var view := View(false, Some(["1", "2"]), map[]);
    NewsExactly(follow, view, 0);
    NoElements<string>();
    assert Known(follow) == {"1"};
    assert "2" == view.trusted.value[1] && "2" in view.trusted.value;
    assert "2" in Elements(NewsKeys(CheckedRow(follow, view, 0).0));
    var row := CheckedRow(follow, view, 0).1;
    AddedKeys(follow.releases, view.units, NewKeys(view.trusted.value, Known(follow)), 0);
    NewsExactly(row, view, 1);
    UndoReportsAgain(row, view, 1);
    assert "2" in Elements(ReleaseKeys(row.releases));
    assert "2" !in Elements(NewsKeys(CheckedRow(row, view, 1).0));
    assert "2" in Elements(NewsKeys(CheckedRow(Revived(row), view, 1).0));
  }

  /** An undo works exactly while its token is kept and nobody follows that work and language again. */
  lemma UndoWorksIff(desk: Desk, token: nat)
    requires Tidy(desk)
    ensures var (answer, after) := Undone(desk, token);
            var saved := Find(desk.undo, token);
            && Find(after.undo, token) == None
            && (answer == Denied <==>
                  saved.None? || saved.value.id in desk.follows
                  || exists f :: f in desk.follows && SamePair(desk.follows[f], saved.value.follow))
            && (answer == Denied ==> after.follows == desk.follows)
  {
    WithoutKeeps(desk.undo, token);
    var saved := Find(desk.undo, token);
    if saved.Some? {
      var follow := saved.value.follow;
      var others := Matching(desk.follows, follow.work, Some(follow.language));
      if others != {} {
        var g := Member(others);
        assert SamePair(desk.follows[g], follow);
      }
      if f :| f in desk.follows && SamePair(desk.follows[f], follow) {
        assert f in others;
      }
    }
  }

  // ---- Another source ----------------------------------------------------------------------------

  /**
   Pointing a follow at another track by following again keeps the old release events, changing the
   preferred source drops them: the two report the same from then on, except that the first never reports a
   unit whose key was already reported on the old track.
   */
  lemma RefollowMasksOldKeys(desk: Desk, f: nat, offer: Offer, offers: set<Offer>, atOnce: View, later: View, now: nat)
    requires Tidy(desk) && offer in offers && Row(desk.follows, offer.work, Some(offer.language)) == Some(f)
    requires desk.follows[f].source != offer.source || desk.follows[f].track != offer.track
    ensures var again := Followed(desk, offer, offers, atOnce).1.follows[f];
            var moved := SourceChanged(desk, offer.work, Some(offer.language), offer.source, offer.track,
                                       offers, atOnce).1.follows[f];
            Elements(NewsKeys(CheckedRow(again, later, now).0))
            == Elements(NewsKeys(CheckedRow(moved, later, now).0)) - Elements(ReleaseKeys(desk.follows[f].releases))
  {
    var follow := desk.follows[f];
    var again := Followed(desk, offer, offers, atOnce).1.follows[f];
    var moved := SourceChanged(desk, offer.work, Some(offer.language), offer.source, offer.track,
                               offers, atOnce).1.follows[f];
    NewsExactly(again, later, now);
    NewsExactly(moved, later, now);
    NoElements<string>();
    assert ReleaseKeys(moved.releases) == [];
  }

  /** A new or moved follow never reports what its new track's catalog already lists. */
  lemma NewBaselineSilent(desk: Desk, offer: Offer, offers: set<Offer>, t: Track, now: nat)
    requires Tidy(desk) && offer in offers
    requires var row := Row(desk.follows, offer.work, Some(offer.language));
             row.None? || desk.follows[row.value].source != offer.source || desk.follows[row.value].track != offer.track
    ensures var (answer, after) := Followed(desk, offer, offers, ViewOf(t));
            && answer.Recorded? && answer.id in after.follows
            && NewsKeys(CheckedRow(after.follows[answer.id], ViewOf(t), now).0) == []
  {
    var (answer, after) := Followed(desk, offer, offers, ViewOf(t));
    var row := after.follows[answer.id];
    NewsExactly(row, ViewOf(t), now);
    EmptyElements(NewsKeys(CheckedRow(row, ViewOf(t), now).0));
  }
}
