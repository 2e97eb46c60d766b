/** The trust rules of the catalog, over every run of refreshes and explicit trust decisions. */
module CatalogTrust {
  import opened Common
  import opened CatalogState

  // ---- The table invariant -----------------------------------------------------------------------

  /** Everything is older than `now`, and no two rows share a time. */
  ghost predicate Timely(snaps: Snapshots, now: nat) {
    && (forall id :: id in snaps ==> snaps[id].fetchedAt < now)
    && forall a, b :: a in snaps && b in snaps && snaps[a].fetchedAt == snaps[b].fetchedAt ==> a == b
  }

  ghost predicate Labelled(snaps: Snapshots) {
    forall id :: id in snaps ==> (snaps[id].complete <==> snaps[id].trust != Untrusted)
  }

  ghost predicate Bounded(snaps: Snapshots) {
    && |Ids(snaps, TrustedCurrent)| <= 1
    && |Ids(snaps, TrustedPrevious)| <= 1
    && |Ids(snaps, Suspicious)| <= 2
    && |IncompleteIds(snaps)| <= 3
  }

  ghost predicate Sound(snaps: Snapshots, now: nat) {
    Timely(snaps, now) && Labelled(snaps) && Bounded(snaps)
  }

  lemma AtMostOne(s: set<nat>, a: nat)
    requires |s| <= 1 && a in s
    ensures s == {a}
  {
    if s != {a} {
      var b := Member(s - {a});
      assert {a, b} <= s;
      SubsetSize({a, b}, s);
    }
  }

  lemma TheLatest(snaps: Snapshots, trust: Trust, id: nat, now: nat)
    requires Timely(snaps, now) && IsLatest(snaps, Ids(snaps, trust), id)
    ensures Latest(snaps, trust) == Some(id)
  {
  }

  /** Pruning really leaves no more than it was asked to keep, and always the newest row. */
  lemma PruneKeeps(snaps: Snapshots, ids: set<nat>, keep: nat, now: nat)
    requires Timely(snaps, now) && ids <= snaps.Keys
    ensures |ids - Doomed(snaps, ids, keep)| <= keep
    ensures keep > 0 ==> forall id :: IsLatest(snaps, ids, id) ==> id in Pruned(snaps, ids, keep)
  {
    var kept := ids - Doomed(snaps, ids, keep);
    if kept != {} {
      var oldest := Oldest(snaps, kept);
      assert |Newer(snaps, ids, oldest)| < keep;
      forall id | id in kept - {oldest} ensures id in Newer(snaps, ids, oldest) {
        assert snaps[id].fetchedAt != snaps[oldest].fetchedAt;
      }
      SubsetSize(kept - {oldest}, Newer(snaps, ids, oldest));
    }
    if keep > 0 {
      forall id | IsLatest(snaps, ids, id) ensures id in Pruned(snaps, ids, keep) {
        assert Newer(snaps, ids, id) == {};
      }
    }
  }

  lemma {:induction false} Oldest(snaps: Snapshots, ids: set<nat>) returns (id: nat)
    requires ids != {} && ids <= snaps.Keys
    ensures id in ids && forall o :: o in ids ==> snaps[id].fetchedAt <= snaps[o].fetchedAt
  {
    var x := Member(ids);
    if ids == {x} {
      id := x;
    } else {
      var y := Oldest(snaps, ids - {x});
      id := if snaps[y].fetchedAt <= snaps[x].fetchedAt then y else x;
      forall o | o in ids ensures snaps[id].fetchedAt <= snaps[o].fetchedAt {
        if o != x { assert o in ids - {x}; }
      }
    }
  }

  /** Pruning leaves exactly as many rows as asked, if there are so many. */
  lemma {:induction false} PruneExactly(snaps: Snapshots, ids: set<nat>, keep: nat, now: nat)
    requires Timely(snaps, now) && ids <= snaps.Keys
    ensures |ids - Doomed(snaps, ids, keep)| == Min(keep, |ids|)
    decreases |ids|
  {
    hide Doomed, Timely;
    if |ids| <= keep {
      FewStay(snaps, ids, keep);
      assert ids - {} == ids;
    } else {
      var oldest := Oldest(snaps, ids);
      var rest := ids - {oldest};
      OldestGoes(snaps, ids, oldest, keep, now);
      PruneExactly(snaps, rest, keep, now);
      assert ids - Doomed(snaps, ids, keep) == rest - Doomed(snaps, rest, keep);
    }
  }

  lemma FewStay(snaps: Snapshots, ids: set<nat>, keep: nat)
    requires ids <= snaps.Keys && |ids| <= keep
    ensures Doomed(snaps, ids, keep) == {}
  {
    forall x | x in ids ensures x !in Doomed(snaps, ids, keep) {
      SubsetSize(Newer(snaps, ids, x), ids - {x});
    }
  }

  /** What pruning leaves is newer than all it deletes. */
  lemma PruneKeepsNewer(snaps: Snapshots, ids: set<nat>, keep: nat, now: nat, x: nat, y: nat)
    requires Timely(snaps, now) && ids <= snaps.Keys
    requires x in ids - Doomed(snaps, ids, keep) && y in Doomed(snaps, ids, keep)
    ensures snaps[y].fetchedAt < snaps[x].fetchedAt
  {
    if snaps[y].fetchedAt >= snaps[x].fetchedAt {
      SubsetSize(Newer(snaps, ids, y), Newer(snaps, ids, x));
    }
  }

  lemma OldestGoes(snaps: Snapshots, ids: set<nat>, oldest: nat, keep: nat, now: nat)
    requires Timely(snaps, now) && ids <= snaps.Keys && |ids| > keep
    requires oldest in ids && forall o :: o in ids ==> snaps[oldest].fetchedAt <= snaps[o].fetchedAt
    ensures Doomed(snaps, ids, keep) == Doomed(snaps, ids - {oldest}, keep) + {oldest}
  {
    assert Newer(snaps, ids, oldest) == ids - {oldest};
    forall x | x in ids - {oldest} ensures Newer(snaps, ids, x) == Newer(snaps, ids - {oldest}, x) {
    }
  }

  // ---- Each table change keeps it ----------------------------------------------------------------

  lemma SubtableSound(snaps: Snapshots, gone: set<nat>, now: nat)
    requires Sound(snaps, now)
    ensures Sound(snaps - gone, now)
  {
    var s := snaps - gone;
    SubsetSize(Ids(s, TrustedCurrent), Ids(snaps, TrustedCurrent));
    SubsetSize(Ids(s, TrustedPrevious), Ids(snaps, TrustedPrevious));
    SubsetSize(Ids(s, Suspicious), Ids(snaps, Suspicious));
    SubsetSize(IncompleteIds(s), IncompleteIds(snaps));
  }

  lemma RelabelledIds(a: Snapshots)
    requires Ids(a, TrustedPrevious) == {}
    ensures var b := Relabelled(a, TrustedCurrent, TrustedPrevious);
            && Ids(b, TrustedPrevious) == Ids(a, TrustedCurrent) && Ids(b, TrustedCurrent) == {}
            && Ids(b, Suspicious) == Ids(a, Suspicious) && IncompleteIds(b) == IncompleteIds(a)
  {
    var b := Relabelled(a, TrustedCurrent, TrustedPrevious);
    assert forall o :: o in b <==> o in a;
    forall o | o in a ensures a[o].trust != TrustedPrevious {
      assert o !in Ids(a, TrustedPrevious);
    }
    assert forall o :: o in a && a[o].trust == TrustedCurrent ==> b[o].trust == TrustedPrevious;
  }

  /** The rows a promotion leaves: one current, the old current as previous, no candidate. */
  lemma PromotedRows(snaps: Snapshots, id: nat)
    requires Bounded(snaps)
    ensures var p := PromotedSnaps(snaps, id);
            && Ids(p, TrustedCurrent) == (if id in snaps && id !in Ids(snaps, TrustedPrevious) then {id} else {})
            && Ids(p, TrustedPrevious) == Ids(snaps, TrustedCurrent) - {id}
            && Ids(p, Suspicious) == {}
            && p.Keys == snaps.Keys - Ids(snaps, TrustedPrevious) - (Ids(snaps, Suspicious) - {id})
  {
    var previous := Latest(snaps, TrustedPrevious);
    if previous.Some? {
      AtMostOne(Ids(snaps, TrustedPrevious), previous.value);
    }
    var a := if previous.Some? then snaps - {previous.value} else snaps;
    assert a.Keys == snaps.Keys - Ids(snaps, TrustedPrevious);
    RelabelledIds(a);
    var b := Relabelled(a, TrustedCurrent, TrustedPrevious);
    assert b.Keys == a.Keys;
    assert Ids(a, TrustedCurrent) == Ids(snaps, TrustedCurrent);
    assert Ids(a, Suspicious) == Ids(snaps, Suspicious);
    MarkedRows(b, id);
  }

  /** Marking one row as the current one, and clearing the candidates. */
  lemma MarkedRows(b: Snapshots, id: nat)
    requires Ids(b, TrustedCurrent) == {}
    ensures var m := Marked(b, id, TrustedCurrent);
            var p := m - Ids(m, Suspicious);
            && Ids(p, TrustedCurrent) == (if id in b then {id} else {})
            && Ids(p, TrustedPrevious) == Ids(b, TrustedPrevious) - {id}
            && Ids(p, Suspicious) == {}
            && p.Keys == b.Keys - (Ids(b, Suspicious) - {id})
  {
    assert forall o :: o in b ==> b[o].trust != TrustedCurrent by {
      forall o | o in b ensures b[o].trust != TrustedCurrent {
        assert o !in Ids(b, TrustedCurrent);
      }
    }
  }

  /** A promotion changes nothing but labels. */
  lemma PromotedContents(snaps: Snapshots, id: nat)
    ensures forall o :: o in PromotedSnaps(snaps, id) ==>
              && o in snaps && PromotedSnaps(snaps, id)[o] == snaps[o].(trust := PromotedSnaps(snaps, id)[o].trust)
              && (o != id ==> (PromotedSnaps(snaps, id)[o].trust == Untrusted <==> snaps[o].trust == Untrusted))
  {
  }

  lemma PromoteSound(snaps: Snapshots, id: nat, now: nat)
    requires Timely(snaps, now) && Bounded(snaps) && id in snaps && snaps[id].complete
    requires forall o :: o in snaps && o != id ==> (snaps[o].complete <==> snaps[o].trust != Untrusted)
    ensures Sound(PromotedSnaps(snaps, id), now)
  {
    PromotedRows(snaps, id);
    PromotedContents(snaps, id);
    var p := PromotedSnaps(snaps, id);
    SubsetSize(Ids(p, TrustedPrevious), Ids(snaps, TrustedCurrent));
    SubsetSize(IncompleteIds(p), IncompleteIds(snaps));
    assert id in p ==> id in Ids(p, TrustedCurrent);
  }

  // ---- One operation -----------------------------------------------------------------------------

  lemma AddedIds(snaps: Snapshots, id: nat, row: Snapshot, trust: Trust)
    requires id !in snaps
    ensures Ids(snaps[id := row], trust) == Ids(snaps, trust) + if row.trust == trust then {id} else {}
    ensures IncompleteIds(snaps[id := row]) == IncompleteIds(snaps) + if row.complete then {} else {id}
  {
  }

  lemma AddedTimely(snaps: Snapshots, id: nat, row: Snapshot, now: nat)
    requires Timely(snaps, now) && id !in snaps && row.fetchedAt == now
    ensures Timely(snaps[id := row], now + 1)
  {
  }

  /** A new complete row leaves every bound but that on candidates as it was. */
  lemma AddedComplete(snaps: Snapshots, id: nat, row: Snapshot, now: nat)
    requires Timely(snaps, now) && Labelled(snaps) && id !in snaps
    requires row.fetchedAt == now && row.complete && (row.trust == Untrusted || row.trust == Suspicious)
    ensures var m := snaps[id := row];
            && Timely(m, now + 1)
            && (forall o :: o in m && o != id ==> (m[o].complete <==> m[o].trust != Untrusted))
            && Ids(m, TrustedCurrent) == Ids(snaps, TrustedCurrent)
            && Ids(m, TrustedPrevious) == Ids(snaps, TrustedPrevious)
            && IncompleteIds(m) == IncompleteIds(snaps)
            && Ids(m, Suspicious) == Ids(snaps, Suspicious) + if row.trust == Suspicious then {id} else {}
  {
    AddedTimely(snaps, id, row, now);
    AddedIds(snaps, id, row, Suspicious);
    AddedIds(snaps, id, row, TrustedCurrent);
    AddedIds(snaps, id, row, TrustedPrevious);
  }

  /** A new row that carries no label hides no labelled one. */
  lemma InsertedLatest(snaps: Snapshots, id: nat, complete: bool, listed: seq<Listed>, now: nat, trust: Trust)
    requires Timely(snaps, now) && id !in snaps && trust != Untrusted
    ensures var s := Inserted(snaps, id, complete, listed, now);
            Ids(s, trust) == Ids(snaps, trust) && Latest(s, trust) == Latest(snaps, trust)
  {
    var s := Inserted(snaps, id, complete, listed, now);
    AddedIds(snaps, id, s[id], trust);
    if Latest(s, trust).Some? {
      var l := Latest(s, trust).value;
      assert IsLatest(snaps, Ids(snaps, trust), l);
      TheLatest(snaps, trust, l, now);
    }
  }

  lemma PrunedIds(snaps: Snapshots, ids: set<nat>, keep: nat, trust: Trust)
    requires ids <= snaps.Keys
    ensures Ids(Pruned(snaps, ids, keep), trust) == Ids(snaps, trust) - Doomed(snaps, ids, keep)
    ensures IncompleteIds(Pruned(snaps, ids, keep)) == IncompleteIds(snaps) - Doomed(snaps, ids, keep)
  {
  }

  lemma IncompleteRefreshSound(snaps: Snapshots, id: nat, listed: seq<Listed>, now: nat)
    requires Sound(snaps, now) && id !in snaps
    ensures var s := Inserted(snaps, id, false, listed, now);
            Sound(Pruned(s, IncompleteIds(s), MAX_INCOMPLETE), now + 1)
  {
    hide Timely, Labelled, Pruned, Ids, IncompleteIds;
    var s := Inserted(snaps, id, false, listed, now);
    AddedTimely(snaps, id, s[id], now);
    AddedLabelled(snaps, id, s[id]);
    AddedIds(snaps, id, s[id], TrustedCurrent);
    AddedIds(snaps, id, s[id], TrustedPrevious);
    AddedIds(snaps, id, s[id], Suspicious);
    IncompletePruned(s, now);
  }

  lemma AddedLabelled(snaps: Snapshots, id: nat, row: Snapshot)
    requires Labelled(snaps) && (row.complete <==> row.trust != Untrusted)
    ensures Labelled(snaps[id := row])
  {
  }

  lemma IncompletePruned(s: Snapshots, now: nat)
    requires Timely(s, now + 1) && Labelled(s)
    requires |Ids(s, TrustedCurrent)| <= 1 && |Ids(s, TrustedPrevious)| <= 1 && |Ids(s, Suspicious)| <= MAX_CANDIDATES
    ensures Sound(Pruned(s, IncompleteIds(s), MAX_INCOMPLETE), now + 1)
  {
    hide Timely, Labelled, Pruned, Doomed, Ids, IncompleteIds;
    var ids := IncompleteIds(s);
    IdsOfRows(s);
    SubtableRules(s, Doomed(s, ids, MAX_INCOMPLETE), now + 1);
    PrunedBy(s, ids, MAX_INCOMPLETE);
    PruneKeeps(s, ids, MAX_INCOMPLETE, now + 1);
    PrunedIds(s, ids, MAX_INCOMPLETE, TrustedCurrent);
    LabelledStay(s, MAX_INCOMPLETE, TrustedCurrent);
    LabelledStay(s, MAX_INCOMPLETE, TrustedPrevious);
    LabelledStay(s, MAX_INCOMPLETE, Suspicious);
  }

  lemma PrunedBy(snaps: Snapshots, ids: set<nat>, keep: nat)
    requires ids <= snaps.Keys
    ensures Pruned(snaps, ids, keep) == snaps - Doomed(snaps, ids, keep)
  {
  }

  lemma SubtableRules(snaps: Snapshots, gone: set<nat>, now: nat)
    requires Timely(snaps, now) && Labelled(snaps)
    ensures Timely(snaps - gone, now) && Labelled(snaps - gone)
  {
  }

  lemma IdsOfRows(snaps: Snapshots)
    ensures IncompleteIds(snaps) <= snaps.Keys && Ids(snaps, Suspicious) <= snaps.Keys
  {
  }

  /** Pruning incomplete rows removes no labelled one. */
  lemma LabelledStay(s: Snapshots, keep: nat, trust: Trust)
    requires Labelled(s) && trust != Untrusted
    ensures Ids(Pruned(s, IncompleteIds(s), keep), trust) == Ids(s, trust)
  {
    PrunedIds(s, IncompleteIds(s), keep, trust);
  }

  /** Pruning candidates removes no other row. */
  lemma OthersStay(s: Snapshots, keep: nat, trust: Trust)
    requires Labelled(s) && trust != Suspicious
    ensures Ids(Pruned(s, Ids(s, Suspicious), keep), trust) == Ids(s, trust)
    ensures IncompleteIds(Pruned(s, Ids(s, Suspicious), keep)) == IncompleteIds(s)
  {
    PrunedIds(s, Ids(s, Suspicious), keep, trust);
  }

  /** An incomplete answer touches no labelled row. */
  lemma IncompleteRefreshKeeps(snaps: Snapshots, id: nat, listed: seq<Listed>, now: nat, trust: Trust)
    requires Labelled(snaps) && id !in snaps && trust != Untrusted
    ensures var s := Inserted(snaps, id, false, listed, now);
            var p := Pruned(s, IncompleteIds(s), MAX_INCOMPLETE);
            Ids(p, trust) == Ids(snaps, trust) && forall o :: o in Ids(snaps, trust) ==> p[o] == snaps[o]
  {
    var s := Inserted(snaps, id, false, listed, now);
    AddedIds(snaps, id, s[id], trust);
    PrunedIds(s, IncompleteIds(s), MAX_INCOMPLETE, trust);
    assert forall o :: o in Ids(snaps, trust) ==> s[o] == snaps[o] && o !in IncompleteIds(s);
  }

  ghost function SuspectedSnaps(snaps: Snapshots, id: nat, listed: seq<Listed>, now: nat): Snapshots {
    var m := Marked(Inserted(snaps, id, true, listed, now), id, Suspicious);
    Pruned(m, Ids(m, Suspicious), MAX_CANDIDATES)
  }

  lemma SuspectedSound(snaps: Snapshots, id: nat, listed: seq<Listed>, now: nat)
    requires Sound(snaps, now) && id !in snaps
    ensures var p := SuspectedSnaps(snaps, id, listed, now);
            && Sound(p, now + 1)
            && Ids(p, TrustedCurrent) == Ids(snaps, TrustedCurrent)
            && Latest(p, Suspicious) == Some(id) && p[id].units == Stored(listed)
  {
    var m := snaps[id := Snapshot(true, Suspicious, Stored(listed), now)];
    SuspectedRow(snaps, id, listed, now);
    SuspectedPruned(m, id, now);
    hide Sound, Stored, Pruned, Inserted, Marked, Ids, IncompleteIds, Latest, Timely, Labelled;
  }

  lemma SuspectedRow(snaps: Snapshots, id: nat, listed: seq<Listed>, now: nat)
    requires Sound(snaps, now) && id !in snaps
    ensures var m := snaps[id := Snapshot(true, Suspicious, Stored(listed), now)];
            && Marked(Inserted(snaps, id, true, listed, now), id, Suspicious) == m
            && Timely(m, now + 1) && Labelled(m)
            && |Ids(m, TrustedCurrent)| <= 1 && |Ids(m, TrustedPrevious)| <= 1 && |IncompleteIds(m)| <= 3
            && Ids(m, TrustedCurrent) == Ids(snaps, TrustedCurrent)
  {
    AddedComplete(snaps, id, Snapshot(true, Suspicious, Stored(listed), now), now);
    MarkedRow(snaps, id, listed, now);
    hide Stored, Inserted, Marked, Timely, Ids, IncompleteIds;
  }

  lemma MarkedRow(snaps: Snapshots, id: nat, listed: seq<Listed>, now: nat)
    requires id !in snaps
    ensures Marked(Inserted(snaps, id, true, listed, now), id, Suspicious)
            == snaps[id := Snapshot(true, Suspicious, Stored(listed), now)]
  {
    hide Stored;
  }

  lemma SuspectedPruned(m: Snapshots, id: nat, now: nat)
    requires Timely(m, now + 1) && Labelled(m) && id in m && m[id].fetchedAt == now && m[id].trust == Suspicious
    requires |Ids(m, TrustedCurrent)| <= 1 && |Ids(m, TrustedPrevious)| <= 1 && |IncompleteIds(m)| <= MAX_INCOMPLETE
    ensures var p := Pruned(m, Ids(m, Suspicious), MAX_CANDIDATES);
            && Sound(p, now + 1) && Latest(p, Suspicious) == Some(id) && p[id] == m[id]
            && Ids(p, TrustedCurrent) == Ids(m, TrustedCurrent)
  {
    hide Timely, Labelled, Pruned, Doomed, Ids, IncompleteIds, Latest;
    var ids := Ids(m, Suspicious);
    IdsOfRows(m);
    SubtableRules(m, Doomed(m, ids, MAX_CANDIDATES), now + 1);
    PrunedBy(m, ids, MAX_CANDIDATES);
    PruneKeeps(m, ids, MAX_CANDIDATES, now + 1);
    PrunedIds(m, ids, MAX_CANDIDATES, Suspicious);
    OthersStay(m, MAX_CANDIDATES, TrustedCurrent);
    OthersStay(m, MAX_CANDIDATES, TrustedPrevious);
    NewestCandidateStays(m, id, now);
  }

  lemma NewestCandidateStays(m: Snapshots, id: nat, now: nat)
    requires Timely(m, now + 1) && id in m && m[id].fetchedAt == now && m[id].trust == Suspicious
    ensures var p := Pruned(m, Ids(m, Suspicious), MAX_CANDIDATES);
            Latest(p, Suspicious) == Some(id) && p[id] == m[id]
  {
    var ids := Ids(m, Suspicious);
    var p := Pruned(m, ids, MAX_CANDIDATES);
    PruneKeeps(m, ids, MAX_CANDIDATES, now + 1);
    assert IsLatest(m, ids, id);
    assert IsLatest(p, Ids(p, Suspicious), id);
    TheLatest(p, Suspicious, id, now + 1);
  }

  /** The same catalog again: nothing is added, the current row is as new as the check, no candidate stays. */
  lemma UnchangedSound(snaps: Snapshots, id: nat, listed: seq<Listed>, c: nat, now: nat)
    requires Sound(snaps, now) && id !in snaps && c in Ids(snaps, TrustedCurrent)
    ensures var s := Inserted(snaps, id, true, listed, now);
            var kept := (s - {id})[c := s[c].(fetchedAt := now)];
            && kept == snaps[c := snaps[c].(fetchedAt := now)]
            && Sound(kept - Ids(kept, Suspicious), now + 1)
            && Ids(kept - Ids(kept, Suspicious), TrustedCurrent) == {c}
            && Ids(kept - Ids(kept, Suspicious), Suspicious) == {}
  {
    var kept := snaps[c := snaps[c].(fetchedAt := now)];
    AtMostOne(Ids(snaps, TrustedCurrent), c);
    assert Timely(kept, now + 1);
    assert Ids(kept, TrustedCurrent) == Ids(snaps, TrustedCurrent);
    assert Ids(kept, TrustedPrevious) == Ids(snaps, TrustedPrevious);
    assert Ids(kept, Suspicious) == Ids(snaps, Suspicious);
    assert IncompleteIds(kept) == IncompleteIds(snaps);
    SubtableSound(kept, Ids(kept, Suspicious), now + 1);
  }

  lemma InsertedPromoteSound(snaps: Snapshots, id: nat, listed: seq<Listed>, now: nat)
    requires Sound(snaps, now) && id !in snaps
    ensures var p := PromotedSnaps(Inserted(snaps, id, true, listed, now), id);
            && Sound(p, now + 1)
            && Ids(p, TrustedCurrent) == {id} && Ids(p, Suspicious) == {}
            && id in p && p[id].units == Stored(listed)
  {
    var s := Inserted(snaps, id, true, listed, now);
    AddedComplete(snaps, id, s[id], now);
    assert Bounded(s);
    PromoteSound(s, id, now + 1);
    PromotedRows(s, id);
    PromotedContents(s, id);
    assert id in Ids(PromotedSnaps(s, id), TrustedCurrent);
  }

  /** Whatever a source answers, a refresh keeps the table within its rules. */
  lemma RefreshSound(
    t: Track, overrides: Overrides, complete: bool, listed: seq<Listed>, id: nat, firstId: nat, now: nat)
    requires Sound(t.snaps, now) && id !in t.snaps
    ensures Sound(Refreshed(t, overrides, complete, listed, id, firstId, now).1.snaps, now + 1)
  {
    if !complete {
      IncompleteRefreshSound(t.snaps, id, listed, now);
    } else {
      CompleteRefreshSound(t, overrides, listed, id, firstId, now);
    }
  }

  lemma CompleteRefreshSound(t: Track, overrides: Overrides, listed: seq<Listed>, id: nat, firstId: nat, now: nat)
    requires Sound(t.snaps, now) && id !in t.snaps
    ensures Sound(Refreshed(t, overrides, true, listed, id, firstId, now).1.snaps, now + 1)
  {
    var (answer, t') := Refreshed(t, overrides, true, listed, id, firstId, now);
    if answer.verdict == Unchanged {
      InsertedLatest(t.snaps, id, true, listed, now, TrustedCurrent);
      UnchangedSound(t.snaps, id, listed, Latest(t.snaps, TrustedCurrent).value, now);
    } else if answer.verdict == Suspected {
      assert t'.snaps == SuspectedSnaps(t.snaps, id, listed, now);
      SuspectedSound(t.snaps, id, listed, now);
    } else {
      InsertedPromoteSound(t.snaps, id, listed, now);
    }
  }

  lemma TrustChosenSound(t: Track, overrides: Overrides, id: nat, firstId: nat, now: nat)
    requires Sound(t.snaps, now)
    ensures Sound(TrustChosen(t, overrides, id, firstId, now).1.snaps, now + 1)
  {
    assert Timely(t.snaps, now + 1);
    if id in t.snaps && t.snaps[id].complete {
      PromoteSound(t.snaps, id, now + 1);
    }
  }

  /**
   Trusting a snapshot leaves a current catalog exactly when the snapshot was not the previous one: that
   row is deleted before it could be relabelled, and the old current becomes the previous.
   */
  lemma TrustLeavesCurrentIff(t: Track, overrides: Overrides, id: nat, firstId: nat, now: nat)
    requires Sound(t.snaps, now) && id in t.snaps && t.snaps[id].complete
    ensures var (answer, t') := TrustChosen(t, overrides, id, firstId, now);
            && answer.TrustedNow?
            && (Latest(t'.snaps, TrustedCurrent).Some? <==> t.snaps[id].trust != TrustedPrevious)
            && (t.snaps[id].trust != TrustedPrevious ==> CurrentKeys(t'.snaps) == Some(Keys(t.snaps[id].units)))
  {
    PromotedRows(t.snaps, id);
    PromotedContents(t.snaps, id);
  }

  /** An incomplete answer changes neither the labelled rows nor any reading unit. */
  lemma IncompleteChangesNothingTrusted(
    t: Track, overrides: Overrides, listed: seq<Listed>, id: nat, firstId: nat, now: nat, trust: Trust)
    requires Sound(t.snaps, now) && id !in t.snaps && trust != Untrusted
    ensures var (answer, t') := Refreshed(t, overrides, false, listed, id, firstId, now);
            && answer.verdict == Incomplete && t'.units == t.units
            && Ids(t'.snaps, trust) == Ids(t.snaps, trust)
            && forall o :: o in Ids(t.snaps, trust) ==> t'.snaps[o] == t.snaps[o]
  {
    IncompleteRefreshKeeps(t.snaps, id, listed, now, trust);
  }
}
