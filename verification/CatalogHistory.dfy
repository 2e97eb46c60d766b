/** What a whole history of checks says about the trusted catalog and the reading units. */
module CatalogHistory {
  import opened Common
  import opened CatalogState
  import opened CatalogTrust
  import opened CatalogRuns

  // ---- Suspicion and recovery --------------------------------------------------------------------

  ghost function AnswerTo(ops: seq<Op>): Answer
    requires ops != []
  {
    Do(After(ops[..|ops| - 1]), ops[|ops| - 1]).0
  }

  ghost predicate AnsweredWith(a: Answer, verdict: Verdict) {
    a.Answered? && a.outcome.verdict == verdict
  }

  /** The keys of the last complete check, if that check was found suspicious and nothing was trusted since. */
  ghost function Doubt(ops: seq<Op>): Option<set<string>> {
    if ops == [] then None
    else
      var k := |ops| - 1;
      match ops[k]
      case Refresh(complete, listed) =>
        if !complete then Doubt(ops[..k])
        else if AnsweredWith(AnswerTo(ops), Suspected) then Some(Keys(listed)) else None
      case TrustThis(_) => if AnswerTo(ops) == Refused then Doubt(ops[..k]) else None
      case _ => Doubt(ops[..k])
  }

  /** The candidate row is exactly what the history says was last doubted. */
  ghost predicate CandidateIs(snaps: Snapshots, doubt: Option<set<string>>) {
    var c := Latest(snaps, Suspicious);
    if doubt.None? then c.None? else c.Some? && Keys(snaps[c.value].units) == doubt.value
  }

  lemma SameRowsSameLatest(a: Snapshots, b: Snapshots, trust: Trust, now: nat)
    requires Timely(b, now) && Ids(a, trust) == Ids(b, trust)
    requires forall o :: o in Ids(a, trust) ==> a[o] == b[o]
    ensures Latest(a, trust) == Latest(b, trust)
  {
    if Latest(a, trust).Some? {
      TheLatest(b, trust, Latest(a, trust).value, now);
    }
  }

  lemma RefreshDoubt(lib: Lib, complete: bool, listed: seq<Listed>, doubt: Option<set<string>>)
    requires Good(lib) && CandidateIs(lib.track.snaps, doubt)
    ensures var (answer, lib') := Do(lib, Refresh(complete, listed));
            CandidateIs(lib'.track.snaps,
                        if !complete then doubt
                        else if AnsweredWith(answer, Suspected) then Some(Keys(listed)) else None)
  {
    if complete {
      CompleteDoubt(lib, listed);
    } else {
      IncompleteDoubt(lib, listed, doubt);
    }
  }

  lemma IncompleteDoubt(lib: Lib, listed: seq<Listed>, doubt: Option<set<string>>)
    requires Good(lib) && CandidateIs(lib.track.snaps, doubt)
    ensures CandidateIs(Do(lib, Refresh(false, listed)).1.track.snaps, doubt)
  {
    var snaps, id, now := lib.track.snaps, lib.nextId, lib.clock;
    IncompleteRefreshKeeps(snaps, id, listed, now, Suspicious);
    var s := Inserted(snaps, id, false, listed, now);
    SameRowsSameLatest(Pruned(s, IncompleteIds(s), MAX_INCOMPLETE), snaps, Suspicious, now);
  }

  /** What a complete check leaves of the snapshot rows, by its verdict. */
  lemma CompleteSnaps(lib: Lib, listed: seq<Listed>)
    ensures var (answer, lib') := Do(lib, Refresh(true, listed));
            var s := Inserted(lib.track.snaps, lib.nextId, true, listed, lib.clock);
            && answer.Answered? && answer.outcome.verdict != Incomplete
            && (answer.outcome.verdict == Unchanged ==>
                  && Latest(s, TrustedCurrent).Some?
                  && var c := Latest(s, TrustedCurrent).value;
                     var kept := (s - {lib.nextId})[c := s[c].(fetchedAt := lib.clock)];
                     Keys(s[c].units) == Keys(listed) && lib'.track.snaps == kept - Ids(kept, Suspicious))
            && (answer.outcome.verdict == Suspected ==>
                  lib'.track.snaps == SuspectedSnaps(lib.track.snaps, lib.nextId, listed, lib.clock))
            && (answer.outcome.verdict == Trusted || answer.outcome.verdict == Recovered ==>
                  lib'.track.snaps == PromotedSnaps(s, lib.nextId))
  {
    hide Inserted, PromotedSnaps, Pruned, Marked, Ids, Materialized, IsSuspicious;
  }

  lemma CompleteDoubt(lib: Lib, listed: seq<Listed>)
    requires Good(lib)
    ensures var (answer, lib') := Do(lib, Refresh(true, listed));
            CandidateIs(lib'.track.snaps, if AnsweredWith(answer, Suspected) then Some(Keys(listed)) else None)
  {
    hide Do, Inserted, PromotedSnaps, SuspectedSnaps, Sound;
    var snaps, id, now := lib.track.snaps, lib.nextId, lib.clock;
    GoodSound(lib);
    CompleteSnaps(lib, listed);
    match Do(lib, Refresh(true, listed)).0.outcome.verdict
    case Unchanged =>
      InsertedLatest(snaps, id, true, listed, now, TrustedCurrent);
      UnchangedSound(snaps, id, listed, Latest(snaps, TrustedCurrent).value, now);
    case Suspected =>
      SuspectedSound(snaps, id, listed, now);
    case _ =>
      InsertedPromoteSound(snaps, id, listed, now);
  }

  lemma GoodSound(lib: Lib)
    requires Good(lib)
    ensures Sound(lib.track.snaps, lib.clock) && Timely(lib.track.snaps, lib.clock) && lib.nextId !in lib.track.snaps
  {
  }

  lemma {:induction false} CandidateIsDoubt(ops: seq<Op>)
    ensures CandidateIs(After(ops).track.snaps, Doubt(ops))
  {
    if ops == [] {
      assert Ids(EMPTY.track.snaps, Suspicious) == {};
    } else {
      hide Refreshed, TrustChosen, Edited;
      var k := |ops| - 1;
      var lib := After(ops[..k]);
      CandidateIsDoubt(ops[..k]);
      AlwaysGood(ops[..k]);
      match ops[k]
      case Refresh(complete, listed) =>
        RefreshDoubt(lib, complete, listed, Doubt(ops[..k]));
      case TrustThis(id) =>
        TrustDoubt(lib, id);
      case Edit(key, edits) =>
        if key in lib.track.units { EditFrame(lib.track, lib.overrides, key, edits); }
      case Elsewhere(_, _) =>
    }
  }

  lemma TrustDoubt(lib: Lib, id: nat)
    requires Good(lib)
    ensures var (answer, lib') := Do(lib, TrustThis(id));
            if answer == Refused then lib'.track == lib.track else CandidateIs(lib'.track.snaps, None)
  {
    PromotedRows(lib.track.snaps, id);
  }

  /** The answer loses too much of the current catalog to be believed at once. */
  ghost predicate LosesTooMuch(snaps: Snapshots, listed: seq<Listed>) {
    var c := Latest(snaps, TrustedCurrent);
    && c.Some?
    && Keys(snaps[c.value].units) != Keys(listed)
    && var keys := KeyList(snaps[c.value].units);
       IsSuspicious(|keys|, |Lost(keys, Keys(listed))|)
  }

  /** The answer to a complete check that loses too much depends only on the candidate. */
  lemma VerdictOnLoss(lib: Lib, listed: seq<Listed>)
    requires Good(lib)
    ensures var answer := Do(lib, Refresh(true, listed)).0;
            var losing := LosesTooMuch(lib.track.snaps, listed);
            var c := Latest(lib.track.snaps, Suspicious);
            var again := c.Some? && Keys(lib.track.snaps[c.value].units) == Keys(listed);
            && (AnsweredWith(answer, Recovered) <==> losing && again)
            && (AnsweredWith(answer, Suspected) <==> losing && !again)
            && !AnsweredWith(answer, Incomplete)
  {
    InsertedLatest(lib.track.snaps, lib.nextId, true, listed, lib.clock, TrustedCurrent);
    InsertedLatest(lib.track.snaps, lib.nextId, true, listed, lib.clock, Suspicious);
  }

  /**
   A complete check is answered `recovered` exactly when it loses too much and the complete check right
   before it was suspicious with the same units; losing too much otherwise makes it suspicious.
   */
  lemma RecoveredIff(ops: seq<Op>, listed: seq<Listed>)
    ensures var answer := AnswerTo(ops + [Refresh(true, listed)]);
            var losing := LosesTooMuch(After(ops).track.snaps, listed);
            && (AnsweredWith(answer, Recovered) <==> losing && Doubt(ops) == Some(Keys(listed)))
            && (AnsweredWith(answer, Suspected) <==> losing && Doubt(ops) != Some(Keys(listed)))
  {
    assert (ops + [Refresh(true, listed)])[..|ops|] == ops;
    AlwaysGood(ops);
    CandidateIsDoubt(ops);
    VerdictOnLoss(After(ops), listed);
  }

  // ---- Where trusted catalogs come from ----------------------------------------------------------

  /** Some complete check of the history listed exactly these keys. */
  ghost predicate CheckedCompletely(ops: seq<Op>, keys: set<string>) {
    exists i :: 0 <= i < |ops| && ops[i].Refresh? && ops[i].complete && Keys(ops[i].listed) == keys
  }

  lemma CheckedLonger(ops: seq<Op>, k: nat, keys: set<string>)
    requires k <= |ops| && CheckedCompletely(ops[..k], keys)
    ensures CheckedCompletely(ops, keys)
  {
    var i :| 0 <= i < k && ops[..k][i].Refresh? && ops[..k][i].complete && Keys(ops[..k][i].listed) == keys;
    assert ops[i] == ops[..k][i];
  }

  /** Every complete snapshot, and so every catalog ever trusted, repeats one complete answer of the source. */
  lemma {:induction false} TrustedFromCompleteChecks(ops: seq<Op>, id: nat)
    requires id in After(ops).track.snaps && After(ops).track.snaps[id].complete
    ensures CheckedCompletely(ops, Keys(After(ops).track.snaps[id].units))
  {
    if ops != [] {
      hide Refreshed, TrustChosen, Edited;
      var k := |ops| - 1;
      var lib := After(ops[..k]);
      var row := After(ops).track.snaps[id];
      DoRows(lib, ops[k], id);
      if ops[k].Refresh? && id == lib.nextId {
        assert ops[k].complete && Keys(ops[k].listed) == Keys(row.units);
      } else {
        TrustedFromCompleteChecks(ops[..k], id);
        CheckedLonger(ops, k, Keys(row.units));
      }
    }
  }

  /** A row is either the check just made, or an older row with the same contents. */
  lemma DoRows(lib: Lib, op: Op, id: nat)
    requires id in Do(lib, op).1.track.snaps
    ensures var row := Do(lib, op).1.track.snaps[id];
            if op.Refresh? && id == lib.nextId then row.units == Stored(op.listed) && row.complete == op.complete
            else id in lib.track.snaps && row.units == lib.track.snaps[id].units
                 && row.complete == lib.track.snaps[id].complete
  {
    hide Refreshed;
    match op
    case Refresh(complete, listed) =>
      RefreshRows(lib.track, lib.overrides, complete, listed, lib.nextId, lib.nextId + 1, lib.clock);
    case TrustThis(chosen) =>
      PromotedContents(lib.track.snaps, chosen);
    case _ =>
  }

  // ---- Suspicion, counted ------------------------------------------------------------------------

  lemma KeyListKeys(units: seq<Listed>)
    ensures Elements(KeyList(units)) == Keys(units)
  {
    forall k ensures k in KeyList(units) <==> k in Keys(units) {
      if k in Keys(units) {
        var i :| 0 <= i < |units| && units[i].key == k;
        assert KeyList(units)[i] == k;
      }
    }
  }

  lemma UnitsDistinct(units: seq<Listed>)
    ensures Distinct(KeyList(Stored(units)))
  {
    if units != [] {
      var k := |units| - 1;
      UnitsDistinct(units[..k]);
      var before := Stored(units[..k]);
      if units[k].key !in Keys(before) {
        KeyListKeys(before);
        assert KeyList(before + [units[k]]) == KeyList(before) + [units[k].key];
        assert units[k].key !in KeyList(before) by {
          assert units[k].key !in Elements(KeyList(before));
        }
        DistinctAppend(KeyList(before), units[k].key);
      }
    }
  }

  /** No catalog row lists a key twice. */
  lemma {:induction false} RowsDistinct(ops: seq<Op>, id: nat)
    requires id in After(ops).track.snaps
    ensures Distinct(KeyList(After(ops).track.snaps[id].units))
  {
    if ops != [] {
      hide Do;
      var k := |ops| - 1;
      DoRows(After(ops[..k]), ops[k], id);
      if ops[k].Refresh? && id == After(ops[..k]).nextId {
        UnitsDistinct(ops[k].listed);
      } else {
        RowsDistinct(ops[..k], id);
      }
    }
  }

  lemma {:induction false} LostCount(keys: seq<string>, listed: set<string>)
    requires Distinct(keys)
    ensures |Lost(keys, listed)| == |Elements(keys) - listed|
  {
    if keys == [] {
      assert Elements(keys) == {};
    } else {
      var rest := keys[1..];
      LostCount(rest, listed);
      assert keys == [keys[0]] + rest;
      assert keys[0] !in rest;
      LostFirst(keys[0], rest, listed);
    }
  }

  lemma LostFirst(key: string, rest: seq<string>, listed: set<string>)
    requires key !in rest
    ensures |Elements([key] + rest) - listed| == |Elements(rest) - listed| + if key in listed then 0 else 1
  {
    assert Elements([key] + rest) == {key} + Elements(rest);
    if key in listed {
      assert Elements([key] + rest) - listed == Elements(rest) - listed;
    } else {
      assert Elements([key] + rest) - listed == (Elements(rest) - listed) + {key};
    }
  }

  /**
   A complete answer is too great a loss to be believed at once exactly when at least five units of the current
   trusted catalog, and at least half of them, are gone: counted in keys, in every history.
   */
  lemma LosesTooMuchIff(ops: seq<Op>, listed: seq<Listed>)
    ensures var snaps := After(ops).track.snaps;
            var c := Latest(snaps, TrustedCurrent);
            LosesTooMuch(snaps, listed)
            <==> && c.Some?
                 && var gone := Keys(snaps[c.value].units) - Keys(listed);
                    |gone| >= 5 && 2 * |gone| >= |Keys(snaps[c.value].units)|
  {
    hide After;
    var snaps := After(ops).track.snaps;
    var c := Latest(snaps, TrustedCurrent);
    if c.Some? {
      var keys := KeyList(snaps[c.value].units);
      RowsDistinct(ops, c.value);
      KeyListKeys(snaps[c.value].units);
      LostCount(keys, Keys(listed));
      LostCount(keys, {});
      assert Elements(keys) - {} == Elements(keys);
      NothingKept(keys);
      HalfIsHalf(|Lost(keys, Keys(listed))|, |keys|);
    }
  }

  lemma {:induction false} NothingKept(keys: seq<string>)
    ensures Lost(keys, {}) == keys
  {
    if keys != [] {
      NothingKept(keys[1..]);
    }
  }

  lemma HalfIsHalf(lost: nat, current: nat)
    ensures IsSuspicious(current, lost) <==> current != 0 && lost >= 5 && 2 * lost >= current
  {
    if current != 0 {
      var share := lost as real / current as real;
      assert share * current as real == lost as real;
      if share >= 0.5 {
        assert share * current as real >= 0.5 * current as real;
      } else {
        assert share * current as real < 0.5 * current as real;
      }
    }
  }

  // ---- What a check tells ------------------------------------------------------------------------

  /**
   In every history a check answers with the units listed, with the units of the current catalog, and with those of them
   it misses; it is unchanged exactly when a complete check lists the current keys again, and then names the current row.
   */
  lemma RefreshCounts(ops: seq<Op>, complete: bool, listed: seq<Listed>)
    ensures var lib := After(ops);
            var answer := Do(lib, Refresh(complete, listed)).0;
            var current := CurrentKeys(lib.track.snaps);
            && answer.Answered?
            && var o := answer.outcome;
               && o.unitCount == |listed|
               && (o.verdict == Incomplete <==> !complete)
               && (o.verdict == Unchanged <==> complete && current == Some(Keys(listed)))
               && (if complete && current.Some? then
                     o.previousCount == Some(|current.value|) && o.lost == |current.value - Keys(listed)|
                   else o.previousCount == None && o.lost == 0)
               && (if o.verdict == Unchanged then Latest(lib.track.snaps, TrustedCurrent) == Some(o.snapshot)
                   else o.snapshot == lib.nextId)
  {
    hide After;
    var lib := After(ops);
    AlwaysGood(ops);
    if complete {
      var c := Latest(lib.track.snaps, TrustedCurrent);
      if c.Some? {
        RowsDistinct(ops, c.value);
        CurrentCounts(lib.track.snaps[c.value].units, Keys(listed));
      }
      AnswerCounts(lib, listed);
    }
  }

  lemma CurrentCounts(units: seq<Listed>, listed: set<string>)
    requires Distinct(KeyList(units))
    ensures |Keys(units)| == |units| && |Lost(KeyList(units), listed)| == |Keys(units) - listed|
    ensures Keys(units) == listed ==> Keys(units) - listed == {}
  {
    KeyListKeys(units);
    LostCount(KeyList(units), listed);
    LostCount(KeyList(units), {});
    assert Elements(KeyList(units)) - {} == Elements(KeyList(units));
    LostAll(KeyList(units));
  }

  lemma {:induction false} LostAll(keys: seq<string>)
    ensures |Lost(keys, {})| == |keys|
  {
    if keys != [] { LostAll(keys[1..]); }
  }

  lemma AnswerCounts(lib: Lib, listed: seq<Listed>)
    requires Good(lib)
    ensures var answer := Do(lib, Refresh(true, listed)).0;
            var c := Latest(lib.track.snaps, TrustedCurrent);
            && answer.Answered?
            && var o := answer.outcome;
               && o.unitCount == |listed| && o.verdict != Incomplete
               && (if c.None? then o.verdict == Trusted && o.previousCount == None && o.lost == 0 && o.snapshot == lib.nextId
                   else
                     var units := lib.track.snaps[c.value].units;
                     && o.previousCount == Some(|units|)
                     && (o.verdict == Unchanged <==> Keys(units) == Keys(listed))
                     && (if o.verdict == Unchanged then o.lost == 0 && o.snapshot == c.value
                         else o.lost == |Lost(KeyList(units), Keys(listed))| && o.snapshot == lib.nextId))
  {
    hide Materialized, PromotedSnaps, Lost, IsSuspicious, Pruned, Marked;
    InsertedLatest(lib.track.snaps, lib.nextId, true, listed, lib.clock, TrustedCurrent);
  }

  /** Explicit trust is refused for a row that is not there or not complete, and else names that row and its units. */
  lemma TrustCounts(lib: Lib, id: nat)
    ensures var answer := Do(lib, TrustThis(id)).0;
            answer == if id in lib.track.snaps && lib.track.snaps[id].complete
                      then Answered(Outcome(Trusted, id, |lib.track.snaps[id].units|, None, 0)) else Refused
  {
  }

  /** An incomplete answer leaves its row and the two newest before it; a suspicious one its row and the newest before. */
  lemma RefreshRemembers(lib: Lib, listed: seq<Listed>)
    requires Good(lib)
    ensures |IncompleteIds(Do(lib, Refresh(false, listed)).1.track.snaps)| == Min(3, |IncompleteIds(lib.track.snaps)| + 1)
    ensures AnsweredWith(Do(lib, Refresh(true, listed)).0, Suspected) ==>
              |Ids(Do(lib, Refresh(true, listed)).1.track.snaps, Suspicious)|
              == Min(2, |Ids(lib.track.snaps, Suspicious)| + 1)
  {
    hide Materialized, PromotedSnaps, IsSuspicious, Pruned, Inserted, Marked, Ids, IncompleteIds;
    GoodSound(lib);
    IncompleteRemembered(lib.track.snaps, lib.nextId, listed, lib.clock);
    SuspectedRemembered(lib.track.snaps, lib.nextId, listed, lib.clock);
  }

  lemma IncompleteRemembered(snaps: Snapshots, id: nat, listed: seq<Listed>, now: nat)
    requires Sound(snaps, now) && id !in snaps
    ensures var a := Inserted(snaps, id, false, listed, now);
            |IncompleteIds(Pruned(a, IncompleteIds(a), MAX_INCOMPLETE))| == Min(3, |IncompleteIds(snaps)| + 1)
  {
    var a := Inserted(snaps, id, false, listed, now);
    InsertedTimely(snaps, id, false, listed, now);
    IncompleteInserted(snaps, id, listed, now);
    PruneExactly(a, IncompleteIds(a), 3, now + 1);
    IncompletePruned(a, 3);
  }

  lemma SuspectedRemembered(snaps: Snapshots, id: nat, listed: seq<Listed>, now: nat)
    requires Sound(snaps, now) && id !in snaps
    ensures var b := Marked(Inserted(snaps, id, true, listed, now), id, Suspicious);
            |Ids(Pruned(b, Ids(b, Suspicious), MAX_CANDIDATES), Suspicious)| == Min(2, |Ids(snaps, Suspicious)| + 1)
  {
    var b := Marked(Inserted(snaps, id, true, listed, now), id, Suspicious);
    InsertedTimely(snaps, id, true, listed, now);
    SuspectedInserted(snaps, id, listed, now);
    PruneExactly(b, Ids(b, Suspicious), 2, now + 1);
    SuspectedPruned(b, 2);
  }

  lemma InsertedTimely(snaps: Snapshots, id: nat, complete: bool, listed: seq<Listed>, now: nat)
    requires Timely(snaps, now) && id !in snaps
    ensures var s := Inserted(snaps, id, complete, listed, now);
            Timely(s, now + 1) && Timely(Marked(s, id, Suspicious), now + 1)
  {
    hide Stored;
  }

  lemma IncompleteInserted(snaps: Snapshots, id: nat, listed: seq<Listed>, now: nat)
    requires id !in snaps
    ensures |IncompleteIds(Inserted(snaps, id, false, listed, now))| == |IncompleteIds(snaps)| + 1
  {
    hide Stored;
    assert IncompleteIds(Inserted(snaps, id, false, listed, now)) == IncompleteIds(snaps) + {id};
  }

  lemma SuspectedInserted(snaps: Snapshots, id: nat, listed: seq<Listed>, now: nat)
    requires id !in snaps
    ensures |Ids(Marked(Inserted(snaps, id, true, listed, now), id, Suspicious), Suspicious)|
            == |Ids(snaps, Suspicious)| + 1
  {
    hide Stored;
    assert Ids(Marked(Inserted(snaps, id, true, listed, now), id, Suspicious), Suspicious) == Ids(snaps, Suspicious) + {id};
  }

  lemma IncompletePruned(s: Snapshots, keep: nat)
    ensures IncompleteIds(Pruned(s, IncompleteIds(s), keep)) == IncompleteIds(s) - Doomed(s, IncompleteIds(s), keep)
  {
    hide Doomed;
  }

  lemma SuspectedPruned(s: Snapshots, keep: nat)
    ensures Ids(Pruned(s, Ids(s, Suspicious), keep), Suspicious)
            == Ids(s, Suspicious) - Doomed(s, Ids(s, Suspicious), keep)
  {
    hide Doomed;
  }
}
