/** What a batch comes to, row by row: from the statements it runs to the fate of each claimed row and of its report. */
module Fates {
  import opened Prelude
  import opened EventTable
  import opened Backoff
  import opened BulkResults
  import opened Settlement
  import opened Outside
  import opened Batches

  // ---- lists of ids ----

  lemma IdsNext(batch: seq<EventRow>, event: EventRow)
    ensures Ids(batch + [event]) == Ids(batch) + [event.id]
  {
  }

  lemma IdsPrefix(batch: seq<EventRow>, k: nat)
    requires k <= |batch|
    ensures Ids(batch[..k]) == Ids(batch)[..k]
    ensures Elements(Ids(batch[..k])) <= Elements(Ids(batch))
    ensures Distinct(Ids(batch)) && k < |batch| ==> batch[k].id !in Ids(batch[..k])
  {
  }

  lemma {:induction false} SplitIds(failed: set<string>, batch: seq<EventRow>)
    requires Distinct(Ids(batch))
    ensures Splits(Ids(batch), Ids(Select(failed, batch, false)), Ids(Select(failed, batch, true)))
  {
    if batch == [] {
      assert Ids([]) == [];
    } else {
      var last := |batch| - 1;
      IdsPrefix(batch, last);
      SplitIds(failed, batch[..last]);
      assert batch == batch[..last] + [batch[last]];
      IdsNext(batch[..last], batch[last]);
      var good, parked := Select(failed, batch[..last], false), Select(failed, batch[..last], true);
      SplitsNext(Ids(batch[..last]), Ids(good), Ids(parked), batch[last].id);
      IdsNext(good, batch[last]);
      IdsNext(parked, batch[last]);
      assert good + [] == good && parked + [] == parked;
    }
  }

  /** The rows of a side of the split, by their position. */
  lemma SelectedId(failed: set<string>, batch: seq<EventRow>, rejected: bool, i: nat)
    requires Distinct(Ids(batch)) && i < |batch|
    ensures batch[i].id in Elements(Ids(Select(failed, batch, rejected))) <==> IsRejected(failed, batch[i], i) == rejected
  {
    var side := Select(failed, batch, rejected);
    SelectedAre(failed, batch, rejected, batch[i]);
    if batch[i].id in Elements(Ids(side)) {
      var n :| 0 <= n < |side| && side[n].id == batch[i].id;
      SelectedAre(failed, batch, rejected, side[n]);
      var j :| 0 <= j < |batch| && batch[j] == side[n] && IsRejected(failed, side[n], j) == rejected;
      assert Ids(batch)[j] == Ids(batch)[i];
    }
  }

  lemma {:induction false} MappedIds(w: World, first: nat, batch: seq<EventRow>)
    requires Distinct(Ids(batch))
    ensures Distinct(Ids(MappedRows(w, first, batch)))
    ensures Elements(Ids(MappedRows(w, first, batch))) <= Elements(Ids(batch))
  {
    if batch != [] {
      var last := |batch| - 1;
      IdsPrefix(batch, last);
      MappedIds(w, first, batch[..last]);
      var before := MappedRows(w, first, batch[..last]);
      assert batch == batch[..last] + [batch[last]];
      IdsNext(batch[..last], batch[last]);
      IdsNext(before, batch[last]);
      assert batch[last].id !in Elements(Ids(batch[..last]));
      DistinctNext(Ids(before), batch[last].id);
      assert before + [] == before;
    }
  }

  /** The event and the record behind the `i`-th mapped row. */
  lemma {:induction false} MappedFrom(w: World, first: nat, claimed: seq<EventRow>, i: nat) returns (k: nat)
    requires i < |MappedRows(w, first, claimed)|
    ensures k < |claimed| && claimed[k] == MappedRows(w, first, claimed)[i] && i == |MappedRows(w, first, claimed[..k])|
    ensures MappingOf(w, first + k, claimed[k]).Mapped?
    ensures MappingOf(w, first + k, claimed[k]).record in MappedRecords(w, first, claimed)
    decreases |claimed|
  {
    var last := |claimed| - 1;
    var before := claimed[..last];
    if i < |MappedRows(w, first, before)| {
      k := MappedFrom(w, first, before, i);
      assert before[..k] == claimed[..k];
    } else {
      k := last;
    }
  }

  /** What is left to post once mapping is through. */
  lemma MappedAreDistinct(w: World, a: Calls, b: Calls, t: Table, t': Table, claimed: seq<EventRow>, nexts: seq<Time>,
                          mapped: seq<EventRow>, records: seq<Record>, log: seq<Settled>, since: Time, wait: nat -> int)
    requires MappingDone(w, a, b, t, t', claimed, nexts, mapped, records, log, since, wait)
    requires |nexts| == |claimed| && Distinct(Ids(claimed)) && records != []
    ensures mapped != [] && Distinct(Ids(mapped))
  {
    assert claimed[..|nexts|] == claimed;
    MappedIds(w, a.mapped, claimed);
    RecordPerRow(w, a.mapped, claimed);
  }

  /** A mapped event is posted in the place of the mapped ones before it. */
  lemma {:induction false} MappedAt(w: World, first: nat, claimed: seq<EventRow>, k: nat)
    requires k < |claimed| && MappingOf(w, first + k, claimed[k]).Mapped?
    ensures var i := |MappedRows(w, first, claimed[..k])|;
            i < |MappedRows(w, first, claimed)| && MappedRows(w, first, claimed)[i] == claimed[k]
    decreases |claimed|
  {
    var last := |claimed| - 1;
    if k < last {
      MappedAt(w, first, claimed[..last], k);
      assert claimed[..last][..k] == claimed[..k];
    }
  }

  // ---- the table, row by row ----

  lemma EarlyTargets(m: Mapping, id: Id, next: Time)
    ensures NamesRows(EarlyStatement(m, id, next)) && Targets(EarlyStatement(m, id, next)) <= {id}
  {
  }

  lemma OneEarlyOnly(t: Table, u: Table, m: Mapping, id: Id, next: Time, ids: set<Id>)
    requires Indexed(u) && OnlyRows(t, u, ids) && id in ids
    ensures Indexed(Exec(u, EarlyStatement(m, id, next))) && OnlyRows(t, Exec(u, EarlyStatement(m, id, next)), ids)
  {
    EarlyTargets(m, id, next);
    MarksMore(t, u, EarlyStatement(m, id, next), ids);
  }

  lemma {:induction false} EarlyOnly(w: World, first: nat, t: Table, claimed: seq<EventRow>, nexts: seq<Time>, n: nat)
    requires n <= |nexts| && n <= |claimed| && Indexed(t)
    ensures var t' := EarlyTable(w, first, t, claimed, nexts, n);
            Indexed(t') && OnlyRows(t, t', Elements(Ids(claimed)))
    decreases n
  {
    if n > 0 {
      EarlyOnly(w, first, t, claimed, nexts, n - 1);
      assert Ids(claimed)[n - 1] in Elements(Ids(claimed));
      OneEarlyOnly(t, EarlyTable(w, first, t, claimed, nexts, n - 1), MappingOf(w, first + n - 1, claimed[n - 1]), claimed[n - 1].id,
                   nexts[n - 1], Elements(Ids(claimed)));
    }
  }

  lemma {:induction false} EarlyRowIs(w: World, first: nat, t: Table, claimed: seq<EventRow>, nexts: seq<Time>, n: nat, k: nat)
    requires n <= |nexts| && n <= |claimed| && k < |claimed| && Holds(t, claimed)
    ensures var id, t' := claimed[k].id, EarlyTable(w, first, t, claimed, nexts, n);
            id in t' && t'[id] == if k < n then EarlyRow(MappingOf(w, first + k, claimed[k]), claimed[k], nexts[k]) else claimed[k]
    decreases n
  {
    if n > 0 {
      EarlyRowIs(w, first, t, claimed, nexts, n - 1, k);
      if claimed[n - 1].id == claimed[k].id {
        SameId(claimed, n - 1, k);
      }
      OneEarlyRow(EarlyTable(w, first, t, claimed, nexts, n - 1), MappingOf(w, first + n - 1, claimed[n - 1]),
                  claimed[n - 1].id, nexts[n - 1], claimed[k].id);
    }
  }

  lemma OneEarlyRow(u: Table, m: Mapping, id: Id, next: Time, other: Id)
    requires other in u && u[other].id == other
    ensures var u' := Exec(u, EarlyStatement(m, id, next));
            other in u' && u'[other] == if other == id then EarlyRow(m, u[other], next) else u[other]
  {
  }

  lemma PartOnly(t: Table, batch: seq<EventRow>, failed: set<string>, partly: bool)
    requires Indexed(t) && Distinct(Ids(batch))
    ensures var t' := PartTable(t, batch, failed, partly); Indexed(t') && OnlyRows(t, t', Elements(Ids(batch)))
  {
    SplitIds(failed, batch);
    MarksOnly(t, ParkIds(Elements(Ids(Select(failed, batch, true))), REJECTED));
  }

  lemma PartRowIs(t: Table, batch: seq<EventRow>, failed: set<string>, partly: bool, i: nat)
    requires Distinct(Ids(batch)) && i < |batch| && batch[i].id in t && t[batch[i].id] == batch[i]
    ensures var id, t' := batch[i].id, PartTable(t, batch, failed, partly);
            id in t' && t'[id] == if partly && IsRejected(failed, batch[i], i) then ParkedRow(batch[i], REJECTED) else batch[i]
  {
    SelectedId(failed, batch, true, i);
  }

  /** Whether an end begins with parking the rejected rows, and the statement it ends with. */
  predicate ParksFirst(e: Ending) {
    e.SplitUp? || ((e.BatchRetried? || e.Broken?) && e.partly)
  }

  function LastStatement(batch: seq<EventRow>, reply: Reply, failed: set<string>, e: Ending): Statement {
    match e
    case AllDelivered(at) => DeliverIds(Elements(Ids(batch)), at, BulkOf(reply))
    case SplitUp(at) => DeliverIds(Elements(Ids(Select(failed, batch, false))), at, BulkOf(reply))
    case BatchParked => ParkIds(Elements(Ids(batch)), ErrorText(reply))
    case BatchRetried(_, next) => FailIds(Elements(Ids(batch)), next, ErrorText(reply))
    case _ => Nothing
  }

  lemma EndingIs(t: Table, batch: seq<EventRow>, reply: Reply, failed: set<string>, e: Ending)
    ensures EndingTable(t, batch, reply, failed, e)
         == Exec(PartTable(t, batch, failed, ParksFirst(e)), LastStatement(batch, reply, failed, e))
  {
    NothingIsDone(PartTable(t, batch, failed, ParksFirst(e)));
  }

  lemma EndingOnly(t: Table, batch: seq<EventRow>, reply: Reply, failed: set<string>, e: Ending)
    requires Indexed(t) && Distinct(Ids(batch))
    ensures var t' := EndingTable(t, batch, reply, failed, e); Indexed(t') && OnlyRows(t, t', Elements(Ids(batch)))
  {
    var st := LastStatement(batch, reply, failed, e);
    EndingIs(t, batch, reply, failed, e);
    PartOnly(t, batch, failed, ParksFirst(e));
    SplitIds(failed, batch);
    MarksMore(t, PartTable(t, batch, failed, ParksFirst(e)), st, Elements(Ids(batch)));
  }

  lemma EndRowIs(t: Table, batch: seq<EventRow>, reply: Reply, failed: set<string>, e: Ending, i: nat)
    requires Distinct(Ids(batch)) && i < |batch| && batch[i].id in t && t[batch[i].id] == batch[i]
    ensures var id, t' := batch[i].id, EndingTable(t, batch, reply, failed, e);
            id in t' && t'[id] == EndRow(batch[i], IsRejected(failed, batch[i], i), reply, e)
  {
    assert Ids(batch)[i] in Elements(Ids(batch));
    EndingIs(t, batch, reply, failed, e);
    PartRowIs(t, batch, failed, ParksFirst(e), i);
    SelectedId(failed, batch, false, i);
    LastRow(PartTable(t, batch, failed, ParksFirst(e))[batch[i].id], batch, reply, failed, e, i);
  }

  lemma LastRow(r: EventRow, batch: seq<EventRow>, reply: Reply, failed: set<string>, e: Ending, i: nat)
    requires i < |batch| && batch[i].id in Elements(Ids(batch))
    requires batch[i].id in Elements(Ids(Select(failed, batch, false))) <==> !IsRejected(failed, batch[i], i)
    requires r == if ParksFirst(e) && IsRejected(failed, batch[i], i) then ParkedRow(batch[i], REJECTED) else batch[i]
    ensures RowAfter(r, LastStatement(batch, reply, failed, e)) == EndRow(batch[i], IsRejected(failed, batch[i], i), reply, e)
  {
    var c := batch[i];
    match e
    case BatchRetried(_, next) => ParkedThenFailed(c, REJECTED, next, ErrorText(reply));
    case SplitUp(_) => assert r.id == c.id;
    case _ => assert r.id == c.id;
  }

  /** A mark that is overtaken by the retry of the batch leaves no trace. */
  lemma ParkedThenFailed(c: EventRow, reason: string, next: Time, error: string)
    ensures FailedRow(ParkedRow(c, reason), next, error) == FailedRow(c, next, error)
  {
  }

  /** A batch changes the rows it claimed and no others. */
  lemma BatchOnly(w: World, a: Calls, t: Table, r: BatchRun)
    requires Indexed(t) && Distinct(Ids(r.claimed))
    ensures Indexed(BatchTable(w, a, t, r)) && OnlyRows(t, BatchTable(w, a, t, r), Elements(Ids(r.claimed)))
  {
    var ids, batch := Elements(Ids(r.claimed)), MappedRows(w, a.mapped, r.claimed);
    EarlyOnly(w, a.mapped, t, r.claimed, r.nexts, |r.nexts|);
    MappedIds(w, a.mapped, r.claimed);
    var u := EarlyTable(w, a.mapped, t, r.claimed, r.nexts, |r.nexts|);
    EndingOnly(u, batch, ReplyOf(w, a, r.claimed), FailedOf(w, a, r.claimed), r.ending);
    OnlyRowsGrow(u, BatchTable(w, a, t, r), Elements(Ids(batch)), ids);
    OnlyRowsTrans(t, u, BatchTable(w, a, t, r), ids, ids);
    assert ids + ids == ids;
  }

  lemma SameId(batch: seq<EventRow>, i: nat, j: nat)
    requires Distinct(Ids(batch)) && i < |batch| && j < |batch| && batch[i].id == batch[j].id
    ensures i == j
  {
    assert Ids(batch)[i] == Ids(batch)[j];
  }

  /** A mapped row is one of the events that mapping gave a record for. */
  lemma NotMapped(w: World, first: nat, claimed: seq<EventRow>, k: nat)
    requires Distinct(Ids(claimed)) && k < |claimed| && !MappingOf(w, first + k, claimed[k]).Mapped?
    ensures claimed[k].id !in Elements(Ids(MappedRows(w, first, claimed)))
  {
    var batch := MappedRows(w, first, claimed);
    if claimed[k].id in Elements(Ids(batch)) {
      var i :| 0 <= i < |batch| && batch[i].id == claimed[k].id;
      var j := MappedFrom(w, first, claimed, i);
      SameId(claimed, j, k);
      assert false;
    }
  }

  lemma MappedRowIs(w: World, a: Calls, u: Table, t': Table, r: BatchRun, k: nat)
    requires Distinct(Ids(r.claimed)) && k < |r.claimed| && MappingOf(w, a.mapped + k, r.claimed[k]).Mapped?
    requires r.claimed[k].id in u && u[r.claimed[k].id] == r.claimed[k]
    requires t' == EndingTable(u, MappedRows(w, a.mapped, r.claimed), ReplyOf(w, a, r.claimed), FailedOf(w, a, r.claimed), r.ending)
    ensures r.claimed[k].id in t' && t'[r.claimed[k].id] == RowEnd(w, a, r, k)
  {
    MappedIds(w, a.mapped, r.claimed);
    MappedAt(w, a.mapped, r.claimed, k);
    EndRowIs(u, MappedRows(w, a.mapped, r.claimed), ReplyOf(w, a, r.claimed), FailedOf(w, a, r.claimed), r.ending,
             |MappedRows(w, a.mapped, r.claimed[..k])|);
  }

  lemma OtherRowIs(w: World, a: Calls, u: Table, t': Table, r: BatchRun, k: nat)
    requires Indexed(u) && Distinct(Ids(r.claimed)) && k < |r.claimed| && !MappingOf(w, a.mapped + k, r.claimed[k]).Mapped?
    requires r.claimed[k].id in u
    requires t' == EndingTable(u, MappedRows(w, a.mapped, r.claimed), ReplyOf(w, a, r.claimed), FailedOf(w, a, r.claimed), r.ending)
    ensures r.claimed[k].id in t' && t'[r.claimed[k].id] == u[r.claimed[k].id]
  {
    MappedIds(w, a.mapped, r.claimed);
    NotMapped(w, a.mapped, r.claimed, k);
    EndingOnly(u, MappedRows(w, a.mapped, r.claimed), ReplyOf(w, a, r.claimed), FailedOf(w, a, r.claimed), r.ending);
  }

  /** The row of event `k` once mapping is through or has stopped. */
  function MappingRow(w: World, a: Calls, r: BatchRun, k: nat): EventRow
    requires k < |r.claimed|
  {
    if k < |r.nexts| then EarlyRow(MappingOf(w, a.mapped + k, r.claimed[k]), r.claimed[k], r.nexts[k]) else r.claimed[k]
  }

  lemma EarlyIndexed(w: World, first: nat, t: Table, claimed: seq<EventRow>, nexts: seq<Time>, n: nat)
    requires n <= |nexts| && n <= |claimed| && Indexed(t)
    ensures Indexed(EarlyTable(w, first, t, claimed, nexts, n))
  {
    EarlyOnly(w, first, t, claimed, nexts, n);
  }

  lemma MappingRowIs(w: World, a: Calls, t: Table, r: BatchRun, k: nat)
    requires Indexed(t) && Holds(t, r.claimed) && k < |r.claimed|
    ensures var u := EarlyTable(w, a.mapped, t, r.claimed, r.nexts, |r.nexts|);
            Indexed(u) && r.claimed[k].id in u && u[r.claimed[k].id] == MappingRow(w, a, r, k)
  {
    EarlyIndexed(w, a.mapped, t, r.claimed, r.nexts, |r.nexts|);
    EarlyRowIs(w, a.mapped, t, r.claimed, r.nexts, |r.nexts|, k);
  }

  lemma SettledRowIs(w: World, a: Calls, u: Table, r: BatchRun, k: nat)
    requires Indexed(u) && Distinct(Ids(r.claimed)) && k < |r.claimed|
    requires r.claimed[k].id in u && u[r.claimed[k].id] == MappingRow(w, a, r, k)
    ensures var t' := EndingTable(u, MappedRows(w, a.mapped, r.claimed), ReplyOf(w, a, r.claimed), FailedOf(w, a, r.claimed), r.ending);
            r.claimed[k].id in t' && t'[r.claimed[k].id] == RowEnd(w, a, r, k)
  {
    var t' := EndingTable(u, MappedRows(w, a.mapped, r.claimed), ReplyOf(w, a, r.claimed), FailedOf(w, a, r.claimed), r.ending);
    if MappingOf(w, a.mapped + k, r.claimed[k]).Mapped? {
      MappedRowIs(w, a, u, t', r, k);
    } else {
      OtherRowIs(w, a, u, t', r, k);
    }
  }

  /** The statements of a batch, row by row: each claimed row ends as its own mapping, the post and the results make it. */
  lemma BatchRowIs(w: World, a: Calls, t: Table, r: BatchRun, k: nat)
    requires Indexed(t) && Holds(t, r.claimed) && k < |r.claimed|
    ensures r.claimed[k].id in BatchTable(w, a, t, r) && BatchTable(w, a, t, r)[r.claimed[k].id] == RowEnd(w, a, r, k)
  {
    MappingRowIs(w, a, t, r, k);
    SettledRowIs(w, a, EarlyTable(w, a.mapped, t, r.claimed, r.nexts, |r.nexts|), r, k);
  }

  // ---- the report, row by row ----

  function EarlyVerdict(m: Mapping): Verdict {
    if m.EnrichmentFails? then AsRetried else AsParked
  }

  lemma EarlyEntryIs(m: Mapping, id: Id)
    ensures EarlyEntry(m, id) == if NeedsStore(m) then [Settled(id, EarlyVerdict(m))] else []
  {
  }

  lemma {:induction false} EarlyTells(w: World, first: nat, claimed: seq<EventRow>, n: nat, k: nat)
    requires k < n <= |claimed| && NeedsStore(MappingOf(w, first + k, claimed[k]))
    ensures Settled(claimed[k].id, EarlyVerdict(MappingOf(w, first + k, claimed[k]))) in EarlyLog(w, first, claimed[..n])
    decreases n
  {
    EarlyNext(w, first, claimed, n - 1);
    if k < n - 1 {
      EarlyTells(w, first, claimed, n - 1, k);
    } else {
      EarlyEntryIs(MappingOf(w, first + k, claimed[k]), claimed[k].id);
    }
  }

  /** An entry of the report is the last event's, or was there before. */
  lemma LastTold(w: World, first: nat, claimed: seq<EventRow>, k: nat, e: Settled)
    requires k < |claimed| && e in EarlyLog(w, first, claimed[..k + 1])
    ensures var m := MappingOf(w, first + k, claimed[k]);
            (NeedsStore(m) && e == Settled(claimed[k].id, EarlyVerdict(m))) || e in EarlyLog(w, first, claimed[..k])
  {
    var m := MappingOf(w, first + k, claimed[k]);
    EarlyNext(w, first, claimed, k);
    EarlyEntryIs(m, claimed[k].id);
    if e !in EarlyEntry(m, claimed[k].id) {
      NotLast(EarlyLog(w, first, claimed[..k]), EarlyEntry(m, claimed[k].id), e);
    }
  }

  lemma {:induction false} EarlyTold(w: World, first: nat, claimed: seq<EventRow>, n: nat, e: Settled) returns (k: nat)
    requires n <= |claimed| && e in EarlyLog(w, first, claimed[..n])
    ensures k < n && NeedsStore(MappingOf(w, first + k, claimed[k]))
    ensures e == Settled(claimed[k].id, EarlyVerdict(MappingOf(w, first + k, claimed[k])))
    decreases n
  {
    assert n > 0;
    k := n - 1;
    LastTold(w, first, claimed, k, e);
    if e in EarlyLog(w, first, claimed[..k]) {
      k := EarlyTold(w, first, claimed, k, e);
    }
  }

  lemma NotLast(log: seq<Settled>, more: seq<Settled>, e: Settled)
    requires e in log + more && e !in more
    ensures e in log
  {
  }

  lemma {:induction false} EarlyIds(w: World, first: nat, claimed: seq<EventRow>, n: nat)
    requires n <= |claimed| && Distinct(Ids(claimed))
    ensures Distinct(LogIds(EarlyLog(w, first, claimed[..n])))
    ensures Elements(LogIds(EarlyLog(w, first, claimed[..n]))) <= Elements(Ids(claimed[..n]))
    decreases n
  {
    if n > 0 {
      var last := n - 1;
      var m := MappingOf(w, first + last, claimed[last]);
      EarlyNext(w, first, claimed, last);
      EarlyIds(w, first, claimed, last);
      EarlyEntryIs(m, claimed[last].id);
      LogIdsAppend(EarlyLog(w, first, claimed[..last]), EarlyEntry(m, claimed[last].id));
      IdsPrefix(claimed, last);
      assert claimed[..n] == claimed[..last] + [claimed[last]];
      IdsNext(claimed[..last], claimed[last]);
      OneMoreId(LogIds(EarlyLog(w, first, claimed[..last])), LogIds(EarlyEntry(m, claimed[last].id)),
                Ids(claimed[..last]), claimed[last].id);
    }
  }

  lemma OneMoreId(log: seq<Id>, more: seq<Id>, ids: seq<Id>, id: Id)
    requires Distinct(log) && Elements(log) <= Elements(ids) && id !in ids && (more == [id] || more == [])
    ensures Distinct(log + more) && Elements(log + more) <= Elements(ids + [id])
  {
    assert log + [] == log;
    assert forall i | i in log :: i in Elements(log);
    assert id !in log;
    DistinctNext(log, id);
  }

  lemma InEntries(ids: seq<Id>, v: Verdict, e: Settled)
    ensures e in Entries(ids, v) <==> e.verdict == v && e.id in Elements(ids)
  {
    if e.verdict == v && e.id in Elements(ids) {
      var i :| 0 <= i < |ids| && ids[i] == e.id;
      assert Entries(ids, v)[i] == e;
    }
  }

  /** The posted row `i` is reported as it ended, and not otherwise. */
  lemma LateTells(batch: seq<EventRow>, failed: set<string>, e: Ending, i: nat, v: Verdict)
    requires Distinct(Ids(batch)) && i < |batch|
    ensures Settled(batch[i].id, v) in LateLog(batch, failed, e) <==> LateVerdict(IsRejected(failed, batch[i], i), e) == Some(v)
  {
    var entry := Settled(batch[i].id, v);
    assert Ids(batch)[i] in Elements(Ids(batch));
    match e
    case SplitUp(_) =>
      SelectedId(failed, batch, true, i);
      SelectedId(failed, batch, false, i);
      InEntries(Ids(Select(failed, batch, false)), AsDelivered, entry);
      InEntries(Ids(Select(failed, batch, true)), AsParked, entry);
    case AllDelivered(_) => InEntries(Ids(batch), AsDelivered, entry);
    case BatchParked => InEntries(Ids(batch), AsParked, entry);
    case BatchRetried(_, _) => InEntries(Ids(batch), AsRetried, entry);
    case _ =>
  }

  lemma LateIds(batch: seq<EventRow>, failed: set<string>, e: Ending)
    requires Distinct(Ids(batch))
    ensures Distinct(LogIds(LateLog(batch, failed, e))) && Elements(LogIds(LateLog(batch, failed, e))) <= Elements(Ids(batch))
  {
    LogIdsOfEntries(Ids(batch), AsDelivered);
    LogIdsOfEntries(Ids(batch), AsParked);
    LogIdsOfEntries(Ids(batch), AsRetried);
    if e.SplitUp? {
      var good, parked := Ids(Select(failed, batch, false)), Ids(Select(failed, batch, true));
      SplitIds(failed, batch);
      LogIdsAppend(Entries(good, AsDelivered), Entries(parked, AsParked));
      LogIdsOfEntries(good, AsDelivered);
      LogIdsOfEntries(parked, AsParked);
      DistinctConcat(good, parked);
    }
  }

  lemma EarlyApart(w: World, first: nat, claimed: seq<EventRow>, n: nat)
    requires n <= |claimed| && Distinct(Ids(claimed))
    ensures Elements(LogIds(EarlyLog(w, first, claimed[..n]))) !! Elements(Ids(MappedRows(w, first, claimed)))
  {
    var early := EarlyLog(w, first, claimed[..n]);
    forall id | id in Elements(LogIds(early)) ensures id !in Elements(Ids(MappedRows(w, first, claimed))) {
      var i :| 0 <= i < |early| && LogIds(early)[i] == id;
      var k := EarlyTold(w, first, claimed, n, early[i]);
      NotMapped(w, first, claimed, k);
    }
  }

  /** No event is reported twice, and no other event is reported. */
  lemma LogIsOfBatch(w: World, a: Calls, r: BatchRun)
    requires Distinct(Ids(r.claimed))
    ensures Distinct(LogIds(BatchLog(w, a, r))) && Elements(LogIds(BatchLog(w, a, r))) <= Elements(Ids(r.claimed))
  {
    var batch := MappedRows(w, a.mapped, r.claimed);
    var early, late := EarlyLog(w, a.mapped, Handled(r)), LateLog(batch, FailedOf(w, a, r.claimed), r.ending);
    EarlyIds(w, a.mapped, r.claimed, |r.nexts|);
    MappedIds(w, a.mapped, r.claimed);
    LateIds(batch, FailedOf(w, a, r.claimed), r.ending);
    EarlyApart(w, a.mapped, r.claimed, |r.nexts|);
    IdsPrefix(r.claimed, |r.nexts|);
    LogIdsAppend(early, late);
    DistinctConcat(LogIds(early), LogIds(late));
  }

  lemma EarlyReports(w: World, first: nat, claimed: seq<EventRow>, n: nat, k: nat, v: Verdict)
    requires Distinct(Ids(claimed)) && k < |claimed| && n <= |claimed|
    ensures var m := MappingOf(w, first + k, claimed[k]);
            Settled(claimed[k].id, v) in EarlyLog(w, first, claimed[..n]) <==> k < n && NeedsStore(m) && v == EarlyVerdict(m)
  {
    var e, m := Settled(claimed[k].id, v), MappingOf(w, first + k, claimed[k]);
    if e in EarlyLog(w, first, claimed[..n]) {
      var j := EarlyTold(w, first, claimed, n, e);
      SameId(claimed, j, k);
    } else if k < n && NeedsStore(m) {
      EarlyTells(w, first, claimed, n, k);
    }
  }

  lemma LateReports(w: World, first: nat, claimed: seq<EventRow>, failed: set<string>, e: Ending, k: nat, v: Verdict)
    requires Distinct(Ids(claimed)) && k < |claimed|
    ensures Settled(claimed[k].id, v) in LateLog(MappedRows(w, first, claimed), failed, e) <==>
              && MappingOf(w, first + k, claimed[k]).Mapped?
              && LateVerdict(IsRejected(failed, claimed[k], |MappedRows(w, first, claimed[..k])|), e) == Some(v)
  {
    var batch := MappedRows(w, first, claimed);
    var late := LateLog(batch, failed, e);
    MappedIds(w, first, claimed);
    if MappingOf(w, first + k, claimed[k]).Mapped? {
      MappedAt(w, first, claimed, k);
      LateTells(batch, failed, e, |MappedRows(w, first, claimed[..k])|, v);
    } else {
      NotMapped(w, first, claimed, k);
      LateIds(batch, failed, e);
      NotIn(late, claimed[k].id, v);
    }
  }

  lemma NotIn(log: seq<Settled>, id: Id, v: Verdict)
    requires id !in Elements(LogIds(log))
    ensures Settled(id, v) !in log
  {
    forall i | 0 <= i < |log| ensures log[i].id != id {
      assert LogIds(log)[i] in Elements(LogIds(log));
    }
  }

  /** What is reported of an event is its verdict, and nothing else is. */
  lemma ReportsAre(w: World, a: Calls, r: BatchRun, k: nat, v: Verdict)
    requires Distinct(Ids(r.claimed)) && k < |r.claimed|
    ensures Settled(r.claimed[k].id, v) in BatchLog(w, a, r) <==> VerdictOf(w, a, r, k) == Some(v)
  {
    var e := Settled(r.claimed[k].id, v);
    EarlyReports(w, a.mapped, r.claimed, |r.nexts|, k, v);
    LateReports(w, a.mapped, r.claimed, FailedOf(w, a, r.claimed), r.ending, k, v);
    InEither(EarlyLog(w, a.mapped, Handled(r)), LateLog(MappedRows(w, a.mapped, r.claimed), FailedOf(w, a, r.claimed), r.ending), e);
    VerdictIs(w, a, r, k, v);
  }

  lemma InEither(log: seq<Settled>, more: seq<Settled>, e: Settled)
    ensures e in log + more <==> e in log || e in more
  {
  }

  lemma VerdictIs(w: World, a: Calls, r: BatchRun, k: nat, v: Verdict)
    requires k < |r.claimed|
    ensures var m := MappingOf(w, a.mapped + k, r.claimed[k]);
            VerdictOf(w, a, r, k) == Some(v) <==>
              || (k < |r.nexts| && NeedsStore(m) && v == EarlyVerdict(m))
              || (m.Mapped? && LateVerdict(IsRejectedAt(w, a, r.claimed, k), r.ending) == Some(v))
  {
  }

  /** Every report is about an event of the batch, and is its verdict. */
  lemma ReportOf(w: World, a: Calls, r: BatchRun, n: nat) returns (k: nat)
    requires Distinct(Ids(r.claimed)) && n < |BatchLog(w, a, r)|
    ensures k < |r.claimed| && r.claimed[k].id == BatchLog(w, a, r)[n].id
    ensures VerdictOf(w, a, r, k) == Some(BatchLog(w, a, r)[n].verdict)
  {
    var log := BatchLog(w, a, r);
    LogIsOfBatch(w, a, r);
    assert LogIds(log)[n] in Elements(LogIds(log));
    k :| 0 <= k < |r.claimed| && Ids(r.claimed)[k] == log[n].id;
    ReportsAre(w, a, r, k, log[n].verdict);
    assert log[n] == Settled(r.claimed[k].id, log[n].verdict);
  }

  lemma VerdictIsStatus(w: World, a: Calls, r: BatchRun, k: nat)
    requires k < |r.claimed| && VerdictOf(w, a, r, k).Some?
    ensures RowEnd(w, a, r, k).status == StatusOf(VerdictOf(w, a, r, k).value)
  {
  }

  // ---- what a batch comes to ----

  /** A batch that comes through was mapped to its end, and what it posted was settled. */
  predicate CameThrough(w: World, a: Calls, r: BatchRun) {
    && |r.nexts| == |r.claimed| && (forall k | 0 <= k < |r.claimed| :: !MappingOf(w, a.mapped + k, r.claimed[k]).Undecodable?)
    && !r.ending.Broken? && (MappedRows(w, a.mapped, r.claimed) != [] ==> !r.ending.NotPosted?)
  }

  lemma NotThrown(w: World, a: Calls, b: Calls, r: BatchRun, since: Time, wait: nat -> int)
    requires BatchOk(w, a, b, r, since, wait) && !Threw(r)
    ensures CameThrough(w, a, r)
  {
    assert Handled(r) == r.claimed;
  }

  lemma ThroughIsReported(w: World, a: Calls, r: BatchRun, k: nat)
    requires CameThrough(w, a, r) && k < |r.claimed|
    ensures VerdictOf(w, a, r, k).Some?
  {
    assert !MappingOf(w, a.mapped + k, r.claimed[k]).Undecodable?;
    if MappingOf(w, a.mapped + k, r.claimed[k]).Mapped? {
      MappedAt(w, a.mapped, r.claimed, k);
    }
  }

  /** A batch that comes through reports every event. */
  lemma AllReported(w: World, a: Calls, b: Calls, r: BatchRun, since: Time, wait: nat -> int, k: nat)
    requires BatchOk(w, a, b, r, since, wait) && !Threw(r) && k < |r.claimed|
    ensures VerdictOf(w, a, r, k).Some?
  {
    NotThrown(w, a, b, r, since, wait);
    ThroughIsReported(w, a, r, k);
  }

  /** The row of an event that is not reported: as it was claimed, or parked for the rejected result of an accepted post. */
  predicate Unreported(w: World, a: Calls, b: Calls, r: BatchRun, k: nat, row: EventRow)
    requires k < |r.claimed|
  {
    || row == r.claimed[k]
    || (&& row == ParkedRow(r.claimed[k], REJECTED)
        && ReplyOf(w, a, r.claimed).Accepted? && a.post < b.post && IsRejectedAt(w, a, r.claimed, k))
  }

  lemma UnreportedIs(w: World, a: Calls, b: Calls, r: BatchRun, since: Time, wait: nat -> int, k: nat)
    requires BatchOk(w, a, b, r, since, wait) && k < |r.claimed| && VerdictOf(w, a, r, k).None?
    ensures Threw(r) && Unreported(w, a, b, r, k, RowEnd(w, a, r, k))
  {
    if !Threw(r) {
      AllReported(w, a, b, r, since, wait, k);
    }
  }

  lemma LogAgrees(w: World, a: Calls, t: Table, r: BatchRun)
    requires Indexed(t) && Holds(t, r.claimed)
    ensures Agrees(BatchTable(w, a, t, r), BatchLog(w, a, r))
  {
    var t', log := BatchTable(w, a, t, r), BatchLog(w, a, r);
    forall n | 0 <= n < |log| ensures log[n].id in t' && t'[log[n].id].status == StatusOf(log[n].verdict) {
      var k := ReportOf(w, a, r, n);
      BatchRowIs(w, a, t, r, k);
      VerdictIsStatus(w, a, r, k);
    }
  }

  lemma AllIdsReported(w: World, a: Calls, b: Calls, r: BatchRun, since: Time, wait: nat -> int)
    requires BatchOk(w, a, b, r, since, wait) && !Threw(r) && Distinct(Ids(r.claimed))
    ensures Elements(LogIds(BatchLog(w, a, r))) == Elements(Ids(r.claimed))
  {
    var log := BatchLog(w, a, r);
    LogIsOfBatch(w, a, r);
    forall id | id in Elements(Ids(r.claimed)) ensures id in Elements(LogIds(log)) {
      var k :| 0 <= k < |r.claimed| && Ids(r.claimed)[k] == id;
      AllReported(w, a, b, r, since, wait, k);
      ReportsAre(w, a, r, k, VerdictOf(w, a, r, k).value);
      var n :| 0 <= n < |log| && log[n] == Settled(id, VerdictOf(w, a, r, k).value);
      assert LogIds(log)[n] == id;
    }
  }

  /**
   When a batch comes through, every claimed row has left `delivering`, and the counts are the numbers of its
   rows that are now delivered, back in the queue, and parked.
   */
  lemma BatchConserves(w: World, a: Calls, b: Calls, t: Table, r: BatchRun, since: Time, wait: nat -> int)
    requires BatchOk(w, a, b, r, since, wait) && !Threw(r) && Indexed(t) && Holds(t, r.claimed)
    ensures var t', log, ids := BatchTable(w, a, t, r), BatchLog(w, a, r), Elements(Ids(r.claimed));
            && CountsOf(log) == RowCounts(t', ids)
            && CountsOf(log).Touched() == |r.claimed|
            && forall id | id in ids :: id in t' && t'[id].status in {Delivered, Retry, Parked}
  {
    var t', log := BatchTable(w, a, t, r), BatchLog(w, a, r);
    LogIsOfBatch(w, a, r);
    AllIdsReported(w, a, b, r, since, wait);
    LogAgrees(w, a, t, r);
    CountsCountRows(t', log);
    CountsCountEach(log);
    DistinctElements(LogIds(log));
    DistinctElements(Ids(r.claimed));
    AgreedStatuses(t', log);
  }

  lemma AgreedStatuses(t: Table, log: seq<Settled>)
    requires Agrees(t, log)
    ensures forall id | id in Elements(LogIds(log)) :: id in t && t[id].status in {Delivered, Retry, Parked}
  {
    forall id | id in Elements(LogIds(log)) ensures id in t && t[id].status in {Delivered, Retry, Parked} {
      var k :| 0 <= k < |log| && LogIds(log)[k] == id;
      assert t[log[k].id].status == StatusOf(log[k].verdict);
    }
  }

  /** The record of this event was posted, and its result is not among the rejected ones. */
  predicate WasSent(w: World, a: Calls, claimed: seq<EventRow>, k: nat)
    requires k < |claimed|
  {
    && MappingOf(w, a.mapped + k, claimed[k]).Mapped?
    && MappingOf(w, a.mapped + k, claimed[k]).record in MappedRecords(w, a.mapped, claimed)
    && !IsRejectedAt(w, a, claimed, k)
  }

  /** A post was made and accepted, and this event's record was in it and not rejected. */
  predicate WasAccepted(w: World, a: Calls, b: Calls, claimed: seq<EventRow>, k: nat)
    requires k < |claimed|
  {
    a.post < b.post && ReplyOf(w, a, claimed).Accepted? && WasSent(w, a, claimed, k)
  }

  lemma NoneRejected(w: World, a: Calls, claimed: seq<EventRow>, k: nat)
    requires k < |claimed| && FailedOf(w, a, claimed) == {}
    ensures !IsRejectedAt(w, a, claimed, k)
  {
  }

  /**
   A row is delivered by a batch - reported or not - exactly if its record was in the post that was made, the post was
   accepted, its result is not among the rejected ones, and the batch was settled as the results say. It names the bulk
   request.
   */
  lemma DeliveredWasAccepted(w: World, a: Calls, b: Calls, r: BatchRun, since: Time, wait: nat -> int, k: nat)
    requires BatchOk(w, a, b, r, since, wait) && k < |r.claimed| && r.claimed[k].status != Delivered
    ensures RowEnd(w, a, r, k).status == Delivered <==>
              WasAccepted(w, a, b, r.claimed, k) && (r.ending.AllDelivered? || r.ending.SplitUp?)
    ensures RowEnd(w, a, r, k).status == Delivered ==>
              && VerdictOf(w, a, r, k) == Some(AsDelivered)
              && RowEnd(w, a, r, k).bulkRequestId == Some(ReplyOf(w, a, r.claimed).bulk)
  {
    DeliveredWhen(w, a, r, k);
    if MappingOf(w, a.mapped + k, r.claimed[k]).Mapped? && (r.ending.AllDelivered? || r.ending.SplitUp?) {
      PostedDelivers(w, a, b, r, since, wait, k);
    }
  }

  lemma DeliveredWhen(w: World, a: Calls, r: BatchRun, k: nat)
    requires k < |r.claimed| && r.claimed[k].status != Delivered
    ensures RowEnd(w, a, r, k).status == Delivered <==>
              && MappingOf(w, a.mapped + k, r.claimed[k]).Mapped?
              && (r.ending.AllDelivered? || (r.ending.SplitUp? && !IsRejectedAt(w, a, r.claimed, k)))
    ensures RowEnd(w, a, r, k).status == Delivered ==>
              RowEnd(w, a, r, k).bulkRequestId == BulkOf(ReplyOf(w, a, r.claimed)) && VerdictOf(w, a, r, k) == Some(AsDelivered)
  {
    EarlyEndsUndelivered(MappingOf(w, a.mapped + k, r.claimed[k]), r.claimed[k], if k < |r.nexts| then r.nexts[k] else 0);
    EndDelivers(r.claimed[k], IsRejectedAt(w, a, r.claimed, k), ReplyOf(w, a, r.claimed), r.ending);
  }

  lemma EarlyEndsUndelivered(m: Mapping, c: EventRow, next: Time)
    requires c.status != Delivered
    ensures EarlyRow(m, c, next).status != Delivered
  {
  }

  lemma EndDelivers(c: EventRow, rejected: bool, reply: Reply, e: Ending)
    requires c.status != Delivered
    ensures EndRow(c, rejected, reply, e).status == Delivered <==> e.AllDelivered? || (e.SplitUp? && !rejected)
    ensures EndRow(c, rejected, reply, e).status == Delivered ==>
              EndRow(c, rejected, reply, e).bulkRequestId == BulkOf(reply) && LateVerdict(rejected, e) == Some(AsDelivered)
  {
  }

  lemma PostedDelivers(w: World, a: Calls, b: Calls, r: BatchRun, since: Time, wait: nat -> int, k: nat)
    requires BatchOk(w, a, b, r, since, wait) && (r.ending.AllDelivered? || r.ending.SplitUp?)
    requires k < |r.claimed| && MappingOf(w, a.mapped + k, r.claimed[k]).Mapped?
    ensures a.post < b.post && ReplyOf(w, a, r.claimed).Accepted?
    ensures r.ending.AllDelivered? ==> !IsRejectedAt(w, a, r.claimed, k)
    ensures MappingOf(w, a.mapped + k, r.claimed[k]).record in MappedRecords(w, a.mapped, r.claimed)
  {
    MappedAt(w, a.mapped, r.claimed, k);
    RecordAt(w, a.mapped, r.claimed, k);
    if r.ending.AllDelivered? {
      NoneRejected(w, a, r.claimed, k);
    }
  }

  lemma {:induction false} RecordAt(w: World, first: nat, claimed: seq<EventRow>, k: nat)
    requires k < |claimed| && MappingOf(w, first + k, claimed[k]).Mapped?
    ensures MappingOf(w, first + k, claimed[k]).record in MappedRecords(w, first, claimed)
    decreases |claimed|
  {
    var last := |claimed| - 1;
    if k < last {
      RecordAt(w, first, claimed[..last], k);
    } else {
      var records := MappedRecords(w, first, claimed);
      assert records[|records| - 1] == MappingOf(w, first + k, claimed[k]).record;
    }
  }

  lemma {:induction false} WaitGrows(wait: nat -> int, cfg: Settings, own: nat, most: nat)
    requires IsLeastDelay(wait, cfg) && own <= most
    ensures wait(own) <= wait(most)
  {
    RawMonotone(own, most, cfg.backoffBaseMs, cfg.backoffCapMs);
    ScaledMonotone(RawMs(own, cfg.backoffBaseMs, cfg.backoffCapMs), RawMs(most, cfg.backoffBaseMs, cfg.backoffCapMs), 0.8, 0.8);
    assert LeastMs(own, cfg.backoffBaseMs, cfg.backoffCapMs) <= LeastMs(most, cfg.backoffBaseMs, cfg.backoffCapMs);
  }

  lemma PostedRetryWaits(w: World, first: nat, claimed: seq<EventRow>, k: nat, next: Time, since: Time, wait: nat -> int, cfg: Settings)
    requires k < |claimed| && MappingOf(w, first + k, claimed[k]).Mapped? && IsLeastDelay(wait, cfg)
    requires next >= since + wait(MaxAttempts(MappedRows(w, first, claimed)))
    ensures next >= since + wait(claimed[k].attempts)
  {
    var batch := MappedRows(w, first, claimed);
    MappedAt(w, first, claimed, k);
    MaxAttemptsBounds(batch);
    assert batch[|MappedRows(w, first, claimed[..k])|].attempts <= MaxAttempts(batch);
    WaitGrows(wait, cfg, claimed[k].attempts, MaxAttempts(batch));
  }

  lemma RetryTimes(w: World, a: Calls, b: Calls, r: BatchRun, since: Time, wait: nat -> int)
    requires BatchOk(w, a, b, r, since, wait)
    ensures RetriesWait(w, a.mapped, r.claimed, r.nexts, since, wait)
    ensures r.ending.BatchRetried? ==> r.ending.next >= since + wait(MaxAttempts(MappedRows(w, a.mapped, r.claimed)))
  {
  }

  /** A row reported as retried counts one attempt more and waits at least its own shortest delay, whoever it failed with. */
  lemma RetriedRowsWait(w: World, a: Calls, b: Calls, r: BatchRun, since: Time, wait: nat -> int, cfg: Settings, k: nat)
    requires BatchOk(w, a, b, r, since, wait) && IsLeastDelay(wait, cfg)
    requires k < |r.claimed| && VerdictOf(w, a, r, k) == Some(AsRetried)
    ensures Waits(r.claimed[k], RowEnd(w, a, r, k), since, wait)
  {
    RetryTimes(w, a, b, r, since, wait);
    RetriedRow(w, a, r, since, wait, cfg, k);
  }

  /** One more attempt, and no earlier than the shortest delay for its attempts. */
  predicate Waits(c: EventRow, row: EventRow, since: Time, wait: nat -> int) {
    && row.attempts == c.attempts + 1
    && row.nextAttemptAt.Some? && row.nextAttemptAt.value >= since + wait(c.attempts)
  }

  lemma RetriedRow(w: World, a: Calls, r: BatchRun, since: Time, wait: nat -> int, cfg: Settings, k: nat)
    requires IsLeastDelay(wait, cfg) && RetriesWait(w, a.mapped, r.claimed, r.nexts, since, wait)
    requires r.ending.BatchRetried? ==> r.ending.next >= since + wait(MaxAttempts(MappedRows(w, a.mapped, r.claimed)))
    requires k < |r.claimed| && VerdictOf(w, a, r, k) == Some(AsRetried)
    ensures Waits(r.claimed[k], RowEnd(w, a, r, k), since, wait)
  {
    if MappingOf(w, a.mapped + k, r.claimed[k]).Mapped? {
      PostedRetryWaits(w, a.mapped, r.claimed, k, r.ending.next, since, wait, cfg);
    } else {
      assert r.nexts[k] >= since + wait(r.claimed[k].attempts);
    }
  }

  /** The event maps, or the map refuses it. */
  predicate IsDecidable(m: Mapping) {
    m.Mapped? || m.Unmappable?
  }

  /** The calls of a batch that go well: the store answers, every event maps or is refused by the map, the post is accepted. */
  ghost predicate GoesWell(w: World, a: Calls, b: Calls, claimed: seq<EventRow>) {
    && !StoreFailed(w, a, b)
    && (forall k | 0 <= k < |claimed| :: IsDecidable(MappingOf(w, a.mapped + k, claimed[k])))
    && (MappedRows(w, a.mapped, claimed) != [] ==> ReplyOf(w, a, claimed).Accepted?)
  }

  /** What then becomes of an event: parked if the map refuses it or its result was rejected, delivered otherwise. */
  function Fate(w: World, a: Calls, claimed: seq<EventRow>, k: nat): Status
    requires k < |claimed|
  {
    if MappingOf(w, a.mapped + k, claimed[k]).Unmappable? || IsRejectedAt(w, a, claimed, k) then Parked else Delivered
  }

  /** An exception has its cause: a store call of the batch failed, or the event it stopped at does not decode. */
  lemma ThrewBecause(w: World, a: Calls, b: Calls, r: BatchRun, since: Time, wait: nat -> int)
    requires BatchOk(w, a, b, r, since, wait) && Threw(r)
    ensures StoreFailed(w, a, b) ||
            (|r.nexts| < |r.claimed| && MappingOf(w, a.mapped + |r.nexts|, r.claimed[|r.nexts|]).Undecodable?)
  {
    var p := a.store + |EarlyLog(w, a.mapped, Handled(r))|;
    if |r.nexts| == |r.claimed| {
      assert b.store > p && !StoreUp(w, b.store - 1);
    }
  }

  lemma GoodBatchEnds(w: World, a: Calls, b: Calls, r: BatchRun, since: Time, wait: nat -> int)
    requires BatchOk(w, a, b, r, since, wait) && GoesWell(w, a, b, r.claimed)
    ensures !Threw(r)
    ensures r.ending.NotPosted? || r.ending.SplitUp? || (r.ending.AllDelivered? && FailedOf(w, a, r.claimed) == {})
  {
    if Threw(r) {
      ThrewBecause(w, a, b, r, since, wait);
    }
    assert forall n: nat | a.store <= n < b.store :: StoreUp(w, n);
  }

  /**
   In a batch whose calls go well nothing is thrown, and every claimed row is delivered unless it is unmappable or
   rejected, in which case it is parked; what happens to one row does not keep the others from being delivered.
   */
  lemma GoodBatchDelivers(w: World, a: Calls, b: Calls, r: BatchRun, since: Time, wait: nat -> int, k: nat)
    requires BatchOk(w, a, b, r, since, wait) && GoesWell(w, a, b, r.claimed) && k < |r.claimed|
    ensures !Threw(r) && RowEnd(w, a, r, k).status == Fate(w, a, r.claimed, k)
    ensures VerdictOf(w, a, r, k) == Some(if Fate(w, a, r.claimed, k) == Parked then AsParked else AsDelivered)
  {
    GoodBatchEnds(w, a, b, r, since, wait);
    AllReported(w, a, b, r, since, wait, k);
    assert IsDecidable(MappingOf(w, a.mapped + k, r.claimed[k]));
    if r.ending.AllDelivered? {
      NoneRejected(w, a, r.claimed, k);
    }
  }
}
