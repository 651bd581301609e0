/**
 The routes of a dispatch cycle: what one visit to a route does to the table and reports, how the visits of a cycle
 add up, and what the cycle leaves of each row.
 */
module Cycles {
  import opened Prelude
  import opened EventTable
  import opened Settlement
  import opened Outside
  import opened BulkResults
  import opened Batches
  import opened Fates

  /** No row is being delivered by this instance. */
  predicate NoneInFlight(t: Table, me: string) {
    forall id | id in t :: !(t[id].status == Delivering && t[id].claimedBy == Some(me))
  }

  /** Without the flag, nothing of this instance's is left in `delivering`. */
  predicate OwnLeft(t: Table, owner: Option<string>, me: string) {
    (owner.Some? ==> owner.value == me) && (owner.None? ==> NoneInFlight(t, me))
  }

  predicate OwnLeftKept(t: Table, t': Table, owner: Option<string>, owner': Option<string>, me: string) {
    OwnLeft(t, owner, me) ==> OwnLeft(t', owner', me)
  }

  // ---- one visit to a route ----

  /** Whose leases, how long, how many rows at once, and the shortest delay for a number of attempts. */
  datatype Terms = Terms(me: string, leaseMs: nat, limit: nat, wait: nat -> int)

  /** A claim, the batch it gave, settled by the calls up to `settled`, and when the rest was released. */
  datatype Visit =
    | ClaimFailed(routeId: string, from: Calls, to: Calls, since: Time)
    | Visited(routeId: string, from: Calls, settled: Calls, to: Calls, since: Time, run: BatchRun, released: Option<Time>)

  function Claimed(v: Visit): seq<EventRow> {
    if v.Visited? then v.run.claimed else []
  }

  /** The calls of the batch come after the claim. */
  function Start(v: Visit): Calls {
    v.from.(store := v.from.store + 1)
  }

  predicate VisitThrew(v: Visit) {
    v.ClaimFailed? || Threw(v.run)
  }

  function VisitLog(w: World, v: Visit): seq<Settled> {
    if v.Visited? then BatchLog(w, Start(v), v.run) else []
  }

  function LeaseOf(terms: Terms, v: Visit): Lease {
    Lease(terms.me, v.since + terms.leaseMs)
  }

  function ClaimTable(terms: Terms, at: Time, t: Table, v: Visit): Table {
    Exec(t, ClaimIds(Elements(Ids(Claimed(v))), at, LeaseOf(terms, v)))
  }

  function ReleaseTable(t: Table, ids: set<Id>, released: Option<Time>): Table {
    if released.Some? then Exec(t, ReleaseIds(ids, released.value, LEFT)) else t
  }

  /** The table after a visit. */
  function VisitTable(w: World, terms: Terms, at: Time, t: Table, v: Visit): Table {
    if v.ClaimFailed? then t
    else
      ReleaseTable(BatchTable(w, Start(v), ClaimTable(terms, at, t, v), v.run), Elements(Ids(v.run.claimed)), v.released)
  }

  /** The batch consists of these rows of the table, leased. */
  predicate AsClaimed(t: Table, claimed: seq<EventRow>, at: Time, lease: Lease) {
    forall k | 0 <= k < |claimed| :: claimed[k].id in t && claimed[k] == ClaimedRow(t[claimed[k].id], at, lease)
  }

  /** The oldest due rows of the route were claimed, and the calls of the visit, with their answers, are those of its batch. */
  ghost predicate VisitOk(w: World, terms: Terms, at: Time, t: Table, v: Visit) {
    match v
    case ClaimFailed(_, from, to, since) => at <= since && !StoreUp(w, from.store) && to == Start(v)
    case Visited(routeId, from, settled, to, since, run, released) =>
      && at <= since && StoreUp(w, from.store)
      && IsOldest(t, Due(routeId, at), terms.limit, Ids(run.claimed)) && AsClaimed(t, run.claimed, at, LeaseOf(terms, v))
      && BatchOk(w, Start(v), settled, run, since, terms.wait) && SettledSince(run.ending, since)
      && (released.Some? ==> released.value >= since)
      && if run.claimed == [] then to == settled && released == None
         else to == settled.(store := settled.store + 1) && (released.Some? <==> StoreUp(w, settled.store))
  }

  ghost predicate VisitDone(w: World, terms: Terms, at: Time, t: Table, t': Table, v: Visit) {
    VisitOk(w, terms, at, t, v) && t' == VisitTable(w, terms, at, t, v)
  }

  /** The reclaim flag after a release: raised if it failed. */
  function FlagReleased(owner: Option<string>, me: string, released: Option<Time>): Option<string> {
    if released.Some? then owner else Some(me)
  }

  function FlagAfter(owner: Option<string>, me: string, v: Visit): Option<string> {
    if Claimed(v) == [] then owner else FlagReleased(owner, me, v.released)
  }

  /** The row of event `k` after the visit: what is still being delivered goes back to the queue. */
  function VisitRow(w: World, v: Visit, k: nat): EventRow
    requires k < |Claimed(v)|
  {
    var row := RowEnd(w, Start(v), v.run, k);
    if v.released.Some? && row.status == Delivering then FailedRow(row, v.released.value, LEFT) else row
  }

  lemma ClaimedBatch(t: Table, routeId: string, at: Time, limit: nat, lease: Lease, picked: seq<Id>, claimed: seq<EventRow>)
    requires Indexed(t) && IsOldest(t, Due(routeId, at), limit, picked) && |claimed| == |picked|
    requires forall k | 0 <= k < |picked| :: picked[k] in t && claimed[k] == ClaimedRow(t[picked[k]], at, lease)
    ensures Ids(claimed) == picked && Distinct(Ids(claimed)) && AsClaimed(t, claimed, at, lease)
  {
    forall k | 0 <= k < |picked| ensures Ids(claimed)[k] == picked[k] {
      assert t[picked[k]].id == picked[k];
    }
    forall i, j | 0 <= i < j < |picked| ensures picked[i] != picked[j] {
    }
  }

  predicate IsEmptyRun(r: BatchRun) {
    r.claimed == [] && r.nexts == [] && r.ending == NotPosted
  }

  /** A batch of no rows makes no call and changes nothing. */
  lemma EmptyBatch(w: World, a: Calls, t: Table, r: BatchRun, since: Time, wait: nat -> int)
    requires IsEmptyRun(r)
    ensures BatchOk(w, a, a, r, since, wait) && BatchTable(w, a, t, r) == t && BatchLog(w, a, r) == []
  {
    assert Handled(r) == [];
  }

  /** The visit to a route none of whose rows was due any more. */
  predicate IsEmptyVisit(v: Visit) {
    v.Visited? && IsEmptyRun(v.run) && v.settled == Start(v) && v.to == Start(v) && v.released == None
  }

  lemma EmptyVisitOk(w: World, terms: Terms, at: Time, t: Table, v: Visit)
    requires IsEmptyVisit(v) && at <= v.since && StoreUp(w, v.from.store) && IsOldest(t, Due(v.routeId, at), terms.limit, [])
    ensures VisitOk(w, terms, at, t, v)
  {
    assert Ids(v.run.claimed) == [];
    EmptyBatch(w, Start(v), t, v.run, v.since, terms.wait);
  }

  lemma EmptyVisitTable(w: World, terms: Terms, at: Time, t: Table, v: Visit)
    requires IsEmptyVisit(v)
    ensures VisitTable(w, terms, at, t, v) == Exec(t, ClaimIds(Elements<Id>([]), at, LeaseOf(terms, v))) && VisitLog(w, v) == []
  {
    assert Ids(v.run.claimed) == [];
    EmptyBatch(w, Start(v), ClaimTable(terms, at, t, v), v.run, v.since, terms.wait);
  }

  /** The batch claimed of the table `t`, and the table with its leases. */
  ghost predicate ClaimDone(terms: Terms, at: Time, t: Table, u: Table, routeId: string, claimed: seq<EventRow>, since: Time) {
    match terms
    case Terms(me, leaseMs, limit, _) =>
      var lease := Lease(me, since + leaseMs);
      && IsOldest(t, Due(routeId, at), limit, Ids(claimed)) && Distinct(Ids(claimed))
      && AsClaimed(t, claimed, at, lease)
      && u == Exec(t, ClaimIds(Elements(Ids(claimed)), at, lease))
  }

  lemma ClaimMade(terms: Terms, at: Time, t: Table, u: Table, routeId: string, claimed: seq<EventRow>, picked: seq<Id>, since: Time)
    requires Indexed(t) && IsOldest(t, Due(routeId, at), terms.limit, picked) && |claimed| == |picked|
    requires forall k | 0 <= k < |picked| ::
               picked[k] in t && claimed[k] == ClaimedRow(t[picked[k]], at, Lease(terms.me, since + terms.leaseMs))
    requires u == Exec(t, ClaimIds(Elements(picked), at, Lease(terms.me, since + terms.leaseMs)))
    ensures ClaimDone(terms, at, t, u, routeId, claimed, since)
  {
    ClaimedBatch(t, routeId, at, terms.limit, Lease(terms.me, since + terms.leaseMs), picked, claimed);
  }

  /** The claim found no row. */
  lemma EmptyVisitMade(w: World, terms: Terms, at: Time, t: Table, u: Table, v: Visit)
    requires IsEmptyVisit(v) && at <= v.since && StoreUp(w, v.from.store) && ClaimDone(terms, at, t, u, v.routeId, [], v.since)
    ensures VisitDone(w, terms, at, t, u, v) && VisitLog(w, v) == []
  {
    assert Ids([]) == [];
    EmptyVisitOk(w, terms, at, t, v);
    EmptyVisitTable(w, terms, at, t, v);
  }

  /** A claim, a batch and a release make a visit. */
  lemma FlagOf(owner: Option<string>, me: string, v: Visit)
    requires v.Visited? && v.run.claimed != []
    ensures FlagAfter(owner, me, v) == FlagReleased(owner, me, v.released)
  {
  }

  lemma VisitMadeOk(w: World, terms: Terms, at: Time, t: Table, u: Table, v: Visit)
    requires v.Visited? && at <= v.since && StoreUp(w, v.from.store) && v.run.claimed != []
    requires ClaimDone(terms, at, t, u, v.routeId, v.run.claimed, v.since)
    requires BatchOk(w, Start(v), v.settled, v.run, v.since, terms.wait) && SettledSince(v.run.ending, v.since)
    requires v.released.Some? ==> v.released.value >= v.since
    requires v.to == v.settled.(store := v.settled.store + 1) && (v.released.Some? <==> StoreUp(w, v.settled.store))
    ensures VisitOk(w, terms, at, t, v)
  {
  }

  lemma VisitMadeTable(w: World, terms: Terms, at: Time, t: Table, u: Table, u': Table, t': Table, v: Visit)
    requires v.Visited? && ClaimDone(terms, at, t, u, v.routeId, v.run.claimed, v.since)
    requires u' == BatchTable(w, Start(v), u, v.run) && t' == ReleaseTable(u', Elements(Ids(v.run.claimed)), v.released)
    ensures t' == VisitTable(w, terms, at, t, v)
  {
  }

  lemma VisitMade(w: World, terms: Terms, at: Time, t: Table, u: Table, u': Table, t': Table, routeId: string, from: Calls, start: Calls,
                  settled: Calls, to: Calls, since: Time, claimed: seq<EventRow>, run: BatchRun, released: Option<Time>, log: seq<Settled>,
                  owner: Option<string>)
      returns (v: Visit)
    requires at <= since && StoreUp(w, from.store) && run.claimed == claimed && claimed != [] && start == from.(store := from.store + 1)
    requires ClaimDone(terms, at, t, u, routeId, claimed, since)
    requires BatchDone(w, start, settled, u, u', run, log, since, terms.wait) && SettledSince(run.ending, since)
    requires released.Some? ==> released.value >= since
    requires to == settled.(store := settled.store + 1) && (released.Some? <==> StoreUp(w, settled.store))
    requires t' == ReleaseTable(u', Elements(Ids(claimed)), released)
    ensures v == Visited(routeId, from, settled, to, since, run, released)
    ensures VisitDone(w, terms, at, t, t', v) && log == VisitLog(w, v)
    ensures FlagAfter(owner, terms.me, v) == FlagReleased(owner, terms.me, released) && VisitThrew(v) == Threw(run)
  {
    v := Visited(routeId, from, settled, to, since, run, released);
    assert Start(v) == start;
    VisitMadeOk(w, terms, at, t, u, v);
    VisitMadeTable(w, terms, at, t, u, u', t', v);
    FlagOf(owner, terms.me, v);
  }

  // ---- a visit, row by row ----

  lemma ClaimedAreHeld(terms: Terms, at: Time, t: Table, v: Visit, limit: nat)
    requires Indexed(t) && IsOldest(t, Due(v.routeId, at), limit, Ids(Claimed(v))) && AsClaimed(t, Claimed(v), at, LeaseOf(terms, v))
    ensures Holds(ClaimTable(terms, at, t, v), Claimed(v)) && Indexed(ClaimTable(terms, at, t, v))
    ensures OnlyRows(t, ClaimTable(terms, at, t, v), Elements(Ids(Claimed(v))))
  {
    var ids := Ids(Claimed(v));
    MarksOnly(t, ClaimIds(Elements(ids), at, LeaseOf(terms, v)));
    forall i, j | 0 <= i < j < |ids| ensures ids[i] != ids[j] {
    }
    forall k | 0 <= k < |ids| ensures ids[k] in Elements(ids) {
    }
  }

  /** A visit changes the rows it claimed and no others. */
  lemma VisitOnly(w: World, terms: Terms, at: Time, t: Table, v: Visit)
    requires Indexed(t) && VisitOk(w, terms, at, t, v)
    ensures Indexed(VisitTable(w, terms, at, t, v)) && OnlyRows(t, VisitTable(w, terms, at, t, v), Elements(Ids(Claimed(v))))
  {
    if v.Visited? {
      ClaimedAreHeld(terms, at, t, v, terms.limit);
      VisitedOnly(w, t, ClaimTable(terms, at, t, v), Start(v), v.run, v.released);
    }
  }

  lemma VisitedOnly(w: World, t: Table, u: Table, a: Calls, r: BatchRun, released: Option<Time>)
    requires Indexed(u) && Holds(u, r.claimed) && OnlyRows(t, u, Elements(Ids(r.claimed)))
    ensures var t' := ReleaseTable(BatchTable(w, a, u, r), Elements(Ids(r.claimed)), released);
            Indexed(t') && OnlyRows(t, t', Elements(Ids(r.claimed)))
  {
    var ids := Elements(Ids(r.claimed));
    BatchOnly(w, a, u, r);
    OnlyRowsTrans(t, u, BatchTable(w, a, u, r), ids, ids);
    assert ids + ids == ids;
    if released.Some? {
      MarksMore(t, BatchTable(w, a, u, r), ReleaseIds(ids, released.value, LEFT), ids);
    }
  }

  /** Claim, batch and release, row by row. */
  lemma VisitRowIs(w: World, terms: Terms, at: Time, t: Table, v: Visit, k: nat)
    requires Indexed(t) && VisitOk(w, terms, at, t, v) && k < |Claimed(v)|
    ensures Claimed(v)[k].id in VisitTable(w, terms, at, t, v)
    ensures VisitTable(w, terms, at, t, v)[Claimed(v)[k].id] == VisitRow(w, v, k)
  {
    ClaimedAreHeld(terms, at, t, v, terms.limit);
    VisitedRowIs(w, ClaimTable(terms, at, t, v), v, k);
  }

  lemma VisitedRowIs(w: World, u: Table, v: Visit, k: nat)
    requires Indexed(u) && k < |Claimed(v)| && Holds(u, Claimed(v))
    ensures var t' := ReleaseTable(BatchTable(w, Start(v), u, v.run), Elements(Ids(v.run.claimed)), v.released);
            Claimed(v)[k].id in t' && t'[Claimed(v)[k].id] == VisitRow(w, v, k)
  {
    BatchRowIs(w, Start(v), u, v.run, k);
    RowEndIsEvent(w, Start(v), v.run, k);
    assert Ids(v.run.claimed)[k] in Elements(Ids(v.run.claimed));
  }

  lemma RowEndIsEvent(w: World, a: Calls, r: BatchRun, k: nat)
    requires k < |r.claimed|
    ensures SameEvent(r.claimed[k], RowEnd(w, a, r, k)) && RowEnd(w, a, r, k).body == r.claimed[k].body
  {
  }

  /**
   The row of an event that was not reported: leased as it was, with the reclaim flag up; back in the queue with one
   attempt more; or parked for the rejected result of a post that was made and accepted.
   */
  predicate LeftOver(w: World, v: Visit, k: nat, row: EventRow)
    requires k < |Claimed(v)|
  {
    var c := Claimed(v)[k];
    || (row == c && v.released.None?)
    || (v.released.Some? && row == FailedRow(c, v.released.value, LEFT))
    || (&& row == ParkedRow(c, REJECTED)
        && ReplyOf(w, Start(v), v.run.claimed).Accepted? && Start(v).post < v.to.post && IsRejectedAt(w, Start(v), v.run.claimed, k))
  }

  lemma VisitReportsOnce(w: World, terms: Terms, at: Time, t: Table, v: Visit, k: nat)
    requires Indexed(t) && VisitOk(w, terms, at, t, v) && k < |Claimed(v)|
    ensures Distinct(LogIds(VisitLog(w, v)))
    ensures forall x :: Settled(Claimed(v)[k].id, x) in VisitLog(w, v) <==> VerdictOf(w, Start(v), v.run, k) == Some(x)
  {
    ClaimedAreHeld(terms, at, t, v, terms.limit);
    RunReportsOnce(w, Start(v), v.run, k);
  }

  lemma RunReportsOnce(w: World, a: Calls, r: BatchRun, k: nat)
    requires Distinct(Ids(r.claimed)) && k < |r.claimed|
    ensures Distinct(LogIds(BatchLog(w, a, r)))
    ensures forall x :: Settled(r.claimed[k].id, x) in BatchLog(w, a, r) <==> VerdictOf(w, a, r, k) == Some(x)
  {
    LogIsOfBatch(w, a, r);
    forall x ensures Settled(r.claimed[k].id, x) in BatchLog(w, a, r) <==> VerdictOf(w, a, r, k) == Some(x) {
      ReportsAre(w, a, r, k, x);
    }
  }

  lemma VisitLeavesOver(w: World, terms: Terms, at: Time, t: Table, v: Visit, k: nat)
    requires VisitOk(w, terms, at, t, v) && k < |Claimed(v)| && VerdictOf(w, Start(v), v.run, k).None?
    ensures VisitThrew(v) && LeftOver(w, v, k, VisitRow(w, v, k))
  {
    UnreportedIs(w, Start(v), v.settled, v.run, v.since, terms.wait, k);
    LeftIsDelivering(terms, at, t, v, k);
  }

  lemma LeftIsDelivering(terms: Terms, at: Time, t: Table, v: Visit, k: nat)
    requires k < |Claimed(v)| && AsClaimed(t, Claimed(v), at, LeaseOf(terms, v))
    ensures Claimed(v)[k].status == Delivering
  {
  }

  lemma ReportedRow(w: World, v: Visit, k: nat)
    requires k < |Claimed(v)| && VerdictOf(w, Start(v), v.run, k).Some?
    ensures VisitRow(w, v, k) == RowEnd(w, Start(v), v.run, k)
    ensures VisitRow(w, v, k).status == StatusOf(VerdictOf(w, Start(v), v.run, k).value)
  {
    VerdictIsStatus(w, Start(v), v.run, k);
  }

  /**
   Every claimed row is accounted for, whatever fails. It is reported, once, and the report is true of the table; or an
   exception left the batch, it is not reported, and it is left over as `LeftOver` says: nothing is delivered unreported,
   and nothing stays in `delivering` unless the reclaim flag is up.
   */
  lemma VisitSettles(w: World, terms: Terms, at: Time, t: Table, v: Visit, k: nat)
    requires Indexed(t) && VisitOk(w, terms, at, t, v) && k < |Claimed(v)|
    ensures var c, row, verdict := Claimed(v)[k], VisitRow(w, v, k), VerdictOf(w, Start(v), v.run, k);
            && Distinct(LogIds(VisitLog(w, v)))
            && (forall x :: Settled(c.id, x) in VisitLog(w, v) <==> verdict == Some(x))
            && (verdict.Some? ==> row == RowEnd(w, Start(v), v.run, k) && row.status == StatusOf(verdict.value))
            && (verdict.None? ==> VisitThrew(v) && LeftOver(w, v, k, row))
  {
    VisitReportsOnce(w, terms, at, t, v, k);
    if VerdictOf(w, Start(v), v.run, k).Some? {
      ReportedRow(w, v, k);
    } else {
      VisitLeavesOver(w, terms, at, t, v, k);
    }
  }

  /** Nothing of this instance's is left in `delivering` unless the flag is up. */
  lemma VisitOwnLeft(w: World, terms: Terms, at: Time, t: Table, v: Visit, owner: Option<string>)
    requires Indexed(t) && VisitOk(w, terms, at, t, v) && OwnLeft(t, owner, terms.me)
    ensures OwnLeft(VisitTable(w, terms, at, t, v), FlagAfter(owner, terms.me, v), terms.me)
  {
    var t' := VisitTable(w, terms, at, t, v);
    VisitOnly(w, terms, at, t, v);
    if FlagAfter(owner, terms.me, v).None? {
      forall id | id in t' ensures !(t'[id].status == Delivering && t'[id].claimedBy == Some(terms.me)) {
        if id in Elements(Ids(Claimed(v))) {
          var k :| 0 <= k < |Claimed(v)| && Ids(Claimed(v))[k] == id;
          VisitRowIs(w, terms, at, t, v, k);
          ReleasedIsOut(w, v, k);
        }
      }
    }
  }

  lemma ReleasedIsOut(w: World, v: Visit, k: nat)
    requires k < |Claimed(v)| && v.released.Some?
    ensures VisitRow(w, v, k).status != Delivering
  {
  }

  lemma GoodSettling(w: World, a: Calls, b: Calls, c: Calls, claimed: seq<EventRow>)
    requires GoesWell(w, a, c, claimed) && b.store <= c.store
    ensures GoesWell(w, a, b, claimed)
  {
  }

  /** The row of event `k` and its report, if the calls of the visit go well. */
  lemma GoodVisitDelivers(w: World, terms: Terms, at: Time, t: Table, v: Visit, k: nat)
    requires VisitOk(w, terms, at, t, v) && k < |Claimed(v)| && GoesWell(w, Start(v), v.to, Claimed(v))
    ensures !VisitThrew(v) && VisitRow(w, v, k).status == Fate(w, Start(v), Claimed(v), k)
  {
    GoodSettling(w, Start(v), v.settled, v.to, v.run.claimed);
    GoodBatchDelivers(w, Start(v), v.settled, v.run, v.since, terms.wait, k);
  }

  // ---- the visits of a cycle ----

  /** The table after the visits in turn. */
  function CycleTable(w: World, terms: Terms, at: Time, t: Table, visits: seq<Visit>): Table {
    if visits == [] then t
    else VisitTable(w, terms, at, CycleTable(w, terms, at, t, visits[..|visits| - 1]), visits[|visits| - 1])
  }

  function CycleLog(w: World, visits: seq<Visit>): seq<Settled> {
    if visits == [] then [] else CycleLog(w, visits[..|visits| - 1]) + VisitLog(w, visits[|visits| - 1])
  }

  function FlagAfterAll(owner: Option<string>, me: string, visits: seq<Visit>): Option<string> {
    if visits == [] then owner
    else FlagAfter(FlagAfterAll(owner, me, visits[..|visits| - 1]), me, visits[|visits| - 1])
  }

  function RoutesOf(visits: seq<Visit>): seq<string> {
    seq(|visits|, j requires 0 <= j < |visits| => visits[j].routeId)
  }

  lemma RoutesNext(visits: seq<Visit>)
    requires visits != []
    ensures RoutesOf(visits) == RoutesOf(visits[..|visits| - 1]) + [visits[|visits| - 1].routeId]
  {
  }

  /** The calls so far, when the visits began with the calls `a`. */
  function EndOf(a: Calls, visits: seq<Visit>): Calls {
    if visits == [] then a else visits[|visits| - 1].to
  }

  /** Between two visits only routes and their pauses were read. */
  predicate OnlyControl(a: Calls, b: Calls) {
    a.control <= b.control && b == a.(control := b.control)
  }

  /** Each visit began where the one before it ended, and is a visit to the table that left. */
  ghost predicate VisitsOk(w: World, terms: Terms, at: Time, t: Table, visits: seq<Visit>, a: Calls) {
    visits != [] ==>
      var before, v := visits[..|visits| - 1], visits[|visits| - 1];
      && VisitsOk(w, terms, at, t, before, a)
      && OnlyControl(EndOf(a, before), v.from)
      && VisitOk(w, terms, at, CycleTable(w, terms, at, t, before), v)
  }

  // ---- skipped and visited routes ----

  datatype Skip = Skip(routeId: string, paused: bool)

  /** What one cycle did, and what it left alone. */
  datatype Summary = Summary(counts: Counts, due: seq<string>, skipped: seq<Skip>, halted: bool)

  /** Read number `n` finds the route unknown, or paused. An unknown route is the stronger condition. */
  function SkipAt(w: World, n: nat, routeId: string): Option<Skip> {
    if RouteKnown(w, n, routeId) && !RoutePaused(w, n, routeId) then None else Some(Skip(routeId, RouteKnown(w, n, routeId)))
  }

  /** The routes skipped when these are taken in turn and the first read is number `n`. */
  function SkippedOf(w: World, n: nat, due: seq<string>): seq<Skip> {
    if due == [] then []
    else
      var skip := SkipAt(w, n + |due| - 1, due[|due| - 1]);
      SkippedOf(w, n, due[..|due| - 1]) + if skip.Some? then [skip.value] else []
  }

  /** The routes that are not. */
  function VisitedOf(w: World, n: nat, due: seq<string>): seq<string> {
    if due == [] then []
    else
      VisitedOf(w, n, due[..|due| - 1]) + if SkipAt(w, n + |due| - 1, due[|due| - 1]).None? then [due[|due| - 1]] else []
  }

  lemma {:induction false} VisitedIsDue(w: World, n: nat, due: seq<string>)
    requires Distinct(due)
    ensures Distinct(VisitedOf(w, n, due)) && Elements(VisitedOf(w, n, due)) <= Elements(due)
  {
    if due != [] {
      var before, last := due[..|due| - 1], due[|due| - 1];
      VisitedIsDue(w, n, before);
      assert due == before + [last] && last !in before;
      assert last !in Elements(VisitedOf(w, n, before));
      assert VisitedOf(w, n, before) + [] == VisitedOf(w, n, before);
      assert forall x | x in VisitedOf(w, n, due) :: x in Elements(VisitedOf(w, n, before)) || x == last;
      assert Elements(due) == Elements(before) + {last};
    }
  }

  predicate Skips(skipped: seq<Skip>, routeId: string) {
    exists k | 0 <= k < |skipped| :: skipped[k].routeId == routeId
  }

  /** A route taken in turn is visited or skipped. */
  lemma {:induction false} VisitedOrSkipped(w: World, n: nat, due: seq<string>, routeId: string)
    requires routeId in due
    ensures routeId in VisitedOf(w, n, due) || Skips(SkippedOf(w, n, due), routeId)
  {
    var before, last := due[..|due| - 1], due[|due| - 1];
    var was, now := SkippedOf(w, n, before), SkippedOf(w, n, due);
    if routeId == last {
      if SkipAt(w, n + |before|, last).None? {
        var visited := VisitedOf(w, n, due);
        assert visited[|visited| - 1] == routeId;
      } else {
        assert now[|was|].routeId == routeId;
      }
    } else {
      VisitedOrSkipped(w, n, before, routeId);
      if Skips(was, routeId) {
        var k :| 0 <= k < |was| && was[k].routeId == routeId;
        assert now[k].routeId == routeId;
      }
    }
  }

  // ---- housekeeping ----

  /** The table after housekeeping, if store calls `call` and `call + 1` were answered as the world says. */
  function HouseKept(w: World, cfg: Settings, t: Table, at: Time, owner: Option<string>, sweep: bool, call: nat): Table {
    if !(owner.Some? || sweep) || !StoreUp(w, call) then t
    else
      var recovered := Exec(t, RecoverRows(at, owner));
      if sweep && StoreUp(w, call + 1) then Exec(recovered, ExpireRows(ParkCutoff(at, cfg.parkAfterMs))) else recovered
  }

  function OwnerKept(w: World, owner: Option<string>, sweep: bool, call: nat): Option<string> {
    if (owner.Some? || sweep) && StoreUp(w, call) then None else owner
  }

  /** The store calls housekeeping takes. */
  function HouseCalls(w: World, owner: Option<string>, sweep: bool, call: nat): nat {
    if !(owner.Some? || sweep) then 0 else if StoreUp(w, call) && sweep then 2 else 1
  }

  ghost predicate HouseDone(w: World, cfg: Settings, t: Table, t': Table, at: Time, owner: Option<string>, owner': Option<string>,
                            sweep: bool, a: Calls, b: Calls)
  {
    && t' == HouseKept(w, cfg, t, at, owner, sweep, a.store)
    && owner' == OwnerKept(w, owner, sweep, a.store)
    && b == a.(store := a.store + HouseCalls(w, owner, sweep, a.store))
  }

  /** A due sweep went through. */
  predicate Sweeps(w: World, sweep: bool, call: nat) {
    sweep && StoreUp(w, call) && StoreUp(w, call + 1)
  }

  lemma HouseIdle(w: World, cfg: Settings, t: Table, at: Time, owner: Option<string>, a: Calls)
    requires owner.None?
    ensures HouseDone(w, cfg, t, t, at, owner, owner, false, a, a)
  {
  }

  lemma HouseDown(w: World, cfg: Settings, t: Table, at: Time, owner: Option<string>, sweep: bool, a: Calls, b: Calls)
    requires (owner.Some? || sweep) && !StoreUp(w, a.store) && b == a.(store := a.store + 1)
    ensures HouseDone(w, cfg, t, t, at, owner, owner, sweep, a, b) && !Sweeps(w, sweep, a.store)
  {
  }

  lemma HouseRecovered(w: World, cfg: Settings, t: Table, t': Table, at: Time, owner: Option<string>, a: Calls, b: Calls)
    requires owner.Some? && StoreUp(w, a.store) && b == a.(store := a.store + 1) && t' == Exec(t, RecoverRows(at, owner))
    ensures HouseDone(w, cfg, t, t', at, owner, None, false, a, b)
  {
  }

  lemma HouseSwept(w: World, cfg: Settings, t: Table, u: Table, t': Table, at: Time, owner: Option<string>, a: Calls, b: Calls,
                   up: bool, call: nat)
    requires StoreUp(w, a.store) && u == Exec(t, RecoverRows(at, owner))
    requires call == a.store + 1 && up == StoreUp(w, call) && b == a.(store := call + 1)
    requires t' == if up then Exec(u, ExpireRows(ParkCutoff(at, cfg.parkAfterMs))) else u
    ensures HouseDone(w, cfg, t, t', at, owner, None, true, a, b) && Sweeps(w, true, a.store) == up
  {
  }

  /** Recovery by owner leaves nothing of this instance's behind, and parking old retries takes up nothing. */
  lemma HouseKeeping(w: World, cfg: Settings, t: Table, at: Time, owner: Option<string>, sweep: bool, call: nat, me: string)
    requires Indexed(t) && OwnLeft(t, owner, me)
    ensures OwnLeft(HouseKept(w, cfg, t, at, owner, sweep, call), OwnerKept(w, owner, sweep, call), me)
  {
    var t' := HouseKept(w, cfg, t, at, owner, sweep, call);
    if (owner.Some? || sweep) && StoreUp(w, call) {
      var u := Exec(t, RecoverRows(at, owner));
      forall id | id in u ensures !(u[id].status == Delivering && u[id].claimedBy == Some(me)) {
        assert u[id] == RowAfter(t[id], RecoverRows(at, owner));
      }
    }
  }

  // ---- going through the due routes ----

  /** This many reads were answered, from number `first` on. */
  predicate ReadsUp(w: World, first: nat, reached: nat) {
    forall n: nat | first <= n < first + reached :: ControlUp(w, n)
  }

  /** The first `reached` due routes were read, and visited or skipped for what the read made for each of them found. */
  predicate TurnsTaken(w: World, first: nat, due: seq<string>, reached: nat, skipped: seq<Skip>, visits: seq<Visit>) {
    && reached <= |due|
    && ReadsUp(w, first, reached)
    && skipped == SkippedOf(w, first, due[..reached])
    && RoutesOf(visits) == VisitedOf(w, first, due[..reached])
  }

  /** The visits made this table of `t`, and between them only routes were read. */
  ghost predicate VisitsMade(w: World, terms: Terms, at: Time, t: Table, t': Table, a: Calls, b: Calls, visits: seq<Visit>) {
    && t' == CycleTable(w, terms, at, t, visits)
    && VisitsOk(w, terms, at, t, visits, a)
    && OnlyControl(EndOf(a, visits), b)
  }

  ghost predicate Toured(w: World, terms: Terms, at: Time, t: Table, t': Table, a: Calls, b: Calls, due: seq<string>,
                         reached: nat, skipped: seq<Skip>, visits: seq<Visit>)
  {
    TurnsTaken(w, a.control, due, reached, skipped, visits) && VisitsMade(w, terms, at, t, t', a, b, visits)
  }

  predicate NoneThrew(visits: seq<Visit>) {
    forall j | 0 <= j < |visits| :: !VisitThrew(visits[j])
  }

  /** An exception came from the last visit or from looking up the next route; otherwise all due routes were reached, or a stop came. */
  predicate TourEnds(w: World, n: nat, due: seq<string>, reached: nat, visits: seq<Visit>, threw: bool, cut: bool) {
    if threw then
      || (visits != [] && VisitThrew(visits[|visits| - 1]) && NoneThrew(visits[..|visits| - 1]))
      || (reached < |due| && !ControlUp(w, n + reached) && NoneThrew(visits))
    else
      NoneThrew(visits) && (cut || reached == |due|)
  }

  lemma TourStarts(w: World, terms: Terms, at: Time, t: Table, a: Calls, due: seq<string>)
    ensures Toured(w, terms, at, t, t, a, a, due, 0, [], [])
  {
    assert RoutesOf([]) == [];
  }

  lemma VisitKeepsControl(w: World, terms: Terms, at: Time, t: Table, v: Visit)
    requires VisitOk(w, terms, at, t, v)
    ensures v.to.control == v.from.control
  {
  }

  lemma SkipNext(w: World, first: nat, due: seq<string>, n: nat, skipped: seq<Skip>, visits: seq<Visit>, skip: Skip, call: nat)
    requires TurnsTaken(w, first, due, n, skipped, visits) && n < |due| && call == first + n && ControlUp(w, call) && SkipAt(w, call, due[n]) == Some(skip)
    ensures TurnsTaken(w, first, due, n + 1, skipped + [skip], visits)
  {
    assert due[..n + 1][..n] == due[..n];
    NoRouteMore(VisitedOf(w, first, due[..n]));
  }

  lemma NoRouteMore(routes: seq<string>)
    ensures routes + [] == routes
  {
  }

  lemma TurnNext(w: World, first: nat, due: seq<string>, n: nat, skipped: seq<Skip>, visits: seq<Visit>, v: Visit, call: nat)
    requires TurnsTaken(w, first, due, n, skipped, visits) && n < |due| && call == first + n && ControlUp(w, call) && SkipAt(w, call, due[n]).None?
    requires v.routeId == due[n]
    ensures TurnsTaken(w, first, due, n + 1, skipped, visits + [v])
  {
    assert due[..n + 1][..n] == due[..n];
    assert skipped + [] == skipped;
    RoutesNext(visits + [v]);
    assert (visits + [v])[..|visits|] == visits;
  }

  lemma TourReads(w: World, terms: Terms, at: Time, t: Table, u: Table, a: Calls, b: Calls, c: Calls, due: seq<string>,
                  n: nat, skipped: seq<Skip>, visits: seq<Visit>)
    requires Toured(w, terms, at, t, u, a, b, due, n, skipped, visits) && OnlyControl(b, c)
    ensures Toured(w, terms, at, t, u, a, c, due, n, skipped, visits)
  {
  }

  lemma TourSkips(w: World, terms: Terms, at: Time, t: Table, u: Table, a: Calls, b: Calls, due: seq<string>,
                  n: nat, skipped: seq<Skip>, visits: seq<Visit>, skip: Skip, call: nat)
    requires Toured(w, terms, at, t, u, a, b, due, n, skipped, visits)
    requires n < |due| && call == a.control + n && ControlUp(w, call) && SkipAt(w, call, due[n]) == Some(skip)
    ensures Toured(w, terms, at, t, u, a, b, due, n + 1, skipped + [skip], visits)
  {
    SkipNext(w, a.control, due, n, skipped, visits, skip, call);
  }

  lemma TourVisits(w: World, terms: Terms, at: Time, t: Table, u: Table, t': Table, a: Calls, b: Calls, due: seq<string>,
                   n: nat, skipped: seq<Skip>, visits: seq<Visit>, v: Visit, call: nat)
    requires Toured(w, terms, at, t, u, a, b, due, n, skipped, visits) && v.from == b && VisitDone(w, terms, at, u, t', v)
    requires n < |due| && call == a.control + n && ControlUp(w, call) && SkipAt(w, call, due[n]).None? && v.routeId == due[n]
    ensures Toured(w, terms, at, t, t', a, v.to, due, n + 1, skipped, visits + [v]) && v.to.control == b.control
  {
    TurnNext(w, a.control, due, n, skipped, visits, v, call);
    VisitNext(w, terms, at, t, u, t', a, b, visits, v);
    VisitKeepsControl(w, terms, at, u, v);
  }

  lemma TourBreaks(w: World, first: nat, due: seq<string>, n: nat, visits: seq<Visit>, call: nat)
    requires n < |due| && NoneThrew(visits) && call == first + n && !ControlUp(w, call)
    ensures TourEnds(w, first, due, n, visits, true, false)
  {
  }

  lemma TourThrows(w: World, n: nat, due: seq<string>, reached: nat, visits: seq<Visit>, v: Visit)
    requires NoneThrew(visits)
    ensures VisitThrew(v) ==> TourEnds(w, n, due, reached, visits + [v], true, false)
    ensures !VisitThrew(v) ==> NoneThrew(visits + [v])
  {
    assert (visits + [v])[..|visits|] == visits;
  }

  lemma VisitNext(w: World, terms: Terms, at: Time, t: Table, u: Table, t': Table, a: Calls, b: Calls, visits: seq<Visit>, v: Visit)
    requires VisitsMade(w, terms, at, t, u, a, b, visits) && OnlyControl(b, v.from) && VisitDone(w, terms, at, u, t', v)
    ensures VisitsMade(w, terms, at, t, t', a, v.to, visits + [v])
  {
    assert (visits + [v])[..|visits|] == visits;
  }

  lemma VisitsNext(w: World, owner: Option<string>, me: string, visits: seq<Visit>, v: Visit)
    ensures CycleLog(w, visits + [v]) == CycleLog(w, visits) + VisitLog(w, v)
    ensures FlagAfterAll(owner, me, visits + [v]) == FlagAfter(FlagAfterAll(owner, me, visits), me, v)
    ensures (visits + [v])[..|visits|] == visits
  {
  }

  /** The whole state of going through the due routes: `n` of them are done, and nothing was thrown. */
  ghost predicate Touring(w: World, terms: Terms, at: Time, t: Table, t': Table, a: Calls, b: Calls, n: nat, summary: Summary,
                          visits: seq<Visit>, log: seq<Settled>, was: seq<Settled>, now: seq<Settled>, owner: Option<string>,
                          owner': Option<string>)
  {
    match summary
    case Summary(counts, due, skipped, halted) =>
      && !halted && Toured(w, terms, at, t, t', a, b, due, n, skipped, visits) && NoneThrew(visits)
      && owner' == FlagAfterAll(owner, terms.me, visits)
      && Totalled(was, now, counts, log) && log == CycleLog(w, visits)
  }

  /** And how it ended. */
  ghost predicate TourDone(w: World, terms: Terms, at: Time, t: Table, t': Table, a: Calls, b: Calls, reached: nat, summary: Summary,
                           visits: seq<Visit>, log: seq<Settled>, was: seq<Settled>, now: seq<Settled>, owner: Option<string>,
                           owner': Option<string>, threw: bool, cut: bool)
  {
    match summary
    case Summary(counts, due, skipped, halted) =>
      && !halted && Toured(w, terms, at, t, t', a, b, due, reached, skipped, visits)
      && TourEnds(w, a.control, due, reached, visits, threw, cut)
      && owner' == FlagAfterAll(owner, terms.me, visits)
      && Totalled(was, now, counts, log) && log == CycleLog(w, visits)
  }

  lemma TouringStarts(w: World, terms: Terms, at: Time, t: Table, a: Calls, due: seq<string>, was: seq<Settled>, owner: Option<string>)
    ensures Touring(w, terms, at, t, t, a, a, 0, Summary(NONE, due, [], false), [], [], was, was, owner, owner)
  {
    TourStarts(w, terms, at, t, a, due);
    NothingTotalled(was);
  }

  lemma TouringReads(w: World, terms: Terms, at: Time, t: Table, t': Table, a: Calls, b: Calls, c: Calls, n: nat, summary: Summary,
                     visits: seq<Visit>, log: seq<Settled>, was: seq<Settled>, now: seq<Settled>, owner: Option<string>, owner': Option<string>)
    requires Touring(w, terms, at, t, t', a, b, n, summary, visits, log, was, now, owner, owner') && OnlyControl(b, c)
    ensures Touring(w, terms, at, t, t', a, c, n, summary, visits, log, was, now, owner, owner')
  {
    TourReads(w, terms, at, t, t', a, b, c, summary.due, n, summary.skipped, visits);
  }

  lemma TouringBreaks(w: World, terms: Terms, at: Time, t: Table, t': Table, a: Calls, b: Calls, n: nat, summary: Summary,
                      visits: seq<Visit>, log: seq<Settled>, was: seq<Settled>, now: seq<Settled>, owner: Option<string>, owner': Option<string>,
                      call: nat)
    requires Touring(w, terms, at, t, t', a, b, n, summary, visits, log, was, now, owner, owner')
    requires n < |summary.due| && call == a.control + n && !ControlUp(w, call)
    ensures TourDone(w, terms, at, t, t', a, b, n, summary, visits, log, was, now, owner, owner', true, false)
  {
    TourBreaks(w, a.control, summary.due, n, visits, call);
  }

  lemma TouringEnds(w: World, terms: Terms, at: Time, t: Table, t': Table, a: Calls, b: Calls, n: nat, summary: Summary,
                    visits: seq<Visit>, log: seq<Settled>, was: seq<Settled>, now: seq<Settled>, owner: Option<string>, owner': Option<string>,
                    cut: bool)
    requires Touring(w, terms, at, t, t', a, b, n, summary, visits, log, was, now, owner, owner') && (cut || n == |summary.due|)
    ensures TourDone(w, terms, at, t, t', a, b, n, summary, visits, log, was, now, owner, owner', false, cut)
  {
  }

  lemma TouringSkips(w: World, terms: Terms, at: Time, t: Table, t': Table, a: Calls, b: Calls, n: nat, summary: Summary,
                     visits: seq<Visit>, log: seq<Settled>, was: seq<Settled>, now: seq<Settled>, owner: Option<string>, owner': Option<string>,
                     skip: Skip, call: nat)
    requires Touring(w, terms, at, t, t', a, b, n, summary, visits, log, was, now, owner, owner')
    requires n < |summary.due| && call == a.control + n && ControlUp(w, call) && SkipAt(w, call, summary.due[n]) == Some(skip)
    ensures Touring(w, terms, at, t, t', a, b, n + 1, summary.(skipped := summary.skipped + [skip]), visits, log, was, now, owner, owner')
  {
    TourSkips(w, terms, at, t, t', a, b, summary.due, n, summary.skipped, visits, skip, call);
  }

  lemma TouringVisits(w: World, terms: Terms, at: Time, t: Table, u: Table, t': Table, a: Calls, b: Calls, n: nat, summary: Summary,
                      visits: seq<Visit>, log: seq<Settled>, was: seq<Settled>, mid: seq<Settled>, now: seq<Settled>, owner: Option<string>,
                      flag: Option<string>, owner': Option<string>, v: Visit, more: seq<Settled>, counts: Counts, call: nat)
      returns (made: seq<Visit>, told: seq<Settled>)
    requires Touring(w, terms, at, t, u, a, b, n, summary, visits, log, was, mid, owner, flag)
    requires n < |summary.due| && call == a.control + n && ControlUp(w, call) && SkipAt(w, call, summary.due[n]).None? && v.routeId == summary.due[n]
    requires v.from == b && VisitDone(w, terms, at, u, t', v) && owner' == FlagAfter(flag, terms.me, v)
    requires Booked(mid, now, summary.counts, counts, more) && more == VisitLog(w, v)
    ensures v.to.control == b.control
    ensures !VisitThrew(v) ==>
              Touring(w, terms, at, t, t', a, v.to, n + 1, summary.(counts := counts), made, told, was, now, owner, owner')
    ensures VisitThrew(v) ==>
              TourDone(w, terms, at, t, t', a, v.to, n + 1, summary.(counts := counts), made, told, was, now, owner, owner', true, false)
  {
    made, told := visits + [v], log + more;
    TourVisits(w, terms, at, t, u, t', a, b, summary.due, n, summary.skipped, visits, v, call);
    TourThrows(w, a.control, summary.due, n + 1, visits, v);
    TotalledNext(was, mid, now, summary.counts, counts, log, more);
    VisitsNext(w, owner, terms.me, visits, v);
  }

  // ---- a whole cycle ----

  /**
   One dispatch cycle: the table before and after it, the reclaim flag and whether a sweep was due, the calls from `a` to
   `b`, how many due routes it reached, and whether an exception left it or a stop cut it short.
   */
  datatype CycleRun = CycleRun(
    was: Table, after: Table, at: Time, owner: Option<string>, sweep: bool, a: Calls, b: Calls,
    visits: seq<Visit>, reached: nat, summary: Summary, threw: bool, cut: bool)

  /** The table as housekeeping left it. */
  function Kept(w: World, cfg: Settings, c: CycleRun): Table {
    HouseKept(w, cfg, c.was, c.at, c.owner, c.sweep, c.a.store)
  }

  /** The calls of housekeeping. */
  function HouseEnd(w: World, c: CycleRun): Calls {
    c.a.(store := c.a.store + HouseCalls(w, c.owner, c.sweep, c.a.store))
  }

  /** And of reading the killswitch. */
  function Asked(w: World, c: CycleRun): Calls {
    HouseEnd(w, c).(control := c.a.control + 1)
  }

  /** And of reading the due routes. */
  function Opening(w: World, c: CycleRun): Calls {
    Asked(w, c).(store := Asked(w, c).store + 1)
  }

  predicate MayForward(w: World, c: CycleRun) {
    ControlUp(w, c.a.control) && ForwardAllowed(w, c.a.control)
  }

  /** Housekeeping is over and forwarding allowed, and the due routes were read. */
  predicate Opens(w: World, c: CycleRun) {
    MayForward(w, c) && StoreUp(w, Asked(w, c).store)
  }

  /** The killswitch, or a failed read, kept the cycle from visiting any route. */
  predicate NotOpened(w: World, c: CycleRun) {
    && c.visits == [] && c.reached == 0 && c.summary.due == [] && c.summary.skipped == []
    && c.summary.halted == (ControlUp(w, c.a.control) && !ForwardAllowed(w, c.a.control))
    && c.threw == !c.summary.halted
    && c.b == if MayForward(w, c) then Opening(w, c) else Asked(w, c)
  }

  ghost predicate IsDueList(t: Table, at: Time, due: seq<string>) {
    Distinct(due) && forall routeId :: routeId in due <==> Where(t, Due(routeId, at)) != {}
  }

  /** The whole account of a cycle: its table is that of housekeeping and of its visits, and every step of it has its reason. */
  ghost predicate CycleOk(w: World, cfg: Settings, terms: Terms, c: CycleRun) {
    match c
    case CycleRun(_, after, at, _, _, _, b, visits, reached, summary, threw, cut) =>
      && summary.counts == CountsOf(CycleLog(w, visits))
      && if !Opens(w, c) then NotOpened(w, c) && after == Kept(w, cfg, c)
         else
           && !summary.halted && IsDueList(Kept(w, cfg, c), at, summary.due)
           && Toured(w, terms, at, Kept(w, cfg, c), after, Opening(w, c), b, summary.due, reached, summary.skipped, visits)
           && TourEnds(w, Opening(w, c).control, summary.due, reached, visits, threw, cut)
  }

  /** The account of a cycle so far: housekeeping is over, and the killswitch was read. */
  ghost predicate CycleBegun(w: World, cfg: Settings, c: CycleRun) {
    && c.visits == [] && c.reached == 0 && c.summary == Summary(NONE, [], [], false) && c.threw && !c.cut
    && c.after == Kept(w, cfg, c)
  }

  lemma CycleStarts(w: World, cfg: Settings, c: CycleRun, owner': Option<string>, a: Calls)
    requires HouseDone(w, cfg, c.was, c.after, c.at, c.owner, owner', c.sweep, c.a, a) && c.b == a.(control := a.control + 1)
    requires c.visits == [] && c.reached == 0 && c.summary == Summary(NONE, [], [], false) && c.threw && !c.cut
    ensures CycleBegun(w, cfg, c) && a == HouseEnd(w, c) && c.b == Asked(w, c)
    ensures owner' == OwnerKept(w, c.owner, c.sweep, c.a.store)
  {
  }

  lemma CycleNotAsked(w: World, cfg: Settings, terms: Terms, c: CycleRun, call: nat)
    requires CycleBegun(w, cfg, c) && c.b == Asked(w, c) && call == c.a.control && !ControlUp(w, call)
    ensures CycleOk(w, cfg, terms, c) && CycleLog(w, c.visits) == []
  {
    CycleHalted(w, cfg, terms, c);
  }

  lemma CyclePauses(w: World, cfg: Settings, terms: Terms, c: CycleRun, call: nat)
    requires CycleBegun(w, cfg, c) && c.b == Asked(w, c) && call == c.a.control && ControlUp(w, call) && !ForwardAllowed(w, call)
    ensures var c' := c.(summary := c.summary.(halted := true), threw := false);
            CycleOk(w, cfg, terms, c') && CycleLog(w, c'.visits) == [] && HouseEnd(w, c') == HouseEnd(w, c)
  {
    SameOpening(w, cfg, c, c.(summary := c.summary.(halted := true), threw := false));
    CycleHalted(w, cfg, terms, c.(summary := c.summary.(halted := true), threw := false));
  }

  /** The due routes were to be read: if that failed the cycle ends here. */
  lemma CycleOpens(w: World, cfg: Settings, terms: Terms, c: CycleRun, c': CycleRun, control: nat, call: nat)
    requires CycleBegun(w, cfg, c) && c.b == Asked(w, c) && control == c.a.control && ControlUp(w, control) && ForwardAllowed(w, control)
    requires call == c.b.store && c' == c.(b := c.b.(store := call + 1))
    ensures CycleBegun(w, cfg, c') && c'.b == Opening(w, c') && (Opens(w, c') <==> StoreUp(w, call))
    ensures HouseEnd(w, c') == HouseEnd(w, c)
    ensures !StoreUp(w, call) ==> CycleOk(w, cfg, terms, c') && CycleLog(w, c'.visits) == []
  {
    SameOpening(w, cfg, c, c');
    if !StoreUp(w, call) {
      CycleHalted(w, cfg, terms, c');
    }
  }

  predicate SameStart(c: CycleRun, c': CycleRun) {
    c'.was == c.was && c'.at == c.at && c'.owner == c.owner && c'.sweep == c.sweep && c'.a == c.a
  }

  lemma SameOpening(w: World, cfg: Settings, c: CycleRun, c': CycleRun)
    requires SameStart(c, c')
    ensures Kept(w, cfg, c') == Kept(w, cfg, c) && HouseEnd(w, c') == HouseEnd(w, c)
    ensures Asked(w, c') == Asked(w, c) && Opening(w, c') == Opening(w, c)
    ensures Opens(w, c') == Opens(w, c)
  {
  }

  lemma CycleTours(w: World, cfg: Settings, terms: Terms, c: CycleRun, t': Table, b: Calls, reached: nat, summary: Summary,
                   visits: seq<Visit>, log: seq<Settled>, was: seq<Settled>, now: seq<Settled>, owner: Option<string>, owner': Option<string>,
                   threw: bool, cut: bool) returns (c': CycleRun)
    requires CycleBegun(w, cfg, c) && Opens(w, c) && c.b == Opening(w, c) && IsDueList(c.after, c.at, summary.due)
    requires TourDone(w, terms, c.at, c.after, t', c.b, b, reached, summary, visits, log, was, now, owner, owner', threw, cut)
    ensures c' == c.(after := t', b := b, visits := visits, reached := reached, summary := summary, threw := threw, cut := cut)
    ensures CycleOk(w, cfg, terms, c') && HouseEnd(w, c') == HouseEnd(w, c)
    ensures owner' == FlagAfterAll(owner, terms.me, visits) && Totalled(was, now, summary.counts, CycleLog(w, visits))
  {
    c' := c.(after := t', b := b, visits := visits, reached := reached, summary := summary, threw := threw, cut := cut);
    SameOpening(w, cfg, c, c');
    CycleToured(w, cfg, terms, c');
  }

  lemma CycleHalted(w: World, cfg: Settings, terms: Terms, c: CycleRun)
    requires !Opens(w, c) && NotOpened(w, c) && c.after == Kept(w, cfg, c) && c.summary.counts == NONE
    ensures CycleOk(w, cfg, terms, c) && CycleLog(w, c.visits) == []
  {
    assert CountsOf([]) == NONE;
  }

  lemma CycleToured(w: World, cfg: Settings, terms: Terms, c: CycleRun)
    requires Opens(w, c) && !c.summary.halted && IsDueList(Kept(w, cfg, c), c.at, c.summary.due)
    requires Toured(w, terms, c.at, Kept(w, cfg, c), c.after, Opening(w, c), c.b, c.summary.due, c.reached, c.summary.skipped, c.visits)
    requires TourEnds(w, Opening(w, c).control, c.summary.due, c.reached, c.visits, c.threw, c.cut)
    requires c.summary.counts == CountsOf(CycleLog(w, c.visits))
    ensures CycleOk(w, cfg, terms, c)
  {
  }

  // ---- a cycle, row by row ----

  lemma VisitKeeps(w: World, terms: Terms, at: Time, t: Table, v: Visit)
    requires Indexed(t) && VisitOk(w, terms, at, t, v)
    ensures forall id | id in Elements(Ids(Claimed(v))) :: id in t && t[id].info.routeId == v.routeId && IsDue(t[id], at)
    ensures var t' := VisitTable(w, terms, at, t, v);
            forall id | id in t && t[id].info.routeId != v.routeId :: id in t' && t'[id] == t[id]
  {
    VisitOnly(w, terms, at, t, v);
    forall id | id in Elements(Ids(Claimed(v))) ensures id in Where(t, Due(v.routeId, at)) {
      assert id in Ids(Claimed(v));
    }
  }

  lemma LastIsApart(routes: seq<string>, last: string)
    requires Distinct(routes + [last])
    ensures Distinct(routes) && last !in routes
  {
    var all := routes + [last];
    forall i | 0 <= i < |routes| ensures routes[i] != last {
      assert all[i] != all[|routes|];
    }
    forall i, j | 0 <= i < j < |routes| ensures routes[i] != routes[j] {
      assert all[i] != all[j];
    }
  }

  /** Rows stay the events they are, and those of a route that is not visited stay as they were. */
  lemma {:induction false} CycleKeeps(w: World, terms: Terms, at: Time, t: Table, visits: seq<Visit>, a: Calls)
    requires Indexed(t) && VisitsOk(w, terms, at, t, visits, a)
    ensures var t' := CycleTable(w, terms, at, t, visits);
            && Indexed(t') && OnlyRows(t, t', t.Keys)
            && forall id | id in t && t[id].info.routeId !in RoutesOf(visits) :: t'[id] == t[id]
  {
    if visits != [] {
      var before, v := visits[..|visits| - 1], visits[|visits| - 1];
      var u := CycleTable(w, terms, at, t, before);
      CycleKeeps(w, terms, at, t, before, a);
      VisitOnly(w, terms, at, u, v);
      OnlyRowsTrans(t, u, VisitTable(w, terms, at, u, v), t.Keys, Elements(Ids(Claimed(v))));
      VisitKeeps(w, terms, at, u, v);
      RoutesNext(visits);
    }
  }

  lemma {:induction false} VisitAt(w: World, terms: Terms, at: Time, t: Table, visits: seq<Visit>, a: Calls, j: nat)
    requires VisitsOk(w, terms, at, t, visits, a) && j < |visits|
    ensures VisitsOk(w, terms, at, t, visits[..j], a)
    ensures VisitOk(w, terms, at, CycleTable(w, terms, at, t, visits[..j]), visits[j])
    decreases |visits|
  {
    if j < |visits| - 1 {
      VisitAt(w, terms, at, t, visits[..|visits| - 1], a, j);
      assert visits[..|visits| - 1][..j] == visits[..j];
    }
  }

  /** What comes before a visit leaves the rows of its route as they were. */
  lemma RouteUntouched(w: World, terms: Terms, at: Time, t: Table, visits: seq<Visit>, a: Calls, j: nat)
    requires j < |visits| && Indexed(t) && VisitsOk(w, terms, at, t, visits[..j], a) && Distinct(RoutesOf(visits))
    ensures var u := CycleTable(w, terms, at, t, visits[..j]);
            && Indexed(u) && OnlyRows(t, u, t.Keys)
            && forall id | id in t && t[id].info.routeId == visits[j].routeId :: u[id] == t[id]
  {
    CycleKeeps(w, terms, at, t, visits[..j], a);
    assert RoutesOf(visits[..j]) == RoutesOf(visits)[..j] && RoutesOf(visits)[j] == visits[j].routeId;
  }

  /** Visits to different routes do not meet: each claims rows of the table the cycle started from. */
  lemma VisitFromStart(w: World, terms: Terms, at: Time, t: Table, visits: seq<Visit>, a: Calls, j: nat)
    requires Indexed(t) && VisitsOk(w, terms, at, t, visits, a) && Distinct(RoutesOf(visits)) && j < |visits|
    ensures VisitOk(w, terms, at, t, visits[j])
  {
    VisitAt(w, terms, at, t, visits, a, j);
    RouteUntouched(w, terms, at, t, visits, a, j);
    SameRoute(t, CycleTable(w, terms, at, t, visits[..j]), visits[j].routeId, at);
    SameVisit(w, terms, at, t, CycleTable(w, terms, at, t, visits[..j]), visits[j]);
  }

  lemma SameRoute(t: Table, u: Table, routeId: string, at: Time)
    requires OnlyRows(t, u, t.Keys) && forall id | id in t && t[id].info.routeId == routeId :: u[id] == t[id]
    ensures Where(t, Due(routeId, at)) == Where(u, Due(routeId, at))
  {
  }

  lemma SameVisit(w: World, terms: Terms, at: Time, t: Table, u: Table, v: Visit)
    requires VisitOk(w, terms, at, u, v) && OnlyRows(t, u, t.Keys)
    requires Where(t, Due(v.routeId, at)) == Where(u, Due(v.routeId, at))
    requires forall id | id in Where(u, Due(v.routeId, at)) :: u[id] == t[id]
    ensures VisitOk(w, terms, at, t, v)
  {
    if v.Visited? {
      forall k | 0 <= k < |v.run.claimed| ensures v.run.claimed[k].id in t && t[v.run.claimed[k].id] == u[v.run.claimed[k].id] {
        assert Ids(v.run.claimed)[k] in Ids(v.run.claimed);
      }
    }
  }

  /** The claimed row is one of its route, and as the visit left it. */
  predicate AsVisited(w: World, t: Table, t': Table, v: Visit, k: nat)
    requires k < |Claimed(v)|
  {
    var id := Claimed(v)[k].id;
    id in t && t[id].info.routeId == v.routeId && id in t' && t'[id] == VisitRow(w, v, k)
  }

  /** The last visit, and what came before it. */
  lemma LastVisit(w: World, terms: Terms, at: Time, t: Table, visits: seq<Visit>, a: Calls)
      returns (before: seq<Visit>, v: Visit, u: Table)
    requires Indexed(t) && visits != [] && VisitsOk(w, terms, at, t, visits, a)
    ensures visits == before + [v] && VisitsOk(w, terms, at, t, before, a)
    ensures u == CycleTable(w, terms, at, t, before) && CycleTable(w, terms, at, t, visits) == VisitTable(w, terms, at, u, v)
    ensures Indexed(u) && OnlyRows(t, u, t.Keys) && VisitOk(w, terms, at, u, v)
    ensures RoutesOf(visits) == RoutesOf(before) + [v.routeId]
  {
    before, v := visits[..|visits| - 1], visits[|visits| - 1];
    u := CycleTable(w, terms, at, t, before);
    CycleKeeps(w, terms, at, t, before, a);
    RoutesNext(visits);
  }

  lemma VisitedNow(w: World, terms: Terms, at: Time, t: Table, u: Table, v: Visit, k: nat)
    requires Indexed(u) && OnlyRows(t, u, t.Keys) && VisitOk(w, terms, at, u, v) && k < |Claimed(v)|
    ensures AsVisited(w, t, VisitTable(w, terms, at, u, v), v, k)
  {
    assert Ids(Claimed(v))[k] in Elements(Ids(Claimed(v)));
    VisitKeeps(w, terms, at, u, v);
    VisitRowIs(w, terms, at, u, v, k);
  }

  /** A visit leaves the rows of other routes as their visits left them. */
  lemma VisitSpares(w: World, terms: Terms, at: Time, t: Table, u: Table, v: Visit, other: Visit, k: nat)
    requires Indexed(u) && OnlyRows(t, u, t.Keys) && VisitOk(w, terms, at, u, v)
    requires k < |Claimed(other)| && AsVisited(w, t, u, other, k) && other.routeId != v.routeId
    ensures AsVisited(w, t, VisitTable(w, terms, at, u, v), other, k)
  {
    VisitKeeps(w, terms, at, u, v);
  }

  /** At the end of the cycle a claimed row is as its visit left it. */
  lemma {:induction false} ClaimedRowIs(w: World, terms: Terms, at: Time, t: Table, visits: seq<Visit>, a: Calls, j: nat, k: nat)
    requires Indexed(t) && VisitsOk(w, terms, at, t, visits, a) && Distinct(RoutesOf(visits))
    requires j < |visits| && k < |Claimed(visits[j])|
    ensures AsVisited(w, t, CycleTable(w, terms, at, t, visits), visits[j], k)
    decreases |visits|
  {
    var before, v, u := LastVisit(w, terms, at, t, visits, a);
    if j == |before| {
      VisitedNow(w, terms, at, t, u, v, k);
    } else {
      LastIsApart(RoutesOf(before), v.routeId);
      assert RoutesOf(before)[j] == before[j].routeId;
      ClaimedRowIs(w, terms, at, t, before, a, j, k);
      VisitSpares(w, terms, at, t, u, v, before[j], k);
    }
  }

  predicate IsClaimed(visits: seq<Visit>, id: Id) {
    exists j | 0 <= j < |visits| :: id in Elements(Ids(Claimed(visits[j])))
  }

  /** A row that no visit claimed is as it was. */
  lemma {:induction false} UnclaimedRowIs(w: World, terms: Terms, at: Time, t: Table, visits: seq<Visit>, a: Calls, id: Id)
    requires Indexed(t) && VisitsOk(w, terms, at, t, visits, a) && id in t && !IsClaimed(visits, id)
    ensures id in CycleTable(w, terms, at, t, visits) && CycleTable(w, terms, at, t, visits)[id] == t[id]
    decreases |visits|
  {
    if visits != [] {
      var last := |visits| - 1;
      forall j | 0 <= j < last ensures visits[..last][j] == visits[j] {
      }
      CycleKeeps(w, terms, at, t, visits[..last], a);
      UnclaimedRowIs(w, terms, at, t, visits[..last], a, id);
      VisitOnly(w, terms, at, CycleTable(w, terms, at, t, visits[..last]), visits[last]);
      assert id !in Elements(Ids(Claimed(visits[last])));
    }
  }

  lemma CycleVisits(w: World, cfg: Settings, terms: Terms, c: CycleRun)
    requires CycleOk(w, cfg, terms, c)
    ensures VisitsOk(w, terms, c.at, Kept(w, cfg, c), c.visits, Opening(w, c)) && Distinct(RoutesOf(c.visits))
    ensures c.after == CycleTable(w, terms, c.at, Kept(w, cfg, c), c.visits)
  {
    if Opens(w, c) {
      TourApart(w, terms, c.at, Kept(w, cfg, c), c.after, Opening(w, c), c.b, c.summary.due, c.reached, c.summary.skipped, c.visits);
    }
  }

  lemma TourApart(w: World, terms: Terms, at: Time, t: Table, t': Table, a: Calls, b: Calls, due: seq<string>,
                  n: nat, skipped: seq<Skip>, visits: seq<Visit>)
    requires Toured(w, terms, at, t, t', a, b, due, n, skipped, visits) && Distinct(due)
    ensures Distinct(RoutesOf(visits))
  {
    assert Distinct(due[..n]);
    VisitedIsDue(w, a.control, due[..n]);
  }

  lemma KeptIndexed(w: World, cfg: Settings, c: CycleRun)
    requires Indexed(c.was)
    ensures Indexed(Kept(w, cfg, c)) && OnlyRows(c.was, Kept(w, cfg, c), c.was.Keys)
  {
    SweepKeepsEvents(c.was, RecoverRows(c.at, c.owner));
    SweepKeepsEvents(Exec(c.was, RecoverRows(c.at, c.owner)), ExpireRows(ParkCutoff(c.at, cfg.parkAfterMs)));
  }

  lemma SweepKeepsEvents(t: Table, st: Statement)
    requires Indexed(t) && (st.RecoverRows? || st.ExpireRows?)
    ensures Indexed(Exec(t, st)) && OnlyRows(t, Exec(t, st), t.Keys)
  {
    forall id | id in t ensures SameEvent(t[id], Exec(t, st)[id]) && Exec(t, st)[id].body == t[id].body {
      RowAfterFacts(t[id], st);
    }
  }

  /** The row was claimed in visit `j` as event `k`, and is as that visit left it. */
  predicate Handed(w: World, c: CycleRun, id: Id, j: nat, k: nat) {
    && j < |c.visits| && k < |Claimed(c.visits[j])| && Claimed(c.visits[j])[k].id == id
    && id in c.after && c.after[id] == VisitRow(w, c.visits[j], k)
  }

  /** The row is as housekeeping left it, and no visit claimed it; or one did, and it is as that visit left it. */
  ghost predicate Accounted(w: World, c: CycleRun, kept: Table, id: Id) {
    id in c.after && id in kept &&
    if IsClaimed(c.visits, id) then exists j: nat, k: nat :: Handed(w, c, id, j, k) else c.after[id] == kept[id]
  }

  /** The whole table after a cycle, however it ended; for what a visit makes of a row see `VisitSettles`. */
  lemma CycleAccounts(w: World, cfg: Settings, terms: Terms, c: CycleRun)
    requires CycleOk(w, cfg, terms, c) && Indexed(c.was)
    ensures c.after.Keys == c.was.Keys && forall id | id in c.was :: Accounted(w, c, Kept(w, cfg, c), id)
  {
    KeptIndexed(w, cfg, c);
    CycleVisits(w, cfg, terms, c);
    CycleKeeps(w, terms, c.at, Kept(w, cfg, c), c.visits, Opening(w, c));
    forall id | id in c.was ensures Accounted(w, c, Kept(w, cfg, c), id) {
      RowAccounted(w, terms, c, Kept(w, cfg, c), Opening(w, c), id);
    }
  }

  lemma CycleIndexed(w: World, cfg: Settings, terms: Terms, c: CycleRun)
    requires CycleOk(w, cfg, terms, c) && Indexed(c.was)
    ensures Indexed(c.after) && c.after.Keys == c.was.Keys
  {
    KeptIndexed(w, cfg, c);
    CycleVisits(w, cfg, terms, c);
    CycleKeeps(w, terms, c.at, Kept(w, cfg, c), c.visits, Opening(w, c));
  }

  lemma RowAccounted(w: World, terms: Terms, c: CycleRun, t: Table, a: Calls, id: Id)
    requires Indexed(t) && VisitsOk(w, terms, c.at, t, c.visits, a) && Distinct(RoutesOf(c.visits)) && id in t
    requires c.after == CycleTable(w, terms, c.at, t, c.visits)
    ensures Accounted(w, c, t, id)
  {
    if IsClaimed(c.visits, id) {
      var j :| 0 <= j < |c.visits| && id in Elements(Ids(Claimed(c.visits[j])));
      var k :| 0 <= k < |Claimed(c.visits[j])| && Ids(Claimed(c.visits[j]))[k] == id;
      ClaimedRowIs(w, terms, c.at, t, c.visits, a, j, k);
      assert Handed(w, c, id, j, k);
    } else {
      UnclaimedRowIs(w, terms, c.at, t, c.visits, a, id);
    }
  }

  // ---- the reports of a cycle ----

  /** A report of the cycle is a report of one of its visits. */
  lemma {:induction false} ReportedIn(w: World, visits: seq<Visit>, e: Settled) returns (j: nat)
    requires e in CycleLog(w, visits)
    ensures j < |visits| && e in VisitLog(w, visits[j])
  {
    var last := |visits| - 1;
    if e in VisitLog(w, visits[last]) {
      j := last;
    } else {
      NotLast(CycleLog(w, visits[..last]), VisitLog(w, visits[last]), e);
      j := ReportedIn(w, visits[..last], e);
    }
  }

  lemma VisitLogIds(w: World, terms: Terms, at: Time, t: Table, v: Visit)
    requires Indexed(t) && VisitOk(w, terms, at, t, v)
    ensures Distinct(LogIds(VisitLog(w, v))) && Elements(LogIds(VisitLog(w, v))) <= Elements(Ids(Claimed(v)))
  {
    if v.Visited? {
      ClaimedAreHeld(terms, at, t, v, terms.limit);
      LogIsOfBatch(w, Start(v), v.run);
    } else {
      assert LogIds([]) == [];
    }
  }

  /** No row is reported twice in a cycle. */
  lemma {:induction false} CycleLogIds(w: World, terms: Terms, at: Time, t: Table, visits: seq<Visit>, a: Calls)
    requires Indexed(t) && VisitsOk(w, terms, at, t, visits, a) && Distinct(RoutesOf(visits))
    ensures Distinct(LogIds(CycleLog(w, visits)))
    ensures forall id | id in Elements(LogIds(CycleLog(w, visits))) :: id in t && t[id].info.routeId in RoutesOf(visits)
    decreases |visits|
  {
    if visits == [] {
      assert LogIds([]) == [];
    } else {
      var before, v := visits[..|visits| - 1], visits[|visits| - 1];
      RoutesNext(visits);
      LastIsApart(RoutesOf(before), v.routeId);
      CycleLogIds(w, terms, at, t, before, a);
      CycleKeeps(w, terms, at, t, before, a);
      VisitLogIds(w, terms, at, CycleTable(w, terms, at, t, before), v);
      VisitKeeps(w, terms, at, CycleTable(w, terms, at, t, before), v);
      LogIdsAppend(CycleLog(w, before), VisitLog(w, v));
      LogIdsApart(LogIds(CycleLog(w, before)), LogIds(VisitLog(w, v)), t, RoutesOf(before), v.routeId);
    }
  }

  lemma LogIdsApart(log: seq<Id>, more: seq<Id>, t: Table, routes: seq<string>, routeId: string)
    requires Distinct(log) && Distinct(more) && routeId !in routes
    requires forall id | id in Elements(log) :: id in t && t[id].info.routeId in routes
    requires forall id | id in Elements(more) :: id in t && t[id].info.routeId == routeId
    ensures Distinct(log + more)
    ensures forall id | id in Elements(log + more) :: id in t && t[id].info.routeId in routes + [routeId]
  {
    DistinctConcat(log, more);
  }

  /** A claimed row whose event was reported has the status reported. */
  lemma ReportIsTrue(w: World, terms: Terms, at: Time, t: Table, v: Visit, e: Settled) returns (k: nat)
    requires Indexed(t) && VisitOk(w, terms, at, t, v) && e in VisitLog(w, v)
    ensures k < |Claimed(v)| && Claimed(v)[k].id == e.id && VisitRow(w, v, k).status == StatusOf(e.verdict)
  {
    var log := VisitLog(w, v);
    var n :| 0 <= n < |log| && log[n] == e;
    ClaimedAreHeld(terms, at, t, v, terms.limit);
    k := ReportOf(w, Start(v), v.run, n);
    VerdictIsStatus(w, Start(v), v.run, k);
  }

  /** Whatever fails, every report of a cycle is true of the table at its end, and its counts are numbers of rows. */
  lemma CycleConserves(w: World, cfg: Settings, terms: Terms, c: CycleRun)
    requires CycleOk(w, cfg, terms, c) && Indexed(c.was)
    ensures var log := CycleLog(w, c.visits);
            && Distinct(LogIds(log)) && Agrees(c.after, log)
            && c.summary.counts == RowCounts(c.after, Elements(LogIds(log)))
  {
    var log, t := CycleLog(w, c.visits), Kept(w, cfg, c);
    CycleVisits(w, cfg, terms, c);
    KeptIndexed(w, cfg, c);
    CycleLogIds(w, terms, c.at, t, c.visits, Opening(w, c));
    forall n | 0 <= n < |log| ensures log[n].id in c.after && c.after[log[n].id].status == StatusOf(log[n].verdict) {
      var j := ReportedIn(w, c.visits, log[n]);
      VisitFromStart(w, terms, c.at, t, c.visits, Opening(w, c), j);
      var k := ReportIsTrue(w, terms, c.at, t, c.visits[j], log[n]);
      ClaimedRowIs(w, terms, c.at, t, c.visits, Opening(w, c), j, k);
    }
    CountsCountRows(c.after, log);
  }

  /**
   A visit whose calls go well throws nothing, and when the cycle is over every row it claimed - the oldest due ones of
   its route - is delivered, or parked if it is unmappable or rejected; whatever became of the other routes, and even if
   the cycle itself was cut short.
   */
  lemma GoodVisitInCycle(w: World, cfg: Settings, terms: Terms, c: CycleRun, j: nat)
    requires CycleOk(w, cfg, terms, c) && Indexed(c.was) && j < |c.visits| && c.visits[j].Visited?
    requires GoesWell(w, Start(c.visits[j]), c.visits[j].to, Claimed(c.visits[j]))
    ensures var v := c.visits[j];
            && !VisitThrew(v) && IsOldest(Kept(w, cfg, c), Due(v.routeId, c.at), terms.limit, Ids(Claimed(v)))
            && forall k | 0 <= k < |Claimed(v)| ::
                 Claimed(v)[k].id in c.after && c.after[Claimed(v)[k].id].status == Fate(w, Start(v), Claimed(v), k)
  {
    var v, t := c.visits[j], Kept(w, cfg, c);
    CycleVisits(w, cfg, terms, c);
    KeptIndexed(w, cfg, c);
    VisitFromStart(w, terms, c.at, t, c.visits, Opening(w, c), j);
    GoodVisitThrowsNot(w, terms, c.at, t, v);
    forall k | 0 <= k < |Claimed(v)|
      ensures Claimed(v)[k].id in c.after && c.after[Claimed(v)[k].id].status == Fate(w, Start(v), Claimed(v), k)
    {
      ClaimedRowIs(w, terms, c.at, t, c.visits, Opening(w, c), j, k);
      GoodVisitDelivers(w, terms, c.at, t, v, k);
    }
  }

  lemma GoodVisitThrowsNot(w: World, terms: Terms, at: Time, t: Table, v: Visit)
    requires VisitOk(w, terms, at, t, v) && v.Visited? && GoesWell(w, Start(v), v.to, Claimed(v))
    ensures !VisitThrew(v)
  {
    GoodSettling(w, Start(v), v.settled, v.to, v.run.claimed);
    GoodBatchEnds(w, Start(v), v.settled, v.run, v.since, terms.wait);
  }

  predicate Serves(c: CycleRun, routeId: string) {
    exists j | 0 <= j < |c.visits| :: c.visits[j].routeId == routeId && !VisitThrew(c.visits[j])
  }

  /** A cycle that is not halted, cut short or left by an exception serves or skips every route with due rows. */
  lemma NoRouteIsPassedOver(w: World, cfg: Settings, terms: Terms, c: CycleRun, routeId: string)
    requires CycleOk(w, cfg, terms, c) && !c.threw && !c.summary.halted && !c.cut
    ensures routeId in c.summary.due <==> Where(Kept(w, cfg, c), Due(routeId, c.at)) != {}
    ensures routeId in c.summary.due ==> Serves(c, routeId) || Skips(c.summary.skipped, routeId)
  {
    if routeId in c.summary.due {
      assert c.summary.due[..c.reached] == c.summary.due;
      VisitedOrSkipped(w, Opening(w, c).control, c.summary.due, routeId);
      if routeId in RoutesOf(c.visits) {
        var j :| 0 <= j < |c.visits| && RoutesOf(c.visits)[j] == routeId;
        assert !VisitThrew(c.visits[j]);
      }
    }
  }

  // ---- the reclaim flag ----

  /** The reclaim flag after a cycle. */
  function OwnerAfter(w: World, terms: Terms, c: CycleRun): Option<string> {
    FlagAfterAll(OwnerKept(w, c.owner, c.sweep, c.a.store), terms.me, c.visits)
  }

  lemma {:induction false} FlagIsMe(owner: Option<string>, me: string, visits: seq<Visit>)
    requires owner.Some? ==> owner.value == me
    ensures FlagAfterAll(owner, me, visits).Some? ==> FlagAfterAll(owner, me, visits).value == me
  {
    if visits != [] {
      FlagIsMe(owner, me, visits[..|visits| - 1]);
    }
  }

  lemma OwnerIsMe(w: World, terms: Terms, c: CycleRun)
    requires c.owner.Some? ==> c.owner.value == terms.me
    ensures OwnerAfter(w, terms, c).Some? ==> OwnerAfter(w, terms, c).value == terms.me
  {
    FlagIsMe(OwnerKept(w, c.owner, c.sweep, c.a.store), terms.me, c.visits);
  }

  lemma {:induction false} VisitsOwnLeft(w: World, terms: Terms, at: Time, t: Table, visits: seq<Visit>, a: Calls, owner: Option<string>)
    requires Indexed(t) && VisitsOk(w, terms, at, t, visits, a) && OwnLeft(t, owner, terms.me)
    ensures OwnLeft(CycleTable(w, terms, at, t, visits), FlagAfterAll(owner, terms.me, visits), terms.me)
    decreases |visits|
  {
    if visits != [] {
      var before := visits[..|visits| - 1];
      VisitsOwnLeft(w, terms, at, t, before, a, owner);
      CycleKeeps(w, terms, at, t, before, a);
      VisitOwnLeft(w, terms, at, CycleTable(w, terms, at, t, before), visits[|visits| - 1], FlagAfterAll(owner, terms.me, before));
    }
  }

  /** At the end of every cycle, however it ended, nothing of this instance's is in `delivering` unless its flag is up. */
  lemma CycleOwnLeft(w: World, cfg: Settings, terms: Terms, c: CycleRun)
    requires CycleOk(w, cfg, terms, c) && Indexed(c.was)
    ensures OwnLeftKept(c.was, c.after, c.owner, OwnerAfter(w, terms, c), terms.me)
  {
    if OwnLeft(c.was, c.owner, terms.me) {
      OwnStaysLeft(w, cfg, terms, c);
    }
  }

  lemma OwnStaysLeft(w: World, cfg: Settings, terms: Terms, c: CycleRun)
    requires CycleOk(w, cfg, terms, c) && Indexed(c.was) && OwnLeft(c.was, c.owner, terms.me)
    ensures OwnLeft(c.after, OwnerAfter(w, terms, c), terms.me)
  {
    KeptIndexed(w, cfg, c);
    CycleVisits(w, cfg, terms, c);
    HouseKeeping(w, cfg, c.was, c.at, c.owner, c.sweep, c.a.store, terms.me);
    VisitsOwnLeft(w, terms, c.at, Kept(w, cfg, c), c.visits, Opening(w, c), OwnerKept(w, c.owner, c.sweep, c.a.store));
  }

  // ---- what leaves the queue in a cycle ----

  /** A visit of the cycle reported the row as what it now is. */
  ghost predicate Reported(w: World, c: CycleRun, id: Id) {
    && id in c.after
    && exists j: nat, v: Verdict ::
         j < |c.visits| && Settled(id, v) in VisitLog(w, c.visits[j]) && c.after[id].status == StatusOf(v)
  }

  /** A visit left by an exception did not report the row, and left it over. */
  ghost predicate Abandoned(w: World, c: CycleRun, id: Id) {
    exists j: nat, k: nat :: Handed(w, c, id, j, k) && VisitThrew(c.visits[j]) && LeftOver(w, c.visits[j], k, c.after[id])
  }

  /** The sweep parked the row, which waited for a retry past its window. */
  predicate Expires(c: CycleRun, kept: Table, id: Id) {
    id in c.was && id in kept && id in c.after && c.after[id] == kept[id]
    && kept[id].status == Parked && c.was[id].status != Parked
  }

  lemma HandedIsTold(w: World, cfg: Settings, terms: Terms, c: CycleRun, id: Id, j: nat, k: nat)
    requires CycleOk(w, cfg, terms, c) && Indexed(c.was) && Handed(w, c, id, j, k)
    ensures Reported(w, c, id) || Abandoned(w, c, id)
  {
    var v := c.visits[j];
    CycleVisits(w, cfg, terms, c);
    KeptIndexed(w, cfg, c);
    VisitFromStart(w, terms, c.at, Kept(w, cfg, c), c.visits, Opening(w, c), j);
    VisitSettles(w, terms, c.at, Kept(w, cfg, c), v, k);
    var verdict := VerdictOf(w, Start(v), v.run, k);
    if verdict.Some? {
      assert Settled(id, verdict.value) in VisitLog(w, c.visits[j]);
    }
  }

  /** Only a cycle left by an exception abandons a row. */
  lemma AbandonedThrew(w: World, cfg: Settings, terms: Terms, c: CycleRun, id: Id)
    requires CycleOk(w, cfg, terms, c) && Abandoned(w, c, id)
    ensures c.threw
  {
    var j: nat, k: nat :| Handed(w, c, id, j, k) && VisitThrew(c.visits[j]) && LeftOver(w, c.visits[j], k, c.after[id]);
    if NoneThrew(c.visits) {
      assert false;
    }
    QuietThrowsNone(w, cfg, terms, c);
  }

  lemma QuietThrowsNone(w: World, cfg: Settings, terms: Terms, c: CycleRun)
    requires CycleOk(w, cfg, terms, c)
    ensures !c.threw ==> NoneThrew(c.visits)
  {
  }

  /** Housekeeping puts a row back in the queue, leaves it, or parks one whose retry window is over. */
  lemma KeptRow(w: World, cfg: Settings, c: CycleRun, id: Id)
    requires id in c.was
    ensures var r, k := c.was[id], Kept(w, cfg, c);
            id in k && (k[id] == r || (r.status == Delivering && k[id].status == Retry) || k[id].status == Parked)
    ensures c.was[id].status in {Delivered, Parked, DroppedByFilter} ==> Kept(w, cfg, c)[id] == c.was[id]
  {
  }

  lemma CycleAccountsRow(w: World, cfg: Settings, terms: Terms, c: CycleRun, id: Id)
    requires CycleOk(w, cfg, terms, c) && Indexed(c.was) && id in c.was
    ensures Accounted(w, c, Kept(w, cfg, c), id)
    ensures IsClaimed(c.visits, id) ==> IsQueued(Kept(w, cfg, c)[id]) && (Reported(w, c, id) || Abandoned(w, c, id))
  {
    CycleAccounts(w, cfg, terms, c);
    if IsClaimed(c.visits, id) {
      assert Accounted(w, c, Kept(w, cfg, c), id);
      var j: nat, k: nat :| Handed(w, c, id, j, k);
      HandedIsTold(w, cfg, terms, c, id, j, k);
      HandedWasDue(w, cfg, terms, c, id, j, k);
    }
  }

  /** How a row can move in a cycle. */
  ghost predicate Moves(w: World, c: CycleRun, kept: Table, id: Id) {
    && id in c.was && id in c.after
    && (|| c.after[id] == c.was[id] || IsQueued(c.after[id])
        || Reported(w, c, id) || Abandoned(w, c, id) || Expires(c, kept, id))
    && (c.was[id].status in {Delivered, Parked, DroppedByFilter} ==> c.after[id] == c.was[id])
  }

  lemma AccountedMoves(w: World, c: CycleRun, kept: Table, id: Id)
    requires id in c.was && Accounted(w, c, kept, id)
    requires IsClaimed(c.visits, id) ==> IsQueued(kept[id]) && (Reported(w, c, id) || Abandoned(w, c, id))
    requires kept[id] == c.was[id] || (c.was[id].status == Delivering && kept[id].status == Retry) || kept[id].status == Parked
    requires c.was[id].status in {Delivered, Parked, DroppedByFilter} ==> kept[id] == c.was[id]
    ensures Moves(w, c, kept, id)
  {
    if IsClaimed(c.visits, id) {
      var j: nat, k: nat :| Handed(w, c, id, j, k);
    }
  }

  /** A cycle leaves a row, puts it back in the queue, reports it, abandons it, or its sweep parks it; settled rows stay. */
  lemma CycleMoves(w: World, cfg: Settings, terms: Terms, c: CycleRun, id: Id)
    requires CycleOk(w, cfg, terms, c) && Indexed(c.was) && id in c.was
    ensures Moves(w, c, Kept(w, cfg, c), id)
  {
    CycleAccountsRow(w, cfg, terms, c, id);
    KeptRow(w, cfg, c, id);
    AccountedMoves(w, c, Kept(w, cfg, c), id);
  }

  lemma HandedWasDue(w: World, cfg: Settings, terms: Terms, c: CycleRun, id: Id, j: nat, k: nat)
    requires CycleOk(w, cfg, terms, c) && Indexed(c.was) && Handed(w, c, id, j, k)
    ensures id in Kept(w, cfg, c) && IsDue(Kept(w, cfg, c)[id], c.at)
  {
    CycleVisits(w, cfg, terms, c);
    KeptIndexed(w, cfg, c);
    VisitFromStart(w, terms, c.at, Kept(w, cfg, c), c.visits, Opening(w, c), j);
    assert Ids(Claimed(c.visits[j]))[k] in Elements(Ids(Claimed(c.visits[j])));
    VisitKeeps(w, terms, c.at, Kept(w, cfg, c), c.visits[j]);
  }
}
