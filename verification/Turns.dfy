/**
 Which due routes a cycle forwards and which it leaves alone, told by what it read: the killswitch, the route, its pause.
 */
module Turns {
  import opened Prelude
  import opened EventTable
  import opened Settlement
  import opened Outside
  import opened Batches
  import opened Cycles

  // ---- a list of routes taken in turn ----

  /** The route is known and not paused, by read number `n`. */
  predicate MayServe(w: World, n: nat, routeId: string) {
    w.routeKnown(n, routeId) && !w.routePaused(n, routeId)
  }

  /** One entry is the route's, with this reason. */
  predicate SkippedOnce(skipped: seq<Skip>, routeId: string, paused: bool) {
    exists i | 0 <= i < |skipped| ::
      skipped[i] == Skip(routeId, paused) && forall j | 0 <= j < |skipped| && j != i :: skipped[j].routeId != routeId
  }

  lemma SkipMeans(w: World, n: nat, routeId: string)
    ensures SkipAt(w, n, routeId).None? <==> MayServe(w, n, routeId)
    ensures SkipAt(w, n, routeId).Some? ==> SkipAt(w, n, routeId).value == Skip(routeId, w.routeKnown(n, routeId))
  {
  }

  lemma {:induction false} OnlyDueAreSkipped(w: World, n: nat, due: seq<string>, routeId: string)
    requires routeId !in due
    ensures !Skips(SkippedOf(w, n, due), routeId) && routeId !in VisitedOf(w, n, due)
  {
    if due != [] {
      OnlyDueAreSkipped(w, n, due[..|due| - 1], routeId);
      SkipMeans(w, n + |due| - 1, due[|due| - 1]);
    }
  }

  /** The entry stays the only one when another route's turn comes. */
  lemma OtherTurn(skipped: seq<Skip>, more: seq<Skip>, routeId: string, paused: bool)
    requires |more| <= 1 && forall i | 0 <= i < |more| :: more[i].routeId != routeId
    ensures SkippedOnce(skipped, routeId, paused) ==> SkippedOnce(skipped + more, routeId, paused)
    ensures Skips(skipped + more, routeId) ==> Skips(skipped, routeId)
  {
    if SkippedOnce(skipped, routeId, paused) {
      var i :| 0 <= i < |skipped| && skipped[i] == Skip(routeId, paused)
               && forall j | 0 <= j < |skipped| && j != i :: skipped[j].routeId != routeId;
      assert (skipped + more)[i] == Skip(routeId, paused);
    }
  }

  /** A route's own turn, when it had no entry yet. */
  lemma OwnTurn(skipped: seq<Skip>, routeId: string, paused: bool)
    requires !Skips(skipped, routeId)
    ensures SkippedOnce(skipped + [Skip(routeId, paused)], routeId, paused)
  {
    assert (skipped + [Skip(routeId, paused)])[|skipped|] == Skip(routeId, paused);
  }

  /** Route `k` is visited if its own read allows it; otherwise it is skipped, once, for the reason that read gave. */
  lemma {:induction false} TurnDecides(w: World, n: nat, due: seq<string>, k: nat)
    requires Distinct(due) && k < |due|
    ensures MayServe(w, n + k, due[k]) ==> due[k] in VisitedOf(w, n, due) && !Skips(SkippedOf(w, n, due), due[k])
    ensures !MayServe(w, n + k, due[k]) ==>
              due[k] !in VisitedOf(w, n, due) && SkippedOnce(SkippedOf(w, n, due), due[k], w.routeKnown(n + k, due[k]))
    decreases |due|
  {
    var last := |due| - 1;
    var before := due[..last];
    SkipMeans(w, n + last, due[last]);
    if k == last {
      OnlyDueAreSkipped(w, n, before, due[last]);
      OwnTurn(SkippedOf(w, n, before), due[last], w.routeKnown(n + last, due[last]));
      assert SkippedOf(w, n, before) + [] == SkippedOf(w, n, before);
    } else {
      TurnDecides(w, n, before, k);
      var skip := SkipAt(w, n + last, due[last]);
      OtherTurn(SkippedOf(w, n, before), if skip.Some? then [skip.value] else [], due[k], w.routeKnown(n + k, due[k]));
    }
  }

  // ---- in a cycle ----

  /** No visit was to the route, and its rows are as housekeeping left them. */
  ghost predicate LeftAlone(visits: seq<Visit>, after: Table, kept: Table, routeId: string) {
    && (forall j | 0 <= j < |visits| :: visits[j].routeId != routeId)
    && forall id | id in kept && kept[id].info.routeId == routeId :: id in after && after[id] == kept[id]
  }

  predicate VisitedOnce(visits: seq<Visit>, routeId: string) {
    exists i | 0 <= i < |visits| ::
      visits[i].routeId == routeId && forall j | 0 <= j < |visits| && j != i :: visits[j].routeId != routeId
  }

  lemma NotVisited(visits: seq<Visit>, routeId: string)
    requires routeId !in RoutesOf(visits)
    ensures forall j | 0 <= j < |visits| :: visits[j].routeId != routeId
  {
    forall j | 0 <= j < |visits| ensures visits[j].routeId != routeId {
      assert RoutesOf(visits)[j] == visits[j].routeId;
    }
  }

  lemma VisitedIsOnce(visits: seq<Visit>, routeId: string)
    requires Distinct(RoutesOf(visits)) && routeId in RoutesOf(visits)
    ensures VisitedOnce(visits, routeId)
  {
    var i :| 0 <= i < |visits| && RoutesOf(visits)[i] == routeId;
    forall j | 0 <= j < |visits| && j != i ensures visits[j].routeId != routeId {
      assert RoutesOf(visits)[j] != RoutesOf(visits)[i];
    }
  }

  lemma UnvisitedIsLeft(w: World, cfg: Settings, terms: Terms, c: CycleRun, routeId: string)
    requires CycleOk(w, cfg, terms, c) && Indexed(c.was) && routeId !in RoutesOf(c.visits)
    ensures LeftAlone(c.visits, c.after, Kept(w, cfg, c), routeId)
  {
    KeptIndexed(w, cfg, c);
    CycleVisits(w, cfg, terms, c);
    CycleKeeps(w, terms, c.at, Kept(w, cfg, c), c.visits, Opening(w, c));
    NotVisited(c.visits, routeId);
  }

  /** Read number `n` was for this route, and the cycle with these visits, skips and rows went by it. */
  ghost predicate IsRespected(w: World, visits: seq<Visit>, skipped: seq<Skip>, after: Table, kept: Table, n: nat, routeId: string) {
    && w.controlUp(n)
    && (!w.routeKnown(n, routeId) || w.routePaused(n, routeId) ==>
          LeftAlone(visits, after, kept, routeId) && SkippedOnce(skipped, routeId, w.routeKnown(n, routeId)))
    && (w.routeKnown(n, routeId) && !w.routePaused(n, routeId) ==>
          VisitedOnce(visits, routeId) && !Skips(skipped, routeId))
  }

  lemma TurnIsTaken(w: World, first: nat, due: seq<string>, reached: nat, skipped: seq<Skip>, visits: seq<Visit>, k: nat)
      returns (n: nat, routeId: string)
    requires TurnsTaken(w, first, due, reached, skipped, visits) && Distinct(due) && k < reached
    ensures n == first + k && routeId == due[k] && w.controlUp(n)
    ensures MayServe(w, n, routeId) ==> routeId in RoutesOf(visits) && !Skips(skipped, routeId)
    ensures !MayServe(w, n, routeId) ==> routeId !in RoutesOf(visits) && SkippedOnce(skipped, routeId, w.routeKnown(n, routeId))
  {
    n, routeId := first + k, due[k];
    assert due[..reached][k] == routeId;
    assert ControlUp(w, n);
    TurnDecides(w, first, due[..reached], k);
  }

  /** Routes that were not visited are left alone. */
  ghost predicate OthersLeft(visits: seq<Visit>, after: Table, kept: Table) {
    forall routeId | routeId !in RoutesOf(visits) :: LeftAlone(visits, after, kept, routeId)
  }

  lemma ReadsAreRespected(w: World, first: nat, due: seq<string>, reached: nat, skipped: seq<Skip>, visits: seq<Visit>,
                          after: Table, kept: Table, k: nat) returns (n: nat, routeId: string)
    requires TurnsTaken(w, first, due, reached, skipped, visits) && Distinct(due) && k < reached
    requires OthersLeft(visits, after, kept) && Distinct(RoutesOf(visits))
    ensures n == first + k && routeId == due[k] && IsRespected(w, visits, skipped, after, kept, n, routeId)
  {
    n, routeId := TurnIsTaken(w, first, due, reached, skipped, visits, k);
    if MayServe(w, n, routeId) {
      VisitedIsOnce(visits, routeId);
    }
  }

  /** The turns of a cycle. */
  lemma TurnsOf(w: World, cfg: Settings, terms: Terms, c: CycleRun) returns (first: nat)
    requires CycleOk(w, cfg, terms, c) && Indexed(c.was)
    ensures first == Opening(w, c).control
    ensures c.reached > 0 ==> TurnsTaken(w, first, c.summary.due, c.reached, c.summary.skipped, c.visits) && Distinct(c.summary.due)
    ensures OthersLeft(c.visits, c.after, Kept(w, cfg, c)) && Distinct(RoutesOf(c.visits))
  {
    first := Opening(w, c).control;
    CycleVisits(w, cfg, terms, c);
    forall routeId | routeId !in RoutesOf(c.visits) ensures LeftAlone(c.visits, c.after, Kept(w, cfg, c), routeId) {
      UnvisitedIsLeft(w, cfg, terms, c, routeId);
    }
  }

  /**
   However the cycle ends, a due route it got to was read, and that read decides. Unknown or paused, the route is left
   alone - no visit, no row of it changed - and listed once as skipped, as paused exactly if it is known. Otherwise it is
   visited once and not listed.
   */
  lemma PauseIsRespected(w: World, cfg: Settings, terms: Terms, c: CycleRun, k: nat) returns (n: nat, routeId: string)
    requires CycleOk(w, cfg, terms, c) && Indexed(c.was) && k < c.reached
    ensures k < |c.summary.due| && n == Opening(w, c).control + k && routeId == c.summary.due[k]
    ensures IsRespected(w, c.visits, c.summary.skipped, c.after, Kept(w, cfg, c), n, routeId)
  {
    var first := TurnsOf(w, cfg, terms, c);
    n, routeId := ReadsAreRespected(w, first, c.summary.due, c.reached, c.summary.skipped, c.visits, c.after, Kept(w, cfg, c), k);
  }

  lemma SkippedWasRead(w: World, first: nat, due: seq<string>, reached: nat, skipped: seq<Skip>, visits: seq<Visit>, routeId: string)
      returns (k: nat, n: nat)
    requires TurnsTaken(w, first, due, reached, skipped, visits) && Distinct(due) && Skips(skipped, routeId)
    ensures k < reached <= |due| && due[k] == routeId && n == first + k
    ensures !MayServe(w, n, routeId) && SkippedOnce(skipped, routeId, w.routeKnown(n, routeId))
  {
    var taken := due[..reached];
    if routeId !in taken {
      OnlyDueAreSkipped(w, first, taken, routeId);
    }
    k :| 0 <= k < |taken| && taken[k] == routeId;
    var r;
    n, r := TurnIsTaken(w, first, due, reached, skipped, visits, k);
  }

  lemma NoneReached(w: World, cfg: Settings, terms: Terms, c: CycleRun)
    requires CycleOk(w, cfg, terms, c) && c.reached == 0
    ensures c.summary.skipped == []
  {
  }

  /** A listed route is a due one that the cycle got to and its read made it leave alone. */
  lemma SkipTells(w: World, cfg: Settings, terms: Terms, c: CycleRun, routeId: string) returns (k: nat, n: nat)
    requires CycleOk(w, cfg, terms, c) && Indexed(c.was) && Skips(c.summary.skipped, routeId)
    ensures k < c.reached && k < |c.summary.due| && c.summary.due[k] == routeId && n == Opening(w, c).control + k
    ensures !MayServe(w, n, routeId) && SkippedOnce(c.summary.skipped, routeId, w.routeKnown(n, routeId))
  {
    var first := TurnsOf(w, cfg, terms, c);
    if c.reached == 0 {
      NoneReached(w, cfg, terms, c);
    }
    k, n := SkippedWasRead(w, first, c.summary.due, c.reached, c.summary.skipped, c.visits, routeId);
  }

  /** A due route that the cycle did not get to is left alone and not listed. */
  lemma UnreachedIsLeft(w: World, cfg: Settings, terms: Terms, c: CycleRun, k: nat)
    requires CycleOk(w, cfg, terms, c) && Indexed(c.was) && c.reached <= k < |c.summary.due|
    ensures LeftAlone(c.visits, c.after, Kept(w, cfg, c), c.summary.due[k]) && !Skips(c.summary.skipped, c.summary.due[k])
  {
    var taken := c.summary.due[..c.reached];
    assert c.summary.due[k] !in taken;
    OnlyDueAreSkipped(w, Opening(w, c).control, taken, c.summary.due[k]);
    UnvisitedIsLeft(w, cfg, terms, c, c.summary.due[k]);
  }

  /**
   The killswitch: a cycle halts exactly if it was read and does not read `none`, and throws without visiting anything if
   it was not read. Either way nothing is posted, no row is claimed, and the table is as housekeeping left it.
   */
  lemma KillswitchHalts(w: World, cfg: Settings, terms: Terms, c: CycleRun)
    requires CycleOk(w, cfg, terms, c)
    ensures c.summary.halted <==> w.controlUp(c.a.control) && !w.mayForward(c.a.control)
    ensures !w.controlUp(c.a.control) || !w.mayForward(c.a.control) ==>
              && c.visits == [] && c.after == Kept(w, cfg, c) && c.threw == !w.controlUp(c.a.control)
              && c.b.mapped == c.a.mapped && c.b.post == c.a.post && c.b.poll == c.a.poll
  {
  }

  // ---- housekeeping ----

  /** Housekeeping runs for the reclaim flag or a due sweep; its first store call recovers rows, and its second, if a sweep is due, parks. */
  predicate IsRecovered(w: World, c: CycleRun, r: EventRow) {
    && (c.owner.Some? || c.sweep) && w.storeUp(c.a.store)
    && r.status == Delivering
    && (r.leaseUntil.None? || r.leaseUntil.value < c.at || (c.owner.Some? && r.claimedBy == c.owner))
  }

  predicate IsSweptUp(w: World, cfg: Settings, c: CycleRun, r: EventRow) {
    && c.sweep && w.storeUp(c.a.store) && w.storeUp(c.a.store + 1)
    && (r.status == Retry || IsRecovered(w, c, r)) && c.at - r.info.receivedAt > cfg.parkAfterMs
  }

  /**
   What housekeeping makes of a row. A row that a dead instance left in delivering is queued again - or, if it is past the
   retry window, parked by the same sweep - and no other row is touched but those in retry past the window.
   */
  lemma HousekeepingIs(w: World, cfg: Settings, c: CycleRun, id: Id)
    requires id in c.was
    ensures id in Kept(w, cfg, c)
    ensures var r, k := c.was[id], Kept(w, cfg, c)[id];
            && (!IsRecovered(w, c, r) && !IsSweptUp(w, cfg, c, r) ==> k == r)
            && (IsSweptUp(w, cfg, c, r) ==>
                  k.status == Parked && k.lastError == Some("retry window exhausted") && k.attempts == r.attempts && k.info == r.info)
            && (IsRecovered(w, c, r) && !IsSweptUp(w, cfg, c, r) ==>
                  k == r.(status := Retry, nextAttemptAt := Some(c.at), claimedBy := None, leaseUntil := None))
  {
  }
}
