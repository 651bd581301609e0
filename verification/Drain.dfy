/**
 Draining the due rows of one route by dispatch cycles. A round is a cycle that is not halted, cut short or left by an
 exception, that does not skip the route, and whose calls for the route go well: the store answers, the payloads decode,
 no enrichment fails, and the posts are accepted. Between rounds, new events arrive and other rows may change, but the
 rows waited for stay as they are and nothing older becomes due.
 */
module Drain {
  import opened Prelude
  import opened EventTable
  import opened BulkResults
  import opened Settlement
  import opened Outside
  import opened Batches
  import opened Fates
  import opened Cycles

  /** What the cycle claimed of the route. */
  ghost predicate Picks(c: CycleRun, routeId: string, id: Id) {
    exists j | 0 <= j < |c.visits| :: c.visits[j].routeId == routeId && id in Elements(Ids(Claimed(c.visits[j])))
  }

  ghost predicate IsRound(w: World, cfg: Settings, terms: Terms, routeId: string, c: CycleRun) {
    && CycleOk(w, cfg, terms, c) && Indexed(c.was)
    && !c.threw && !c.summary.halted && !c.cut && !Skips(c.summary.skipped, routeId)
    && forall j | 0 <= j < |c.visits| && c.visits[j].routeId == routeId ::
         GoesWell(w, Start(c.visits[j]), c.visits[j].to, Claimed(c.visits[j]))
  }

  /** The rows waited for are due, and whatever else is due came later. */
  predicate AtFront(t: Table, waiting: set<Id>, routeId: string, at: Time) {
    && waiting <= Where(t, Due(routeId, at))
    && forall id, r | id in Where(t, Due(routeId, at)) && id !in waiting && r in waiting :: r < id
  }

  /**
   From the end of a round to when the next one has done its housekeeping nothing happens to the rows still waited for,
   and only later rows become due.
   */
  ghost predicate Between(c: CycleRun, next: CycleRun, kept: Table, waiting: set<Id>, routeId: string) {
    && c.at <= next.at
    && (forall id | id in waiting && id in c.after :: id in kept && kept[id] == c.after[id])
    && (forall id, r | id in Where(kept, Due(routeId, next.at)) && id !in waiting && r in waiting :: r < id)
  }

  ghost function Unpicked(c: CycleRun, routeId: string, waiting: set<Id>): set<Id> {
    set id | id in waiting && !Picks(c, routeId, id)
  }

  /** The rows still waited for after the first `n` rounds. */
  ghost function Waiting(rounds: seq<CycleRun>, routeId: string, waiting: set<Id>, n: nat): set<Id>
    requires n <= |rounds|
  {
    if n == 0 then waiting
    else
      Unpicked(rounds[n - 1], routeId, Waiting(rounds, routeId, waiting, n - 1))
  }

  ghost predicate RoundAt(w: World, cfg: Settings, terms: Terms, routeId: string, rounds: seq<CycleRun>, waiting: set<Id>, n: nat)
    requires n < |rounds|
  {
    && IsRound(w, cfg, terms, routeId, rounds[n])
    && if n == 0 then AtFront(Kept(w, cfg, rounds[0]), waiting, routeId, rounds[0].at)
       else Between(rounds[n - 1], rounds[n], Kept(w, cfg, rounds[n]), Waiting(rounds, routeId, waiting, n), routeId)
  }

  ghost predicate DrainRun(w: World, cfg: Settings, terms: Terms, routeId: string, rounds: seq<CycleRun>, waiting: set<Id>) {
    forall n | 0 <= n < |rounds| :: RoundAt(w, cfg, terms, routeId, rounds, waiting, n)
  }

  // ---- one round ----

  lemma PickedFromFront(t: Table, waiting: set<Id>, routeId: string, at: Time, limit: nat, picked: seq<Id>)
    requires AtFront(t, waiting, routeId, at) && IsOldest(t, Due(routeId, at), limit, picked)
    ensures |waiting - Elements(picked)| == Max(0, |waiting| - limit)
    ensures forall a, b | a in waiting && a in picked && b in waiting && b !in picked :: a < b
  {
    var due, chosen := Where(t, Due(routeId, at)), Elements(picked);
    forall i, j | 0 <= i < j < |picked| ensures picked[i] != picked[j] {
    }
    DistinctElements(picked);
    assert (waiting - chosen) + (waiting * chosen) == waiting;
    if waiting <= chosen {
      assert waiting - chosen == {};
      Smaller(waiting, chosen);
    } else {
      var left :| left in waiting && left !in chosen;
      assert left in due && |picked| == limit;
      forall id | id in chosen ensures id in waiting {
        assert id in due && id < left;
      }
      assert waiting * chosen == chosen;
    }
  }

  lemma Smaller(a: set<Id>, b: set<Id>)
    requires a <= b
    ensures |a| <= |b|
  {
    assert b == a + (b - a);
  }

  /** There is one visit to a route. */
  lemma PicksAre(c: CycleRun, routeId: string, j: nat)
    requires Distinct(RoutesOf(c.visits)) && j < |c.visits| && c.visits[j].routeId == routeId
    ensures forall id :: Picks(c, routeId, id) <==> id in Elements(Ids(Claimed(c.visits[j])))
  {
    forall id ensures Picks(c, routeId, id) <==> id in Elements(Ids(Claimed(c.visits[j]))) {
      if Picks(c, routeId, id) {
        var i :| 0 <= i < |c.visits| && c.visits[i].routeId == routeId && id in Elements(Ids(Claimed(c.visits[i])));
        assert RoutesOf(c.visits)[i] == RoutesOf(c.visits)[j];
      }
    }
  }

  lemma RoundServes(w: World, cfg: Settings, terms: Terms, routeId: string, c: CycleRun) returns (j: nat)
    requires IsRound(w, cfg, terms, routeId, c) && Where(Kept(w, cfg, c), Due(routeId, c.at)) != {}
    ensures j < |c.visits| && c.visits[j].routeId == routeId && c.visits[j].Visited? && Distinct(RoutesOf(c.visits))
  {
    NoRouteIsPassedOver(w, cfg, terms, c, routeId);
    j :| 0 <= j < |c.visits| && c.visits[j].routeId == routeId && !VisitThrew(c.visits[j]);
    CycleVisits(w, cfg, terms, c);
  }

  /** A round with due rows visits the route, and the visit claims the oldest of them. */
  lemma RoundVisits(w: World, cfg: Settings, terms: Terms, routeId: string, c: CycleRun) returns (j: nat)
    requires IsRound(w, cfg, terms, routeId, c) && Where(Kept(w, cfg, c), Due(routeId, c.at)) != {}
    ensures j < |c.visits| && IsOldest(Kept(w, cfg, c), Due(routeId, c.at), terms.limit, Ids(Claimed(c.visits[j])))
    ensures forall id :: Picks(c, routeId, id) <==> id in Elements(Ids(Claimed(c.visits[j])))
  {
    j := RoundServes(w, cfg, terms, routeId, c);
    GoodVisitInCycle(w, cfg, terms, c, j);
    PicksAre(c, routeId, j);
  }

  lemma FrontIsTaken(t: Table, c: CycleRun, routeId: string, at: Time, limit: nat, waiting: set<Id>, picked: seq<Id>)
    requires AtFront(t, waiting, routeId, at) && IsOldest(t, Due(routeId, at), limit, picked)
    requires forall id :: Picks(c, routeId, id) <==> id in Elements(picked)
    ensures |Unpicked(c, routeId, waiting)| == Max(0, |waiting| - limit)
    ensures forall a, b | a in waiting && Picks(c, routeId, a) && b in waiting && !Picks(c, routeId, b) :: a < b
  {
    PickedFromFront(t, waiting, routeId, at, limit, picked);
    assert Unpicked(c, routeId, waiting) == waiting - Elements(picked);
  }

  /** A round takes a full batch off the front of the rows waited for. */
  lemma RoundTakes(w: World, cfg: Settings, terms: Terms, routeId: string, c: CycleRun, waiting: set<Id>)
    requires IsRound(w, cfg, terms, routeId, c) && AtFront(Kept(w, cfg, c), waiting, routeId, c.at)
    ensures |Unpicked(c, routeId, waiting)| == Max(0, |waiting| - terms.limit)
    ensures forall a, b | a in waiting && Picks(c, routeId, a) && b in waiting && !Picks(c, routeId, b) :: a < b
  {
    if waiting == {} {
      assert Unpicked(c, routeId, waiting) == {};
    } else {
      FrontIsDue(Kept(w, cfg, c), waiting, routeId, c.at);
      var j := RoundVisits(w, cfg, terms, routeId, c);
      FrontIsTaken(Kept(w, cfg, c), c, routeId, c.at, terms.limit, waiting, Ids(Claimed(c.visits[j])));
    }
  }

  lemma FrontIsDue(t: Table, waiting: set<Id>, routeId: string, at: Time)
    requires AtFront(t, waiting, routeId, at) && waiting != {}
    ensures Where(t, Due(routeId, at)) != {}
  {
    var id :| id in waiting;
    assert id in Where(t, Due(routeId, at));
  }

  /** The row was claimed in this cycle, and is what the map and the API's results decide: delivered, or parked. */
  ghost predicate MetItsFate(w: World, c: CycleRun, routeId: string, id: Id) {
    exists j: nat, k: nat ::
      && Handed(w, c, id, j, k) && c.visits[j].routeId == routeId
      && c.after[id].status == Fate(w, Start(c.visits[j]), Claimed(c.visits[j]), k)
  }

  /** What a round claims meets its fate. */
  lemma RoundSettles(w: World, cfg: Settings, terms: Terms, routeId: string, c: CycleRun, id: Id)
    requires IsRound(w, cfg, terms, routeId, c) && Picks(c, routeId, id)
    ensures MetItsFate(w, c, routeId, id)
  {
    var j :| 0 <= j < |c.visits| && c.visits[j].routeId == routeId && id in Elements(Ids(Claimed(c.visits[j])));
    var k :| 0 <= k < |Claimed(c.visits[j])| && Ids(Claimed(c.visits[j]))[k] == id;
    GoodVisitInCycle(w, cfg, terms, c, j);
    CycleVisits(w, cfg, terms, c);
    KeptIndexed(w, cfg, c);
    ClaimedRowIs(w, terms, c.at, Kept(w, cfg, c), c.visits, Opening(w, c), j, k);
    assert Handed(w, c, id, j, k);
  }

  /** What it does not claim is as housekeeping left it. */
  lemma RoundSpares(w: World, cfg: Settings, terms: Terms, routeId: string, c: CycleRun, id: Id)
    requires IsRound(w, cfg, terms, routeId, c) && id in Where(Kept(w, cfg, c), Due(routeId, c.at)) && !Picks(c, routeId, id)
    ensures id in c.after && c.after[id] == Kept(w, cfg, c)[id]
  {
    CycleVisits(w, cfg, terms, c);
    KeptIndexed(w, cfg, c);
    if IsClaimed(c.visits, id) {
      var j :| 0 <= j < |c.visits| && id in Elements(Ids(Claimed(c.visits[j])));
      VisitFromStart(w, terms, c.at, Kept(w, cfg, c), c.visits, Opening(w, c), j);
      VisitKeeps(w, terms, c.at, Kept(w, cfg, c), c.visits[j]);
    }
    UnclaimedRowIs(w, terms, c.at, Kept(w, cfg, c), c.visits, Opening(w, c), id);
  }

  lemma StaysAtFront(w: World, cfg: Settings, terms: Terms, routeId: string, c: CycleRun, next: CycleRun, kept: Table,
                     waiting: set<Id>, left: set<Id>)
    requires IsRound(w, cfg, terms, routeId, c) && AtFront(Kept(w, cfg, c), waiting, routeId, c.at)
    requires left == Unpicked(c, routeId, waiting) && Between(c, next, kept, left, routeId)
    ensures AtFront(kept, left, routeId, next.at)
  {
    forall id | id in left ensures id in Where(kept, Due(routeId, next.at)) {
      assert id in Where(Kept(w, cfg, c), Due(routeId, c.at));
      RoundSpares(w, cfg, terms, routeId, c, id);
    }
  }

  // ---- the whole drain ----

  lemma FrontFirst(w: World, cfg: Settings, terms: Terms, routeId: string, rounds: seq<CycleRun>, waiting: set<Id>)
    requires DrainRun(w, cfg, terms, routeId, rounds, waiting) && rounds != []
    ensures AtFront(Kept(w, cfg, rounds[0]), waiting, routeId, rounds[0].at)
  {
    assert RoundAt(w, cfg, terms, routeId, rounds, waiting, 0);
  }

  lemma RoundIs(w: World, cfg: Settings, terms: Terms, routeId: string, rounds: seq<CycleRun>, waiting: set<Id>, n: nat)
    requires DrainRun(w, cfg, terms, routeId, rounds, waiting) && n < |rounds|
    ensures IsRound(w, cfg, terms, routeId, rounds[n])
  {
    assert RoundAt(w, cfg, terms, routeId, rounds, waiting, n);
  }

  lemma FrontNext(w: World, cfg: Settings, terms: Terms, routeId: string, rounds: seq<CycleRun>, waiting: set<Id>, n: nat)
    requires DrainRun(w, cfg, terms, routeId, rounds, waiting) && n + 1 < |rounds|
    requires AtFront(Kept(w, cfg, rounds[n]), Waiting(rounds, routeId, waiting, n), routeId, rounds[n].at)
    ensures AtFront(Kept(w, cfg, rounds[n + 1]), Waiting(rounds, routeId, waiting, n + 1), routeId, rounds[n + 1].at)
  {
    RoundIs(w, cfg, terms, routeId, rounds, waiting, n);
    assert RoundAt(w, cfg, terms, routeId, rounds, waiting, n + 1);
    StaysAtFront(w, cfg, terms, routeId, rounds[n], rounds[n + 1], Kept(w, cfg, rounds[n + 1]),
                 Waiting(rounds, routeId, waiting, n), Waiting(rounds, routeId, waiting, n + 1));
  }

  lemma {:induction false} FrontAt(w: World, cfg: Settings, terms: Terms, routeId: string, rounds: seq<CycleRun>, waiting: set<Id>, n: nat)
    requires DrainRun(w, cfg, terms, routeId, rounds, waiting) && n < |rounds|
    ensures AtFront(Kept(w, cfg, rounds[n]), Waiting(rounds, routeId, waiting, n), routeId, rounds[n].at)
    decreases n
  {
    if n == 0 {
      FrontFirst(w, cfg, terms, routeId, rounds, waiting);
    } else {
      FrontAt(w, cfg, terms, routeId, rounds, waiting, n - 1);
      FrontNext(w, cfg, terms, routeId, rounds, waiting, n - 1);
    }
  }

  /** Round `n` takes a full batch off the rows still waited for, in order. */
  lemma TurnTakes(w: World, cfg: Settings, terms: Terms, routeId: string, rounds: seq<CycleRun>, waiting: set<Id>, n: nat)
    requires DrainRun(w, cfg, terms, routeId, rounds, waiting) && n < |rounds|
    ensures var left := Waiting(rounds, routeId, waiting, n);
            && |Waiting(rounds, routeId, waiting, n + 1)| == Max(0, |left| - terms.limit)
            && forall a, b | a in left && Picks(rounds[n], routeId, a) && b in left && !Picks(rounds[n], routeId, b) :: a < b
  {
    FrontAt(w, cfg, terms, routeId, rounds, waiting, n);
    RoundIs(w, cfg, terms, routeId, rounds, waiting, n);
    RoundTakes(w, cfg, terms, routeId, rounds[n], Waiting(rounds, routeId, waiting, n));
  }

  /** What is left of `n` rows after so many full batches. */
  function LeftOver(n: nat, limit: nat, rounds: nat): nat {
    if rounds == 0 then n else Max(0, LeftOver(n, limit, rounds - 1) - limit)
  }

  lemma {:induction false} LeftOverIs(n: nat, limit: nat, rounds: nat)
    ensures LeftOver(n, limit, rounds) == Max(0, n - rounds * limit)
    decreases rounds
  {
    if rounds > 0 {
      LeftOverIs(n, limit, rounds - 1);
      assert rounds * limit == (rounds - 1) * limit + limit;
    }
  }

  /** Each cycle takes a full batch off the rows waited for, until none is left. */
  lemma {:induction false} DrainsByBatches(w: World, cfg: Settings, terms: Terms, routeId: string, rounds: seq<CycleRun>,
                                           waiting: set<Id>, n: nat)
    requires DrainRun(w, cfg, terms, routeId, rounds, waiting) && n <= |rounds|
    ensures |Waiting(rounds, routeId, waiting, n)| == LeftOver(|waiting|, terms.limit, n)
    decreases n
  {
    if n > 0 {
      DrainsByBatches(w, cfg, terms, routeId, rounds, waiting, n - 1);
      TurnTakes(w, cfg, terms, routeId, rounds, waiting, n - 1);
    }
  }

  /** So many cycles settle every row waited for, and one cycle fewer would not do. */
  lemma DrainedAfter(w: World, cfg: Settings, terms: Terms, routeId: string, rounds: seq<CycleRun>, waiting: set<Id>)
    requires DrainRun(w, cfg, terms, routeId, rounds, waiting) && terms.limit >= 1
    ensures Waiting(rounds, routeId, waiting, |rounds|) == {} <==> |waiting| <= |rounds| * terms.limit
  {
    DrainsByBatches(w, cfg, terms, routeId, rounds, waiting, |rounds|);
    LeftOverIs(|waiting|, terms.limit, |rounds|);
  }

  /** Rows are taken in the order they were received: none is taken while an earlier one still waits. */
  lemma {:induction false} DrainsInOrder(w: World, cfg: Settings, terms: Terms, routeId: string, rounds: seq<CycleRun>,
                                         waiting: set<Id>, n: nat, a: Id, b: Id)
    requires DrainRun(w, cfg, terms, routeId, rounds, waiting) && n <= |rounds|
    requires a in waiting && b in waiting && a < b && a in Waiting(rounds, routeId, waiting, n)
    ensures b in Waiting(rounds, routeId, waiting, n)
    decreases n
  {
    if n > 0 {
      DrainsInOrder(w, cfg, terms, routeId, rounds, waiting, n - 1, a, b);
      TurnTakes(w, cfg, terms, routeId, rounds, waiting, n - 1);
    }
  }

  lemma TurnSettles(w: World, cfg: Settings, terms: Terms, routeId: string, rounds: seq<CycleRun>, waiting: set<Id>, n: nat, id: Id)
    requires DrainRun(w, cfg, terms, routeId, rounds, waiting) && n < |rounds| && Picks(rounds[n], routeId, id)
    ensures MetItsFate(w, rounds[n], routeId, id)
  {
    RoundIs(w, cfg, terms, routeId, rounds, waiting, n);
    RoundSettles(w, cfg, terms, routeId, rounds[n], id);
  }

  /**
   A row no longer waited for was claimed by some round, and came out of it delivered - or parked, if its own payload
   does not map or its own result was rejected, which keeps no other row from being delivered.
   */
  lemma {:induction false} DrainSettles(w: World, cfg: Settings, terms: Terms, routeId: string, rounds: seq<CycleRun>,
                                        waiting: set<Id>, n: nat, id: Id) returns (i: nat)
    requires DrainRun(w, cfg, terms, routeId, rounds, waiting) && n <= |rounds|
    requires id in waiting && id !in Waiting(rounds, routeId, waiting, n)
    ensures i < n && id in Waiting(rounds, routeId, waiting, i) && MetItsFate(w, rounds[i], routeId, id)
    decreases n
  {
    if id in Waiting(rounds, routeId, waiting, n - 1) {
      i := n - 1;
      TurnSettles(w, cfg, terms, routeId, rounds, waiting, i, id);
    } else {
      i := DrainSettles(w, cfg, terms, routeId, rounds, waiting, n - 1, id);
    }
  }
}
