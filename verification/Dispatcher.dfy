/**
 One dispatcher instance at work on the event store: claim, map, post, settle, release. Steps that other
 instances take between its calls belong to module LeaseProtocol.
 */
module Dispatcher {
  import opened Prelude
  import opened EventTable
  import opened Backoff
  import opened BulkResults
  import opened Settlement
  import opened MemoryStore
  import opened Retention
  import opened Outside
  import opened Batches
  import opened Fates
  import opened Cycles

  const PRUNE_BATCH := 50

  class Dispatcher {
    const world: World
    const store: MemoryEventStore
    const me: string
    const cfg: Settings
    /** The shortest delay for a number of attempts, as a value. */
    ghost const wait: nat -> int
    /** At least the longest delay. */
    ghost const slack: nat
    var calls: Calls
    var now: Time
    var reclaimOwner: Option<string>
    var lastSweepAt: Time
    var settled: seq<Settled>

    ghost predicate Valid()
      reads this, store
    {
      && store.Valid() && (reclaimOwner.Some? ==> reclaimOwner.value == me)
      && IsLeastDelay(wait, cfg) && IsMostDelay(slack, cfg)
    }

    constructor (world: World, store: MemoryEventStore, me: string, cfg: Settings, startAt: Time)
      requires store.Valid()
      ensures Valid() && now == startAt && calls == NO_CALLS && slack == MostMs(cfg.backoffCapMs)
      ensures this.world == world && this.store == store && this.me == me && this.cfg == cfg
      ensures reclaimOwner == Some(me) && OwnLeft(store.rows, reclaimOwner, me) && settled == []
    {
      this.world, this.store, this.me, this.cfg := world, store, me, cfg;
      calls, now, reclaimOwner, lastSweepAt, settled := NO_CALLS, startAt, Some(me), 0, [];
      slack := MostMs(cfg.backoffCapMs);
      wait := (n: nat) => LeastMs(n, cfg.backoffBaseMs, cfg.backoffCapMs);
    }

    ghost function MyTerms(): Terms {
      Terms(me, cfg.leaseMs, cfg.batchMax, wait)
    }

    // ---- store calls: a failed call has no effect ----

    method Park(ids: seq<Id>, reason: string) returns (ok: bool)
      requires Valid()
      modifies this`calls, this`now, store`rows
      ensures Valid() && now >= old(now) && calls == old(calls).(store := old(calls).store + 1)
      ensures OnTime(old(store.rows), store.rows, now, slack)
      ensures ok == StoreUp(world, old(calls).store)
      ensures store.rows == if ok then Exec(old(store.rows), ParkIds(Elements(ids), reason)) else old(store.rows)
    {
      ok := StoreUp(world, calls.store);
      calls, now := calls.(store := calls.store + 1), now + Elapsed(world, calls);
      if ok {
        StaysOnTime(store.rows, ParkIds(Elements(ids), reason), now, slack);
        store.MarkParked(ids, reason);
      }
    }

    method Deliver(ids: seq<Id>, at: Time, bulk: string) returns (ok: bool)
      requires Valid()
      modifies this`calls, this`now, store`rows
      ensures Valid() && now >= old(now) && calls == old(calls).(store := old(calls).store + 1)
      ensures OnTime(old(store.rows), store.rows, now, slack)
      ensures ok == StoreUp(world, old(calls).store)
      ensures store.rows == if ok then Exec(old(store.rows), DeliverIds(Elements(ids), at, Some(bulk))) else old(store.rows)
    {
      ok := StoreUp(world, calls.store);
      calls, now := calls.(store := calls.store + 1), now + Elapsed(world, calls);
      if ok {
        StaysOnTime(store.rows, DeliverIds(Elements(ids), at, Some(bulk)), now, slack);
        store.MarkDelivered(ids, at, Some(bulk));
      }
    }

    /** When a row that fails now is tried again. */
    function NextTry(attempts: nat, at: Time, call: Calls): Time {
      NextAttemptAt(at, attempts, cfg.backoffBaseMs, cfg.backoffCapMs, world.random(call))
    }

    /** Back off by `attempts`; the delay is at least the shortest for that count. */
    method Fail(ids: seq<Id>, attempts: nat, message: string, ghost since: Time) returns (ok: bool, ghost next: Time)
      requires Valid() && Distinct(ids) && since <= now
      modifies this`calls, this`now, store`rows
      ensures Valid() && now >= old(now) && calls == old(calls).(store := old(calls).store + 1)
      ensures OnTime(old(store.rows), store.rows, now, slack)
      ensures ok == StoreUp(world, old(calls).store)
      ensures next == NextTry(attempts, old(now), old(calls)) && next >= since + wait(attempts)
      ensures store.rows == if ok then Exec(old(store.rows), FailIds(Elements(ids), next, message)) else old(store.rows)
    {
      var tryAt := NextTry(attempts, now, calls);
      next := tryAt;
      DelayBounds(attempts, attempts, cfg.backoffBaseMs, cfg.backoffCapMs, world.random(calls));
      ok := StoreUp(world, calls.store);
      calls, now := calls.(store := calls.store + 1), now + Elapsed(world, calls);
      if ok {
        StaysOnTime(store.rows, FailIds(Elements(ids), tryAt, message), now, slack);
        store.MarkFailed(ids, tryAt, message);
      }
    }

    method Report(ids: seq<Id>, v: Verdict, counts: Counts) returns (after: Counts)
      modifies this`settled
      ensures Booked(old(settled), settled, counts, after, Entries(ids, v))
    {
      CountsOfEntries(ids, v);
      settled := settled + Entries(ids, v);
      after := counts.Plus(CountOf(v, |ids|));
    }

    // ---- posting ----

    method PostWithRetries(records: seq<Record>) returns (reply: Reply)
      modifies this`calls, this`now
      ensures reply == PostOutcome(world, records, old(calls).post, 0)
      ensures calls == old(calls).(post := old(calls).post + PostsMade(world, records, old(calls).post, 0))
      ensures now >= old(now)
    {
      var attempt := 0;
      while true
        invariant 0 <= attempt <= IN_REQUEST_RETRIES && now >= old(now)
        invariant calls == old(calls).(post := calls.post)
        invariant PostOutcome(world, records, calls.post, attempt) == PostOutcome(world, records, old(calls).post, 0)
        invariant calls.post + PostsMade(world, records, calls.post, attempt)
               == old(calls).post + PostsMade(world, records, old(calls).post, 0)
        decreases IN_REQUEST_RETRIES - attempt
      {
        reply := world.post(calls.post, records);
        calls, now := calls.(post := calls.post + 1), now + Elapsed(world, calls);
        if !reply.Transient? || attempt == IN_REQUEST_RETRIES {
          return;
        }
        attempt := attempt + 1;
      }
    }

    method PollRejections(bulk: string) returns (failed: set<string>)
      modifies this`calls, this`now
      ensures failed == PolledRejections(world, bulk, old(calls).poll, 0)
      ensures calls == old(calls).(poll := old(calls).poll + PollsMade(world, bulk, old(calls).poll, 0))
      ensures now >= old(now)
    {
      for i := 0 to RESULT_POLL_ATTEMPTS
        invariant now >= old(now) && calls == old(calls).(poll := calls.poll)
        invariant PolledRejections(world, bulk, calls.poll, i) == PolledRejections(world, bulk, old(calls).poll, 0)
        invariant calls.poll + PollsMade(world, bulk, calls.poll, i) == old(calls).poll + PollsMade(world, bulk, old(calls).poll, 0)
      {
        var reply := world.poll(calls.poll, bulk);
        calls, now := calls.(poll := calls.poll + 1), now + Elapsed(world, calls);
        match reply
        case PollFails => return {};
        case Unsettled =>
        case Results(items) => return RejectedKeys(items);
      }
      return {};
    }

    // ---- marking rows and reporting it ----

    method ParkAndReport(ids: seq<Id>, reason: string, counts: Counts) returns (ok: bool, after: Counts, ghost log: seq<Settled>)
      requires Valid()
      modifies this`calls, this`now, this`settled, store`rows
      ensures Valid() && now >= old(now) && calls == old(calls).(store := old(calls).store + 1)
      ensures OnTime(old(store.rows), store.rows, now, slack)
      ensures ok == StoreUp(world, old(calls).store)
      ensures store.rows == if ok then Exec(old(store.rows), ParkIds(Elements(ids), reason)) else old(store.rows)
      ensures Booked(old(settled), settled, counts, after, log) && log == if ok then Entries(ids, AsParked) else []
    {
      after, log := counts, [];
      NothingBooked(settled, counts);
      ok := Park(ids, reason);
      if ok {
        log := Entries(ids, AsParked);
        after := Report(ids, AsParked, counts);
      }
    }

    method FailAndReport(ids: seq<Id>, attempts: nat, message: string, counts: Counts, ghost since: Time)
      returns (ok: bool, after: Counts, ghost next: Time, ghost log: seq<Settled>)
      requires Valid() && Distinct(ids) && since <= now
      modifies this`calls, this`now, this`settled, store`rows
      ensures Valid() && now >= old(now) && calls == old(calls).(store := old(calls).store + 1)
      ensures OnTime(old(store.rows), store.rows, now, slack)
      ensures ok == StoreUp(world, old(calls).store)
      ensures next == NextTry(attempts, old(now), old(calls)) && next >= since + wait(attempts)
      ensures store.rows == if ok then Exec(old(store.rows), FailIds(Elements(ids), next, message)) else old(store.rows)
      ensures Booked(old(settled), settled, counts, after, log) && log == if ok then Entries(ids, AsRetried) else []
    {
      after, log := counts, [];
      NothingBooked(settled, counts);
      ok, next := Fail(ids, attempts, message, since);
      if ok {
        log := Entries(ids, AsRetried);
        after := Report(ids, AsRetried, counts);
      }
    }

    // ---- mapping each event of a batch ----

    /** One event: mapped, parked, retried, or thrown on. */
    method MapOne(event: EventRow, counts: Counts, ghost since: Time)
      returns (threw: bool, record: Option<Record>, after: Counts, ghost next: Time, ghost log: seq<Settled>)
      requires Valid() && since <= now
      modifies this`calls, this`now, this`settled, store`rows
      ensures Valid() && now >= old(now)
      ensures OnTime(old(store.rows), store.rows, now, slack)
      ensures OneDone(world, old(calls), calls, old(store.rows), store.rows, event, threw, record, next, log, since, wait)
      ensures MappingOf(world, old(calls).mapped, event).EnrichmentFails? ==>
                next == NextTry(event.attempts, old(now) + Elapsed(world, old(calls)), old(calls).(mapped := old(calls).mapped + 1))
      ensures Booked(old(settled), settled, counts, after, log)
    {
      ghost var b, u := calls, store.rows;
      var outcome := MappingOf(world, calls.mapped, event);
      calls, now := calls.(mapped := calls.mapped + 1), now + Elapsed(world, calls);
      threw, record, after, next, log := false, None, counts, now, [];
      NothingBooked(settled, counts);
      var ok;
      match outcome
      case Mapped(r) =>
        record := Some(r);
        NothingIsDone(u);
      case Undecodable => threw := true;
      case Unmappable(reason) =>
        ok, after, log := ParkAndReport([event.id], reason, counts);
        threw := !ok;
        ParkedOne(world, b, calls, u, store.rows, event, ok, next, log, since, wait);
      case EnrichmentFails(message) =>
        ok, after, next, log := FailAndReport([event.id], event.attempts, message, counts, since);
        threw := !ok;
        RetriedOne(world, b, calls, u, store.rows, event, ok, next, log, since, wait);
    }

    /** Map the events of a batch in turn, up to one that is thrown on. */
    method MapEach(claimed: seq<EventRow>, counts: Counts, ghost since: Time)
      returns (threw: bool, mapped: seq<EventRow>, records: seq<Record>, after: Counts, ghost nexts: seq<Time>, ghost log: seq<Settled>)
      requires Valid() && since <= now
      modifies this`calls, this`now, this`settled, store`rows
      ensures Valid() && now >= old(now)
      ensures OnTime(old(store.rows), store.rows, now, slack)
      ensures MappingDone(world, old(calls), calls, old(store.rows), store.rows, claimed, nexts, mapped, records, log, since, wait)
      ensures threw <==> |nexts| < |claimed|
      ensures Booked(old(settled), settled, counts, after, log)
    {
      ghost var t0, start := store.rows, calls;
      threw, mapped, records, after, nexts, log := false, [], [], counts, [], [];
      NothingBooked(settled, counts);
      MappedNone(world, start, t0, claimed, since, wait);
      for k := 0 to |claimed|
        invariant Valid() && now >= old(now) && |nexts| == k && !threw
        invariant OnTime(t0, store.rows, now, slack)
        invariant MappedUpTo(world, start, calls, t0, store.rows, claimed, nexts, mapped, records, log, since, wait)
        invariant Booked(old(settled), settled, counts, after, log)
      {
        ghost var told, between, here, u := settled, after, calls, store.rows;
        ghost var next, more;
        var record;
        threw, record, after, next, more := MapOne(claimed[k], after, since);
        BookedNext(old(settled), told, settled, counts, between, after, log, more);
        if threw {
          MappingBroke(world, start, here, calls, t0, u, store.rows, claimed, nexts, mapped, records, log, claimed[k], record, next, more, since, wait);
          log := log + more;
          return;
        }
        MappedNext(world, start, here, calls, t0, u, store.rows, claimed, nexts, mapped, records, log, claimed[k], record, next, more, since, wait);
        mapped, records := MappedWith(mapped, claimed[k], record), RecordsWith(records, record);
        nexts, log := nexts + [next], log + more;
      }
    }

    // ---- settling what was posted ----

    /** Poll for the results and settle by them; or a store call fails, after the rejected rows were parked or before. */
    method SettleResults(bulk: string, mapped: seq<EventRow>, counts: Counts)
      returns (threw: bool, after: Counts, ghost e: Ending, ghost log: seq<Settled>)
      requires Valid() && mapped != []
      modifies this`calls, this`now, this`settled, store`rows
      ensures Valid() && now >= old(now)
      ensures OnTime(old(store.rows), store.rows, now, slack)
      ensures ResultsDone(world, old(calls), calls, old(store.rows), store.rows, mapped, bulk, threw, e, log)
      ensures !threw ==> e == AllDelivered(old(now)) || e == SplitUp(old(now))
      ensures Booked(old(settled), settled, counts, after, log)
    {
      threw, after, log := false, counts, [];
      NothingBooked(settled, counts);
      var deliveredAt := now;
      var failed := PollRejections(bulk);
      if failed == {} {
        var ok := Deliver(Ids(mapped), deliveredAt, bulk);
        if !ok {
          threw, e := true, Broken(false);
          return;
        }
        after := Report(Ids(mapped), AsDelivered, after);
        e, log := AllDelivered(deliveredAt), Entries(Ids(mapped), AsDelivered);
      } else {
        threw, after, e, log := SettleSplit(failed, bulk, deliveredAt, mapped, counts);
      }
    }

    method SettleSplit(failed: set<string>, bulk: string, deliveredAt: Time, mapped: seq<EventRow>, counts: Counts)
      returns (threw: bool, after: Counts, ghost e: Ending, ghost log: seq<Settled>)
      requires Valid() && mapped != [] && failed != {}
      modifies this`calls, this`now, this`settled, store`rows
      ensures Valid() && now >= old(now) && OnlyStore(old(calls), calls)
      ensures OnTime(old(store.rows), store.rows, now, slack)
      ensures SettledBy(world, old(calls).store, calls.store, mapped, bulk, failed, threw, e)
      ensures !threw ==> e == SplitUp(deliveredAt)
      ensures store.rows == EndingTable(old(store.rows), mapped, Accepted(bulk), failed, e)
      ensures Booked(old(settled), settled, counts, after, log) && log == LateLog(mapped, failed, e)
    {
      ghost var t, p := store.rows, calls.store;
      threw, after, log := true, counts, [];
      NothingBooked(settled, counts);
      var parked, good := Split(failed, mapped);
      var ok := Park(Ids(parked), REJECTED);
      if !ok {
        SplitBroke(world, p, t, store.rows, mapped, bulk, failed, false);
        e := Broken(false);
        return;
      }
      ghost var u := store.rows;
      ok := Deliver(Ids(good), deliveredAt, bulk);
      if !ok {
        SplitBroke(world, p, t, store.rows, mapped, bulk, failed, true);
        e := Broken(true);
        return;
      }
      SplitMade(world, p, t, u, store.rows, mapped, bulk, failed, deliveredAt);
      threw, e := false, SplitUp(deliveredAt);
      after := Report(Ids(good), AsDelivered, counts);
      ghost var told, between := settled, after;
      after := Report(Ids(parked), AsParked, after);
      log := SplitLog(mapped, failed);
      BookedNext(old(settled), told, settled, counts, between, after, Entries(Ids(good), AsDelivered), Entries(Ids(parked), AsParked));
    }

    /** The batch was refused, or it could not be posted or settled: park it or retry it, as a whole. */
    method SettleFailure(answer: Reply, mapped: seq<EventRow>, counts: Counts, ghost since: Time)
      returns (threw: bool, after: Counts, ghost next: Time, ghost log: seq<Settled>)
      requires Valid() && since <= now && Distinct(Ids(mapped))
      modifies this`calls, this`now, this`settled, store`rows
      ensures Valid() && now >= old(now)
      ensures OnTime(old(store.rows), store.rows, now, slack)
      ensures FailureDone(world, old(calls), calls, old(store.rows), store.rows, mapped, answer, threw, next, log, since, wait)
      ensures !IsPermanent(answer) ==> next == NextTry(MaxAttempts(mapped), old(now), old(calls))
      ensures Booked(old(settled), settled, counts, after, log)
    {
      var ok;
      if IsPermanent(answer) {
        next := since + wait(MaxAttempts(mapped));
        ok, after, log := ParkAndReport(Ids(mapped), ErrorText(answer), counts);
      } else {
        ok, after, next, log := FailAndReport(Ids(mapped), MaxAttempts(mapped), ErrorText(answer), counts, since);
      }
      threw := !ok;
    }

    /** Post the records and settle their rows. */
    method SettlePosted(mapped: seq<EventRow>, records: seq<Record>, counts: Counts, ghost since: Time)
      returns (threw: bool, after: Counts, ghost e: Ending, ghost log: seq<Settled>)
      requires Valid() && since <= now && mapped != [] && Distinct(Ids(mapped))
      modifies this`calls, this`now, this`settled, store`rows
      ensures Valid() && now >= old(now)
      ensures OnTime(old(store.rows), store.rows, now, slack)
      ensures PostDone(world, old(calls), calls, old(store.rows), store.rows, mapped, records, e, log, since, wait)
      ensures threw == e.Broken? && SettledSince(e, since)
      ensures Booked(old(settled), settled, counts, after, log)
    {
      ghost var t0, start := store.rows, calls;
      var answer := PostWithRetries(records);
      ghost var posted := calls;
      if answer.Accepted? {
        threw, after, e, log := SettleAccepted(answer, mapped, records, counts, since, start);
      } else {
        ghost var next;
        threw, after, next, log := SettleFailure(answer, mapped, counts, since);
        e := FailureEnding(answer, false, threw, next);
        RefusalIsPosted(world, start, posted, calls, t0, store.rows, mapped, records, answer, threw, next, log, since, wait);
      }
    }

    /** Settle an accepted post by its results; or, if a store call fails over that, retry the whole batch. */
    method SettleAccepted(answer: Reply, mapped: seq<EventRow>, records: seq<Record>, counts: Counts, ghost since: Time, ghost start: Calls)
      returns (threw: bool, after: Counts, ghost e: Ending, ghost log: seq<Settled>)
      requires Valid() && since <= now && mapped != [] && Distinct(Ids(mapped)) && answer.Accepted?
      requires answer == PostOutcome(world, records, start.post, 0)
      requires calls == start.(post := start.post + PostsMade(world, records, start.post, 0))
      modifies this`calls, this`now, this`settled, store`rows
      ensures Valid() && now >= old(now)
      ensures OnTime(old(store.rows), store.rows, now, slack)
      ensures PostDone(world, start, calls, old(store.rows), store.rows, mapped, records, e, log, since, wait)
      ensures threw == e.Broken? && SettledSince(e, since)
      ensures Booked(old(settled), settled, counts, after, log)
    {
      ghost var t0, posted := store.rows, calls;
      threw, after, e, log := SettleResults(answer.bulk, mapped, counts);
      if !threw {
        ResultsArePosted(world, start, posted, calls, t0, store.rows, mapped, records, answer, e, log, since, wait);
        return;
      }
      BrokenSaysNothing(world, posted, calls, t0, store.rows, mapped, answer.bulk, e, log);
      BookedNothing(old(settled), settled, counts, after);
      ghost var here, u, broken, early, next := calls, store.rows, e, log, 0;
      threw, after, next, log := SettleFailure(answer, mapped, counts, since);
      e := FailureEnding(answer, broken.partly, threw, next);
      BreakIsPosted(world, start, posted, here, calls, t0, u, store.rows, mapped, records, answer, broken, early, threw, next, log, since, wait);
    }

    // ---- a whole batch ----

    /** Map, post and settle a claimed batch. `threw` is an exception that leaves this method. */
    method DeliverBatch(claimed: seq<EventRow>, counts: Counts, ghost since: Time)
      returns (threw: bool, after: Counts, ghost run: BatchRun, ghost log: seq<Settled>)
      requires Valid() && since <= now && Distinct(Ids(claimed))
      modifies this`calls, this`now, this`settled, store`rows
      ensures Valid() && now >= old(now)
      ensures OnTime(old(store.rows), store.rows, now, slack)
      ensures run.claimed == claimed && threw == Threw(run) && SettledSince(run.ending, since)
      ensures BatchDone(world, old(calls), calls, old(store.rows), store.rows, run, log, since, wait)
      ensures Booked(old(settled), settled, counts, after, log)
    {
      ghost var t0, start := store.rows, calls;
      var mapped, records;
      ghost var nexts, e, late;
      threw, mapped, records, after, nexts, log := MapEach(claimed, counts, since);
      run := Handling(claimed, nexts, NotPosted);
      if threw || records == [] {
        MappingIsBatch(world, start, calls, t0, store.rows, claimed, nexts, mapped, records, log, since, wait);
        return;
      }
      ghost var told, between, here, u := settled, after, calls, store.rows;
      MappedAreDistinct(world, start, here, t0, u, claimed, nexts, mapped, records, log, since, wait);
      threw, after, e, late := SettlePosted(mapped, records, after, since);
      run := Handling(claimed, nexts, e);
      BookedNext(old(settled), told, settled, counts, between, after, log, late);
      PostIsBatch(world, start, here, calls, t0, u, store.rows, claimed, nexts, mapped, records, log, e, late, since, wait);
      log := log + late;
    }

    /** Whatever the batch left in `delivering` goes back to the queue, or to the next cycle's recovery. */
    method ReleaseLeftover(claimed: seq<EventRow>) returns (ghost released: Option<Time>)
      requires Valid()
      modifies this`calls, this`now, this`reclaimOwner, store`rows
      ensures Valid() && now >= old(now) && calls == old(calls).(store := old(calls).store + 1)
      ensures OnTime(old(store.rows), store.rows, now, slack)
      ensures released == if StoreUp(world, old(calls).store) then Some(old(now)) else None
      ensures store.rows == ReleaseTable(old(store.rows), Elements(Ids(claimed)), released)
      ensures reclaimOwner == FlagReleased(old(reclaimOwner), me, released)
    {
      var at := now;
      var up, _ := AskStore();
      released := if up then Some(at) else None;
      if up {
        StaysOnTime(store.rows, ReleaseIds(Elements(Ids(claimed)), at, LEFT), now, slack);
        var _ := store.ReleaseDelivering(Ids(claimed), at, LEFT);
      } else {
        reclaimOwner := Some(me);
      }
    }

    // ---- a cycle ----

    /** One store call; `up` tells whether it was answered. */
    method AskStore() returns (up: bool, call: nat)
      modifies this`calls, this`now
      ensures call == old(calls).store && calls == old(calls).(store := call + 1) && up == StoreUp(world, call)
      ensures now == old(now) + Elapsed(world, old(calls))
    {
      call, up := calls.store, StoreUp(world, calls.store);
      calls, now := calls.(store := calls.store + 1), now + Elapsed(world, calls);
    }

    /** One read of operator state or of a route. */
    method AskControl() returns (up: bool, call: nat)
      modifies this`calls, this`now
      ensures call == old(calls).control && calls == old(calls).(control := call + 1) && up == ControlUp(world, call)
      ensures now == old(now) + Elapsed(world, old(calls))
    {
      call, up := calls.control, ControlUp(world, calls.control);
      calls, now := calls.(control := calls.control + 1), now + Elapsed(world, calls);
    }

    method Sleep(ms: nat)
      modifies this`now
      ensures now == old(now) + ms
    {
      now := now + ms;
    }

    /** Claim the oldest due events of one route, deliver them, and release what is left. */
    method ForwardRoute(routeId: string, at: Time, counts: Counts)
      returns (after: Counts, threw: bool, ghost v: Visit, ghost log: seq<Settled>)
      requires Valid() && at <= now
      modifies this`calls, this`now, this`settled, this`reclaimOwner, store`rows
      ensures Valid() && now >= old(now)
      ensures OnTime(old(store.rows), store.rows, now, slack)
      ensures v.routeId == routeId && v.from == old(calls) && v.to == calls && v.since == old(now) && threw == VisitThrew(v)
      ensures VisitDone(world, MyTerms(), at, old(store.rows), store.rows, v)
      ensures reclaimOwner == FlagAfter(old(reclaimOwner), me, v)
      ensures Booked(old(settled), settled, counts, after, log) && log == VisitLog(world, v)
    {
      ghost var t0, since, from := store.rows, now, calls;
      after, threw, log := counts, false, [];
      NothingBooked(settled, counts);
      var up, claimed := Claim(routeId, at);
      if !up {
        threw, v := true, ClaimFailed(routeId, from, calls, since);
      } else if |claimed| == 0 {
        v := Visited(routeId, from, calls, calls, since, Handling([], [], NotPosted), None);
        EmptyVisitMade(world, MyTerms(), at, t0, store.rows, v);
      } else {
        threw, after, v, log := DeliverAndRelease(routeId, claimed, at, counts, t0, from, since);
      }
    }

    /** Lease the oldest due events of the route. */
    method Claim(routeId: string, at: Time) returns (up: bool, claimed: seq<EventRow>)
      requires Valid() && at <= now
      modifies this`calls, this`now, store`rows
      ensures Valid() && now >= old(now) && calls == old(calls).(store := old(calls).store + 1)
      ensures OnTime(old(store.rows), store.rows, now, slack)
      ensures up == StoreUp(world, old(calls).store)
      ensures up ==> ClaimDone(MyTerms(), at, old(store.rows), store.rows, routeId, claimed, old(now))
      ensures !up ==> store.rows == old(store.rows)
    {
      claimed := [];
      var lease := Lease(me, now + cfg.leaseMs);
      var call;
      up, call := AskStore();
      if up {
        ghost var picked;
        claimed, picked := store.ClaimDue(routeId, at, cfg.batchMax, lease);
        ClaimMade(MyTerms(), at, old(store.rows), store.rows, routeId, claimed, picked, old(now));
        StaysOnTime(old(store.rows), ClaimIds(Elements(picked), at, lease), now, slack);
      }
    }

    method DeliverAndRelease(routeId: string, claimed: seq<EventRow>, at: Time, counts: Counts,
                             ghost t0: Table, ghost from: Calls, ghost since: Time)
      returns (threw: bool, after: Counts, ghost v: Visit, ghost log: seq<Settled>)
      requires Valid() && at <= since <= now && claimed != []
      requires ClaimDone(MyTerms(), at, t0, store.rows, routeId, claimed, since)
      requires calls == from.(store := from.store + 1) && StoreUp(world, from.store)
      modifies this`calls, this`now, this`settled, this`reclaimOwner, store`rows
      ensures Valid() && now >= old(now)
      ensures OnTime(old(store.rows), store.rows, now, slack)
      ensures v.routeId == routeId && v.from == from && v.to == calls && v.since == since && threw == VisitThrew(v)
      ensures VisitDone(world, MyTerms(), at, t0, store.rows, v)
      ensures reclaimOwner == FlagAfter(old(reclaimOwner), me, v)
      ensures Booked(old(settled), settled, counts, after, log) && log == VisitLog(world, v)
    {
      ghost var u, start, terms := store.rows, calls, MyTerms();
      ghost var run;
      threw, after, run, log := DeliverBatch(claimed, counts, since);
      ghost var settledBy, u' := calls, store.rows;
      ghost var released := ReleaseLeftover(claimed);
      v := VisitMade(world, terms, at, t0, u, u', store.rows, routeId, from, start, settledBy, calls, since, claimed, run, released, log,
                     old(reclaimOwner));
    }

    predicate SweepDue(at: Time)
      reads this`lastSweepAt
    {
      at - lastSweepAt >= cfg.recoverIntervalMs
    }

    /**
     Reclaim rows by owner when flagged and by expired lease when a sweep is due. The flag is dropped only
     once the recovery that used it went through; no batch of this instance is in flight here.
     */
    method Recover(at: Time)
      requires Valid() && at <= now
      modifies this`calls, this`now, this`reclaimOwner, this`lastSweepAt, store`rows
      ensures Valid() && now >= old(now)
      ensures OnTime(old(store.rows), store.rows, now, slack)
      ensures HouseDone(world, cfg, old(store.rows), store.rows, at, old(reclaimOwner), reclaimOwner, old(SweepDue(at)), old(calls), calls)
      ensures lastSweepAt == if Sweeps(world, old(SweepDue(at)), old(calls).store) then now else old(lastSweepAt)
    {
      var sweep := SweepDue(at);
      ghost var t, a, owner := store.rows, calls, reclaimOwner;
      if reclaimOwner.None? && !sweep {
        HouseIdle(world, cfg, t, at, owner, a);
        return;
      }
      var up, call := AskStore();
      if !up {
        HouseDown(world, cfg, t, at, owner, sweep, a, calls);
        return;
      }
      StaysOnTime(t, RecoverRows(at, owner), now, slack);
      var _ := store.RecoverDelivering(at, reclaimOwner);
      reclaimOwner := None;
      if sweep {
        ghost var u := store.rows;
        up, call := Sweep(at);
        HouseSwept(world, cfg, t, u, store.rows, at, owner, a, calls, up, call);
      } else {
        HouseRecovered(world, cfg, t, store.rows, at, owner, a, calls);
      }
    }

    method Sweep(at: Time) returns (up: bool, call: nat)
      requires Valid()
      modifies this`calls, this`now, this`lastSweepAt, store`rows
      ensures Valid() && now >= old(now)
      ensures call == old(calls).store && calls == old(calls).(store := call + 1) && up == StoreUp(world, call)
      ensures OnTime(old(store.rows), store.rows, now, slack)
      ensures store.rows == if up then Exec(old(store.rows), ExpireRows(ParkCutoff(at, cfg.parkAfterMs))) else old(store.rows)
      ensures lastSweepAt == if up then now else old(lastSweepAt)
    {
      up, call := AskStore();
      if up {
        StaysOnTime(store.rows, ExpireRows(ParkCutoff(at, cfg.parkAfterMs)), now, slack);
        var _ := store.ParkExpired(at, cfg.parkAfterMs);
        lastSweepAt := now;
      }
    }

    /** Read route `n` and its pause. */
    method LookUp(at: Time, summary: Summary, n: nat, ghost t0: Table, ghost start: Calls, ghost was: seq<Settled>,
                  ghost owner: Option<string>, ghost visits: seq<Visit>, ghost log: seq<Settled>)
      returns (up: bool, call: nat)
      requires Valid() && n < |summary.due| && calls.control == start.control + n
      requires Touring(world, MyTerms(), at, t0, store.rows, start, calls, n, summary, visits, log, was, settled, owner, reclaimOwner)
      modifies this`calls, this`now
      ensures Valid() && now >= old(now) && call == start.control + n && calls.control == call + 1 && up == ControlUp(world, call)
      ensures OnTime(old(store.rows), store.rows, now, slack)
      ensures up ==> Touring(world, MyTerms(), at, t0, store.rows, start, calls, n, summary, visits, log, was, settled, owner, reclaimOwner)
      ensures !up ==>
                TourDone(world, MyTerms(), at, t0, store.rows, start, calls, n, summary, visits, log, was, settled, owner, reclaimOwner, true, false)
    {
      ghost var first := calls;
      up, call := AskControl();
      TouringReads(world, MyTerms(), at, t0, store.rows, start, first, calls, n, summary, visits, log, was, settled, owner, reclaimOwner);
      if !up {
        TouringBreaks(world, MyTerms(), at, t0, store.rows, start, calls, n, summary, visits, log, was, settled, owner, reclaimOwner, call);
      }
    }

    /** One due route, looked up by the read `call`: skipped if unknown or paused, else forwarded. */
    method VisitRoute(at: Time, summary: Summary, n: nat, call: nat, ghost t0: Table, ghost start: Calls, ghost was: seq<Settled>,
                      ghost owner: Option<string>, ghost visits: seq<Visit>, ghost log: seq<Settled>)
      returns (threw: bool, after: Summary, ghost made: seq<Visit>, ghost told: seq<Settled>)
      requires Valid() && at <= now && n < |summary.due| && call == start.control + n && ControlUp(world, call)
      requires Touring(world, MyTerms(), at, t0, store.rows, start, calls, n, summary, visits, log, was, settled, owner, reclaimOwner)
      modifies this`calls, this`now, this`settled, this`reclaimOwner, store`rows
      ensures Valid() && now >= old(now) && calls.control == old(calls).control && after.due == summary.due
      ensures OnTime(old(store.rows), store.rows, now, slack)
      ensures !threw ==> Touring(world, MyTerms(), at, t0, store.rows, start, calls, n + 1, after, made, told, was, settled, owner, reclaimOwner)
      ensures threw ==>
                TourDone(world, MyTerms(), at, t0, store.rows, start, calls, n + 1, after, made, told, was, settled, owner, reclaimOwner, true, false)
    {
      var skip := SkipAt(world, call, summary.due[n]);
      if skip.Some? {
        threw, after, made, told := false, summary.(skipped := summary.skipped + [skip.value]), visits, log;
        TouringSkips(world, MyTerms(), at, t0, store.rows, start, calls, n, summary, visits, log, was, settled, owner, reclaimOwner, skip.value, call);
      } else {
        ghost var u, b, mid, flag := store.rows, calls, settled, reclaimOwner;
        var counts;
        ghost var v, more;
        counts, threw, v, more := ForwardRoute(summary.due[n], at, summary.counts);
        after := summary.(counts := counts);
        made, told := TouringVisits(world, MyTerms(), at, t0, u, store.rows, start, b, n, summary, visits, log, was, mid, settled, owner, flag,
                                    reclaimOwner, v, more, counts, call);
      }
    }

    /** Due route `n`: looked up, and skipped or visited. */
    method TakeTurn(at: Time, summary: Summary, n: nat, ghost t0: Table, ghost start: Calls, ghost was: seq<Settled>,
                    ghost owner: Option<string>, ghost visits: seq<Visit>, ghost log: seq<Settled>)
      returns (threw: bool, after: Summary, ghost made: seq<Visit>, ghost told: seq<Settled>, ghost reached: nat)
      requires Valid() && at <= now && n < |summary.due| && calls.control == start.control + n
      requires Touring(world, MyTerms(), at, t0, store.rows, start, calls, n, summary, visits, log, was, settled, owner, reclaimOwner)
      modifies this`calls, this`now, this`settled, this`reclaimOwner, store`rows
      ensures Valid() && now >= old(now) && calls.control == old(calls).control + 1 && after.due == summary.due
      ensures OnTime(old(store.rows), store.rows, now, slack)
      ensures !threw ==>
                && reached == n + 1
                && Touring(world, MyTerms(), at, t0, store.rows, start, calls, reached, after, made, told, was, settled, owner, reclaimOwner)
      ensures threw ==>
                TourDone(world, MyTerms(), at, t0, store.rows, start, calls, reached, after, made, told, was, settled, owner, reclaimOwner, true, false)
    {
      threw, after, made, told, reached := true, summary, visits, log, n;
      var up, call := LookUp(at, summary, n, t0, start, was, owner, visits, log);
      if up {
        reached := n + 1;
        threw, after, made, told := VisitRoute(at, summary, n, call, t0, start, was, owner, visits, log);
      }
    }

    /** The due routes in turn, until an exception or a stop. */
    method VisitRoutes(at: Time, due: seq<string>, abortable: bool)
      returns (threw: bool, summary: Summary, ghost visits: seq<Visit>, ghost reached: nat, ghost cut: bool, ghost log: seq<Settled>)
      requires Valid() && at <= now
      modifies this`calls, this`now, this`settled, this`reclaimOwner, store`rows
      ensures Valid() && now >= old(now)
      ensures OnTime(old(store.rows), store.rows, now, slack)
      ensures summary.due == due && (cut ==> abortable)
      ensures TourDone(world, MyTerms(), at, old(store.rows), store.rows, old(calls), calls, reached, summary, visits, log, old(settled), settled,
                       old(reclaimOwner), reclaimOwner, threw, cut)
    {
      ghost var t0, start, was, owner := store.rows, calls, settled, reclaimOwner;
      threw, summary, visits, reached, cut, log := false, Summary(NONE, due, [], false), [], 0, false, [];
      TouringStarts(world, MyTerms(), at, t0, start, due, was, owner);
      for n := 0 to |due|
        invariant Valid() && now >= old(now) && reached == n && summary.due == due && calls.control == start.control + n
        invariant OnTime(t0, store.rows, now, slack)
        invariant Touring(world, MyTerms(), at, t0, store.rows, start, calls, n, summary, visits, log, was, settled, owner, reclaimOwner)
      {
        if abortable && Aborts(world, calls) {
          threw, cut := false, true;
          TouringEnds(world, MyTerms(), at, t0, store.rows, start, calls, n, summary, visits, log, was, settled, owner, reclaimOwner, true);
          return;
        }
        threw, summary, visits, log, reached := TakeTurn(at, summary, n, t0, start, was, owner, visits, log);
        if threw {
          return;
        }
      }
      threw := false;
      TouringEnds(world, MyTerms(), at, t0, store.rows, start, calls, |due|, summary, visits, log, was, settled, owner, reclaimOwner, false);
    }

    /** Housekeeping, and the killswitch. */
    method Begin(at: Time) returns (up: bool, control: nat, ghost c: CycleRun)
      requires Valid() && at == now
      modifies this`calls, this`now, this`reclaimOwner, this`lastSweepAt, store`rows
      ensures Valid() && OnTime(old(store.rows), store.rows, now, slack)
      ensures now >= old(now) + Elapsed(world, HouseEnd(world, c))
      ensures c.was == old(store.rows) && c.after == store.rows && c.at == at && c.a == old(calls) && c.b == calls
      ensures c.owner == old(reclaimOwner) && c.sweep == (at - old(lastSweepAt) >= cfg.recoverIntervalMs)
      ensures CycleBegun(world, cfg, c) && c.b == Asked(world, c) && control == c.a.control && up == ControlUp(world, control)
      ensures reclaimOwner == OwnerKept(world, c.owner, c.sweep, c.a.store)
      ensures if Sweeps(world, c.sweep, c.a.store) then at <= lastSweepAt <= now else lastSweepAt == old(lastSweepAt)
    {
      c := CycleRun(store.rows, store.rows, at, reclaimOwner, SweepDue(at), calls, calls, [], 0, Summary(NONE, [], [], false), true, false);
      Recover(at);
      ghost var house := calls;
      up, control := AskControl();
      c := c.(after := store.rows, b := calls);
      CycleStarts(world, cfg, c, reclaimOwner, house);
    }

    /** One dispatch cycle, with its whole account. */
    method Cycle(abortable: bool) returns (threw: bool, summary: Summary, ghost c: CycleRun)
      requires Valid()
      modifies this`calls, this`now, this`settled, this`reclaimOwner, this`lastSweepAt, store`rows
      ensures Valid()
      ensures OnTime(old(store.rows), store.rows, now, slack)
      ensures now >= old(now) + Elapsed(world, HouseEnd(world, c))
      ensures c.was == old(store.rows) && c.after == store.rows && c.at == old(now) && c.a == old(calls) && c.b == calls
      ensures c.owner == old(reclaimOwner) && c.sweep == (old(now) - old(lastSweepAt) >= cfg.recoverIntervalMs) && c.threw == threw && c.summary == summary
      ensures CycleOk(world, cfg, MyTerms(), c) && (c.cut ==> abortable)
      ensures reclaimOwner == OwnerAfter(world, MyTerms(), c)
      ensures if Sweeps(world, c.sweep, c.a.store) then old(now) <= lastSweepAt <= now else lastSweepAt == old(lastSweepAt)
      ensures Totalled(old(settled), settled, summary.counts, CycleLog(world, c.visits))
    {
      var at := now;
      threw, summary := true, Summary(NONE, [], [], false);
      NothingTotalled(settled);
      var up, control;
      up, control, c := Begin(at);
      if !up {
        CycleNotAsked(world, cfg, MyTerms(), c, control);
        return;
      }
      if !ForwardAllowed(world, control) {
        CyclePauses(world, cfg, MyTerms(), c, control);
        threw, summary := false, summary.(halted := true);
        c := c.(summary := summary, threw := false);
        return;
      }
      threw, summary, c := Enter(at, abortable, control, c);
    }

    /** The due routes are read, and gone through. */
    method Enter(at: Time, abortable: bool, control: nat, ghost c0: CycleRun) returns (threw: bool, summary: Summary, ghost c: CycleRun)
      requires Valid() && at == c0.at <= now && c0.after == store.rows && c0.b == calls
      requires CycleBegun(world, cfg, c0) && c0.b == Asked(world, c0)
      requires control == c0.a.control && ControlUp(world, control) && ForwardAllowed(world, control)
      modifies this`calls, this`now, this`settled, this`reclaimOwner, store`rows
      ensures Valid() && now >= old(now)
      ensures OnTime(old(store.rows), store.rows, now, slack)
      ensures HouseEnd(world, c) == HouseEnd(world, c0)
      ensures SameStart(c0, c) && c.after == store.rows && c.b == calls && c.threw == threw && c.summary == summary
      ensures CycleOk(world, cfg, MyTerms(), c) && (c.cut ==> abortable)
      ensures reclaimOwner == FlagAfterAll(old(reclaimOwner), me, c.visits)
      ensures Totalled(old(settled), settled, summary.counts, CycleLog(world, c.visits))
    {
      threw, summary := true, Summary(NONE, [], [], false);
      NothingTotalled(settled);
      var up, call := AskStore();
      c := c0.(b := calls);
      CycleOpens(world, cfg, MyTerms(), c0, c, control, call);
      if up {
        threw, summary, c := Tour(at, abortable, c);
      }
    }

    /** The rest of a cycle that found the store up and forwarding allowed. */
    method Tour(at: Time, abortable: bool, ghost c0: CycleRun) returns (threw: bool, summary: Summary, ghost c: CycleRun)
      requires Valid() && at == c0.at <= now && c0.after == store.rows && c0.b == calls
      requires CycleBegun(world, cfg, c0) && Opens(world, c0) && c0.b == Opening(world, c0)
      modifies this`calls, this`now, this`settled, this`reclaimOwner, store`rows
      ensures Valid() && now >= old(now)
      ensures OnTime(old(store.rows), store.rows, now, slack)
      ensures HouseEnd(world, c) == HouseEnd(world, c0)
      ensures SameStart(c0, c) && c.after == store.rows && c.b == calls && c.threw == threw && c.summary == summary
      ensures CycleOk(world, cfg, MyTerms(), c) && (c.cut ==> abortable)
      ensures reclaimOwner == FlagAfterAll(old(reclaimOwner), me, c.visits)
      ensures Totalled(old(settled), settled, summary.counts, CycleLog(world, c.visits))
    {
      var due := store.RoutesWithDueEvents(at);
      ghost var visits, reached, cut, log;
      threw, summary, visits, reached, cut, log := VisitRoutes(at, due, abortable);
      c := CycleTours(world, cfg, MyTerms(), c0, store.rows, calls, reached, summary, visits, log, old(settled), settled, old(reclaimOwner),
                      reclaimOwner, threw, cut);
    }

    // ---- retention ----

    /** Bounded steps until one does nothing: the one-shot result, unless stopped or failed on the way there. */
    method RunPrune(at: Time, deliveredDays: int, ledgerDays: int, abortable: bool)
      returns (threw: bool, stopped: bool, wiped: nat, deleted: nat)
      requires Valid()
      modifies this`calls, this`now, store`rows, store`byKey
      ensures Valid() && now >= old(now) && OnlyStore(old(calls), calls)
      ensures PartlyPruned(old(store.rows), store.rows, WipeCutoff(at, deliveredDays), DeleteCutoff(at, ledgerDays), wiped, deleted)
      ensures !threw && !stopped ==>
                && store.rows == Retained(old(store.rows), WipeCutoff(at, deliveredDays), DeleteCutoff(at, ledgerDays))
                && Left(store.rows, WipeCutoff(at, deliveredDays), DeleteCutoff(at, ledgerDays)) == 0
      ensures (stopped ==> abortable) && (threw ==> StoreFailed(world, old(calls), calls))
    {
      threw, stopped, wiped, deleted := false, false, 0, 0;
      ghost var wipe, delete := WipeCutoff(at, deliveredDays), DeleteCutoff(at, ledgerDays);
      while true
        invariant Valid() && now >= old(now) && OnlyStore(old(calls), calls)
        invariant PartlyPruned(old(store.rows), store.rows, wipe, delete, wiped, deleted)
        decreases Left(store.rows, wipe, delete)
      {
        stopped := abortable && Aborts(world, calls);
        if stopped {
          return;
        }
        var up, _ := AskStore();
        threw := !up;
        if threw {
          return;
        }
        ghost var before := store.rows;
        var w, d;
        ghost var picked;
        w, d, picked := store.PruneBatch(at, deliveredDays, ledgerDays, PRUNE_BATCH);
        PrunedFurther(old(store.rows), before, store.rows, wipe, delete, PRUNE_BATCH, wiped, deleted, w, d, Elements(picked));
        wiped, deleted := wiped + w, deleted + d;
        if w == 0 && d == 0 {
          return;
        }
      }
    }
  }
}
