/** `flush`: dispatch cycles until the queue is drained, the time is up, or waiting longer would not help. */
module Relay {
  import opened Prelude
  import opened EventTable
  import opened Settlement
  import opened Outside
  import opened Batches
  import opened Cycles
  import opened MemoryStore
  import opened Dispatcher
  import opened Simulation
  import opened Turns
  import LeaseProtocol

  const FLUSH_POLL_MIN_MS := 50
  const FLUSH_POLL_MAX_MS := 1000

  datatype Reason = Drained | Paused | Unroutable | TimedOut | Failed

  /** The reason of the last entry for the route, as building a map from the list leaves it. */
  predicate SkippedAsPaused(skipped: seq<Skip>, routeId: string) {
    if skipped == [] then false
    else if skipped[|skipped| - 1].routeId == routeId then skipped[|skipped| - 1].paused
    else SkippedAsPaused(skipped[..|skipped| - 1], routeId)
  }

  predicate AllSkipped(skipped: seq<Skip>, backlog: seq<string>) {
    forall k | 0 <= k < |backlog| :: Skips(skipped, backlog[k])
  }

  predicate AllPaused(skipped: seq<Skip>, backlog: seq<string>) {
    forall k | 0 <= k < |backlog| :: SkippedAsPaused(skipped, backlog[k])
  }

  /** The routes that still have queued rows, due or not. */
  ghost predicate IsBacklog(t: Table, backlog: seq<string>) {
    forall routeId :: routeId in backlog <==> Where(t, Due(routeId, FAR_FUTURE)) != {}
  }

  /** What the answer of a flush says about the table and about its last cycle. */
  ghost predicate Means(t: Table, reason: Reason, last: Summary, backlog: seq<string>) {
    match reason
    case Drained => backlog == [] && IsBacklog(t, backlog)
    case Paused =>
      || last.halted
      || (IsBacklog(t, backlog) && backlog != [] && AllSkipped(last.skipped, backlog) && AllPaused(last.skipped, backlog))
    case Unroutable =>
      IsBacklog(t, backlog) && backlog != [] && AllSkipped(last.skipped, backlog) && !AllPaused(last.skipped, backlog)
    case TimedOut => true
    case Failed => true
  }

  /** Nothing is pending or waiting for a retry. */
  predicate IsEmpty(t: Table) {
    forall id | id in t :: !IsQueued(t[id])
  }

  // ---- the cycles of a flush ----

  function FlushLog(w: World, cycles: seq<CycleRun>): seq<Settled> {
    if cycles == [] then [] else FlushLog(w, cycles[..|cycles| - 1]) + CycleLog(w, cycles[|cycles| - 1].visits)
  }

  function FlushTotals(cycles: seq<CycleRun>): Counts {
    if cycles == [] then NONE else FlushTotals(cycles[..|cycles| - 1]).Plus(cycles[|cycles| - 1].summary.counts)
  }

  /** The calls made up to the end of the `n`-th cycle. */
  function LastCalls(a: Calls, cycles: seq<CycleRun>, n: nat): Calls
    requires n <= |cycles|
  {
    if n == 0 then a else cycles[n - 1].b
  }

  /** The table after the `n`-th cycle. */
  function TableAt(t: Table, cycles: seq<CycleRun>, n: nat): Table
    requires n <= |cycles|
  {
    if n == 0 then t else cycles[n - 1].after
  }

  /** The reclaim flag after the `n`-th cycle. */
  function OwnerAt(w: World, terms: Terms, owner: Option<string>, cycles: seq<CycleRun>, n: nat): Option<string>
    requires n <= |cycles|
  {
    if n == 0 then owner else OwnerAfter(w, terms, cycles[n - 1])
  }

  /** Cycle `i` began where the one before it ended; only the backlog was read in between. */
  ghost predicate Linked(w: World, cfg: Settings, terms: Terms, cycles: seq<CycleRun>, i: nat, t: Table, a: Calls, owner: Option<string>)
    requires i < |cycles|
  {
    match cycles[i]
    case CycleRun(was, _, _, flag, _, from, _, _, _, _, _, cut) =>
      && CycleOk(w, cfg, terms, cycles[i]) && !cut
      && flag == OwnerAt(w, terms, owner, cycles, i) && was == TableAt(t, cycles, i) && OnlyStore(LastCalls(a, cycles, i), from)
  }

  ghost predicate Chained(w: World, cfg: Settings, terms: Terms, cycles: seq<CycleRun>, t: Table, a: Calls, owner: Option<string>) {
    forall i | 0 <= i < |cycles| :: Linked(w, cfg, terms, cycles, i, t, a, owner)
  }

  lemma LinkedMore(w: World, cfg: Settings, terms: Terms, cycles: seq<CycleRun>, c: CycleRun, i: nat, t: Table, a: Calls,
                   owner: Option<string>)
    requires i < |cycles| && Linked(w, cfg, terms, cycles, i, t, a, owner)
    ensures Linked(w, cfg, terms, cycles + [c], i, t, a, owner)
  {
    var more := cycles + [c];
    assert more[i] == cycles[i] && (i > 0 ==> more[i - 1] == cycles[i - 1]);
  }

  lemma ChainedMore(w: World, cfg: Settings, terms: Terms, cycles: seq<CycleRun>, c: CycleRun, t: Table, a: Calls, owner: Option<string>)
    requires Chained(w, cfg, terms, cycles, t, a, owner)
    requires CycleOk(w, cfg, terms, c) && !c.cut && c.owner == OwnerAt(w, terms, owner, cycles, |cycles|)
    requires c.was == TableAt(t, cycles, |cycles|) && OnlyStore(LastCalls(a, cycles, |cycles|), c.a)
    ensures Chained(w, cfg, terms, cycles + [c], t, a, owner)
  {
    var more := cycles + [c];
    forall i | 0 <= i < |more| ensures Linked(w, cfg, terms, more, i, t, a, owner) {
      if i < |cycles| {
        LinkedMore(w, cfg, terms, cycles, c, i, t, a, owner);
      }
    }
  }

  /** No cycle was halted or left by an exception. */
  predicate Steady(cycles: seq<CycleRun>) {
    forall i | 0 <= i < |cycles| :: !cycles[i].threw && !cycles[i].summary.halted
  }

  /** The cycles so far, up to the calls `b`, and what they reported. */
  ghost predicate Flushed(w: World, cfg: Settings, terms: Terms, cycles: seq<CycleRun>, t: Table, t': Table, a: Calls, b: Calls,
                          was: seq<Settled>, now: seq<Settled>, owner: Option<string>, owner': Option<string>)
  {
    && Chained(w, cfg, terms, cycles, t, a, owner) && t' == TableAt(t, cycles, |cycles|) && OnlyStore(LastCalls(a, cycles, |cycles|), b)
    && owner' == OwnerAt(w, terms, owner, cycles, |cycles|) && now == was + FlushLog(w, cycles)
  }

  lemma FlushStarts(w: World, cfg: Settings, terms: Terms, t: Table, a: Calls, was: seq<Settled>, owner: Option<string>)
    ensures Flushed(w, cfg, terms, [], t, t, a, a, was, was, owner, owner)
  {
    assert was + [] == was;
  }

  lemma FlushWaits(w: World, cfg: Settings, terms: Terms, cycles: seq<CycleRun>, t: Table, t': Table, a: Calls, b: Calls, c: Calls,
                   was: seq<Settled>, now: seq<Settled>, owner: Option<string>, owner': Option<string>)
    requires Flushed(w, cfg, terms, cycles, t, t', a, b, was, now, owner, owner') && OnlyStore(b, c)
    ensures Flushed(w, cfg, terms, cycles, t, t', a, c, was, now, owner, owner')
  {
  }

  lemma TotalsNext(w: World, cycles: seq<CycleRun>, c: CycleRun)
    ensures FlushLog(w, cycles + [c]) == FlushLog(w, cycles) + CycleLog(w, c.visits)
    ensures FlushTotals(cycles + [c]) == FlushTotals(cycles).Plus(c.summary.counts)
    ensures Steady(cycles) && !c.threw && !c.summary.halted ==> Steady(cycles + [c])
  {
    assert (cycles + [c])[..|cycles|] == cycles && (cycles + [c])[|cycles|] == c;
  }

  lemma FlushNext(w: World, cfg: Settings, terms: Terms, cycles: seq<CycleRun>, t: Table, a: Calls, was: seq<Settled>,
                  mid: seq<Settled>, now: seq<Settled>, c: CycleRun, owner: Option<string>)
    requires Flushed(w, cfg, terms, cycles, t, c.was, a, c.a, was, mid, owner, c.owner)
    requires CycleOk(w, cfg, terms, c) && !c.cut && Totalled(mid, now, c.summary.counts, CycleLog(w, c.visits))
    ensures Flushed(w, cfg, terms, cycles + [c], t, c.after, a, c.b, was, now, owner, OwnerAfter(w, terms, c))
  {
    assert (cycles + [c])[|cycles|] == c;
    ChainedMore(w, cfg, terms, cycles, c, t, a, owner);
    TotalsNext(w, cycles, c);
    AppendAssociates(was, FlushLog(w, cycles), CycleLog(w, c.visits));
  }

  /** The totals are the counts of all that was reported. */
  lemma {:induction false} TotalsAreCounts(w: World, cycles: seq<CycleRun>)
    requires forall i | 0 <= i < |cycles| :: cycles[i].summary.counts == CountsOf(CycleLog(w, cycles[i].visits))
    ensures FlushTotals(cycles) == CountsOf(FlushLog(w, cycles))
  {
    if cycles != [] {
      TotalsAreCounts(w, cycles[..|cycles| - 1]);
      CountsAppend(FlushLog(w, cycles[..|cycles| - 1]), CycleLog(w, cycles[|cycles| - 1].visits));
    }
  }

  lemma ChainCounts(w: World, cfg: Settings, terms: Terms, cycles: seq<CycleRun>, t: Table, a: Calls, owner: Option<string>)
    requires Chained(w, cfg, terms, cycles, t, a, owner)
    ensures forall i | 0 <= i < |cycles| :: cycles[i].summary.counts == CountsOf(CycleLog(w, cycles[i].visits))
  {
    forall i | 0 <= i < |cycles| ensures cycles[i].summary.counts == CountsOf(CycleLog(w, cycles[i].visits)) {
      assert Linked(w, cfg, terms, cycles, i, t, a, owner);
    }
  }

  // ---- what leaves the queue ----

  /**
   Cycle `i` is where the row left the queue for what it is now: it was reported delivered or parked, or the sweep parked
   it, or an exception left its batch.
   */
  ghost predicate LeavesIn(w: World, cfg: Settings, cycles: seq<CycleRun>, i: nat, t': Table, id: Id) {
    && i < |cycles| && id in cycles[i].after && id in t' && t'[id] == cycles[i].after[id]
    && (|| Reported(w, cycles[i], id)
        || Expires(cycles[i], Kept(w, cfg, cycles[i]), id)
        || (cycles[i].threw && Abandoned(w, cycles[i], id)))
  }

  ghost predicate Accounts(w: World, cfg: Settings, cycles: seq<CycleRun>, n: nat, t': Table, id: Id) {
    id in t' && (IsQueued(t'[id]) || exists i: nat | i < n :: LeavesIn(w, cfg, cycles, i, t', id))
  }

  /** Every row that was queued is queued still, or left the queue in one of the first `n` cycles for a reason. */
  ghost predicate FlushAccounts(w: World, cfg: Settings, cycles: seq<CycleRun>, n: nat, t: Table, t': Table) {
    t'.Keys == t.Keys && forall id | id in t && IsQueued(t[id]) :: Accounts(w, cfg, cycles, n, t', id)
  }

  /** One more cycle. */
  lemma AccountsNext(w: World, cfg: Settings, terms: Terms, cycles: seq<CycleRun>, n: nat, id: Id)
    requires n < |cycles| && CycleOk(w, cfg, terms, cycles[n]) && Indexed(cycles[n].was)
    requires Accounts(w, cfg, cycles, n, cycles[n].was, id)
    ensures Accounts(w, cfg, cycles, n + 1, cycles[n].after, id)
  {
    var c := cycles[n];
    CycleMoves(w, cfg, terms, c, id);
    if !IsQueued(c.after[id]) {
      if Reported(w, c, id) || Abandoned(w, c, id) || Expires(c, Kept(w, cfg, c), id) {
        if Abandoned(w, c, id) {
          AbandonedThrew(w, cfg, terms, c, id);
        }
        assert LeavesIn(w, cfg, cycles, n, c.after, id);
      } else {
        assert c.after[id] == c.was[id];
        var i: nat :| i < n && LeavesIn(w, cfg, cycles, i, c.was, id);
        assert LeavesIn(w, cfg, cycles, i, c.after, id);
      }
    }
  }

  lemma ChainNext(w: World, cfg: Settings, terms: Terms, cycles: seq<CycleRun>, n: nat, t: Table)
    requires n < |cycles| && CycleOk(w, cfg, terms, cycles[n]) && Indexed(cycles[n].was)
    requires FlushAccounts(w, cfg, cycles, n, t, cycles[n].was)
    ensures Indexed(cycles[n].after) && FlushAccounts(w, cfg, cycles, n + 1, t, cycles[n].after)
  {
    CycleIndexed(w, cfg, terms, cycles[n]);
    forall id | id in t && IsQueued(t[id]) ensures Accounts(w, cfg, cycles, n + 1, cycles[n].after, id) {
      assert Accounts(w, cfg, cycles, n, cycles[n].was, id);
      AccountsNext(w, cfg, terms, cycles, n, id);
    }
  }

  lemma LinkNext(w: World, cfg: Settings, terms: Terms, cycles: seq<CycleRun>, n: nat, t: Table, a: Calls, owner: Option<string>, u: Table)
      returns (u': Table)
    requires n < |cycles| && Chained(w, cfg, terms, cycles, t, a, owner)
    requires u == TableAt(t, cycles, n) && Indexed(u) && FlushAccounts(w, cfg, cycles, n, t, u)
    ensures u' == cycles[n].after && Indexed(u') && FlushAccounts(w, cfg, cycles, n + 1, t, u')
  {
    u' := cycles[n].after;
    assert Linked(w, cfg, terms, cycles, n, t, a, owner);
    ChainNext(w, cfg, terms, cycles, n, t);
  }

  lemma {:induction false} ChainAccounts(w: World, cfg: Settings, terms: Terms, cycles: seq<CycleRun>, n: nat, t: Table, a: Calls,
                                        owner: Option<string>) returns (u: Table)
    requires n <= |cycles| && Chained(w, cfg, terms, cycles, t, a, owner) && Indexed(t)
    ensures u == TableAt(t, cycles, n) && Indexed(u) && FlushAccounts(w, cfg, cycles, n, t, u)
    decreases n
  {
    u := t;
    if n > 0 {
      var before := ChainAccounts(w, cfg, terms, cycles, n - 1, t, a, owner);
      u := LinkNext(w, cfg, terms, cycles, n - 1, t, a, owner, before);
    }
  }

  // ---- a flush as a run of the protocol ----

  /** The flag is this instance's, if it is up. */
  predicate IsMine(owner: Option<string>, me: string) {
    owner.Some? ==> owner.value == me
  }

  lemma LinkIsRun(env: LeaseProtocol.Env, w: World, cfg: Settings, terms: Terms, s0: LeaseProtocol.Sys, s: LeaseProtocol.Sys,
                  cycles: seq<CycleRun>, n: nat, t: Table, a: Calls, owner: Option<string>, u: Table, flag: Option<string>)
      returns (s': LeaseProtocol.Sys, u': Table, flag': Option<string>)
    requires n < |cycles| && Fits(env, w) && Chained(w, cfg, terms, cycles, t, a, owner) && Reaches(env, terms.me, s0, s)
    requires u == TableAt(t, cycles, n) && flag == OwnerAt(w, terms, owner, cycles, n)
    requires Indexed(u) && IdleAt(s, terms.me, u, flag.Some?) && IsMine(flag, terms.me)
    ensures u' == cycles[n].after && flag' == OwnerAfter(w, terms, cycles[n]) && Reaches(env, terms.me, s0, s')
    ensures Indexed(u') && IdleAt(s', terms.me, u', flag'.Some?) && IsMine(flag', terms.me)
  {
    assert Linked(w, cfg, terms, cycles, n, t, a, owner);
    u', flag' := cycles[n].after, OwnerAfter(w, terms, cycles[n]);
    s' := CycleIsRun(env, w, cfg, terms, s0, s, cycles[n]);
    CycleIndexed(w, cfg, terms, cycles[n]);
    OwnerIsMe(w, terms, cycles[n]);
  }

  lemma {:induction false} ChainIsRun(env: LeaseProtocol.Env, w: World, cfg: Settings, terms: Terms, s: LeaseProtocol.Sys,
                                     cycles: seq<CycleRun>, n: nat, t: Table, a: Calls, owner: Option<string>)
      returns (s': LeaseProtocol.Sys, u: Table, flag: Option<string>)
    requires n <= |cycles| && Fits(env, w) && Chained(w, cfg, terms, cycles, t, a, owner) && Indexed(t)
    requires IdleAt(s, terms.me, t, owner.Some?) && IsMine(owner, terms.me)
    ensures u == TableAt(t, cycles, n) && flag == OwnerAt(w, terms, owner, cycles, n) && Reaches(env, terms.me, s, s')
    ensures Indexed(u) && IdleAt(s', terms.me, u, flag.Some?) && IsMine(flag, terms.me)
    decreases n
  {
    s', u, flag := s, t, owner;
    if n == 0 {
      ReachesItself(env, terms.me, s);
    } else {
      s', u, flag := ChainIsRun(env, w, cfg, terms, s, cycles, n - 1, t, a, owner);
      s', u, flag := LinkIsRun(env, w, cfg, terms, s, s', cycles, n - 1, t, a, owner, u, flag);
    }
  }

  /**
   A flush of an idle instance, at any point of any run of any number of instances, is a run of that instance: whatever
   fails, a row delivered when it ends stands for an accepted post of a record that its own route mapped from the payload
   it came with.
   */
  lemma FlushDeliversOnlyAccepted(env: LeaseProtocol.Env, w: World, cfg: Settings, terms: Terms, s0: LeaseProtocol.Sys,
                                  before: seq<LeaseProtocol.Step>, cycles: seq<CycleRun>, t: Table, a: Calls, owner: Option<string>)
      returns (s': LeaseProtocol.Sys)
    requires LeaseProtocol.Init(s0) && LeaseProtocol.Valid(env, s0, before) && Fits(env, w) && Indexed(t)
    requires IdleAt(LeaseProtocol.End(env, s0, before), terms.me, t, owner.Some?) && IsMine(owner, terms.me)
    requires Chained(w, cfg, terms, cycles, t, a, owner)
    ensures Reaches(env, terms.me, LeaseProtocol.End(env, s0, before), s')
    ensures var t' := TableAt(t, cycles, |cycles|);
            && IdleAt(s', terms.me, t', OwnerAt(w, terms, owner, cycles, |cycles|).Some?)
            && forall id | id in t' && t'[id].status == Delivered :: Stands(env, s', t', id)
  {
    var t', flag;
    s', t', flag := ChainIsRun(env, w, cfg, terms, LeaseProtocol.End(env, s0, before), cycles, |cycles|, t, a, owner);
    forall id | id in s'.store && s'.store[id].status == Delivered ensures Stands(env, s', s'.store, id) {
      ReachedIsTraced(env, terms.me, s0, before, s', id);
    }
  }

  // ---- flush ----

  /**
   The answer of a flush, by its cycles: no cycle but the last threw or halted, and a halt makes it `Paused`; the totals
   are the sum of the cycles' counts, and those of all that was reported; a failure is that of the last cycle, or of
   reading the backlog after it.
   */
  predicate Concludes(w: World, cycles: seq<CycleRun>, reason: Reason, totals: Counts, last: Summary) {
    && cycles != [] && Steady(cycles[..|cycles| - 1])
    && var c := cycles[|cycles| - 1];
       && last == c.summary
       && if reason == Failed then c.threw || !StoreUp(w, c.b.store)
          else
            && !c.threw && totals == FlushTotals(cycles) && totals == CountsOf(FlushLog(w, cycles))
            && (last.halted ==> reason == Paused)
  }

  /**
   Time passes with every outside call, so a flush ends. It is the chain of its cycles: its totals are the sum of theirs
   and count all that was reported, and every row that was queued is queued still or left the queue in one of them for a
   reason. When it answers `drained` nothing is queued any more, as long as the far future is further off than the
   longest delay.
   */
  method Flush(d: Dispatcher, timeoutMs: int)
    returns (reason: Reason, totals: Counts, last: Summary, ghost backlog: seq<string>, ghost cycles: seq<CycleRun>)
    requires d.Valid()
    requires forall c: Calls :: Elapsed(d.world, c) >= 1
    modifies d`calls, d`now, d`settled, d`reclaimOwner, d`lastSweepAt, d.store`rows
    ensures d.Valid() && OwnLeftKept(old(d.store.rows), d.store.rows, old(d.reclaimOwner), d.reclaimOwner, d.me)
    ensures OnTime(old(d.store.rows), d.store.rows, d.now, d.slack)
    ensures Flushed(d.world, d.cfg, d.MyTerms(), cycles, old(d.store.rows), d.store.rows, old(d.calls), d.calls,
                    old(d.settled), d.settled, old(d.reclaimOwner), d.reclaimOwner)
    ensures FlushAccounts(d.world, d.cfg, cycles, |cycles|, old(d.store.rows), d.store.rows)
    ensures Concludes(d.world, cycles, reason, totals, last)
    ensures reason == TimedOut ==> d.now >= old(d.now) + timeoutMs
    ensures Means(d.store.rows, reason, last, backlog)
    ensures EmptiesInTime(old(d.store.rows), d.store.rows, d.now, d.slack, reason)
  {
    var deadline := d.now + timeoutMs;
    var pollMs := FLUSH_POLL_MIN_MS;
    ghost var start, before := d.calls, d.store.rows;
    totals, cycles, backlog := NONE, [], [];
    FlushStarts(d.world, d.cfg, d.MyTerms(), before, start, d.settled, d.reclaimOwner);
    while true
      invariant d.Valid() && pollMs > 0 && OwnLeftKept(before, d.store.rows, old(d.reclaimOwner), d.reclaimOwner, d.me)
      invariant OnTime(before, d.store.rows, d.now, d.slack)
      invariant Flushed(d.world, d.cfg, d.MyTerms(), cycles, before, d.store.rows, start, d.calls,
                        old(d.settled), d.settled, old(d.reclaimOwner), d.reclaimOwner)
      invariant Steady(cycles) && totals == FlushTotals(cycles)
      decreases Max(0, deadline - d.now)
    {
      var done;
      done, reason, totals, last, pollMs, backlog, cycles :=
        FlushTurn(d, totals, deadline, pollMs, cycles, before, start, old(d.settled), old(d.reclaimOwner));
      if done {
        FlushEnds(d.world, d.cfg, d.MyTerms(), cycles, before, d.store.rows, start, reason, totals, last, old(d.reclaimOwner));
        DrainsInTime(before, d.store.rows, d.now, d.slack, reason, last, backlog);
        return;
      }
    }
  }

  /** A cycle, and if it touched nothing a look at the backlog; done, or to be tried again. */
  method FlushTurn(d: Dispatcher, totals: Counts, deadline: Time, pollMs: nat, ghost cycles: seq<CycleRun>, ghost before: Table,
                   ghost start: Calls, ghost was: seq<Settled>, ghost owner: Option<string>)
    returns (done: bool, reason: Reason, sum: Counts, last: Summary, next: nat, ghost backlog: seq<string>, ghost more: seq<CycleRun>)
    requires d.Valid() && pollMs > 0 && Steady(cycles) && totals == FlushTotals(cycles)
    requires forall c: Calls :: Elapsed(d.world, c) >= 1
    requires OwnLeftKept(before, d.store.rows, owner, d.reclaimOwner, d.me) && OnTime(before, d.store.rows, d.now, d.slack)
    requires Flushed(d.world, d.cfg, d.MyTerms(), cycles, before, d.store.rows, start, d.calls, was, d.settled, owner, d.reclaimOwner)
    modifies d`calls, d`now, d`settled, d`reclaimOwner, d`lastSweepAt, d.store`rows
    ensures d.Valid() && next > 0 && OwnLeftKept(before, d.store.rows, owner, d.reclaimOwner, d.me)
    ensures OnTime(before, d.store.rows, d.now, d.slack)
    ensures Flushed(d.world, d.cfg, d.MyTerms(), more, before, d.store.rows, start, d.calls, was, d.settled, owner, d.reclaimOwner)
    ensures more != [] && Steady(more[..|more| - 1]) && last == more[|more| - 1].summary
    ensures done && reason == Failed ==> more[|more| - 1].threw || !StoreUp(d.world, more[|more| - 1].b.store)
    ensures done && reason != Failed ==> !more[|more| - 1].threw && sum == FlushTotals(more) && (last.halted ==> reason == Paused)
    ensures done && reason == TimedOut ==> d.now >= deadline
    ensures done ==> Means(d.store.rows, reason, last, backlog)
    ensures !done ==> Steady(more) && sum == FlushTotals(more) && old(d.now) < d.now && old(d.now) < deadline
  {
    reason, sum, last, more := FlushCycle(d, totals, deadline, cycles, before, start, was, owner);
    done, next, backlog := true, pollMs, [];
    assert more[..|more| - 1] == cycles;
    if reason == Drained {
      ghost var ended := d.calls;
      var verdict;
      verdict, next, backlog := Wait(d, last, pollMs, Max(0, deadline - d.now), before);
      FlushWaits(d.world, d.cfg, d.MyTerms(), more, before, d.store.rows, start, ended, d.calls, was, d.settled, owner, d.reclaimOwner);
      done := verdict.Some?;
      if done {
        reason := verdict.value;
      }
    }
  }

  /** `drained` means that nothing is queued, unless the far future is too near. */
  predicate EmptiesInTime(t: Table, t': Table, now: Time, slack: nat, reason: Reason) {
    reason == Drained && Scheduled(t, FAR_FUTURE) && now + slack <= FAR_FUTURE ==> IsEmpty(t')
  }

  lemma DrainsInTime(t: Table, t': Table, now: Time, slack: nat, reason: Reason, last: Summary, backlog: seq<string>)
    requires OnTime(t, t', now, slack) && Means(t', reason, last, backlog)
    ensures EmptiesInTime(t, t', now, slack, reason)
  {
    DrainedMeansEmpty(t', reason, last, backlog);
  }

  lemma FlushEnds(w: World, cfg: Settings, terms: Terms, cycles: seq<CycleRun>, t: Table, t': Table, a: Calls, reason: Reason,
                  totals: Counts, last: Summary, owner: Option<string>)
    requires Chained(w, cfg, terms, cycles, t, a, owner) && t' == TableAt(t, cycles, |cycles|) && Indexed(t)
    requires cycles != [] && Steady(cycles[..|cycles| - 1]) && last == cycles[|cycles| - 1].summary
    requires reason == Failed ==> cycles[|cycles| - 1].threw || !StoreUp(w, cycles[|cycles| - 1].b.store)
    requires reason != Failed ==> !cycles[|cycles| - 1].threw && totals == FlushTotals(cycles) && (last.halted ==> reason == Paused)
    ensures FlushAccounts(w, cfg, cycles, |cycles|, t, t') && Concludes(w, cycles, reason, totals, last)
  {
    var _ := ChainAccounts(w, cfg, terms, cycles, |cycles|, t, a, owner);
    ChainCounts(w, cfg, terms, cycles, t, a, owner);
    TotalsAreCounts(w, cycles);
  }

  /** One cycle of a flush, added up; `Drained` here means that the flush goes on to look at the backlog. */
  method FlushCycle(d: Dispatcher, totals: Counts, deadline: Time, ghost cycles: seq<CycleRun>, ghost before: Table,
                    ghost start: Calls, ghost was: seq<Settled>, ghost owner: Option<string>)
    returns (reason: Reason, sum: Counts, last: Summary, ghost more: seq<CycleRun>)
    requires d.Valid() && Steady(cycles) && totals == FlushTotals(cycles)
    requires OwnLeftKept(before, d.store.rows, owner, d.reclaimOwner, d.me) && OnTime(before, d.store.rows, d.now, d.slack)
    requires Flushed(d.world, d.cfg, d.MyTerms(), cycles, before, d.store.rows, start, d.calls, was, d.settled, owner, d.reclaimOwner)
    modifies d`calls, d`now, d`settled, d`reclaimOwner, d`lastSweepAt, d.store`rows
    ensures d.Valid() && OwnLeftKept(before, d.store.rows, owner, d.reclaimOwner, d.me)
    ensures OnTime(before, d.store.rows, d.now, d.slack)
    ensures d.now >= old(d.now) && ((forall c: Calls :: Elapsed(d.world, c) >= 1) ==> d.now > old(d.now))
    ensures |more| == |cycles| + 1 && more[..|cycles|] == cycles && last == more[|cycles|].summary && d.calls == more[|cycles|].b
    ensures Flushed(d.world, d.cfg, d.MyTerms(), more, before, d.store.rows, start, d.calls, was, d.settled, owner, d.reclaimOwner)
    ensures reason == Failed <==> more[|cycles|].threw
    ensures reason != Failed ==> sum == FlushTotals(more)
    ensures reason == Paused <==> reason != Failed && last.halted
    ensures reason == Drained ==> Steady(more) && d.now < deadline
    ensures reason == TimedOut ==> d.now >= deadline
    ensures reason != Unroutable
  {
    ghost var told := d.settled;
    var threw;
    ghost var c;
    threw, last, c := d.Cycle(false);
    FlushNext(d.world, d.cfg, d.MyTerms(), cycles, before, start, was, told, d.settled, c, owner);
    TotalsNext(d.world, cycles, c);
    CycleOwnLeft(d.world, d.cfg, d.MyTerms(), c);
    sum, more := totals, cycles + [c];
    if threw {
      reason := Failed;
    } else {
      sum := totals.Plus(last.counts);
      reason := if last.halted then Paused else if deadline - d.now <= 0 then TimedOut else Drained;
    }
  }

  /** After a cycle that touched nothing: drained, or left with skipped routes, or worth another try later. */
  method Wait(d: Dispatcher, last: Summary, pollMs: nat, remaining: nat, ghost before: Table)
    returns (verdict: Option<Reason>, next: nat, ghost backlog: seq<string>)
    requires d.Valid() && pollMs > 0 && OnTime(before, d.store.rows, d.now, d.slack)
    modifies d`calls, d`now
    ensures OnTime(before, d.store.rows, d.now, d.slack)
    ensures d.Valid() && d.now >= old(d.now) && next > 0 && OnlyStore(old(d.calls), d.calls)
    ensures verdict == Some(Failed) ==> !StoreUp(d.world, old(d.calls).store)
    ensures last.counts.Touched() > 0 ==> verdict.None? && next == pollMs && d.calls == old(d.calls) && d.now == old(d.now)
    ensures last.counts.Touched() == 0 && verdict.None? ==> next == Min(2 * pollMs, 1000) && d.now >= old(d.now) + Min(pollMs, remaining)
    ensures verdict.Some? ==> verdict.value != TimedOut && Means(d.store.rows, verdict.value, last, backlog)
  {
    verdict, next, backlog := None, pollMs, [];
    if last.counts.Touched() > 0 {
      return;
    }
    var up, _ := d.AskStore();
    if !up {
      return Some(Failed), next, [];
    }
    var waiting := d.store.RoutesWithDueEvents(FAR_FUTURE);
    backlog := waiting;
    if waiting == [] {
      verdict := Some(Drained);
    } else if AllSkipped(last.skipped, waiting) {
      verdict := Some(if AllPaused(last.skipped, waiting) then Paused else Unroutable);
    } else {
      d.Sleep(Min(pollMs, remaining));
      next := Min(pollMs * 2, FLUSH_POLL_MAX_MS);
    }
  }

  lemma DrainedMeansEmpty(t: Table, reason: Reason, last: Summary, backlog: seq<string>)
    requires Means(t, reason, last, backlog)
    ensures reason == Drained && Scheduled(t, FAR_FUTURE) ==> IsEmpty(t)
  {
    if reason == Drained && Scheduled(t, FAR_FUTURE) {
      forall id | id in t ensures !IsQueued(t[id]) {
        var routeId := t[id].info.routeId;
        assert routeId !in backlog;
        assert id !in Where(t, Due(routeId, FAR_FUTURE));
      }
    }
  }

  // ---- why a flush stops ----

  lemma {:induction false} OnceIsLast(skipped: seq<Skip>, routeId: string, paused: bool)
    requires SkippedOnce(skipped, routeId, paused)
    ensures SkippedAsPaused(skipped, routeId) == paused
    decreases |skipped|
  {
    var i :| 0 <= i < |skipped| && skipped[i] == Skip(routeId, paused)
             && forall j | 0 <= j < |skipped| && j != i :: skipped[j].routeId != routeId;
    var before := skipped[..|skipped| - 1];
    if i < |before| {
      assert before[i] == Skip(routeId, paused);
      assert forall j | 0 <= j < |before| && j != i :: before[j] == skipped[j];
      OnceIsLast(before, routeId, paused);
    }
  }

  /** In this cycle the route was read: it is known and paused, or it is not known. */
  predicate ReadAs(w: World, c: CycleRun, routeId: string, known: bool) {
    exists k: nat | k < c.reached && k < |c.summary.due| && c.summary.due[k] == routeId ::
      var n := Opening(w, c).control + k;
      if known then w.routeKnown(n, routeId) && w.routePaused(n, routeId) else !w.routeKnown(n, routeId)
  }

  lemma SkipIsRead(w: World, cfg: Settings, terms: Terms, c: CycleRun, routeId: string)
    requires CycleOk(w, cfg, terms, c) && Indexed(c.was) && Skips(c.summary.skipped, routeId)
    ensures ReadAs(w, c, routeId, SkippedAsPaused(c.summary.skipped, routeId))
  {
    var k, n := SkipTells(w, cfg, terms, c, routeId);
    ReadTells(w, c, routeId, k, n);
  }

  lemma ReadTells(w: World, c: CycleRun, routeId: string, k: nat, n: nat)
    requires k < c.reached && k < |c.summary.due| && c.summary.due[k] == routeId && n == Opening(w, c).control + k
    requires !MayServe(w, n, routeId) && SkippedOnce(c.summary.skipped, routeId, w.routeKnown(n, routeId))
    ensures ReadAs(w, c, routeId, SkippedAsPaused(c.summary.skipped, routeId))
  {
    OnceIsLast(c.summary.skipped, routeId, w.routeKnown(n, routeId));
  }

  /**
   A flush that stops as paused, and not for the killswitch, leaves queued rows only to routes that its last cycle read as
   known and paused; one that stops as unroutable, only to such routes and to unknown ones, of which there is one.
   */
  lemma StopsBecause(w: World, cfg: Settings, terms: Terms, c: CycleRun, t: Table, reason: Reason, backlog: seq<string>)
    requires CycleOk(w, cfg, terms, c) && Indexed(c.was) && Means(t, reason, c.summary, backlog)
    requires (reason == Paused && !c.summary.halted) || reason == Unroutable
    ensures forall id | id in t && IsDue(t[id], FAR_FUTURE) ::
              || ReadAs(w, c, t[id].info.routeId, true)
              || (reason == Unroutable && ReadAs(w, c, t[id].info.routeId, false))
    ensures reason == Unroutable ==> exists routeId | routeId in backlog :: ReadAs(w, c, routeId, false)
  {
    forall routeId | routeId in backlog ensures ReadAs(w, c, routeId, SkippedAsPaused(c.summary.skipped, routeId)) {
      var k :| 0 <= k < |backlog| && backlog[k] == routeId;
      SkipIsRead(w, cfg, terms, c, routeId);
    }
    forall id | id in t && IsDue(t[id], FAR_FUTURE) ensures t[id].info.routeId in backlog {
      assert id in Where(t, Due(t[id].info.routeId, FAR_FUTURE));
    }
  }
}
