/**
 When a lease is exclusive. The store's marks are not fenced by owner, so exclusivity rests on timing:
 a batch must end before its lease does, and before any row it put back in the queue comes due again.
 */
module LeaseExclusivity {
  import opened Prelude
  import opened EventTable
  import opened LeaseProtocol

  // ---- the timing hypothesis, one state and one step at a time ----

  /** No row of the batch is due, and those it is still delivering are on lease. */
  predicate BatchPrompt(s: Sys, b: Batch) {
    forall id :: id in b.rows && id in s.store ==>
      !IsDue(s.store[id], s.now) && (s.store[id].status == Delivering ==> s.now <= b.until)
  }

  /** Every batch in flight is within its lease, and no row it put back in the queue is due yet. */
  ghost predicate Prompt(s: Sys) {
    forall i :: Inst(s, i).Busy? ==> BatchPrompt(s, Inst(s, i).b)
  }

  ghost predicate Punctual(env: Env, s: Sys, steps: seq<Step>)
    requires Valid(env, s, steps)
    decreases |steps|
  {
    Prompt(s) && (steps != [] ==> Punctual(env, Do(env, s, steps[0]), steps[1..]))
  }

  /** The operator does not replay a row that a batch in flight has parked. */
  ghost predicate Careful(s: Sys, step: Step) {
    step.ReplayOne? || step.ReplayAll? ==>
      forall i, id :: Inst(s, i).Busy? && id in Inst(s, i).b.rows && IsParkedAt(s.store, id) ==>
        step.ReplayOne? && step.id != id
  }

  /** A replayed row is due at once, so punctual runs replay none of a batch in flight. */
  lemma PromptIsCareful(env: Env, s: Sys, step: Step)
    requires Keyed(s.store) && Enabled(s, step) && Prompt(Do(env, s, step))
    ensures Careful(s, step)
  {
    var s' := Do(env, s, step);
    if step.ReplayOne? || step.ReplayAll? {
      forall i, id | Inst(s, i).Busy? && id in Inst(s, i).b.rows && IsParkedAt(s.store, id)
        ensures step.ReplayOne? && step.id != id
      {
        assert Inst(s', i) == Inst(s, i) && BatchPrompt(s', Inst(s', i).b);
        assert s'.store[id] == RowAfter(s.store[id], StepStatement(s, step));
      }
    }
  }

  // ---- exclusivity ----

  predicate IsDelivering(t: Table, id: Id) {
    id in t && t[id].status == Delivering
  }

  predicate IsParkedAt(t: Table, id: Id) {
    id in t && t[id].status == Parked
  }

  /** A claimed row is past 'pending', and while it is being delivered the lease on it is the batch's. */
  predicate IsOwn(r: EventRow, i: string, until: Time) {
    && r.status != Pending && r.status != DroppedByFilter
    && (r.status == Delivering ==> r.claimedBy == Some(i) && r.leaseUntil == Some(until))
  }

  /** The batch may have parked this row itself already, as one the server rejected. */
  predicate MayBeParked(b: Batch, id: Id) {
    b.phase.PostFailed? || (b.phase.RejectsParked? && id !in b.phase.ok)
  }

  /** Whatever a batch in flight may still mark is its own. */
  predicate Holding(t: Table, i: string, b: Batch) {
    && b.todo <= b.rows.Keys && b.mapped.Keys <= b.rows.Keys && b.todo !! b.mapped.Keys
    && (!b.phase.Mapping? && !b.phase.Releasing? ==> b.todo == {})
    && (b.phase.RejectsParked? ==> b.phase.ok <= b.mapped.Keys)
    && (forall id :: id in b.rows && id in t ==> IsOwn(t[id], i, b.until))
    && (forall id :: id in b.todo && !b.phase.Releasing? ==> IsDelivering(t, id))
    && (forall id :: id in b.mapped && !b.phase.Releasing? ==>
          IsDelivering(t, id) || (IsParkedAt(t, id) && MayBeParked(b, id)))
  }

  ghost predicate Exclusive(s: Sys) {
    && (forall i :: Inst(s, i).Busy? ==> Holding(s.store, i, Inst(s, i).b))
    && (forall i, j :: i != j && Inst(s, i).Busy? && Inst(s, j).Busy? ==> Inst(s, i).b.rows.Keys !! Inst(s, j).b.rows.Keys)
  }

  /** Unsettled events keep the payload they came with. */
  ghost predicate Kept(s: Sys) {
    forall id :: id in s.store && !IsTerminal(s.store[id]) ==>
      id in s.origin && s.store[id].body.payload == s.origin[id].body.payload
  }

  ghost predicate Safe(env: Env, s: Sys) {
    Traced(env, s) && Exclusive(s) && Kept(s)
  }

  /** What other parties may do to a row of a batch in flight: park it once it waits for its retry, or prune it. */
  predicate Undisturbed(t: Table, t': Table, id: Id)
    requires id in t
  {
    if id !in t' then t[id].status == Delivered
    else
      || (t'[id].status == t[id].status && t'[id].claimedBy == t[id].claimedBy && t'[id].leaseUntil == t[id].leaseUntil)
      || (t[id].status == Retry && t'[id].status == Parked)
  }

  lemma BusyTargetsOwn(s: Sys, i: string, a: Action)
    requires Exclusive(s) && Inst(s, i).Busy? && Allowed(s, Inst(s, i), a)
    ensures var st := StatementOf(i, Inst(s, i), a);
            && Targets(st) <= Inst(s, i).b.rows.Keys
            && !st.RecoverRows? && !st.ExpireRows? && !st.ReplayRows? && !st.DeleteIds?
  {
    assert Holding(s.store, i, Inst(s, i).b);
  }

  lemma RecoverMisses(s: Sys, i: string, at: Time, j: string, id: Id)
    requires Exclusive(s) && Prompt(s) && Inst(s, i).Busy? && id in Inst(s, i).b.rows && id in s.store
    requires Allowed(s, Inst(s, j), Recover(at))
    ensures RowAfter(s.store[id], StatementOf(j, Inst(s, j), Recover(at))) == s.store[id]
  {
    assert Holding(s.store, i, Inst(s, i).b) && BatchPrompt(s, Inst(s, i).b);
  }

  lemma ActUndisturbing(env: Env, s: Sys, j: string, a: Action, i: string, id: Id)
    requires Safe(env, s) && Prompt(s) && Allowed(s, Inst(s, j), a)
    requires Inst(s, i).Busy? && id in Inst(s, i).b.rows && id in s.store && i != j
    ensures RowAfter(s.store[id], StatementOf(j, Inst(s, j), a)) == s.store[id]
    ensures !StatementOf(j, Inst(s, j), a).DeleteIds?
  {
    if Inst(s, j).Busy? {
      BusyTargetsOwn(s, j, a);
      assert id !in Inst(s, j).b.rows.Keys;
      UntargetedRow(s.store[id], StatementOf(j, Inst(s, j), a));
    } else if a.Recover? {
      RecoverMisses(s, i, a.at, j, id);
    } else if a.ClaimBatch? {
      ClaimAvoids(s, j, a, i);
      UntargetedRow(s.store[id], StatementOf(j, Inst(s, j), a));
    }
  }

  lemma EnvironmentUndisturbing(s: Sys, step: Step, i: string, id: Id)
    requires Exclusive(s) && Keyed(s.store) && Careful(s, step) && Enabled(s, step) && !step.Act?
    requires Inst(s, i).Busy? && id in Inst(s, i).b.rows && id in s.store
    ensures var st, r := StepStatement(s, step), s.store[id];
            && (st.DeleteIds? && r.id in st.ids ==> r.status == Delivered)
            && var r' := RowAfter(r, st);
               || (r'.status == r.status && r'.claimedBy == r.claimedBy && r'.leaseUntil == r.leaseUntil)
               || (r.status == Retry && r'.status == Parked)
  {
    assert Holding(s.store, i, Inst(s, i).b);
    if IsParkedAt(s.store, id) {
      assert step.ReplayOne? ==> step.id != id;
    }
  }

  lemma OthersUndisturbed(env: Env, s: Sys, step: Step, i: string, id: Id)
    requires Safe(env, s) && Prompt(s) && Careful(s, step) && Enabled(s, step)
    requires Inst(s, i).Busy? && id in Inst(s, i).b.rows && id in s.store
    requires step.Act? ==> step.i != i
    ensures Undisturbed(s.store, Do(env, s, step).store, id)
  {
    if step.Act? {
      ActUndisturbing(env, s, step.i, step.a, i, id);
    } else {
      EnvironmentUndisturbing(s, step, i, id);
    }
  }

  lemma HeldUndisturbed(t: Table, t': Table, i: string, b: Batch)
    requires Holding(t, i, b)
    requires forall id :: id in b.rows && id in t ==> Undisturbed(t, t', id)
    requires forall id :: id in b.rows && id in t' ==> id in t
    ensures Holding(t', i, b)
  {
  }

  lemma OthersStayHeld(env: Env, s: Sys, step: Step, i: string)
    requires Safe(env, s) && Prompt(s) && Careful(s, step) && Enabled(s, step)
    requires Inst(s, i).Busy?
    requires step.Act? ==> step.i != i
    ensures Holding(Do(env, s, step).store, i, Inst(s, i).b)
  {
    var b, t, t' := Inst(s, i).b, s.store, Do(env, s, step).store;
    forall id | id in b.rows && id in t ensures Undisturbed(t, t', id) {
      OthersUndisturbed(env, s, step, i, id);
    }
    assert BatchTraced(env, s.origin, s.accepted, b);
    HeldUndisturbed(t, t', i, b);
  }

  lemma NothingChanges(t: Table)
    ensures Exec(t, Nothing) == t
  {
  }

  lemma QuietStepHolds(env: Env, s: Sys, i: string, b: Batch, a: Action)
    requires Holding(s.store, i, b) && Allowed(s, Busy(false, b), a)
    requires a.MapOne? || a.DoneMapping? || a.Abort? || a.Post? || a.SettleBreaks?
    ensures Holding(Exec(s.store, StatementOf(i, Busy(false, b), a)), i, BatchAfter(env, s, b, a))
  {
    NothingChanges(s.store);
  }

  predicate IsMark(st: Statement) {
    st.DeliverIds? || st.FailIds? || st.ParkIds?
  }

  function MarkStatus(st: Statement): Status
    requires IsMark(st)
  {
    if st.DeliverIds? then Delivered else if st.FailIds? then Retry else Parked
  }

  lemma MarkEffect(t: Table, st: Statement)
    requires Keyed(t) && IsMark(st)
    ensures Exec(t, st).Keys == t.Keys
    ensures forall id :: id in t && id in st.ids ==> Exec(t, st)[id].status == MarkStatus(st)
    ensures forall id :: id in t && id !in st.ids ==> Exec(t, st)[id] == t[id]
  {
  }

  /** The batch after the rows in `ids` went from 'delivering' (or its own 'parked') to `status`. */
  lemma HoldingAfterMark(t: Table, t': Table, ids: set<Id>, status: Status, i: string, b: Batch, b': Batch)
    requires Holding(t, i, b) && !b.phase.Releasing?
    requires status == Delivered || status == Retry || status == Parked
    requires t'.Keys == t.Keys
    requires forall id :: id in t && id in ids ==> t'[id].status == status
    requires forall id :: id in t && id !in ids ==> t'[id] == t[id]
    requires b'.rows == b.rows && b'.until == b.until && b'.mapped == b.mapped && b'.todo <= b.todo
    requires !b'.phase.Mapping? && !b'.phase.Releasing? ==> b'.todo == {}
    requires b'.phase.RejectsParked? ==> b'.phase.ok <= b'.mapped.Keys
    requires !b'.phase.Releasing? ==> b'.todo !! ids
    requires !b'.phase.Releasing? ==>
               forall id :: id in b.mapped && id in ids ==> status == Parked && MayBeParked(b', id)
    requires !b'.phase.Releasing? ==> forall id :: id in b.mapped && MayBeParked(b, id) ==> MayBeParked(b', id)
    ensures Holding(t', i, b')
  {
  }

  lemma OneStepHolds(env: Env, s: Sys, i: string, b: Batch, a: Action)
    requires Holding(s.store, i, b) && Keyed(s.store) && Allowed(s, Busy(false, b), a)
    requires a.ParkOne? || a.RetryOne?
    ensures Holding(Exec(s.store, StatementOf(i, Busy(false, b), a)), i, BatchAfter(env, s, b, a))
  {
    var st := StatementOf(i, Busy(false, b), a);
    MarkEffect(s.store, st);
    HoldingAfterMark(s.store, Exec(s.store, st), st.ids, MarkStatus(st), i, b, BatchAfter(env, s, b, a));
  }

  lemma SettleStepHolds(env: Env, s: Sys, i: string, b: Batch, a: Action)
    requires Holding(s.store, i, b) && Keyed(s.store) && Allowed(s, Busy(false, b), a)
    requires a.SettleAll? || a.SettleRejected? || a.SettleRest? || a.FailBatch? || a.ParkBatch?
    ensures Holding(Exec(s.store, StatementOf(i, Busy(false, b), a)), i, BatchAfter(env, s, b, a))
  {
    var st := StatementOf(i, Busy(false, b), a);
    MarkEffect(s.store, st);
    HoldingAfterMark(s.store, Exec(s.store, st), st.ids, MarkStatus(st), i, b, BatchAfter(env, s, b, a));
  }

  lemma ClaimHolds(s: Sys, i: string, a: Action)
    requires Keyed(s.store) && a.ClaimBatch? && Enabled(s, Act(i, a))
    ensures Holding(Exec(s.store, StatementOf(i, Inst(s, i), a)), i, ClaimedBatch(s, i, a))
    ensures ClaimedBatch(s, i, a).rows.Keys == Elements(a.picked)
  {
    PickedAreThere(s.store, a.routeId, a.at, a.limit, a.picked);
  }

  lemma PickedAreThere(t: Table, routeId: string, at: Time, limit: nat, picked: seq<Id>)
    requires IsOldest(t, Due(routeId, at), limit, picked)
    ensures Elements(picked) <= t.Keys
  {
    forall id | id in Elements(picked) ensures id in t {
      assert id in Where(t, Due(routeId, at));
    }
  }

  lemma OwnStepHolds(env: Env, s: Sys, i: string, a: Action)
    requires Exclusive(s) && Keyed(s.store) && Allowed(s, Inst(s, i), a)
    requires InstanceAfter(env, s, i, Inst(s, i), a).Busy?
    ensures Holding(Exec(s.store, StatementOf(i, Inst(s, i), a)), i, InstanceAfter(env, s, i, Inst(s, i), a).b)
  {
    if a.ClaimBatch? {
      ClaimHolds(s, i, a);
    } else {
      var b := Inst(s, i).b;
      assert Holding(s.store, i, b);
      assert StatementOf(i, Inst(s, i), a) == StatementOf(i, Busy(false, b), a);
      assert Allowed(s, Busy(false, b), a);
      if a.ParkOne? || a.RetryOne? {
        OneStepHolds(env, s, i, b, a);
      } else if a.SettleAll? || a.SettleRejected? || a.SettleRest? || a.FailBatch? || a.ParkBatch? {
        SettleStepHolds(env, s, i, b, a);
      } else {
        QuietStepHolds(env, s, i, b, a);
      }
    }
  }

  /** A claim never takes a row of a batch in flight. */
  lemma ClaimAvoids(s: Sys, i: string, a: Action, j: string)
    requires Exclusive(s) && Prompt(s) && a.ClaimBatch? && Enabled(s, Act(i, a)) && Inst(s, j).Busy?
    ensures Elements(a.picked) !! Inst(s, j).b.rows.Keys
  {
    var b := Inst(s, j).b;
    assert Holding(s.store, j, b) && BatchPrompt(s, b);
    forall id | id in Elements(a.picked) ensures id !in b.rows {
      assert id in Where(s.store, Due(a.routeId, a.at));
    }
  }

  /** A batch keeps the rows it claimed. */
  lemma RowsStay(env: Env, s: Sys, step: Step, i: string)
    requires Enabled(s, step) && Inst(Do(env, s, step), i).Busy? && !(step.Act? && step.i == i && step.a.ClaimBatch?)
    ensures Inst(s, i).Busy? && Inst(Do(env, s, step), i).b.rows == Inst(s, i).b.rows
  {
    if step.Act? && step.i == i && !step.a.Start? && !step.a.Crash? && !step.a.Recover? {
      BatchKeepsRows(env, s, Inst(s, i).b, step.a);
    }
  }

  lemma RowsStayApart(env: Env, s: Sys, step: Step, i: string, j: string)
    requires Exclusive(s) && Keyed(s.store) && Prompt(s) && Enabled(s, step)
    requires i != j && Inst(Do(env, s, step), i).Busy? && Inst(Do(env, s, step), j).Busy?
    requires step.Act? ==> step.i != j
    ensures Inst(Do(env, s, step), i).b.rows.Keys !! Inst(Do(env, s, step), j).b.rows.Keys
  {
    assert Inst(Do(env, s, step), j) == Inst(s, j);
    if step.Act? && step.i == i && step.a.ClaimBatch? {
      ClaimHolds(s, i, step.a);
      ClaimAvoids(s, i, step.a, j);
    } else {
      RowsStay(env, s, step, i);
    }
  }

  lemma StaysExclusive(env: Env, s: Sys, step: Step)
    requires Safe(env, s) && Prompt(s) && Careful(s, step) && Enabled(s, step)
    ensures Exclusive(Do(env, s, step))
  {
    var s' := Do(env, s, step);
    forall i | Inst(s', i).Busy? ensures Holding(s'.store, i, Inst(s', i).b) {
      if step.Act? && step.i == i {
        OwnStepHolds(env, s, i, step.a);
      } else {
        OthersStayHeld(env, s, step, i);
      }
    }
    forall i, j | i != j && Inst(s', i).Busy? && Inst(s', j).Busy?
      ensures Inst(s', i).b.rows.Keys !! Inst(s', j).b.rows.Keys
    {
      if step.Act? && step.i == j {
        RowsStayApart(env, s, step, j, i);
      } else {
        RowsStayApart(env, s, step, i, j);
      }
    }
  }

  // ---- what exclusivity gives ----

  lemma BusyKeepsTerminal(s: Sys, i: string, a: Action, id: Id)
    requires Exclusive(s) && Keyed(s.store) && Inst(s, i).Busy? && Allowed(s, Inst(s, i), a)
    requires id in s.store && IsTerminal(s.store[id])
    ensures RowAfter(s.store[id], StatementOf(i, Inst(s, i), a)).status == s.store[id].status
  {
    assert Holding(s.store, i, Inst(s, i).b);
  }

  lemma ClaimSkipsTerminal(s: Sys, a: Action, id: Id)
    requires a.ClaimBatch? && IsOldest(s.store, Due(a.routeId, a.at), a.limit, a.picked)
    requires id in s.store && IsTerminal(s.store[id])
    ensures id !in Elements(a.picked)
  {
    assert id !in Where(s.store, Due(a.routeId, a.at));
  }

  /** Under the hypothesis a terminal row keeps its status through every statement but its deletion. */
  lemma TerminalStays(env: Env, s: Sys, step: Step, id: Id)
    requires Safe(env, s) && Prompt(s) && Careful(s, step) && Enabled(s, step)
    requires id in s.store && IsTerminal(s.store[id])
    ensures RowAfter(s.store[id], StepStatement(s, step)).status == s.store[id].status
  {
    if step.Act? {
      if Inst(s, step.i).Busy? {
        BusyKeepsTerminal(s, step.i, step.a, id);
      } else if step.a.ClaimBatch? {
        ClaimSkipsTerminal(s, step.a, id);
      } else {
        IdleKeepsTerminal(s, step.i, step.a, id);
      }
    } else {
      EnvironmentKeepsTerminal(s, step, id);
    }
  }

  lemma IdleKeepsTerminal(s: Sys, i: string, a: Action, id: Id)
    requires !Inst(s, i).Busy? && !a.ClaimBatch? && Allowed(s, Inst(s, i), a)
    requires id in s.store && IsTerminal(s.store[id])
    ensures RowAfter(s.store[id], StatementOf(i, Inst(s, i), a)) == s.store[id]
  {
  }

  lemma EnvironmentKeepsTerminal(s: Sys, step: Step, id: Id)
    requires !step.Act? && id in s.store && IsTerminal(s.store[id])
    ensures RowAfter(s.store[id], StepStatement(s, step)).status == s.store[id].status
  {
  }

  /** A row that is not terminal afterwards was not terminal before, and keeps its payload. */
  lemma PayloadStays(env: Env, s: Sys, step: Step, id: Id)
    requires Safe(env, s) && Prompt(s) && Careful(s, step) && Enabled(s, step) && id in s.store
    requires !IsTerminal(RowAfter(s.store[id], StepStatement(s, step)))
    ensures !IsTerminal(s.store[id])
    ensures RowAfter(s.store[id], StepStatement(s, step)).body.payload == s.store[id].body.payload
  {
    var st := StepStatement(s, step);
    RowAfterFacts(s.store[id], st);
    if IsTerminal(s.store[id]) {
      TerminalStays(env, s, step, id);
    }
    if st.WipeIds? && id in st.ids {
      WipesTerminal(s, step, id);
    }
  }

  lemma WipesTerminal(s: Sys, step: Step, id: Id)
    requires Enabled(s, step) && StepStatement(s, step).WipeIds? && id in StepStatement(s, step).ids
    ensures id in s.store && IsTerminal(s.store[id])
  {
    assert step.PruneWipe?;
    assert id in Where(s.store, Wipeable(WipeCutoff(step.at, step.deliveredDays)));
  }

  lemma StaysKept(env: Env, s: Sys, step: Step)
    requires Safe(env, s) && Prompt(s) && Careful(s, step) && Enabled(s, step)
    ensures Kept(Do(env, s, step))
  {
    var s' := Do(env, s, step);
    forall id | id in s'.store && !IsTerminal(s'.store[id])
      ensures id in s'.origin && s'.store[id].body.payload == s'.origin[id].body.payload
    {
      RowStaysKept(env, s, step, id);
    }
  }

  lemma RowStaysKept(env: Env, s: Sys, step: Step, id: Id)
    requires Safe(env, s) && Prompt(s) && Careful(s, step) && Enabled(s, step)
    requires id in Do(env, s, step).store && !IsTerminal(Do(env, s, step).store[id])
    ensures var s' := Do(env, s, step); id in s'.origin && s'.store[id].body.payload == s'.origin[id].body.payload
  {
    OriginGrows(env, s, step);
    if id in s.store {
      PayloadStays(env, s, step, id);
    }
  }

  lemma StaysSafe(env: Env, s: Sys, step: Step)
    requires Safe(env, s) && Prompt(s) && Careful(s, step) && Enabled(s, step)
    ensures Safe(env, Do(env, s, step))
  {
    StaysTraced(env, s, step);
    StaysExclusive(env, s, step);
    StaysKept(env, s, step);
  }

  lemma {:induction false} RunsStaySafe(env: Env, s: Sys, steps: seq<Step>)
    requires Safe(env, s) && Valid(env, s, steps) && Punctual(env, s, steps)
    ensures Safe(env, End(env, s, steps)) && Prompt(End(env, s, steps))
    decreases |steps|
  {
    if steps != [] {
      PromptIsCareful(env, s, steps[0]);
      StaysSafe(env, s, steps[0]);
      RunsStaySafe(env, Do(env, s, steps[0]), steps[1..]);
    }
  }

  /** In every punctual run no row is in two batches in flight. */
  lemma NoRowInTwoBatches(env: Env, s: Sys, steps: seq<Step>, i: string, j: string, id: Id)
    requires Init(s) && Valid(env, s, steps) && Punctual(env, s, steps)
    requires Inst(End(env, s, steps), i).Busy? && id in Inst(End(env, s, steps), i).b.rows
    requires Inst(End(env, s, steps), j).Busy? && id in Inst(End(env, s, steps), j).b.rows
    ensures i == j
  {
    RunsStaySafe(env, s, steps);
    var t := End(env, s, steps);
    assert id in Inst(t, i).b.rows.Keys * Inst(t, j).b.rows.Keys;
  }

  /** In every punctual run recovery, by whatever instance and whichever clause, leaves live batches alone. */
  lemma RecoveryTakesNoLiveRow(env: Env, s: Sys, steps: seq<Step>, j: string, at: Time, i: string, id: Id)
    requires Init(s) && Valid(env, s, steps) && Punctual(env, s, steps)
    requires Enabled(End(env, s, steps), Act(j, Recover(at)))
    requires Inst(End(env, s, steps), i).Busy? && id in Inst(End(env, s, steps), i).b.rows
    requires id in End(env, s, steps).store
    ensures var t := End(env, s, steps);
            id in Do(env, t, Act(j, Recover(at))).store && Do(env, t, Act(j, Recover(at))).store[id] == t.store[id]
  {
    RunsStaySafe(env, s, steps);
    RecoverMisses(End(env, s, steps), i, at, j, id);
  }

  /** Retention deleted the row in this run, when it was terminal and past the ledger window. */
  ghost predicate Retired(env: Env, s: Sys, steps: seq<Step>, id: Id)
    requires Valid(env, s, steps)
    decreases |steps|
  {
    && steps != []
    && (|| (&& steps[0].PruneDelete? && id in steps[0].ids && id in s.store && IsTerminal(s.store[id])
            && s.store[id].info.receivedAt < DeleteCutoff(s.now, steps[0].ledgerDays))
        || Retired(env, Do(env, s, steps[0]), steps[1..], id))
  }

  /** A removed id is never given out again. */
  lemma {:induction false} AbsentStays(env: Env, s: Sys, steps: seq<Step>, id: Id)
    requires Valid(env, s, steps) && id !in s.store && id < s.nextId
    ensures id !in End(env, s, steps).store
    decreases |steps|
  {
    if steps != [] {
      AbsentStays(env, Do(env, s, steps[0]), steps[1..], id);
    }
  }

  lemma LeavesByRetention(env: Env, s: Sys, step: Step, id: Id)
    requires Keyed(s.store) && Enabled(s, step) && id in s.store && id !in Do(env, s, step).store
    ensures step.PruneDelete? && id in step.ids && IsTerminal(s.store[id])
    ensures s.store[id].info.receivedAt < DeleteCutoff(s.now, step.ledgerDays)
  {
    assert step.PruneDelete? ==> step.ids <= Where(s.store, Deletable(DeleteCutoff(step.at, step.ledgerDays)));
  }

  /** In every run, punctual or not, a row stays the same event until retention deletes it. */
  lemma {:induction false} StaysOrRetires(env: Env, s: Sys, steps: seq<Step>, id: Id)
    requires Traced(env, s) && Valid(env, s, steps) && id in s.store
    ensures Keyed(End(env, s, steps).store)
    ensures if id in End(env, s, steps).store then End(env, s, steps).store[id].info == s.store[id].info
            else Retired(env, s, steps, id)
    decreases |steps|
  {
    if steps != [] {
      var s' := Do(env, s, steps[0]);
      StaysTraced(env, s, steps[0]);
      if id in s'.store {
        RowAfterFacts(s.store[id], StepStatement(s, steps[0]));
        StaysOrRetires(env, s', steps[1..], id);
      } else {
        LeavesByRetention(env, s, steps[0], id);
        AbsentStays(env, s', steps[1..], id);
        RunsStayTraced(env, s', steps[1..]);
      }
    }
  }

  /**
   From any reachable state of a punctual run: a terminal row keeps its status until retention deletes
   it, and no other row ever leaves the table.
   */
  lemma {:induction false} TerminalIsFinal(env: Env, s: Sys, steps: seq<Step>, id: Id)
    requires Safe(env, s) && Valid(env, s, steps) && Punctual(env, s, steps)
    requires id in s.store
    ensures var t := End(env, s, steps).store;
            && (id !in t ==> Retired(env, s, steps, id))
            && (id in t && IsTerminal(s.store[id]) ==> t[id].status == s.store[id].status)
    decreases |steps|
  {
    if steps != [] {
      var s' := Do(env, s, steps[0]);
      PromptIsCareful(env, s, steps[0]);
      StaysSafe(env, s, steps[0]);
      if id in s'.store {
        if IsTerminal(s.store[id]) {
          TerminalStays(env, s, steps[0], id);
        }
        TerminalIsFinal(env, s', steps[1..], id);
      } else {
        LeavesByRetention(env, s, steps[0], id);
        AbsentStays(env, s', steps[1..], id);
      }
    }
  }

  lemma {:induction false} OriginStays(env: Env, s: Sys, steps: seq<Step>, id: Id)
    requires Traced(env, s) && Valid(env, s, steps) && id in s.origin
    ensures id in End(env, s, steps).origin && End(env, s, steps).origin[id] == s.origin[id]
    decreases |steps|
  {
    if steps != [] {
      OriginGrows(env, s, steps[0]);
      StaysTraced(env, s, steps[0]);
      OriginStays(env, Do(env, s, steps[0]), steps[1..], id);
    }
  }

  /**
   Nothing acknowledged is lost: an event whose row was in the store at some point of a punctual run is
   still there afterwards - with the payload it was ingested with unless it is delivered or filtered -
   or retention removed it when it was.
   */
  lemma NothingIsLost(env: Env, s0: Sys, before: seq<Step>, after: seq<Step>, id: Id)
    requires Init(s0) && Valid(env, s0, before) && Punctual(env, s0, before)
    requires var s := End(env, s0, before);
             Valid(env, s, after) && Punctual(env, s, after) && id in s.store
    ensures var s := End(env, s0, before);
            var t := End(env, s, after);
            if id in t.store then
              && id in s.origin && t.store[id].info == s.origin[id].info
              && (!IsTerminal(t.store[id]) ==> t.store[id].body.payload == s.origin[id].body.payload)
            else Retired(env, s, after, id)
  {
    var s := End(env, s0, before);
    RunsStaySafe(env, s0, before);
    RunsStaySafe(env, s, after);
    OriginStays(env, s, after, id);
    TerminalIsFinal(env, s, after, id);
  }

  // ---- the timing hypothesis is exact ----

  /** The action of `j` changes no row of the batch. */
  predicate LeavesAlone(s: Sys, j: string, a: Action, b: Batch) {
    forall id :: id in b.rows && id in s.store ==> RowAfter(s.store[id], StatementOf(j, Inst(s, j), a)) == s.store[id]
  }

  lemma {:induction false} LargestOf(ids: set<Id>) returns (m: Id)
    requires ids != {}
    ensures m in ids && forall id | id in ids :: id <= m
  {
    var first :| first in ids;
    m := first;
    if ids != {first} {
      var n := LargestOf(ids - {first});
      m := if first < n then n else first;
      assert forall id | id in ids :: id == first || id in ids - {first};
    }
  }

  lemma {:induction false} InOrder(ids: set<Id>) returns (s: seq<Id>)
    ensures Elements(s) == ids && |s| == |ids|
    ensures forall i, j | 0 <= i < j < |s| :: s[i] < s[j]
  {
    if ids == {} {
      s := [];
    } else {
      var m := LargestOf(ids);
      var before := InOrder(ids - {m});
      s := before + [m];
      assert ids == (ids - {m}) + {m};
      forall i | 0 <= i < |before| ensures before[i] < m {
        assert before[i] in Elements(before);
      }
      LargestLast(before, m);
    }
  }

  lemma LargestLast(before: seq<Id>, m: Id)
    requires forall i, j | 0 <= i < j < |before| :: before[i] < before[j]
    requires forall i | 0 <= i < |before| :: before[i] < m
    ensures Elements(before + [m]) == Elements(before) + {m}
    ensures forall i, j | 0 <= i < j < |before + [m]| :: (before + [m])[i] < (before + [m])[j]
  {
  }

  /** A due row can be claimed. */
  lemma DueIsTaken(s: Sys, j: string, id: Id) returns (a: Action)
    requires Inst(s, j).Idle? && Keyed(s.store) && id in s.store && IsDue(s.store[id], s.now)
    ensures Allowed(s, Inst(s, j), a) && RowAfter(s.store[id], StatementOf(j, Inst(s, j), a)) != s.store[id]
  {
    var f := Due(s.store[id].info.routeId, s.now);
    var picked := InOrder(Where(s.store, f));
    assert id in Where(s.store, f) && id in Elements(picked);
    a := ClaimBatch(s.store[id].info.routeId, s.now, |picked|, picked, s.now);
    assert forall p | p in picked :: p in Elements(picked);
    assert forall p | p in Where(s.store, f) :: p in Elements(picked);
  }

  /** A row whose lease has run out can be recovered. */
  lemma ExpiredIsTaken(s: Sys, j: string, id: Id)
    requires Inst(s, j).Idle? && id in s.store && s.store[id].status == Delivering
    requires s.store[id].leaseUntil.Some? && s.store[id].leaseUntil.value < s.now
    ensures Allowed(s, Inst(s, j), Recover(s.now))
    ensures RowAfter(s.store[id], StatementOf(j, Inst(s, j), Recover(s.now))) != s.store[id]
  {
  }

  lemma PromptIsLeftAlone(s: Sys, i: string, j: string, a: Action)
    requires Inst(s, i).Busy? && Holding(s.store, i, Inst(s, i).b) && Inst(s, j).Idle? && i != j
    requires Allowed(s, Inst(s, j), a) && Indexed(s.store) && BatchPrompt(s, Inst(s, i).b)
    ensures LeavesAlone(s, j, a, Inst(s, i).b)
  {
    if a.ClaimBatch? {
      assert forall id | id in Elements(a.picked) :: id in Where(s.store, Due(a.routeId, a.at));
    }
  }

  /**
   Whatever an idle instance may do next leaves the rows of another's batch alone if and only if no row of the batch
   is due and, while one is being delivered, the lease has not run out. So nothing weaker than promptness excludes.
   */
  lemma LeftAloneIff(s: Sys, i: string, j: string)
    requires Keyed(s.store) && Inst(s, i).Busy? && Holding(s.store, i, Inst(s, i).b) && Inst(s, j).Idle? && i != j
    ensures (forall a | Allowed(s, Inst(s, j), a) :: LeavesAlone(s, j, a, Inst(s, i).b)) <==> BatchPrompt(s, Inst(s, i).b)
  {
    var b := Inst(s, i).b;
    if BatchPrompt(s, b) {
      forall a | Allowed(s, Inst(s, j), a) ensures LeavesAlone(s, j, a, b) {
        PromptIsLeftAlone(s, i, j, a);
      }
    } else {
      var id :| id in b.rows && id in s.store
                && (IsDue(s.store[id], s.now) || (s.store[id].status == Delivering && s.now > b.until));
      if IsDue(s.store[id], s.now) {
        var a := DueIsTaken(s, j, id);
        assert !LeavesAlone(s, j, a, b);
      } else {
        ExpiredIsTaken(s, j, id);
        assert !LeavesAlone(s, j, Recover(s.now), b);
      }
    }
  }

  // ---- leases alone are not enough ----

  /** Every batch in flight is within its lease. */
  ghost predicate OnLease(s: Sys) {
    forall i :: Inst(s, i).Busy? ==> s.now <= Inst(s, i).b.until
  }

  ghost predicate WithinLeases(env: Env, s: Sys, steps: seq<Step>)
    requires Valid(env, s, steps)
    decreases |steps|
  {
    OnLease(s) && (steps != [] ==> WithinLeases(env, Do(env, s, steps[0]), steps[1..]))
  }

  /** A run on which every batch stays within its lease takes `s` to `t`. */
  ghost predicate Leads(env: Env, s: Sys, t: Sys) {
    exists steps :: Valid(env, s, steps) && WithinLeases(env, s, steps) && End(env, s, steps) == t
  }

  lemma LeadsNowhere(env: Env, s: Sys)
    requires OnLease(s)
    ensures Leads(env, s, s)
  {
    assert Valid(env, s, []);
  }

  lemma LeadsBy(env: Env, s: Sys, step: Step, s': Sys, t: Sys)
    requires Enabled(s, step) && Do(env, s, step) == s' && OnLease(s) && Leads(env, s', t)
    ensures Leads(env, s, t)
  {
    var rest :| Valid(env, s', rest) && WithinLeases(env, s', rest) && End(env, s', rest) == t;
    var steps := [step] + rest;
    assert steps[1..] == rest;
    assert Valid(env, s, steps) && WithinLeases(env, s, steps) && End(env, s, steps) == t;
  }

  // Two instances and one event: `a` puts the event back for a retry, `b` claims it when it comes due,
  // and the release at the end of `a`'s batch frees it again under `b`.

  const LEASE_MS := 60_000

  function Fresh(r: EventRow, until: Time): Batch {
    Batch(map[1 := r], {1}, map[], [], until, Mapping)
  }

  lemma OneRowExec(r: EventRow, st: Statement)
    requires r.id == 1 && !st.Insert? && !st.DeleteIds?
    ensures Exec(map[1 := r], st) == map[1 := RowAfter(r, st)]
  {
  }

  function Claimed(s: Sys, r: EventRow, i: string, until: Time): Sys {
    var r' := ClaimedRow(r, s.now, Lease(i, until));
    s.(store := map[1 := r'], insts := s.insts[i := Busy(true, Fresh(r', until))])
  }

  lemma ClaimsTheRow(env: Env, s: Sys, r: EventRow, i: string, until: Time, t: Sys)
    requires OnLease(s) && s.store == map[1 := r] && r.id == 1 && IsDue(r, s.now) && Inst(s, i) == Idle(true)
    requires Leads(env, Claimed(s, r, i, until), t)
    ensures Leads(env, s, t)
  {
    var step, r' := Act(i, ClaimBatch(r.info.routeId, s.now, 1, [1], until)), ClaimedRow(r, s.now, Lease(i, until));
    assert Where(s.store, Due(r.info.routeId, s.now)) == {1} && Elements([1]) == {1};
    assert Exec(s.store, StepStatement(s, step)) == map[1 := r'];
    assert ClaimedBatch(s, i, step.a) == Fresh(r', until);
    LeadsBy(env, s, step, Claimed(s, r, i, until), t);
  }

  function Requeued(s: Sys, r: EventRow, i: string, until: Time, next: Time, error: string): Sys {
    s.(store := map[1 := FailedRow(r, next, error)], insts := s.insts[i := Busy(true, Fresh(r, until).(todo := {}))])
  }

  lemma RequeuesTheRow(env: Env, s: Sys, r: EventRow, i: string, until: Time, next: Time, error: string, t: Sys)
    requires OnLease(s) && s.store == map[1 := r] && r.id == 1 && Inst(s, i) == Busy(true, Fresh(r, until))
    requires Leads(env, Requeued(s, r, i, until, next, error), t)
    ensures Leads(env, s, t)
  {
    var step := Act(i, RetryOne(1, next, error));
    OneRowExec(r, StepStatement(s, step));
    assert {1} - {1} == {};
    LeadsBy(env, s, step, Requeued(s, r, i, until, next, error), t);
  }

  function Ended(r: EventRow, until: Time): Batch {
    Fresh(r, until).(todo := {}, phase := Releasing)
  }

  lemma EndsMapping(env: Env, s: Sys, r: EventRow, i: string, until: Time, t: Sys)
    requires OnLease(s) && Inst(s, i) == Busy(true, Fresh(r, until).(todo := {}))
    requires Leads(env, s.(insts := s.insts[i := Busy(true, Ended(r, until))]), t)
    ensures Leads(env, s, t)
  {
    NothingChanges(s.store);
    LeadsBy(env, s, Act(i, DoneMapping), s.(insts := s.insts[i := Busy(true, Ended(r, until))]), t);
  }

  lemma TimePasses(env: Env, s: Sys, to: Time, t: Sys)
    requires OnLease(s) && s.now <= to && Leads(env, s.(now := to), t)
    ensures Leads(env, s, t)
  {
    NothingChanges(s.store);
    LeadsBy(env, s, Tick(to), s.(now := to), t);
  }

  function Freed(s: Sys, r: EventRow, i: string, error: string): Sys {
    s.(store := map[1 := FailedRow(r, s.now, error)], insts := s.insts[i := Idle(true)])
  }

  lemma FreesTheRow(env: Env, s: Sys, r: EventRow, i: string, done: Batch, error: string, t: Sys)
    requires OnLease(s) && s.store == map[1 := r] && r.id == 1 && r.status == Delivering
    requires Inst(s, i) == Busy(true, done) && done.phase == Releasing && 1 in done.rows
    requires Leads(env, Freed(s, r, i, error), t)
    ensures Leads(env, s, t)
  {
    var step := Act(i, Release(s.now, error));
    OneRowExec(r, StepStatement(s, step));
    LeadsBy(env, s, step, Freed(s, r, i, error), t);
  }

  lemma StillOnLease(s: Sys, s': Sys, i: string)
    requires OnLease(s) && s'.now == s.now && i in s'.insts && s'.insts == s.insts[i := s'.insts[i]]
    requires s'.insts[i].Busy? ==> s.now <= s'.insts[i].b.until
    ensures OnLease(s')
  {
    forall j | Inst(s', j).Busy? ensures s'.now <= Inst(s', j).b.until {
      assert j != i ==> Inst(s', j) == Inst(s, j);
    }
  }

  function Nobody(): Sys {
    Sys(0, map[], 1, map[], map[], {}, [])
  }

  /** The system that holds the one event `e`, new, with `a` and `b` idle. */
  function Both(e: NewEvent, a: string, b: string): Sys {
    Sys(0, map[1 := NewRow(1, e)], 2, map[1 := e], map[a := Idle(true)][b := Idle(true)], {}, [])
  }

  lemma StartsTwo(env: Env, e: NewEvent, a: string, b: string, t: Sys)
    requires e.body.payload != [] && e.status == Pending && a != b
    requires Leads(env, Both(e, a, b), t)
    ensures Leads(env, Nobody(), t)
  {
    var s1 := Nobody().(store := map[1 := NewRow(1, e)], nextId := 2, origin := map[1 := e]);
    var s2 := s1.(insts := map[a := Idle(true)]);
    NothingChanges(s1.store);
    LeadsBy(env, s2, Act(b, Start), Both(e, a, b), t);
    LeadsBy(env, s1, Act(a, Start), s2, t);
    LeadsBy(env, Nobody(), Ingest(e), s1, t);
  }

  ghost predicate InBothBatches(s: Sys, a: string, b: string, id: Id) {
    Inst(s, a).Busy? && id in Inst(s, a).b.rows && Inst(s, b).Busy? && id in Inst(s, b).b.rows
  }

  /** A re-queued row that is due: `b` claims it, the release of `a`'s old batch frees it, `a` claims it anew. */
  lemma ReleaseFreesForeignRow(env: Env, s: Sys, r: EventRow, a: string, b: string, done: Batch) returns (t: Sys)
    requires OnLease(s) && s.store == map[1 := r] && r.id == 1 && IsDue(r, s.now) && a != b
    requires Inst(s, a) == Busy(true, done) && Inst(s, b) == Idle(true)
    requires done.phase == Releasing && 1 in done.rows
    ensures Leads(env, s, t) && InBothBatches(t, a, b, 1)
  {
    var r2 := ClaimedRow(r, s.now, Lease(b, s.now + LEASE_MS));
    var s2 := Claimed(s, r, b, s.now + LEASE_MS);
    var r3 := FailedRow(r2, s.now, "left delivering after batch");
    var s3 := Freed(s2, r2, a, "left delivering after batch");
    t := Claimed(s3, r3, a, s.now + LEASE_MS);
    StillOnLease(s, s2, b);
    StillOnLease(s2, s3, a);
    StillOnLease(s3, t, a);
    LeadsNowhere(env, t);
    ClaimsTheRow(env, s3, r3, a, s.now + LEASE_MS, t);
    FreesTheRow(env, s2, r2, a, done, "left delivering after batch", t);
    ClaimsTheRow(env, s, r, b, s.now + LEASE_MS, t);
  }

  /** Only `a` is busy, and its lease has not run out. */
  lemma StillInTime(s: Sys, s': Sys, a: string)
    requires forall i :: i != a ==> !Inst(s, i).Busy? && Inst(s', i) == Inst(s, i)
    requires Inst(s', a).Busy? ==> s'.now <= Inst(s', a).b.until
    ensures OnLease(s')
  {
  }

  /** `a` claims the row, its enrichment fails, and the row comes due before the batch is released. */
  lemma ComesDueTooSoon(env: Env, s: Sys, r: EventRow, a: string, b: string) returns (t: Sys)
    requires OnLease(s) && s.store == map[1 := r] && r.id == 1 && IsDue(r, s.now) && a != b
    requires Inst(s, a) == Idle(true) && Inst(s, b) == Idle(true)
    requires forall i :: i != a ==> !Inst(s, i).Busy?
    ensures Leads(env, s, t) && InBothBatches(t, a, b, 1)
  {
    var until := s.now + LEASE_MS;
    var r1 := ClaimedRow(r, s.now, Lease(a, until));
    var s1 := Claimed(s, r, a, until);
    var s2 := Requeued(s1, r1, a, until, s.now + 800, "lookup failed");
    var s3 := s2.(insts := s2.insts[a := Busy(true, Ended(r1, until))]);
    var s4 := s3.(now := s.now + 800);
    StillOnLease(s, s1, a);
    StillOnLease(s1, s2, a);
    StillOnLease(s2, s3, a);
    StillInTime(s, s4, a);
    t := ReleaseFreesForeignRow(env, s4, FailedRow(r1, s.now + 800, "lookup failed"), a, b, Ended(r1, until));
    TimePasses(env, s3, s.now + 800, t);
    EndsMapping(env, s2, r1, a, until, t);
    RequeuesTheRow(env, s1, r1, a, until, s.now + 800, "lookup failed", t);
    ClaimsTheRow(env, s, r, a, until, t);
  }

  /**
   With distinct ids and every batch within its lease throughout, a row can still be in two batches in
   flight: the hypothesis about re-queued rows cannot be dropped.
   */
  lemma LeasesAloneDoNotExclude(env: Env, e: NewEvent, a: string, b: string) returns (t: Sys)
    requires e.body.payload != [] && e.status == Pending && e.info.receivedAt == 0 && a != b
    ensures Init(Nobody()) && Leads(env, Nobody(), t) && InBothBatches(t, a, b, 1)
  {
    var s := Both(e, a, b);
    t := ComesDueTooSoon(env, s, NewRow(1, e), a, b);
    StartsTwo(env, e, a, b, t);
  }
}
