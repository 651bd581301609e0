/**
 The dispatcher of modules Batches and Cycles takes steps of module LeaseProtocol: whatever its store, the API and its
 configuration answer, a visit, a cycle and a flush are runs of one instance there. So what is proved there of every run
 holds of them.
 */
module Simulation {
  import opened Prelude
  import opened EventTable
  import opened BulkResults
  import opened Settlement
  import opened Outside
  import opened Batches
  import opened Fates
  import opened Cycles
  import L = LeaseProtocol

  // ---- runs of one instance ----

  /** A step of this instance, its sweep of old retries, or time passing. */
  predicate IsOwnStep(step: L.Step, i: string) {
    step.SweepExpired? || step.Tick? || (step.Act? && step.i == i && !step.a.Start? && !step.a.Crash?)
  }

  ghost predicate Runs(env: L.Env, i: string, s: L.Sys, steps: seq<L.Step>, s': L.Sys) {
    && (forall k | 0 <= k < |steps| :: IsOwnStep(steps[k], i))
    && L.Valid(env, s, steps) && L.End(env, s, steps) == s'
  }

  ghost predicate Reaches(env: L.Env, i: string, s: L.Sys, s': L.Sys) {
    exists steps :: Runs(env, i, s, steps, s')
  }

  lemma {:induction false} RunsTogether(env: L.Env, s: L.Sys, steps: seq<L.Step>, more: seq<L.Step>)
    requires L.Valid(env, s, steps) && L.Valid(env, L.End(env, s, steps), more)
    ensures L.Valid(env, s, steps + more) && L.End(env, s, steps + more) == L.End(env, L.End(env, s, steps), more)
    decreases |steps|
  {
    if steps == [] {
      assert steps + more == more;
    } else {
      assert (steps + more)[0] == steps[0] && (steps + more)[1..] == steps[1..] + more;
      RunsTogether(env, L.Do(env, s, steps[0]), steps[1..], more);
    }
  }

  lemma ReachesItself(env: L.Env, i: string, s: L.Sys)
    ensures Reaches(env, i, s, s)
  {
    assert Runs(env, i, s, [], s);
  }

  lemma ReachesOn(env: L.Env, i: string, s: L.Sys, u: L.Sys, w: L.Sys)
    requires Reaches(env, i, s, u) && Reaches(env, i, u, w)
    ensures Reaches(env, i, s, w)
  {
    var steps :| Runs(env, i, s, steps, u);
    var more :| Runs(env, i, u, more, w);
    RunsTogether(env, s, steps, more);
    assert forall k | 0 <= k < |steps + more| :: IsOwnStep((steps + more)[k], i);
    assert Runs(env, i, s, steps + more, w);
  }

  /** One more step of a run. */
  lemma Plays(env: L.Env, i: string, s0: L.Sys, s: L.Sys, a: L.Action) returns (s': L.Sys)
    requires Reaches(env, i, s0, s) && L.Allowed(s, L.Inst(s, i), a) && !a.Start? && !a.Crash?
    ensures Reaches(env, i, s0, s') && s'.now == s.now
    ensures s'.store == Exec(s.store, L.StatementOf(i, L.Inst(s, i), a))
    ensures L.Inst(s', i) == L.InstanceAfter(env, s, i, L.Inst(s, i), a)
  {
    s' := L.Do(env, s, L.Act(i, a));
    var steps := [L.Act(i, a)];
    assert steps[1..] == [];
    assert L.Valid(env, s', []) && L.End(env, s', []) == s';
    assert Runs(env, i, s, steps, s');
    ReachesOn(env, i, s0, s, s');
  }

  // ---- mapping ----

  /** What the world maps has a payload, and some version of the row's own route gives that record. */
  ghost predicate Fits(env: L.Env, w: World) {
    forall n: nat, event: EventRow | MappingOf(w, n, event).Mapped? ::
      event.body.payload != []
      && exists version :: env.mapping(event.info.routeId, version, event.body.payload, event.info.receivedAt) == MappingOf(w, n, event).record
  }

  /** The instance is busy with the batch: these events are still to be mapped, these are mapped, with these records. */
  predicate IsBusy(inst: L.Instance, reclaim: bool, claimed: seq<EventRow>, todo: set<Id>, mapped: set<Id>, records: seq<Record>, phase: L.Phase) {
    && inst.Busy? && inst.reclaim == reclaim
    && inst.b.rows.Keys == Elements(Ids(claimed))
    && (forall k | 0 <= k < |claimed| :: claimed[k].id in inst.b.rows && inst.b.rows[claimed[k].id] == claimed[k])
    && inst.b.todo == todo && inst.b.mapped.Keys == mapped && inst.b.records == records && inst.b.phase == phase
  }

  /** The ids from event `n` on. */
  function Todo(claimed: seq<EventRow>, n: nat): set<Id>
    requires n <= |claimed|
  {
    Elements(Ids(claimed[n..]))
  }

  lemma TodoNext(claimed: seq<EventRow>, n: nat)
    requires n < |claimed| && Distinct(Ids(claimed))
    ensures claimed[n].id in Todo(claimed, n) && Todo(claimed, n + 1) == Todo(claimed, n) - {claimed[n].id}
  {
    assert claimed[n..] == [claimed[n]] + claimed[n + 1..];
    assert Ids(claimed[n..])[0] == claimed[n].id;
    forall id | id in Todo(claimed, n) && id != claimed[n].id ensures id in Todo(claimed, n + 1) {
      var k :| 0 <= k < |claimed[n..]| && Ids(claimed[n..])[k] == id;
      assert Ids(claimed[n + 1..])[k - 1] == id;
    }
    forall id | id in Todo(claimed, n + 1) ensures id in Todo(claimed, n) && id != claimed[n].id {
      var k :| 0 <= k < |claimed[n + 1..]| && Ids(claimed[n + 1..])[k] == id;
      assert Ids(claimed[n..])[k + 1] == id;
      assert Ids(claimed)[n + 1 + k] == id && Ids(claimed)[n] == claimed[n].id;
    }
  }

  /** The system after the first `n` events of a batch. */
  ghost predicate MappedAt(w: World, first: nat, s: L.Sys, i: string, reclaim: bool, t: Table, claimed: seq<EventRow>, nexts: seq<Time>, n: nat)
    requires n <= |claimed| && n <= |nexts|
  {
    && s.store == EarlyTable(w, first, t, claimed, nexts, n)
    && IsBusy(L.Inst(s, i), reclaim, claimed, Todo(claimed, n), Elements(Ids(MappedRows(w, first, claimed[..n]))),
              MappedRecords(w, first, claimed[..n]), L.Mapping)
  }

  /** The action that handles an event with this outcome. */
  ghost predicate Handles(env: L.Env, a: L.Action, m: Mapping, event: EventRow, next: Time) {
    match m
    case Mapped(r) => a.MapOne? && a.id == event.id && event.body.payload != []
                      && env.mapping(event.info.routeId, a.version, event.body.payload, event.info.receivedAt) == r
    case Unmappable(reason) => a == L.ParkOne(event.id, reason)
    case EnrichmentFails(message) => a == L.RetryOne(event.id, next, message)
    case Undecodable => false
  }

  lemma EventAction(env: L.Env, w: World, n: nat, event: EventRow, next: Time) returns (a: L.Action)
    requires Fits(env, w) && !MappingOf(w, n, event).Undecodable?
    ensures Handles(env, a, MappingOf(w, n, event), event, next)
  {
    match MappingOf(w, n, event)
    case Mapped(r) =>
      var version :| env.mapping(event.info.routeId, version, event.body.payload, event.info.receivedAt) == r;
      a := L.MapOne(event.id, version);
    case Unmappable(reason) => a := L.ParkOne(event.id, reason);
    case EnrichmentFails(message) => a := L.RetryOne(event.id, next, message);
  }

  lemma HandledEvent(env: L.Env, s: L.Sys, i: string, inst: L.Instance, a: L.Action, m: Mapping, event: EventRow, next: Time,
                     reclaim: bool, claimed: seq<EventRow>, n: nat, todo: set<Id>, mapped: set<Id>, records: seq<Record>)
    requires Handles(env, a, m, event, next) && n < |claimed| && event == claimed[n] && event.id in todo
    requires IsBusy(inst, reclaim, claimed, todo, mapped, records, L.Mapping)
    ensures L.Allowed(s, inst, a) && !a.Start? && !a.Crash?
    ensures L.StatementOf(i, inst, a) == EarlyStatement(m, event.id, next)
    ensures IsBusy(L.InstanceAfter(env, s, i, inst, a), reclaim, claimed, todo - {event.id},
                   if m.Mapped? then mapped + {event.id} else mapped, if m.Mapped? then records + [m.record] else records, L.Mapping)
  {
    assert inst.b.rows[claimed[n].id] == claimed[n];
  }

  lemma ListsGrow(w: World, first: nat, claimed: seq<EventRow>, n: nat)
    requires n < |claimed|
    ensures var m, mapped := MappingOf(w, first + n, claimed[n]), Elements(Ids(MappedRows(w, first, claimed[..n])));
            && Elements(Ids(MappedRows(w, first, claimed[..n + 1]))) == (if m.Mapped? then mapped + {claimed[n].id} else mapped)
            && MappedRecords(w, first, claimed[..n + 1])
               == if m.Mapped? then MappedRecords(w, first, claimed[..n]) + [m.record] else MappedRecords(w, first, claimed[..n])
  {
    var rows := MappedRows(w, first, claimed[..n]);
    EarlyNext(w, first, claimed, n);
    IdsNext(rows, claimed[n]);
    assert Elements(Ids(rows) + [claimed[n].id]) == Elements(Ids(rows)) + {claimed[n].id};
    assert rows + [] == rows && MappedRecords(w, first, claimed[..n]) + [] == MappedRecords(w, first, claimed[..n]);
  }

  lemma MappedAtNext(w: World, first: nat, s: L.Sys, s': L.Sys, i: string, reclaim: bool, t: Table, claimed: seq<EventRow>,
                     nexts: seq<Time>, n: nat, m: Mapping, mapped: set<Id>, records: seq<Record>)
    requires n < |claimed| && n < |nexts| && Distinct(Ids(claimed)) && s.store == EarlyTable(w, first, t, claimed, nexts, n)
    requires m == MappingOf(w, first + n, claimed[n]) && s'.store == Exec(s.store, EarlyStatement(m, claimed[n].id, nexts[n]))
    requires mapped == Elements(Ids(MappedRows(w, first, claimed[..n]))) && records == MappedRecords(w, first, claimed[..n])
    requires IsBusy(L.Inst(s', i), reclaim, claimed, Todo(claimed, n) - {claimed[n].id},
                    if m.Mapped? then mapped + {claimed[n].id} else mapped, if m.Mapped? then records + [m.record] else records, L.Mapping)
    ensures MappedAt(w, first, s', i, reclaim, t, claimed, nexts, n + 1)
  {
    TodoNext(claimed, n);
    ListsGrow(w, first, claimed, n);
  }

  lemma MapsOneMore(env: L.Env, w: World, first: nat, s0: L.Sys, s: L.Sys, i: string, reclaim: bool, t: Table, claimed: seq<EventRow>,
                    nexts: seq<Time>, n: nat) returns (s': L.Sys)
    requires Fits(env, w) && n < |claimed| && n < |nexts| && Distinct(Ids(claimed)) && Reaches(env, i, s0, s)
    requires MappedAt(w, first, s, i, reclaim, t, claimed, nexts, n) && !MappingOf(w, first + n, claimed[n]).Undecodable?
    ensures Reaches(env, i, s0, s') && s'.now == s.now && MappedAt(w, first, s', i, reclaim, t, claimed, nexts, n + 1)
  {
    var m := MappingOf(w, first + n, claimed[n]);
    var mapped, records := Elements(Ids(MappedRows(w, first, claimed[..n]))), MappedRecords(w, first, claimed[..n]);
    var a := EventAction(env, w, first + n, claimed[n], nexts[n]);
    TodoNext(claimed, n);
    HandledEvent(env, s, i, L.Inst(s, i), a, m, claimed[n], nexts[n], reclaim, claimed, n, Todo(claimed, n), mapped, records);
    s' := Plays(env, i, s0, s, a);
    MappedAtNext(w, first, s, s', i, reclaim, t, claimed, nexts, n, m, mapped, records);
  }

  lemma {:induction false} MapsAll(env: L.Env, w: World, first: nat, s: L.Sys, i: string, reclaim: bool, t: Table, claimed: seq<EventRow>,
                                   nexts: seq<Time>, n: nat) returns (s': L.Sys)
    requires Fits(env, w) && n <= |claimed| && n <= |nexts| && Distinct(Ids(claimed))
    requires MappedAt(w, first, s, i, reclaim, t, claimed, nexts, 0)
    requires forall k | 0 <= k < n :: !MappingOf(w, first + k, claimed[k]).Undecodable?
    ensures Reaches(env, i, s, s') && s'.now == s.now && MappedAt(w, first, s', i, reclaim, t, claimed, nexts, n)
    decreases n
  {
    if n == 0 {
      s' := s;
      ReachesItself(env, i, s);
    } else {
      var u := MapsAll(env, w, first, s, i, reclaim, t, claimed, nexts, n - 1);
      s' := MapsOneMore(env, w, first, s, u, i, reclaim, t, claimed, nexts, n - 1);
    }
  }

  // ---- posting and settling ----

  /** The instance is busy with the batch, and these are its mapped events. */
  predicate InPhase(inst: L.Instance, reclaim: bool, claimed: seq<EventRow>, mapped: set<Id>, phase: L.Phase) {
    && inst.Busy? && inst.reclaim == reclaim && inst.b.rows.Keys == Elements(Ids(claimed))
    && inst.b.mapped.Keys == mapped && inst.b.phase == phase
  }

  /** The system in that phase, and its table. */
  predicate PhaseAt(s: L.Sys, i: string, t: Table, reclaim: bool, claimed: seq<EventRow>, mapped: set<Id>, phase: L.Phase) {
    s.store == t && InPhase(L.Inst(s, i), reclaim, claimed, mapped, phase)
  }

  /** Where the instance stands once the post was answered for good. */
  function PhaseOf(reply: Reply): L.Phase {
    if reply.Accepted? then L.Accepted else if IsPermanent(reply) then L.PostRejected else L.PostFailed
  }

  function AnswerOf(reply: Reply): L.PostReply {
    match reply
    case Accepted(_) => L.Reply202
    case Transient(_) => L.ReplyTransient
    case Refused(_, _, _) => if IsPermanent(reply) then L.ReplyRejected else L.ReplyOther
    case OtherError(_) => L.ReplyOther
  }

  /** A step that runs no statement. */
  lemma MovesOn(env: L.Env, i: string, s0: L.Sys, s: L.Sys, t: Table, reclaim: bool, claimed: seq<EventRow>, mapped: set<Id>,
                phase: L.Phase, a: L.Action, next: L.Phase) returns (s': L.Sys)
    requires Reaches(env, i, s0, s) && PhaseAt(s, i, t, reclaim, claimed, mapped, phase)
    requires L.Allowed(s, L.Inst(s, i), a) && (a.DoneMapping? || a.Abort? || a.Post? || a.SettleBreaks?)
    requires L.BatchAfter(env, s, L.Inst(s, i).b, a) == L.Inst(s, i).b.(phase := next)
    ensures Reaches(env, i, s0, s') && s'.now == s.now && PhaseAt(s', i, t, reclaim, claimed, mapped, next)
  {
    NothingIsDone(s.store);
    s' := Plays(env, i, s0, s, a);
  }

  /** A step that runs a statement on rows of the batch. */
  lemma Marks(env: L.Env, i: string, s0: L.Sys, s: L.Sys, t: Table, reclaim: bool, claimed: seq<EventRow>, mapped: set<Id>,
              phase: L.Phase, a: L.Action, st: Statement, next: L.Phase) returns (s': L.Sys)
    requires Reaches(env, i, s0, s) && PhaseAt(s, i, t, reclaim, claimed, mapped, phase)
    requires L.Allowed(s, L.Inst(s, i), a) && L.StatementOf(i, L.Inst(s, i), a) == st
    requires a.SettleAll? || a.SettleRejected? || a.SettleRest? || a.FailBatch? || a.ParkBatch?
    requires L.BatchAfter(env, s, L.Inst(s, i).b, a) == L.Inst(s, i).b.(phase := next)
    ensures Reaches(env, i, s0, s') && s'.now == s.now && PhaseAt(s', i, Exec(t, st), reclaim, claimed, mapped, next)
  {
    s' := Plays(env, i, s0, s, a);
  }

  /** Where the instance stands after one post. */
  lemma PostsOnce(env: L.Env, i: string, s0: L.Sys, s: L.Sys, t: Table, reclaim: bool, claimed: seq<EventRow>, mapped: set<Id>,
                  attempt: nat, reply: Reply) returns (s': L.Sys)
    requires attempt <= IN_REQUEST_RETRIES && Reaches(env, i, s0, s)
    requires PhaseAt(s, i, t, reclaim, claimed, mapped, L.Posting(attempt))
    ensures Reaches(env, i, s0, s') && s'.now == s.now
    ensures PhaseAt(s', i, t, reclaim, claimed, mapped,
                    if reply.Transient? && attempt < IN_REQUEST_RETRIES then L.Posting(attempt + 1) else PhaseOf(reply))
  {
    s' := MovesOn(env, i, s0, s, t, reclaim, claimed, mapped, L.Posting(attempt), L.Post(reply.Accepted?, AnswerOf(reply)),
                  L.AfterReply(AnswerOf(reply), attempt));
  }

  lemma OutcomeIs(w: World, records: seq<Record>, call: nat, attempt: nat)
    requires attempt <= IN_REQUEST_RETRIES
    ensures var reply := w.post(call, records);
            PostOutcome(w, records, call, attempt)
            == if reply.Transient? && attempt < IN_REQUEST_RETRIES then PostOutcome(w, records, call + 1, attempt + 1) else reply
  {
  }

  /** All the posts of a batch. */
  lemma {:induction false} Posts(env: L.Env, w: World, records: seq<Record>, call: nat, attempt: nat, outcome: Reply, i: string, s0: L.Sys,
                                 s: L.Sys, t: Table, reclaim: bool, claimed: seq<EventRow>, mapped: set<Id>) returns (s': L.Sys)
    requires attempt <= IN_REQUEST_RETRIES && Reaches(env, i, s0, s) && outcome == PostOutcome(w, records, call, attempt)
    requires PhaseAt(s, i, t, reclaim, claimed, mapped, L.Posting(attempt))
    ensures Reaches(env, i, s0, s') && s'.now == s.now && PhaseAt(s', i, t, reclaim, claimed, mapped, PhaseOf(outcome))
    decreases IN_REQUEST_RETRIES - attempt
  {
    var reply := w.post(call, records);
    OutcomeIs(w, records, call, attempt);
    s' := PostsOnce(env, i, s0, s, t, reclaim, claimed, mapped, attempt, reply);
    if reply.Transient? && attempt < IN_REQUEST_RETRIES {
      s' := Posts(env, w, records, call + 1, attempt + 1, outcome, i, s0, s', t, reclaim, claimed, mapped);
    }
  }

  /** What a failed attempt to settle the results leaves: the rejected rows may be parked already. */
  lemma Breaks(env: L.Env, w: World, p: nat, q: nat, i: string, s0: L.Sys, s: L.Sys, t: Table, reclaim: bool, claimed: seq<EventRow>,
               batch: seq<EventRow>, reply: Reply, failed: set<string>, partly: bool) returns (s': L.Sys)
    requires Reaches(env, i, s0, s) && PhaseAt(s, i, t, reclaim, claimed, Elements(Ids(batch)), PhaseOf(reply))
    requires Distinct(Ids(batch)) && NotSettled(w, p, q, reply, failed, partly)
    ensures Reaches(env, i, s0, s') && s'.now == s.now
    ensures PhaseAt(s', i, PartTable(t, batch, failed, partly), reclaim, claimed, Elements(Ids(batch)),
                    if IsPermanent(reply) then L.PostRejected else L.PostFailed)
  {
    if !reply.Accepted? {
      s' := s;
    } else if !partly {
      s' := MovesOn(env, i, s0, s, t, reclaim, claimed, Elements(Ids(batch)), L.Accepted, L.SettleBreaks, L.PostFailed);
    } else {
      s' := ParksRejected(env, i, s0, s, t, reclaim, claimed, batch, failed);
      s' := MovesOn(env, i, s0, s', PartTable(t, batch, failed, true), reclaim, claimed, Elements(Ids(batch)),
                    L.RejectsParked(Elements(Ids(Select(failed, batch, false)))), L.SettleBreaks, L.PostFailed);
    }
  }

  lemma ParksRejected(env: L.Env, i: string, s0: L.Sys, s: L.Sys, t: Table, reclaim: bool, claimed: seq<EventRow>, batch: seq<EventRow>,
                      failed: set<string>) returns (s': L.Sys)
    requires Reaches(env, i, s0, s) && PhaseAt(s, i, t, reclaim, claimed, Elements(Ids(batch)), L.Accepted) && Distinct(Ids(batch))
    ensures Reaches(env, i, s0, s') && s'.now == s.now
    ensures PhaseAt(s', i, PartTable(t, batch, failed, true), reclaim, claimed, Elements(Ids(batch)),
                    L.RejectsParked(Elements(Ids(Select(failed, batch, false)))))
  {
    var rejected, good := Elements(Ids(Select(failed, batch, true))), Elements(Ids(Select(failed, batch, false)));
    SplitIds(failed, batch);
    assert Elements(Ids(batch)) - rejected == good;
    s' := Marks(env, i, s0, s, t, reclaim, claimed, Elements(Ids(batch)), L.Accepted, L.SettleRejected(rejected, REJECTED),
                ParkIds(rejected, REJECTED), L.RejectsParked(good));
  }

  lemma SettlesAll(env: L.Env, i: string, s0: L.Sys, s: L.Sys, t: Table, reclaim: bool, claimed: seq<EventRow>, batch: seq<EventRow>,
                   bulk: string, at: Time) returns (s': L.Sys)
    requires Reaches(env, i, s0, s) && PhaseAt(s, i, t, reclaim, claimed, Elements(Ids(batch)), L.Accepted)
    ensures Reaches(env, i, s0, s') && s'.now == s.now
    ensures PhaseAt(s', i, Exec(t, DeliverIds(Elements(Ids(batch)), at, Some(bulk))), reclaim, claimed, Elements(Ids(batch)), L.Releasing)
  {
    s' := Marks(env, i, s0, s, t, reclaim, claimed, Elements(Ids(batch)), L.Accepted, L.SettleAll(at, bulk),
                DeliverIds(Elements(Ids(batch)), at, Some(bulk)), L.Releasing);
  }

  lemma SettlesSplit(env: L.Env, i: string, s0: L.Sys, s: L.Sys, t: Table, reclaim: bool, claimed: seq<EventRow>, batch: seq<EventRow>,
                     bulk: string, failed: set<string>, at: Time) returns (s': L.Sys)
    requires Reaches(env, i, s0, s) && PhaseAt(s, i, t, reclaim, claimed, Elements(Ids(batch)), L.Accepted) && Distinct(Ids(batch))
    ensures Reaches(env, i, s0, s') && s'.now == s.now
    ensures PhaseAt(s', i, Exec(PartTable(t, batch, failed, true), DeliverIds(Elements(Ids(Select(failed, batch, false))), at, Some(bulk))),
                    reclaim, claimed, Elements(Ids(batch)), L.Releasing)
  {
    var good := Elements(Ids(Select(failed, batch, false)));
    s' := ParksRejected(env, i, s0, s, t, reclaim, claimed, batch, failed);
    s' := Marks(env, i, s0, s', PartTable(t, batch, failed, true), reclaim, claimed, Elements(Ids(batch)), L.RejectsParked(good),
                L.SettleRest(at, bulk), DeliverIds(good, at, Some(bulk)), L.Releasing);
  }

  /** The batch as a whole is parked or retried, or even that fails. */
  lemma Fails(env: L.Env, i: string, s0: L.Sys, s: L.Sys, u: Table, reclaim: bool, claimed: seq<EventRow>, batch: seq<EventRow>,
              phase: L.Phase, a: L.Action, t': Table) returns (s': L.Sys)
    requires Reaches(env, i, s0, s) && PhaseAt(s, i, u, reclaim, claimed, Elements(Ids(batch)), phase)
    requires phase.PostRejected? || phase.PostFailed?
    requires || (a.Abort? && t' == u)
             || (a.ParkBatch? && phase.PostRejected? && t' == Exec(u, ParkIds(Elements(Ids(batch)), a.error)))
             || (a.FailBatch? && phase.PostFailed? && t' == Exec(u, FailIds(Elements(Ids(batch)), a.next, a.error)))
    ensures Reaches(env, i, s0, s') && s'.now == s.now
    ensures PhaseAt(s', i, t', reclaim, claimed, Elements(Ids(batch)), L.Releasing)
  {
    if a.Abort? {
      s' := MovesOn(env, i, s0, s, u, reclaim, claimed, Elements(Ids(batch)), phase, a, L.Releasing);
    } else {
      s' := Marks(env, i, s0, s, u, reclaim, claimed, Elements(Ids(batch)), phase, a, L.StatementOf(i, L.Inst(s, i), a), L.Releasing);
    }
  }

  lemma SettlesByFailure(env: L.Env, w: World, p: nat, q: nat, i: string, s0: L.Sys, s: L.Sys, t: Table, reclaim: bool, claimed: seq<EventRow>,
                         batch: seq<EventRow>, reply: Reply, failed: set<string>, partly: bool, a: L.Action, t': Table) returns (s': L.Sys)
    requires Reaches(env, i, s0, s) && PhaseAt(s, i, t, reclaim, claimed, Elements(Ids(batch)), PhaseOf(reply))
    requires Distinct(Ids(batch)) && NotSettled(w, p, q, reply, failed, partly)
    requires var u := PartTable(t, batch, failed, partly);
             || (a.Abort? && t' == u)
             || (a.ParkBatch? && IsPermanent(reply) && t' == Exec(u, ParkIds(Elements(Ids(batch)), a.error)))
             || (a.FailBatch? && !IsPermanent(reply) && t' == Exec(u, FailIds(Elements(Ids(batch)), a.next, a.error)))
    ensures Reaches(env, i, s0, s') && s'.now == s.now
    ensures PhaseAt(s', i, t', reclaim, claimed, Elements(Ids(batch)), L.Releasing)
  {
    s' := Breaks(env, w, p, q, i, s0, s, t, reclaim, claimed, batch, reply, failed, partly);
    s' := Fails(env, i, s0, s', PartTable(t, batch, failed, partly), reclaim, claimed, batch,
                if IsPermanent(reply) then L.PostRejected else L.PostFailed, a, t');
  }

  /** Every end of a posted batch. */
  lemma Settles(env: L.Env, w: World, p: nat, q: nat, i: string, s0: L.Sys, s: L.Sys, t: Table, reclaim: bool, claimed: seq<EventRow>,
                batch: seq<EventRow>, reply: Reply, failed: set<string>, e: Ending) returns (s': L.Sys)
    requires Reaches(env, i, s0, s) && PhaseAt(s, i, t, reclaim, claimed, Elements(Ids(batch)), PhaseOf(reply))
    requires Distinct(Ids(batch)) && batch != [] && Ends(w, p, q, batch, reply, failed, e)
    ensures Reaches(env, i, s0, s') && s'.now == s.now
    ensures PhaseAt(s', i, EndingTable(t, batch, reply, failed, e), reclaim, claimed, Elements(Ids(batch)), L.Releasing)
  {
    var t' := EndingTable(t, batch, reply, failed, e);
    match e
    case AllDelivered(at) => s' := SettlesAll(env, i, s0, s, t, reclaim, claimed, batch, reply.bulk, at);
    case SplitUp(at) => s' := SettlesSplit(env, i, s0, s, t, reclaim, claimed, batch, reply.bulk, failed, at);
    case BatchParked =>
      s' := SettlesByFailure(env, w, p, p, i, s0, s, t, reclaim, claimed, batch, reply, failed, false, L.ParkBatch(ErrorText(reply)), t');
    case BatchRetried(partly, next) =>
      s' := SettlesByFailure(env, w, p, q - 1, i, s0, s, t, reclaim, claimed, batch, reply, failed, partly, L.FailBatch(next, ErrorText(reply)), t');
    case Broken(partly) =>
      s' := SettlesByFailure(env, w, p, q - 1, i, s0, s, t, reclaim, claimed, batch, reply, failed, partly, L.Abort, t');
  }

  // ---- a visit ----

  /** The batch is over, and what it left is about to be released. */
  predicate ReleasingAt(s: L.Sys, i: string, t: Table, reclaim: bool, claimed: seq<EventRow>) {
    && s.store == t
    && var inst := L.Inst(s, i);
       inst.Busy? && inst.reclaim == reclaim && inst.b.rows.Keys == Elements(Ids(claimed)) && inst.b.phase == L.Releasing
  }

  predicate IdleAt(s: L.Sys, i: string, t: Table, reclaim: bool) {
    s.store == t && L.Inst(s, i) == L.Idle(reclaim)
  }

  lemma Claims(env: L.Env, w: World, first: nat, i: string, s0: L.Sys, s: L.Sys, t: Table, t1: Table, reclaim: bool, routeId: string, at: Time,
               limit: nat, until: Time, claimed: seq<EventRow>, nexts: seq<Time>) returns (s': L.Sys)
    requires Reaches(env, i, s0, s) && IdleAt(s, i, t, reclaim) && at <= s.now && claimed != []
    requires IsOldest(t, Due(routeId, at), limit, Ids(claimed))
    requires t1 == Exec(t, ClaimIds(Elements(Ids(claimed)), at, Lease(i, until))) && Holds(t1, claimed)
    ensures Reaches(env, i, s0, s') && s'.now == s.now && MappedAt(w, first, s', i, reclaim, t1, claimed, nexts, 0)
  {
    assert Ids(claimed)[0] == claimed[0].id;
    var a := L.ClaimBatch(routeId, at, limit, Ids(claimed), until);
    s' := Plays(env, i, s0, s, a);
    assert claimed[0..] == claimed && Ids([]) == [];
    ClaimedRows(s, i, a, t1, claimed);
  }

  lemma ClaimedRows(s: L.Sys, i: string, a: L.Action, t1: Table, claimed: seq<EventRow>)
    requires a.ClaimBatch? && a.picked == Ids(claimed) && t1 == Exec(s.store, L.StatementOf(i, L.Idle(false), a)) && Holds(t1, claimed)
    ensures var b := L.ClaimedBatch(s, i, a);
            && b.rows.Keys == Elements(Ids(claimed))
            && forall k | 0 <= k < |claimed| :: claimed[k].id in b.rows && b.rows[claimed[k].id] == claimed[k]
  {
    forall k | 0 <= k < |claimed| ensures claimed[k].id in Elements(Ids(claimed)) {
      assert Ids(claimed)[k] == claimed[k].id;
    }
    forall id | id in Elements(Ids(claimed)) ensures id in t1 {
      var k :| 0 <= k < |claimed| && Ids(claimed)[k] == id;
    }
  }

  /** Mapping gave up, or had nothing to post. */
  lemma GivesUp(env: L.Env, w: World, first: nat, i: string, s0: L.Sys, s: L.Sys, t1: Table, reclaim: bool, claimed: seq<EventRow>,
                nexts: seq<Time>, n: nat) returns (s': L.Sys)
    requires Reaches(env, i, s0, s) && n <= |claimed| && n <= |nexts| && MappedAt(w, first, s, i, reclaim, t1, claimed, nexts, n)
    ensures Reaches(env, i, s0, s') && s'.now == s.now
    ensures ReleasingAt(s', i, EarlyTable(w, first, t1, claimed, nexts, n), reclaim, claimed)
  {
    s' := MovesOn(env, i, s0, s, EarlyTable(w, first, t1, claimed, nexts, n), reclaim, claimed,
                  Elements(Ids(MappedRows(w, first, claimed[..n]))), L.Mapping, L.Abort, L.Releasing);
  }

  /** Mapping is through. */
  lemma DoneMapping(env: L.Env, w: World, first: nat, i: string, s0: L.Sys, s: L.Sys, t1: Table, reclaim: bool, claimed: seq<EventRow>,
                    nexts: seq<Time>, n: nat, batch: seq<EventRow>) returns (s': L.Sys)
    requires Reaches(env, i, s0, s) && n == |claimed| && n <= |nexts| && MappedAt(w, first, s, i, reclaim, t1, claimed, nexts, n)
    requires batch == MappedRows(w, first, claimed)
    ensures Reaches(env, i, s0, s') && s'.now == s.now
    ensures PhaseAt(s', i, EarlyTable(w, first, t1, claimed, nexts, n), reclaim, claimed, Elements(Ids(batch)),
                    if batch == [] then L.Releasing else L.Posting(0))
  {
    assert claimed[..n] == claimed && claimed[n..] == [] && Ids([]) == [];
    RecordPerRow(w, first, claimed);
    s' := MovesOn(env, i, s0, s, EarlyTable(w, first, t1, claimed, nexts, n), reclaim, claimed, Elements(Ids(batch)), L.Mapping,
                  L.DoneMapping, if batch == [] then L.Releasing else L.Posting(0));
  }

  lemma NothingPosted(s: L.Sys, i: string, u: Table, reclaim: bool, claimed: seq<EventRow>, mapped: set<Id>)
    requires PhaseAt(s, i, u, reclaim, claimed, mapped, L.Releasing)
    ensures ReleasingAt(s, i, u, reclaim, claimed)
  {
  }

  lemma PostsAndSettles(env: L.Env, w: World, p: nat, q: nat, call: nat, i: string, s0: L.Sys, s: L.Sys, u: Table, reclaim: bool,
                        claimed: seq<EventRow>, batch: seq<EventRow>, records: seq<Record>, reply: Reply, failed: set<string>, e: Ending)
      returns (s': L.Sys)
    requires Reaches(env, i, s0, s) && PhaseAt(s, i, u, reclaim, claimed, Elements(Ids(batch)), L.Posting(0))
    requires Distinct(Ids(batch)) && batch != [] && reply == PostOutcome(w, records, call, 0) && Ends(w, p, q, batch, reply, failed, e)
    ensures Reaches(env, i, s0, s') && s'.now == s.now && ReleasingAt(s', i, EndingTable(u, batch, reply, failed, e), reclaim, claimed)
  {
    s' := Posts(env, w, records, call, 0, reply, i, s0, s, u, reclaim, claimed, Elements(Ids(batch)));
    s' := Settles(env, w, p, q, i, s0, s', u, reclaim, claimed, batch, reply, failed, e);
  }

  /** If mapping went through the whole batch, its end is that of the answers. */
  predicate EndsIfThrough(w: World, a: Calls, b: Calls, r: BatchRun) {
    |r.nexts| == |r.claimed| ==>
      Ends(w, a.store + |EarlyLog(w, a.mapped, Handled(r))|, b.store, MappedRows(w, a.mapped, r.claimed), ReplyOf(w, a, r.claimed),
           FailedOf(w, a, r.claimed), r.ending)
  }

  /** What the account of a batch says of its events and of its end. */
  ghost predicate Playable(w: World, a: Calls, b: Calls, r: BatchRun) {
    && (forall k | 0 <= k < |r.nexts| :: !MappingOf(w, a.mapped + k, r.claimed[k]).Undecodable?)
    && EndsIfThrough(w, a, b, r)
  }

  lemma BatchIsPlayable(w: World, a: Calls, b: Calls, r: BatchRun, since: Time, wait: nat -> int)
    requires BatchOk(w, a, b, r, since, wait)
    ensures Playable(w, a, b, r)
  {
    forall k | 0 <= k < |r.nexts| ensures !MappingOf(w, a.mapped + k, r.claimed[k]).Undecodable? {
      assert Handled(r)[k] == r.claimed[k];
    }
  }

  /** A batch whose mapping went through: to its end. */
  lemma GoesOn(env: L.Env, w: World, first: nat, call: nat, p: nat, q: nat, i: string, s0: L.Sys, s: L.Sys, t1: Table, reclaim: bool,
               claimed: seq<EventRow>, nexts: seq<Time>, n: nat, batch: seq<EventRow>, records: seq<Record>, reply: Reply,
               failed: set<string>, e: Ending) returns (s': L.Sys)
    requires Reaches(env, i, s0, s) && Distinct(Ids(claimed)) && n == |claimed| && n <= |nexts|
    requires MappedAt(w, first, s, i, reclaim, t1, claimed, nexts, n)
    requires batch == MappedRows(w, first, claimed) && reply == PostOutcome(w, records, call, 0) && Ends(w, p, q, batch, reply, failed, e)
    ensures Reaches(env, i, s0, s') && s'.now == s.now
    ensures ReleasingAt(s', i, EndingTable(EarlyTable(w, first, t1, claimed, nexts, n), batch, reply, failed, e), reclaim, claimed)
  {
    var u := EarlyTable(w, first, t1, claimed, nexts, n);
    s' := DoneMapping(env, w, first, i, s0, s, t1, reclaim, claimed, nexts, n, batch);
    if batch == [] {
      NothingPosted(s', i, u, reclaim, claimed, Elements(Ids(batch)));
    } else {
      MappedIds(w, first, claimed);
      s' := PostsAndSettles(env, w, p, q, call, i, s0, s', u, reclaim, claimed, batch, records, reply, failed, e);
    }
  }

  lemma StoppedTable(w: World, a: Calls, t1: Table, r: BatchRun)
    requires |r.nexts| < |r.claimed|
    ensures BatchTable(w, a, t1, r) == EarlyTable(w, a.mapped, t1, r.claimed, r.nexts, |r.nexts|)
  {
  }

  lemma EndIs(w: World, a: Calls, b: Calls, t1: Table, r: BatchRun)
      returns (p: nat, batch: seq<EventRow>, records: seq<Record>, reply: Reply, failed: set<string>)
    requires |r.nexts| == |r.claimed| && EndsIfThrough(w, a, b, r)
    ensures batch == MappedRows(w, a.mapped, r.claimed) && reply == PostOutcome(w, records, a.post, 0)
    ensures Ends(w, p, b.store, batch, reply, failed, r.ending)
    ensures BatchTable(w, a, t1, r) == EndingTable(EarlyTable(w, a.mapped, t1, r.claimed, r.nexts, |r.nexts|), batch, reply, failed, r.ending)
  {
    p := a.store + |EarlyLog(w, a.mapped, Handled(r))|;
    batch, records := MappedRows(w, a.mapped, r.claimed), MappedRecords(w, a.mapped, r.claimed);
    reply, failed := ReplyOf(w, a, r.claimed), FailedOf(w, a, r.claimed);
  }

  /** From the mapped events to the release: posting, settling, or giving up. */
  lemma Finishes(env: L.Env, w: World, a: Calls, b: Calls, i: string, s0: L.Sys, s: L.Sys, t1: Table, reclaim: bool, r: BatchRun, n: nat)
      returns (s': L.Sys)
    requires Reaches(env, i, s0, s) && Distinct(Ids(r.claimed)) && EndsIfThrough(w, a, b, r) && n == |r.nexts|
    requires MappedAt(w, a.mapped, s, i, reclaim, t1, r.claimed, r.nexts, n)
    ensures Reaches(env, i, s0, s') && s'.now == s.now && ReleasingAt(s', i, BatchTable(w, a, t1, r), reclaim, r.claimed)
  {
    if n < |r.claimed| {
      StoppedTable(w, a, t1, r);
      s' := GivesUp(env, w, a.mapped, i, s0, s, t1, reclaim, r.claimed, r.nexts, n);
    } else {
      var p, batch, records, reply, failed := EndIs(w, a, b, t1, r);
      s' := GoesOn(env, w, a.mapped, a.post, p, b.store, i, s0, s, t1, reclaim, r.claimed, r.nexts, n, batch, records, reply, failed, r.ending);
    }
  }

  lemma Releases(env: L.Env, i: string, s0: L.Sys, s: L.Sys, t: Table, reclaim: bool, claimed: seq<EventRow>, released: Option<Time>)
      returns (s': L.Sys)
    requires Reaches(env, i, s0, s) && ReleasingAt(s, i, t, reclaim, claimed)
    ensures Reaches(env, i, s0, s') && s'.now == s.now
    ensures IdleAt(s', i, ReleaseTable(t, Elements(Ids(claimed)), released), reclaim || released.None?)
  {
    NothingIsDone(t);
    s' := Plays(env, i, s0, s, if released.Some? then L.Release(released.value, LEFT) else L.ReleaseBreaks);
  }

  lemma BatchPlays(env: L.Env, w: World, i: string, s0: L.Sys, s: L.Sys, t1: Table, reclaim: bool, a: Calls, b: Calls, r: BatchRun,
                   released: Option<Time>) returns (s': L.Sys)
    requires Fits(env, w) && Reaches(env, i, s0, s) && Distinct(Ids(r.claimed)) && Playable(w, a, b, r)
    requires MappedAt(w, a.mapped, s, i, reclaim, t1, r.claimed, r.nexts, 0)
    ensures Reaches(env, i, s0, s') && s'.now == s.now
    ensures IdleAt(s', i, ReleaseTable(BatchTable(w, a, t1, r), Elements(Ids(r.claimed)), released), reclaim || released.None?)
  {
    s' := MapsAll(env, w, a.mapped, s, i, reclaim, t1, r.claimed, r.nexts, |r.nexts|);
    ReachesOn(env, i, s0, s, s');
    s' := Finishes(env, w, a, b, i, s0, s', t1, reclaim, r, |r.nexts|);
    s' := Releases(env, i, s0, s', BatchTable(w, a, t1, r), reclaim, r.claimed, released);
  }

  lemma ClaimHolds(w: World, terms: Terms, at: Time, t: Table, v: Visit)
    requires Indexed(t) && VisitOk(w, terms, at, t, v) && v.Visited?
    ensures IsOldest(t, Due(v.routeId, at), terms.limit, Ids(v.run.claimed)) && Holds(ClaimTable(terms, at, t, v), v.run.claimed)
    ensures Playable(w, Start(v), v.settled, v.run)
  {
    ClaimedAreHeld(terms, at, t, v, terms.limit);
    BatchIsPlayable(w, Start(v), v.settled, v.run, v.since, terms.wait);
  }

  lemma VisitedIsRun(env: L.Env, w: World, terms: Terms, at: Time, s0: L.Sys, s: L.Sys, t: Table, t1: Table, v: Visit, reclaim: bool)
      returns (s': L.Sys)
    requires Fits(env, w) && Reaches(env, terms.me, s0, s) && at <= s.now && IdleAt(s, terms.me, t, reclaim)
    requires v.Visited? && v.run.claimed != [] && IsOldest(t, Due(v.routeId, at), terms.limit, Ids(v.run.claimed))
    requires t1 == Exec(t, ClaimIds(Elements(Ids(v.run.claimed)), at, Lease(terms.me, v.since + terms.leaseMs)))
    requires Holds(t1, v.run.claimed) && Playable(w, Start(v), v.settled, v.run)
    ensures Reaches(env, terms.me, s0, s') && s'.now == s.now
    ensures IdleAt(s', terms.me, ReleaseTable(BatchTable(w, Start(v), t1, v.run), Elements(Ids(v.run.claimed)), v.released),
                   reclaim || v.released.None?)
  {
    s' := Claims(env, w, Start(v).mapped, terms.me, s0, s, t, t1, reclaim, v.routeId, at, terms.limit, v.since + terms.leaseMs,
                 v.run.claimed, v.run.nexts);
    s' := BatchPlays(env, w, terms.me, s0, s', t1, reclaim, Start(v), v.settled, v.run, v.released);
  }

  lemma VisitedEnds(w: World, terms: Terms, at: Time, t: Table, v: Visit, owner: Option<string>)
    requires v.Visited? && v.run.claimed != []
    ensures VisitTable(w, terms, at, t, v)
         == ReleaseTable(BatchTable(w, Start(v), ClaimTable(terms, at, t, v), v.run), Elements(Ids(v.run.claimed)), v.released)
    ensures FlagAfter(owner, terms.me, v).Some? == (owner.Some? || v.released.None?)
  {
    FlagOf(owner, terms.me, v);
  }

  /** What the account of a visit says of its table and of the flag. */
  ghost predicate VisitPlays(w: World, terms: Terms, at: Time, t: Table, v: Visit, t': Table, reclaim: bool, flag: bool) {
    if Claimed(v) == [] then t' == t && flag == reclaim
    else
      var t1 := Exec(t, ClaimIds(Elements(Ids(v.run.claimed)), at, Lease(terms.me, v.since + terms.leaseMs)));
      && IsOldest(t, Due(v.routeId, at), terms.limit, Ids(v.run.claimed)) && Holds(t1, v.run.claimed)
      && Playable(w, Start(v), v.settled, v.run)
      && t' == ReleaseTable(BatchTable(w, Start(v), t1, v.run), Elements(Ids(v.run.claimed)), v.released)
      && flag == (reclaim || v.released.None?)
  }

  lemma VisitPlayed(w: World, terms: Terms, at: Time, t: Table, v: Visit, owner: Option<string>)
    requires Indexed(t) && VisitOk(w, terms, at, t, v)
    ensures VisitPlays(w, terms, at, t, v, VisitTable(w, terms, at, t, v), owner.Some?, FlagAfter(owner, terms.me, v).Some?)
  {
    if Claimed(v) == [] {
      NoClaimNoChange(w, terms, at, t, v, owner);
    } else {
      ClaimHolds(w, terms, at, t, v);
      VisitedEnds(w, terms, at, t, v, owner);
    }
  }

  lemma PlaysVisit(env: L.Env, w: World, terms: Terms, at: Time, s0: L.Sys, s: L.Sys, t: Table, v: Visit, t': Table, reclaim: bool, flag: bool)
      returns (s': L.Sys)
    requires Fits(env, w) && Reaches(env, terms.me, s0, s) && at <= s.now
    requires IdleAt(s, terms.me, t, reclaim) && VisitPlays(w, terms, at, t, v, t', reclaim, flag)
    ensures Reaches(env, terms.me, s0, s') && s'.now == s.now && IdleAt(s', terms.me, t', flag)
  {
    if Claimed(v) == [] {
      s' := s;
    } else {
      var t1 := Exec(t, ClaimIds(Elements(Ids(v.run.claimed)), at, Lease(terms.me, v.since + terms.leaseMs)));
      s' := VisitedIsRun(env, w, terms, at, s0, s, t, t1, v, reclaim);
    }
  }

  /** A visit is a run of the instance, from idle to idle, with the same table and flag at its end. */
  lemma VisitIsRun(env: L.Env, w: World, terms: Terms, at: Time, s0: L.Sys, s: L.Sys, t: Table, v: Visit, owner: Option<string>)
      returns (s': L.Sys)
    requires Fits(env, w) && Reaches(env, terms.me, s0, s) && Indexed(t) && at <= s.now
    requires IdleAt(s, terms.me, t, owner.Some?) && VisitOk(w, terms, at, t, v)
    ensures Reaches(env, terms.me, s0, s') && s'.now == s.now
    ensures IdleAt(s', terms.me, VisitTable(w, terms, at, t, v), FlagAfter(owner, terms.me, v).Some?)
  {
    VisitPlayed(w, terms, at, t, v, owner);
    s' := PlaysVisit(env, w, terms, at, s0, s, t, v, VisitTable(w, terms, at, t, v), owner.Some?, FlagAfter(owner, terms.me, v).Some?);
  }

  lemma NoClaimNoChange(w: World, terms: Terms, at: Time, t: Table, v: Visit, owner: Option<string>)
    requires VisitOk(w, terms, at, t, v) && Claimed(v) == []
    ensures VisitTable(w, terms, at, t, v) == t && FlagAfter(owner, terms.me, v) == owner
  {
    if v.Visited? {
      assert Ids(v.run.claimed) == [] && Elements(Ids(v.run.claimed)) == {};
      NoneClaimed(t, at, LeaseOf(terms, v));
      assert IsEmptyRun(v.run);
      EmptyBatch(w, Start(v), ClaimTable(terms, at, t, v), v.run, v.since, terms.wait);
    }
  }

  lemma NoneClaimed(t: Table, at: Time, lease: Lease)
    ensures Exec(t, ClaimIds({}, at, lease)) == t
  {
  }

  // ---- a cycle, a flush ----

  lemma {:induction false} VisitsAreRun(env: L.Env, w: World, terms: Terms, at: Time, s0: L.Sys, s: L.Sys, t: Table, visits: seq<Visit>,
                                        a: Calls, owner: Option<string>) returns (s': L.Sys)
    requires Fits(env, w) && Reaches(env, terms.me, s0, s) && Indexed(t) && at <= s.now
    requires IdleAt(s, terms.me, t, owner.Some?) && VisitsOk(w, terms, at, t, visits, a)
    ensures Reaches(env, terms.me, s0, s') && s'.now == s.now
    ensures IdleAt(s', terms.me, CycleTable(w, terms, at, t, visits), FlagAfterAll(owner, terms.me, visits).Some?)
    decreases |visits|
  {
    if visits == [] {
      s' := s;
    } else {
      var before := visits[..|visits| - 1];
      s' := VisitsAreRun(env, w, terms, at, s0, s, t, before, a, owner);
      CycleKeeps(w, terms, at, t, before, a);
      s' := VisitIsRun(env, w, terms, at, s0, s', CycleTable(w, terms, at, t, before), visits[|visits| - 1], FlagAfterAll(owner, terms.me, before));
    }
  }

  lemma OtherStep(env: L.Env, i: string, s0: L.Sys, s: L.Sys, step: L.Step) returns (s': L.Sys)
    requires Reaches(env, i, s0, s) && L.Enabled(s, step) && (step.Tick? || step.SweepExpired?)
    ensures Reaches(env, i, s0, s') && s' == L.Do(env, s, step)
  {
    s' := L.Do(env, s, step);
    var steps := [step];
    assert steps[1..] == [];
    assert L.Valid(env, s', []) && L.End(env, s', []) == s';
    assert Runs(env, i, s, steps, s');
    ReachesOn(env, i, s0, s, s');
  }

  /** The clock may have to go on before the next cycle. */
  lemma Waits(env: L.Env, i: string, s0: L.Sys, s: L.Sys, at: Time) returns (s': L.Sys)
    requires Reaches(env, i, s0, s)
    ensures Reaches(env, i, s0, s') && s'.now >= at && s'.store == s.store && L.Inst(s', i) == L.Inst(s, i)
  {
    NothingIsDone(s.store);
    s' := OtherStep(env, i, s0, s, L.Tick(Max(s.now, at)));
  }

  lemma Recovers(env: L.Env, i: string, s0: L.Sys, s: L.Sys, t: Table, at: Time, owner: Option<string>) returns (s': L.Sys)
    requires Reaches(env, i, s0, s) && at <= s.now && IdleAt(s, i, t, owner.Some?) && (owner.Some? ==> owner.value == i)
    ensures Reaches(env, i, s0, s') && s'.now == s.now && IdleAt(s', i, Exec(t, RecoverRows(at, owner)), false)
  {
    s' := Plays(env, i, s0, s, L.Recover(at));
  }

  lemma HouseIsRun(env: L.Env, w: World, cfg: Settings, i: string, s0: L.Sys, s: L.Sys, t: Table, at: Time, owner: Option<string>,
                   sweep: bool, call: nat) returns (s': L.Sys)
    requires Reaches(env, i, s0, s) && at <= s.now && IdleAt(s, i, t, owner.Some?) && (owner.Some? ==> owner.value == i)
    ensures Reaches(env, i, s0, s') && s'.now == s.now
    ensures IdleAt(s', i, HouseKept(w, cfg, t, at, owner, sweep, call), OwnerKept(w, owner, sweep, call).Some?)
  {
    s' := s;
    if (owner.Some? || sweep) && StoreUp(w, call) {
      s' := Recovers(env, i, s0, s, t, at, owner);
      if sweep && StoreUp(w, call + 1) {
        s' := OtherStep(env, i, s0, s', L.SweepExpired(at, cfg.parkAfterMs));
      }
    }
  }

  /** A cycle, however it ends, is a run of the instance: the same table, and the reclaim flag, at its end. */
  lemma CycleIsRun(env: L.Env, w: World, cfg: Settings, terms: Terms, s0: L.Sys, s: L.Sys, c: CycleRun) returns (s': L.Sys)
    requires Fits(env, w) && Reaches(env, terms.me, s0, s) && Indexed(c.was) && CycleOk(w, cfg, terms, c)
    requires IdleAt(s, terms.me, c.was, c.owner.Some?) && (c.owner.Some? ==> c.owner.value == terms.me)
    ensures Reaches(env, terms.me, s0, s') && IdleAt(s', terms.me, c.after, OwnerAfter(w, terms, c).Some?)
  {
    CycleVisits(w, cfg, terms, c);
    KeptIndexed(w, cfg, c);
    s' := Waits(env, terms.me, s0, s, c.at);
    s' := HouseIsRun(env, w, cfg, terms.me, s0, s', c.was, c.at, c.owner, c.sweep, c.a.store);
    s' := VisitsAreRun(env, w, terms, c.at, s0, s', Kept(w, cfg, c), c.visits, Opening(w, c), OwnerKept(w, c.owner, c.sweep, c.a.store));
  }

  /** What the protocol proves of every run holds of a table that a run of this instance reaches. */
  ghost predicate Stands(env: L.Env, s: L.Sys, t: Table, id: Id) {
    && id in s.origin && id in t && s.origin[id].info == t[id].info
    && exists rec :: L.Sent(id, rec) in s.accepted && L.MappedFrom(env, s.origin[id], rec) && L.Holds(s.server, rec)
  }

  lemma ReachedIsTraced(env: L.Env, i: string, s0: L.Sys, before: seq<L.Step>, s': L.Sys, id: Id)
    requires L.Init(s0) && L.Valid(env, s0, before) && Reaches(env, i, L.End(env, s0, before), s')
    requires id in s'.store && s'.store[id].status == Delivered
    ensures Stands(env, s', s'.store, id)
  {
    var steps :| Runs(env, i, L.End(env, s0, before), steps, s');
    RunsTogether(env, s0, before, steps);
    L.DeliveredOnlyIfAccepted(env, s0, before + steps, id);
  }

  /**
   A cycle of an idle instance, at any point of any run of any number of instances: whatever fails, a row delivered when
   the cycle is over stands for an accepted post of a record that its own route mapped from the payload it came with.
   */
  lemma CycleDeliversOnlyAccepted(env: L.Env, w: World, cfg: Settings, terms: Terms, s0: L.Sys, before: seq<L.Step>, c: CycleRun)
      returns (s': L.Sys)
    requires L.Init(s0) && L.Valid(env, s0, before) && Fits(env, w) && Indexed(c.was) && CycleOk(w, cfg, terms, c)
    requires IdleAt(L.End(env, s0, before), terms.me, c.was, c.owner.Some?) && (c.owner.Some? ==> c.owner.value == terms.me)
    ensures Reaches(env, terms.me, L.End(env, s0, before), s') && IdleAt(s', terms.me, c.after, OwnerAfter(w, terms, c).Some?)
    ensures forall id | id in c.after && c.after[id].status == Delivered :: Stands(env, s', c.after, id)
  {
    var s := L.End(env, s0, before);
    ReachesItself(env, terms.me, s);
    s' := CycleIsRun(env, w, cfg, terms, s, s, c);
    forall id | id in c.after && c.after[id].status == Delivered ensures Stands(env, s', c.after, id) {
      ReachedIsTraced(env, terms.me, s0, before, s', id);
    }
  }
}
