/**
 The claim / map / POST / settle / release protocol of any number of dispatcher instances over one
 store, as a state machine whose steps are single store calls, single POSTs and environment moves
 (ingest, clock, crash, restart, operator replay, pruning). Steps of different instances interleave
 freely; an instance is named by its `instanceId`, so the ids of one system are distinct.
 */
module LeaseProtocol {
  import opened Prelude
  import opened EventTable

  const IN_REQUEST_RETRIES := 2

  datatype Record = Record(streamKey: string, externalId: string, body: Bytes)

  /**
   The record that a route makes of a payload received at a time. The dispatcher reads the route's document anew for
   each batch; `version` names the document it found, and what the host's enrichments returned.
   */
  datatype Env = Env(mapping: (string, string, Bytes, Time) -> Record)

  /** An accepted POST carried `record` for the row `id`. */
  datatype Sent = Sent(id: Id, record: Record)

  datatype Phase =
    | Mapping                       // some claimed events are not mapped yet
    | Posting(tries: nat)           // about to POST for the (tries+1)-th time
    | Accepted                      // the POST was accepted, results not settled
    | RejectsParked(ok: set<Id>)    // rejected rows parked, `ok` still to be marked delivered
    | PostRejected                  // 400/422: the whole batch parks
    | PostFailed                    // anything else: the whole batch retries
    | Releasing                     // the finally block

  datatype Batch = Batch(
    rows: map<Id, EventRow>,        // the copies claimDue returned
    todo: set<Id>,
    mapped: map<Id, Record>,
    records: seq<Record>,
    until: Time,
    phase: Phase)

  datatype Instance = Down | Idle(reclaim: bool) | Busy(reclaim: bool, b: Batch)

  datatype Sys = Sys(
    now: Time,
    store: Table,
    nextId: Id,
    origin: map<Id, NewEvent>,      // every event ever stored, as ingested
    insts: map<string, Instance>,
    accepted: set<Sent>,
    server: seq<Record>)

  datatype PostReply = Reply202 | ReplyTransient | ReplyRejected | ReplyOther

  /** What one instance does next. A store call that fails changes nothing but the control flow. */
  datatype Action =
    | Start
    | Crash
    | Recover(at: Time)
    | ClaimBatch(routeId: string, at: Time, limit: nat, picked: seq<Id>, until: Time)
    | MapOne(id: Id, version: string)
    | ParkOne(id: Id, error: string)
    | RetryOne(id: Id, next: Time, error: string)
    | DoneMapping
    | Abort
    | Post(stored: bool, reply: PostReply)
    | SettleAll(at: Time, bulk: string)
    | SettleRejected(rejected: set<Id>, error: string)
    | SettleRest(at: Time, bulk: string)
    | SettleBreaks
    | FailBatch(next: Time, error: string)
    | ParkBatch(error: string)
    | Release(at: Time, error: string)
    | ReleaseBreaks

  datatype Step =
    | Act(i: string, a: Action)
    | Tick(to: Time)
    | Ingest(e: NewEvent)
    | SweepExpired(at: Time, maxAgeMs: int)
    | ReplayOne(id: Id)
    | ReplayAll
    | PruneWipe(at: Time, deliveredDays: int, ids: set<Id>)
    | PruneDelete(at: Time, ledgerDays: int, ids: set<Id>)

  // ---- one instance ----

  predicate InPhase(inst: Instance, p: Phase) {
    inst.Busy? && inst.b.phase == p
  }

  predicate Allowed(s: Sys, inst: Instance, a: Action) {
    match a
    case Start => inst.Down?
    case Crash => true
    case Recover(at) => inst.Idle? && at <= s.now
    case ClaimBatch(routeId, at, limit, picked, until) =>
      inst.Idle? && at <= s.now && picked != [] && IsOldest(s.store, Due(routeId, at), limit, picked)
    case MapOne(id, version) =>
      // An empty payload neither decrypts nor parses: such an event aborts the batch instead.
      && InPhase(inst, Mapping) && id in inst.b.todo
      && id in inst.b.rows && inst.b.rows[id].body.payload != []
    case ParkOne(id, error) => InPhase(inst, Mapping) && id in inst.b.todo
    case RetryOne(id, next, error) => InPhase(inst, Mapping) && id in inst.b.todo
    case DoneMapping => InPhase(inst, Mapping) && inst.b.todo == {}
    case Abort =>
      // An undecodable payload, or a failed store call: deliverBatch throws.
      inst.Busy? && (inst.b.phase.Mapping? || inst.b.phase.PostFailed? || inst.b.phase.PostRejected?)
    case Post(stored, reply) =>
      && inst.Busy? && inst.b.phase.Posting?
      && (reply.Reply202? ==> stored) && (reply.ReplyRejected? ==> !stored)
    case SettleAll(at, bulk) => InPhase(inst, Accepted)
    case SettleRejected(rejected, error) => InPhase(inst, Accepted) && rejected <= inst.b.mapped.Keys
    case SettleRest(at, bulk) => inst.Busy? && inst.b.phase.RejectsParked?
    case SettleBreaks => inst.Busy? && (inst.b.phase.Accepted? || inst.b.phase.RejectsParked?)
    case FailBatch(next, error) => InPhase(inst, PostFailed)
    case ParkBatch(error) => InPhase(inst, PostRejected)
    case Release(at, error) => InPhase(inst, Releasing)
    case ReleaseBreaks => InPhase(inst, Releasing)
  }

  /** The statement the action runs. */
  function StatementOf(i: string, inst: Instance, a: Action): Statement {
    match a
    case Recover(at) => RecoverRows(at, if inst.Idle? && inst.reclaim then Some(i) else None)
    case ClaimBatch(_, at, _, picked, until) => ClaimIds(Elements(picked), at, Lease(i, until))
    case ParkOne(id, error) => ParkIds({id}, error)
    case RetryOne(id, next, error) => FailIds({id}, next, error)
    case SettleAll(at, bulk) => if inst.Busy? then DeliverIds(inst.b.mapped.Keys, at, Some(bulk)) else Nothing
    case SettleRejected(rejected, error) => ParkIds(rejected, error)
    case SettleRest(at, bulk) =>
      if inst.Busy? && inst.b.phase.RejectsParked? then DeliverIds(inst.b.phase.ok, at, Some(bulk)) else Nothing
    case FailBatch(next, error) => if inst.Busy? then FailIds(inst.b.mapped.Keys, next, error) else Nothing
    case ParkBatch(error) => if inst.Busy? then ParkIds(inst.b.mapped.Keys, error) else Nothing
    case Release(at, error) => if inst.Busy? then ReleaseIds(inst.b.rows.Keys, at, error) else Nothing
    case _ => Nothing
  }

  function AfterReply(reply: PostReply, tries: nat): Phase {
    match reply
    case Reply202 => Accepted
    case ReplyTransient => if tries < IN_REQUEST_RETRIES then Posting(tries + 1) else PostFailed
    case ReplyRejected => PostRejected
    case ReplyOther => PostFailed
  }

  function Mapped(env: Env, b: Batch, id: Id, version: string): Batch
    requires id in b.rows
  {
    var rec := env.mapping(b.rows[id].info.routeId, version, b.rows[id].body.payload, b.rows[id].info.receivedAt);
    b.(todo := b.todo - {id}, mapped := b.mapped[id := rec], records := b.records + [rec])
  }

  /** The batch after a step that keeps it in flight. */
  function BatchAfter(env: Env, s: Sys, b: Batch, a: Action): Batch
    requires Allowed(s, Busy(false, b), a)
  {
    match a
    case MapOne(id, version) => Mapped(env, b, id, version)
    case ParkOne(id, _) => b.(todo := b.todo - {id})
    case RetryOne(id, _, _) => b.(todo := b.todo - {id})
    case DoneMapping => b.(phase := if b.records == [] then Releasing else Posting(0))
    case Abort => b.(phase := Releasing)
    case Post(_, reply) => b.(phase := AfterReply(reply, b.phase.tries))
    case SettleAll(_, _) => b.(phase := Releasing)
    case SettleRejected(rejected, _) => b.(phase := RejectsParked(b.mapped.Keys - rejected))
    case SettleRest(_, _) => b.(phase := Releasing)
    case SettleBreaks => b.(phase := PostFailed)
    case FailBatch(_, _) => b.(phase := Releasing)
    case ParkBatch(_) => b.(phase := Releasing)
    case _ => b
  }

  function ClaimedBatch(s: Sys, i: string, a: Action): Batch
    requires a.ClaimBatch?
  {
    var store := Exec(s.store, StatementOf(i, Idle(false), a));
    Batch(map id | id in Elements(a.picked) && id in store :: store[id],
          Elements(a.picked), map[], [], a.until, Mapping)
  }

  function InstanceAfter(env: Env, s: Sys, i: string, inst: Instance, a: Action): Instance
    requires Allowed(s, inst, a)
  {
    match a
    case Start => Idle(true)
    case Crash => Down
    case Recover(_) => Idle(false)
    case ClaimBatch(_, _, _, _, _) => Busy(inst.reclaim, ClaimedBatch(s, i, a))
    case Release(_, _) => Idle(inst.reclaim)
    case ReleaseBreaks => Idle(true)
    case _ => Busy(inst.reclaim, BatchAfter(env, s, inst.b, a))
  }

  // ---- the server ----

  predicate SameRecord(a: Record, b: Record) {
    a.streamKey == b.streamKey && a.externalId == b.externalId
  }

  predicate Holds(server: seq<Record>, r: Record) {
    exists k :: 0 <= k < |server| && SameRecord(server[k], r)
  }

  /** `on_conflict: skip`: a record whose stream and external id are already present is not stored. */
  function StoreRecords(server: seq<Record>, records: seq<Record>): seq<Record>
    decreases |records|
  {
    if records == [] then server
    else StoreRecords(if Holds(server, records[0]) then server else server + [records[0]], records[1..])
  }

  // ---- the system ----

  function Inst(s: Sys, i: string): Instance {
    if i in s.insts then s.insts[i] else Down
  }

  predicate Enabled(s: Sys, step: Step) {
    match step
    case Act(i, a) => Allowed(s, Inst(s, i), a)
    case Tick(to) => to >= s.now
    case Ingest(e) => e.body.payload != [] && (e.status == Pending || e.status == DroppedByFilter)
    case SweepExpired(at, _) => at <= s.now
    case ReplayOne(_) => true
    case ReplayAll => true
    case PruneWipe(at, days, ids) => at <= s.now && ids <= Where(s.store, Wipeable(WipeCutoff(at, days)))
    case PruneDelete(at, days, ids) => at <= s.now && ids <= Where(s.store, Deletable(DeleteCutoff(at, days)))
  }

  /**
   Nothing keeps things from going wrong, or an operator from interfering: an instance may crash at any time and start
   again, a batch may break off, a post may get any reply after it was stored, its settling and its release may fail, and
   rows may be replayed at any time.
   */
  lemma AnythingMayHappen(s: Sys, i: string, reply: PostReply, id: Id, to: Time)
    ensures Enabled(s, Act(i, Crash)) && (Inst(s, i).Down? ==> Enabled(s, Act(i, Start)))
    ensures Enabled(s, ReplayOne(id)) && Enabled(s, ReplayAll) && (to >= s.now ==> Enabled(s, Tick(to)))
    ensures Inst(s, i).Busy? ==>
              match Inst(s, i).b.phase
              case Mapping => Enabled(s, Act(i, Abort))
              case Posting(_) =>
                && (!reply.ReplyRejected? ==> Enabled(s, Act(i, Post(true, reply))))
                && (!reply.Reply202? ==> Enabled(s, Act(i, Post(false, reply))))
              case Accepted => Enabled(s, Act(i, SettleBreaks))
              case RejectsParked(_) => Enabled(s, Act(i, SettleBreaks))
              case PostFailed => Enabled(s, Act(i, Abort))
              case PostRejected => Enabled(s, Act(i, Abort))
              case Releasing => Enabled(s, Act(i, ReleaseBreaks))
  {
  }

  function StepStatement(s: Sys, step: Step): Statement {
    match step
    case Act(i, a) => StatementOf(i, Inst(s, i), a)
    case Tick(_) => Nothing
    case Ingest(e) => Insert(s.nextId, e)
    case SweepExpired(at, maxAgeMs) => ExpireRows(ParkCutoff(at, maxAgeMs))
    case ReplayOne(id) => ReplayRow(id, s.now)
    case ReplayAll => ReplayRows(s.now)
    case PruneWipe(_, _, ids) => WipeIds(ids)
    case PruneDelete(_, _, ids) => DeleteIds(ids)
  }

  /** Whether the step is a POST the server stored. */
  predicate Stores(s: Sys, step: Step) {
    step.Act? && step.a.Post? && step.a.stored && Inst(s, step.i).Busy?
  }

  predicate Adds(s: Sys, step: Step) {
    step.Ingest? && !HasKey(s.store, step.e.info.key)
  }

  function SentBy(b: Batch): set<Sent> {
    set id | id in b.mapped :: Sent(id, b.mapped[id])
  }

  function Do(env: Env, s: Sys, step: Step): Sys
    requires Enabled(s, step)
  {
    Sys(
      if step.Tick? then step.to else s.now,
      Exec(s.store, StepStatement(s, step)),
      if Adds(s, step) then s.nextId + 1 else s.nextId,
      if Adds(s, step) then s.origin[s.nextId := step.e] else s.origin,
      if step.Act? then s.insts[step.i := InstanceAfter(env, s, step.i, Inst(s, step.i), step.a)] else s.insts,
      if Stores(s, step) then s.accepted + SentBy(Inst(s, step.i).b) else s.accepted,
      if Stores(s, step) then StoreRecords(s.server, Inst(s, step.i).b.records) else s.server)
  }

  ghost predicate Valid(env: Env, s: Sys, steps: seq<Step>)
    decreases |steps|
  {
    steps == [] || (Enabled(s, steps[0]) && Valid(env, Do(env, s, steps[0]), steps[1..]))
  }

  ghost function End(env: Env, s: Sys, steps: seq<Step>): Sys
    requires Valid(env, s, steps)
    decreases |steps|
  {
    if steps == [] then s else End(env, Do(env, s, steps[0]), steps[1..])
  }

  ghost predicate Init(s: Sys) {
    s.store == map[] && s.origin == map[] && s.insts == map[] && s.accepted == {} && s.server == []
  }

  // ---- provenance: what a delivered row stands for ----

  ghost predicate MappedFrom(env: Env, e: NewEvent, rec: Record) {
    exists version :: rec == env.mapping(e.info.routeId, version, e.body.payload, e.info.receivedAt)
  }

  ghost predicate WasSent(accepted: set<Sent>, id: Id) {
    exists rec :: Sent(id, rec) in accepted
  }

  /** A row still is the event it was ingested as; its payload may have been wiped. */
  predicate IsEvent(r: EventRow, e: NewEvent) {
    r.info == e.info && (r.body.payload == e.body.payload || r.body.payload == [])
  }

  ghost predicate RowsTraced(s: Sys) {
    && Keyed(s.store)
    && (forall id :: id in s.origin ==> id < s.nextId && s.origin[id].body.payload != [])
    && (forall id :: id in s.store ==> id in s.origin && IsEvent(s.store[id], s.origin[id]))
  }

  ghost predicate BatchTraced(env: Env, origin: map<Id, NewEvent>, accepted: set<Sent>, b: Batch) {
    && (forall id :: id in b.rows ==> id in origin && IsEvent(b.rows[id], origin[id]))
    && (forall id :: id in b.mapped ==>
          id in origin && MappedFrom(env, origin[id], b.mapped[id]) && b.mapped[id] in b.records)
    && (b.phase.Accepted? || b.phase.RejectsParked? ==> SentBy(b) <= accepted)
    && (b.phase.RejectsParked? ==> b.phase.ok <= b.mapped.Keys)
  }

  ghost predicate BatchesTraced(env: Env, s: Sys) {
    forall i :: Inst(s, i).Busy? ==> BatchTraced(env, s.origin, s.accepted, Inst(s, i).b)
  }

  ghost predicate DeliveriesTraced(env: Env, s: Sys) {
    && (forall x :: x in s.accepted ==> x.id in s.origin && MappedFrom(env, s.origin[x.id], x.record))
    && (forall id :: id in s.store && s.store[id].status == Delivered ==> WasSent(s.accepted, id))
  }

  ghost predicate ServerTraced(s: Sys) {
    && (forall j, k :: 0 <= j < k < |s.server| ==> !SameRecord(s.server[j], s.server[k]))
    && (forall x :: x in s.accepted ==> Holds(s.server, x.record))
  }

  ghost predicate Traced(env: Env, s: Sys) {
    RowsTraced(s) && BatchesTraced(env, s) && DeliveriesTraced(env, s) && ServerTraced(s)
  }

  lemma OriginGrows(env: Env, s: Sys, step: Step)
    requires RowsTraced(s) && Enabled(s, step)
    ensures forall id :: id in s.origin ==>
              id in Do(env, s, step).origin && Do(env, s, step).origin[id] == s.origin[id]
    ensures s.accepted <= Do(env, s, step).accepted
  {
  }

  lemma RowsStayTraced(env: Env, s: Sys, step: Step)
    requires RowsTraced(s) && Enabled(s, step)
    ensures RowsTraced(Do(env, s, step))
  {
    var s', st := Do(env, s, step), StepStatement(s, step);
    ExecKeepsKeyed(s.store, st);
    forall id | id in s'.store ensures id in s'.origin && IsEvent(s'.store[id], s'.origin[id]) {
      if id in s.store {
        RowAfterFacts(s.store[id], st);
      }
    }
  }

  lemma BatchStaysTraced(env: Env, s: Sys, inst: Instance, a: Action)
    requires inst.Busy? && BatchTraced(env, s.origin, s.accepted, inst.b) && Allowed(s, inst, a)
    ensures BatchTraced(env, s.origin, if a.Post? && a.stored then s.accepted + SentBy(inst.b) else s.accepted,
                        BatchAfter(env, s, inst.b, a))
  {
    var b' := BatchAfter(env, s, inst.b, a);
    if a.MapOne? {
      assert MappedFrom(env, s.origin[a.id], b'.mapped[a.id]);
    } else {
      assert b'.mapped == inst.b.mapped && SentBy(b') == SentBy(inst.b);
    }
  }

  lemma ClaimTraced(env: Env, s: Sys, i: string, a: Action)
    requires RowsTraced(s) && a.ClaimBatch?
    ensures BatchTraced(env, s.origin, s.accepted, ClaimedBatch(s, i, a))
  {
    var b := ClaimedBatch(s, i, a);
    forall id | id in b.rows ensures id in s.origin && IsEvent(b.rows[id], s.origin[id]) {
      RowAfterFacts(s.store[id], StatementOf(i, Idle(false), a));
    }
  }

  lemma TracedGrows(env: Env, origin: map<Id, NewEvent>, origin': map<Id, NewEvent>,
                    accepted: set<Sent>, accepted': set<Sent>, b: Batch)
    requires BatchTraced(env, origin, accepted, b)
    requires forall id :: id in origin ==> id in origin' && origin'[id] == origin[id]
    requires accepted <= accepted'
    ensures BatchTraced(env, origin', accepted', b)
  {
  }

  lemma BatchesStayTraced(env: Env, s: Sys, step: Step)
    requires RowsTraced(s) && BatchesTraced(env, s) && Enabled(s, step)
    ensures BatchesTraced(env, Do(env, s, step))
  {
    var s' := Do(env, s, step);
    OriginGrows(env, s, step);
    forall i | Inst(s', i).Busy? ensures BatchTraced(env, s'.origin, s'.accepted, Inst(s', i).b) {
      if step.Act? && step.i == i {
        if step.a.ClaimBatch? {
          ClaimTraced(env, s, i, step.a);
        } else {
          BatchStaysTraced(env, s, Inst(s, i), step.a);
        }
      } else {
        TracedGrows(env, s.origin, s'.origin, s.accepted, s'.accepted, Inst(s, i).b);
      }
    }
  }

  /** Only a mark of the batch whose record was accepted delivers a row. */
  lemma NewlyDelivered(env: Env, s: Sys, step: Step, id: Id)
    requires RowsTraced(s) && BatchesTraced(env, s) && Enabled(s, step) && id in s.store && s.store[id].status != Delivered
    requires RowAfter(s.store[id], StepStatement(s, step)).status == Delivered
    ensures WasSent(Do(env, s, step).accepted, id)
  {
    RowAfterFacts(s.store[id], StepStatement(s, step));
    var b := Inst(s, step.i).b;
    assert BatchTraced(env, s.origin, s.accepted, b);
    assert Sent(id, b.mapped[id]) in SentBy(b);
  }

  lemma DeliveriesStayTraced(env: Env, s: Sys, step: Step)
    requires RowsTraced(s) && BatchesTraced(env, s) && DeliveriesTraced(env, s) && Enabled(s, step)
    ensures DeliveriesTraced(env, Do(env, s, step))
  {
    var s' := Do(env, s, step);
    forall id | id in s'.store && s'.store[id].status == Delivered ensures WasSent(s'.accepted, id) {
      if id in s.store {
        if s.store[id].status == Delivered {
          assert WasSent(s.accepted, id);
          SentStays(env, s, step, id);
        } else {
          NewlyDelivered(env, s, step, id);
        }
      }
    }
  }

  lemma SentStays(env: Env, s: Sys, step: Step, id: Id)
    requires Enabled(s, step) && WasSent(s.accepted, id)
    ensures WasSent(Do(env, s, step).accepted, id)
  {
    var rec :| Sent(id, rec) in s.accepted;
    assert Sent(id, rec) in Do(env, s, step).accepted;
  }

  lemma {:induction false} StoreRecordsSkips(server: seq<Record>, records: seq<Record>)
    requires forall j, k :: 0 <= j < k < |server| ==> !SameRecord(server[j], server[k])
    ensures var out := StoreRecords(server, records);
            && (forall j, k :: 0 <= j < k < |out| ==> !SameRecord(out[j], out[k]))
            && (forall r :: Holds(server, r) ==> Holds(out, r))
            && (forall r :: r in records ==> Holds(out, r))
            && server <= out && forall r :: r in out ==> r in server || r in records
    decreases |records|
  {
    if records != [] {
      var first := records[0];
      var server1 := if Holds(server, first) then server else server + [first];
      forall r | Holds(server, r) ensures Holds(server1, r) {
        var k :| 0 <= k < |server| && SameRecord(server[k], r);
        assert SameRecord(server1[k], r);
      }
      if !Holds(server, first) {
        assert SameRecord(server1[|server|], first);
      }
      StoreRecordsSkips(server1, records[1..]);
      forall r | r in records ensures Holds(StoreRecords(server, records), r) {
        assert r == first || r in records[1..];
      }
    }
  }

  lemma ServerStaysTraced(env: Env, s: Sys, step: Step)
    requires BatchesTraced(env, s) && ServerTraced(s) && Enabled(s, step)
    ensures ServerTraced(Do(env, s, step))
  {
    if Stores(s, step) {
      var b := Inst(s, step.i).b;
      assert BatchTraced(env, s.origin, s.accepted, b);
      StoreRecordsSkips(s.server, b.records);
    }
  }

  lemma StaysTraced(env: Env, s: Sys, step: Step)
    requires Traced(env, s) && Enabled(s, step)
    ensures Traced(env, Do(env, s, step))
  {
    RowsStayTraced(env, s, step);
    BatchesStayTraced(env, s, step);
    DeliveriesStayTraced(env, s, step);
    ServerStaysTraced(env, s, step);
  }

  lemma {:induction false} RunsStayTraced(env: Env, s: Sys, steps: seq<Step>)
    requires Traced(env, s) && Valid(env, s, steps)
    ensures Traced(env, End(env, s, steps))
    decreases |steps|
  {
    if steps != [] {
      StaysTraced(env, s, steps[0]);
      RunsStayTraced(env, Do(env, s, steps[0]), steps[1..]);
    }
  }

  /**
   In every run - any number of instances, crashes at any point, failing store calls, lost replies,
   expired leases, marks of stale batches - a delivered row stands for an accepted POST that carried
   a record that the row's own route mapped from the payload it was ingested with.
   */
  lemma DeliveredOnlyIfAccepted(env: Env, s: Sys, steps: seq<Step>, id: Id)
    requires Init(s) && Valid(env, s, steps)
    requires id in End(env, s, steps).store && End(env, s, steps).store[id].status == Delivered
    ensures var t := End(env, s, steps);
            id in t.origin && t.origin[id].info == t.store[id].info
            && exists rec :: Sent(id, rec) in t.accepted && MappedFrom(env, t.origin[id], rec) && Holds(t.server, rec)
  {
    RunsStayTraced(env, s, steps);
    var t := End(env, s, steps);
    assert WasSent(t.accepted, id);
    var rec :| Sent(id, rec) in t.accepted;
    assert MappedFrom(env, t.origin[id], Sent(id, rec).record) && Holds(t.server, Sent(id, rec).record);
  }

  /** However often batches are sent again, the server keeps one record per stream and external id. */
  lemma AtMostOneRecord(env: Env, s: Sys, steps: seq<Step>, j: nat, k: nat)
    requires Init(s) && Valid(env, s, steps)
    requires j < k < |End(env, s, steps).server|
    ensures var a, b := End(env, s, steps).server[j], End(env, s, steps).server[k];
            a.streamKey != b.streamKey || a.externalId != b.externalId
  {
    RunsStayTraced(env, s, steps);
  }

  /** The server changes only by a post it stored, whatever became of the reply; then it holds each of the records. */
  lemma ServerHoldsWhatWasPosted(env: Env, s: Sys, step: Step)
    requires Traced(env, s) && Enabled(s, step)
    ensures var s' := Do(env, s, step);
            if step.Act? && step.a.Post? && step.a.stored then
              && s.server <= s'.server
              && (forall r | r in Inst(s, step.i).b.records ::
                    exists k | 0 <= k < |s'.server| :: s'.server[k].streamKey == r.streamKey && s'.server[k].externalId == r.externalId)
              && forall r | r in s'.server :: r in s.server || r in Inst(s, step.i).b.records
            else s'.server == s.server && s'.accepted == s.accepted
  {
    if step.Act? && step.a.Post? && step.a.stored {
      var records := Inst(s, step.i).b.records;
      StoreRecordsSkips(s.server, records);
      forall r | r in records
        ensures exists k | 0 <= k < |Do(env, s, step).server| ::
                  Do(env, s, step).server[k].streamKey == r.streamKey && Do(env, s, step).server[k].externalId == r.externalId
      {
        var k :| 0 <= k < |Do(env, s, step).server| && SameRecord(Do(env, s, step).server[k], r);
      }
    }
  }

  // ---- reclaiming one's own rows ----

  /** Whether the instance knows of the row it left in 'delivering': by its flag or as part of its batch. */
  predicate Knows(inst: Instance, id: Id) {
    match inst
    case Down => true   // the constructor raises the flag
    case Idle(reclaim) => reclaim
    case Busy(reclaim, b) => reclaim || id in b.rows
  }

  /** The row is being delivered by the instance. */
  predicate IsOwnedBy(t: Table, id: Id, i: string) {
    id in t && t[id].status == Delivering && t[id].claimedBy == Some(i)
  }

  ghost predicate Reclaimable(s: Sys) {
    forall i, id | IsOwnedBy(s.store, id, i) :: Knows(Inst(s, i), id)
  }

  /** A claim is known to the instance that made it, and to it alone. */
  lemma ClaimIsKnown(s: Sys, j: string, a: Action, i: string, id: Id)
    requires Keyed(s.store) && a.ClaimBatch? && Allowed(s, Inst(s, j), a)
    requires IsOwnedBy(Exec(s.store, StatementOf(j, Inst(s, j), a)), id, i) && id in Elements(a.picked)
    ensures i == j && id in ClaimedBatch(s, j, a).rows
  {
  }

  lemma BatchKeepsRows(env: Env, s: Sys, b: Batch, a: Action)
    requires Allowed(s, Busy(false, b), a)
    ensures BatchAfter(env, s, b, a).rows == b.rows
  {
  }

  /** Recovery by owner and the release at the end of a batch leave the instance none of the rows they are for. */
  lemma GivesUp(s: Sys, i: string, a: Action, id: Id)
    requires Keyed(s.store) && Allowed(s, Inst(s, i), a) && IsOwnedBy(s.store, id, i)
    requires (a.Recover? && Inst(s, i).reclaim) || (a.Release? && id in Inst(s, i).b.rows)
    ensures !IsOwnedBy(Exec(s.store, StatementOf(i, Inst(s, i), a)), id, i)
  {
  }

  /** Whatever else an instance does, it knows of the rows it still owns. */
  lemma OwnStaysKnown(env: Env, s: Sys, i: string, a: Action, id: Id)
    requires Keyed(s.store) && Allowed(s, Inst(s, i), a) && Knows(Inst(s, i), id)
    requires IsOwnedBy(s.store, id, i) && IsOwnedBy(Exec(s.store, StatementOf(i, Inst(s, i), a)), id, i)
    ensures Knows(InstanceAfter(env, s, i, Inst(s, i), a), id)
  {
    if a.Recover? || a.Release? {
      if (a.Recover? && Inst(s, i).reclaim) || (a.Release? && id in Inst(s, i).b.rows) {
        GivesUp(s, i, a, id);
      }
    } else if Inst(s, i).Busy? && !a.Start? && !a.Crash? && !a.ReleaseBreaks? && !a.ClaimBatch? {
      BatchKeepsRows(env, s, Inst(s, i).b, a);
    }
  }

  lemma OwnedRowIsKnown(env: Env, s: Sys, step: Step, i: string, id: Id)
    requires Keyed(s.store) && Reclaimable(s) && Enabled(s, step) && IsOwnedBy(Do(env, s, step).store, id, i)
    ensures Knows(Inst(Do(env, s, step), i), id)
  {
    var st := StepStatement(s, step);
    if id in s.store {
      RowAfterFacts(s.store[id], st);
      assert (st.ClaimIds? && id in st.ids) || IsOwnedBy(s.store, id, i);
      if step.Act? && step.a.ClaimBatch? && id in Elements(step.a.picked) {
        ClaimIsKnown(s, step.i, step.a, i, id);
      } else if step.Act? && step.i == i {
        OwnStaysKnown(env, s, i, step.a, id);
      }
    }
  }

  lemma StaysReclaimable(env: Env, s: Sys, step: Step)
    requires Keyed(s.store) && Reclaimable(s) && Enabled(s, step)
    ensures Reclaimable(Do(env, s, step))
  {
    var s' := Do(env, s, step);
    forall i, id | IsOwnedBy(s'.store, id, i) ensures Knows(Inst(s', i), id) {
      OwnedRowIsKnown(env, s, step, i, id);
    }
  }

  lemma {:induction false} RunsStayReclaimable(env: Env, s: Sys, steps: seq<Step>)
    requires Traced(env, s) && Reclaimable(s) && Valid(env, s, steps)
    ensures Reclaimable(End(env, s, steps))
    decreases |steps|
  {
    if steps != [] {
      StaysTraced(env, s, steps[0]);
      StaysReclaimable(env, s, steps[0]);
      RunsStayReclaimable(env, Do(env, s, steps[0]), steps[1..]);
    }
  }

  /**
   At every cycle boundary of every run: an instance whose reclaim flag is down owns no row in
   'delivering', so nothing it left behind waits for a lease to expire.
   */
  lemma NothingLeftWithoutFlag(env: Env, s: Sys, steps: seq<Step>, i: string, id: Id)
    requires Init(s) && Valid(env, s, steps)
    requires Inst(End(env, s, steps), i) == Idle(false)
    requires id in End(env, s, steps).store && End(env, s, steps).store[id].status == Delivering
    ensures End(env, s, steps).store[id].claimedBy != Some(i)
  {
    assert forall i, id :: !IsOwnedBy(s.store, id, i);
    RunsStayReclaimable(env, s, steps);
    assert !IsOwnedBy(End(env, s, steps).store, id, i);
  }
}
