/**
 The events table and the statements the SQL store runs against it.

 A table maps ids to rows; every operation below is one statement (or one transaction), so it either
 happens as written or not at all. Times are milliseconds: the timestamps of the program have one
 fixed format whose text order is their time order.
 */
module EventTable {
  import opened Prelude

  type Id = nat
  type Time = int
  type Bytes = seq<bv8>

  const DAY_MS := 86_400_000
  const ERROR_CHARS := 500

  datatype Status = Pending | Retry | Delivering | Delivered | Parked | DroppedByFilter

  datatype Lease = Lease(owner: string, until: Time)

  /** What a webhook is, fixed at ingest. */
  datatype EventInfo = EventInfo(
    routeId: string,
    source: string,
    eventId: string,
    eventType: Option<string>,
    receivedAt: Time,
    key: string)

  /** What it carried, as the payload codec encoded it; retention wipes it. */
  datatype Body = Body(payload: Bytes, iv: Option<Bytes>, headersJson: string)

  datatype NewEvent = NewEvent(info: EventInfo, body: Body, status: Status)

  datatype EventRow = EventRow(
    id: Id,
    info: EventInfo,
    body: Body,
    status: Status,
    attempts: nat,
    nextAttemptAt: Option<Time>,
    deliveredAt: Option<Time>,
    bulkRequestId: Option<string>,
    lastError: Option<string>,
    claimedBy: Option<string>,
    leaseUntil: Option<Time>)

  type Table = map<Id, EventRow>

  // ---- rows ----

  predicate IsQueued(r: EventRow) {
    r.status == Pending || r.status == Retry
  }

  predicate IsDue(r: EventRow, now: Time) {
    IsQueued(r) && r.nextAttemptAt.Some? && r.nextAttemptAt.value <= now
  }

  predicate IsTerminal(r: EventRow) {
    r.status == Delivered || r.status == DroppedByFilter
  }

  function Clip(error: string): string {
    if |error| <= ERROR_CHARS then error else error[..ERROR_CHARS]
  }

  function NewRow(id: Id, e: NewEvent): EventRow {
    EventRow(id, e.info, e.body, e.status, 0, Some(e.info.receivedAt), None, None, None, None, None)
  }

  function ClaimedRow(r: EventRow, now: Time, lease: Lease): EventRow {
    r.(status := Delivering, nextAttemptAt := Some(now),
       claimedBy := Some(lease.owner), leaseUntil := Some(lease.until))
  }

  function DeliveredRow(r: EventRow, at: Time, bulk: Option<string>): EventRow {
    r.(status := Delivered, deliveredAt := Some(at), bulkRequestId := bulk, lastError := None,
       claimedBy := None, leaseUntil := None)
  }

  function FailedRow(r: EventRow, next: Time, error: string): EventRow {
    r.(status := Retry, attempts := r.attempts + 1, nextAttemptAt := Some(next),
       lastError := Some(Clip(error)), claimedBy := None, leaseUntil := None)
  }

  function ParkedRow(r: EventRow, error: string): EventRow {
    r.(status := Parked, lastError := Some(Clip(error)), claimedBy := None, leaseUntil := None)
  }

  function RecoveredRow(r: EventRow, now: Time): EventRow {
    r.(status := Retry, nextAttemptAt := Some(now), claimedBy := None, leaseUntil := None)
  }

  function ExpiredRow(r: EventRow): EventRow {
    r.(status := Parked, lastError := Some("retry window exhausted"))
  }

  function RequeuedRow(r: EventRow, now: Time): EventRow {
    r.(status := Retry, attempts := 0, nextAttemptAt := Some(now), lastError := None)
  }

  function WipedRow(r: EventRow): EventRow {
    r.(body := Body([], None, "{}"))
  }

  // ---- WHERE clauses ----

  datatype Filter =
    | Due(routeId: string, now: Time)
    | AnyDue(now: Time)
    | Recoverable(now: Time, owner: Option<string>)
    | Expired(cutoff: Time)
    | Wipeable(cutoff: Time)
    | Deletable(cutoff: Time)
    | IsParked
  {
    predicate Admits(r: EventRow) {
      match this
      case Due(routeId, now) => r.info.routeId == routeId && IsDue(r, now)
      case AnyDue(now) => IsDue(r, now)
      case Recoverable(now, owner) =>
        && r.status == Delivering
        && (|| r.leaseUntil.None?
            || r.leaseUntil.value < now
            || (owner.Some? && r.claimedBy == owner))
      case Expired(cutoff) => r.status == Retry && r.info.receivedAt < cutoff
      case Wipeable(cutoff) => IsTerminal(r) && r.info.receivedAt < cutoff && |r.body.payload| > 0
      case Deletable(cutoff) => IsTerminal(r) && r.info.receivedAt < cutoff
      case IsParked => r.status == Parked
    }
  }

  /** The ids a WHERE clause selects. */
  function Where(t: Table, f: Filter): set<Id> {
    set id | id in t && f.Admits(t[id])
  }

  /** `picked` is what `WHERE f ORDER BY id ASC LIMIT limit` returns. */
  predicate IsOldest(t: Table, f: Filter, limit: nat, picked: seq<Id>) {
    && (forall i, j :: 0 <= i < j < |picked| ==> picked[i] < picked[j])
    && (forall id :: id in picked ==> id in Where(t, f))
    && |picked| <= limit
    && (forall id :: id in Where(t, f) && id !in picked ==>
          |picked| == limit && forall p :: p in picked ==> p < id)
  }

  // ---- statements ----

  predicate HasKey(t: Table, key: string) {
    exists id :: id in t && t[id].info.key == key
  }

  datatype Statement =
    | Nothing
    | Insert(id: Id, e: NewEvent)
    | ClaimIds(ids: set<Id>, now: Time, lease: Lease)
    | DeliverIds(ids: set<Id>, at: Time, bulk: Option<string>)
    | FailIds(ids: set<Id>, next: Time, error: string)
    | ParkIds(ids: set<Id>, error: string)
    | ReleaseIds(ids: set<Id>, next: Time, error: string)
    | RecoverRows(now: Time, owner: Option<string>)
    | ExpireRows(cutoff: Time)
    | ReplayRow(id: Id, now: Time)
    | ReplayRows(now: Time)
    | WipeIds(ids: set<Id>)
    | DeleteIds(ids: set<Id>)

  /** What a statement's SET clause leaves of one row. */
  function RowAfter(r: EventRow, st: Statement): EventRow {
    match st
    case Nothing => r
    case Insert(_, _) => r
    case ClaimIds(ids, now, lease) => if r.id in ids then ClaimedRow(r, now, lease) else r
    case DeliverIds(ids, at, bulk) => if r.id in ids then DeliveredRow(r, at, bulk) else r
    case FailIds(ids, next, error) => if r.id in ids then FailedRow(r, next, error) else r
    case ParkIds(ids, error) => if r.id in ids then ParkedRow(r, error) else r
    case ReleaseIds(ids, next, error) =>
      if r.id in ids && r.status == Delivering then FailedRow(r, next, error) else r
    case RecoverRows(now, owner) => if Recoverable(now, owner).Admits(r) then RecoveredRow(r, now) else r
    case ExpireRows(cutoff) => if Expired(cutoff).Admits(r) then ExpiredRow(r) else r
    case ReplayRow(id, now) => if r.id == id && r.status == Parked then RequeuedRow(r, now) else r
    case ReplayRows(now) => if r.status == Parked then RequeuedRow(r, now) else r
    case WipeIds(ids) => if r.id in ids then WipedRow(r) else r
    case DeleteIds(_) => r
  }

  function Exec(t: Table, st: Statement): Table {
    if st.Insert? then
      if HasKey(t, st.e.info.key) then t else t[st.id := NewRow(st.id, st.e)]
    else
      map id | id in t && !(st.DeleteIds? && t[id].id in st.ids) :: RowAfter(t[id], st)
  }

  function ParkCutoff(now: Time, maxAgeMs: int): Time {
    now - maxAgeMs
  }

  function WipeCutoff(now: Time, deliveredDays: int): Time {
    now - deliveredDays * DAY_MS
  }

  function DeleteCutoff(now: Time, ledgerDays: int): Time {
    now - ledgerDays * DAY_MS
  }

  // ---- what every statement keeps ----

  predicate Indexed(t: Table) {
    forall id :: id in t ==> t[id].id == id
  }

  /** A row sits under its own id and an idempotency key names one row. */
  predicate Keyed(t: Table) {
    && Indexed(t)
    && (forall a, b :: a in t && b in t && t[a].info.key == t[b].info.key ==> a == b)
  }

  /** A lease is present exactly on the rows being delivered. */
  predicate Leased(t: Table) {
    forall id :: id in t ==>
      && (t[id].status == Delivering <==> t[id].leaseUntil.Some?)
      && (t[id].status == Delivering <==> t[id].claimedBy.Some?)
  }

  /** No statement changes which event a row is. */
  predicate SameEvent(r: EventRow, r': EventRow) {
    r'.id == r.id && r'.info == r.info
  }

  lemma RowAfterFacts(r: EventRow, st: Statement)
    ensures SameEvent(r, RowAfter(r, st))
    ensures RowAfter(r, st).body == r.body || (st.WipeIds? && r.id in st.ids && RowAfter(r, st).body.payload == [])
    ensures RowAfter(r, st).status == Delivered ==>
              r.status == Delivered || (st.DeliverIds? && r.id in st.ids)
    ensures RowAfter(r, st).status == Delivering ==>
              (st.ClaimIds? && r.id in st.ids)
              || (r.status == Delivering && RowAfter(r, st).claimedBy == r.claimedBy && RowAfter(r, st).leaseUntil == r.leaseUntil)
  {
  }

  /** The rows a statement names. */
  function Targets(st: Statement): set<Id> {
    match st
    case ClaimIds(ids, _, _) => ids
    case DeliverIds(ids, _, _) => ids
    case FailIds(ids, _, _) => ids
    case ParkIds(ids, _) => ids
    case ReleaseIds(ids, _, _) => ids
    case WipeIds(ids) => ids
    case DeleteIds(ids) => ids
    case ReplayRow(id, _) => {id}
    case _ => {}
  }

  lemma UntargetedRow(r: EventRow, st: Statement)
    requires r.id !in Targets(st)
    requires !st.RecoverRows? && !st.ExpireRows? && !st.ReplayRows?
    ensures RowAfter(r, st) == r
  {
  }

  /** Keys stay unique under every statement, as long as a new row gets an unused id. */
  lemma ExecKeepsKeyed(t: Table, st: Statement)
    requires Keyed(t)
    requires st.Insert? ==> st.id !in t
    ensures Keyed(Exec(t, st))
  {
    if !st.Insert? {
      forall id | id in Exec(t, st) ensures SameEvent(t[id], Exec(t, st)[id]) {
        RowAfterFacts(t[id], st);
      }
    }
  }

  lemma ExecKeepsLeased(t: Table, st: Statement)
    requires Leased(t)
    requires st.Insert? ==> st.e.status != Delivering
    ensures Leased(Exec(t, st))
  {
  }
}
