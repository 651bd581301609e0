/**
 What each statement says, column by column: the WHERE clause over a row's own columns, and the columns its SET clause
 writes; every other column, and every other row, stays as it was.
 */
module Statements {
  import opened Prelude
  import opened EventTable

  /** The columns of a row that no statement writes but retention. */
  predicate SameOrigin(r: EventRow, r': EventRow) {
    r'.id == r.id && r'.info == r.info && r'.body == r.body
  }

  predicate Unleased(r: EventRow) {
    r.claimedBy.None? && r.leaseUntil.None?
  }

  predicate SameLease(r: EventRow, r': EventRow) {
    r'.claimedBy == r.claimedBy && r'.leaseUntil == r.leaseUntil
  }

  /** The outcome of an earlier delivery. */
  predicate SameDelivery(r: EventRow, r': EventRow) {
    r'.deliveredAt == r.deliveredAt && r'.bulkRequestId == r.bulkRequestId
  }

  /** Errors are cut after 500 characters. */
  predicate IsError(text: Option<string>, error: string) {
    && text.Some? && text.value <= error
    && (|error| <= 500 ==> text.value == error) && (|error| > 500 ==> |text.value| == 500)
  }

  lemma ClipIs(error: string)
    ensures IsError(Some(Clip(error)), error)
  {
  }

  /** The rows are those there were, and exactly these are written. */
  ghost predicate Writes(t: Table, t': Table, written: set<Id>) {
    t'.Keys == t.Keys && forall id | id in t && id !in written :: t'[id] == t[id]
  }

  lemma Claims(t: Table, ids: set<Id>, now: Time, lease: Lease)
    requires Indexed(t)
    ensures var t' := Exec(t, ClaimIds(ids, now, lease));
            && Writes(t, t', ids)
            && forall id | id in t && id in ids ::
                 var r, r' := t[id], t'[id];
                 && SameOrigin(r, r') && SameDelivery(r, r') && r'.attempts == r.attempts && r'.lastError == r.lastError
                 && r'.status == Delivering && r'.nextAttemptAt == Some(now)
                 && r'.claimedBy == Some(lease.owner) && r'.leaseUntil == Some(lease.until)
  {
  }

  lemma Delivers(t: Table, ids: set<Id>, at: Time, bulk: Option<string>)
    requires Indexed(t)
    ensures var t' := Exec(t, DeliverIds(ids, at, bulk));
            && Writes(t, t', ids)
            && forall id | id in t && id in ids ::
                 var r, r' := t[id], t'[id];
                 && SameOrigin(r, r') && Unleased(r') && r'.attempts == r.attempts && r'.nextAttemptAt == r.nextAttemptAt
                 && r'.status == Delivered && r'.deliveredAt == Some(at) && r'.bulkRequestId == bulk && r'.lastError == None
  {
  }

  /** The columns of a row that is to be tried again. */
  predicate TriedAgain(r: EventRow, r': EventRow, next: Time, error: string) {
    && SameOrigin(r, r') && SameDelivery(r, r') && Unleased(r')
    && r'.status == Retry && r'.attempts == r.attempts + 1 && r'.nextAttemptAt == Some(next) && IsError(r'.lastError, error)
  }

  lemma Fails(t: Table, ids: set<Id>, next: Time, error: string)
    requires Indexed(t)
    ensures var t' := Exec(t, FailIds(ids, next, error));
            Writes(t, t', ids) && forall id | id in t && id in ids :: TriedAgain(t[id], t'[id], next, error)
  {
    ClipIs(error);
  }

  /** A release writes the listed rows that are being delivered, and leaves settled ones alone. */
  lemma Releases(t: Table, ids: set<Id>, next: Time, error: string)
    requires Indexed(t)
    ensures var t' := Exec(t, ReleaseIds(ids, next, error));
            && t'.Keys == t.Keys
            && forall id | id in t ::
                 if id in ids && t[id].status == Delivering then TriedAgain(t[id], t'[id], next, error) else t'[id] == t[id]
  {
    ClipIs(error);
  }

  lemma Parks(t: Table, ids: set<Id>, error: string)
    requires Indexed(t)
    ensures var t' := Exec(t, ParkIds(ids, error));
            && Writes(t, t', ids)
            && forall id | id in t && id in ids ::
                 var r, r' := t[id], t'[id];
                 && SameOrigin(r, r') && SameDelivery(r, r') && Unleased(r') && r'.attempts == r.attempts
                 && r'.nextAttemptAt == r.nextAttemptAt && r'.status == Parked && IsError(r'.lastError, error)
  {
    ClipIs(error);
  }

  /** Recovery takes the rows in delivering without a lease, past it, or claimed by the owner named, and counts no attempt. */
  lemma Recovers(t: Table, now: Time, owner: Option<string>)
    ensures var t' := Exec(t, RecoverRows(now, owner));
            && t'.Keys == t.Keys
            && forall id | id in t ::
                 var r, r' := t[id], t'[id];
                 if && r.status == Delivering
                    && (r.leaseUntil == None || r.leaseUntil.value < now || (owner != None && r.claimedBy == owner)) then
                   && SameOrigin(r, r') && SameDelivery(r, r') && Unleased(r') && r'.attempts == r.attempts
                   && r'.lastError == r.lastError && r'.status == Retry && r'.nextAttemptAt == Some(now)
                 else r' == r
  {
  }

  /** The sweep parks the rows in retry that were received so long ago, and no pending one however old. */
  lemma Expires(t: Table, now: Time, maxAgeMs: int)
    ensures var t' := Exec(t, ExpireRows(ParkCutoff(now, maxAgeMs)));
            && t'.Keys == t.Keys
            && forall id | id in t ::
                 var r, r' := t[id], t'[id];
                 if r.status == Retry && now - r.info.receivedAt > maxAgeMs then
                   && SameOrigin(r, r') && SameDelivery(r, r') && SameLease(r, r') && r'.attempts == r.attempts
                   && r'.nextAttemptAt == r.nextAttemptAt && r'.status == Parked && r'.lastError == Some("retry window exhausted")
                 else r' == r
  {
  }

  /** A replayed row starts over: due at once, with no attempts. */
  predicate StartsOver(r: EventRow, r': EventRow, now: Time) {
    && SameOrigin(r, r') && SameDelivery(r, r') && SameLease(r, r')
    && r'.status == Retry && r'.attempts == 0 && r'.nextAttemptAt == Some(now) && r'.lastError == None
  }

  lemma ReplaysOne(t: Table, one: Id, now: Time)
    requires Indexed(t)
    ensures var t' := Exec(t, ReplayRow(one, now));
            && t'.Keys == t.Keys
            && forall id | id in t :: if t[id].status == Parked && id == one then StartsOver(t[id], t'[id], now) else t'[id] == t[id]
  {
  }

  lemma ReplaysAll(t: Table, now: Time)
    ensures var t' := Exec(t, ReplayRows(now));
            && t'.Keys == t.Keys
            && forall id | id in t :: if t[id].status == Parked then StartsOver(t[id], t'[id], now) else t'[id] == t[id]
  {
  }

  /** Wiping empties the payload and the headers and keeps the row; deleting takes the row. */
  lemma Wipes(t: Table, ids: set<Id>)
    requires Indexed(t)
    ensures var t', left := Exec(t, WipeIds(ids)), Exec(t, DeleteIds(ids));
            && Writes(t, t', ids)
            && (forall id | id in t && id in ids :: t'[id] == t[id].(body := t'[id].body) && t'[id].body.payload == [] && t'[id].body.headersJson == "{}")
            && left.Keys == t.Keys - ids && forall id | id in left :: left[id] == t[id]
  {
  }

  /** What is due, and what retention may take: the WHERE clauses over a row's columns. */
  lemma Admitted(r: EventRow, routeId: string, now: Time, days: int)
    ensures Due(routeId, now).Admits(r) <==> r.info.routeId == routeId && IsDue(r, now)
    ensures IsDue(r, now) <==> r.status in {Pending, Retry} && r.nextAttemptAt != None && r.nextAttemptAt.value <= now
    ensures var terminal := r.status in {Delivered, DroppedByFilter};
            && (Deletable(DeleteCutoff(now, days)).Admits(r) <==> terminal && now - r.info.receivedAt > days * 24 * 60 * 60 * 1000)
            && (Wipeable(WipeCutoff(now, days)).Admits(r) <==>
                  terminal && now - r.info.receivedAt > days * 24 * 60 * 60 * 1000 && r.body.payload != [])
  {
  }

  /** A new row is due when it was received, unless it was filtered out, and nothing was tried yet. */
  lemma Inserts(t: Table, id: Id, e: NewEvent)
    requires id !in t
    ensures var t' := Exec(t, Insert(id, e));
            if exists other | other in t :: t[other].info.key == e.info.key then t' == t
            else
              && t'.Keys == t.Keys + {id} && (forall other | other in t :: t'[other] == t[other])
              && t'[id] == EventRow(id, e.info, e.body, e.status, 0, Some(e.info.receivedAt), None, None, None, None, None)
  {
  }
}
