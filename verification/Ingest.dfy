/**
 The ingest path: verify, encode, persist, acknowledge. What the host supplies (route lookup, secrets, the
 adapter's verdict and extraction, JSON.parse, the payload codec, the clock) is a field of `Answers`.
 */
module Ingest {
  import opened Prelude
  import opened Json
  import opened EventTable
  import opened MemoryStore
  import LeaseProtocol
  import LeaseExclusivity

  datatype StoreError = Unavailable | Broken

  datatype Killswitch = Open | Pause | Panic

  datatype Route = Route(id: string, source: string, maxBodyBytes: nat, events: Option<seq<string>>)

  /** `insertError` is what the store says instead of inserting, if it fails. */
  datatype Answers = Answers(
    route: Result<Option<Route>, StoreError>,
    killswitch: Result<Killswitch, StoreError>,
    rawBody: Option<Bytes>,
    hasAdapter: bool,
    hasSecret: bool,
    verified: bool,
    json: Option<Json>,
    eventId: string,
    eventType: Option<string>,
    encoded: Body,
    receivedAt: Time,
    insertError: Option<StoreError>)

  datatype Outcome =
    | Accepted(id: Id)
    | Filtered(id: Id)
    | Duplicate
    | UnknownRoute
    | PanicMode
    | EmptyBody
    | TooLarge
    | UnknownSource
    | SecretUnavailable
    | RejectedAuth
    | InvalidJson
    | StoreUnavailable
    | PersistFailed

  function StatusCode(o: Outcome): nat {
    match o
    case Accepted(_) => 200
    case Filtered(_) => 200
    case Duplicate => 200
    case UnknownRoute => 404
    case PanicMode => 503
    case EmptyBody => 400
    case TooLarge => 413
    case UnknownSource => 500
    case SecretUnavailable => 500
    case RejectedAuth => 401
    case InvalidJson => 400
    case StoreUnavailable => 503
    case PersistFailed => 500
  }

  // ---- idempotency keys ----

  function KeyText(source: string, eventId: string): string {
    source + ":" + eventId
  }

  /** `hash` is SHA-256 in hexadecimal. */
  function EventKey(hash: string -> string, source: string, eventId: string): string {
    "sha256:" + hash(KeyText(source, eventId))
  }

  ghost predicate CollisionFree(hash: string -> string) {
    forall a, b | hash(a) == hash(b) :: a == b
  }

  /** The schema admits no ':' in a source, so the text splits only one way. */
  lemma KeyTextsDiffer(source: string, eventId: string, source': string, eventId': string)
    requires ':' !in source && ':' !in source' && KeyText(source, eventId) == KeyText(source', eventId')
    ensures source == source' && eventId == eventId'
  {
    var t := KeyText(source, eventId);
    assert t[|source|] == ':' && t[|source'|] == ':';
    assert forall i | 0 <= i < |source| :: t[i] == source[i] && t[i] in source;
    assert forall i | 0 <= i < |source'| :: t[i] == source'[i] && t[i] in source';
    assert |source| == |source'|;
    assert t[..|source|] == source && t[..|source|] == source';
    assert t[|source| + 1..] == eventId && t[|source| + 1..] == eventId';
  }

  /** Two events share a key exactly when they are the same event of the same source; the route plays no part. */
  lemma SameKeyIff(hash: string -> string, source: string, eventId: string, source': string, eventId': string)
    requires CollisionFree(hash) && ':' !in source && ':' !in source'
    ensures EventKey(hash, source, eventId) == EventKey(hash, source', eventId') <==> source == source' && eventId == eventId'
  {
    var a, b := hash(KeyText(source, eventId)), hash(KeyText(source', eventId'));
    if "sha256:" + a == "sha256:" + b {
      assert ("sha256:" + a)[7..] == a && ("sha256:" + b)[7..] == b;
      KeyTextsDiffer(source, eventId, source', eventId');
    }
  }

  // ---- one request ----

  /** `glob` is the wildcard match of an event type. */
  function TypeMatches(glob: (string, string) -> bool, patterns: seq<string>, eventType: Option<string>): bool {
    patterns == []
    || (eventType.Some? && exists k | 0 <= k < |patterns| ::
          if '*' in patterns[k] then glob(patterns[k], eventType.value) else patterns[k] == eventType.value)
  }

  function IsFiltered(glob: (string, string) -> bool, route: Route, eventType: Option<string>): bool {
    route.events.Some? && !TypeMatches(glob, route.events.value, eventType)
  }

  function NewEventOf(hash: string -> string, filtered: bool, route: Route, a: Answers): NewEvent {
    NewEvent(
      EventInfo(route.id, route.source, a.eventId, a.eventType, a.receivedAt, EventKey(hash, route.source, a.eventId)),
      a.encoded,
      if filtered then DroppedByFilter else Pending)
  }

  function OfStoreError(e: StoreError): Outcome {
    if e == Unavailable then StoreUnavailable else PersistFailed
  }

  /** Why a request is turned away before the store is asked to insert, if it is. */
  function Refusal(a: Answers): Option<Outcome> {
    if a.route.Err? then Some(OfStoreError(a.route.error))
    else if a.route.value.None? then Some(UnknownRoute)
    else if a.killswitch.Err? then Some(OfStoreError(a.killswitch.error))
    else if a.killswitch.value == Panic then Some(PanicMode)
    else if a.rawBody.None? || a.rawBody.value == [] then Some(EmptyBody)
    else if |a.rawBody.value| > a.route.value.value.maxBodyBytes then Some(TooLarge)
    else if !a.hasAdapter then Some(UnknownSource)
    else if !a.hasSecret then Some(SecretUnavailable)
    else if !a.verified then Some(RejectedAuth)
    else if a.json.None? then Some(InvalidJson)
    else None
  }

  /** The event a request that is not refused carries. */
  function EventOf(glob: (string, string) -> bool, hash: string -> string, a: Answers): NewEvent
    requires Refusal(a).None?
  {
    var route := a.route.value.value;
    NewEventOf(hash, IsFiltered(glob, route, a.eventType), route, a)
  }

  /** What is answered, given the rows there are; and the table afterwards. */
  function OutcomeOf(glob: (string, string) -> bool, hash: string -> string, t: Table, nextId: Id, a: Answers): Outcome {
    if Refusal(a).Some? then Refusal(a).value
    else if a.insertError.Some? then OfStoreError(a.insertError.value)
    else
      var e := EventOf(glob, hash, a);
      if HasKey(t, e.info.key) then Outcome.Duplicate
      else if e.status == DroppedByFilter then Filtered(nextId) else Accepted(nextId)
  }

  function TableAfter(glob: (string, string) -> bool, hash: string -> string, t: Table, nextId: Id, a: Answers): Table {
    if Refusal(a).Some? || a.insertError.Some? then t
    else Exec(t, EventTable.Insert(nextId, EventOf(glob, hash, a)))
  }

  /** `wake` tells whether the dispatcher was signalled. */
  method IngestWebhook(store: MemoryEventStore, glob: (string, string) -> bool, hash: string -> string, a: Answers)
    returns (o: Outcome, wake: bool)
    requires store.Valid()
    modifies store
    ensures store.Valid()
    ensures o == OutcomeOf(glob, hash, old(store.rows), old(store.nextId), a)
    ensures store.rows == TableAfter(glob, hash, old(store.rows), old(store.nextId), a)
    ensures wake <==> o.Accepted?
    ensures StatusCode(o) == 200 <==> IsAdmissible(a) && a.insertError.None?
  {
    wake := false;
    if a.route.Err? {
      return OfStoreError(a.route.error), false;
    }
    if a.route.value.None? {
      return UnknownRoute, false;
    }
    var route := a.route.value.value;
    if a.killswitch.Err? {
      return OfStoreError(a.killswitch.error), false;
    }
    if a.killswitch.value == Panic {
      return PanicMode, false;
    }
    if a.rawBody.None? || a.rawBody.value == [] {
      return EmptyBody, false;
    }
    if |a.rawBody.value| > route.maxBodyBytes {
      return TooLarge, false;
    }
    if !a.hasAdapter {
      return UnknownSource, false;
    }
    if !a.hasSecret {
      return SecretUnavailable, false;
    }
    if !a.verified {
      return RejectedAuth, false;
    }
    if a.json.None? {
      return InvalidJson, false;
    }
    var filtered := IsFiltered(glob, route, a.eventType);
    if a.insertError.Some? {
      return OfStoreError(a.insertError.value), false;
    }
    var inserted := store.Insert(NewEventOf(hash, filtered, route, a));
    if inserted.Duplicate? {
      return Outcome.Duplicate, false;
    }
    o := if filtered then Filtered(inserted.id) else Accepted(inserted.id);
    wake := !filtered;
  }

  // ---- nothing acknowledged is lost ----

  /** A 200 means that a row with the event's key is in the table; anything else leaves the table as it was. */
  lemma AcknowledgedIff(glob: (string, string) -> bool, hash: string -> string, t: Table, nextId: Id, a: Answers)
    ensures var o, t' := OutcomeOf(glob, hash, t, nextId, a), TableAfter(glob, hash, t, nextId, a);
            && (StatusCode(o) == 200 ==> Refusal(a).None? && HasKey(t', EventOf(glob, hash, a).info.key))
            && (StatusCode(o) != 200 ==> t' == t)
            && (StatusCode(o) == 200 <==> Refusal(a).None? && a.insertError.None?)
            && (o.Duplicate? ==> t' == t)
            && (o.Accepted? || o.Filtered? ==> nextId in t' && o.id == nextId && t'[nextId] == NewRow(nextId, EventOf(glob, hash, a)))
  {
    if Refusal(a).None? && a.insertError.None? {
      var e := EventOf(glob, hash, a);
      if !HasKey(t, e.info.key) {
        var t' := TableAfter(glob, hash, t, nextId, a);
        assert t'[nextId].info.key == e.info.key;
      }
    }
  }

  // ---- what is let in ----

  /** A known route, no panic, a body of the allowed size, an adapter and a secret, a verified request, and valid JSON. */
  predicate IsAdmissible(a: Answers) {
    && a.route.Ok? && a.route.value.Some?
    && a.killswitch.Ok? && !a.killswitch.value.Panic?
    && a.rawBody.Some? && 0 < |a.rawBody.value| <= a.route.value.value.maxBodyBytes
    && a.hasAdapter && a.hasSecret && a.verified && a.json.Some?
  }

  /** A 200 is answered to exactly the admissible requests that the store takes; no other request stores anything. */
  lemma AnsweredIff(glob: (string, string) -> bool, hash: string -> string, t: Table, nextId: Id, a: Answers)
    ensures StatusCode(OutcomeOf(glob, hash, t, nextId, a)) == 200 <==> IsAdmissible(a) && a.insertError.None?
    ensures TableAfter(glob, hash, t, nextId, a) != t ==> IsAdmissible(a) && a.insertError.None?
  {
  }

  function StoreErrorCode(e: StoreError): nat {
    match e
    case Unavailable => 503
    case Broken => 500
  }

  /** The status code by the first field that fails. */
  lemma RefusalCodes(glob: (string, string) -> bool, hash: string -> string, t: Table, nextId: Id, a: Answers)
    ensures StatusCode(OutcomeOf(glob, hash, t, nextId, a)) ==
            match a.route
            case Err(e) => StoreErrorCode(e)
            case Ok(None) => 404
            case Ok(Some(route)) =>
              match a.killswitch
              case Err(e) => StoreErrorCode(e)
              case Ok(Panic) => 503
              case Ok(_) =>
                match a.rawBody
                case None => 400
                case Some(body) =>
                  if |body| == 0 then 400
                  else if |body| > route.maxBodyBytes then 413
                  else if !a.hasAdapter || !a.hasSecret then 500
                  else if !a.verified then 401
                  else if a.json.None? then 400
                  else
                    match a.insertError
                    case Some(e) => StoreErrorCode(e)
                    case None => 200
  {
  }

  /** The route lists patterns, and none of them is or matches the event's type. */
  predicate FilteredOut(glob: (string, string) -> bool, route: Route, eventType: Option<string>) {
    && route.events.Some? && |route.events.value| > 0
    && forall k | 0 <= k < |route.events.value| ::
         var p := route.events.value[k];
         eventType.None? || (if '*' in p then !glob(p, eventType.value) else p != eventType.value)
  }

  /**
   What a request stores, if it stores anything: its event, under its own route and source, with the body as it was
   encoded, to be delivered at once unless the route filters it out; and nothing else in the table changes.
   */
  lemma StoredIs(glob: (string, string) -> bool, hash: string -> string, t: Table, nextId: Id, a: Answers)
    requires nextId !in t && TableAfter(glob, hash, t, nextId, a) != t
    ensures IsAdmissible(a)
    ensures var t', route := TableAfter(glob, hash, t, nextId, a), a.route.value.value;
            && t'.Keys == t.Keys + {nextId} && (forall id | id in t :: t'[id] == t[id])
            && var row := t'[nextId];
               && row.id == nextId && row.info.routeId == route.id && row.info.source == route.source
               && row.info.eventId == a.eventId && row.info.eventType == a.eventType && row.info.receivedAt == a.receivedAt
               && row.info.key == "sha256:" + hash(route.source + ":" + a.eventId) && row.body == a.encoded
               && row.status == (if FilteredOut(glob, route, a.eventType) then DroppedByFilter else Pending)
               && row.attempts == 0 && row.nextAttemptAt == Some(a.receivedAt)
               && row.deliveredAt.None? && row.claimedBy.None? && row.leaseUntil.None?
    ensures OutcomeOf(glob, hash, t, nextId, a)
         == if FilteredOut(glob, a.route.value.value, a.eventType) then Filtered(nextId) else Accepted(nextId)
  {
    FilterIs(glob, a.route.value.value, a.eventType);
  }

  lemma FilterIs(glob: (string, string) -> bool, route: Route, eventType: Option<string>)
    ensures IsFiltered(glob, route, eventType) <==> FilteredOut(glob, route, eventType)
  {
    if route.events.Some? && eventType.None? && |route.events.value| > 0 {
      assert route.events.value != [];
    }
  }

  /** The table after requests that arrive one after the other, each given a new id. */
  function AfterAll(glob: (string, string) -> bool, hash: string -> string, t: Table, nextId: Id, requests: seq<Answers>): Table
    decreases |requests|
  {
    if requests == [] then t
    else AfterAll(glob, hash, TableAfter(glob, hash, t, nextId, requests[0]), nextId + 1, requests[1..])
  }

  predicate Below(t: Table, nextId: Id) {
    forall id | id in t :: id < nextId
  }

  function RowsWithKey(t: Table, key: string): set<Id> {
    set id | id in t && t[id].info.key == key
  }

  lemma RequestKeepsRows(glob: (string, string) -> bool, hash: string -> string, t: Table, nextId: Id, a: Answers)
    requires Keyed(t) && Below(t, nextId)
    ensures var t' := TableAfter(glob, hash, t, nextId, a);
            Keyed(t') && Below(t', nextId + 1) && forall id | id in t :: id in t' && t'[id] == t[id]
  {
    if Refusal(a).None? && a.insertError.None? {
      ExecKeepsKeyed(t, EventTable.Insert(nextId, EventOf(glob, hash, a)));
    }
  }

  lemma {:induction false} RequestsKeepRows(glob: (string, string) -> bool, hash: string -> string, t: Table, nextId: Id,
                                            requests: seq<Answers>)
    requires Keyed(t) && Below(t, nextId)
    ensures var t' := AfterAll(glob, hash, t, nextId, requests);
            Keyed(t') && forall id | id in t :: id in t' && t'[id] == t[id]
    decreases |requests|
  {
    if requests != [] {
      RequestKeepsRows(glob, hash, t, nextId, requests[0]);
      RequestsKeepRows(glob, hash, TableAfter(glob, hash, t, nextId, requests[0]), nextId + 1, requests[1..]);
    }
  }

  /** However often an acknowledged event is delivered again, among other requests, it stays one row. */
  lemma RedeliveriesLeaveOneRow(glob: (string, string) -> bool, hash: string -> string, t: Table, nextId: Id,
                                a: Answers, later: seq<Answers>)
    requires Keyed(t) && Below(t, nextId) && StatusCode(OutcomeOf(glob, hash, t, nextId, a)) == 200
    ensures Refusal(a).None?
    ensures |RowsWithKey(AfterAll(glob, hash, t, nextId, [a] + later), EventOf(glob, hash, a).info.key)| == 1
  {
    AcknowledgedIff(glob, hash, t, nextId, a);
    var key := EventOf(glob, hash, a).info.key;
    var t1 := TableAfter(glob, hash, t, nextId, a);
    ExecKeepsKeyed(t, EventTable.Insert(nextId, EventOf(glob, hash, a)));
    assert ([a] + later)[1..] == later;
    RequestsKeepRows(glob, hash, t1, nextId + 1, later);
    var t' := AfterAll(glob, hash, t1, nextId + 1, later);
    var id :| id in t1 && t1[id].info.key == key;
    assert RowsWithKey(t', key) == {id};
  }

  /**
   The key leaves the route out: an event that one route filtered is a duplicate on another route of the same
   source, and that route never gets a row for it.
   */
  lemma FilteredElsewhereIsDuplicate(glob: (string, string) -> bool, hash: string -> string, t: Table, nextId: Id,
                                     a: Answers, b: Answers)
    requires Keyed(t) && Below(t, nextId) && OutcomeOf(glob, hash, t, nextId, a).Filtered?
    requires Refusal(b).None? && b.insertError.None?
    requires b.eventId == a.eventId && b.route.value.value.source == a.route.value.value.source
    ensures var t1 := TableAfter(glob, hash, t, nextId, a);
            && OutcomeOf(glob, hash, t1, nextId + 1, b) == Outcome.Duplicate
            && TableAfter(glob, hash, t1, nextId + 1, b) == t1
            && t1[nextId].status == DroppedByFilter && t1[nextId].info.routeId == a.route.value.value.id
  {
    AcknowledgedIff(glob, hash, t, nextId, a);
  }

  // ---- in a running system ----

  /** A request that is persisted is the ingest step of the system of dispatchers. */
  lemma RequestIsStep(env: LeaseProtocol.Env, glob: (string, string) -> bool, hash: string -> string, s: LeaseProtocol.Sys, a: Answers)
    requires Refusal(a).None? && a.insertError.None? && a.encoded.payload != []
    ensures LeaseProtocol.Enabled(s, LeaseProtocol.Ingest(EventOf(glob, hash, a)))
    ensures LeaseProtocol.Do(env, s, LeaseProtocol.Ingest(EventOf(glob, hash, a))).store == TableAfter(glob, hash, s.store, s.nextId, a)
  {
  }

  /** A key that the table has stays the key of one row, unless retention removes that row. */
  lemma OneRowFrom(env: LeaseProtocol.Env, s: LeaseProtocol.Sys, steps: seq<LeaseProtocol.Step>, key: string) returns (id: Id)
    requires LeaseProtocol.Traced(env, s) && LeaseProtocol.Valid(env, s, steps) && HasKey(s.store, key)
    ensures id in s.store && s.store[id].info.key == key
    ensures RowsWithKey(LeaseProtocol.End(env, s, steps).store, key) == {id} || LeaseExclusivity.Retired(env, s, steps, id)
  {
    id :| id in s.store && s.store[id].info.key == key;
    LeaseExclusivity.StaysOrRetires(env, s, steps, id);
    var t := LeaseProtocol.End(env, s, steps).store;
    if id in t {
      OneRowWithKey(t, id);
    }
  }

  lemma OneRowWithKey(t: Table, id: Id)
    requires Keyed(t) && id in t
    ensures RowsWithKey(t, t[id].info.key) == {id}
  {
  }

  /** The system right after the request was persisted. */
  function AfterRequest(env: LeaseProtocol.Env, glob: (string, string) -> bool, hash: string -> string,
                        s: LeaseProtocol.Sys, a: Answers): LeaseProtocol.Sys
    requires Refusal(a).None? && a.encoded.payload != []
  {
    LeaseProtocol.Do(env, s, LeaseProtocol.Ingest(EventOf(glob, hash, a)))
  }

  /**
   In every run of any number of dispatchers - redeliveries, crashes, failures, replay and retention included - an
   event that was acknowledged at some point is exactly one row afterwards, unless retention removed that row when it
   was terminal and past the ledger window.
   */
  lemma AcknowledgedEventIsOneRow(env: LeaseProtocol.Env, glob: (string, string) -> bool, hash: string -> string,
                                  s0: LeaseProtocol.Sys, before: seq<LeaseProtocol.Step>, a: Answers, after: seq<LeaseProtocol.Step>)
      returns (id: Id)
    requires LeaseProtocol.Init(s0) && LeaseProtocol.Valid(env, s0, before)
    requires Refusal(a).None? && a.insertError.None? && a.encoded.payload != []
    requires LeaseProtocol.Valid(env, AfterRequest(env, glob, hash, LeaseProtocol.End(env, s0, before), a), after)
    ensures var s1 := AfterRequest(env, glob, hash, LeaseProtocol.End(env, s0, before), a);
            || RowsWithKey(LeaseProtocol.End(env, s1, after).store, EventOf(glob, hash, a).info.key) == {id}
            || LeaseExclusivity.Retired(env, s1, after, id)
  {
    var s := LeaseProtocol.End(env, s0, before);
    var s1 := AfterRequest(env, glob, hash, s, a);
    LeaseProtocol.RunsStayTraced(env, s0, before);
    LeaseProtocol.StaysTraced(env, s, LeaseProtocol.Ingest(EventOf(glob, hash, a)));
    RequestHasKey(env, glob, hash, s, a);
    id := OneRowFrom(env, s1, after, EventOf(glob, hash, a).info.key);
  }

  lemma RequestHasKey(env: LeaseProtocol.Env, glob: (string, string) -> bool, hash: string -> string, s: LeaseProtocol.Sys, a: Answers)
    requires Refusal(a).None? && a.insertError.None? && a.encoded.payload != []
    ensures HasKey(AfterRequest(env, glob, hash, s, a).store, EventOf(glob, hash, a).info.key)
  {
    RequestIsStep(env, glob, hash, s, a);
    AcknowledgedIff(glob, hash, s.store, s.nextId, a);
  }
}
