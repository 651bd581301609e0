/**
 One claimed batch on its way through mapping, posting and settling: which statements it runs on the table, and
 what it reports, as functions of the answers of the `World`. Module Fates is about what that comes to.
 */
module Batches {
  import opened Prelude
  import opened EventTable
  import opened Backoff
  import opened BulkResults
  import opened Settlement
  import opened Outside

  datatype Settings = Settings(
    batchMax: nat, leaseMs: nat, backoffBaseMs: nat, backoffCapMs: nat, recoverIntervalMs: int, parkAfterMs: int)

  const REJECTED := "rejected by End Close bulk processing"
  const LEFT := "left delivering after batch"

  /** The rows of a claimed batch as the table holds them. */
  predicate Holds(t: Table, batch: seq<EventRow>) {
    && Distinct(Ids(batch))
    && forall k | 0 <= k < |batch| :: batch[k].id in t && t[batch[k].id] == batch[k]
  }

  // ---- mapping a batch event by event ----

  /** The events of a batch that mapping gives a record for, when the first is mapped by call `first`. */
  function MappedRows(w: World, first: nat, batch: seq<EventRow>): seq<EventRow> {
    if batch == [] then []
    else
      var last := |batch| - 1;
      MappedRows(w, first, batch[..last]) + if MappingOf(w, first + last, batch[last]).Mapped? then [batch[last]] else []
  }

  /** Their records. */
  function MappedRecords(w: World, first: nat, batch: seq<EventRow>): seq<Record> {
    if batch == [] then []
    else
      var last := |batch| - 1;
      var m := MappingOf(w, first + last, batch[last]);
      MappedRecords(w, first, batch[..last]) + if m.Mapped? then [m.record] else []
  }

  /** What is reported of an event while mapping: unmappable ones park, failing enrichments are retried. */
  function EarlyEntry(m: Mapping, id: Id): seq<Settled> {
    match m
    case Unmappable(_) => Entries([id], AsParked)
    case EnrichmentFails(_) => Entries([id], AsRetried)
    case _ => []
  }

  function EarlyLog(w: World, first: nat, batch: seq<EventRow>): seq<Settled> {
    if batch == [] then []
    else
      var last := |batch| - 1;
      EarlyLog(w, first, batch[..last]) + EarlyEntry(MappingOf(w, first + last, batch[last]), batch[last].id)
  }

  /** Such an event takes a store call. */
  predicate NeedsStore(m: Mapping) {
    m.Unmappable? || m.EnrichmentFails?
  }

  function EarlyStatement(m: Mapping, id: Id, next: Time): Statement {
    match m
    case Unmappable(reason) => ParkIds({id}, reason)
    case EnrichmentFails(message) => FailIds({id}, next, message)
    case _ => Nothing
  }

  /** The table once `n` events are mapped; `nexts[k]` is when event `k` is tried again if its enrichment failed. */
  function EarlyTable(w: World, first: nat, t: Table, claimed: seq<EventRow>, nexts: seq<Time>, n: nat): Table
    requires n <= |claimed| && n <= |nexts|
  {
    if n == 0 then t
    else
      Exec(EarlyTable(w, first, t, claimed, nexts, n - 1),
           EarlyStatement(MappingOf(w, first + n - 1, claimed[n - 1]), claimed[n - 1].id, nexts[n - 1]))
  }

  lemma {:induction false} EarlyTableMore(w: World, first: nat, t: Table, claimed: seq<EventRow>, nexts: seq<Time>, next: Time, n: nat)
    requires n <= |claimed| && n <= |nexts|
    ensures EarlyTable(w, first, t, claimed, nexts + [next], n) == EarlyTable(w, first, t, claimed, nexts, n)
    decreases n
  {
    if n > 0 {
      EarlyTableMore(w, first, t, claimed, nexts, next, n - 1);
    }
  }

  /** One more event. */
  lemma EarlyNext(w: World, first: nat, claimed: seq<EventRow>, k: nat)
    requires k < |claimed|
    ensures var m := MappingOf(w, first + k, claimed[k]);
            && EarlyLog(w, first, claimed[..k + 1]) == EarlyLog(w, first, claimed[..k]) + EarlyEntry(m, claimed[k].id)
            && MappedRows(w, first, claimed[..k + 1]) == MappedRows(w, first, claimed[..k]) + (if m.Mapped? then [claimed[k]] else [])
            && MappedRecords(w, first, claimed[..k + 1])
               == MappedRecords(w, first, claimed[..k]) + (if m.Mapped? then [m.record] else [])
  {
    assert claimed[..k + 1][..k] == claimed[..k];
  }

  lemma {:induction false} RecordPerRow(w: World, first: nat, batch: seq<EventRow>)
    ensures |MappedRecords(w, first, batch)| == |MappedRows(w, first, batch)|
  {
    if batch != [] {
      RecordPerRow(w, first, batch[..|batch| - 1]);
    }
  }

  // ---- settling what was posted ----

  /** `Math.max(...mapped.map((e) => e.attempts))` */
  function MaxAttempts(batch: seq<EventRow>): nat {
    if batch == [] then 0 else Max(batch[0].attempts, MaxAttempts(batch[1..]))
  }

  lemma {:induction false} MaxAttemptsBounds(batch: seq<EventRow>)
    ensures forall k | 0 <= k < |batch| :: batch[k].attempts <= MaxAttempts(batch)
    ensures batch != [] ==> exists k | 0 <= k < |batch| :: batch[k].attempts == MaxAttempts(batch)
  {
    if batch != [] {
      MaxAttemptsBounds(batch[1..]);
      if batch[0].attempts < MaxAttempts(batch) {
        var k :| 0 <= k < |batch[1..]| && batch[1..][k].attempts == MaxAttempts(batch);
        assert batch[k + 1].attempts == MaxAttempts(batch);
      }
      assert forall k | 1 <= k < |batch| :: batch[k] == batch[1..][k - 1];
    }
  }

  /** How the rows whose records were posted end. `partly`: the rejected ones were parked before a store call failed. */
  datatype Ending =
    | NotPosted
    | AllDelivered(at: Time)
    | SplitUp(at: Time)
    | BatchParked
    | BatchRetried(partly: bool, next: Time)
    | Broken(partly: bool)                       // the store call to park or retry the batch failed as well

  function BulkOf(reply: Reply): Option<string> {
    if reply.Accepted? then Some(reply.bulk) else None
  }

  function PartTable(t: Table, batch: seq<EventRow>, failed: set<string>, partly: bool): Table {
    if partly then Exec(t, ParkIds(Elements(Ids(Select(failed, batch, true))), REJECTED)) else t
  }

  function EndingTable(t: Table, batch: seq<EventRow>, reply: Reply, failed: set<string>, e: Ending): Table {
    match e
    case NotPosted => t
    case AllDelivered(at) => Exec(t, DeliverIds(Elements(Ids(batch)), at, BulkOf(reply)))
    case SplitUp(at) =>
      Exec(PartTable(t, batch, failed, true), DeliverIds(Elements(Ids(Select(failed, batch, false))), at, BulkOf(reply)))
    case BatchParked => Exec(t, ParkIds(Elements(Ids(batch)), ErrorText(reply)))
    case BatchRetried(partly, next) => Exec(PartTable(t, batch, failed, partly), FailIds(Elements(Ids(batch)), next, ErrorText(reply)))
    case Broken(partly) => PartTable(t, batch, failed, partly)
  }

  function SplitLog(batch: seq<EventRow>, failed: set<string>): seq<Settled> {
    Entries(Ids(Select(failed, batch, false)), AsDelivered) + Entries(Ids(Select(failed, batch, true)), AsParked)
  }

  function LateLog(batch: seq<EventRow>, failed: set<string>, e: Ending): seq<Settled> {
    match e
    case NotPosted => []
    case AllDelivered(_) => Entries(Ids(batch), AsDelivered)
    case SplitUp(_) => SplitLog(batch, failed)
    case BatchParked => Entries(Ids(batch), AsParked)
    case BatchRetried(_, _) => Entries(Ids(batch), AsRetried)
    case Broken(_) => []
  }

  /** There were no results to settle, or store calls `p` up to `q` went into settling them and the last one failed. */
  predicate NotSettled(w: World, p: nat, q: nat, reply: Reply, failed: set<string>, partly: bool) {
    if !reply.Accepted? then !partly && q == p
    else if partly then failed != {} && q == p + 2 && StoreUp(w, p) && !StoreUp(w, p + 1)
    else q == p + 1 && !StoreUp(w, p)
  }

  /** Store calls `p` up to `q`, and their answers, made this end of the posted rows. */
  predicate Ends(w: World, p: nat, q: nat, batch: seq<EventRow>, reply: Reply, failed: set<string>, e: Ending) {
    match e
    case NotPosted => batch == [] && q == p
    case AllDelivered(_) => batch != [] && reply.Accepted? && failed == {} && q == p + 1 && StoreUp(w, p)
    case SplitUp(_) => batch != [] && reply.Accepted? && failed != {} && q == p + 2 && StoreUp(w, p) && StoreUp(w, p + 1)
    case BatchParked => batch != [] && IsPermanent(reply) && q == p + 1 && StoreUp(w, p)
    case BatchRetried(partly, _) =>
      batch != [] && !IsPermanent(reply) && q > p && NotSettled(w, p, q - 1, reply, failed, partly) && StoreUp(w, q - 1)
    case Broken(partly) => batch != [] && q > p && NotSettled(w, p, q - 1, reply, failed, partly) && !StoreUp(w, q - 1)
  }

  /** What is delivered is marked so no earlier than this. */
  predicate SettledSince(e: Ending, since: Time) {
    match e
    case AllDelivered(at) => at >= since
    case SplitUp(at) => at >= since
    case _ => true
  }

  /** Settling the results of an accepted post: done, or left by a failed store call. */
  predicate SettledBy(w: World, p: nat, q: nat, batch: seq<EventRow>, bulk: string, failed: set<string>, threw: bool, e: Ending) {
    if threw then e.Broken? && NotSettled(w, p, q, Accepted(bulk), failed, e.partly)
    else (e.AllDelivered? || e.SplitUp?) && Ends(w, p, q, batch, Accepted(bulk), failed, e)
  }

  // ---- a whole batch ----

  /** What the API answered to the post of the batch's records, made after `a`. */
  function ReplyOf(w: World, a: Calls, claimed: seq<EventRow>): Reply {
    PostOutcome(w, MappedRecords(w, a.mapped, claimed), a.post, 0)
  }

  /** The result keys that come back rejected for a post that was accepted. */
  function FailedFor(w: World, reply: Reply, poll: nat): set<string> {
    if reply.Accepted? then PolledRejections(w, reply.bulk, poll, 0) else {}
  }

  /** The result keys that came back rejected, if it was accepted. */
  function FailedOf(w: World, a: Calls, claimed: seq<EventRow>): set<string> {
    FailedFor(w, ReplyOf(w, a, claimed), a.poll)
  }

  /** The posts and polls that the replies to these records demand were made, and no others. */
  predicate PostCalled(w: World, a: Calls, b: Calls, records: seq<Record>) {
    var reply := PostOutcome(w, records, a.post, 0);
    && b.post == a.post + PostsMade(w, records, a.post, 0)
    && b.poll == a.poll + if reply.Accepted? then PollsMade(w, reply.bulk, a.poll, 0) else 0
  }

  /** Every event was mapped, by its own call, and the records were posted, if there are any. */
  predicate AllCalled(w: World, a: Calls, b: Calls, claimed: seq<EventRow>) {
    && b.mapped == a.mapped + |claimed|
    && if MappedRows(w, a.mapped, claimed) == [] then b.post == a.post && b.poll == a.poll
       else PostCalled(w, a, b, MappedRecords(w, a.mapped, claimed))
  }

  /** What a batch came to: mapping went through the first `|nexts|` events, and posting only if that was all. */
  datatype Handling = Handling(claimed: seq<EventRow>, nexts: seq<Time>, ending: Ending)

  type BatchRun = h: Handling | |h.nexts| <= |h.claimed| && (|h.nexts| < |h.claimed| ==> h.ending == NotPosted)
    witness Handling([], [], NotPosted)

  function Handled(r: BatchRun): seq<EventRow> {
    r.claimed[..|r.nexts|]
  }

  /** An exception left the batch. */
  predicate Threw(r: BatchRun) {
    |r.nexts| < |r.claimed| || r.ending.Broken?
  }

  /** The table after the batch, which began with the calls `a`. */
  function BatchTable(w: World, a: Calls, t: Table, r: BatchRun): Table {
    EndingTable(EarlyTable(w, a.mapped, t, r.claimed, r.nexts, |r.nexts|), MappedRows(w, a.mapped, r.claimed),
                ReplyOf(w, a, r.claimed), FailedOf(w, a, r.claimed), r.ending)
  }

  /** What it reported. */
  function BatchLog(w: World, a: Calls, r: BatchRun): seq<Settled> {
    EarlyLog(w, a.mapped, Handled(r)) + LateLog(MappedRows(w, a.mapped, r.claimed), FailedOf(w, a, r.claimed), r.ending)
  }

  /** These events were decoded, and each store call made for one of them was answered. */
  ghost predicate Passed(w: World, a: Calls, batch: seq<EventRow>) {
    && (forall k | 0 <= k < |batch| :: !MappingOf(w, a.mapped + k, batch[k]).Undecodable?)
    && (forall n: nat | a.store <= n < a.store + |EarlyLog(w, a.mapped, batch)| :: StoreUp(w, n))
  }

  /** Retries while mapping wait at least the event's own shortest delay. */
  ghost predicate RetriesWait(w: World, first: nat, claimed: seq<EventRow>, nexts: seq<Time>, since: Time, wait: nat -> int) {
    forall k | 0 <= k < |nexts| && k < |claimed| && MappingOf(w, first + k, claimed[k]).EnrichmentFails? ::
      nexts[k] >= since + wait(claimed[k].attempts)
  }

  /** Mapping broke off at event `k`: it does not decode, or store call `p`, made for it, failed. */
  predicate MappingStops(w: World, a: Calls, b: Calls, claimed: seq<EventRow>, k: nat, p: nat)
    requires k < |claimed|
  {
    var m := MappingOf(w, a.mapped + k, claimed[k]);
    && b.mapped == a.mapped + k + 1 && b.post == a.post && b.poll == a.poll
    && if m.Undecodable? then b.store == p else NeedsStore(m) && b.store == p + 1 && !StoreUp(w, p)
  }

  /** The calls from `a` to `b`, and their answers, are those of this batch. */
  ghost predicate BatchOk(w: World, a: Calls, b: Calls, r: BatchRun, since: Time, wait: nat -> int) {
    match r
    case Handling(claimed, nexts, ending) =>
      var p := a.store + |EarlyLog(w, a.mapped, Handled(r))|;
      && b.control == a.control
      && Passed(w, a, Handled(r)) && RetriesWait(w, a.mapped, claimed, nexts, since, wait)
      && if |nexts| < |claimed| then MappingStops(w, a, b, claimed, |nexts|, p)
         else
           var batch := MappedRows(w, a.mapped, claimed);
           && AllCalled(w, a, b, claimed)
           && Ends(w, p, b.store, batch, ReplyOf(w, a, claimed), FailedOf(w, a, claimed), ending)
           && (ending.BatchRetried? ==> ending.next >= since + wait(MaxAttempts(batch)))
  }

  /** One event was mapped, parked, retried, or thrown on, by the calls from `b` to `b'`. */
  ghost predicate OneDone(w: World, b: Calls, b': Calls, u: Table, u': Table, event: EventRow, threw: bool, record: Option<Record>,
                          next: Time, more: seq<Settled>, since: Time, wait: nat -> int)
  {
    var m := MappingOf(w, b.mapped, event);
    && b' == b.(mapped := b.mapped + 1, store := b.store + if NeedsStore(m) then 1 else 0)
    && threw == (m.Undecodable? || (NeedsStore(m) && !StoreUp(w, b.store)))
    && record == (if m.Mapped? then Some(m.record) else None)
    && u' == (if threw then u else Exec(u, EarlyStatement(m, event.id, next)))
    && more == (if threw then [] else EarlyEntry(m, event.id))
    && (m.EnrichmentFails? ==> next >= since + wait(event.attempts))
  }

  lemma ParkedOne(w: World, b: Calls, b': Calls, u: Table, u': Table, event: EventRow, ok: bool, next: Time, log: seq<Settled>,
                  since: Time, wait: nat -> int)
    requires MappingOf(w, b.mapped, event).Unmappable? && ok == StoreUp(w, b.store)
    requires b' == b.(mapped := b.mapped + 1, store := b.store + 1)
    requires u' == if ok then Exec(u, ParkIds(Elements([event.id]), MappingOf(w, b.mapped, event).reason)) else u
    requires log == if ok then Entries([event.id], AsParked) else []
    ensures OneDone(w, b, b', u, u', event, !ok, None, next, log, since, wait)
  {
    assert Elements([event.id]) == {event.id};
  }

  lemma RetriedOne(w: World, b: Calls, b': Calls, u: Table, u': Table, event: EventRow, ok: bool, next: Time, log: seq<Settled>,
                   since: Time, wait: nat -> int)
    requires MappingOf(w, b.mapped, event).EnrichmentFails? && ok == StoreUp(w, b.store) && next >= since + wait(event.attempts)
    requires b' == b.(mapped := b.mapped + 1, store := b.store + 1)
    requires u' == if ok then Exec(u, FailIds(Elements([event.id]), next, MappingOf(w, b.mapped, event).message)) else u
    requires log == if ok then Entries([event.id], AsRetried) else []
    ensures OneDone(w, b, b', u, u', event, !ok, None, next, log, since, wait)
  {
    assert Elements([event.id]) == {event.id};
  }

  /** The records and the reports that the first `k` events came to. */
  predicate ListsUpTo(w: World, first: nat, claimed: seq<EventRow>, k: nat, mapped: seq<EventRow>, records: seq<Record>, log: seq<Settled>) {
    && k <= |claimed| && log == EarlyLog(w, first, claimed[..k])
    && mapped == MappedRows(w, first, claimed[..k]) && records == MappedRecords(w, first, claimed[..k])
  }

  /** The first `|nexts|` events were decoded, and those that needed the store are parked or retried in the table. */
  ghost predicate TableUpTo(w: World, a: Calls, t: Table, t': Table, claimed: seq<EventRow>, nexts: seq<Time>, since: Time, wait: nat -> int) {
    && |nexts| <= |claimed|
    && Passed(w, a, claimed[..|nexts|]) && RetriesWait(w, a.mapped, claimed, nexts, since, wait)
    && t' == EarlyTable(w, a.mapped, t, claimed, nexts, |nexts|)
  }

  /** The first events were handled, by the calls from `a` to `b`. */
  ghost predicate MappedUpTo(w: World, a: Calls, b: Calls, t: Table, t': Table, claimed: seq<EventRow>, nexts: seq<Time>,
                             mapped: seq<EventRow>, records: seq<Record>, log: seq<Settled>, since: Time, wait: nat -> int)
  {
    && ListsUpTo(w, a.mapped, claimed, |nexts|, mapped, records, log)
    && b == a.(mapped := a.mapped + |nexts|, store := a.store + |log|)
    && TableUpTo(w, a, t, t', claimed, nexts, since, wait)
  }

  lemma MappedNone(w: World, a: Calls, t: Table, claimed: seq<EventRow>, since: Time, wait: nat -> int)
    ensures MappedUpTo(w, a, a, t, t, claimed, [], [], [], [], since, wait)
  {
  }

  function MappedWith(mapped: seq<EventRow>, event: EventRow, record: Option<Record>): seq<EventRow> {
    if record.Some? then mapped + [event] else mapped
  }

  function RecordsWith(records: seq<Record>, record: Option<Record>): seq<Record> {
    if record.Some? then records + [record.value] else records
  }

  lemma PassedNext(w: World, a: Calls, claimed: seq<EventRow>, k: nat)
    requires k < |claimed| && Passed(w, a, claimed[..k])
    requires var m := MappingOf(w, a.mapped + k, claimed[k]);
             !m.Undecodable? && (NeedsStore(m) ==> StoreUp(w, a.store + |EarlyLog(w, a.mapped, claimed[..k])|))
    ensures Passed(w, a, claimed[..k + 1])
  {
    var batch := claimed[..k + 1];
    EarlyNext(w, a.mapped, claimed, k);
    forall i | 0 <= i < |batch| ensures !MappingOf(w, a.mapped + i, batch[i]).Undecodable? {
      assert i < k ==> batch[i] == claimed[..k][i];
    }
  }

  lemma RetriesWaitMore(w: World, first: nat, claimed: seq<EventRow>, nexts: seq<Time>, next: Time, since: Time, wait: nat -> int)
    requires RetriesWait(w, first, claimed, nexts, since, wait) && |nexts| < |claimed|
    requires MappingOf(w, first + |nexts|, claimed[|nexts|]).EnrichmentFails? ==> next >= since + wait(claimed[|nexts|].attempts)
    ensures RetriesWait(w, first, claimed, nexts + [next], since, wait)
  {
    var more := nexts + [next];
    forall k | 0 <= k < |more| && k < |claimed| && MappingOf(w, first + k, claimed[k]).EnrichmentFails?
      ensures more[k] >= since + wait(claimed[k].attempts)
    {
      assert k < |nexts| ==> more[k] == nexts[k];
    }
  }

  lemma TableNext(w: World, first: nat, t: Table, claimed: seq<EventRow>, nexts: seq<Time>, next: Time)
    requires |nexts| < |claimed|
    ensures EarlyTable(w, first, t, claimed, nexts + [next], |nexts| + 1)
         == Exec(EarlyTable(w, first, t, claimed, nexts, |nexts|),
                 EarlyStatement(MappingOf(w, first + |nexts|, claimed[|nexts|]), claimed[|nexts|].id, next))
  {
    EarlyTableMore(w, first, t, claimed, nexts, next, |nexts|);
  }

  lemma TableUpToNext(w: World, a: Calls, t: Table, u: Table, u': Table, claimed: seq<EventRow>, nexts: seq<Time>, next: Time,
                      since: Time, wait: nat -> int)
    requires TableUpTo(w, a, t, u, claimed, nexts, since, wait) && |nexts| < |claimed|
    requires var m := MappingOf(w, a.mapped + |nexts|, claimed[|nexts|]);
             && !m.Undecodable? && (NeedsStore(m) ==> StoreUp(w, a.store + |EarlyLog(w, a.mapped, claimed[..|nexts|])|))
             && (m.EnrichmentFails? ==> next >= since + wait(claimed[|nexts|].attempts))
             && u' == Exec(u, EarlyStatement(m, claimed[|nexts|].id, next))
    ensures TableUpTo(w, a, t, u', claimed, nexts + [next], since, wait)
  {
    assert |nexts + [next]| == |nexts| + 1;
    TableNext(w, a.mapped, t, claimed, nexts, next);
    PassedNext(w, a, claimed, |nexts|);
    RetriesWaitMore(w, a.mapped, claimed, nexts, next, since, wait);
  }

  lemma ListsNext(w: World, first: nat, claimed: seq<EventRow>, k: nat, mapped: seq<EventRow>, records: seq<Record>, log: seq<Settled>,
                  record: Option<Record>)
    requires ListsUpTo(w, first, claimed, k, mapped, records, log) && k < |claimed|
    requires var m := MappingOf(w, first + k, claimed[k]); record == if m.Mapped? then Some(m.record) else None
    ensures ListsUpTo(w, first, claimed, k + 1, MappedWith(mapped, claimed[k], record), RecordsWith(records, record),
                      log + EarlyEntry(MappingOf(w, first + k, claimed[k]), claimed[k].id))
  {
    EarlyNext(w, first, claimed, k);
    assert mapped + [] == mapped && records + [] == records;
  }

  lemma EntryPerCall(m: Mapping, id: Id)
    ensures |EarlyEntry(m, id)| == if NeedsStore(m) then 1 else 0
  {
  }

  lemma MappedNext(w: World, a: Calls, b: Calls, b': Calls, t: Table, u: Table, u': Table, claimed: seq<EventRow>, nexts: seq<Time>,
                   mapped: seq<EventRow>, records: seq<Record>, log: seq<Settled>, event: EventRow, record: Option<Record>,
                   next: Time, more: seq<Settled>, since: Time, wait: nat -> int)
    requires MappedUpTo(w, a, b, t, u, claimed, nexts, mapped, records, log, since, wait)
    requires |nexts| < |claimed| && event == claimed[|nexts|]
    requires OneDone(w, b, b', u, u', event, false, record, next, more, since, wait)
    ensures MappedUpTo(w, a, b', t, u', claimed, nexts + [next], MappedWith(mapped, event, record), RecordsWith(records, record),
                       log + more, since, wait)
  {
    EntryPerCall(MappingOf(w, b.mapped, event), event.id);
    assert |nexts + [next]| == |nexts| + 1 && |log + more| == |log| + |more|;
    ListsNext(w, a.mapped, claimed, |nexts|, mapped, records, log, record);
    TableUpToNext(w, a, t, u, u', claimed, nexts, next, since, wait);
  }

  /** The mapping of a batch, to its end or to where it stopped. */
  ghost predicate MappingDone(w: World, a: Calls, b: Calls, t: Table, t': Table, claimed: seq<EventRow>, nexts: seq<Time>,
                              mapped: seq<EventRow>, records: seq<Record>, log: seq<Settled>, since: Time, wait: nat -> int)
  {
    && |nexts| <= |claimed|
    && log == EarlyLog(w, a.mapped, claimed[..|nexts|])
    && if |nexts| < |claimed| then
         && b.control == a.control && MappingStops(w, a, b, claimed, |nexts|, a.store + |log|)
         && TableUpTo(w, a, t, t', claimed, nexts, since, wait)
       else MappedUpTo(w, a, b, t, t', claimed, nexts, mapped, records, log, since, wait)
  }

  lemma MappingBroke(w: World, a: Calls, b: Calls, b': Calls, t: Table, u: Table, u': Table, claimed: seq<EventRow>, nexts: seq<Time>,
                     mapped: seq<EventRow>, records: seq<Record>, log: seq<Settled>, event: EventRow, record: Option<Record>,
                     next: Time, more: seq<Settled>, since: Time, wait: nat -> int)
    requires MappedUpTo(w, a, b, t, u, claimed, nexts, mapped, records, log, since, wait)
    requires |nexts| < |claimed| && event == claimed[|nexts|]
    requires OneDone(w, b, b', u, u', event, true, record, next, more, since, wait)
    ensures MappingDone(w, a, b', t, u', claimed, nexts, mapped, records, log + more, since, wait)
  {
    assert log + [] == log;
  }

  /** The results of an accepted post were settled, or a store call failed over it. */
  ghost predicate ResultsDone(w: World, a: Calls, b: Calls, t: Table, t': Table, batch: seq<EventRow>, bulk: string, threw: bool,
                              e: Ending, log: seq<Settled>)
  {
    var failed := PolledRejections(w, bulk, a.poll, 0);
    && b == a.(poll := a.poll + PollsMade(w, bulk, a.poll, 0), store := b.store)
    && SettledBy(w, a.store, b.store, batch, bulk, failed, threw, e)
    && t' == EndingTable(t, batch, Accepted(bulk), failed, e)
    && log == LateLog(batch, failed, e)
  }

  /** The batch was parked or retried as a whole, or the store call for it failed. */
  ghost predicate FailureDone(w: World, a: Calls, b: Calls, t: Table, t': Table, batch: seq<EventRow>, reply: Reply, threw: bool,
                              next: Time, log: seq<Settled>, since: Time, wait: nat -> int)
  {
    && b == a.(store := a.store + 1) && threw == !StoreUp(w, a.store)
    && next >= since + wait(MaxAttempts(batch))
    && t' == (if threw then t
              else if IsPermanent(reply) then Exec(t, ParkIds(Elements(Ids(batch)), ErrorText(reply)))
              else Exec(t, FailIds(Elements(Ids(batch)), next, ErrorText(reply))))
    && log == if threw then [] else Entries(Ids(batch), if IsPermanent(reply) then AsParked else AsRetried)
  }

  /** The records were posted and their rows settled, parked or retried, or a store call failed over that. */
  ghost predicate PostDone(w: World, a: Calls, b: Calls, t: Table, t': Table, batch: seq<EventRow>, records: seq<Record>,
                           e: Ending, log: seq<Settled>, since: Time, wait: nat -> int)
  {
    var reply := PostOutcome(w, records, a.post, 0);
    var failed := FailedFor(w, reply, a.poll);
    && b.mapped == a.mapped && b.control == a.control && PostCalled(w, a, b, records)
    && Ends(w, a.store, b.store, batch, reply, failed, e)
    && (e.BatchRetried? ==> e.next >= since + wait(MaxAttempts(batch)))
    && t' == EndingTable(t, batch, reply, failed, e)
    && log == LateLog(batch, failed, e)
  }

  lemma ResultsArePosted(w: World, a: Calls, p: Calls, b: Calls, t: Table, t': Table, batch: seq<EventRow>, records: seq<Record>,
                         reply: Reply, e: Ending, log: seq<Settled>, since: Time, wait: nat -> int)
    requires reply == PostOutcome(w, records, a.post, 0) && p == a.(post := a.post + PostsMade(w, records, a.post, 0))
    requires reply.Accepted? && ResultsDone(w, p, b, t, t', batch, reply.bulk, false, e, log)
    ensures PostDone(w, a, b, t, t', batch, records, e, log, since, wait)
  {
    assert reply == Accepted(reply.bulk);
  }

  lemma SplitBroke(w: World, p: nat, t: Table, t': Table, batch: seq<EventRow>, bulk: string, failed: set<string>, partly: bool)
    requires failed != {} && (if partly then StoreUp(w, p) && !StoreUp(w, p + 1) else !StoreUp(w, p))
    requires t' == if partly then Exec(t, ParkIds(Elements(Ids(Select(failed, batch, true))), REJECTED)) else t
    ensures SettledBy(w, p, if partly then p + 2 else p + 1, batch, bulk, failed, true, Broken(partly))
    ensures t' == EndingTable(t, batch, Accepted(bulk), failed, Broken(partly)) && LateLog(batch, failed, Broken(partly)) == []
  {
  }

  lemma SplitMade(w: World, p: nat, t: Table, u: Table, t': Table, batch: seq<EventRow>, bulk: string, failed: set<string>, at: Time)
    requires batch != [] && failed != {} && StoreUp(w, p) && StoreUp(w, p + 1)
    requires u == Exec(t, ParkIds(Elements(Ids(Select(failed, batch, true))), REJECTED))
    requires t' == Exec(u, DeliverIds(Elements(Ids(Select(failed, batch, false))), at, Some(bulk)))
    ensures SettledBy(w, p, p + 2, batch, bulk, failed, false, SplitUp(at))
    ensures t' == EndingTable(t, batch, Accepted(bulk), failed, SplitUp(at)) && LateLog(batch, failed, SplitUp(at)) == SplitLog(batch, failed)
  {
  }

  lemma BrokenSaysNothing(w: World, a: Calls, b: Calls, t: Table, t': Table, batch: seq<EventRow>, bulk: string, e: Ending,
                          log: seq<Settled>)
    requires ResultsDone(w, a, b, t, t', batch, bulk, true, e, log)
    ensures e.Broken? && log == []
  {
  }

  /** How a batch ends that is parked or retried as a whole. */
  function FailureEnding(reply: Reply, partly: bool, threw: bool, next: Time): Ending {
    if threw then Broken(partly) else if IsPermanent(reply) then BatchParked else BatchRetried(partly, next)
  }

  lemma RefusalIsPosted(w: World, a: Calls, p: Calls, b: Calls, t: Table, t': Table, batch: seq<EventRow>, records: seq<Record>,
                        reply: Reply, threw: bool, next: Time, log: seq<Settled>, since: Time, wait: nat -> int)
    requires reply == PostOutcome(w, records, a.post, 0) && p == a.(post := a.post + PostsMade(w, records, a.post, 0))
    requires batch != [] && !reply.Accepted? && FailureDone(w, p, b, t, t', batch, reply, threw, next, log, since, wait)
    ensures PostDone(w, a, b, t, t', batch, records, FailureEnding(reply, false, threw, next), log, since, wait)
  {
  }

  lemma BreakIsPosted(w: World, a: Calls, p: Calls, q: Calls, b: Calls, t: Table, u: Table, t': Table, batch: seq<EventRow>,
                      records: seq<Record>, reply: Reply, e: Ending, early: seq<Settled>, threw: bool, next: Time, log: seq<Settled>,
                      since: Time, wait: nat -> int)
    requires reply == PostOutcome(w, records, a.post, 0) && p == a.(post := a.post + PostsMade(w, records, a.post, 0))
    requires batch != [] && reply.Accepted? && ResultsDone(w, p, q, t, u, batch, reply.bulk, true, e, early)
    requires FailureDone(w, q, b, u, t', batch, reply, threw, next, log, since, wait)
    ensures PostDone(w, a, b, t, t', batch, records, FailureEnding(reply, e.partly, threw, next), log, since, wait)
  {
    assert reply == Accepted(reply.bulk);
  }

  /** The table after the batch is that of its statements, and its calls are accounted for. */
  ghost predicate BatchDone(w: World, a: Calls, b: Calls, t: Table, t': Table, r: BatchRun, log: seq<Settled>, since: Time, wait: nat -> int) {
    BatchOk(w, a, b, r, since, wait) && t' == BatchTable(w, a, t, r) && log == BatchLog(w, a, r)
  }

  lemma StopIsBatch(w: World, a: Calls, b: Calls, t: Table, t': Table, claimed: seq<EventRow>, nexts: seq<Time>,
                    mapped: seq<EventRow>, records: seq<Record>, log: seq<Settled>, since: Time, wait: nat -> int)
    requires MappingDone(w, a, b, t, t', claimed, nexts, mapped, records, log, since, wait) && |nexts| < |claimed|
    ensures BatchDone(w, a, b, t, t', Handling(claimed, nexts, NotPosted), log, since, wait)
  {
    AppendNothing(log);
  }

  lemma NoPostIsBatch(w: World, a: Calls, b: Calls, t: Table, t': Table, claimed: seq<EventRow>, nexts: seq<Time>,
                      mapped: seq<EventRow>, records: seq<Record>, log: seq<Settled>, since: Time, wait: nat -> int)
    requires MappedUpTo(w, a, b, t, t', claimed, nexts, mapped, records, log, since, wait) && |nexts| == |claimed| && records == []
    ensures BatchDone(w, a, b, t, t', Handling(claimed, nexts, NotPosted), log, since, wait)
  {
    AppendNothing(log);
    assert claimed[..|nexts|] == claimed;
    RecordPerRow(w, a.mapped, claimed);
  }

  /** Mapping stopped, or left nothing to post. */
  lemma MappingIsBatch(w: World, a: Calls, b: Calls, t: Table, t': Table, claimed: seq<EventRow>, nexts: seq<Time>,
                       mapped: seq<EventRow>, records: seq<Record>, log: seq<Settled>, since: Time, wait: nat -> int)
    requires MappingDone(w, a, b, t, t', claimed, nexts, mapped, records, log, since, wait)
    requires |nexts| < |claimed| || records == []
    ensures BatchDone(w, a, b, t, t', Handling(claimed, nexts, NotPosted), log, since, wait)
  {
    if |nexts| < |claimed| {
      StopIsBatch(w, a, b, t, t', claimed, nexts, mapped, records, log, since, wait);
    } else {
      NoPostIsBatch(w, a, b, t, t', claimed, nexts, mapped, records, log, since, wait);
    }
  }

  lemma PostIsBatch(w: World, a: Calls, p: Calls, b: Calls, t: Table, u: Table, t': Table, claimed: seq<EventRow>, nexts: seq<Time>,
                    mapped: seq<EventRow>, records: seq<Record>, early: seq<Settled>, e: Ending, late: seq<Settled>, since: Time,
                    wait: nat -> int)
    requires MappingDone(w, a, p, t, u, claimed, nexts, mapped, records, early, since, wait) && |nexts| == |claimed| && mapped != []
    requires PostDone(w, p, b, u, t', mapped, records, e, late, since, wait)
    ensures BatchDone(w, a, b, t, t', Handling(claimed, nexts, e), early + late, since, wait)
  {
    assert claimed[..|nexts|] == claimed;
    assert PostOutcome(w, records, p.post, 0) == ReplyOf(w, a, claimed);
    PostIsOk(w, a, p, b, Handling(claimed, nexts, e), records, since, wait);
  }

  lemma PostIsOk(w: World, a: Calls, p: Calls, b: Calls, r: BatchRun, records: seq<Record>, since: Time, wait: nat -> int)
    requires |r.nexts| == |r.claimed| && Handled(r) == r.claimed && MappedRows(w, a.mapped, r.claimed) != []
    requires Passed(w, a, r.claimed) && RetriesWait(w, a.mapped, r.claimed, r.nexts, since, wait)
    requires p == a.(mapped := a.mapped + |r.claimed|, store := a.store + |EarlyLog(w, a.mapped, r.claimed)|)
    requires records == MappedRecords(w, a.mapped, r.claimed)
    requires b.mapped == p.mapped && b.control == p.control && PostCalled(w, p, b, records)
    requires Ends(w, p.store, b.store, MappedRows(w, a.mapped, r.claimed), ReplyOf(w, a, r.claimed), FailedOf(w, a, r.claimed), r.ending)
    requires r.ending.BatchRetried? ==> r.ending.next >= since + wait(MaxAttempts(MappedRows(w, a.mapped, r.claimed)))
    ensures BatchOk(w, a, b, r, since, wait)
  {
    assert PostCalled(w, a, b, records);
  }

  // ---- what becomes of each row ----

  function EarlyRow(m: Mapping, c: EventRow, next: Time): EventRow {
    match m
    case Unmappable(reason) => ParkedRow(c, reason)
    case EnrichmentFails(message) => FailedRow(c, next, message)
    case _ => c
  }

  function EndRow(c: EventRow, rejected: bool, reply: Reply, e: Ending): EventRow {
    match e
    case NotPosted => c
    case AllDelivered(at) => DeliveredRow(c, at, BulkOf(reply))
    case SplitUp(at) => if rejected then ParkedRow(c, REJECTED) else DeliveredRow(c, at, BulkOf(reply))
    case BatchParked => ParkedRow(c, ErrorText(reply))
    case BatchRetried(_, next) => FailedRow(c, next, ErrorText(reply))
    case Broken(partly) => if partly && rejected then ParkedRow(c, REJECTED) else c
  }

  /** The result of event `k` is among the rejected ones. */
  predicate IsRejectedAt(w: World, a: Calls, claimed: seq<EventRow>, k: nat)
    requires k < |claimed|
  {
    IsRejected(FailedOf(w, a, claimed), claimed[k], |MappedRows(w, a.mapped, claimed[..k])|)
  }

  /** The row of event `k` after the batch. */
  function RowEnd(w: World, a: Calls, r: BatchRun, k: nat): EventRow
    requires k < |r.claimed|
  {
    var c, m := r.claimed[k], MappingOf(w, a.mapped + k, r.claimed[k]);
    if k >= |r.nexts| then c
    else if m.Mapped? then EndRow(c, IsRejectedAt(w, a, r.claimed, k), ReplyOf(w, a, r.claimed), r.ending)
    else EarlyRow(m, c, r.nexts[k])
  }

  function LateVerdict(rejected: bool, e: Ending): Option<Verdict> {
    match e
    case AllDelivered(_) => Some(AsDelivered)
    case SplitUp(_) => Some(if rejected then AsParked else AsDelivered)
    case BatchParked => Some(AsParked)
    case BatchRetried(_, _) => Some(AsRetried)
    case _ => None
  }

  /** What is reported of event `k`, if anything. */
  function VerdictOf(w: World, a: Calls, r: BatchRun, k: nat): Option<Verdict>
    requires k < |r.claimed|
  {
    var m := MappingOf(w, a.mapped + k, r.claimed[k]);
    if k >= |r.nexts| then None
    else
      match m
      case Unmappable(_) => Some(AsParked)
      case EnrichmentFails(_) => Some(AsRetried)
      case Undecodable => None
      case Mapped(_) => LateVerdict(IsRejectedAt(w, a, r.claimed, k), r.ending)
  }

  // ---- bookkeeping ----

  /** The notifications so far, and the counts they add up to. */
  ghost predicate Booked(was: seq<Settled>, now: seq<Settled>, counts: Counts, after: Counts, log: seq<Settled>) {
    now == was + log && after == counts.Plus(CountsOf(log))
  }

  lemma NothingBooked(was: seq<Settled>, counts: Counts)
    ensures Booked(was, was, counts, counts, [])
  {
    assert was + [] == was;
  }

  /** The notifications of a cycle so far, and the counts that started from nothing. */
  ghost predicate Totalled(was: seq<Settled>, now: seq<Settled>, counts: Counts, log: seq<Settled>) {
    now == was + log && counts == CountsOf(log)
  }

  lemma NothingTotalled(was: seq<Settled>)
    ensures Totalled(was, was, NONE, [])
  {
    assert was + [] == was;
  }

  lemma TotalledNext(was: seq<Settled>, mid: seq<Settled>, now: seq<Settled>, counts: Counts, after: Counts,
                     log: seq<Settled>, more: seq<Settled>)
    requires Totalled(was, mid, counts, log) && Booked(mid, now, counts, after, more)
    ensures Totalled(was, now, after, log + more)
  {
    CountsAppend(log, more);
    AppendAssociates(was, log, more);
  }

  lemma BookedNothing(was: seq<Settled>, now: seq<Settled>, counts: Counts, after: Counts)
    requires Booked(was, now, counts, after, [])
    ensures now == was && after == counts
  {
    assert was + [] == was;
  }

  lemma BookedNext(was: seq<Settled>, mid: seq<Settled>, now: seq<Settled>, counts: Counts, between: Counts, after: Counts,
                   log: seq<Settled>, more: seq<Settled>)
    requires Booked(was, mid, counts, between, log) && Booked(mid, now, between, after, more)
    ensures Booked(was, now, counts, after, log + more)
  {
    CountsAppend(log, more);
    AppendAssociates(was, log, more);
    PlusAssociates(counts, CountsOf(log), CountsOf(more));
  }

  lemma AppendNothing(log: seq<Settled>)
    ensures log + [] == log
  {
  }

  lemma AppendAssociates(a: seq<Settled>, b: seq<Settled>, c: seq<Settled>)
    ensures (a + b) + c == a + (b + c)
  {
  }

  lemma PlusAssociates(a: Counts, b: Counts, c: Counts)
    ensures a.Plus(b).Plus(c) == a.Plus(b.Plus(c))
  {
  }

  /** No delay is longer than `slack`. */
  ghost predicate IsMostDelay(slack: nat, cfg: Settings) {
    forall capMs: nat {:trigger MostMs(capMs)} :: capMs == cfg.backoffCapMs ==> MostMs(capMs) <= slack
  }

  ghost predicate IsLeastDelay(wait: nat -> int, cfg: Settings) {
    forall n: nat {:trigger LeastMs(n, cfg.backoffBaseMs, cfg.backoffCapMs)} ::
      wait(n) == LeastMs(n, cfg.backoffBaseMs, cfg.backoffCapMs)
  }
}
