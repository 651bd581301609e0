/** What the answers of End Close decide: the posts and polls that were made, and what they make of each row. */
module Answers {
  import opened Prelude
  import opened EventTable
  import opened Digits
  import opened BulkResults
  import opened Settlement
  import opened Outside
  import opened Batches
  import opened Fates
  import opened Cycles

  // ---- posts and polls ----

  /**
   A batch is posted until an answer is no transient error, at most three times: `made` posts, all but the last of them
   transient errors, and the last one's answer counts.
   */
  lemma {:induction false} PostsAre(w: World, records: seq<Record>, call: nat, attempt: nat)
    requires attempt <= 2
    ensures var made := PostsMade(w, records, call, attempt);
            && 1 <= made <= 3 - attempt
            && PostOutcome(w, records, call, attempt) == w.post(call + made - 1, records)
            && (forall n: nat | call <= n < call + made - 1 :: w.post(n, records).Transient?)
            && (w.post(call + made - 1, records).Transient? ==> made == 3 - attempt)
    decreases 2 - attempt
  {
    if w.post(call, records).Transient? && attempt < 2 {
      PostsAre(w, records, call + 1, attempt + 1);
    }
  }

  /** An item that names a row, as rejected. */
  predicate Rejects(items: seq<ResultItem>, key: string) {
    exists i | 0 <= i < |items| ::
      && (items[i].status == "failed" || items[i].status == "rejected")
      && match items[i].externalId
         case Some(id) => key == id
         case None => key == if items[i].index.Some? then Dec(items[i].index.value) else "undefined"
  }

  lemma RejectedAre(items: seq<ResultItem>, key: string)
    ensures key in RejectedKeys(items) <==> Rejects(items, key)
  {
    if key in RejectedKeys(items) {
      var item :| item in items && IsRejection(item) && ResultKey(item) == key;
      var i :| 0 <= i < |items| && items[i] == item;
    }
    if Rejects(items, key) {
      var i :| 0 <= i < |items| && IsRejection(items[i]) && ResultKey(items[i]) == key;
      assert items[i] in items;
    }
  }

  /**
   The results of an accepted post are polled for until they have settled or a poll fails, at most five times. The
   rejected keys are those of the last poll's results, and there are none if it brought no results.
   */
  lemma {:induction false} PollsAre(w: World, bulk: string, call: nat, attempt: nat, key: string)
    requires attempt < 5
    ensures var made := PollsMade(w, bulk, call, attempt);
            && 1 <= made <= 5 - attempt
            && (forall n: nat | call <= n < call + made - 1 :: w.poll(n, bulk).Unsettled?)
            && (w.poll(call + made - 1, bulk).Unsettled? ==> made == 5 - attempt)
            && (key in PolledRejections(w, bulk, call, attempt) <==>
                  w.poll(call + made - 1, bulk).Results? && Rejects(w.poll(call + made - 1, bulk).items, key))
    decreases 5 - attempt
  {
    match w.poll(call, bulk)
    case PollFails =>
    case Results(items) => RejectedAre(items, key);
    case Unsettled =>
      if attempt < 4 {
        PollsAre(w, bulk, call + 1, attempt + 1, key);
      }
  }

  // ---- what the answer to the post makes of a row ----

  /** Back in the queue, with one attempt more. */
  predicate IsRetried(c: EventRow, row: EventRow, message: string) {
    && row.status == Retry && row.attempts == c.attempts + 1 && row.lastError == Some(Clip(message))
    && row.nextAttemptAt.Some? && row.claimedBy.None? && row.leaseUntil.None?
  }

  /** Given up, until someone replays it. */
  predicate IsGivenUp(c: EventRow, row: EventRow, reason: string) {
    && row.status == Parked && row.attempts == c.attempts && row.lastError == Some(Clip(reason))
    && row.claimedBy.None? && row.leaseUntil.None?
  }

  predicate IsSent(c: EventRow, row: EventRow, bulk: string) {
    && row.status == Delivered && row.attempts == c.attempts && row.bulkRequestId == Some(bulk)
    && row.deliveredAt.Some? && row.lastError.None? && row.claimedBy.None? && row.leaseUntil.None?
  }

  /** The row of an event whose record was in the post, if the store answers every call. */
  predicate AsAnswered(reply: Reply, rejected: bool, c: EventRow, row: EventRow) {
    match reply
    case Accepted(bulk) =>
      if rejected then IsGivenUp(c, row, "rejected by End Close bulk processing") else IsSent(c, row, bulk)
    case Refused(status, message, body) =>
      if status == 400 || status == 422 then IsGivenUp(c, row, message + ": " + body) else IsRetried(c, row, message)
    case Transient(message) => IsRetried(c, row, message)
    case OtherError(message) => IsRetried(c, row, message)
  }

  /** The result of an event is rejected if a rejected key is its suffix, or its place among the records posted. */
  lemma RejectedMeans(w: World, a: Calls, claimed: seq<EventRow>, k: nat)
    requires k < |claimed|
    ensures var failed := FailedOf(w, a, claimed);
            IsRejectedAt(w, a, claimed, k) <==>
              || Suffix(claimed[k].info.eventId) in failed
              || Dec(|MappedRecords(w, a.mapped, claimed[..k])|) in failed
  {
    RecordPerRow(w, a.mapped, claimed[..k]);
  }

  /** Records are posted exactly if mapping went through all events and some event has one. */
  lemma PostedIff(w: World, a: Calls, b: Calls, r: BatchRun, since: Time, wait: nat -> int)
    requires BatchOk(w, a, b, r, since, wait)
    ensures a.post < b.post <==> |r.nexts| == |r.claimed| && SomeIsMapped(w, a.mapped, r.claimed)
  {
    var posts := PostsOf(w, a, b, r, since, wait);
    if |r.nexts| == |r.claimed| {
      SomeMapped(w, a.mapped, r.claimed);
    }
  }

  /** How many posts a batch makes. */
  lemma PostsOf(w: World, a: Calls, b: Calls, r: BatchRun, since: Time, wait: nat -> int) returns (posts: nat)
    requires BatchOk(w, a, b, r, since, wait)
    ensures b.post == a.post + posts
    ensures posts > 0 <==> |r.nexts| == |r.claimed| && MappedRows(w, a.mapped, r.claimed) != []
  {
    posts := 0;
    if |r.nexts| == |r.claimed| {
      AllWereCalled(w, a, b, r, since, wait);
      if MappedRows(w, a.mapped, r.claimed) != [] {
        posts := PostsMade(w, MappedRecords(w, a.mapped, r.claimed), a.post, 0);
        PostsAre(w, MappedRecords(w, a.mapped, r.claimed), a.post, 0);
      }
    }
  }

  /** Some event has a record. */
  predicate SomeIsMapped(w: World, first: nat, batch: seq<EventRow>) {
    exists k | 0 <= k < |batch| :: w.mapping(first + k, batch[k]).Mapped?
  }

  lemma AllWereCalled(w: World, a: Calls, b: Calls, r: BatchRun, since: Time, wait: nat -> int)
    requires BatchOk(w, a, b, r, since, wait) && |r.nexts| == |r.claimed|
    ensures b.post == a.post + if MappedRows(w, a.mapped, r.claimed) == [] then 0
                               else PostsMade(w, MappedRecords(w, a.mapped, r.claimed), a.post, 0)
  {
  }

  lemma {:induction false} SomeMapped(w: World, first: nat, batch: seq<EventRow>)
    ensures MappedRows(w, first, batch) != [] <==> SomeIsMapped(w, first, batch)
  {
    if batch != [] {
      var last := |batch| - 1;
      SomeMapped(w, first, batch[..last]);
      assert MappedRows(w, first, batch[..last]) + [] == MappedRows(w, first, batch[..last]);
      SomeMappedNext(w, first, batch);
    }
  }

  lemma SomeMappedNext(w: World, first: nat, batch: seq<EventRow>)
    requires batch != []
    ensures var last := |batch| - 1;
            SomeIsMapped(w, first, batch) <==> SomeIsMapped(w, first, batch[..last]) || w.mapping(first + last, batch[last]).Mapped?
  {
    var last := |batch| - 1;
    if SomeIsMapped(w, first, batch[..last]) {
      var k :| 0 <= k < last && w.mapping(first + k, batch[..last][k]).Mapped?;
      assert w.mapping(first + k, batch[k]).Mapped?;
    }
    if SomeIsMapped(w, first, batch) {
      var k :| 0 <= k < |batch| && w.mapping(first + k, batch[k]).Mapped?;
      assert k < last ==> w.mapping(first + k, batch[..last][k]).Mapped?;
    }
  }

  lemma EndWhenUp(w: World, a: Calls, b: Calls, r: BatchRun, since: Time, wait: nat -> int)
    requires BatchOk(w, a, b, r, since, wait) && a.post < b.post && !StoreFailed(w, a, b)
    ensures |r.nexts| == |r.claimed|
    ensures var reply := ReplyOf(w, a, r.claimed);
            if reply.Accepted? then
              (r.ending.AllDelivered? && FailedOf(w, a, r.claimed) == {}) || r.ending.SplitUp?
            else if reply.Refused? && (reply.status == 400 || reply.status == 422) then r.ending.BatchParked?
            else r.ending.BatchRetried?
  {
    assert forall n: nat | a.store <= n < b.store :: StoreUp(w, n);
  }

  /**
   When no store call of the batch fails, the answer to its post decides about every event that was in it: 400 and 422
   park it, any other refusal and any other failure puts it back in the queue with one attempt more, and an accepted post
   delivers it or parks it by its own result.
   */
  lemma AnswerDecides(w: World, a: Calls, b: Calls, r: BatchRun, since: Time, wait: nat -> int, k: nat)
    requires BatchOk(w, a, b, r, since, wait) && a.post < b.post && !StoreFailed(w, a, b)
    requires k < |r.claimed| && w.mapping(a.mapped + k, r.claimed[k]).Mapped?
    ensures AsAnswered(ReplyOf(w, a, r.claimed), IsRejectedAt(w, a, r.claimed, k), r.claimed[k], RowEnd(w, a, r, k))
  {
    EndWhenUp(w, a, b, r, since, wait);
    if FailedOf(w, a, r.claimed) == {} {
      NoneRejected(w, a, r.claimed, k);
    }
  }

  /**
   The same with store calls that fail, from number `p` on. An accepted post is settled by one call, or by two if results
   were rejected; when one of them fails the whole batch is put back in the queue, parked rows included, though End Close
   has its records; and when the call for that fails as well the rows stay as the calls before it left them.
   */
  predicate ByStoreCalls(w: World, p: nat, reply: Reply, split: bool, rejected: bool, c: EventRow, row: EventRow) {
    match reply
    case Accepted(_) =>
      if w.storeUp(p) && (!split || w.storeUp(p + 1)) then AsAnswered(reply, rejected, c, row)
      else
        var next := if split && w.storeUp(p) then p + 2 else p + 1;
        if w.storeUp(next) then IsRetried(c, row, ErrorText(reply))
        else if split && w.storeUp(p) && rejected then IsGivenUp(c, row, "rejected by End Close bulk processing")
        else row == c
    case _ => if w.storeUp(p) then AsAnswered(reply, rejected, c, row) else row == c
  }

  lemma EndByCalls(w: World, a: Calls, b: Calls, r: BatchRun, since: Time, wait: nat -> int) returns (p: nat)
    requires BatchOk(w, a, b, r, since, wait) && a.post < b.post
    ensures |r.nexts| == |r.claimed| && p == a.store + |EarlyLog(w, a.mapped, r.claimed)|
    ensures p < b.store && Ends(w, p, b.store, MappedRows(w, a.mapped, r.claimed), ReplyOf(w, a, r.claimed), FailedOf(w, a, r.claimed), r.ending)
    ensures forall n: nat | a.store <= n < p :: StoreUp(w, n)
  {
    p := a.store + |EarlyLog(w, a.mapped, r.claimed)|;
    assert Handled(r) == r.claimed;
  }

  /** Each posted row is decided by the answer, its result, and which of the store calls were answered. */
  lemma StoreCallsDecide(w: World, a: Calls, b: Calls, r: BatchRun, since: Time, wait: nat -> int, k: nat) returns (p: nat)
    requires BatchOk(w, a, b, r, since, wait) && a.post < b.post
    requires k < |r.claimed| && w.mapping(a.mapped + k, r.claimed[k]).Mapped?
    ensures p == a.store + |EarlyLog(w, a.mapped, r.claimed)|
    ensures ByStoreCalls(w, p, ReplyOf(w, a, r.claimed), FailedOf(w, a, r.claimed) != {}, IsRejectedAt(w, a, r.claimed, k),
                         r.claimed[k], RowEnd(w, a, r, k))
  {
    p := EndByCalls(w, a, b, r, since, wait);
    if FailedOf(w, a, r.claimed) == {} {
      NoneRejected(w, a, r.claimed, k);
    }
    PostedRow(w, a, r, k);
    ByEnding(w, p, b.store, MappedRows(w, a.mapped, r.claimed), ReplyOf(w, a, r.claimed), FailedOf(w, a, r.claimed),
             IsRejectedAt(w, a, r.claimed, k), r.claimed[k], r.ending);
  }

  lemma PostedRow(w: World, a: Calls, r: BatchRun, k: nat)
    requires k < |r.nexts| && k < |r.claimed| && MappingOf(w, a.mapped + k, r.claimed[k]).Mapped?
    ensures RowEnd(w, a, r, k) == EndRow(r.claimed[k], IsRejectedAt(w, a, r.claimed, k), ReplyOf(w, a, r.claimed), r.ending)
  {
  }

  lemma ByEnding(w: World, p: nat, q: nat, batch: seq<EventRow>, reply: Reply, failed: set<string>, rejected: bool, c: EventRow, e: Ending)
    requires Ends(w, p, q, batch, reply, failed, e) && p < q && (failed == {} ==> !rejected)
    ensures ByStoreCalls(w, p, reply, failed != {}, rejected, c, EndRow(c, rejected, reply, e))
  {
  }

  lemma BatchOfVisit(w: World, terms: Terms, at: Time, t: Table, v: Visit)
    requires VisitOk(w, terms, at, t, v) && v.Visited?
    ensures BatchOk(w, Start(v), v.settled, v.run, v.since, terms.wait) && SettledSince(v.run.ending, v.since)
  {
  }

  lemma DeliveredLater(w: World, a: Calls, r: BatchRun, k: nat, since: Time)
    requires k < |r.claimed| && SettledSince(r.ending, since) && r.claimed[k].status == Delivering
    requires RowEnd(w, a, r, k).status == Delivered
    ensures RowEnd(w, a, r, k).deliveredAt.Some? && RowEnd(w, a, r, k).deliveredAt.value >= since
  {
  }

  /** So the visit leaves it. */
  lemma VisitAsAnswered(w: World, terms: Terms, at: Time, t: Table, v: Visit, k: nat)
    requires VisitOk(w, terms, at, t, v) && k < |Claimed(v)| && !StoreFailed(w, Start(v), v.settled)
    requires Start(v).post < v.settled.post && w.mapping(Start(v).mapped + k, Claimed(v)[k]).Mapped?
    ensures AsAnswered(ReplyOf(w, Start(v), v.run.claimed), IsRejectedAt(w, Start(v), v.run.claimed, k), Claimed(v)[k], VisitRow(w, v, k))
    ensures VisitRow(w, v, k).status == Delivered ==> VisitRow(w, v, k).deliveredAt.value >= v.since
  {
    BatchOfVisit(w, terms, at, t, v);
    AnswerDecides(w, Start(v), v.settled, v.run, v.since, terms.wait, k);
    if VisitRow(w, v, k).status == Delivered {
      assert Claimed(v)[k].status == Delivering;
      DeliveredLater(w, Start(v), v.run, k, v.since);
    }
  }

  // ---- what mapping makes of a row ----

  /** The row of an event that mapping gave no record for, once it was handled. */
  predicate AsMapped(m: Mapping, c: EventRow, row: EventRow) {
    match m
    case Unmappable(reason) => IsGivenUp(c, row, reason)
    case EnrichmentFails(message) => IsRetried(c, row, message)
    case _ => row == c
  }

  /**
   An event that the map or an enrichment refuses is given up, one whose enrichment fails is retried, and one that does
   not decode stays as it was claimed, whatever becomes of the others.
   */
  lemma MappingDecides(w: World, a: Calls, b: Calls, r: BatchRun, since: Time, wait: nat -> int, k: nat)
    requires BatchOk(w, a, b, r, since, wait) && k < |r.claimed| && !w.mapping(a.mapped + k, r.claimed[k]).Mapped?
    ensures k < |r.nexts| ==> AsMapped(w.mapping(a.mapped + k, r.claimed[k]), r.claimed[k], RowEnd(w, a, r, k))
    ensures k >= |r.nexts| ==> RowEnd(w, a, r, k) == r.claimed[k] && b.post == a.post
    ensures w.mapping(a.mapped + k, r.claimed[k]).Undecodable? ==> k >= |r.nexts| && Threw(r)
  {
    if k < |r.nexts| {
      assert Handled(r)[k] == r.claimed[k];
      assert !MappingOf(w, a.mapped + k, Handled(r)[k]).Undecodable?;
    }
  }
}
