/** What a dispatcher reports about the rows of a batch, and what it means for a report to match the table. */
module Settlement {
  import opened Prelude
  import opened EventTable

  datatype Verdict = AsDelivered | AsRetried | AsParked

  /** One `settled` notification. */
  datatype Settled = Settled(id: Id, verdict: Verdict)

  datatype Counts = Counts(delivered: nat, retried: nat, parked: nat)
  {
    function Plus(c: Counts): Counts {
      Counts(delivered + c.delivered, retried + c.retried, parked + c.parked)
    }

    function Touched(): nat {
      delivered + retried + parked
    }
  }

  const NONE := Counts(0, 0, 0)

  function StatusOf(v: Verdict): Status {
    match v
    case AsDelivered => Delivered
    case AsRetried => Retry
    case AsParked => Parked
  }

  function CountOf(v: Verdict, n: nat): Counts {
    match v
    case AsDelivered => Counts(n, 0, 0)
    case AsRetried => Counts(0, n, 0)
    case AsParked => Counts(0, 0, n)
  }

  function Entries(ids: seq<Id>, v: Verdict): (log: seq<Settled>)
    ensures |log| == |ids|
    ensures forall k | 0 <= k < |ids| :: log[k] == Settled(ids[k], v)
  {
    seq(|ids|, k requires 0 <= k < |ids| => Settled(ids[k], v))
  }

  function LogIds(log: seq<Settled>): (ids: seq<Id>)
    ensures |ids| == |log|
    ensures forall k | 0 <= k < |log| :: ids[k] == log[k].id
  {
    seq(|log|, k requires 0 <= k < |log| => log[k].id)
  }

  function CountsOf(log: seq<Settled>): Counts {
    if log == [] then NONE else CountsOf(log[..|log| - 1]).Plus(CountOf(log[|log| - 1].verdict, 1))
  }

  lemma {:induction false} CountsAppend(log: seq<Settled>, more: seq<Settled>)
    ensures CountsOf(log + more) == CountsOf(log).Plus(CountsOf(more))
    decreases |more|
  {
    if more == [] {
      assert log + more == log;
    } else {
      var last := |more| - 1;
      assert (log + more)[..|log| + last] == log + more[..last];
      CountsAppend(log, more[..last]);
    }
  }

  lemma {:induction false} CountsOfEntries(ids: seq<Id>, v: Verdict)
    ensures CountsOf(Entries(ids, v)) == CountOf(v, |ids|)
    decreases |ids|
  {
    if ids != [] {
      assert Entries(ids, v)[..|ids| - 1] == Entries(ids[..|ids| - 1], v);
      CountsOfEntries(ids[..|ids| - 1], v);
    }
  }

  lemma {:induction false} CountsCountEach(log: seq<Settled>)
    ensures CountsOf(log).Touched() == |log|
    decreases |log|
  {
    if log != [] {
      CountsCountEach(log[..|log| - 1]);
    }
  }

  /** Every notification names the status the table holds. */
  predicate Agrees(t: Table, log: seq<Settled>) {
    forall k | 0 <= k < |log| :: log[k].id in t && t[log[k].id].status == StatusOf(log[k].verdict)
  }

  function ByStatus(t: Table, ids: set<Id>, status: Status): set<Id> {
    set id | id in ids && id in t && t[id].status == status
  }

  lemma ByStatusNext(t: Table, ids: set<Id>, id: Id, status: Status)
    requires id in t && id !in ids
    ensures |ByStatus(t, ids + {id}, status)| == |ByStatus(t, ids, status)| + if t[id].status == status then 1 else 0
  {
    if t[id].status == status {
      assert ByStatus(t, ids + {id}, status) == ByStatus(t, ids, status) + {id};
    } else {
      assert ByStatus(t, ids + {id}, status) == ByStatus(t, ids, status);
    }
  }

  function RowCounts(t: Table, ids: set<Id>): Counts {
    Counts(|ByStatus(t, ids, Delivered)|, |ByStatus(t, ids, Retry)|, |ByStatus(t, ids, Parked)|)
  }

  lemma RowCountsNext(t: Table, ids: set<Id>, entry: Settled)
    requires entry.id in t && entry.id !in ids && t[entry.id].status == StatusOf(entry.verdict)
    ensures RowCounts(t, ids + {entry.id}) == RowCounts(t, ids).Plus(CountOf(entry.verdict, 1))
  {
    ByStatusNext(t, ids, entry.id, Delivered);
    ByStatusNext(t, ids, entry.id, Retry);
    ByStatusNext(t, ids, entry.id, Parked);
  }

  lemma LogIdsLast(log: seq<Settled>)
    requires log != [] && Distinct(LogIds(log))
    ensures var before, entry := log[..|log| - 1], log[|log| - 1];
            && Distinct(LogIds(before)) && entry.id !in Elements(LogIds(before))
            && Elements(LogIds(log)) == Elements(LogIds(before)) + {entry.id}
  {
    var before, entry := log[..|log| - 1], log[|log| - 1];
    assert LogIds(before) == LogIds(log)[..|log| - 1];
    assert LogIds(log) == LogIds(before) + [entry.id];
  }

  /** Counts of notifications are counts of rows in the table. */
  lemma {:induction false} CountsCountRows(t: Table, log: seq<Settled>)
    requires Distinct(LogIds(log)) && Agrees(t, log)
    ensures CountsOf(log) == RowCounts(t, Elements(LogIds(log)))
    decreases |log|
  {
    if log == [] {
      NoRowsCounted(t, Elements(LogIds(log)));
    } else {
      var last := |log| - 1;
      LogIdsLast(log);
      CountsCountRows(t, log[..last]);
      RowCountsNext(t, Elements(LogIds(log[..last])), log[last]);
    }
  }

  lemma NoRowsCounted(t: Table, ids: set<Id>)
    requires ids == {}
    ensures RowCounts(t, ids) == NONE
  {
    assert ByStatus(t, ids, Delivered) == {} && ByStatus(t, ids, Retry) == {} && ByStatus(t, ids, Parked) == {};
  }

  /** Only these rows changed, and none became another event or lost its payload. */
  predicate OnlyRows(t: Table, t': Table, ids: set<Id>) {
    && t'.Keys == t.Keys
    && forall id | id in t :: SameEvent(t[id], t'[id]) && t'[id].body == t[id].body && (id !in ids ==> t'[id] == t[id])
  }

  // ---- id lists ----

  /** `all` split into two lists without repetition. */
  predicate Splits(all: seq<Id>, a: seq<Id>, b: seq<Id>) {
    && Distinct(a) && Distinct(b)
    && Elements(a) !! Elements(b)
    && Elements(a) + Elements(b) == Elements(all)
  }

  lemma DistinctNext(s: seq<Id>, id: Id)
    requires Distinct(s) && id !in s
    ensures Distinct(s + [id])
    ensures Elements(s + [id]) == Elements(s) + {id}
  {
  }

  lemma SplitsNext(all: seq<Id>, a: seq<Id>, b: seq<Id>, id: Id)
    requires Splits(all, a, b) && id !in all
    ensures Splits(all + [id], a + [id], b) && Splits(all + [id], a, b + [id])
  {
    assert id !in Elements(all);
    assert id !in Elements(a) && id !in Elements(b);
    DistinctNext(a, id);
    DistinctNext(b, id);
    assert Elements(all + [id]) == Elements(all) + {id};
  }

  lemma DistinctConcat(a: seq<Id>, b: seq<Id>)
    requires Distinct(a) && Distinct(b) && Elements(a) !! Elements(b)
    ensures Distinct(a + b) && Elements(a + b) == Elements(a) + Elements(b)
  {
    forall i, j | 0 <= i < j < |a + b| ensures (a + b)[i] != (a + b)[j] {
      if i < |a| <= j {
        assert a[i] in Elements(a) && b[j - |a|] in Elements(b);
      }
    }
  }

  lemma LogIdsAppend(log: seq<Settled>, more: seq<Settled>)
    ensures LogIds(log + more) == LogIds(log) + LogIds(more)
  {
  }

  lemma LogIdsOfEntries(ids: seq<Id>, v: Verdict)
    ensures LogIds(Entries(ids, v)) == ids
  {
  }

  // ---- tables ----

  lemma OnlyRowsTrans(t: Table, u: Table, w: Table, a: set<Id>, b: set<Id>)
    requires OnlyRows(t, u, a) && OnlyRows(u, w, b)
    ensures OnlyRows(t, w, a + b)
  {
  }

  lemma OnlyRowsGrow(t: Table, u: Table, a: set<Id>, b: set<Id>)
    requires OnlyRows(t, u, a) && a <= b
    ensures OnlyRows(t, u, b)
  {
  }

  /** A statement on a list of rows. */
  predicate NamesRows(st: Statement) {
    st.Nothing? || st.ClaimIds? || st.DeliverIds? || st.FailIds? || st.ParkIds? || st.ReleaseIds?
  }

  /** Such a statement changes the rows it names, each by itself, and no others. */
  lemma MarksOnly(t: Table, st: Statement)
    requires Indexed(t) && NamesRows(st)
    ensures Indexed(Exec(t, st)) && OnlyRows(t, Exec(t, st), Targets(st))
    ensures forall id | id in t :: Exec(t, st)[id] == RowAfter(t[id], st)
  {
    forall id | id in t ensures id !in Targets(st) ==> RowAfter(t[id], st) == t[id] {
      if id !in Targets(st) {
        UntargetedRow(t[id], st);
      }
    }
  }

  /** One more statement on rows of `ids`. */
  lemma MarksMore(t: Table, u: Table, st: Statement, ids: set<Id>)
    requires Indexed(u) && OnlyRows(t, u, ids) && NamesRows(st) && Targets(st) <= ids
    ensures Indexed(Exec(u, st)) && OnlyRows(t, Exec(u, st), ids)
    ensures forall id | id in u :: Exec(u, st)[id] == RowAfter(u[id], st)
  {
    MarksOnly(u, st);
  }

  lemma NothingIsDone(t: Table)
    ensures Exec(t, Nothing) == t
  {
  }

  // ---- when queued rows come due ----

  const FAR_FUTURE: Time := 253_402_300_799_999   // the end of the year 9999

  /** Queued rows carry their next attempt, at a time the far future has passed. */
  predicate Scheduled(t: Table, far: Time) {
    forall id | id in t && IsQueued(t[id]) :: t[id].nextAttemptAt.Some? && t[id].nextAttemptAt.value <= far
  }

  /** The times a statement schedules by are before the far future. */
  predicate SchedulesBy(st: Statement, far: Time) {
    match st
    case Insert(_, e) => e.info.receivedAt <= far
    case FailIds(_, next, _) => next <= far
    case ReleaseIds(_, next, _) => next <= far
    case RecoverRows(now, _) => now <= far
    case ReplayRow(_, now) => now <= far
    case ReplayRows(now) => now <= far
    case _ => true
  }

  lemma ExecKeepsScheduled(t: Table, st: Statement, far: Time)
    requires Scheduled(t, far) && SchedulesBy(st, far)
    ensures Scheduled(Exec(t, st), far)
  {
    if !st.Insert? {
      forall id | id in Exec(t, st) && IsQueued(Exec(t, st)[id])
        ensures Exec(t, st)[id].nextAttemptAt.Some? && Exec(t, st)[id].nextAttemptAt.value <= far
      {
        RowStaysScheduled(t[id], st, far);
      }
    }
  }

  lemma RowStaysScheduled(r: EventRow, st: Statement, far: Time)
    requires IsQueued(r) ==> r.nextAttemptAt.Some? && r.nextAttemptAt.value <= far
    requires SchedulesBy(st, far)
    ensures var r' := RowAfter(r, st); IsQueued(r') ==> r'.nextAttemptAt.Some? && r'.nextAttemptAt.value <= far
  {
  }

  /** A stretch of work that ended at `now` leaves queued rows scheduled, as long as the far future is far enough off. */
  predicate OnTime(t: Table, t': Table, now: Time, slack: nat) {
    now + slack <= FAR_FUTURE && Scheduled(t, FAR_FUTURE) ==> Scheduled(t', FAR_FUTURE)
  }

  lemma StaysOnTime(t: Table, st: Statement, now: Time, slack: nat)
    requires SchedulesBy(st, now + slack)
    ensures OnTime(t, Exec(t, st), now, slack)
  {
    if now + slack <= FAR_FUTURE && Scheduled(t, FAR_FUTURE) {
      ExecKeepsScheduled(t, st, FAR_FUTURE);
    }
  }
}
