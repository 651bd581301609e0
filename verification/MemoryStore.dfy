/**
 The in-process event store, the reference semantics of the store contract: loops over rows kept in
 insertion order, with an index from idempotency key to id. Each method is proved to run exactly the
 statement the SQL store runs.

 Ids are assigned in insertion order, so walking the ids upwards is walking the rows as inserted.
 */
module MemoryStore {
  import opened Prelude
  import opened EventTable
  import opened Retention

  datatype InsertResult = Inserted(id: Id) | Duplicate

  /** The ids below `hi` that a WHERE clause selects. */
  function WhereBelow(t: Table, f: Filter, hi: Id): set<Id> {
    set id | id in t && id < hi && f.Admits(t[id])
  }

  /** One in-place bump per listed id, as a repeated id is listed more than once. */
  function FailEach(t: Table, ids: seq<Id>, next: Time, error: string): Table
    decreases |ids|
  {
    if ids == [] then t
    else
      var rest := FailEach(t, ids[..|ids| - 1], next, error);
      var id := ids[|ids| - 1];
      if id in rest then rest[id := FailedRow(rest[id], next, error)] else rest
  }

  function Count(ids: seq<Id>, id: Id): nat
    decreases |ids|
  {
    if ids == [] then 0
    else Count(ids[..|ids| - 1], id) + (if ids[|ids| - 1] == id then 1 else 0)
  }

  lemma {:induction false} FailEachRow(t: Table, ids: seq<Id>, next: Time, error: string, id: Id)
    ensures FailEach(t, ids, next, error).Keys == t.Keys
    ensures id in t ==>
              FailEach(t, ids, next, error)[id] ==
              if Count(ids, id) == 0 then t[id]
              else FailedRow(t[id], next, error).(attempts := t[id].attempts + Count(ids, id))
    decreases |ids|
  {
    if ids != [] {
      FailEachRow(t, ids[..|ids| - 1], next, error, id);
    }
  }

  lemma {:induction false} CountFacts(ids: seq<Id>, id: Id)
    ensures Count(ids, id) == 0 <==> id !in ids
    ensures Count(ids, id) > 1 <==> exists i, j :: 0 <= i < j < |ids| && ids[i] == ids[j] == id
    decreases |ids|
  {
    if ids != [] {
      var last := |ids| - 1;
      CountFacts(ids[..last], id);
      assert ids == ids[..last] + [ids[last]];
      if Count(ids, id) > 1 && ids[last] == id {
        var i :| 0 <= i < last && ids[..last][i] == id;
        assert ids[i] == ids[last] == id;
      }
      if i, j :| 0 <= i < j < |ids| && ids[i] == ids[j] == id {
        assert ids[..last][i] == id;
        assert j < last ==> ids[..last][j] == id;
      }
    }
  }

  /**
   The loop over picked rows agrees with `WHERE id IN (...)` exactly when no row is listed twice: SQL
   counts a repeated id once, the loop adds one attempt per occurrence.
   */
  lemma FailEachIsInIff(t: Table, ids: seq<Id>, next: Time, error: string)
    requires Keyed(t)
    ensures FailEach(t, ids, next, error) == Exec(t, FailIds(Elements(ids), next, error)) <==>
              forall i, j :: 0 <= i < j < |ids| && ids[i] == ids[j] ==> ids[i] !in t
  {
    var each, sql := FailEach(t, ids, next, error), Exec(t, FailIds(Elements(ids), next, error));
    forall id | id in t
      ensures id in each && (each[id] == sql[id] <==> Count(ids, id) <= 1)
    {
      FailEachRow(t, ids, next, error, id);
      CountFacts(ids, id);
    }
    FailEachRow(t, ids, next, error, 0);
    forall id ensures Count(ids, id) > 1 <==> exists i, j :: 0 <= i < j < |ids| && ids[i] == ids[j] == id {
      CountFacts(ids, id);
    }
    if forall i, j :: 0 <= i < j < |ids| && ids[i] == ids[j] ==> ids[i] !in t {
      assert forall id :: id in t ==> Count(ids, id) <= 1;
      assert each == sql;
    } else {
      var i, j :| 0 <= i < j < |ids| && ids[i] == ids[j] && ids[i] in t;
      assert Count(ids, ids[i]) > 1;
      assert each[ids[i]] != sql[ids[i]];
    }
  }

  lemma {:induction false} StatementsKeepTable(t: Table, sts: seq<Statement>) returns (t': Table)
    requires Keyed(t) && Leased(t)
    requires forall k :: 0 <= k < |sts| && sts[k].Insert? ==> sts[k].e.status != Delivering && sts[k].id !in t
    requires forall j, k :: 0 <= j < k < |sts| && sts[j].Insert? && sts[k].Insert? ==> sts[j].id != sts[k].id
    ensures t' == ExecAll(t, sts) && Keyed(t') && Leased(t')
    decreases |sts|
  {
    if sts == [] {
      t' := t;
    } else {
      ExecKeepsKeyed(t, sts[0]);
      ExecKeepsLeased(t, sts[0]);
      t' := StatementsKeepTable(Exec(t, sts[0]), sts[1..]);
    }
  }

  function ExecAll(t: Table, sts: seq<Statement>): Table
    decreases |sts|
  {
    if sts == [] then t else ExecAll(Exec(t, sts[0]), sts[1..])
  }

  /** The table once the statement has reached the rows in `done`. */
  ghost function Over(t: Table, st: Statement, done: set<Id>): Table {
    map id | id in t :: if id in done then RowAfter(t[id], st) else t[id]
  }

  /** The table once the statement has reached the rows below `hi`. */
  ghost function Upto(t: Table, st: Statement, hi: Id): Table {
    map id | id in t :: if id < hi then RowAfter(t[id], st) else t[id]
  }

  lemma OverNone(t: Table, st: Statement)
    ensures Over(t, st, {}) == t
  {
  }

  lemma OverNext(t: Table, st: Statement, done: set<Id>, id: Id)
    ensures id in Over(t, st, done) <==> id in t
    ensures id in t ==>
              && Over(t, st, done)[id] == (if id in done then RowAfter(t[id], st) else t[id])
              && Over(t, st, done + {id}) == Over(t, st, done)[id := RowAfter(t[id], st)]
    ensures id !in t ==> Over(t, st, done + {id}) == Over(t, st, done)
  {
  }

  lemma UptoOne(t: Table, st: Statement)
    requires 0 !in t
    ensures Upto(t, st, 1) == t
  {
  }

  lemma UptoNext(t: Table, st: Statement, hi: Id)
    ensures hi in Upto(t, st, hi) <==> hi in t
    ensures hi in t ==>
              && Upto(t, st, hi)[hi] == t[hi]
              && Upto(t, st, hi + 1) == Upto(t, st, hi)[hi := RowAfter(t[hi], st)]
    ensures hi !in t ==> Upto(t, st, hi + 1) == Upto(t, st, hi)
  {
  }

  /** `byKey` is the exact inverse of the rows' keys. */
  ghost predicate IndexOk(rows: Table, byKey: map<string, Id>, nextId: Id) {
    && Indexed(rows)
    && nextId >= 1 && (forall id :: id in rows ==> 1 <= id < nextId)
    && (forall id :: id in rows ==> rows[id].info.key in byKey && byKey[rows[id].info.key] == id)
    && (forall key :: key in byKey ==> byKey[key] in rows && rows[byKey[key]].info.key == key)
  }

  lemma ExecKeepsIndex(t: Table, st: Statement, byKey: map<string, Id>, nextId: Id)
    requires IndexOk(t, byKey, nextId) && !st.Insert? && !st.DeleteIds?
    ensures IndexOk(Exec(t, st), byKey, nextId)
  {
    forall id | id in t ensures SameEvent(t[id], RowAfter(t[id], st)) {
      RowAfterFacts(t[id], st);
    }
  }

  lemma OverAll(t: Table, st: Statement, done: set<Id>, byKey: map<string, Id>, nextId: Id)
    requires IndexOk(t, byKey, nextId) && !st.Insert? && !st.DeleteIds?
    requires forall id :: id in t && id !in done ==> RowAfter(t[id], st) == t[id]
    ensures Over(t, st, done) == Exec(t, st)
    ensures IndexOk(Over(t, st, done), byKey, nextId)
  {
    ExecKeepsIndex(t, st, byKey, nextId);
    assert Over(t, st, done) == Exec(t, st);
  }

  lemma UptoAll(t: Table, st: Statement, byKey: map<string, Id>, nextId: Id)
    requires IndexOk(t, byKey, nextId) && !st.Insert? && !st.DeleteIds?
    ensures Upto(t, st, nextId) == Exec(t, st)
    ensures IndexOk(Upto(t, st, nextId), byKey, nextId)
  {
    ExecKeepsIndex(t, st, byKey, nextId);
    assert Upto(t, st, nextId) == Exec(t, st);
  }

  function Releasable(t: Table, ids: set<Id>): set<Id> {
    set id | id in ids && id in t && t[id].status == Delivering
  }

  lemma ReleasableNext(t: Table, ids: set<Id>, id: Id)
    ensures |Releasable(t, ids + {id})| == |Releasable(t, ids)| +
              (if id !in ids && id in t && t[id].status == Delivering then 1 else 0)
  {
    if id !in ids && id in t && t[id].status == Delivering {
      assert Releasable(t, ids + {id}) == Releasable(t, ids) + {id};
    } else {
      assert Releasable(t, ids + {id}) == Releasable(t, ids);
    }
  }

  /** How many rows below `hi` a WHERE clause selects. */
  function CountBelow(t: Table, f: Filter, hi: Id): nat {
    if hi == 0 then 0
    else CountBelow(t, f, hi - 1) + (if hi - 1 in t && f.Admits(t[hi - 1]) then 1 else 0)
  }

  lemma {:induction false} CountBelowIsSize(t: Table, f: Filter, hi: Id)
    ensures CountBelow(t, f, hi) == |WhereBelow(t, f, hi)|
  {
    if hi == 0 {
      assert WhereBelow(t, f, 0) == {};
    } else {
      CountBelowIsSize(t, f, hi - 1);
      var here := if hi - 1 in t && f.Admits(t[hi - 1]) then {hi - 1} else {};
      WhereBelowStep(t, f, hi - 1);
    }
  }

  lemma WhereBelowStep(t: Table, f: Filter, hi: Id)
    ensures hi in t && f.Admits(t[hi]) ==> WhereBelow(t, f, hi + 1) == WhereBelow(t, f, hi) + {hi}
    ensures !(hi in t && f.Admits(t[hi])) ==> WhereBelow(t, f, hi + 1) == WhereBelow(t, f, hi)
    ensures hi !in WhereBelow(t, f, hi)
  {
  }

  lemma CountAll(t: Table, f: Filter, hi: Id)
    requires forall id :: id in t ==> id < hi
    ensures CountBelow(t, f, hi) == |Where(t, f)| && WhereBelow(t, f, hi) == Where(t, f)
  {
    CountBelowIsSize(t, f, hi);
    assert WhereBelow(t, f, hi) == Where(t, f);
  }

  lemma OldestIsPick(t: Table, f: Filter, limit: nat, picked: seq<Id>)
    requires IsOldest(t, f, limit, picked)
    ensures IsPick(Where(t, f), limit, Elements(picked)) && |Elements(picked)| == |picked| && Distinct(picked)
    ensures forall k :: 0 <= k < |picked| ==> picked[k] in t && f.Admits(t[picked[k]])
  {
    DistinctElements(picked);
    forall k | 0 <= k < |picked| ensures picked[k] in t && f.Admits(t[picked[k]]) {
      assert picked[k] in Where(t, f);
    }
    if |picked| < limit {
      assert Elements(picked) == Where(t, f);
    }
  }

  /** The clause `ORDER BY id LIMIT limit` determines what it returns. */
  lemma OldestIsUnique(t: Table, f: Filter, limit: nat, a: seq<Id>, b: seq<Id>)
    requires IsOldest(t, f, limit, a) && IsOldest(t, f, limit, b)
    ensures a == b
  {
    OldestAreIn(t, f, limit, a, b);
    OldestAreIn(t, f, limit, b, a);
    SortedAreEqual(a, b);
  }

  lemma OldestAreIn(t: Table, f: Filter, limit: nat, a: seq<Id>, b: seq<Id>)
    requires IsOldest(t, f, limit, a) && IsOldest(t, f, limit, b)
    ensures Elements(a) <= Elements(b)
  {
    OldestIsPick(t, f, limit, a);
    OldestIsPick(t, f, limit, b);
    forall id | id in Elements(a) ensures id in Elements(b) {
      if id !in b {
        assert id in Where(t, f) && |b| == limit;
        forall p | p in b ensures p in a {
          assert p < id && p in Where(t, f);
        }
        Fewer(Elements(b), Elements(a), id);
      }
    }
  }

  lemma Fewer(a: set<Id>, b: set<Id>, extra: Id)
    requires a <= b && extra in b && extra !in a
    ensures |a| < |b|
  {
    assert b == a + (b - a) && extra in b - a;
  }

  lemma {:induction false} SortedAreEqual(a: seq<Id>, b: seq<Id>)
    requires forall i, j :: 0 <= i < j < |a| ==> a[i] < a[j]
    requires forall i, j :: 0 <= i < j < |b| ==> b[i] < b[j]
    requires Elements(a) == Elements(b)
    ensures a == b
    decreases |a|
  {
    if a == [] {
      assert Elements(b) == {};
      assert forall i | 0 <= i < |b| :: b[i] in Elements(b);
      assert |b| == 0;
    } else {
      assert a[|a| - 1] in Elements(b);
      SameLast(a, b);
      var m, n := |a| - 1, |b| - 1;
      assert Elements(a[..m]) == Elements(a) - {a[m]};
      assert Elements(b[..n]) == Elements(b) - {b[n]};
      SortedAreEqual(a[..m], b[..n]);
      assert a == a[..m] + [a[m]] && b == b[..n] + [b[n]];
    }
  }

  lemma SameLast(a: seq<Id>, b: seq<Id>)
    requires forall i, j :: 0 <= i < j < |a| ==> a[i] < a[j]
    requires forall i, j :: 0 <= i < j < |b| ==> b[i] < b[j]
    requires Elements(a) == Elements(b) && a != []
    ensures b != [] && a[|a| - 1] == b[|b| - 1]
  {
    assert a[|a| - 1] in Elements(b);
    var i :| 0 <= i < |b| && b[i] == a[|a| - 1];
    assert b[|b| - 1] in Elements(a);
    var j :| 0 <= j < |a| && a[j] == b[|b| - 1];
  }

  class MemoryEventStore {
    var rows: Table
    var byKey: map<string, Id>
    var nextId: Id

    ghost predicate Valid()
      reads this
    {
      IndexOk(rows, byKey, nextId)
    }

    constructor ()
      ensures Valid() && rows == map[] && nextId == 1
    {
      rows := map[];
      byKey := map[];
      nextId := 1;
    }

    method Insert(e: NewEvent) returns (r: InsertResult)
      requires Valid()
      modifies this
      ensures Valid()
      ensures rows == Exec(old(rows), EventTable.Insert(old(nextId), e))
      ensures r == if HasKey(old(rows), e.info.key) then Duplicate else Inserted(old(nextId))
      ensures old(nextId) <= nextId
    {
      if e.info.key in byKey {
        return Duplicate;
      }
      var id := nextId;
      nextId := nextId + 1;
      rows := rows[id := NewRow(id, e)];
      byKey := byKey[e.info.key := id];
      return Inserted(id);
    }

    method RoutesWithDueEvents(now: Time) returns (out: seq<string>)
      requires Valid()
      ensures Distinct(out)
      ensures forall route :: route in out <==> Where(rows, Due(route, now)) != {}
    {
      out := [];
      for id := 1 to nextId
        invariant Distinct(out)
        invariant forall route :: route in out <==> WhereBelow(rows, Due(route, now), id) != {}
      {
        ghost var before := out;
        if id in rows && IsDue(rows[id], now) && rows[id].info.routeId !in out {
          out := out + [rows[id].info.routeId];
        }
        forall route ensures route in out <==> WhereBelow(rows, Due(route, now), id + 1) != {} {
          WhereBelowStep(rows, Due(route, now), id);
          assert route in out <==> route in before || (id in rows && Due(route, now).Admits(rows[id]));
        }
      }
      forall route ensures WhereBelow(rows, Due(route, now), nextId) == Where(rows, Due(route, now)) {
        CountAll(rows, Due(route, now), nextId);
      }
    }

    /** `filter(...).slice(0, limit)` over the rows in insertion order. */
    method Oldest(f: Filter, limit: nat) returns (picked: seq<Id>)
      requires Valid()
      ensures IsOldest(rows, f, limit, picked)
    {
      var all: seq<Id> := [];
      for id := 1 to nextId
        invariant forall i, j :: 0 <= i < j < |all| ==> all[i] < all[j]
        invariant forall k :: k in all <==> k in WhereBelow(rows, f, id)
        invariant forall i :: 0 <= i < |all| ==> all[i] < id
      {
        WhereBelowStep(rows, f, id);
        if id in rows && f.Admits(rows[id]) {
          all := all + [id];
        }
      }
      CountAll(rows, f, nextId);
      picked := if |all| <= limit then all else all[..limit];
      forall id | id in Where(rows, f) && id !in picked
        ensures |picked| == limit && forall p :: p in picked ==> p < id
      {
        assert id in WhereBelow(rows, f, nextId);
        var k :| 0 <= k < |all| && all[k] == id;
        assert k >= limit;
      }
    }

    method LeaseRows(due: seq<Id>, now: Time, lease: Lease) returns (claimed: seq<EventRow>)
      requires Valid() && Distinct(due) && forall k :: 0 <= k < |due| ==> due[k] in rows
      modifies this`rows
      ensures Valid() && rows == Exec(old(rows), ClaimIds(Elements(due), now, lease))
      ensures |claimed| == |due|
      ensures forall k :: 0 <= k < |due| ==> due[k] in old(rows) && claimed[k] == ClaimedRow(old(rows)[due[k]], now, lease)
    {
      claimed := [];
      ghost var before := rows;
      ghost var st := ClaimIds(Elements(due), now, lease);
      OverNone(before, st);
      for k := 0 to |due|
        invariant rows == Over(before, st, Elements(due[..k]))
        invariant |claimed| == k
        invariant forall j :: 0 <= j < k ==> claimed[j] == ClaimedRow(before[due[j]], now, lease)
      {
        assert Elements(due[..k + 1]) == Elements(due[..k]) + {due[k]};
        OverNext(before, st, Elements(due[..k]), due[k]);
        rows := rows[due[k] := ClaimedRow(rows[due[k]], now, lease)];
        claimed := claimed + [rows[due[k]]];
      }
      assert due[..|due|] == due;
      OverAll(before, st, Elements(due), byKey, nextId);
    }

    method ClaimDue(routeId: string, now: Time, limit: nat, lease: Lease)
      returns (claimed: seq<EventRow>, ghost picked: seq<Id>)
      requires Valid()
      modifies this`rows
      ensures Valid()
      ensures IsOldest(old(rows), Due(routeId, now), limit, picked)
      ensures rows == Exec(old(rows), ClaimIds(Elements(picked), now, lease))
      ensures |claimed| == |picked|
      ensures forall k :: 0 <= k < |picked| ==>
                picked[k] in old(rows) && claimed[k] == ClaimedRow(old(rows)[picked[k]], now, lease)
    {
      var due := Oldest(Due(routeId, now), limit);
      OldestIsPick(rows, Due(routeId, now), limit, due);
      claimed := LeaseRows(due, now, lease);
      picked := due;
    }

    method MarkDelivered(ids: seq<Id>, at: Time, bulk: Option<string>)
      requires Valid()
      modifies this`rows
      ensures Valid()
      ensures rows == Exec(old(rows), DeliverIds(Elements(ids), at, bulk))
    {
      ghost var before := rows;
      ghost var st := DeliverIds(Elements(ids), at, bulk);
      OverNone(before, st);
      for k := 0 to |ids|
        invariant rows == Over(before, st, Elements(ids[..k]))
      {
        assert Elements(ids[..k + 1]) == Elements(ids[..k]) + {ids[k]};
        OverNext(before, st, Elements(ids[..k]), ids[k]);
        if ids[k] in rows {
          rows := rows[ids[k] := DeliveredRow(rows[ids[k]], at, bulk)];
        }
      }
      assert ids[..|ids|] == ids;
      OverAll(before, st, Elements(ids), byKey, nextId);
    }

    method MarkFailed(ids: seq<Id>, next: Time, error: string)
      requires Valid()
      modifies this`rows
      ensures Valid()
      ensures rows == FailEach(old(rows), ids, next, error)
      ensures Distinct(ids) ==> rows == Exec(old(rows), FailIds(Elements(ids), next, error))
    {
      for k := 0 to |ids|
        invariant rows == FailEach(old(rows), ids[..k], next, error)
      {
        assert ids[..k + 1][..k] == ids[..k];
        if ids[k] in rows {
          rows := rows[ids[k] := FailedRow(rows[ids[k]], next, error)];
        }
      }
      assert ids[..|ids|] == ids;
      FailEachIsInIff(old(rows), ids, next, error);
      forall id | id in old(rows) ensures id in rows && SameEvent(old(rows)[id], rows[id]) {
        FailEachRow(old(rows), ids, next, error, id);
      }
      FailEachRow(old(rows), ids, next, error, 0);
    }

    method MarkParked(ids: seq<Id>, error: string)
      requires Valid()
      modifies this`rows
      ensures Valid()
      ensures rows == Exec(old(rows), ParkIds(Elements(ids), error))
    {
      ghost var before := rows;
      ghost var st := ParkIds(Elements(ids), error);
      OverNone(before, st);
      for k := 0 to |ids|
        invariant rows == Over(before, st, Elements(ids[..k]))
      {
        assert Elements(ids[..k + 1]) == Elements(ids[..k]) + {ids[k]};
        OverNext(before, st, Elements(ids[..k]), ids[k]);
        if ids[k] in rows {
          rows := rows[ids[k] := ParkedRow(rows[ids[k]], error)];
        }
      }
      assert ids[..|ids|] == ids;
      OverAll(before, st, Elements(ids), byKey, nextId);
    }

    method ReleaseDelivering(ids: seq<Id>, next: Time, error: string) returns (n: nat)
      requires Valid()
      modifies this`rows
      ensures Valid()
      ensures rows == Exec(old(rows), ReleaseIds(Elements(ids), next, error))
      ensures n == |Releasable(old(rows), Elements(ids))|
    {
      n := 0;
      ghost var before := rows;
      ghost var st := ReleaseIds(Elements(ids), next, error);
      OverNone(before, st);
      for k := 0 to |ids|
        invariant rows == Over(before, st, Elements(ids[..k]))
        invariant n == |Releasable(before, Elements(ids[..k]))|
      {
        assert Elements(ids[..k + 1]) == Elements(ids[..k]) + {ids[k]};
        OverNext(before, st, Elements(ids[..k]), ids[k]);
        ReleasableNext(before, Elements(ids[..k]), ids[k]);
        if ids[k] in rows && rows[ids[k]].status == Delivering {
          rows := rows[ids[k] := FailedRow(rows[ids[k]], next, error)];
          n := n + 1;
        }
      }
      assert ids[..|ids|] == ids;
      OverAll(before, st, Elements(ids), byKey, nextId);
    }

    method RecoverDelivering(now: Time, owner: Option<string>) returns (n: nat)
      requires Valid()
      modifies this`rows
      ensures Valid()
      ensures rows == Exec(old(rows), RecoverRows(now, owner))
      ensures n == |Where(old(rows), Recoverable(now, owner))|
    {
      n := 0;
      ghost var before := rows;
      ghost var st, f := RecoverRows(now, owner), Recoverable(now, owner);
      UptoOne(before, st);
      for id := 1 to nextId
        invariant rows == Upto(before, st, id)
        invariant n == CountBelow(before, f, id)
      {
        UptoNext(before, st, id);
        if id in rows && rows[id].status == Delivering {
          var r := rows[id];
          var mine := owner.Some? && r.claimedBy == owner;
          if r.leaseUntil == None || r.leaseUntil.value < now || mine {
            rows := rows[id := RecoveredRow(r, now)];
            n := n + 1;
          }
        }
      }
      CountAll(before, f, nextId);
      UptoAll(before, st, byKey, nextId);
    }

    method ParkExpired(now: Time, maxAgeMs: int) returns (n: nat)
      requires Valid()
      modifies this`rows
      ensures Valid()
      ensures rows == Exec(old(rows), ExpireRows(ParkCutoff(now, maxAgeMs)))
      ensures n == |Where(old(rows), Expired(ParkCutoff(now, maxAgeMs)))|
    {
      var cutoff := ParkCutoff(now, maxAgeMs);
      n := 0;
      ghost var before := rows;
      ghost var st := ExpireRows(cutoff);
      UptoOne(before, st);
      for id := 1 to nextId
        invariant rows == Upto(before, st, id)
        invariant n == CountBelow(before, Expired(cutoff), id)
      {
        UptoNext(before, st, id);
        if id in rows && rows[id].status == Retry && rows[id].info.receivedAt < cutoff {
          rows := rows[id := ExpiredRow(rows[id])];
          n := n + 1;
        }
      }
      CountAll(before, Expired(cutoff), nextId);
      UptoAll(before, st, byKey, nextId);
    }

    method Replay(id: Id, now: Time) returns (ok: bool)
      requires Valid()
      modifies this`rows
      ensures Valid()
      ensures ok <==> id in old(rows) && old(rows)[id].status == Parked
      ensures rows == Exec(old(rows), ReplayRow(id, now))
    {
      ok := id in rows && rows[id].status == Parked;
      if ok {
        rows := rows[id := RequeuedRow(rows[id], now)];
      }
      assert rows == Exec(old(rows), ReplayRow(id, now));
    }

    method ReplayAllParked(now: Time) returns (n: nat)
      requires Valid()
      modifies this`rows
      ensures Valid()
      ensures rows == Exec(old(rows), ReplayRows(now))
      ensures n == |Where(old(rows), IsParked)|
    {
      n := 0;
      ghost var before := rows;
      ghost var st, f := ReplayRows(now), IsParked;
      UptoOne(before, st);
      for id := 1 to nextId
        invariant rows == Upto(before, st, id)
        invariant n == CountBelow(before, f, id)
      {
        UptoNext(before, st, id);
        if id in rows && rows[id].status == Parked {
          rows := rows[id := RequeuedRow(rows[id], now)];
          n := n + 1;
        }
      }
      CountAll(before, f, nextId);
      UptoAll(before, st, byKey, nextId);
    }

    method WipeRows(picked: seq<Id>)
      requires Valid() && forall k :: 0 <= k < |picked| ==> picked[k] in rows
      modifies this`rows
      ensures Valid() && rows == Exec(old(rows), WipeIds(Elements(picked)))
    {
      ghost var before := rows;
      ghost var st := WipeIds(Elements(picked));
      OverNone(before, st);
      for k := 0 to |picked|
        invariant rows == Over(before, st, Elements(picked[..k]))
      {
        assert Elements(picked[..k + 1]) == Elements(picked[..k]) + {picked[k]};
        OverNext(before, st, Elements(picked[..k]), picked[k]);
        rows := rows[picked[k] := WipedRow(rows[picked[k]])];
      }
      assert picked[..|picked|] == picked;
      OverAll(before, st, Elements(picked), byKey, nextId);
    }

    method DeleteRows(picked: seq<Id>)
      requires Valid() && Distinct(picked) && forall k :: 0 <= k < |picked| ==> picked[k] in rows
      modifies this`rows, this`byKey
      ensures Valid() && rows == Exec(old(rows), DeleteIds(Elements(picked)))
    {
      ghost var before := rows;
      for k := 0 to |picked|
        invariant Valid()
        invariant rows == before - Elements(picked[..k])
      {
        assert Elements(picked[..k + 1]) == Elements(picked[..k]) + {picked[k]};
        byKey := byKey - {rows[picked[k]].info.key};
        rows := rows - {picked[k]};
      }
      assert picked[..|picked|] == picked;
      assert rows == Exec(before, DeleteIds(Elements(picked)));
    }

    /** One bounded retention step: wipe expired payloads, or else delete expired rows. */
    method PruneBatch(now: Time, deliveredDays: int, ledgerDays: int, limit: nat)
      returns (wiped: nat, deleted: nat, ghost picked: seq<Id>)
      requires Valid()
      modifies this`rows, this`byKey
      ensures Valid()
      ensures PruneStep(old(rows), rows, WipeCutoff(now, deliveredDays), DeleteCutoff(now, ledgerDays), limit,
                        wiped, deleted, Elements(picked))
      ensures IsOldest(old(rows), if wiped > 0 then Wipeable(WipeCutoff(now, deliveredDays))
                                  else Deletable(DeleteCutoff(now, ledgerDays)), limit, picked)
    {
      var wipeCutoff, deleteCutoff := WipeCutoff(now, deliveredDays), DeleteCutoff(now, ledgerDays);
      var toWipe := Oldest(Wipeable(wipeCutoff), limit);
      OldestIsPick(rows, Wipeable(wipeCutoff), limit, toWipe);
      if |toWipe| > 0 {
        WipeRows(toWipe);
        return |toWipe|, 0, toWipe;
      }
      var toDelete := Oldest(Deletable(deleteCutoff), limit);
      OldestIsPick(rows, Deletable(deleteCutoff), limit, toDelete);
      DeleteRows(toDelete);
      return 0, |toDelete|, toDelete;
    }
  }
}
