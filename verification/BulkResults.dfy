/**
 The per-row results of a bulk request. A rejected result names its row by external id or by position in
 the batch, and rows are looked up by the part of their event id after the first ':' or by position.
 */
module BulkResults {
  import opened Prelude
  import opened Digits
  import opened EventTable

  datatype ResultItem = ResultItem(externalId: Option<string>, index: Option<nat>, status: string)

  predicate IsRejection(item: ResultItem) {
    item.status == "failed" || item.status == "rejected"
  }

  /** `r.external_id ?? String(r.index)` */
  function ResultKey(item: ResultItem): string {
    if item.externalId.Some? then item.externalId.value
    else if item.index.Some? then Dec(item.index.value) else "undefined"
  }

  function RejectedKeys(items: seq<ResultItem>): set<string> {
    set item | item in items && IsRejection(item) :: ResultKey(item)
  }

  /** What follows the first ':', or the whole id. */
  function Suffix(eventId: string): string {
    if ':' in eventId then AfterColon(eventId) else eventId
  }

  function AfterColon(s: string): string {
    if s == "" then "" else if s[0] == ':' then s[1..] else AfterColon(s[1..])
  }

  lemma {:induction false} SuffixOfPrefixed(prefix: string, rest: string)
    requires ':' !in prefix
    ensures Suffix(prefix + ":" + rest) == rest
  {
    var s := prefix + ":" + rest;
    assert s[|prefix|] == ':';
    AfterPrefix(prefix, rest);
  }

  lemma {:induction false} AfterPrefix(prefix: string, rest: string)
    requires ':' !in prefix
    ensures AfterColon(prefix + ":" + rest) == rest
  {
    var s := prefix + ":" + rest;
    if prefix == "" {
      assert s[0] == ':' && s[1..] == rest;
    } else {
      assert s[0] == prefix[0] && s[1..] == prefix[1..] + ":" + rest;
      AfterPrefix(prefix[1..], rest);
    }
  }

  /** A result key means this row. */
  predicate Hits(key: string, row: EventRow, index: nat) {
    key == Suffix(row.info.eventId) || key == Dec(index)
  }

  predicate IsRejected(failed: set<string>, row: EventRow, index: nat) {
    Suffix(row.info.eventId) in failed || Dec(index) in failed
  }

  /** The positions below `n` that the split parks. */
  function ParkedPositions(failed: set<string>, batch: seq<EventRow>): set<nat> {
    set i: nat | i < |batch| && IsRejected(failed, batch[i], i)
  }

  /** The rows of a batch, in order, whose rejection is as asked. */
  function Select(failed: set<string>, batch: seq<EventRow>, rejected: bool): seq<EventRow> {
    if batch == [] then []
    else
      var last := |batch| - 1;
      Select(failed, batch[..last], rejected)
      + if IsRejected(failed, batch[last], last) == rejected then [batch[last]] else []
  }

  method Split(failed: set<string>, batch: seq<EventRow>) returns (parked: seq<EventRow>, ok: seq<EventRow>)
    ensures parked == Select(failed, batch, true)
    ensures ok == Select(failed, batch, false)
  {
    parked, ok := [], [];
    for i := 0 to |batch|
      invariant parked == Select(failed, batch[..i], true)
      invariant ok == Select(failed, batch[..i], false)
    {
      assert batch[..i + 1][..i] == batch[..i];
      if Suffix(batch[i].info.eventId) in failed || Dec(i) in failed {
        parked := parked + [batch[i]];
      } else {
        ok := ok + [batch[i]];
      }
    }
    assert batch[..|batch|] == batch;
  }

  function Ids(rows: seq<EventRow>): (ids: seq<Id>)
    ensures |ids| == |rows|
    ensures forall k :: 0 <= k < |rows| ==> ids[k] == rows[k].id
  {
    seq(|rows|, k requires 0 <= k < |rows| => rows[k].id)
  }

  /** A row is selected when some position that holds it was rejected as asked. */
  lemma {:induction false} SelectedAre(failed: set<string>, batch: seq<EventRow>, rejected: bool, row: EventRow)
    ensures row in Select(failed, batch, rejected) <==>
            exists i | 0 <= i < |batch| :: batch[i] == row && IsRejected(failed, row, i) == rejected
  {
    if batch != [] {
      var last := |batch| - 1;
      SelectedAre(failed, batch[..last], rejected, row);
      assert forall i | 0 <= i < last :: batch[..last][i] == batch[i];
    }
  }

  /** The two lists hold every element once. */
  ghost predicate Covers(a: seq<EventRow>, b: seq<EventRow>, all: seq<EventRow>) {
    multiset(a) + multiset(b) == multiset(all) && |a| + |b| == |all|
  }

  lemma OneMoreCovers(a: seq<EventRow>, b: seq<EventRow>, all: seq<EventRow>, x: EventRow)
    requires Covers(a, b, all)
    ensures Covers(a + [x], b, all + [x]) && Covers(a, b + [x], all + [x])
  {
  }

  lemma SelectNext(failed: set<string>, batch: seq<EventRow>, rejected: bool)
    requires batch != []
    ensures var last, side := |batch| - 1, Select(failed, batch[..|batch| - 1], rejected);
            Select(failed, batch, rejected)
            == if IsRejected(failed, batch[last], last) == rejected then side + [batch[last]] else side
  {
  }

  /** The two sides of a split hold every row of the batch once. */
  lemma {:induction false} SplitCovers(failed: set<string>, batch: seq<EventRow>)
    ensures Covers(Select(failed, batch, true), Select(failed, batch, false), batch)
  {
    if batch != [] {
      var before, x := batch[..|batch| - 1], batch[|batch| - 1];
      assert before + [x] == batch;
      SplitCovers(failed, before);
      OneMoreCovers(Select(failed, before, true), Select(failed, before, false), before, x);
      SelectNext(failed, batch, true);
      SelectNext(failed, batch, false);
    }
  }

  // ---- when the split parks exactly the rows the server rejected ----

  /** Row `i` is reported under `keys[i]`; these keys come back for the rejected positions. */
  function KeysOf(keys: seq<string>, rejected: set<nat>): set<string> {
    set i | i in rejected && i < |keys| :: keys[i]
  }

  predicate NamesOnlyItsRow(keys: seq<string>, batch: seq<EventRow>)
    requires |keys| == |batch|
  {
    forall i, j | 0 <= i < |keys| && 0 <= j < |batch| :: Hits(keys[i], batch[j], j) <==> i == j
  }

  ghost predicate SplitIsExact(keys: seq<string>, batch: seq<EventRow>) {
    forall rejected: set<nat> | (forall i | i in rejected :: i < |batch|) ::
      ParkedPositions(KeysOf(keys, rejected), batch) == rejected
  }

  lemma ParkedIff(keys: seq<string>, batch: seq<EventRow>, rejected: set<nat>, j: nat)
    requires |keys| == |batch| && j < |batch|
    ensures j in ParkedPositions(KeysOf(keys, rejected), batch) <==>
            exists i | i in rejected && i < |keys| :: Hits(keys[i], batch[j], j)
  {
  }

  /**
   Whatever set of rows the server rejects, the split parks exactly that set if and only if each row's
   result key means that row and no other.
   */
  lemma SplitIsExactIff(keys: seq<string>, batch: seq<EventRow>)
    requires |keys| == |batch|
    ensures SplitIsExact(keys, batch) <==> NamesOnlyItsRow(keys, batch)
  {
    if NamesOnlyItsRow(keys, batch) {
      forall rejected: set<nat> | forall i | i in rejected :: i < |batch|
        ensures ParkedPositions(KeysOf(keys, rejected), batch) == rejected
      {
        forall j: nat | j < |batch| ensures j in ParkedPositions(KeysOf(keys, rejected), batch) <==> j in rejected {
          ParkedIff(keys, batch, rejected, j);
        }
      }
    }
    if SplitIsExact(keys, batch) {
      forall i: nat, j: nat | i < |keys| && j < |batch| ensures Hits(keys[i], batch[j], j) <==> i == j {
        assert ParkedPositions(KeysOf(keys, {i}), batch) == {i};
        ParkedIff(keys, batch, {i}, j);
      }
    }
  }

  /** The suffix of row `j` reads like the position `i` of another row. */
  predicate LooksLikePosition(batch: seq<EventRow>, i: nat, j: nat)
    requires i < |batch| && j < |batch|
  {
    i != j && Suffix(batch[j].info.eventId) == Dec(i)
  }

  /** Results keyed by position are exact unless some row's suffix looks like another row's position. */
  lemma ByPositionIsExactIff(keys: seq<string>, batch: seq<EventRow>)
    requires |keys| == |batch| && forall i | 0 <= i < |keys| :: keys[i] == Dec(i)
    ensures SplitIsExact(keys, batch) <==>
            forall i, j | 0 <= i < |batch| && 0 <= j < |batch| :: !LooksLikePosition(batch, i, j)
  {
    SplitIsExactIff(keys, batch);
    forall i: nat, j: nat | i < |keys| && j < |batch|
      ensures (Hits(keys[i], batch[j], j) <==> i == j) <==> !LooksLikePosition(batch, i, j)
    {
      if Dec(i) == Dec(j) {
        DecInjective(i, j);
      }
    }
  }

  /** Results keyed by the rows' suffixes are exact unless a suffix repeats or looks like a position. */
  lemma BySuffixIsExactIff(keys: seq<string>, batch: seq<EventRow>)
    requires |keys| == |batch| && forall i | 0 <= i < |keys| :: keys[i] == Suffix(batch[i].info.eventId)
    ensures SplitIsExact(keys, batch) <==>
            && Distinct(keys)
            && forall i, j | 0 <= i < |batch| && 0 <= j < |batch| :: !LooksLikePosition(batch, i, j)
  {
    SplitIsExactIff(keys, batch);
    forall i: nat, j: nat | i < |keys| && j < |batch|
      ensures (Hits(keys[i], batch[j], j) <==> i == j) <==> i == j || (keys[i] != keys[j] && !LooksLikePosition(batch, j, i))
    {
    }
  }
}
