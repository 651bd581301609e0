/**
 Retention. One bounded step wipes payloads past the delivered window, and only when none is left
 deletes rows past the ledger window; callers repeat it until it reports nothing done. Which of the
 eligible rows a step picks is up to the store (the SQL store does not order them), so a step is a
 relation here, and both stores' steps are instances of it.
 */
module Retention {
  import opened Prelude
  import opened EventTable

  /** `LIMIT limit` without an order: as many as allowed, whichever they are. */
  ghost predicate IsPick(eligible: set<Id>, limit: nat, picked: set<Id>) {
    picked <= eligible && (picked == eligible || |picked| == limit) && |picked| <= limit
  }

  ghost predicate PruneStep(t: Table, t': Table, wipe: Time, delete: Time, limit: nat,
                            wiped: nat, deleted: nat, picked: set<Id>)
  {
    if wiped > 0 then
      && IsPick(Where(t, Wipeable(wipe)), limit, picked)
      && wiped == |picked| && deleted == 0 && t' == Exec(t, WipeIds(picked))
    else
      && (limit == 0 || Where(t, Wipeable(wipe)) == {})
      && IsPick(Where(t, Deletable(delete)), limit, picked)
      && deleted == |picked| && t' == Exec(t, DeleteIds(picked))
  }

  /** Retention in one shot: wipe everything past its window, delete everything past the ledger window. */
  function Retained(t: Table, wipe: Time, delete: Time): Table {
    map id | id in t && !Deletable(delete).Admits(t[id]) ::
      if Wipeable(wipe).Admits(t[id]) then WipedRow(t[id]) else t[id]
  }

  lemma WipeStep(t: Table, wipe: Time, delete: Time, picked: set<Id>)
    requires Indexed(t) && picked <= Where(t, Wipeable(wipe))
    ensures var t' := Exec(t, WipeIds(picked));
            && Indexed(t') && Retained(t', wipe, delete) == Retained(t, wipe, delete)
            && Where(t', Wipeable(wipe)) == Where(t, Wipeable(wipe)) - picked
            && Where(t', Deletable(delete)) == Where(t, Deletable(delete))
  {
    var t' := Exec(t, WipeIds(picked));
    assert t'.Keys == t.Keys;
    forall id | id in t
      ensures t'[id] == if id in picked then WipedRow(t[id]) else t[id]
      ensures id in picked ==> Wipeable(wipe).Admits(t[id])
      ensures Wipeable(wipe).Admits(t'[id]) <==> Wipeable(wipe).Admits(t[id]) && id !in picked
      ensures Deletable(delete).Admits(t'[id]) <==> Deletable(delete).Admits(t[id])
    {
    }
  }

  lemma DeleteStep(t: Table, wipe: Time, delete: Time, picked: set<Id>)
    requires Indexed(t) && Where(t, Wipeable(wipe)) == {} && picked <= Where(t, Deletable(delete))
    ensures var t' := Exec(t, DeleteIds(picked));
            && Indexed(t') && Retained(t', wipe, delete) == Retained(t, wipe, delete)
            && Where(t', Wipeable(wipe)) == {}
            && Where(t', Deletable(delete)) == Where(t, Deletable(delete)) - picked
  {
    var t' := Exec(t, DeleteIds(picked));
    assert t'.Keys == t.Keys - picked;
    assert forall id :: id in t' ==> t'[id] == t[id];
    assert forall id :: id in t ==> !Wipeable(wipe).Admits(t[id]) by {
      assert forall id :: id in t && Wipeable(wipe).Admits(t[id]) ==> id in Where(t, Wipeable(wipe));
    }
    assert Retained(t', wipe, delete) == Retained(t, wipe, delete);
  }

  /** A step moves towards the one-shot result by exactly what it reports; reporting nothing, it is there. */
  lemma StepTowardsRetained(t: Table, t': Table, wipe: Time, delete: Time, limit: nat,
                            wiped: nat, deleted: nat, picked: set<Id>)
    requires Indexed(t) && limit >= 1
    requires PruneStep(t, t', wipe, delete, limit, wiped, deleted, picked)
    ensures Indexed(t') && Retained(t', wipe, delete) == Retained(t, wipe, delete)
    ensures |Where(t', Wipeable(wipe))| == |Where(t, Wipeable(wipe))| - wiped
    ensures |Where(t', Deletable(delete))| == |Where(t, Deletable(delete))| - deleted
    ensures wiped == 0 && deleted == 0 ==> t' == Retained(t, wipe, delete) && |Where(t, Wipeable(wipe))| == |Where(t, Deletable(delete))| == 0
  {
    if wiped > 0 {
      WipeStep(t, wipe, delete, picked);
    } else {
      DeleteStep(t, wipe, delete, picked);
      if deleted == 0 {
        assert picked == {} && Where(t, Deletable(delete)) == {};
        NothingToDo(t, wipe, delete);
        assert t' == t;
      }
    }
  }

  lemma NothingToDo(t: Table, wipe: Time, delete: Time)
    requires Where(t, Wipeable(wipe)) == {} && Where(t, Deletable(delete)) == {}
    ensures Retained(t, wipe, delete) == t
  {
    forall id | id in t ensures !Wipeable(wipe).Admits(t[id]) && !Deletable(delete).Admits(t[id]) {
      assert id !in Where(t, Wipeable(wipe)) && id !in Where(t, Deletable(delete));
    }
  }

  /** So many rows on the way from `t` to the one-shot result. */
  predicate PartlyPruned(t: Table, t': Table, wipe: Time, delete: Time, wiped: nat, deleted: nat) {
    && Retained(t', wipe, delete) == Retained(t, wipe, delete)
    && wiped + |Where(t', Wipeable(wipe))| == |Where(t, Wipeable(wipe))|
    && deleted + |Where(t', Deletable(delete))| == |Where(t, Deletable(delete))|
  }

  lemma PrunedFurther(t: Table, u: Table, t': Table, wipe: Time, delete: Time, limit: nat, wiped: nat, deleted: nat,
                      w: nat, d: nat, picked: set<Id>)
    requires Indexed(u) && limit >= 1 && PartlyPruned(t, u, wipe, delete, wiped, deleted)
    requires PruneStep(u, t', wipe, delete, limit, w, d, picked)
    ensures PartlyPruned(t, t', wipe, delete, wiped + w, deleted + d)
    ensures Left(t', wipe, delete) + w + d == Left(u, wipe, delete)
    ensures w == 0 && d == 0 ==> t' == Retained(t, wipe, delete) && Left(t', wipe, delete) == 0
  {
    StepTowardsRetained(u, t', wipe, delete, limit, w, d, picked);
  }

  /** What is left to do. */
  function Left(t: Table, wipe: Time, delete: Time): nat {
    |Where(t, Wipeable(wipe))| + |Where(t, Deletable(delete))|
  }

  datatype Report = Report(wiped: nat, deleted: nat, picked: set<Id>)

  /** A caller's loop: one step after another until one reports that it did nothing. */
  ghost predicate PruneRun(t: Table, reports: seq<Report>, t': Table, wipe: Time, delete: Time, limit: nat)
    decreases |reports|
  {
    && reports != []
    && var r := reports[0];
       if r.wiped == 0 && r.deleted == 0 then
         |reports| == 1 && PruneStep(t, t', wipe, delete, limit, r.wiped, r.deleted, r.picked)
       else
         exists t1 :: PruneStep(t, t1, wipe, delete, limit, r.wiped, r.deleted, r.picked)
                      && PruneRun(t1, reports[1..], t', wipe, delete, limit)
  }

  function Wiped(reports: seq<Report>): nat
    decreases |reports|
  {
    if reports == [] then 0 else reports[0].wiped + Wiped(reports[1..])
  }

  function Deleted(reports: seq<Report>): nat
    decreases |reports|
  {
    if reports == [] then 0 else reports[0].deleted + Deleted(reports[1..])
  }

  /**
   Pruning in batches of any size, picking rows in any order, ends where one-shot retention would, with
   the same totals.
   */
  lemma {:induction false} BatchesAreOneShot(t: Table, reports: seq<Report>, t': Table, wipe: Time, delete: Time, limit: nat)
    requires Indexed(t) && limit >= 1 && PruneRun(t, reports, t', wipe, delete, limit)
    ensures t' == Retained(t, wipe, delete)
    ensures Wiped(reports) == |Where(t, Wipeable(wipe))| && Deleted(reports) == |Where(t, Deletable(delete))|
    decreases |reports|
  {
    var r := reports[0];
    if r.wiped == 0 && r.deleted == 0 {
      StepTowardsRetained(t, t', wipe, delete, limit, 0, 0, r.picked);
      assert reports[1..] == [];
    } else {
      var t1 :| PruneStep(t, t1, wipe, delete, limit, r.wiped, r.deleted, r.picked)
                && PruneRun(t1, reports[1..], t', wipe, delete, limit);
      StepTowardsRetained(t, t1, wipe, delete, limit, r.wiped, r.deleted, r.picked);
      BatchesAreOneShot(t1, reports[1..], t', wipe, delete, limit);
    }
  }

  /** A step deletes rows that still have their payload. */
  ghost predicate DeletesPayload(t: Table, t': Table) {
    exists id :: id in t && id !in t' && t[id].body.payload != []
  }

  /** The wipe window protects payloads from deletion exactly when it is no longer than the ledger window. */
  lemma DeletesOnlyWipedIff(deliveredDays: int, ledgerDays: int, now: Time, limit: nat)
    requires limit >= 1
    ensures (forall t, t', wiped: nat, deleted: nat, picked :: Indexed(t)
               && PruneStep(t, t', WipeCutoff(now, deliveredDays), DeleteCutoff(now, ledgerDays), limit, wiped, deleted, picked)
               ==> !DeletesPayload(t, t'))
            <==> deliveredDays <= ledgerDays
  {
    var wipe, delete := WipeCutoff(now, deliveredDays), DeleteCutoff(now, ledgerDays);
    if deliveredDays <= ledgerDays {
      forall t, t', wiped: nat, deleted: nat, picked |
        Indexed(t) && PruneStep(t, t', wipe, delete, limit, wiped, deleted, picked)
        ensures !DeletesPayload(t, t')
      {
        StepDeletesOnlyWiped(t, t', wipe, delete, limit, wiped, deleted, picked);
      }
    } else {
      var t := DeletedTooEarly(delete);
      assert PruneStep(t, map[], wipe, delete, limit, 0, 1, {1}) && Indexed(t) && DeletesPayload(t, map[]) by {
        UnwipedIsDeleted(wipe, delete, limit);
      }
    }
  }

  lemma StepDeletesOnlyWiped(t: Table, t': Table, wipe: Time, delete: Time, limit: nat,
                             wiped: nat, deleted: nat, picked: set<Id>)
    requires Indexed(t) && limit >= 1 && delete <= wipe
    requires PruneStep(t, t', wipe, delete, limit, wiped, deleted, picked)
    ensures !DeletesPayload(t, t')
  {
    forall id | id in t && id !in t' ensures t[id].body.payload == [] {
      assert id in Where(t, Deletable(delete));
      assert id !in Where(t, Wipeable(wipe));
    }
  }

  /** A delivered row just past the ledger window, payload and all. */
  function DeletedTooEarly(delete: Time): Table {
    map[1 := EventRow(1, EventInfo("r", "s", "e", None, delete - 1, "k"), Body([0], None, "{}"),
                      Delivered, 0, None, None, None, None, None, None)]
  }

  lemma UnwipedIsDeleted(wipe: Time, delete: Time, limit: nat)
    requires wipe < delete && limit >= 1
    ensures var t := DeletedTooEarly(delete);
            && PruneStep(t, map[], wipe, delete, limit, 0, 1, {1}) && Indexed(t) && DeletesPayload(t, map[])
  {
    var t := DeletedTooEarly(delete);
    assert Where(t, Wipeable(wipe)) == {};
    assert Where(t, Deletable(delete)) == {1};
    assert Exec(t, DeleteIds({1})) == map[];
    assert t[1].body.payload == [0];
  }
}
