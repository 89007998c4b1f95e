/**
 * The cleanup after each attempt: every distinct record the attempt created
 * is deleted once, in whatever order the set of ids yields, and a failed
 * deletion raises an alert naming the record and the status.
 *
 * The failure test follows its intended contract: the deletion failed when
 * the provider does not report success or the status is not 2xx.
 */
module Cleanup {
  import opened Challenge
  import opened Events

  /** The DNS provider's answer to a delete request: its status and its `success` flag. */
  datatype DeleteResponse = DeleteResponse(status: int, success: bool)

  /** A deletion failed unless the provider reported success with a 2xx status. */
  predicate DeleteFailed(r: DeleteResponse) {
    !r.success || !IsSuccessStatus(r.status)
  }

  /** The effects of deleting one record with the given answer. */
  function DeleteEffects(id: string, r: DeleteResponse): (t: seq<Event>)
    ensures |t| == (if DeleteFailed(r) then 2 else 1)
    ensures t[0] == DeleteRecord(id)
  {
    [DeleteRecord(id)] + (if DeleteFailed(r) then [CleanupAlert(id, r.status)] else [])
  }

  /** The effects of deleting `order` in turn; `delete(k)` answers the `k`-th delete request. */
  function CleanupEvents(order: seq<string>, delete: nat -> DeleteResponse): seq<Event>
    decreases |order|
  {
    if order == [] then []
    else CleanupEvents(order[..|order| - 1], delete) + DeleteEffects(order[|order| - 1], delete(|order| - 1))
  }

  predicate Distinct(order: seq<string>) {
    forall i, j | 0 <= i < j < |order| :: order[i] != order[j]
  }

  /** How many of the first `n` delete requests failed. */
  function FailedDeletes(delete: nat -> DeleteResponse, n: nat): nat
    decreases n
  {
    if n == 0 then 0 else FailedDeletes(delete, n - 1) + (if DeleteFailed(delete(n - 1)) then 1 else 0)
  }

  lemma DeleteEffectsCounts(id: string, r: DeleteResponse, x: string, k: Kind)
    ensures Deletions(DeleteEffects(id, r), x) == if id == x then 1 else 0
    ensures Tally(DeleteEffects(id, r), k)
            == (if k == Delete then 1 else 0) + (if k == Alert && DeleteFailed(r) then 1 else 0)
  {
    var t := DeleteEffects(id, r);
    assert Deletions([DeleteRecord(id)], x) == if id == x then 1 else 0 by {
      assert [DeleteRecord(id)][1..] == [];
    }
    TallyOne(DeleteRecord(id), k);
    if DeleteFailed(r) {
      var a := CleanupAlert(id, r.status);
      assert t == [DeleteRecord(id)] + [a];
      TallyAppend([DeleteRecord(id)], [a], k);
      TallyOne(a, k);
      DeletionsAppend([DeleteRecord(id)], [a], x);
      assert Deletions([a], x) == 0 by {
        assert [a][1..] == [];
      }
    } else {
      assert t == [DeleteRecord(id)];
    }
  }

  /** A duplicate-free order deletes each of its records exactly once and nothing else. */
  lemma {:induction false} EachRecordDeletedOnce(order: seq<string>, delete: nat -> DeleteResponse, id: string)
    requires Distinct(order)
    ensures Deletions(CleanupEvents(order, delete), id) == if id in order then 1 else 0
    decreases |order|
  {
    if order != [] {
      var init, last := order[..|order| - 1], order[|order| - 1];
      assert order == init + [last];
      EachRecordDeletedOnce(init, delete, id);
      DeletionsAppend(CleanupEvents(init, delete), DeleteEffects(last, delete(|order| - 1)), id);
      DeleteEffectsCounts(last, delete(|order| - 1), id, Delete);
      assert last !in init;
    }
  }

  /** One delete request per record, and one alert per failed delete request. */
  lemma {:induction false} CleanupCounts(order: seq<string>, delete: nat -> DeleteResponse)
    ensures Tally(CleanupEvents(order, delete), Delete) == |order|
    ensures Tally(CleanupEvents(order, delete), Alert) == FailedDeletes(delete, |order|)
    ensures forall k: Kind | k != Delete && k != Alert :: Tally(CleanupEvents(order, delete), k) == 0
    decreases |order|
  {
    if order != [] {
      var init, last, n := order[..|order| - 1], order[|order| - 1], |order| - 1;
      CleanupCounts(init, delete);
      assert |init| == n;
      assert CleanupEvents(order, delete) == CleanupEvents(init, delete) + DeleteEffects(last, delete(n));
      assert FailedDeletes(delete, |order|) == FailedDeletes(delete, n) + (if DeleteFailed(delete(n)) then 1 else 0);
      forall k: Kind
        ensures Tally(CleanupEvents(order, delete), k)
                == Tally(CleanupEvents(init, delete), k)
                   + (if k == Delete then 1 else 0) + (if k == Alert && DeleteFailed(delete(n)) then 1 else 0)
      {
        TallyAppend(CleanupEvents(init, delete), DeleteEffects(last, delete(n)), k);
        DeleteEffectsCounts(last, delete(n), last, k);
      }
    }
  }

  /**
   * Every alert comes right after the delete request for the same record,
   * and reports the status of that request, which failed: `j` is the record's
   * position in the order.
   */
  lemma {:induction false} AlertFollowsItsDelete(order: seq<string>, delete: nat -> DeleteResponse, i: nat)
    returns (j: nat)
    requires i < |CleanupEvents(order, delete)| && CleanupEvents(order, delete)[i].CleanupAlert?
    ensures var t := CleanupEvents(order, delete);
            && i > 0 && t[i - 1] == DeleteRecord(t[i].recordId)
            && j < |order| && order[j] == t[i].recordId
            && DeleteFailed(delete(j)) && t[i].status == delete(j).status
    decreases |order|
  {
    var init, last, n := order[..|order| - 1], order[|order| - 1], |order| - 1;
    var front := CleanupEvents(init, delete);
    var whole := CleanupEvents(order, delete);
    var t := DeleteEffects(last, delete(n));
    assert whole == front + t;
    if i >= |front| {
      assert whole[i] == t[i - |front|];
      assert i != |front|;
      assert DeleteFailed(delete(n)) && whole[i] == CleanupAlert(last, delete(n).status);
      assert whole[i - 1] == t[0];
      j := n;
    } else {
      j := AlertFollowsItsDelete(init, delete, i);
      assert whole[i] == front[i];
      assert whole[i - 1] == front[i - 1];
    }
  }

  /**
   * Deletes the distinct records of `records`, in an order chosen from the
   * set of ids, and returns that order and the effects.
   */
  method DeleteProvisioned(records: seq<string>, delete: nat -> DeleteResponse)
    returns (order: seq<string>, events: seq<Event>)
    ensures Distinct(order)
    ensures forall id :: id in order <==> id in records
    ensures events == CleanupEvents(order, delete)
    ensures forall id :: Deletions(events, id) == if id in records then 1 else 0
    ensures records == [] ==> events == []
  {
    var pending := set id | id in records;
    order := [];
    while pending != {}
      invariant Distinct(order)
      invariant forall id :: id in records <==> id in order || id in pending
      invariant forall id | id in pending :: id !in order
      decreases |pending|
    {
      var id :| id in pending;
      order := order + [id];
      pending := pending - {id};
    }
    events := [];
    var k := 0;
    while k < |order|
      invariant 0 <= k <= |order|
      invariant events == CleanupEvents(order[..k], delete)
    {
      assert order[..k + 1][..k] == order[..k];
      events := events + DeleteEffects(order[k], delete(k));
      k := k + 1;
    }
    assert order[..k] == order;
    if order != [] {
      assert order[0] in records;
    }
    forall id
      ensures Deletions(events, id) == if id in records then 1 else 0
    {
      EachRecordDeletedOnce(order, delete, id);
    }
  }
}
