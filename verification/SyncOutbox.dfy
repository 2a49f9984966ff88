/** The client's queue of mutations that the server has not acknowledged yet. */
module SyncOutbox {
  import opened Numbers
  import opened SyncServer

  /** pending, failed and dead_letter */
  datatype RecordStatus = Waiting | Retry | DeadLetter

  datatype Record = Record(id: int, status: RecordStatus, attempts: nat)

  predicate Has(rows: seq<Record>, id: int) {
    exists k :: 0 <= k < |rows| && rows[k].id == id
  }

  predicate IsDeadLetter(rows: seq<Record>, id: int) {
    exists k :: 0 <= k < |rows| && rows[k].id == id && rows[k].status == DeadLetter
  }

  predicate IsPending(rows: seq<Record>, id: int) {
    exists k :: 0 <= k < |rows| && rows[k].id == id && rows[k].status != DeadLetter
  }

  /** The mutations that still have to reach the server, oldest first. */
  function PendingIds(rows: seq<Record>): seq<int> {
    if rows == [] then []
    else if rows[0].status == DeadLetter then PendingIds(rows[1..])
    else [rows[0].id] + PendingIds(rows[1..])
  }

  lemma {:induction false} PendingMembers(rows: seq<Record>, id: int)
    ensures id in PendingIds(rows) <==> IsPending(rows, id)
  {
    if rows != [] {
      var rest := rows[1..];
      PendingMembers(rest, id);
      if IsPending(rows, id) {
        var k :| 0 <= k < |rows| && rows[k].id == id && rows[k].status != DeadLetter;
        if k > 0 { assert rest[k - 1] == rows[k]; }
      }
      if IsPending(rest, id) {
        var k :| 0 <= k < |rest| && rest[k].id == id && rest[k].status != DeadLetter;
        assert rows[k + 1] == rest[k];
      }
    }
  }

  function Remove(rows: seq<Record>, id: int): seq<Record> {
    if rows == [] then []
    else if rows[0].id == id then Remove(rows[1..], id)
    else [rows[0]] + Remove(rows[1..], id)
  }

  /** Record a failure: the new status, one more attempt. */
  function MarkFailed(rows: seq<Record>, id: int, status: RecordStatus): (after: seq<Record>)
    ensures |after| == |rows|
    ensures forall k :: 0 <= k < |rows| ==> after[k] == FailRow(rows[k], id, status)
  {
    seq(|rows|, k requires 0 <= k < |rows| => FailRow(rows[k], id, status))
  }

  function FailRow(row: Record, id: int, status: RecordStatus): Record {
    if row.id == id then row.(status := status, attempts := row.attempts + 1) else row
  }

  /** What one entry of a push response does to the outbox. */
  function Settle(rows: seq<Record>, result: Result): seq<Record> {
    if !result.status.Failed? then Remove(rows, result.mutation)
    else MarkFailed(rows, result.mutation, if result.status.retryable then Retry else DeadLetter)
  }

  function SettleAll(rows: seq<Record>, results: seq<Result>): seq<Record> {
    if results == [] then rows
    else Settle(SettleAll(rows, results[..|results| - 1]), results[|results| - 1])
  }

  /** The dead letter of this id waits again; any other record stays. */
  function Revive(rows: seq<Record>, id: int): (after: seq<Record>)
    ensures |after| == |rows|
    ensures forall k :: 0 <= k < |rows| ==> after[k] == ReviveRow(rows[k], id)
  {
    seq(|rows|, k requires 0 <= k < |rows| => ReviveRow(rows[k], id))
  }

  function ReviveRow(row: Record, id: int): Record {
    if row.id == id && row.status == DeadLetter then row.(status := Waiting) else row
  }

  lemma {:induction false} RemoveMembers(rows: seq<Record>, id: int, other: int)
    ensures Has(Remove(rows, id), other) <==> Has(rows, other) && other != id
  {
    if rows != [] {
      RemoveMembers(rows[1..], id, other);
      var rest := Remove(rows[1..], id);
      HasCons(rows[0], rows[1..], other);
      assert rows == [rows[0]] + rows[1..];
      HasCons(rows[0], rest, other);
    }
  }

  lemma HasCons(row: Record, rows: seq<Record>, id: int)
    ensures Has([row] + rows, id) <==> row.id == id || Has(rows, id)
  {
    var all := [row] + rows;
    if row.id == id { assert all[0].id == id; }
    if Has(rows, id) {
      var k :| 0 <= k < |rows| && rows[k].id == id;
      assert all[k + 1].id == id;
    }
    if Has(all, id) {
      var k :| 0 <= k < |all| && all[k].id == id;
      if k > 0 { assert rows[k - 1].id == id; }
    }
  }

  /** A response entry removes nothing but the mutation it acknowledges. */
  lemma SettleMembers(rows: seq<Record>, result: Result, id: int)
    ensures Has(Settle(rows, result), id) <==> Has(rows, id) && (result.status.Failed? || id != result.mutation)
  {
    if result.status.Failed? {
    } else {
      RemoveMembers(rows, result.mutation, id);
    }
  }

  /** With nothing pending, whatever is still queued is a dead letter. */
  lemma OnlyDeadLettersLeft(rows: seq<Record>, id: int)
    requires PendingIds(rows) == [] && Has(rows, id)
    ensures IsDeadLetter(rows, id)
  {
    var k :| 0 <= k < |rows| && rows[k].id == id;
    PendingMembers(rows, id);
  }

  // ---- what a whole response does -----------------------------------------------------

  /** Retrying a dead letter makes exactly this one pending again; nothing else changes its state. */
  lemma RevivedIff(rows: seq<Record>, id: int, other: int)
    ensures IsPending(Revive(rows, id), other) <==> IsPending(rows, other) || (other == id && IsDeadLetter(rows, id))
    ensures IsDeadLetter(Revive(rows, id), other) <==> IsDeadLetter(rows, other) && other != id
    ensures forall k :: 0 <= k < |rows| ==>
      Revive(rows, id)[k] == if rows[k].id == id && rows[k].status == DeadLetter then Record(id, Waiting, rows[k].attempts) else rows[k]
  {
    var after := Revive(rows, id);
    if IsPending(rows, other) {
      var k :| 0 <= k < |rows| && rows[k].id == other && rows[k].status != DeadLetter;
      assert after[k].id == other && after[k].status != DeadLetter;
    }
    if IsDeadLetter(rows, other) {
      var k :| 0 <= k < |rows| && rows[k].id == other && rows[k].status == DeadLetter;
      assert after[k].id == other && (other != id ==> after[k].status == DeadLetter);
    }
  }

  /** No entry from n on names the mutation. */
  predicate Unnamed(results: seq<Result>, n: nat, id: int) {
    forall k :: n <= k < |results| ==> results[k].mutation != id
  }

  /** Entry k is the last one that names the mutation. */
  predicate LastWord(results: seq<Result>, k: int, id: int) {
    0 <= k < |results| && results[k].mutation == id && Unnamed(results, k + 1, id)
  }

  /** Some entry says that the server applied the mutation, now or before. */
  predicate Confirms(results: seq<Result>, id: int) {
    exists k :: 0 <= k < |results| && results[k].mutation == id && results[k].status in {Acked, Duplicate}
  }

  /** The last word on the mutation is this failure. */
  predicate EndsFailed(results: seq<Result>, id: int, retryable: bool) {
    exists k :: 0 <= k < |results| && LastWord(results, k, id) && results[k].status == Failed(retryable)
  }

  lemma {:induction false} RemoveRows(rows: seq<Record>, id: int, other: int)
    ensures IsPending(Remove(rows, id), other) <==> IsPending(rows, other) && other != id
    ensures IsDeadLetter(Remove(rows, id), other) <==> IsDeadLetter(rows, other) && other != id
  {
    if rows != [] {
      RemoveRows(rows[1..], id, other);
      assert rows == [rows[0]] + rows[1..];
      StatusCons(rows[0], rows[1..], other);
      StatusCons(rows[0], Remove(rows[1..], id), other);
    }
  }

  lemma StatusCons(row: Record, rows: seq<Record>, id: int)
    ensures IsPending([row] + rows, id) <==> (row.id == id && row.status != DeadLetter) || IsPending(rows, id)
    ensures IsDeadLetter([row] + rows, id) <==> (row.id == id && row.status == DeadLetter) || IsDeadLetter(rows, id)
  {
    var all := [row] + rows;
    forall k | 0 <= k < |rows| ensures all[k + 1] == rows[k] { }
    if IsPending(rows, id) {
      var k :| 0 <= k < |rows| && rows[k].id == id && rows[k].status != DeadLetter;
      assert all[k + 1].id == id;
    }
    if IsDeadLetter(rows, id) {
      var k :| 0 <= k < |rows| && rows[k].id == id && rows[k].status == DeadLetter;
      assert all[k + 1].id == id;
    }
    if row.id == id { assert all[0].id == id; }
  }

  lemma FailedRows(rows: seq<Record>, id: int, status: RecordStatus, other: int)
    ensures var after := MarkFailed(rows, id, status);
      && (IsPending(after, other) <==> if other == id then Has(rows, id) && status != DeadLetter else IsPending(rows, other))
      && (IsDeadLetter(after, other) <==> if other == id then Has(rows, id) && status == DeadLetter else IsDeadLetter(rows, other))
  {
    var after := MarkFailed(rows, id, status);
    forall k | 0 <= k < |rows| ensures after[k].id == rows[k].id && (rows[k].id != id ==> after[k] == rows[k]) { }
    if Has(rows, id) {
      var k :| 0 <= k < |rows| && rows[k].id == id;
      assert after[k].id == id && after[k].status == status;
    }
    if IsPending(rows, other) {
      var k :| 0 <= k < |rows| && rows[k].id == other && rows[k].status != DeadLetter;
      assert after[k].id == other;
    }
    if IsDeadLetter(rows, other) {
      var k :| 0 <= k < |rows| && rows[k].id == other && rows[k].status == DeadLetter;
      assert after[k].id == other;
    }
  }

  /** How one more entry changes the last words. */
  lemma OneMoreWord(results: seq<Result>, last: Result, id: int, retryable: bool)
    ensures Confirms(results + [last], id) <==> Confirms(results, id) || (last.mutation == id && !last.status.Failed?)
    ensures EndsFailed(results + [last], id, retryable)
            <==> if last.mutation == id then last.status == Failed(retryable) else EndsFailed(results, id, retryable)
    ensures Unnamed(results + [last], 0, id) <==> Unnamed(results, 0, id) && last.mutation != id
  {
    var all, n := results + [last], |results|;
    assert all[n] == last && forall k :: 0 <= k < n ==> all[k] == results[k];
    if Confirms(results, id) {
      var k :| 0 <= k < n && results[k].mutation == id && results[k].status in {Acked, Duplicate};
      assert all[k] == results[k];
    }
    if EndsFailed(results, id, retryable) && last.mutation != id {
      var k :| 0 <= k < n && LastWord(results, k, id) && results[k].status == Failed(retryable);
      forall j | k < j < |all| ensures all[j].mutation != id { }
      assert LastWord(all, k, id) && all[k] == results[k];
    }
    if EndsFailed(all, id, retryable) {
      var k :| 0 <= k < |all| && LastWord(all, k, id) && all[k].status == Failed(retryable);
      if k < n {
        forall j | k < j < n ensures results[j].mutation != id { assert all[j] == results[j]; }
        assert LastWord(results, k, id);
      }
    }
    if last.mutation == id { assert LastWord(all, n, id); }
    if Unnamed(results, 0, id) && last.mutation != id {
      forall k | 0 <= k < |all| ensures all[k].mutation != id { }
    }
    if Unnamed(all, 0, id) {
      forall k | 0 <= k < n ensures results[k].mutation != id { assert all[k] == results[k]; }
    }
  }

  /** No entry confirmed it, and the last word was a failure to be tried again, or nothing was said of a pending one. */
  predicate PendingAfter(rows: seq<Record>, results: seq<Result>, id: int) {
    Has(rows, id) && !Confirms(results, id) && (EndsFailed(results, id, true) || (Unnamed(results, 0, id) && IsPending(rows, id)))
  }

  /** No entry confirmed it, and the last word refused it for good, or nothing was said of a dead letter. */
  predicate GivenUpAfter(rows: seq<Record>, results: seq<Result>, id: int) {
    Has(rows, id) && !Confirms(results, id) && (EndsFailed(results, id, false) || (Unnamed(results, 0, id) && IsDeadLetter(rows, id)))
  }

  /** What a response leaves of a mutation, whatever the order of its entries. */
  lemma {:induction false} ResponseSettles(rows: seq<Record>, results: seq<Result>, id: int)
    ensures IsPending(SettleAll(rows, results), id) <==> PendingAfter(rows, results, id)
    ensures IsDeadLetter(SettleAll(rows, results), id) <==> GivenUpAfter(rows, results, id)
  {
    if results == [] {
    } else {
      var n := |results| - 1;
      var before, last := SettleAll(rows, results[..n]), results[n];
      ResponseSettles(rows, results[..n], id);
      assert results == results[..n] + [last];
      OneMoreWord(results[..n], last, id, true);
      OneMoreWord(results[..n], last, id, false);
      SomeWord(results[..n], id);
      if !last.status.Failed? {
        RemoveRows(before, last.mutation, id);
      } else {
        FailedRows(before, last.mutation, if last.status.retryable then Retry else DeadLetter, id);
        HasStatus(before, id);
        HasStatus(rows, id);
      }
    }
  }

  lemma HasStatus(rows: seq<Record>, id: int)
    ensures Has(rows, id) <==> IsPending(rows, id) || IsDeadLetter(rows, id)
  {
    if Has(rows, id) {
      var k :| 0 <= k < |rows| && rows[k].id == id;
      assert rows[k].status != DeadLetter || rows[k].status == DeadLetter;
    }
  }

  /** Entries that name a mutation have a last word on it. */
  lemma {:induction false} SomeWord(results: seq<Result>, id: int)
    ensures Unnamed(results, 0, id) || Confirms(results, id) || EndsFailed(results, id, true) || EndsFailed(results, id, false)
  {
    if results != [] {
      var n := |results| - 1;
      SomeWord(results[..n], id);
      assert results == results[..n] + [results[n]];
      OneMoreWord(results[..n], results[n], id, true);
      OneMoreWord(results[..n], results[n], id, false);
    }
  }

  function Mentions(results: seq<Result>, id: int): nat {
    if results == [] then 0
    else Mentions(results[..|results| - 1], id) + if results[|results| - 1].mutation == id then 1 else 0
  }

  lemma {:induction false} RemoveKeepsRows(rows: seq<Record>, id: int, row: Record)
    ensures row in Remove(rows, id) <==> row in rows && row.id != id
  {
    if rows != [] { RemoveKeepsRows(rows[1..], id, row); }
  }

  /** A record that is still queued counts one more attempt for every entry that named it. */
  lemma {:induction false} AttemptsAreCounted(rows: seq<Record>, results: seq<Result>, row: Record) returns (before: Record)
    requires row in SettleAll(rows, results)
    ensures before in rows && before.id == row.id && row.attempts == before.attempts + Mentions(results, row.id)
  {
    if results == [] {
      before := row;
    } else {
      var n := |results| - 1;
      var between, last := SettleAll(rows, results[..n]), results[n];
      if !last.status.Failed? {
        RemoveKeepsRows(between, last.mutation, row);
        before := AttemptsAreCounted(rows, results[..n], row);
      } else {
        var after := SettleAll(rows, results);
        var k :| 0 <= k < |after| && after[k] == row;
        before := AttemptsAreCounted(rows, results[..n], between[k]);
      }
    }
  }

  class Outbox {
    var rows: seq<Record>

    /** The loop of runWorkspaceSync over the results of a push response. */
    method ProcessResponse(results: seq<Result>) returns (pushed: nat, failed: nat)
      modifies this
      ensures rows == SettleAll(old(rows), results)
      ensures pushed == |Acknowledged(results)| && failed == |Retryable(results)|
      ensures forall id :: Has(rows, id) <==> Has(old(rows), id) && id !in Acknowledged(results)
      ensures forall id :: IsPending(rows, id) <==> PendingAfter(old(rows), results, id)
      ensures forall id :: IsDeadLetter(rows, id) <==> GivenUpAfter(old(rows), results, id)
    {
      pushed, failed := 0, 0;
      var n := 0;
      while n < |results|
        invariant n <= |results| && rows == SettleAll(old(rows), results[..n])
        invariant pushed == |Acknowledged(results[..n])| && failed == |Retryable(results[..n])|
        invariant forall id :: Has(rows, id) <==> Has(old(rows), id) && id !in Acknowledged(results[..n])
      {
        var result := results[n];
        assert results[..n + 1][..n] == results[..n];
        forall id ensures Has(Settle(rows, result), id) <==> Has(rows, id) && (result.status.Failed? || id != result.mutation) {
          SettleMembers(rows, result, id);
        }
        if !result.status.Failed? {
          rows := Remove(rows, result.mutation);
          pushed := pushed + 1;
        } else if !result.status.retryable {
          rows := MarkFailed(rows, result.mutation, DeadLetter);
        } else {
          rows := MarkFailed(rows, result.mutation, Retry);
          failed := failed + 1;
        }
        n := n + 1;
      }
      assert results[..n] == results;
      forall id
        ensures IsPending(rows, id) <==> PendingAfter(old(rows), results, id)
        ensures IsDeadLetter(rows, id) <==> GivenUpAfter(old(rows), results, id)
      {
        ResponseSettles(old(rows), results, id);
      }
    }
  }

  /** The mutations a response acknowledges, in its order. */
  function Acknowledged(results: seq<Result>): seq<int> {
    if results == [] then []
    else
      var last := results[|results| - 1];
      Acknowledged(results[..|results| - 1]) + if last.status.Failed? then [] else [last.mutation]
  }

  function Retryable(results: seq<Result>): seq<int> {
    if results == [] then []
    else
      var last := results[|results| - 1];
      Retryable(results[..|results| - 1]) + if last.status.Failed? && last.status.retryable then [last.mutation] else []
  }
}
