/** The trigger_log table: one row for each recorded review request, times in whole seconds. */
module TriggerLog {
  import opened Prelude
  import opened ReviewStatuses

  datatype PullRequest = PullRequest(owner: string, repo: string, number: int)

  datatype TriggerRow = TriggerRow(
    id: int, pr: PullRequest, trigger: string, requestedAt: int, completedAt: Option<int>, prevReviewId: Option<string>)

  /* What GetLatest hands out: times back in nanoseconds. */
  function ToEntry(r: TriggerRow): TriggerEntry {
    TriggerEntry(r.id, r.requestedAt * SECOND, if r.completedAt.Some? then Some(r.completedAt.value * SECOND) else None, r.prevReviewId)
  }

  /* ORDER BY requested_at DESC, id DESC. */
  predicate Newer(a: TriggerRow, b: TriggerRow) {
    a.requestedAt > b.requestedAt || (a.requestedAt == b.requestedAt && a.id > b.id)
  }

  ghost predicate IsLatest(rows: seq<TriggerRow>, pr: PullRequest, r: TriggerRow) {
    r in rows && r.pr == pr && forall x :: x in rows && x.pr == pr && x != r ==> Newer(r, x)
  }

  predicate Unfinished(r: TriggerRow, pr: PullRequest) { r.pr == pr && r.completedAt.None? }

  /* The primary key grows with every row: no row is ever deleted. */
  ghost predicate Numbered(rows: seq<TriggerRow>, nextId: int) {
    && (forall i, j :: 0 <= i < j < |rows| ==> rows[i].id < rows[j].id)
    && forall r :: r in rows ==> r.id < nextId
  }

  function Completed(rows: seq<TriggerRow>, id: int, now: int): seq<TriggerRow> {
    seq(|rows|, i requires 0 <= i < |rows| =>
      if rows[i].id == id && rows[i].completedAt.None? then rows[i].(completedAt := Some(Sec(now))) else rows[i])
  }

  lemma CompletedKeepsIds(rows: seq<TriggerRow>, id: int, now: int, nextId: int)
    requires Numbered(rows, nextId)
    ensures Numbered(Completed(rows, id, now), nextId)
  {
    var rows' := Completed(rows, id, now);
    assert forall i :: 0 <= i < |rows| ==> rows'[i].id == rows[i].id && rows[i] in rows;
  }

  lemma OneMoreLatest(rows: seq<TriggerRow>, nextId: int, i: nat, pr: PullRequest, r: Option<TriggerRow>)
    requires Numbered(rows, nextId) && i < |rows|
    requires r.None? <==> forall x :: x in rows[..i] ==> x.pr != pr
    requires r.Some? ==> IsLatest(rows[..i], pr, r.value)
    ensures var r' := if rows[i].pr == pr && (r == None || Newer(rows[i], r.value)) then Some(rows[i]) else r;
            && (r'.None? <==> forall x :: x in rows[..i + 1] ==> x.pr != pr)
            && (r'.Some? ==> IsLatest(rows[..i + 1], pr, r'.value))
  {
    assert rows[..i + 1] == rows[..i] + [rows[i]];
    assert forall x :: x in rows[..i] ==> x.id < rows[i].id;
  }

  class Table {
    var rows: seq<TriggerRow>
    var nextId: int

    constructor ()
      ensures rows == [] && Numbered(rows, nextId)
    {
      rows, nextId := [], 1;
    }

    /* requested_at defaults to the database's clock. */
    method Insert(pr: PullRequest, trigger: string, now: int, fails: bool) returns (ok: bool)
      requires Numbered(rows, nextId)
      modifies this
      ensures Numbered(rows, nextId) && ok == !fails
      ensures ok ==> rows == old(rows) + [TriggerRow(old(nextId), pr, trigger, Sec(now), None, None)] && nextId == old(nextId) + 1
      ensures !ok ==> rows == old(rows) && nextId == old(nextId)
    {
      if fails {
        return false;
      }
      rows := rows + [TriggerRow(nextId, pr, trigger, Sec(now), None, None)];
      nextId := nextId + 1;
      return true;
    }

    method InsertWithPrevReviewID(pr: PullRequest, trigger: string, requestedAt: int, prevReviewId: string, fails: bool) returns (ok: bool)
      requires Numbered(rows, nextId)
      modifies this
      ensures Numbered(rows, nextId) && ok == !fails
      ensures ok ==> rows == old(rows) + [TriggerRow(old(nextId), pr, trigger, Sec(requestedAt), None, Some(prevReviewId))]
                     && nextId == old(nextId) + 1
      ensures !ok ==> rows == old(rows) && nextId == old(nextId)
    {
      if fails {
        return false;
      }
      rows := rows + [TriggerRow(nextId, pr, trigger, Sec(requestedAt), None, Some(prevReviewId))];
      nextId := nextId + 1;
      return true;
    }

    method GetLatest(pr: PullRequest) returns (r: Option<TriggerRow>)
      requires Numbered(rows, nextId)
      ensures r.None? <==> forall x :: x in rows ==> x.pr != pr
      ensures r.Some? ==> IsLatest(rows, pr, r.value)
    {
      hide IsLatest, Numbered;
      r := None;
      for i := 0 to |rows|
        invariant r.None? <==> forall x :: x in rows[..i] ==> x.pr != pr
        invariant r.Some? ==> IsLatest(rows[..i], pr, r.value)
      {
        OneMoreLatest(rows, nextId, i, pr, r);
        if rows[i].pr == pr && (r == None || Newer(rows[i], r.value)) {
          r := Some(rows[i]);
        }
      }
      assert rows[..|rows|] == rows;
    }

    method UpdateCompletedAt(id: int, now: int)
      requires Numbered(rows, nextId)
      modifies this
      ensures Numbered(rows, nextId) && rows == Completed(old(rows), id, now) && nextId == old(nextId)
      ensures |rows| == |old(rows)|
      ensures forall i :: 0 <= i < |rows| ==>
                if old(rows)[i].id != id || old(rows)[i].completedAt.Some? then rows[i] == old(rows)[i]
                else
                  && rows[i] == old(rows)[i].(completedAt := rows[i].completedAt) && rows[i].completedAt.Some?
                  && rows[i].completedAt.value * SECOND <= now < (rows[i].completedAt.value + 1) * SECOND
    {
      ghost var before := rows;
      ghost var after := Completed(rows, id, now);
      for i := 0 to |rows|
        invariant nextId == old(nextId) && |rows| == |before|
        invariant forall j :: 0 <= j < i ==> rows[j] == after[j]
        invariant forall j :: i <= j < |rows| ==> rows[j] == before[j]
      {
        if rows[i].id == id && rows[i].completedAt == None {
          rows := rows[i := rows[i].(completedAt := Some(Sec(now)))];
        }
      }
      assert rows == after;
      CompletedKeepsIds(before, id, now, nextId);
    }

    method HasPending(pr: PullRequest) returns (pending: bool)
      ensures pending <==> exists r :: r in rows && Unfinished(r, pr)
    {
      pending := false;
      for i := 0 to |rows|
        invariant pending <==> exists r :: r in rows[..i] && Unfinished(r, pr)
      {
        assert rows[..i + 1] == rows[..i] + [rows[i]];
        if Unfinished(rows[i], pr) {
          pending := true;
        }
      }
      assert rows[..|rows|] == rows;
    }
  }

  /** A new row is the latest of its pull request exactly when no other was requested later. */
  lemma NewRowIsLatestIff(rows: seq<TriggerRow>, nextId: int, r: TriggerRow)
    requires Numbered(rows, nextId) && r.id == nextId
    ensures IsLatest(rows + [r], r.pr, r) <==> forall x :: x in rows && x.pr == r.pr ==> x.requestedAt <= r.requestedAt
  {
    if IsLatest(rows + [r], r.pr, r) {
      forall x | x in rows && x.pr == r.pr ensures x.requestedAt <= r.requestedAt {
        assert x in rows + [r] && x != r;
      }
    }
  }
}
