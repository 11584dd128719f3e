/** The review_watch table: a primary key, at most one active row per user and pull request, and the order
    in which the latest row is looked up. A row's place in the sequence is its rowid. */
module WatchStore {
  import opened Prelude
  import opened ReviewStatuses
  import opened WatchTypes

  function Position(rows: seq<Row>, id: WatchId): (p: nat)
    ensures p <= |rows| && (p < |rows| ==> rows[p].id == id)
    ensures forall i :: 0 <= i < p ==> rows[i].id != id
  {
    if |rows| == 0 || rows[0].id == id then 0 else 1 + Position(rows[1..], id)
  }

  predicate ActiveElsewhere(rows: seq<Row>, key: Key, except: nat) {
    exists i :: 0 <= i < |rows| && i != except && rows[i].isActive && rows[i].key == key
  }

  /* What a conflict on the primary key writes: everything but the key columns and the start time. */
  function Merge(stored: Row, r: Row): Row { r.(key := stored.key, startedAt := stored.startedAt) }

  /* INSERT ... ON CONFLICT(id) DO UPDATE; None when the partial unique index forbids it. */
  function Upsert(rows: seq<Row>, r: Row): Option<seq<Row>> {
    var p := Position(rows, r.id);
    if p < |rows| then
      if r.isActive && ActiveElsewhere(rows, rows[p].key, p) then None else Some(rows[p := Merge(rows[p], r)])
    else if r.isActive && ActiveElsewhere(rows, r.key, p) then None
    else Some(rows + [r])
  }

  /** What the schema enforces: the primary key and the partial unique index. */
  ghost predicate Constraints(rows: seq<Row>) {
    && (forall i, j :: 0 <= i < j < |rows| ==> rows[i].id != rows[j].id)
    && forall i, j :: 0 <= i < j < |rows| && rows[i].isActive && rows[j].isActive ==> rows[i].key != rows[j].key
  }

  lemma UpsertKeepsConstraints(rows: seq<Row>, r: Row)
    requires Constraints(rows) && Upsert(rows, r).Some?
    ensures Constraints(Upsert(rows, r).value)
  {
  }

  lemma PositionOf(rows: seq<Row>, i: nat)
    requires Constraints(rows) && i < |rows|
    ensures Position(rows, rows[i].id) == i
  {
  }

  function StaleRow(r: Row, now: int, message: Message): Row {
    if !r.isActive then r
    else r.(status := Stale, failureReason := None, isActive := false, updatedAt := now,
            completedAt := Some(r.completedAt.GetOr(now)), staleAt := Some(r.staleAt.GetOr(now)),
            lastError := Some(if r.lastError == Some(Text("")) then message else r.lastError.GetOr(message)))
  }

  /* ORDER BY updated_at, started_at, rowid: whether row i comes before row j in time. */
  predicate Earlier(rows: seq<Row>, i: nat, j: nat)
    requires i < |rows| && j < |rows|
  {
    || rows[i].updatedAt < rows[j].updatedAt
    || (rows[i].updatedAt == rows[j].updatedAt
        && (rows[i].startedAt < rows[j].startedAt || (rows[i].startedAt == rows[j].startedAt && i < j)))
  }

  ghost predicate IsLatest(rows: seq<Row>, key: Key, i: nat) {
    && i < |rows| && rows[i].key == key
    && forall j :: 0 <= j < |rows| && j != i && rows[j].key == key ==> Earlier(rows, j, i)
  }

  class ReviewWatchTable {
    var rows: seq<Row>

    constructor ()
      ensures rows == []
    {
      rows := [];
    }

    /* `fails` stands for any failure of the database itself. */
    method UpsertReviewWatch(r: Row, fails: bool) returns (ok: bool)
      requires Constraints(rows)
      modifies this
      ensures Constraints(rows)
      ensures ok <==> !fails && Upsert(old(rows), r).Some?
      ensures rows == if ok then Upsert(old(rows), r).value else old(rows)
      ensures ok && (forall i :: 0 <= i < |old(rows)| ==> old(rows)[i].id != r.id) ==> rows == old(rows) + [r]
      ensures forall i :: ok && 0 <= i < |old(rows)| && old(rows)[i].id == r.id ==>
                |rows| == |old(rows)| && rows[i] == r.(key := old(rows)[i].key, startedAt := old(rows)[i].startedAt)
    {
      if fails {
        return false;
      }
      var p, blocked := |rows|, false;
      for i := 0 to |rows|
        invariant p == |rows| || 0 <= p < i
        invariant p < |rows| ==> rows[p].id == r.id
        invariant forall k :: 0 <= k < i && k < p ==> rows[k].id != r.id
      {
        if p == |rows| && rows[i].id == r.id {
          p := i;
        }
      }
      assert p == Position(rows, r.id);
      var key := if p < |rows| then rows[p].key else r.key;
      for i := 0 to |rows|
        invariant blocked <==> exists k :: 0 <= k < i && k != p && rows[k].isActive && rows[k].key == key
      {
        if i != p && rows[i].isActive && rows[i].key == key {
          blocked := true;
        }
      }
      if r.isActive && blocked {
        return false;
      }
      UpsertKeepsConstraints(rows, r);
      rows := if p < |rows| then rows[p := Merge(rows[p], r)] else rows + [r];
      return true;
    }

    method GetReviewWatchByID(id: WatchId) returns (r: Option<Row>)
      ensures r == if Position(rows, id) < |rows| then Some(rows[Position(rows, id)]) else None
    {
      var p := Position(rows, id);
      r := if p < |rows| then Some(rows[p]) else None;
    }

    method GetLatestReviewWatch(key: Key) returns (r: Option<Row>)
      ensures r.None? <==> forall i :: 0 <= i < |rows| ==> rows[i].key != key
      ensures r.Some? ==> exists i :: 0 <= i < |rows| && IsLatest(rows, key, i) && r.value == rows[i]
    {
      var best := |rows|;
      for i := 0 to |rows|
        invariant best == |rows| || 0 <= best < i
        invariant best == |rows| ==> forall j :: 0 <= j < i ==> rows[j].key != key
        invariant best < |rows| ==> rows[best].key == key
        invariant best < |rows| ==> forall j :: 0 <= j < i && j != best && rows[j].key == key ==> Earlier(rows, j, best)
      {
        if rows[i].key == key && (best == |rows| || Earlier(rows, best, i)) {
          best := i;
        }
      }
      if best == |rows| {
        return None;
      }
      assert IsLatest(rows, key, best);
      return Some(rows[best]);
    }

    /* Run when the table is opened: workers do not survive a restart. */
    method MarkActiveReviewWatchesStale(now: int, message: Message)
      requires Constraints(rows)
      modifies this
      ensures Constraints(rows) && |rows| == |old(rows)|
      ensures forall i :: 0 <= i < |rows| ==> rows[i] == StaleRow(old(rows)[i], now, message)
      ensures forall i :: 0 <= i < |rows| ==> !rows[i].isActive
    {
      var before := rows;
      for i := 0 to |rows|
        invariant |rows| == |before| && before == old(rows)
        invariant forall j :: 0 <= j < i ==> rows[j] == StaleRow(before[j], now, message)
        invariant forall j :: i <= j < |rows| ==> rows[j] == before[j]
      {
        if rows[i].isActive {
          rows := rows[i := StaleRow(rows[i], now, message)];
        }
      }
    }
  }
}
