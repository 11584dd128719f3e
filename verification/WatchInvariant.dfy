/** What every lock section keeps: the active index, the life cycle of a watch, and the agreement of memory
    with the table, whatever upserts fail. */
module WatchInvariant {
  import opened Prelude
  import opened ReviewStatuses
  import opened WatchTypes
  import opened WatchStore
  import opened WatchSteps

  // ---- the invariant, piece by piece ----

  /** A watch is live, or ended with everything an ended watch shows. */
  ghost predicate LifeCycle(cfg: Config, w: Watch) {
    && (w.terminal <==> w.status != Watching)
    && (w.terminal <==> w.completedAt.Some?)
    && (w.status == Failed <==> w.failureReason.Some?)
    && (w.status == Stale <==> w.staleAt.Some?)
    && (w.failureReason == Some(AuthExpired) ==> w.recoveryHint.Some?)
    && (w.terminal ==> w.token == "" && !w.hasClient && !w.workerRunning)
    && (!w.terminal ==> w.token != "" && w.hasClient && w.workerRunning && !w.ctxDone)
    && (!w.terminal ==> w.upstreamFailures < cfg.threshold)
  }

  ghost predicate WatchOk(cfg: Config, c: Core, id: WatchId)
    requires id in c.watches
  {
    var w := c.watches[id];
    && w.id == id && LifeCycle(cfg, w)
    && w.startedAt <= w.updatedAt <= c.clock
  }

  ghost predicate WatchesOk(cfg: Config, c: Core) {
    forall id :: id in c.watches ==> WatchOk(cfg, c, id)
  }

  /** The active index is exactly the index of the live watches. */
  ghost predicate IndexOk(c: Core) {
    && (forall k :: k in c.active ==> Live(c, c.active[k]) && c.watches[c.active[k]].key == k)
    && (forall id :: Live(c, id) ==> c.watches[id].key in c.active && c.active[c.watches[id].key] == id)
    && (c.closed ==> c.active == map[])
  }

  /** Every watch has a row: the very image of the watch, unless its last upsert failed; then it is still
      active. Every active row belongs to a watch in memory. */
  ghost predicate RowAgrees(c: Core, id: WatchId)
    requires id in c.watches
  {
    var p := Position(c.rows, id);
    && p < |c.rows|
    && c.rows[p].key == c.watches[id].key
    && c.rows[p].startedAt == Sec(c.watches[id].startedAt)
    && (id !in c.unsaved ==> c.rows[p] == RowOf(c.watches[id]))
    && (id in c.unsaved ==> c.rows[p].isActive)
  }

  ghost predicate TableAgrees(c: Core) {
    && Constraints(c.rows)
    && (forall id :: id in c.watches ==> RowAgrees(c, id))
    && (forall i :: 0 <= i < |c.rows| && c.rows[i].isActive ==> c.rows[i].id in c.watches)
    && c.unsaved <= c.watches.Keys
  }

  /** Rows of one key follow each other in time, and only the last may be active. */
  ghost predicate Ordered(c: Core) {
    && (forall i :: 0 <= i < |c.rows| ==> c.rows[i].startedAt <= c.rows[i].updatedAt <= Sec(c.clock))
    && forall i, j :: 0 <= i < j < |c.rows| && c.rows[i].key == c.rows[j].key ==>
         !c.rows[i].isActive && c.rows[i].updatedAt <= c.rows[j].startedAt
  }

  ghost predicate LastOfKey(rows: seq<Row>, i: nat) {
    i < |rows| && forall j :: i < j < |rows| ==> rows[j].key != rows[i].key
  }

  /** The latest index names, for each key of a watch, the watch whose row is the key's last. */
  ghost predicate LatestOk(c: Core) {
    && (forall id :: id in c.watches ==> c.watches[id].key in c.latest)
    && forall k :: k in c.latest ==> NamesLatest(c, k)
  }

  ghost predicate NamesLatest(c: Core, k: Key)
    requires k in c.latest
  {
    && c.latest[k] in c.watches && c.watches[c.latest[k]].key == k
    && LastOfKey(c.rows, Position(c.rows, c.latest[k]))
  }

  /** No row's ID can be drawn again. */
  ghost predicate IdsSpent(c: Core) {
    && c.epoch <= c.clock
    && forall i :: 0 <= i < |c.rows| ==>
         c.rows[i].id.nanos <= c.clock && (c.rows[i].id.nanos < c.epoch || c.rows[i].id.count <= c.idSeq)
  }

  ghost predicate Inv(cfg: Config, c: Core) {
    WatchesOk(cfg, c) && IndexOk(c) && TableAgrees(c) && Ordered(c) && LatestOk(c) && IdsSpent(c)
  }

  /** So the order by update time, start time and rowid names the key's last row. */
  lemma OrderNamesTheLast(c: Core, key: Key, p: nat)
    requires Ordered(c)
    ensures IsLatest(c.rows, key, p) <==> p < |c.rows| && c.rows[p].key == key && LastOfKey(c.rows, p)
    ensures IsLatest(c.rows, key, p) ==>
              forall j :: 0 <= j < |c.rows| && c.rows[j].key == key ==> c.rows[j].startedAt <= c.rows[p].startedAt
  {
  }

  // ---- rewriting one live watch ----

  ghost predicate Rewrites(c: Core, w: Watch) {
    Live(c, w.id) && w.key == c.watches[w.id].key && w.startedAt == c.watches[w.id].startedAt
  }

  /* Memory holds w; its row is rewritten unless the upsert failed. */
  ghost function Put(c: Core, w: Watch, saved: bool): Core
    requires Position(c.rows, w.id) < |c.rows|
  {
    var p := Position(c.rows, w.id);
    c.(watches := c.watches[w.id := w],
       active := if w.terminal then c.active - {w.key} else c.active,
       rows := if saved then c.rows[p := RowOf(w)] else c.rows,
       unsaved := if saved then c.unsaved - {w.id} else c.unsaved + {w.id})
  }

  /* A live watch's row is the active one of its key, the last. */
  lemma LiveRow(c: Core, id: WatchId)
    requires TableAgrees(c) && Ordered(c) && Live(c, id)
    ensures var p := Position(c.rows, id);
            && p < |c.rows| && c.rows[p].isActive && c.rows[p].key == c.watches[id].key
            && c.rows[p].startedAt == Sec(c.watches[id].startedAt) && LastOfKey(c.rows, p)
  {
    hide Constraints, RowOf, Position;
    assert RowAgrees(c, id);
    RowIdentity(c.watches[id]);
  }

  /* So saving a live watch violates nothing, and rewrites just that row. */
  lemma SavingSucceeds(c: Core, w: Watch)
    requires TableAgrees(c) && Ordered(c) && Rewrites(c, w)
    ensures Position(c.rows, w.id) < |c.rows|
    ensures Upsert(c.rows, RowOf(w)) == Some(c.rows[Position(c.rows, w.id) := RowOf(w)])
  {
    hide Position;
    LiveRow(c, w.id);
    MergeIsRow(c.rows[Position(c.rows, w.id)], w);
    OnlyActive(c.rows, Position(c.rows, w.id));
  }

  lemma OnlyActive(rows: seq<Row>, p: nat)
    requires Constraints(rows) && p < |rows| && rows[p].isActive
    ensures !ActiveElsewhere(rows, rows[p].key, p)
  {
  }

  lemma MergeIsRow(stored: Row, w: Watch)
    requires stored.key == w.key && stored.startedAt == Sec(w.startedAt)
    ensures Merge(stored, RowOf(w)) == RowOf(w)
  {
  }

  lemma RecordIsPut(c: Core, w: Watch, intended: Status, now: int, fails: bool)
    requires TableAgrees(c) && Ordered(c) && Rewrites(c, w)
    ensures Position(c.rows, w.id) < |c.rows|
    ensures Record(c, w, intended, now, fails) == Put(c, if fails then Degrade(w, intended, now) else w, !fails)
  {
    hide TableAgrees, Ordered, RowOf, Upsert;
    SavingSucceeds(c, w);
  }

  ghost predicate Sound(cfg: Config, c: Core, w: Watch) {
    LifeCycle(cfg, w) && w.startedAt <= w.updatedAt <= c.clock
  }

  lemma PutKeepsMemory(cfg: Config, c: Core, w: Watch, saved: bool)
    requires WatchesOk(cfg, c) && IndexOk(c)
    requires Rewrites(c, w) && Sound(cfg, c, w) && Position(c.rows, w.id) < |c.rows|
    ensures WatchesOk(cfg, Put(c, w, saved)) && IndexOk(Put(c, w, saved))
  {
    hide LifeCycle, RowOf;
    var c' := Put(c, w, saved);
    forall id | id in c'.watches ensures WatchOk(cfg, c', id) {
      if id != w.id { assert WatchOk(cfg, c, id); }
    }
    assert WatchOk(cfg, c, w.id);
    forall id | Live(c', id) ensures c'.watches[id].key in c'.active && c'.active[c'.watches[id].key] == id {
      if id != w.id { assert Live(c, id); }
    }
  }

  lemma SameIdsSamePositions(rows: seq<Row>, rows': seq<Row>, id: WatchId)
    requires |rows| == |rows'| && forall i :: 0 <= i < |rows| ==> rows'[i].id == rows[i].id
    ensures Position(rows', id) == Position(rows, id)
  {
    var q, q' := Position(rows, id), Position(rows', id);
    if q < |rows| { assert rows'[q].id == id; }
    if q' < |rows'| { assert rows[q'].id == id; }
  }

  lemma PutMovesNoRow(c: Core, w: Watch, saved: bool)
    requires Position(c.rows, w.id) < |c.rows|
    ensures var rows' := Put(c, w, saved).rows;
            |rows'| == |c.rows| && forall id :: Position(rows', id) == Position(c.rows, id)
  {
    hide Position;
    forall id ensures Position(Put(c, w, saved).rows, id) == Position(c.rows, id) {
      SameIdsSamePositions(c.rows, Put(c, w, saved).rows, id);
    }
  }

  lemma PutKeepsTable(c: Core, w: Watch, saved: bool)
    requires TableAgrees(c) && Ordered(c) && Rewrites(c, w) && Position(c.rows, w.id) < |c.rows|
    ensures TableAgrees(Put(c, w, saved))
  {
    hide Upsert, Ordered, Position;
    SavingSucceeds(c, w);
    PutMovesNoRow(c, w, saved);
    LiveRow(c, w.id);
    UpsertKeepsConstraints(c.rows, RowOf(w));
    PutKeepsAgreement(c, w, saved);
  }

  lemma PutKeepsAgreement(c: Core, w: Watch, saved: bool)
    requires TableAgrees(c) && Rewrites(c, w) && Position(c.rows, w.id) < |c.rows|
    requires c.rows[Position(c.rows, w.id)].isActive
    requires forall id :: Position(Put(c, w, saved).rows, id) == Position(c.rows, id)
    ensures forall id :: id in Put(c, w, saved).watches ==> RowAgrees(Put(c, w, saved), id)
    ensures var c' := Put(c, w, saved); forall i :: 0 <= i < |c'.rows| && c'.rows[i].isActive ==> c'.rows[i].id in c'.watches
  {
    hide Constraints, Position;
    var c' := Put(c, w, saved);
    var p := Position(c.rows, w.id);
    forall id | id in c'.watches ensures RowAgrees(c', id) {
      assert RowAgrees(c, id);
      if id != w.id { assert c.rows[Position(c.rows, id)].id != c.rows[p].id; }
    }
  }

  lemma PutKeepsOrder(c: Core, w: Watch, saved: bool)
    requires TableAgrees(c) && Ordered(c) && LatestOk(c) && IdsSpent(c)
    requires Rewrites(c, w) && w.startedAt <= w.updatedAt <= c.clock && Position(c.rows, w.id) < |c.rows|
    ensures Ordered(Put(c, w, saved)) && LatestOk(Put(c, w, saved)) && IdsSpent(Put(c, w, saved))
  {
    hide TableAgrees, Ordered, LatestOk, IdsSpent, Position, RowOf;
    LiveRow(c, w.id);
    PutKeepsRowOrder(c, w, saved);
    RowIdentity(w);
    LatestFollows(c, Put(c, w, saved));
  }

  lemma RowIdentity(w: Watch)
    ensures var r := RowOf(w);
            r.id == w.id && r.key == w.key && r.startedAt == Sec(w.startedAt) && r.updatedAt == Sec(w.updatedAt) && r.isActive == !w.terminal
  {
  }

  lemma PutKeepsRowOrder(c: Core, w: Watch, saved: bool)
    requires Ordered(c) && IdsSpent(c) && w.startedAt <= w.updatedAt <= c.clock
    requires var p := Position(c.rows, w.id);
             p < |c.rows| && LastOfKey(c.rows, p) && c.rows[p].key == w.key && c.rows[p].startedAt == Sec(w.startedAt)
    ensures Ordered(Put(c, w, saved)) && IdsSpent(Put(c, w, saved))
  {
    hide Position;
    var rows' := Put(c, w, saved).rows;
    assert forall i :: 0 <= i < |c.rows| ==>
      rows'[i].id == c.rows[i].id && rows'[i].key == c.rows[i].key && rows'[i].startedAt == c.rows[i].startedAt;
  }

  /* As long as no watch changes its key and no row moves, the latest index stays right. */
  lemma LatestFollows(c: Core, c': Core)
    requires LatestOk(c) && c'.latest == c.latest && c'.watches.Keys == c.watches.Keys && |c'.rows| == |c.rows|
    requires forall id :: id in c.watches ==> c'.watches[id].key == c.watches[id].key
    requires forall i :: 0 <= i < |c.rows| ==> c'.rows[i].id == c.rows[i].id && c'.rows[i].key == c.rows[i].key
    ensures LatestOk(c')
  {
    hide NamesLatest;
    forall k | k in c'.latest ensures NamesLatest(c', k) {
      NamesLatestFollows(c, c', k);
    }
  }

  lemma NamesLatestFollows(c: Core, c': Core, k: Key)
    requires k in c.latest && NamesLatest(c, k)
    requires c'.latest == c.latest && c'.watches.Keys == c.watches.Keys && |c'.rows| == |c.rows|
    requires forall id :: id in c.watches ==> c'.watches[id].key == c.watches[id].key
    requires forall i :: 0 <= i < |c.rows| ==> c'.rows[i].id == c.rows[i].id && c'.rows[i].key == c.rows[i].key
    ensures NamesLatest(c', k)
  {
    hide Position;
    SameIdsSamePositions(c.rows, c'.rows, c.latest[k]);
  }

  lemma PutKeepsInv(cfg: Config, c: Core, w: Watch, saved: bool)
    requires Inv(cfg, c) && Rewrites(c, w) && Sound(cfg, c, w) && Position(c.rows, w.id) < |c.rows|
    ensures Inv(cfg, Put(c, w, saved))
  {
    hide WatchesOk, IndexOk, TableAgrees, Ordered, LatestOk, IdsSpent, LifeCycle, Put;
    PutKeepsMemory(cfg, c, w, saved);
    PutKeepsTable(c, w, saved);
    PutKeepsOrder(c, w, saved);
  }

  /** Recording a sound rewrite of a live watch keeps the invariant, saved or degraded. */
  lemma RecordKeepsInv(cfg: Config, c: Core, w: Watch, intended: Status, now: int, fails: bool)
    requires Inv(cfg, c) && Rewrites(c, w) && Sound(cfg, c, w)
    requires fails ==> Sound(cfg, c, Degrade(w, intended, now))
    ensures Inv(cfg, Record(c, w, intended, now, fails))
  {
    hide WatchesOk, IndexOk, TableAgrees, Ordered, LatestOk, IdsSpent, LifeCycle, Put, Record;
    RecordIsPut(c, w, intended, now, fails);
    PutKeepsInv(cfg, c, if fails then Degrade(w, intended, now) else w, !fails);
  }
}
