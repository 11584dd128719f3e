/** Ending the live watches one after the other, in whatever order, comes to ending them all at once. */
module WatchClosing {
  import opened Prelude
  import opened ReviewStatuses
  import opened WatchTypes
  import opened WatchStore
  import opened WatchSteps
  import opened WatchInvariant
  import opened WatchSections

  /* Close part of the way, with the watches in `done` ended. */
  ghost function Closing(c: Core, now: int, failing: set<WatchId>, done: set<WatchId>): Core {
    c.(closed := true, clock := now,
       active := map k | k in c.active && c.active[k] !in done :: c.active[k],
       watches := map id | id in c.watches ::
         if id in done then CloseOne(c.watches[id], now, id in failing) else c.watches[id],
       rows := seq(|c.rows|, i requires 0 <= i < |c.rows| =>
         var id := c.rows[i].id;
         if id in done && id in c.watches && id !in failing then Merge(c.rows[i], RowOf(CloseWatch(c.watches[id], now))) else c.rows[i]),
       unsaved := (c.unsaved - done) + done * failing)
  }

  ghost predicate CanClose(cfg: Config, c: Core, now: int, failing: set<WatchId>, done: set<WatchId>) {
    && Inv(cfg, c) && c.clock <= now && !c.closed
    && (forall id :: id in done ==> Live(c, id))
    && Inv(cfg, Closing(c, now, failing, done).(closed := false))
  }

  lemma ClosingBegins(cfg: Config, c: Core, now: int, failing: set<WatchId>)
    requires Inv(cfg, c) && c.clock <= now && !c.closed
    ensures CanClose(cfg, c, now, failing, {})
    ensures Closing(c, now, failing, {}) == c.(closed := true, clock := now)
  {
    hide Inv;
    AdvanceKeepsInv(cfg, c, now);
    var d := Closing(c, now, failing, {});
    assert d.watches == c.watches && d.active == c.active && d.rows == c.rows && d.unsaved == c.unsaved;
  }

  lemma ClosingEnds(cfg: Config, c: Core, now: int, failing: set<WatchId>, done: set<WatchId>)
    requires CanClose(cfg, c, now, failing, done) && Closing(c, now, failing, done).active == map[]
    ensures Closing(c, now, failing, done) == Close(c, now, failing)
  {
    hide WatchesOk, TableAgrees, Ordered, LatestOk, IdsSpent, CloseOne, CloseWatch, RowOf;
    var d, e := Closing(c, now, failing, done), Close(c, now, failing);
    forall id | Live(c, id) ensures id in done {
      assert c.watches[id].key !in d.active;
    }
    assert d.watches == e.watches && d.rows == e.rows && d.active == e.active;
    assert forall id :: id in c.unsaved || id in done ==> (id in d.unsaved <==> id in e.unsaved);
  }

  /* The watch under a key that is still active has not been ended yet. */
  lemma NextToClose(cfg: Config, c: Core, now: int, failing: set<WatchId>, done: set<WatchId>, key: Key)
    requires CanClose(cfg, c, now, failing, done) && key in Closing(c, now, failing, done).active
    ensures key in c.active && Closing(c, now, failing, done).active[key] == c.active[key] && c.active[key] !in done
    ensures Live(c, c.active[key]) && c.watches[c.active[key]].key == key
    ensures c.active[key] in Closing(c, now, failing, done).watches
    ensures Closing(c, now, failing, done).watches[c.active[key]] == c.watches[c.active[key]]
  {
    hide WatchesOk, TableAgrees, Ordered, LatestOk, IdsSpent;
  }

  lemma ClosingRowId(cfg: Config, c: Core, now: int, failing: set<WatchId>, done: set<WatchId>, i: nat)
    requires Inv(cfg, c) && i < |c.rows|
    ensures Closing(c, now, failing, done).rows[i].id == c.rows[i].id
  {
    hide IndexOk, TableAgrees, Ordered, LatestOk, IdsSpent, LifeCycle;
    assert c.rows[i].id in c.watches ==> WatchOk(cfg, c, c.rows[i].id);
  }

  lemma ClosingRow(cfg: Config, c: Core, now: int, failing: set<WatchId>, done: set<WatchId>, id: WatchId)
    requires Inv(cfg, c) && Live(c, id) && id !in done
    ensures var d := Closing(c, now, failing, done);
            var p := Position(c.rows, id);
            && p < |c.rows| && Position(d.rows, id) == p
            && Merge(c.rows[p], RowOf(CloseWatch(c.watches[id], now))) == RowOf(CloseWatch(c.watches[id], now))
            && forall i :: 0 <= i < |c.rows| && i != p ==> c.rows[i].id != id
  {
    hide IndexOk, Ordered, LatestOk, IdsSpent, Position, RowOf, LifeCycle;
    assert RowAgrees(c, id);
    forall i | 0 <= i < |c.rows| ensures Closing(c, now, failing, done).rows[i].id == c.rows[i].id {
      ClosingRowId(cfg, c, now, failing, done, i);
    }
    var d := Closing(c, now, failing, done);
    SameIdsSamePositions(c.rows, d.rows, id);
    MergeIsRow(c.rows[Position(c.rows, id)], CloseWatch(c.watches[id], now));
  }

  /** Ending one more watch is one step of the same. */
  lemma ClosingStep(cfg: Config, c: Core, now: int, failing: set<WatchId>, done: set<WatchId>, key: Key)
    requires CanClose(cfg, c, now, failing, done) && key in Closing(c, now, failing, done).active
    ensures key in c.active && Closing(c, now, failing, done).active[key] == c.active[key]
    ensures var id := c.active[key];
            var d := Closing(c, now, failing, done);
            && Live(d, id) && d.watches[id].id == id && d.watches[id].key == key && Constraints(d.rows)
            && Record(d, CloseWatch(d.watches[id], now), Stale, now, id in failing) == Closing(c, now, failing, done + {id})
            && CanClose(cfg, c, now, failing, done + {id})
  {
    hide Inv, Record, Upsert, Closing, LifeCycle, CloseWatch, Degrade, Constraints, TableAgrees, Ordered;
    NextToClose(cfg, c, now, failing, done, key);
    var id := c.active[key];
    var d := Closing(c, now, failing, done);
    var w := CloseWatch(d.watches[id], now);
    ClosedIsSound(cfg, c, id, now);
    RecordOpen(d, w, now, id in failing);
    ClosingShape(c, now, failing, done);
    ClosingShape(c, now, failing, done + {id});
    TableParts(cfg, d.(closed := false));
    assert Sound(cfg, d.(closed := false), w) && Rewrites(d.(closed := false), w);
    RecordKeepsInv(cfg, d.(closed := false), w, Stale, now, id in failing);
    ClosingPut(cfg, c, now, failing, done, key);
  }

  lemma ClosingShape(c: Core, now: int, failing: set<WatchId>, done: set<WatchId>)
    ensures var d := Closing(c, now, failing, done); d.clock == now && d.closed
  {
  }

  lemma ClosedIsSound(cfg: Config, c: Core, id: WatchId, now: int)
    requires Inv(cfg, c) && Live(c, id) && c.clock <= now
    ensures var w := CloseWatch(c.watches[id], now);
            && w.id == id == c.watches[id].id && w.key == c.watches[id].key && w.startedAt == c.watches[id].startedAt <= now
            && w.updatedAt == now && LifeCycle(cfg, w) && LifeCycle(cfg, Degrade(w, Stale, now))
            && Degrade(w, Stale, now).startedAt == w.startedAt && Degrade(w, Stale, now).updatedAt == now
  {
    hide IndexOk, TableAgrees, Ordered, LatestOk, IdsSpent;
    assert WatchOk(cfg, c, id);
  }

  /* Recording does not look at whether the manager is closed. */
  lemma RecordOpen(d: Core, w: Watch, now: int, fails: bool)
    ensures Record(d, w, Stale, now, fails) == Record(d.(closed := false), w, Stale, now, fails).(closed := d.closed)
  {
    hide Upsert, RowOf, Degrade;
  }

  lemma ClosingPut(cfg: Config, c: Core, now: int, failing: set<WatchId>, done: set<WatchId>, key: Key)
    requires CanClose(cfg, c, now, failing, done) && key in c.active && Live(c, c.active[key]) && c.active[key] !in done
    requires c.watches[c.active[key]].key == key
    ensures var id := c.active[key];
            var d := Closing(c, now, failing, done);
            && id in d.watches
            && Record(d.(closed := false), CloseWatch(d.watches[id], now), Stale, now, id in failing)
               == Closing(c, now, failing, done + {id}).(closed := false)
  {
    hide Inv, Record, Upsert, RowOf, LifeCycle, CloseWatch, Degrade, Position, Merge, Closing, Constraints, TableAgrees, Ordered;
    var id := c.active[key];
    var d := Closing(c, now, failing, done).(closed := false);
    ClosedIsSound(cfg, c, id, now);
    ClosingRow(cfg, c, now, failing, done, id);
    TableParts(cfg, d);
    OneKeyPerWatch(cfg, c, key);
    ClosingGrows(c, now, failing, done, key, Position(c.rows, id));
    RecordIsPut(d, CloseWatch(c.watches[id], now), Stale, now, id in failing);
    ClosedIsEnded(c.watches[id], now);
  }

  lemma ClosingGrows(c: Core, now: int, failing: set<WatchId>, done: set<WatchId>, key: Key, p: nat)
    requires key in c.active && Live(c, c.active[key]) && c.active[key] !in done && p < |c.rows|
    requires forall k :: k in c.active && c.active[k] == c.active[key] ==> k == key
    requires c.rows[p].id == c.active[key] && forall i :: 0 <= i < |c.rows| && i != p ==> c.rows[i].id != c.active[key]
    requires var r := RowOf(CloseWatch(c.watches[c.active[key]], now)); Merge(c.rows[p], r) == r
    ensures var id := c.active[key];
            var d, e := Closing(c, now, failing, done), Closing(c, now, failing, done + {id});
            && d.watches.Keys == c.watches.Keys && d.watches[id] == c.watches[id] && |d.rows| == |c.rows|
            && e == d.(watches := d.watches[id := CloseOne(c.watches[id], now, id in failing)], active := d.active - {key},
                       rows := if id in failing then d.rows else d.rows[p := RowOf(CloseWatch(c.watches[id], now))],
                       unsaved := if id in failing then d.unsaved + {id} else d.unsaved - {id})
  {
    hide CloseOne, CloseWatch, RowOf, Merge;
    var id := c.active[key];
    var d, e := Closing(c, now, failing, done), Closing(c, now, failing, done + {id});
    assert e.watches == d.watches[id := CloseOne(c.watches[id], now, id in failing)];
    assert e.active == d.active - {key};
    assert e.rows == if id in failing then d.rows else d.rows[p := RowOf(CloseWatch(c.watches[id], now))];
    assert e.unsaved == if id in failing then d.unsaved + {id} else d.unsaved - {id};
  }

  lemma TableParts(cfg: Config, c: Core)
    requires Inv(cfg, c)
    ensures TableAgrees(c) && Ordered(c) && Constraints(c.rows)
  {
    hide Ordered, Position, RowOf;
  }

  lemma ClosedIsEnded(w: Watch, now: int)
    ensures CloseWatch(w, now).terminal && Degrade(CloseWatch(w, now), Stale, now).terminal
    ensures Degrade(CloseWatch(w, now), Stale, now).key == w.key && Degrade(CloseWatch(w, now), Stale, now).id == w.id
  {
  }

  lemma OneKeyPerWatch(cfg: Config, c: Core, key: Key)
    requires Inv(cfg, c) && key in c.active
    ensures forall k :: k in c.active && c.active[k] == c.active[key] ==> k == key
  {
    hide WatchesOk, TableAgrees, Ordered, LatestOk, IdsSpent;
  }
}
