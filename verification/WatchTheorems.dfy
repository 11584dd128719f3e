/** What holds over every run of the manager. */
module WatchTheorems {
  import opened Prelude
  import opened ReviewStatuses
  import opened WatchTypes
  import opened WatchStore
  import opened WatchSteps
  import opened WatchInvariant
  import opened WatchSections
  import opened WatchRuns

  datatype Run = Run(cfg: Config, states: seq<Sys>, events: seq<Event>)

  /** From an empty table, one step after the other. */
  ghost predicate IsRun(r: Run) {
    && ValidConfig(r.cfg)
    && |r.states| == |r.events| + 1
    && Init(r.states[0])
    && forall i :: 0 <= i < |r.events| ==> Stepped(r, i)
  }

  ghost predicate Stepped(r: Run, i: nat)
    requires i < |r.events| < |r.states|
  {
    Enabled(r.states[i], r.events[i]) && r.states[i + 1] == Step(r.cfg, r.states[i], r.events[i])
  }

  lemma InitInv(cfg: Config, s: Sys)
    requires Init(s)
    ensures SysInv(cfg, s)
  {
    EmptyMemory(cfg, s.core);
  }

  /** Every state of every run satisfies the invariant. */
  lemma {:induction false} RunKeepsInv(r: Run, i: nat)
    requires IsRun(r) && i < |r.states|
    ensures SysInv(r.cfg, r.states[i])
  {
    hide SysInv, Init, Step, Enabled;
    if i == 0 {
      InitInv(r.cfg, r.states[0]);
    } else {
      RunKeepsInv(r, i - 1);
      assert Stepped(r, i - 1);
      StepKeepsInv(r.cfg, r.states[i - 1], r.events[i - 1]);
    }
  }

  // ---- the active index ----

  /** In every reachable state a key is mapped to an ID exactly when that ID's watch is live and has the key;
      so there is at most one live watch per key, and an active ID is also the latest. */
  lemma ActiveIndexIsTheLiveWatches(r: Run, i: nat, key: Key, id: WatchId)
    requires IsRun(r) && i < |r.states|
    ensures var c := r.states[i].core;
            && ((key in c.active && c.active[key] == id) <==> (Live(c, id) && c.watches[id].key == key))
            && (Live(c, id) ==> c.watches[id].key in c.latest && c.latest[c.watches[id].key] == id)
    ensures var c := r.states[i].core;
            forall id' :: Live(c, id) && Live(c, id') && c.watches[id].key == c.watches[id'].key ==> id == id'
  {
    hide WorkersOk, LifeCycle, Constraints, Step, Enabled;
    RunKeepsInv(r, i);
    var c := r.states[i].core;
    if Live(c, id) { LiveIsLatest(r.cfg, c, id); }
  }

  // ---- memory and table ----

  /* The whole seconds of a time, rounded down. */
  predicate InSeconds(sec: int, t: int) { sec * SECOND <= t < (sec + 1) * SECOND }

  predicate OptInSeconds(sec: Option<int>, t: Option<int>) {
    if t.Some? then sec.Some? && InSeconds(sec.value, t.value) else sec.None?
  }

  /** The row tells what the watch tells, its times in whole seconds. */
  predicate Tells(row: Row, w: Watch) {
    && row.id == w.id && row.key == w.key && row.trigger == w.trigger
    && row.status == w.status && row.reviewStatus == w.reviewStatus && row.failureReason == w.failureReason
    && row.isActive == !w.terminal
    && row.lastError == w.lastError && row.recoveryHint == w.recoveryHint
    && InSeconds(row.startedAt, w.startedAt) && InSeconds(row.updatedAt, w.updatedAt)
    && OptInSeconds(row.completedAt, w.completedAt) && OptInSeconds(row.staleAt, w.staleAt)
    && OptInSeconds(row.rateLimitResetAt, w.rateLimitResetAt)
  }

  lemma RowTells(w: Watch)
    ensures Tells(RowOf(w), w)
  {
  }

  /** Every live watch has an active row with its ID and key; the row of an ended watch is still active exactly when the
      watch's last upsert failed; a row whose watch was saved last tells what the watch tells, field by field. */
  lemma MemoryAgreesWithTable(r: Run, i: nat, id: WatchId)
    requires IsRun(r) && i < |r.states| && id in r.states[i].core.watches
    ensures var c := r.states[i].core;
            var p := Position(c.rows, id);
            && p < |c.rows| && c.rows[p].id == id && c.rows[p].key == c.watches[id].key
            && (Live(c, id) ==> c.rows[p].isActive)
            && (c.watches[id].terminal ==> (c.rows[p].isActive <==> id in c.unsaved))
            && (id !in c.unsaved ==> Tells(c.rows[p], c.watches[id]))
  {
    hide WorkersOk, WatchesOk, IndexOk, Ordered, LatestOk, IdsSpent, Constraints, Step, Enabled, Position, RowOf;
    RunKeepsInv(r, i);
    assert RowAgrees(r.states[i].core, id);
    RowIdentity(r.states[i].core.watches[id]);
    RowTells(r.states[i].core.watches[id]);
  }

  /** A new watch for a key without a live one is refused exactly when some earlier watch of the key could
      not be saved when it ended. */
  lemma StartIsRefusedIff(r: Run, i: nat, input: StartInput, trigger: Option<int>, now: int, idNow: int)
    requires IsRun(r) && i < |r.states|
    requires var c := r.states[i].core;
             !c.closed && ValidKey(input.key) && input.token != "" && c.clock <= now <= idNow
             && input.key !in c.active
    ensures var c := r.states[i].core;
            var result := Start(c, input, trigger, now, idNow, false).1;
            && (result == PersistError <==>
                exists id :: id in c.watches && c.watches[id].key == input.key && id in c.unsaved)
            && (result == PersistError || result.Started?)
  {
    hide WorkersOk, WatchesOk, Ordered, LatestOk, Constraints, Step, Enabled, Position, RowOf, Upsert;
    RunKeepsInv(r, i);
    var c := r.states[i].core;
    LaunchBlocked(c.(clock := idNow), input, trigger, now, idNow);
    BlockingRows(r.cfg, c, input.key);
  }

  lemma BlockingRows(cfg: Config, c: Core, key: Key)
    requires Inv(cfg, c) && key !in c.active
    ensures (exists j :: 0 <= j < |c.rows| && c.rows[j].isActive && c.rows[j].key == key) <==>
            exists id :: id in c.watches && c.watches[id].key == key && id in c.unsaved
  {
    hide WatchesOk, Ordered, LatestOk, IdsSpent, Constraints, Position, RowOf;
    if j :| 0 <= j < |c.rows| && c.rows[j].isActive && c.rows[j].key == key {
      var id := c.rows[j].id;
      ActiveRowIsUnsaved(cfg, c, j);
      assert id in c.watches && c.watches[id].key == key && id in c.unsaved;
    }
    if id :| id in c.watches && c.watches[id].key == key && id in c.unsaved {
      assert RowAgrees(c, id);
      assert c.rows[Position(c.rows, id)].isActive;
    }
  }

  lemma ActiveRowIsUnsaved(cfg: Config, c: Core, j: nat)
    requires Inv(cfg, c) && j < |c.rows| && c.rows[j].isActive && c.rows[j].key !in c.active
    ensures c.rows[j].id in c.watches && c.watches[c.rows[j].id].key == c.rows[j].key && c.rows[j].id in c.unsaved
  {
    hide WatchesOk, Ordered, LatestOk, IdsSpent, RowOf;
    var id := c.rows[j].id;
    assert RowAgrees(c, id);
    PositionOf(c.rows, j);
    RowIdentity(c.watches[id]);
    assert !Live(c, id);
  }

  // ---- the latest watch ----

  /** The order by update time, start time and rowid always names the row inserted last for the key: the row
      of the watch the latest index names, when it names one. */
  lemma LatestRowIsTheLastStarted(r: Run, i: nat, key: Key, p: nat)
    requires IsRun(r) && i < |r.states|
    ensures var c := r.states[i].core;
            && (IsLatest(c.rows, key, p) <==> p < |c.rows| && c.rows[p].key == key && LastOfKey(c.rows, p))
            && (IsLatest(c.rows, key, p) && key in c.latest ==> c.rows[p].id == c.latest[key])
            && (IsLatest(c.rows, key, p) ==>
                  forall j :: 0 <= j < |c.rows| && c.rows[j].key == key ==> c.rows[j].startedAt <= c.rows[p].startedAt)
  {
    hide WorkersOk, WatchesOk, IndexOk, IdsSpent, LatestOk, Constraints, Step, Enabled, Position, TableAgrees;
    RunKeepsInv(r, i);
    var c := r.states[i].core;
    OrderNamesTheLast(c, key, p);
    if IsLatest(c.rows, key, p) && key in c.latest {
      LatestRowKey(c, key);
    }
  }

  // ---- ended watches ----

  /** An ended watch is frozen: no later step of the process changes anything it shows. */
  lemma {:induction false} EndedWatchIsFrozen(r: Run, i: nat, j: nat, id: WatchId)
    requires IsRun(r) && i <= j < |r.states|
    requires forall k :: i <= k < j ==> !r.events[k].RestartEvent?
    requires id in r.states[i].core.watches && r.states[i].core.watches[id].terminal
    ensures id in r.states[j].core.watches && Frozen(r.states[i].core.watches[id], r.states[j].core.watches[id])
    decreases j
  {
    hide SysInv, Step, Enabled, Init;
    if i < j {
      EndedWatchIsFrozen(r, i, j - 1, id);
      RunKeepsInv(r, j - 1);
      assert Stepped(r, j - 1);
      StepCarries(r.cfg, r.states[j - 1], r.events[j - 1]);
    }
  }

  /** The fields of a watch tell one story: ended, not WATCHING and completed are the same; FAILED has a
      reason, STALE a time, expired credentials a hint; an ended watch holds no token, client or worker. */
  lemma ShownStateIsConsistent(r: Run, i: nat, id: WatchId)
    requires IsRun(r) && i < |r.states| && id in r.states[i].core.watches
    ensures var w := r.states[i].core.watches[id];
            && (w.terminal <==> w.status != Watching) && (w.terminal <==> w.completedAt.Some?)
            && (w.status == Failed <==> w.failureReason.Some?) && (w.status == Stale <==> w.staleAt.Some?)
            && (w.failureReason == Some(AuthExpired) ==> w.recoveryHint.Some?)
            && (w.terminal ==> w.token == "" && !w.hasClient && !w.workerRunning)
            && (!w.terminal ==> w.token != "" && w.hasClient && w.workerRunning)
            && (w.ctxDone ==> w.terminal)
  {
    hide WorkersOk, IndexOk, TableAgrees, Ordered, LatestOk, IdsSpent, Step, Enabled;
    RunKeepsInv(r, i);
    assert WatchOk(r.cfg, r.states[i].core, id);
  }

  /** A worker never leaves a live watch behind. */
  lemma StoppedWorkerLeavesNoLiveWatch(r: Run, i: nat, id: WatchId)
    requires IsRun(r) && i < |r.states| && id in r.states[i].core.watches
    ensures id in r.states[i].workers
    ensures r.states[i].workers[id] == Stopped ==> r.states[i].core.watches[id].terminal
  {
    hide Inv, Step, Enabled;
    RunKeepsInv(r, i);
    assert WorkerOk(r.states[i], id);
  }

  // ---- a key whose last watch could not be saved ----

  /** Once an ended watch could not be saved, every later Start for its key fails until the process restarts. */
  lemma UnsavedEndBlocksTheKey(r: Run, i: nat, j: nat, id: WatchId, input: StartInput, trigger: Option<int>, now: int, idNow: int)
    requires IsRun(r) && i <= j < |r.states|
    requires forall k :: i <= k < j ==> !r.events[k].RestartEvent?
    requires var c := r.states[i].core; id in c.watches && c.watches[id].terminal && id in c.unsaved && c.watches[id].key == input.key
    requires var c := r.states[j].core; !c.closed && ValidKey(input.key) && input.token != "" && c.clock <= now <= idNow
    ensures Start(r.states[j].core, input, trigger, now, idNow, false).1 == PersistError
  {
    hide SysInv, Step, Enabled, Init, Start, Inv;
    UnsavedStays(r, i, j, id);
    EndedWatchIsFrozen(r, i, j, id);
    EndedUnsavedMeansNotActive(r, j, id);
    StartIsRefusedIff(r, j, input, trigger, now, idNow);
  }

  /** It happens: a watch starts, its cancellation cannot be saved, and with the database working again the next
      Start of its key is refused. */
  lemma UnsavedEndHappens(cfg: Config, input: StartInput)
    requires ValidConfig(cfg) && ValidKey(input.key) && input.token != ""
    ensures exists r: Run ::
              && IsRun(r) && r.cfg == cfg && |r.states| == 3
              && (exists id :: id in r.states[2].core.watches && r.states[2].core.watches[id].key == input.key
                               && r.states[2].core.watches[id].terminal && id in r.states[2].core.unsaved)
              && Start(r.states[2].core, input, None, 2, 2, false).1 == PersistError
  {
    hide Start, CancelByID, Inv, IsRun, Live;
    var s0 := Sys(Core(map[], map[], map[], false, 0, [], 0, 0, {}), map[]);
    var id := WatchId(0, 1);
    var e0, e1 := StartEvent(input, None, 0, 0, false), CancelByIDEvent(input.key.login, id, 1, true);
    var s1 := Step(cfg, s0, e0);
    StartedAlone(cfg, input, s0, s1, id);
    var s2 := Step(cfg, s1, e1);
    CancelledUnsaved(s1, s2, input.key, id);
    var r := Run(cfg, [s0, s1, s2], [e0, e1]);
    TwoSteps(r);
    StartIsRefusedIff(r, 2, input, None, 2, 2);
    assert r.states[2] == s2;
  }

  lemma TwoSteps(r: Run)
    requires ValidConfig(r.cfg) && |r.states| == 3 && |r.events| == 2 && Init(r.states[0])
    requires Enabled(r.states[0], r.events[0]) && r.states[1] == Step(r.cfg, r.states[0], r.events[0])
    requires Enabled(r.states[1], r.events[1]) && r.states[2] == Step(r.cfg, r.states[1], r.events[1])
    ensures IsRun(r)
  {
    hide Step, Enabled, Init;
    assert Stepped(r, 0) && Stepped(r, 1);
  }

  lemma StartedAlone(cfg: Config, input: StartInput, s0: Sys, s1: Sys, id: WatchId)
    requires ValidKey(input.key) && input.token != "" && id == WatchId(0, 1)
    requires s0 == Sys(Core(map[], map[], map[], false, 0, [], 0, 0, {}), map[])
    requires s1 == Step(cfg, s0, StartEvent(input, None, 0, 0, false))
    ensures var c := s1.core;
            && c.watches == map[id := NewWatch(id, input, None, 0)] && c.active == map[input.key := id] && !c.closed && c.clock == 0
  {
  }

  lemma CancelledUnsaved(s1: Sys, s2: Sys, key: Key, id: WatchId)
    requires id in s1.core.watches && !s1.core.watches[id].terminal && s1.core.watches[id].key == key && s1.core.watches[id].id == id
    requires ValidKey(key) && !s1.core.closed
    requires s2 == s1.(core := CancelByID(s1.core, key.login, id, 1, true).0)
    ensures var c := s2.core;
            && id in c.watches && c.watches[id].key == key && c.watches[id].terminal && id in c.unsaved
            && key !in c.active && !c.closed && c.clock == 1
  {
  }

  lemma EndedUnsavedMeansNotActive(r: Run, j: nat, id: WatchId)
    requires IsRun(r) && j < |r.states|
    requires var c := r.states[j].core; id in c.watches && c.watches[id].terminal && id in c.unsaved
    ensures r.states[j].core.watches[id].key !in r.states[j].core.active
  {
    hide WorkersOk, WatchesOk, LatestOk, IdsSpent, Step, Enabled, Position, RowOf;
    RunKeepsInv(r, j);
    var c := r.states[j].core;
    var key := c.watches[id].key;
    if key in c.active {
      var live := c.active[key];
      assert RowAgrees(c, id) && RowAgrees(c, live);
      RowIdentity(c.watches[live]);
      TwoActiveRows(c.rows, Position(c.rows, id), Position(c.rows, live));
    }
  }

  lemma TwoActiveRows(rows: seq<Row>, p: nat, q: nat)
    requires Constraints(rows) && p < |rows| && q < |rows| && rows[p].isActive && rows[q].isActive && rows[p].key == rows[q].key
    ensures p == q
  {
  }

  lemma {:induction false} UnsavedStays(r: Run, i: nat, j: nat, id: WatchId)
    requires IsRun(r) && i <= j < |r.states|
    requires forall k :: i <= k < j ==> !r.events[k].RestartEvent?
    requires var c := r.states[i].core; id in c.watches && c.watches[id].terminal && id in c.unsaved
    ensures id in r.states[j].core.unsaved
    decreases j
  {
    hide SysInv, Step, Enabled, Init;
    if i < j {
      UnsavedStays(r, i, j - 1, id);
      EndedWatchIsFrozen(r, i, j - 1, id);
      RunKeepsInv(r, j - 1);
      assert Stepped(r, j - 1);
      StepKeepsUnsaved(r.cfg, r.states[j - 1], r.events[j - 1], id);
    }
  }
}
