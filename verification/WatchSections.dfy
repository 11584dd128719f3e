/** Every lock section keeps the invariant. */
module WatchSections {
  import opened Prelude
  import opened ReviewStatuses
  import opened WatchTypes
  import opened WatchStore
  import opened WatchSteps
  import opened WatchInvariant

  /* A time between the start of the watch and the latest reading of the clock: polls read it before the lock. */
  ghost predicate Timely(c: Core, id: WatchId, now: int) {
    now <= c.clock && (id in c.watches ==> c.watches[id].startedAt <= now)
  }

  /* Only time has passed, or numbers have been used up. */
  ghost predicate Idles(c: Core, c': Core) {
    && c' == c.(clock := c'.clock, idSeq := c'.idSeq)
    && c.clock <= c'.clock && c.idSeq <= c'.idSeq
  }

  lemma IdlingKeepsMemory(cfg: Config, c: Core, c': Core)
    requires WatchesOk(cfg, c) && IndexOk(c) && Idles(c, c')
    ensures WatchesOk(cfg, c') && IndexOk(c')
  {
    hide LifeCycle;
    forall id | id in c'.watches ensures WatchOk(cfg, c', id) {
      assert WatchOk(cfg, c, id);
    }
    forall id | Live(c', id) ensures c'.watches[id].key in c'.active && c'.active[c'.watches[id].key] == id {
      assert Live(c, id);
    }
  }

  lemma IdlingKeepsTable(c: Core, c': Core)
    requires TableAgrees(c) && Ordered(c) && LatestOk(c) && IdsSpent(c) && Idles(c, c')
    ensures TableAgrees(c') && Ordered(c') && LatestOk(c') && IdsSpent(c')
  {
    hide Constraints, LastOfKey, RowOf, Position;
    forall id | id in c'.watches ensures RowAgrees(c', id) {
      assert RowAgrees(c, id);
    }
  }

  lemma IdlingKeepsInv(cfg: Config, c: Core, c': Core)
    requires Inv(cfg, c) && Idles(c, c')
    ensures Inv(cfg, c')
  {
    hide WatchesOk, IndexOk, TableAgrees, Ordered, LatestOk, IdsSpent, Idles;
    IdlingKeepsMemory(cfg, c, c');
    IdlingKeepsTable(c, c');
  }

  lemma AdvanceKeepsInv(cfg: Config, c: Core, now: int)
    requires Inv(cfg, c) && now >= c.clock
    ensures Inv(cfg, c.(clock := now))
  {
    hide Inv;
    IdlingKeepsInv(cfg, c, c.(clock := now));
  }

  // ---- sections that rewrite one watch ----

  lemma FinishSound(cfg: Config, c: Core, w: Watch, status: Status, reason: Option<FailureReason>, now: int,
                    message: Option<Message>, hint: Option<Hint>)
    requires w.failureReason.None? && w.staleAt.None? && w.startedAt <= now <= c.clock
    requires status != Watching && (status == Failed <==> reason.Some?) && (reason == Some(AuthExpired) ==> hint.Some?)
    ensures var f := Finish(w, status, reason, now, message, hint);
            Sound(cfg, c, f) && Sound(cfg, c, Degrade(f, status, now))
  {
  }

  lemma LiveSound(cfg: Config, c: Core, w: Watch, now: int)
    requires LifeCycle(cfg, w) && !w.terminal && w.updatedAt == now && w.startedAt <= now <= c.clock
    ensures Sound(cfg, c, w) && Sound(cfg, c, Degrade(w, Watching, now))
  {
  }

  /* Recording the end of a live watch, after any changes that leave its identity alone. */
  lemma RecordFinishKeepsInv(cfg: Config, c: Core, w: Watch, status: Status, reason: Option<FailureReason>, now: int,
                             message: Option<Message>, hint: Option<Hint>, fails: bool)
    requires Inv(cfg, c) && Rewrites(c, w) && w.failureReason.None? && w.staleAt.None? && Timely(c, w.id, now)
    requires status != Watching && (status == Failed <==> reason.Some?) && (reason == Some(AuthExpired) ==> hint.Some?)
    ensures Inv(cfg, Record(c, Finish(w, status, reason, now, message, hint), status, now, fails))
  {
    hide Inv, Record, Sound;
    FinishSound(cfg, c, w, status, reason, now, message, hint);
    RecordKeepsInv(cfg, c, Finish(w, status, reason, now, message, hint), status, now, fails);
  }

  /* A live watch shows no reason and no stale time yet. */
  lemma LiveIsPlain(cfg: Config, c: Core, id: WatchId)
    requires Inv(cfg, c) && Live(c, id)
    ensures var w := c.watches[id];
            w.id == id && w.failureReason.None? && w.staleAt.None? && LifeCycle(cfg, w) && w.startedAt <= w.updatedAt <= c.clock
  {
    hide IndexOk, TableAgrees, Ordered, LatestOk, IdsSpent;
    assert WatchOk(cfg, c, id);
  }

  lemma FinishStateKeepsInv(cfg: Config, c: Core, id: WatchId, now: int, status: Status, reason: Option<FailureReason>,
                            message: Option<Message>, counted: bool, hint: Option<Hint>, fails: bool)
    requires Inv(cfg, c) && Timely(c, id, now)
    requires status != Watching && (status == Failed <==> reason.Some?) && (reason == Some(AuthExpired) ==> hint.Some?)
    ensures Inv(cfg, FinishState(c, id, now, status, reason, message, counted, hint, fails).core)
  {
    hide Inv, Record, LifeCycle;
    if Live(c, id) {
      LiveIsPlain(cfg, c, id);
      var w := c.watches[id];
      var w1 := if counted then MarkPolled(w, now) else w.(updatedAt := now);
      RecordFinishKeepsInv(cfg, c, w1, status, reason, now, message, hint, fails);
    }
  }

  lemma MarkStaleKeepsInv(cfg: Config, c: Core, id: WatchId, now: int, message: Message, fails: bool)
    requires Inv(cfg, c) && now >= c.clock
    ensures Inv(cfg, MarkStale(c, id, now, message, fails).core)
  {
    hide Inv, Record, LifeCycle;
    AdvanceKeepsInv(cfg, c, now);
    if Live(c, id) {
      LiveIsPlain(cfg, c, id);
      RecordFinishKeepsInv(cfg, c.(clock := now), c.watches[id], Stale, None, now, Some(message), None, fails);
    }
  }

  lemma CancelKeepsInv(cfg: Config, c: Core, id: WatchId, now: int, fails: bool)
    requires Inv(cfg, c) && Live(c, id) && now >= c.clock
    ensures Inv(cfg, Cancel(c, id, now, fails))
  {
    hide Inv, Record, LifeCycle;
    AdvanceKeepsInv(cfg, c, now);
    LiveIsPlain(cfg, c, id);
    RecordFinishKeepsInv(cfg, c.(clock := now), c.watches[id], Cancelled, None, now, Some(CancelledManually), None, fails);
  }

  lemma HandleUpstreamFailureKeepsInv(cfg: Config, c: Core, id: WatchId, now: int, text: string, fails: bool)
    requires Inv(cfg, c) && Timely(c, id, now)
    ensures Inv(cfg, HandleUpstreamFailure(cfg, c, id, now, text, fails).core)
  {
    hide Inv, Record;
    if Live(c, id) {
      LiveIsPlain(cfg, c, id);
      var w := c.watches[id];
      var count := w.upstreamFailures + 1;
      var w1 := MarkPolled(w.(upstreamFailures := count), now);
      if count >= cfg.threshold {
        RecordFinishKeepsInv(cfg, c, w1, Failed, Some(AuthExpired), now, Some(UpstreamPersisted(count, text)),
                             Some(UpstreamHint(count)), fails);
      } else {
        LiveSound(cfg, c, w1.(lastError := Some(Text(text))), now);
        RecordKeepsInv(cfg, c, w1.(lastError := Some(Text(text))), Watching, now, fails);
      }
    }
  }

  lemma ReviewSectionsKeepInv(cfg: Config, c: Core, id: WatchId, now: int, data: ReviewData, review: ReviewStatus,
                              entry: Option<TriggerEntry>, fails: bool)
    requires ValidConfig(cfg) && Inv(cfg, c) && Timely(c, id, now)
    ensures Inv(cfg, EndOnLowRate(c, id, now, data, review, fails).core)
    ensures Inv(cfg, EndOnReview(c, id, now, review, entry, fails).core)
    ensures Inv(cfg, KeepWatching(c, id, now, review, entry, fails).core)
  {
    hide Inv, Record;
    if Live(c, id) {
      LiveIsPlain(cfg, c, id);
      var w := MarkPolled(c.watches[id], now).(reviewStatus := Some(review), lastError := None);
      RecordFinishKeepsInv(cfg, c, w.(rateLimitResetAt := data.rateLimitReset), RateLimited, None, now,
                           Some(LowRateLimit(data.rateLimitRemaining, data.rateLimitReset)), None, fails);
      RecordFinishKeepsInv(cfg, c, Link(w.(rateLimitResetAt := None), entry), EndStatus(review), None, now, None, None, fails);
      var w' := Link(w.(upstreamFailures := 0, rateLimitResetAt := None, status := Watching, workerRunning := true), entry);
      LiveSound(cfg, c, w', now);
      RecordKeepsInv(cfg, c, w', Watching, now, fails);
    }
  }

  lemma RecordReviewKeepsInv(cfg: Config, c: Core, id: WatchId, now: int, data: ReviewData, entry: Option<TriggerEntry>,
                             completionFails: bool, fails: bool)
    requires ValidConfig(cfg) && Inv(cfg, c) && Timely(c, id, now)
    ensures Inv(cfg, RecordReview(c, id, now, data, entry, completionFails, fails).core)
  {
    hide Inv, FinishState, EndOnLowRate, EndOnReview, KeepWatching, ReviewOf;
    FinishStateKeepsInv(cfg, c, id, now, Failed, Some(InternalError), Some(TriggerUpdateFailed), true, None, fails);
    ReviewSectionsKeepInv(cfg, c, id, now, data, ReviewOf(data, entry), entry, fails);
  }

  lemma EndPollKeepsInv(cfg: Config, c: Core, id: WatchId, now: int, outcome: PollOutcome, fails: bool)
    requires ValidConfig(cfg) && Inv(cfg, c) && Timely(c, id, now)
    ensures Inv(cfg, EndPoll(cfg, c, id, now, outcome, fails).core)
  {
    hide Inv, FinishState, HandleUpstreamFailure, RecordReview;
    match outcome
    case ContextCancelled =>
    case FetchTimedOut =>
      FinishStateKeepsInv(cfg, c, id, now, Failed, Some(GitHubError), Some(PollTimedOut), true, None, fails);
    case FetchRateLimited(text) =>
      FinishStateKeepsInv(cfg, c, id, now, RateLimited, None, Shown(text), true, None, fails);
    case UpstreamFailure(text) =>
      HandleUpstreamFailureKeepsInv(cfg, c, id, now, text, fails);
    case FetchFailed(text, hint) =>
      FinishStateKeepsInv(cfg, c, id, now, Failed, Some(if hint.Some? then AuthExpired else GitHubError), Shown(text), true,
                          if hint.Some? then Some(AuthHint(hint.value)) else None, fails);
    case TriggerUnreadable =>
      FinishStateKeepsInv(cfg, c, id, now, Failed, Some(InternalError), Some(TriggerReadFailed), true, None, fails);
    case Reviewed(data, entry, completionFails) =>
      RecordReviewKeepsInv(cfg, c, id, now, data, entry, completionFails, fails);
  }

  // ---- starting ----

  lemma ReuseKeepsInv(cfg: Config, c: Core, input: StartInput, trigger: Option<int>, now: int, fails: bool)
    requires ValidConfig(cfg) && Inv(cfg, c) && StartReuses(c, input.key) && input.token != ""
    requires Timely(c, c.active[input.key], now)
    ensures Inv(cfg, Reuse(c, input, trigger, now, fails).0)
  {
    hide WatchesOk, TableAgrees, Ordered, LatestOk, IdsSpent, RowOf, Upsert;
    var id := c.active[input.key];
    var w := c.watches[id];
    LiveIsPlain(cfg, c, id);
    var w' := Refreshed(w, input, trigger, now);
    if w' != w {
      SavingSucceeds(c, w');
      assert Sound(cfg, c, w');
      PutKeepsInv(cfg, c, w', !fails);
      assert Reuse(c, input, trigger, now, fails).0 == Put(c, w', !fails);
    }
  }

  /* With no live watch for the key, the only thing that can block the insert is a row left active. */
  lemma LaunchBlocked(c: Core, input: StartInput, trigger: Option<int>, now: int, idNow: int)
    requires IdsSpent(c) && c.clock <= idNow
    ensures var id := WatchId(idNow, c.idSeq + 1);
            && Position(c.rows, id) == |c.rows|
            && Upsert(c.rows, RowOf(NewWatch(id, input, trigger, now))) ==
               if exists i :: 0 <= i < |c.rows| && c.rows[i].isActive && c.rows[i].key == input.key then None
               else Some(c.rows + [RowOf(NewWatch(id, input, trigger, now))])
  {
    hide Position;
    var id := WatchId(idNow, c.idSeq + 1);
    assert Position(c.rows, id) == |c.rows|;
    assert ActiveElsewhere(c.rows, input.key, |c.rows|) <==>
           exists i :: 0 <= i < |c.rows| && c.rows[i].isActive && c.rows[i].key == input.key;
  }

  ghost function Published(c: Core, w: Watch): Core {
    c.(idSeq := c.idSeq + 1, watches := c.watches[w.id := w], active := c.active[w.key := w.id],
       latest := c.latest[w.key := w.id], rows := c.rows + [RowOf(w)], clock := w.id.nanos)
  }

  lemma AppendKeepsPositions(rows: seq<Row>, r: Row, id: WatchId)
    ensures id != r.id ==> Position(rows + [r], id) == if Position(rows, id) < |rows| then Position(rows, id) else |rows| + 1
    ensures Position(rows, r.id) == |rows| ==> Position(rows + [r], r.id) == |rows|
  {
    var rows' := rows + [r];
    assert forall i :: 0 <= i < |rows| ==> rows'[i] == rows[i];
    assert rows'[|rows|] == r;
    var q, q' := Position(rows, id), Position(rows', id);
    if q < |rows| { assert rows'[q].id == id; }
    if q' < |rows| { assert rows[q'].id == id; }
  }

  ghost predicate CanPublish(cfg: Config, c: Core, w: Watch) {
    && !c.closed && !StartReuses(c, w.key)
    && w.id.count == c.idSeq + 1 && c.clock <= w.startedAt == w.updatedAt <= w.id.nanos
    && Position(c.rows, w.id) == |c.rows|
    && (forall i :: 0 <= i < |c.rows| && c.rows[i].isActive ==> c.rows[i].key != w.key)
    && !w.terminal && LifeCycle(cfg, w)
  }

  lemma PublishedIsNew(cfg: Config, c: Core, w: Watch)
    requires Inv(cfg, c) && CanPublish(cfg, c, w)
    ensures w.id !in c.watches
  {
    hide WatchesOk, IndexOk, Ordered, LatestOk, IdsSpent, LifeCycle, Constraints, Position;
    assert w.id in c.watches ==> RowAgrees(c, w.id);
  }

  lemma PublishKeepsMemory(cfg: Config, c: Core, w: Watch)
    requires Inv(cfg, c) && CanPublish(cfg, c, w) && w.id !in c.watches
    ensures WatchesOk(cfg, Published(c, w)) && IndexOk(Published(c, w)) && IdsSpent(Published(c, w))
  {
    hide TableAgrees, Ordered, LatestOk, LifeCycle, RowOf, Position;
    var c' := Published(c, w);
    forall id | id in c'.watches ensures WatchOk(cfg, c', id) {
      if id != w.id { assert WatchOk(cfg, c, id); }
    }
    forall id | Live(c', id) ensures c'.watches[id].key in c'.active && c'.active[c'.watches[id].key] == id {
      if id != w.id { assert Live(c, id); }
    }
    RowIdentity(w);
  }

  lemma PublishKeepsTable(cfg: Config, c: Core, w: Watch)
    requires Inv(cfg, c) && CanPublish(cfg, c, w) && w.id !in c.watches
    ensures TableAgrees(Published(c, w))
  {
    hide WatchesOk, IndexOk, Ordered, LatestOk, IdsSpent, LifeCycle, RowOf, Position;
    var c' := Published(c, w);
    RowIdentity(w);
    assert Constraints(c'.rows);
    forall id | id in c'.watches ensures RowAgrees(c', id) {
      AppendKeepsPositions(c.rows, RowOf(w), id);
      if id != w.id { assert RowAgrees(c, id); }
    }
  }

  lemma PublishKeepsOrder(c: Core, w: Watch)
    requires Ordered(c) && c.clock <= w.startedAt == w.updatedAt <= w.id.nanos
    requires forall i :: 0 <= i < |c.rows| && c.rows[i].isActive ==> c.rows[i].key != w.key
    ensures Ordered(Published(c, w))
  {
    hide RowOf;
    RowIdentity(w);
  }

  lemma LatestRowKey(c: Core, k: Key)
    requires LatestOk(c) && TableAgrees(c) && k in c.latest
    ensures var p := Position(c.rows, c.latest[k]);
            p < |c.rows| && c.rows[p].key == k && LastOfKey(c.rows, p)
  {
    hide Constraints, RowOf, Position;
    assert NamesLatest(c, k);
    assert RowAgrees(c, c.latest[k]);
  }

  /* The row of a live watch is the last of its key, and so is the row the latest index names. */
  lemma LiveIsLatest(cfg: Config, c: Core, id: WatchId)
    requires Inv(cfg, c) && Live(c, id)
    ensures c.watches[id].key in c.latest && c.latest[c.watches[id].key] == id
  {
    hide WatchesOk, IndexOk, Ordered, IdsSpent, Constraints, Position, RowOf;
    var key := c.watches[id].key;
    LiveRow(c, id);
    LatestRowKey(c, key);
    assert NamesLatest(c, key);
  }

  lemma PublishKeepsLatest(c: Core, w: Watch)
    requires LatestOk(c) && TableAgrees(c) && w.id !in c.watches && Position(c.rows, w.id) == |c.rows|
    ensures LatestOk(Published(c, w))
  {
    hide RowOf, TableAgrees, Position, NamesLatest;
    var c' := Published(c, w);
    forall k | k in c'.latest ensures NamesLatest(c', k) {
      PublishNamesLatest(c, w, k);
    }
  }

  lemma PublishNamesLatest(c: Core, w: Watch, k: Key)
    requires LatestOk(c) && TableAgrees(c) && w.id !in c.watches && Position(c.rows, w.id) == |c.rows|
    requires k in Published(c, w).latest
    ensures NamesLatest(Published(c, w), k)
  {
    hide RowOf, TableAgrees, Position;
    RowIdentity(w);
    if k == w.key {
      AppendKeepsPositions(c.rows, RowOf(w), w.id);
    } else {
      assert NamesLatest(c, k);
      LatestRowKey(c, k);
      AppendKeepsPositions(c.rows, RowOf(w), c.latest[k]);
    }
  }

  lemma PublishKeepsInv(cfg: Config, c: Core, w: Watch)
    requires Inv(cfg, c) && CanPublish(cfg, c, w)
    ensures w.id !in c.watches && Inv(cfg, Published(c, w))
  {
    hide LifeCycle, StartReuses, WatchesOk, IndexOk, TableAgrees, Ordered, LatestOk, IdsSpent, Published;
    PublishedIsNew(cfg, c, w);
    PublishKeepsMemory(cfg, c, w);
    PublishKeepsTable(cfg, c, w);
    PublishKeepsOrder(c, w);
    PublishKeepsLatest(c, w);
  }


  lemma LaunchKeepsInv(cfg: Config, c: Core, input: StartInput, trigger: Option<int>, now: int, idNow: int, fails: bool)
    requires ValidConfig(cfg) && Inv(cfg, c) && !c.closed && !StartReuses(c, input.key) && input.token != ""
    requires c.clock <= now <= idNow
    ensures Inv(cfg, Launch(c.(clock := idNow), input, trigger, now, idNow, fails).0)
  {
    hide WatchesOk, IndexOk, TableAgrees, Ordered, LatestOk, IdsSpent, Published, CanPublish, NewWatch, StartReuses;
    var c' := c.(clock := idNow);
    var w := NewWatch(WatchId(idNow, c.idSeq + 1), input, trigger, now);
    NotActive(c, input.key);
    if Saved(c, w, fails).None? {
      assert c.active - {input.key} == c.active;
      IdlingKeepsInv(cfg, c, c'.(idSeq := c.idSeq + 1));
    } else {
      LaunchPublishes(cfg, c, input, trigger, now, idNow);
      PublishKeepsInv(cfg, c, w);
    }
  }

  lemma NotActive(c: Core, key: Key)
    requires IndexOk(c)
    ensures key in c.active <==> StartReuses(c, key)
  {
  }

  lemma LaunchPublishes(cfg: Config, c: Core, input: StartInput, trigger: Option<int>, now: int, idNow: int)
    requires Inv(cfg, c) && ValidConfig(cfg) && input.token != "" && input.key !in c.active && c.clock <= now <= idNow
    requires var w := NewWatch(WatchId(idNow, c.idSeq + 1), input, trigger, now); Saved(c, w, false).Some?
    ensures var w := NewWatch(WatchId(idNow, c.idSeq + 1), input, trigger, now);
            Launch(c.(clock := idNow), input, trigger, now, idNow, false) == (Published(c, w), Started(w))
    ensures var w := NewWatch(WatchId(idNow, c.idSeq + 1), input, trigger, now);
            !c.closed && !StartReuses(c, input.key) ==> CanPublish(cfg, c, w)
  {
    hide WatchesOk, IndexOk, Ordered, LatestOk;
    LaunchBlocked(c, input, trigger, now, idNow);
    var w := NewWatch(WatchId(idNow, c.idSeq + 1), input, trigger, now);
    assert c.active - {input.key} == c.active;
    assert w.id in c.unsaved ==> RowAgrees(c, w.id);
    assert c.unsaved - {w.id} == c.unsaved;
  }

  lemma StartKeepsInv(cfg: Config, c: Core, input: StartInput, trigger: Option<int>, now: int, idNow: int, fails: bool)
    requires ValidConfig(cfg) && Inv(cfg, c) && c.clock <= now <= idNow
    ensures Inv(cfg, Start(c, input, trigger, now, idNow, fails).0)
  {
    hide Inv, Reuse, Launch;
    AdvanceKeepsInv(cfg, c, idNow);
    if ValidKey(input.key) && input.token != "" && !c.closed {
      if StartReuses(c, input.key) {
        LiveIsPlain(cfg, c, c.active[input.key]);
        ReuseKeepsInv(cfg, c.(clock := idNow), input, trigger, now, fails);
      } else {
        LaunchKeepsInv(cfg, c, input, trigger, now, idNow, fails);
      }
    }
  }

  lemma CancelLatestKeepsInv(cfg: Config, c: Core, key: Key, now: int, fails: bool)
    requires Inv(cfg, c) && c.clock <= now
    ensures Inv(cfg, CancelLatest(c, key, now, fails).0)
  {
    hide Inv, Cancel;
    IndexIsLive(cfg, c, key);
    if key in c.active {
      CancelKeepsInv(cfg, c, c.active[key], now, fails);
    } else {
      assert c.active - {key} == c.active;
    }
  }

  lemma IndexIsLive(cfg: Config, c: Core, key: Key)
    requires Inv(cfg, c)
    ensures key in c.active ==> Live(c, c.active[key])
  {
    hide WatchesOk, TableAgrees, Ordered, LatestOk, IdsSpent;
  }

  // ---- closing and reopening ----

  lemma CloseOneSound(cfg: Config, c: Core, w: Watch, now: int, fails: bool)
    requires LifeCycle(cfg, w) && !w.terminal && w.startedAt <= now
    ensures var w' := CloseOne(w, now, fails);
            LifeCycle(cfg, w') && w'.terminal && w'.id == w.id && w'.key == w.key && w'.startedAt == w.startedAt && w'.updatedAt == now
  {
  }

  lemma CloseKeepsMemory(cfg: Config, c: Core, now: int, failing: set<WatchId>)
    requires WatchesOk(cfg, c) && c.clock <= now && !c.closed
    ensures WatchesOk(cfg, Close(c, now, failing)) && IndexOk(Close(c, now, failing))
    ensures forall id :: !Live(Close(c, now, failing), id)
  {
    hide LifeCycle, CloseOne, RowOf;
    var c' := Close(c, now, failing);
    forall id | id in c'.watches ensures WatchOk(cfg, c', id) && c'.watches[id].terminal {
      assert WatchOk(cfg, c, id);
      if Live(c, id) { CloseOneSound(cfg, c, c.watches[id], now, id in failing); }
    }
  }

  lemma CloseRows(cfg: Config, c: Core, now: int, failing: set<WatchId>, i: nat)
    requires WatchesOk(cfg, c) && TableAgrees(c) && Ordered(c) && c.clock <= now && !c.closed && i < |c.rows|
    ensures var r, r' := c.rows[i], Close(c, now, failing).rows[i];
            && r'.id == r.id && r'.key == r.key && r'.startedAt == r.startedAt
            && (if Live(c, r.id) && r.id !in failing
                then r' == RowOf(CloseWatch(c.watches[r.id], now)) && !r'.isActive && r'.updatedAt == Sec(now)
                else r' == r)
            && (Live(c, r.id) ==> r.isActive && LastOfKey(c.rows, i))
  {
    hide LifeCycle, Constraints, Ordered, Position;
    var r := c.rows[i];
    if Live(c, r.id) {
      assert WatchOk(cfg, c, r.id) && RowAgrees(c, r.id);
      LiveRow(c, r.id);
      PositionOf(c.rows, i);
    }
  }

  lemma CloseKeepsTable(cfg: Config, c: Core, now: int, failing: set<WatchId>)
    requires WatchesOk(cfg, c) && TableAgrees(c) && Ordered(c) && c.clock <= now && !c.closed
    ensures TableAgrees(Close(c, now, failing))
  {
    hide LifeCycle, Ordered, RowOf, CloseWatch, Position;
    var c' := Close(c, now, failing);
    forall i | 0 <= i < |c.rows|
      ensures c'.rows[i].id == c.rows[i].id && c'.rows[i].key == c.rows[i].key && (c'.rows[i].isActive ==> c.rows[i].isActive)
    {
      CloseRows(cfg, c, now, failing, i);
    }
    forall id | id in c'.watches ensures RowAgrees(c', id) {
      CloseKeepsAgreement(cfg, c, now, failing, id);
    }
  }

  lemma CloseKeepsAgreement(cfg: Config, c: Core, now: int, failing: set<WatchId>, id: WatchId)
    requires WatchesOk(cfg, c) && TableAgrees(c) && Ordered(c) && c.clock <= now && !c.closed && id in c.watches
    ensures RowAgrees(Close(c, now, failing), id)
  {
    hide LifeCycle, Ordered, RowOf, CloseWatch, Constraints, Degrade, Position;
    var c' := Close(c, now, failing);
    assert RowAgrees(c, id) && WatchOk(cfg, c, id);
    var p := Position(c.rows, id);
    forall i | 0 <= i < |c.rows| ensures c'.rows[i].id == c.rows[i].id {
      CloseRows(cfg, c, now, failing, i);
    }
    SameIdsSamePositions(c.rows, c'.rows, id);
    CloseRows(cfg, c, now, failing, p);
    if Live(c, id) {
      CloseOneSound(cfg, c, c.watches[id], now, id in failing);
    }
  }

  lemma CloseKeepsOrder(cfg: Config, c: Core, now: int, failing: set<WatchId>)
    requires WatchesOk(cfg, c) && TableAgrees(c) && Ordered(c) && LatestOk(c) && IdsSpent(c) && c.clock <= now && !c.closed
    ensures Ordered(Close(c, now, failing)) && LatestOk(Close(c, now, failing)) && IdsSpent(Close(c, now, failing))
  {
    hide WatchesOk, TableAgrees, CloseOne, CloseWatch, RowOf, Close, Ordered, LatestOk, Position;
    var rows' := Close(c, now, failing).rows;
    CloseKeepsShape(c, now, failing);
    forall i | 0 <= i < |c.rows|
      ensures rows'[i].id == c.rows[i].id && rows'[i].key == c.rows[i].key && rows'[i].startedAt == c.rows[i].startedAt
      ensures rows'[i] == c.rows[i] || (LastOfKey(c.rows, i) && !rows'[i].isActive && rows'[i].updatedAt == Sec(now))
    {
      CloseRows(cfg, c, now, failing, i);
    }
    LastRowsTouched(c, Close(c, now, failing), Sec(now));
    forall id | id in c.watches ensures Close(c, now, failing).watches[id].key == c.watches[id].key {
      CloseKeepsKeys(cfg, c, now, failing, id);
    }
    LatestFollows(c, Close(c, now, failing));
  }

  lemma CloseKeepsShape(c: Core, now: int, failing: set<WatchId>)
    requires !c.closed
    ensures var c' := Close(c, now, failing);
            && |c'.rows| == |c.rows| && c'.watches.Keys == c.watches.Keys && c'.latest == c.latest
            && c'.clock == now && c'.epoch == c.epoch && c'.idSeq == c.idSeq
  {
  }

  /* Giving the last row of some keys the newest time leaves the rows in order. */
  lemma LastRowsTouched(c: Core, c': Core, now: int)
    requires Ordered(c) && Sec(c.clock) <= now == Sec(c'.clock) && |c'.rows| == |c.rows|
    requires forall i :: 0 <= i < |c.rows| ==> c'.rows[i].key == c.rows[i].key && c'.rows[i].startedAt == c.rows[i].startedAt
    requires forall i :: 0 <= i < |c.rows| ==>
               c'.rows[i] == c.rows[i] || (LastOfKey(c.rows, i) && !c'.rows[i].isActive && c'.rows[i].updatedAt == now)
    ensures Ordered(c')
  {
  }

  lemma CloseKeepsKeys(cfg: Config, c: Core, now: int, failing: set<WatchId>, id: WatchId)
    requires id in c.watches && !c.closed
    ensures Close(c, now, failing).watches[id].key == c.watches[id].key
  {
  }

  lemma CloseKeepsInv(cfg: Config, c: Core, now: int, failing: set<WatchId>)
    requires Inv(cfg, c) && c.clock <= now
    ensures Inv(cfg, Close(c, now, failing))
  {
    hide WatchesOk, IndexOk, TableAgrees, Ordered, LatestOk, IdsSpent;
    if !c.closed {
      CloseKeepsMemory(cfg, c, now, failing);
      CloseKeepsTable(cfg, c, now, failing);
      CloseKeepsOrder(cfg, c, now, failing);
    }
  }

  lemma ReopenKeepsInv(cfg: Config, c: Core, now: int)
    requires Inv(cfg, c) && c.clock < now
    ensures Inv(cfg, Reopen(c, now))
    ensures forall i :: 0 <= i < |c.rows| ==> !Reopen(c, now).rows[i].isActive
  {
    hide WatchesOk, IndexOk, LatestOk, LifeCycle, Position;
    var c' := Reopen(c, now);
    assert forall i :: 0 <= i < |c.rows| ==>
      c'.rows[i].id == c.rows[i].id && c'.rows[i].key == c.rows[i].key && c'.rows[i].startedAt == c.rows[i].startedAt;
    EmptyMemory(cfg, c');
  }

  lemma EmptyMemory(cfg: Config, c: Core)
    requires c.watches == map[] && c.active == map[] && c.latest == map[]
    ensures WatchesOk(cfg, c) && IndexOk(c) && LatestOk(c)
  {
  }
}
