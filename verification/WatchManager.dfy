/** The manager itself: watches and indexes updated in place, one method per lock section, each proved to do
    exactly what the step functions say. */
module WatchManager {
  import opened Prelude
  import opened ReviewStatuses
  import opened WatchTypes
  import opened WatchStore
  import opened WatchSteps
  import opened WatchInvariant
  import opened WatchSections
  import opened WatchClosing
  import opened WatchOwners
  import WatchRuns

  class WatchState {
    const id: WatchId
    const key: Key
    const startedAt: int
    var trigger: Option<int>
    var token: string
    var hasClient: bool
    var ctxDone: bool
    var status: Status
    var reviewStatus: Option<ReviewStatus>
    var failureReason: Option<FailureReason>
    var terminal: bool
    var workerRunning: bool
    var pollsDone: nat
    var updatedAt: int
    var completedAt: Option<int>
    var staleAt: Option<int>
    var lastPolledAt: Option<int>
    var lastError: Option<Message>
    var rateLimitResetAt: Option<int>
    var upstreamFailures: nat
    var recoveryHint: Option<Hint>

    /* snapshotFromState, with the fields a snapshot leaves out. */
    function View(): Watch
      reads this
    {
      Watch(id, key, trigger, token, hasClient, ctxDone, status, reviewStatus, failureReason, terminal, workerRunning,
            pollsDone, startedAt, updatedAt, completedAt, staleAt, lastPolledAt, lastError, rateLimitResetAt,
            upstreamFailures, recoveryHint)
    }

    constructor (id: WatchId, input: StartInput, trigger: Option<int>, now: int)
      ensures View() == NewWatch(id, input, trigger, now)
    {
      this.id, this.key, this.startedAt := id, input.key, now;
      this.trigger, this.token, this.hasClient, this.ctxDone := trigger, input.token, true, false;
      status, reviewStatus, failureReason := Watching, None, None;
      terminal, workerRunning, pollsDone, updatedAt := false, true, 0, now;
      completedAt, staleAt, lastPolledAt, lastError := None, None, None, None;
      rateLimitResetAt, upstreamFailures, recoveryHint := None, 0, None;
    }

    /* The token change of a reused watch. */
    method ReplaceToken(newToken: string)
      modifies this
      ensures View() == old(View()).(token := newToken, hasClient := true, upstreamFailures := 0, lastError := None, recoveryHint := None)
    {
      token := newToken;
      hasClient := true;
      upstreamFailures := 0;
      lastError := None;
      recoveryHint := None;
    }

    method LinkTrigger(newTrigger: Option<int>)
      modifies this
      ensures View() == old(View()).(trigger := newTrigger)
    {
      trigger := newTrigger;
    }

    method NoteReview(review: ReviewStatus, reset: Option<int>)
      modifies this
      ensures View() == old(View()).(reviewStatus := Some(review), lastError := None, rateLimitResetAt := reset)
    {
      reviewStatus := Some(review);
      lastError := None;
      rateLimitResetAt := reset;
    }

    method NoteFailure(count: nat)
      modifies this
      ensures View() == old(View()).(upstreamFailures := count)
    {
      upstreamFailures := count;
    }

    method NoteError(message: Message)
      modifies this
      ensures terminal == old(terminal)
      ensures View() == old(View()).(lastError := Some(message))
    {
      lastError := Some(message);
    }

    method NoteProgress()
      modifies this
      ensures View() == old(View()).(upstreamFailures := 0, status := Watching, workerRunning := true)
    {
      upstreamFailures := 0;
      status := Watching;
      workerRunning := true;
    }

    method Settle(newStatus: Status, reason: Option<FailureReason>)
      modifies this
      ensures View() == old(View()).(status := newStatus, failureReason := reason)
    {
      status := newStatus;
      failureReason := reason;
    }

    method SetHint(hint: Option<Hint>)
      modifies this
      ensures View() == old(View()).(recoveryHint := hint)
    {
      recoveryHint := hint;
    }

    method Complete(now: int)
      modifies this
      ensures View() == old(View()).(completedAt := Some(now))
    {
      completedAt := Some(now);
    }

    method GoStale(now: int)
      modifies this
      ensures View() == old(View()).(staleAt := Some(now))
    {
      staleAt := Some(now);
    }

    method CompleteOnce(now: int)
      modifies this
      ensures View() == old(View()).(completedAt := Some(old(View()).completedAt.GetOr(now)))
    {
      if completedAt == None {
        completedAt := Some(now);
      }
    }

    method GoStaleOnce(now: int)
      modifies this
      ensures View() == old(View()).(staleAt := Some(old(View()).staleAt.GetOr(now)))
    {
      if staleAt == None {
        staleAt := Some(now);
      }
    }

    method EndContext()
      modifies this
      ensures View() == old(View()).(ctxDone := true)
    {
      ctxDone := true;
    }

    /* The worker is gone, and with it the credentials. */
    method Stop()
      modifies this
      ensures View() == old(View()).(terminal := true, workerRunning := false, token := "", hasClient := false)
      ensures terminal
    {
      terminal := true;
      workerRunning := false;
      token := "";
      hasClient := false;
    }

    method Touch(now: int)
      modifies this
      ensures View() == old(View()).(updatedAt := now)
    {
      updatedAt := now;
    }

    method MarkPoll(now: int)
      modifies this
      ensures View() == MarkPolled(old(View()), now)
    {
      pollsDone := pollsDone + 1;
      updatedAt := now;
      lastPolledAt := Some(now);
    }
  }

  /** The answer to a look-up of a key's latest watch. */
  datatype LatestWatch = InMemory(watch: Watch) | InTable(row: Row) | NoWatch

  class Manager {
    const cfg: Config
    const db: ReviewWatchTable
    var watchesByID: map<WatchId, WatchState>
    var activeByKey: map<Key, WatchId>
    var latestByKey: map<Key, WatchId>
    var closed: bool
    var idSeq: nat
    var notified: seq<WatchId>       // the notifications scheduled so far
    ghost var clock: int
    ghost var epoch: int
    ghost var unsaved: set<WatchId>

    /* Every object is filed under its own ID, so no object is filed twice. */
    ghost predicate Shape()
      reads `watchesByID, watchesByID.Values
    {
      forall id :: id in watchesByID ==> watchesByID[id].id == id
    }

    ghost function Views(): map<WatchId, Watch>
      reads `watchesByID, watchesByID.Values
    {
      map id | id in watchesByID :: watchesByID[id].View()
    }

    ghost function View(): Core
      reads `watchesByID, `activeByKey, `latestByKey, `closed, `idSeq, `clock, `epoch, `unsaved, db, watchesByID.Values
    {
      Core(Views(), activeByKey, latestByKey, closed, idSeq, db.rows,
           clock, epoch, unsaved)
    }

    ghost predicate Valid()
      reads `watchesByID, `activeByKey, `latestByKey, `closed, `idSeq, `clock, `epoch, `unsaved, db, watchesByID.Values
    {
      Shape() && ValidConfig(cfg) && Inv(cfg, View())
    }

    /* On an empty table, or on one whose active rows were marked stale when it was opened. */
    constructor (db: ReviewWatchTable, cfg: Config, ghost now: int)
      requires ValidConfig(cfg) && Inv(cfg, Core(map[], map[], map[], false, 0, db.rows, now, now, {}))
      ensures Valid() && this.db == db && this.cfg == cfg && notified == []
      ensures View() == Core(map[], map[], map[], false, 0, db.rows, now, now, {})
    {
      this.db, this.cfg := db, cfg;
      watchesByID, activeByKey, latestByKey := map[], map[], map[];
      closed, idSeq, notified := false, 0, [];
      clock, epoch, unsaved := now, now, {};
      new;
      hide Inv;
      assert View() == Core(map[], map[], map[], false, 0, db.rows, now, now, {});
    }

    /* Everything but the watch w and what persisting touches is as it was. */
    twostate predicate OnlyWatch(w: WatchState)
      reads `watchesByID, `latestByKey, `closed, `idSeq, `clock, `epoch, watchesByID.Values
    {
      && watchesByID == old(watchesByID) && latestByKey == old(latestByKey) && closed == old(closed)
      && idSeq == old(idSeq) && clock == old(clock) && epoch == old(epoch)
      && forall id :: id in watchesByID && watchesByID[id] != w ==> watchesByID[id].View() == old(watchesByID[id].View())
    }

    twostate lemma ViewAfter(w: WatchState)
      requires old(Shape()) && OnlyWatch(w) && w.id in watchesByID && watchesByID[w.id] == w
      ensures Shape()
      ensures View() == old(View()).(watches := old(View()).watches[w.id := w.View()], active := activeByKey, rows := db.rows,
                                     unsaved := unsaved)
    {
      forall id | id in watchesByID && id != w.id ensures watchesByID[id] != w {
        assert old(watchesByID[id].id) == id;
      }
      assert View().watches == old(View()).watches[w.id := w.View()];
    }

    lemma ViewParts()
      ensures var c := View();
              && c.active == activeByKey && c.latest == latestByKey && c.closed == closed && c.rows == db.rows
              && c.clock == clock && c.epoch == epoch && c.idSeq == idSeq && c.unsaved == unsaved && c.watches.Keys == watchesByID.Keys
              && forall id :: id in watchesByID ==> c.watches[id] == watchesByID[id].View()
    {
    }

    method PersistLocked(w: WatchState, fails: bool) returns (ok: bool)
      requires Constraints(db.rows)
      modifies db
      ensures Constraints(db.rows)
      ensures ok <==> !fails && Upsert(old(db.rows), RowOf(w.View())).Some?
      ensures db.rows == if ok then Upsert(old(db.rows), RowOf(w.View())).value else old(db.rows)
    {
      ok := db.UpsertReviewWatch(RowOf(w.View()), fails);
    }

    /* What recording comes to when the upsert succeeds, and when it does not. */
    static lemma RecordForms(c: Core, w: Watch, intended: Status, now: int, fails: bool)
      ensures Saved(c, w, fails).Some? ==>
                Record(c, w, intended, now, fails) ==
                c.(watches := c.watches[w.id := w], active := if w.terminal then c.active - {w.key} else c.active,
                   rows := Saved(c, w, fails).value, unsaved := c.unsaved - {w.id})
      ensures Saved(c, w, fails).None? ==>
                Record(c, w, intended, now, fails) ==
                c.(watches := c.watches[w.id := Degrade(w, intended, now)], active := c.active - {w.key},
                   unsaved := c.unsaved + {w.id})
    {
      hide Upsert, RowOf;
    }

    /* Putting an ended watch in memory before recording it makes no difference. */
    static lemma Staged(c: Core, w: Watch, intended: Status, now: int, fails: bool)
      requires w.terminal
      ensures Record(c.(watches := c.watches[w.id := w], active := c.active - {w.key}), w, intended, now, fails)
           == Record(c, w, intended, now, fails)
    {
      hide Upsert, RowOf, Degrade, Record;
      var c1 := c.(watches := c.watches[w.id := w], active := c.active - {w.key});
      RecordForms(c, w, intended, now, fails);
      RecordForms(c1, w, intended, now, fails);
      assert Saved(c1, w, fails) == Saved(c, w, fails);
      assert c1.active - {w.key} == c.active - {w.key};
      assert c1.watches[w.id := w] == c.watches[w.id := w];
      assert c1.watches[w.id := Degrade(w, intended, now)] == c.watches[w.id := Degrade(w, intended, now)];
    }

    method PersistOrDegradeLocked(w: WatchState, intended: Status, now: int, fails: bool) returns (ok: bool)
      requires Shape() && w.id in watchesByID && watchesByID[w.id] == w && Constraints(db.rows)
      modifies this`activeByKey, this`unsaved, db, w
      ensures Shape() && Constraints(db.rows)
      ensures OnlyWatch(w)
      ensures activeByKey == if ok then old(activeByKey) else old(activeByKey) - {w.key}
      ensures View() == Record(old(View()), old(w.View()), intended, now, fails).(active := activeByKey)
      ensures ok <==> Saved(old(View()), old(w.View()), fails).Some?
    {
      hide Upsert, RowOf, Constraints, Degrade, Record;
      RecordForms(View(), w.View(), intended, now, fails);
      ok := PersistLocked(w, fails);
      if ok {
        unsaved := unsaved - {w.id};
        assert w.View() == old(w.View());
        ViewAfter(w);
        return;
      }
      unsaved := unsaved + {w.id};
      activeByKey := activeByKey - {w.key};
      DegradeWatch(w, intended, now);
      ViewAfter(w);
    }

    static lemma RecordedIndex(c: Core, w: Watch, intended: Status, now: int, fails: bool)
      ensures Record(c, w, intended, now, fails).active ==
              if !w.terminal && Saved(c, w, fails).Some? then c.active else c.active - {w.key}
    {
      hide Upsert, RowOf;
    }

    static method DegradeWatch(w: WatchState, intended: Status, now: int)
      modifies w
      ensures w.View() == Degrade(old(w.View()), intended, now)
    {
      hide WatchState.View;
      w.Touch(now);
      w.CompleteOnce(now);
      w.NoteError(PersistFailed(intended));
      w.Stop();
      if intended == Stale {
        w.Settle(Stale, None);
        w.GoStaleOnce(now);
      } else {
        w.Settle(Failed, Some(InternalError));
      }
      w.EndContext();
    }

    static method FinishWatch(w: WatchState, status: Status, reason: Option<FailureReason>, now: int, message: Option<Message>,
                              hint: Option<Hint>)
      modifies w
      ensures w.View() == Finish(old(w.View()), status, reason, now, message, hint)
    {
      hide WatchState.View;
      w.Settle(status, reason);
      w.SetHint(hint);
      w.Touch(now);
      w.Complete(now);
      if status == Stale {
        w.GoStale(now);
      }
      w.Stop();
      if message.Some? {
        w.NoteError(message.value);
      }
      w.EndContext();
    }

    static lemma FinishEnds(w: Watch, status: Status, reason: Option<FailureReason>, now: int, message: Option<Message>,
                            hint: Option<Hint>)
      ensures var f := Finish(w, status, reason, now, message, hint); f.terminal && f.id == w.id && f.key == w.key
    {
    }

    static lemma Shown(w: WatchState)
      ensures var v := w.View();
              v.terminal == w.terminal && v.id == w.id && v.key == w.key && v.trigger == w.trigger
              && v.upstreamFailures == w.upstreamFailures && v.reviewStatus == w.reviewStatus && v.token == w.token
              && v.startedAt == w.startedAt && v.hasClient == w.hasClient && v.failureReason == w.failureReason
              && v.completedAt == w.completedAt && v.staleAt == w.staleAt
    {
    }

    /* finishLocked, up to saving. */
    method EndWatch(w: WatchState, status: Status, reason: Option<FailureReason>, now: int, message: Option<Message>,
                    hint: Option<Hint>)
      requires Shape() && w.id in watchesByID && watchesByID[w.id] == w
      modifies this`activeByKey, w
      ensures Shape() && OnlyWatch(w) && activeByKey == old(activeByKey) - {w.key}
      ensures w.View() == Finish(old(w.View()), status, reason, now, message, hint)
      ensures View() == old(View()).(watches := old(View()).watches[w.id := w.View()], active := activeByKey)
    {
      hide Finish, WatchState.View, View;
      ViewParts();
      FinishWatch(w, status, reason, now, message, hint);
      activeByKey := activeByKey - {w.key};
      ViewAfter(w);
    }

    method FinishLocked(w: WatchState, status: Status, reason: Option<FailureReason>, now: int, message: Option<Message>,
                        hint: Option<Hint>, fails: bool)
      requires Shape() && w.id in watchesByID && watchesByID[w.id] == w && Constraints(db.rows)
      modifies this`activeByKey, this`unsaved, this`notified, db, w
      ensures Shape() && Constraints(db.rows)
      ensures OnlyWatch(w)
      ensures View() == Record(old(View()), Finish(old(w.View()), status, reason, now, message, hint), status, now, fails)
      ensures notified == old(notified) + [w.id]
    {
      hide Constraints, Record, Finish, WatchState.View, View, Views, Saved, Degrade, RowOf, Upsert, Live;
      ghost var before := View();
      ViewParts();
      FinishEnds(w.View(), status, reason, now, message, hint);
      Shown(w);
      EndWatch(w, status, reason, now, message, hint);
      ghost var f := w.View();
      assert View() == before.(watches := before.watches[f.id := f], active := before.active - {f.key});
      RecordedIndex(View(), f, status, now, fails);
      assert activeByKey - {w.key} == activeByKey;
      var _ := PersistOrDegradeLocked(w, status, now, fails);
      notified := notified + [w.id];
      Staged(before, f, status, now, fails);
    }

    /* finishState: a poll or a deadline ends the watch, unless something else already has. */
    method FinishState(id: WatchId, now: int, status: Status, reason: Option<FailureReason>, message: Option<Message>,
                       counted: bool, hint: Option<Hint>, fails: bool)
      requires Valid() && Timely(View(), id, now)
      requires status != Watching && (status == Failed <==> reason.Some?) && (reason == Some(AuthExpired) ==> hint.Some?)
      modifies `activeByKey, `unsaved, `notified, db, watchesByID.Values
      ensures Valid() && watchesByID == old(watchesByID)
      ensures var r := WatchSteps.FinishState(old(View()), id, now, status, reason, message, counted, hint, fails);
              View() == r.core && notified == old(notified) + if r.notify then [id] else []
    {
      hide Inv, Record, Finish, WatchState.View, View;
      ghost var c := View();
      ViewParts();
      FinishStateKeepsInv(cfg, c, id, now, status, reason, message, counted, hint, fails);
      LivenessOf(id);
      if id !in watchesByID || watchesByID[id].terminal {
        return;
      }
      var w := watchesByID[id];
      Shown(w);
      Constrained(c);
      ghost var w1 := if counted then MarkPolled(w.View(), now) else w.View().(updatedAt := now);
      if counted {
        w.MarkPoll(now);
      } else {
        w.Touch(now);
      }
      ViewAfter(w);
      FinishLocked(w, status, reason, now, message, hint, fails);
      FinishEnds(w1, status, reason, now, message, hint);
      RecordOverwrites(c, w1, Finish(w1, status, reason, now, message, hint), status, now, fails);
    }

    lemma LivenessOf(id: WatchId)
      ensures Live(View(), id) <==> id in watchesByID && !watchesByID[id].terminal
    {
    }

    static lemma RecordOverwrites(c: Core, staged: Watch, w: Watch, intended: Status, now: int, fails: bool)
      requires staged.id == w.id
      ensures Record(c.(watches := c.watches[w.id := staged]), w, intended, now, fails) == Record(c, w, intended, now, fails)
    {
    }

    lemma Constrained(c: Core)
      requires Inv(cfg, c)
      ensures Constraints(c.rows)
    {
    }

    static method CountFailure(w: WatchState, count: nat, now: int)
      modifies w
      ensures w.View() == MarkPolled(old(w.View()).(upstreamFailures := count), now) && w.terminal == old(w.terminal)
    {
      w.NoteFailure(count);
      w.MarkPoll(now);
    }

    /* handleUpstreamFailure: count, and escalate at the threshold. */
    method HandleUpstreamFailure(id: WatchId, now: int, text: string, fails: bool) returns (stop: bool)
      requires Valid() && Timely(View(), id, now)
      modifies `activeByKey, `unsaved, `notified, db, watchesByID.Values
      ensures Valid() && watchesByID == old(watchesByID)
      ensures var r := WatchSteps.HandleUpstreamFailure(cfg, old(View()), id, now, text, fails);
              View() == r.core && stop == r.stop && notified == old(notified) + if r.notify then [id] else []
    {
      hide Inv, Record, Finish, WatchState.View, View, Views, MarkPolled, Link, Timely, Constraints, Upsert, RowOf, Degrade, LifeCycle, Saved;
      ghost var c := View();
      ViewParts();
      HandleUpstreamFailureKeepsInv(cfg, c, id, now, text, fails);
      LivenessOf(id);
      if id !in watchesByID || watchesByID[id].terminal {
        return true;
      }
      var w := watchesByID[id];
      Shown(w);
      Constrained(c);
      var count := w.upstreamFailures + 1;
      CountFailure(w, count, now);
      Shown(w);
      ghost var w1 := w.View();
      if count >= cfg.threshold {
        ViewAfter(w);
        var message, hint := Some(UpstreamPersisted(count, text)), Some(UpstreamHint(count));
        FinishLocked(w, Failed, Some(AuthExpired), now, message, hint, fails);
        FinishEnds(w1, Failed, Some(AuthExpired), now, message, hint);
        RecordOverwrites(c, w1, Finish(w1, Failed, Some(AuthExpired), now, message, hint), Failed, now, fails);
        return true;
      }
      w.NoteError(Text(text));
      ViewAfter(w);
      stop := SaveLive(c, w, now, fails);
    }

    /* A rewritten watch that stays live is saved; when that fails it ends, and subscribers are told. */
    method SaveLive(ghost c: Core, w: WatchState, now: int, fails: bool) returns (stop: bool)
      requires Shape() && w.id in watchesByID && watchesByID[w.id] == w && Constraints(db.rows) && !w.terminal
      requires View() == c.(watches := c.watches[w.id := w.View()])
      modifies `activeByKey, `unsaved, `notified, db, w
      ensures Shape() && OnlyWatch(w) && watchesByID == old(watchesByID)
      ensures View() == Record(c, old(w.View()), Watching, now, fails)
      ensures stop <==> !Live(View(), w.id)
      ensures notified == old(notified) + if stop then [w.id] else []
    {
      hide Constraints, Record, WatchState.View, View;
      Shown(w);
      ghost var w1 := w.View();
      ViewParts();
      RecordedIndex(View(), w1, Watching, now, fails);
      var ok := PersistOrDegradeLocked(w, Watching, now, fails);
      RecordOverwrites(c, w1, w1, Watching, now, fails);
      RecordLiveness(c, w1, Watching, now, fails);
      SavedIgnoresMemory(c, w1, fails);
      stop := !ok;
      if stop {
        notified := notified + [w.id];
      }
    }

    static lemma RecordLiveness(c: Core, w: Watch, intended: Status, now: int, fails: bool)
      ensures Live(Record(c, w, intended, now, fails), w.id) <==> !w.terminal && Saved(c, w, fails).Some?
    {
      hide Upsert, RowOf;
    }

    static lemma SavedIgnoresMemory(c: Core, w: Watch, fails: bool)
      ensures Saved(c.(watches := c.watches[w.id := w]), w, fails) == Saved(c, w, fails)
    {
    }

    method EndOnLowRate(id: WatchId, now: int, data: ReviewData, review: ReviewStatus, fails: bool) returns (stop: bool)
      requires Valid() && Timely(View(), id, now)
      modifies `activeByKey, `unsaved, `notified, db, watchesByID.Values
      ensures Valid() && watchesByID == old(watchesByID)
      ensures var r := WatchSteps.EndOnLowRate(old(View()), id, now, data, review, fails);
              View() == r.core && stop == r.stop && notified == old(notified) + if r.notify then [id] else []
    {
      hide Inv, Record, Finish, WatchState.View, View;
      ghost var c := View();
      ViewParts();
      ReviewSectionsKeepInv(cfg, c, id, now, data, review, None, fails);
      LivenessOf(id);
      stop := true;
      if id !in watchesByID || watchesByID[id].terminal {
        return;
      }
      var w := watchesByID[id];
      Shown(w);
      Constrained(c);
      w.MarkPoll(now);
      w.NoteReview(review, data.rateLimitReset);
      ghost var w1 := w.View();
      ViewAfter(w);
      var message := Some(LowRateLimit(data.rateLimitRemaining, data.rateLimitReset));
      FinishLocked(w, RateLimited, None, now, message, None, fails);
      FinishEnds(w1, RateLimited, None, now, message, None);
      RecordOverwrites(c, w1, Finish(w1, RateLimited, None, now, message, None), RateLimited, now, fails);
    }

    method EndOnReview(id: WatchId, now: int, review: ReviewStatus, entry: Option<TriggerEntry>, fails: bool) returns (stop: bool)
      requires Valid() && Timely(View(), id, now)
      modifies `activeByKey, `unsaved, `notified, db, watchesByID.Values
      ensures Valid() && watchesByID == old(watchesByID)
      ensures var r := WatchSteps.EndOnReview(old(View()), id, now, review, entry, fails);
              View() == r.core && stop == r.stop && notified == old(notified) + if r.notify then [id] else []
    {
      hide Inv, Record, Finish, WatchState.View, View;
      ghost var c := View();
      ViewParts();
      var noData := ReviewData(false, None, 0, None, None, None);
      ReviewSectionsKeepInv(cfg, c, id, now, noData, review, entry, fails);
      LivenessOf(id);
      stop := true;
      if id !in watchesByID || watchesByID[id].terminal {
        return;
      }
      var w := watchesByID[id];
      Shown(w);
      Constrained(c);
      w.MarkPoll(now);
      w.NoteReview(review, None);
      Shown(w);
      if w.trigger == None && entry.Some? {
        w.LinkTrigger(Some(entry.value.id));
      }
      ghost var w1 := w.View();
      ViewAfter(w);
      FinishLocked(w, EndStatus(review), None, now, None, None, fails);
      FinishEnds(w1, EndStatus(review), None, now, None, None);
      RecordOverwrites(c, w1, Finish(w1, EndStatus(review), None, now, None, None), EndStatus(review), now, fails);
    }

    /* A poll that found the review undecided, on the watch itself. */
    static ghost function Polled(w: Watch, now: int, review: ReviewStatus, entry: Option<TriggerEntry>): Watch {
      Link(MarkPolled(w, now).(reviewStatus := Some(review), lastError := None, upstreamFailures := 0,
                               rateLimitResetAt := None, status := Watching, workerRunning := true), entry)
    }

    static method NotePoll(w: WatchState, now: int, review: ReviewStatus, entry: Option<TriggerEntry>)
      modifies w
      ensures w.View() == Polled(old(w.View()), now, review, entry)
      ensures w.terminal == old(w.terminal)
    {
      hide WatchState.View;
      Shown(w);
      w.MarkPoll(now);
      w.NoteReview(review, None);
      w.NoteProgress();
      Shown(w);
      if w.trigger == None && entry.Some? {
        w.LinkTrigger(Some(entry.value.id));
      }
      Shown(w);
    }

    static lemma NotKept(c: Core, id: WatchId, now: int, review: ReviewStatus, entry: Option<TriggerEntry>, fails: bool)
      ensures !Live(c, id) ==> WatchSteps.KeepWatching(c, id, now, review, entry, fails) == Section(c, true, false)
    {
    }

    static lemma KeepWatchingForm(c: Core, id: WatchId, now: int, review: ReviewStatus, entry: Option<TriggerEntry>, fails: bool)
      requires Live(c, id)
      ensures var c' := Record(c, Polled(c.watches[id], now, review, entry), Watching, now, fails);
              WatchSteps.KeepWatching(c, id, now, review, entry, fails)
              == Section(c', !Live(c', id), !Live(c', id) || c.watches[id].reviewStatus != Some(review))
      ensures Polled(c.watches[id], now, review, entry).id == c.watches[id].id
    {
      hide Record;
    }

    method NotePollLocked(w: WatchState, now: int, review: ReviewStatus, entry: Option<TriggerEntry>)
      requires Shape() && w.id in watchesByID && watchesByID[w.id] == w
      modifies w
      ensures Shape() && OnlyWatch(w) && watchesByID == old(watchesByID) && w.terminal == old(w.terminal)
      ensures w.View() == Polled(old(w.View()), now, review, entry)
      ensures View() == old(View()).(watches := old(View()).watches[w.id := w.View()])
    {
      hide WatchState.View, View, Views, Polled;
      ViewParts();
      NotePoll(w, now, review, entry);
      ViewAfter(w);
    }

    method KeepWatching(id: WatchId, now: int, review: ReviewStatus, entry: Option<TriggerEntry>, fails: bool) returns (stop: bool)
      requires Valid() && Timely(View(), id, now)
      modifies `activeByKey, `unsaved, `notified, db, watchesByID.Values
      ensures Valid() && watchesByID == old(watchesByID)
      ensures var r := WatchSteps.KeepWatching(old(View()), id, now, review, entry, fails);
              View() == r.core && stop == r.stop && notified == old(notified) + if r.notify then [id] else []
    {
      hide Inv, Record, Finish, WatchState.View, View, Views, Timely, Constraints, Polled, WatchSteps.KeepWatching, Live;
      ghost var c := View();
      ViewParts();
      var noData := ReviewData(false, None, 0, None, None, None);
      ReviewSectionsKeepInv(cfg, c, id, now, noData, review, entry, fails);
      LivenessOf(id);
      NotKept(c, id, now, review, entry, fails);
      if id !in watchesByID || watchesByID[id].terminal {
        return true;
      }
      var w := watchesByID[id];
      Shown(w);
      Constrained(c);
      var previous := w.reviewStatus;
      KeepWatchingForm(c, id, now, review, entry, fails);
      NotePollLocked(w, now, review, entry);
      stop := SaveLive(c, w, now, fails);
      if !stop && previous != Some(review) {
        notified := notified + [id];
      }
    }

    // ---- a poll, from its first section to its last ----

    /* pollOnce before the fetch: the deadline is looked at before the client. */
    method BeginPoll(id: WatchId, now: int) returns (start: PollStart)
      requires Valid() && clock <= now
      modifies `clock
      ensures Valid() && View() == old(View()).(clock := now)
      ensures start == WatchSteps.BeginPoll(cfg, old(View()), id, now)
    {
      hide Inv, View, WatchState.View;
      ViewParts();
      Tick(now);
      if id !in watchesByID {
        return WatchGone;
      }
      var w := watchesByID[id];
      Shown(w);
      return if now - w.startedAt >= cfg.maxDuration then DeadlinePassed else if !w.hasClient then NoClient else Fetch;
    }

    /* Time passes outside the lock. */
    ghost method Tick(now: int)
      requires Valid() && clock <= now
      modifies `clock
      ensures Valid() && clock == now && View() == old(View()).(clock := now)
    {
      hide Inv;
      ghost var c := View();
      AdvanceKeepsInv(cfg, c, now);
      clock := now;
      assert View() == c.(clock := now);
    }

    method GiveUp(id: WatchId, now: int, clientless: bool, fails: bool)
      requires Valid() && Timely(View(), id, now)
      modifies `activeByKey, `unsaved, `notified, db, watchesByID.Values
      ensures Valid() && watchesByID == old(watchesByID)
      ensures var r := WatchSteps.GiveUp(old(View()), id, now, clientless, fails);
              View() == r.core && notified == old(notified) + if r.notify then [id] else []
    {
      hide Inv, WatchSteps.FinishState, View, Timely, Shape;
      if clientless {
        FinishState(id, now, Failed, Some(InternalError), Some(ClientUnavailable), false, None, fails);
      } else {
        FinishState(id, now, TimedOut, None, Some(MaxDurationExceeded), false, None, fails);
      }
    }

    method RecordReview(id: WatchId, now: int, data: ReviewData, entry: Option<TriggerEntry>, completionFails: bool, fails: bool)
      returns (stop: bool)
      requires Valid() && Timely(View(), id, now)
      modifies `activeByKey, `unsaved, `notified, db, watchesByID.Values
      ensures Valid() && watchesByID == old(watchesByID)
      ensures var r := WatchSteps.RecordReview(old(View()), id, now, data, entry, completionFails, fails);
              View() == r.core && stop == r.stop && notified == old(notified) + if r.notify then [id] else []
    {
      hide Inv, View, Timely, Shape, ReviewOf, Decisive;
      hide WatchSteps.FinishState, WatchSteps.EndOnLowRate, WatchSteps.EndOnReview, WatchSteps.KeepWatching;
      FinishStateStops(View(), id, now, Failed, Some(InternalError), Some(TriggerUpdateFailed), true, None, fails);
      var review := ReviewOf(data, entry);
      if data.rateLimitRemaining < 10 {
        stop := EndOnLowRate(id, now, data, review, fails);
      } else if !Decisive(review) {
        stop := KeepWatching(id, now, review, entry, fails);
      } else if entry.Some? && entry.value.completedAt.None? && completionFails {
        FinishState(id, now, Failed, Some(InternalError), Some(TriggerUpdateFailed), true, None, fails);
        stop := true;
      } else {
        stop := EndOnReview(id, now, review, entry, fails);
      }
    }

    static lemma FinishStateStops(c: Core, id: WatchId, now: int, status: Status, reason: Option<FailureReason>,
                                  message: Option<Message>, counted: bool, hint: Option<Hint>, fails: bool)
      ensures WatchSteps.FinishState(c, id, now, status, reason, message, counted, hint, fails).stop
    {
      hide Record, Finish;
    }

    /* pollOnce after the fetch. */
    method EndPoll(id: WatchId, now: int, outcome: PollOutcome, fails: bool) returns (stop: bool)
      requires Valid() && Timely(View(), id, now)
      modifies `activeByKey, `unsaved, `notified, db, watchesByID.Values
      ensures Valid() && watchesByID == old(watchesByID)
      ensures var r := WatchSteps.EndPoll(cfg, old(View()), id, now, outcome, fails);
              View() == r.core && stop == r.stop && notified == old(notified) + if r.notify then [id] else []
    {
      hide Inv, View, Timely, Shape, WatchSteps.FinishState, WatchSteps.HandleUpstreamFailure, WatchSteps.RecordReview;
      ghost var c := View();
      stop := true;
      match outcome
      case ContextCancelled =>
      case FetchTimedOut =>
        FinishStateStops(c, id, now, Failed, Some(GitHubError), Some(PollTimedOut), true, None, fails);
        FinishState(id, now, Failed, Some(GitHubError), Some(PollTimedOut), true, None, fails);
      case FetchRateLimited(text) =>
        FinishStateStops(c, id, now, RateLimited, None, WatchSteps.Shown(text), true, None, fails);
        FinishState(id, now, RateLimited, None, WatchSteps.Shown(text), true, None, fails);
      case UpstreamFailure(text) =>
        stop := HandleUpstreamFailure(id, now, text, fails);
      case FetchFailed(text, authHint) =>
        var reason := Some(if authHint.Some? then AuthExpired else GitHubError);
        var hint := if authHint.Some? then Some(AuthHint(authHint.value)) else None;
        FinishStateStops(c, id, now, Failed, reason, WatchSteps.Shown(text), true, hint, fails);
        FinishState(id, now, Failed, reason, WatchSteps.Shown(text), true, hint, fails);
      case TriggerUnreadable =>
        FinishStateStops(c, id, now, Failed, Some(InternalError), Some(TriggerReadFailed), true, None, fails);
        FinishState(id, now, Failed, Some(InternalError), Some(TriggerReadFailed), true, None, fails);
      case Reviewed(data, entry, completionFails) =>
        stop := RecordReview(id, now, data, entry, completionFails, fails);
    }

    /* A worker that panicked leaves its watch stale. */
    method MarkStale(id: WatchId, now: int, message: Message, fails: bool)
      requires Valid() && clock <= now
      modifies `activeByKey, `unsaved, `notified, `clock, db, watchesByID.Values
      ensures Valid() && watchesByID == old(watchesByID)
      ensures var r := WatchSteps.MarkStale(old(View()), id, now, message, fails);
              View() == r.core && notified == old(notified) + if r.notify then [id] else []
    {
      hide Inv, Record, Finish, WatchState.View, View;
      ghost var c := View();
      ViewParts();
      MarkStaleKeepsInv(cfg, c, id, now, message, fails);
      LivenessOf(id);
      Tick(now);
      if id !in watchesByID || watchesByID[id].terminal {
        return;
      }
      var w := watchesByID[id];
      ViewParts();
      Shown(w);
      Constrained(View());
      FinishLocked(w, Stale, None, now, Some(message), None, fails);
    }

    // ---- starting ----

    /* Whatever a reused watch changes; `changed` says whether there is something to save. */
    static method RefreshWatch(w: WatchState, input: StartInput, trigger: Option<int>, now: int) returns (changed: bool)
      modifies w
      ensures w.View() == Refreshed(old(w.View()), input, trigger, now)
      ensures changed <==> w.View() != old(w.View())
    {
      var tokenChanged := w.token != input.token;
      var triggerLinked := w.trigger == None && trigger.Some?;
      changed := tokenChanged || triggerLinked;
      ghost var v := w.View();
      assert tokenChanged ==> Refreshed(v, input, trigger, now).token != v.token;
      assert triggerLinked ==> Refreshed(v, input, trigger, now).trigger != v.trigger;
      if changed {
        w.Touch(now);
      }
      if tokenChanged {
        w.ReplaceToken(input.token);
      }
      if triggerLinked {
        w.LinkTrigger(trigger);
      }
    }

    static lemma RefreshedIdentity(w: Watch, input: StartInput, trigger: Option<int>, now: int)
      ensures var w' := Refreshed(w, input, trigger, now); w'.id == w.id && w'.key == w.key
    {
    }

    /* The active watch of the key serves the request. A failed save is reported, and the watch lives on. */
    method Reuse(input: StartInput, trigger: Option<int>, now: int, fails: bool) returns (result: StartResult)
      requires Valid() && StartReuses(View(), input.key) && input.token != "" && Timely(View(), View().active[input.key], now)
      modifies `unsaved, db, watchesByID.Values
      ensures Valid() && watchesByID == old(watchesByID)
      ensures (View(), result) == WatchSteps.Reuse(old(View()), input, trigger, now, fails)
    {
      hide Inv, WatchState.View, View, Refreshed, Timely, Constraints, Upsert, RowOf;
      ghost var c := View();
      ViewParts();
      ReuseKeepsInv(cfg, c, input, trigger, now, fails);
      Constrained(c);
      var id := activeByKey[input.key];
      var w := watchesByID[id];
      Shown(w);
      RefreshedIdentity(w.View(), input, trigger, now);
      var changed := RefreshWatch(w, input, trigger, now);
      if changed {
        var ok := PersistLocked(w, fails);
        unsaved := if ok then unsaved - {id} else unsaved + {id};
        ViewAfter(w);
        if !ok {
          return PersistError;
        }
      } else {
        ViewAfter(w);
        assert c.watches[id := w.View()] == c.watches;
      }
      result := Reused(w.View());
    }

    twostate lemma ViewsWith(w: WatchState)
      requires watchesByID == old(watchesByID)[w.id := w]
      requires forall x: WatchState :: x in old(watchesByID).Values || x == w ==> x.View() == old(x.View())
      ensures Views() == old(Views())[w.id := w.View()]
    {
    }

    method Publish(w: WatchState)
      requires Shape()
      modifies `watchesByID, `activeByKey, `latestByKey, `unsaved
      ensures Shape()
      ensures var c := old(View());
              View() == c.(watches := c.watches[w.id := w.View()], active := c.active[w.key := w.id],
                           latest := c.latest[w.key := w.id], unsaved := c.unsaved - {w.id})
    {
      hide Views, WatchState.View;
      ghost var c := View();
      watchesByID := watchesByID[w.id := w];
      ViewsWith(w);
      activeByKey := activeByKey[w.key := w.id];
      latestByKey := latestByKey[w.key := w.id];
      unsaved := unsaved - {w.id};
    }

    /* A new watch is published only once its row is in the table. */
    method Launch(input: StartInput, trigger: Option<int>, now: int, idNow: int, fails: bool) returns (result: StartResult)
      requires Valid() && !closed && !StartReuses(View(), input.key) && input.token != "" && clock <= now <= idNow
      modifies `watchesByID, `activeByKey, `latestByKey, `idSeq, `clock, `unsaved, db
      ensures Valid()
      ensures (View(), result) == WatchSteps.Launch(old(View()).(clock := idNow), input, trigger, now, idNow, fails)
    {
      hide Inv, WatchState.View, View, Constraints, Upsert, RowOf, NewWatch, StartReuses;
      ghost var c := View();
      ViewParts();
      LaunchKeepsInv(cfg, c, input, trigger, now, idNow, fails);
      Constrained(c);
      activeByKey := activeByKey - {input.key};
      idSeq := idSeq + 1;
      clock := idNow;
      var id := WatchId(idNow, idSeq);
      var w := new WatchState(id, input, trigger, now);
      NewWatchIdentity(w, id, input, trigger, now);
      var ok := PersistLocked(w, fails);
      SameWatches(c);
      if !ok {
        return PersistError;
      }
      Publish(w);
      return Started(w.View());
    }

    static lemma NewWatchIdentity(w: WatchState, id: WatchId, input: StartInput, trigger: Option<int>, now: int)
      requires w.View() == NewWatch(id, input, trigger, now)
      ensures w.id == id && w.key == input.key
    {
    }

    twostate lemma SameWatches(c: Core)
      requires old(Shape()) && c == old(View()) && watchesByID == old(watchesByID)
      requires forall id :: id in watchesByID ==> watchesByID[id].View() == old(watchesByID[id].View())
      ensures Shape()
      ensures View() == Core(c.watches, activeByKey, latestByKey, closed, idSeq, db.rows, clock, epoch, unsaved)
    {
      assert View().watches == c.watches;
    }

    method Start(input: StartInput, trigger: Option<int>, now: int, idNow: int, fails: bool) returns (result: StartResult)
      requires Valid() && clock <= now <= idNow
      modifies `watchesByID, `activeByKey, `latestByKey, `idSeq, `clock, `unsaved, db, watchesByID.Values
      ensures Valid()
      ensures (View(), result) == WatchSteps.Start(old(View()), input, trigger, now, idNow, fails)
    {
      hide Inv, WatchState.View, View, WatchSteps.Reuse, WatchSteps.Launch, Shape;
      ghost var c := View();
      ViewParts();
      if !ValidKey(input.key) || input.token == "" {
        return InvalidInput;
      }
      if closed {
        Tick(idNow);
        return ClosedError;
      }
      if input.key in activeByKey {
        LivenessOf(activeByKey[input.key]);
        if activeByKey[input.key] in watchesByID && !watchesByID[activeByKey[input.key]].terminal {
          TimelyLater(cfg, c, activeByKey[input.key], now, idNow);
          Tick(idNow);
          result := Reuse(input, trigger, now, fails);
          return;
        }
      }
      result := Launch(input, trigger, now, idNow, fails);
    }

    static lemma TimelyLater(cfg: Config, c: Core, id: WatchId, now: int, later: int)
      requires Inv(cfg, c) && c.clock <= now <= later
      ensures Timely(c.(clock := later), id, now)
    {
      hide IndexOk, TableAgrees, Ordered, LatestOk, IdsSpent, LifeCycle;
      assert id in c.watches ==> WatchOk(cfg, c, id);
    }

    // ---- cancelling ----

    method CancelWatch(id: WatchId, now: int, fails: bool)
      requires Valid() && id in watchesByID && !watchesByID[id].terminal && clock <= now
      modifies `activeByKey, `unsaved, `notified, `clock, db, watchesByID.Values
      ensures Valid() && watchesByID == old(watchesByID)
      ensures id in old(View()).watches && View() == Cancel(old(View()), id, now, fails) && notified == old(notified) + [id]
    {
      hide Inv, Record, Finish, WatchState.View, View;
      ghost var c := View();
      ViewParts();
      LivenessOf(id);
      CancelKeepsInv(cfg, c, id, now, fails);
      Tick(now);
      var w := watchesByID[id];
      ViewParts();
      Shown(w);
      Constrained(View());
      FinishLocked(w, Cancelled, None, now, Some(CancelledManually), None, fails);
    }

    method CancelByID(login: string, id: WatchId, now: int, fails: bool) returns (result: CancelResult)
      requires Valid() && clock <= now
      modifies `activeByKey, `unsaved, `notified, `clock, db, watchesByID.Values
      ensures Valid() && watchesByID == old(watchesByID)
      ensures (View(), result) == WatchSteps.CancelByID(old(View()), login, id, now, fails)
      ensures AnswersOwn(result, login, id)
      ensures login != "" && !Owns(old(View()), login, id) ==> result.NotFound? && View() == old(View()) && notified == old(notified)
      ensures notified == old(notified) + if result.DidCancel? then [id] else []
    {
      hide Inv, WatchState.View, View, Cancel, Shape, AnswersOwn, Owns;
      ViewParts();
      CancelByIDAnswer(cfg, View(), login, id, now, fails);
      if login == "" {
        return Refused;
      }
      if id in watchesByID {
        var w := watchesByID[id];
        Shown(w);
        if w.key.login != login {
          return NotFound;
        }
        if w.terminal {
          return FoundTerminal(w.View());
        }
        CancelWatch(id, now, fails);
        ViewParts();
        return DidCancel(w.View());
      }
      var row := db.GetReviewWatchByID(id);
      if row == None || row.value.key.login != login {
        return NotFound;
      }
      return FromTable(row.value);
    }

    method CancelLatest(key: Key, now: int, fails: bool) returns (result: CancelResult)
      requires Valid() && clock <= now
      modifies `activeByKey, `unsaved, `notified, `clock, db, watchesByID.Values
      ensures Valid() && watchesByID == old(watchesByID)
      ensures var r := WatchSteps.CancelLatest(old(View()), key, now, fails);
              && View() == r.0
              && (r.1 != NotFound ==> result == r.1)
              && (r.1 == NotFound ==>
                    (result.NotFound? || result.FromTable?) && IsLookup(if result.FromTable? then Some(result.row) else None, key))
      ensures notified == old(notified) + if result.DidCancel? then [result.watch.id] else []
    {
      hide Inv, WatchState.View, View, Cancel;
      ghost var c := View();
      ViewParts();
      if !ValidKey(key) {
        return Refused;
      }
      CancelLatestKeepsInv(cfg, c, key, now, fails);
      if key in activeByKey && activeByKey[key] in watchesByID {
        var id := activeByKey[key];
        var w := watchesByID[id];
        Shown(w);
        if w.terminal {
          return FoundTerminal(w.View());
        }
        CancelWatch(id, now, fails);
        ViewParts();
        Shown(w);
        return DidCancel(w.View());
      }
      activeByKey := activeByKey - {key};
      SameWatches(c);
      if key in latestByKey && latestByKey[key] in watchesByID {
        return FoundTerminal(watchesByID[latestByKey[key]].View());
      }
      var row := LookUp(key);
      result := if row.Some? then FromTable(row.value) else NotFound;
    }

    // ---- looking up the latest ----

    /* What the table alone says about a key. */
    ghost predicate IsLookup(row: Option<Row>, key: Key)
      reads this, db
    {
      match row
      case None => forall i :: 0 <= i < |db.rows| ==> db.rows[i].key != key
      case Some(r) => exists i :: 0 <= i < |db.rows| && IsLatest(db.rows, key, i) && r == db.rows[i]
    }

    method LookUp(key: Key) returns (row: Option<Row>)
      ensures IsLookup(row, key) && (row.Some? ==> row.value.key == key)
    {
      row := db.GetLatestReviewWatch(key);
    }

    /** The watch the latest index names, or else the table's latest row of the key: either way the row is the
        one the table would name, and no watch of the key started later. */
    method GetLatest(key: Key) returns (result: LatestWatch)
      requires Valid()
      ensures result.InMemory? <==> exists id :: id in watchesByID && watchesByID[id].key == key
      ensures match result
              case InMemory(watch) =>
                && watch.key == key && key in latestByKey && latestByKey[key] in watchesByID
                && watch == watchesByID[latestByKey[key]].View()
                && IsLatest(db.rows, key, Position(db.rows, watch.id))
                && (!watch.terminal <==> key in activeByKey)
              case InTable(row) => row.key == key && IsLookup(Some(row), key)
              case NoWatch => IsLookup(None, key)
    {
      hide Inv, WatchState.View, View, Position, IsLatest;
      ghost var c := View();
      ViewParts();
      LatestIndexIsTheTablesLatest(cfg, c, key);
      assert forall id :: id in watchesByID ==> c.watches[id].key == watchesByID[id].key by {
        forall id | id in watchesByID ensures c.watches[id].key == watchesByID[id].key {
          Shown(watchesByID[id]);
        }
      }
      if key in latestByKey && latestByKey[key] in watchesByID {
        var w := watchesByID[latestByKey[key]];
        Shown(w);
        ActiveIffLatestLives(cfg, c, key);
        result := InMemory(w.View());
        return;
      }
      var row := LookUp(key);
      result := if row.Some? then InTable(row.value) else NoWatch;
    }

    static lemma ActiveIffLatestLives(cfg: Config, c: Core, key: Key)
      requires Inv(cfg, c) && key in c.latest && c.latest[key] in c.watches && c.watches[c.latest[key]].key == key
      ensures key in c.active <==> !c.watches[c.latest[key]].terminal
    {
      hide WatchesOk, TableAgrees, Ordered, LatestOk, IdsSpent;
      if key in c.active { LiveIsLatest(cfg, c, c.active[key]); }
      assert !c.watches[c.latest[key]].terminal ==> Live(c, c.latest[key]);
    }

    static lemma LatestIndexIsTheTablesLatest(cfg: Config, c: Core, key: Key)
      requires Inv(cfg, c)
      ensures key in c.latest <==> exists id :: id in c.watches && c.watches[id].key == key
      ensures key in c.latest ==>
                && c.latest[key] in c.watches && c.watches[c.latest[key]].key == key
                && IsLatest(c.rows, key, Position(c.rows, c.latest[key]))
    {
      hide WatchesOk, IndexOk, TableAgrees, Ordered, IdsSpent, Position, IsLatest;
      if key in c.latest {
        assert NamesLatest(c, key);
        LatestRowKey(c, key);
        OrderNamesTheLast(c, key, Position(c.rows, c.latest[key]));
      }
    }

    // ---- closing and reopening ----

    static method CloseFields(w: WatchState, now: int)
      modifies w
      ensures w.View() == CloseWatch(old(w.View()), now) && w.terminal
    {
      hide WatchState.View;
      Shown(w);
      w.Settle(Stale, w.failureReason);
      w.Touch(now);
      w.Complete(now);
      w.GoStale(now);
      w.Stop();
      w.NoteError(ManagerClosed);
      Shown(w);
    }

    method CloseLocked(w: WatchState, now: int, fails: bool)
      requires Shape() && w.id in watchesByID && watchesByID[w.id] == w && Constraints(db.rows)
      modifies `activeByKey, `unsaved, db, w
      ensures Shape() && OnlyWatch(w) && activeByKey - {w.key} == old(activeByKey) - {w.key}
      ensures View() == Record(old(View()), CloseWatch(old(w.View()), now), Stale, now, fails).(active := activeByKey)
    {
      hide WatchState.View, View, Record, Constraints, CloseWatch, Upsert, RowOf, Degrade, Saved;
      ghost var c := View();
      ViewParts();
      Shown(w);
      CloseFields(w, now);
      Shown(w);
      ghost var w1 := w.View();
      ViewAfter(w);
      RecordOverwrites(c, w1, w1, Stale, now, fails);
      var _ := PersistOrDegradeLocked(w, Stale, now, fails);
    }

    /* A watch found live under an active key is ended and saved; the key goes either way. */
    method CloseKey(key: Key, now: int, fails: bool)
      requires Shape() && Constraints(db.rows) && key in activeByKey && Live(View(), activeByKey[key])
      requires View().watches[activeByKey[key]].key == key
      modifies `activeByKey, `unsaved, db, watchesByID.Values
      ensures Shape() && watchesByID == old(watchesByID) && activeByKey == old(activeByKey) - {key}
      ensures var c := old(View()); View() == Record(c, CloseWatch(c.watches[c.active[key]], now), Stale, now, fails)
    {
      hide WatchState.View, View, Record, Constraints, CloseWatch, Upsert, RowOf, Degrade, Saved;
      ghost var c := View();
      ViewParts();
      var id := activeByKey[key];
      LivenessOf(id);
      Shown(watchesByID[id]);
      CloseWatchEnds(c.watches[id], now);
      RecordedIndex(c, CloseWatch(c.watches[id], now), Stale, now, fails);
      if id in watchesByID && !watchesByID[id].terminal {
        CloseLocked(watchesByID[id], now, fails);
      }
      label Saved:
      ghost var v := View();
      ViewParts();
      activeByKey := activeByKey - {key};
      SameWatches@Saved(v);
    }

    static lemma CloseWatchEnds(w: Watch, now: int)
      ensures CloseWatch(w, now).terminal && CloseWatch(w, now).key == w.key
    {
    }

    /** Every live watch becomes STALE, in whatever order the active index is visited. Nobody is notified. */
    method Close(now: int, failing: set<WatchId>)
      requires Valid() && clock <= now
      modifies `activeByKey, `closed, `unsaved, `clock, db, watchesByID.Values
      ensures Valid() && watchesByID == old(watchesByID)
      ensures View() == WatchSteps.Close(old(View()), now, failing)
    {
      hide Inv, WatchState.View, View, WatchSteps.Close, Closing, CanClose, Record, Constraints, CloseWatch, Live;
      ghost var c := View();
      ViewParts();
      CloseKeepsInv(cfg, c, now, failing);
      if closed {
        AlreadyClosed(c, now, failing);
        return;
      }
      ClosingBegins(cfg, c, now, failing);
      closed := true;
      clock := now;
      SameWatches(c);
      ghost var done: set<WatchId> := {};
      while activeByKey.Keys != {}
        invariant Shape() && watchesByID == old(watchesByID)
        invariant CanClose(cfg, c, now, failing, done) && View() == Closing(c, now, failing, done)
        decreases activeByKey.Keys
      {
        ViewParts();
        var key :| key in activeByKey.Keys;
        ClosingStep(cfg, c, now, failing, done, key);
        CloseKey(key, now, activeByKey[key] in failing);
        done := done + {c.active[key]};
      }
      ViewParts();
      ClosingEnds(cfg, c, now, failing, done);
    }

    /* After Close has released the lock, each watch's context is cancelled in turn. */
    method CancelContext(id: WatchId)
      requires Valid() && closed && id in watchesByID
      modifies watchesByID[id]
      ensures Valid() && id in old(View()).watches
      ensures var c := old(View()); View() == c.(watches := c.watches[id := c.watches[id].(ctxDone := true)])
    {
      hide Inv, WatchState.View, View, Views;
      ghost var c := View();
      ViewParts();
      WatchRuns.ClosedMeansEnded(cfg, c, id);
      WatchRuns.ContextDoneKeepsInv(cfg, c, id);
      var w := watchesByID[id];
      w.EndContext();
      ViewAfter(w);
    }

    static lemma AlreadyClosed(c: Core, now: int, failing: set<WatchId>)
      requires c.closed
      ensures WatchSteps.Close(c, now, failing) == c
    {
    }
  }

  /** Opening the table after a restart and building a manager on it. */
  method Restart(m: Manager, now: int) returns (m': Manager)
    requires m.Valid() && m.clock < now
    modifies m.db
    ensures m'.Valid() && fresh(m') && m'.db == m.db && m'.cfg == m.cfg && m'.notified == []
    ensures m'.View() == Reopen(old(m.View()), now)
  {
    hide Inv, Manager.View, Constraints, StaleRow;
    m.ViewParts();
    ghost var c := m.View();
    ReopenKeepsInv(m.cfg, c, now);
    m.Constrained(c);
    m.db.MarkActiveReviewWatchesStale(Sec(now), ProcessRestarted);
    assert m.db.rows == Reopen(c, now).rows;
    m' := new Manager(m.db, m.cfg, now);
  }
}
