/** What becomes of the rows of the table: a row that is no longer active is never written again, by this process or a
    later one, and a restart ends the others as stale. */
module WatchRows {
  import opened Prelude
  import opened ReviewStatuses
  import opened WatchTypes
  import opened WatchStore
  import opened WatchSteps
  import opened WatchInvariant
  import opened WatchSections
  import opened WatchRuns
  import opened WatchTheorems
  import opened WatchAccounts
  import opened WatchCauses

  /** Rows keep their place, ID, key and start time; inactive ones stay as they are. */
  ghost predicate EndedRowsStay(rows: seq<Row>, rows': seq<Row>) {
    && |rows| <= |rows'|
    && forall p :: 0 <= p < |rows| ==>
         && rows'[p].id == rows[p].id && rows'[p].key == rows[p].key && rows'[p].startedAt == rows[p].startedAt
         && (!rows[p].isActive ==> rows'[p] == rows[p])
  }

  /** At most the row with this ID is written, and only while it is active. */
  ghost predicate OnlyRow(rows: seq<Row>, rows': seq<Row>, id: WatchId) {
    EndedRowsStay(rows, rows') && |rows'| == |rows| && forall p :: 0 <= p < |rows| && rows[p].id != id ==> rows'[p] == rows[p]
  }

  lemma SaveWrites(c: Core, w: Watch, fails: bool)
    requires TableAgrees(c) && Ordered(c) && Rewrites(c, w)
    ensures OnlyRow(c.rows, Saved(c, w, fails).GetOr(c.rows), w.id)
  {
    hide TableAgrees, Ordered, Upsert, RowOf, Position;
    SavingSucceeds(c, w);
    LiveRow(c, w.id);
    RowIdentity(w);
    MergeIsRow(c.rows[Position(c.rows, w.id)], w);
    assert c.rows[Position(c.rows, w.id)].id == w.id;
  }

  lemma RecordWrites(c: Core, w: Watch, intended: Status, now: int, fails: bool)
    requires TableAgrees(c) && Ordered(c) && Rewrites(c, w)
    ensures OnlyRow(c.rows, Record(c, w, intended, now, fails).rows, w.id)
  {
    hide TableAgrees, Ordered, OnlyRow, Saved, Rewrites;
    SaveWrites(c, w, fails);
  }

  lemma FinishStateWrites(c: Core, id: WatchId, now: int, status: Status, reason: Option<FailureReason>, message: Option<Message>,
                          counted: bool, hint: Option<Hint>, fails: bool)
    requires Live(c, id) ==> Ready(c, id)
    ensures OnlyRow(c.rows, FinishState(c, id, now, status, reason, message, counted, hint, fails).core.rows, id)
  {
    hide TableAgrees, Ordered, Record, OnlyRow;
    NothingWritten(c.rows, id);
    if Live(c, id) {
      var w := c.watches[id];
      RecordWrites(c, Finish(if counted then MarkPolled(w, now) else w.(updatedAt := now), status, reason, now, message, hint), status, now, fails);
    }
  }

  lemma NothingWritten(rows: seq<Row>, id: WatchId)
    ensures OnlyRow(rows, rows, id)
  {
  }

  lemma UpstreamWrites(cfg: Config, c: Core, id: WatchId, now: int, text: string, fails: bool)
    requires Live(c, id) ==> Ready(c, id)
    ensures OnlyRow(c.rows, HandleUpstreamFailure(cfg, c, id, now, text, fails).core.rows, id)
  {
    hide TableAgrees, Ordered, Record, OnlyRow;
    NothingWritten(c.rows, id);
    if Live(c, id) {
      var count := c.watches[id].upstreamFailures + 1;
      var w1 := MarkPolled(c.watches[id].(upstreamFailures := count), now);
      RecordWrites(c, Finish(w1, Failed, Some(AuthExpired), now, Some(UpstreamPersisted(count, text)), Some(UpstreamHint(count))), Failed, now, fails);
      RecordWrites(c, w1.(lastError := Some(Text(text))), Watching, now, fails);
    }
  }

  lemma RecordReviewWrites(c: Core, id: WatchId, now: int, data: ReviewData, entry: Option<TriggerEntry>, completionFails: bool, fails: bool)
    requires Live(c, id) ==> Ready(c, id)
    ensures OnlyRow(c.rows, RecordReview(c, id, now, data, entry, completionFails, fails).core.rows, id)
  {
    hide TableAgrees, Ordered, Record, OnlyRow, FinishState, ReviewOf, Decisive;
    FinishStateWrites(c, id, now, Failed, Some(InternalError), Some(TriggerUpdateFailed), true, None, fails);
    NothingWritten(c.rows, id);
    if Live(c, id) {
      var review := ReviewOf(data, entry);
      var w := MarkPolled(c.watches[id], now).(reviewStatus := Some(review), lastError := None);
      RecordWrites(c, Finish(w.(rateLimitResetAt := data.rateLimitReset), RateLimited, None, now,
                             Some(LowRateLimit(data.rateLimitRemaining, data.rateLimitReset)), None), RateLimited, now, fails);
      RecordWrites(c, Finish(Link(w.(rateLimitResetAt := None), entry), EndStatus(review), None, now, None, None), EndStatus(review), now, fails);
      RecordWrites(c, Link(w.(upstreamFailures := 0, rateLimitResetAt := None, status := Watching, workerRunning := true), entry), Watching, now, fails);
    }
  }

  lemma EndPollWrites(cfg: Config, c: Core, id: WatchId, now: int, outcome: PollOutcome, fails: bool)
    requires Live(c, id) ==> Ready(c, id)
    ensures OnlyRow(c.rows, EndPoll(cfg, c, id, now, outcome, fails).core.rows, id)
  {
    hide OnlyRow, FinishState, RecordReview, HandleUpstreamFailure, Ready;
    match outcome
    case ContextCancelled => NothingWritten(c.rows, id);
    case FetchTimedOut => FinishStateWrites(c, id, now, Failed, Some(GitHubError), Some(PollTimedOut), true, None, fails);
    case FetchRateLimited(text) => FinishStateWrites(c, id, now, RateLimited, None, WatchSteps.Shown(text), true, None, fails);
    case UpstreamFailure(text) => UpstreamWrites(cfg, c, id, now, text, fails);
    case FetchFailed(text, hint) =>
      FinishStateWrites(c, id, now, Failed, Some(if hint.Some? then AuthExpired else GitHubError), WatchSteps.Shown(text), true,
                        if hint.Some? then Some(AuthHint(hint.value)) else None, fails);
    case TriggerUnreadable => FinishStateWrites(c, id, now, Failed, Some(InternalError), Some(TriggerReadFailed), true, None, fails);
    case Reviewed(data, entry, completionFails) => RecordReviewWrites(c, id, now, data, entry, completionFails, fails);
  }

  lemma CancelWrites(cfg: Config, c: Core, id: WatchId, now: int, fails: bool)
    requires Inv(cfg, c) && Live(c, id) && c.clock <= now
    ensures OnlyRow(c.rows, Cancel(c, id, now, fails).rows, id)
  {
    hide Inv, Record, Finish, Ready, OnlyRow;
    ReadyWhenLive(cfg, c, id);
    ReadyLater(c, now, id);
    ReadyParts(c.(clock := now), id);
    FinishRewrites(c.(clock := now), c.watches[id], Cancelled, None, now, Some(CancelledManually), None);
    RecordWrites(c.(clock := now), Finish(c.watches[id], Cancelled, None, now, Some(CancelledManually), None), Cancelled, now, fails);
  }

  lemma FinishRewrites(c: Core, w: Watch, status: Status, reason: Option<FailureReason>, now: int, message: Option<Message>, hint: Option<Hint>)
    requires Rewrites(c, w)
    ensures Rewrites(c, Finish(w, status, reason, now, message, hint)) && Finish(w, status, reason, now, message, hint).id == w.id
  {
  }

  lemma PanicWrites(cfg: Config, c: Core, id: WatchId, now: int, message: Message, fails: bool)
    requires Inv(cfg, c) && id in c.watches && c.clock <= now
    ensures OnlyRow(c.rows, MarkStale(c, id, now, message, fails).core.rows, id)
  {
    hide Inv, Record, Finish, Ready, OnlyRow;
    NothingWritten(c.rows, id);
    if Live(c, id) {
      ReadyWhenLive(cfg, c, id);
      ReadyLater(c, now, id);
      ReadyParts(c.(clock := now), id);
      FinishRewrites(c.(clock := now), c.watches[id], Stale, None, now, Some(message), None);
      RecordWrites(c.(clock := now), Finish(c.watches[id], Stale, None, now, Some(message), None), Stale, now, fails);
    }
  }

  lemma StartWrites(cfg: Config, c: Core, input: StartInput, trigger: Option<int>, now: int, idNow: int, fails: bool)
    requires Inv(cfg, c) && c.clock <= now <= idNow
    ensures EndedRowsStay(c.rows, Start(c, input, trigger, now, idNow, fails).0.rows)
  {
    hide WatchesOk, IndexOk, TableAgrees, Ordered, LatestOk, IdsSpent, RowOf, Reuse, Launch, EndedRowsStay;
    NothingWritten(c.rows, WatchId(0, 0));
    OnlyRowStays(c.rows, c.rows, WatchId(0, 0));
    var c1 := c.(clock := idNow);
    if StartReuses(c, input.key) {
      LiveIsPlain(cfg, c, c.active[input.key]);
      ReuseWrites(c, c1, input, trigger, now, fails);
    } else {
      LaunchWrites(c, input, trigger, now, idNow, fails);
    }
  }

  lemma OnlyRowStays(rows: seq<Row>, rows': seq<Row>, id: WatchId)
    requires OnlyRow(rows, rows', id)
    ensures EndedRowsStay(rows, rows')
  {
  }

  lemma ReuseWrites(c: Core, c1: Core, input: StartInput, trigger: Option<int>, now: int, fails: bool)
    requires TableAgrees(c) && Ordered(c) && StartReuses(c, input.key) && c1 == c.(clock := c1.clock)
    requires c.watches[c.active[input.key]].id == c.active[input.key]
    ensures EndedRowsStay(c.rows, Reuse(c1, input, trigger, now, fails).0.rows)
  {
    hide TableAgrees, Ordered, Saved, OnlyRow, EndedRowsStay;
    var w := c.watches[c.active[input.key]];
    NothingWritten(c.rows, w.id);
    OnlyRowStays(c.rows, c.rows, w.id);
    var w' := Refreshed(w, input, trigger, now);
    SaveWrites(c, w', fails);
    OnlyRowStays(c.rows, Saved(c, w', fails).GetOr(c.rows), w.id);
    SavedAgain(c, c1, w', fails);
  }

  lemma SavedAgain(c: Core, c1: Core, w: Watch, fails: bool)
    requires c1 == c.(clock := c1.clock)
    ensures Saved(c1, w, fails) == Saved(c, w, fails)
  {
  }

  lemma LaunchWrites(c: Core, input: StartInput, trigger: Option<int>, now: int, idNow: int, fails: bool)
    requires TableAgrees(c) && IdsSpent(c) && c.clock <= idNow
    ensures EndedRowsStay(c.rows, Launch(c.(clock := idNow), input, trigger, now, idNow, fails).0.rows)
  {
    hide TableAgrees, IdsSpent, RowOf;
    LaunchBlocked(c, input, trigger, now, idNow);
    RowIdentity(NewWatch(WatchId(idNow, c.idSeq + 1), input, trigger, now));
  }

  lemma CloseWrites(cfg: Config, c: Core, now: int, failing: set<WatchId>)
    requires Inv(cfg, c)
    ensures EndedRowsStay(c.rows, Close(c, now, failing).rows)
  {
    hide IndexOk, Ordered, LatestOk, IdsSpent, Constraints;
    forall p | 0 <= p < |c.rows| && Live(c, c.rows[p].id) ensures c.rows[p].isActive && c.watches[c.rows[p].id].id == c.rows[p].id {
      var id := c.rows[p].id;
      LiveIsPlain(cfg, c, id);
      ActiveRowOfLive(c, p);
    }
  }

  lemma ActiveRowOfLive(c: Core, p: nat)
    requires TableAgrees(c) && p < |c.rows| && Live(c, c.rows[p].id)
    ensures c.rows[p].isActive
  {
    hide RowOf;
    PositionOf(c.rows, p);
    assert RowAgrees(c, c.rows[p].id);
    RowIdentity(c.watches[c.rows[p].id]);
  }

  lemma StepWrites(cfg: Config, s: Sys, e: Event)
    requires ValidConfig(cfg) && SysInv(cfg, s) && Enabled(s, e)
    ensures EndedRowsStay(s.core.rows, Step(cfg, s, e).core.rows)
  {
    hide Inv, WorkersOk, Start, Cancel, Close, MarkStale, EndPoll, FinishState, EndedRowsStay, OnlyRow;
    var c, rows' := s.core, Step(cfg, s, e).core.rows;
    NothingWritten(c.rows, WatchId(0, 0));
    OnlyRowStays(c.rows, c.rows, WatchId(0, 0));
    match e
    case StartEvent(input, trigger, now, idNow, fails) => StartWrites(cfg, c, input, trigger, now, idNow, fails);
    case CancelByIDEvent(login, id, now, fails) =>
      if Live(c, id) {
        CancelWrites(cfg, c, id, now, fails);
        OnlyRowStays(c.rows, Cancel(c, id, now, fails).rows, id);
      }
    case CancelLatestEvent(key, now, fails) =>
      if key in c.active && Live(c, c.active[key]) {
        CancelWrites(cfg, c, c.active[key], now, fails);
        OnlyRowStays(c.rows, Cancel(c, c.active[key], now, fails).rows, c.active[key]);
      }
    case CloseEvent(now, failing) => CloseWrites(cfg, c, now, failing);
    case PollEndEvent(id, fails) =>
      PollEndWrites(cfg, s, id, fails);
      OnlyRowStays(c.rows, rows', id);
    case PanicEvent(id, now, text, fails) =>
      WorkerWatched(cfg, s, id);
      PanicWrites(cfg, c, id, now, Text(text), fails);
      OnlyRowStays(c.rows, rows', id);
    case RestartEvent(now) => RestartWrites(c, now);
    case _ =>
  }

  lemma PollEndWrites(cfg: Config, s: Sys, id: WatchId, fails: bool)
    requires SysInv(cfg, s) && id in s.workers && (s.workers[id].GivingUp? || s.workers[id].Returned?)
    ensures OnlyRow(s.core.rows, PollEnd(cfg, s, id, fails).core.rows, id)
  {
    hide Inv, WorkersOk, EndPoll, FinishState, OnlyRow, Ready;
    var c := s.core;
    if Live(c, id) { ReadyWhenLive(cfg, c, id); }
    match s.workers[id]
    case GivingUp(at, clientless) =>
      FinishStateWrites(c, id, at, Failed, Some(InternalError), Some(ClientUnavailable), false, None, fails);
      FinishStateWrites(c, id, at, TimedOut, None, Some(MaxDurationExceeded), false, None, fails);
    case Returned(at, outcome) => EndPollWrites(cfg, c, id, at, outcome, fails);
    case _ =>
  }

  lemma RestartWrites(c: Core, now: int)
    ensures EndedRowsStay(c.rows, Reopen(c, now).rows)
  {
  }

  /** A row that is no longer active is the same for good, restarts included. */
  lemma {:induction false} EndedRowIsFrozen(r: Run, i: nat, j: nat, p: nat)
    requires IsRun(r) && i <= j < |r.states| && p < |r.states[i].core.rows| && !r.states[i].core.rows[p].isActive
    ensures p < |r.states[j].core.rows| && r.states[j].core.rows[p] == r.states[i].core.rows[p]
    decreases j
  {
    hide SysInv, Step, Enabled;
    if i < j {
      EndedRowIsFrozen(r, i, j - 1, p);
      RunKeepsInv(r, j - 1);
      assert Stepped(r, j - 1);
      StepWrites(r.cfg, r.states[j - 1], r.events[j - 1]);
    }
  }

  // ---- what a restart leaves ----

  /** A row as a restart leaves it: the inactive ones as they were; an active one is stale, ended at the restart, with the
      times and the error it may have had before, and otherwise as it was. */
  predicate LeftByRestart(before: Row, after: Row, now: int) {
    if !before.isActive then after == before
    else
      && after.id == before.id && after.key == before.key && after.trigger == before.trigger
      && after.reviewStatus == before.reviewStatus && after.rateLimitResetAt == before.rateLimitResetAt
      && after.recoveryHint == before.recoveryHint && after.startedAt == before.startedAt
      && after.status == Stale && after.failureReason.None? && !after.isActive && InSeconds(after.updatedAt, now)
      && after.completedAt.Some? && after.staleAt.Some?
      && (if before.completedAt.Some? then after.completedAt == before.completedAt else after.completedAt == Some(after.updatedAt))
      && (if before.staleAt.Some? then after.staleAt == before.staleAt else after.staleAt == Some(after.updatedAt))
      && after.lastError == (if before.lastError.None? || before.lastError == Some(Text("")) then Some(ProcessRestarted) else before.lastError)
  }

  /** After a restart memory is empty and the table is as it was but for rows left active. */
  lemma RestartLeaves(r: Run, i: nat)
    requires IsRun(r) && i < |r.events| && r.events[i].RestartEvent?
    ensures r.states[i + 1].core.watches == map[] && r.states[i + 1].workers == map[]
    ensures var rows, rows' := r.states[i].core.rows, r.states[i + 1].core.rows;
            |rows'| == |rows| && forall p :: 0 <= p < |rows| ==> LeftByRestart(rows[p], rows'[p], r.events[i].now)
  {
    hide Enabled;
    assert Stepped(r, i);
  }

  /** Once a watch shows COMPLETED or BLOCKED, its row says so in every later state, in this process and after restarts. */
  lemma ReviewSurvives(r: Run, id: WatchId, n: nat, m: nat)
    requires IsRun(r) && n <= m <= |r.events| && id in r.states[n].core.watches
    requires r.states[n].core.watches[id].status in {Completed, Blocked}
    ensures exists p :: 0 <= p < |r.states[m].core.rows| && r.states[m].core.rows[p].id == id
                        && Tells(r.states[m].core.rows[p], r.states[n].core.watches[id])
  {
    hide SysInv, Step, Enabled, Init, IsRun, Tells, FoundReview, Polled, StartsFetch, Position;
    RunLengths(r);
    var j, k, i := CompletedMeansReviewFound(r, id, n);
    EndedStatus(r, id, n);
    var c := r.states[n].core;
    var p := Position(c.rows, id);
    ToldEnded(c.rows[p], c.watches[id]);
    EndedRowIsFrozen(r, n, m, p);
    assert c.rows[p].id == id;
  }

  lemma ToldEnded(row: Row, w: Watch)
    requires Tells(row, w) && w.terminal
    ensures !row.isActive && row.id == w.id
  {
  }
}
