/** The manager's lock sections as functions from state to state. Each takes the times it reads and whether
    its upsert fails; the class in WatchManager carries them out in place. */
module WatchSteps {
  import opened Prelude
  import opened ReviewStatuses
  import opened WatchTypes
  import opened WatchStore

  /** What the manager and its table hold. `clock` is the latest time read, `epoch` the time the process
      started, `unsaved` the watches whose last upsert failed. */
  datatype Core = Core(
    watches: map<WatchId, Watch>,
    active: map<Key, WatchId>,
    latest: map<Key, WatchId>,
    closed: bool,
    idSeq: nat,
    rows: seq<Row>,
    clock: int,
    epoch: int,
    unsaved: set<WatchId>)

  predicate Live(c: Core, id: WatchId) { id in c.watches && !c.watches[id].terminal }

  // ---- persisting and finishing ----

  /* persistLocked: the rows after saving w, or None when the upsert fails. */
  function Saved(c: Core, w: Watch, fails: bool): Option<seq<Row>> {
    if fails then None else Upsert(c.rows, RowOf(w))
  }

  function MarkPolled(w: Watch, now: int): Watch {
    w.(pollsDone := w.pollsDone + 1, updatedAt := now, lastPolledAt := Some(now))
  }

  /* finishLocked, up to the removal from the active index. */
  function Finish(w: Watch, status: Status, reason: Option<FailureReason>, now: int, message: Option<Message>,
                  hint: Option<Hint>): Watch {
    w.(status := status, failureReason := reason, recoveryHint := hint, terminal := true, workerRunning := false,
       updatedAt := now, completedAt := Some(now), staleAt := if status == Stale then Some(now) else w.staleAt,
       token := "", hasClient := false, ctxDone := true, lastError := if message.Some? then message else w.lastError)
  }

  /* What persistOrDegradeLocked makes of a watch it could not save. */
  function Degrade(w: Watch, intended: Status, now: int): Watch {
    var d := w.(updatedAt := now, completedAt := Some(w.completedAt.GetOr(now)),
                lastError := Some(PersistFailed(intended)), terminal := true, workerRunning := false, token := "",
                hasClient := false, ctxDone := true);
    if intended == Stale then d.(status := Stale, failureReason := None, staleAt := Some(w.staleAt.GetOr(now)))
    else d.(status := Failed, failureReason := Some(InternalError))
  }

  /* Put a watch in memory, save it, and degrade it when saving fails. */
  function Record(c: Core, w: Watch, intended: Status, now: int, fails: bool): Core {
    var saved := Saved(c, w, fails);
    var kept := if saved.Some? then w else Degrade(w, intended, now);
    c.(watches := c.watches[w.id := kept],
       active := if kept.terminal then c.active - {w.key} else c.active,
       rows := saved.GetOr(c.rows),
       unsaved := if saved.Some? then c.unsaved - {w.id} else c.unsaved + {w.id})
  }

  // ---- starting ----

  datatype StartResult = InvalidInput | ClosedError | PersistError | Reused(watch: Watch) | Started(watch: Watch)

  function NewWatch(id: WatchId, input: StartInput, trigger: Option<int>, now: int): Watch {
    Watch(id, input.key, trigger, input.token, true, false, Watching, None, None, false, true, 0, now, now,
          None, None, None, None, None, 0, None)
  }

  /* New credentials replace the client and start a fresh upstream-failure budget. */
  function Refreshed(w: Watch, input: StartInput, trigger: Option<int>, now: int): Watch {
    var tokenChanged := w.token != input.token;
    var triggerLinked := w.trigger.None? && trigger.Some?;
    var w1 := if tokenChanged || triggerLinked then w.(updatedAt := now) else w;
    var w2 := if tokenChanged then
                w1.(token := input.token, hasClient := true, upstreamFailures := 0, lastError := None, recoveryHint := None)
              else w1;
    if triggerLinked then w2.(trigger := trigger) else w2
  }

  predicate StartReuses(c: Core, key: Key) {
    key in c.active && Live(c, c.active[key])
  }

  function Reuse(c: Core, input: StartInput, trigger: Option<int>, now: int, fails: bool): (Core, StartResult)
    requires StartReuses(c, input.key)
  {
    var w := c.watches[c.active[input.key]];
    var w' := Refreshed(w, input, trigger, now);
    if w' == w then (c, Reused(w))
    else
      var saved := Saved(c, w', fails);
      var c' := c.(watches := c.watches[c.active[input.key] := w'], rows := saved.GetOr(c.rows),
                   unsaved := if saved.Some? then c.unsaved - {w.id} else c.unsaved + {w.id});
      (c', if saved.Some? then Reused(w') else PersistError)
  }

  function Launch(c: Core, input: StartInput, trigger: Option<int>, now: int, idNow: int, fails: bool): (Core, StartResult) {
    var id := WatchId(idNow, c.idSeq + 1);
    var w := NewWatch(id, input, trigger, now);
    var saved := Saved(c, w, fails);
    var c1 := c.(idSeq := c.idSeq + 1, active := c.active - {input.key});
    if saved.None? then (c1, PersistError)
    else (c1.(watches := c1.watches[id := w], active := c1.active[input.key := id], latest := c1.latest[input.key := id],
              rows := saved.value, unsaved := c1.unsaved - {id}),
          Started(w))
  }

  /* Start's lock section; `now` and `idNow` are its two readings of the clock. */
  function Start(c: Core, input: StartInput, trigger: Option<int>, now: int, idNow: int, fails: bool): (Core, StartResult) {
    if !ValidKey(input.key) || input.token == "" then (c, InvalidInput)
    else
      var c' := c.(clock := idNow);
      if c.closed then (c', ClosedError)
      else if StartReuses(c, input.key) then Reuse(c', input, trigger, now, fails)
      else Launch(c', input, trigger, now, idNow, fails)
  }

  // ---- cancelling and closing ----

  function Cancel(c: Core, id: WatchId, now: int, fails: bool): Core
    requires id in c.watches
  {
    Record(c.(clock := now), Finish(c.watches[id], Cancelled, None, now, Some(CancelledManually), None), Cancelled, now, fails)
  }

  datatype CancelResult = NotFound | Refused | FoundTerminal(watch: Watch) | DidCancel(watch: Watch) | FromTable(row: Row)

  function CancelByID(c: Core, login: string, id: WatchId, now: int, fails: bool): (Core, CancelResult) {
    if login == "" then (c, Refused)
    else if id in c.watches then
      if c.watches[id].key.login != login then (c, NotFound)
      else if c.watches[id].terminal then (c, FoundTerminal(c.watches[id]))
      else var c' := Cancel(c, id, now, fails); (c', DidCancel(c'.watches[id]))
    else
      var p := Position(c.rows, id);
      (c, if p < |c.rows| && c.rows[p].key.login == login then FromTable(c.rows[p]) else NotFound)
  }

  /* Without a watch in memory the answer comes from the table: GetLatestReviewWatch, not repeated here. */
  function CancelLatest(c: Core, key: Key, now: int, fails: bool): (Core, CancelResult) {
    if !ValidKey(key) then (c, Refused)
    else if key in c.active && c.active[key] in c.watches then
      var id := c.active[key];
      if c.watches[id].terminal then (c, FoundTerminal(c.watches[id]))
      else var c' := Cancel(c, id, now, fails); (c', DidCancel(c'.watches[id]))
    else
      var c' := c.(active := c.active - {key});
      (c', if key in c.latest && c.latest[key] in c.watches then FoundTerminal(c.watches[c.latest[key]]) else NotFound)
  }

  function CloseWatch(w: Watch, now: int): Watch {
    w.(status := Stale, terminal := true, workerRunning := false, updatedAt := now, completedAt := Some(now),
       staleAt := Some(now), token := "", hasClient := false, lastError := Some(ManagerClosed))
  }

  function CloseOne(w: Watch, now: int, fails: bool): Watch {
    if fails then Degrade(CloseWatch(w, now), Stale, now) else CloseWatch(w, now)
  }

  /* Close, whatever the order in which it visits the active index: every live watch becomes STALE and its
     row is rewritten unless its upsert is among the failing ones. */
  function Close(c: Core, now: int, failing: set<WatchId>): Core {
    if c.closed then c
    else c.(
      closed := true, clock := now, active := map[],
      watches := map id | id in c.watches ::
        if Live(c, id) then CloseOne(c.watches[id], now, id in failing) else c.watches[id],
      rows := seq(|c.rows|, i requires 0 <= i < |c.rows| =>
        var id := c.rows[i].id;
        if Live(c, id) && id !in failing then Merge(c.rows[i], RowOf(CloseWatch(c.watches[id], now))) else c.rows[i]),
      unsaved := (set id | id in c.unsaved && !Live(c, id)) + set id | id in c.watches && Live(c, id) && id in failing)
  }

  // ---- polling ----

  datatype PollStart = WatchGone | DeadlinePassed | NoClient | Fetch

  function BeginPoll(cfg: Config, c: Core, id: WatchId, now: int): PollStart {
    if id !in c.watches then WatchGone
    else if now - c.watches[id].startedAt >= cfg.maxDuration then DeadlinePassed
    else if !c.watches[id].hasClient then NoClient
    else Fetch
  }

  /* A section's new state, whether the worker stops, and whether subscribers are notified. */
  datatype Section = Section(core: Core, stop: bool, notify: bool)

  function FinishState(c: Core, id: WatchId, now: int, status: Status, reason: Option<FailureReason>, message: Option<Message>,
                       counted: bool, hint: Option<Hint>, fails: bool): Section {
    if !Live(c, id) then Section(c, true, false)
    else
      var w := c.watches[id];
      var w1 := if counted then MarkPolled(w, now) else w.(updatedAt := now);
      Section(Record(c, Finish(w1, status, reason, now, message, hint), status, now, fails), true, true)
  }

  /* An empty error text leaves the last error as it was. */
  function Shown(text: string): Option<Message> { if text == "" then None else Some(Text(text)) }

  function MarkStale(c: Core, id: WatchId, now: int, message: Message, fails: bool): Section {
    if !Live(c, id) then Section(c.(clock := now), true, false)
    else Section(Record(c.(clock := now), Finish(c.watches[id], Stale, None, now, Some(message), None), Stale, now, fails),
                 true, true)
  }

  function HandleUpstreamFailure(cfg: Config, c: Core, id: WatchId, now: int, text: string, fails: bool): Section {
    if !Live(c, id) then Section(c, true, false)
    else
      var w := c.watches[id];
      var count := w.upstreamFailures + 1;
      var w1 := MarkPolled(w.(upstreamFailures := count), now);
      if count >= cfg.threshold then
        var w2 := Finish(w1, Failed, Some(AuthExpired), now, Some(UpstreamPersisted(count, text)), Some(UpstreamHint(count)));
        Section(Record(c, w2, Failed, now, fails), true, true)
      else
        var c' := Record(c, w1.(lastError := Some(Text(text))), Watching, now, fails);
        Section(c', !Live(c', id), !Live(c', id))
  }

  /* The status a review ends a watch with. */
  function EndStatus(s: ReviewStatus): Status { if s == ReviewBlocked then Blocked else Completed }

  function Link(w: Watch, entry: Option<TriggerEntry>): Watch {
    if w.trigger.None? && entry.Some? then w.(trigger := Some(entry.value.id)) else w
  }

  /* The poll used up the request budget: the watch ends, whatever the review says. */
  function EndOnLowRate(c: Core, id: WatchId, now: int, data: ReviewData, review: ReviewStatus, fails: bool): Section {
    if !Live(c, id) then Section(c, true, false)
    else
      var w := MarkPolled(c.watches[id], now).(reviewStatus := Some(review), lastError := None, rateLimitResetAt := data.rateLimitReset);
      var message := LowRateLimit(data.rateLimitRemaining, data.rateLimitReset);
      Section(Record(c, Finish(w, RateLimited, None, now, Some(message), None), RateLimited, now, fails), true, true)
  }

  function EndOnReview(c: Core, id: WatchId, now: int, review: ReviewStatus, entry: Option<TriggerEntry>, fails: bool): Section {
    if !Live(c, id) then Section(c, true, false)
    else
      var w := MarkPolled(c.watches[id], now).(reviewStatus := Some(review), lastError := None, rateLimitResetAt := None);
      Section(Record(c, Finish(Link(w, entry), EndStatus(review), None, now, None, None), EndStatus(review), now, fails), true, true)
  }

  function KeepWatching(c: Core, id: WatchId, now: int, review: ReviewStatus, entry: Option<TriggerEntry>, fails: bool): Section {
    if !Live(c, id) then Section(c, true, false)
    else
      var w := MarkPolled(c.watches[id], now).(reviewStatus := Some(review), lastError := None, upstreamFailures := 0,
                                               rateLimitResetAt := None, status := Watching, workerRunning := true);
      var c' := Record(c, Link(w, entry), Watching, now, fails);
      Section(c', !Live(c', id), !Live(c', id) || c.watches[id].reviewStatus != Some(review))
  }

  function ReviewOf(data: ReviewData, entry: Option<TriggerEntry>): ReviewStatus {
    match entry
    case None => DeriveStatus(data, None, None)
    case Some(e) => DeriveStatus(data, Some(e.requestedAt), e.prevReviewId)
  }

  function RecordReview(c: Core, id: WatchId, now: int, data: ReviewData, entry: Option<TriggerEntry>,
                        completionFails: bool, fails: bool): Section {
    var review := ReviewOf(data, entry);
    if data.rateLimitRemaining < 10 then EndOnLowRate(c, id, now, data, review, fails)
    else if Decisive(review) then
      if entry.Some? && entry.value.completedAt.None? && completionFails then
        FinishState(c, id, now, Failed, Some(InternalError), Some(TriggerUpdateFailed), true, None, fails)
      else EndOnReview(c, id, now, review, entry, fails)
    else KeepWatching(c, id, now, review, entry, fails)
  }

  /* The section that ends a poll whose fetch returned at time `now`. */
  function EndPoll(cfg: Config, c: Core, id: WatchId, now: int, outcome: PollOutcome, fails: bool): Section {
    match outcome
    case ContextCancelled => Section(c, true, false)
    case FetchTimedOut => FinishState(c, id, now, Failed, Some(GitHubError), Some(PollTimedOut), true, None, fails)
    case FetchRateLimited(text) => FinishState(c, id, now, RateLimited, None, Shown(text), true, None, fails)
    case UpstreamFailure(text) => HandleUpstreamFailure(cfg, c, id, now, text, fails)
    case FetchFailed(text, hint) =>
      FinishState(c, id, now, Failed, Some(if hint.Some? then AuthExpired else GitHubError), Shown(text), true,
                  if hint.Some? then Some(AuthHint(hint.value)) else None, fails)
    case TriggerUnreadable => FinishState(c, id, now, Failed, Some(InternalError), Some(TriggerReadFailed), true, None, fails)
    case Reviewed(data, entry, completionFails) => RecordReview(c, id, now, data, entry, completionFails, fails)
  }

  function GiveUp(c: Core, id: WatchId, now: int, clientless: bool, fails: bool): Section {
    if clientless then FinishState(c, id, now, Failed, Some(InternalError), Some(ClientUnavailable), false, None, fails)
    else FinishState(c, id, now, TimedOut, None, Some(MaxDurationExceeded), false, None, fails)
  }

  // ---- restarting ----

  /* A new process on the same table: memory is gone and rows left active are marked stale. */
  function Reopen(c: Core, now: int): Core {
    Core(map[], map[], map[], false, 0,
         seq(|c.rows|, i requires 0 <= i < |c.rows| => StaleRow(c.rows[i], Sec(now), ProcessRestarted)), now, now, {})
  }
}
