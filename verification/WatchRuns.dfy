/** Whole runs of the manager: starts, cancellations, polling workers, closing, panics and restarts in any
    interleaving of their lock sections, with any upserts failing. */
module WatchRuns {
  import opened Prelude
  import opened ReviewStatuses
  import opened WatchTypes
  import opened WatchStore
  import opened WatchSteps
  import opened WatchInvariant
  import opened WatchSections

  /** Where a watch's worker is between two lock sections. */
  datatype Worker =
    | Idle
    | GivingUp(at: int, clientless: bool)
    | Fetching
    | Returned(at: int, outcome: PollOutcome)
    | Stopped

  datatype Sys = Sys(core: Core, workers: map<WatchId, Worker>)

  datatype Event =
    | StartEvent(input: StartInput, trigger: Option<int>, now: int, idNow: int, fails: bool)
    | CancelByIDEvent(login: string, id: WatchId, now: int, fails: bool)
    | CancelLatestEvent(key: Key, now: int, fails: bool)
    | CloseEvent(now: int, failing: set<WatchId>)
    | ContextDoneEvent(id: WatchId)
    | PollBeginEvent(id: WatchId, now: int)
    | FetchReturnsEvent(id: WatchId, now: int, outcome: PollOutcome)
    | PollEndEvent(id: WatchId, fails: bool)
    | WorkerExitEvent(id: WatchId)
    | PanicEvent(id: WatchId, now: int, text: string, fails: bool)
    | RestartEvent(now: int)

  ghost predicate Enabled(s: Sys, e: Event) {
    var c := s.core;
    match e
    case StartEvent(_, _, now, idNow, _) => c.clock <= now <= idNow
    case CancelByIDEvent(_, _, now, _) => c.clock <= now
    case CancelLatestEvent(_, now, _) => c.clock <= now
    case CloseEvent(now, _) => c.clock <= now
    case ContextDoneEvent(id) => c.closed && id in c.watches
    case PollBeginEvent(id, now) => id in s.workers && s.workers[id] == Idle && c.clock <= now
    case FetchReturnsEvent(id, now, outcome) =>
      && id in s.workers && s.workers[id] == Fetching && c.clock <= now
      && (outcome == ContextCancelled ==> id in c.watches && c.watches[id].ctxDone)
    case PollEndEvent(id, _) => id in s.workers && (s.workers[id].GivingUp? || s.workers[id].Returned?)
    case WorkerExitEvent(id) => id in s.workers && s.workers[id] == Idle && id in c.watches && c.watches[id].ctxDone
    case PanicEvent(id, now, _, _) => id in s.workers && s.workers[id] != Stopped && c.clock <= now
    case RestartEvent(now) => c.clock < now
  }

  ghost function PollEnd(cfg: Config, s: Sys, id: WatchId, fails: bool): Section
    requires id in s.workers && (s.workers[id].GivingUp? || s.workers[id].Returned?)
  {
    match s.workers[id]
    case GivingUp(at, clientless) => GiveUp(s.core, id, at, clientless, fails)
    case Returned(at, outcome) => EndPoll(cfg, s.core, id, at, outcome, fails)
  }

  ghost function AfterBegin(start: PollStart, now: int): Worker {
    match start
    case WatchGone => Stopped
    case DeadlinePassed => GivingUp(now, false)
    case NoClient => GivingUp(now, true)
    case Fetch => Fetching
  }

  ghost function Step(cfg: Config, s: Sys, e: Event): Sys
    requires Enabled(s, e)
  {
    var c := s.core;
    match e
    case StartEvent(input, trigger, now, idNow, fails) =>
      var (c', result) := Start(c, input, trigger, now, idNow, fails);
      Sys(c', if result.Started? then s.workers[result.watch.id := Idle] else s.workers)
    case CancelByIDEvent(login, id, now, fails) => s.(core := CancelByID(c, login, id, now, fails).0)
    case CancelLatestEvent(key, now, fails) => s.(core := CancelLatest(c, key, now, fails).0)
    case CloseEvent(now, failing) => s.(core := Close(c, now, failing))
    case ContextDoneEvent(id) => s.(core := c.(watches := c.watches[id := c.watches[id].(ctxDone := true)]))
    case PollBeginEvent(id, now) =>
      Sys(c.(clock := now), s.workers[id := AfterBegin(BeginPoll(cfg, c, id, now), now)])
    case FetchReturnsEvent(id, now, outcome) => Sys(c.(clock := now), s.workers[id := Returned(now, outcome)])
    case PollEndEvent(id, fails) =>
      var section := PollEnd(cfg, s, id, fails);
      Sys(section.core, s.workers[id := if section.stop then Stopped else Idle])
    case WorkerExitEvent(id) => s.(workers := s.workers[id := Stopped])
    case PanicEvent(id, now, text, fails) =>
      Sys(MarkStale(c, id, now, Text(text), fails).core, s.workers[id := Stopped])
    case RestartEvent(now) => Sys(Reopen(c, now), map[])
  }

  /* The watch whose subscribers the step notifies. */
  ghost function Notified(cfg: Config, s: Sys, e: Event): Option<WatchId>
    requires Enabled(s, e)
  {
    match e
    case CancelByIDEvent(login, id, now, fails) =>
      if CancelByID(s.core, login, id, now, fails).1.DidCancel? then Some(id) else None
    case CancelLatestEvent(key, now, fails) =>
      if CancelLatest(s.core, key, now, fails).1.DidCancel? then Some(s.core.active[key]) else None
    case PollEndEvent(id, fails) => if PollEnd(cfg, s, id, fails).notify then Some(id) else None
    case PanicEvent(id, now, text, fails) => if MarkStale(s.core, id, now, Text(text), fails).notify then Some(id) else None
    case _ => None
  }

  // ---- the invariant of the whole system ----

  ghost predicate WorkerOk(s: Sys, id: WatchId)
    requires id in s.workers
  {
    id in s.core.watches &&
    match s.workers[id]
    case Idle => true
    case GivingUp(at, clientless) => Timely(s.core, id, at)
    case Fetching => true
    case Returned(at, outcome) => Timely(s.core, id, at) && (outcome == ContextCancelled ==> s.core.watches[id].terminal)
    case Stopped => s.core.watches[id].terminal
  }

  ghost predicate WorkersOk(s: Sys) {
    && s.workers.Keys == s.core.watches.Keys
    && forall id :: id in s.workers ==> WorkerOk(s, id)
  }

  ghost predicate SysInv(cfg: Config, s: Sys) { Inv(cfg, s.core) && WorkersOk(s) }

  ghost predicate Init(s: Sys) {
    s == Sys(Core(map[], map[], map[], false, 0, [], s.core.clock, s.core.clock, {}), map[])
  }

  /* An ended watch shows the same for good; only its context may still be cancelled. */
  ghost predicate Frozen(w: Watch, w': Watch) { w' == w.(ctxDone := w'.ctxDone) }

  ghost predicate SameIdentity(w: Watch, w': Watch) { w'.id == w.id && w'.key == w.key && w'.startedAt == w.startedAt }

  // ---- what one step does to one watch ----

  /* Every watch but the one worked on stays as it is; ended watches are never worked on. */
  ghost predicate Touches(c: Core, c': Core, id: WatchId) {
    && (forall x :: x in c.watches && (x != id || !Live(c, x)) ==> x in c'.watches && c'.watches[x] == c.watches[x])
    && (id in c.watches ==> id in c'.watches && SameIdentity(c.watches[id], c'.watches[id]))
    && c'.watches.Keys == c.watches.Keys
  }

  ghost predicate Rewrote(c: Core, c': Core, id: WatchId) {
    Touches(c, c', id) && c'.clock == c.clock && c'.epoch == c.epoch
  }

  lemma RecordTouches(c: Core, w: Watch, intended: Status, now: int, fails: bool)
    requires Rewrites(c, w) && w.id == c.watches[w.id].id
    ensures Rewrote(c, Record(c, w, intended, now, fails), w.id) && w.id in Record(c, w, intended, now, fails).watches
    ensures var w' := Record(c, w, intended, now, fails).watches[w.id];
            && w'.upstreamFailures == w.upstreamFailures && w'.reviewStatus == w.reviewStatus
            && (if w.terminal || fails then w'.terminal else !w'.terminal ==> w' == w)
  {
    hide Upsert, RowOf;
  }

  /* Recording the end of a live watch leaves it ended. */
  lemma FinishTouches(c: Core, w: Watch, status: Status, reason: Option<FailureReason>, now: int, message: Option<Message>,
                      hint: Option<Hint>, fails: bool)
    requires Rewrites(c, w) && w.id == c.watches[w.id].id
    ensures var c' := Record(c, Finish(w, status, reason, now, message, hint), status, now, fails);
            Rewrote(c, c', w.id) && w.id in c'.watches && !Live(c', w.id) && c'.watches[w.id].upstreamFailures == w.upstreamFailures
  {
    hide Record;
    RecordTouches(c, Finish(w, status, reason, now, message, hint), status, now, fails);
  }

  lemma FinishStateTouches(c: Core, id: WatchId, now: int, status: Status, reason: Option<FailureReason>,
                           message: Option<Message>, counted: bool, hint: Option<Hint>, fails: bool)
    requires id in c.watches && c.watches[id].id == id
    ensures EndsWatch(c, id, FinishState(c, id, now, status, reason, message, counted, hint, fails))
  {
    hide Record, Finish, Rewrote;
    NothingTouched(c, id);
    if Live(c, id) {
      var w1 := if counted then MarkPolled(c.watches[id], now) else c.watches[id].(updatedAt := now);
      FinishTouches(c, w1, status, reason, now, message, hint, fails);
      assert FinishState(c, id, now, status, reason, message, counted, hint, fails)
          == Section(Record(c, Finish(w1, status, reason, now, message, hint), status, now, fails), true, true);
    }
  }

  /* A poll whose review does not end the wait. */
  ghost predicate Undecided(outcome: PollOutcome) {
    outcome.Reviewed? && outcome.data.rateLimitRemaining >= 10 && !Decisive(ReviewOf(outcome.data, outcome.entry))
  }

  ghost predicate EndsPoll(cfg: Config, c: Core, id: WatchId, outcome: PollOutcome, fails: bool, r: Section)
    requires id in c.watches
  {
    && Rewrote(c, r.core, id) && id in r.core.watches
    && (r.stop <==> !Live(r.core, id) || outcome == ContextCancelled)
    && (r.notify <==> (Live(c, id) && !Live(r.core, id))
                      || (Live(c, id) && Live(r.core, id) && r.core.watches[id].reviewStatus != c.watches[id].reviewStatus))
    && (Live(c, id) ==>
          r.core.watches[id].upstreamFailures ==
            if Undecided(outcome) then 0
            else c.watches[id].upstreamFailures + if outcome.UpstreamFailure? then 1 else 0)
    && (outcome != ContextCancelled && !outcome.UpstreamFailure? && !Undecided(outcome) ==> !Live(r.core, id))
  }

  lemma NothingTouched(c: Core, id: WatchId)
    ensures Rewrote(c, c, id)
  {
  }

  lemma UpstreamTouches(cfg: Config, c: Core, id: WatchId, now: int, text: string, fails: bool)
    requires id in c.watches && c.watches[id].id == id
    ensures EndsPoll(cfg, c, id, UpstreamFailure(text), fails, HandleUpstreamFailure(cfg, c, id, now, text, fails))
  {
    hide Record, Finish, Rewrote;
    NothingTouched(c, id);
    if Live(c, id) {
      var count := c.watches[id].upstreamFailures + 1;
      var w1 := MarkPolled(c.watches[id].(upstreamFailures := count), now);
      FinishTouches(c, w1, Failed, Some(AuthExpired), now, Some(UpstreamPersisted(count, text)), Some(UpstreamHint(count)), fails);
      RecordTouches(c, w1.(lastError := Some(Text(text))), Watching, now, fails);
    }
  }

  lemma LowRateTouches(c: Core, id: WatchId, now: int, data: ReviewData, review: ReviewStatus, fails: bool)
    requires id in c.watches && c.watches[id].id == id
    ensures EndsWatch(c, id, EndOnLowRate(c, id, now, data, review, fails))
  {
    hide Record, Finish, Rewrote;
    NothingTouched(c, id);
    if Live(c, id) {
      var w := MarkPolled(c.watches[id], now).(reviewStatus := Some(review), lastError := None, rateLimitResetAt := data.rateLimitReset);
      FinishTouches(c, w, RateLimited, None, now, Some(LowRateLimit(data.rateLimitRemaining, data.rateLimitReset)), None, fails);
    }
  }

  lemma EndOnReviewTouches(c: Core, id: WatchId, now: int, review: ReviewStatus, entry: Option<TriggerEntry>, fails: bool)
    requires id in c.watches && c.watches[id].id == id
    ensures EndsWatch(c, id, EndOnReview(c, id, now, review, entry, fails))
  {
    hide Record, Finish, Rewrote;
    NothingTouched(c, id);
    if Live(c, id) {
      var w := MarkPolled(c.watches[id], now).(reviewStatus := Some(review), lastError := None, rateLimitResetAt := None);
      FinishTouches(c, Link(w, entry), EndStatus(review), None, now, None, None, fails);
    }
  }

  ghost predicate EndsWatch(c: Core, id: WatchId, r: Section)
    requires id in c.watches
  {
    && Rewrote(c, r.core, id) && r.stop && id in r.core.watches && !Live(r.core, id)
    && (r.notify <==> Live(c, id))
    && r.core.watches[id].upstreamFailures == c.watches[id].upstreamFailures
  }

  lemma KeepWatchingTouches(c: Core, id: WatchId, now: int, review: ReviewStatus, entry: Option<TriggerEntry>, fails: bool)
    requires id in c.watches && c.watches[id].id == id
    ensures var r := KeepWatching(c, id, now, review, entry, fails);
            && Rewrote(c, r.core, id) && id in r.core.watches && (r.stop <==> !Live(r.core, id))
            && (Live(c, id) ==> r.core.watches[id].upstreamFailures == 0 && r.core.watches[id].reviewStatus == Some(review))
            && (r.notify <==> Live(c, id) && (!Live(r.core, id) || c.watches[id].reviewStatus != Some(review)))
  {
    hide Record, Rewrote;
    NothingTouched(c, id);
    if Live(c, id) {
      var w := MarkPolled(c.watches[id], now).(reviewStatus := Some(review), lastError := None, upstreamFailures := 0,
                                               rateLimitResetAt := None, status := Watching, workerRunning := true);
      RecordTouches(c, Link(w, entry), Watching, now, fails);
    }
  }

  lemma ReviewTouches(cfg: Config, c: Core, id: WatchId, now: int, data: ReviewData, entry: Option<TriggerEntry>,
                      completionFails: bool, fails: bool)
    requires id in c.watches && c.watches[id].id == id
    ensures EndsPoll(cfg, c, id, Reviewed(data, entry, completionFails), fails,
                     RecordReview(c, id, now, data, entry, completionFails, fails))
  {
    hide Rewrote, FinishState, EndOnLowRate, EndOnReview, KeepWatching, ReviewOf;
    FinishStateTouches(c, id, now, Failed, Some(InternalError), Some(TriggerUpdateFailed), true, None, fails);
    LowRateTouches(c, id, now, data, ReviewOf(data, entry), fails);
    EndOnReviewTouches(c, id, now, ReviewOf(data, entry), entry, fails);
    KeepWatchingTouches(c, id, now, ReviewOf(data, entry), entry, fails);
  }

  lemma EndPollTouches(cfg: Config, c: Core, id: WatchId, now: int, outcome: PollOutcome, fails: bool)
    requires id in c.watches && c.watches[id].id == id
    ensures EndsPoll(cfg, c, id, outcome, fails, EndPoll(cfg, c, id, now, outcome, fails))
  {
    hide FinishState, HandleUpstreamFailure, RecordReview, Rewrote;
    NothingTouched(c, id);
    match outcome
    case ContextCancelled =>
    case FetchTimedOut => FinishStateTouches(c, id, now, Failed, Some(GitHubError), Some(PollTimedOut), true, None, fails);
    case FetchRateLimited(text) => FinishStateTouches(c, id, now, RateLimited, None, Shown(text), true, None, fails);
    case UpstreamFailure(text) => UpstreamTouches(cfg, c, id, now, text, fails);
    case FetchFailed(text, hint) =>
      FinishStateTouches(c, id, now, Failed, Some(if hint.Some? then AuthExpired else GitHubError), Shown(text), true,
                         if hint.Some? then Some(AuthHint(hint.value)) else None, fails);
    case TriggerUnreadable => FinishStateTouches(c, id, now, Failed, Some(InternalError), Some(TriggerReadFailed), true, None, fails);
    case Reviewed(data, entry, completionFails) => ReviewTouches(cfg, c, id, now, data, entry, completionFails, fails);
  }

  /* The same for the sections that are not part of a poll. */
  lemma MarkStaleTouches(c: Core, id: WatchId, now: int, message: Message, fails: bool)
    requires id in c.watches && c.watches[id].id == id
    ensures EndsWatch(c.(clock := now), id, MarkStale(c, id, now, message, fails))
  {
    hide Record, Finish, Rewrote;
    var c1 := c.(clock := now);
    NothingTouched(c1, id);
    if Live(c, id) {
      FinishTouches(c1, c.watches[id], Stale, None, now, Some(message), None, fails);
    }
  }

  lemma CancelTouches(c: Core, id: WatchId, now: int, fails: bool)
    requires Live(c, id) && c.watches[id].id == id
    ensures var c' := Cancel(c, id, now, fails);
            && Rewrote(c.(clock := now), c', id) && id in c'.watches && !Live(c', id)
            && c'.watches[id].upstreamFailures == c.watches[id].upstreamFailures
  {
    hide Record, Finish, Rewrote;
    FinishTouches(c.(clock := now), c.watches[id], Cancelled, None, now, Some(CancelledManually), None, fails);
  }

  lemma ReuseTouches(c: Core, input: StartInput, trigger: Option<int>, now: int, fails: bool)
    requires StartReuses(c, input.key) && c.watches[c.active[input.key]].id == c.active[input.key]
    ensures var (c', result) := Reuse(c, input, trigger, now, fails);
            var id := c.active[input.key];
            && Rewrote(c, c', id) && Live(c', id) && !result.Started?
            && c'.watches[id].reviewStatus == c.watches[id].reviewStatus
            && c'.watches[id].token == input.token
            && c'.watches[id].upstreamFailures ==
               if c.watches[id].token != input.token then 0 else c.watches[id].upstreamFailures
  {
    hide Upsert, RowOf, Refreshed;
    RefreshKeeps(c.watches[c.active[input.key]], input, trigger, now);
  }

  lemma RefreshKeeps(w: Watch, input: StartInput, trigger: Option<int>, now: int)
    ensures var w' := Refreshed(w, input, trigger, now);
            && SameIdentity(w, w') && w'.terminal == w.terminal && w'.reviewStatus == w.reviewStatus && w'.token == input.token
            && w'.upstreamFailures == if w.token != input.token then 0 else w.upstreamFailures
  {
  }

  // ---- carrying watches through a step ----

  /** Every watch is still there, the same one; an ended one shows the same. Time does not run back. */
  ghost predicate Carries(c: Core, c': Core) {
    && c.clock <= c'.clock && c'.epoch == c.epoch
    && forall id :: id in c.watches ==>
         && id in c'.watches && SameIdentity(c.watches[id], c'.watches[id])
         && (c.watches[id].terminal ==> Frozen(c.watches[id], c'.watches[id]))
  }

  lemma TouchesCarries(c: Core, c': Core, id: WatchId)
    requires Touches(c, c', id) && c.clock <= c'.clock && c'.epoch == c.epoch && (forall x :: x in c.watches ==> c.watches[x].id == x)
    ensures Carries(c, c')
  {
  }

  /* Only Start adds a watch, and only a new one. */
  ghost predicate Adds(c: Core, c': Core, result: StartResult) {
    && Carries(c, c')
    && (if result.Started? then c'.watches == c.watches[result.watch.id := result.watch] && result.watch.id !in c.watches
                                && !result.watch.terminal && result.watch.upstreamFailures == 0 && c.clock <= result.watch.id.nanos
        else c'.watches.Keys == c.watches.Keys)
  }

  lemma ReuseAdds(cfg: Config, c: Core, input: StartInput, trigger: Option<int>, now: int, idNow: int, fails: bool)
    requires WatchesOk(cfg, c) && c.clock <= idNow && StartReuses(c, input.key)
    ensures var (c', result) := Reuse(c.(clock := idNow), input, trigger, now, fails); Adds(c, c', result)
  {
    hide Reuse;
    IdsMatch(cfg, c);
    ReuseTouches(c.(clock := idNow), input, trigger, now, fails);
    var c' := Reuse(c.(clock := idNow), input, trigger, now, fails).0;
    TouchesCarries(c.(clock := idNow), c', c.active[input.key]);
  }

  lemma LaunchAdds(c: Core, input: StartInput, trigger: Option<int>, now: int, idNow: int, fails: bool)
    requires TableAgrees(c) && IdsSpent(c) && c.clock <= idNow
    ensures var (c', result) := Launch(c.(clock := idNow), input, trigger, now, idNow, fails); Adds(c, c', result)
  {
    hide RowOf, Upsert, TableAgrees, IdsSpent;
    LaunchBlocked(c, input, trigger, now, idNow);
    FreshId(c, WatchId(idNow, c.idSeq + 1));
  }

  lemma StartAdds(cfg: Config, c: Core, input: StartInput, trigger: Option<int>, now: int, idNow: int, fails: bool)
    requires Inv(cfg, c) && c.clock <= now <= idNow
    ensures var (c', result) := Start(c, input, trigger, now, idNow, fails); Adds(c, c', result)
  {
    hide WatchesOk, IndexOk, TableAgrees, Ordered, LatestOk, IdsSpent, Reuse, Launch;
    if ValidKey(input.key) && input.token != "" && !c.closed {
      if StartReuses(c, input.key) {
        ReuseAdds(cfg, c, input, trigger, now, idNow, fails);
      } else {
        LaunchAdds(c, input, trigger, now, idNow, fails);
      }
    }
  }

  lemma FreshId(c: Core, id: WatchId)
    requires TableAgrees(c) && Position(c.rows, id) == |c.rows|
    ensures id !in c.watches
  {
    hide Constraints, RowOf;
    assert id in c.watches ==> RowAgrees(c, id);
  }

  lemma IdsMatch(cfg: Config, c: Core)
    requires WatchesOk(cfg, c)
    ensures forall x :: x in c.watches ==> c.watches[x].id == x
  {
    hide LifeCycle;
    forall x | x in c.watches ensures c.watches[x].id == x { assert WatchOk(cfg, c, x); }
  }

  lemma CloseCarries(cfg: Config, c: Core, now: int, failing: set<WatchId>)
    requires c.clock <= now
    ensures Carries(c, Close(c, now, failing)) && Close(c, now, failing).watches.Keys == c.watches.Keys
  {
  }

  lemma CancelByIDTouches(cfg: Config, c: Core, login: string, id: WatchId, now: int, fails: bool)
    requires WatchesOk(cfg, c) && c.clock <= now
    ensures var (c', result) := CancelByID(c, login, id, now, fails);
            if result.DidCancel? then Live(c, id) && id in c'.watches && !Live(c', id) && Rewrote(c.(clock := now), c', id)
                                      && c'.watches[id].upstreamFailures == c.watches[id].upstreamFailures
            else c' == c
  {
    hide Cancel, Rewrote;
    IdsMatch(cfg, c);
    if Live(c, id) { CancelTouches(c, id, now, fails); }
  }

  lemma CancelLatestTouches(cfg: Config, c: Core, key: Key, now: int, fails: bool)
    requires WatchesOk(cfg, c) && IndexOk(c) && c.clock <= now
    ensures var (c', result) := CancelLatest(c, key, now, fails);
            if result.DidCancel? then
              && key in c.active
              && var id := c.active[key];
                 && Live(c, id) && id in c'.watches && !Live(c', id) && Rewrote(c.(clock := now), c', id)
                 && c'.watches[id].upstreamFailures == c.watches[id].upstreamFailures
                 && c' == Cancel(c, id, now, fails)
            else c' == c
  {
    hide Cancel, Rewrote, LifeCycle;
    IdsMatch(cfg, c);
    if key in c.active {
      assert Live(c, c.active[key]);
      CancelTouches(c, c.active[key], now, fails);
    } else {
      assert c.active - {key} == c.active;
    }
  }

  /* What a poll's section does to the watches, in one place. */
  lemma PollEndTouches(cfg: Config, s: Sys, id: WatchId, fails: bool)
    requires id in s.workers && (s.workers[id].GivingUp? || s.workers[id].Returned?)
    requires SysInv(cfg, s)
    ensures id in s.core.watches
    ensures s.workers[id].GivingUp? ==> EndsWatch(s.core, id, PollEnd(cfg, s, id, fails))
    ensures s.workers[id].Returned? ==> EndsPoll(cfg, s.core, id, s.workers[id].outcome, fails, PollEnd(cfg, s, id, fails))
  {
    hide Inv, EndPoll, GiveUp, EndsWatch, EndsPoll, Timely;
    assert WorkerOk(s, id);
    PlainId(cfg, s.core, id);
    if s.workers[id].GivingUp? {
      GiveUpTouches(s.core, id, s.workers[id].at, s.workers[id].clientless, fails);
    } else {
      EndPollTouches(cfg, s.core, id, s.workers[id].at, s.workers[id].outcome, fails);
    }
  }

  lemma PollEndRewrites(cfg: Config, s: Sys, id: WatchId, fails: bool)
    requires id in s.workers && (s.workers[id].GivingUp? || s.workers[id].Returned?)
    requires SysInv(cfg, s)
    ensures Rewrote(s.core, PollEnd(cfg, s, id, fails).core, id)
  {
    hide SysInv, PollEnd, Rewrote, Undecided, Live;
    PollEndTouches(cfg, s, id, fails);
  }

  lemma GiveUpTouches(c: Core, id: WatchId, at: int, clientless: bool, fails: bool)
    requires id in c.watches && c.watches[id].id == id
    ensures EndsWatch(c, id, GiveUp(c, id, at, clientless, fails))
  {
    hide FinishState, EndsWatch;
    FinishStateTouches(c, id, at, Failed, Some(InternalError), Some(ClientUnavailable), false, None, fails);
    FinishStateTouches(c, id, at, TimedOut, None, Some(MaxDurationExceeded), false, None, fails);
  }

  lemma PlainId(cfg: Config, c: Core, id: WatchId)
    requires Inv(cfg, c) && id in c.watches
    ensures c.watches[id].id == id
  {
    hide IndexOk, TableAgrees, Ordered, LatestOk, IdsSpent, LifeCycle;
    assert WatchOk(cfg, c, id);
  }

  lemma StepCarries(cfg: Config, s: Sys, e: Event)
    requires ValidConfig(cfg) && SysInv(cfg, s) && Enabled(s, e) && !e.RestartEvent?
    ensures Carries(s.core, Step(cfg, s, e).core)
    ensures !e.StartEvent? ==> Step(cfg, s, e).core.watches.Keys == s.core.watches.Keys
  {
    hide Start, CancelByID, CancelLatest, Close, MarkStale, Rewrote, LifeCycle, IndexOk, TableAgrees, Ordered, LatestOk, IdsSpent;
    var c := s.core;
    IdsMatch(cfg, c);
    match e
    case StartEvent(input, trigger, now, idNow, fails) => StartAdds(cfg, c, input, trigger, now, idNow, fails);
    case CancelByIDEvent(login, id, now, fails) =>
      CancelByIDTouches(cfg, c, login, id, now, fails);
      RewroteCarries(c, now, CancelByID(c, login, id, now, fails).0, id);
    case CancelLatestEvent(key, now, fails) =>
      CancelLatestTouches(cfg, c, key, now, fails);
      if key in c.active { RewroteCarries(c, now, CancelLatest(c, key, now, fails).0, c.active[key]); }
    case CloseEvent(now, failing) => CloseCarries(cfg, c, now, failing);
    case PollEndEvent(id, fails) =>
      PollEndRewrites(cfg, s, id, fails);
      RewroteCarries(c, c.clock, PollEnd(cfg, s, id, fails).core, id);
    case PanicEvent(id, now, text, fails) =>
      assert WorkerOk(s, id);
      MarkStaleTouches(c, id, now, Text(text), fails);
      RewroteCarries(c, now, MarkStale(c, id, now, Text(text), fails).core, id);
    case _ =>
  }

  lemma RewroteCarries(c: Core, now: int, c': Core, id: WatchId)
    requires c.clock <= now && forall x :: x in c.watches ==> c.watches[x].id == x
    ensures Rewrote(c.(clock := now), c', id) || c' == c ==> Carries(c, c') && c'.watches.Keys == c.watches.Keys
  {
    if Rewrote(c.(clock := now), c', id) {
      TouchesCarries(c.(clock := now), c', id);
    }
  }

  // ---- every step keeps the invariant ----

  /* Cancelling the context of an ended watch changes nothing else. */
  lemma ContextDoneKeepsInv(cfg: Config, c: Core, id: WatchId)
    requires Inv(cfg, c) && id in c.watches && !Live(c, id)
    ensures Inv(cfg, c.(watches := c.watches[id := c.watches[id].(ctxDone := true)]))
  {
    hide WatchesOk, IndexOk, TableAgrees, Ordered, LatestOk, IdsSpent;
    var c' := c.(watches := c.watches[id := c.watches[id].(ctxDone := true)]);
    ContextDoneKeepsWatches(cfg, c, id);
    ContextDoneKeepsTable(c, id);
  }

  lemma ContextDoneKeepsWatches(cfg: Config, c: Core, id: WatchId)
    requires WatchesOk(cfg, c) && IndexOk(c) && id in c.watches && !Live(c, id)
    ensures var c' := c.(watches := c.watches[id := c.watches[id].(ctxDone := true)]); WatchesOk(cfg, c') && IndexOk(c')
  {
    var c' := c.(watches := c.watches[id := c.watches[id].(ctxDone := true)]);
    forall x | x in c'.watches ensures WatchOk(cfg, c', x) { assert WatchOk(cfg, c, x); }
    forall x | Live(c', x) ensures c'.watches[x].key in c'.active && c'.active[c'.watches[x].key] == x { assert Live(c, x); }
  }

  lemma RowIgnoresContext(w: Watch)
    ensures RowOf(w.(ctxDone := true)) == RowOf(w)
  {
  }

  lemma ContextDoneKeepsTable(c: Core, id: WatchId)
    requires TableAgrees(c) && Ordered(c) && LatestOk(c) && IdsSpent(c) && id in c.watches
    ensures var c' := c.(watches := c.watches[id := c.watches[id].(ctxDone := true)]);
            TableAgrees(c') && Ordered(c') && LatestOk(c') && IdsSpent(c')
  {
    hide Constraints, RowOf, Ordered, IdsSpent, LatestOk, Position;
    var c' := c.(watches := c.watches[id := c.watches[id].(ctxDone := true)]);
    RowIgnoresContext(c.watches[id]);
    forall x | x in c'.watches ensures RowAgrees(c', x) { assert RowAgrees(c, x); }
    SameOrder(c, c');
  }

  lemma SameOrder(c: Core, c': Core)
    requires Ordered(c) && LatestOk(c) && IdsSpent(c)
    requires c'.rows == c.rows && c'.clock == c.clock && c'.epoch == c.epoch && c'.idSeq == c.idSeq && c'.latest == c.latest
    requires c'.watches.Keys == c.watches.Keys && forall x :: x in c.watches ==> c'.watches[x].key == c.watches[x].key
    ensures Ordered(c') && LatestOk(c') && IdsSpent(c')
  {
    hide LatestOk;
    LatestFollows(c, c');
  }

  lemma StepKeepsCore(cfg: Config, s: Sys, e: Event)
    requires ValidConfig(cfg) && SysInv(cfg, s) && Enabled(s, e)
    ensures Inv(cfg, Step(cfg, s, e).core)
  {
    hide Inv, Start, Cancel, Close, MarkStale, EndPoll, FinishState, Reopen;
    var c := s.core;
    match e
    case StartEvent(input, trigger, now, idNow, fails) => StartKeepsInv(cfg, c, input, trigger, now, idNow, fails);
    case CancelByIDEvent(login, id, now, fails) => if Live(c, id) { CancelKeepsInv(cfg, c, id, now, fails); }
    case CancelLatestEvent(key, now, fails) => CancelLatestKeepsInv(cfg, c, key, now, fails);
    case CloseEvent(now, failing) => CloseKeepsInv(cfg, c, now, failing);
    case ContextDoneEvent(id) => ClosedMeansEnded(cfg, c, id); ContextDoneKeepsInv(cfg, c, id);
    case PollBeginEvent(id, now) => AdvanceKeepsInv(cfg, c, now);
    case FetchReturnsEvent(id, now, outcome) => AdvanceKeepsInv(cfg, c, now);
    case PollEndEvent(id, fails) =>
      assert WorkerOk(s, id);
      match s.workers[id] {
        case GivingUp(at, clientless) =>
          FinishStateKeepsInv(cfg, c, id, at, Failed, Some(InternalError), Some(ClientUnavailable), false, None, fails);
          FinishStateKeepsInv(cfg, c, id, at, TimedOut, None, Some(MaxDurationExceeded), false, None, fails);
        case Returned(at, outcome) => EndPollKeepsInv(cfg, c, id, at, outcome, fails);
        case _ =>
      }
    case WorkerExitEvent(id) =>
    case PanicEvent(id, now, text, fails) => MarkStaleKeepsInv(cfg, c, id, now, Text(text), fails);
    case RestartEvent(now) => ReopenKeepsInv(cfg, c, now);
  }

  lemma ClosedMeansEnded(cfg: Config, c: Core, id: WatchId)
    requires Inv(cfg, c) && c.closed
    ensures !Live(c, id)
  {
    hide WatchesOk, TableAgrees, Ordered, LatestOk, IdsSpent;
  }

  /* Workers nobody worked on stay as they should be. */
  lemma WorkersFollow(s: Sys, s': Sys)
    requires WorkersOk(s) && Carries(s.core, s'.core)
    requires s'.workers.Keys == s'.core.watches.Keys
    requires forall x :: x in s'.workers ==> (x in s.workers && s'.workers[x] == s.workers[x]) || WorkerOk(s', x)
    ensures WorkersOk(s')
  {
    forall x | x in s'.workers ensures WorkerOk(s', x) {
      if x in s.workers && s'.workers[x] == s.workers[x] { assert WorkerOk(s, x); }
    }
  }

  lemma ContextDoneMeansEnded(cfg: Config, c: Core, id: WatchId)
    requires Inv(cfg, c) && id in c.watches
    ensures c.watches[id].ctxDone ==> c.watches[id].terminal
    ensures c.watches[id].startedAt <= c.clock
  {
    hide IndexOk, TableAgrees, Ordered, LatestOk, IdsSpent;
    assert WatchOk(cfg, c, id);
  }

  /* The worker whose step it is ends up as it should. */
  lemma PollStepsKeepWorker(cfg: Config, s: Sys, e: Event)
    requires ValidConfig(cfg) && SysInv(cfg, s) && Enabled(s, e)
    requires e.PollBeginEvent? || e.FetchReturnsEvent? || e.PollEndEvent? || e.WorkerExitEvent? || e.PanicEvent?
    ensures e.id in Step(cfg, s, e).workers && WorkerOk(Step(cfg, s, e), e.id)
  {
    hide Inv, MarkStale, PollEnd;
    assert WorkerOk(s, e.id);
    ContextDoneMeansEnded(cfg, s.core, e.id);
    if e.PollEndEvent? {
      PollEndKeepsWorker(cfg, s, e.id, e.fails);
    } else if e.PanicEvent? {
      PanicKeepsWorker(cfg, s, e.id, e.now, e.text, e.fails);
    }
  }

  lemma PollEndKeepsWorker(cfg: Config, s: Sys, id: WatchId, fails: bool)
    requires id in s.workers && (s.workers[id].GivingUp? || s.workers[id].Returned?)
    requires SysInv(cfg, s)
    ensures var r := PollEnd(cfg, s, id, fails);
            id in r.core.watches && (r.stop ==> r.core.watches[id].terminal)
  {
    hide Inv, PollEnd, Rewrote, Undecided;
    assert WorkerOk(s, id);
    PollEndTouches(cfg, s, id, fails);
    PollEndRewrites(cfg, s, id, fails);
    if s.core.watches[id].terminal {
      RewroteKeepsEnded(s.core, PollEnd(cfg, s, id, fails).core, id);
    }
  }

  lemma RewroteKeepsEnded(c: Core, c': Core, id: WatchId)
    requires Rewrote(c, c', id) && id in c.watches && c.watches[id].terminal
    ensures id in c'.watches && c'.watches[id] == c.watches[id]
  {
  }

  lemma PanicKeepsWorker(cfg: Config, s: Sys, id: WatchId, now: int, text: string, fails: bool)
    requires SysInv(cfg, s) && id in s.core.watches
    ensures var r := MarkStale(s.core, id, now, Text(text), fails);
            id in r.core.watches && r.core.watches[id].terminal
  {
    hide Inv, MarkStale, Rewrote, WorkersOk;
    PlainId(cfg, s.core, id);
    MarkStaleTouches(s.core, id, now, Text(text), fails);
  }

  lemma StepKeepsWorkers(cfg: Config, s: Sys, e: Event)
    requires ValidConfig(cfg) && SysInv(cfg, s) && Enabled(s, e) && !e.RestartEvent?
    ensures WorkersOk(Step(cfg, s, e))
  {
    hide Inv, Start, Close, MarkStale, CancelByID, CancelLatest, PollEnd, WorkerOk, Carries;
    var s' := Step(cfg, s, e);
    StepCarries(cfg, s, e);
    if e.StartEvent? {
      StartAdds(cfg, s.core, e.input, e.trigger, e.now, e.idNow, e.fails);
      var result := Start(s.core, e.input, e.trigger, e.now, e.idNow, e.fails).1;
      if result.Started? { NewWorkerOk(s', result.watch.id); }
    } else if e.PollBeginEvent? || e.FetchReturnsEvent? || e.PollEndEvent? || e.WorkerExitEvent? || e.PanicEvent? {
      PollStepsKeepWorker(cfg, s, e);
    }
    WorkersFollow(s, s');
  }

  lemma NewWorkerOk(s: Sys, id: WatchId)
    requires id in s.workers && s.workers[id] == Idle && id in s.core.watches
    ensures WorkerOk(s, id)
  {
  }

  /** Every step, whatever fails, keeps the invariant of the whole system. */
  lemma StepKeepsInv(cfg: Config, s: Sys, e: Event)
    requires ValidConfig(cfg) && SysInv(cfg, s) && Enabled(s, e)
    ensures SysInv(cfg, Step(cfg, s, e))
  {
    hide Inv, WorkersOk, Step;
    StepKeepsCore(cfg, s, e);
    if e.RestartEvent? {
      NoWorkers(cfg, s, e);
    } else {
      StepKeepsWorkers(cfg, s, e);
    }
  }

  lemma NoWorkers(cfg: Config, s: Sys, e: Event)
    requires Enabled(s, e) && e.RestartEvent?
    ensures WorkersOk(Step(cfg, s, e))
  {
  }

  // ---- ended watches are never saved again ----

  ghost predicate KeepsUnsaved(c: Core, c': Core, id: WatchId) { id in c.unsaved ==> id in c'.unsaved }

  lemma RecordKeepsOthersUnsaved(c: Core, w: Watch, intended: Status, now: int, fails: bool, id: WatchId)
    requires w.id != id
    ensures KeepsUnsaved(c, Record(c, w, intended, now, fails), id)
  {
    hide Upsert, RowOf, Degrade;
  }

  lemma FinishStateKeepsUnsaved(c: Core, x: WatchId, now: int, status: Status, reason: Option<FailureReason>,
                                message: Option<Message>, counted: bool, hint: Option<Hint>, fails: bool, id: WatchId)
    requires !Live(c, id) && (x in c.watches ==> c.watches[x].id == x)
    ensures KeepsUnsaved(c, FinishState(c, x, now, status, reason, message, counted, hint, fails).core, id)
  {
    hide Record, KeepsUnsaved;
    if Live(c, x) {
      var w1 := if counted then MarkPolled(c.watches[x], now) else c.watches[x].(updatedAt := now);
      RecordKeepsOthersUnsaved(c, Finish(w1, status, reason, now, message, hint), status, now, fails, id);
    } else {
      SameKeepsUnsaved(c, id);
    }
  }

  lemma SameKeepsUnsaved(c: Core, id: WatchId)
    ensures KeepsUnsaved(c, c, id)
  {
  }

  lemma EndPollKeepsUnsaved(cfg: Config, c: Core, x: WatchId, now: int, outcome: PollOutcome, fails: bool, id: WatchId)
    requires !Live(c, id) && (x in c.watches ==> c.watches[x].id == x)
    ensures KeepsUnsaved(c, EndPoll(cfg, c, x, now, outcome, fails).core, id)
  {
    hide FinishState, KeepsUnsaved, Record, ReviewOf, Finish;
    SameKeepsUnsaved(c, id);
    match outcome
    case ContextCancelled =>
    case FetchTimedOut => FinishStateKeepsUnsaved(c, x, now, Failed, Some(GitHubError), Some(PollTimedOut), true, None, fails, id);
    case FetchRateLimited(text) => FinishStateKeepsUnsaved(c, x, now, RateLimited, None, Shown(text), true, None, fails, id);
    case UpstreamFailure(text) =>
      if Live(c, x) {
        var count := c.watches[x].upstreamFailures + 1;
        var w1 := MarkPolled(c.watches[x].(upstreamFailures := count), now);
        var hint := Some(UpstreamHint(count));
        FinishKeepsOthersUnsaved(c, w1, Failed, Some(AuthExpired), now, Some(UpstreamPersisted(count, text)), hint, fails, id);
        RecordKeepsOthersUnsaved(c, w1.(lastError := Some(Text(text))), Watching, now, fails, id);
      }
    case FetchFailed(text, hint) =>
      FinishStateKeepsUnsaved(c, x, now, Failed, Some(if hint.Some? then AuthExpired else GitHubError), Shown(text), true,
                              if hint.Some? then Some(AuthHint(hint.value)) else None, fails, id);
    case TriggerUnreadable =>
      FinishStateKeepsUnsaved(c, x, now, Failed, Some(InternalError), Some(TriggerReadFailed), true, None, fails, id);
    case Reviewed(data, entry, completionFails) =>
      ReviewKeepsUnsaved(c, x, now, data, entry, completionFails, fails, id);
  }

  lemma FinishKeepsOthersUnsaved(c: Core, w: Watch, status: Status, reason: Option<FailureReason>, now: int,
                                 message: Option<Message>, hint: Option<Hint>, fails: bool, id: WatchId)
    requires w.id != id
    ensures KeepsUnsaved(c, Record(c, Finish(w, status, reason, now, message, hint), status, now, fails), id)
  {
    hide Record, KeepsUnsaved;
    RecordKeepsOthersUnsaved(c, Finish(w, status, reason, now, message, hint), status, now, fails, id);
  }

  lemma ReviewKeepsUnsaved(c: Core, x: WatchId, now: int, data: ReviewData, entry: Option<TriggerEntry>,
                           completionFails: bool, fails: bool, id: WatchId)
    requires !Live(c, id) && (x in c.watches ==> c.watches[x].id == x)
    ensures KeepsUnsaved(c, RecordReview(c, x, now, data, entry, completionFails, fails).core, id)
  {
    hide FinishState, KeepsUnsaved, Record, ReviewOf, Finish;
    var review := ReviewOf(data, entry);
    SameKeepsUnsaved(c, id);
    FinishStateKeepsUnsaved(c, x, now, Failed, Some(InternalError), Some(TriggerUpdateFailed), true, None, fails, id);
    if Live(c, x) {
      var w := MarkPolled(c.watches[x], now).(reviewStatus := Some(review), lastError := None);
      FinishKeepsOthersUnsaved(c, w.(rateLimitResetAt := data.rateLimitReset), RateLimited, None, now,
                               Some(LowRateLimit(data.rateLimitRemaining, data.rateLimitReset)), None, fails, id);
      FinishKeepsOthersUnsaved(c, Link(w.(rateLimitResetAt := None), entry), EndStatus(review), None, now, None, None, fails, id);
      RecordKeepsOthersUnsaved(c, Link(w.(upstreamFailures := 0, rateLimitResetAt := None, status := Watching, workerRunning := true), entry),
                               Watching, now, fails, id);
    }
  }

  lemma StartKeepsUnsaved(cfg: Config, c: Core, input: StartInput, trigger: Option<int>, now: int, idNow: int, fails: bool, id: WatchId)
    requires Inv(cfg, c) && id in c.watches && !Live(c, id) && c.clock <= now <= idNow
    ensures KeepsUnsaved(c, Start(c, input, trigger, now, idNow, fails).0, id)
  {
    hide LifeCycle, TableAgrees, Ordered, LatestOk, IdsSpent, Upsert, RowOf;
    if ValidKey(input.key) && input.token != "" && !c.closed {
      if StartReuses(c, input.key) {
        assert WatchOk(cfg, c, c.active[input.key]);
      } else {
        LaunchBlocked(c, input, trigger, now, idNow);
        FreshId(c, WatchId(idNow, c.idSeq + 1));
      }
    }
  }

  lemma StepKeepsUnsaved(cfg: Config, s: Sys, e: Event, id: WatchId)
    requires SysInv(cfg, s) && Enabled(s, e) && !e.RestartEvent?
    requires id in s.core.watches && s.core.watches[id].terminal && id in s.core.unsaved
    ensures id in Step(cfg, s, e).core.unsaved
  {
    hide Inv, Start, EndPoll, FinishState, Record, Finish;
    var c := s.core;
    match e
    case StartEvent(input, trigger, now, idNow, fails) => StartKeepsUnsaved(cfg, c, input, trigger, now, idNow, fails, id);
    case CancelByIDEvent(login, x, now, fails) =>
      if Live(c, x) {
        PlainId(cfg, c, x);
        FinishKeepsOthersUnsaved(c.(clock := now), c.watches[x], Cancelled, None, now, Some(CancelledManually), None, fails, id);
      }
    case CancelLatestEvent(key, now, fails) =>
      if key in c.active && Live(c, c.active[key]) {
        PlainId(cfg, c, c.active[key]);
        FinishKeepsOthersUnsaved(c.(clock := now), c.watches[c.active[key]], Cancelled, None, now, Some(CancelledManually), None, fails, id);
      }
    case PollEndEvent(x, fails) =>
      assert WorkerOk(s, x);
      PlainId(cfg, c, x);
      PollEndKeepsUnsaved(cfg, s, x, fails, id);
    case PanicEvent(x, now, text, fails) =>
      assert WorkerOk(s, x);
      PlainId(cfg, c, x);
      if Live(c, x) {
        FinishKeepsOthersUnsaved(c.(clock := now), c.watches[x], Stale, None, now, Some(Text(text)), None, fails, id);
      }
    case _ =>
  }

  lemma PollEndKeepsUnsaved(cfg: Config, s: Sys, x: WatchId, fails: bool, id: WatchId)
    requires x in s.workers && (s.workers[x].GivingUp? || s.workers[x].Returned?)
    requires !Live(s.core, id) && (x in s.core.watches ==> s.core.watches[x].id == x)
    ensures KeepsUnsaved(s.core, PollEnd(cfg, s, x, fails).core, id)
  {
    hide EndPoll, FinishState, KeepsUnsaved;
    if s.workers[x].GivingUp? {
      var at := s.workers[x].at;
      FinishStateKeepsUnsaved(s.core, x, at, Failed, Some(InternalError), Some(ClientUnavailable), false, None, fails, id);
      FinishStateKeepsUnsaved(s.core, x, at, TimedOut, None, Some(MaxDurationExceeded), false, None, fails, id);
    } else {
      EndPollKeepsUnsaved(cfg, s.core, x, s.workers[x].at, s.workers[x].outcome, fails, id);
    }
  }
}
