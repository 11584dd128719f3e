/** What a watch whose last upsert failed can show: nothing that a poll decided. */
module WatchSaves {
  import opened Prelude
  import opened ReviewStatuses
  import opened WatchTypes
  import opened WatchStore
  import opened WatchSteps
  import opened WatchInvariant
  import opened WatchRuns
  import opened WatchTheorems

  /** A watch that is not saved is still watching, failed or stale. */
  ghost predicate UnsavedShowNoReview(c: Core) {
    forall id :: id in c.unsaved && id in c.watches ==> c.watches[id].status in {Watching, Failed, Stale}
  }

  lemma RecordKeeps(c: Core, w: Watch, intended: Status, now: int, fails: bool)
    requires UnsavedShowNoReview(c)
    ensures UnsavedShowNoReview(Record(c, w, intended, now, fails))
  {
    hide Saved;
  }

  lemma FinishStateKeeps(c: Core, id: WatchId, now: int, status: Status, reason: Option<FailureReason>, message: Option<Message>,
                         counted: bool, hint: Option<Hint>, fails: bool)
    requires UnsavedShowNoReview(c)
    ensures UnsavedShowNoReview(FinishState(c, id, now, status, reason, message, counted, hint, fails).core)
  {
    hide Record, Finish, UnsavedShowNoReview;
    if Live(c, id) {
      var w := c.watches[id];
      RecordKeeps(c, Finish(if counted then MarkPolled(w, now) else w.(updatedAt := now), status, reason, now, message, hint), status, now, fails);
    }
  }

  lemma UpstreamKeeps(cfg: Config, c: Core, id: WatchId, now: int, text: string, fails: bool)
    requires UnsavedShowNoReview(c)
    ensures UnsavedShowNoReview(HandleUpstreamFailure(cfg, c, id, now, text, fails).core)
  {
    hide Record, Finish, UnsavedShowNoReview;
    if Live(c, id) {
      var count := c.watches[id].upstreamFailures + 1;
      var w1 := MarkPolled(c.watches[id].(upstreamFailures := count), now);
      RecordKeeps(c, Finish(w1, Failed, Some(AuthExpired), now, Some(UpstreamPersisted(count, text)), Some(UpstreamHint(count))), Failed, now, fails);
      RecordKeeps(c, w1.(lastError := Some(Text(text))), Watching, now, fails);
    }
  }

  lemma RecordReviewKeeps(c: Core, id: WatchId, now: int, data: ReviewData, entry: Option<TriggerEntry>, completionFails: bool, fails: bool)
    requires UnsavedShowNoReview(c)
    ensures UnsavedShowNoReview(RecordReview(c, id, now, data, entry, completionFails, fails).core)
  {
    hide Record, Finish, UnsavedShowNoReview, FinishState, ReviewOf, Decisive;
    FinishStateKeeps(c, id, now, Failed, Some(InternalError), Some(TriggerUpdateFailed), true, None, fails);
    if Live(c, id) {
      var review := ReviewOf(data, entry);
      var w := MarkPolled(c.watches[id], now).(reviewStatus := Some(review), lastError := None);
      RecordKeeps(c, Finish(w.(rateLimitResetAt := data.rateLimitReset), RateLimited, None, now,
                            Some(LowRateLimit(data.rateLimitRemaining, data.rateLimitReset)), None), RateLimited, now, fails);
      RecordKeeps(c, Finish(Link(w.(rateLimitResetAt := None), entry), EndStatus(review), None, now, None, None), EndStatus(review), now, fails);
      RecordKeeps(c, Link(w.(upstreamFailures := 0, rateLimitResetAt := None, status := Watching, workerRunning := true), entry), Watching, now, fails);
    }
  }

  lemma EndPollKeeps(cfg: Config, c: Core, id: WatchId, now: int, outcome: PollOutcome, fails: bool)
    requires UnsavedShowNoReview(c)
    ensures UnsavedShowNoReview(EndPoll(cfg, c, id, now, outcome, fails).core)
  {
    hide UnsavedShowNoReview, FinishState, RecordReview, HandleUpstreamFailure;
    match outcome
    case ContextCancelled =>
    case FetchTimedOut => FinishStateKeeps(c, id, now, Failed, Some(GitHubError), Some(PollTimedOut), true, None, fails);
    case FetchRateLimited(text) => FinishStateKeeps(c, id, now, RateLimited, None, WatchSteps.Shown(text), true, None, fails);
    case UpstreamFailure(text) => UpstreamKeeps(cfg, c, id, now, text, fails);
    case FetchFailed(text, hint) =>
      FinishStateKeeps(c, id, now, Failed, Some(if hint.Some? then AuthExpired else GitHubError), WatchSteps.Shown(text), true,
                       if hint.Some? then Some(AuthHint(hint.value)) else None, fails);
    case TriggerUnreadable => FinishStateKeeps(c, id, now, Failed, Some(InternalError), Some(TriggerReadFailed), true, None, fails);
    case Reviewed(data, entry, completionFails) => RecordReviewKeeps(c, id, now, data, entry, completionFails, fails);
  }

  lemma StartKeeps(cfg: Config, c: Core, input: StartInput, trigger: Option<int>, now: int, idNow: int, fails: bool)
    requires UnsavedShowNoReview(c) && WatchesOk(cfg, c)
    ensures UnsavedShowNoReview(Start(c, input, trigger, now, idNow, fails).0)
  {
    hide Saved;
    if StartReuses(c, input.key) { assert WatchOk(cfg, c, c.active[input.key]); }
  }

  lemma CloseKeeps(c: Core, now: int, failing: set<WatchId>)
    requires UnsavedShowNoReview(c)
    ensures UnsavedShowNoReview(Close(c, now, failing))
  {
  }

  lemma CancelKeeps(c: Core, id: WatchId, now: int, fails: bool)
    requires UnsavedShowNoReview(c) && id in c.watches
    ensures UnsavedShowNoReview(Cancel(c, id, now, fails))
  {
    hide Record, Finish;
    RecordKeeps(c.(clock := now), Finish(c.watches[id], Cancelled, None, now, Some(CancelledManually), None), Cancelled, now, fails);
  }

  lemma MarkStaleKeeps(c: Core, id: WatchId, now: int, message: Message, fails: bool)
    requires UnsavedShowNoReview(c)
    ensures UnsavedShowNoReview(MarkStale(c, id, now, message, fails).core)
  {
    hide Record, Finish;
    if Live(c, id) { RecordKeeps(c.(clock := now), Finish(c.watches[id], Stale, None, now, Some(message), None), Stale, now, fails); }
  }

  lemma StepKeepsUnsavedShown(cfg: Config, s: Sys, e: Event)
    requires SysInv(cfg, s) && Enabled(s, e) && UnsavedShowNoReview(s.core)
    ensures UnsavedShowNoReview(Step(cfg, s, e).core)
  {
    hide IndexOk, TableAgrees, Ordered, LatestOk, IdsSpent, WatchesOk, WorkersOk, Start, Cancel, Close, MarkStale, EndPoll, FinishState;
    var c := s.core;
    match e
    case StartEvent(input, trigger, now, idNow, fails) => StartKeeps(cfg, c, input, trigger, now, idNow, fails);
    case CancelByIDEvent(login, id, now, fails) => if id in c.watches { CancelKeeps(c, id, now, fails); }
    case CancelLatestEvent(key, now, fails) => if key in c.active && c.active[key] in c.watches { CancelKeeps(c, c.active[key], now, fails); }
    case CloseEvent(now, failing) => CloseKeeps(c, now, failing);
    case PollEndEvent(id, fails) =>
      match s.workers[id] {
        case GivingUp(at, clientless) =>
          FinishStateKeeps(c, id, at, Failed, Some(InternalError), Some(ClientUnavailable), false, None, fails);
          FinishStateKeeps(c, id, at, TimedOut, None, Some(MaxDurationExceeded), false, None, fails);
        case Returned(at, outcome) => EndPollKeeps(cfg, c, id, at, outcome, fails);
      }
    case PanicEvent(id, now, text, fails) => MarkStaleKeeps(c, id, now, Text(text), fails);
    case _ =>
  }

  /** In every reachable state a watch shown COMPLETED or BLOCKED is the one its row shows. */
  lemma {:induction false} ReviewIsSaved(r: Run, n: nat)
    requires IsRun(r) && n < |r.states|
    ensures UnsavedShowNoReview(r.states[n].core)
  {
    hide SysInv, Step, Enabled, UnsavedShowNoReview;
    if n == 0 {
      NothingUnsaved(r);
    } else {
      ReviewIsSaved(r, n - 1);
      RunKeepsInv(r, n - 1);
      assert Stepped(r, n - 1);
      StepKeepsUnsavedShown(r.cfg, r.states[n - 1], r.events[n - 1]);
    }
  }

  lemma NothingUnsaved(r: Run)
    requires IsRun(r)
    ensures UnsavedShowNoReview(r.states[0].core)
  {
    hide Step, Enabled;
  }
}
