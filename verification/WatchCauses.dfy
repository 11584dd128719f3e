/** What a watch shows and why: the polls it counts, the review it reports, and the status it ends with, told
    from the events alone. */
module WatchCauses {
  import opened Prelude
  import opened ReviewStatuses
  import opened WatchTypes
  import opened WatchStore
  import opened WatchSteps
  import opened WatchInvariant
  import opened WatchSections
  import opened WatchRuns
  import opened WatchTheorems
  import opened WatchAccounts
  import opened WatchSaves

  datatype Cause = Cause(status: Status, reason: Option<FailureReason>)

  /* A decisive review whose request could not be marked complete. */
  predicate CompletionLost(outcome: PollOutcome) {
    && outcome.Reviewed? && outcome.data.rateLimitRemaining >= 10 && Decisive(ReviewOf(outcome.data, outcome.entry))
    && outcome.completionFails && outcome.entry.Some? && outcome.entry.value.completedAt.None?
  }

  /* The poll brought back a review status to show. */
  predicate Reports(outcome: PollOutcome) { outcome.Reviewed? && !CompletionLost(outcome) }

  /** Why a poll ends a watch. An undecided review, or an upstream failure below the threshold, ends it only
      when the watch cannot be saved. */
  function CauseOfPoll(outcome: PollOutcome): Cause {
    match outcome
    case FetchTimedOut => Cause(Failed, Some(GitHubError))
    case FetchRateLimited(_) => Cause(RateLimited, None)
    case UpstreamFailure(_) => Cause(Failed, Some(AuthExpired))
    case FetchFailed(_, hint) => Cause(Failed, Some(if hint.Some? then AuthExpired else GitHubError))
    case Reviewed(data, entry, _) =>
      if data.rateLimitRemaining < 10 then Cause(RateLimited, None)
      else if CompletionLost(outcome) then Cause(Failed, Some(InternalError))
      else if ReviewOf(data, entry) == ReviewCompleted then Cause(Completed, None)
      else if ReviewOf(data, entry) == ReviewBlocked then Cause(Blocked, None)
      else Cause(Failed, Some(InternalError))
    case _ => Cause(Failed, Some(InternalError))
  }

  function CauseOf(s: Sys, e: Event): Cause {
    match e
    case CancelByIDEvent(_, _, _, _) => Cause(Cancelled, None)
    case CancelLatestEvent(_, _, _) => Cause(Cancelled, None)
    case CloseEvent(_, _) => Cause(Stale, None)
    case PanicEvent(_, _, _, _) => Cause(Stale, None)
    case PollEndEvent(id, _) =>
      if id in s.workers && s.workers[id].Returned? then CauseOfPoll(s.workers[id].outcome)
      else if id in s.workers && s.workers[id].GivingUp? && !s.workers[id].clientless then Cause(TimedOut, None)
      else Cause(Failed, Some(InternalError))
    case _ => Cause(Failed, Some(InternalError))
  }

  /* When the step that ends a watch says it ended. */
  function EndTime(s: Sys, e: Event): int {
    match e
    case CancelByIDEvent(_, _, now, _) => now
    case CancelLatestEvent(_, now, _) => now
    case CloseEvent(now, _) => now
    case PanicEvent(_, now, _, _) => now
    case PollEndEvent(id, _) => if id in s.workers && (s.workers[id].Returned? || s.workers[id].GivingUp?) then s.workers[id].at else 0
    case _ => 0
  }

  /* An empty text leaves the last error as it was. */
  function Said(text: string, w: Watch): Option<Message> { if text == "" then w.lastError else Some(Text(text)) }

  /** The last error of a watch that a poll ends. */
  function ErrorOfPoll(outcome: PollOutcome, w: Watch): Option<Message> {
    match outcome
    case FetchTimedOut => Some(PollTimedOut)
    case FetchRateLimited(text) => Said(text, w)
    case UpstreamFailure(text) => Some(UpstreamPersisted(w.upstreamFailures + 1, text))
    case FetchFailed(text, _) => Said(text, w)
    case TriggerUnreadable => Some(TriggerReadFailed)
    case Reviewed(data, _, _) =>
      if data.rateLimitRemaining < 10 then Some(LowRateLimit(data.rateLimitRemaining, data.rateLimitReset))
      else if CompletionLost(outcome) then Some(TriggerUpdateFailed) else None
    case _ => w.lastError
  }

  function HintOfPoll(outcome: PollOutcome, w: Watch): Option<Hint> {
    match outcome
    case UpstreamFailure(_) => Some(UpstreamHint(w.upstreamFailures + 1))
    case FetchFailed(_, hint) => if hint.Some? then Some(AuthHint(hint.value)) else None
    case _ => None
  }

  function ErrorOf(s: Sys, e: Event, w: Watch): Option<Message> {
    match e
    case CancelByIDEvent(_, _, _, _) => Some(CancelledManually)
    case CancelLatestEvent(_, _, _) => Some(CancelledManually)
    case CloseEvent(_, _) => Some(ManagerClosed)
    case PanicEvent(_, _, text, _) => Some(Text(text))
    case PollEndEvent(id, _) =>
      if id !in s.workers then None
      else if s.workers[id].Returned? then ErrorOfPoll(s.workers[id].outcome, w)
      else if s.workers[id].GivingUp? then Some(if s.workers[id].clientless then ClientUnavailable else MaxDurationExceeded)
      else None
    case _ => None
  }

  function HintOf(s: Sys, e: Event, w: Watch): Option<Hint> {
    match e
    case CloseEvent(_, _) => w.recoveryHint
    case PollEndEvent(id, _) => if id in s.workers && s.workers[id].Returned? then HintOfPoll(s.workers[id].outcome, w) else None
    case _ => None
  }

  /** What an ended watch tells besides its status: when it ended, and why, or that it could not be saved. */
  predicate EndTold(w: Watch, w': Watch, at: int, lastError: Option<Message>, hint: Option<Hint>, saveFails: bool) {
    && w'.completedAt == Some(at) && w'.updatedAt == at && w'.staleAt == (if w'.status == Stale then Some(at) else None)
    && (if saveFails then w'.lastError.Some? && w'.lastError.value.PersistFailed? else w'.lastError == lastError && w'.recoveryHint == hint)
  }

  /* The request a poll links its watch to, when the watch has none yet. */
  function LinkOf(outcome: PollOutcome): Option<int> {
    if outcome.Reviewed? && outcome.data.rateLimitRemaining >= 10 && !CompletionLost(outcome) && outcome.entry.Some?
    then Some(outcome.entry.value.id) else None
  }

  function LinkedTo(w: Watch, outcome: PollOutcome): Option<int> { if w.trigger.Some? then w.trigger else LinkOf(outcome) }

  /* The rate-limit reset a poll leaves: known when the limit is low, forgotten with any other review. */
  function ResetAfter(w: Watch, outcome: PollOutcome): Option<int> {
    if !Reports(outcome) then w.rateLimitResetAt
    else if outcome.data.rateLimitRemaining < 10 then outcome.data.rateLimitReset else None
  }

  predicate SaveFails(e: Event, id: WatchId) {
    match e
    case CancelByIDEvent(_, _, _, fails) => fails
    case CancelLatestEvent(_, _, fails) => fails
    case CloseEvent(_, failing) => id in failing
    case PollEndEvent(_, fails) => fails
    case PanicEvent(_, _, _, fails) => fails
    case _ => false
  }

  /* An end that cannot be saved is shown as an internal failure, unless it was STALE already. */
  function Shown(cause: Cause, saveFails: bool): Cause {
    if saveFails && cause.status != Stale then Cause(Failed, Some(InternalError)) else cause
  }

  // ---- one section ----

  lemma RecordShows(c: Core, w: Watch, intended: Status, now: int, fails: bool)
    requires TableAgrees(c) && Ordered(c) && Rewrites(c, w)
    ensures w.id in Record(c, w, intended, now, fails).watches
    ensures Record(c, w, intended, now, fails).watches[w.id] == if fails then Degrade(w, intended, now) else w
  {
    hide TableAgrees, Ordered, Record, RowOf, Rewrites, Position;
    RecordIsPut(c, w, intended, now, fails);
  }

  /* The fields a save or its failure leaves alone. */
  ghost predicate SameCounts(w: Watch, w': Watch) {
    && w'.pollsDone == w.pollsDone && w'.reviewStatus == w.reviewStatus && w'.lastPolledAt == w.lastPolledAt
    && w'.trigger == w.trigger && w'.rateLimitResetAt == w.rateLimitResetAt
  }

  lemma FinishShows(c: Core, w: Watch, status: Status, reason: Option<FailureReason>, now: int, message: Option<Message>,
                    hint: Option<Hint>, fails: bool)
    requires TableAgrees(c) && Ordered(c) && Rewrites(c, w) && (status == Stale ==> reason.None?)
    ensures var c' := Record(c, Finish(w, status, reason, now, message, hint), status, now, fails);
            && w.id in c'.watches
            && var w' := c'.watches[w.id];
               && SameCounts(w, w') && w'.terminal && Cause(w'.status, w'.failureReason) == Shown(Cause(status, reason), fails)
               && (w.staleAt.None? ==> EndTold(w, w', now, if message.Some? then message else w.lastError, hint, fails))
  {
    hide TableAgrees, Ordered, Record;
    RecordShows(c, Finish(w, status, reason, now, message, hint), status, now, fails);
  }

  /** What a poll does to a live watch: it is counted and timed, its review is shown, and if it ends the watch
      the status tells the cause. */
  ghost predicate PollShows(c: Core, id: WatchId, now: int, outcome: PollOutcome, fails: bool, c': Core)
    requires id in c.watches
  {
    && id in c'.watches
    && var w, w' := c.watches[id], c'.watches[id];
       && w'.pollsDone == w.pollsDone + (if outcome.ContextCancelled? then 0 else 1)
       && w'.lastPolledAt == (if outcome.ContextCancelled? then w.lastPolledAt else Some(now))
       && w'.reviewStatus == (if Reports(outcome) then Some(ReviewOf(outcome.data, outcome.entry)) else w.reviewStatus)
       && w'.trigger == LinkedTo(w, outcome) && w'.rateLimitResetAt == ResetAfter(w, outcome)
       && (w'.terminal && !outcome.ContextCancelled? ==>
             && Cause(w'.status, w'.failureReason) == Shown(CauseOfPoll(outcome), fails)
             && EndTold(w, w', now, ErrorOfPoll(outcome, w), HintOfPoll(outcome, w), fails))
       && (!w'.terminal && !outcome.ContextCancelled? ==>
             w'.updatedAt == now && w'.lastError == if outcome.UpstreamFailure? then Some(Text(outcome.text)) else None)
  }

  ghost predicate Ready(c: Core, id: WatchId) {
    && TableAgrees(c) && Ordered(c) && Live(c, id)
    && c.watches[id].id == id && c.watches[id].completedAt.None? && c.watches[id].staleAt.None?
  }

  lemma FinishStateShows(c: Core, id: WatchId, now: int, status: Status, reason: Option<FailureReason>, message: Option<Message>,
                         hint: Option<Hint>, counted: bool, fails: bool)
    requires Ready(c, id) && (status == Stale ==> reason.None?)
    ensures var c' := FinishState(c, id, now, status, reason, message, counted, hint, fails).core;
            && id in c'.watches
            && var w, w' := c.watches[id], c'.watches[id];
               && w'.pollsDone == w.pollsDone + (if counted then 1 else 0) && w'.reviewStatus == w.reviewStatus
               && w'.lastPolledAt == (if counted then Some(now) else w.lastPolledAt)
               && w'.trigger == w.trigger && w'.rateLimitResetAt == w.rateLimitResetAt
               && w'.terminal && Cause(w'.status, w'.failureReason) == Shown(Cause(status, reason), fails)
               && EndTold(w, w', now, if message.Some? then message else w.lastError, hint, fails)
  {
    hide TableAgrees, Ordered, Record, Finish;
    var w := c.watches[id];
    FinishShows(c, if counted then MarkPolled(w, now) else w.(updatedAt := now), status, reason, now, message, hint, fails);
  }

  lemma UpstreamShows(cfg: Config, c: Core, id: WatchId, now: int, text: string, fails: bool)
    requires Ready(c, id)
    ensures PollShows(c, id, now, UpstreamFailure(text), fails, HandleUpstreamFailure(cfg, c, id, now, text, fails).core)
  {
    hide TableAgrees, Ordered, Record, Finish;
    var count := c.watches[id].upstreamFailures + 1;
    var w1 := MarkPolled(c.watches[id].(upstreamFailures := count), now);
    FinishShows(c, w1, Failed, Some(AuthExpired), now, Some(UpstreamPersisted(count, text)), Some(UpstreamHint(count)), fails);
    RecordShows(c, w1.(lastError := Some(Text(text))), Watching, now, fails);
  }

  /* What the three ways to record a review do to a live watch. */
  ghost predicate ReviewedShows(c: Core, id: WatchId, now: int, review: ReviewStatus, ending: Cause, message: Option<Message>,
                                trigger: Option<int>, reset: Option<int>, fails: bool, c': Core)
    requires id in c.watches
  {
    && id in c'.watches
    && var w, w' := c.watches[id], c'.watches[id];
       && w'.pollsDone == w.pollsDone + 1 && w'.lastPolledAt == Some(now) && w'.reviewStatus == Some(review)
       && w'.trigger == (if w.trigger.Some? then w.trigger else trigger) && w'.rateLimitResetAt == reset
       && (w'.terminal ==> Cause(w'.status, w'.failureReason) == Shown(ending, fails) && EndTold(w, w', now, message, None, fails))
       && (!w'.terminal ==> w'.updatedAt == now && w'.lastError.None?)
  }

  lemma LowRateShows(c: Core, id: WatchId, now: int, data: ReviewData, review: ReviewStatus, fails: bool)
    requires Ready(c, id)
    ensures ReviewedShows(c, id, now, review, Cause(RateLimited, None), Some(LowRateLimit(data.rateLimitRemaining, data.rateLimitReset)),
                          None, data.rateLimitReset, fails, EndOnLowRate(c, id, now, data, review, fails).core)
  {
    hide TableAgrees, Ordered, Record, Finish;
    var w := MarkPolled(c.watches[id], now).(reviewStatus := Some(review), lastError := None, rateLimitResetAt := data.rateLimitReset);
    FinishShows(c, w, RateLimited, None, now, Some(LowRateLimit(data.rateLimitRemaining, data.rateLimitReset)), None, fails);
  }

  lemma EndOnReviewShows(c: Core, id: WatchId, now: int, review: ReviewStatus, entry: Option<TriggerEntry>, fails: bool)
    requires Ready(c, id)
    ensures ReviewedShows(c, id, now, review, Cause(EndStatus(review), None), None,
                          if entry.Some? then Some(entry.value.id) else None, None, fails, EndOnReview(c, id, now, review, entry, fails).core)
  {
    hide TableAgrees, Ordered, Record, Finish;
    var w := MarkPolled(c.watches[id], now).(reviewStatus := Some(review), lastError := None, rateLimitResetAt := None);
    FinishShows(c, Link(w, entry), EndStatus(review), None, now, None, None, fails);
  }

  lemma KeepWatchingShows(c: Core, id: WatchId, now: int, review: ReviewStatus, entry: Option<TriggerEntry>, fails: bool)
    requires Ready(c, id)
    ensures ReviewedShows(c, id, now, review, Cause(Failed, Some(InternalError)), None,
                          if entry.Some? then Some(entry.value.id) else None, None, fails, KeepWatching(c, id, now, review, entry, fails).core)
  {
    hide TableAgrees, Ordered, Record;
    var w := MarkPolled(c.watches[id], now).(reviewStatus := Some(review), lastError := None, upstreamFailures := 0,
                                             rateLimitResetAt := None, status := Watching, workerRunning := true);
    RecordShows(c, Link(w, entry), Watching, now, fails);
  }

  lemma ReviewShows(c: Core, id: WatchId, now: int, data: ReviewData, entry: Option<TriggerEntry>, completionFails: bool, fails: bool)
    requires Ready(c, id)
    ensures PollShows(c, id, now, Reviewed(data, entry, completionFails), fails,
                      RecordReview(c, id, now, data, entry, completionFails, fails).core)
  {
    hide TableAgrees, Ordered, ReviewOf, EndOnLowRate, EndOnReview, KeepWatching, FinishState;
    var review := ReviewOf(data, entry);
    if data.rateLimitRemaining < 10 {
      LowRateShows(c, id, now, data, review, fails);
    } else if !Decisive(review) {
      KeepWatchingShows(c, id, now, review, entry, fails);
    } else if CompletionLost(Reviewed(data, entry, completionFails)) {
      FinishStateShows(c, id, now, Failed, Some(InternalError), Some(TriggerUpdateFailed), None, true, fails);
    } else {
      EndOnReviewShows(c, id, now, review, entry, fails);
    }
  }

  lemma EndPollShows(cfg: Config, c: Core, id: WatchId, now: int, outcome: PollOutcome, fails: bool)
    requires Ready(c, id)
    ensures PollShows(c, id, now, outcome, fails, EndPoll(cfg, c, id, now, outcome, fails).core)
  {
    hide TableAgrees, Ordered, FinishState, HandleUpstreamFailure, RecordReview;
    match outcome
    case ContextCancelled =>
    case FetchTimedOut => FinishStateShows(c, id, now, Failed, Some(GitHubError), Some(PollTimedOut), None, true, fails);
    case FetchRateLimited(text) => FinishStateShows(c, id, now, RateLimited, None, WatchSteps.Shown(text), None, true, fails);
    case UpstreamFailure(text) => UpstreamShows(cfg, c, id, now, text, fails);
    case FetchFailed(text, hint) =>
      FinishStateShows(c, id, now, Failed, Some(if hint.Some? then AuthExpired else GitHubError), WatchSteps.Shown(text),
                       if hint.Some? then Some(AuthHint(hint.value)) else None, true, fails);
    case TriggerUnreadable => FinishStateShows(c, id, now, Failed, Some(InternalError), Some(TriggerReadFailed), None, true, fails);
    case Reviewed(data, entry, completionFails) => ReviewShows(c, id, now, data, entry, completionFails, fails);
  }

  // ---- one step ----

  ghost predicate CountsPoll(s: Sys, e: Event, id: WatchId) { Polled(s, e, id) && !s.workers[id].outcome.ContextCancelled? }

  /** What one step does to what a watch shows. */
  ghost predicate StepShows(s: Sys, e: Event, s': Sys, id: WatchId)
    requires id in s.core.watches
  {
    && id in s'.core.watches
    && var w, w' := s.core.watches[id], s'.core.watches[id];
       && w'.pollsDone == w.pollsDone + (if CountsPoll(s, e, id) then 1 else 0)
       && w'.reviewStatus == (if Polled(s, e, id) && Reports(s.workers[id].outcome)
                              then Some(ReviewOf(s.workers[id].outcome.data, s.workers[id].outcome.entry)) else w.reviewStatus)
       && w'.lastPolledAt == (if CountsPoll(s, e, id) then Some(s.workers[id].at) else w.lastPolledAt)
       && (!e.StartEvent? ==> w'.trigger == if Polled(s, e, id) then LinkedTo(w, s.workers[id].outcome) else w.trigger)
       && w'.rateLimitResetAt == (if Polled(s, e, id) then ResetAfter(w, s.workers[id].outcome) else w.rateLimitResetAt)
       && (Ends(s, s', id) ==>
             && Cause(w'.status, w'.failureReason) == Shown(CauseOf(s, e), SaveFails(e, id))
             && EndTold(w, w', EndTime(s, e), ErrorOf(s, e, w), HintOf(s, e, w), SaveFails(e, id)))
  }

  /* The shown part of the watch is as it was. */
  lemma UnmovedShows(s: Sys, e: Event, s': Sys, id: WatchId)
    requires Unmoved(s.core, s'.core, id) && !Polled(s, e, id)
    ensures StepShows(s, e, s', id)
  {
  }

  lemma ReadyWhenLive(cfg: Config, c: Core, id: WatchId)
    requires Inv(cfg, c) && Live(c, id)
    ensures Ready(c, id)
  {
    hide TableAgrees, Ordered;
    LiveIsPlain(cfg, c, id);
  }

  lemma ReadyLater(c: Core, now: int, id: WatchId)
    requires Ready(c, id) && c.clock <= now
    ensures Ready(c.(clock := now), id)
  {
    hide Constraints, RowOf, Position;
    var c' := c.(clock := now);
    forall x | x in c'.watches ensures RowAgrees(c', x) { assert RowAgrees(c, x); }
  }

  lemma StartShows(cfg: Config, s: Sys, e: Event, id: WatchId)
    requires SysInv(cfg, s) && Enabled(s, e) && e.StartEvent? && id in s.core.watches
    ensures StepShows(s, e, Step(cfg, s, e), id)
  {
    hide Inv, Start, WorkersOk, CauseOf, Shown, EndTold, Reports, CountsPoll;
    InvOf(cfg, s);
    StartKeepsShown(cfg, s.core, e.input, e.trigger, e.now, e.idNow, e.fails, id);
    NotAPoll(s, e, id);
  }

  lemma NotAPoll(s: Sys, e: Event, id: WatchId)
    requires !e.PollEndEvent?
    ensures !Polled(s, e, id) && !CountsPoll(s, e, id)
  {
  }

  /* A Start changes at most the credentials, the request and the failure budget of a watch that is there. */
  lemma StartKeepsShown(cfg: Config, c: Core, input: StartInput, trigger: Option<int>, now: int, idNow: int, fails: bool, id: WatchId)
    requires Inv(cfg, c) && c.clock <= now <= idNow && id in c.watches
    ensures var c' := Start(c, input, trigger, now, idNow, fails).0;
            && id in c'.watches
            && var w, w' := c.watches[id], c'.watches[id];
               && w'.pollsDone == w.pollsDone && w'.reviewStatus == w.reviewStatus && w'.lastPolledAt == w.lastPolledAt
               && w'.rateLimitResetAt == w.rateLimitResetAt && w'.terminal == w.terminal
  {
    hide Inv, Launch, Saved, Reuse;
    if StartReuses(c, input.key) {
      ReuseKeepsShown(c.(clock := idNow), input, trigger, now, fails, id);
    } else {
      LaunchKeeps(cfg, c, input, trigger, now, idNow, fails, id);
    }
  }

  lemma ReuseKeepsShown(c: Core, input: StartInput, trigger: Option<int>, now: int, fails: bool, id: WatchId)
    requires StartReuses(c, input.key) && id in c.watches
    ensures var c' := Reuse(c, input, trigger, now, fails).0;
            && id in c'.watches
            && var w, w' := c.watches[id], c'.watches[id];
               && w'.pollsDone == w.pollsDone && w'.reviewStatus == w.reviewStatus && w'.lastPolledAt == w.lastPolledAt
               && w'.rateLimitResetAt == w.rateLimitResetAt && w'.terminal == w.terminal
  {
    hide Saved;
  }

  lemma LaunchKeeps(cfg: Config, c: Core, input: StartInput, trigger: Option<int>, now: int, idNow: int, fails: bool, id: WatchId)
    requires Inv(cfg, c) && c.clock <= idNow && id in c.watches
    ensures var c' := Launch(c.(clock := idNow), input, trigger, now, idNow, fails).0;
            id in c'.watches && c'.watches[id] == c.watches[id]
  {
    hide WatchesOk, IndexOk, TableAgrees, Ordered, LatestOk, IdsSpent, Launch;
    LaunchMoves(c, input, trigger, now, idNow, fails, id);
  }

  lemma CancelShows(cfg: Config, c: Core, id: WatchId, now: int, fails: bool)
    requires Inv(cfg, c) && Live(c, id) && c.clock <= now
    ensures var c' := Cancel(c, id, now, fails);
            && id in c'.watches && c'.watches[id].pollsDone == c.watches[id].pollsDone
            && c'.watches[id].reviewStatus == c.watches[id].reviewStatus
            && Cause(c'.watches[id].status, c'.watches[id].failureReason) == Shown(Cause(Cancelled, None), fails)
            && SameCounts(c.watches[id], c'.watches[id]) && EndTold(c.watches[id], c'.watches[id], now, Some(CancelledManually), None, fails)
  {
    hide Inv, Record, Finish, Ready;
    ReadyWhenLive(cfg, c, id);
    ReadyLater(c, now, id);
    ReadyParts(c.(clock := now), id);
    FinishShows(c.(clock := now), c.watches[id], Cancelled, None, now, Some(CancelledManually), None, fails);
  }

  lemma ReadyParts(c: Core, id: WatchId)
    requires Ready(c, id)
    ensures TableAgrees(c) && Ordered(c) && Rewrites(c, c.watches[id]) && c.watches[id].id == id
    ensures c.watches[id].completedAt.None? && c.watches[id].staleAt.None?
  {
    hide TableAgrees, Ordered;
  }

  lemma CancelByIDShows(cfg: Config, s: Sys, e: Event, id: WatchId)
    requires SysInv(cfg, s) && Enabled(s, e) && e.CancelByIDEvent? && id in s.core.watches
    ensures StepShows(s, e, Step(cfg, s, e), id)
  {
    hide Inv, Cancel, Rewrote, WorkersOk;
    var c := s.core;
    InvParts(cfg, c);
    CancelByIDTouches(cfg, c, e.login, e.id, e.now, e.fails);
    var (c', result) := CancelByID(c, e.login, e.id, e.now, e.fails);
    if result.DidCancel? {
      if e.id == id { CancelShows(cfg, c, id, e.now, e.fails); } else { TouchesLeavesOthers(c, e.now, c', e.id, id); }
    }
  }

  lemma CancelLatestShows(cfg: Config, s: Sys, e: Event, id: WatchId)
    requires SysInv(cfg, s) && Enabled(s, e) && e.CancelLatestEvent? && id in s.core.watches
    ensures StepShows(s, e, Step(cfg, s, e), id)
  {
    hide Inv, WatchesOk, IndexOk, CancelLatest, Cancel, Rewrote, WorkersOk;
    var c := s.core;
    InvParts(cfg, c);
    CancelLatestTouches(cfg, c, e.key, e.now, e.fails);
    var (c', result) := CancelLatest(c, e.key, e.now, e.fails);
    if result.DidCancel? {
      if c.active[e.key] == id { CancelShows(cfg, c, id, e.now, e.fails); } else { TouchesLeavesOthers(c, e.now, c', c.active[e.key], id); }
    }
  }

  lemma CloseShows(cfg: Config, s: Sys, e: Event, id: WatchId)
    requires SysInv(cfg, s) && Enabled(s, e) && e.CloseEvent? && id in s.core.watches
    ensures StepShows(s, e, Step(cfg, s, e), id)
  {
    hide Inv, WorkersOk, Merge, RowOf;
    if Live(s.core, id) { LiveIsPlain(cfg, s.core, id); }
  }

  lemma PanicShows(cfg: Config, s: Sys, e: Event, id: WatchId)
    requires SysInv(cfg, s) && Enabled(s, e) && e.PanicEvent? && id in s.core.watches
    ensures StepShows(s, e, Step(cfg, s, e), id)
  {
    hide Inv, MarkStale, Rewrote, WorkersOk;
    var c := s.core;
    InvParts(cfg, c);
    WorkerWatched(cfg, s, e.id);
    PlainId(cfg, c, e.id);
    var c' := MarkStale(c, e.id, e.now, Text(e.text), e.fails).core;
    MarkStaleTouches(c, e.id, e.now, Text(e.text), e.fails);
    if e.id == id && Live(c, id) {
      StaleShows(cfg, c, id, e.now, Text(e.text), e.fails);
    } else {
      TouchesLeavesOthers(c, e.now, c', e.id, id);
    }
  }

  lemma CancelledMeansEnded(s: Sys, id: WatchId)
    requires WorkersOk(s) && id in s.workers && s.workers[id].Returned?
    ensures s.workers[id].outcome.ContextCancelled? ==> !Live(s.core, id)
  {
    assert WorkerOk(s, id);
  }

  lemma StaleShows(cfg: Config, c: Core, id: WatchId, now: int, message: Message, fails: bool)
    requires Inv(cfg, c) && Live(c, id) && c.clock <= now
    ensures var c' := MarkStale(c, id, now, message, fails).core;
            && id in c'.watches && c'.watches[id].pollsDone == c.watches[id].pollsDone
            && c'.watches[id].reviewStatus == c.watches[id].reviewStatus
            && Cause(c'.watches[id].status, c'.watches[id].failureReason) == Cause(Stale, None)
            && SameCounts(c.watches[id], c'.watches[id]) && EndTold(c.watches[id], c'.watches[id], now, Some(message), None, fails)
  {
    hide Inv, Record, Finish, Ready;
    ReadyWhenLive(cfg, c, id);
    ReadyLater(c, now, id);
    ReadyParts(c.(clock := now), id);
    FinishShows(c.(clock := now), c.watches[id], Stale, None, now, Some(message), None, fails);
  }

  lemma PollEndShows(cfg: Config, s: Sys, e: Event, id: WatchId)
    requires SysInv(cfg, s) && Enabled(s, e) && e.PollEndEvent? && id in s.core.watches
    ensures StepShows(s, e, Step(cfg, s, e), id)
  {
    hide Inv, WorkersOk, EndPoll, FinishState, Rewrote, Undecided, Reports, CauseOfPoll, Ready;
    var c := s.core;
    PollEndRewrites(cfg, s, e.id, e.fails);
    PollEndTouches(cfg, s, e.id, e.fails);
    if e.id != id || !Live(c, id) {
      TouchesLeavesOthers(c, c.clock, PollEnd(cfg, s, e.id, e.fails).core, e.id, id);
    } else {
      ReadyWhenLive(cfg, c, id);
      match s.workers[id] {
        case GivingUp(at, clientless) =>
          FinishStateShows(c, id, at, Failed, Some(InternalError), Some(ClientUnavailable), None, false, e.fails);
          FinishStateShows(c, id, at, TimedOut, None, Some(MaxDurationExceeded), None, false, e.fails);
        case Returned(at, outcome) =>
          CancelledMeansEnded(s, id);
          EndPollShows(cfg, c, id, at, outcome, e.fails);
        case _ =>
      }
    }
  }

  lemma StepShowsIt(cfg: Config, s: Sys, e: Event, id: WatchId)
    requires ValidConfig(cfg) && SysInv(cfg, s) && Enabled(s, e) && !e.RestartEvent? && id in s.core.watches
    ensures StepShows(s, e, Step(cfg, s, e), id)
  {
    hide SysInv;
    match e
    case StartEvent(_, _, _, _, _) => StartShows(cfg, s, e, id);
    case CancelByIDEvent(_, _, _, _) => CancelByIDShows(cfg, s, e, id);
    case CancelLatestEvent(_, _, _) => CancelLatestShows(cfg, s, e, id);
    case CloseEvent(_, _) => CloseShows(cfg, s, e, id);
    case PollEndEvent(_, _) => PollEndShows(cfg, s, e, id);
    case PanicEvent(_, _, _, _) => PanicShows(cfg, s, e, id);
    case ContextDoneEvent(_) => UnmovedShows(s, e, Step(cfg, s, e), id);
    case PollBeginEvent(_, _) => UnmovedShows(s, e, Step(cfg, s, e), id);
    case FetchReturnsEvent(_, _, _) => UnmovedShows(s, e, Step(cfg, s, e), id);
    case WorkerExitEvent(_) => UnmovedShows(s, e, Step(cfg, s, e), id);
    case _ =>
  }

  // ---- over runs ----

  lemma NewWatchIsBlank(cfg: Config, s: Sys, e: Event, id: WatchId)
    requires ValidConfig(cfg) && SysInv(cfg, s) && Enabled(s, e)
    requires id !in s.core.watches && id in Step(cfg, s, e).core.watches
    ensures var w := Step(cfg, s, e).core.watches[id]; w.pollsDone == 0 && w.reviewStatus.None? && w.lastPolledAt.None? && !w.terminal
  {
    hide Inv, WorkersOk, Start, Carries, CancelByID, CancelLatest, Close, PollEnd, MarkStale;
    if e.StartEvent? {
      StartIsBlank(s.core, e.input, e.trigger, e.now, e.idNow, e.fails, id);
    } else if !e.RestartEvent? {
      StepCarries(cfg, s, e);
    }
  }

  lemma StartIsBlank(c: Core, input: StartInput, trigger: Option<int>, now: int, idNow: int, fails: bool, id: WatchId)
    requires id !in c.watches && id in Start(c, input, trigger, now, idNow, fails).0.watches
    ensures var w := Start(c, input, trigger, now, idNow, fails).0.watches[id];
            w.pollsDone == 0 && w.reviewStatus.None? && w.lastPolledAt.None? && !w.terminal
  {
    hide Saved, Refreshed;
  }

  /* Polls of the watch that came back, while it was live. */
  ghost function PollsOf(r: Run, id: WatchId, n: nat): nat
    requires n <= |r.events| < |r.states|
  {
    if n == 0 then 0 else PollsOf(r, id, n - 1) + if CountsPoll(r.states[n - 1], r.events[n - 1], id) then 1 else 0
  }

  /* The review status the last reporting poll of the watch derived. */
  ghost function LastReported(r: Run, id: WatchId, n: nat): Option<ReviewStatus>
    requires n <= |r.events| < |r.states|
  {
    if n == 0 then None
    else
      var s, e := r.states[n - 1], r.events[n - 1];
      if Polled(s, e, id) && Reports(s.workers[id].outcome) then Some(ReviewOf(s.workers[id].outcome.data, s.workers[id].outcome.entry))
      else LastReported(r, id, n - 1)
  }

  /* When the last poll that counted came back. */
  ghost function LastPolled(r: Run, id: WatchId, n: nat): Option<int>
    requires n <= |r.events| < |r.states|
  {
    if n == 0 then None
    else if CountsPoll(r.states[n - 1], r.events[n - 1], id) then Some(r.states[n - 1].workers[id].at)
    else LastPolled(r, id, n - 1)
  }

  lemma {:induction false} NeverPolled(r: Run, id: WatchId, n: nat)
    requires n <= |r.events| < |r.states| && forall i :: 0 <= i < n ==> id !in r.states[i].core.watches
    ensures PollsOf(r, id, n) == 0 && LastReported(r, id, n) == None && LastPolled(r, id, n) == None
  {
    if n > 0 { NeverPolled(r, id, n - 1); }
  }

  /** The shown number of polls is the number of polls that came back while the watch lived, the shown poll time that of
      the last of them; the shown review status is the one the last reporting poll derived. */
  lemma {:induction false} ShownCounts(r: Run, id: WatchId, n: nat)
    requires IsRun(r) && n <= |r.events| && id in r.states[n].core.watches
    ensures r.states[n].core.watches[id].pollsDone == PollsOf(r, id, n)
    ensures r.states[n].core.watches[id].reviewStatus == LastReported(r, id, n)
    ensures r.states[n].core.watches[id].lastPolledAt == LastPolled(r, id, n)
    decreases n
  {
    hide SysInv, Step, Enabled, CountsPoll, Polled, Reports, Ends, CauseOf, Shown, EndTold, LinkedTo, ResetAfter;
    if n > 0 {
      assert Stepped(r, n - 1);
      RunKeepsInv(r, n - 1);
      if id in r.states[n - 1].core.watches {
        ShownCounts(r, id, n - 1);
        NotRestarted(r, id, n);
        StepShowsIt(r.cfg, r.states[n - 1], r.events[n - 1], id);
      } else {
        NewWatchIsBlank(r.cfg, r.states[n - 1], r.events[n - 1], id);
        forall i | 0 <= i < n ensures id !in r.states[i].core.watches {
          GoneBefore(r, id, i, n);
        }
        NeverPolled(r, id, n);
      }
    }
  }

  /* A new watch was not there before. */
  lemma GoneBefore(r: Run, id: WatchId, i: nat, n: nat)
    requires IsRun(r) && i < n <= |r.events| && id in r.states[n].core.watches && id !in r.states[n - 1].core.watches
    ensures id !in r.states[i].core.watches
  {
    hide SysInv, Step, Enabled, Inv;
    if id in r.states[i].core.watches {
      IdsNameOneWatch(r, id, i, n - 1);
      RunKeepsInv(r, n - 1);
      assert Stepped(r, n - 1);
      NewWatchStartsAtZero(r.cfg, r.states[n - 1], r.events[n - 1], id);
    }
  }

  ghost predicate EndedAt(r: Run, id: WatchId, i: nat)
    requires i < |r.events| < |r.states|
  {
    && Ends(r.states[i], r.states[i + 1], id)
    && var w := r.states[i + 1].core.watches[id];
       && Cause(w.status, w.failureReason) == Shown(CauseOf(r.states[i], r.events[i]), SaveFails(r.events[i], id))
       && EndTold(r.states[i].core.watches[id], w, EndTime(r.states[i], r.events[i]),
                  ErrorOf(r.states[i], r.events[i], r.states[i].core.watches[id]),
                  HintOf(r.states[i], r.events[i], r.states[i].core.watches[id]), SaveFails(r.events[i], id))
  }

  /** Every ended watch was ended by one step of the run, and shows from then on the cause of that step: who
      cancelled, closed or panicked, or what its last poll brought back, with the time, the error and the hint; an end
      that could not be saved shows an internal failure, or STALE, and says so. */
  lemma {:induction false} EveryEndHasItsCause(r: Run, id: WatchId, n: nat)
    requires IsRun(r) && n <= |r.events| && id in r.states[n].core.watches && r.states[n].core.watches[id].terminal
    ensures exists i :: 0 <= i < n && EndedAt(r, id, i) && Frozen(r.states[i + 1].core.watches[id], r.states[n].core.watches[id])
    decreases n
  {
    hide SysInv, Step, Enabled, Init, CauseOf, Shown;
    if n == 0 {
      NothingAtFirst(r);
    } else {
      assert Stepped(r, n - 1);
      RunKeepsInv(r, n - 1);
      var s, e, s' := r.states[n - 1], r.events[n - 1], r.states[n];
      NotRestarted(r, id, n);
      if id !in s.core.watches {
        NewWatchIsBlank(r.cfg, s, e, id);
      } else {
        StepShowsIt(r.cfg, s, e, id);
        StepCarries(r.cfg, s, e);
        if s.core.watches[id].terminal {
          EveryEndHasItsCause(r, id, n - 1);
          var i :| 0 <= i < n - 1 && EndedAt(r, id, i) && Frozen(r.states[i + 1].core.watches[id], s.core.watches[id]);
          assert Frozen(r.states[i + 1].core.watches[id], s'.core.watches[id]);
        } else {
          assert EndedAt(r, id, n - 1);
        }
      }
    }
  }

  lemma NothingAtFirst(r: Run)
    requires IsRun(r)
    ensures r.states[0].core.watches == map[]
  {
    hide Step, Enabled;
  }

  /** A watch shows COMPLETED or BLOCKED only because a poll of it found a review that counts for the recorded request,
      BLOCKED iff that review requests changes: the fetch began in time at j and returned at k, the poll ended the watch
      at i, and the end was saved. */
  lemma CompletedMeansReviewFound(r: Run, id: WatchId, n: nat) returns (j: nat, k: nat, i: nat)
    requires IsRun(r) && n <= |r.events| && id in r.states[n].core.watches
    requires r.states[n].core.watches[id].status in {Completed, Blocked}
    ensures j < k < i < n && Polled(r.states[i], r.events[i], id) && FoundReview(r.states[i].workers[id].outcome)
    ensures r.states[n].core.watches[id].status == Blocked <==>
            r.states[i].workers[id].outcome.data.latest.value.state == "CHANGES_REQUESTED"
    ensures var start := r.states[n].core.watches[id].startedAt;
            StartsFetch(r.states[j], r.events[j], r.states[j + 1], id) && start <= r.events[j].now < start + r.cfg.maxDuration
    ensures var w := r.states[i].workers[id];
            && id in r.states[k].core.watches && r.events[k] == FetchReturnsEvent(id, w.at, w.outcome)
            && (forall m :: j < m <= k ==> WorksOn(r.states[m], id, Fetching)) && (forall m :: k < m <= i ==> WorksOn(r.states[m], id, w))
    ensures var c := r.states[n].core;
            && id !in c.unsaved && Position(c.rows, id) < |c.rows|
            && var row := c.rows[Position(c.rows, id)];
               && Tells(row, c.watches[id])
               && row.status == if r.states[i].workers[id].outcome.data.latest.value.state == "CHANGES_REQUESTED" then Blocked else Completed
  {
    hide SysInv, Step, Enabled, Init, IsRun, CauseOf, Shown, FoundReview, Polled, StartsFetch, Tells, Position;
    RunLengths(r);
    EndedStatus(r, id, n);
    EveryEndHasItsCause(r, id, n);
    i :| 0 <= i < n && EndedAt(r, id, i) && Frozen(r.states[i + 1].core.watches[id], r.states[n].core.watches[id]);
    OnlyPollsComplete(r.states[i], r.events[i], SaveFails(r.events[i], id));
    PollEndsItsOwn(r, id, i);
    PolledWhenEnding(r.states[i], r.events[i], r.states[i + 1], id);
    CompletedOutcome(r.states[i].workers[id].outcome);
    k := FetchReturned(r, id, i);
    j := FetchBegan(r, id, k);
    BegunInTime(r, id, j, n);
    ReviewIsSaved(r, n);
    MemoryAgreesWithTable(r, n, id);
    TellsStatus(r.states[n].core.rows[Position(r.states[n].core.rows, id)], r.states[n].core.watches[id]);
  }

  lemma TellsStatus(row: Row, w: Watch)
    requires Tells(row, w)
    ensures row.status == w.status
  {
  }

  lemma BegunInTime(r: Run, id: WatchId, j: nat, n: nat)
    requires IsRun(r) && j < n <= |r.events| && StartsFetch(r.states[j], r.events[j], r.states[j + 1], id)
    requires id in r.states[n].core.watches
    ensures var start := r.states[n].core.watches[id].startedAt; start <= r.events[j].now < start + r.cfg.maxDuration
  {
    hide SysInv, Step, Enabled, StartsFetch;
    assert Stepped(r, j);
    RunKeepsInv(r, j);
    FetchIsInTime(r.cfg, r.states[j], r.events[j], id);
    IdsNameOneWatch(r, id, j, n);
  }

  lemma OnlyPollsComplete(s: Sys, e: Event, fails: bool)
    ensures Shown(CauseOf(s, e), fails).status in {Completed, Blocked} ==>
              && e.PollEndEvent? && e.id in s.workers && s.workers[e.id].Returned?
              && CauseOfPoll(s.workers[e.id].outcome).status == Shown(CauseOf(s, e), fails).status
  {
    hide CauseOfPoll;
  }

  lemma PolledWhenEnding(s: Sys, e: Event, s': Sys, id: WatchId)
    requires Ends(s, s', id) && e.PollEndEvent? && e.id == id && id in s.workers && s.workers[id].Returned?
    ensures Polled(s, e, id)
  {
  }

  lemma CompletedOutcome(outcome: PollOutcome)
    requires CauseOfPoll(outcome).status in {Completed, Blocked}
    ensures FoundReview(outcome)
    ensures CauseOfPoll(outcome).status == Blocked <==> outcome.data.latest.value.state == "CHANGES_REQUESTED"
  {
    hide Decimal;
  }

  /* The poll brought back a review that counts for the recorded request, and the request could be marked finished. */
  ghost predicate FoundReview(outcome: PollOutcome) {
    && outcome.Reviewed? && outcome.data.rateLimitRemaining >= 10 && outcome.data.latest.Some? && !CompletionLost(outcome)
    && Decisive(ReviewOf(outcome.data, outcome.entry))
    && var requestedAt := if outcome.entry.Some? then Some(outcome.entry.value.requestedAt) else None;
       var prev := if outcome.entry.Some? then outcome.entry.value.prevReviewId else None;
       var at := if outcome.data.reviewRequestedAt.Some? then outcome.data.reviewRequestedAt else requestedAt;
       var review := outcome.data.latest.value;
       || at.None?
       || if prev.Some? then Decimal(review.id) != prev.value
          else review.submittedAt.Some? && review.submittedAt.value != ZERO_TIME && review.submittedAt.value >= at.value
  }

  lemma RunLengths(r: Run)
    requires IsRun(r)
    ensures |r.states| == |r.events| + 1
  {
  }

  lemma EndedStatus(r: Run, id: WatchId, n: nat)
    requires IsRun(r) && n < |r.states| && id in r.states[n].core.watches
    ensures r.states[n].core.watches[id].terminal <==> r.states[n].core.watches[id].status != Watching
  {
    hide Init, Step, Enabled, IsRun, WorkersOk;
    ShownStateIsConsistent(r, n, id);
  }

  lemma PollEndsItsOwn(r: Run, id: WatchId, i: nat)
    requires IsRun(r) && i < |r.events| && r.events[i].PollEndEvent? && Ends(r.states[i], r.states[i + 1], id)
    ensures r.events[i].id == id
  {
    hide SysInv, Rewrote, PollEnd;
    assert Stepped(r, i);
    RunKeepsInv(r, i);
    var s, e := r.states[i], r.events[i];
    PollEndRewrites(r.cfg, s, e.id, e.fails);
    if e.id != id { TouchesLeavesOthers(s.core, s.core.clock, PollEnd(r.cfg, s, e.id, e.fails).core, e.id, id); }
  }
}
