/** The values of the review-watch manager: watches, their persisted rows, and the inputs of its steps. */
module WatchTypes {
  import opened Prelude
  import opened ReviewStatuses

  datatype Status = Watching | Completed | Blocked | TimedOut | RateLimited | Failed | Stale | Cancelled

  datatype FailureReason = AuthExpired | GitHubError | InternalError

  datatype Hint = AuthHint(kind: string) | UpstreamHint(count: nat)

  /* One constructor per message the manager formats, with the values it prints. */
  datatype Message =
    | ManagerClosed | CancelledManually | MaxDurationExceeded | ClientUnavailable | PollTimedOut
    | TriggerReadFailed | TriggerUpdateFailed | LowRateLimit(remaining: int, reset: Option<int>)
    | PersistFailed(intended: Status) | UpstreamPersisted(count: nat, text: string)
    | ProcessRestarted | Text(text: string)

  datatype Key = Key(login: string, owner: string, repo: string, pr: int)

  /* Printed as "cw_<nanos>_<count>", from which the resource URI is derived. */
  datatype WatchId = WatchId(nanos: int, count: nat)

  datatype Watch = Watch(
    id: WatchId,
    key: Key,
    trigger: Option<int>,
    token: string,
    hasClient: bool,
    ctxDone: bool,
    status: Status,
    reviewStatus: Option<ReviewStatus>,
    failureReason: Option<FailureReason>,
    terminal: bool,
    workerRunning: bool,
    pollsDone: nat,
    startedAt: int,
    updatedAt: int,
    completedAt: Option<int>,
    staleAt: Option<int>,
    lastPolledAt: Option<int>,
    lastError: Option<Message>,
    rateLimitResetAt: Option<int>,
    upstreamFailures: nat,
    recoveryHint: Option<Hint>)

  /* A review_watch row; times are whole seconds. */
  datatype Row = Row(
    id: WatchId,
    key: Key,
    trigger: Option<int>,
    status: Status,
    reviewStatus: Option<ReviewStatus>,
    failureReason: Option<FailureReason>,
    isActive: bool,
    startedAt: int,
    updatedAt: int,
    completedAt: Option<int>,
    staleAt: Option<int>,
    lastError: Option<Message>,
    rateLimitResetAt: Option<int>,
    recoveryHint: Option<Hint>)

  function SecOf(t: Option<int>): Option<int> {
    match t
    case None => None
    case Some(v) => Some(Sec(v))
  }

  function RowOf(w: Watch): Row {
    Row(w.id, w.key, w.trigger, w.status, w.reviewStatus, w.failureReason, !w.terminal, Sec(w.startedAt),
        Sec(w.updatedAt), SecOf(w.completedAt), SecOf(w.staleAt), w.lastError, SecOf(w.rateLimitResetAt), w.recoveryHint)
  }

  datatype StartInput = StartInput(key: Key, token: string)

  predicate ValidKey(k: Key) { k.login != "" && k.owner != "" && k.repo != "" && k.pr > 0 }

  /* What one poll brought back, before the manager takes its lock again. */
  datatype PollOutcome =
    | ContextCancelled
    | FetchTimedOut
    | FetchRateLimited(text: string)
    | UpstreamFailure(text: string)
    | FetchFailed(text: string, authHint: Option<string>)
    | TriggerUnreadable
    | Reviewed(data: ReviewData, entry: Option<TriggerEntry>, completionFails: bool)

  /* maxDuration and threshold are positive: the constructor replaces anything else by a default. */
  datatype Config = Config(maxDuration: int, threshold: nat)

  predicate ValidConfig(cfg: Config) { cfg.maxDuration > 0 && cfg.threshold > 0 }
}
