/** Counting over runs: consecutive upstream failures, notifications and fetches. */
module WatchAccounts {
  import opened Prelude
  import opened ReviewStatuses
  import opened WatchTypes
  import opened WatchStore
  import opened WatchSteps
  import opened WatchInvariant
  import opened WatchSections
  import opened WatchRuns
  import opened WatchTheorems

  // ---- what an observer counts ----

  ghost predicate Polled(s: Sys, e: Event, id: WatchId) {
    e.PollEndEvent? && e.id == id && id in s.workers && s.workers[id].Returned? && Live(s.core, id)
  }

  /* A poll of the live watch came back with an upstream failure. */
  ghost predicate HandlesFailure(s: Sys, e: Event, id: WatchId) {
    Polled(s, e, id) && s.workers[id].outcome.UpstreamFailure?
  }

  /* A poll of the live watch got a review that does not end it, or its token was replaced. */
  ghost predicate Resets(s: Sys, e: Event, s': Sys, id: WatchId) {
    || (Polled(s, e, id) && Undecided(s.workers[id].outcome))
    || (e.StartEvent? && Live(s.core, id) && Live(s'.core, id) && s.core.watches[id].token != s'.core.watches[id].token)
  }

  ghost predicate Ends(s: Sys, s': Sys, id: WatchId) {
    Live(s.core, id) && id in s'.core.watches && !Live(s'.core, id)
  }

  ghost predicate ReviewChanges(s: Sys, s': Sys, id: WatchId) {
    Live(s.core, id) && Live(s'.core, id) && s.core.watches[id].reviewStatus != s'.core.watches[id].reviewStatus
  }

  /** What one step does to the accounts of a watch. */
  ghost predicate CountsFailures(cfg: Config, s: Sys, e: Event, id: WatchId)
    requires Enabled(s, e) && id in s.core.watches
  {
    var s' := Step(cfg, s, e);
    && id in s'.core.watches
    && s'.core.watches[id].upstreamFailures ==
       if Resets(s, e, s', id) then 0
       else s.core.watches[id].upstreamFailures + if HandlesFailure(s, e, id) then 1 else 0
  }

  ghost predicate CountsNotification(cfg: Config, s: Sys, e: Event, id: WatchId)
    requires Enabled(s, e)
  {
    var s' := Step(cfg, s, e);
    Notified(cfg, s, e) == Some(id) <==> ((Ends(s, s', id) && !e.CloseEvent?) || ReviewChanges(s, s', id))
  }

  /* The shown part of the watch stays as it was. */
  ghost predicate Unmoved(c: Core, c': Core, id: WatchId) {
    id in c.watches && id in c'.watches && Frozen(c.watches[id], c'.watches[id])
  }

  lemma TouchesLeavesOthers(c: Core, now: int, c': Core, x: WatchId, id: WatchId)
    requires Rewrote(c.(clock := now), c', x) && id in c.watches && (x != id || !Live(c, id))
    ensures Unmoved(c, c', id)
  {
  }

  // ---- step by step ----

  lemma StartAccounts(cfg: Config, s: Sys, e: Event, id: WatchId)
    requires SysInv(cfg, s) && Enabled(s, e) && e.StartEvent? && id in s.core.watches
    ensures CountsFailures(cfg, s, e, id) && CountsNotification(cfg, s, e, id)
  {
    hide Inv, Reuse, Launch, WorkersOk;
    var c := s.core;
    StartMoves(cfg, c, e.input, e.trigger, e.now, e.idNow, e.fails, id);
  }

  lemma StartMoves(cfg: Config, c: Core, input: StartInput, trigger: Option<int>, now: int, idNow: int, fails: bool, id: WatchId)
    requires Inv(cfg, c) && c.clock <= now <= idNow && id in c.watches
    ensures var c' := Start(c, input, trigger, now, idNow, fails).0;
            && id in c'.watches && (Live(c, id) <==> Live(c', id)) && c'.watches[id].reviewStatus == c.watches[id].reviewStatus
            && c'.watches[id].upstreamFailures ==
               if Live(c, id) && c.watches[id].token != c'.watches[id].token then 0 else c.watches[id].upstreamFailures
  {
    hide WatchesOk, IndexOk, TableAgrees, Ordered, LatestOk, IdsSpent, Reuse, Launch, Carries;
    if ValidKey(input.key) && input.token != "" && !c.closed {
      if StartReuses(c, input.key) {
        IdsMatch(cfg, c);
        ReuseTouches(c.(clock := idNow), input, trigger, now, fails);
      } else {
        LaunchMoves(c, input, trigger, now, idNow, fails, id);
      }
    }
  }

  lemma LaunchMoves(c: Core, input: StartInput, trigger: Option<int>, now: int, idNow: int, fails: bool, id: WatchId)
    requires TableAgrees(c) && IdsSpent(c) && c.clock <= idNow && id in c.watches
    ensures var c' := Launch(c.(clock := idNow), input, trigger, now, idNow, fails).0;
            id in c'.watches && c'.watches[id] == c.watches[id]
  {
    hide RowOf, Upsert, TableAgrees, IdsSpent;
    LaunchBlocked(c, input, trigger, now, idNow);
    FreshId(c, WatchId(idNow, c.idSeq + 1));
  }

  lemma CancelByIDAccounts(cfg: Config, s: Sys, e: Event, id: WatchId)
    requires SysInv(cfg, s) && Enabled(s, e) && e.CancelByIDEvent? && id in s.core.watches
    ensures CountsFailures(cfg, s, e, id) && CountsNotification(cfg, s, e, id)
  {
    hide Inv, CancelByID, Rewrote, WorkersOk;
    var c := s.core;
    InvParts(cfg, c);
    CancelByIDTouches(cfg, c, e.login, e.id, e.now, e.fails);
    var (c', result) := CancelByID(c, e.login, e.id, e.now, e.fails);
    if result.DidCancel? && e.id != id { TouchesLeavesOthers(c, e.now, c', e.id, id); }
  }

  lemma CancelLatestAccounts(cfg: Config, s: Sys, e: Event, id: WatchId)
    requires SysInv(cfg, s) && Enabled(s, e) && e.CancelLatestEvent? && id in s.core.watches
    ensures CountsFailures(cfg, s, e, id) && CountsNotification(cfg, s, e, id)
  {
    hide Inv, WatchesOk, IndexOk, CancelLatest, Rewrote, WorkersOk, Cancel;
    var c := s.core;
    InvParts(cfg, c);
    CancelLatestTouches(cfg, c, e.key, e.now, e.fails);
    var (c', result) := CancelLatest(c, e.key, e.now, e.fails);
    if result.DidCancel? && c.active[e.key] != id { TouchesLeavesOthers(c, e.now, c', c.active[e.key], id); }
  }

  lemma InvParts(cfg: Config, c: Core)
    requires Inv(cfg, c)
    ensures WatchesOk(cfg, c) && IndexOk(c)
  {
  }

  lemma CloseAccounts(cfg: Config, s: Sys, e: Event, id: WatchId)
    requires SysInv(cfg, s) && Enabled(s, e) && e.CloseEvent? && id in s.core.watches
    ensures CountsFailures(cfg, s, e, id) && CountsNotification(cfg, s, e, id)
  {
    hide Inv, WorkersOk, Merge, RowOf;
    if s.core.closed { ClosedMeansEnded(cfg, s.core, id); }
  }

  lemma PollEndAccounts(cfg: Config, s: Sys, e: Event, id: WatchId)
    requires SysInv(cfg, s) && Enabled(s, e) && e.PollEndEvent? && id in s.core.watches
    ensures CountsFailures(cfg, s, e, id) && CountsNotification(cfg, s, e, id)
  {
    hide Inv, WorkersOk, PollEnd, Rewrote, Undecided;
    PollEndTouches(cfg, s, e.id, e.fails);
    PollEndRewrites(cfg, s, e.id, e.fails);
    if e.id != id || !Live(s.core, id) {
      TouchesLeavesOthers(s.core, s.core.clock, PollEnd(cfg, s, e.id, e.fails).core, e.id, id);
    }
  }

  lemma PanicAccounts(cfg: Config, s: Sys, e: Event, id: WatchId)
    requires SysInv(cfg, s) && Enabled(s, e) && e.PanicEvent? && id in s.core.watches
    ensures CountsFailures(cfg, s, e, id) && CountsNotification(cfg, s, e, id)
  {
    hide Inv, MarkStale, Rewrote;
    assert WorkerOk(s, e.id);
    PlainId(cfg, s.core, e.id);
    MarkStaleTouches(s.core, e.id, e.now, Text(e.text), e.fails);
    if e.id != id || !Live(s.core, id) {
      TouchesLeavesOthers(s.core, e.now, MarkStale(s.core, e.id, e.now, Text(e.text), e.fails).core, e.id, id);
    }
  }

  lemma StepAccounts(cfg: Config, s: Sys, e: Event, id: WatchId)
    requires SysInv(cfg, s) && Enabled(s, e) && !e.RestartEvent? && id in s.core.watches
    ensures CountsFailures(cfg, s, e, id) && CountsNotification(cfg, s, e, id)
  {
    hide SysInv;
    match e
    case StartEvent(_, _, _, _, _) => StartAccounts(cfg, s, e, id);
    case CancelByIDEvent(_, _, _, _) => CancelByIDAccounts(cfg, s, e, id);
    case CancelLatestEvent(_, _, _) => CancelLatestAccounts(cfg, s, e, id);
    case CloseEvent(_, _) => CloseAccounts(cfg, s, e, id);
    case PollEndEvent(_, _) => PollEndAccounts(cfg, s, e, id);
    case PanicEvent(_, _, _, _) => PanicAccounts(cfg, s, e, id);
    case _ =>
  }

  // ---- consecutive upstream failures ----

  /* Failures handled since the watch appeared, was last reset, or got a new token. */
  ghost function FailuresInARow(r: Run, id: WatchId, n: nat): nat
    requires n < |r.states| <= |r.events| + 1
  {
    if n == 0 || id !in r.states[n - 1].core.watches then 0
    else if Resets(r.states[n - 1], r.events[n - 1], r.states[n], id) then 0
    else FailuresInARow(r, id, n - 1) + if HandlesFailure(r.states[n - 1], r.events[n - 1], id) then 1 else 0
  }

  lemma NewWatchStartsAtZero(cfg: Config, s: Sys, e: Event, id: WatchId)
    requires ValidConfig(cfg) && SysInv(cfg, s) && Enabled(s, e)
    requires id !in s.core.watches && id in Step(cfg, s, e).core.watches
    ensures e.StartEvent? && !Step(cfg, s, e).core.watches[id].terminal && Step(cfg, s, e).core.watches[id].upstreamFailures == 0
    ensures id.nanos >= s.core.epoch
  {
    hide Inv, WorkersOk, Start, Carries, CancelByID, CancelLatest, Close, PollEnd, MarkStale;
    IdsAreSpent(cfg, s, id);
    if e.StartEvent? {
      StartAdds(cfg, s.core, e.input, e.trigger, e.now, e.idNow, e.fails);
    } else if !e.RestartEvent? {
      StepCarries(cfg, s, e);
    }
  }

  /** The stored counter is always the number of upstream failures in a row. */
  lemma {:induction false} CounterIsFailuresInARow(r: Run, id: WatchId, n: nat)
    requires IsRun(r) && n < |r.states| && id in r.states[n].core.watches
    ensures r.states[n].core.watches[id].upstreamFailures == FailuresInARow(r, id, n)
    ensures Live(r.states[n].core, id) ==> FailuresInARow(r, id, n) < r.cfg.threshold
    decreases n
  {
    hide SysInv, Step, Enabled, Resets, HandlesFailure, Inv;
    RunKeepsInv(r, n);
    if n > 0 {
      RunKeepsInv(r, n - 1);
      assert Stepped(r, n - 1);
      CounterStep(r, id, n);
      if id in r.states[n - 1].core.watches {
        CounterIsFailuresInARow(r, id, n - 1);
      }
    }
    LiveBelowThreshold(r.cfg, r.states[n], id);
  }

  lemma LiveBelowThreshold(cfg: Config, s: Sys, id: WatchId)
    requires SysInv(cfg, s) && id in s.core.watches
    ensures Live(s.core, id) ==> s.core.watches[id].upstreamFailures < cfg.threshold
  {
    hide IndexOk, TableAgrees, Ordered, LatestOk, IdsSpent, WorkersOk;
    assert WatchOk(cfg, s.core, id);
  }

  lemma CounterStep(r: Run, id: WatchId, n: nat)
    requires 0 < n < |r.states| == |r.events| + 1 && ValidConfig(r.cfg)
    requires Stepped(r, n - 1) && SysInv(r.cfg, r.states[n - 1]) && id in r.states[n].core.watches
    ensures id in r.states[n - 1].core.watches ==>
              r.states[n].core.watches[id].upstreamFailures ==
              if Resets(r.states[n - 1], r.events[n - 1], r.states[n], id) then 0
              else r.states[n - 1].core.watches[id].upstreamFailures
                   + if HandlesFailure(r.states[n - 1], r.events[n - 1], id) then 1 else 0
    ensures id !in r.states[n - 1].core.watches ==> r.states[n].core.watches[id].upstreamFailures == 0
  {
    hide SysInv, Resets, HandlesFailure, Inv, Enabled;
    var s, e := r.states[n - 1], r.events[n - 1];
    if id !in s.core.watches {
      NewWatchStartsAtZero(r.cfg, s, e, id);
    } else if !e.RestartEvent? {
      StepAccounts(r.cfg, s, e, id);
    }
  }

  /* The section that handles a failure, under the invariant: saving fails only when the database does. */
  lemma UpstreamSection(cfg: Config, c: Core, id: WatchId, now: int, text: string, fails: bool)
    requires Inv(cfg, c) && Live(c, id)
    ensures var count := c.watches[id].upstreamFailures + 1;
            var c' := HandleUpstreamFailure(cfg, c, id, now, text, fails).core;
            && id in c'.watches
            && (Live(c', id) <==> count < cfg.threshold && !fails)
            && (!fails && count >= cfg.threshold ==>
                  c'.watches[id].status == Failed && c'.watches[id].failureReason == Some(AuthExpired)
                  && c'.watches[id].recoveryHint == Some(UpstreamHint(count)))
            && (fails ==> c'.watches[id].status == Failed && c'.watches[id].failureReason == Some(InternalError))
  {
    hide WatchesOk, IndexOk, TableAgrees, Ordered, LatestOk, IdsSpent, Record, RowOf;
    PlainId(cfg, c, id);
    var count := c.watches[id].upstreamFailures + 1;
    var w1 := MarkPolled(c.watches[id].(upstreamFailures := count), now);
    if count >= cfg.threshold {
      var w2 := Finish(w1, Failed, Some(AuthExpired), now, Some(UpstreamPersisted(count, text)), Some(UpstreamHint(count)));
      RecordIsPut(c, w2, Failed, now, fails);
    } else {
      RecordIsPut(c, w1.(lastError := Some(Text(text))), Watching, now, fails);
    }
  }

  /** Handling a failure ends the watch exactly when it is the threshold-th in a row, as FAILED with expired
      credentials, or when the database fails, as FAILED with an internal error. */
  lemma EscalatesAtTheThreshold(r: Run, id: WatchId, i: nat)
    requires IsRun(r) && i < |r.events| && HandlesFailure(r.states[i], r.events[i], id)
    ensures var w' := r.states[i + 1].core.watches;
            && id in w'
            && var k := FailuresInARow(r, id, i + 1);
               && 1 <= k <= r.cfg.threshold
               && (w'[id].terminal <==> k == r.cfg.threshold || r.events[i].fails)
               && (!r.events[i].fails && k == r.cfg.threshold ==>
                     w'[id].status == Failed && w'[id].failureReason == Some(AuthExpired) && w'[id].recoveryHint == Some(UpstreamHint(k)))
               && (r.events[i].fails ==> w'[id].status == Failed && w'[id].failureReason == Some(InternalError))
  {
    hide SysInv, Inv, HandleUpstreamFailure, WorkersOk, FailuresInARow, ReviewOf;
    RunKeepsInv(r, i);
    assert Stepped(r, i);
    var s, e := r.states[i], r.events[i];
    InvOf(r.cfg, s);
    UpstreamSection(r.cfg, s.core, id, s.workers[id].at, s.workers[id].outcome.text, e.fails);
    CounterIsFailuresInARow(r, id, i);
    CounterIsFailuresInARow(r, id, i + 1);
    CounterStep(r, id, i + 1);
  }

  lemma InvOf(cfg: Config, s: Sys)
    requires SysInv(cfg, s)
    ensures Inv(cfg, s.core)
  {
  }

  // ---- notifications ----

  ghost function NotificationsTo(r: Run, id: WatchId, n: nat): nat
    requires IsRun(r) && n <= |r.events|
  {
    if n == 0 then 0
    else
      assert Stepped(r, n - 1);
      NotificationsTo(r, id, n - 1) + if Notified(r.cfg, r.states[n - 1], r.events[n - 1]) == Some(id) then 1 else 0
  }

  ghost function ReviewChangesOf(r: Run, id: WatchId, n: nat): nat
    requires n <= |r.events| < |r.states|
  {
    if n == 0 then 0
    else ReviewChangesOf(r, id, n - 1) + if ReviewChanges(r.states[n - 1], r.states[n], id) then 1 else 0
  }

  /* Endings by Close, or by anything else. */
  ghost function EndingsOf(r: Run, id: WatchId, n: nat, byClose: bool): nat
    requires n <= |r.events| < |r.states|
  {
    if n == 0 then 0
    else EndingsOf(r, id, n - 1, byClose)
         + if Ends(r.states[n - 1], r.states[n], id) && r.events[n - 1].CloseEvent? == byClose then 1 else 0
  }

  lemma StepNotifies(cfg: Config, s: Sys, e: Event, id: WatchId)
    requires ValidConfig(cfg) && SysInv(cfg, s) && Enabled(s, e)
    ensures CountsNotification(cfg, s, e, id)
  {
    hide Inv, Start, Close, WorkersOk;
    if e.RestartEvent? {
    } else if id in s.core.watches {
      StepAccounts(cfg, s, e, id);
    } else {
      NotifiedIsWatched(cfg, s, e);
    }
  }

  lemma NotifiedIsWatched(cfg: Config, s: Sys, e: Event)
    requires SysInv(cfg, s) && Enabled(s, e)
    ensures Notified(cfg, s, e).Some? ==> Notified(cfg, s, e).value in s.core.watches
  {
    hide Inv, PollEnd, MarkStale, Cancel;
    if e.PollEndEvent? || e.PanicEvent? {
      assert WorkerOk(s, e.id);
    }
  }

  /** Subscribers are notified once for every change of the shown review status of a live watch, and once when
      it ends by anything but Close, also when the end could not be saved. */
  lemma {:induction false} NotificationsBalance(r: Run, id: WatchId, n: nat)
    requires IsRun(r) && n <= |r.events|
    ensures NotificationsTo(r, id, n) == ReviewChangesOf(r, id, n) + EndingsOf(r, id, n, false)
  {
    hide SysInv, Step, Enabled, Notified, Live;
    if n > 0 {
      NotificationsBalance(r, id, n - 1);
      assert Stepped(r, n - 1);
      RunKeepsInv(r, n - 1);
      StepNotifies(r.cfg, r.states[n - 1], r.events[n - 1], id);
    }
  }

  /** A watch ends once at most: by Close or otherwise, and exactly when it is shown as ended. */
  lemma {:induction false} EndsOnce(r: Run, id: WatchId, n: nat)
    requires IsRun(r) && n <= |r.events| && id in r.states[n].core.watches
    ensures EndingsOf(r, id, n, false) + EndingsOf(r, id, n, true) == if r.states[n].core.watches[id].terminal then 1 else 0
    decreases n
  {
    hide SysInv, Step, Enabled;
    if n > 0 {
      assert Stepped(r, n - 1);
      RunKeepsInv(r, n - 1);
      if id in r.states[n - 1].core.watches {
        EndsOnce(r, id, n - 1);
        NotRestarted(r, id, n);
        StepCarries(r.cfg, r.states[n - 1], r.events[n - 1]);
      } else {
        NewWatchStartsAtZero(r.cfg, r.states[n - 1], r.events[n - 1], id);
        forall i | 0 <= i < n ensures id !in r.states[i].core.watches {
          if id in r.states[i].core.watches { IdsNameOneWatch(r, id, i, n - 1); }
        }
        NeverBefore(r, id, n, false);
        NeverBefore(r, id, n, true);
      }
    }
  }

  lemma NotRestarted(r: Run, id: WatchId, n: nat)
    requires IsRun(r) && 0 < n <= |r.events| && id in r.states[n].core.watches
    ensures !r.events[n - 1].RestartEvent?
  {
    hide SysInv, Enabled;
    assert Stepped(r, n - 1);
  }

  /** An ID names one watch, in every later state of the run: either that watch is still there, with its key and start
      time, or a restart forgot it, and then the ID is from before the process and is never drawn again. */
  lemma {:induction false} IdsNameOneWatch(r: Run, id: WatchId, i: nat, m: nat)
    requires IsRun(r) && i <= m < |r.states| && id in r.states[i].core.watches
    ensures if id in r.states[m].core.watches then SameIdentity(r.states[i].core.watches[id], r.states[m].core.watches[id])
            else id.nanos < r.states[m].core.epoch
    decreases m
  {
    hide SysInv, Enabled;
    if i < m {
      IdsNameOneWatch(r, id, i, m - 1);
      assert Stepped(r, m - 1);
      RunKeepsInv(r, m - 1);
      var s, e := r.states[m - 1], r.events[m - 1];
      IdsAreSpent(r.cfg, s, id);
      if e.RestartEvent? {
        RestartIsLater(s, e);
      } else {
        StepCarries(r.cfg, s, e);
        if id !in s.core.watches && id in r.states[m].core.watches { NewWatchStartsAtZero(r.cfg, s, e, id); }
      }
    }
  }

  lemma RestartIsLater(s: Sys, e: Event)
    requires Enabled(s, e) && e.RestartEvent?
    ensures s.core.clock < e.now
  {
  }

  lemma IdsAreSpent(cfg: Config, s: Sys, id: WatchId)
    requires SysInv(cfg, s)
    ensures s.core.epoch <= s.core.clock && (id in s.core.watches ==> id.nanos <= s.core.clock)
  {
    hide WatchesOk, IndexOk, Ordered, LatestOk, WorkersOk, Constraints, RowOf;
    assert id in s.core.watches ==> RowAgrees(s.core, id);
  }

  lemma {:induction false} NeverBefore(r: Run, id: WatchId, n: nat, byClose: bool)
    requires IsRun(r) && n <= |r.events|
    requires forall i :: 0 <= i < n ==> id !in r.states[i].core.watches
    ensures EndingsOf(r, id, n, byClose) == 0
  {
    if n > 0 {
      NeverBefore(r, id, n - 1, byClose);
      assert id !in r.states[n - 1].core.watches;
    }
  }

  // ---- fetches ----

  ghost predicate StartsFetch(s: Sys, e: Event, s': Sys, id: WatchId) {
    e.PollBeginEvent? && e.id == id && id in s.workers && id in s'.workers && s'.workers[id] == Fetching
  }

  /* When the polls began that went on to fetch. */
  ghost function FetchTimes(r: Run, id: WatchId, n: nat): seq<int>
    requires n <= |r.events| < |r.states|
  {
    if n == 0 then []
    else FetchTimes(r, id, n - 1)
         + if StartsFetch(r.states[n - 1], r.events[n - 1], r.states[n], id) then [r.events[n - 1].now] else []
  }

  lemma ClientMeansLive(cfg: Config, c: Core, id: WatchId)
    requires Inv(cfg, c) && id in c.watches
    ensures c.watches[id].hasClient ==> !c.watches[id].terminal
  {
    hide IndexOk, TableAgrees, Ordered, LatestOk, IdsSpent;
    assert WatchOk(cfg, c, id);
  }

  lemma FetchIsInTime(cfg: Config, s: Sys, e: Event, id: WatchId)
    requires SysInv(cfg, s) && Enabled(s, e) && StartsFetch(s, e, Step(cfg, s, e), id)
    ensures id in s.core.watches && s.core.watches[id].startedAt <= e.now < s.core.watches[id].startedAt + cfg.maxDuration
    ensures s.core.watches[id].hasClient && !s.core.watches[id].terminal
  {
    hide Inv;
    assert WorkerOk(s, id);
    ContextDoneMeansEnded(cfg, s.core, id);
    ClientMeansLive(cfg, s.core, id);
  }

  lemma {:induction false} NeverFetched(r: Run, id: WatchId, n: nat)
    requires IsRun(r) && n <= |r.events| && forall i :: 0 <= i < n ==> id !in r.states[i].core.watches
    ensures FetchTimes(r, id, n) == []
  {
    hide Inv, Enabled, Step;
    if n > 0 {
      NeverFetched(r, id, n - 1);
      RunKeepsInv(r, n - 1);
      assert id !in r.states[n - 1].core.watches;
      assert id !in r.states[n - 1].workers;
    }
  }

  lemma {:induction false} FetchesAreInTime(r: Run, id: WatchId, n: nat)
    requires IsRun(r) && n <= |r.events| && id in r.states[n].core.watches
    ensures var start := r.states[n].core.watches[id].startedAt;
            forall k :: 0 <= k < |FetchTimes(r, id, n)| ==> start <= FetchTimes(r, id, n)[k] < start + r.cfg.maxDuration
    decreases n
  {
    hide SysInv, Step, Enabled, StartsFetch;
    if n > 0 {
      assert Stepped(r, n - 1);
      RunKeepsInv(r, n - 1);
      var s, e := r.states[n - 1], r.events[n - 1];
      if id in s.core.watches {
        FetchesAreInTime(r, id, n - 1);
        NotRestarted(r, id, n);
        StepCarries(r.cfg, s, e);
        if StartsFetch(s, e, r.states[n], id) { FetchIsInTime(r.cfg, s, e, id); }
      } else {
        NewWatchStartsAtZero(r.cfg, s, e, id);
        forall i | 0 <= i < n ensures id !in r.states[i].core.watches {
          if id in r.states[i].core.watches { IdsNameOneWatch(r, id, i, n - 1); }
        }
        NeverFetched(r, id, n);
      }
    }
  }

  // ---- one poll ----

  ghost predicate WorksOn(s: Sys, id: WatchId, worker: Worker) { id in s.workers && s.workers[id] == worker }

  /* When the fetch under way began. */
  lemma {:induction false} FetchBegan(r: Run, id: WatchId, k: nat) returns (j: nat)
    requires IsRun(r) && k < |r.states| && WorksOn(r.states[k], id, Fetching)
    ensures j < k && StartsFetch(r.states[j], r.events[j], r.states[j + 1], id)
    ensures forall m :: j < m <= k ==> WorksOn(r.states[m], id, Fetching)
    decreases k
  {
    hide SysInv, Start, CancelByID, CancelLatest, Close, MarkStale, PollEnd;
    j := 0;
    if k > 0 {
      assert Stepped(r, k - 1);
      if WorksOn(r.states[k - 1], id, Fetching) {
        j := FetchBegan(r, id, k - 1);
      } else {
        j := k - 1;
      }
    }
  }

  /* When the fetch of a returned worker returned. */
  lemma {:induction false} FetchReturned(r: Run, id: WatchId, i: nat) returns (k: nat)
    requires IsRun(r) && i < |r.states| && id in r.states[i].workers && r.states[i].workers[id].Returned?
    ensures var w := r.states[i].workers[id];
            && k < i && WorksOn(r.states[k], id, Fetching) && id in r.states[k].core.watches
            && r.events[k] == FetchReturnsEvent(id, w.at, w.outcome) && forall m :: k < m <= i ==> WorksOn(r.states[m], id, w)
    decreases i
  {
    hide SysInv, Start, CancelByID, CancelLatest, Close, BeginPoll, MarkStale, PollEnd;
    k := 0;
    if i > 0 {
      assert Stepped(r, i - 1);
      var s, e := r.states[i - 1], r.events[i - 1];
      if e.FetchReturnsEvent? && e.id == id {
        k := i - 1;
        RunKeepsInv(r, i - 1);
        WorkerWatched(r.cfg, s, id);
      } else {
        k := FetchReturned(r, id, i - 1);
      }
    }
  }

  lemma WorkerWatched(cfg: Config, s: Sys, id: WatchId)
    requires SysInv(cfg, s) && id in s.workers
    ensures id in s.core.watches
  {
    hide Inv;
    assert WorkerOk(s, id);
  }

  ghost predicate Spaced(ts: seq<int>, d: int) {
    forall k :: 0 < k < |ts| ==> ts[k - 1] + d <= ts[k]
  }

  lemma {:induction false} SpacedSpan(ts: seq<int>, d: int, k: nat)
    requires d > 0 && Spaced(ts, d) && k < |ts|
    ensures ts[0] + k * d <= ts[k]
  {
    if k > 0 {
      SpacedSpan(ts, d, k - 1);
      assert k * d == (k - 1) * d + d;
    }
  }

  /** When polls begin at least d apart, a watch makes at most maxDuration / d fetches, rounded up. */
  lemma FetchesAreBounded(r: Run, id: WatchId, n: nat, d: int)
    requires IsRun(r) && n <= |r.events| && id in r.states[n].core.watches
    requires d > 0 && Spaced(FetchTimes(r, id, n), d)
    ensures |FetchTimes(r, id, n)| <= (r.cfg.maxDuration + d - 1) / d
  {
    hide Init, Stepped, FetchTimes;
    FetchesAreInTime(r, id, n);
    var ts := FetchTimes(r, id, n);
    if |ts| > 0 {
      var last := |ts| - 1;
      SpacedSpan(ts, d, last);
      assert last * d < r.cfg.maxDuration;
      CeilingBound(last, d, r.cfg.maxDuration);
    }
  }

  lemma CeilingBound(last: nat, d: int, total: int)
    requires d > 0 && last * d < total
    ensures last + 1 <= (total + d - 1) / d
  {
    var q := (total + d - 1) / d;
    assert total + d - 1 == q * d + (total + d - 1) % d;
    ProductsInOrder(q, last, d);
  }

  lemma ProductsInOrder(a: int, b: int, d: int)
    requires d > 0
    ensures a <= b ==> a * d <= b * d
  {
  }
}
