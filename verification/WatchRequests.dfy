/** The watches and the request log together: a poll looks up its pull request's latest request, and marks it
    finished when the review has come, before it ends the watch. */
module WatchRequests {
  import opened Prelude
  import opened ReviewStatuses
  import opened WatchTypes
  import opened WatchStore
  import opened WatchSteps
  import opened WatchRuns
  import opened WatchTheorems
  import opened WatchAccounts
  import opened WatchCauses
  import WatchInvariant
  import TriggerLog
  import Requests
  import Runs = RequestRuns

  function PullOf(key: Key): TriggerLog.PullRequest { TriggerLog.PullRequest(key.owner, key.repo, key.pr) }

  ghost predicate LookedUp(rows: seq<TriggerLog.TriggerRow>, pr: TriggerLog.PullRequest, entry: Option<TriggerEntry>) {
    match entry
    case None => forall x :: x in rows ==> x.pr != pr
    case Some(e) => exists x :: TriggerLog.IsLatest(rows, pr, x) && Hands(x, e)
  }

  /* The entry is the row, its times in nanoseconds. */
  predicate Hands(x: TriggerLog.TriggerRow, e: TriggerEntry) {
    && e.id == x.id && e.requestedAt == x.requestedAt * 1_000_000_000 && e.prevReviewId == x.prevReviewId
    && e.completedAt == if x.completedAt.Some? then Some(x.completedAt.value * 1_000_000_000) else None
  }

  /* The pull request that a key names. */
  predicate IsPullOf(pr: TriggerLog.PullRequest, key: Key) { pr.owner == key.owner && pr.repo == key.repo && pr.number == key.pr }

  /* The poll marks its request finished. */
  predicate Finishes(outcome: PollOutcome) {
    && outcome.Reviewed? && outcome.data.rateLimitRemaining >= 10 && Decisive(ReviewOf(outcome.data, outcome.entry))
    && outcome.entry.Some? && outcome.entry.value.completedAt.None? && !outcome.completionFails
  }

  /** pollOnce between the fetch and the lock: look up the request, derive the status, and mark the request finished
      unless the rate limit is low, the review is still to come, or it is finished already. */
  method ReadReview(log: TriggerLog.Table, key: Key, data: ReviewData, lookupFails: bool, completionFails: bool, now: int)
    returns (outcome: PollOutcome)
    requires TriggerLog.Numbered(log.rows, log.nextId)
    modifies log
    ensures TriggerLog.Numbered(log.rows, log.nextId) && log.nextId == old(log.nextId)
    ensures if lookupFails then outcome == TriggerUnreadable
            else outcome.Reviewed? && outcome.data == data && outcome.completionFails == completionFails
                 && exists pr :: IsPullOf(pr, key) && LookedUp(old(log.rows), pr, outcome.entry)
    ensures log.rows == if Finishes(outcome) then TriggerLog.Completed(old(log.rows), outcome.entry.value.id, now) else old(log.rows)
  {
    if lookupFails {
      return TriggerUnreadable;
    }
    var latest := log.GetLatest(PullOf(key));
    var entry := if latest.Some? then Some(TriggerLog.ToEntry(latest.value)) else None;
    assert latest.Some? ==> Hands(latest.value, entry.value);
    assert IsPullOf(PullOf(key), key);
    outcome := Reviewed(data, entry, completionFails);
    if data.rateLimitRemaining < 10 {
      return;
    }
    if Decisive(ReviewOf(data, entry)) && entry.Some? && entry.value.completedAt.None? {
      if !completionFails {
        log.UpdateCompletedAt(entry.value.id, now);
      }
    }
  }

  // ---- both together ----

  /* At a fetch's return the entry is the one looked up, and a poll that finishes its request does it then. Otherwise
     the log goes its own way: every refused call and every refused cancellation is a step that changes nothing. */
  ghost predicate Agrees(s: Sys, e: Event, log: Runs.Log, f: Runs.Event) {
    e.FetchReturnsEvent? && e.outcome.Reviewed? && e.id in s.core.watches ==>
      && LookedUp(log.rows, PullOf(s.core.watches[e.id].key), e.outcome.entry)
      && (Finishes(e.outcome) ==> f.Completion? && f.id == e.outcome.entry.value.id)
  }

  ghost predicate Joined(r: Run, logs: seq<Runs.Log>, events: seq<Runs.Event>) {
    && IsRun(r) && Runs.IsRun(logs, events) && |events| == |r.events|
    && forall i :: 0 <= i < |r.events| ==> Agrees(r.states[i], r.events[i], logs[i], events[i])
  }

  // ---- finished requests ----

  ghost predicate Finished(rows: seq<TriggerLog.TriggerRow>, pr: TriggerLog.PullRequest, id: int) {
    exists x :: x in rows && x.id == id && x.pr == pr && x.completedAt.Some?
  }

  lemma FinishedStays(s: Runs.Log, f: Runs.Event, s': Runs.Log, pr: TriggerLog.PullRequest, id: int)
    requires Runs.Follows(s, f, s') && Finished(s.rows, pr, id)
    ensures Finished(s'.rows, pr, id)
  {
    hide Requests.Inserts, Requests.HasUnfinished;
    var x :| x in s.rows && x.id == id && x.pr == pr && x.completedAt.Some?;
    var i :| 0 <= i < |s.rows| && s.rows[i] == x;
    assert s'.rows[i] == x;
  }

  lemma {:induction false} FinishedLater(logs: seq<Runs.Log>, events: seq<Runs.Event>, k: nat, n: nat, pr: TriggerLog.PullRequest, id: int)
    requires Runs.IsRun(logs, events) && k <= n < |logs| && Finished(logs[k].rows, pr, id)
    ensures Finished(logs[n].rows, pr, id)
    decreases n
  {
    hide Finished, Runs.Follows;
    if k < n {
      FinishedLater(logs, events, k, n - 1, pr, id);
      FinishedStays(logs[n - 1], events[n - 1], logs[n], pr, id);
    }
  }

  lemma CompletingFinishes(rows: seq<TriggerLog.TriggerRow>, pr: TriggerLog.PullRequest, x: TriggerLog.TriggerRow, now: int)
    requires x in rows && x.pr == pr
    ensures Finished(TriggerLog.Completed(rows, x.id, now), pr, x.id)
  {
    var i :| 0 <= i < |rows| && rows[i] == x;
    var rows' := TriggerLog.Completed(rows, x.id, now);
    assert rows'[i] in rows';
  }

  /* Every request of the pull request still pending is numbered from `mark` on. */
  ghost predicate PendingFrom(rows: seq<TriggerLog.TriggerRow>, pr: TriggerLog.PullRequest, mark: int) {
    forall y :: y in rows && TriggerLog.Unfinished(y, pr) ==> mark <= y.id
  }

  lemma PendingStaysFrom(s: Runs.Log, f: Runs.Event, s': Runs.Log, pr: TriggerLog.PullRequest, mark: int)
    requires Runs.Follows(s, f, s') && PendingFrom(s.rows, pr, mark) && mark <= s.nextId
    ensures PendingFrom(s'.rows, pr, mark) && mark <= s'.nextId
  {
    hide Requests.HasUnfinished;
    if f.Call? && f.result.Recorded? {
      Runs.InsertedRow(s.rows, s.nextId, f.pr, f.c.review.value, f.c.now, f.result.row);
    }
    if f.Completion? {
      forall y | y in s'.rows && TriggerLog.Unfinished(y, pr) ensures mark <= y.id {
        var i :| 0 <= i < |s'.rows| && s'.rows[i] == y;
        assert s.rows[i] in s.rows;
      }
    }
  }

  lemma {:induction false} PendingLaterFrom(logs: seq<Runs.Log>, events: seq<Runs.Event>, k: nat, n: nat,
                                              pr: TriggerLog.PullRequest, mark: int)
    requires Runs.IsRun(logs, events) && k <= n < |logs| && PendingFrom(logs[k].rows, pr, mark) && mark <= logs[k].nextId
    ensures PendingFrom(logs[n].rows, pr, mark) && mark <= logs[n].nextId
    decreases n
  {
    hide PendingFrom, Runs.Follows;
    if k < n {
      PendingLaterFrom(logs, events, k, n - 1, pr, mark);
      PendingStaysFrom(logs[n - 1], events[n - 1], logs[n], pr, mark);
    }
  }

  /* Once the review has come and nothing was lost, the request looked up is finished. */
  lemma FinishedAtFetch(s: Sys, e: Event, log: Runs.Log, f: Runs.Event, log': Runs.Log)
    requires e.FetchReturnsEvent? && e.id in s.core.watches && FoundReview(e.outcome) && e.outcome.entry.Some?
    requires Agrees(s, e, log, f) && Runs.Follows(log, f, log')
    ensures Finished(log'.rows, PullOf(s.core.watches[e.id].key), e.outcome.entry.value.id)
  {
    hide ReviewOf, Decisive, Requests.Handled;
    var pr := PullOf(s.core.watches[e.id].key);
    var x :| TriggerLog.IsLatest(log.rows, pr, x) && Hands(x, e.outcome.entry.value);
    if Finishes(e.outcome) {
      CompletingFinishes(log.rows, pr, x, f.now);
    } else {
      assert Finished(log.rows, pr, x.id);
      FinishedStays(log, f, log', pr, x.id);
    }
  }

  /* When the pending request is the one looked up, no request there was is left pending. */
  lemma NothingLeftAtFetch(s: Sys, e: Event, log: Runs.Log, f: Runs.Event, log': Runs.Log)
    requires e.FetchReturnsEvent? && e.id in s.core.watches && FoundReview(e.outcome)
    requires Agrees(s, e, log, f) && Runs.Follows(log, f, log')
    requires TriggerLog.Numbered(log.rows, log.nextId) && Runs.PendingIsLatest(log.rows)
    ensures PendingFrom(log'.rows, PullOf(s.core.watches[e.id].key), log.nextId) && log.nextId <= log'.nextId
  {
    hide ReviewOf, Decisive, Requests.Handled, Runs.PendingIsLatest, PendingFrom, LookedUp;
    var pr := PullOf(s.core.watches[e.id].key);
    NothingLeft(log.rows, log.nextId, pr, e.outcome.entry, if f.Completion? then f.now else 0);
    if !Finishes(e.outcome) { PendingStaysFrom(log, f, log', pr, log.nextId); }
  }

  lemma NothingLeft(rows: seq<TriggerLog.TriggerRow>, nextId: int, pr: TriggerLog.PullRequest, entry: Option<TriggerEntry>, now: int)
    requires TriggerLog.Numbered(rows, nextId) && Runs.PendingIsLatest(rows) && LookedUp(rows, pr, entry)
    ensures var rows' := if entry.Some? && entry.value.completedAt.None? then TriggerLog.Completed(rows, entry.value.id, now) else rows;
            PendingFrom(rows', pr, nextId)
  {
    var rows' := if entry.Some? && entry.value.completedAt.None? then TriggerLog.Completed(rows, entry.value.id, now) else rows;
    forall i | 0 <= i < |rows'| ensures !TriggerLog.Unfinished(rows'[i], pr) {
      assert rows[i] in rows;
      if TriggerLog.Unfinished(rows[i], pr) {
        assert TriggerLog.IsLatest(rows, pr, rows[i]);
        var x :| TriggerLog.IsLatest(rows, pr, x) && Hands(x, entry.value);
        assert x == rows[i];
      }
    }
  }

  /** A watch that shows COMPLETED or BLOCKED leaves its request finished: the poll that ended it looked its pull
      request's latest request up, and in every later state that request is marked finished. While the clock has kept
      up with the log, no request made before that look-up is left pending, so none of them makes a new one be
      refused. */
  lemma EndedReviewLeavesNoRequest(r: Run, logs: seq<Runs.Log>, events: seq<Runs.Event>, id: WatchId, n: nat)
    returns (k: nat, outcome: PollOutcome)
    requires Joined(r, logs, events) && n <= |r.events| && id in r.states[n].core.watches
    requires r.states[n].core.watches[id].status in {Completed, Blocked}
    ensures k < n && r.events[k].FetchReturnsEvent? && r.events[k].id == id && r.events[k].outcome == outcome && FoundReview(outcome)
    ensures var pr := PullOf(r.states[n].core.watches[id].key);
            && IsPullOf(pr, r.states[n].core.watches[id].key) && LookedUp(logs[k].rows, pr, outcome.entry)
            && (outcome.entry.Some? ==> Finished(logs[n].rows, pr, outcome.entry.value.id))
            && ((forall i :: 0 <= i < k ==> Runs.ClockKeepsUp(logs[i], events[i])) ==> PendingFrom(logs[n].rows, pr, logs[k].nextId))
  {
    hide SysInv, Step, Enabled, Init, IsRun, Runs.IsRun, Finished, PendingFrom, LookedUp, FoundReview, Runs.ClockKeepsUp,
      Runs.Follows, Runs.PendingIsLatest, Runs.OnePending, TriggerLog.Numbered, Finishes;
    RunLengths(r);
    var j, i;
    j, k, i := CompletedMeansReviewFound(r, id, n);
    outcome := r.states[i].workers[id].outcome;
    SameWatch(r, id, k, n);
    LogStep(r, logs, events, k);
    FoundIsReviewed(outcome);
    var pr := PullOf(r.states[n].core.watches[id].key);
    if outcome.entry.Some? {
      FinishedAtFetch(r.states[k], r.events[k], logs[k], events[k], logs[k + 1]);
      FinishedLater(logs, events, k + 1, n, pr, outcome.entry.value.id);
    }
    if forall i :: 0 <= i < k ==> Runs.ClockKeepsUp(logs[i], events[i]) {
      Runs.PendingRows(logs, events, k);
      NothingLeftAtFetch(r.states[k], r.events[k], logs[k], events[k], logs[k + 1]);
      PendingLaterFrom(logs, events, k + 1, n, pr, logs[k].nextId);
    }
  }

  lemma FoundIsReviewed(outcome: PollOutcome)
    requires FoundReview(outcome)
    ensures outcome.Reviewed?
  {
  }

  lemma LogStep(r: Run, logs: seq<Runs.Log>, events: seq<Runs.Event>, k: nat)
    requires Joined(r, logs, events) && k < |r.events|
    ensures |logs| == |events| + 1 == |r.states| && Runs.Follows(logs[k], events[k], logs[k + 1])
    ensures Agrees(r.states[k], r.events[k], logs[k], events[k])
  {
    hide Agrees, Runs.Follows, Step, Enabled, Init;
    assert Runs.IsRun(logs, events);
  }

  lemma SameWatch(r: Run, id: WatchId, k: nat, n: nat)
    requires IsRun(r) && k <= n < |r.states| && id in r.states[k].core.watches && id in r.states[n].core.watches
    ensures r.states[k].core.watches[id].key == r.states[n].core.watches[id].key
  {
    hide IsRun;
    IdsNameOneWatch(r, id, k, n);
  }
}
