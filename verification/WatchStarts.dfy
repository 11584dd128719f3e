/** What a Start comes to, field by field, and where the request a watch is linked to comes from. */
module WatchStarts {
  import opened Prelude
  import opened ReviewStatuses
  import opened WatchTypes
  import opened WatchStore
  import opened WatchSteps
  import opened WatchInvariant
  import opened WatchSections
  import opened WatchRuns
  import opened WatchTheorems
  import opened WatchAccounts
  import opened WatchCauses

  /** A watch at its start. */
  predicate Fresh(w: Watch, input: StartInput, trigger: Option<int>, now: int, idNow: int) {
    && w.id.nanos == idNow && w.key == input.key && w.trigger == trigger && w.token == input.token && w.hasClient && !w.ctxDone
    && w.status == Watching && w.reviewStatus.None? && w.failureReason.None? && !w.terminal && w.workerRunning
    && w.pollsDone == 0 && w.upstreamFailures == 0 && w.startedAt == now && w.updatedAt == now
    && w.completedAt.None? && w.staleAt.None? && w.lastPolledAt.None? && w.lastError.None? && w.rateLimitResetAt.None?
    && w.recoveryHint.None?
  }

  /** A live watch that is given new credentials, or its request, and otherwise left alone. */
  predicate Renewed(w: Watch, w': Watch, input: StartInput, trigger: Option<int>, now: int) {
    && w'.token == input.token && w'.trigger == (if w.trigger.Some? then w.trigger else trigger)
    && (if w.token != input.token
        then w'.hasClient && w'.upstreamFailures == 0 && w'.lastError.None? && w'.recoveryHint.None?
        else w'.hasClient == w.hasClient && w'.upstreamFailures == w.upstreamFailures && w'.lastError == w.lastError && w'.recoveryHint == w.recoveryHint)
    && w'.updatedAt == (if w.token != input.token || w'.trigger != w.trigger then now else w.updatedAt)
    && w' == w.(token := w'.token, trigger := w'.trigger, hasClient := w'.hasClient, upstreamFailures := w'.upstreamFailures,
                lastError := w'.lastError, recoveryHint := w'.recoveryHint, updatedAt := w'.updatedAt)
  }

  ghost predicate LiveOf(c: Core, key: Key, id: WatchId) { Live(c, id) && c.watches[id].key == key }

  /* Only the watch with this ID differs. */
  ghost predicate OnlyWatch(c: Core, c': Core, id: WatchId) {
    c'.watches.Keys == c.watches.Keys + {id} && forall x :: x in c.watches && x != id ==> c'.watches[x] == c.watches[x]
  }

  predicate IsValid(input: StartInput) {
    input.key.login != "" && input.key.owner != "" && input.key.repo != "" && input.key.pr > 0 && input.token != ""
  }

  /** Every outcome of a Start. */
  ghost predicate StartComesTo(c: Core, input: StartInput, trigger: Option<int>, now: int, idNow: int, c': Core, result: StartResult) {
    && (result.InvalidInput? <==> !IsValid(input))
    && (result.ClosedError? <==> IsValid(input) && c.closed)
    && (result.InvalidInput? || result.ClosedError? ==> c'.watches == c.watches && c'.rows == c.rows && c'.active == c.active && c'.latest == c.latest)
    && (result.Reused? ==>
          var id := result.watch.id;
          && LiveOf(c, input.key, id) && OnlyWatch(c, c', id) && id in c'.watches && c'.watches[id] == result.watch
          && Renewed(c.watches[id], result.watch, input, trigger, now)
          && (result.watch != c.watches[id] ==> id !in c'.unsaved) && c'.active == c.active && c'.latest == c.latest)
    && (result.Started? ==>
          var w := result.watch;
          && (forall x :: !LiveOf(c, input.key, x)) && w.id !in c.watches && OnlyWatch(c, c', w.id)
          && w.id in c'.watches && c'.watches[w.id] == w && Fresh(w, input, trigger, now, idNow)
          && |c'.rows| == |c.rows| + 1 && c'.rows[..|c.rows|] == c.rows && Tells(c'.rows[|c.rows|], w) && w.id !in c'.unsaved
          && c'.active == c.active[input.key := w.id] && c'.latest == c.latest[input.key := w.id])
    && (result.PersistError? ==>
          if exists x :: LiveOf(c, input.key, x) then
            exists x :: LiveOf(c, input.key, x) && OnlyWatch(c, c', x) && x in c'.watches
                        && Renewed(c.watches[x], c'.watches[x], input, trigger, now) && c'.rows == c.rows && x in c'.unsaved
          else c'.watches == c.watches && c'.rows == c.rows && c'.latest == c.latest)
  }

  lemma RefreshedIsRenewed(w: Watch, input: StartInput, trigger: Option<int>, now: int)
    ensures Renewed(w, Refreshed(w, input, trigger, now), input, trigger, now)
  {
  }

  lemma ReuseComesTo(cfg: Config, c: Core, input: StartInput, trigger: Option<int>, now: int, idNow: int, fails: bool)
    requires Inv(cfg, c) && IsValid(input) && !c.closed && StartReuses(c, input.key)
    ensures var (c', result) := Reuse(c.(clock := idNow), input, trigger, now, fails);
            StartComesTo(c, input, trigger, now, idNow, c', result)
  {
    hide WatchesOk, Ordered, LatestOk, IdsSpent, TableAgrees, Renewed, Refreshed, Upsert, RowOf;
    var id := c.active[input.key];
    LiveIsPlain(cfg, c, id);
    var w := c.watches[id];
    RefreshedIsRenewed(w, input, trigger, now);
    RefreshedKeepsId(w, input, trigger, now);
    assert LiveOf(c, input.key, id);
  }

  lemma RefreshedKeepsId(w: Watch, input: StartInput, trigger: Option<int>, now: int)
    ensures Refreshed(w, input, trigger, now).id == w.id
  {
  }

  lemma LaunchComesTo(cfg: Config, c: Core, input: StartInput, trigger: Option<int>, now: int, idNow: int, fails: bool)
    requires Inv(cfg, c) && c.clock <= now <= idNow && IsValid(input) && !c.closed && !StartReuses(c, input.key)
    ensures var (c', result) := Launch(c.(clock := idNow), input, trigger, now, idNow, fails);
            StartComesTo(c, input, trigger, now, idNow, c', result)
  {
    hide WatchesOk, Ordered, LatestOk, TableAgrees, RowOf, Upsert, Tells;
    var id := WatchId(idNow, c.idSeq + 1);
    FreshEnough(cfg, c, id);
    NoLiveOf(cfg, c, input.key);
    var w := NewWatch(id, input, trigger, now);
    RowTells(w);
    LaunchBlocked(c, input, trigger, now, idNow);
  }

  lemma FreshEnough(cfg: Config, c: Core, id: WatchId)
    requires Inv(cfg, c) && id.nanos >= c.clock && id.count == c.idSeq + 1
    ensures id !in c.watches
  {
    hide WatchesOk, IndexOk, Ordered, LatestOk, RowOf;
    assert id in c.watches ==> RowAgrees(c, id);
  }

  lemma NoLiveOf(cfg: Config, c: Core, key: Key)
    requires Inv(cfg, c) && !StartReuses(c, key)
    ensures key !in c.active && forall x :: !LiveOf(c, key, x)
  {
    hide WatchesOk, Ordered, LatestOk, IdsSpent, TableAgrees;
  }

  /** In every reachable state a Start with valid input gives the live watch of the key new credentials and its request, or
      publishes a fresh watch, or fails, as told; with any other input it changes nothing. */
  lemma StartMeans(r: Run, i: nat)
    requires IsRun(r) && i < |r.events| && r.events[i].StartEvent?
    ensures var e := r.events[i];
            var result := Start(r.states[i].core, e.input, e.trigger, e.now, e.idNow, e.fails).1;
            StartComesTo(r.states[i].core, e.input, e.trigger, e.now, e.idNow, r.states[i + 1].core, result)
  {
    hide Inv, WorkersOk, Launch, Reuse, StartComesTo;
    assert Stepped(r, i);
    RunKeepsInv(r, i);
    var c, e := r.states[i].core, r.events[i];
    if IsValid(e.input) && !c.closed {
      if StartReuses(c, e.input.key) {
        ReuseComesTo(r.cfg, c, e.input, e.trigger, e.now, e.idNow, e.fails);
      } else {
        LaunchComesTo(r.cfg, c, e.input, e.trigger, e.now, e.idNow, e.fails);
      }
    } else {
      RefusedComesTo(c, e.input, e.trigger, e.now, e.idNow, e.fails);
    }
  }

  lemma RefusedComesTo(c: Core, input: StartInput, trigger: Option<int>, now: int, idNow: int, fails: bool)
    requires !IsValid(input) || c.closed
    ensures var (c', result) := Start(c, input, trigger, now, idNow, fails); StartComesTo(c, input, trigger, now, idNow, c', result)
  {
    hide Launch, Reuse;
  }

  // ---- the request a watch is linked to ----

  /* The step gave the watch the request: its Start named it, or its poll looked it up. */
  ghost predicate Gives(r: Run, i: nat, id: WatchId, request: int)
    requires i < |r.events| < |r.states|
  {
    var s, e := r.states[i], r.events[i];
    || (&& e.StartEvent? && e.trigger == Some(request)
        && var result := Start(s.core, e.input, e.trigger, e.now, e.idNow, e.fails).1;
           if result.Started? then result.watch.id == id else LiveOf(s.core, e.input.key, id))
    || (Polled(s, e, id) && LinkOf(s.workers[id].outcome) == Some(request))
  }

  lemma StepLinks(r: Run, i: nat, id: WatchId)
    requires IsRun(r) && i < |r.events| && id in r.states[i].core.watches && !r.events[i].RestartEvent?
    ensures id in r.states[i + 1].core.watches
    ensures var w, w' := r.states[i].core.watches[id], r.states[i + 1].core.watches[id];
            w'.trigger == w.trigger || (w.trigger.None? && w'.trigger.Some? && Gives(r, i, id, w'.trigger.value))
  {
    hide SysInv, Start, CauseOf, WatchCauses.Shown, EndTold, Polled, CountsPoll, Ends, Reports, ResetAfter, LinkOf, Tells;
    assert Stepped(r, i);
    RunKeepsInv(r, i);
    var e := r.events[i];
    StepShowsIt(r.cfg, r.states[i], e, id);
    if e.StartEvent? { StartMeans(r, i); }
  }

  lemma NewIsLinked(r: Run, i: nat, id: WatchId)
    requires IsRun(r) && i < |r.events| && id !in r.states[i].core.watches && id in r.states[i + 1].core.watches
    ensures var w := r.states[i + 1].core.watches[id]; w.trigger.Some? ==> Gives(r, i, id, w.trigger.value)
  {
    hide SysInv, Start, LinkOf, Tells, Renewed;
    assert Stepped(r, i);
    RunKeepsInv(r, i);
    var e := r.events[i];
    if e.StartEvent? { StartMeans(r, i); } else if !e.RestartEvent? { StepCarries(r.cfg, r.states[i], e); }
  }

  /** A watch is linked to at most one request: the one its Start named, at first or when it was renewed, or else the one
      that the first poll recorded with one had looked up. */
  lemma {:induction false} LinkedRequest(r: Run, id: WatchId, n: nat)
    requires IsRun(r) && n <= |r.events| && id in r.states[n].core.watches && r.states[n].core.watches[id].trigger.Some?
    ensures exists i :: 0 <= i < n && Gives(r, i, id, r.states[n].core.watches[id].trigger.value)
                        && forall j :: i < j <= n ==>
                             && id in r.states[j].core.watches
                             && r.states[j].core.watches[id].trigger == r.states[n].core.watches[id].trigger
    decreases n
  {
    hide SysInv, Step, Enabled, Gives;
    NothingAtFirst(r);
    var t := r.states[n].core.watches[id].trigger;
    assert Stepped(r, n - 1);
    if id in r.states[n - 1].core.watches {
      NotRestarted(r, id, n);
      StepLinks(r, n - 1, id);
      if r.states[n - 1].core.watches[id].trigger == t {
        LinkedRequest(r, id, n - 1);
        var i :| 0 <= i < n - 1 && Gives(r, i, id, t.value)
                 && forall j :: i < j <= n - 1 ==> id in r.states[j].core.watches && r.states[j].core.watches[id].trigger == t;
      }
    } else {
      NewIsLinked(r, n - 1, id);
    }
  }
}
