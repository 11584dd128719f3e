/** Whose watches a caller can end or see: its own. */
module WatchOwners {
  import opened Prelude
  import opened ReviewStatuses
  import opened WatchTypes
  import opened WatchStore
  import opened WatchSteps
  import opened WatchInvariant
  import opened WatchSections
  import opened WatchRuns
  import opened WatchTheorems
  import opened WatchAccounts
  import opened WatchRows

  /* The ID is known to the manager or its table, and there it belongs to the login. */
  ghost predicate Owns(c: Core, login: string, id: WatchId) {
    if id in c.watches then c.watches[id].key.login == login
    else exists p :: 0 <= p < |c.rows| && c.rows[p].id == id && c.rows[p].key.login == login
  }

  /* Every watch or row in the answer belongs to the login. */
  predicate AnswersOwn(answer: CancelResult, login: string, id: WatchId) {
    match answer
    case FoundTerminal(w) => w.key.login == login && w.id == id && w.terminal
    case DidCancel(w) => w.key.login == login && w.id == id && w.terminal
    case FromTable(row) => row.key.login == login && row.id == id
    case _ => true
  }

  lemma CancelByIDAnswer(cfg: Config, c: Core, login: string, id: WatchId, now: int, fails: bool)
    requires Inv(cfg, c) && c.clock <= now
    ensures var (c', answer) := CancelByID(c, login, id, now, fails);
            && AnswersOwn(answer, login, id)
            && (answer.NotFound? <==> login != "" && !Owns(c, login, id)) && (answer.Refused? <==> login == "")
            && (answer.DidCancel? <==> login != "" && Owns(c, login, id) && Live(c, id))
            && (!answer.DidCancel? ==> c' == c)
  {
    hide IndexOk, Ordered, LatestOk, IdsSpent, Cancel, Rewrote, LifeCycle, RowOf;
    CancelByIDTouches(cfg, c, login, id, now, fails);
    if id in c.watches {
      assert WatchOk(cfg, c, id);
      CancelKeepsKey(c, id, now, fails);
    } else {
      OneRowOfID(c.rows, id);
    }
  }

  lemma OneRowOfID(rows: seq<Row>, id: WatchId)
    requires Constraints(rows)
    ensures forall p :: 0 <= p < |rows| && rows[p].id == id ==> p == Position(rows, id)
  {
  }

  /** A step that cancels by ID: the only watch it changes is the one named, the only row written is that watch's, and only
      if the watch belongs to the caller; all the answer shows is the caller's. A caller the ID does not belong to is told
      that there is no such watch, and nothing has changed. */
  lemma OnlyTheOwnerCancels(r: Run, i: nat)
    requires IsRun(r) && i < |r.events| && r.events[i].CancelByIDEvent?
    ensures var c, c', e := r.states[i].core, r.states[i + 1].core, r.events[i];
            var answer := CancelByID(c, e.login, e.id, e.now, e.fails).1;
            && c'.watches.Keys == c.watches.Keys
            && (forall x :: x in c.watches && c'.watches[x] != c.watches[x] ==> x == e.id && c.watches[x].key.login == e.login != "")
            && OnlyRow(c.rows, c'.rows, e.id) && (c'.rows != c.rows ==> Owns(c, e.login, e.id) && Live(c, e.id))
            && AnswersOwn(answer, e.login, e.id)
            && (e.login != "" && !Owns(c, e.login, e.id) ==>
                  answer.NotFound? && r.states[i + 1] == r.states[i] && Enabled(r.states[i], e) && Notified(r.cfg, r.states[i], e).None?)
            && (e.login != "" && Owns(c, e.login, e.id) && Live(c, e.id) ==>
                  e.id in c'.watches && !Live(c', e.id) && Enabled(r.states[i], e) && Notified(r.cfg, r.states[i], e) == Some(e.id))
  {
    hide Inv, WorkersOk, CancelByID, Rewrote, OnlyRow, Owns, Cancel;
    assert Stepped(r, i);
    RunKeepsInv(r, i);
    var s, e := r.states[i], r.events[i];
    var c := s.core;
    InvParts(r.cfg, c);
    CancelByIDAnswer(r.cfg, c, e.login, e.id, e.now, e.fails);
    CancelByIDTouches(r.cfg, c, e.login, e.id, e.now, e.fails);
    NothingWritten(c.rows, e.id);
    var (c', answer) := CancelByID(c, e.login, e.id, e.now, e.fails);
    if answer.DidCancel? {
      CancelsByCancel(c, e.login, e.id, e.now, e.fails);
      CancelWrites(r.cfg, c, e.id, e.now, e.fails);
      RewroteOnly(c, e.now, c', e.id);
      OwnsWatch(c, e.login, e.id);
    }
  }

  lemma CancelsByCancel(c: Core, login: string, id: WatchId, now: int, fails: bool)
    requires CancelByID(c, login, id, now, fails).1.DidCancel?
    ensures id in c.watches && CancelByID(c, login, id, now, fails).0 == Cancel(c, id, now, fails)
  {
    hide Cancel;
  }

  lemma RewroteOnly(c: Core, now: int, c': Core, id: WatchId)
    requires Rewrote(c.(clock := now), c', id)
    ensures c'.watches.Keys == c.watches.Keys && forall x :: x in c.watches && c'.watches[x] != c.watches[x] ==> x == id
  {
  }

  lemma OwnsWatch(c: Core, login: string, id: WatchId)
    requires Owns(c, login, id) && id in c.watches
    ensures c.watches[id].key.login == login
  {
  }

  /** A step that cancels by user and pull request changes only the live watch of that very key, and only its row; a watch
      in its answer has the key. */
  lemma OnlyTheKeyIsCancelled(r: Run, i: nat)
    requires IsRun(r) && i < |r.events| && r.events[i].CancelLatestEvent?
    ensures var c, c', e := r.states[i].core, r.states[i + 1].core, r.events[i];
            var answer := CancelLatest(c, e.key, e.now, e.fails).1;
            && c'.watches.Keys == c.watches.Keys
            && (forall x :: x in c.watches && c'.watches[x] != c.watches[x] ==> c.watches[x].key == e.key && Live(c, x))
            && (forall p :: 0 <= p < |c.rows| && p < |c'.rows| && c'.rows[p] != c.rows[p] ==> c.rows[p].key == e.key && c.rows[p].isActive)
            && (answer.FoundTerminal? || answer.DidCancel? ==> answer.watch.key == e.key && answer.watch.terminal)
            && (answer.DidCancel? <==> ValidKey(e.key) && exists x :: Live(c, x) && c.watches[x].key == e.key)
  {
    hide Inv, WorkersOk, CancelLatest, Rewrote, OnlyRow, Cancel;
    assert Stepped(r, i);
    RunKeepsInv(r, i);
    var s, e := r.states[i], r.events[i];
    var c := s.core;
    InvParts(r.cfg, c);
    CancelLatestTouches(r.cfg, c, e.key, e.now, e.fails);
    CancelLatestAnswer(r.cfg, c, e.key, e.now, e.fails);
    var (c', answer) := CancelLatest(c, e.key, e.now, e.fails);
    if answer.DidCancel? {
      var id := c.active[e.key];
      CancelWrites(r.cfg, c, id, e.now, e.fails);
      RewroteOnly(c, e.now, c', id);
      RowsOfLive(r.cfg, c, id, c'.rows);
    }
  }

  lemma RowsOfLive(cfg: Config, c: Core, id: WatchId, rows': seq<Row>)
    requires Inv(cfg, c) && Live(c, id) && OnlyRow(c.rows, rows', id)
    ensures forall p :: 0 <= p < |c.rows| && rows'[p] != c.rows[p] ==> c.rows[p].key == c.watches[id].key && c.rows[p].isActive
  {
    hide WatchesOk, IndexOk, Ordered, LatestOk, IdsSpent, RowOf;
    OneRowOfID(c.rows, id);
    assert RowAgrees(c, id);
  }

  lemma CancelLatestAnswer(cfg: Config, c: Core, key: Key, now: int, fails: bool)
    requires Inv(cfg, c) && c.clock <= now
    ensures var (c', answer) := CancelLatest(c, key, now, fails);
            && (answer.FoundTerminal? || answer.DidCancel? ==> answer.watch.key == key && answer.watch.terminal)
            && (answer.DidCancel? <==> ValidKey(key) && exists x :: Live(c, x) && c.watches[x].key == key)
  {
    hide Cancel, Ordered, IdsSpent, LifeCycle, RowOf, Rewrote, TableAgrees;
    CancelLatestTouches(cfg, c, key, now, fails);
    if key in c.latest { assert NamesLatest(c, key); }
    if key in c.active {
      assert Live(c, c.active[key]) && c.watches[c.active[key]].key == key;
      CancelKeepsKey(c, c.active[key], now, fails);
    }
  }

  lemma CancelKeepsKey(c: Core, id: WatchId, now: int, fails: bool)
    requires id in c.watches && c.watches[id].id == id
    ensures id in Cancel(c, id, now, fails).watches && Cancel(c, id, now, fails).watches[id].key == c.watches[id].key
    ensures Cancel(c, id, now, fails).watches[id].terminal && Cancel(c, id, now, fails).watches[id].id == id
  {
    hide Saved;
  }

  // ---- closing ----

  /** Closing is for good until a restart: every watch that lived is ended as stale at that time, every other watch and
      every row of an ended watch is as it was, no Start succeeds afterwards, and nobody is notified. */
  lemma CloseMeans(r: Run, i: nat)
    requires IsRun(r) && i < |r.events| && r.events[i].CloseEvent? && !r.states[i].core.closed
    ensures var c, c', e := r.states[i].core, r.states[i + 1].core, r.events[i];
            && c'.closed && c'.active == map[] && c'.latest == c.latest && c'.watches.Keys == c.watches.Keys
            && (forall x :: x in c.watches && !Live(c, x) ==> c'.watches[x] == c.watches[x])
            && (forall x :: Live(c, x) ==> c'.watches[x].terminal && c'.watches[x].status == Stale && c'.watches[x].completedAt == Some(e.now))
            && EndedRowsStay(c.rows, c'.rows) && Enabled(r.states[i], e) && Notified(r.cfg, r.states[i], e).None?
  {
    hide Inv, WorkersOk, Close, EndedRowsStay;
    assert Stepped(r, i);
    RunKeepsInv(r, i);
    CloseWrites(r.cfg, r.states[i].core, r.events[i].now, r.events[i].failing);
    CloseEnds(r.cfg, r.states[i].core, r.events[i].now, r.events[i].failing);
  }

  lemma CloseEnds(cfg: Config, c: Core, now: int, failing: set<WatchId>)
    requires Inv(cfg, c) && !c.closed
    ensures var c' := Close(c, now, failing);
            && c'.closed && c'.active == map[] && c'.latest == c.latest && c'.watches.Keys == c.watches.Keys
            && (forall x :: x in c.watches && !Live(c, x) ==> c'.watches[x] == c.watches[x])
            && (forall x :: Live(c, x) ==> c'.watches[x].terminal && c'.watches[x].status == Stale && c'.watches[x].completedAt == Some(now))
  {
    hide Inv, Merge, RowOf, CloseOne;
    forall x | Live(c, x) ensures var w' := CloseOne(c.watches[x], now, x in failing); w'.terminal && w'.status == Stale && w'.completedAt == Some(now) {
      LiveIsPlain(cfg, c, x);
      ClosedShows(c.watches[x], now, x in failing);
    }
  }

  lemma ClosedShows(w: Watch, now: int, fails: bool)
    ensures var w' := CloseOne(w, now, fails); w'.terminal && w'.status == Stale && w'.completedAt == Some(now)
  {
  }

  /** A closed manager stays closed, without live watches, until it is restarted. */
  lemma {:induction false} ClosedStaysClosed(r: Run, i: nat, j: nat)
    requires IsRun(r) && i <= j < |r.states| && r.states[i].core.closed && forall k :: i <= k < j ==> !r.events[k].RestartEvent?
    ensures r.states[j].core.closed && forall x :: !Live(r.states[j].core, x)
    decreases j
  {
    hide SysInv, Step, Enabled;
    if i < j {
      ClosedStaysClosed(r, i, j - 1);
      assert Stepped(r, j - 1);
      StepKeepsClosed(r.cfg, r.states[j - 1], r.events[j - 1]);
    }
    ClosedHasNone(r, j);
  }

  lemma StepKeepsClosed(cfg: Config, s: Sys, e: Event)
    requires Enabled(s, e) && !e.RestartEvent? && s.core.closed && forall x :: !Live(s.core, x)
    ensures Step(cfg, s, e).core.closed
  {
    hide Cancel, Close, PollEnd, MarkStale;
    match e
    case CloseEvent(now, failing) => ClosedTwice(s.core, now, failing);
    case PollEndEvent(id, fails) => EndedPollIdles(cfg, s, id, fails);
    case PanicEvent(id, now, text, fails) => EndedPanicIdles(s.core, id, now, Text(text), fails);
    case CancelByIDEvent(_, id, _, _) => assert !Live(s.core, id);
    case CancelLatestEvent(key, _, _) => if key in s.core.active { assert !Live(s.core, s.core.active[key]); }
    case _ =>
  }

  lemma ClosedTwice(c: Core, now: int, failing: set<WatchId>)
    requires c.closed
    ensures Close(c, now, failing) == c
  {
  }

  lemma EndedPollIdles(cfg: Config, s: Sys, id: WatchId, fails: bool)
    requires id in s.workers && (s.workers[id].GivingUp? || s.workers[id].Returned?) && !Live(s.core, id)
    ensures PollEnd(cfg, s, id, fails).core == s.core
  {
    hide Record, Finish, ReviewOf, Decisive;
  }

  lemma EndedPanicIdles(c: Core, id: WatchId, now: int, message: Message, fails: bool)
    requires !Live(c, id)
    ensures MarkStale(c, id, now, message, fails).core == c.(clock := now)
  {
    hide Record, Finish;
  }

  lemma ClosedHasNone(r: Run, j: nat)
    requires IsRun(r) && j < |r.states|
    ensures r.states[j].core.closed ==> forall x :: !Live(r.states[j].core, x)
  {
    hide Step, Enabled, WorkersOk, WatchesOk, TableAgrees, Ordered, LatestOk, IdsSpent;
    RunKeepsInv(r, j);
  }
}
