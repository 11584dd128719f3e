/** Runs of review requests, completions and arriving reviews: which row is pending, which one a lookup finds, and
    whether a review that was already there can be taken for the answer. */
module RequestRuns {
  import opened Prelude
  import opened ReviewStatuses
  import opened ReviewFetch
  import opened TriggerLog
  import opened Requests

  datatype Event =
    | Call(pr: PullRequest, c: Circumstances, result: RequestResult, requested: bool)
    | Completion(id: int, now: int)
    | Reviewed(pr: PullRequest, reviews: seq<Review>)

  /** The table, and the Copilot reviews each pull request has. */
  datatype Log = Log(rows: seq<TriggerRow>, nextId: int, reviews: map<PullRequest, seq<Review>>)

  function ReviewsOf(s: Log, pr: PullRequest): seq<Review> { if pr in s.reviews then s.reviews[pr] else [] }

  ghost predicate Follows(s: Log, e: Event, s': Log) {
    match e
    case Call(pr, c, result, requested) =>
      && Handled(s.rows, s.nextId, pr, c, result, requested, s'.rows)
      && (c.review.Some? ==> FetchedFrom(ReviewsOf(s, pr), c.review.value))
      && s' == s.(rows := s'.rows, nextId := s.nextId + if result.Recorded? then 1 else 0)
    case Completion(id, now) => s' == s.(rows := Completed(s.rows, id, now))
    case Reviewed(pr, reviews) =>
      Grows(ReviewsOf(s, pr), reviews) && Timed(reviews) && s' == s.(reviews := s.reviews[pr := reviews])
  }

  ghost predicate IsRun(states: seq<Log>, events: seq<Event>) {
    && |states| == |events| + 1 && states[0] == Log([], 1, map[])
    && forall i :: 0 <= i < |events| ==> Follows(states[i], events[i], states[i + 1])
  }

  /* A row inserted without a review's ID does not read a clock behind a row of its pull request. */
  ghost predicate ClockKeepsUp(s: Log, e: Event) {
    e.Call? && e.result.Recorded? && e.result.row.prevReviewId.None? ==>
      forall x :: x in s.rows && x.pr == e.pr ==> x.requestedAt <= Sec(e.c.now)
  }

  ghost predicate OnePending(rows: seq<TriggerRow>) {
    forall i, j :: 0 <= i < j < |rows| && rows[i].completedAt.None? && rows[j].completedAt.None? ==> rows[i].pr != rows[j].pr
  }

  ghost predicate PendingIsLatest(rows: seq<TriggerRow>) {
    forall r :: r in rows && r.completedAt.None? ==> IsLatest(rows, r.pr, r)
  }

  lemma CallKeepsOnePending(s: Log, e: Event, s': Log)
    requires Numbered(s.rows, s.nextId) && OnePending(s.rows) && Follows(s, e, s')
    ensures Numbered(s'.rows, s'.nextId) && OnePending(s'.rows)
  {
    hide Inserts;
    if e.Call? {
      if e.result.Recorded? {
        InsertedRow(s.rows, s.nextId, e.pr, e.c.review.value, e.c.now, e.result.row);
        assert forall i :: 0 <= i < |s.rows| ==> s.rows[i] in s.rows && !Unfinished(s.rows[i], e.pr);
      }
    } else if e.Completion? {
      CompletedKeepsIds(s.rows, e.id, e.now, s.nextId);
    }
  }

  lemma InsertedRow(rows: seq<TriggerRow>, id: int, pr: PullRequest, data: ReviewData, now: int, row: TriggerRow)
    requires Inserts(rows, id, pr, data, now, row)
    ensures row.id == id && row.pr == pr && row.completedAt.None?
  {
  }

  lemma CompletionKeepsLatest(rows: seq<TriggerRow>, id: int, now: int, nextId: int)
    requires Numbered(rows, nextId) && PendingIsLatest(rows)
    ensures PendingIsLatest(Completed(rows, id, now))
  {
    var rows' := Completed(rows, id, now);
    forall r | r in rows' && r.completedAt.None? ensures IsLatest(rows', r.pr, r) {
      assert r in rows;
      forall x | x in rows' && x.pr == r.pr && x != r ensures Newer(r, x) {
        var i :| 0 <= i < |rows'| && rows'[i] == x;
        assert rows[i] in rows && rows[i] != r;
      }
    }
  }

  lemma CallKeepsLatest(s: Log, e: Event, s': Log)
    requires Numbered(s.rows, s.nextId) && PendingIsLatest(s.rows) && Follows(s, e, s') && e.Call? && ClockKeepsUp(s, e)
    ensures PendingIsLatest(s'.rows)
  {
    if e.result.Recorded? {
      RecordedRowIsLatestIff(s.rows, s.nextId, e.pr, e.c, e.result, s'.rows);
      forall r | r in s'.rows && r.completedAt.None? ensures IsLatest(s'.rows, r.pr, r) {
        if r != e.result.row {
          assert r in s.rows && !Unfinished(r, e.pr);
          assert forall x :: x in s'.rows && x.pr == r.pr ==> x in s.rows;
        }
      }
    }
  }

  /** Over every run of calls and completions a pull request has at most one pending row; as long as the
      clock keeps up, the row that is pending is the one a lookup finds, so it can be completed. */
  lemma {:induction false} PendingRows(states: seq<Log>, events: seq<Event>, n: nat)
    requires IsRun(states, events) && n < |states|
    ensures Numbered(states[n].rows, states[n].nextId) && OnePending(states[n].rows)
    ensures (forall i :: 0 <= i < n ==> ClockKeepsUp(states[i], events[i])) ==> PendingIsLatest(states[n].rows)
  {
    hide Follows, OnePending, Numbered, PendingIsLatest, ClockKeepsUp;
    if n == 0 {
      NothingPending();
    } else {
      PendingRows(states, events, n - 1);
      var s, e, s' := states[n - 1], events[n - 1], states[n];
      CallKeepsOnePending(s, e, s');
      if forall i :: 0 <= i < n ==> ClockKeepsUp(states[i], events[i]) {
        StepKeepsLatest(s, e, s');
      }
    }
  }

  lemma NothingPending()
    ensures Numbered([], 1) && OnePending([]) && PendingIsLatest([])
  {
  }

  lemma StepKeepsLatest(s: Log, e: Event, s': Log)
    requires Numbered(s.rows, s.nextId) && PendingIsLatest(s.rows) && Follows(s, e, s') && ClockKeepsUp(s, e)
    ensures PendingIsLatest(s'.rows)
  {
    hide PendingIsLatest, Handled, ClockKeepsUp, Numbered;
    if e.Call? {
      CallKeepsLatest(s, e, s');
    } else if e.Completion? {
      CompletionKeepsLatest(s.rows, e.id, e.now, s.nextId);
    }
  }

  // ---- an old review is not taken for a new one ----

  /* The review whose ID a row recorded: the first of those submitted last when the request was made. */
  ghost predicate Origin(reviews: seq<Review>, r: TriggerRow, i: nat) {
    && i < |reviews| && r.prevReviewId == Some(Decimal(reviews[i].id))
    && reviews[i].submittedAt.Some? && Sec(Sat(reviews[i]) + SECOND) == r.requestedAt
    && forall j :: 0 <= j < i ==> Sat(reviews[j]) < Sat(reviews[i])
  }

  ghost predicate HasOrigin(s: Log, r: TriggerRow) {
    r.prevReviewId.Some? ==> exists i :: Origin(ReviewsOf(s, r.pr), r, i)
  }

  ghost predicate Known(s: Log) {
    && (forall r :: r in s.rows ==> HasOrigin(s, r))
    && forall pr :: Timed(ReviewsOf(s, pr))
  }

  lemma OriginStays(before: seq<Review>, after: seq<Review>, r: TriggerRow, i: nat)
    requires Origin(before, r, i) && Grows(before, after)
    ensures Origin(after, r, i)
  {
    assert forall j :: 0 <= j < |before| ==> Sat(after[j]) == Sat(before[j]);
  }

  lemma CallKeepsOrigins(s: Log, e: Event, s': Log)
    requires Known(s) && Follows(s, e, s') && e.Call?
    ensures Known(s')
  {
    hide Origin, Timed, FetchedFrom;
    forall r | r in s'.rows ensures HasOrigin(s', r) {
      if r in s.rows {
        assert HasOrigin(s, r);
      } else if r.prevReviewId.Some? {
        RecordedOrigin(ReviewsOf(s, e.pr), s.rows, s.nextId, e.pr, e.c.review.value, e.c.now, r);
      }
      assert ReviewsOf(s', r.pr) == ReviewsOf(s, r.pr);
    }
    assert forall pr :: ReviewsOf(s', pr) == ReviewsOf(s, pr);
  }

  lemma RecordedOrigin(reviews: seq<Review>, rows: seq<TriggerRow>, id: int, pr: PullRequest, data: ReviewData, now: int, row: TriggerRow)
    requires Inserts(rows, id, pr, data, now, row) && FetchedFrom(reviews, data) && row.prevReviewId.Some?
    ensures exists i :: Origin(reviews, row, i)
  {
    var i := LatestMeaning(reviews);
    assert Origin(reviews, row, i);
  }

  lemma StepKeepsOrigins(s: Log, e: Event, s': Log)
    requires Known(s) && Follows(s, e, s')
    ensures Known(s')
  {
    hide Origin, Timed, Grows, Handled;
    match e
    case Call(_, _, _, _) => CallKeepsOrigins(s, e, s');
    case Completion(id, now) =>
      forall r | r in s'.rows ensures HasOrigin(s', r) {
        var k :| 0 <= k < |s'.rows| && s'.rows[k] == r;
        assert s.rows[k] in s.rows && HasOrigin(s, s.rows[k]);
        if r.prevReviewId.Some? {
          var i: nat :| Origin(ReviewsOf(s, r.pr), s.rows[k], i);
          CompletionKeepsOrigin(ReviewsOf(s, r.pr), s.rows[k], r, i);
          assert Origin(ReviewsOf(s', r.pr), r, i);
        }
      }
      assert forall pr :: ReviewsOf(s', pr) == ReviewsOf(s, pr);
    case Reviewed(pr, reviews) =>
      forall r | r in s'.rows ensures HasOrigin(s', r) {
        assert HasOrigin(s, r);
        if r.prevReviewId.Some? {
          var i: nat :| Origin(ReviewsOf(s, r.pr), r, i);
          if r.pr == pr {
            OriginStays(ReviewsOf(s, pr), reviews, r, i);
          }
          assert Origin(ReviewsOf(s', r.pr), r, i);
        }
      }
      forall x ensures Timed(ReviewsOf(s', x)) { assert Timed(ReviewsOf(s, x)); }
  }

  lemma CompletionKeepsOrigin(reviews: seq<Review>, r: TriggerRow, r': TriggerRow, i: nat)
    requires r' == r.(completedAt := r'.completedAt) && Origin(reviews, r, i)
    ensures Origin(reviews, r', i)
  {
  }

  lemma {:induction false} OriginsAreKnown(states: seq<Log>, events: seq<Event>, n: nat)
    requires IsRun(states, events) && n < |states|
    ensures Known(states[n])
  {
    hide Follows, Known;
    if n == 0 {
      NothingKnown();
    } else {
      OriginsAreKnown(states, events, n - 1);
      StepKeepsOrigins(states[n - 1], events[n - 1], states[n]);
    }
  }

  lemma NothingKnown()
    ensures Known(Log([], 1, map[]))
  {
  }

  /* A row not older than the request time a listed review asks for: either it recorded that very review, or it
     recorded none. */
  lemma OutrunningRow(reviews: seq<Review>, f: TriggerRow, existing: Review)
    requires LatestOf(reviews) == Some(existing) && existing.submittedAt.Some?
    requires f.requestedAt * SECOND >= Sat(existing) + SECOND && (f.prevReviewId.Some? ==> exists i :: Origin(reviews, f, i))
    ensures f.prevReviewId.Some? ==> f.prevReviewId == Some(Decimal(existing.id))
  {
    if f.prevReviewId.Some? {
      var i: nat :| Origin(reviews, f, i);
      var last := LatestMeaning(reviews);
      FirstLatestIsUnique(reviews, last, i);
    }
  }

  /** After a recorded request, whatever row a lookup finds, even an older one that hides the new row: a fetch that
      listed the reviews lets the review that was already there end a later wait only when no ID was recorded and
      the timeline shows a request no later than it. A fetch too short of rate limit to list them leaves more: a
      row that recorded another review's ID, or none and a time no later than the review. */
  lemma OldReviewCountsInRunsIff(states: seq<Log>, events: seq<Event>, n: nat, f: TriggerRow, existing: Review, later: ReviewData)
    requires IsRun(states, events) && n < |events| && events[n].Call? && events[n].result.Recorded?
    requires var e := events[n];
             && LatestOf(ReviewsOf(states[n], e.pr)) == Some(existing) && StillShows(later, existing)
             && IsLatest(states[n + 1].rows, e.pr, f)
    ensures events[n].c.review.Some?
    ensures var listed := events[n].c.review.value.latest.Some?;
            Decisive(DeriveStatus(later, Some(ToEntry(f).requestedAt), f.prevReviewId)) <==>
            if f.prevReviewId.Some? then !listed && f.prevReviewId != Some(Decimal(existing.id))
            else
              && Sat(existing) != ZERO_TIME
              && if later.reviewRequestedAt.Some? then Sat(existing) >= later.reviewRequestedAt.value
                 else !listed && Sat(existing) >= f.requestedAt * SECOND
  {
    hide Known, Origin, Timed, LatestOf, PendingIsLatest, Numbered, ClockKeepsUp, OnePending;
    var s, e, s' := states[n], events[n], states[n + 1];
    assert Follows(s, e, s');
    OriginsAreKnown(states, events, n);
    PendingRows(states, events, n);
    KnownRow(s, f);
    FoundRow(s, e, s', f);
    KnownTime(s, e.pr, existing);
    if f != e.result.row && Candidate(e.c.review.value).Some? {
      OutrunningRow(ReviewsOf(s, e.pr), f, existing);
    }
    if f == e.result.row && f.prevReviewId.None? && Candidate(e.c.review.value).Some? {
      NewPlainRow(s.rows, s.nextId, e.pr, e.c.review.value, e.c.now, f, s'.rows);
    }
    if f in s.rows && f.pr == e.pr { IdsAreOfTimedReviews(s, f, existing); }
  }

  lemma KnownRow(s: Log, f: TriggerRow)
    requires Known(s)
    ensures f in s.rows && f.prevReviewId.Some? ==> exists i :: Origin(ReviewsOf(s, f.pr), f, i)
  {
    hide Origin;
    assert f in s.rows ==> HasOrigin(s, f);
  }

  /* The row found is the new one, or one that is not older than the candidate time. */
  lemma FoundRow(s: Log, e: Event, s': Log, f: TriggerRow)
    requires Numbered(s.rows, s.nextId) && Follows(s, e, s') && e.Call? && e.result.Recorded? && IsLatest(s'.rows, e.pr, f)
    ensures f == e.result.row || (f in s.rows && f.pr == e.pr)
    ensures f != e.result.row && Candidate(e.c.review.value).Some? ==> f.requestedAt * SECOND >= Candidate(e.c.review.value).value.0
  {
    hide FetchedFrom, Numbered;
    var row := e.result.row;
    assert s'.rows == s.rows + [row];
    if f != row && Candidate(e.c.review.value).Some? {
      RecordedRowIsLatestIff(s.rows, s.nextId, e.pr, e.c, e.result, s'.rows);
      InsertedRow(s.rows, s.nextId, e.pr, e.c.review.value, e.c.now, row);
      assert row in s'.rows;
      assert row.prevReviewId.None?;
      var x :| x in s.rows && x.pr == e.pr && Candidate(e.c.review.value).value.0 <= x.requestedAt * SECOND;
      assert x in s'.rows;
    }
  }

  lemma KnownTime(s: Log, pr: PullRequest, existing: Review)
    requires Known(s) && LatestOf(ReviewsOf(s, pr)) == Some(existing)
    ensures existing.submittedAt.Some? ==> Sat(existing) > ZERO_TIME
  {
    hide HasOrigin;
    var i := LatestMeaning(ReviewsOf(s, pr));
    assert Timed(ReviewsOf(s, pr));
    assert ReviewsOf(s, pr)[i] in ReviewsOf(s, pr);
  }

  lemma NewPlainRow(rows: seq<TriggerRow>, id: int, pr: PullRequest, data: ReviewData, now: int, row: TriggerRow, rows': seq<TriggerRow>)
    requires Numbered(rows, id) && Inserts(rows, id, pr, data, now, row) && row.prevReviewId.None? && Candidate(data).Some?
    requires rows' == rows + [row] && IsLatest(rows', pr, row)
    ensures row.requestedAt * SECOND >= Candidate(data).value.0
  {
    var x :| x in rows && x.pr == pr && Candidate(data).value.0 <= x.requestedAt * SECOND;
    NewRowIsLatestIff(rows, id, row);
  }

  /* A row recorded an ID only where the latest review has a time. */
  lemma IdsAreOfTimedReviews(s: Log, f: TriggerRow, existing: Review)
    requires Known(s) && f in s.rows && LatestOf(ReviewsOf(s, f.pr)) == Some(existing)
    ensures f.prevReviewId.Some? ==> existing.submittedAt.Some? && Sat(existing) != ZERO_TIME
  {
    var reviews := ReviewsOf(s, f.pr);
    assert HasOrigin(s, f);
    if f.prevReviewId.Some? {
      var i: nat :| Origin(reviews, f, i);
      var last := LatestMeaning(reviews);
      assert Timed(reviews) && reviews[i] in reviews;
    }
  }

  // ---- a hidden row ----

  /* Completions are of rows a lookup has found. */
  ghost predicate CompletesFound(states: seq<Log>, events: seq<Event>)
    requires |states| == |events| + 1
  {
    forall n :: 0 <= n < |events| && events[n].Completion? ==> Found(states, n, events[n].id)
  }

  ghost predicate Found(states: seq<Log>, n: nat, id: int)
    requires n < |states|
  {
    exists k: nat, r: TriggerRow :: k <= n && IsLatest(states[k].rows, r.pr, r) && r.id == id
  }

  ghost predicate Outrun(rows: seq<TriggerRow>, row: TriggerRow) {
    row in rows && exists h :: h in rows && h.pr == row.pr && Newer(h, row)
  }

  lemma OutrunIsNotLatest(rows: seq<TriggerRow>, nextId: int, row: TriggerRow)
    requires Numbered(rows, nextId) && row in rows
    ensures Outrun(rows, row) <==> !IsLatest(rows, row.pr, row)
  {
    if !IsLatest(rows, row.pr, row) {
      var h :| h in rows && h.pr == row.pr && h != row && !Newer(row, h);
      if h.id == row.id { SameIdSameRow(rows, nextId, h, row); }
    }
  }

  lemma SameIdSameRow(rows: seq<TriggerRow>, nextId: int, a: TriggerRow, b: TriggerRow)
    requires Numbered(rows, nextId) && a in rows && b in rows && a.id == b.id
    ensures a == b
  {
  }

  lemma StepKeepsOutrun(s: Log, e: Event, s': Log, row: TriggerRow)
    requires Follows(s, e, s') && Outrun(s.rows, row) && row.completedAt.None? && (e.Completion? ==> e.id != row.id)
    ensures Outrun(s'.rows, row)
  {
    hide Handled;
    var h :| h in s.rows && h.pr == row.pr && Newer(h, row);
    match e
    case Call(_, _, _, _) => CallAppends(s, e, s');
    case Completion(id, now) =>
      var i :| 0 <= i < |s.rows| && s.rows[i] == row;
      var k :| 0 <= k < |s.rows| && s.rows[k] == h;
      assert s'.rows[i] == row && s'.rows[k] in s'.rows;
      assert Newer(s'.rows[k], row);
    case Reviewed(_, _) =>
  }

  lemma CallAppends(s: Log, e: Event, s': Log)
    requires Follows(s, e, s') && e.Call?
    ensures s.rows <= s'.rows
  {
  }

  /* Row IDs of an earlier state are below those drawn later. */
  lemma {:induction false} IdsGrow(states: seq<Log>, events: seq<Event>, k: nat, n: nat)
    requires IsRun(states, events) && k <= n < |states|
    ensures states[k].nextId <= states[n].nextId
    decreases n
  {
    hide Handled;
    if k < n {
      IdsGrow(states, events, k, n - 1);
      assert Follows(states[n - 1], events[n - 1], states[n]);
    }
  }

  /** A row hidden when it was recorded is hidden for good: no lookup ever finds it, nothing completes it, and every
      further request for the pull request is refused. */
  lemma {:induction false} HiddenRowBlocksForever(states: seq<Log>, events: seq<Event>, i: nat, n: nat)
    requires IsRun(states, events) && CompletesFound(states, events) && i < n < |states|
    requires events[i].Call? && events[i].result.Recorded?
    requires !IsLatest(states[i + 1].rows, events[i].pr, events[i].result.row)
    ensures var row := events[i].result.row;
            && row.pr == events[i].pr && row.completedAt.None? && row in states[n].rows
            && !IsLatest(states[n].rows, row.pr, row) && HasUnfinished(states[n].rows, row.pr)
            && (n < |events| && events[n].Call? && events[n].pr == row.pr ==> !events[n].requested)
    decreases n
  {
    hide Numbered, IsLatest, Handled, Newer, OnePending, PendingIsLatest, ClockKeepsUp;
    var row := events[i].result.row;
    HiddenAtFirst(states, events, i);
    StaysOutrun(states, events, i, n);
    PendingRows(states, events, n);
    OutrunIsNotLatest(states[n].rows, states[n].nextId, row);
    assert Unfinished(row, row.pr);
    if n < |events| && events[n].Call? {
      assert Follows(states[n], events[n], states[n + 1]);
      NoSecondRequestWhilePending(states[n].rows, states[n].nextId, events[n].pr, events[n].c, events[n].result, events[n].requested,
                                  states[n + 1].rows);
    }
  }

  lemma HiddenAtFirst(states: seq<Log>, events: seq<Event>, i: nat)
    requires IsRun(states, events) && i < |events| && events[i].Call? && events[i].result.Recorded?
    ensures var row := events[i].result.row;
            row.id == states[i].nextId && row.pr == events[i].pr && row.completedAt.None? && row in states[i + 1].rows
    ensures !IsLatest(states[i + 1].rows, events[i].pr, events[i].result.row) ==> Outrun(states[i + 1].rows, events[i].result.row)
  {
    hide IsLatest, Outrun, Inserts, OnePending, PendingIsLatest, ClockKeepsUp, Numbered;
    var s, e := states[i], events[i];
    assert Follows(s, e, states[i + 1]);
    InsertedRow(s.rows, s.nextId, e.pr, e.c.review.value, e.c.now, e.result.row);
    PendingRows(states, events, i + 1);
    OutrunIsNotLatest(states[i + 1].rows, states[i + 1].nextId, e.result.row);
  }

  lemma {:induction false} StaysOutrun(states: seq<Log>, events: seq<Event>, i: nat, n: nat)
    requires IsRun(states, events) && CompletesFound(states, events) && i < n < |states|
    requires events[i].Call? && events[i].result.Recorded? && Outrun(states[i + 1].rows, events[i].result.row)
    ensures forall k :: i < k <= n ==> Outrun(states[k].rows, events[i].result.row)
    decreases n
  {
    hide Numbered, IsLatest, Follows, Outrun, Handled;
    var row := events[i].result.row;
    HiddenAtFirst(states, events, i);
    if i + 1 < n {
      StaysOutrun(states, events, i, n - 1);
      var e := events[n - 1];
      if e.Completion? && e.id == row.id {
        var k: nat, r: TriggerRow :| k <= n - 1 && IsLatest(states[k].rows, r.pr, r) && r.id == e.id;
        NeverFound(states, events, i, k, r);
      }
      StepKeepsOutrun(states[n - 1], e, states[n], row);
    }
  }

  lemma NeverFound(states: seq<Log>, events: seq<Event>, i: nat, k: nat, r: TriggerRow)
    requires IsRun(states, events) && i < |events| && k < |states| && events[i].Call? && events[i].result.Recorded?
    requires k > i ==> Outrun(states[k].rows, events[i].result.row)
    requires IsLatest(states[k].rows, r.pr, r)
    ensures r.id != events[i].result.row.id
  {
    hide Follows, OnePending, PendingIsLatest, ClockKeepsUp;
    HiddenAtFirst(states, events, i);
    PendingRows(states, events, k);
    var row := events[i].result.row;
    if k <= i {
      IdsGrow(states, events, k, i);
    } else if r.id == row.id {
      SameIdSameRow(states[k].rows, states[k].nextId, r, row);
      OutrunIsNotLatest(states[k].rows, states[k].nextId, row);
    }
  }
}
