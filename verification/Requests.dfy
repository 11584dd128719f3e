/** Requesting a review: the guards, the request, and the trigger_log row from which later polls tell an old
    review from a new one. */
module Requests {
  import opened Prelude
  import opened ReviewStatuses
  import opened ReviewFetch
  import opened TriggerLog

  /* What the database and GitHub do during one call. */
  datatype Circumstances = Circumstances(
    hasClient: bool,
    pendingFails: bool,
    review: Option<ReviewData>,      // None: the fetch failed
    requestFails: bool,
    latestFails: bool,
    insertFails: bool,
    now: int)

  datatype RequestResult =
    | InvalidInput | NoClient | DatabaseFailed | PendingInLog | FetchFailed | AlreadyReviewer | RequestFailed
    | NotRecorded                    // requested, but without a row
    | Recorded(row: TriggerRow)

  /* The time and review ID of the insert that outruns the review already there. */
  function Candidate(data: ReviewData): Option<(int, string)> {
    match data.latest
    case None => None
    case Some(review) =>
      if review.submittedAt.None? || review.submittedAt.value == ZERO_TIME then None
      else Some((review.submittedAt.value + SECOND, Decimal(review.id)))
  }

  /* The row a successful call inserts. */
  ghost predicate Inserts(rows: seq<TriggerRow>, id: int, pr: PullRequest, data: ReviewData, now: int, row: TriggerRow) {
    if Submitted(data) && forall x :: x in rows && x.pr == pr ==> data.latest.value.submittedAt.value + 1_000_000_000 > x.requestedAt * 1_000_000_000
    then row == TriggerRow(id, pr, "MANUAL", Sec(data.latest.value.submittedAt.value + 1_000_000_000), None, Some(Decimal(data.latest.value.id)))
    else row == TriggerRow(id, pr, "MANUAL", Sec(now), None, None)
  }

  /* There is a review with a time. */
  predicate Submitted(data: ReviewData) {
    data.latest.Some? && data.latest.value.submittedAt.Some? && data.latest.value.submittedAt.value != ZERO_TIME
  }

  ghost predicate HasUnfinished(rows: seq<TriggerRow>, pr: PullRequest) {
    exists r :: r in rows && Unfinished(r, pr)
  }

  predicate ValidPR(pr: PullRequest) { pr.owner != "" && pr.repo != "" && pr.number > 0 }

  /** What one call comes to, case by case. */
  ghost predicate Handled(rows: seq<TriggerRow>, id: int, pr: PullRequest, c: Circumstances,
                          result: RequestResult, requested: bool, rows': seq<TriggerRow>) {
    && rows' == (if result.Recorded? then rows + [result.row] else rows)
    && (requested <==> result.RequestFailed? || result.NotRecorded? || result.Recorded?)
    && if !ValidPR(pr) then result == InvalidInput
       else if !c.hasClient then result == NoClient
       else if c.pendingFails then result == DatabaseFailed
       else if HasUnfinished(rows, pr) then result == PendingInLog
       else if c.review.None? then result == FetchFailed
       else if c.review.value.isCopilotInReviewers then result == AlreadyReviewer
       else if c.requestFails then result == RequestFailed
       else if (c.latestFails && Submitted(c.review.value)) || c.insertFails then result == NotRecorded
       else result.Recorded? && Inserts(rows, id, pr, c.review.value, c.now, result.row)
  }

  /** requestHandler. `requested` says whether the request was sent to GitHub. */
  method Request(db: Table, pr: PullRequest, c: Circumstances) returns (result: RequestResult, requested: bool)
    requires Numbered(db.rows, db.nextId)
    modifies db
    ensures Numbered(db.rows, db.nextId)
    ensures Handled(old(db.rows), old(db.nextId), pr, c, result, requested, db.rows)
    ensures db.nextId == old(db.nextId) + if result.Recorded? then 1 else 0
  {
    requested := false;
    if !ValidPR(pr) {
      return InvalidInput, false;
    }
    if !c.hasClient {
      return NoClient, false;
    }
    if c.pendingFails {
      return DatabaseFailed, false;
    }
    var pending := db.HasPending(pr);
    if pending {
      return PendingInLog, false;
    }
    if c.review == None {
      return FetchFailed, false;
    }
    var data := c.review.value;
    if data.isCopilotInReviewers {
      return AlreadyReviewer, false;
    }
    requested := true;
    if c.requestFails {
      return RequestFailed, true;
    }
    var candidate := Candidate(data);
    var id := db.nextId;
    if candidate.Some? {
      if c.latestFails {
        return NotRecorded, true;
      }
      var latest := db.GetLatest(pr);
      LatestSuffices(db.rows, pr, latest, candidate.value.0);
      if latest == None || candidate.value.0 > latest.value.requestedAt * SECOND {
        var ok := db.InsertWithPrevReviewID(pr, "MANUAL", candidate.value.0, candidate.value.1, c.insertFails);
        return if ok then Recorded(db.rows[|db.rows| - 1]) else NotRecorded, true;
      }
    }
    var ok := db.Insert(pr, "MANUAL", c.now, c.insertFails);
    return if ok then Recorded(db.rows[|db.rows| - 1]) else NotRecorded, true;
  }

  /* Comparing with the latest row is comparing with all of them. */
  lemma LatestSuffices(rows: seq<TriggerRow>, pr: PullRequest, latest: Option<TriggerRow>, at: int)
    requires latest.None? <==> forall x :: x in rows ==> x.pr != pr
    requires latest.Some? ==> IsLatest(rows, pr, latest.value)
    ensures (latest.None? || at > latest.value.requestedAt * SECOND) <==>
            forall x :: x in rows && x.pr == pr ==> at > x.requestedAt * SECOND
  {
    if latest.Some? && at > latest.value.requestedAt * SECOND {
      forall x | x in rows && x.pr == pr ensures at > x.requestedAt * SECOND {
        assert x == latest.value || Newer(latest.value, x);
      }
    }
  }

  // ---- what a recorded request guarantees ----

  lemma SecIsMonotone(a: int, s: int)
    requires a > s * SECOND
    ensures Sec(a) >= s
  {
  }

  /** After a recorded request, looking up the latest row finds the row just inserted if and only if it
      carries the ID of the previous review or the database's clock has not fallen behind the rows there. */
  lemma RecordedRowIsLatestIff(rows: seq<TriggerRow>, id: int, pr: PullRequest, c: Circumstances, result: RequestResult,
                               rows': seq<TriggerRow>)
    requires Numbered(rows, id) && Handled(rows, id, pr, c, result, true, rows') && result.Recorded?
    ensures IsLatest(rows', pr, result.row) <==>
            result.row.prevReviewId.Some? || forall x :: x in rows && x.pr == pr ==> x.requestedAt <= Sec(c.now)
  {
    var row := result.row;
    NewRowIsLatestIff(rows, id, row);
    if row.prevReviewId.Some? {
      forall x | x in rows && x.pr == pr ensures x.requestedAt <= row.requestedAt {
        SecIsMonotone(Candidate(c.review.value).value.0, x.requestedAt);
      }
    }
  }

  /* Later data shows the review that was the latest when the request was made. */
  predicate StillShows(later: ReviewData, existing: Review) {
    later.latest.Some? && later.latest.value.id == existing.id && later.latest.value.submittedAt == existing.submittedAt
  }

  /** From the recorded row, the review that was already there ends a later wait exactly when no review ID was
      recorded and it is no earlier than the request: than the one the timeline shows, or else than the row, which
      takes a fetch too short of rate limit to list the review, in the second the row was inserted or behind it. */
  lemma OldReviewCountsIff(rows: seq<TriggerRow>, id: int, pr: PullRequest, c: Circumstances, result: RequestResult,
                           rows': seq<TriggerRow>, reviews: seq<Review>, later: ReviewData)
    requires Numbered(rows, id) && Handled(rows, id, pr, c, result, true, rows') && result.Recorded?
    requires IsLatest(rows', pr, result.row)
    requires FetchedFrom(reviews, c.review.value) && LatestOf(reviews).Some? && StillShows(later, LatestOf(reviews).value)
    ensures var e := ToEntry(result.row);
            var sat := Sat(LatestOf(reviews).value);
            Decisive(DeriveStatus(later, Some(e.requestedAt), e.prevReviewId)) <==>
            && e.prevReviewId.None? && sat != ZERO_TIME
            && if later.reviewRequestedAt.Some? then sat >= later.reviewRequestedAt.value
               else c.review.value.latest.None? && c.review.value.rateLimitRemaining < 10 && sat >= Sec(c.now) * SECOND
  {
    var row := result.row;
    if row.prevReviewId.None? && Candidate(c.review.value).Some? {
      var sat := c.review.value.latest.value.submittedAt.value;
      var x :| x in rows && x.pr == pr && sat + SECOND <= x.requestedAt * SECOND;
      NewRowIsLatestIff(rows, id, row);
      assert row.requestedAt * SECOND > sat;
    }
  }

  /** It happens: the rate limit was too low to list the review of the running second, the request goes out all
      the same, and the next full fetch takes that review for the answer. */
  lemma LowRateTakesOldReviewForNew(pr: PullRequest)
    requires ValidPR(pr)
    ensures var existing := Review(2, "COMMENTED", Some(1000 * SECOND));
            var data := ReviewData(false, None, 5, None, None, None);
            var c := Circumstances(true, false, Some(data), false, false, false, 1000 * SECOND + SECOND / 2);
            var row := TriggerRow(1, pr, "MANUAL", 1000, None, None);
            var later := ReviewData(false, Some(existing), 5000, None, None, None);
            && FetchedFrom([existing], data) && LatestOf([existing]) == Some(existing)
            && Handled([], 1, pr, c, Recorded(row), true, [row]) && IsLatest([row], pr, row)
            && DeriveStatus(later, Some(ToEntry(row).requestedAt), row.prevReviewId) == ReviewCompleted
  {
    var existing := Review(2, "COMMENTED", Some(1000 * SECOND));
    assert [existing][..0] == [];
    assert [] + [TriggerRow(1, pr, "MANUAL", 1000, None, None)] == [TriggerRow(1, pr, "MANUAL", 1000, None, None)];
  }

  lemma {:induction false} OtherEventsShowNoRequest(events: seq<TimelineEvent>, others: seq<TimelineEvent>)
    requires forall e :: e in others ==> !e.ReviewRequested?
    ensures LastRequest(events + others) == LastRequest(events)
  {
    if |others| == 0 {
      assert events + others == events;
    } else {
      assert (events + others)[..|events + others| - 1] == events + others[..|others| - 1];
      OtherEventsShowNoRequest(events, others[..|others| - 1]);
    }
  }

  /* A full fetch after the request, as far as the timeline pages answered. */
  function FetchWith(existing: Review, pages: seq<TimelinePage>): ReviewData {
    ReviewData(true, Some(existing), 5000, None, LastRequest(EventsOn(pages)), None)
  }

  /** The other half happens too: an earlier request already finished is later than the review, so the new row carries no
      ID; when a page of the timeline then fails, the request shown is an older one, and the review that was there counts
      as the answer, which it does not when all pages are read. */
  lemma OldTimelineTakesOldReviewForNew(pr: PullRequest, others: seq<TimelineEvent>, rate: Rate)
    requires ValidPR(pr) && forall e :: e in others ==> !e.ReviewRequested?
    ensures var existing := Review(2, "COMMENTED", Some(1000 * SECOND));
            var first := TimelinePage([ReviewRequested("Copilot", 900 * SECOND)] + others, rate);
            var second := TimelinePage([ReviewRequested("Copilot", 1100 * SECOND), ReviewRequested("Copilot", 1200 * SECOND)], rate);
            var earlier := TriggerRow(1, pr, "MANUAL", 1100, Some(1150), None);
            var row := TriggerRow(2, pr, "MANUAL", 1200, None, None);
            var data := ReviewData(false, Some(existing), 5000, None, Some(1100 * SECOND), None);
            var c := Circumstances(true, false, Some(data), false, false, false, 1200 * SECOND);
            && FetchedFrom([existing], data) && LatestOf([existing]) == Some(existing)
            && Numbered([earlier], 2) && Handled([earlier], 2, pr, c, Recorded(row), true, [earlier, row]) && IsLatest([earlier, row], pr, row)
            && DeriveStatus(FetchWith(existing, [first]), Some(ToEntry(row).requestedAt), row.prevReviewId) == ReviewCompleted
            && DeriveStatus(FetchWith(existing, [first, second]), Some(ToEntry(row).requestedAt), row.prevReviewId) == Pending
  {
    hide LastRequest, EventsOn, Handled, Numbered, IsLatest;
    var existing := Review(2, "COMMENTED", Some(1000 * SECOND));
    assert [existing][..0] == [];
    TimelineOfTwo(others, rate);
    PlainRowAfterFinished(pr, existing);
    var first := TimelinePage([ReviewRequested("Copilot", 900 * SECOND)] + others, rate);
    var second := TimelinePage([ReviewRequested("Copilot", 1100 * SECOND), ReviewRequested("Copilot", 1200 * SECOND)], rate);
    assert FetchWith(existing, [first]) == ReviewData(true, Some(existing), 5000, None, Some(900 * SECOND), None);
    assert FetchWith(existing, [first, second]) == ReviewData(true, Some(existing), 5000, None, Some(1200 * SECOND), None);
    assert LatestOf([existing]) == Some(existing);
  }

  lemma TimelineOfTwo(others: seq<TimelineEvent>, rate: Rate)
    requires forall e :: e in others ==> !e.ReviewRequested?
    ensures var first := TimelinePage([ReviewRequested("Copilot", 900 * SECOND)] + others, rate);
            var second := TimelinePage([ReviewRequested("Copilot", 1100 * SECOND), ReviewRequested("Copilot", 1200 * SECOND)], rate);
            LastRequest(EventsOn([first])) == Some(900 * SECOND) && LastRequest(EventsOn([first, second])) == Some(1200 * SECOND)
  {
    hide LastRequest;
    var a, b, c := ReviewRequested("Copilot", 900 * SECOND), ReviewRequested("Copilot", 1100 * SECOND), ReviewRequested("Copilot", 1200 * SECOND);
    var first, second := TimelinePage([a] + others, rate), TimelinePage([b, c], rate);
    assert [first][..0] == [] && [first, second][..1] == [first];
    assert EventsOn([first]) == [a] + others;
    assert EventsOn([first, second]) == [a] + others + [b] + [c];
    NoEvents();
    assert [] + [a] == [a];
    EventTurn([], a);
    OtherEventsShowNoRequest([a], others);
    EventTurn([a] + others, b);
    EventTurn([a] + others + [b], c);
  }

  /* After a request finished later than the review, a new one is recorded without its ID. */
  lemma PlainRowAfterFinished(pr: PullRequest, existing: Review)
    requires ValidPR(pr) && existing.submittedAt == Some(1000 * SECOND)
    ensures var earlier := TriggerRow(1, pr, "MANUAL", 1100, Some(1150), None);
            var row := TriggerRow(2, pr, "MANUAL", 1200, None, None);
            var data := ReviewData(false, Some(existing), 5000, None, Some(1100 * SECOND), None);
            var c := Circumstances(true, false, Some(data), false, false, false, 1200 * SECOND);
            Numbered([earlier], 2) && Handled([earlier], 2, pr, c, Recorded(row), true, [earlier, row]) && IsLatest([earlier, row], pr, row)
  {
    var earlier := TriggerRow(1, pr, "MANUAL", 1100, Some(1150), None);
    var row := TriggerRow(2, pr, "MANUAL", 1200, None, None);
    assert [earlier] + [row] == [earlier, row];
    assert earlier in [earlier] && earlier in [earlier, row] && row in [earlier, row];
    assert !HasUnfinished([earlier], pr);
  }

  /** With the ID of the previous review recorded, a review with another ID always ends the wait. */
  lemma NewReviewCounts(rows: seq<TriggerRow>, id: int, pr: PullRequest, c: Circumstances, result: RequestResult,
                        rows': seq<TriggerRow>, later: ReviewData)
    requires Handled(rows, id, pr, c, result, true, rows') && result.Recorded? && result.row.prevReviewId.Some?
    requires c.review.value.latest.Some? && later.latest.Some? && later.latest.value.id != c.review.value.latest.value.id
    ensures var e := ToEntry(result.row);
            && Decisive(DeriveStatus(later, Some(e.requestedAt), e.prevReviewId))
            && (DeriveStatus(later, Some(e.requestedAt), e.prevReviewId) == ReviewBlocked <==>
                later.latest.value.state == "CHANGES_REQUESTED")
  {
    if Decimal(later.latest.value.id) == Decimal(c.review.value.latest.value.id) {
      DecimalInjective(later.latest.value.id, c.review.value.latest.value.id);
    }
  }

  /** A clock that has fallen behind hides the new row behind a finished one. */
  lemma ClockBehindHidesRow(pr: PullRequest)
    requires ValidPR(pr)
    ensures var earlier := TriggerRow(1, pr, "MANUAL", 100, Some(100), None);
            var data := ReviewData(false, None, 5000, None, None, None);
            var c := Circumstances(true, false, Some(data), false, false, false, 60 * SECOND);
            var row := TriggerRow(2, pr, "MANUAL", 60, None, None);
            && Numbered([earlier], 2) && Handled([earlier], 2, pr, c, Recorded(row), true, [earlier, row])
            && !IsLatest([earlier, row], pr, row) && IsLatest([earlier, row], pr, earlier)
  {
    var earlier := TriggerRow(1, pr, "MANUAL", 100, Some(100), None);
    var row := TriggerRow(2, pr, "MANUAL", 60, None, None);
    assert [earlier] + [row] == [earlier, row];
    assert !HasUnfinished([earlier], pr);
    assert earlier in [earlier, row] && row in [earlier, row];
  }

  /** GitHub is asked only when nothing was pending and Copilot had not been asked already; once recorded, the
      request is pending, and every further call is refused until it completes. */
  lemma NoSecondRequestWhilePending(rows: seq<TriggerRow>, id: int, pr: PullRequest, c: Circumstances, result: RequestResult,
                                    requested: bool, rows': seq<TriggerRow>)
    requires Handled(rows, id, pr, c, result, requested, rows')
    ensures requested ==> ValidPR(pr) && !HasUnfinished(rows, pr) && c.review.Some? && !c.review.value.isCopilotInReviewers
    ensures result.Recorded? ==> HasUnfinished(rows', pr)
  {
    if result.Recorded? {
      assert result.row in rows' && Unfinished(result.row, pr);
    }
  }
}
