/** How the state of a review is derived from what GitHub reports and from the recorded request. */
module ReviewStatuses {
  import opened Prelude

  const SECOND := 1_000_000_000

  /* Go's zero time, in nanoseconds of the Unix clock. */
  const ZERO_TIME := -62_135_596_800 * SECOND

  /* time.Unix of a nanosecond time: whole seconds, rounded down. */
  function Sec(t: int): int { t / SECOND }

  datatype ReviewStatus = NotRequested | Pending | InProgress | ReviewCompleted | ReviewBlocked

  datatype Review = Review(id: int, state: string, submittedAt: Option<int>)

  datatype ReviewData = ReviewData(
    isCopilotInReviewers: bool,
    latest: Option<Review>,
    rateLimitRemaining: int,
    rateLimitReset: Option<int>,
    reviewRequestedAt: Option<int>,
    workStartedAt: Option<int>)

  datatype TriggerEntry = TriggerEntry(
    id: int, requestedAt: int, completedAt: Option<int>, prevReviewId: Option<string>)

  predicate Relevant(review: Review, requestedAt: Option<int>, prevReviewId: Option<string>) {
    match (requestedAt, prevReviewId)
    case (None, _) => true
    case (Some(_), Some(prev)) => Decimal(review.id) != prev
    case (Some(at), None) =>
      var sat := review.submittedAt.GetOr(ZERO_TIME);
      sat != ZERO_TIME && sat >= at
  }

  function DeriveStatus(data: ReviewData, requestedAt: Option<int>, prevReviewId: Option<string>): ReviewStatus {
    var effective := if data.reviewRequestedAt.Some? then data.reviewRequestedAt else requestedAt;
    if data.latest.Some? && Relevant(data.latest.value, effective, prevReviewId) then
      if data.latest.value.state == "CHANGES_REQUESTED" then ReviewBlocked else ReviewCompleted
    else if data.isCopilotInReviewers then
      if data.workStartedAt.Some?
         && (data.reviewRequestedAt.None? || data.workStartedAt.value > data.reviewRequestedAt.value)
      then InProgress else Pending
    else NotRequested
  }

  predicate Decisive(s: ReviewStatus) { s == ReviewCompleted || s == ReviewBlocked }
}
