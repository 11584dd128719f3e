/** Fetching what GitHub shows of a pull request's review: the Copilot review submitted last and the last events
    of the timeline, as far as the rate limit allows; and how a derived status changes as the pull request goes on. */
module ReviewFetch {
  import opened Prelude
  import opened ReviewStatuses

  const COPILOT := ["Copilot", "github-copilot[bot]", "copilot-pull-request-reviewer[bot]", "github-copilot"]

  predicate IsCopilot(login: string) { login in COPILOT }

  datatype Listed = Listed(login: string, review: Review)

  datatype TimelineEvent = ReviewRequested(login: string, at: int) | WorkStarted(at: int) | OtherEvent

  datatype Rate = Rate(remaining: int, reset: Option<int>)

  datatype ReviewPage = ReviewPage(reviews: seq<Listed>, rate: Rate)

  datatype TimelinePage = TimelinePage(events: seq<TimelineEvent>, rate: Rate)

  /* What GitHub answers: the requested logins or a failure, then the pages of each list that answer, and whether
     the request after them fails. */
  datatype Answers = Answers(
    requested: Option<seq<string>>, rate: Rate,
    reviewPages: seq<ReviewPage>, reviewsFail: bool,
    timelinePages: seq<TimelinePage>)

  // ---- the review submitted last ----

  /* A review without a time counts as submitted at Go's zero time. */
  function Sat(r: Review): int { r.submittedAt.GetOr(ZERO_TIME) }

  function Newest(latest: Option<Review>, r: Review): Option<Review> {
    if latest.None? || Sat(r) > Sat(latest.value) then Some(r) else latest
  }

  function LatestOf(reviews: seq<Review>): Option<Review> {
    if |reviews| == 0 then None else Newest(LatestOf(reviews[..|reviews| - 1]), reviews[|reviews| - 1])
  }

  /** The first of the reviews submitted last: none is later, and those before it are earlier. */
  ghost predicate IsFirstLatest(reviews: seq<Review>, i: nat) {
    && i < |reviews|
    && (forall j :: 0 <= j < |reviews| ==> Sat(reviews[j]) <= Sat(reviews[i]))
    && forall j :: 0 <= j < i ==> Sat(reviews[j]) < Sat(reviews[i])
  }

  lemma {:induction false} LatestMeaning(reviews: seq<Review>) returns (i: nat)
    ensures LatestOf(reviews).None? <==> reviews == []
    ensures reviews != [] ==> IsFirstLatest(reviews, i) && LatestOf(reviews) == Some(reviews[i])
  {
    i := 0;
    if reviews != [] {
      var before := reviews[..|reviews| - 1];
      i := LatestMeaning(before);
      assert forall j :: 0 <= j < |before| ==> reviews[j] == before[j];
      if before == [] || Sat(reviews[|reviews| - 1]) > Sat(before[i]) { i := |reviews| - 1; }
    }
  }

  lemma FirstLatestIsUnique(reviews: seq<Review>, i: nat, j: nat)
    requires IsFirstLatest(reviews, i) && j < |reviews| && Sat(reviews[j]) >= Sat(reviews[i])
    requires forall k :: 0 <= k < j ==> Sat(reviews[k]) < Sat(reviews[j])
    ensures i == j
  {
  }

  /* Reviews are only added; a review keeps its ID and time, whatever becomes of its state. */
  ghost predicate Grows(before: seq<Review>, after: seq<Review>) {
    |before| <= |after|
    && forall i :: 0 <= i < |before| ==> after[i].id == before[i].id && after[i].submittedAt == before[i].submittedAt
  }

  /* GitHub's times are later than Go's zero time. */
  ghost predicate Timed(reviews: seq<Review>) {
    forall r :: r in reviews && r.submittedAt.Some? ==> r.submittedAt.value > ZERO_TIME
  }

  // ---- the fetch ----

  function CopilotReviews(listed: seq<Listed>): seq<Review> {
    if |listed| == 0 then []
    else CopilotReviews(listed[..|listed| - 1]) + if IsCopilot(listed[|listed| - 1].login) then [listed[|listed| - 1].review] else []
  }

  function ListedOn(pages: seq<ReviewPage>): seq<Listed> {
    if |pages| == 0 then [] else ListedOn(pages[..|pages| - 1]) + pages[|pages| - 1].reviews
  }

  function EventsOn(pages: seq<TimelinePage>): seq<TimelineEvent> {
    if |pages| == 0 then [] else EventsOn(pages[..|pages| - 1]) + pages[|pages| - 1].events
  }

  function Later(last: Option<int>, at: int): Option<int> { if last.None? || at > last.value then Some(at) else last }

  function LastRequest(events: seq<TimelineEvent>): Option<int> {
    if |events| == 0 then None
    else
      var last, e := LastRequest(events[..|events| - 1]), events[|events| - 1];
      if e.ReviewRequested? && IsCopilot(e.login) then Later(last, e.at) else last
  }

  function LastStart(events: seq<TimelineEvent>): Option<int> {
    if |events| == 0 then None
    else
      var last, e := LastStart(events[..|events| - 1]), events[|events| - 1];
      if e.WorkStarted? then Later(last, e.at) else last
  }

  function RateAfter(rate: Rate, pages: seq<ReviewPage>): Rate { if |pages| == 0 then rate else pages[|pages| - 1].rate }

  function RateAfterTimeline(rate: Rate, pages: seq<TimelinePage>): Rate { if |pages| == 0 then rate else pages[|pages| - 1].rate }

  /** The reviews considered are those listed under one of Copilot's logins. */
  lemma {:induction false} CopilotReviewsMeans(listed: seq<Listed>, r: Review)
    ensures r in CopilotReviews(listed) <==> exists l :: l in listed && ByCopilot(l.login) && l.review == r
  {
    if |listed| > 0 {
      CopilotReviewsMeans(listed[..|listed| - 1], r);
      assert listed == listed[..|listed| - 1] + [listed[|listed| - 1]];
    }
  }

  /* One more listed review. */
  lemma ScanTurn(before: seq<Listed>, listed: Listed)
    ensures var latest := LatestOf(CopilotReviews(before));
            LatestOf(CopilotReviews(before + [listed])) == if IsCopilot(listed.login) then Newest(latest, listed.review) else latest
  {
    hide IsCopilot, Newest;
    assert (before + [listed])[..|before|] == before;
    var reviews := CopilotReviews(before);
    assert (reviews + [listed.review])[..|reviews|] == reviews;
    assert reviews + [] == reviews;
  }

  lemma PageTurn(pages: seq<ReviewPage>, p: nat)
    requires p < |pages|
    ensures ListedOn(pages[..p + 1]) == ListedOn(pages[..p]) + pages[p].reviews
  {
    assert pages[..p + 1][..p] == pages[..p];
  }

  function RateOf(data: ReviewData): Rate { Rate(data.rateLimitRemaining, data.rateLimitReset) }

  predicate ByCopilot(login: string) {
    login == "Copilot" || login == "github-copilot[bot]" || login == "copilot-pull-request-reviewer[bot]" || login == "github-copilot"
  }

  predicate AnyCopilot(logins: seq<string>) { exists i :: 0 <= i < |logins| && ByCopilot(logins[i]) }

  /** What a fetch tells of the reviews that are there: the latest, or nothing when the rate limit was too low to
      list them. */
  predicate FetchedFrom(reviews: seq<Review>, data: ReviewData) {
    data.latest == LatestOf(reviews) || (data.latest.None? && data.rateLimitRemaining < 10)
  }

  method ScanReviews(pages: seq<ReviewPage>) returns (latest: Option<Review>)
    ensures latest == LatestOf(CopilotReviews(ListedOn(pages)))
  {
    hide LatestOf, CopilotReviews, ListedOn, IsCopilot;
    NothingListed();
    latest := None;
    for p := 0 to |pages|
      invariant latest == LatestOf(CopilotReviews(ListedOn(pages[..p])))
    {
      var page := pages[p].reviews;
      PageTurn(pages, p);
      ghost var before := ListedOn(pages[..p]);
      assert before + page[..0] == before;
      for i := 0 to |page|
        invariant latest == LatestOf(CopilotReviews(before + page[..i]))
      {
        ScanTurn(before + page[..i], page[i]);
        assert before + page[..i] + [page[i]] == before + page[..i + 1];
        if !IsCopilot(page[i].login) {
          continue;
        }
        if latest == None || Sat(page[i].review) > Sat(latest.value) {
          latest := Some(page[i].review);
        }
      }
      assert page[..|page|] == page;
    }
    assert pages[..|pages|] == pages;
  }

  lemma NothingListed()
    ensures LatestOf(CopilotReviews(ListedOn([]))) == None
  {
  }

  /* One more event. */
  lemma EventTurn(before: seq<TimelineEvent>, e: TimelineEvent)
    ensures var last := LastRequest(before);
            LastRequest(before + [e]) == if e.ReviewRequested? && IsCopilot(e.login) then Later(last, e.at) else last
    ensures LastStart(before + [e]) == if e.WorkStarted? then Later(LastStart(before), e.at) else LastStart(before)
  {
    assert (before + [e])[..|before|] == before;
  }

  method ScanTimeline(pages: seq<TimelinePage>) returns (request: Option<int>, start: Option<int>)
    ensures request == LastRequest(EventsOn(pages)) && start == LastStart(EventsOn(pages))
  {
    hide LastRequest, LastStart, EventsOn, IsCopilot;
    NoEvents();
    request, start := None, None;
    for p := 0 to |pages|
      invariant request == LastRequest(EventsOn(pages[..p])) && start == LastStart(EventsOn(pages[..p]))
    {
      var page := pages[p].events;
      TimelineTurn(pages, p);
      ghost var before := EventsOn(pages[..p]);
      assert before + page[..0] == before;
      for i := 0 to |page|
        invariant request == LastRequest(before + page[..i]) && start == LastStart(before + page[..i])
      {
        EventTurn(before + page[..i], page[i]);
        assert before + page[..i] + [page[i]] == before + page[..i + 1];
        match page[i]
        case ReviewRequested(login, at) =>
          if IsCopilot(login) && (request == None || at > request.value) {
            request := Some(at);
          }
        case WorkStarted(at) =>
          if start == None || at > start.value {
            start := Some(at);
          }
        case OtherEvent =>
      }
      assert page[..|page|] == page;
    }
    assert pages[..|pages|] == pages;
  }

  lemma TimelineTurn(pages: seq<TimelinePage>, p: nat)
    requires p < |pages|
    ensures EventsOn(pages[..p + 1]) == EventsOn(pages[..p]) + pages[p].events
  {
    assert pages[..p + 1][..p] == pages[..p];
  }

  lemma NoEvents()
    ensures LastRequest(EventsOn([])) == None && LastStart(EventsOn([])) == None
  {
  }

  /** GetReviewData; None for an error. A low rate limit cuts it short before the reviews or before the timeline,
      and the timeline is kept as far as it was read. */
  method GetReviewData(a: Answers) returns (r: Option<ReviewData>)
    ensures r.None? <==> a.requested.None? || (a.rate.remaining >= 10 && a.reviewsFail)
    ensures r.Some? ==>
              var data := r.value;
              var reviews := CopilotReviews(ListedOn(a.reviewPages));
              var rate := RateAfter(a.rate, a.reviewPages);
              var events := EventsOn(a.timelinePages);
              && (forall x :: x in reviews <==> exists l :: l in ListedOn(a.reviewPages) && ByCopilot(l.login) && l.review == x)
              && FetchedFrom(reviews, data) && (a.rate.remaining >= 10 ==> data.latest == LatestOf(reviews))
              && (data.isCopilotInReviewers <==> AnyCopilot(a.requested.value))
              && (if a.rate.remaining < 10 then data.latest.None? && RateOf(data) == a.rate
                  else if rate.remaining < 10 || !(data.isCopilotInReviewers || data.latest.Some?) then
                    data.reviewRequestedAt.None? && data.workStartedAt.None? && RateOf(data) == rate
                  else
                    && data.reviewRequestedAt == LastRequest(events) && data.workStartedAt == LastStart(events)
                    && RateOf(data) == RateAfterTimeline(rate, a.timelinePages))
  {
    forall x ensures x in CopilotReviews(ListedOn(a.reviewPages)) <==>
                     exists l :: l in ListedOn(a.reviewPages) && ByCopilot(l.login) && l.review == x {
      CopilotReviewsMeans(ListedOn(a.reviewPages), x);
    }
    if a.requested == None {
      return None;
    }
    var requested, rate := false, a.rate;
    for i := 0 to |a.requested.value|
      invariant !requested && forall j :: 0 <= j < i ==> !IsCopilot(a.requested.value[j])
    {
      if IsCopilot(a.requested.value[i]) {
        requested := true;
        break;
      }
    }
    if rate.remaining < 10 {
      return Some(ReviewData(requested, None, rate.remaining, rate.reset, None, None));
    }
    if a.reviewsFail {
      return None;
    }
    var latest := ScanReviews(a.reviewPages);
    rate := RateAfter(rate, a.reviewPages);
    if !(requested || latest.Some?) || rate.remaining < 10 {
      return Some(ReviewData(requested, latest, rate.remaining, rate.reset, None, None));
    }
    var request, start := ScanTimeline(a.timelinePages);
    rate := RateAfterTimeline(rate, a.timelinePages);
    return Some(ReviewData(requested, latest, rate.remaining, rate.reset, request, start));
  }

  // ---- a status over time ----

  /** A pull request as far as the status goes: its Copilot reviews and its timeline. */
  datatype Pull = Pull(reviews: seq<Review>, events: seq<TimelineEvent>)

  ghost predicate GoesOn(before: Pull, after: Pull) {
    Grows(before.reviews, after.reviews) && before.events <= after.events
  }

  /* Data of a fetch that was not cut short. */
  ghost predicate ShowsAll(p: Pull, data: ReviewData) {
    data.latest == LatestOf(p.reviews) && data.reviewRequestedAt == LastRequest(p.events)
  }

  lemma {:induction false} LastRequestGrows(a: seq<TimelineEvent>, b: seq<TimelineEvent>)
    ensures LastRequest(a).Some? ==> LastRequest(a + b).Some? && LastRequest(a + b).value >= LastRequest(a).value
  {
    if |b| == 0 {
      assert a + b == a;
    } else {
      LastRequestGrows(a, b[..|b| - 1]);
      assert (a + b)[..|a + b| - 1] == a + b[..|b| - 1];
    }
  }

  ghost predicate DistinctIds(reviews: seq<Review>) {
    forall i, j :: 0 <= i < j < |reviews| ==> reviews[i].id != reviews[j].id
  }

  lemma LatestGrows(before: seq<Review>, after: seq<Review>)
    requires Grows(before, after) && before != []
    ensures LatestOf(before).Some? && LatestOf(after).Some? && Sat(LatestOf(after).value) >= Sat(LatestOf(before).value)
  {
    var i := LatestMeaning(before);
    var j := LatestMeaning(after);
    assert Sat(after[i]) == Sat(before[i]);
  }

  /* A review that was there and is the latest now was the latest then. */
  lemma LatestWasLatest(before: seq<Review>, after: seq<Review>, k: nat)
    requires Grows(before, after) && DistinctIds(after) && k < |before| && LatestOf(after).Some?
    requires LatestOf(after).value.id == before[k].id
    ensures LatestOf(before) == Some(before[k])
  {
    var i := LatestMeaning(before);
    var j := LatestMeaning(after);
    assert after[k].id == after[j].id;
    assert forall m :: 0 <= m < |before| ==> Sat(before[m]) == Sat(after[m]);
    FirstLatestIsUnique(before, i, k);
  }

  /* A review that is not the latest never becomes the latest. */
  lemma RecordedStaysBehind(before: seq<Review>, after: seq<Review>, x: Review)
    requires Grows(before, after) && DistinctIds(after) && x in before && LatestOf(after).Some?
    ensures LatestOf(before).Some? && (LatestOf(before).value.id != x.id ==> LatestOf(after).value.id != x.id)
  {
    hide LatestOf, Grows, DistinctIds;
    var k: nat :| k < |before| && before[k] == x;
    var i := LatestMeaning(before);
    if LatestOf(after).value.id == x.id { LatestWasLatest(before, after, k); }
  }

  ghost predicate TimedEvents(events: seq<TimelineEvent>) {
    forall e :: e in events && e.ReviewRequested? ==> e.at > ZERO_TIME
  }

  lemma {:induction false} LastRequestIsTimed(events: seq<TimelineEvent>)
    requires TimedEvents(events)
    ensures LastRequest(events).Some? ==> LastRequest(events).value > ZERO_TIME
  {
    if |events| > 0 { LastRequestIsTimed(events[..|events| - 1]); }
  }

  /** A status that says the review is done is turned back, as the pull request goes on, exactly when no previous
      review's ID was recorded and the timeline comes to show a request made after the latest review. With an ID
      recorded it stays: the recorded review cannot become the latest again. */
  lemma DecisiveTurnsBackIff(p: Pull, q: Pull, data: ReviewData, later: ReviewData, requestedAt: Option<int>, prev: Option<string>)
    requires GoesOn(p, q) && ShowsAll(p, data) && ShowsAll(q, later) && DistinctIds(q.reviews) && Timed(q.reviews) && TimedEvents(q.events)
    requires prev.Some? ==> requestedAt.Some? && exists x :: x in p.reviews && Decimal(x.id) == prev.value
    requires Decisive(DeriveStatus(data, requestedAt, prev))
    ensures later.latest.Some?
    ensures !Decisive(DeriveStatus(later, requestedAt, prev)) <==>
            prev.None? && later.reviewRequestedAt.Some? && later.reviewRequestedAt.value > Sat(later.latest.value)
  {
    var first := LatestMeaning(p.reviews);
    LatestGrows(p.reviews, q.reviews);
    LastRequestGrows(p.events, q.events[|p.events|..]);
    assert q.events == p.events + q.events[|p.events|..];
    LastRequestIsTimed(q.events);
    var last := LatestMeaning(q.reviews);
    assert q.reviews[first] in q.reviews && q.reviews[last] in q.reviews;
    if prev.Some? {
      var x :| x in p.reviews && Decimal(x.id) == prev.value;
      RecordedStaysBehind(p.reviews, q.reviews, x);
      if Decimal(later.latest.value.id) == Decimal(x.id) { DecimalInjective(x.id, later.latest.value.id); }
    }
  }

  // ---- a status in terms of reviews and events ----

  predicate AsksCopilot(e: TimelineEvent) { e.ReviewRequested? && ByCopilot(e.login) }

  lemma IsByCopilot(login: string)
    ensures IsCopilot(login) <==> ByCopilot(login)
  {
  }

  lemma {:induction false} LastRequestMeans(events: seq<TimelineEvent>)
    ensures LastRequest(events).None? <==> forall e :: e in events ==> !AsksCopilot(e)
    ensures LastRequest(events).Some? ==>
              && (exists e :: e in events && AsksCopilot(e) && e.at == LastRequest(events).value)
              && forall e :: e in events && AsksCopilot(e) ==> e.at <= LastRequest(events).value
  {
    if |events| > 0 {
      hide IsCopilot, ByCopilot;
      var before, e := events[..|events| - 1], events[|events| - 1];
      LastRequestMeans(before);
      if e.ReviewRequested? { IsByCopilot(e.login); }
      assert forall x :: x in events <==> x in before || x == e by { assert events == before + [e]; }
      assert LastRequest(events) == if AsksCopilot(e) then Later(LastRequest(before), e.at) else LastRequest(before);
    }
  }

  lemma {:induction false} LastStartMeans(events: seq<TimelineEvent>)
    ensures LastStart(events).None? <==> forall e :: e in events ==> !e.WorkStarted?
    ensures LastStart(events).Some? ==>
              && (exists e :: e in events && e.WorkStarted? && e.at == LastStart(events).value)
              && forall e :: e in events && e.WorkStarted? ==> e.at <= LastStart(events).value
  {
    if |events| > 0 {
      LastStartMeans(events[..|events| - 1]);
      assert events == events[..|events| - 1] + [events[|events| - 1]];
    }
  }

  /* The review answers the request: there is none to answer, or it is another than the recorded one, or, with none
     recorded, it is no earlier than any request on the timeline, or than the one recorded when the timeline has none. */
  ghost predicate AnswersRequest(review: Review, events: seq<TimelineEvent>, requestedAt: Option<int>, prev: Option<string>) {
    if requestedAt.None? && forall e :: e in events ==> !AsksCopilot(e) then true
    else if prev.Some? then Decimal(review.id) != prev.value
    else
      && review.submittedAt.Some? && review.submittedAt.value != ZERO_TIME
      && if exists e :: e in events && AsksCopilot(e)
         then forall e :: e in events && AsksCopilot(e) ==> e.at <= review.submittedAt.value
         else requestedAt.value <= review.submittedAt.value
  }

  /* Work began after Copilot was last asked. */
  ghost predicate Working(events: seq<TimelineEvent>) {
    exists s :: s in events && s.WorkStarted? && forall e :: e in events && AsksCopilot(e) ==> e.at < s.at
  }

  /** What a status derived from a full fetch says of the pull request: done, when the review submitted last answers the
      request, and blocked when it asks for changes; otherwise not requested, in progress or pending by whether Copilot is
      a requested reviewer and began after it was last asked. */
  lemma StatusMeans(p: Pull, data: ReviewData, requestedAt: Option<int>, prev: Option<string>) returns (i: nat)
    requires ShowsAll(p, data) && data.workStartedAt == LastStart(p.events) && TimedEvents(p.events)
    ensures p.reviews != [] ==> IsFirstLatest(p.reviews, i)
    ensures var status := DeriveStatus(data, requestedAt, prev);
            if p.reviews != [] && AnswersRequest(p.reviews[i], p.events, requestedAt, prev)
            then status == if p.reviews[i].state == "CHANGES_REQUESTED" then ReviewBlocked else ReviewCompleted
            else if !data.isCopilotInReviewers then status == NotRequested
            else status == if Working(p.events) then InProgress else Pending
  {
    hide LastRequest, LastStart, LatestOf, IsFirstLatest;
    i := LatestMeaning(p.reviews);
    LastRequestMeans(p.events);
    LastStartMeans(p.events);
  }
}
