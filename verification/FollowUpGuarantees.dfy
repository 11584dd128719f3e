/** What the write-once protocols guarantee, whatever GitHub answers and however it changes during a call. */
module FollowUpGuarantees {
  import opened Prelude
  import opened GitHub
  import opened Snapshots
  import opened TrustedAuthors
  import opened FollowUpMarker
  import opened FollowUp
  import Reader
  import ReaderGuarantees

  // ---- logs with no write, and with one ----

  /** One write, at k, among the calls added. */
  ghost predicate OneWrite(log: Log, log': Log, k: nat) {
    && log <= log' && |log| <= k < |log'| && log'[k].IsWrite()
    && forall i :: |log| <= i < |log'| && i != k ==> !log'[i].IsWrite()
  }

  lemma {:induction false} QuietCounts(log: Log, log': Log)
    requires Quiet(log, log')
    ensures Writes(log') == Writes(log)
    decreases |log'|
  {
    if |log'| == |log| {
      assert log' == log;
    } else {
      QuietCounts(log, log'[..|log'| - 1]);
    }
  }

  lemma {:induction false} OneWriteCounts(log: Log, log': Log, k: nat)
    requires OneWrite(log, log', k)
    ensures Writes(log') == Writes(log) + 1
    decreases |log'|
  {
    var before := log'[..|log'| - 1];
    if k == |log'| - 1 {
      QuietCounts(log, before);
    } else {
      OneWriteCounts(log, before, k);
    }
  }

  lemma QuietThenWrite(a: Log, b: Log, c: Log, k: nat)
    requires Quiet(a, b) && OneWrite(b, c, k)
    ensures OneWrite(a, c, k)
  {
  }

  lemma ReadIsQuiet(w: World, log: Log, svc: Service, withBodies: bool)
    ensures Quiet(log, Reader.ReadWorld(w, log, svc.logins, withBodies).1)
  {
    hide Reader.ReadWorld;
    ReaderGuarantees.BodiesOnlyAfterTheCheck(w, log, svc.logins, withBodies);
  }

  lemma PrepareIsQuiet(w: World, log: Log, svc: Service, t: Target, snapshot: string)
    ensures Quiet(log, Prepare(w, log, svc, t, snapshot).1)
  {
    hide Reader.ReadWorld, Locate;
    ReadIsQuiet(w, log, svc, false);
  }

  lemma ReadIssueIsQuiet(w: World, log: Log, svc: Service, p: PRContext, number: int)
    ensures Quiet(log, ReadIssue(w, log, svc, p, number).1)
  {
    hide SameMetadata, ActorsKnown, Normalize;
  }

  lemma {:induction false} ExistingIsQuiet(w: World, log: Log, svc: Service, p: PRContext, marker: string, bot: Actor, numbers: seq<int>)
    ensures Quiet(log, Existing(w, log, svc, p, marker, bot, numbers).1)
    decreases |numbers|
  {
    hide ReadIssue, IsOurIssue;
    if |numbers| > 0 {
      ReadIssueIsQuiet(w, log, svc, p, numbers[0]);
      var (issue, log1) := ReadIssue(w, log, svc, p, numbers[0]);
      if issue.Got? {
        ExistingIsQuiet(w, log1, svc, p, marker, bot, numbers[1..]);
        QuietTwice(log, log1, Existing(w, log1, svc, p, marker, bot, numbers[1..]).1);
      }
    }
  }

  // ---- the reply ----

  /* The same Bot account, under either spelling of its login. */
  predicate IsAccount(a: Actor, bot: Actor) {
    a.nodeId == bot.nodeId != "" && a.typ == bot.typ == "Bot" && Normalize(a.login) == Normalize(bot.login)
  }

  predicate WrittenBy(c: Comment, bot: Actor) { c.authorType == "Bot" && Normalize(c.author) == Normalize(bot.login) }

  /* The snapshot and the context of the pull request agree. */
  predicate AtRefs(s: Snapshot, p: PRContext) {
    && s.headSHA == p.headSHA && s.baseSHA == p.baseSHA && s.baseRefName == p.baseRefName && s.policyBaseSHA == p.policyBaseSHA
  }

  predicate IsOfKind(kind: Kind, name: string) {
    match kind
    case ThreadComment => name == "review_thread_comment"
    case ReviewBody => name == "review_body"
    case IssueComment => name == "issue_comment"
  }

  /* The source as the caller named it, with the URL of a comment of the snapshot that it names. */
  ghost predicate IsLocated(s: Snapshot, source: SourceRef, located: SourceRef) {
    && located.kind == source.kind && located.id == source.id && located.threadId == source.threadId && located.url != ""
    && exists c :: Holds(s, c, source.threadId) && c.id == source.id && IsOfKind(c.kind, source.kind) && c.url == located.url
  }

  /* A text worth posting that names none of the reserved headings and markers. */
  predicate Acceptable(text: string) {
    && TrimSpace(text) != "" && !Contains(Lower(text), "review verdict") && !Contains(Lower(text), "@thread-owl re-review requested")
    && !Contains(Lower(text), "## レビュー対応サマリ（thread-owl）") && !Contains(Lower(text), "### サイクル状態")
    && !Contains(Lower(text), "review-raven-source:")
  }

  /* What the tools report: the source, and the pull request as it was verified. */
  predicate Reports(r: Output, prep: Prepared, t: Target) {
    && r.source == prep.ref && r.headSHA == prep.context.headSHA && r.snapshotId == prep.result.snapshotId
    && r.policyBaseSHA == prep.context.policyBaseSHA && r.prState == prep.context.state
    && (r.matchesExpectedHead <==> prep.context.headSHA == t.expectedHead)
  }

  /* A body read after the write shows the reply that was created, by the bot. */
  ghost predicate ReadShows(c: Call, created: Reply, body: string, bot: Actor, p: PRContext) {
    && c.CallFetch? && c.withBodies && c.fetched.Fetched? && AtRefs(c.fetched.snapshot, p)
    && exists x :: x in c.fetched.snapshot.issueComments && x.id == created.id && x.url == created.url && x.body == Some(body) && WrittenBy(x, bot)
  }

  /* What an error says was created. */
  predicate NamesReply(written: Resource, posted: Fallible<Reply>) {
    if posted.Ok? then written.id == posted.value.id && written.url == posted.value.url else written.id == "" && written.url == ""
  }

  predicate NamesIssue(written: Resource, created: Fallible<Issue>) {
    if created.Ok? then written.id == created.value.id && written.number == created.value.number && written.url == created.value.url
    else written.id == "" && written.number == 0 && written.url == ""
  }

  lemma WhatReadsBack(verified: Snapshot, actual: Reply, created: Reply, body: string, bot: Actor, p: PRContext)
    ensures ReadsBack(verified, actual, created, body, bot, p) ==>
              && actual.id == created.id && actual.url == created.url && actual.body == body && IsAccount(actual.author, bot)
              && ReadShows(CallFetch(true, Fetched(verified)), created, body, bot, p)
  {
    hide Normalize;
    if ReadsBack(verified, actual, created, body, bot, p) {
      var x :| x in verified.issueComments && IsWritten(x, created, body, bot);
      assert x.id == created.id && x.url == created.url && x.body == Some(body) && WrittenBy(x, bot);
    }
  }

  /* From the POST on: exactly one write, the first call; every failure says so; a success was read back. */
  lemma PostReplyTrace(w: World, log: Log, svc: Service, prep: Prepared, bot: Actor, body: string, t: Target)
    ensures var (r, log') := PostReply(w, log, svc, prep, bot, body, t);
            && OneWrite(log, log', |log|) && log'[|log|].CallPostReply? && log'[|log|].body == body
            && (r.Fail? ==> MayHaveChanged(r.error) && NamesReply(r.error.written, log'[|log|].posted))
            && log <= log'
            && (r.Got? ==>
                  && log'[|log|].posted.Ok? && Reports(r.value, prep, t) && r.value.issue.None?
                  && log'[|log|].posted.value.id != "" && log'[|log|].posted.value.id != "0" && log'[|log|].posted.value.url != ""
                  && r.value.comment.Some? && r.value.comment.value.body == body
                  && r.value.comment.value.id == log'[|log|].posted.value.id && r.value.comment.value.url == log'[|log|].posted.value.url
                  && IsAccount(r.value.comment.value.author, bot)
                  && |log'| >= |log| + 4
                  && ReadShows(log'[|log'| - 3], log'[|log|].posted.value, body, bot, prep.context)
                  && log'[|log'| - 2] == CallReadReply(r.value.comment.value.id, Ok(r.value.comment.value))
                  && log'[|log'| - 1] == CallContext(Ok(prep.context)))
  {
    hide Reader.ReadWorld, ReadsBack, ReadShows, IsAccount, Fingerprint;
    var posted := w.postReply(log, body);
    var log1 := log + [CallPostReply(body, posted)];
    ReadIsQuiet(w, log1, svc, true);
    ReaderGuarantees.ReadEndsWithItsFetch(w, log1, svc.logins, true);
    var (verified, log2) := Reader.ReadWorld(w, log1, svc.logins, true);
    if posted.Ok? && verified.Verified? {
      var actual := w.readReply(log2, posted.value.id);
      if actual.Ok? { WhatReadsBack(verified.result.snapshot, actual.value, posted.value, body, bot, prep.context); }
    }
  }

  /* An actor the App's identity check accepts. */
  predicate IsApp(svc: Service, bot: Actor) {
    bot.nodeId != "" && bot.typ == "Bot" && svc.appLogin != "" && Normalize(bot.login) == Normalize(svc.appLogin)
  }

  /* The call identified `bot` as the App's own. */
  ghost predicate Identified(log: Log, log': Log, svc: Service, bot: Actor) {
    IsApp(svc, bot) && exists j :: |log| <= j < |log'| && log'[j] == CallBot(svc.appLogin, Ok(bot))
  }

  /* A body read of the expected snapshot that shows no reply with the marker by the bot. */
  ghost predicate ShowsNoReply(w: World, c: Call, i: Write, bot: Actor) {
    && c.CallFetch? && c.withBodies && c.fetched.Fetched? && w.sha256(Fingerprint(c.fetched.snapshot)) == i.expectedSnapshot
    && forall x :: x in c.fetched.snapshot.issueComments && x.body.Some? && HasMarker(x.body.value, Marker(i.target)) ==>
         !WrittenBy(x, bot)
  }

  /* What has been checked when a reply is written, at k, by the bot. */
  ghost predicate GuardedReply(w: World, log: Log, log': Log, svc: Service, i: Write, bot: Actor, k: nat) {
    var prep := Prepare(w, log, svc, i.target, i.expectedSnapshot).0;
    && OneWrite(log, log', k) && k > |log| + 1 && prep.Got? && Identified(log, log'[..k], svc, bot)
    && log'[k].CallPostReply? && log'[k].body == ReplyBody(prep.value.ref.url, i.body, Marker(i.target))
    && SaysReply(log'[k].body, prep.value.ref.url, i.body, i.target) && Acceptable(i.body)
    && ShowsNoReply(w, log'[k - 2], i, bot)
    && log'[k - 1] == CallContext(Ok(prep.value.context))
    && prep.value.context.state == "OPEN" && prep.value.context.headSHA == i.target.expectedHead
    && prep.value.result.snapshotId == i.expectedSnapshot && AtRefs(prep.value.result.snapshot, prep.value.context)
    && IsLocated(prep.value.result.snapshot, i.target.source, prep.value.ref)
    && ValidWrite(i, false)
  }

  /* A success carries the reply written at k, shown by a body read after it and read back as written, by the bot. */
  ghost predicate ReadBackReply(log': Log, i: Write, r: Output, bot: Actor, k: nat) {
    && k + 4 <= |log'| && log'[k].CallPostReply? && log'[k].posted.Ok? && r.comment.Some? && r.issue.None?
    && log'[k].posted.value.id != "" && log'[k].posted.value.id != "0" && log'[k].posted.value.url != ""
    && r.comment.value.body == log'[k].body && SaysReply(log'[k].body, r.source.url, i.body, i.target)
    && r.comment.value.id == log'[k].posted.value.id && r.comment.value.url == log'[k].posted.value.url
    && IsAccount(r.comment.value.author, bot)
    && log'[|log'| - 2] == CallReadReply(r.comment.value.id, Ok(r.comment.value))
    && log'[|log'| - 1].CallContext? && log'[|log'| - 1].context.Ok?
    && ReadShows(log'[|log'| - 3], log'[k].posted.value, log'[k].body, bot, log'[|log'| - 1].context.value)
    && r.source.kind == i.target.source.kind && r.source.id == i.target.source.id && r.source.threadId == i.target.source.threadId
    && r.headSHA == i.target.expectedHead && r.matchesExpectedHead && r.prState == "OPEN" && r.snapshotId == i.expectedSnapshot
    && r.policyBaseSHA == log'[|log'| - 1].context.value.policyBaseSHA
  }

  /* The guarded write at k, and then either its read-back or an error that names what was created. */
  ghost predicate WroteReply(w: World, log: Log, log': Log, svc: Service, i: Write, r: Try<Output>, bot: Actor, k: nat) {
    && GuardedReply(w, log, log', svc, i, bot, k)
    && match r
       case Got(output) => ReadBackReply(log', i, output, bot, k)
       case Fail(e) => MayHaveChanged(e) && NamesReply(e.written, log'[k].posted)
  }

  lemma PrepareMeaning(w: World, log: Log, svc: Service, i: Write)
    requires ValidWrite(i, false) && Prepare(w, log, svc, i.target, i.expectedSnapshot).0.Got?
    ensures var prep := Prepare(w, log, svc, i.target, i.expectedSnapshot).0.value;
            && prep.context.state == "OPEN" && prep.context.headSHA == i.target.expectedHead
            && prep.result.snapshotId == i.expectedSnapshot
  {
    hide Reader.ReadWorld, Locate, ValidBody, ValidTarget;
  }

  lemma PrepareLocates(w: World, log: Log, svc: Service, t: Target, snapshot: string)
    requires Prepare(w, log, svc, t, snapshot).0.Got?
    ensures var prep := Prepare(w, log, svc, t, snapshot).0.value;
            && AtRefs(prep.result.snapshot, prep.context) && IsLocated(prep.result.snapshot, t.source, prep.ref)
            && prep.ref.kind == t.source.kind && prep.ref.id == t.source.id && prep.ref.threadId == t.source.threadId
  {
    hide Reader.ReadWorld, AllComments, Holds, KindName;
    var s := Prepare(w, log, svc, t, snapshot).0.value.result.snapshot;
    var l := FirstMatch(AllComments(s), t.source).value;
    CollectedAreHeld(s, l.comment, l.threadId);
    KindNames(l.comment.kind);
  }

  lemma KindNames(kind: Kind)
    ensures IsOfKind(kind, KindName(kind))
  {
  }

  lemma WriteIsAcceptable(i: Write, thread: bool)
    requires ValidWrite(i, thread)
    ensures Acceptable(i.body) && ValidTarget(i.target, true)
  {
    hide Contains, Lower, ValidName;
    assert RESERVED[0] == "review verdict" && RESERVED[1] == "@thread-owl re-review requested";
    assert RESERVED[2] == "## レビュー対応サマリ（thread-owl）" && RESERVED[3] == "### サイクル状態" && RESERVED[4] == "review-raven-source:";
  }

  lemma IdentifiedLater(log: Log, mid: Log, log': Log, svc: Service, bot: Actor)
    requires Identified(log, mid, svc, bot) && mid <= log'
    ensures Identified(log, log', svc, bot)
  {
    hide IsApp;
    var j :| |log| <= j < |mid| && mid[j] == CallBot(svc.appLogin, Ok(bot));
    assert log'[j] == mid[j];
  }

  lemma IdentifiedFrom(log: Log, mid: Log, log': Log, svc: Service, bot: Actor)
    requires Identified(mid, log', svc, bot) && |log| <= |mid|
    ensures Identified(log, log', svc, bot)
  {
  }

  lemma IdentifyTrace(w: World, log: Log, svc: Service)
    ensures var (bot, log') := Identify(w, log, svc);
            Quiet(log, log') && (if bot.Got? then Identified(log, log', svc, bot.value) else !MayHaveChanged(bot.error))
  {
    hide Normalize;
    var log' := Identify(w, log, svc).1;
    assert log'[|log|].CallBot?;
  }

  lemma CheckRefsTrace(w: World, log: Log, p: PRContext)
    ensures var (moved, log') := CheckRefs(w, log, p);
            && Quiet(log, log') && |log'| == |log| + 1
            && (if moved.None? then log'[|log|] == CallContext(Ok(p)) else !MayHaveChanged(moved.value))
  {
  }

  /* The point a reply is written from. */
  ghost predicate ReadyToReply(w: World, log: Log, mid: Log, svc: Service, i: Write, bot: Actor) {
    && Quiet(log, mid) && |mid| > |log| + 1 && Prepare(w, log, svc, i.target, i.expectedSnapshot).0.Got?
    && mid[|mid| - 1] == CallContext(Ok(Prepare(w, log, svc, i.target, i.expectedSnapshot).0.value.context))
    && Identified(log, mid, svc, bot) && ShowsNoReply(w, mid[|mid| - 2], i, bot)
  }

  lemma PreparedSnapshot(w: World, log: Log, svc: Service, i: Write)
    requires ValidWrite(i, false) && Prepare(w, log, svc, i.target, i.expectedSnapshot).0.Got?
    ensures Prepare(w, log, svc, i.target, i.expectedSnapshot).0.value.result.snapshotId == i.expectedSnapshot
  {
    hide Prepare, Locate, RefsMatch, ValidWrite;
    PrepareMeaning(w, log, svc, i);
  }

  /* Either the reply tool stops without a write, or it gets to that point and posts. */
  lemma ReplyPaths(w: World, log: Log, svc: Service, i: Write) returns (mid: Log, bot: Actor)
    ensures var (r, log') := ReplyWorld(w, log, svc, i);
            var prep := Prepare(w, log, svc, i.target, i.expectedSnapshot).0;
            || (Quiet(log, log') && r.Fail? && !MayHaveChanged(r.error))
            || (ReadyToReply(w, log, mid, svc, i, bot) && ValidWrite(i, false) &&
                (r, log') == PostReply(w, mid, svc, prep.value, bot,
                                       ReplyBody(prep.value.ref.url, i.body, Marker(i.target)), i.target))
  {
    hide Reader.ReadWorld, ValidWrite, Marker, Prepare, PostReply, ReplyBody, FirstReply, Identify, CheckRefs, Identified, Duplicate,
      IsEarlierReply, Fingerprint;
    mid, bot := log, Actor("", "", "");
    PrepareIsQuiet(w, log, svc, i.target, i.expectedSnapshot);
    PrepareErrors(w, log, svc, i.target, i.expectedSnapshot);
    var (prep, log1) := Prepare(w, log, svc, i.target, i.expectedSnapshot);
    IdentifyTrace(w, log1, svc);
    var (who, log2) := Identify(w, log1, svc);
    QuietTwice(log, log1, log2);
    ReadIsQuiet(w, log2, svc, true);
    var (full, log3) := Reader.ReadWorld(w, log2, svc.logins, true);
    QuietTwice(log, log2, log3);
    if ValidWrite(i, false) && prep.Got? && who.Got? && full.Verified? {
      ReaderGuarantees.ReadEndsWithItsFetch(w, log2, svc.logins, true);
      PreparedSnapshot(w, log, svc, i);
      DuplicateTrace(w, log3, full.result.snapshot.issueComments, Marker(i.target), who.value);
      NoFirstReply(full.result.snapshot.issueComments, Marker(i.target), who.value);
      CheckRefsTrace(w, log3, prep.value.context);
      var log4 := CheckRefs(w, log3, prep.value.context).1;
      QuietTwice(log, log3, log4);
      IdentifiedFrom(log, log1, log2, svc, who.value);
      IdentifiedLater(log, log2, log4, svc, who.value);
      assert log4[|log4| - 2] == log3[|log3| - 1];
      mid, bot := log4, who.value;
    }
  }

  lemma NoFirstReply(cs: seq<Comment>, marker: string, bot: Actor)
    ensures FirstReply(cs, marker, bot).None? ==>
              forall c :: c in cs && c.body.Some? && HasMarker(c.body.value, marker) ==> !WrittenBy(c, bot)
  {
    hide HasMarker, Normalize;
    if FirstReply(cs, marker, bot).None? {
      forall c | c in cs && c.body.Some? && HasMarker(c.body.value, marker) ensures !WrittenBy(c, bot) {
        assert !IsEarlierReply(c, marker, bot);
      }
    }
  }

  lemma DuplicateTrace(w: World, log: Log, cs: seq<Comment>, marker: string, bot: Actor)
    ensures var c := FirstReply(cs, marker, bot);
            c.Some? ==> c.value.body.Some? && Quiet(log, Duplicate(w, log, c.value, bot).1)
                        && !MayHaveChanged(Duplicate(w, log, c.value, bot).0)
                        && forall mid :: Quiet(mid, log) ==> Quiet(mid, Duplicate(w, log, c.value, bot).1)
  {
    hide SameBot, HasMarker, IsByBot;
  }

  /** On every path of the reply tool: no write and an error that says so, or one guarded write, and then a
      success that was read back or an error that says something may have changed. */
  lemma ReplyTrace(w: World, log: Log, svc: Service, i: Write) returns (k: nat, bot: Actor)
    ensures var (r, log') := ReplyWorld(w, log, svc, i);
            || (Quiet(log, log') && r.Fail? && !MayHaveChanged(r.error))
            || WroteReply(w, log, log', svc, i, r, bot, k)
  {
    hide ReplyWorld, ValidWrite, Marker, Prepare, PostReply, ReplyBody, IsAccount, Identified, ShowsNoReply, ReadShows, IsLocated, AtRefs,
      Acceptable, SaysReply;
    var mid;
    mid, bot := ReplyPaths(w, log, svc, i);
    k := |mid|;
    var (r, log') := ReplyWorld(w, log, svc, i);
    if !(Quiet(log, log') && r.Fail? && !MayHaveChanged(r.error)) {
      var prep := Prepare(w, log, svc, i.target, i.expectedSnapshot).0.value;
      PrepareMeaning(w, log, svc, i);
      PrepareLocates(w, log, svc, i.target, i.expectedSnapshot);
      WriteIsAcceptable(i, false);
      ReplyBodySays(prep.ref.url, i.body, i.target);
      PostReplyTrace(w, mid, svc, prep, bot, ReplyBody(prep.ref.url, i.body, Marker(i.target)), i.target);
      QuietThenWrite(log, mid, log', k);
      assert log'[..k] == mid;
      assert log'[k - 1] == mid[k - 1] && log'[k - 2] == mid[k - 2];
    }
  }

  lemma PrepareErrors(w: World, log: Log, svc: Service, t: Target, snapshot: string)
    ensures var r := Prepare(w, log, svc, t, snapshot).0; r.Fail? ==> !MayHaveChanged(r.error)
  {
    hide Reader.ReadWorld, Locate;
  }

  /** The reply tool writes at most once. An error says that something may have changed exactly when the write
      was attempted; a success means that the one write was guarded and read back as composed, by the App's bot that
      this call identified. */
  lemma ReplyWritesOnce(w: World, log: Log, svc: Service, i: Write)
    ensures var (r, log') := ReplyWorld(w, log, svc, i);
            && log <= log' && Writes(log) <= Writes(log') <= Writes(log) + 1
            && (r.Fail? ==> (MayHaveChanged(r.error) <==> Writes(log') == Writes(log) + 1))
            && (r.Got? ==> Writes(log') == Writes(log) + 1)
            && (Writes(log') == Writes(log) + 1 ==>
                  exists k, bot :: WroteReply(w, log, log', svc, i, r, bot, k))
  {
    hide ReplyWorld, ReadBackReply, Prepare, Locate, Marker, ReplyBody, RefsMatch, ValidWrite, Identified, ShowsNoReply;
    var k, bot := ReplyTrace(w, log, svc, i);
    var (r, log') := ReplyWorld(w, log, svc, i);
    if Quiet(log, log') { QuietCounts(log, log'); }
    if OneWrite(log, log', k) { OneWriteCounts(log, log', k); }
  }

  /* The only comment of the snapshot with the source's kind and ID; it is located by its own URL, and its author is in
     the server list or in the allowlist that the read fetched, last but one of its calls, at the policy commit. */
  ghost predicate IsTrustedSource(svc: Service, read: Log, s: Snapshot, source: SourceRef, located: SourceRef, c: Comment) {
    && |read| >= 2 && read[|read| - 2].CallAllowlist? && read[|read| - 2].allowlist.Allowlist?
    && read[|read| - 2].sha == s.policyBaseSHA
    && Holds(s, c, source.threadId) && c.id == source.id && IsOfKind(c.kind, source.kind) && c.url == located.url != ""
    && c.author != "" && (Normalize(c.author) in svc.logins || Normalize(c.author) in read[|read| - 2].allowlist.logins)
    && forall d, u :: Holds(s, d, u) && d.id == source.id && IsOfKind(d.kind, source.kind) ==> d == c && u == source.threadId
  }

  /** The comment a reply or an issue refers to is the only one with its kind and ID in the verified snapshot, its author
      was allowed when that snapshot was read, and the URL is its own. */
  lemma SourceIsTheTrustedComment(w: World, log: Log, svc: Service, t: Target, snapshot: string) returns (c: Comment)
    requires ReaderGuarantees.CleanWorld(w) && Prepare(w, log, svc, t, snapshot).0.Got?
    ensures var prep := Prepare(w, log, svc, t, snapshot).0.value;
            IsTrustedSource(svc, Reader.ReadWorld(w, log, svc.logins, false).1, prep.result.snapshot, t.source, prep.ref, c)
  {
    hide Holds, Normalize, Reader.ReadWorld, Prepare, ReaderGuarantees.CleanWorld, AllKnown, ReaderGuarantees.AllTrusted,
      ReaderGuarantees.AllDistinct;
    ReaderGuarantees.ReadReturnsOnlyTrustedComments(w, log, svc.logins, false);
    PrepareLocates(w, log, svc, t, snapshot);
    PreparedFrom(w, log, svc, t, snapshot);
    var prep := Prepare(w, log, svc, t, snapshot).0.value;
    var s := prep.result.snapshot;
    c :| Holds(s, c, t.source.threadId) && c.id == t.source.id && IsOfKind(c.kind, t.source.kind) && c.url == prep.ref.url;
    forall d, u | Holds(s, d, u) && d.id == t.source.id && IsOfKind(d.kind, t.source.kind) ensures d == c && u == t.source.threadId {
      OneKind(c.kind, d.kind, t.source.kind);
    }
  }

  lemma PreparedFrom(w: World, log: Log, svc: Service, t: Target, snapshot: string)
    requires Prepare(w, log, svc, t, snapshot).0.Got?
    ensures Reader.ReadWorld(w, log, svc.logins, false).0 == Reader.Verified(Prepare(w, log, svc, t, snapshot).0.value.result)
  {
    hide Reader.ReadWorld, Locate;
  }

  lemma OneKind(a: Kind, b: Kind, name: string)
    requires IsOfKind(a, name) && IsOfKind(b, name)
    ensures a == b
  {
  }

  // ---- what "it is there already" means ----

  /* The reply named in the answer carries the marker, was shown by the body read, and was read again as the bot's. */
  ghost predicate ReplyIsThere(log: Log, log': Log, svc: Service, i: Write, reply: Resource) {
    && |log'| >= |log| + 2 && log'[|log'| - 1].CallReadReply? && log'[|log'| - 1].id == reply.id && log'[|log'| - 1].reply.Ok?
    && HasMarker(log'[|log'| - 1].reply.value.body, Marker(i.target))
    && (exists bot :: Identified(log, log', svc, bot) && IsAccount(log'[|log'| - 1].reply.value.author, bot))
    && log'[|log'| - 2].CallFetch? && log'[|log'| - 2].withBodies && log'[|log'| - 2].fetched.Fetched?
    && exists c :: c in log'[|log'| - 2].fetched.snapshot.issueComments && c.id == reply.id && c.url == reply.url
                   && c.body == Some(log'[|log'| - 1].reply.value.body)
  }

  lemma DuplicateIsThere(w: World, log: Log, cs: seq<Comment>, marker: string, bot: Actor, c: Comment)
    requires FirstReply(cs, marker, bot) == Some(c)
    ensures c in cs && c.body.Some? && HasMarker(c.body.value, marker)
    ensures var (e, log') := Duplicate(w, log, c, bot);
            e.AlreadyReplied? ==>
              && |log'| == |log| + 1 && log <= log' && log'[|log|].CallReadReply? && log'[|log|].id == e.reply.id == c.id && c.url == e.reply.url
              && log'[|log|].reply.Ok? && log'[|log|].reply.value.body == c.body.value && IsAccount(log'[|log|].reply.value.author, bot)
  {
    hide HasMarker, Normalize;
  }

  /** "Already replied" is said only of a reply that was seen: listed with the marker, and read again with the same text and
      the identified App as its author. */
  lemma AlreadyRepliedMeans(w: World, log: Log, svc: Service, i: Write)
    ensures var (r, log') := ReplyWorld(w, log, svc, i);
            r.Fail? && r.error.AlreadyReplied? ==> ReplyIsThere(log, log', svc, i, r.error.reply)
  {
    hide Reader.ReadWorld, ValidWrite, Marker, Prepare, PostReply, ReplyBody, FirstReply, Identify, CheckRefs, Identified, Duplicate,
      Fingerprint, HasMarker, IsAccount;
    PrepareIsQuiet(w, log, svc, i.target, i.expectedSnapshot);
    NeverAlready(w, log, svc, i);
    var (prep, log1) := Prepare(w, log, svc, i.target, i.expectedSnapshot);
    IdentifyTrace(w, log1, svc);
    var (who, log2) := Identify(w, log1, svc);
    ReadIsQuiet(w, log2, svc, true);
    var (full, log3) := Reader.ReadWorld(w, log2, svc.logins, true);
    if ValidWrite(i, false) && prep.Got? && who.Got? && full.Verified? {
      ReaderGuarantees.ReadEndsWithItsFetch(w, log2, svc.logins, true);
      var c := FirstReply(full.result.snapshot.issueComments, Marker(i.target), who.value);
      if c.Some? {
        DuplicateIsThere(w, log3, full.result.snapshot.issueComments, Marker(i.target), who.value, c.value);
        var log4 := Duplicate(w, log3, c.value, who.value).1;
        IdentifiedFrom(log, log1, log2, svc, who.value);
        if log3 <= log4 {
          IdentifiedLater(log, log2, log4, svc, who.value);
          assert |log4| == |log3| + 1 ==> log4[|log4| - 2] == log3[|log3| - 1];
        }
      } else {
        NeverAlreadyLater(w, log3, svc, prep.value, who.value, i);
      }
    }
  }

  lemma NeverAlready(w: World, log: Log, svc: Service, i: Write)
    ensures var r := Prepare(w, log, svc, i.target, i.expectedSnapshot).0; r.Fail? ==> !r.error.AlreadyReplied?
    ensures forall l :: var r := Identify(w, l, svc).0; r.Fail? ==> !r.error.AlreadyReplied?
  {
    hide Reader.ReadWorld, Locate, Normalize;
  }

  lemma NeverAlreadyLater(w: World, log: Log, svc: Service, prep: Prepared, bot: Actor, i: Write)
    ensures var moved := CheckRefs(w, log, prep.context).0; moved.Some? ==> !moved.value.AlreadyReplied?
    ensures forall l, body :: var r := PostReply(w, l, svc, prep, bot, body, i.target).0; r.Fail? ==> !r.error.AlreadyReplied?
  {
    hide Reader.ReadWorld, ReadsBack;
  }

  // ---- the issue ----

  /* The issue that was created, open, with what was written, by the bot. */
  ghost predicate IssueAsWritten(actual: Issue, created: Issue, i: IssueInput, body: string, bot: Actor) {
    && actual.id == created.id && actual.url == created.url && actual.state == "OPEN"
    && actual.title == i.title && actual.body == body && multiset(actual.labels) == multiset(i.labels)
    && actual.author.Some? && IsAccount(actual.author.value, bot)
  }

  lemma WhatIssueReadsBack(actual: Issue, created: Issue, i: IssueInput, body: string, bot: Actor)
    ensures IssueReadsBack(actual, created, i, body, bot) ==> IssueAsWritten(actual, created, i, body, bot)
  {
    hide Normalize;
  }

  /* From the POST on: exactly one write, the first call; every failure says so; a success was read back. */
  lemma PostIssueTrace(w: World, log: Log, svc: Service, prep: Prepared, bot: Actor, i: IssueInput, body: string)
    ensures var (r, log') := PostIssue(w, log, svc, prep, bot, i, body);
            && log <= log' && OneWrite(log, log', |log|)
            && log'[|log|].CallPostIssue? && log'[|log|].title == i.title && log'[|log|].body == body && log'[|log|].labels == i.labels
            && (r.Fail? ==> MayHaveChanged(r.error) && NamesIssue(r.error.written, log'[|log|].created))
            && (r.Got? ==>
                  && log'[|log|].created.Ok? && log'[|log|].created.value.number > 0 && log'[|log|].created.value.id != ""
                  && Reports(r.value, prep, i.write.target) && r.value.comment.None?
                  && r.value.issue.Some? && IssueAsWritten(r.value.issue.value, log'[|log|].created.value, i, body, bot)
                  && log'[|log'| - 1] == CallContext(Ok(prep.context)))
  {
    hide ReadIssue, IssueReadsBack, IssueAsWritten;
    var created := w.postIssue(log, i.title, body, i.labels);
    if created.Ok? {
      var log1 := log + [CallPostIssue(i.title, body, i.labels, created)];
      ReadIssueIsQuiet(w, log1, svc, prep.context, created.value.number);
      var actual := ReadIssue(w, log1, svc, prep.context, created.value.number).0;
      if actual.Got? { WhatIssueReadsBack(actual.value, created.value, i, body, bot); }
    }
  }

  /* The search found at most one issue for the marker, which was read and is not the bot's own for it. */
  ghost predicate SearchedInVain(log: Log, log': Log, marker: string, bot: Actor) {
    exists m :: |log| <= m < |log'| && FoundNone(log', m, marker, bot)
  }

  ghost predicate FoundNone(log': Log, m: nat, marker: string, bot: Actor)
    requires m < |log'|
  {
    && log'[m].CallFindIssues? && log'[m].marker == marker && log'[m].found.Ok? && |log'[m].found.value| <= 1
    && forall n :: n in log'[m].found.value ==>
         && m + 3 < |log'| && log'[m + 3].CallIssue? && log'[m + 3].number == n && log'[m + 3].withBody
         && log'[m + 3].issue.Ok? && !IsOurs(log'[m + 3].issue.value, marker, bot)
  }

  /* An issue with the marker by the bot. */
  predicate IsOurs(i: Issue, marker: string, bot: Actor) {
    HasMarker(i.body, marker) && i.author.Some? && IsAccount(i.author.value, bot)
  }

  lemma OursIsOurs(i: Issue, marker: string, bot: Actor)
    ensures IsOurIssue(i, marker, bot) <==> IsOurs(i, marker, bot)
  {
    hide Normalize, HasMarker;
  }

  /* The labels were found to exist, and after that the expected snapshot was read again, right before the last check. */
  ghost predicate CheckedAgain(w: World, log: Log, log': Log, i: IssueInput) {
    && |log'| >= |log| + 2 && (exists m :: |log| <= m < |log'| - 2 && log'[m] == CallLabels(i.labels, true))
    && var c := log'[|log'| - 2];
       c.CallFetch? && c.fetched.Fetched? && w.sha256(Fingerprint(c.fetched.snapshot)) == i.write.expectedSnapshot
  }

  lemma CheckedAgainFrom(w: World, log: Log, mid: Log, log': Log, i: IssueInput)
    requires CheckedAgain(w, mid, log', i) && |log| <= |mid|
    ensures CheckedAgain(w, log, log', i)
  {
  }

  /* What has been checked when an issue is written, at k, by the bot. */
  ghost predicate GuardedIssue(w: World, log: Log, log': Log, svc: Service, i: IssueInput, bot: Actor, k: nat) {
    var t := i.write.target;
    var prep := Prepare(w, log, svc, t, i.write.expectedSnapshot).0;
    && OneWrite(log, log', k) && k > |log| && prep.Got? && log'[k].CallPostIssue?
    && Identified(log, log'[..k], svc, bot) && SearchedInVain(log, log'[..k], Marker(t), bot)
    && log'[k].title == i.title && log'[k].labels == i.labels
    && log'[k].body == IssueBody(i.write.body, prep.value.context.url, prep.value.ref.url, t.expectedHead, i.reason, Marker(t))
    && SaysIssue(log'[k].body, i.write.body, prep.value.context.url, prep.value.ref.url, t.expectedHead, i.reason, t)
    && Acceptable(i.write.body) && i.reason in ["out-of-scope", "deferred", "follow-up"]
    && CheckedAgain(w, log, log'[..k], i)
    && log'[k - 1] == CallContext(Ok(prep.value.context))
    && prep.value.context.state == "OPEN" && prep.value.context.headSHA == t.expectedHead
    && prep.value.result.snapshotId == i.write.expectedSnapshot && AtRefs(prep.value.result.snapshot, prep.value.context)
    && IsLocated(prep.value.result.snapshot, t.source, prep.value.ref)
    && ValidIssue(i)
  }

  /* A success carries the issue written at k, open and read back as written, by the bot. */
  ghost predicate ReadBackIssue(log': Log, i: IssueInput, r: Output, bot: Actor, k: nat) {
    && k + 1 < |log'| && log'[k].CallPostIssue? && log'[k].created.Ok? && r.issue.Some? && r.comment.None?
    && log'[k].created.value.number > 0 && log'[k].created.value.id != ""
    && IssueAsWritten(r.issue.value, log'[k].created.value, i, log'[k].body, bot)
    && log'[|log'| - 1].CallContext? && log'[|log'| - 1].context.Ok?
    && r.source.kind == i.write.target.source.kind && r.source.id == i.write.target.source.id
    && r.source.threadId == i.write.target.source.threadId
    && r.headSHA == i.write.target.expectedHead && r.matchesExpectedHead && r.prState == "OPEN"
    && r.snapshotId == i.write.expectedSnapshot && r.policyBaseSHA == log'[|log'| - 1].context.value.policyBaseSHA
  }

  ghost predicate WroteIssue(w: World, log: Log, log': Log, svc: Service, i: IssueInput, r: Try<Output>, bot: Actor, k: nat) {
    && GuardedIssue(w, log, log', svc, i, bot, k)
    && match r
       case Got(output) => ReadBackIssue(log', i, output, bot, k)
       case Fail(e) => MayHaveChanged(e) && NamesIssue(e.written, log'[k].created)
  }

  /* A reading that succeeds makes four calls, the third for the text. */
  lemma ReadIssueCalls(w: World, log: Log, svc: Service, p: PRContext, number: int)
    ensures var (r, log') := ReadIssue(w, log, svc, p, number);
            r.Got? ==> |log'| == |log| + 4 && log <= log' && log'[|log| + 2] == CallIssue(number, true, Ok(r.value))
  {
    hide SameMetadata, ActorsKnown, Normalize;
  }

  /* Nothing was found to exist, among at most one candidate. */
  lemma ExistingNone(w: World, log: Log, svc: Service, p: PRContext, marker: string, bot: Actor, numbers: seq<int>)
    requires |numbers| <= 1 && Existing(w, log, svc, p, marker, bot, numbers).0 == Got([])
    ensures var log' := Existing(w, log, svc, p, marker, bot, numbers).1;
            forall n :: n in numbers ==>
              && |log| + 2 < |log'| && log'[|log| + 2].CallIssue? && log'[|log| + 2].number == n && log'[|log| + 2].withBody
              && log'[|log| + 2].issue.Ok? && !IsOurs(log'[|log| + 2].issue.value, marker, bot)
  {
    hide ReadIssue, IsOurIssue, IsOurs;
    if |numbers| == 1 {
      ReadIssueCalls(w, log, svc, p, numbers[0]);
      var (issue, log1) := ReadIssue(w, log, svc, p, numbers[0]);
      if issue.Got? { OursIsOurs(issue.value, marker, bot); }
      assert numbers[1..] == [];
      assert Existing(w, log1, svc, p, marker, bot, numbers[1..]) == (Got([]), log1);
      assert forall n :: n in numbers ==> n == numbers[0];
    }
  }

  lemma SearchedLater(log: Log, mid: Log, log': Log, marker: string, bot: Actor)
    requires SearchedInVain(log, mid, marker, bot) && mid <= log'
    ensures SearchedInVain(log, log', marker, bot)
  {
    hide IsOurs;
    var m :| |log| <= m < |mid| && FoundNone(mid, m, marker, bot);
    assert log'[m] == mid[m];
    assert m + 3 < |mid| ==> log'[m + 3] == mid[m + 3];
    assert FoundNone(log', m, marker, bot);
  }

  lemma IssuePrepareMeaning(w: World, log: Log, svc: Service, i: IssueInput)
    requires ValidIssue(i) && Prepare(w, log, svc, i.write.target, i.write.expectedSnapshot).0.Got?
    ensures var prep := Prepare(w, log, svc, i.write.target, i.write.expectedSnapshot).0.value;
            && prep.context.state == "OPEN" && prep.context.headSHA == i.write.target.expectedHead
            && prep.result.snapshotId == i.write.expectedSnapshot
  {
    hide Reader.ReadWorld, Locate, ValidBody, ValidTarget, RefsMatch;
  }

  lemma IssueIsAcceptable(i: IssueInput)
    requires ValidIssue(i)
    ensures Acceptable(i.write.body) && ValidTarget(i.write.target, true) && i.reason in ["out-of-scope", "deferred", "follow-up"]
    ensures '\n' !in i.write.target.expectedHead && '\n' !in i.reason
  {
    hide ValidWrite, Acceptable, ValidTarget, TrimSpace;
    WriteIsAcceptable(i.write, true);
    HeadIsHex(i.write);
    FollowUpMarker.OneLine(i.write.target.expectedHead, i.reason);
  }

  lemma HeadIsHex(i: Write)
    requires ValidWrite(i, true)
    ensures IsLowerHex(i.target.expectedHead, 40)
  {
    hide ValidBody, ValidName;
  }

  lemma ReadIssueErrors(w: World, log: Log, svc: Service, p: PRContext, number: int)
    ensures var r := ReadIssue(w, log, svc, p, number).0; r.Fail? ==> !MayHaveChanged(r.error)
  {
    hide SameMetadata, ActorsKnown, Normalize;
  }

  lemma {:induction false} ExistingErrors(w: World, log: Log, svc: Service, p: PRContext, marker: string, bot: Actor, numbers: seq<int>)
    ensures var r := Existing(w, log, svc, p, marker, bot, numbers).0; r.Fail? ==> !MayHaveChanged(r.error)
    decreases |numbers|
  {
    hide ReadIssue, IsOurIssue;
    if |numbers| > 0 {
      ReadIssueErrors(w, log, svc, p, numbers[0]);
      ExistingErrors(w, ReadIssue(w, log, svc, p, numbers[0]).1, svc, p, marker, bot, numbers[1..]);
    }
  }

  /* From the label check on, a call stops without a write or posts right after a context check. */
  lemma FilePaths(w: World, log: Log, svc: Service, prep: Prepared, bot: Actor, i: IssueInput) returns (mid: Log)
    ensures var (r, log') := FileIssue(w, log, svc, prep, bot, i);
            var t := i.write.target;
            || (Quiet(log, log') && r.Fail? && !MayHaveChanged(r.error))
            || (Quiet(log, mid) && |mid| > |log| && mid[|mid| - 1] == CallContext(Ok(prep.context))
                && (prep.result.snapshotId == i.write.expectedSnapshot ==> CheckedAgain(w, log, mid, i)) &&
                (r, log') == PostIssue(w, mid, svc, prep, bot, i,
                                       IssueBody(i.write.body, prep.context.url, prep.ref.url, t.expectedHead, i.reason, Marker(t))))
  {
    hide Reader.ReadWorld, PostIssue, IssueBody, Marker, CheckRefs, Fingerprint;
    var log1 := log + [CallLabels(i.labels, w.labels(log, i.labels))];
    ReadIsQuiet(w, log1, svc, false);
    ReaderGuarantees.ReadEndsWithItsFetch(w, log1, svc.logins, false);
    var (current, log2) := Reader.ReadWorld(w, log1, svc.logins, false);
    CheckRefsTrace(w, log2, prep.context);
    mid := CheckRefs(w, log2, prep.context).1;
    QuietTwice(log, log1, log2);
    QuietTwice(log, log2, mid);
    assert mid[|log|] == log1[|log|] && mid[|mid| - 2] == log2[|log2| - 1];
  }

  /* Either the issue tool stops without a write, or it gets past the search for an existing issue. */
  lemma IssuePaths(w: World, log: Log, svc: Service, i: IssueInput) returns (mid: Log, bot: Actor)
    ensures var (r, log') := CreateIssueWorld(w, log, svc, i);
            var prep := Prepare(w, log, svc, i.write.target, i.write.expectedSnapshot).0;
            || (Quiet(log, log') && r.Fail? && !MayHaveChanged(r.error))
            || (Quiet(log, mid) && ValidIssue(i) && prep.Got? && Identified(log, mid, svc, bot)
                && SearchedInVain(log, mid, Marker(i.write.target), bot)
                && (r, log') == FileIssue(w, mid, svc, prep.value, bot, i))
  {
    hide ValidIssue, Marker, Prepare, FileIssue, Identify, Identified, Existing, FoundNone;
    mid, bot := log, Actor("", "", "");
    var t := i.write.target;
    PrepareIsQuiet(w, log, svc, t, i.write.expectedSnapshot);
    PrepareErrors(w, log, svc, t, i.write.expectedSnapshot);
    var (prep, log1) := Prepare(w, log, svc, t, i.write.expectedSnapshot);
    IdentifyTrace(w, log1, svc);
    var (who, log2) := Identify(w, log1, svc);
    QuietTwice(log, log1, log2);
    if ValidIssue(i) && prep.Got? && who.Got? {
      var numbers := w.findIssues(log2, Marker(t));
      var log3 := log2 + [CallFindIssues(Marker(t), numbers)];
      QuietTwice(log, log2, log3);
      if numbers.Ok? {
        var p := prep.value.context;
        ExistingIsQuiet(w, log3, svc, p, Marker(t), who.value, numbers.value);
        ExistingErrors(w, log3, svc, p, Marker(t), who.value, numbers.value);
        var (existing, log4) := Existing(w, log3, svc, p, Marker(t), who.value, numbers.value);
        QuietTwice(log, log3, log4);
        IdentifiedFrom(log, log1, log2, svc, who.value);
        IdentifiedLater(log, log2, log4, svc, who.value);
        if existing == Got([]) && |numbers.value| <= 1 { NothingFound(w, log2, svc, p, Marker(t), who.value); }
        mid, bot := log4, who.value;
      }
    }
  }

  lemma NothingFound(w: World, log: Log, svc: Service, p: PRContext, marker: string, bot: Actor)
    requires var numbers := w.findIssues(log, marker);
             && numbers.Ok? && |numbers.value| <= 1
             && Existing(w, log + [CallFindIssues(marker, numbers)], svc, p, marker, bot, numbers.value).0 == Got([])
    ensures var numbers := w.findIssues(log, marker);
            var log' := Existing(w, log + [CallFindIssues(marker, numbers)], svc, p, marker, bot, numbers.value).1;
            |log| < |log'| && FoundNone(log', |log|, marker, bot)
  {
    hide Existing, IsOurs;
    var numbers := w.findIssues(log, marker);
    var log1 := log + [CallFindIssues(marker, numbers)];
    ExistingNone(w, log1, svc, p, marker, bot, numbers.value);
    ExistingIsQuiet(w, log1, svc, p, marker, bot, numbers.value);
    assert Existing(w, log1, svc, p, marker, bot, numbers.value).1[|log|] == log1[|log|];
  }

  /** On every path of the issue tool: no write and an error that says so, or one guarded write, and then a
      success that was read back or an error that says something may have changed. */
  lemma IssueTrace(w: World, log: Log, svc: Service, i: IssueInput) returns (k: nat, bot: Actor)
    ensures var (r, log') := CreateIssueWorld(w, log, svc, i);
            || (Quiet(log, log') && r.Fail? && !MayHaveChanged(r.error))
            || WroteIssue(w, log, log', svc, i, r, bot, k)
  {
    hide CreateIssueWorld, ValidIssue, Marker, Prepare, FileIssue, PostIssue, IssueBody, IssueAsWritten, Identified, SearchedInVain,
      SaysIssue, Acceptable, CheckedAgain, IsLocated, AtRefs;
    var first;
    first, bot := IssuePaths(w, log, svc, i);
    var (r, log') := CreateIssueWorld(w, log, svc, i);
    k := 0;
    if !(Quiet(log, log') && r.Fail? && !MayHaveChanged(r.error)) {
      var t := i.write.target;
      var prep := Prepare(w, log, svc, t, i.write.expectedSnapshot).0.value;
      IssuePrepareMeaning(w, log, svc, i);
      PrepareLocates(w, log, svc, t, i.write.expectedSnapshot);
      IssueIsAcceptable(i);
      IssueBodySays(i.write.body, prep.context.url, prep.ref.url, t.expectedHead, i.reason, t);
      var mid := FilePaths(w, first, svc, prep, bot, i);
      if Quiet(first, log') { QuietTwice(log, first, log'); }
      QuietTwiceIf(log, first, mid);
      PostIssueTrace(w, mid, svc, prep, bot, i,
                     IssueBody(i.write.body, prep.context.url, prep.ref.url, t.expectedHead, i.reason, Marker(t)));
      k := |mid|;
      QuietThenWrite(log, mid, log', k);
      IdentifiedLater(log, first, mid, svc, bot);
      SearchedLater(log, first, mid, Marker(t), bot);
      CheckedAgainFrom(w, log, first, mid, i);
      assert log'[..k] == mid;
      assert log'[k - 1] == mid[k - 1];
    }
  }

  lemma QuietTwiceIf(a: Log, b: Log, c: Log)
    requires Quiet(a, b)
    ensures Quiet(b, c) ==> Quiet(a, c)
  {
  }

  /** The issue tool writes at most once, and its errors and successes say so; the one write was guarded, and on success
      read back as composed, by the App's bot that this call identified. */
  lemma IssueWritesOnce(w: World, log: Log, svc: Service, i: IssueInput)
    ensures var (r, log') := CreateIssueWorld(w, log, svc, i);
            && log <= log' && Writes(log) <= Writes(log') <= Writes(log) + 1
            && (r.Fail? ==> (MayHaveChanged(r.error) <==> Writes(log') == Writes(log) + 1))
            && (r.Got? ==> Writes(log') == Writes(log) + 1)
            && (Writes(log') == Writes(log) + 1 ==>
                  exists k, bot :: WroteIssue(w, log, log', svc, i, r, bot, k))
  {
    hide CreateIssueWorld, ReadBackIssue, Prepare, Marker, IssueBody, ValidIssue, Identified, SearchedInVain;
    var k, bot := IssueTrace(w, log, svc, i);
    var (r, log') := CreateIssueWorld(w, log, svc, i);
    if Quiet(log, log') { QuietCounts(log, log'); }
    if OneWrite(log, log', k) { OneWriteCounts(log, log', k); }
  }

  /* The candidate is an issue whose text was read from `from` on, with the marker and by the bot. */
  ghost predicate IssueIsThere(log': Log, from: nat, numbers: seq<int>, marker: string, bot: Actor, candidate: Resource) {
    exists k :: from <= k < |log'| && log'[k].CallIssue? && log'[k].withBody && log'[k].number in numbers && log'[k].issue.Ok?
                && IsOurs(log'[k].issue.value, marker, bot)
                && candidate == Resource(log'[k].issue.value.id, log'[k].issue.value.number, log'[k].issue.value.url)
  }

  lemma IssueIsThereLater(log: Log, log': Log, from: nat, from': nat, numbers: seq<int>, more: seq<int>, marker: string, bot: Actor, candidate: Resource)
    requires IssueIsThere(log, from, numbers, marker, bot, candidate) && log <= log' && from' <= from && forall n :: n in numbers ==> n in more
    ensures IssueIsThere(log', from', more, marker, bot, candidate)
  {
    hide IsOurs;
    var k :| from <= k < |log| && log[k].CallIssue? && log[k].withBody && log[k].number in numbers && log[k].issue.Ok?
             && IsOurs(log[k].issue.value, marker, bot)
             && candidate == Resource(log[k].issue.value.id, log[k].issue.value.number, log[k].issue.value.url);
    assert log'[k] == log[k];
  }

  lemma {:induction false} ExistingAreThere(w: World, log: Log, svc: Service, p: PRContext, marker: string, bot: Actor, numbers: seq<int>)
    ensures var (r, log') := Existing(w, log, svc, p, marker, bot, numbers);
            r.Got? ==> forall c :: c in r.value ==> IssueIsThere(log', |log|, numbers, marker, bot, c)
    decreases |numbers|
  {
    hide ReadIssue, IsOurIssue, IsOurs, IssueIsThere;
    if |numbers| > 0 {
      ReadIssueCalls(w, log, svc, p, numbers[0]);
      var (issue, log1) := ReadIssue(w, log, svc, p, numbers[0]);
      if issue.Got? {
        ExistingAreThere(w, log1, svc, p, marker, bot, numbers[1..]);
        ExistingIsQuiet(w, log1, svc, p, marker, bot, numbers[1..]);
        var (rest, log2) := Existing(w, log1, svc, p, marker, bot, numbers[1..]);
        OursIsOurs(issue.value, marker, bot);
        if rest.Got? {
          forall c | c in rest.value ensures IssueIsThere(log2, |log|, numbers, marker, bot, c) {
            IssueIsThereLater(log2, log2, |log1|, |log|, numbers[1..], numbers, marker, bot, c);
          }
          if IsOurs(issue.value, marker, bot) {
            JustRead(log1, log2, |log|, numbers, marker, bot, issue.value);
          }
        }
      }
    }
  }

  lemma JustRead(log1: Log, log2: Log, at: nat, numbers: seq<int>, marker: string, bot: Actor, issue: Issue)
    requires |numbers| > 0 && at + 2 < |log1| && log1 <= log2 && log1[at + 2] == CallIssue(numbers[0], true, Ok(issue)) && IsOurs(issue, marker, bot)
    ensures IssueIsThere(log2, at, numbers, marker, bot, Resource(issue.id, issue.number, issue.url))
  {
    hide IsOurs;
    assert log2[at + 2] == log1[at + 2];
  }

  /* The candidates named are those the search found, more than one, or issues that are there already. */
  ghost predicate NamesCandidates(log': Log, m: nat, marker: string, bot: Actor, candidates: seq<Resource>)
    requires m < |log'|
  {
    && log'[m].CallFindIssues? && log'[m].marker == marker && log'[m].found.Ok?
    && var numbers := log'[m].found.value;
       || (&& |numbers| > 1 && |candidates| == |numbers|
           && forall k :: 0 <= k < |numbers| ==> candidates[k] == Resource("", numbers[k], ""))
       || (candidates != [] && forall c :: c in candidates ==> IssueIsThere(log', m + 1, numbers, marker, bot, c))
  }

  lemma ExistingAreCandidates(w: World, log: Log, svc: Service, p: PRContext, marker: string, bot: Actor)
    ensures var found := w.findIssues(log, marker);
            found.Ok? ==>
              var (r, log') := Existing(w, log + [CallFindIssues(marker, found)], svc, p, marker, bot, found.value);
              && |log'| > |log| && log <= log'
              && (r.Got? && |r.value| > 0 ==> NamesCandidates(log', |log|, marker, bot, r.value))
              && (|found.value| > 1 ==> NamesCandidates(log', |log|, marker, bot, Numbered(found.value)))
              && (r.Fail? ==> !r.error.FollowUpExists?)
  {
    hide Existing, IssueIsThere;
    var found := w.findIssues(log, marker);
    if found.Ok? {
      var log1 := log + [CallFindIssues(marker, found)];
      ExistingAreThere(w, log1, svc, p, marker, bot, found.value);
      ExistingIsQuiet(w, log1, svc, p, marker, bot, found.value);
      ExistingFails(w, log1, svc, p, marker, bot, found.value);
      assert Existing(w, log1, svc, p, marker, bot, found.value).1[|log|] == log1[|log|];
    }
  }

  lemma {:induction false} ExistingFails(w: World, log: Log, svc: Service, p: PRContext, marker: string, bot: Actor, numbers: seq<int>)
    ensures var r := Existing(w, log, svc, p, marker, bot, numbers).0; r.Fail? ==> !r.error.FollowUpExists?
    decreases |numbers|
  {
    hide IsOurIssue, SameMetadata, ActorsKnown, ActorAllowed;
    if |numbers| > 0 { ExistingFails(w, ReadIssue(w, log, svc, p, numbers[0]).1, svc, p, marker, bot, numbers[1..]); }
  }

  /** "A follow-up exists" names issues that were seen: each read with the marker and the identified App as its author; or,
      when none of several was, all that the search found. */
  lemma FollowUpExistsMeans(w: World, log: Log, svc: Service, i: IssueInput) returns (m: nat, bot: Actor)
    ensures var (r, log') := CreateIssueWorld(w, log, svc, i);
            r.Fail? && r.error.FollowUpExists? ==>
              |log| <= m < |log'| && Identified(log, log', svc, bot) && NamesCandidates(log', m, Marker(i.write.target), bot, r.error.candidates)
  {
    hide ValidIssue, Marker, Prepare, FileIssue, Identify, Identified, Existing, NamesCandidates, Numbered;
    m, bot := |log|, Actor("", "", "");
    var t := i.write.target;
    PrepareIsQuiet(w, log, svc, t, i.write.expectedSnapshot);
    NoFollowUpNamed(w, log, svc, i);
    var (prep, log1) := Prepare(w, log, svc, t, i.write.expectedSnapshot);
    IdentifyTrace(w, log1, svc);
    var (who, log2) := Identify(w, log1, svc);
    if ValidIssue(i) && prep.Got? && who.Got? {
      m, bot := |log2|, who.value;
      ExistingAreCandidates(w, log2, svc, prep.value.context, Marker(t), bot);
      var numbers := w.findIssues(log2, Marker(t));
      if numbers.Ok? {
        var log4 := Existing(w, log2 + [CallFindIssues(Marker(t), numbers)], svc, prep.value.context, Marker(t), bot, numbers.value).1;
        IdentifiedFrom(log, log1, log2, svc, bot);
        IdentifiedLater(log, log2, log4, svc, bot);
        NoFollowUpFiled(w, log4, svc, prep.value, bot, i);
      }
    }
  }

  lemma NoFollowUpNamed(w: World, log: Log, svc: Service, i: IssueInput)
    ensures var r := Prepare(w, log, svc, i.write.target, i.write.expectedSnapshot).0; r.Fail? ==> !r.error.FollowUpExists?
    ensures forall l :: var r := Identify(w, l, svc).0; r.Fail? ==> !r.error.FollowUpExists?
  {
    hide Reader.ReadWorld, Locate, Normalize;
  }

  lemma NoFollowUpFiled(w: World, log: Log, svc: Service, prep: Prepared, bot: Actor, i: IssueInput)
    ensures var r := FileIssue(w, log, svc, prep, bot, i).0; r.Fail? ==> !r.error.FollowUpExists?
  {
    hide Reader.ReadWorld, ReadIssue, IssueReadsBack, IssueBody, Marker;
  }

  /** Reading an issue back never writes, and no error of it claims otherwise. */
  lemma ReadingAnIssueWritesNothing(w: World, log: Log, svc: Service, t: Target, number: int)
    ensures var (r, log') := GetIssueWorld(w, log, svc, t, number);
            Writes(log') == Writes(log) && (r.Fail? ==> !MayHaveChanged(r.error))
  {
    hide ValidTarget, Prepare, ReadIssue;
    PrepareIsQuiet(w, log, svc, t, "");
    PrepareErrors(w, log, svc, t, "");
    var (prep, log1) := Prepare(w, log, svc, t, "");
    if prep.Got? {
      ReadIssueIsQuiet(w, log1, svc, prep.value.context, number);
      ReadIssueErrors(w, log1, svc, prep.value.context, number);
    }
    QuietCounts(log, GetIssueWorld(w, log, svc, t, number).1);
  }
}
