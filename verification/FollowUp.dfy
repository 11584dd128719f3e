/** Answering a comment of a pull request, or filing an issue for it: every check before the one write, and the
    read-back after it. */
module FollowUp {
  import opened Prelude
  import opened Sorting
  import opened GitHub
  import opened Snapshots
  import opened TrustedAuthors
  import opened FollowUpMarker
  import Reader

  datatype Service = Service(logins: seq<string>, appLogin: string)

  datatype Resource = Resource(id: string, number: int, url: string)

  datatype Error =
    | InvalidInput | Reading(error: Reader.ReadError) | ContextFailed | PreconditionFailed | AppIdentityFailed
    | ReplyUnreadable | SnapshotChanged | AlreadyReplied(reply: Resource) | SearchFailed | IssueUnreadable
    | AuthorCheckFailed | UntrustedActor | AllowlistUnreadable | FollowUpExists(candidates: seq<Resource>) | LabelsFailed
    | WriteOutcomeUnknown(written: Resource) | PostWriteMismatch(written: Resource)

  /** What an error tells the caller about the write. */
  predicate MayHaveChanged(e: Error) { e.WriteOutcomeUnknown? || e.PostWriteMismatch? }

  datatype Try<+T> = Got(value: T) | Fail(error: Error)

  datatype Output = Output(
    source: SourceRef, headSHA: string, snapshotId: string, policyBaseSHA: string, prState: string,
    matchesExpectedHead: bool, comment: Option<Reply>, issue: Option<Issue>)

  /** Calls were added, none of them a write. */
  ghost predicate Quiet(log: Log, log': Log) {
    log <= log' && forall i :: |log| <= i < |log'| ==> !log'[i].IsWrite()
  }

  lemma QuietTwice(a: Log, b: Log, c: Log)
    requires Quiet(a, b) && Quiet(b, c)
    ensures Quiet(a, c)
  {
  }

  // ---- finding the source ----

  predicate Matches(l: Located, ref: SourceRef) {
    l.comment.id == ref.id && KindName(l.comment.kind) == ref.kind && l.threadId == ref.threadId
  }

  function FirstMatch(ls: seq<Located>, ref: SourceRef): (r: Option<Located>)
    ensures r.Some? ==> r.value in ls && Matches(r.value, ref)
    ensures r.None? <==> forall l :: l in ls ==> !Matches(l, ref)
  {
    if |ls| == 0 then None else if Matches(ls[0], ref) then Some(ls[0]) else FirstMatch(ls[1..], ref)
  }

  /* The source with the URL of its comment. */
  function Locate(s: Snapshot, ref: SourceRef): Option<SourceRef> {
    var l := FirstMatch(AllComments(s), ref);
    if l.Some? && l.value.comment.url != "" then Some(ref.(url := l.value.comment.url)) else None
  }

  method LocateFollowUp(s: Snapshot, ref: SourceRef) returns (r: Option<SourceRef>)
    ensures r == Locate(s, ref)
  {
    hide AllComments, Matches;
    var ls := CollectComments(s);
    for i := 0 to |ls|
      invariant FirstMatch(ls, ref) == FirstMatch(ls[i..], ref)
    {
      assert ls[i..][1..] == ls[i + 1..];
      if Matches(ls[i], ref) {
        return if ls[i].comment.url != "" then Some(ref.(url := ls[i].comment.url)) else None;
      }
    }
    return None;
  }

  // ---- the steps the protocols share ----

  predicate RefsMatch(s: Snapshot, p: PRContext) {
    s.headSHA == p.headSHA && s.baseSHA == p.baseSHA && s.baseRefName == p.baseRefName && s.policyBaseSHA == p.policyBaseSHA
  }

  datatype Prepared = Prepared(result: Reader.Result, context: PRContext, ref: SourceRef)

  /* The caller's expectations; reading an issue back has none. */
  predicate AsExpected(r: Reader.Result, p: PRContext, t: Target, snapshot: string) {
    snapshot == "" || (r.snapshotId == snapshot && p.state == "OPEN" && p.headSHA == t.expectedHead)
  }

  ghost function Prepare(w: World, log: Log, svc: Service, t: Target, snapshot: string): (Try<Prepared>, Log) {
    var (outcome, log1) := Reader.ReadWorld(w, log, svc.logins, false);
    if outcome.Rejected? then (Fail(Reading(outcome.error)), log1)
    else
      var context := w.context(log1);
      var log2 := log1 + [CallContext(context)];
      if context.Err? then (Fail(ContextFailed), log2)
      else
        var r, p := outcome.result, context.value;
        var ref := Locate(r.snapshot, t.source);
        if ref.None? || !RefsMatch(r.snapshot, p) || !AsExpected(r, p, t, snapshot) then (Fail(PreconditionFailed), log2)
        else (Got(Prepared(r, p, ref.value)), log2)
  }

  method PrepareFollowUp(w: World, log: Log, svc: Service, t: Target, snapshot: string) returns (r: Try<Prepared>, log': Log)
    ensures (r, log') == Prepare(w, log, svc, t, snapshot)
  {
    hide Reader.ReadWorld, Locate;
    var outcome;
    outcome, log' := Reader.Read(w, log, svc.logins, false);
    if outcome.Rejected? { return Fail(Reading(outcome.error)), log'; }
    var context := w.context(log');
    log' := log' + [CallContext(context)];
    if context.Err? { return Fail(ContextFailed), log'; }
    var result, p := outcome.result, context.value;
    var ref := LocateFollowUp(result.snapshot, t.source);
    if ref == None || !RefsMatch(result.snapshot, p)
       || (snapshot != "" && (result.snapshotId != snapshot || p.state != "OPEN" || p.headSHA != t.expectedHead)) {
      return Fail(PreconditionFailed), log';
    }
    return Got(Prepared(result, p, ref.value)), log';
  }

  function CheckRefs(w: World, log: Log, before: PRContext): (Option<Error>, Log) {
    var context := w.context(log);
    var log' := log + [CallContext(context)];
    (if context.Err? then Some(ContextFailed) else if context.value != before then Some(PreconditionFailed) else None, log')
  }

  function Identify(w: World, log: Log, svc: Service): (Try<Actor>, Log) {
    var bot := w.bot(log, svc.appLogin);
    var log' := log + [CallBot(svc.appLogin, bot)];
    if bot.Err? || bot.value.nodeId == "" || bot.value.typ != "Bot" || svc.appLogin == ""
       || Normalize(bot.value.login) != Normalize(svc.appLogin)
    then (Fail(AppIdentityFailed), log') else (Got(bot.value), log')
  }

  predicate SameBot(a: Actor, b: Actor) {
    a.nodeId != "" && a.nodeId == b.nodeId && a.typ == "Bot" && b.typ == "Bot" && Normalize(a.login) == Normalize(b.login)
  }

  function OutputOf(prep: Prepared, t: Target): Output {
    var p := prep.context;
    Output(prep.ref, p.headSHA, prep.result.snapshotId, p.policyBaseSHA, p.state, p.headSHA == t.expectedHead, None, None)
  }

  // ---- replying ----

  predicate IsByBot(c: Comment, bot: Actor) {
    c.authorType == "Bot" && Normalize(c.author) == Normalize(bot.login)
  }

  predicate IsEarlierReply(c: Comment, marker: string, bot: Actor) {
    c.body.Some? && HasMarker(c.body.value, marker) && IsByBot(c, bot)
  }

  function FirstReply(cs: seq<Comment>, marker: string, bot: Actor): (r: Option<Comment>)
    ensures r.Some? ==> IsEarlierReply(r.value, marker, bot) && r.value in cs
    ensures r.None? <==> forall c :: c in cs ==> !IsEarlierReply(c, marker, bot)
  {
    if |cs| == 0 then None else if IsEarlierReply(cs[0], marker, bot) then Some(cs[0]) else FirstReply(cs[1..], marker, bot)
  }

  predicate IsWritten(c: Comment, created: Reply, body: string, bot: Actor) {
    c.id == created.id && c.body == Some(body) && c.url == created.url && IsByBot(c, bot)
  }

  /* A reply by this App is already there: confirm it, and stop. */
  function Duplicate(w: World, log: Log, c: Comment, bot: Actor): (Error, Log)
    requires c.body.Some?
  {
    var previous := w.readReply(log, c.id);
    var log' := log + [CallReadReply(c.id, previous)];
    (if previous.Err? then ReplyUnreadable
     else if !SameBot(previous.value.author, bot) || previous.value.body != c.body.value then SnapshotChanged
     else AlreadyReplied(Resource(c.id, 0, c.url)), log')
  }

  function ResourceOf(created: Fallible<Reply>): Resource {
    if created.Err? then Resource("", 0, "") else Resource(created.value.id, 0, created.value.url)
  }

  ghost predicate ReadsBack(verified: Snapshot, actual: Reply, created: Reply, body: string, bot: Actor, p: PRContext) {
    && (exists c :: c in verified.issueComments && IsWritten(c, created, body, bot))
    && actual.id == created.id && actual.url == created.url && actual.body == body
    && SameBot(actual.author, bot) && RefsMatch(verified, p)
  }

  /* From the POST on: whatever goes wrong now may have changed something. */
  ghost function PostReply(w: World, log: Log, svc: Service, prep: Prepared, bot: Actor, body: string, t: Target): (Try<Output>, Log) {
    var posted := w.postReply(log, body);
    var log1 := log + [CallPostReply(body, posted)];
    var resource := ResourceOf(posted);
    if posted.Err? || posted.value.id == "" || posted.value.id == "0" || posted.value.url == "" then
      (Fail(WriteOutcomeUnknown(resource)), log1)
    else
      var (verified, log2) := Reader.ReadWorld(w, log1, svc.logins, true);
      if verified.Rejected? then (Fail(WriteOutcomeUnknown(resource)), log2)
      else
        var actual := w.readReply(log2, posted.value.id);
        var log3 := log2 + [CallReadReply(posted.value.id, actual)];
        if actual.Err? then (Fail(WriteOutcomeUnknown(resource)), log3)
        else if !ReadsBack(verified.result.snapshot, actual.value, posted.value, body, bot, prep.context) then
          (Fail(PostWriteMismatch(resource)), log3)
        else
          var (moved, log4) := CheckRefs(w, log3, prep.context);
          if moved.Some? then (Fail(PostWriteMismatch(resource)), log4)
          else (Got(OutputOf(prep, t).(comment := Some(actual.value))), log4)
  }

  method PostFollowUpReply(w: World, log: Log, svc: Service, prep: Prepared, bot: Actor, body: string, t: Target)
    returns (r: Try<Output>, log': Log)
    ensures (r, log') == PostReply(w, log, svc, prep, bot, body, t)
  {
    hide Reader.ReadWorld, Normalize;
    var posted := w.postReply(log, body);
    log' := log + [CallPostReply(body, posted)];
    var resource := ResourceOf(posted);
    if posted.Err? || posted.value.id == "" || posted.value.id == "0" || posted.value.url == "" {
      return Fail(WriteOutcomeUnknown(resource)), log';
    }
    var created := posted.value;
    var verified;
    verified, log' := Reader.Read(w, log', svc.logins, true);
    if verified.Rejected? { return Fail(WriteOutcomeUnknown(resource)), log'; }
    var found := false;
    var comments := verified.result.snapshot.issueComments;
    for i := 0 to |comments|
      invariant found <==> exists c :: c in comments[..i] && IsWritten(c, created, body, bot)
    {
      assert comments[..i + 1] == comments[..i] + [comments[i]];
      if IsWritten(comments[i], created, body, bot) {
        found := true;
      }
    }
    assert comments[..|comments|] == comments;
    var actual := w.readReply(log', created.id);
    log' := log' + [CallReadReply(created.id, actual)];
    if actual.Err? { return Fail(WriteOutcomeUnknown(resource)), log'; }
    if !found || actual.value.id != created.id || actual.value.url != created.url || actual.value.body != body
       || !SameBot(actual.value.author, bot) || !RefsMatch(verified.result.snapshot, prep.context) {
      return Fail(PostWriteMismatch(resource)), log';
    }
    var (moved, log4) := CheckRefs(w, log', prep.context);
    if moved.Some? { return Fail(PostWriteMismatch(resource)), log4; }
    return Got(OutputOf(prep, t).(comment := Some(actual.value))), log4;
  }

  ghost function ReplyWorld(w: World, log: Log, svc: Service, i: Write): (Try<Output>, Log) {
    if !ValidWrite(i, false) then (Fail(InvalidInput), log)
    else
      var (prep, log1) := Prepare(w, log, svc, i.target, i.expectedSnapshot);
      if prep.Fail? then (Fail(prep.error), log1)
      else
        var (bot, log2) := Identify(w, log1, svc);
        if bot.Fail? then (Fail(bot.error), log2)
        else
          var (full, log3) := Reader.ReadWorld(w, log2, svc.logins, true);
          if full.Rejected? then (Fail(Reading(full.error)), log3)
          else if full.result.snapshotId != prep.value.result.snapshotId then (Fail(PreconditionFailed), log3)
          else
            var earlier := FirstReply(full.result.snapshot.issueComments, Marker(i.target), bot.value);
            if earlier.Some? then
              var (e, log4) := Duplicate(w, log3, earlier.value, bot.value);
              (Fail(e), log4)
            else
              var (moved, log4) := CheckRefs(w, log3, prep.value.context);
              if moved.Some? then (Fail(moved.value), log4)
              else PostReply(w, log4, svc, prep.value, bot.value, ReplyBody(prep.value.ref.url, i.body, Marker(i.target)), i.target)
  }

  /** The reply tool. */
  method ReplyToComment(w: World, log: Log, svc: Service, i: Write) returns (r: Try<Output>, log': Log)
    ensures (r, log') == ReplyWorld(w, log, svc, i)
  {
    hide Reader.ReadWorld, Normalize, Prepare, PostReply, ValidWrite, Marker, HasMarker, Identify, CheckRefs, Duplicate;
    if !ValidWrite(i, false) { return Fail(InvalidInput), log; }
    var prep;
    prep, log' := PrepareFollowUp(w, log, svc, i.target, i.expectedSnapshot);
    if prep.Fail? { return Fail(prep.error), log'; }
    var (bot, log2) := Identify(w, log', svc);
    if bot.Fail? { return Fail(bot.error), log2; }
    var full;
    full, log' := Reader.Read(w, log2, svc.logins, true);
    if full.Rejected? { return Fail(Reading(full.error)), log'; }
    if full.result.snapshotId != prep.value.result.snapshotId { return Fail(PreconditionFailed), log'; }
    var marker := Marker(i.target);
    var comments := full.result.snapshot.issueComments;
    for k := 0 to |comments|
      invariant FirstReply(comments, marker, bot.value) == FirstReply(comments[k..], marker, bot.value)
    {
      assert comments[k..][1..] == comments[k + 1..];
      if IsEarlierReply(comments[k], marker, bot.value) {
        var (e, log4) := Duplicate(w, log', comments[k], bot.value);
        return Fail(e), log4;
      }
    }
    var body := ReplyBody(prep.value.ref.url, i.body, marker);
    var (moved, log4) := CheckRefs(w, log', prep.value.context);
    if moved.Some? { return Fail(moved.value), log4; }
    r, log' := PostFollowUpReply(w, log4, svc, prep.value, bot.value, body, i.target);
  }

  // ---- reading an issue ----

  predicate IsIdentified(a: Actor) { a.nodeId != "" && a.login != "" && a.typ != "" }

  predicate ActorsKnown(i: Issue) {
    && i.author.Some? && IsIdentified(i.author.value)
    && if i.editor.Some? then IsIdentified(i.editor.value) && i.editedAt != "" else i.editedAt == ""
  }

  predicate ActorAllowed(a: Option<Actor>, allowed: seq<string>) { a.Some? ==> Normalize(a.value.login) in allowed }

  /* issueActors: author and last editor, against the allowlist at the policy commit. */
  function CheckActors(w: World, log: Log, svc: Service, p: PRContext, i: Issue): (Option<Error>, Log) {
    if !ActorsKnown(i) then (Some(AuthorCheckFailed), log)
    else
      var project := w.allowlist(log, p.policyBaseSHA);
      var log' := log + [CallAllowlist(p.policyBaseSHA, project)];
      if !project.Allowlist? then (Some(AllowlistUnreadable), log')
      else
        var allowed := svc.logins + project.logins;
        (if ActorAllowed(i.author, allowed) && ActorAllowed(i.editor, allowed) then None else Some(UntrustedActor), log')
  }

  /* Everything but title and text; labels in any order. */
  ghost predicate SameMetadata(a: Issue, b: Issue) {
    a.(title := "", body := "", labels := []) == b.(title := "", body := "", labels := []) && multiset(a.labels) == multiset(b.labels)
  }

  method IssueMetadataEqual(a: Issue, b: Issue) returns (same: bool)
    ensures same <==> SameMetadata(a, b)
  {
    SortForgetsLabels(a.labels, b.labels);
    same := a.(title := "", body := "", labels := Sort(a.labels, StringLe)) == b.(title := "", body := "", labels := Sort(b.labels, StringLe));
  }

  lemma SortForgetsLabels(a: seq<string>, b: seq<string>)
    ensures Sort(a, StringLe) == Sort(b, StringLe) <==> multiset(a) == multiset(b)
  {
    StringOrder();
    SortForgetsOrder(a, b, StringLe);
  }

  /* Metadata, text, metadata again. */
  ghost function ReadIssue(w: World, log: Log, svc: Service, p: PRContext, number: int): (Try<Issue>, Log) {
    var meta := w.issue(log, number, false);
    var log1 := log + [CallIssue(number, false, meta)];
    if meta.Err? then (Fail(IssueUnreadable), log1)
    else
      var (bad, log2) := CheckActors(w, log1, svc, p, meta.value);
      if bad.Some? then (Fail(bad.value), log2)
      else
        var full := w.issue(log2, number, true);
        var log3 := log2 + [CallIssue(number, true, full)];
        if full.Err? then (Fail(IssueUnreadable), log3)
        else
          var after := w.issue(log3, number, false);
          var log4 := log3 + [CallIssue(number, false, after)];
          if after.Err? then (Fail(IssueUnreadable), log4)
          else if !SameMetadata(meta.value, full.value) || !SameMetadata(full.value, after.value) then (Fail(SnapshotChanged), log4)
          else (Got(full.value), log4)
  }

  method ReadFollowUpIssue(w: World, log: Log, svc: Service, p: PRContext, number: int) returns (r: Try<Issue>, log': Log)
    ensures (r, log') == ReadIssue(w, log, svc, p, number)
  {
    hide CheckActors, SameMetadata;
    var meta := w.issue(log, number, false);
    log' := log + [CallIssue(number, false, meta)];
    if meta.Err? { return Fail(IssueUnreadable), log'; }
    var (bad, log2) := CheckActors(w, log', svc, p, meta.value);
    if bad.Some? { return Fail(bad.value), log2; }
    var full := w.issue(log2, number, true);
    log' := log2 + [CallIssue(number, true, full)];
    if full.Err? { return Fail(IssueUnreadable), log'; }
    var after := w.issue(log', number, false);
    log' := log' + [CallIssue(number, false, after)];
    if after.Err? { return Fail(IssueUnreadable), log'; }
    var before := IssueMetadataEqual(meta.value, full.value);
    var since := IssueMetadataEqual(full.value, after.value);
    if !before || !since { return Fail(SnapshotChanged), log'; }
    return Got(full.value), log';
  }

  // ---- filing an issue ----

  predicate IsOurIssue(i: Issue, marker: string, bot: Actor) {
    HasMarker(i.body, marker) && i.author.Some? && SameBot(i.author.value, bot)
  }

  /* The candidates that are this App's issues for the same source. */
  ghost function Existing(w: World, log: Log, svc: Service, p: PRContext, marker: string, bot: Actor, numbers: seq<int>)
    : (Try<seq<Resource>>, Log)
    decreases |numbers|
  {
    if |numbers| == 0 then (Got([]), log)
    else
      var (issue, log1) := ReadIssue(w, log, svc, p, numbers[0]);
      if issue.Fail? then (Fail(issue.error), log1)
      else
        var (rest, log2) := Existing(w, log1, svc, p, marker, bot, numbers[1..]);
        if rest.Fail? then (rest, log2)
        else if IsOurIssue(issue.value, marker, bot) then
          (Got([Resource(issue.value.id, issue.value.number, issue.value.url)] + rest.value), log2)
        else (rest, log2)
  }

  ghost function InFront(before: seq<Resource>, r: (Try<seq<Resource>>, Log)): (Try<seq<Resource>>, Log) {
    (if r.0.Fail? then r.0 else Got(before + r.0.value), r.1)
  }

  lemma InFrontTwice(a: seq<Resource>, b: seq<Resource>, r: (Try<seq<Resource>>, Log))
    ensures InFront(a, InFront(b, r)) == InFront(a + b, r) && InFront([], r) == r
  {
    if r.0.Got? {
      Reassociate(a, b, r.0.value);
      assert [] + r.0.value == r.0.value;
    }
  }

  method FindExisting(w: World, log: Log, svc: Service, p: PRContext, marker: string, bot: Actor, numbers: seq<int>)
    returns (r: Try<seq<Resource>>, log': Log)
    ensures (r, log') == Existing(w, log, svc, p, marker, bot, numbers)
  {
    hide ReadIssue, IsOurIssue, InFront;
    var found: seq<Resource> := [];
    log' := log;
    assert numbers[0..] == numbers;
    InFrontTwice([], [], Existing(w, log, svc, p, marker, bot, numbers));
    for k := 0 to |numbers|
      invariant Existing(w, log, svc, p, marker, bot, numbers) == InFront(found, Existing(w, log', svc, p, marker, bot, numbers[k..]))
    {
      assert numbers[k..][1..] == numbers[k + 1..];
      ExistingTurn(w, log', svc, p, marker, bot, numbers[k..], found);
      var issue;
      issue, log' := ReadFollowUpIssue(w, log', svc, p, numbers[k]);
      if issue.Fail? { return Fail(issue.error), log'; }
      if IsOurIssue(issue.value, marker, bot) {
        found := found + [Resource(issue.value.id, issue.value.number, issue.value.url)];
      }
    }
    NothingExists(w, log', svc, p, marker, bot, found);
    return Got(found), log';
  }

  lemma ExistingTurn(w: World, log: Log, svc: Service, p: PRContext, marker: string, bot: Actor, numbers: seq<int>, found: seq<Resource>)
    requires |numbers| > 0
    ensures var (issue, log1) := ReadIssue(w, log, svc, p, numbers[0]);
            var all := InFront(found, Existing(w, log, svc, p, marker, bot, numbers));
            if issue.Fail? then all == (Fail(issue.error), log1)
            else
              var found' := if IsOurIssue(issue.value, marker, bot)
                            then found + [Resource(issue.value.id, issue.value.number, issue.value.url)] else found;
              all == InFront(found', Existing(w, log1, svc, p, marker, bot, numbers[1..]))
  {
    hide ReadIssue, IsOurIssue;
    var (issue, log1) := ReadIssue(w, log, svc, p, numbers[0]);
    if issue.Got? {
      InFrontTwice(found, [Resource(issue.value.id, issue.value.number, issue.value.url)],
                   Existing(w, log1, svc, p, marker, bot, numbers[1..]));
    }
  }

  lemma NothingExists(w: World, log: Log, svc: Service, p: PRContext, marker: string, bot: Actor, found: seq<Resource>)
    ensures InFront(found, Existing(w, log, svc, p, marker, bot, [])) == (Got(found), log)
  {
    assert found + [] == found;
  }

  ghost predicate IssueReadsBack(actual: Issue, created: Issue, i: IssueInput, body: string, bot: Actor) {
    && actual.id == created.id && actual.url == created.url && actual.state == "OPEN"
    && actual.title == i.title && actual.body == body && multiset(actual.labels) == multiset(i.labels)
    && actual.author.Some? && SameBot(actual.author.value, bot)
  }

  function IssueResource(created: Fallible<Issue>): Resource {
    if created.Err? then Resource("", 0, "") else Resource(created.value.id, created.value.number, created.value.url)
  }

  ghost function PostIssue(w: World, log: Log, svc: Service, prep: Prepared, bot: Actor, i: IssueInput, body: string): (Try<Output>, Log) {
    var created := w.postIssue(log, i.title, body, i.labels);
    var log1 := log + [CallPostIssue(i.title, body, i.labels, created)];
    var resource := IssueResource(created);
    if created.Err? || created.value.number <= 0 || created.value.id == "" then (Fail(WriteOutcomeUnknown(resource)), log1)
    else
      var (actual, log2) := ReadIssue(w, log1, svc, prep.context, created.value.number);
      if actual.Fail? then (Fail(WriteOutcomeUnknown(resource)), log2)
      else if !IssueReadsBack(actual.value, created.value, i, body, bot) then (Fail(PostWriteMismatch(resource)), log2)
      else
        var (moved, log3) := CheckRefs(w, log2, prep.context);
        if moved.Some? then (Fail(PostWriteMismatch(resource)), log3)
        else (Got(OutputOf(prep, i.write.target).(issue := Some(actual.value))), log3)
  }

  method PostFollowUpIssue(w: World, log: Log, svc: Service, prep: Prepared, bot: Actor, i: IssueInput, body: string)
    returns (r: Try<Output>, log': Log)
    ensures (r, log') == PostIssue(w, log, svc, prep, bot, i, body)
  {
    hide ReadIssue, SameBot, CheckRefs;
    var created := w.postIssue(log, i.title, body, i.labels);
    log' := log + [CallPostIssue(i.title, body, i.labels, created)];
    var resource := IssueResource(created);
    if created.Err? || created.value.number <= 0 || created.value.id == "" { return Fail(WriteOutcomeUnknown(resource)), log'; }
    var read;
    read, log' := ReadFollowUpIssue(w, log', svc, prep.context, created.value.number);
    if read.Fail? { return Fail(WriteOutcomeUnknown(resource)), log'; }
    var actual := read.value;
    SortForgetsLabels(i.labels, actual.labels);
    if actual.id != created.value.id || actual.url != created.value.url || actual.state != "OPEN" || actual.title != i.title
       || actual.body != body || Sort(i.labels, StringLe) != Sort(actual.labels, StringLe)
       || actual.author == None || !SameBot(actual.author.value, bot) {
      return Fail(PostWriteMismatch(resource)), log';
    }
    var (moved, log3) := CheckRefs(w, log', prep.context);
    if moved.Some? { return Fail(PostWriteMismatch(resource)), log3; }
    return Got(OutputOf(prep, i.write.target).(issue := Some(actual))), log3;
  }

  function Numbered(numbers: seq<int>): seq<Resource> { Map((n: int) => Resource("", n, ""), numbers) }

  /* From the label check on, with no issue of this source found. */
  ghost function FileIssue(w: World, log: Log, svc: Service, prep: Prepared, bot: Actor, i: IssueInput): (Try<Output>, Log) {
    var ok := w.labels(log, i.labels);
    var log1 := log + [CallLabels(i.labels, ok)];
    if !ok then (Fail(LabelsFailed), log1)
    else
      var (current, log2) := Reader.ReadWorld(w, log1, svc.logins, false);
      if current.Rejected? then (Fail(Reading(current.error)), log2)
      else if current.result.snapshotId != prep.result.snapshotId then (Fail(PreconditionFailed), log2)
      else
        var (moved, log3) := CheckRefs(w, log2, prep.context);
        if moved.Some? then (Fail(moved.value), log3)
        else
          var t := i.write.target;
          PostIssue(w, log3, svc, prep, bot, i,
                    IssueBody(i.write.body, prep.context.url, prep.ref.url, t.expectedHead, i.reason, Marker(t)))
  }

  method FileFollowUpIssue(w: World, log: Log, svc: Service, prep: Prepared, bot: Actor, i: IssueInput) returns (r: Try<Output>, log': Log)
    ensures (r, log') == FileIssue(w, log, svc, prep, bot, i)
  {
    hide Reader.ReadWorld, PostIssue, IssueBody, Marker, CheckRefs;
    var ok := w.labels(log, i.labels);
    log' := log + [CallLabels(i.labels, ok)];
    if !ok { return Fail(LabelsFailed), log'; }
    var current;
    current, log' := Reader.Read(w, log', svc.logins, false);
    if current.Rejected? { return Fail(Reading(current.error)), log'; }
    if current.result.snapshotId != prep.result.snapshotId { return Fail(PreconditionFailed), log'; }
    var (moved, log3) := CheckRefs(w, log', prep.context);
    if moved.Some? { return Fail(moved.value), log3; }
    var t := i.write.target;
    var body := IssueBody(i.write.body, prep.context.url, prep.ref.url, t.expectedHead, i.reason, Marker(t));
    r, log' := PostFollowUpIssue(w, log3, svc, prep, bot, i, body);
  }

  ghost function CreateIssueWorld(w: World, log: Log, svc: Service, i: IssueInput): (Try<Output>, Log) {
    if !ValidIssue(i) then (Fail(InvalidInput), log)
    else
      var (prep, log1) := Prepare(w, log, svc, i.write.target, i.write.expectedSnapshot);
      if prep.Fail? then (Fail(prep.error), log1)
      else
        var (bot, log2) := Identify(w, log1, svc);
        if bot.Fail? then (Fail(bot.error), log2)
        else
          var marker := Marker(i.write.target);
          var numbers := w.findIssues(log2, marker);
          var log3 := log2 + [CallFindIssues(marker, numbers)];
          if numbers.Err? then (Fail(SearchFailed), log3)
          else
            var (existing, log4) := Existing(w, log3, svc, prep.value.context, marker, bot.value, numbers.value);
            if existing.Fail? then (Fail(existing.error), log4)
            else if |existing.value| > 0 then (Fail(FollowUpExists(existing.value)), log4)
            else if |numbers.value| > 1 then (Fail(FollowUpExists(Numbered(numbers.value))), log4)
            else FileIssue(w, log4, svc, prep.value, bot.value, i)
  }

  /** The issue tool. */
  method CreateFollowUpIssue(w: World, log: Log, svc: Service, i: IssueInput) returns (r: Try<Output>, log': Log)
    ensures (r, log') == CreateIssueWorld(w, log, svc, i)
  {
    hide Prepare, FileIssue, ValidIssue, Marker, Identify, Existing;
    if !ValidIssue(i) { return Fail(InvalidInput), log; }
    var prep;
    prep, log' := PrepareFollowUp(w, log, svc, i.write.target, i.write.expectedSnapshot);
    if prep.Fail? { return Fail(prep.error), log'; }
    var (bot, log2) := Identify(w, log', svc);
    if bot.Fail? { return Fail(bot.error), log2; }
    var marker := Marker(i.write.target);
    var numbers := w.findIssues(log2, marker);
    log' := log2 + [CallFindIssues(marker, numbers)];
    if numbers.Err? { return Fail(SearchFailed), log'; }
    var existing;
    existing, log' := FindExisting(w, log', svc, prep.value.context, marker, bot.value, numbers.value);
    if existing.Fail? { return Fail(existing.error), log'; }
    if |existing.value| > 0 { return Fail(FollowUpExists(existing.value)), log'; }
    if |numbers.value| > 1 { return Fail(FollowUpExists(Numbered(numbers.value))), log'; }
    r, log' := FileFollowUpIssue(w, log', svc, prep.value, bot.value, i);
  }

  // ---- reading an issue back ----

  ghost function GetIssueWorld(w: World, log: Log, svc: Service, t: Target, number: int): (Try<Output>, Log) {
    if !ValidTarget(t, true) || !(0 < number <= 0x7FFF_FFFF) then (Fail(InvalidInput), log)
    else
      var (prep, log1) := Prepare(w, log, svc, t, "");
      if prep.Fail? then (Fail(prep.error), log1)
      else
        var (issue, log2) := ReadIssue(w, log1, svc, prep.value.context, number);
        if issue.Fail? then (Fail(issue.error), log2)
        else
          var (moved, log3) := CheckRefs(w, log2, prep.value.context);
          if moved.Some? then (Fail(SnapshotChanged), log3)
          else (Got(OutputOf(prep.value, t).(issue := Some(issue.value))), log3)
  }

  method GetFollowUpIssue(w: World, log: Log, svc: Service, t: Target, number: int) returns (r: Try<Output>, log': Log)
    ensures (r, log') == GetIssueWorld(w, log, svc, t, number)
  {
    hide Prepare, ReadIssue, ValidTarget, CheckRefs;
    if !ValidTarget(t, true) || !(0 < number <= 0x7FFF_FFFF) { return Fail(InvalidInput), log; }
    var prep;
    prep, log' := PrepareFollowUp(w, log, svc, t, "");
    if prep.Fail? { return Fail(prep.error), log'; }
    var issue;
    issue, log' := ReadFollowUpIssue(w, log', svc, prep.value.context, number);
    if issue.Fail? { return Fail(issue.error), log'; }
    var (moved, log3) := CheckRefs(w, log', prep.value.context);
    if moved.Some? { return Fail(SnapshotChanged), log3; }
    return Got(OutputOf(prep.value, t).(issue := Some(issue.value))), log3;
  }
}
