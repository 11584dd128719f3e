/** A GitHub on which the reply tool succeeds and which keeps what was posted: what is said of calls one after another
    is not said of nothing. */
module FollowUpExample {
  import opened Prelude
  import opened GitHub
  import opened Snapshots
  import opened TrustedAuthors
  import opened FollowUpMarker
  import opened FollowUp
  import opened FollowUpGuarantees
  import opened FollowUpRepeats
  import Reader
  import ReaderGuarantees

  const APP := Actor("A_1", "raven", "Bot")

  function Serving(): Service { Service([Normalize("alice"), Normalize("raven")], "raven") }

  /* The comment to answer. */
  function Source(i: Write, withBodies: bool): Comment {
    Comment(IssueComment, i.target.source.id, "alice", "User", "u", "t", "", "", if withBodies then Some("") else None)
  }

  function ReplyId(i: Write, k: nat): string { i.target.source.id + Decimal(k) }

  function Posted(i: Write, k: nat, body: string, withBodies: bool): Comment {
    Comment(IssueComment, ReplyId(i, k), "raven", "Bot", "r", "t", "", "", if withBodies then Some(body) else None)
  }

  /* A comment for every post in the history, numbered by its place in it. */
  function Replies(i: Write, log: Log, withBodies: bool): seq<Comment> {
    if |log| == 0 then []
    else
      var k, call := |log| - 1, log[|log| - 1];
      Replies(i, log[..k], withBodies) + if call.CallPostReply? then [Posted(i, k, call.body, withBodies)] else []
  }

  function Shown(i: Write, log: Log, withBodies: bool): Snapshot {
    var sha := i.target.expectedHead;
    Snapshot(sha, sha, "main", sha, [], [], [Source(i, withBodies)] + Replies(i, log, withBodies))
  }

  function ContextOf(i: Write): PRContext {
    var sha := i.target.expectedHead;
    PRContext("p", "OPEN", sha, sha, "main", sha)
  }

  function LastPosted(log: Log): string {
    if |log| == 0 then "" else if log[|log| - 1].CallPostReply? then log[|log| - 1].body else LastPosted(log[..|log| - 1])
  }

  /* It hashes every snapshot to the one the caller expects, and files no issues. */
  function Keeping(i: Write): World {
    World((log: Log, withBodies: bool) => Fetched(Shown(i, log, withBodies)),
          (log: Log, sha: string) => Allowlist(false, []),
          (log: Log) => Ok(ContextOf(i)),
          (log: Log, login: string) => Ok(APP),
          (log: Log, body: string) => Ok(Reply(ReplyId(i, |log|), "r", APP, body)),
          (log: Log, id: string) => Ok(Reply(id, "r", APP, LastPosted(log))),
          (log: Log, title: string, body: string, labels: seq<string>) => Err,
          (log: Log, number: int, withBody: bool) => Err,
          (log: Log, marker: string) => Err,
          (log: Log, labels: seq<string>) => false,
          (log: Log) => Err,
          (log: Log, body: string) => false,
          (text: string) => i.expectedSnapshot)
  }

  // ---- what it shows ----

  lemma {:induction false} RepliesShape(i: Write, log: Log, withBodies: bool)
    ensures forall c :: c in Replies(i, log, withBodies) ==>
              exists k: nat, body :: k < |log| && c == Posted(i, k, body, withBodies)
    ensures forall a, b :: 0 <= a < b < |Replies(i, log, withBodies)| ==>
              Replies(i, log, withBodies)[a].id != Replies(i, log, withBodies)[b].id
  {
    if |log| > 0 {
      var k := |log| - 1;
      RepliesShape(i, log[..k], withBodies);
      var before := Replies(i, log[..k], withBodies);
      forall a | 0 <= a < |before| ensures before[a].id != ReplyId(i, k) {
        assert before[a] in before;
        var j: nat, body :| j < k && before[a] == Posted(i, j, body, withBodies);
        ReplyIdsDiffer(i, j, k);
      }
    }
  }

  lemma ReplyIdsDiffer(i: Write, j: nat, k: nat)
    requires j != k
    ensures ReplyId(i, j) != ReplyId(i, k)
  {
    if ReplyId(i, j) == ReplyId(i, k) {
      var n := |i.target.source.id|;
      assert Decimal(j) == ReplyId(i, j)[n..] == ReplyId(i, k)[n..] == Decimal(k);
      DecimalInjective(j, k);
    }
  }

  lemma {:induction false} PostIsShown(i: Write, log: Log, k: nat, withBodies: bool)
    requires k < |log| && log[k].CallPostReply?
    ensures Posted(i, k, log[k].body, withBodies) in Replies(i, log, withBodies)
  {
    if k < |log| - 1 { PostIsShown(i, log[..|log| - 1], k, withBodies); }
  }

  /* Calls that post nothing change nothing. */
  lemma {:induction false} QuietRepliesSame(i: Write, log: Log, log': Log, withBodies: bool)
    requires Quiet(log, log')
    ensures Replies(i, log, withBodies) == Replies(i, log', withBodies)
    decreases |log'|
  {
    if |log'| > |log| {
      QuietRepliesSame(i, log, log'[..|log'| - 1], withBodies);
    } else {
      assert log' == log;
    }
  }

  /* A body read differs from a metadata read in the texts only. */
  lemma {:induction false} TextsApart(i: Write, log: Log)
    ensures |Replies(i, log, false)| == |Replies(i, log, true)|
    ensures forall a :: 0 <= a < |Replies(i, log, false)| ==> Replies(i, log, false)[a] == Replies(i, log, true)[a].(body := None)
  {
    if |log| > 0 { TextsApart(i, log[..|log| - 1]); }
  }

  lemma CommentsOf(i: Write, log: Log, withBodies: bool)
    ensures var s := Shown(i, log, withBodies); AllComments(s) == InThread(s.issueComments, "")
  {
    assert ThreadComments([]) == [] && InThread([], "") == [];
  }

  lemma SameFingerprint(i: Write, log: Log, log': Log, withBodies: bool)
    requires Quiet(log, log')
    ensures Fingerprint(Shown(i, log, false)) == Fingerprint(Shown(i, log', withBodies))
  {
    hide Keys, Join, Line, Map, Replies;
    SameKeys(i, log, log', withBodies);
  }

  lemma SameKeys(i: Write, log: Log, log': Log, withBodies: bool)
    requires Quiet(log, log')
    ensures Keys(Shown(i, log, false)) == Keys(Shown(i, log', withBodies))
  {
    hide Replies, AllComments;
    var a, b := Shown(i, log, false), Shown(i, log', withBodies);
    QuietRepliesSame(i, log, log', withBodies);
    TextsApart(i, log);
    CommentsOf(i, log, false);
    CommentsOf(i, log', withBodies);
    forall n | 0 <= n < |a.issueComments|
      ensures n < |b.issueComments| && a.issueComments[n] == b.issueComments[n].(body := a.issueComments[n].body)
    {
    }
    forall n | 0 <= n < |Keys(a)| ensures Keys(a)[n] == Keys(b)[n] {
      assert AllComments(a)[n].comment == a.issueComments[n] && AllComments(b)[n].comment == b.issueComments[n];
    }
  }

  lemma ShownIsGood(i: Write, log: Log, withBodies: bool)
    requires ValidTarget(i.target, false)
    ensures var s := Shown(i, log, withBodies);
            && Reader.DistinctIds(AllComments(s)) && Reader.ValidPolicyRef(s) && (withBodies ==> Reader.HasBodies(s))
            && Reader.AuthorVerdict(AllComments(s), Reader.ToSet(Serving().logins) + Reader.ToSet([])) == None
  {
    hide Normalize, AllComments, ValidName, ReplyId;
    var s := Shown(i, log, withBodies);
    CommentsOf(i, log, withBodies);
    RepliesShape(i, log, withBodies);
    forall l | l in AllComments(s) ensures Good(l.comment, withBodies) {
      var n :| 0 <= n < |s.issueComments| && l == InThread(s.issueComments, "")[n];
      assert s.issueComments[n] in s.issueComments;
      IsGood(i, log, withBodies, s.issueComments[n]);
    }
    Reader.VerdictMeaning(AllComments(s), Reader.ToSet(Serving().logins) + Reader.ToSet([]));
    ShownAreDistinct(i, log, withBodies);
  }

  predicate Good(c: Comment, withBodies: bool) {
    c.author in ["alice", "raven"] && c.id != "" && (withBodies ==> c.body.Some?)
  }

  lemma IsGood(i: Write, log: Log, withBodies: bool, c: Comment)
    requires ValidTarget(i.target, false) && c in Shown(i, log, withBodies).issueComments
    ensures Good(c, withBodies)
  {
    hide Replies, Normalize, ValidName;
    RepliesShape(i, log, withBodies);
  }

  lemma ShownAreDistinct(i: Write, log: Log, withBodies: bool)
    requires ValidTarget(i.target, false)
    ensures Reader.DistinctIds(AllComments(Shown(i, log, withBodies)))
  {
    hide Replies, Normalize, ValidName, AllComments;
    var rs := Replies(i, log, withBodies);
    CommentsOf(i, log, withBodies);
    RepliesShape(i, log, withBodies);
    var ls := AllComments(Shown(i, log, withBodies));
    forall n | 0 <= n < |rs| ensures rs[n].id != i.target.source.id && rs[n].id != "" {
      assert rs[n] in rs;
      var k: nat, body :| k < |log| && rs[n] == Posted(i, k, body, withBodies);
      DecimalIsNotEmpty(k);
    }
    assert forall n :: 0 < n < |ls| ==> ls[n].comment == rs[n - 1];
  }

  lemma DecimalIsNotEmpty(k: nat)
    ensures Decimal(k) != ""
  {
  }

  /* Every read succeeds, at the second fetch. */
  lemma ReadsShow(i: Write, log: Log, withBodies: bool)
    requires ValidTarget(i.target, false)
    ensures var (outcome, log') := Reader.ReadWorld(Keeping(i), log, Serving().logins, withBodies);
            && Quiet(log, log') && outcome.Verified?
            && outcome.result == Reader.Result(Shown(i, log, withBodies), i.expectedSnapshot, 2, false, 0)
  {
    hide Replies, Fingerprint, AllComments, Reader.DistinctIds, Reader.AuthorVerdict, Reader.HasBodies, Reader.ValidPolicyRef, Normalize;
    var w := Keeping(i);
    var meta := Shown(i, log, false);
    var log1 := log + [CallFetch(false, Fetched(meta))];
    var log2 := log1 + [CallAllowlist(meta.policyBaseSHA, Allowlist(false, []))];
    ShownIsGood(i, log, false);
    ShownIsGood(i, log2, withBodies);
    SameFingerprint(i, log, log2, withBodies);
    SameShown(i, log, log2, withBodies);
    assert Reader.ReadOnce(w, log, Serving().logins, withBodies).0.Done?;
  }

  lemma SameShown(i: Write, log: Log, log': Log, withBodies: bool)
    requires Quiet(log, log')
    ensures Shown(i, log, withBodies) == Shown(i, log', withBodies)
  {
    QuietRepliesSame(i, log, log', withBodies);
  }

  // ---- it keeps what is posted ----

  lemma KeepsReplies(i: Write, l: Log, k: nat)
    requires ValidTarget(i.target, false) && k < |l| && l[k].CallPostReply?
    ensures ShowsReply(Keeping(i), Serving(), l, l[k].body)
  {
    hide Reader.ReadWorld, Keeping, Normalize, Replies, ValidTarget;
    forall m: Log | l <= m && Reader.ReadWorld(Keeping(i), m, Serving().logins, true).0.Verified?
      ensures exists c :: c in Reader.ReadWorld(Keeping(i), m, Serving().logins, true).0.result.snapshot.issueComments
                          && ByApp(c, Serving(), l[k].body)
    {
      ReadsShow(i, m, true);
      PostIsShown(i, m, k, true);
      assert Posted(i, k, m[k].body, true) in Shown(i, m, true).issueComments;
      assert ByApp(Posted(i, k, m[k].body, true), Serving(), l[k].body);
    }
  }

  lemma NoIssueToKeep(i: Write, l: Log, marker: string, n: int, body: string)
    ensures ShowsIssue(Keeping(i), Serving(), l, marker, n, body)
  {
  }

  lemma KeepsAll(i: Write)
    requires ValidTarget(i.target, false)
    ensures Keeps(Keeping(i), Serving())
  {
    hide ShowsReply, ShowsIssue, Keeping, HasMarker;
    forall l: Log, k: nat | k < |l| && l[k].CallPostReply? && l[k].posted.Ok? ensures ShowsReply(Keeping(i), Serving(), l, l[k].body) {
      KeepsReplies(i, l, k);
    }
    forall l: Log, k: nat, marker: string | k < |l| && l[k].CallPostIssue? && l[k].created.Ok? && HasMarker(l[k].body, marker)
      ensures ShowsIssue(Keeping(i), Serving(), l, marker, l[k].created.value.number, l[k].body)
    {
      NoIssueToKeep(i, l, marker, l[k].created.value.number, l[k].body);
    }
  }

  // ---- a reply succeeds on it ----

  lemma PrepareSucceeds(i: Write)
    requires ValidWrite(i, false) && i.target.source.kind == KindName(IssueComment)
    ensures var (prep, log') := Prepare(Keeping(i), [], Serving(), i.target, i.expectedSnapshot);
            && Quiet([], log') && prep.Got? && prep.value.context == ContextOf(i) && prep.value.result.snapshotId == i.expectedSnapshot
  {
    hide Reader.ReadWorld, Normalize, ValidBody, ValidTarget, Locate, Replies;
    NarrowTarget(i);
    ReadsShow(i, [], false);
    LocatesSource(i);
    SnapshotIsGiven(i);
  }

  lemma SnapshotIsGiven(i: Write)
    requires ValidWrite(i, false)
    ensures i.expectedSnapshot != ""
  {
    hide ValidBody, ValidTarget;
  }

  lemma LocatesSource(i: Write)
    requires ValidTarget(i.target, false) && i.target.source.kind == KindName(IssueComment)
    ensures Locate(Shown(i, [], false), i.target.source).Some?
  {
    CommentsOf(i, [], false);
    var ls := AllComments(Shown(i, [], false));
    assert ls[0] in ls && Matches(ls[0], i.target.source);
    var l := FirstMatch(ls, i.target.source).value;
    assert |ls| == 1 && l == ls[0];
  }

  lemma IdentifySucceeds(i: Write, log: Log)
    ensures var (bot, log') := Identify(Keeping(i), log, Serving()); Quiet(log, log') && bot == Got(APP)
  {
    hide Normalize;
  }

  lemma NoEarlierReply(i: Write, log: Log, marker: string)
    requires Quiet([], log)
    ensures FirstReply(Shown(i, log, true).issueComments, marker, APP).None?
  {
    hide HasMarker, Normalize;
    QuietRepliesSame(i, [], log, true);
    assert Shown(i, log, true).issueComments == [Source(i, true)];
    assert !IsEarlierReply(Source(i, true), marker, APP);
  }

  /* The write and its read-back. */
  lemma PostSucceeds(i: Write, log: Log, prep: Prepared, body: string)
    requires ValidTarget(i.target, false) && prep.context == ContextOf(i)
    ensures PostReply(Keeping(i), log, Serving(), prep, APP, body, i.target).0.Got?
    ensures Accepts(log, PostReply(Keeping(i), log, Serving(), prep, APP, body, i.target).1)
  {
    hide Reader.ReadWorld, Normalize, Replies, ValidName;
    var w := Keeping(i);
    DecimalIsNotEmpty(|log|);
    var log1 := log + [CallPostReply(body, w.postReply(log, body))];
    ReadsShow(i, log1, true);
    var log2 := Reader.ReadWorld(w, log1, Serving().logins, true).1;
    PostIsShown(i, log1, |log|, true);
    assert Posted(i, |log|, body, true) in Shown(i, log1, true).issueComments;
    LastPostedStays(log1, log2);
    assert LastPosted(log1) == body;
    assert log2[|log|] == log1[|log|];
  }

  ghost predicate Accepts(log: Log, log': Log) {
    |log| < |log'| && log'[|log|].CallPostReply? && log'[|log|].posted.Ok?
  }

  lemma {:induction false} LastPostedStays(log: Log, log': Log)
    requires Quiet(log, log')
    ensures LastPosted(log) == LastPosted(log')
    decreases |log'|
  {
    if |log'| > |log| { LastPostedStays(log, log'[..|log'| - 1]); } else { assert log' == log; }
  }

  /** For every valid reply to an issue comment: its first call succeeds and is accepted on a GitHub that keeps what is
      posted, and so every later call for the same comment, whatever its text, writes nothing. */
  lemma ReplySucceedsOnce(i: Write, second: Write)
    requires ValidWrite(i, false) && i.target.source.kind == KindName(IssueComment) && Marker(second.target) == Marker(i.target)
    ensures var (w, svc) := (Keeping(i), Serving());
            var (r, log') := ReplyWorld(w, [], svc, i);
            var asks := [AskReply(i), AskReply(second)];
            var logs := [[], log', ReplyWorld(w, log', svc, second).1];
            && Keeps(w, svc) && Session(w, svc, logs, asks) && r.Got? && Accepted(w, svc, logs, asks, 0)
            && ReplyWorld(w, log', svc, second).0.Fail? && Quiet(logs[1], logs[2])
  {
    hide ReplyWorld, Keeping, Keeps, Marker, ValidWrite, OneWrite;
    ReplyTarget(i);
    NarrowTarget(i);
    KeepsAll(i);
    var k := FirstSucceeds(i);
    var (w, svc) := (Keeping(i), Serving());
    var log' := ReplyWorld(w, [], svc, i).1;
    var asks := [AskReply(i), AskReply(second)];
    var logs := [[], log', ReplyWorld(w, log', svc, second).1];
    assert Answered(w, logs[0], svc, asks[0]).1 == logs[1] && Answered(w, logs[1], svc, asks[1]).1 == logs[2];
    assert Accepted(w, svc, logs, asks, 0);
    OncePerComment(w, svc, logs, asks, 0, 1);
  }

  lemma NarrowTarget(i: Write)
    requires ValidWrite(i, false)
    ensures ValidTarget(i.target, false)
  {
    hide ValidBody;
  }

  lemma FirstSucceeds(i: Write) returns (k: nat)
    requires ValidWrite(i, false) && i.target.source.kind == KindName(IssueComment)
    ensures var (r, log') := ReplyWorld(Keeping(i), [], Serving(), i);
            r.Got? && OneWrite([], log', k) && log'[k].CallPostReply? && log'[k].posted.Ok?
  {
    hide Reader.ReadWorld, ValidWrite, Marker, Prepare, PostReply, ReplyBody, FirstReply, Identify, HasMarker, Normalize, Shown, Accepts;
    var w, svc := Keeping(i), Serving();
    NarrowTarget(i);
    PrepareSucceeds(i);
    var (prep, log1) := Prepare(w, [], svc, i.target, i.expectedSnapshot);
    IdentifySucceeds(i, log1);
    var log2 := Identify(w, log1, svc).1;
    QuietTwice([], log1, log2);
    ReadsShow(i, log2, true);
    var log3 := Reader.ReadWorld(w, log2, svc.logins, true).1;
    NoEarlierReply(i, log2, Marker(i.target));
    var log4 := log3 + [CallContext(Ok(ContextOf(i)))];
    var body := ReplyBody(prep.value.ref.url, i.body, Marker(i.target));
    PostSucceeds(i, log4, prep.value, body);
    PostIsWritten(i, log4, prep.value, body);
    QuietTwice([], log2, log3);
    QuietTwice([], log3, log4);
    k := |log4|;
    QuietThenWrite([], log4, ReplyWorld(w, [], svc, i).1, k);
  }

  lemma PostIsWritten(i: Write, log: Log, prep: Prepared, body: string)
    requires ValidTarget(i.target, false) && prep.context == ContextOf(i)
    ensures var log' := PostReply(Keeping(i), log, Serving(), prep, APP, body, i.target).1;
            OneWrite(log, log', |log|) && log'[|log|].CallPostReply? && log'[|log|].posted.Ok?
  {
    hide PostReply, Keeping, Normalize;
    PostSucceeds(i, log, prep, body);
    PostReplyTrace(Keeping(i), log, Serving(), prep, APP, body, i.target);
  }
}
