/** Calls one after another: once a reply or an issue for a comment is there and can be seen, no further call for the
    same comment writes another. */
module FollowUpRepeats {
  import opened Prelude
  import opened GitHub
  import opened Snapshots
  import opened TrustedAuthors
  import opened FollowUpMarker
  import opened FollowUp
  import opened FollowUpGuarantees
  import Reader
  import ReaderGuarantees

  // ---- replies ----

  /* A comment with this text by the App's bot, as a read shows it. */
  predicate ByApp(c: Comment, svc: Service, body: string) {
    c.body == Some(body) && c.authorType == "Bot" && Normalize(c.author) == Normalize(svc.appLogin)
  }

  /** Every body read from `from` on lists a reply with this text by the App's bot. */
  ghost predicate ShowsReply(w: World, svc: Service, from: Log, body: string) {
    forall l: Log :: from <= l && Reader.ReadWorld(w, l, svc.logins, true).0.Verified? ==>
      exists c :: c in Reader.ReadWorld(w, l, svc.logins, true).0.result.snapshot.issueComments && ByApp(c, svc, body)
  }

  /** While later reads show a text with the marker of a comment by the App's bot, whoever composed it, no call for
      that comment writes. */
  lemma NoSecondReply(w: World, from: Log, log: Log, svc: Service, i: Write, body: string)
    requires from <= log && ShowsReply(w, svc, from, body) && HasMarker(body, Marker(i.target))
    ensures Quiet(log, ReplyWorld(w, log, svc, i).1) && ReplyWorld(w, log, svc, i).0.Fail?
  {
    hide Reader.ReadWorld, ValidWrite, Marker, Prepare, PostReply, ReplyBody, FirstReply, Identify, CheckRefs, Duplicate, HasMarker,
      ByApp, IsEarlierReply;
    PrepareIsQuiet(w, log, svc, i.target, i.expectedSnapshot);
    var (prep, log1) := Prepare(w, log, svc, i.target, i.expectedSnapshot);
    IdentifyTrace(w, log1, svc);
    var (who, log2) := Identify(w, log1, svc);
    QuietTwice(log, log1, log2);
    ReadIsQuiet(w, log2, svc, true);
    var (full, log3) := Reader.ReadWorld(w, log2, svc.logins, true);
    QuietTwice(log, log2, log3);
    if ValidWrite(i, false) && prep.Got? && who.Got? && full.Verified? {
      var c :| c in full.result.snapshot.issueComments && ByApp(c, svc, body);
      IsAnEarlierReply(c, svc, body, Marker(i.target), who.value);
      assert FirstReply(full.result.snapshot.issueComments, Marker(i.target), who.value).Some?;
      DuplicateTrace(w, log3, full.result.snapshot.issueComments, Marker(i.target), who.value);
    }
  }

  lemma IsAnEarlierReply(c: Comment, svc: Service, body: string, marker: string, bot: Actor)
    requires ByApp(c, svc, body) && HasMarker(body, marker) && IsApp(svc, bot)
    ensures IsEarlierReply(c, marker, bot)
  {
    hide HasMarker, Normalize;
  }

  lemma ReplyHasItsMarker(url: string, text: string, t: Target)
    requires ValidTarget(t, true)
    ensures HasMarker(ReplyBody(url, text, Marker(t)), Marker(t))
  {
    hide Marker, HasMarker, ValidTarget;
    MarkerShape(t);
    var m := Marker(t);
    var before := "元指摘: " + url + "\n\n" + text + "\n";
    assert "\n\n" == "\n" + "\n";
    assert ReplyBody(url, text, m) == before + "\n" + m;
    MarkerAtTheEnd(before, m, m);
  }

  lemma ReplyTarget(i: Write)
    requires ValidWrite(i, false)
    ensures ValidTarget(i.target, true)
  {
    hide ValidBody;
  }

  /** A call that wrote a reply, whether its outcome is known or not, makes every later call for the same comment
      stop before it writes, whatever that call's text, as long as reads from then on show the reply. */
  lemma RepliesOnce(w: World, svc: Service, log: Log, first: Write, later: Log, second: Write) returns (k: nat)
    requires var log' := ReplyWorld(w, log, svc, first).1; Writes(log') > Writes(log) && log' <= later
    requires Marker(first.target) == Marker(second.target)
    ensures var log' := ReplyWorld(w, log, svc, first).1;
            && OneWrite(log, log', k) && log'[k].CallPostReply?
            && (ShowsReply(w, svc, log', log'[k].body) ==>
                  Quiet(later, ReplyWorld(w, later, svc, second).1) && ReplyWorld(w, later, svc, second).0.Fail?)
  {
    hide ReplyWorld, ReadBackReply, Prepare, Locate, Marker, ReplyBody, RefsMatch, ValidWrite, Identified, ShowsNoReply, ShowsReply, HasMarker;
    var bot;
    k, bot := ReplyTrace(w, log, svc, first);
    var log' := ReplyWorld(w, log, svc, first).1;
    if Quiet(log, log') { QuietCounts(log, log'); }
    ReplyTarget(first);
    ReplyHasItsMarker(Prepare(w, log, svc, first.target, first.expectedSnapshot).0.value.ref.url, first.body, first.target);
    if ShowsReply(w, svc, log', log'[k].body) {
      NoSecondReply(w, log', later, svc, second, log'[k].body);
    }
  }

  // ---- issues ----

  /** Every search from `from` on finds the issue, and every reading of it shows this text and the App's bot as its
      author, the same account that an identity lookup names. */
  ghost predicate ShowsIssue(w: World, svc: Service, from: Log, marker: string, n: int, body: string) {
    && (forall l: Log :: from <= l && w.findIssues(l, marker).Ok? ==> n in w.findIssues(l, marker).value)
    && (forall l: Log, p: PRContext :: from <= l && ReadIssue(w, l, svc, p, n).0.Got? ==> ReadIssue(w, l, svc, p, n).0.value.body == body)
    && forall l: Log, m: Log, p: PRContext :: from <= l && from <= m && ReadIssue(w, l, svc, p, n).0.Got? && FindsApp(w, m, svc) ==>
         var i := ReadIssue(w, l, svc, p, n).0.value; i.author.Some? && SameBot(i.author.value, w.bot(m, svc.appLogin).value)
  }

  ghost predicate FindsApp(w: World, log: Log, svc: Service) {
    w.bot(log, svc.appLogin).Ok? && IsApp(svc, w.bot(log, svc.appLogin).value)
  }

  lemma IdentifiesApp(w: World, log: Log, svc: Service)
    ensures Identify(w, log, svc).0.Got? ==> FindsApp(w, log, svc) && w.bot(log, svc.appLogin) == Ok(Identify(w, log, svc).0.value)
  {
    hide Normalize;
  }

  lemma {:induction false} ExistingFinds(w: World, from: Log, log: Log, svc: Service, p: PRContext, marker: string, bot: Actor,
                                         numbers: seq<int>, n: int, m: Log, body: string)
    requires from <= log && from <= m && n in numbers && ShowsIssue(w, svc, from, marker, n, body) && HasMarker(body, marker)
    requires FindsApp(w, m, svc) && w.bot(m, svc.appLogin) == Ok(bot)
    ensures var r := Existing(w, log, svc, p, marker, bot, numbers).0; r.Got? ==> |r.value| > 0
    decreases |numbers|
  {
    hide ReadIssue, SameBot, HasMarker, FindsApp;
    ReadIssueIsQuiet(w, log, svc, p, numbers[0]);
    var issue := ReadIssue(w, log, svc, p, numbers[0]).0;
    if numbers[0] != n && issue.Got? {
      ExistingFinds(w, from, ReadIssue(w, log, svc, p, numbers[0]).1, svc, p, marker, bot, numbers[1..], n, m, body);
    }
  }

  /** While searches and readings show an issue with the marker of a comment by the App's bot, whoever composed it, no
      call for that comment files another. */
  lemma NoSecondIssue(w: World, from: Log, log: Log, svc: Service, i: IssueInput, n: int, body: string)
    requires from <= log && ShowsIssue(w, svc, from, Marker(i.write.target), n, body) && HasMarker(body, Marker(i.write.target))
    ensures Quiet(log, CreateIssueWorld(w, log, svc, i).1) && CreateIssueWorld(w, log, svc, i).0.Fail?
  {
    hide ValidIssue, Marker, Prepare, FileIssue, Identify, Existing, HasMarker, IssueBody, ReadIssue, SameBot, FindsApp, Identified;
    var t := i.write.target;
    PrepareIsQuiet(w, log, svc, t, i.write.expectedSnapshot);
    var (prep, log1) := Prepare(w, log, svc, t, i.write.expectedSnapshot);
    IdentifyTrace(w, log1, svc);
    IdentifiesApp(w, log1, svc);
    var (who, log2) := Identify(w, log1, svc);
    QuietTwice(log, log1, log2);
    if ValidIssue(i) && prep.Got? && who.Got? {
      var numbers := w.findIssues(log2, Marker(t));
      var log3 := log2 + [CallFindIssues(Marker(t), numbers)];
      QuietTwice(log, log2, log3);
      if numbers.Ok? {
        var p := prep.value.context;
        ExistingIsQuiet(w, log3, svc, p, Marker(t), who.value, numbers.value);
        ExistingFinds(w, from, log3, svc, p, Marker(t), who.value, numbers.value, n, log1, body);
        QuietTwice(log, log3, Existing(w, log3, svc, p, Marker(t), who.value, numbers.value).1);
      }
    }
  }

  lemma IssueHasItsMarker(text: string, prUrl: string, url: string, head: string, reason: string, t: Target)
    requires ValidTarget(t, true)
    ensures HasMarker(IssueBody(text, prUrl, url, head, reason, Marker(t)), Marker(t))
  {
    hide Marker, HasMarker, ValidTarget, IssueLines, IssueBody;
    MarkerShape(t);
    var m := Marker(t);
    IssueBodyLines(text, prUrl, url, head, reason, m);
    MarkerAtTheEnd(IssueLines(text, "元PR: " + prUrl, "元指摘: " + url, "確認HEAD: " + head, "理由: " + reason), m, m);
  }

  lemma IssueTarget(i: IssueInput)
    requires ValidIssue(i)
    ensures ValidTarget(i.write.target, true)
  {
    hide ValidTarget, ValidBody;
  }

  /** A call that filed an issue, whether its outcome is known or not, makes every later call for the same comment
      stop before it writes, as long as from then on the issue is found and reads as written. */
  lemma FilesOnce(w: World, svc: Service, log: Log, first: IssueInput, later: Log, second: IssueInput) returns (k: nat)
    requires var log' := CreateIssueWorld(w, log, svc, first).1; Writes(log') > Writes(log) && log' <= later
    requires Marker(first.write.target) == Marker(second.write.target)
    ensures var log' := CreateIssueWorld(w, log, svc, first).1;
            && OneWrite(log, log', k) && log'[k].CallPostIssue?
            && forall n :: ShowsIssue(w, svc, log', Marker(second.write.target), n, log'[k].body) ==>
                 Quiet(later, CreateIssueWorld(w, later, svc, second).1) && CreateIssueWorld(w, later, svc, second).0.Fail?
  {
    hide CreateIssueWorld, ReadBackIssue, Prepare, Marker, IssueBody, ValidIssue, Identified, SearchedInVain, ShowsIssue, HasMarker;
    var bot;
    k, bot := IssueTrace(w, log, svc, first);
    var log' := CreateIssueWorld(w, log, svc, first).1;
    if Quiet(log, log') { QuietCounts(log, log'); }
    IssueTarget(first);
    var t := first.write.target;
    var prep := Prepare(w, log, svc, t, first.write.expectedSnapshot).0.value;
    IssueHasItsMarker(first.write.body, prep.context.url, prep.ref.url, t.expectedHead, first.reason, t);
    forall n | ShowsIssue(w, svc, log', Marker(second.write.target), n, log'[k].body)
      ensures Quiet(later, CreateIssueWorld(w, later, svc, second).1) && CreateIssueWorld(w, later, svc, second).0.Fail?
    {
      NoSecondIssue(w, log', later, svc, second, n, log'[k].body);
    }
  }

  // ---- sessions ----

  datatype Ask = AskReply(write: Write) | AskIssue(input: IssueInput)

  ghost function Answered(w: World, log: Log, svc: Service, a: Ask): (Try<Output>, Log) {
    match a
    case AskReply(i) => ReplyWorld(w, log, svc, i)
    case AskIssue(i) => CreateIssueWorld(w, log, svc, i)
  }

  function TargetOf(a: Ask): Target { if a.AskReply? then a.write.target else a.input.write.target }

  /** Calls of the two tools one after another; between them anything else may be called. */
  ghost predicate Session(w: World, svc: Service, logs: seq<Log>, asks: seq<Ask>) {
    && |logs| == |asks| + 1
    && forall n :: 0 <= n < |asks| ==> Answered(w, logs[n], svc, asks[n]).1 <= logs[n + 1]
  }

  lemma AskGrows(w: World, log: Log, svc: Service, a: Ask)
    ensures log <= Answered(w, log, svc, a).1
  {
    hide ReplyWorld, CreateIssueWorld, GuardedReply, GuardedIssue;
    match a
    case AskReply(i) => ReplyWritesOnce(w, log, svc, i);
    case AskIssue(i) => IssueWritesOnce(w, log, svc, i);
  }

  lemma {:induction false} SessionGrows(w: World, svc: Service, logs: seq<Log>, asks: seq<Ask>, a: nat, b: nat)
    requires Session(w, svc, logs, asks) && a <= b <= |asks|
    ensures logs[a] <= logs[b]
    decreases b
  {
    hide Answered;
    if a < b {
      SessionGrows(w, svc, logs, asks, a, b - 1);
      AskGrows(w, logs[b - 1], svc, asks[b - 1]);
      Prefixes(logs[a], logs[b - 1], Answered(w, logs[b - 1], svc, asks[b - 1]).1);
      Prefixes(logs[a], Answered(w, logs[b - 1], svc, asks[b - 1]).1, logs[b]);
    }
  }

  lemma Prefixes(a: Log, b: Log, c: Log)
    requires a <= b <= c
    ensures a <= c
  {
  }

  /** What is posted stays: an accepted reply is listed by every later read, and an accepted issue is found by every
      later search for a marker its text has and reads as written. */
  ghost predicate Keeps(w: World, svc: Service) {
    && (forall l: Log, k: nat :: k < |l| && l[k].CallPostReply? && l[k].posted.Ok? ==> ShowsReply(w, svc, l, l[k].body))
    && forall l: Log, k: nat, marker: string :: k < |l| && l[k].CallPostIssue? && l[k].created.Ok? && HasMarker(l[k].body, marker) ==>
         ShowsIssue(w, svc, l, marker, l[k].created.value.number, l[k].body)
  }

  /* Call n of the session wrote, and GitHub accepted it. */
  ghost predicate Accepted(w: World, svc: Service, logs: seq<Log>, asks: seq<Ask>, n: nat)
    requires n < |asks| <= |logs|
  {
    var log' := Answered(w, logs[n], svc, asks[n]).1;
    exists k: nat :: OneWrite(logs[n], log', k) && (log'[k].CallPostReply? ==> log'[k].posted.Ok?) && (log'[k].CallPostIssue? ==> log'[k].created.Ok?)
  }

  /** In a session with a GitHub that keeps what it accepted, of all the calls of one tool for one comment at most one
      is accepted: every later one writes nothing and fails. */
  lemma OncePerComment(w: World, svc: Service, logs: seq<Log>, asks: seq<Ask>, a: nat, b: nat)
    requires Session(w, svc, logs, asks) && Keeps(w, svc) && a < b < |asks|
    requires asks[a].AskReply? == asks[b].AskReply? && Marker(TargetOf(asks[a])) == Marker(TargetOf(asks[b]))
    requires Accepted(w, svc, logs, asks, a)
    ensures Quiet(logs[b], Answered(w, logs[b], svc, asks[b]).1) && Answered(w, logs[b], svc, asks[b]).0.Fail?
  {
    hide ReplyWorld, CreateIssueWorld, Keeps, Marker;
    var log' := Answered(w, logs[a], svc, asks[a]).1;
    SessionGrows(w, svc, logs, asks, a + 1, b);
    Prefixes(log', logs[a + 1], logs[b]);
    var k: nat :| OneWrite(logs[a], log', k) && (log'[k].CallPostReply? ==> log'[k].posted.Ok?) && (log'[k].CallPostIssue? ==> log'[k].created.Ok?);
    OneWriteCounts(logs[a], log', k);
    match asks[a]
    case AskReply(first) =>
      var k' := RepliesOnce(w, svc, logs[a], first, logs[b], asks[b].write);
      KeptReply(w, svc, log', k);
    case AskIssue(first) =>
      var k' := FilesOnce(w, svc, logs[a], first, logs[b], asks[b].input);
      FiledTextHasItsMarker(w, svc, logs[a], first, k);
      KeptIssue(w, svc, log', k, Marker(first.write.target));
  }

  lemma KeptReply(w: World, svc: Service, log: Log, k: nat)
    requires Keeps(w, svc) && k < |log| && log[k].CallPostReply? && log[k].posted.Ok?
    ensures ShowsReply(w, svc, log, log[k].body)
  {
    hide ShowsReply, ShowsIssue, HasMarker;
  }

  lemma KeptIssue(w: World, svc: Service, log: Log, k: nat, marker: string)
    requires Keeps(w, svc) && k < |log| && log[k].CallPostIssue? && log[k].created.Ok? && HasMarker(log[k].body, marker)
    ensures ShowsIssue(w, svc, log, marker, log[k].created.value.number, log[k].body)
  {
    hide ShowsReply, ShowsIssue, HasMarker;
  }

  lemma FiledTextHasItsMarker(w: World, svc: Service, log: Log, i: IssueInput, k: nat)
    requires OneWrite(log, CreateIssueWorld(w, log, svc, i).1, k)
    ensures var log' := CreateIssueWorld(w, log, svc, i).1; log'[k].CallPostIssue? && HasMarker(log'[k].body, Marker(i.write.target))
  {
    hide CreateIssueWorld, ReadBackIssue, Prepare, Marker, IssueBody, ValidIssue, Identified, SearchedInVain, HasMarker;
    var k', bot := IssueTrace(w, log, svc, i);
    var log' := CreateIssueWorld(w, log, svc, i).1;
    assert log'[k].IsWrite();
    IssueTarget(i);
    var t := i.write.target;
    var prep := Prepare(w, log, svc, t, i.write.expectedSnapshot).0.value;
    IssueHasItsMarker(i.write.body, prep.context.url, prep.ref.url, t.expectedHead, i.reason, t);
  }
}
