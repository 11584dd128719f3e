/** Reading issues: their text is requested only after author and last editor passed the allowlist, and what is
    returned was the same before and after. */
module IssueGuarantees {
  import opened Prelude
  import opened GitHub
  import opened Snapshots
  import opened TrustedAuthors
  import opened FollowUpMarker
  import opened FollowUp
  import opened FollowUpGuarantees
  import Reader
  import ReaderGuarantees

  /** The author, and the last editor if there is one, are identified and allowed. */
  predicate ActorsAllowed(i: Issue, allowed: seq<string>) {
    && i.author.Some? && i.author.value.nodeId != "" && i.author.value.typ != ""
    && i.author.value.login != "" && Normalize(i.author.value.login) in allowed
    && (i.editor.Some? <==> i.editedAt != "")
    && (i.editor.Some? ==>
          && i.editor.value.nodeId != "" && i.editor.value.typ != ""
          && i.editor.value.login != "" && Normalize(i.editor.value.login) in allowed)
  }

  /** The same issue in the same state, with the same people, edit time and labels. */
  predicate Unchanged(a: Issue, b: Issue) {
    && a.number == b.number && a.id == b.id && a.url == b.url && a.state == b.state
    && a.author == b.author && a.editor == b.editor && a.editedAt == b.editedAt && multiset(a.labels) == multiset(b.labels)
  }

  lemma SameMetadataMeans(a: Issue, b: Issue)
    ensures SameMetadata(a, b) <==> Unchanged(a, b)
  {
    if SameMetadata(a, b) {
      assert a.(title := "", body := "", labels := []).number == a.number && b.(title := "", body := "", labels := []).number == b.number;
    }
  }

  /* The text requested at k comes right after metadata of the same issue and an allowlist read at `sha`, with which
     its actors passed. */
  ghost predicate CheckedText(log: Log, from: nat, k: nat, svc: Service, sha: string)
    requires k < |log| && log[k].CallIssue?
  {
    && k >= from + 2
    && log[k - 2].CallIssue? && log[k - 2].number == log[k].number && !log[k - 2].withBody && log[k - 2].issue.Ok?
    && log[k - 1].CallAllowlist? && log[k - 1].sha == sha && log[k - 1].allowlist.Allowlist?
    && ActorsAllowed(log[k - 2].issue.value, svc.logins + log[k - 1].allowlist.logins)
  }

  ghost predicate TextAfterCheck(log: Log, from: nat, svc: Service, sha: string) {
    forall k :: from <= k < |log| && log[k].CallIssue? && log[k].withBody ==> CheckedText(log, from, k, svc, sha)
  }

  /** The issue read by the four calls from `at` on: metadata, allowlist, text, metadata, alike but for the order of
      labels, with allowed actors. */
  ghost predicate TrustedIssue(log: Log, at: nat, svc: Service, sha: string, number: int, i: Issue) {
    && at + 4 <= |log|
    && log[at].CallIssue? && log[at].number == number && !log[at].withBody && log[at].issue.Ok?
    && log[at + 1].CallAllowlist? && log[at + 1].sha == sha && log[at + 1].allowlist.Allowlist?
    && log[at + 2] == CallIssue(number, true, Ok(i))
    && log[at + 3].CallIssue? && log[at + 3].number == number && !log[at + 3].withBody && log[at + 3].issue.Ok?
    && Unchanged(log[at].issue.value, i) && Unchanged(i, log[at + 3].issue.value)
    && ActorsAllowed(i, svc.logins + log[at + 1].allowlist.logins)
  }

  // ---- reading one issue ----

  lemma CheckActorsMeaning(w: World, log: Log, svc: Service, p: PRContext, i: Issue)
    ensures var (bad, log') := CheckActors(w, log, svc, p, i);
            && log <= log' && |log'| <= |log| + 1 && (|log'| == |log| + 1 ==> log'[|log|].CallAllowlist?)
            && (bad.None? ==>
                  && |log'| == |log| + 1 && log'[|log|].sha == p.policyBaseSHA && log'[|log|].allowlist.Allowlist?
                  && ActorsAllowed(i, svc.logins + log'[|log|].allowlist.logins))
  {
    hide Normalize;
  }

  /** No text of an issue is requested before the check of its actors, and an issue that is returned has allowed
      actors and did not change while it was read. */
  lemma IssueReadIsChecked(w: World, log: Log, svc: Service, p: PRContext, number: int)
    ensures var (r, log') := ReadIssue(w, log, svc, p, number);
            && log <= log' && TextAfterCheck(log', |log|, svc, p.policyBaseSHA)
            && (r.Got? ==> |log'| == |log| + 4 && TrustedIssue(log', |log|, svc, p.policyBaseSHA, number, r.value))
  {
    hide CheckActors, SameMetadata, ActorsAllowed, Unchanged;
    var meta := w.issue(log, number, false);
    var log1 := log + [CallIssue(number, false, meta)];
    if meta.Ok? {
      CheckActorsMeaning(w, log1, svc, p, meta.value);
      var (bad, log2) := CheckActors(w, log1, svc, p, meta.value);
      var full := w.issue(log2, number, true);
      if bad.None? && full.Ok? {
        ActorsCarryOver(meta.value, full.value, svc.logins + log2[|log1|].allowlist.logins);
        var log3 := log2 + [CallIssue(number, true, full)];
        var after := w.issue(log3, number, false);
        SameMetadataMeans(meta.value, full.value);
        if after.Ok? { SameMetadataMeans(full.value, after.value); }
      }
    }
  }

  lemma ActorsCarryOver(a: Issue, b: Issue, allowed: seq<string>)
    ensures Unchanged(a, b) && ActorsAllowed(a, allowed) ==> ActorsAllowed(b, allowed)
  {
    hide Normalize;
  }

  // ---- more calls ----

  lemma TextExtends(log: Log, mid: Log, log': Log, svc: Service, sha: string)
    requires log <= mid <= log' && TextAfterCheck(mid, |log|, svc, sha) && TextAfterCheck(log', |mid|, svc, sha)
    ensures TextAfterCheck(log', |log|, svc, sha)
  {
    hide ActorsAllowed;
    forall k | |log| <= k < |log'| && log'[k].CallIssue? && log'[k].withBody ensures CheckedText(log', |log|, k, svc, sha) {
      if k < |mid| {
        assert mid[k] == log'[k];
        assert CheckedText(mid, |log|, k, svc, sha);
        assert mid[k - 1] == log'[k - 1] && mid[k - 2] == log'[k - 2];
      } else {
        assert CheckedText(log', |mid|, k, svc, sha);
      }
    }
  }

  /* Calls that do not concern issues. */
  ghost predicate NoIssues(log: Log, log': Log) {
    log <= log' && forall k :: |log| <= k < |log'| ==> !log'[k].CallIssue?
  }

  lemma NoIssuesExtends(log: Log, mid: Log, log': Log, svc: Service, sha: string)
    requires log <= mid && TextAfterCheck(mid, |log|, svc, sha) && NoIssues(mid, log')
    ensures TextAfterCheck(log', |log|, svc, sha)
  {
    hide CheckedText;
    TextExtends(log, mid, log', svc, sha);
  }

  lemma TrustedLater(log: Log, log': Log, at: nat, svc: Service, sha: string, number: int, i: Issue)
    requires TrustedIssue(log, at, svc, sha, number, i) && log <= log'
    ensures TrustedIssue(log', at, svc, sha, number, i)
  {
    hide ActorsAllowed, Unchanged;
    assert forall k :: 0 <= k < |log| ==> log'[k] == log[k];
  }

  lemma ReadHasNoIssues(w: World, log: Log, svc: Service, withBodies: bool)
    ensures NoIssues(log, Reader.ReadWorld(w, log, svc.logins, withBodies).1)
  {
    hide Reader.ReadWorld;
    ReaderGuarantees.BodiesOnlyAfterTheCheck(w, log, svc.logins, withBodies);
  }

  lemma PrepareHasNoIssues(w: World, log: Log, svc: Service, t: Target, snapshot: string)
    ensures NoIssues(log, Prepare(w, log, svc, t, snapshot).1)
    ensures var prep := Prepare(w, log, svc, t, snapshot).0;
            prep.Got? ==> prep.value.result.snapshot.policyBaseSHA == prep.value.context.policyBaseSHA
  {
    hide Reader.ReadWorld, Locate;
    ReadHasNoIssues(w, log, svc, false);
  }

  lemma CheckRefsHasNoIssues(w: World, log: Log, p: PRContext)
    ensures NoIssues(log, CheckRefs(w, log, p).1)
  {
  }

  lemma IdentifyHasNoIssues(w: World, log: Log, svc: Service)
    ensures NoIssues(log, Identify(w, log, svc).1)
  {
    hide Normalize;
  }

  lemma NoIssuesTwice(a: Log, b: Log, c: Log)
    requires NoIssues(a, b) && NoIssues(b, c)
    ensures NoIssues(a, c)
  {
  }

  /* The policy commit under which a prepared call reads issues. */
  ghost function PolicySHA(prep: Try<Prepared>): string {
    if prep.Got? then prep.value.context.policyBaseSHA else ""
  }

  /** Reading an issue back: its text is requested only after the check at the verified snapshot's policy commit, and
      the issue returned has allowed actors and did not change while it was read; the source named is in that snapshot, and
      the last call finds the pull request as it was. */
  lemma ReadBackIssueIsTrusted(w: World, log: Log, svc: Service, t: Target, number: int)
    ensures var (r, log') := GetIssueWorld(w, log, svc, t, number);
            var prep := Prepare(w, log, svc, t, "").0;
            && log <= log' && TextAfterCheck(log', |log|, svc, PolicySHA(prep))
            && (r.Got? ==>
                  && prep.Got? && r.value.policyBaseSHA == PolicySHA(prep) == prep.value.result.snapshot.policyBaseSHA
                  && IsLocated(prep.value.result.snapshot, t.source, prep.value.ref) && Reports(r.value, prep.value, t)
                  && |log'| > |log| && log'[|log'| - 1] == CallContext(Ok(prep.value.context)) && r.value.comment.None?
                  && r.value.issue.Some? && exists at :: |log| <= at && TrustedIssue(log', at, svc, r.value.policyBaseSHA, number, r.value.issue.value))
  {
    hide ValidTarget, Prepare, ReadIssue, CheckRefs, TextAfterCheck, TrustedIssue, IsLocated;
    PrepareHasNoIssues(w, log, svc, t, "");
    var (prep, log1) := Prepare(w, log, svc, t, "");
    NoText(log, log1, svc, PolicySHA(prep));
    NoText(log, log, svc, PolicySHA(prep));
    if prep.Got? {
      var p := prep.value.context;
      PrepareLocates(w, log, svc, t, "");
      IssueReadIsChecked(w, log1, svc, p, number);
      var (issue, log2) := ReadIssue(w, log1, svc, p, number);
      TextExtends(log, log1, log2, svc, p.policyBaseSHA);
      CheckRefsHasNoIssues(w, log2, p);
      CheckRefsTrace(w, log2, p);
      var log3 := CheckRefs(w, log2, p).1;
      NoIssuesExtends(log, log2, log3, svc, p.policyBaseSHA);
      if issue.Got? { TrustedLater(log2, log3, |log1|, svc, p.policyBaseSHA, number, issue.value); }
    }
  }

  lemma NoText(log: Log, log': Log, svc: Service, sha: string)
    requires NoIssues(log, log')
    ensures TextAfterCheck(log', |log|, svc, sha)
  {
    hide CheckedText;
  }

  // ---- filing an issue ----

  lemma {:induction false} ExistingIsChecked(w: World, log: Log, svc: Service, p: PRContext, marker: string, bot: Actor, numbers: seq<int>)
    ensures var log' := Existing(w, log, svc, p, marker, bot, numbers).1;
            log <= log' && TextAfterCheck(log', |log|, svc, p.policyBaseSHA)
    decreases |numbers|
  {
    hide ReadIssue, IsOurIssue, TrustedIssue, CheckedText;
    if |numbers| > 0 {
      IssueReadIsChecked(w, log, svc, p, numbers[0]);
      var (issue, log1) := ReadIssue(w, log, svc, p, numbers[0]);
      if issue.Got? {
        ExistingIsChecked(w, log1, svc, p, marker, bot, numbers[1..]);
        TextExtends(log, log1, Existing(w, log1, svc, p, marker, bot, numbers[1..]).1, svc, p.policyBaseSHA);
      }
    }
  }

  /** The issue created by a write from `from` on, read back by the four calls right after it. */
  ghost predicate TrustedAsFiled(log: Log, from: nat, svc: Service, sha: string, i: Issue) {
    exists k :: from <= k < |log| && log[k].CallPostIssue? && log[k].created.Ok?
                && TrustedIssue(log, k + 1, svc, sha, log[k].created.value.number, i)
  }

  lemma PostIsChecked(w: World, log: Log, svc: Service, prep: Prepared, bot: Actor, i: IssueInput, body: string)
    ensures var (r, log') := PostIssue(w, log, svc, prep, bot, i, body);
            var sha := prep.context.policyBaseSHA;
            && log <= log' && TextAfterCheck(log', |log|, svc, sha)
            && (r.Got? ==> r.value.policyBaseSHA == sha && r.value.issue.Some?
                           && TrustedAsFiled(log', |log|, svc, sha, r.value.issue.value))
  {
    hide ReadIssue, IssueReadsBack, CheckRefs, TextAfterCheck, TrustedIssue;
    var sha := prep.context.policyBaseSHA;
    var created := w.postIssue(log, i.title, body, i.labels);
    var log1 := log + [CallPostIssue(i.title, body, i.labels, created)];
    NoText(log, log1, svc, sha);
    if created.Ok? {
      IssueReadIsChecked(w, log1, svc, prep.context, created.value.number);
      var (issue, log2) := ReadIssue(w, log1, svc, prep.context, created.value.number);
      TextExtends(log, log1, log2, svc, sha);
      CheckRefsHasNoIssues(w, log2, prep.context);
      var log3 := CheckRefs(w, log2, prep.context).1;
      NoIssuesExtends(log, log2, log3, svc, sha);
      if issue.Got? { TrustedLater(log2, log3, |log1|, svc, sha, created.value.number, issue.value); }
      assert log1[|log|] == log2[|log|] == log3[|log|];
    }
  }

  lemma FileIsChecked(w: World, log: Log, svc: Service, prep: Prepared, bot: Actor, i: IssueInput)
    ensures var (r, log') := FileIssue(w, log, svc, prep, bot, i);
            var sha := prep.context.policyBaseSHA;
            && log <= log' && TextAfterCheck(log', |log|, svc, sha)
            && (r.Got? ==> r.value.policyBaseSHA == sha && r.value.issue.Some?
                           && TrustedAsFiled(log', |log|, svc, sha, r.value.issue.value))
  {
    hide Reader.ReadWorld, PostIssue, IssueBody, Marker, CheckRefs, TextAfterCheck, TrustedIssue;
    var sha := prep.context.policyBaseSHA;
    var log1 := log + [CallLabels(i.labels, w.labels(log, i.labels))];
    ReadHasNoIssues(w, log1, svc, false);
    var log2 := Reader.ReadWorld(w, log1, svc.logins, false).1;
    CheckRefsHasNoIssues(w, log2, prep.context);
    var log3 := CheckRefs(w, log2, prep.context).1;
    NoIssuesTwice(log, log1, log2);
    NoIssuesTwice(log, log2, log3);
    NoText(log, log1, svc, sha);
    NoText(log, log2, svc, sha);
    NoText(log, log3, svc, sha);
    var t := i.write.target;
    var body := IssueBody(i.write.body, prep.context.url, prep.ref.url, t.expectedHead, i.reason, Marker(t));
    PostIsChecked(w, log3, svc, prep, bot, i, body);
    TextExtends(log, log3, PostIssue(w, log3, svc, prep, bot, i, body).1, svc, sha);
  }

  /** Filing an issue: the text of every candidate and of the issue written is requested only after the check at the
      verified snapshot's policy commit, and the issue a success returns is the one this call created, has allowed
      actors and did not change while it was read back. */
  lemma FiledIssueIsTrusted(w: World, log: Log, svc: Service, i: IssueInput)
    ensures var (r, log') := CreateIssueWorld(w, log, svc, i);
            var prep := Prepare(w, log, svc, i.write.target, i.write.expectedSnapshot).0;
            && log <= log' && TextAfterCheck(log', |log|, svc, PolicySHA(prep))
            && (r.Got? ==>
                  && prep.Got? && r.value.policyBaseSHA == PolicySHA(prep) == prep.value.result.snapshot.policyBaseSHA
                  && r.value.issue.Some?
                  && TrustedAsFiled(log', |log|, svc, r.value.policyBaseSHA, r.value.issue.value))
  {
    hide ValidIssue, Marker, Prepare, FileIssue, Identify, Existing, TextAfterCheck, TrustedIssue;
    var t := i.write.target;
    PrepareHasNoIssues(w, log, svc, t, i.write.expectedSnapshot);
    var (prep, log1) := Prepare(w, log, svc, t, i.write.expectedSnapshot);
    var sha := PolicySHA(prep);
    IdentifyHasNoIssues(w, log1, svc);
    var (who, log2) := Identify(w, log1, svc);
    NoIssuesTwice(log, log1, log2);
    NoText(log, log, svc, sha);
    NoText(log, log1, svc, sha);
    NoText(log, log2, svc, sha);
    if prep.Got? && who.Got? {
      var p := prep.value.context;
      var numbers := w.findIssues(log2, Marker(t));
      var log3 := log2 + [CallFindIssues(Marker(t), numbers)];
      NoIssuesTwice(log, log2, log3);
      NoText(log, log3, svc, sha);
      if numbers.Ok? {
        ExistingIsChecked(w, log3, svc, p, Marker(t), who.value, numbers.value);
        var log4 := Existing(w, log3, svc, p, Marker(t), who.value, numbers.value).1;
        TextExtends(log, log3, log4, svc, sha);
        FileIsChecked(w, log4, svc, prep.value, who.value, i);
        TextExtends(log, log4, FileIssue(w, log4, svc, prep.value, who.value, i).1, svc, sha);
      }
    }
  }
}
