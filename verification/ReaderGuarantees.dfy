/** What every read guarantees, whatever GitHub answers and however it changes during the read. */
module ReaderGuarantees {
  import opened Prelude
  import opened GitHub
  import opened Snapshots
  import opened TrustedAuthors
  import opened Reader

  // ---- the returned snapshot ----

  ghost predicate CleanWorld(w: World) {
    forall log, withBodies :: w.fetch(log, withBodies).Fetched? ==> Clean(w.fetch(log, withBodies).snapshot)
  }

  function KeyId(k: Key): (Kind, string) { (k.kind, k.id) }

  lemma RepetitionCounts<T>(xs: seq<T>)
    ensures (forall i, j :: 0 <= i < j < |xs| ==> xs[i] != xs[j]) <==> forall x :: multiset(xs)[x] <= 1
  {
    if forall i, j :: 0 <= i < j < |xs| ==> xs[i] != xs[j] {
      forall x ensures multiset(xs)[x] <= 1 {
        if x in xs {
          var i :| 0 <= i < |xs| && xs[i] == x;
          var rest := xs[..i] + xs[i + 1..];
          TakeOut(xs, i);
          assert forall j :: 0 <= j < |rest| ==> rest[j] != x;
          assert multiset(rest)[x] == 0;
        }
      }
    }
    forall i, j | 0 <= i < j < |xs| && xs[i] == xs[j] ensures multiset(xs)[xs[i]] >= 2 {
      TakeOut(xs, i);
      assert (xs[..i] + xs[i + 1..])[j - 1] == xs[j];
    }
  }

  ghost predicate AllTrusted(s: Snapshot, allowed: set<string>) {
    forall l :: l in AllComments(s) ==> Trusted(l, allowed)
  }

  ghost predicate AllDistinct(s: Snapshot) { DistinctIds(AllComments(s)) }

  lemma CounterpartExists(meta: Snapshot, full: Snapshot, l: Located) returns (m: Located)
    requires multiset(Keys(meta)) == multiset(Keys(full)) && l in AllComments(full)
    ensures m in AllComments(meta) && KeyOf(m) == KeyOf(l)
  {
    var i :| 0 <= i < |AllComments(full)| && AllComments(full)[i] == l;
    assert Keys(full)[i] in multiset(Keys(meta));
    var j :| 0 <= j < |Keys(meta)| && Keys(meta)[j] == Keys(full)[i];
    m := AllComments(meta)[j];
  }

  lemma DistinctIdsByCount(s: Snapshot)
    ensures AllDistinct(s) <==>
            (forall l :: l in AllComments(s) ==> l.comment.id != "") && forall x :: multiset(Map(KeyId, Keys(s)))[x] <= 1
  {
    var ids := Map(KeyId, Keys(s));
    RepetitionCounts(ids);
    assert forall i :: 0 <= i < |ids| ==> ids[i] == IdOf(AllComments(s)[i]);
  }

  /** Equal key multisets carry the author check and the uniqueness of IDs from one snapshot to the other. */
  lemma CheckCarriesOver(meta: Snapshot, full: Snapshot, allowed: set<string>)
    requires multiset(Keys(meta)) == multiset(Keys(full))
    requires AllDistinct(meta) && AllTrusted(meta, allowed)
    ensures AllDistinct(full) && AllTrusted(full, allowed)
  {
    forall l | l in AllComments(full) ensures Trusted(l, allowed) && l.comment.id != "" {
      var m := CounterpartExists(meta, full, l);
    }
    MapKeepsContents(KeyId, Keys(meta), Keys(full));
    DistinctIdsByCount(meta);
    DistinctIdsByCount(full);
  }

  lemma FingerprintCarriesCheck(meta: Snapshot, full: Snapshot, allowed: set<string>)
    requires Clean(meta) && Clean(full) && Fingerprint(meta) == Fingerprint(full)
    requires AllDistinct(meta) && AuthorVerdict(AllComments(meta), allowed) == None
    ensures AllDistinct(full) && AllTrusted(full, allowed) && meta.policyBaseSHA == full.policyBaseSHA
  {
    FingerprintMeaning(meta, full);
    VerdictMeaning(AllComments(meta), allowed);
    CheckCarriesOver(meta, full, allowed);
  }

  /** Every comment of the second fetch `full` was in the first fetch `meta` with the same kind, ID, author and edit time,
      and every comment of the first is still there; its author is named and allowed; it has an ID that no other comment
      of its kind has, and its text if texts were asked for; the refs are the same. */
  ghost predicate ShowsTheChecked(meta: Snapshot, full: Snapshot, server: seq<string>, project: seq<string>, withBodies: bool) {
    && meta.headSHA == full.headSHA && meta.baseSHA == full.baseSHA
    && meta.baseRefName == full.baseRefName && meta.policyBaseSHA == full.policyBaseSHA
    && AllKnown(meta, full) && AllKnown(full, meta)
    && (forall c, threadId :: Holds(full, c, threadId) ==>
          && c.author != "" && (Normalize(c.author) in server || Normalize(c.author) in project)
          && c.id != "" && (withBodies ==> c.body.Some?))
    && forall c, t, d, u :: Holds(full, c, t) && Holds(full, d, u) && c.kind == d.kind && c.id == d.id ==> c == d && t == u
  }

  lemma DistinctOnce(s: Snapshot, c: Comment, t: string, d: Comment, u: string)
    requires AllDistinct(s) && Holds(s, c, t) && Holds(s, d, u) && c.kind == d.kind && c.id == d.id
    ensures c == d && t == u
  {
    hide AllComments, Holds;
    CollectedAreHeld(s, c, t);
    CollectedAreHeld(s, d, u);
    var i :| 0 <= i < |AllComments(s)| && AllComments(s)[i] == Located(c, t);
    var j :| 0 <= j < |AllComments(s)| && AllComments(s)[j] == Located(d, u);
  }

  lemma CheckedIsShown(meta: Snapshot, full: Snapshot, server: seq<string>, project: seq<string>, withBodies: bool)
    requires Clean(meta) && Clean(full) && Fingerprint(meta) == Fingerprint(full)
    requires AllDistinct(full) && AllTrusted(full, ToSet(server) + ToSet(project)) && (withBodies ==> HasBodies(full))
    ensures ShowsTheChecked(meta, full, server, project, withBodies)
  {
    hide AllComments, Holds, Clean, Fingerprint, AllKnown, Normalize;
    EqualFingerprintsMatch(meta, full);
    forall c, threadId | Holds(full, c, threadId)
      ensures c.author != "" && (Normalize(c.author) in server || Normalize(c.author) in project)
      ensures c.id != "" && (withBodies ==> c.body.Some?)
    {
      CollectedAreHeld(full, c, threadId);
      assert Trusted(Located(c, threadId), ToSet(server) + ToSet(project));
    }
    forall c, t, d, u | Holds(full, c, t) && Holds(full, d, u) && c.kind == d.kind && c.id == d.id ensures c == d && t == u {
      DistinctOnce(full, c, t, d, u);
    }
  }

  ghost predicate EndsVerified(log: Log, server: seq<string>, withBodies: bool, r: Result) {
    var n := |log|;
    && n >= 3
    && log[n - 3].CallFetch? && !log[n - 3].withBodies && log[n - 3].fetched.Fetched?
    && log[n - 2].CallAllowlist? && log[n - 2].sha == r.snapshot.policyBaseSHA && log[n - 2].allowlist.Allowlist?
    && ShowsTheChecked(log[n - 3].fetched.snapshot, r.snapshot, server, log[n - 2].allowlist.logins, withBodies)
    && log[n - 1] == CallFetch(withBodies, Fetched(r.snapshot))
    && AllDistinct(r.snapshot)
    && AllTrusted(r.snapshot, ToSet(server) + ToSet(log[n - 2].allowlist.logins))
    && r.snapshot.baseRefName != "" && IsLowerHex(r.snapshot.policyBaseSHA, 40)
    && r.serverLogins == |server| && r.projectFile == log[n - 2].allowlist.present && r.projectLogins == |log[n - 2].allowlist.logins|
  }

  lemma VerifiedPass(w: World, log: Log, server: seq<string>, withBodies: bool)
    requires CleanWorld(w)
    ensures var (pass, log') := ReadOnce(w, log, server, withBodies);
            pass.Done? && pass.outcome.Verified? ==> EndsVerified(log', server, withBodies, pass.outcome.result)
  {
    hide Fingerprint, AllComments, DistinctIds, AuthorVerdict, Clean, HasBodies, ShowsTheChecked, AllTrusted;
    var (pass, log') := ReadOnce(w, log, server, withBodies);
    if pass.Done? && pass.outcome.Verified? {
      var meta := w.fetch(log, false).snapshot;
      var project := w.allowlist(log + [CallFetch(false, Fetched(meta))], meta.policyBaseSHA);
      FingerprintCarriesCheck(meta, pass.outcome.result.snapshot, ToSet(server) + ToSet(project.logins));
      CheckedIsShown(meta, pass.outcome.result.snapshot, server, project.logins, withBodies);
    }
  }

  lemma {:induction false} VerifiedFrom(w: World, log: Log, server: seq<string>, withBodies: bool, attempt: nat)
    requires CleanWorld(w) && 1 <= attempt <= MAX_ATTEMPTS
    ensures var (outcome, log') := ReadFrom(w, log, server, withBodies, attempt);
            outcome.Verified? ==> EndsVerified(log', server, withBodies, outcome.result)
    decreases MAX_ATTEMPTS - attempt
  {
    hide ReadOnce, EndsVerified, CleanWorld;
    VerifiedPass(w, log, server, withBodies);
    var (pass, log') := ReadOnce(w, log, server, withBodies);
    if pass.Stale? && attempt < MAX_ATTEMPTS {
      VerifiedFrom(w, log', server, withBodies, attempt + 1);
    }
  }

  /** A successful read returns the last fetch, not the checked one; still every comment in it was in the checked one,
      unedited since, and has a known author allowed by the server list or by the project list read at the returned
      policy commit, IDs are present and unique, and a body read has every body. */
  lemma ReadReturnsOnlyTrustedComments(w: World, log: Log, server: seq<string>, withBodies: bool)
    requires CleanWorld(w)
    ensures var (outcome, log') := ReadWorld(w, log, server, withBodies);
            outcome.Verified? ==> |server| > 0 && EndsVerified(log', server, withBodies, outcome.result)
  {
    if |server| > 0 {
      VerifiedFrom(w, log, server, withBodies, 1);
    }
  }

  lemma {:induction false} LastFetchFrom(w: World, log: Log, server: seq<string>, withBodies: bool, attempt: nat)
    requires 1 <= attempt <= MAX_ATTEMPTS
    ensures var (outcome, log') := ReadFrom(w, log, server, withBodies, attempt);
            outcome.Verified? ==> EndsWithFetch(w, log, log', withBodies, outcome.result)
    decreases MAX_ATTEMPTS - attempt
  {
    hide ReadOnce, EndsWithFetch;
    LastFetchOfPass(w, log, server, withBodies);
    var (pass, mid) := ReadOnce(w, log, server, withBodies);
    if pass.Stale? && attempt < MAX_ATTEMPTS {
      LastFetchFrom(w, mid, server, withBodies, attempt + 1);
      EndsWithFetchFrom(w, log, mid, ReadFrom(w, mid, server, withBodies, attempt + 1).1, withBodies);
    }
  }

  /* The last call added is the fetch that the result comes from, the last but two the fetch that was checked. */
  ghost predicate EndsWithFetch(w: World, log: Log, log': Log, withBodies: bool, r: Result) {
    && |log'| > |log| && log'[|log'| - 1] == CallFetch(withBodies, Fetched(r.snapshot))
    && w.fetch(log'[..|log'| - 1], withBodies) == Fetched(r.snapshot) && r.snapshotId == w.sha256(Fingerprint(r.snapshot))
    && |log'| >= |log| + 3 && log'[|log'| - 3] == CallFetch(false, w.fetch(log'[..|log'| - 3], false))
    && w.fetch(log'[..|log'| - 3], false).Fetched?
  }

  lemma EndsWithFetchFrom(w: World, log: Log, mid: Log, log': Log, withBodies: bool)
    requires |log| <= |mid|
    ensures forall r :: EndsWithFetch(w, mid, log', withBodies, r) ==> EndsWithFetch(w, log, log', withBodies, r)
  {
  }

  lemma LastFetchOfPass(w: World, log: Log, server: seq<string>, withBodies: bool)
    ensures var (pass, log') := ReadOnce(w, log, server, withBodies);
            && |log| <= |log'|
            && (pass.Done? && pass.outcome.Verified? ==> EndsWithFetch(w, log, log', withBodies, pass.outcome.result))
  {
    hide Fingerprint, AllComments, DistinctIds, AuthorVerdict, HasBodies;
    var (pass, log') := ReadOnce(w, log, server, withBodies);
    if pass.Done? && pass.outcome.Verified? {
      var meta := w.fetch(log, false);
      var log1 := log + [CallFetch(false, meta)];
      var log2 := log1 + [CallAllowlist(meta.snapshot.policyBaseSHA, w.allowlist(log1, meta.snapshot.policyBaseSHA))];
      assert log'[..|log'| - 1] == log2 && log'[..|log'| - 3] == log;
    }
  }

  /** What a successful read returns is what its last call fetched, under that snapshot's fingerprint. */
  lemma ReadEndsWithItsFetch(w: World, log: Log, server: seq<string>, withBodies: bool)
    ensures var (outcome, log') := ReadWorld(w, log, server, withBodies);
            outcome.Verified? ==> EndsWithFetch(w, log, log', withBodies, outcome.result)
  {
    if |server| > 0 { LastFetchFrom(w, log, server, withBodies, 1); }
  }

  // ---- what an error says ----

  predicate Allowed(author: string, server: seq<string>, project: seq<string>) {
    author != "" && (Normalize(author) in server || Normalize(author) in project)
  }

  /* The comments listed are those of the snapshot whose author is not named or not allowed, the unnamed first. */
  ghost predicate ListsRefused(refs: seq<CommentRef>, s: Snapshot, server: seq<string>, project: seq<string>) {
    && (forall r :: r in refs <==>
          exists c, t :: Holds(s, c, t) && !Allowed(c.author, server, project)
                         && r == CommentRef(c.kind, c.id, t, c.author, c.authorType, c.url))
    && forall i, j :: 0 <= i < j < |refs| && refs[j].author == "" ==> refs[i].author == ""
  }

  /** Each error but that of a changed snapshot is about the last call. */
  ghost predicate Explains(log: Log, server: seq<string>, withBodies: bool, e: ReadError) {
    var n := |log|;
    match e
    case TrustedAuthorsNotConfigured => server == []
    case SnapshotChanged => true
    case PolicyRefUnavailable =>
      && n > 0 && log[n - 1].CallFetch?
      && (|| log[n - 1].fetched.PolicyRefUnavailable?
          || (&& log[n - 1].fetched.Fetched?
              && (log[n - 1].fetched.snapshot.baseRefName == "" || !IsLowerHex(log[n - 1].fetched.snapshot.policyBaseSHA, 40))))
    case MetadataFailed =>
      && n > 0 && log[n - 1].CallFetch? && !log[n - 1].withBodies
      && (log[n - 1].fetched.FetchFailed? || (log[n - 1].fetched.Fetched? && !AllDistinct(log[n - 1].fetched.snapshot)))
    case TextFailed =>
      && n > 0 && log[n - 1].CallFetch? && log[n - 1].withBodies == withBodies
      && (|| log[n - 1].fetched.FetchFailed?
          || (log[n - 1].fetched.Fetched? && withBodies && LacksText(log[n - 1].fetched.snapshot)))
    case ProjectAllowlistInvalid => n > 0 && log[n - 1].CallAllowlist? && log[n - 1].allowlist.AllowlistInvalid?
    case AllowlistFailed => n > 0 && log[n - 1].CallAllowlist? && log[n - 1].allowlist.AllowlistFailed?
    case AuthorCheckFailed(refs) => Refuses(log, server, refs) && refs != [] && refs[0].author == ""
    case UntrustedComment(refs) => Refuses(log, server, refs) && refs != [] && refs[0].author != ""
  }

  ghost predicate LacksText(s: Snapshot) { exists c, t :: Holds(s, c, t) && c.body.None? }

  ghost predicate Refuses(log: Log, server: seq<string>, refs: seq<CommentRef>) {
    var n := |log|;
    && n >= 2 && log[n - 2].CallFetch? && log[n - 2].fetched.Fetched?
    && log[n - 1].CallAllowlist? && log[n - 1].allowlist.Allowlist?
    && ListsRefused(refs, log[n - 2].fetched.snapshot, server, log[n - 1].allowlist.logins)
  }

  lemma {:induction false} UnknownMembers(ls: seq<Located>, r: CommentRef)
    ensures r in Unknown(ls) <==>
            exists l :: l in ls && l.comment.author == ""
                        && r == CommentRef(l.comment.kind, l.comment.id, l.threadId, l.comment.author, l.comment.authorType, l.comment.url)
  {
    if |ls| > 0 {
      UnknownMembers(ls[1..], r);
      assert ls == [ls[0]] + ls[1..];
    }
  }

  lemma {:induction false} UntrustedMembers(ls: seq<Located>, allowed: set<string>, r: CommentRef)
    ensures r in Untrusted(ls, allowed) <==>
            exists l :: l in ls && l.comment.author != "" && Normalize(l.comment.author) !in allowed
                        && r == CommentRef(l.comment.kind, l.comment.id, l.threadId, l.comment.author, l.comment.authorType, l.comment.url)
  {
    hide Normalize;
    if |ls| > 0 {
      UntrustedMembers(ls[1..], allowed, r);
      assert ls == [ls[0]] + ls[1..];
    }
  }

  lemma VerdictLists(s: Snapshot, server: seq<string>, project: seq<string>)
    ensures match AuthorVerdict(AllComments(s), ToSet(server) + ToSet(project))
            case None => true
            case Some(AuthorCheckFailed(refs)) => ListsRefused(refs, s, server, project) && refs != [] && refs[0].author == ""
            case Some(UntrustedComment(refs)) => ListsRefused(refs, s, server, project) && refs != [] && refs[0].author != ""
            case Some(_) => false
  {
    hide AllComments, Normalize, Holds, Unknown, Untrusted;
    var ls, allowed := AllComments(s), ToSet(server) + ToSet(project);
    var unknown, untrusted := Unknown(ls), Untrusted(ls, allowed);
    forall r ensures r in unknown <==> exists c, t :: Holds(s, c, t) && c.author == ""
                                                      && r == CommentRef(c.kind, c.id, t, c.author, c.authorType, c.url) {
      UnknownMembers(ls, r);
      RefusedAreHeld(s);
    }
    forall r ensures r in untrusted <==>
                     exists c, t :: Holds(s, c, t) && c.author != "" && !Allowed(c.author, server, project)
                                    && r == CommentRef(c.kind, c.id, t, c.author, c.authorType, c.url) {
      UntrustedMembers(ls, allowed, r);
      RefusedAreHeld(s);
    }
    forall c, t | Holds(s, c, t) && c.author == "" ensures CommentRef(c.kind, c.id, t, c.author, c.authorType, c.url) in unknown { }
    assert forall i :: 0 <= i < |unknown| ==> unknown[i] in unknown;
    assert forall i :: 0 <= i < |untrusted| ==> untrusted[i] in untrusted;
  }

  lemma RefusedAreHeld(s: Snapshot)
    ensures forall l :: l in AllComments(s) <==> Holds(s, l.comment, l.threadId)
    ensures forall c, t :: Holds(s, c, t) <==> Located(c, t) in AllComments(s)
  {
    hide AllComments, Holds;
    forall l ensures l in AllComments(s) <==> Holds(s, l.comment, l.threadId) {
      CollectedAreHeld(s, l.comment, l.threadId);
      assert l == Located(l.comment, l.threadId);
    }
    forall c, t ensures Holds(s, c, t) <==> Located(c, t) in AllComments(s) { CollectedAreHeld(s, c, t); }
  }

  lemma PassExplains(w: World, log: Log, server: seq<string>, withBodies: bool)
    requires |server| > 0
    ensures var (pass, log') := ReadOnce(w, log, server, withBodies);
            pass.Done? && pass.outcome.Rejected? ==> Explains(log', server, withBodies, pass.outcome.error)
  {
    hide Fingerprint, AllComments, DistinctIds, AuthorVerdict, ListsRefused, Holds;
    var (pass, log') := ReadOnce(w, log, server, withBodies);
    var meta := w.fetch(log, false);
    if meta.Fetched? {
      var project := w.allowlist(log + [CallFetch(false, meta)], meta.snapshot.policyBaseSHA);
      if project.Allowlist? { VerdictLists(meta.snapshot, server, project.logins); }
      var log2 := log + [CallFetch(false, meta)] + [CallAllowlist(meta.snapshot.policyBaseSHA, project)];
      var full := w.fetch(log2, withBodies);
      if full.Fetched? { RefusedAreHeld(full.snapshot); }
    }
  }

  lemma {:induction false} ErrorsFrom(w: World, log: Log, server: seq<string>, withBodies: bool, attempt: nat)
    requires |server| > 0 && 1 <= attempt <= MAX_ATTEMPTS
    ensures var (outcome, log') := ReadFrom(w, log, server, withBodies, attempt);
            outcome.Rejected? ==> Explains(log', server, withBodies, outcome.error)
    decreases MAX_ATTEMPTS - attempt
  {
    hide ReadOnce;
    PassExplains(w, log, server, withBodies);
    var (pass, mid) := ReadOnce(w, log, server, withBodies);
    if pass.Stale? && attempt < MAX_ATTEMPTS { ErrorsFrom(w, mid, server, withBodies, attempt + 1); }
  }

  /** Every error says what its last call showed: a fetch or an allowlist that failed, refs that are no branch, missing or
      repeated IDs, missing texts, or exactly the comments without an allowed author. */
  lemma ErrorsTellWhy(w: World, log: Log, server: seq<string>, withBodies: bool)
    ensures var (outcome, log') := ReadWorld(w, log, server, withBodies);
            outcome.Rejected? ==> Explains(log', server, withBodies, outcome.error)
    ensures ReadWorld(w, log, server, withBodies).0 == Rejected(TrustedAuthorsNotConfigured) <==> server == []
  {
    if |server| > 0 {
      hide Explains;
      ErrorsFrom(w, log, server, withBodies, 1);
      NoPassAsksForLogins(w, log, server, withBodies, 1);
    }
  }

  lemma {:induction false} NoPassAsksForLogins(w: World, log: Log, server: seq<string>, withBodies: bool, attempt: nat)
    requires 1 <= attempt <= MAX_ATTEMPTS
    ensures ReadFrom(w, log, server, withBodies, attempt).0 != Rejected(TrustedAuthorsNotConfigured)
    decreases MAX_ATTEMPTS - attempt
  {
    hide AllComments, DistinctIds, Fingerprint, Unknown, Untrusted, HasBodies;
    if attempt < MAX_ATTEMPTS { NoPassAsksForLogins(w, ReadOnce(w, log, server, withBodies).1, server, withBodies, attempt + 1); }
  }

  // ---- the calls made ----

  /* The body-requesting fetch at i comes right after a metadata fetch and an allowlist read at that
     snapshot's policy commit, with which every comment passed the author check. */
  ghost predicate CheckedBefore(log: Log, from: nat, i: nat, server: seq<string>)
    requires i < |log|
  {
    && i >= from + 2
    && log[i - 2].CallFetch? && !log[i - 2].withBodies && log[i - 2].fetched.Fetched?
    && log[i - 1].CallAllowlist? && log[i - 1].allowlist.Allowlist?
    && log[i - 1].sha == log[i - 2].fetched.snapshot.policyBaseSHA
    && AllDistinct(log[i - 2].fetched.snapshot)
    && AllTrusted(log[i - 2].fetched.snapshot, ToSet(server) + ToSet(log[i - 1].allowlist.logins))
  }

  ghost predicate OnlyReads(log: Log, from: nat, server: seq<string>, withBodies: bool) {
    forall i :: from <= i < |log| ==>
      && (log[i].CallFetch? || log[i].CallAllowlist?)
      && (log[i].CallFetch? && log[i].withBodies ==> withBodies && CheckedBefore(log, from, i, server))
  }

  lemma PassCalls(w: World, log: Log, server: seq<string>, withBodies: bool)
    ensures var log' := ReadOnce(w, log, server, withBodies).1;
            log <= log' && 1 <= |log'| - |log| <= 3 && OnlyReads(log', |log|, server, withBodies)
  {
    hide Fingerprint, AllComments, DistinctIds, AuthorVerdict, HasBodies;
    var log' := ReadOnce(w, log, server, withBodies).1;
    if |log'| == |log| + 3 {
      var meta := w.fetch(log, false).snapshot;
      var log1 := log + [CallFetch(false, Fetched(meta))];
      var project := w.allowlist(log1, meta.policyBaseSHA);
      VerdictMeaning(AllComments(meta), ToSet(server) + ToSet(project.logins));
      assert CheckedBefore(log', |log|, |log| + 2, server);
    }
  }

  lemma OnlyReadsExtends(log: Log, mid: Log, log': Log, server: seq<string>, withBodies: bool)
    requires log <= mid <= log'
    requires OnlyReads(mid, |log|, server, withBodies) && OnlyReads(log', |mid|, server, withBodies)
    ensures OnlyReads(log', |log|, server, withBodies)
  {
    forall i | |log| <= i < |log'|
      ensures log'[i].CallFetch? || log'[i].CallAllowlist?
      ensures log'[i].CallFetch? && log'[i].withBodies ==> withBodies && CheckedBefore(log', |log|, i, server)
    {
      if i < |mid| {
        assert log'[i] == mid[i];
        if mid[i].CallFetch? && mid[i].withBodies {
          assert CheckedBefore(mid, |log|, i, server);
          assert log'[i - 1] == mid[i - 1] && log'[i - 2] == mid[i - 2];
        }
      }
    }
  }

  lemma {:induction false} CallsFrom(w: World, log: Log, server: seq<string>, withBodies: bool, attempt: nat)
    requires 1 <= attempt <= MAX_ATTEMPTS
    ensures var log' := ReadFrom(w, log, server, withBodies, attempt).1;
            log <= log' && |log'| - |log| <= 3 * (MAX_ATTEMPTS + 1 - attempt) && OnlyReads(log', |log|, server, withBodies)
    decreases MAX_ATTEMPTS - attempt
  {
    hide ReadOnce, OnlyReads;
    PassCalls(w, log, server, withBodies);
    var (pass, mid) := ReadOnce(w, log, server, withBodies);
    if pass.Stale? && attempt < MAX_ATTEMPTS {
      CallsFrom(w, mid, server, withBodies, attempt + 1);
      OnlyReadsExtends(log, mid, ReadFrom(w, mid, server, withBodies, attempt + 1).1, server, withBodies);
    }
  }

  /** Every read makes at most nine calls, none of them a write; no body is requested by a metadata read,
      nor by any read before the author check of that same pass; an empty server list makes no call. */
  lemma BodiesOnlyAfterTheCheck(w: World, log: Log, server: seq<string>, withBodies: bool)
    ensures var log' := ReadWorld(w, log, server, withBodies).1;
            && log <= log' && |log'| - |log| <= 9
            && OnlyReads(log', |log|, server, withBodies)
            && (server == [] ==> log' == log)
    ensures Writes(ReadWorld(w, log, server, withBodies).1) == Writes(log)
  {
    if |server| > 0 {
      CallsFrom(w, log, server, withBodies, 1);
    }
    var log' := ReadWorld(w, log, server, withBodies).1;
    ReadsAreNotWrites(log'[|log|..]);
    WritesAppend(log, log'[|log|..]);
    assert log' == log + log'[|log|..];
  }

  lemma {:induction false} ReadsAreNotWrites(calls: Log)
    requires forall i :: 0 <= i < |calls| ==> !calls[i].IsWrite()
    ensures Writes(calls) == 0
  {
    if |calls| > 0 {
      ReadsAreNotWrites(calls[..|calls| - 1]);
    }
  }

  // ---- the attempts ----

  lemma PassNeverGivesUp(w: World, log: Log, server: seq<string>, withBodies: bool)
    ensures ReadOnce(w, log, server, withBodies).0 != Done(Rejected(SnapshotChanged))
  {
  }

  lemma LogAfterShifts(w: World, log: Log, server: seq<string>, withBodies: bool, k: nat)
    ensures LogAfter(w, ReadOnce(w, log, server, withBodies).1, server, withBodies, k)
         == LogAfter(w, log, server, withBodies, k + 1)
  {
  }

  lemma {:induction false} AttemptsFrom(w: World, log: Log, server: seq<string>, withBodies: bool, attempt: nat)
    requires 1 <= attempt <= MAX_ATTEMPTS
    ensures Stopped(w, log, server, withBodies, MAX_ATTEMPTS + 1 - attempt, ReadFrom(w, log, server, withBodies, attempt))
    decreases MAX_ATTEMPTS - attempt
  {
    hide ReadOnce;
    var (pass, log1) := ReadOnce(w, log, server, withBodies);
    var budget := MAX_ATTEMPTS + 1 - attempt;
    var result := ReadFrom(w, log, server, withBodies, attempt);
    assert LogAfter(w, log, server, withBodies, 0) == log && LogAfter(w, log, server, withBodies, 1) == log1;
    if pass.Done? || attempt == MAX_ATTEMPTS {
      assert StoppedAfter(w, log, server, withBodies, 1, budget, result);
    } else {
      AttemptsFrom(w, log1, server, withBodies, attempt + 1);
      var k :| 1 <= k <= budget - 1 && StoppedAfter(w, log1, server, withBodies, k, budget - 1, result);
      forall i ensures 0 <= i ==> PassAt(w, log1, server, withBodies, i) == PassAt(w, log, server, withBodies, i + 1) {
        if 0 <= i { LogAfterShifts(w, log, server, withBodies, i); }
      }
      LogAfterShifts(w, log, server, withBodies, k);
      forall i | 0 <= i < k ensures PassAt(w, log, server, withBodies, i) == Stale {
        if i > 0 { assert PassAt(w, log1, server, withBodies, i - 1) == PassAt(w, log, server, withBodies, i); }
      }
      assert PassAt(w, log1, server, withBodies, k - 1) == PassAt(w, log, server, withBodies, k);
      assert StoppedAfter(w, log, server, withBodies, k + 1, budget, result);
    }
  }

  /* k passes were made: all but the last were stale, and the last one decided or used up the budget. */
  ghost predicate StoppedAfter(w: World, log: Log, server: seq<string>, withBodies: bool, k: nat, budget: nat,
                               result: (Outcome, Log))
    requires 1 <= k
  {
    && result.1 == LogAfter(w, log, server, withBodies, k)
    && (forall i :: 0 <= i < k - 1 ==> PassAt(w, log, server, withBodies, i) == Stale)
    && match PassAt(w, log, server, withBodies, k - 1)
       case Done(outcome) => result.0 == outcome
       case Stale => k == budget && result.0 == Rejected(SnapshotChanged)
  }

  ghost predicate Stopped(w: World, log: Log, server: seq<string>, withBodies: bool, budget: nat, result: (Outcome, Log)) {
    exists k :: 1 <= k <= budget && StoppedAfter(w, log, server, withBodies, k, budget, result)
  }

  /** A read makes at most three passes, stops at the first that is not stale with that pass's outcome, and
      reports a changed snapshot exactly when three passes in a row were stale. */
  lemma ReadStopsAtTheFirstStablePass(w: World, log: Log, server: seq<string>, withBodies: bool)
    requires |server| > 0
    ensures Stopped(w, log, server, withBodies, 3, ReadWorld(w, log, server, withBodies))
    ensures ReadWorld(w, log, server, withBodies).0 == Rejected(SnapshotChanged) <==>
            forall i :: 0 <= i < 3 ==> PassAt(w, log, server, withBodies, i) == Stale
  {
    AttemptsFrom(w, log, server, withBodies, 1);
    var k :| 1 <= k <= MAX_ATTEMPTS
      && StoppedAfter(w, log, server, withBodies, k, MAX_ATTEMPTS, ReadWorld(w, log, server, withBodies));
    PassNeverGivesUp(w, LogAfter(w, log, server, withBodies, k - 1), server, withBodies);
    assert k == 3 || k - 1 < 2;
  }
}
