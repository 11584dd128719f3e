/** The verified reader: metadata of every page, author check, then text, and only if nothing the check
    relied on has changed in between. */
module Reader {
  import opened Prelude
  import opened Sorting
  import opened GitHub
  import opened Snapshots
  import opened TrustedAuthors

  const MAX_ATTEMPTS := 3

  datatype CommentRef = CommentRef(kind: Kind, id: string, threadId: string, author: string, authorType: string, url: string)

  datatype ReadError =
    | TrustedAuthorsNotConfigured
    | SnapshotChanged
    | PolicyRefUnavailable
    | ProjectAllowlistInvalid
    | AuthorCheckFailed(comments: seq<CommentRef>)
    | UntrustedComment(comments: seq<CommentRef>)
    | MetadataFailed
    | AllowlistFailed
    | TextFailed

  datatype Result = Result(
    snapshot: Snapshot, snapshotId: string, serverLogins: nat, projectFile: bool, projectLogins: nat)

  datatype Outcome = Verified(result: Result) | Rejected(error: ReadError)

  datatype Pass = Done(outcome: Outcome) | Stale

  // ---- validation of one snapshot ----

  ghost predicate DistinctIds(ls: seq<Located>) {
    && (forall l :: l in ls ==> l.comment.id != "")
    && forall i, j :: 0 <= i < j < |ls| ==> IdOf(ls[i]) != IdOf(ls[j])
  }

  function IdOf(l: Located): (Kind, string) { (l.comment.kind, l.comment.id) }

  function IdKey(l: Located): string { KindName(l.comment.kind) + "|" + l.comment.id }

  lemma IdKeyInjective(a: Located, b: Located)
    ensures IdKey(a) == IdKey(b) <==> IdOf(a) == IdOf(b)
  {
    if IdKey(a) == IdKey(b) {
      KindNameInjective(a.comment.kind, b.comment.kind);
      DivideOnce(KindName(a.comment.kind), a.comment.id, KindName(b.comment.kind), b.comment.id, '|');
    }
  }

  method ValidateIDs(s: Snapshot) returns (ok: bool)
    ensures ok <==> DistinctIds(AllComments(s))
  {
    hide AllComments, IdKey, IdOf;
    var seen: set<string> := {};
    var ls := CollectComments(s);
    for n := 0 to |ls|
      invariant DistinctIds(ls[..n])
      invariant seen == set i | 0 <= i < n :: IdKey(ls[i])
    {
      var key := IdKey(ls[n]);
      if ls[n].comment.id == "" {
        assert ls[n] in ls;
        return false;
      }
      if key in seen {
        var i :| 0 <= i < n && IdKey(ls[i]) == key;
        IdKeyInjective(ls[i], ls[n]);
        return false;
      }
      forall i | 0 <= i < n ensures IdOf(ls[i]) != IdOf(ls[n]) {
        assert IdKey(ls[i]) in seen;
        IdKeyInjective(ls[i], ls[n]);
      }
      assert ls[..n + 1] == ls[..n] + [ls[n]];
      seen := seen + {key};
    }
    assert ls[..|ls|] == ls;
    return true;
  }

  predicate ValidPolicyRef(s: Snapshot) {
    s.baseRefName != "" && IsLowerHex(s.policyBaseSHA, 40)
  }

  function Ref(l: Located): CommentRef {
    CommentRef(l.comment.kind, l.comment.id, l.threadId, l.comment.author, l.comment.authorType, l.comment.url)
  }

  function Unknown(ls: seq<Located>): seq<CommentRef> {
    if |ls| == 0 then []
    else (if ls[0].comment.author == "" then [Ref(ls[0])] else []) + Unknown(ls[1..])
  }

  function Untrusted(ls: seq<Located>, allowed: set<string>): seq<CommentRef> {
    if |ls| == 0 then []
    else (if ls[0].comment.author != "" && Normalize(ls[0].comment.author) !in allowed then [Ref(ls[0])] else [])
         + Untrusted(ls[1..], allowed)
  }

  function AuthorVerdict(ls: seq<Located>, allowed: set<string>): Option<ReadError> {
    if Unknown(ls) != [] then Some(AuthorCheckFailed(Unknown(ls) + Untrusted(ls, allowed)))
    else if Untrusted(ls, allowed) != [] then Some(UntrustedComment(Untrusted(ls, allowed)))
    else None
  }

  ghost predicate Trusted(l: Located, allowed: set<string>) {
    l.comment.author != "" && Normalize(l.comment.author) in allowed
  }

  lemma SplitUnknown(ls: seq<Located>, n: nat)
    requires n < |ls|
    ensures Unknown(ls[n..]) == (if ls[n].comment.author == "" then [Ref(ls[n])] else []) + Unknown(ls[n + 1..])
  {
    assert ls[n..][1..] == ls[n + 1..];
  }

  lemma SplitUntrusted(ls: seq<Located>, n: nat, allowed: set<string>)
    requires n < |ls|
    ensures Untrusted(ls[n..], allowed)
         == (if ls[n].comment.author != "" && Normalize(ls[n].comment.author) !in allowed then [Ref(ls[n])] else [])
            + Untrusted(ls[n + 1..], allowed)
  {
    assert ls[n..][1..] == ls[n + 1..];
  }

  lemma NothingLeft(allowed: set<string>)
    ensures Unknown([]) == [] && Untrusted([], allowed) == []
  {
  }

  method CheckAuthors(s: Snapshot, allowed: set<string>) returns (verdict: Option<ReadError>)
    ensures verdict == AuthorVerdict(AllComments(s), allowed)
  {
    hide AllComments, Unknown, Untrusted, Normalize;
    var unknown: seq<CommentRef> := [];
    var untrusted: seq<CommentRef> := [];
    var ls := CollectComments(s);
    var n := 0;
    while n < |ls|
      invariant 0 <= n <= |ls|
      invariant Unknown(ls) == unknown + Unknown(ls[n..])
      invariant Untrusted(ls, allowed) == untrusted + Untrusted(ls[n..], allowed)
    {
      SplitUnknown(ls, n);
      SplitUntrusted(ls, n, allowed);
      var c := ls[n].comment;
      var normalized := NormalizeLogin(c.author);
      if c.author == "" {
        unknown := unknown + [Ref(ls[n])];
      } else if normalized !in allowed {
        untrusted := untrusted + [Ref(ls[n])];
      }
      n := n + 1;
    }
    assert ls[n..] == [];
    NothingLeft(allowed);
    assert unknown + [] == unknown && untrusted + [] == untrusted;
    if |unknown| > 0 {
      verdict := Some(AuthorCheckFailed(unknown + untrusted));
    } else if |untrusted| > 0 {
      verdict := Some(UntrustedComment(untrusted));
    } else {
      verdict := None;
    }
  }

  lemma {:induction false} NoneUnknown(ls: seq<Located>)
    ensures Unknown(ls) == [] <==> forall l :: l in ls ==> l.comment.author != ""
  {
    if |ls| > 0 {
      NoneUnknown(ls[1..]);
      assert ls == [ls[0]] + ls[1..];
    }
  }

  lemma {:induction false} NoneUntrusted(ls: seq<Located>, allowed: set<string>)
    ensures Untrusted(ls, allowed) == [] <==>
            forall l :: l in ls ==> l.comment.author == "" || Normalize(l.comment.author) in allowed
  {
    if |ls| > 0 {
      NoneUntrusted(ls[1..], allowed);
      assert ls == [ls[0]] + ls[1..];
    }
  }

  /** The check passes exactly when every comment has a known, allowed author. */
  lemma VerdictMeaning(ls: seq<Located>, allowed: set<string>)
    ensures AuthorVerdict(ls, allowed) == None <==> forall l :: l in ls ==> Trusted(l, allowed)
  {
    NoneUnknown(ls);
    NoneUntrusted(ls, allowed);
  }

  ghost predicate HasBodies(s: Snapshot) {
    forall l :: l in AllComments(s) ==> l.comment.body.Some?
  }

  method RequireBodies(s: Snapshot) returns (ok: bool)
    ensures ok <==> HasBodies(s)
  {
    var ls := CollectComments(s);
    for n := 0 to |ls|
      invariant forall i :: 0 <= i < n ==> ls[i].comment.body.Some?
    {
      if ls[n].comment.body == None {
        assert ls[n] in ls;
        return false;
      }
    }
    return true;
  }

  // ---- one pass ----

  function ToSet(xs: seq<string>): set<string> { set x | x in xs }

  ghost function ReadOnce(w: World, log: Log, server: seq<string>, withBodies: bool): (Pass, Log) {
    var metaReply := w.fetch(log, false);
    var log1 := log + [CallFetch(false, metaReply)];
    match metaReply
    case PolicyRefUnavailable => (Done(Rejected(ReadError.PolicyRefUnavailable)), log1)
    case SnapshotMoved => (Stale, log1)
    case FetchFailed => (Done(Rejected(MetadataFailed)), log1)
    case Fetched(meta) =>
      if !DistinctIds(AllComments(meta)) then (Done(Rejected(MetadataFailed)), log1)
      else if !ValidPolicyRef(meta) then (Done(Rejected(ReadError.PolicyRefUnavailable)), log1)
      else CheckThenRead(w, log1, server, withBodies, meta)
  }

  ghost function CheckThenRead(w: World, log: Log, server: seq<string>, withBodies: bool, meta: Snapshot): (Pass, Log) {
    var project := w.allowlist(log, meta.policyBaseSHA);
    var log2 := log + [CallAllowlist(meta.policyBaseSHA, project)];
    match project
    case AllowlistInvalid => (Done(Rejected(ProjectAllowlistInvalid)), log2)
    case AllowlistFailed => (Done(Rejected(ReadError.AllowlistFailed)), log2)
    case Allowlist(present, logins) =>
      var verdict := AuthorVerdict(AllComments(meta), ToSet(server) + ToSet(logins));
      if verdict.Some? then (Done(Rejected(verdict.value)), log2)
      else
        var fullReply := w.fetch(log2, withBodies);
        var log3 := log2 + [CallFetch(withBodies, fullReply)];
        match fullReply
        case PolicyRefUnavailable => (Done(Rejected(ReadError.PolicyRefUnavailable)), log3)
        case SnapshotMoved => (Stale, log3)
        case FetchFailed => (Done(Rejected(TextFailed)), log3)
        case Fetched(full) =>
          if !ValidPolicyRef(full) then (Done(Rejected(ReadError.PolicyRefUnavailable)), log3)
          else if Fingerprint(meta) != Fingerprint(full) then (Stale, log3)
          else if withBodies && !HasBodies(full) then (Done(Rejected(TextFailed)), log3)
          else (Done(Verified(Result(full, w.sha256(Fingerprint(full)), |server|, present, |logins|))), log3)
  }

  method Once(w: World, log: Log, server: seq<string>, withBodies: bool) returns (pass: Pass, log': Log)
    ensures (pass, log') == ReadOnce(w, log, server, withBodies)
  {
    hide AllComments, DistinctIds, AuthorVerdict, HasBodies, Fingerprint;
    var metaReply := w.fetch(log, false);
    log' := log + [CallFetch(false, metaReply)];
    if metaReply.PolicyRefUnavailable? { return Done(Rejected(ReadError.PolicyRefUnavailable)), log'; }
    if metaReply.SnapshotMoved? { return Stale, log'; }
    if metaReply.FetchFailed? { return Done(Rejected(MetadataFailed)), log'; }
    var meta := metaReply.snapshot;
    var idsOk := ValidateIDs(meta);
    if !idsOk { return Done(Rejected(MetadataFailed)), log'; }
    if !ValidPolicyRef(meta) { return Done(Rejected(ReadError.PolicyRefUnavailable)), log'; }

    var project := w.allowlist(log', meta.policyBaseSHA);
    log' := log' + [CallAllowlist(meta.policyBaseSHA, project)];
    if project.AllowlistInvalid? { return Done(Rejected(ProjectAllowlistInvalid)), log'; }
    if project.AllowlistFailed? { return Done(Rejected(ReadError.AllowlistFailed)), log'; }
    var allowed: set<string> := {};
    for i := 0 to |server|
      invariant allowed == ToSet(server[..i])
    {
      assert server[..i + 1] == server[..i] + [server[i]];
      allowed := allowed + {server[i]};
    }
    for i := 0 to |project.logins|
      invariant allowed == ToSet(server) + ToSet(project.logins[..i])
    {
      assert project.logins[..i + 1] == project.logins[..i] + [project.logins[i]];
      allowed := allowed + {project.logins[i]};
    }
    assert project.logins[..|project.logins|] == project.logins;
    var verdict := CheckAuthors(meta, allowed);
    if verdict.Some? { return Done(Rejected(verdict.value)), log'; }

    var fullReply := w.fetch(log', withBodies);
    log' := log' + [CallFetch(withBodies, fullReply)];
    if fullReply.PolicyRefUnavailable? { return Done(Rejected(ReadError.PolicyRefUnavailable)), log'; }
    if fullReply.SnapshotMoved? { return Stale, log'; }
    if fullReply.FetchFailed? { return Done(Rejected(TextFailed)), log'; }
    var full := fullReply.snapshot;
    if !ValidPolicyRef(full) { return Done(Rejected(ReadError.PolicyRefUnavailable)), log'; }
    if Fingerprint(meta) != Fingerprint(full) { return Stale, log'; }
    if withBodies {
      var bodiesOk := RequireBodies(full);
      if !bodiesOk { return Done(Rejected(TextFailed)), log'; }
    }
    return Done(Verified(Result(full, w.sha256(Fingerprint(full)), |server|, project.present, |project.logins|))), log';
  }

  // ---- the attempt loop ----

  /* The log after k passes, each over whatever GitHub answers by then. */
  ghost function LogAfter(w: World, log: Log, server: seq<string>, withBodies: bool, k: nat): Log {
    if k == 0 then log
    else ReadOnce(w, LogAfter(w, log, server, withBodies, k - 1), server, withBodies).1
  }

  ghost function PassAt(w: World, log: Log, server: seq<string>, withBodies: bool, k: nat): Pass {
    ReadOnce(w, LogAfter(w, log, server, withBodies, k), server, withBodies).0
  }

  ghost function ReadFrom(w: World, log: Log, server: seq<string>, withBodies: bool, attempt: nat): (Outcome, Log)
    requires 1 <= attempt <= MAX_ATTEMPTS
    decreases MAX_ATTEMPTS - attempt
  {
    var (pass, log') := ReadOnce(w, log, server, withBodies);
    match pass
    case Done(outcome) => (outcome, log')
    case Stale =>
      if attempt == MAX_ATTEMPTS then (Rejected(SnapshotChanged), log')
      else ReadFrom(w, log', server, withBodies, attempt + 1)
  }

  ghost function ReadWorld(w: World, log: Log, server: seq<string>, withBodies: bool): (Outcome, Log) {
    if |server| == 0 then (Rejected(TrustedAuthorsNotConfigured), log) else ReadFrom(w, log, server, withBodies, 1)
  }

  method Read(w: World, log: Log, server: seq<string>, withBodies: bool) returns (outcome: Outcome, log': Log)
    ensures (outcome, log') == ReadWorld(w, log, server, withBodies)
  {
    if |server| == 0 {
      return Rejected(TrustedAuthorsNotConfigured), log;
    }
    log' := log;
    var attempt := 1;
    while true
      invariant 1 <= attempt <= MAX_ATTEMPTS
      invariant ReadWorld(w, log, server, withBodies) == ReadFrom(w, log', server, withBodies, attempt)
      decreases MAX_ATTEMPTS - attempt
    {
      var pass;
      pass, log' := Once(w, log', server, withBodies);
      if pass.Done? {
        return pass.outcome, log';
      }
      if attempt >= MAX_ATTEMPTS {
        return Rejected(SnapshotChanged), log';
      }
      attempt := attempt + 1;
    }
  }
}
