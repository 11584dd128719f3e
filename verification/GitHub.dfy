/** What the protocols see of GitHub. A World answers every call as it likes, from the whole history of
    calls: comments, commits, identities and failures may change at any moment. */
module GitHub {
  import opened Prelude

  datatype Kind = ThreadComment | ReviewBody | IssueComment

  function KindName(k: Kind): string {
    match k
    case ThreadComment => "review_thread_comment"
    case ReviewBody => "review_body"
    case IssueComment => "issue_comment"
  }

  datatype Comment = Comment(
    kind: Kind,
    id: string,
    author: string,          // empty when GitHub reports no author
    authorType: string,
    url: string,
    createdAt: string,
    editedAt: string,        // empty when never edited
    state: string,
    body: Option<string>)    // None until the text has been read

  datatype Thread = Thread(
    id: string, path: string, line: Option<int>, isResolved: bool, isOutdated: bool, comments: seq<Comment>)

  datatype Snapshot = Snapshot(
    headSHA: string, baseSHA: string, baseRefName: string, policyBaseSHA: string,
    threads: seq<Thread>, reviews: seq<Comment>, issueComments: seq<Comment>)

  datatype Actor = Actor(nodeId: string, login: string, typ: string)

  datatype PRContext = PRContext(
    url: string, state: string, headSHA: string, baseSHA: string, baseRefName: string, policyBaseSHA: string)

  datatype Reply = Reply(id: string, url: string, author: Actor, body: string)

  datatype Issue = Issue(
    number: int, id: string, url: string, state: string, author: Option<Actor>, editor: Option<Actor>,
    editedAt: string, title: string, body: string, labels: seq<string>)

  datatype Description = Description(
    url: string, state: string, headSHA: string, body: string,
    originalAuthor: Option<Actor>, lastEditor: Option<Actor>)

  datatype Fallible<+T> = Ok(value: T) | Err

  datatype FetchReply = Fetched(snapshot: Snapshot) | PolicyRefUnavailable | SnapshotMoved | FetchFailed

  datatype AllowlistReply = Allowlist(present: bool, logins: seq<string>) | AllowlistInvalid | AllowlistFailed

  /** One remote call with the answer it got. */
  datatype Call =
    | CallFetch(withBodies: bool, fetched: FetchReply)
    | CallAllowlist(sha: string, allowlist: AllowlistReply)
    | CallContext(context: Fallible<PRContext>)
    | CallBot(login: string, bot: Fallible<Actor>)
    | CallPostReply(body: string, posted: Fallible<Reply>)
    | CallReadReply(id: string, reply: Fallible<Reply>)
    | CallPostIssue(title: string, body: string, labels: seq<string>, created: Fallible<Issue>)
    | CallIssue(number: int, withBody: bool, issue: Fallible<Issue>)
    | CallFindIssues(marker: string, found: Fallible<seq<int>>)
    | CallLabels(labels: seq<string>, ok: bool)
    | CallDescribe(description: Fallible<Description>)
    | CallPatch(body: string, ok: bool)
  {
    predicate IsWrite() { CallPostReply? || CallPostIssue? || CallPatch? }
  }

  type Log = seq<Call>

  datatype World = World(
    fetch: (Log, bool) -> FetchReply,
    allowlist: (Log, string) -> AllowlistReply,
    context: Log -> Fallible<PRContext>,
    bot: (Log, string) -> Fallible<Actor>,
    postReply: (Log, string) -> Fallible<Reply>,
    readReply: (Log, string) -> Fallible<Reply>,
    postIssue: (Log, string, string, seq<string>) -> Fallible<Issue>,
    issue: (Log, int, bool) -> Fallible<Issue>,
    findIssues: (Log, string) -> Fallible<seq<int>>,
    labels: (Log, seq<string>) -> bool,
    describe: Log -> Fallible<Description>,
    patch: (Log, string) -> bool,
    sha256: string -> string)

  function Writes(log: Log): nat {
    if |log| == 0 then 0 else Writes(log[..|log| - 1]) + if log[|log| - 1].IsWrite() then 1 else 0
  }

  lemma {:induction false} WritesAppend(a: Log, b: Log)
    ensures Writes(a + b) == Writes(a) + Writes(b)
  {
    if |b| == 0 {
      assert a + b == a;
    } else {
      WritesAppend(a, b[..|b| - 1]);
      assert (a + b)[..|a + b| - 1] == a + b[..|b| - 1];
    }
  }

  predicate IsLowerHex(s: string, n: nat) {
    |s| == n && forall c :: c in s ==> '0' <= c <= '9' || 'a' <= c <= 'f'
  }
}
