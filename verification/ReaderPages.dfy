/** The verified reader over the page-by-page read: what it returns when GitHub's pages are all there is. */
module ReaderPages {
  import opened Prelude
  import opened GitHub
  import opened Snapshots
  import opened CommentPages
  import opened CommentPagesGuarantees
  import opened ReaderGuarantees
  import opened TrustedAuthors
  import Reader

  // ---- answers without separators ----

  predicate CleanRefs(refs: Refs) {
    && '\n' !in refs.headOid && '\n' !in refs.baseOid && '\n' !in refs.baseRefName
    && (refs.baseRef.Some? ==> '\n' !in refs.baseRef.value.oid)
  }

  predicate CleanNodes(nodes: seq<CommentNode>) { forall x :: x in nodes ==> CleanNode(x) }

  predicate CleanThreadNode(t: ThreadNode) { CleanText(t.id) && CleanNodes(t.first.nodes) }

  /** In every answer refs are single lines, and logins, type names, thread IDs and times hold no separator. */
  ghost predicate AnswersClean(s: Server) {
    && (forall n, b, c :: s.threads(n, b, c).Ok? ==>
          var p := s.threads(n, b, c).value; CleanRefs(p.refs) && forall t :: t in p.nodes ==> CleanThreadNode(t))
    && (forall n, b, id, c :: s.more(n, b, id, c).Ok? ==> CleanNodes(s.more(n, b, id, c).value.nodes))
    && (forall n, b, c :: s.reviews(n, b, c).Ok? ==> forall x :: x in s.reviews(n, b, c).value.nodes ==> CleanNode(x.core))
    && forall n, b, c :: s.comments(n, b, c).Ok? ==> CleanNodes(s.comments(n, b, c).value.nodes)
  }

  lemma {:induction false} MoreIsClean(s: Server, withBodies: bool, id: string, next: Next, n: nat)
    requires AnswersClean(s) && More(s, withBodies, id, next, n).Done?
    ensures CleanNodes(More(s, withBodies, id, next, n).value)
    decreases s.patience - n
  {
    hide CleanNode, CleanRefs, CleanThreadNode;
    if next.From? {
      MoreIsClean(s, withBodies, id, NextCursor(s.more(n, withBodies, id, next.cursor).value.info), n + 1);
    }
  }

  lemma {:induction false} WholesAreClean(s: Server, withBodies: bool, nodes: seq<ThreadNode>, n: nat)
    requires AnswersClean(s) && Wholes(s, withBodies, nodes, n).Done? && forall t :: t in nodes ==> CleanThreadNode(t)
    ensures forall f :: f in Wholes(s, withBodies, nodes, n).value ==> CleanFull(f)
  {
    hide CleanNode, CleanText, More, AnswersClean;
    if |nodes| > 0 {
      assert CleanThreadNode(nodes[0]);
      MoreIsClean(s, withBodies, nodes[0].id, NextCursor(nodes[0].first.info), n);
      WholesAreClean(s, withBodies, nodes[1..], Whole(s, withBodies, nodes[0], n).n);
    }
  }

  lemma {:induction false} ThreadsAreClean(s: Server, withBodies: bool, cursor: Option<string>, pins: Option<Pins>, n: nat)
    requires AnswersClean(s) && WalkThreads(s, withBodies, cursor, pins, n).Done?
    ensures var visits := WalkThreads(s, withBodies, cursor, pins, n).value;
            (forall f :: f in Items(visits) ==> CleanFull(f)) && CleanRefs(visits[0].page.refs)
    decreases s.patience - n
  {
    hide CleanFull, CleanRefs, CleanThreadNode, CleanNodes, Wholes;
    var page := s.threads(n, withBodies, cursor).value;
    var wholes := Wholes(s, withBodies, page.nodes, n + 1);
    WholesAreClean(s, withBodies, page.nodes, n + 1);
    var next := NextCursor(page.info);
    if next.From? {
      ThreadsAreClean(s, withBodies, Some(next.cursor), Some(SetRefs(pins, page.refs).value), wholes.n);
    }
  }

  lemma {:induction false} WalkIsClean<N>(ask: (nat, Option<string>) -> Fallible<Page<N>>, ok: N -> bool, patience: nat,
                                          cursor: Option<string>, pins: Pins, n: nat)
    requires forall i, c :: ask(i, c).Ok? ==> forall x :: x in ask(i, c).value.nodes ==> ok(x)
    requires Walk(ask, patience, cursor, pins, n).Done?
    ensures forall x :: x in Items(Walk(ask, patience, cursor, pins, n).value) ==> ok(x)
    decreases patience - n
  {
    var page := ask(n, cursor).value;
    if NextCursor(page.info).From? {
      WalkIsClean(ask, ok, patience, Some(NextCursor(page.info).cursor), pins, n + 1);
    }
  }

  /** Pages without separators make a snapshot whose fingerprint is exact. */
  lemma SnapshotIsClean(s: Server, withBodies: bool, pr: int)
    requires AnswersClean(s) && SnapshotReply(s, withBodies, pr).Fetched?
    ensures Clean(SnapshotReply(s, withBodies, pr).snapshot)
  {
    hide CleanFull, CleanNode, Walk, WalkThreads, Assembled, Items, Clean;
    ThreadsAreClean(s, withBodies, None, None, 0);
    var threads := WalkThreads(s, withBodies, None, None, 0);
    var pins := PinsOf(threads.value[0].page.refs);
    WalkIsClean(AskReviews(s, withBodies), (x: ReviewNode) => CleanNode(x.core), s.patience, None, pins, threads.n);
    var reviews := Walk(AskReviews(s, withBodies), s.patience, None, pins, threads.n);
    WalkIsClean(AskComments(s, withBodies), (x: CommentNode) => CleanNode(x), s.patience, None, pins, reviews.n);
    AssembledIsClean(Visits(s, withBodies, pr).value, pins, withBodies);
  }

  // ---- reading over pages ----

  /** Every fetch is a read of all pages, from a server that may have changed with every call made before. */
  ghost predicate FetchesPages(w: World, servers: Log -> Server, pr: int) {
    forall log, withBodies :: w.fetch(log, withBodies) == SnapshotReply(servers(log), withBodies, pr)
  }

  lemma PagesAreClean(w: World, servers: Log -> Server, pr: int)
    requires FetchesPages(w, servers, pr) && forall log :: AnswersClean(servers(log))
    ensures CleanWorld(w)
  {
    hide SnapshotReply, AnswersClean, Clean;
    forall log, withBodies | w.fetch(log, withBodies).Fetched? ensures Clean(w.fetch(log, withBodies).snapshot) {
      assert AnswersClean(servers(log));
      SnapshotIsClean(servers(log), withBodies, pr);
    }
  }

  /* An identified comment by a named and allowed author. */
  ghost predicate NodeTrusted(n: CommentNode, server: seq<string>, project: seq<string>) {
    n.databaseId > 0 && n.login != "" && (Normalize(n.login) in server || Normalize(n.login) in project)
  }

  ghost predicate NodesTrusted(w: Walks, server: seq<string>, project: seq<string>) {
    && (forall f, n :: f in Items(w.threads) && n in f.comments ==> NodeTrusted(n, server, project))
    && (forall n :: n in Items(w.reviews) ==> NodeTrusted(n.core, server, project))
    && forall n :: n in Items(w.comments) ==> NodeTrusted(n, server, project)
  }

  /** What a successful read returns is everything on all the pages of its last fetch, every page of which showed the
      same refs: every node on them has an ID and a known author in the server list or in the allowlist read at the
      policy commit those pages showed, and was in the same list of the checked fetch before, unedited since. */
  lemma PagesReturnOnlyTrustedComments(w: World, servers: Log -> Server, pr: int, log: Log, server: seq<string>, withBodies: bool)
    requires FetchesPages(w, servers, pr) && forall l :: AnswersClean(servers(l))
    ensures var (outcome, log') := Reader.ReadWorld(w, log, server, withBodies);
            outcome.Verified? ==>
              && |server| > 0 && |log'| > |log| && EndsVerified(log', server, withBodies, outcome.result)
              && var s, snapshot := servers(log'[..|log'| - 1]), outcome.result.snapshot;
                 && Visits(s, withBodies, pr).Done? && SnapshotReply(s, withBodies, pr) == Fetched(snapshot)
                 && var walks := Visits(s, withBodies, pr).value;
                    && AllReport(walks.threads, snapshot) && AllReport(walks.reviews, snapshot) && AllReport(walks.comments, snapshot)
                    && NodesTrusted(walks, server, log'[|log'| - 2].allowlist.logins)
                    && SameParts(log'[|log'| - 3].fetched.snapshot, snapshot)
  {
    hide Reader.ReadWorld, SnapshotReply, AnswersClean, AllDistinct, AllTrusted, CleanWorld, Fingerprint, NodesTrusted, SameParts,
      AllReport, FiledByKind, AllKnown;
    PagesAreClean(w, servers, pr);
    ReadReturnsOnlyTrustedComments(w, log, server, withBodies);
    ReadEndsWithItsFetch(w, log, server, withBodies);
    var (outcome, log') := Reader.ReadWorld(w, log, server, withBodies);
    if outcome.Verified? {
      var s, snapshot := servers(log'[..|log'| - 1]), outcome.result.snapshot;
      EveryPageShowsTheSameRefs(s, withBodies, pr);
      ShownNodesAreTrusted(s, withBodies, pr, log'[|log'| - 3].fetched.snapshot, server, log'[|log'| - 2].allowlist.logins);
      CheckedIsFiled(w, servers, pr, log, server, withBodies);
      PagesAreFiled(s, withBodies, pr);
      PartsMatch(log'[|log'| - 3].fetched.snapshot, snapshot);
    }
  }

  lemma ShownIsTrusted(meta: Snapshot, full: Snapshot, server: seq<string>, project: seq<string>, withBodies: bool,
                       c: Comment, threadId: string, kind: Kind, n: CommentNode)
    requires ShowsTheChecked(meta, full, server, project, withBodies) && Holds(full, c, threadId) && ShowsNode(c, kind, n, withBodies)
    ensures NodeTrusted(n, server, project)
  {
    hide Holds, AllKnown, Normalize;
  }

  lemma ShownNodesAreTrusted(s: Server, withBodies: bool, pr: int, meta: Snapshot, server: seq<string>, project: seq<string>)
    requires SnapshotReply(s, withBodies, pr).Fetched?
    requires ShowsTheChecked(meta, SnapshotReply(s, withBodies, pr).snapshot, server, project, withBodies)
    ensures Visits(s, withBodies, pr).Done? && NodesTrusted(Visits(s, withBodies, pr).value, server, project)
  {
    hide SnapshotReply, Visits, Items, NodeTrusted, ShowsTheChecked, ShowsNode;
    SnapshotShowsItsNodes(s, withBodies, pr);
    var walks, snapshot := Visits(s, withBodies, pr).value, SnapshotReply(s, withBodies, pr).snapshot;
    forall f, n | f in Items(walks.threads) && n in f.comments ensures NodeTrusted(n, server, project) {
      var i :| 0 <= i < |Items(walks.threads)| && Items(walks.threads)[i] == f;
      var k :| 0 <= k < |f.comments| && f.comments[k] == n;
      var t := snapshot.threads[i];
      assert t in snapshot.threads && t.comments[k] in t.comments && ShowsThread(t, f, withBodies);
      assert Holds(snapshot, t.comments[k], t.id);
      ShownIsTrusted(meta, snapshot, server, project, withBodies, t.comments[k], t.id, ThreadComment, n);
    }
    forall n | n in Items(walks.reviews) ensures NodeTrusted(n.core, server, project) {
      var k :| 0 <= k < |Items(walks.reviews)| && Items(walks.reviews)[k] == n;
      assert Holds(snapshot, snapshot.reviews[k], "");
      ShownIsTrusted(meta, snapshot, server, project, withBodies, snapshot.reviews[k], "", ReviewBody, n.core);
    }
    forall n | n in Items(walks.comments) ensures NodeTrusted(n, server, project) {
      var k :| 0 <= k < |Items(walks.comments)| && Items(walks.comments)[k] == n;
      assert Holds(snapshot, snapshot.issueComments[k], "");
      ShownIsTrusted(meta, snapshot, server, project, withBodies, snapshot.issueComments[k], "", IssueComment, n);
    }
  }

  lemma PagesAreFiled(s: Server, withBodies: bool, pr: int)
    requires SnapshotReply(s, withBodies, pr).Fetched?
    ensures FiledByKind(SnapshotReply(s, withBodies, pr).snapshot)
  {
    hide SnapshotReply, Visits, Items;
    SnapshotShowsItsNodes(s, withBodies, pr);
    var w, snapshot := Visits(s, withBodies, pr).value, SnapshotReply(s, withBodies, pr).snapshot;
    forall t, c | t in snapshot.threads && c in t.comments ensures c.kind == ThreadComment {
      var i :| 0 <= i < |snapshot.threads| && snapshot.threads[i] == t;
      assert ShowsThread(t, Items(w.threads)[i], withBodies);
    }
  }

  /* So is the fetch that was checked. */
  lemma CheckedIsFiled(w: World, servers: Log -> Server, pr: int, log: Log, server: seq<string>, withBodies: bool)
    requires FetchesPages(w, servers, pr)
    ensures var (outcome, log') := Reader.ReadWorld(w, log, server, withBodies);
            outcome.Verified? ==> |log'| >= 3 && log'[|log'| - 3].CallFetch? && log'[|log'| - 3].fetched.Fetched?
                                  && FiledByKind(log'[|log'| - 3].fetched.snapshot)
  {
    hide Reader.ReadWorld, SnapshotReply, FiledByKind;
    ReadEndsWithItsFetch(w, log, server, withBodies);
    var (outcome, log') := Reader.ReadWorld(w, log, server, withBodies);
    if outcome.Verified? { PagesAreFiled(servers(log'[..|log'| - 3]), false, pr); }
  }
}
