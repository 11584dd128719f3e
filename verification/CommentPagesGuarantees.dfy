/** What a page-by-page read brings back. */
module CommentPagesGuarantees {
  import opened Prelude
  import opened GitHub
  import opened Snapshots
  import opened CommentPages

  // ---- one pull request state for every page ----

  /* The page reported a branch as base, and just these refs. */
  predicate Reports(refs: Refs, headSHA: string, baseSHA: string, baseRefName: string, policyBaseSHA: string) {
    && refs.headOid == headSHA && refs.baseOid == baseSHA && refs.baseRefName == baseRefName != "" && refs.baseRef.Some?
    && var branch := refs.baseRef.value;
       && branch.name == baseRefName && branch.prefix == "refs/heads/" && branch.typeName == "Commit"
       && branch.oid == policyBaseSHA != ""
  }

  ghost predicate Pinned<N, I>(visits: seq<Visit<N, I>>, pins: Pins) {
    forall v :: v in visits ==> Reports(v.page.refs, pins.headSHA, pins.baseSHA, pins.baseRefName, pins.policyBaseSHA)
  }

  ghost predicate AllReport<N, I>(visits: seq<Visit<N, I>>, s: Snapshot) {
    forall v :: v in visits ==> Reports(v.page.refs, s.headSHA, s.baseSHA, s.baseRefName, s.policyBaseSHA)
  }

  lemma {:induction false} WalkIsPinned<N>(ask: (nat, Option<string>) -> Fallible<Page<N>>, patience: nat, cursor: Option<string>,
                                           pins: Pins, n: nat)
    requires Walk(ask, patience, cursor, pins, n).Done?
    ensures Pinned(Walk(ask, patience, cursor, pins, n).value, pins)
    decreases patience - n
  {
    var page := ask(n, cursor).value;
    if NextCursor(page.info).From? {
      WalkIsPinned(ask, patience, Some(NextCursor(page.info).cursor), pins, n + 1);
    }
  }

  lemma {:induction false} ThreadsArePinned(s: Server, withBodies: bool, cursor: Option<string>, pins: Option<Pins>, n: nat)
    requires WalkThreads(s, withBodies, cursor, pins, n).Done?
    ensures var visits := WalkThreads(s, withBodies, cursor, pins, n).value;
            Pinned(visits, PinsOf(visits[0].page.refs)) && (pins.Some? ==> pins.value == PinsOf(visits[0].page.refs))
    decreases s.patience - n
  {
    hide Wholes;
    var page := s.threads(n, withBodies, cursor).value;
    var next := NextCursor(page.info);
    if next.From? {
      ThreadsArePinned(s, withBodies, Some(next.cursor), Some(SetRefs(pins, page.refs).value),
                       Wholes(s, withBodies, page.nodes, n + 1).n);
    }
  }

  /** Every page a successful read visited reported the very refs the snapshot carries, its policy commit being the tip of
      the base branch, whatever the server did in between. */
  lemma EveryPageShowsTheSameRefs(s: Server, withBodies: bool, pr: int)
    requires SnapshotReply(s, withBodies, pr).Fetched?
    ensures Visits(s, withBodies, pr).Done?
    ensures var w, snapshot := Visits(s, withBodies, pr).value, SnapshotReply(s, withBodies, pr).snapshot;
            |w.threads| > 0 && AllReport(w.threads, snapshot) && AllReport(w.reviews, snapshot) && AllReport(w.comments, snapshot)
  {
    hide WalkThreads, Walk;
    ThreadsArePinned(s, withBodies, None, None, 0);
    var threads := WalkThreads(s, withBodies, None, None, 0);
    var pins := PinsOf(threads.value[0].page.refs);
    WalkIsPinned(AskReviews(s, withBodies), s.patience, None, pins, threads.n);
    var reviews := Walk(AskReviews(s, withBodies), s.patience, None, pins, threads.n);
    WalkIsPinned(AskComments(s, withBodies), s.patience, None, pins, reviews.n);
  }

  /** A read that stops says whether the base branch moved, was no branch, or something failed on the way. */
  lemma RefusalsMean(s: Server, withBodies: bool, pr: int)
    ensures var r := SnapshotReply(s, withBodies, pr);
            && (r.SnapshotMoved? <==> Visits(s, withBodies, pr) == Stopped(Moved))
            && (r.PolicyRefUnavailable? <==> Visits(s, withBodies, pr) == Stopped(NoPolicyRef))
            && (r.FetchFailed? <==> Visits(s, withBodies, pr).Stopped? && OnTheWay(Visits(s, withBodies, pr).error))
  {
    hide Visits;
  }

  // ---- what a comment shows ----

  /** A comment as its node has it; an ID is written in digits, and only a positive one. */
  ghost predicate ShowsNode(c: Comment, kind: Kind, n: CommentNode, withBodies: bool) {
    && c.kind == kind && c.id == (if n.databaseId > 0 then Decimal(n.databaseId) else "")
    && c.author == n.login && c.authorType == n.typeName && c.url == n.url && c.createdAt == n.createdAt
    && c.editedAt == (if n.lastEditedAt.Some? then n.lastEditedAt.value else "")
    && c.body == (if withBodies then Some(n.body) else None)
  }

  ghost predicate ShowsThread(t: Thread, f: FullThread, withBodies: bool) {
    && t.id == f.node.id && t.path == f.node.path && t.line == f.node.line
    && t.isResolved == f.node.isResolved && t.isOutdated == f.node.isOutdated
    && |t.comments| == |f.comments|
    && forall k :: 0 <= k < |f.comments| ==> ShowsNode(t.comments[k], ThreadComment, f.comments[k], withBodies)
  }

  /** A successful read shows every node on the pages visited, in order, each field as the server gave it. */
  lemma SnapshotShowsItsNodes(s: Server, withBodies: bool, pr: int)
    requires SnapshotReply(s, withBodies, pr).Fetched?
    ensures Visits(s, withBodies, pr).Done?
    ensures var w, snapshot := Visits(s, withBodies, pr).value, SnapshotReply(s, withBodies, pr).snapshot;
            var threads, reviews, comments := Items(w.threads), Items(w.reviews), Items(w.comments);
            && |snapshot.threads| == |threads| && |snapshot.reviews| == |reviews| && |snapshot.issueComments| == |comments|
            && (forall k :: 0 <= k < |threads| ==> ShowsThread(snapshot.threads[k], threads[k], withBodies))
            && (forall k :: 0 <= k < |reviews| ==>
                  ShowsNode(snapshot.reviews[k], ReviewBody, reviews[k].core, withBodies) && snapshot.reviews[k].state == reviews[k].state)
            && forall k :: 0 <= k < |comments| ==> ShowsNode(snapshot.issueComments[k], IssueComment, comments[k], withBodies)
  {
    hide Visits, Items, Decimal;
  }

  // ---- the chain of cursors ----

  /** Each page is the server's answer to the cursor the page before it ended with; only the last page has no
      next one. */
  ghost predicate Chained<N, I>(visits: seq<Visit<N, I>>, ask: (nat, Option<string>) -> Fallible<Page<N>>, cursor: Option<string>) {
    && |visits| > 0 && visits[0].cursor == cursor
    && (forall i :: 0 <= i < |visits| ==> ask(visits[i].n, visits[i].cursor) == Ok(visits[i].page))
    && (forall i :: 0 <= i < |visits| - 1 ==>
          visits[i].page.info.hasNext && visits[i + 1].cursor == Some(visits[i].page.info.endCursor)
          && visits[i].n < visits[i + 1].n)
    && !visits[|visits| - 1].page.info.hasNext
  }

  lemma ChainGrows<N, I>(v: Visit<N, I>, rest: seq<Visit<N, I>>, ask: (nat, Option<string>) -> Fallible<Page<N>>)
    requires NextCursor(v.page.info).From? && Chained(rest, ask, Some(NextCursor(v.page.info).cursor))
    requires v.n < rest[0].n && ask(v.n, v.cursor) == Ok(v.page)
    ensures Chained([v] + rest, ask, v.cursor)
  {
    var visits := [v] + rest;
    forall i | 0 <= i < |visits| - 1
      ensures visits[i].page.info.hasNext && visits[i + 1].cursor == Some(visits[i].page.info.endCursor) && visits[i].n < visits[i + 1].n
    {
      if i > 0 { assert visits[i] == rest[i - 1] && visits[i + 1] == rest[i]; }
    }
  }

  lemma {:induction false} WalkIsChained<N>(ask: (nat, Option<string>) -> Fallible<Page<N>>, patience: nat, cursor: Option<string>,
                                            pins: Pins, n: nat)
    requires Walk(ask, patience, cursor, pins, n).Done?
    ensures var visits := Walk(ask, patience, cursor, pins, n).value;
            && Chained(visits, ask, cursor) && visits[0].n == n
            && forall v :: v in visits ==> v.items == v.page.nodes
    decreases patience - n
  {
    hide Chained;
    var page := ask(n, cursor).value;
    var next := NextCursor(page.info);
    var visit := Visit(n, cursor, page, page.nodes);
    if next.From? {
      WalkIsChained(ask, patience, Some(next.cursor), pins, n + 1);
      ChainGrows(visit, Walk(ask, patience, Some(next.cursor), pins, n + 1).value, ask);
    } else {
      ChainOfOne(visit, ask);
    }
  }

  lemma ChainOfOne<N, I>(v: Visit<N, I>, ask: (nat, Option<string>) -> Fallible<Page<N>>)
    requires NextCursor(v.page.info).Last? && ask(v.n, v.cursor) == Ok(v.page)
    ensures Chained([v], ask, v.cursor)
  {
  }

  function AskThreads(s: Server, withBodies: bool): (nat, Option<string>) -> Fallible<Page<ThreadNode>> {
    (n: nat, cursor: Option<string>) => s.threads(n, withBodies, cursor)
  }

  /* The threads of a page are its nodes, each with all its comments. */
  ghost predicate Completes(s: Server, withBodies: bool, visits: seq<Visit<ThreadNode, FullThread>>) {
    forall v :: v in visits ==> exists m: nat :: m > v.n && Wholes(s, withBodies, v.page.nodes, m).Done?
                                  && Wholes(s, withBodies, v.page.nodes, m).value == v.items
  }

  lemma {:induction false} ThreadsAreChained(s: Server, withBodies: bool, cursor: Option<string>, pins: Option<Pins>, n: nat)
    requires WalkThreads(s, withBodies, cursor, pins, n).Done?
    ensures var visits := WalkThreads(s, withBodies, cursor, pins, n).value;
            Chained(visits, AskThreads(s, withBodies), cursor) && visits[0].n == n && Completes(s, withBodies, visits)
    decreases s.patience - n
  {
    hide Chained, Wholes, SetRefs;
    var page := s.threads(n, withBodies, cursor).value;
    var next := NextCursor(page.info);
    var wholes := Wholes(s, withBodies, page.nodes, n + 1);
    var visit := Visit(n, cursor, page, wholes.value);
    if next.From? {
      var pinned := SetRefs(pins, page.refs).value;
      ThreadsAreChained(s, withBodies, Some(next.cursor), Some(pinned), wholes.n);
      ChainGrows(visit, WalkThreads(s, withBodies, Some(next.cursor), Some(pinned), wholes.n).value, AskThreads(s, withBodies));
    } else {
      ChainOfOne(visit, AskThreads(s, withBodies));
    }
  }

  /** A successful read follows the cursors from the first page to the last in each of the three lists. */
  lemma ReadFollowsTheCursors(s: Server, withBodies: bool, pr: int)
    requires Visits(s, withBodies, pr).Done?
    ensures var w := Visits(s, withBodies, pr).value;
            && Chained(w.threads, AskThreads(s, withBodies), None) && Completes(s, withBodies, w.threads)
            && Chained(w.reviews, AskReviews(s, withBodies), None) && (forall v :: v in w.reviews ==> v.items == v.page.nodes)
            && Chained(w.comments, AskComments(s, withBodies), None) && (forall v :: v in w.comments ==> v.items == v.page.nodes)
  {
    hide WalkThreads, Walk, Chained, Completes;
    ThreadsAreChained(s, withBodies, None, None, 0);
    var threads := WalkThreads(s, withBodies, None, None, 0);
    var pins := PinsOf(threads.value[0].page.refs);
    WalkIsChained(AskReviews(s, withBodies), s.patience, None, pins, threads.n);
    var reviews := Walk(AskReviews(s, withBodies), s.patience, None, pins, threads.n);
    WalkIsChained(AskComments(s, withBodies), s.patience, None, pins, reviews.n);
  }

  // ---- page boundaries ----

  /* A page that starts at `start` of the contents and says where it ends. */
  ghost predicate IsCut<N>(nodes: seq<N>, info: PageInfo, content: seq<N>, start: nat, place: string -> nat) {
    && start + |nodes| <= |content| && nodes == content[start..start + |nodes|]
    && (if info.hasNext then place(info.endCursor) == start + |nodes| else start + |nodes| == |content|)
  }

  ghost function Start(cursor: Option<string>, place: string -> nat): nat {
    match cursor
    case None => 0
    case Some(c) => place(c)
  }

  ghost predicate Cuts<N(!new)>(ask: (nat, Option<string>) -> Fallible<Page<N>>, content: seq<N>, place: string -> nat) {
    forall n, cursor :: ask(n, cursor).Ok? ==>
      IsCut(ask(n, cursor).value.nodes, ask(n, cursor).value.info, content, Start(cursor, place), place)
  }

  lemma {:induction false} WalkReadsTheRest<N(!new)>(ask: (nat, Option<string>) -> Fallible<Page<N>>, patience: nat, cursor: Option<string>,
                                               pins: Pins, n: nat, content: seq<N>, place: string -> nat)
    requires Walk(ask, patience, cursor, pins, n).Done? && Cuts(ask, content, place)
    ensures Start(cursor, place) <= |content|
    ensures Items(Walk(ask, patience, cursor, pins, n).value) == content[Start(cursor, place)..]
    decreases patience - n
  {
    var page := ask(n, cursor).value;
    var next := NextCursor(page.info);
    assert IsCut(page.nodes, page.info, content, Start(cursor, place), place);
    if next.From? {
      WalkReadsTheRest(ask, patience, Some(next.cursor), pins, n + 1, content, place);
    }
  }

  /** A review thread with all its comments. */
  datatype PRThread = PRThread(
    id: string, path: string, line: Option<int>, isResolved: bool, isOutdated: bool, comments: seq<CommentNode>)

  datatype Content = Content(threads: seq<PRThread>, reviews: seq<ReviewNode>, comments: seq<CommentNode>)

  /* Where in its list each cursor stands. */
  datatype Places = Places(threads: string -> nat, inThread: (string, string) -> nat, reviews: string -> nat, comments: string -> nat)

  ghost function PlaceIn(p: Places, id: string): string -> nat { (c: string) => p.inThread(id, c) }

  /* A thread as a page shows it: all of it, with a first cut of its comments. */
  ghost predicate Shows(node: ThreadNode, t: PRThread, p: Places) {
    && node.id == t.id && node.path == t.path && node.line == t.line
    && node.isResolved == t.isResolved && node.isOutdated == t.isOutdated
    && IsCut(node.first.nodes, node.first.info, t.comments, 0, PlaceIn(p, t.id))
  }

  ghost predicate ShowsAll(nodes: seq<ThreadNode>, threads: seq<PRThread>, p: Places) {
    |nodes| == |threads| && forall i :: 0 <= i < |nodes| ==> Shows(nodes[i], threads[i], p)
  }

  ghost predicate CutsThreads(s: Server, withBodies: bool, threads: seq<PRThread>, p: Places) {
    forall n, cursor :: s.threads(n, withBodies, cursor).Ok? ==>
      var page := s.threads(n, withBodies, cursor).value;
      var start := Start(cursor, p.threads);
      && start + |page.nodes| <= |threads| && ShowsAll(page.nodes, threads[start..start + |page.nodes|], p)
      && if page.info.hasNext then p.threads(page.info.endCursor) == start + |page.nodes| else start + |page.nodes| == |threads|
  }

  ghost predicate CutsThread(s: Server, withBodies: bool, t: PRThread, p: Places) {
    forall n, cursor :: s.more(n, withBodies, t.id, cursor).Ok? ==>
      IsCut(s.more(n, withBodies, t.id, cursor).value.nodes, s.more(n, withBodies, t.id, cursor).value.info, t.comments,
            p.inThread(t.id, cursor), PlaceIn(p, t.id))
  }

  /** The server's contents stay the same; where its pages end, and which queries fail, is up to it. */
  ghost predicate Serves(s: Server, withBodies: bool, content: Content, p: Places) {
    && CutsThreads(s, withBodies, content.threads, p)
    && (forall t :: t in content.threads ==> CutsThread(s, withBodies, t, p))
    && Cuts(AskReviews(s, withBodies), content.reviews, p.reviews)
    && Cuts(AskComments(s, withBodies), content.comments, p.comments)
  }

  lemma {:induction false} MoreReadsTheRest(s: Server, withBodies: bool, t: PRThread, p: Places, next: Next, n: nat, start: nat)
    requires CutsThread(s, withBodies, t, p) && More(s, withBodies, t.id, next, n).Done?
    requires match next case Last => start == |t.comments| case From(c) => start == p.inThread(t.id, c) case Broken => true
    ensures start <= |t.comments| && More(s, withBodies, t.id, next, n).value == t.comments[start..]
    decreases s.patience - n
  {
    if next.From? {
      var page := s.more(n, withBodies, t.id, next.cursor).value;
      assert IsCut(page.nodes, page.info, t.comments, p.inThread(t.id, next.cursor), PlaceIn(p, t.id));
      MoreReadsTheRest(s, withBodies, t, p, NextCursor(page.info), n + 1, start + |page.nodes|);
    }
  }

  lemma WholeIsTheThread(s: Server, withBodies: bool, node: ThreadNode, t: PRThread, p: Places, n: nat)
    requires CutsThread(s, withBodies, t, p) && Shows(node, t, p) && Whole(s, withBodies, node, n).Done?
    ensures Whole(s, withBodies, node, n).value == t.comments
  {
    hide More, CutsThread;
    MoreReadsTheRest(s, withBodies, t, p, NextCursor(node.first.info), n, |node.first.nodes|);
  }

  function Complete(t: PRThread, withBodies: bool): Thread {
    Thread(t.id, t.path, t.line, t.isResolved, t.isOutdated, ToComments(ThreadComment, t.comments, withBodies))
  }

  ghost predicate AreComplete(fulls: seq<FullThread>, threads: seq<PRThread>, withBodies: bool) {
    ToThreads(fulls, withBodies) == Map((t: PRThread) => Complete(t, withBodies), threads)
  }

  lemma {:induction false} WholesAreTheThreads(s: Server, withBodies: bool, nodes: seq<ThreadNode>, threads: seq<PRThread>, p: Places, n: nat)
    requires ShowsAll(nodes, threads, p) && Wholes(s, withBodies, nodes, n).Done?
    requires forall t :: t in threads ==> CutsThread(s, withBodies, t, p)
    ensures AreComplete(Wholes(s, withBodies, nodes, n).value, threads, withBodies)
  {
    hide CutsThread, Whole, Shows;
    if |nodes| > 0 {
      assert Shows(nodes[0], threads[0], p);
      WholeIsTheThread(s, withBodies, nodes[0], threads[0], p, n);
      var first := Whole(s, withBodies, nodes[0], n);
      WholesAreTheThreads(s, withBodies, nodes[1..], threads[1..], p, first.n);
      FirstComplete(nodes[0], threads[0], first.value, p, withBodies);
      CompletesAppend([FullThread(nodes[0], first.value)], Wholes(s, withBodies, nodes[1..], first.n).value,
                      [threads[0]], threads[1..], withBodies);
      assert [threads[0]] + threads[1..] == threads;
    }
  }

  lemma FirstComplete(node: ThreadNode, t: PRThread, comments: seq<CommentNode>, p: Places, withBodies: bool)
    requires Shows(node, t, p) && comments == t.comments
    ensures AreComplete([FullThread(node, comments)], [t], withBodies)
  {
  }

  lemma CompletesAppend(a: seq<FullThread>, b: seq<FullThread>, x: seq<PRThread>, y: seq<PRThread>, withBodies: bool)
    requires AreComplete(a, x, withBodies) && AreComplete(b, y, withBodies)
    ensures AreComplete(a + b, x + y, withBodies)
  {
    ThreadsAppend(a, b, withBodies);
    assert Map((t: PRThread) => Complete(t, withBodies), x + y)
        == Map((t: PRThread) => Complete(t, withBodies), x) + Map((t: PRThread) => Complete(t, withBodies), y);
  }

  lemma {:induction false} ThreadsReadTheRest(s: Server, withBodies: bool, cursor: Option<string>, pins: Option<Pins>, n: nat,
                                              threads: seq<PRThread>, p: Places)
    requires WalkThreads(s, withBodies, cursor, pins, n).Done? && CutsThreads(s, withBodies, threads, p)
    requires forall t :: t in threads ==> CutsThread(s, withBodies, t, p)
    ensures Start(cursor, p.threads) <= |threads|
    ensures AreComplete(Items(WalkThreads(s, withBodies, cursor, pins, n).value), threads[Start(cursor, p.threads)..], withBodies)
    decreases s.patience - n
  {
    hide CutsThread, Wholes, SetRefs, ShowsAll, AreComplete, Items;
    var page := s.threads(n, withBodies, cursor).value;
    var next := NextCursor(page.info);
    var start := Start(cursor, p.threads);
    var cut := threads[start..start + |page.nodes|];
    var fulls := Wholes(s, withBodies, page.nodes, n + 1);
    WholesAreTheThreads(s, withBodies, page.nodes, cut, p, n + 1);
    var visit := Visit(n, cursor, page, fulls.value);
    if next.From? {
      var pinned := SetRefs(pins, page.refs).value;
      var rest := WalkThreads(s, withBodies, Some(next.cursor), Some(pinned), fulls.n);
      ThreadsReadTheRest(s, withBodies, Some(next.cursor), Some(pinned), fulls.n, threads, p);
      CompletesAppend(fulls.value, Items(rest.value), cut, threads[start + |page.nodes|..], withBodies);
      CutAndRest(threads, start, |page.nodes|);
      ItemsOf(visit, rest.value);
    } else {
      CutAndRest(threads, start, |page.nodes|);
      ItemsOf(visit, []);
    }
  }

  lemma CutAndRest<T>(xs: seq<T>, start: nat, size: nat)
    requires start + size <= |xs|
    ensures xs[start..start + size] + xs[start + size..] == xs[start..]
    ensures start + size == |xs| ==> xs[start..start + size] == xs[start..]
  {
  }

  lemma ItemsOf<N, I>(visit: Visit<N, I>, rest: seq<Visit<N, I>>)
    ensures Items([visit] + rest) == visit.items + Items(rest)
    ensures Items([visit]) == visit.items
  {
    assert ([visit] + rest)[1..] == rest;
  }

  /** Whatever pages the server cuts a pull request into, a read that succeeds brings back all of it, in
      order: the same snapshot for every pagination. */
  lemma PageBoundariesDoNotMatter(s: Server, withBodies: bool, pr: int, content: Content, p: Places, pins: Pins)
    requires Serves(s, withBodies, content, p) && Visits(s, withBodies, pr).Done?
    ensures Assembled(Visits(s, withBodies, pr).value, pins, withBodies) ==
            Snapshot(pins.headSHA, pins.baseSHA, pins.baseRefName, pins.policyBaseSHA,
                     Map((t: PRThread) => Complete(t, withBodies), content.threads),
                     ToReviews(content.reviews, withBodies), ToComments(IssueComment, content.comments, withBodies))
  {
    hide WalkThreads, Walk, Cuts, CutsThread, CutsThreads;
    ThreadsReadTheRest(s, withBodies, None, None, 0, content.threads, p);
    var threads := WalkThreads(s, withBodies, None, None, 0);
    var pinned := PinsOf(threads.value[0].page.refs);
    WalkReadsTheRest(AskReviews(s, withBodies), s.patience, None, pinned, threads.n, content.reviews, p.reviews);
    var reviews := Walk(AskReviews(s, withBodies), s.patience, None, pinned, threads.n);
    WalkReadsTheRest(AskComments(s, withBodies), s.patience, None, pinned, reviews.n, content.comments, p.comments);
    assert content.threads[0..] == content.threads && content.reviews[0..] == content.reviews
        && content.comments[0..] == content.comments;
  }

  // ---- text and refs ----

  lemma {:induction false} ThreadTexts(threads: seq<Thread>, withBodies: bool)
    requires forall t, c :: t in threads && c in t.comments ==> (c.body.Some? <==> withBodies)
    ensures forall l :: l in ThreadComments(threads) ==> (l.comment.body.Some? <==> withBodies)
  {
    if |threads| > 0 {
      ThreadTexts(threads[1..], withBodies);
    }
  }

  /** A comment of the snapshot carries its text exactly when the read asked for bodies. */
  lemma TextExactlyWhenAskedFor(w: Walks, pins: Pins, withBodies: bool, l: Located)
    requires l in AllComments(Assembled(w, pins, withBodies))
    ensures l.comment.body.Some? <==> withBodies
  {
    var snapshot := Assembled(w, pins, withBodies);
    ThreadTexts(snapshot.threads, withBodies);
  }

  // ---- what the fingerprint can rely on ----

  predicate CleanText(s: string) { '|' !in s && '\n' !in s }

  /* What GitHub names freely about a comment. */
  predicate CleanNode(n: CommentNode) { CleanText(n.login) && CleanText(n.typeName) && CleanText(n.lastEditedAt.GetOr("")) }

  ghost predicate CleanComment(c: Comment) {
    CleanText(c.id) && CleanText(c.author) && CleanText(c.authorType) && CleanText(c.editedAt)
  }

  lemma CommentIsClean(kind: Kind, n: CommentNode, withBodies: bool)
    requires CleanNode(n)
    ensures CleanComment(ToComment(kind, n, withBodies))
  {
    hide Decimal;
    if n.databaseId > 0 { PositiveIsDigits(n.databaseId); }
  }

  lemma PositiveIsDigits(n: int)
    requires n > 0
    ensures forall c :: c in Decimal(n) ==> IsDigit(c)
  {
  }

  lemma CleanLocated(c: Comment, threadId: string)
    requires CleanComment(c) && CleanText(threadId)
    ensures CleanKey(KeyOf(Located(c, threadId)))
  {
    hide KindName;
    KindNameInjective(c.kind, c.kind);
  }

  ghost predicate CleanThread(t: Thread) {
    CleanText(t.id) && forall c :: c in t.comments ==> CleanComment(c)
  }

  lemma {:induction false} ThreadKeysAreClean(threads: seq<Thread>)
    requires forall t :: t in threads ==> CleanThread(t)
    ensures forall l :: l in ThreadComments(threads) ==> CleanKey(KeyOf(l))
  {
    hide CleanComment, CleanText, CleanKey, KeyOf;
    if |threads| > 0 {
      ThreadKeysAreClean(threads[1..]);
      assert CleanThread(threads[0]);
      forall c | c in threads[0].comments ensures CleanKey(KeyOf(Located(c, threads[0].id))) { CleanLocated(c, threads[0].id); }
    }
  }

  ghost predicate CleanFull(f: FullThread) {
    CleanText(f.node.id) && forall n :: n in f.comments ==> CleanNode(n)
  }

  lemma FullThreadIsClean(f: FullThread, withBodies: bool)
    requires CleanFull(f)
    ensures CleanThread(ToThread(f.node, f.comments, withBodies))
  {
    hide CleanNode, CleanComment, CleanText, ToComment;
    var t := ToThread(f.node, f.comments, withBodies);
    forall k | 0 <= k < |t.comments| ensures CleanComment(t.comments[k]) {
      assert f.comments[k] in f.comments;
      CommentIsClean(ThreadComment, f.comments[k], withBodies);
    }
  }

  /** The adapter writes IDs in digits, so the fingerprint of what it assembles is exact as soon as refs are
      single lines and logins, type names, thread IDs and formatted times hold no separator. */
  lemma AssembledIsClean(w: Walks, pins: Pins, withBodies: bool)
    requires '\n' !in pins.headSHA && '\n' !in pins.baseSHA && '\n' !in pins.baseRefName && '\n' !in pins.policyBaseSHA
    requires forall f :: f in Items(w.threads) ==> CleanFull(f)
    requires forall n :: n in Items(w.reviews) ==> CleanNode(n.core)
    requires forall n :: n in Items(w.comments) ==> CleanNode(n)
    ensures Clean(Assembled(w, pins, withBodies))
  {
    hide CleanNode, CleanComment, CleanText, CleanKey, KeyOf, ToComment, Items, CleanThread, CleanFull, ToThread;
    var s := Assembled(w, pins, withBodies);
    forall k | 0 <= k < |s.threads| ensures CleanThread(s.threads[k]) {
      assert Items(w.threads)[k] in Items(w.threads);
      FullThreadIsClean(Items(w.threads)[k], withBodies);
    }
    ThreadKeysAreClean(s.threads);
    EmptyThread();
    forall k | 0 <= k < |s.reviews| ensures CleanKey(KeyOf(Located(s.reviews[k], ""))) {
      assert Items(w.reviews)[k] in Items(w.reviews);
      CommentIsClean(ReviewBody, Items(w.reviews)[k].core, withBodies);
      StateIsNoKey(Items(w.reviews)[k], withBodies);
      CleanLocated(s.reviews[k], "");
    }
    forall k | 0 <= k < |s.issueComments| ensures CleanKey(KeyOf(Located(s.issueComments[k], ""))) {
      assert Items(w.comments)[k] in Items(w.comments);
      CommentIsClean(IssueComment, Items(w.comments)[k], withBodies);
      CleanLocated(s.issueComments[k], "");
    }
  }

  lemma EmptyThread()
    ensures CleanText("")
  {
  }

  lemma StateIsNoKey(n: ReviewNode, withBodies: bool)
    ensures CleanComment(ToComment(ReviewBody, n.core, withBodies)) ==> CleanComment(ToReview(n, withBodies))
  {
  }

  predicate OnTheWay(e: Error) { e == RequestFailed || e == EmptyCursor }

  lemma {:induction false} MoreStops(s: Server, withBodies: bool, id: string, next: Next, n: nat)
    ensures More(s, withBodies, id, next, n).Stopped? ==> OnTheWay(More(s, withBodies, id, next, n).error)
    decreases s.patience - n
  {
    if next.From? && n < s.patience && s.more(n, withBodies, id, next.cursor).Ok? {
      MoreStops(s, withBodies, id, NextCursor(s.more(n, withBodies, id, next.cursor).value.info), n + 1);
    }
  }

  lemma {:induction false} WholesStop(s: Server, withBodies: bool, nodes: seq<ThreadNode>, n: nat)
    ensures Wholes(s, withBodies, nodes, n).Stopped? ==> OnTheWay(Wholes(s, withBodies, nodes, n).error)
  {
    if |nodes| > 0 {
      MoreStops(s, withBodies, nodes[0].id, NextCursor(nodes[0].first.info), n);
      var first := Whole(s, withBodies, nodes[0], n);
      if first.Done? { WholesStop(s, withBodies, nodes[1..], first.n); }
    }
  }

  ghost predicate Steady<N(!new)>(ask: (nat, Option<string>) -> Fallible<Page<N>>, refs: Refs) {
    forall n, cursor :: ask(n, cursor).Ok? ==> ask(n, cursor).value.refs == refs
  }

  lemma {:induction false} SteadyThreads(s: Server, withBodies: bool, cursor: Option<string>, pins: Option<Pins>, n: nat, refs: Refs)
    requires Usable(refs) && Steady(AskThreads(s, withBodies), refs) && (pins.Some? ==> pins.value == PinsOf(refs))
    ensures var r := WalkThreads(s, withBodies, cursor, pins, n);
            if r.Stopped? then OnTheWay(r.error) else PinsOf(r.value[0].page.refs) == PinsOf(refs)
    decreases s.patience - n
  {
    hide Wholes;
    if n < s.patience && s.threads(n, withBodies, cursor).Ok? {
      var page := s.threads(n, withBodies, cursor).value;
      assert AskThreads(s, withBodies)(n, cursor).Ok?;
      WholesStop(s, withBodies, page.nodes, n + 1);
      var wholes := Wholes(s, withBodies, page.nodes, n + 1);
      if wholes.Done? && NextCursor(page.info).From? {
        SteadyThreads(s, withBodies, Some(NextCursor(page.info).cursor), Some(PinsOf(refs)), wholes.n, refs);
      }
    }
  }

  lemma {:induction false} SteadyWalk<N(!new)>(ask: (nat, Option<string>) -> Fallible<Page<N>>, patience: nat, cursor: Option<string>,
                                               n: nat, refs: Refs)
    requires Usable(refs) && Steady(ask, refs)
    ensures Walk(ask, patience, cursor, PinsOf(refs), n).Stopped? ==> OnTheWay(Walk(ask, patience, cursor, PinsOf(refs), n).error)
    decreases patience - n
  {
    if n < patience && ask(n, cursor).Ok? && NextCursor(ask(n, cursor).value.info).From? {
      SteadyWalk(ask, patience, Some(NextCursor(ask(n, cursor).value.info).cursor), n + 1, refs);
    }
  }

  /** While every page reports the same usable refs, a read never gives up on them. */
  lemma SteadyRefsNeverMove(s: Server, withBodies: bool, pr: int, refs: Refs)
    requires Usable(refs)
    requires Steady(AskThreads(s, withBodies), refs) && Steady(AskReviews(s, withBodies), refs) && Steady(AskComments(s, withBodies), refs)
    ensures Visits(s, withBodies, pr).Stopped? ==> OnTheWay(Visits(s, withBodies, pr).error)
  {
    hide WalkThreads, Walk, Steady;
    SteadyThreads(s, withBodies, None, None, 0, refs);
    var threads := WalkThreads(s, withBodies, None, None, 0);
    if threads.Done? {
      SteadyWalk(AskReviews(s, withBodies), s.patience, None, threads.n, refs);
      var reviews := Walk(AskReviews(s, withBodies), s.patience, None, PinsOf(refs), threads.n);
      if reviews.Done? {
        SteadyWalk(AskComments(s, withBodies), s.patience, None, reviews.n, refs);
      }
    }
  }
}
