/** Reading every comment of a pull request page by page: review threads with the rest of their comments,
    review bodies, issue comments. The server may answer each query as it likes and change in between. */
module CommentPages {
  import opened Prelude
  import opened GitHub
  import opened Snapshots

  datatype PageInfo = PageInfo(hasNext: bool, endCursor: string)

  datatype BaseRef = BaseRef(name: string, prefix: string, typeName: string, oid: string)

  datatype Refs = Refs(headOid: string, baseOid: string, baseRefName: string, baseRef: Option<BaseRef>)

  /* Times are already formatted; no login means GitHub reported no author. */
  datatype CommentNode = CommentNode(
    databaseId: int, url: string, createdAt: string, lastEditedAt: Option<string>, body: string, login: string, typeName: string)

  datatype ReviewNode = ReviewNode(core: CommentNode, state: string)

  datatype CommentPage = CommentPage(nodes: seq<CommentNode>, info: PageInfo)

  datatype ThreadNode = ThreadNode(
    id: string, path: string, line: Option<int>, isResolved: bool, isOutdated: bool, first: CommentPage)

  datatype Page<N> = Page(refs: Refs, nodes: seq<N>, info: PageInfo)

  /** The n-th query of a read, whether it asks for bodies, and the cursor it asks from. From the query
      number `patience` on the caller's deadline has passed and every query fails. */
  datatype Server = Server(
    threads: (nat, bool, Option<string>) -> Fallible<Page<ThreadNode>>,
    more: (nat, bool, string, string) -> Fallible<CommentPage>,
    reviews: (nat, bool, Option<string>) -> Fallible<Page<ReviewNode>>,
    comments: (nat, bool, Option<string>) -> Fallible<Page<CommentNode>>,
    patience: nat)

  datatype Error = RequestFailed | EmptyCursor | NoPolicyRef | Moved

  /* What a part of the read comes to, and the number of the next query. */
  datatype Outcome<+T> = Done(value: T, n: nat) | Stopped(error: Error)

  // ---- one page ----

  datatype Next = Last | From(cursor: string) | Broken

  /* nextCursor. */
  function NextCursor(info: PageInfo): Next {
    if !info.hasNext then Last else if info.endCursor == "" then Broken else From(info.endCursor)
  }

  datatype Pins = Pins(headSHA: string, baseSHA: string, baseRefName: string, policyBaseSHA: string)

  /** The base branch is a branch that points at a commit, under its own name. */
  predicate Usable(refs: Refs) {
    && refs.baseRef.Some? && refs.baseRefName != "" && refs.baseRef.value.name == refs.baseRefName
    && refs.baseRef.value.prefix == "refs/heads/" && refs.baseRef.value.typeName == "Commit" && refs.baseRef.value.oid != ""
  }

  function PinsOf(refs: Refs): Pins
    requires Usable(refs)
  {
    Pins(refs.headOid, refs.baseOid, refs.baseRefName, refs.baseRef.value.oid)
  }

  /* setRefs: the first page pins the refs, later pages have to repeat them. */
  function SetRefs(pins: Option<Pins>, refs: Refs): (r: Outcome<Pins>)
    ensures r == Stopped(NoPolicyRef) <==>
            !(&& refs.baseRef.Some? && refs.baseRefName != "" && refs.baseRef.value.name == refs.baseRefName
              && refs.baseRef.value.prefix == "refs/heads/" && refs.baseRef.value.typeName == "Commit" && refs.baseRef.value.oid != "")
    ensures r == Stopped(Moved) <==>
            && r != Stopped(NoPolicyRef) && pins.Some?
            && !(&& refs.headOid == pins.value.headSHA && refs.baseOid == pins.value.baseSHA
                 && refs.baseRefName == pins.value.baseRefName && refs.baseRef.value.oid == pins.value.policyBaseSHA)
    ensures r.Done? <==> r != Stopped(NoPolicyRef) && r != Stopped(Moved)
    ensures r.Done? ==> && r.value.headSHA == refs.headOid && r.value.baseSHA == refs.baseOid
                        && r.value.baseRefName == refs.baseRefName && r.value.policyBaseSHA == refs.baseRef.value.oid
    ensures r.Done? ==> Usable(refs) && r.value == PinsOf(refs)
  {
    if !Usable(refs) then Stopped(NoPolicyRef)
    else if pins.Some? && pins.value != PinsOf(refs) then Stopped(Moved)
    else Done(PinsOf(refs), 0)
  }

  function CommentId(databaseId: int): string { if databaseId <= 0 then "" else Decimal(databaseId) }

  function ToComment(kind: Kind, node: CommentNode, withBodies: bool): Comment {
    Comment(kind, CommentId(node.databaseId), node.login, node.typeName, node.url, node.createdAt,
            node.lastEditedAt.GetOr(""), "", if withBodies then Some(node.body) else None)
  }

  function ToReview(node: ReviewNode, withBodies: bool): Comment {
    ToComment(ReviewBody, node.core, withBodies).(state := node.state)
  }

  function ToComments(kind: Kind, nodes: seq<CommentNode>, withBodies: bool): seq<Comment> {
    Map(node => ToComment(kind, node, withBodies), nodes)
  }

  function ToReviews(nodes: seq<ReviewNode>, withBodies: bool): seq<Comment> {
    Map(node => ToReview(node, withBodies), nodes)
  }

  function ToThread(node: ThreadNode, comments: seq<CommentNode>, withBodies: bool): Thread {
    Thread(node.id, node.path, node.line, node.isResolved, node.isOutdated, ToComments(ThreadComment, comments, withBodies))
  }

  // ---- what the loops come to: the visits, in order ----

  datatype Visit<N, I> = Visit(n: nat, cursor: Option<string>, page: Page<N>, items: seq<I>)

  function Items<N, I>(visits: seq<Visit<N, I>>): seq<I> {
    if |visits| == 0 then [] else visits[0].items + Items(visits[1..])
  }

  /* The comments of a thread from a cursor on. */
  function More(s: Server, withBodies: bool, id: string, next: Next, n: nat): (r: Outcome<seq<CommentNode>>)
    ensures r.Done? ==> r.n >= n
    decreases s.patience - n
  {
    match next
    case Last => Done([], n)
    case Broken => Stopped(EmptyCursor)
    case From(cursor) =>
      if n >= s.patience then Stopped(RequestFailed)
      else
        var reply := s.more(n, withBodies, id, cursor);
        if reply.Err? then Stopped(RequestFailed)
        else
          var rest := More(s, withBodies, id, NextCursor(reply.value.info), n + 1);
          if rest.Stopped? then rest else Done(reply.value.nodes + rest.value, rest.n)
  }

  function Whole(s: Server, withBodies: bool, node: ThreadNode, n: nat): (r: Outcome<seq<CommentNode>>)
    ensures r.Done? ==> r.n >= n
  {
    var rest := More(s, withBodies, node.id, NextCursor(node.first.info), n);
    if rest.Stopped? then rest else Done(node.first.nodes + rest.value, rest.n)
  }

  datatype FullThread = FullThread(node: ThreadNode, comments: seq<CommentNode>)

  function Wholes(s: Server, withBodies: bool, nodes: seq<ThreadNode>, n: nat): (r: Outcome<seq<FullThread>>)
    ensures r.Done? ==> r.n >= n
  {
    if |nodes| == 0 then Done([], n)
    else
      var first := Whole(s, withBodies, nodes[0], n);
      if first.Stopped? then Stopped(first.error)
      else
        var rest := Wholes(s, withBodies, nodes[1..], first.n);
        if rest.Stopped? then rest else Done([FullThread(nodes[0], first.value)] + rest.value, rest.n)
  }

  function WalkThreads(s: Server, withBodies: bool, cursor: Option<string>, pins: Option<Pins>, n: nat)
    : (r: Outcome<seq<Visit<ThreadNode, FullThread>>>)
    ensures r.Done? ==> r.n > n && |r.value| > 0 && Usable(r.value[0].page.refs)
    decreases s.patience - n
  {
    if n >= s.patience then Stopped(RequestFailed)
    else
      var reply := s.threads(n, withBodies, cursor);
      if reply.Err? then Stopped(RequestFailed)
      else
        var page := reply.value;
        var pinned := SetRefs(pins, page.refs);
        if pinned.Stopped? then Stopped(pinned.error)
        else
          var wholes := Wholes(s, withBodies, page.nodes, n + 1);
          if wholes.Stopped? then Stopped(wholes.error)
          else
            var visit := Visit(n, cursor, page, wholes.value);
            match NextCursor(page.info)
            case Broken => Stopped(EmptyCursor)
            case Last => Done([visit], wholes.n)
            case From(next) =>
              var rest := WalkThreads(s, withBodies, Some(next), Some(pinned.value), wholes.n);
              if rest.Stopped? then rest else Done([visit] + rest.value, rest.n)
  }

  /* The walk over review bodies or issue comments. */
  function Walk<N>(ask: (nat, Option<string>) -> Fallible<Page<N>>, patience: nat, cursor: Option<string>, pins: Pins, n: nat)
    : (r: Outcome<seq<Visit<N, N>>>)
    ensures r.Done? ==> r.n > n && |r.value| > 0
    decreases patience - n
  {
    if n >= patience then Stopped(RequestFailed)
    else
      var reply := ask(n, cursor);
      if reply.Err? then Stopped(RequestFailed)
      else
        var page := reply.value;
        var pinned := SetRefs(Some(pins), page.refs);
        if pinned.Stopped? then Stopped(pinned.error)
        else
          var visit := Visit(n, cursor, page, page.nodes);
          match NextCursor(page.info)
          case Broken => Stopped(EmptyCursor)
          case Last => Done([visit], n + 1)
          case From(next) =>
            var rest := Walk(ask, patience, Some(next), pins, n + 1);
            if rest.Stopped? then rest else Done([visit] + rest.value, rest.n)
  }

  function AskReviews(s: Server, withBodies: bool): (nat, Option<string>) -> Fallible<Page<ReviewNode>> {
    (n: nat, cursor: Option<string>) => s.reviews(n, withBodies, cursor)
  }

  function AskComments(s: Server, withBodies: bool): (nat, Option<string>) -> Fallible<Page<CommentNode>> {
    (n: nat, cursor: Option<string>) => s.comments(n, withBodies, cursor)
  }

  datatype Walks = Walks(
    threads: seq<Visit<ThreadNode, FullThread>>,
    reviews: seq<Visit<ReviewNode, ReviewNode>>,
    comments: seq<Visit<CommentNode, CommentNode>>)

  predicate ValidNumber(pr: int) { 0 < pr <= 0x7FFF_FFFF }

  /* Everything visited by a read that succeeds. */
  function Visits(s: Server, withBodies: bool, pr: int): (r: Outcome<Walks>)
    ensures r.Done? ==> |r.value.threads| > 0 && Usable(r.value.threads[0].page.refs)
  {
    if !ValidNumber(pr) then Stopped(RequestFailed)
    else
      var threads := WalkThreads(s, withBodies, None, None, 0);
      if threads.Stopped? then Stopped(threads.error)
      else
        var pins := PinsOf(threads.value[0].page.refs);
        var reviews := Walk(AskReviews(s, withBodies), s.patience, None, pins, threads.n);
        if reviews.Stopped? then Stopped(reviews.error)
        else
          var comments := Walk(AskComments(s, withBodies), s.patience, None, pins, reviews.n);
          if comments.Stopped? then Stopped(comments.error)
          else Done(Walks(threads.value, reviews.value, comments.value), comments.n)
  }

  function ToThreads(fulls: seq<FullThread>, withBodies: bool): seq<Thread> {
    Map((f: FullThread) => ToThread(f.node, f.comments, withBodies), fulls)
  }

  function Assembled(w: Walks, pins: Pins, withBodies: bool): Snapshot {
    Snapshot(pins.headSHA, pins.baseSHA, pins.baseRefName, pins.policyBaseSHA, ToThreads(Items(w.threads), withBodies),
             ToReviews(Items(w.reviews), withBodies), ToComments(IssueComment, Items(w.comments), withBodies))
  }

  // ---- the loops ----

  /* An outcome with what was read before it put in front. */
  ghost function After<T>(before: seq<T>, rest: Outcome<seq<T>>): Outcome<seq<T>> {
    match rest
    case Done(value, n) => Done(before + value, n)
    case Stopped(e) => Stopped(e)
  }

  lemma AfterTwice<T>(a: seq<T>, b: seq<T>, rest: Outcome<seq<T>>)
    ensures After(a, After(b, rest)) == After(a + b, rest)
    ensures After([], rest) == rest
  {
    if rest.Done? {
      assert a + (b + rest.value) == a + b + rest.value;
      assert [] + rest.value == rest.value;
    }
  }

  lemma {:induction false} ItemsAppend<N, I>(a: seq<Visit<N, I>>, b: seq<Visit<N, I>>)
    ensures Items(a + b) == Items(a) + Items(b)
  {
    hide Items;
    if |a| == 0 {
      assert a == [] && a + b == b;
      EmptyItems(a);
    } else {
      ItemsAppend(a[1..], b);
      ItemsSplit(a);
      ItemsSplit(a + b);
      assert (a + b)[0] == a[0] && (a + b)[1..] == a[1..] + b;
      Reassociate(a[0].items, Items(a[1..]), Items(b));
    }
  }

  lemma ItemsSplit<N, I>(visits: seq<Visit<N, I>>)
    requires |visits| > 0
    ensures Items(visits) == visits[0].items + Items(visits[1..])
  {
  }

  method ReadThread(s: Server, node: ThreadNode, withBodies: bool, n0: nat) returns (r: Outcome<Thread>)
    ensures match Whole(s, withBodies, node, n0)
            case Done(comments, n) => r == Done(ToThread(node, comments, withBodies), n)
            case Stopped(e) => r == Stopped(e)
  {
    var n := n0;
    ghost var nodes := node.first.nodes;
    var comments := ToComments(ThreadComment, node.first.nodes, withBodies);
    var next := NextCursor(node.first.info);
    while next.From?
      invariant Whole(s, withBodies, node, n0) == After(nodes, More(s, withBodies, node.id, next, n))
      invariant comments == ToComments(ThreadComment, nodes, withBodies)
      decreases s.patience - n
    {
      if n >= s.patience {
        return Stopped(RequestFailed);
      }
      var reply := s.more(n, withBodies, node.id, next.cursor);
      if reply.Err? {
        return Stopped(RequestFailed);
      }
      var page := reply.value;
      AfterTwice(nodes, page.nodes, More(s, withBodies, node.id, NextCursor(page.info), n + 1));
      comments := comments + ToComments(ThreadComment, page.nodes, withBodies);
      nodes := nodes + page.nodes;
      next := NextCursor(page.info);
      n := n + 1;
    }
    if next.Broken? {
      return Stopped(EmptyCursor);
    }
    assert nodes + [] == nodes;
    return Done(Thread(node.id, node.path, node.line, node.isResolved, node.isOutdated, comments), n);
  }

  /* The threads of one page, each with the rest of its comments. */
  method AddThreads(s: Server, nodes: seq<ThreadNode>, withBodies: bool, n0: nat) returns (r: Outcome<seq<Thread>>)
    ensures match Wholes(s, withBodies, nodes, n0)
            case Done(fulls, n) => r == Done(ToThreads(fulls, withBodies), n)
            case Stopped(e) => r == Stopped(e)
  {
    var threads, n: nat := [], n0;
    ghost var fulls := [];
    AfterTwice([], [], Wholes(s, withBodies, nodes, n0));
    assert nodes[0..] == nodes;
    for i := 0 to |nodes|
      invariant Wholes(s, withBodies, nodes, n0) == After(fulls, Wholes(s, withBodies, nodes[i..], n))
      invariant threads == ToThreads(fulls, withBodies)
    {
      assert nodes[i..][1..] == nodes[i + 1..];
      ghost var whole := Whole(s, withBodies, nodes[i], n);
      var thread := ReadThread(s, nodes[i], withBodies, n);
      if thread.Stopped? {
        return Stopped(thread.error);
      }
      AfterTwice(fulls, [FullThread(nodes[i], whole.value)], Wholes(s, withBodies, nodes[i + 1..], whole.n));
      fulls := fulls + [FullThread(nodes[i], whole.value)];
      threads := threads + [thread.value];
      n := thread.n;
    }
    assert fulls + [] == fulls;
    return Done(threads, n);
  }

  lemma EmptyItems<N, I>(visits: seq<Visit<N, I>>)
    requires visits == []
    ensures Items(visits) == []
    ensures forall withBodies :: ToReviews([], withBodies) == []
    ensures forall withBodies, kind :: ToComments(kind, [], withBodies) == []
    ensures forall withBodies :: ToThreads([], withBodies) == []
  {
  }

  lemma ConversionsAppend(kind: Kind, a: seq<CommentNode>, b: seq<CommentNode>, x: seq<ReviewNode>, y: seq<ReviewNode>, withBodies: bool)
    ensures ToComments(kind, a + b, withBodies) == ToComments(kind, a, withBodies) + ToComments(kind, b, withBodies)
    ensures ToReviews(x + y, withBodies) == ToReviews(x, withBodies) + ToReviews(y, withBodies)
  {
  }

  lemma ThreadsAppend(a: seq<FullThread>, b: seq<FullThread>, withBodies: bool)
    ensures ToThreads(a + b, withBodies) == ToThreads(a, withBodies) + ToThreads(b, withBodies)
  {
  }

  /* One turn of the loop over review threads, as the walk sees it. */
  lemma ThreadsTurn(s: Server, withBodies: bool, cursor: Option<string>, pins: Option<Pins>, n: nat,
                    before: seq<Visit<ThreadNode, FullThread>>)
    ensures var walk := After(before, WalkThreads(s, withBodies, cursor, pins, n));
            if n >= s.patience || s.threads(n, withBodies, cursor).Err? then walk == Stopped(RequestFailed)
            else
              var page := s.threads(n, withBodies, cursor).value;
              var pinned := SetRefs(pins, page.refs);
              var fulls := Wholes(s, withBodies, page.nodes, n + 1);
              if pinned.Stopped? then walk == Stopped(pinned.error)
              else if fulls.Stopped? then walk == Stopped(fulls.error)
              else
                var visits := before + [Visit(n, cursor, page, fulls.value)];
                Items(visits) == Items(before) + fulls.value &&
                match NextCursor(page.info)
                case Broken => walk == Stopped(EmptyCursor)
                case Last => walk == Done(visits, fulls.n)
                case From(next) =>
                  walk == After(visits, WalkThreads(s, withBodies, Some(next), Some(pinned.value), fulls.n))
  {
    hide Wholes, SetRefs;
    if n < s.patience && s.threads(n, withBodies, cursor).Ok? {
      var page := s.threads(n, withBodies, cursor).value;
      var pinned := SetRefs(pins, page.refs);
      var fulls := Wholes(s, withBodies, page.nodes, n + 1);
      if pinned.Done? && fulls.Done? {
        var visit := Visit(n, cursor, page, fulls.value);
        ItemsAppend(before, [visit]);
        if NextCursor(page.info).From? {
          AfterTwice(before, [visit],
                     WalkThreads(s, withBodies, Some(NextCursor(page.info).cursor), Some(pinned.value), fulls.n));
        }
      }
    }
  }

  /** The loop over review threads: all of them, in order, and the refs their first page pinned. */
  method ReadThreads(s: Server, withBodies: bool) returns (r: Outcome<(seq<Thread>, Pins)>)
    ensures match WalkThreads(s, withBodies, None, None, 0)
            case Done(visits, n) => r == Done((ToThreads(Items(visits), withBodies), PinsOf(visits[0].page.refs)), n)
            case Stopped(e) => r == Stopped(e)
  {
    hide WalkThreads, After, Items, ToThreads, Wholes, SetRefs, Usable, PinsOf;
    var threads: seq<Thread>, n: nat, cursor, pins := [], 0, None, None;
    ghost var visits: seq<Visit<ThreadNode, FullThread>> := [];
    ghost var all := WalkThreads(s, withBodies, None, None, 0);
    EmptyItems(visits);
    AfterTwice([], [], all);
    while true
      invariant all == After(visits, WalkThreads(s, withBodies, cursor, pins, n))
      invariant threads == ToThreads(Items(visits), withBodies)
      invariant pins.Some? <==> |visits| > 0
      invariant |visits| > 0 ==> Usable(visits[0].page.refs) && pins.value == PinsOf(visits[0].page.refs)
      decreases s.patience - n
    {
      ThreadsTurn(s, withBodies, cursor, pins, n, visits);
      if n >= s.patience {
        return Stopped(RequestFailed);
      }
      var reply := s.threads(n, withBodies, cursor);
      if reply.Err? {
        return Stopped(RequestFailed);
      }
      var page := reply.value;
      var pinned := SetRefs(pins, page.refs);
      if pinned.Stopped? {
        return Stopped(pinned.error);
      }
      ghost var fulls := Wholes(s, withBodies, page.nodes, n + 1);
      var added := AddThreads(s, page.nodes, withBodies, n + 1);
      if added.Stopped? {
        return Stopped(added.error);
      }
      ThreadsAppend(Items(visits), fulls.value, withBodies);
      visits := visits + [Visit(n, cursor, page, fulls.value)];
      threads := threads + added.value;
      var next := NextCursor(page.info);
      if next.Broken? {
        return Stopped(EmptyCursor);
      }
      if next.Last? {
        return Done((threads, pinned.value), added.n);
      }
      cursor, pins, n := Some(next.cursor), Some(pinned.value), added.n;
    }
  }

  /* One turn of the loop over review bodies, or over issue comments, as the walk sees it. */
  lemma WalkTurn<N>(ask: (nat, Option<string>) -> Fallible<Page<N>>, patience: nat, cursor: Option<string>, pins: Pins, n: nat,
                    before: seq<Visit<N, N>>)
    ensures var walk := After(before, Walk(ask, patience, cursor, pins, n));
            if n >= patience || ask(n, cursor).Err? then walk == Stopped(RequestFailed)
            else
              var page := ask(n, cursor).value;
              var pinned := SetRefs(Some(pins), page.refs);
              var visits := before + [Visit(n, cursor, page, page.nodes)];
              if pinned.Stopped? then walk == Stopped(pinned.error)
              else
                Items(visits) == Items(before) + page.nodes &&
                match NextCursor(page.info)
                case Broken => walk == Stopped(EmptyCursor)
                case Last => walk == Done(visits, n + 1)
                case From(next) => walk == After(visits, Walk(ask, patience, Some(next), pins, n + 1))
  {
    if n < patience && ask(n, cursor).Ok? {
      var page := ask(n, cursor).value;
      var visit := Visit(n, cursor, page, page.nodes);
      ItemsAppend(before, [visit]);
      if NextCursor(page.info).From? {
        AfterTwice(before, [visit], Walk(ask, patience, Some(NextCursor(page.info).cursor), pins, n + 1));
      }
    }
  }

  /** The loop over review bodies. */
  method ReadReviews(s: Server, withBodies: bool, pins: Pins, n0: nat) returns (r: Outcome<seq<Comment>>)
    ensures match Walk(AskReviews(s, withBodies), s.patience, None, pins, n0)
            case Done(visits, n) => r == Done(ToReviews(Items(visits), withBodies), n)
            case Stopped(e) => r == Stopped(e)
  {
    hide Walk, After, Items, ToReviews, SetRefs;
    var reviews: seq<Comment>, n: nat, cursor := [], n0, None;
    ghost var ask := AskReviews(s, withBodies);
    ghost var visits: seq<Visit<ReviewNode, ReviewNode>> := [];
    EmptyItems(visits);
    ghost var all := Walk(ask, s.patience, None, pins, n0);
    AfterTwice([], [], all);
    while true
      invariant all == After(visits, Walk(ask, s.patience, cursor, pins, n))
      invariant reviews == ToReviews(Items(visits), withBodies)
      decreases s.patience - n
    {
      WalkTurn(ask, s.patience, cursor, pins, n, visits);
      if n >= s.patience {
        return Stopped(RequestFailed);
      }
      var reply := s.reviews(n, withBodies, cursor);
      if reply.Err? {
        return Stopped(RequestFailed);
      }
      var page := reply.value;
      var pinned := SetRefs(Some(pins), page.refs);
      if pinned.Stopped? {
        return Stopped(pinned.error);
      }
      ConversionsAppend(IssueComment, [], [], Items(visits), page.nodes, withBodies);
      visits := visits + [Visit(n, cursor, page, page.nodes)];
      reviews := reviews + ToReviews(page.nodes, withBodies);
      var next := NextCursor(page.info);
      if next.Broken? {
        return Stopped(EmptyCursor);
      }
      if next.Last? {
        return Done(reviews, n + 1);
      }
      cursor, n := Some(next.cursor), n + 1;
    }
  }

  /** The loop over issue comments. */
  method ReadIssueComments(s: Server, withBodies: bool, pins: Pins, n0: nat) returns (r: Outcome<seq<Comment>>)
    ensures match Walk(AskComments(s, withBodies), s.patience, None, pins, n0)
            case Done(visits, n) => r == Done(ToComments(IssueComment, Items(visits), withBodies), n)
            case Stopped(e) => r == Stopped(e)
  {
    hide Walk, After, Items, ToComments, SetRefs;
    var comments: seq<Comment>, n: nat, cursor := [], n0, None;
    ghost var ask := AskComments(s, withBodies);
    ghost var visits: seq<Visit<CommentNode, CommentNode>> := [];
    EmptyItems(visits);
    ghost var all := Walk(ask, s.patience, None, pins, n0);
    AfterTwice([], [], all);
    while true
      invariant all == After(visits, Walk(ask, s.patience, cursor, pins, n))
      invariant comments == ToComments(IssueComment, Items(visits), withBodies)
      decreases s.patience - n
    {
      WalkTurn(ask, s.patience, cursor, pins, n, visits);
      if n >= s.patience {
        return Stopped(RequestFailed);
      }
      var reply := s.comments(n, withBodies, cursor);
      if reply.Err? {
        return Stopped(RequestFailed);
      }
      var page := reply.value;
      var pinned := SetRefs(Some(pins), page.refs);
      if pinned.Stopped? {
        return Stopped(pinned.error);
      }
      ConversionsAppend(IssueComment, Items(visits), page.nodes, [], [], withBodies);
      visits := visits + [Visit(n, cursor, page, page.nodes)];
      comments := comments + ToComments(IssueComment, page.nodes, withBodies);
      var next := NextCursor(page.info);
      if next.Broken? {
        return Stopped(EmptyCursor);
      }
      if next.Last? {
        return Done(comments, n + 1);
      }
      cursor, n := Some(next.cursor), n + 1;
    }
  }

  function Reply(error: Error): FetchReply {
    match error
    case NoPolicyRef => PolicyRefUnavailable
    case Moved => SnapshotMoved
    case _ => FetchFailed
  }

  /* What a read of all pages answers. */
  function SnapshotReply(s: Server, withBodies: bool, pr: int): FetchReply {
    match Visits(s, withBodies, pr)
    case Done(w, _) => Fetched(Assembled(w, PinsOf(w.threads[0].page.refs), withBodies))
    case Stopped(e) => Reply(e)
  }

  /** CommentSnapshot. */
  method CommentSnapshot(s: Server, withBodies: bool, pr: int) returns (r: FetchReply)
    ensures r == SnapshotReply(s, withBodies, pr)
  {
    if !ValidNumber(pr) {
      return FetchFailed;
    }
    var threads := ReadThreads(s, withBodies);
    if threads.Stopped? {
      return Reply(threads.error);
    }
    var pins := threads.value.1;
    var reviews := ReadReviews(s, withBodies, pins, threads.n);
    if reviews.Stopped? {
      return Reply(reviews.error);
    }
    var comments := ReadIssueComments(s, withBodies, pins, reviews.n);
    if comments.Stopped? {
      return Reply(comments.error);
    }
    return Fetched(Snapshot(pins.headSHA, pins.baseSHA, pins.baseRefName, pins.policyBaseSHA, threads.value.0,
                            reviews.value, comments.value));
  }
}
