/** The check runs of a commit: every page is walked, reruns of a check collapse into the newest, and the
    result is in one order whatever order GitHub, the pages or the map produced. */
module CheckRuns {
  import opened Prelude
  import opened Sorting
  import opened GitHub

  datatype CheckRun = CheckRun(
    id: int, name: string, headSHA: string, status: string, conclusion: string, appId: int, appSlug: string, url: string)

  datatype CheckKey = CheckKey(appId: int, name: string)

  function KeyOf(r: CheckRun): CheckKey { CheckKey(r.appId, r.name) }

  datatype Page = Page(runs: seq<CheckRun>, nextPage: int)

  /* The n-th request of a listing asks for a page number; from request `patience` on every one fails. */
  datatype Server = Server(list: (nat, int) -> Fallible<Page>, patience: nat)

  /* The pages a listing walks through, from request n on; None when one of them fails. */
  function Pages(s: Server, n: nat, page: int): Option<seq<Page>>
    decreases s.patience - n
  {
    if n >= s.patience then None
    else
      var reply := s.list(n, page);
      if reply.Err? then None
      else if reply.value.nextPage == 0 then Some([reply.value])
      else
        var rest := Pages(s, n + 1, reply.value.nextPage);
        if rest.None? then None else Some([reply.value] + rest.value)
  }

  /* Page i is the answer to the page number its predecessor named. */
  ghost predicate Answered(s: Server, n: nat, page: int, ps: seq<Page>, i: nat)
    requires i < |ps|
  {
    n + i < s.patience && s.list(n + i, if i == 0 then page else ps[i - 1].nextPage) == Ok(ps[i])
  }

  /** The pages follow one another from the first to the one that names no next page. */
  lemma {:induction false} PagesFollow(s: Server, n: nat, page: int)
    ensures Pages(s, n, page).Some? ==>
              var ps := Pages(s, n, page).value;
              && |ps| > 0 && ps[|ps| - 1].nextPage == 0
              && (forall i :: 0 <= i < |ps| - 1 ==> ps[i].nextPage != 0)
              && forall i :: 0 <= i < |ps| ==> Answered(s, n, page, ps, i)
    decreases s.patience - n
  {
    if Pages(s, n, page).Some? && s.list(n, page).value.nextPage != 0 {
      var next := s.list(n, page).value.nextPage;
      PagesFollow(s, n + 1, next);
      var ps, rest := Pages(s, n, page).value, Pages(s, n + 1, next).value;
      forall i | 0 <= i < |ps| ensures Answered(s, n, page, ps, i) {
        if i > 0 {
          assert Answered(s, n + 1, next, rest, i - 1);
          assert ps[i] == rest[i - 1] && ps[i - 1] == if i == 1 then ps[0] else rest[i - 2];
          assert n + i == n + 1 + (i - 1);
        }
      }
    }
  }

  function RunsOf(pages: seq<Page>): seq<CheckRun> {
    if |pages| == 0 then [] else pages[0].runs + RunsOf(pages[1..])
  }

  lemma RunsOfCons(p: Page, rest: seq<Page>)
    ensures RunsOf([p] + rest) == p.runs + RunsOf(rest)
    ensures RunsOf([]) == [] && RunsOf([p]) == p.runs
  {
    assert ([p] + rest)[1..] == rest;
  }

  lemma {:induction false} RunsOfAppend(a: seq<Page>, b: seq<Page>)
    ensures RunsOf(a + b) == RunsOf(a) + RunsOf(b)
  {
    hide RunsOf;
    if |a| == 0 {
      assert a + b == b && a == [];
      RunsOfCons(Page([], 0), []);
    } else {
      RunsOfAppend(a[1..], b);
      RunsOfCons(a[0], a[1..] + b);
      RunsOfCons(a[0], a[1..]);
      assert a + b == [a[0]] + (a[1..] + b) && [a[0]] + a[1..] == a;
      Reassociate(a[0].runs, RunsOf(a[1..]), RunsOf(b));
    }
  }

  // ---- what the latest runs are ----

  /** Newest of its check. */
  ghost predicate IsNewest(r: CheckRun, runs: seq<CheckRun>) {
    r in runs && forall r' :: r' in runs && r'.name == r.name && r'.appId == r.appId ==> r'.id <= r.id
  }

  predicate Before(a: CheckRun, b: CheckRun) {
    if a.name != b.name then StringLe(a.name, b.name) else a.appId < b.appId
  }

  /** One run for each check, the newest, strictly in order of name and app. */
  ghost predicate IsLatestList(out: seq<CheckRun>, runs: seq<CheckRun>) {
    && (forall i, j :: 0 <= i < j < |out| ==> Before(out[i], out[j]))
    && (forall r :: r in out ==> IsNewest(r, runs))
    && forall r :: r in runs ==> exists o :: o in out && o.name == r.name && o.appId == r.appId
  }

  /* GitHub numbers runs uniquely; a run may still be listed twice while pages shift. */
  ghost predicate Consistent(runs: seq<CheckRun>) {
    forall a, b :: a in runs && b in runs && a.id == b.id ==> a == b
  }

  predicate NotAfter(a: CheckRun, b: CheckRun) {
    Before(a, b) || (a.name == b.name && a.appId == b.appId)
  }

  lemma NotAfterTotal()
    ensures Total(NotAfter)
    ensures forall a, b :: NotAfter(a, b) && NotAfter(b, a) ==> KeyOf(a) == KeyOf(b)
  {
    StringOrder();
    forall a, b ensures NotAfter(a, b) || NotAfter(b, a) ensures NotAfter(a, b) && NotAfter(b, a) ==> KeyOf(a) == KeyOf(b) {
      StringLeTotal(a.name, b.name);
    }
    forall a, b, c | NotAfter(a, b) && NotAfter(b, c) ensures NotAfter(a, c) {
      StringLeTransitive(a.name, b.name, c.name);
      StringLeTotal(a.name, b.name);
      StringLeTotal(a.name, c.name);
    }
  }

  lemma OneRunPerCheck(out: seq<CheckRun>, runs: seq<CheckRun>, i: nat, j: nat)
    requires IsLatestList(out, runs) && i < |out| && j < |out| && KeyOf(out[i]) == KeyOf(out[j])
    ensures i == j
  {
  }

  /* Two latest lists of the same runs hold the same runs, once each. */
  lemma LatestListContents(a: seq<CheckRun>, xs: seq<CheckRun>, b: seq<CheckRun>, ys: seq<CheckRun>, r: CheckRun)
    requires IsLatestList(a, xs) && IsLatestList(b, ys) && Consistent(xs)
    requires forall x :: x in xs <==> x in ys
    ensures multiset(a)[r] == multiset(b)[r]
  {
    hide IsLatestList;
    AtMostOnce(a, xs, r);
    AtMostOnce(b, ys, r);
    NewestAreTheLatest(a, xs);
    NewestAreTheLatest(b, ys);
    assert IsNewest(r, xs) <==> IsNewest(r, ys);
  }

  lemma NewestAreTheLatest(latest: seq<CheckRun>, runs: seq<CheckRun>)
    requires IsLatestList(latest, runs) && Consistent(runs)
    ensures forall r :: IsNewest(r, runs) <==> r in latest
  {
    hide Before;
    forall r | IsNewest(r, runs) ensures r in latest {
      var o :| o in latest && KeyOf(o) == KeyOf(r);
      assert IsNewest(o, runs);
    }
  }

  lemma AtMostOnce(a: seq<CheckRun>, xs: seq<CheckRun>, r: CheckRun)
    requires IsLatestList(a, xs)
    ensures multiset(a)[r] == if r in a then 1 else 0
  {
    hide IsLatestList;
    if r in a {
      var i :| 0 <= i < |a| && a[i] == r;
      forall j | 0 <= j < |a| && j != i ensures a[j] != r {
        if a[j] == r { OneRunPerCheck(a, xs, i, j); }
      }
      CountsOnce(a, i);
    } else {
      assert r !in multiset(a);
    }
  }

  lemma CountsOnce<T>(a: seq<T>, i: nat)
    requires i < |a| && forall j :: 0 <= j < |a| && j != i ==> a[j] != a[i]
    ensures multiset(a)[a[i]] == 1
  {
    assert a == a[..i] + [a[i]] + a[i + 1..];
    assert a[i] !in a[..i] && a[i] !in a[i + 1..];
  }

  /** The list depends on which runs were listed, and on nothing else: not on their order, on how pages cut
      them, or on how often one was listed. */
  lemma LatestListIsDetermined(a: seq<CheckRun>, xs: seq<CheckRun>, b: seq<CheckRun>, ys: seq<CheckRun>)
    requires IsLatestList(a, xs) && IsLatestList(b, ys) && Consistent(xs)
    requires forall x :: x in xs <==> x in ys
    ensures a == b
  {
    forall r ensures multiset(a)[r] == multiset(b)[r] {
      LatestListContents(a, xs, b, ys, r);
    }
    assert multiset(a) == multiset(b);
    NotAfterTotal();
    DistinctChecks(a, xs);
    SortedUnique(a, b, NotAfter);
  }

  lemma DistinctChecks(a: seq<CheckRun>, xs: seq<CheckRun>)
    requires IsLatestList(a, xs)
    ensures Distinguishes(NotAfter, a)
  {
    NotAfterTotal();
    forall i, j | 0 <= i < |a| && 0 <= j < |a| && NotAfter(a[i], a[j]) && NotAfter(a[j], a[i]) ensures a[i] == a[j] {
      OneRunPerCheck(a, xs, i, j);
    }
  }

  // ---- the listing ----

  /* What the map holds after some runs: the newest of each check. */
  ghost predicate Holds(latest: map<CheckKey, CheckRun>, runs: seq<CheckRun>) {
    && (forall k :: k in latest ==> KeyOf(latest[k]) == k && IsNewest(latest[k], runs))
    && forall r :: r in runs ==> KeyOf(r) in latest
  }

  lemma HoldsOneMore(latest: map<CheckKey, CheckRun>, runs: seq<CheckRun>, r: CheckRun)
    requires Holds(latest, runs)
    ensures var latest' := if KeyOf(r) !in latest || r.id > latest[KeyOf(r)].id then latest[KeyOf(r) := r] else latest;
            Holds(latest', runs + [r])
  {
    var latest' := if KeyOf(r) !in latest || r.id > latest[KeyOf(r)].id then latest[KeyOf(r) := r] else latest;
    forall k | k in latest' ensures KeyOf(latest'[k]) == k && IsNewest(latest'[k], runs + [r]) {
      if k in latest { assert IsNewest(latest[k], runs); }
    }
  }

  datatype CheckRunsResult = CheckRunsResult(checkRuns: seq<CheckRun>, rawCount: nat, pageCount: nat)

  /* One page folded into the map. */
  method Fold(latest0: map<CheckKey, CheckRun>, page: Page, ghost before: seq<CheckRun>) returns (latest: map<CheckKey, CheckRun>)
    requires Holds(latest0, before)
    ensures Holds(latest, before + page.runs)
  {
    latest := latest0;
    assert before + page.runs[..0] == before;
    for i := 0 to |page.runs|
      invariant Holds(latest, before + page.runs[..i])
    {
      var r := page.runs[i];
      HoldsOneMore(latest, before + page.runs[..i], r);
      assert before + page.runs[..i] + [r] == before + page.runs[..i + 1];
      if KeyOf(r) !in latest || r.id > latest[KeyOf(r)].id {
        latest := latest[KeyOf(r) := r];
      }
    }
    assert page.runs[..|page.runs|] == page.runs;
  }

  /* The map's runs in whatever order it is visited. */
  method Values(latest: map<CheckKey, CheckRun>, ghost runs: seq<CheckRun>) returns (out: seq<CheckRun>)
    requires Holds(latest, runs)
    ensures forall r :: r in out ==> KeyOf(r) in latest && latest[KeyOf(r)] == r
    ensures forall k :: k in latest ==> latest[k] in out
    ensures forall i, j :: 0 <= i < j < |out| ==> KeyOf(out[i]) != KeyOf(out[j])
  {
    out := [];
    var keys := latest.Keys;
    while keys != {}
      invariant keys <= latest.Keys
      invariant forall r :: r in out ==> KeyOf(r) in latest && KeyOf(r) !in keys && latest[KeyOf(r)] == r
      invariant forall k :: k in latest && k !in keys ==> latest[k] in out
      invariant forall i, j :: 0 <= i < j < |out| ==> KeyOf(out[i]) != KeyOf(out[j])
    {
      var k :| k in keys;
      out := out + [latest[k]];
      keys := keys - {k};
    }
  }

  lemma SortedIsLatest(latest: map<CheckKey, CheckRun>, runs: seq<CheckRun>, out: seq<CheckRun>)
    requires Holds(latest, runs)
    requires forall r :: r in out ==> KeyOf(r) in latest && latest[KeyOf(r)] == r
    requires forall k :: k in latest ==> latest[k] in out
    requires forall i, j :: 0 <= i < j < |out| ==> KeyOf(out[i]) != KeyOf(out[j])
    ensures IsLatestList(Sort(out, NotAfter), runs)
  {
    NotAfterTotal();
    SortSorts(out, NotAfter);
    var sorted := Sort(out, NotAfter);
    forall r ensures r in sorted <==> r in out {
      assert r in sorted <==> r in multiset(sorted);
      assert r in out <==> r in multiset(out);
    }
    forall i, j | 0 <= i < j < |sorted| ensures Before(sorted[i], sorted[j]) {
      assert NotAfter(sorted[i], sorted[j]);
      if KeyOf(sorted[i]) == KeyOf(sorted[j]) {
        assert sorted[i] in out && sorted[j] in out;
        TwiceMeansTwice(sorted, out, i, j);
      }
    }
    forall r | r in runs ensures exists o :: o in sorted && KeyOf(o) == KeyOf(r) {
      assert latest[KeyOf(r)] in out;
      assert latest[KeyOf(r)] in sorted;
    }
  }

  /* An element at two places of an arrangement is at two places of every arrangement. */
  lemma TwiceMeansTwice(xs: seq<CheckRun>, ys: seq<CheckRun>, i: nat, j: nat)
    requires i < j < |xs| && xs[i] == xs[j] && multiset(xs) == multiset(ys)
    ensures exists p, q :: 0 <= p < q < |ys| && ys[p] == ys[q] == xs[i]
  {
    var r := xs[i];
    assert xs == xs[..i] + [r] + xs[i + 1..j] + [r] + xs[j + 1..];
    assert multiset(ys)[r] >= 2;
    var p :| 0 <= p < |ys| && ys[p] == r;
    assert ys == ys[..p] + [r] + ys[p + 1..];
    if r in ys[..p] {
      var q :| 0 <= q < p && ys[q] == r;
    } else {
      assert r in ys[p + 1..];
      var q :| p < q < |ys| && ys[q] == r;
    }
  }

  lemma NothingListed()
    ensures RunsOf([]) == [] && Holds(map[], [])
  {
  }

  /** ListCheckRunsForSHA. */
  method ListCheckRunsForSHA(s: Server) returns (r: Option<CheckRunsResult>)
    ensures r.None? <==> Pages(s, 0, 0).None?
    ensures r.Some? ==>
              var pages := Pages(s, 0, 0).value;
              && IsLatestList(r.value.checkRuns, RunsOf(pages))
              && r.value.rawCount == |RunsOf(pages)| && r.value.pageCount == |pages|
  {
    hide Holds, IsLatestList, Sort, RunsOf;
    NothingListed();
    var latest: map<CheckKey, CheckRun>, rawCount: nat, pageCount: nat, page := map[], 0, 0, 0;
    ghost var done: seq<Page> := [];
    ghost var all := Pages(s, 0, 0);
    assert all.Some? ==> all.value == done + all.value;
    while true
      invariant Holds(latest, RunsOf(done))
      invariant rawCount == |RunsOf(done)| && pageCount == |done|
      invariant all == match Pages(s, pageCount, page) case None => None case Some(rest) => Some(done + rest)
      decreases s.patience - pageCount
    {
      if pageCount >= s.patience {
        return None;
      }
      var reply := s.list(pageCount, page);
      if reply.Err? {
        return None;
      }
      RunsOfAppend(done, [reply.value]);
      RunsOfCons(reply.value, []);
      latest := Fold(latest, reply.value, RunsOf(done));
      rawCount := rawCount + |reply.value.runs|;
      pageCount := pageCount + 1;
      ghost var before := done;
      done := done + [reply.value];
      if reply.value.nextPage == 0 {
        break;
      }
      page := reply.value.nextPage;
      if Pages(s, pageCount, page).Some? {
        assert before + ([reply.value] + Pages(s, pageCount, page).value) == done + Pages(s, pageCount, page).value;
      }
    }
    assert all == Some(done);
    var out := Values(latest, RunsOf(done));
    SortedIsLatest(latest, RunsOf(done), out);
    return Some(CheckRunsResult(Sort(out, NotAfter), rawCount, pageCount));
  }

  /** Two listings of the same runs give the same answer, however GitHub pages and orders them. */
  lemma PagingDoesNotMatter(s: Server, t: Server, a: seq<CheckRun>, b: seq<CheckRun>)
    requires Pages(s, 0, 0).Some? && Pages(t, 0, 0).Some?
    requires var xs, ys := RunsOf(Pages(s, 0, 0).value), RunsOf(Pages(t, 0, 0).value);
             && multiset(xs) == multiset(ys) && Consistent(xs) && IsLatestList(a, xs) && IsLatestList(b, ys)
    ensures a == b && |RunsOf(Pages(s, 0, 0).value)| == |RunsOf(Pages(t, 0, 0).value)|
  {
    var xs, ys := RunsOf(Pages(s, 0, 0).value), RunsOf(Pages(t, 0, 0).value);
    forall x ensures x in xs <==> x in ys {
      assert x in xs <==> x in multiset(xs);
      assert x in ys <==> x in multiset(ys);
    }
    assert |xs| == |multiset(xs)| == |multiset(ys)| == |ys|;
    LatestListIsDetermined(a, xs, b, ys);
  }

  // ---- the verdict ----

  datatype CIStatus = CIStatus(ok: bool, pending: seq<string>, failed: seq<string>)

  predicate Completed(r: CheckRun) { r.status == "completed" }

  predicate Passed(r: CheckRun) { r.conclusion in ["success", "skipped", "neutral"] }

  /* The names of the runs that satisfy p, in order. */
  function Names(runs: seq<CheckRun>, p: CheckRun -> bool): seq<string> {
    if |runs| == 0 then []
    else Names(runs[..|runs| - 1], p) + if p(runs[|runs| - 1]) then [runs[|runs| - 1].name] else []
  }

  function IsPending(r: CheckRun): bool { !Completed(r) }

  function IsFailed(r: CheckRun): bool { Completed(r) && !Passed(r) }

  method Judge(runs: seq<CheckRun>) returns (r: CIStatus)
    ensures r.pending == Sort(Names(runs, IsPending), StringLe) && r.failed == Sort(Names(runs, IsFailed), StringLe)
    ensures r.ok <==> Names(runs, IsPending) == [] && Names(runs, IsFailed) == []
  {
    hide Sort;
    var pending, failed := [], [];
    for i := 0 to |runs|
      invariant pending == Names(runs[..i], IsPending) && failed == Names(runs[..i], IsFailed)
    {
      assert runs[..i + 1][..i] == runs[..i];
      if !Completed(runs[i]) {
        pending := pending + [runs[i].name];
      } else if !Passed(runs[i]) {
        failed := failed + [runs[i].name];
      }
    }
    assert runs[..|runs|] == runs;
    return CIStatus(|pending| == 0 && |failed| == 0, Sort(pending, StringLe), Sort(failed, StringLe));
  }

  /** A run that is over and went well. */
  predicate Green(r: CheckRun) {
    r.status == "completed" && (r.conclusion == "success" || r.conclusion == "skipped" || r.conclusion == "neutral")
  }

  /* A run among the newest of their checks. */
  ghost predicate Newest(pages: seq<Page>, r: CheckRun) {
    && (exists p :: p in pages && r in p.runs)
    && forall p, o :: p in pages && o in p.runs && o.name == r.name && o.appId == r.appId ==> o.id <= r.id
  }

  lemma {:induction false} RunsOfMeans(pages: seq<Page>, r: CheckRun)
    ensures r in RunsOf(pages) <==> exists p :: p in pages && r in p.runs
  {
    if |pages| > 0 {
      RunsOfMeans(pages[1..], r);
      assert pages == [pages[0]] + pages[1..];
    }
  }

  lemma NewestMeans(pages: seq<Page>, r: CheckRun)
    ensures IsNewest(r, RunsOf(pages)) <==> Newest(pages, r)
  {
    hide RunsOf;
    forall x ensures x in RunsOf(pages) <==> exists p :: p in pages && x in p.runs { RunsOfMeans(pages, x); }
  }

  /** GetCIStatus, given the head commit of the pull request. */
  method GetCIStatus(head: Fallible<string>, s: Server) returns (r: Option<CIStatus>)
    ensures r.None? <==> head.Err? || head.value == "" || Pages(s, 0, 0).None?
    ensures r.Some? ==>
              exists latest ::
                && IsLatestList(latest, RunsOf(Pages(s, 0, 0).value))
                && r.value.pending == Sort(Names(latest, IsPending), StringLe)
                && r.value.failed == Sort(Names(latest, IsFailed), StringLe)
                && (r.value.ok <==> Names(latest, IsPending) == [] && Names(latest, IsFailed) == [])
    ensures r.Some? && Consistent(RunsOf(Pages(s, 0, 0).value)) ==>
              var pages := Pages(s, 0, 0).value;
              && (r.value.ok <==> forall run :: Newest(pages, run) ==> Green(run))
              && (forall name :: name in r.value.pending <==> exists run :: Newest(pages, run) && run.name == name && run.status != "completed")
              && (forall name :: name in r.value.failed <==>
                    exists run :: Newest(pages, run) && run.name == name && run.status == "completed" && !Green(run))
  {
    hide Pages, RunsOf, IsLatestList, Sort, IsNewest, Names, Completed, Passed, Consistent, Newest, Green;
    if head.Err? || head.value == "" {
      return None;
    }
    var listing := ListCheckRunsForSHA(s);
    if listing == None {
      return None;
    }
    var runs := listing.value.checkRuns;
    if Consistent(RunsOf(Pages(s, 0, 0).value)) { VerdictOnPages(runs, Pages(s, 0, 0).value); }
    var status := Judge(runs);
    return Some(status);
  }

  lemma VerdictOnPages(latest: seq<CheckRun>, pages: seq<Page>)
    requires IsLatestList(latest, RunsOf(pages)) && Consistent(RunsOf(pages))
    ensures (Names(latest, IsPending) == [] && Names(latest, IsFailed) == []) <==> forall run :: Newest(pages, run) ==> Green(run)
    ensures forall name :: name in Sort(Names(latest, IsPending), StringLe) <==>
              exists run :: Newest(pages, run) && run.name == name && run.status != "completed"
    ensures forall name :: name in Sort(Names(latest, IsFailed), StringLe) <==>
              exists run :: Newest(pages, run) && run.name == name && run.status == "completed" && !Green(run)
  {
    hide RunsOf, IsLatestList, Sort, IsNewest, Names, Consistent, Newest;
    forall run ensures IsNewest(run, RunsOf(pages)) <==> Newest(pages, run) { NewestMeans(pages, run); }
    assert forall run: CheckRun :: (run.status == "completed" <==> Completed(run)) && (Green(run) <==> Completed(run) && Passed(run));
    VerdictMeaning(latest, RunsOf(pages), "");
    forall name
      ensures name in Sort(Names(latest, IsPending), StringLe) <==> exists run :: Newest(pages, run) && run.name == name && run.status != "completed"
      ensures name in Sort(Names(latest, IsFailed), StringLe) <==>
              exists run :: Newest(pages, run) && run.name == name && run.status == "completed" && !Green(run)
    {
      VerdictMeaning(latest, RunsOf(pages), name);
    }
  }

  lemma {:induction false} NamesMeaning(runs: seq<CheckRun>, p: CheckRun -> bool, name: string)
    ensures name in Names(runs, p) <==> exists r :: r in runs && p(r) && r.name == name
  {
    if |runs| > 0 {
      var last := runs[|runs| - 1];
      NamesMeaning(runs[..|runs| - 1], p, name);
      assert runs == runs[..|runs| - 1] + [last];
    }
  }

  /** The verdict is good exactly when the newest run of every check completed with a passing conclusion; the
      pending and failed names are those of the newest runs that did not. */
  lemma VerdictMeaning(latest: seq<CheckRun>, runs: seq<CheckRun>, name: string)
    requires IsLatestList(latest, runs) && Consistent(runs)
    ensures (Names(latest, IsPending) == [] && Names(latest, IsFailed) == []) <==>
            forall r :: IsNewest(r, runs) ==> Completed(r) && Passed(r)
    ensures name in Sort(Names(latest, IsPending), StringLe) <==> exists r :: IsNewest(r, runs) && !Completed(r) && r.name == name
    ensures name in Sort(Names(latest, IsFailed), StringLe) <==>
            exists r :: IsNewest(r, runs) && Completed(r) && !Passed(r) && r.name == name
    ensures SortedBy(Sort(Names(latest, IsPending), StringLe), StringLe) && SortedBy(Sort(Names(latest, IsFailed), StringLe), StringLe)
  {
    hide IsLatestList, IsNewest, Sort;
    StringOrder();
    NewestAreTheLatest(latest, runs);
    SortSorts(Names(latest, IsPending), StringLe);
    SortSorts(Names(latest, IsFailed), StringLe);
    SortKeepsMembers(Names(latest, IsPending), name);
    SortKeepsMembers(Names(latest, IsFailed), name);
    NamesMeaning(latest, IsPending, name);
    NamesMeaning(latest, IsFailed, name);
    forall r | r in latest
      ensures Names(latest, IsPending) == [] ==> !IsPending(r)
      ensures Names(latest, IsFailed) == [] ==> !IsFailed(r)
    {
      NamesMeaning(latest, IsPending, r.name);
      NamesMeaning(latest, IsFailed, r.name);
    }
    if Names(latest, IsPending) != [] { NamesMeaning(latest, IsPending, Names(latest, IsPending)[0]); }
    if Names(latest, IsFailed) != [] { NamesMeaning(latest, IsFailed, Names(latest, IsFailed)[0]); }
  }

  lemma SortKeepsMembers(names: seq<string>, name: string)
    ensures name in Sort(names, StringLe) <==> name in names
  {
    StringOrder();
    SortSorts(names, StringLe);
    assert name in names <==> name in multiset(names);
    assert name in Sort(names, StringLe) <==> name in multiset(Sort(names, StringLe));
  }
}
