/** The fingerprint by which two fetches of a pull request are compared, and what its equality means. */
module Snapshots {
  import opened Prelude
  import opened Sorting
  import opened GitHub

  datatype Located = Located(comment: Comment, threadId: string)

  function InThread(comments: seq<Comment>, threadId: string): seq<Located> {
    seq(|comments|, i requires 0 <= i < |comments| => Located(comments[i], threadId))
  }

  function ThreadComments(threads: seq<Thread>): seq<Located> {
    if |threads| == 0 then [] else InThread(threads[0].comments, threads[0].id) + ThreadComments(threads[1..])
  }

  /* Every comment of a snapshot: thread comments, review bodies, issue comments. */
  function AllComments(s: Snapshot): seq<Located> {
    ThreadComments(s.threads) + InThread(s.reviews, "") + InThread(s.issueComments, "")
  }

  lemma {:induction false} ThreadCommentsAppend(a: seq<Thread>, b: seq<Thread>)
    ensures ThreadComments(a + b) == ThreadComments(a) + ThreadComments(b)
  {
    if |a| == 0 {
      assert a + b == b;
    } else {
      ThreadCommentsAppend(a[1..], b);
      assert (a + b)[0] == a[0] && (a + b)[1..] == a[1..] + b;
      Reassociate(InThread(a[0].comments, a[0].id), ThreadComments(a[1..]), ThreadComments(b));
    }
  }

  method CollectComments(s: Snapshot) returns (out: seq<Located>)
    ensures out == AllComments(s)
  {
    out := [];
    for t := 0 to |s.threads|
      invariant out == ThreadComments(s.threads[..t])
    {
      var thread := s.threads[t];
      for i := 0 to |thread.comments|
        invariant out == ThreadComments(s.threads[..t]) + InThread(thread.comments, thread.id)[..i]
      {
        out := out + [Located(thread.comments[i], thread.id)];
      }
      ThreadCommentsAppend(s.threads[..t], [thread]);
      assert s.threads[..t + 1] == s.threads[..t] + [thread];
      assert ThreadComments([thread]) == InThread(thread.comments, thread.id);
    }
    assert s.threads[..|s.threads|] == s.threads;
    var threads := out;
    for i := 0 to |s.reviews|
      invariant out == threads + InThread(s.reviews, "")[..i]
    {
      out := out + [Located(s.reviews[i], "")];
    }
    var reviewed := out;
    for i := 0 to |s.issueComments|
      invariant out == reviewed + InThread(s.issueComments, "")[..i]
    {
      out := out + [Located(s.issueComments[i], "")];
    }
  }

  /* What the author check relies on. */
  datatype Key = Key(kind: Kind, id: string, threadId: string, author: string, authorType: string, editedAt: string)

  function KeyOf(l: Located): Key {
    var c := l.comment;
    Key(c.kind, c.id, l.threadId, c.author, c.authorType, c.editedAt)
  }

  function Fields(k: Key): seq<string> {
    [KindName(k.kind), k.id, k.threadId, k.author, k.authorType, k.editedAt]
  }

  function Line(k: Key): string { Join(Fields(k), '|') }

  function Map<A, B>(f: A -> B, xs: seq<A>): (ys: seq<B>)
    ensures |ys| == |xs| && forall i :: 0 <= i < |xs| ==> ys[i] == f(xs[i])
  {
    seq(|xs|, i requires 0 <= i < |xs| => f(xs[i]))
  }

  function Keys(s: Snapshot): seq<Key> { Map(KeyOf, AllComments(s)) }

  function Header(s: Snapshot): seq<string> {
    ["head=" + s.headSHA, "base=" + s.baseSHA, "baseRef=" + s.baseRefName, "policy=" + s.policyBaseSHA]
  }

  function Fingerprint(s: Snapshot): string {
    Join(Header(s) + Sort(Map(Line, Keys(s)), StringLe), '\n')
  }

  predicate CleanKey(k: Key) {
    forall f :: f in Fields(k) ==> '|' !in f && '\n' !in f
  }

  predicate OneLineKey(k: Key) {
    forall f :: f in Fields(k) ==> '\n' !in f
  }

  /* Refs and comment fields are single lines. */
  predicate OneLine(s: Snapshot) {
    && '\n' !in s.headSHA && '\n' !in s.baseSHA && '\n' !in s.baseRefName && '\n' !in s.policyBaseSHA
    && forall k :: k in Keys(s) ==> OneLineKey(k)
  }

  /** Refs on one line, comment fields free of the two separators. */
  predicate Clean(s: Snapshot) {
    && '\n' !in s.headSHA && '\n' !in s.baseSHA && '\n' !in s.baseRefName && '\n' !in s.policyBaseSHA
    && forall k :: k in Keys(s) ==> CleanKey(k)
  }

  predicate SameRefs(a: Snapshot, b: Snapshot) {
    a.headSHA == b.headSHA && a.baseSHA == b.baseSHA && a.baseRefName == b.baseRefName && a.policyBaseSHA == b.policyBaseSHA
  }

  lemma KindNameInjective(a: Kind, b: Kind)
    ensures KindName(a) == KindName(b) ==> a == b
    ensures '|' !in KindName(a) && '\n' !in KindName(a)
  {
    assert |KindName(ThreadComment)| == 21 && |KindName(ReviewBody)| == 11 && |KindName(IssueComment)| == 13;
  }

  lemma LineInjective(a: Key, b: Key)
    requires CleanKey(a) && CleanKey(b) && Line(a) == Line(b)
    ensures a == b
  {
    JoinInjective(Fields(a), Fields(b), '|');
    KindNameInjective(a.kind, b.kind);
    assert Fields(a)[0] == Fields(b)[0] && Fields(a)[1] == Fields(b)[1] && Fields(a)[2] == Fields(b)[2];
    assert Fields(a)[3] == Fields(b)[3] && Fields(a)[4] == Fields(b)[4] && Fields(a)[5] == Fields(b)[5];
  }

  lemma {:induction false} JoinAvoids(parts: seq<string>, sep: char, c: char)
    requires c != sep && Without(parts, c)
    ensures c !in Join(parts, sep)
  {
    if |parts| > 1 {
      JoinAvoids(parts[1..], sep, c);
    }
  }

  lemma TakeOut<A>(xs: seq<A>, j: nat)
    requires j < |xs|
    ensures multiset(xs[..j] + xs[j + 1..]) == multiset(xs) - multiset{xs[j]}
  {
    assert xs == xs[..j] + [xs[j]] + xs[j + 1..];
  }

  lemma MapTakeOut<A, B>(f: A -> B, xs: seq<A>, j: nat)
    requires j < |xs|
    ensures multiset(Map(f, xs)) == multiset(Map(f, xs[..j] + xs[j + 1..])) + multiset{f(xs[j])}
  {
    var ys := Map(f, xs);
    assert ys == ys[..j] + [f(xs[j])] + ys[j + 1..];
    assert Map(f, xs[..j] + xs[j + 1..]) == ys[..j] + ys[j + 1..];
  }

  /* Mapping respects contents. */
  lemma {:induction false} MapKeepsContents<A, B>(f: A -> B, xs: seq<A>, ys: seq<A>)
    requires multiset(xs) == multiset(ys)
    ensures multiset(Map(f, xs)) == multiset(Map(f, ys))
  {
    hide Map;
    if |xs| == 0 {
      assert |multiset(ys)| == 0;
    } else {
      assert xs[0] in multiset(xs);
      var j := Occurs(xs[0], ys);
      var xs', ys' := xs[..0] + xs[1..], ys[..j] + ys[j + 1..];
      assert multiset(xs') == multiset(ys') by {
        TakeOut(xs, 0);
        TakeOut(ys, j);
      }
      MapKeepsContents(f, xs', ys');
      MapTakeOut(f, xs, 0);
      MapTakeOut(f, ys, j);
    }
  }

  lemma Occurs<A>(x: A, ys: seq<A>) returns (j: nat)
    requires x in multiset(ys)
    ensures j < |ys| && ys[j] == x
  {
    j :| 0 <= j < |ys| && ys[j] == x;
  }

  /* On clean keys a line occurs exactly as often as its key. */
  lemma {:induction false} LineCount(ks: seq<Key>, k: Key)
    requires CleanKey(k) && forall x :: x in ks ==> CleanKey(x)
    ensures multiset(Map(Line, ks))[Line(k)] == multiset(ks)[k]
  {
    hide Line, CleanKey;
    if |ks| > 0 {
      LineCount(ks[1..], k);
      assert ks == [ks[0]] + ks[1..];
      assert Map(Line, ks) == [Line(ks[0])] + Map(Line, ks[1..]);
      if Line(ks[0]) == Line(k) {
        LineInjective(ks[0], k);
      }
    }
  }

  lemma LinesDetermineKeys(a: seq<Key>, b: seq<Key>)
    requires forall k :: k in a + b ==> CleanKey(k)
    ensures multiset(Map(Line, a)) == multiset(Map(Line, b)) <==> multiset(a) == multiset(b)
  {
    if multiset(Map(Line, a)) == multiset(Map(Line, b)) {
      forall k ensures multiset(a)[k] == multiset(b)[k] {
        if k in a + b {
          LineCount(a, k);
          LineCount(b, k);
        }
      }
    }
    if multiset(a) == multiset(b) {
      MapKeepsContents(Line, a, b);
    }
  }

  lemma FingerprintLines(s: Snapshot)
    requires OneLine(s)
    ensures Without(Header(s) + Sort(Map(Line, Keys(s)), StringLe), '\n')
  {
    HeaderAvoidsNewline(s);
    StringOrder();
    var lines := Map(Line, Keys(s));
    SortSorts(lines, StringLe);
    forall x | x in Sort(lines, StringLe) ensures '\n' !in x {
      assert x in multiset(lines);
      var i :| 0 <= i < |lines| && lines[i] == x;
      assert Keys(s)[i] in Keys(s);
      LineAvoidsNewline(Keys(s)[i]);
    }
  }

  lemma HeaderAvoidsNewline(s: Snapshot)
    requires OneLine(s)
    ensures Without(Header(s), '\n')
  {
    assert '\n' !in "head=" && '\n' !in "base=" && '\n' !in "baseRef=" && '\n' !in "policy=";
  }

  lemma LineAvoidsNewline(k: Key)
    requires OneLineKey(k)
    ensures '\n' !in Line(k)
  {
    JoinAvoids(Fields(k), '|', '\n');
  }

  /** While fields are single lines, equal fingerprints mean equal refs and the same lines, in any order. */
  lemma FingerprintIsLines(a: Snapshot, b: Snapshot)
    requires OneLine(a) && OneLine(b)
    ensures Fingerprint(a) == Fingerprint(b) <==> SameRefs(a, b) && multiset(Map(Line, Keys(a))) == multiset(Map(Line, Keys(b)))
  {
    var la, lb := Sort(Map(Line, Keys(a)), StringLe), Sort(Map(Line, Keys(b)), StringLe);
    StringOrder();
    SortForgetsOrder(Map(Line, Keys(a)), Map(Line, Keys(b)), StringLe);
    if Fingerprint(a) == Fingerprint(b) {
      FingerprintLines(a);
      FingerprintLines(b);
      JoinInjective(Header(a) + la, Header(b) + lb, '\n');
      assert Header(a) == (Header(a) + la)[..4] == Header(b);
      assert la == (Header(a) + la)[4..] == lb;
      HeaderInjective(a, b);
    }
  }

  /** While fields also hold no '|', equal fingerprints mean equal refs and the same comments, authors and edit times,
      in any order. */
  lemma FingerprintMeaning(a: Snapshot, b: Snapshot)
    requires Clean(a) && Clean(b)
    ensures Fingerprint(a) == Fingerprint(b) <==> SameRefs(a, b) && multiset(Keys(a)) == multiset(Keys(b))
  {
    FingerprintIsLines(a, b);
    LinesDetermineKeys(Keys(a), Keys(b));
  }

  // ---- in terms of comments ----

  /** The comment is in the snapshot: in the thread with this ID, or in no thread, as a review body or an issue comment. */
  ghost predicate Holds(s: Snapshot, c: Comment, threadId: string) {
    || (threadId == "" && (c in s.reviews || c in s.issueComments))
    || exists t :: t in s.threads && t.id == threadId && c in t.comments
  }

  lemma InThreadMembers(comments: seq<Comment>, threadId: string, c: Comment, id: string)
    ensures Located(c, id) in InThread(comments, threadId) <==> c in comments && id == threadId
  {
    if c in comments && id == threadId {
      var i :| 0 <= i < |comments| && comments[i] == c;
      assert InThread(comments, threadId)[i] == Located(c, id);
    }
  }

  lemma {:induction false} ThreadCommentsMembers(threads: seq<Thread>, c: Comment, id: string)
    ensures Located(c, id) in ThreadComments(threads) <==> exists t :: t in threads && t.id == id && c in t.comments
  {
    if |threads| > 0 {
      InThreadMembers(threads[0].comments, threads[0].id, c, id);
      ThreadCommentsMembers(threads[1..], c, id);
      assert threads == [threads[0]] + threads[1..];
    }
  }

  /** The comments collected are exactly those in the snapshot. */
  lemma CollectedAreHeld(s: Snapshot, c: Comment, threadId: string)
    ensures Located(c, threadId) in AllComments(s) <==> Holds(s, c, threadId)
  {
    ThreadCommentsMembers(s.threads, c, threadId);
    InThreadMembers(s.reviews, "", c, threadId);
    InThreadMembers(s.issueComments, "", c, threadId);
  }

  /* The same comment by the same author, not edited in between. */
  predicate Unedited(d: Comment, c: Comment) {
    && d.kind == c.kind && d.id == c.id && d.author == c.author && d.authorType == c.authorType && d.editedAt == c.editedAt
  }

  /* Every part holds comments of its kind. */
  ghost predicate FiledByKind(s: Snapshot) {
    && (forall c :: c in s.reviews ==> c.kind == ReviewBody)
    && (forall c :: c in s.issueComments ==> c.kind == IssueComment)
    && forall t, c :: t in s.threads && c in t.comments ==> c.kind == ThreadComment
  }

  /* Every comment of b was already in a, in the same place. */
  ghost predicate AllKnown(a: Snapshot, b: Snapshot) {
    forall c, threadId :: Holds(b, c, threadId) ==> exists d :: Holds(a, d, threadId) && Unedited(d, c)
  }

  lemma KeysMatch(a: Snapshot, b: Snapshot)
    requires multiset(Keys(a)) == multiset(Keys(b))
    ensures AllKnown(a, b)
  {
    hide AllComments, Holds;
    forall c, threadId | Holds(b, c, threadId) ensures exists d :: Holds(a, d, threadId) && Unedited(d, c) {
      CollectedAreHeld(b, c, threadId);
      var i :| 0 <= i < |AllComments(b)| && AllComments(b)[i] == Located(c, threadId);
      assert Keys(b)[i] in multiset(Keys(a));
      var j :| 0 <= j < |Keys(a)| && Keys(a)[j] == Keys(b)[i];
      var l := AllComments(a)[j];
      CollectedAreHeld(a, l.comment, l.threadId);
      assert l == Located(l.comment, threadId) && Unedited(l.comment, c);
    }
  }

  /** Snapshots without separators that have the same fingerprint show the same refs and the same comments: each comment
      of either has a counterpart in the other under the same thread, of the same kind, with the same ID, author, type
      and edit time; when parts hold comments of their own kind, the counterpart is in the same part. */
  lemma EqualFingerprintsMatch(a: Snapshot, b: Snapshot)
    requires Clean(a) && Clean(b) && Fingerprint(a) == Fingerprint(b)
    ensures a.headSHA == b.headSHA && a.baseSHA == b.baseSHA && a.baseRefName == b.baseRefName && a.policyBaseSHA == b.policyBaseSHA
    ensures AllKnown(a, b) && AllKnown(b, a)
    ensures FiledByKind(a) && FiledByKind(b) ==> SameParts(a, b)
  {
    hide Clean, Fingerprint, Holds, Keys, FiledByKind, SameParts;
    FingerprintMeaning(a, b);
    KeysMatch(a, b);
    KeysMatch(b, a);
    if FiledByKind(a) && FiledByKind(b) { PartsMatch(a, b); }
  }

  /* Part by part, every comment of b was already in a. */
  ghost predicate SameParts(a: Snapshot, b: Snapshot) {
    && (forall c :: c in b.reviews ==> exists d :: d in a.reviews && Unedited(d, c))
    && (forall c :: c in b.issueComments ==> exists d :: d in a.issueComments && Unedited(d, c))
    && forall t, c :: t in b.threads && c in t.comments ==>
         exists u, d :: u in a.threads && u.id == t.id && d in u.comments && Unedited(d, c)
  }

  lemma PartsMatch(a: Snapshot, b: Snapshot)
    requires AllKnown(a, b) && FiledByKind(a) && FiledByKind(b)
    ensures SameParts(a, b)
  {
    forall c | c in b.reviews ensures exists d :: d in a.reviews && Unedited(d, c) {
      assert Holds(b, c, "");
      var d :| Holds(a, d, "") && Unedited(d, c);
    }
    forall c | c in b.issueComments ensures exists d :: d in a.issueComments && Unedited(d, c) {
      assert Holds(b, c, "");
      var d :| Holds(a, d, "") && Unedited(d, c);
    }
    forall t, c | t in b.threads && c in t.comments
      ensures exists u, d :: u in a.threads && u.id == t.id && d in u.comments && Unedited(d, c)
    {
      assert Holds(b, c, t.id);
      var d :| Holds(a, d, t.id) && Unedited(d, c);
    }
  }

  /* Lists alike but for texts, URLs, creation times and states. */
  ghost predicate Alike(a: seq<Comment>, b: seq<Comment>) {
    |a| == |b| && forall i :: 0 <= i < |a| ==> Unedited(a[i], b[i])
  }

  lemma {:induction false} ThreadKeysAlike(a: seq<Thread>, b: seq<Thread>)
    requires |a| == |b| && forall i :: 0 <= i < |a| ==> a[i].id == b[i].id && Alike(a[i].comments, b[i].comments)
    ensures Map(KeyOf, ThreadComments(a)) == Map(KeyOf, ThreadComments(b))
  {
    if |a| > 0 {
      ThreadKeysAlike(a[1..], b[1..]);
      KeysAlike(a[0].comments, b[0].comments, a[0].id);
      MapAppend(KeyOf, InThread(a[0].comments, a[0].id), ThreadComments(a[1..]));
      MapAppend(KeyOf, InThread(b[0].comments, b[0].id), ThreadComments(b[1..]));
    }
  }

  lemma KeysAlike(a: seq<Comment>, b: seq<Comment>, threadId: string)
    requires Alike(a, b)
    ensures Map(KeyOf, InThread(a, threadId)) == Map(KeyOf, InThread(b, threadId))
  {
  }

  lemma MapAppend<A, B>(f: A -> B, xs: seq<A>, ys: seq<A>)
    ensures Map(f, xs + ys) == Map(f, xs) + Map(f, ys)
  {
  }

  /** The fingerprint forgets everything else: texts, URLs, creation times and review states, paths, lines and the state
      of threads. */
  lemma FingerprintForgetsTheRest(a: Snapshot, b: Snapshot)
    requires a.headSHA == b.headSHA && a.baseSHA == b.baseSHA && a.baseRefName == b.baseRefName && a.policyBaseSHA == b.policyBaseSHA
    requires |a.threads| == |b.threads|
    requires forall i :: 0 <= i < |a.threads| ==> a.threads[i].id == b.threads[i].id && Alike(a.threads[i].comments, b.threads[i].comments)
    requires Alike(a.reviews, b.reviews) && Alike(a.issueComments, b.issueComments)
    ensures Fingerprint(a) == Fingerprint(b)
  {
    hide KeyOf, Alike, Map, Line, InThread, ThreadComments;
    ThreadKeysAlike(a.threads, b.threads);
    KeysAlike(a.reviews, b.reviews, "");
    KeysAlike(a.issueComments, b.issueComments, "");
    PartKeys(a);
    PartKeys(b);
  }

  lemma PartKeys(s: Snapshot)
    ensures Keys(s) == Map(KeyOf, ThreadComments(s.threads)) + Map(KeyOf, InThread(s.reviews, "")) + Map(KeyOf, InThread(s.issueComments, ""))
  {
    hide KeyOf, Map;
    MapAppend(KeyOf, ThreadComments(s.threads) + InThread(s.reviews, ""), InThread(s.issueComments, ""));
    MapAppend(KeyOf, ThreadComments(s.threads), InThread(s.reviews, ""));
  }

  lemma HeaderInjective(a: Snapshot, b: Snapshot)
    requires Header(a) == Header(b)
    ensures SameRefs(a, b)
  {
    assert forall i :: 0 <= i < 4 ==> Header(a)[i] == Header(b)[i];
    assert a.headSHA == Header(a)[0][5..] && b.headSHA == Header(b)[0][5..];
    assert a.baseSHA == Header(a)[1][5..] && b.baseSHA == Header(b)[1][5..];
    assert a.baseRefName == Header(a)[2][8..] && b.baseRefName == Header(b)[2][8..];
    assert a.policyBaseSHA == Header(a)[3][7..] && b.policyBaseSHA == Header(b)[3][7..];
  }

  lemma {:induction false} JoinMerges(parts: seq<string>, i: nat, sep: char)
    requires i + 1 < |parts|
    ensures Join(parts, sep) == Join(parts[..i] + [parts[i] + [sep] + parts[i + 1]] + parts[i + 2..], sep)
  {
    var merged := parts[..i] + [parts[i] + [sep] + parts[i + 1]] + parts[i + 2..];
    if i > 0 {
      JoinMerges(parts[1..], i - 1, sep);
      assert merged[1..] == parts[1..][..i - 1] + [parts[1..][i - 1] + [sep] + parts[1..][i]] + parts[1..][i + 1..];
    } else {
      assert parts[1..][0] == parts[1] && parts[1..][1..] == parts[2..] == merged[1..];
    }
  }

  /* A comment of a different author and type that leaves the same line. */
  lemma LinesCollide(k: Key, x: string)
    ensures Line(k.(author := k.author + "|" + x)) == Line(k.(authorType := x + "|" + k.authorType))
  {
    var parts := [KindName(k.kind), k.id, k.threadId, k.author, x, k.authorType, k.editedAt];
    JoinMerges(parts, 3, '|');
    JoinMerges(parts, 4, '|');
    assert Fields(k.(author := k.author + "|" + x)) == parts[..3] + [k.author + "|" + x] + parts[5..];
    assert Fields(k.(authorType := x + "|" + k.authorType)) == parts[..4] + [x + "|" + k.authorType] + parts[6..];
  }

  lemma OneMoreComment(s: Snapshot, c: Comment)
    ensures Keys(s.(issueComments := s.issueComments + [c])) == Keys(s) + [KeyOf(Located(c, ""))]
  {
    var more := s.(issueComments := s.issueComments + [c]);
    assert AllComments(more) == AllComments(s) + [Located(c, "")];
    assert Map(KeyOf, AllComments(more)) == Map(KeyOf, AllComments(s)) + [KeyOf(Located(c, ""))];
  }

  lemma LastDiffers<A>(xs: seq<A>, a: A, b: A)
    requires a != b
    ensures multiset(xs + [a]) != multiset(xs + [b])
  {
    assert multiset(xs + [a])[a] == multiset(xs)[a] + 1;
    assert multiset(xs + [b])[a] == multiset(xs)[a];
  }

  /** Beyond single lines the fields must hold no '|': any snapshot has two extensions by one issue comment with the
      same fingerprint and different authors. */
  lemma SeparatorsCollide(s: Snapshot, c: Comment, x: string)
    ensures var a := s.(issueComments := s.issueComments + [c.(author := c.author + "|" + x)]);
            var b := s.(issueComments := s.issueComments + [c.(authorType := x + "|" + c.authorType)]);
            Fingerprint(a) == Fingerprint(b) && multiset(Keys(a)) != multiset(Keys(b))
  {
    hide Keys, Line, Map, KeyOf;
    var c1, c2 := c.(author := c.author + "|" + x), c.(authorType := x + "|" + c.authorType);
    OneMoreComment(s, c1);
    OneMoreComment(s, c2);
    CollidingKeys(Keys(s), c, x);
  }

  lemma CollidingKeys(ks: seq<Key>, c: Comment, x: string)
    ensures var k1, k2 := KeyOf(Located(c.(author := c.author + "|" + x), "")), KeyOf(Located(c.(authorType := x + "|" + c.authorType), ""));
            Map(Line, ks + [k1]) == Map(Line, ks + [k2]) && multiset(ks + [k1]) != multiset(ks + [k2])
  {
    hide Line;
    var k := KeyOf(Located(c, ""));
    var k1, k2 := k.(author := c.author + "|" + x), k.(authorType := x + "|" + c.authorType);
    LinesCollide(k, x);
    assert |k1.author| > |k2.author|;
    LastDiffers(ks, k1, k2);
  }
}
