/** The input of follow-up tools, the bodies they compose, and the marker line that ties a body to the comment
    it answers. */
module FollowUpMarker {
  import opened Prelude
  import opened GitHub

  // ---- inputs ----

  /* The kind and the ID as the caller wrote them. */
  datatype SourceRef = SourceRef(kind: string, id: string, threadId: string, url: string)

  datatype Target = Target(owner: string, repo: string, pr: int, expectedHead: string, source: SourceRef)

  datatype Write = Write(target: Target, expectedSnapshot: string, body: string)

  datatype IssueInput = IssueInput(write: Write, reason: string, title: string, labels: seq<string>)

  predicate IsNameChar(c: char) {
    'a' <= c <= 'z' || 'A' <= c <= 'Z' || IsDigit(c) || c in "_.-"
  }

  predicate ValidName(s: string) {
    s != "" && s != "." && s != ".." && forall c :: c in s ==> IsNameChar(c)
  }

  predicate ValidId(s: string) {
    s != "" && s[0] != '0' && forall c :: c in s ==> IsDigit(c)
  }

  /* `thread`: whether a review thread comment may be the source. */
  predicate ValidTarget(t: Target, thread: bool) {
    && ValidName(t.owner) && ValidName(t.repo) && 0 < t.pr <= 0x7FFF_FFFF
    && IsLowerHex(t.expectedHead, 40) && ValidId(t.source.id) && t.source.url == ""
    && if t.source.kind == KindName(ReviewBody) || t.source.kind == KindName(IssueComment) then t.source.threadId == ""
       else t.source.kind == KindName(ThreadComment) && thread && t.source.threadId != ""
  }

  const RESERVED := ["review verdict", "@thread-owl re-review requested", "## レビュー対応サマリ（thread-owl）",
                     "### サイクル状態", "review-raven-source:"]

  predicate ValidBody(body: string) {
    TrimSpace(body) != "" && forall r :: r in RESERVED ==> !Contains(Lower(body), r)
  }

  predicate ValidWrite(w: Write, thread: bool) {
    ValidTarget(w.target, thread) && IsLowerHex(w.expectedSnapshot, 64) && ValidBody(w.body)
  }

  predicate ValidIssue(i: IssueInput) {
    && ValidWrite(i.write, true)
    && i.reason in ["out-of-scope", "deferred", "follow-up"]
    && TrimSpace(i.title) != ""
    && (forall l :: l in i.labels ==> TrimSpace(l) != "")
    && forall a, b :: 0 <= a < b < |i.labels| ==> i.labels[a] != i.labels[b]
  }

  // ---- the marker ----

  const WORD := "Review-Raven-Source:"

  function Marker(t: Target): string {
    WORD + " " + (Lower(t.owner) + "/" + (Lower(t.repo) + "#" + (Decimal(t.pr) + " " + (t.source.kind + ":" + t.source.id))))
  }

  /* strings.ReplaceAll(s, "\r\n", "\n"). */
  function Unix(s: string): string {
    if |s| == 0 then ""
    else if |s| >= 2 && s[0] == '\r' && s[1] == '\n' then "\n" + Unix(s[2..])
    else [s[0]] + Unix(s[1..])
  }

  predicate HasMarker(body: string, marker: string) { marker in Split(Unix(body), '\n') }

  function ReplyBody(url: string, body: string, marker: string): string {
    "元指摘: " + url + "\n\n" + body + "\n\n" + marker
  }

  function IssueBody(body: string, prUrl: string, url: string, head: string, reason: string, marker: string): string {
    body + "\n\n" + ("元PR: " + prUrl) + "\n" + ("元指摘: " + url) + "\n" + ("確認HEAD: " + head) + "\n" + ("理由: " + reason) + "\n\n" + marker
  }

  // ---- lines ----

  function Chomp(line: string): string {
    if line != "" && line[|line| - 1] == '\r' then line[..|line| - 1] else line
  }

  /* All lines but the last lose one carriage return at their end. */
  function ChompAll(lines: seq<string>): seq<string> {
    if |lines| <= 1 then lines else [Chomp(lines[0])] + ChompAll(lines[1..])
  }

  /* What a first character does to the lines of the rest. */
  function Prepend(c: char, lines: seq<string>): seq<string>
    requires |lines| > 0
  {
    if c == '\n' then [""] + lines else [[c] + lines[0]] + lines[1..]
  }

  lemma SplitHead(c: char, rest: string)
    ensures Split([c] + rest, '\n') == Prepend(c, Split(rest, '\n'))
  {
    assert ([c] + rest)[1..] == rest;
  }

  lemma PrependConcat(c: char, x: seq<string>, y: seq<string>)
    requires |x| > 0
    ensures Prepend(c, x + y) == Prepend(c, x) + y
  {
    assert (x + y)[1..] == x[1..] + y;
    if c == '\n' { Reassociate([""], x, y); } else { Reassociate([[c] + x[0]], x[1..], y); }
  }

  lemma {:induction false} SplitConcat(a: string, b: string)
    ensures Split(a + "\n" + b, '\n') == Split(a, '\n') + Split(b, '\n')
  {
    if a == "" {
      SplitHead('\n', b);
      assert a + "\n" + b == ['\n'] + b;
    } else {
      hide Split;
      SplitConcat(a[1..], b);
      SplitHead(a[0], a[1..]);
      SplitHead(a[0], a[1..] + "\n" + b);
      assert [a[0]] + a[1..] == a && [a[0]] + (a[1..] + "\n" + b) == a + "\n" + b;
      PrependConcat(a[0], Split(a[1..], '\n'), Split(b, '\n'));
    }
  }

  lemma {:induction false} UnixLines(s: string)
    ensures Split(Unix(s), '\n') == ChompAll(Split(s, '\n'))
    decreases |s|
  {
    hide Split;
    if s == "" {
      SplitWhole("", '\n');
    } else if |s| >= 2 && s[0] == '\r' && s[1] == '\n' {
      UnixLines(s[2..]);
      SplitHead('\n', Unix(s[2..]));
      assert s == "\r" + "\n" + s[2..];
      SplitConcat("\r", s[2..]);
      SplitWhole("\r", '\n');
      assert Chomp("\r") == "";
    } else {
      UnixLines(s[1..]);
      SplitHead(s[0], s[1..]);
      SplitHead(s[0], Unix(s[1..]));
      assert [s[0]] + s[1..] == s;
      if s[0] == '\r' && Split(s[1..], '\n')[0] == "" && |Split(s[1..], '\n')| > 1 { StartsWithNewline(s[1..]); }
      ChompOne(s[0], Split(s[1..], '\n'));
    }
  }

  lemma ChompOne(c: char, lines: seq<string>)
    requires |lines| > 0 && (c == '\r' && |lines| > 1 ==> lines[0] != "")
    ensures ChompAll(Prepend(c, lines)) == Prepend(c, ChompAll(lines))
  {
    hide Chomp;
    if c == '\n' {
      ChompCons("", lines);
      assert Chomp("") == "" by { ChompChar('x', ""); }
    } else if |lines| > 1 {
      assert [lines[0]] + lines[1..] == lines;
      ChompCons(lines[0], lines[1..]);
      ChompCons([c] + lines[0], lines[1..]);
      ChompChar(c, lines[0]);
    }
  }

  lemma ChompCons(line: string, rest: seq<string>)
    requires |rest| > 0
    ensures ChompAll([line] + rest) == [Chomp(line)] + ChompAll(rest)
  {
    assert ([line] + rest)[1..] == rest;
  }

  lemma ChompChar(c: char, line: string)
    requires c == '\r' ==> line != ""
    ensures Chomp([c] + line) == [c] + Chomp(line) && Chomp("") == ""
  {
  }

  lemma StartsWithNewline(s: string)
    requires |Split(s, '\n')| > 1 && Split(s, '\n')[0] == ""
    ensures |s| > 0 && s[0] == '\n'
  {
  }

  lemma ChompMeaning(line: string)
    ensures Chomp(line) == line || Chomp(line) + "\r" == line
  {
  }

  lemma {:induction false} ChompAllMembers(lines: seq<string>, last: string)
    ensures |ChompAll(lines + [last])| == |lines| + 1
    ensures forall i :: 0 <= i < |lines| ==> ChompAll(lines + [last])[i] == Chomp(lines[i])
    ensures ChompAll(lines + [last])[|lines|] == last
  {
    if |lines| > 0 {
      assert (lines + [last])[1..] == lines[1..] + [last];
      ChompAllMembers(lines[1..], last);
    }
  }

  /* Which text a line comes from. */
  lemma {:induction false} LineIsPart(s: string, i: nat) returns (pre: string, post: string)
    requires i < |Split(s, '\n')|
    ensures s == pre + Split(s, '\n')[i] + post
  {
    if |s| == 0 {
      pre, post := "", "";
    } else if s[0] == '\n' {
      if i == 0 {
        pre, post := "", s;
      } else {
        pre, post := LineIsPart(s[1..], i - 1);
        pre := [s[0]] + pre;
      }
    } else {
      pre, post := LineIsPart(s[1..], i);
      if i == 0 {
        pre, post := FirstLine(s);
      } else {
        pre := [s[0]] + pre;
      }
    }
  }

  lemma {:induction false} FirstLine(s: string) returns (pre: string, post: string)
    ensures pre == "" && s == Split(s, '\n')[0] + post
  {
    pre, post := "", s;
    if |s| > 0 && s[0] != '\n' {
      var pre', post' := FirstLine(s[1..]);
      post := post';
      assert s == [s[0]] + s[1..];
    }
  }

  // ---- finding a marker ----

  /* A text ending in a line of its own has that line, and otherwise only the lines before it. */
  lemma MarkerAtTheEnd(before: string, marker: string, m: string)
    requires '\n' !in marker
    ensures HasMarker(before + "\n" + marker, m) <==>
            m == marker || exists i :: 0 <= i < |Split(before, '\n')| && Chomp(Split(before, '\n')[i]) == m
  {
    hide Chomp, Split, Unix, ChompAll;
    var lines := Split(before, '\n');
    UnixLines(before + "\n" + marker);
    SplitConcat(before, marker);
    SplitWhole(marker, '\n');
    ChompAllMembers(lines, marker);
    var all := ChompAll(lines + [marker]);
    if m in all && m != marker {
      var i :| 0 <= i < |all| && all[i] == m;
      assert i < |lines|;
    }
    assert all[|lines|] == marker;
    assert forall i :: 0 <= i < |lines| ==> all[i] in all;
  }

  lemma ContainsParts(s: string, sub: string) returns (pre: string, post: string)
    requires Contains(s, sub)
    ensures s == pre + sub + post
  {
    var at :| 0 <= at <= |s| - |sub| && OccursAt(s, sub, at);
    pre, post := s[..at], s[at + |sub|..];
  }

  /* No line of a validated body is a marker, with or without a carriage return. */
  lemma BodyHidesNoMarker(body: string, m: string, i: nat)
    requires ValidBody(body) && Contains(m, WORD) && i < |Split(body, '\n')|
    ensures Chomp(Split(body, '\n')[i]) != m
  {
    hide Split, Chomp, ValidBody, Contains;
    if Chomp(Split(body, '\n')[i]) == m {
      var line := Split(body, '\n')[i];
      ChompMeaning(line);
      var cr := if line == m then "" else "\r";
      var pre, post := LineIsPart(body, i);
      var a, b := ContainsParts(m, WORD);
      Nested(pre, a, WORD, b, cr, post);
      ForbiddenInBody(body, pre + a, b + cr + post);
    }
  }

  lemma Nested(pre: string, a: string, word: string, b: string, cr: string, post: string)
    ensures pre + (a + word + b + cr) + post == (pre + a) + word + (b + cr + post)
    ensures a + word + b + "" == a + word + b
  {
  }

  lemma ForbiddenInBody(body: string, pre: string, post: string)
    requires ValidBody(body)
    ensures body != pre + WORD + post
  {
    hide Contains;
    assert RESERVED[4] == "review-raven-source:";
    LowerOfWord();
    if body == pre + WORD + post {
      ContainsWithin(body, pre, WORD, post);
      LowerContains(body, WORD);
    }
  }

  lemma LowerOfWord()
    ensures Lower(WORD) == "review-raven-source:"
  {
    hide Lower;
    var low := "review-raven-source:";
    assert |WORD| == |low|;
    assert forall i :: 0 <= i < |low| ==> low[i] == LowerChar(WORD[i]);
  }

  lemma MarkerShape(t: Target)
    requires ValidTarget(t, true)
    ensures '\n' !in Marker(t) && Contains(Marker(t), WORD) && Marker(t)[0] == 'R'
  {
    hide Lower, Decimal, ValidTarget;
    TargetParts(t);
    var rest := " " + (Lower(t.owner) + "/" + (Lower(t.repo) + "#" + (Decimal(t.pr) + " " + (t.source.kind + ":" + t.source.id))));
    assert Marker(t) == "" + WORD + rest;
    ContainsWithin(Marker(t), "", WORD, rest);
    assert '\n' !in rest && '\n' !in WORD;
  }

  /* The parts of a marker are on one line, and free of the separators that follow them. */
  lemma TargetParts(t: Target)
    requires ValidTarget(t, true)
    ensures '\n' !in Lower(t.owner) && '/' !in Lower(t.owner) && '\n' !in Lower(t.repo) && '#' !in Lower(t.repo)
    ensures '\n' !in Decimal(t.pr) && ' ' !in Decimal(t.pr)
    ensures '\n' !in t.source.kind && ':' !in t.source.kind && '\n' !in t.source.id
  {
    hide Lower, Decimal, KindName;
    LowerOfName(t.owner);
    LowerOfName(t.repo);
    NumberIsDigits(t.pr);
    KindIsWord(ReviewBody);
    KindIsWord(IssueComment);
    KindIsWord(ThreadComment);
  }

  lemma NumberIsDigits(n: int)
    requires n > 0
    ensures forall c :: c in Decimal(n) ==> IsDigit(c)
  {
  }

  lemma KindIsWord(k: Kind)
    ensures '\n' !in KindName(k) && ':' !in KindName(k)
  {
    assert |KindName(ThreadComment)| == 21 && |KindName(ReviewBody)| == 11 && |KindName(IssueComment)| == 13;
  }

  lemma LowerOfName(s: string)
    requires ValidName(s)
    ensures forall c :: c in Lower(s) ==> IsNameChar(c)
  {
    forall c | c in Lower(s) ensures IsNameChar(c) {
      var i :| 0 <= i < |s| && Lower(s)[i] == c;
      assert s[i] in s;
    }
  }

  /** A composed reply carries the marker of its own source and of no other. */
  lemma ReplyCarriesItsMarker(w: Write, thread: bool, url: string, t: Target)
    requires ValidWrite(w, thread) && '\n' !in url && ValidTarget(t, true)
    ensures HasMarker(ReplyBody(url, w.body, Marker(w.target)), Marker(t)) <==> Marker(t) == Marker(w.target)
  {
    hide Marker, Split, Chomp, HasMarker, ValidBody, ValidTarget;
    var m := Marker(w.target);
    WiderTarget(w.target, thread);
    MarkerShape(w.target);
    MarkerShape(t);
    var first := "元指摘: " + url;
    var before := first + "\n" + ("" + "\n" + (w.body + "\n" + ""));
    assert ReplyBody(url, w.body, m) == before + "\n" + m;
    MarkerAtTheEnd(before, m, Marker(t));
    SplitConcat(first, "" + "\n" + (w.body + "\n" + ""));
    SplitConcat("", w.body + "\n" + "");
    SplitConcat(w.body, "");
    SplitWhole(first, '\n');
    SplitWhole("", '\n');
    var lines := Split(before, '\n');
    assert lines == [first, ""] + Split(w.body, '\n') + [""];
    forall i | 0 <= i < |lines| ensures Chomp(lines[i]) != Marker(t) {
      if 2 <= i < |lines| - 1 {
        BodyHidesNoMarker(w.body, Marker(t), i - 2);
      } else {
        assert lines[i] in ["", first];
        NotAMarker(lines[i], Marker(t));
      }
    }
  }

  lemma WiderTarget(t: Target, thread: bool)
    requires ValidTarget(t, thread)
    ensures ValidTarget(t, true)
  {
  }

  /** A composed issue carries the marker of its own source and of no other. */
  lemma IssueCarriesItsMarker(i: IssueInput, prUrl: string, url: string, t: Target)
    requires ValidIssue(i) && '\n' !in prUrl && '\n' !in url && ValidTarget(t, true)
    ensures HasMarker(IssueBody(i.write.body, prUrl, url, i.write.target.expectedHead, i.reason, Marker(i.write.target)), Marker(t))
            <==> Marker(t) == Marker(i.write.target)
  {
    hide Marker, Split, Chomp, HasMarker, ValidBody;
    var m, body := Marker(i.write.target), i.write.body;
    MarkerShape(i.write.target);
    MarkerShape(t);
    var l1, l2 := "元PR: " + prUrl, "元指摘: " + url;
    var l3, l4 := "確認HEAD: " + i.write.target.expectedHead, "理由: " + i.reason;
    var before := IssueLines(body, l1, l2, l3, l4);
    IssueBodyLines(body, prUrl, url, i.write.target.expectedHead, i.reason, m);
    MarkerAtTheEnd(before, m, Marker(t));
    OneLine(i.write.target.expectedHead, i.reason);
    SplitIssueLines(body, l1, l2, l3, l4);
    var lines := Split(before, '\n');
    forall k | 0 <= k < |lines| ensures Chomp(lines[k]) != Marker(t) {
      if k < |Split(body, '\n')| {
        BodyHidesNoMarker(body, Marker(t), k);
      } else {
        assert lines[k] in ["", l1, l2, l3, l4];
        NotAMarker(lines[k], Marker(t));
      }
    }
  }

  lemma NotAMarker(line: string, m: string)
    requires line == "" || line[0] != 'R'
    requires |m| > 0 && m[0] == 'R'
    ensures Chomp(line) != m
  {
  }

  lemma OneLine(head: string, reason: string)
    requires IsLowerHex(head, 40) && reason in ["out-of-scope", "deferred", "follow-up"]
    ensures '\n' !in head && '\n' !in reason
  {
  }

  function IssueLines(body: string, l1: string, l2: string, l3: string, l4: string): string {
    body + "\n" + ("" + "\n" + (l1 + "\n" + (l2 + "\n" + (l3 + "\n" + (l4 + "\n" + "")))))
  }

  lemma IssueBodyLines(body: string, prUrl: string, url: string, head: string, reason: string, m: string)
    ensures IssueBody(body, prUrl, url, head, reason, m)
         == IssueLines(body, "元PR: " + prUrl, "元指摘: " + url, "確認HEAD: " + head, "理由: " + reason) + "\n" + m
  {
    hide IssueLines;
    Paragraphs(body, "元PR: " + prUrl, "元指摘: " + url, "確認HEAD: " + head, "理由: " + reason, m);
  }

  lemma Paragraphs(body: string, l1: string, l2: string, l3: string, l4: string, m: string)
    ensures body + "\n\n" + l1 + "\n" + l2 + "\n" + l3 + "\n" + l4 + "\n\n" + m == IssueLines(body, l1, l2, l3, l4) + "\n" + m
  {
    assert "\n\n" == "\n" + "\n";
  }

  lemma SplitIssueLines(body: string, l1: string, l2: string, l3: string, l4: string)
    requires '\n' !in l1 && '\n' !in l2 && '\n' !in l3 && '\n' !in l4
    ensures Split(IssueLines(body, l1, l2, l3, l4), '\n') == Split(body, '\n') + ["", l1, l2, l3, l4, ""]
  {
    hide Split;
    var r4 := l4 + "\n" + "";
    var r3 := l3 + "\n" + r4;
    var r2 := l2 + "\n" + r3;
    var r1 := l1 + "\n" + r2;
    SplitConcat(body, "" + "\n" + r1);
    SplitConcat("", r1);
    SplitConcat(l1, r2);
    SplitConcat(l2, r3);
    SplitConcat(l3, r4);
    SplitConcat(l4, "");
    SplitWhole("", '\n');
    SplitWhole(l1, '\n');
    SplitWhole(l2, '\n');
    SplitWhole(l3, '\n');
    SplitWhole(l4, '\n');
  }

  /** Two valid targets share a marker exactly when owner and repository agree in lower case and number, kind
      and ID agree. */
  lemma MarkersAgreeIff(a: Target, b: Target)
    requires ValidTarget(a, true) && ValidTarget(b, true)
    ensures Marker(a) == Marker(b) <==>
            Lower(a.owner) == Lower(b.owner) && Lower(a.repo) == Lower(b.repo) && a.pr == b.pr
            && a.source.kind == b.source.kind && a.source.id == b.source.id
  {
    hide Lower, Decimal, ValidTarget;
    if Marker(a) == Marker(b) {
      TargetParts(a);
      TargetParts(b);
      DivideMarkers(a, b);
      DecimalInjective(a.pr, b.pr);
    }
  }

  function AfterKind(t: Target): string { t.source.id }
  function AfterNumber(t: Target): string { t.source.kind + [':'] + AfterKind(t) }
  function AfterRepo(t: Target): string { Decimal(t.pr) + [' '] + AfterNumber(t) }
  function AfterOwner(t: Target): string { Lower(t.repo) + ['#'] + AfterRepo(t) }

  lemma DivideMarkers(a: Target, b: Target)
    requires Marker(a) == Marker(b)
    requires '/' !in Lower(a.owner) && '/' !in Lower(b.owner) && '#' !in Lower(a.repo) && '#' !in Lower(b.repo)
    requires ' ' !in Decimal(a.pr) && ' ' !in Decimal(b.pr) && ':' !in a.source.kind && ':' !in b.source.kind
    ensures Lower(a.owner) == Lower(b.owner) && Lower(a.repo) == Lower(b.repo) && Decimal(a.pr) == Decimal(b.pr)
    ensures a.source.kind == b.source.kind && a.source.id == b.source.id
  {
    MarkerParts(a);
    MarkerParts(b);
    DivideOnce(Lower(a.owner), AfterOwner(a), Lower(b.owner), AfterOwner(b), '/');
    DivideOnce(Lower(a.repo), AfterRepo(a), Lower(b.repo), AfterRepo(b), '#');
    DivideOnce(Decimal(a.pr), AfterNumber(a), Decimal(b.pr), AfterNumber(b), ' ');
    DivideOnce(a.source.kind, AfterKind(a), b.source.kind, AfterKind(b), ':');
  }

  lemma MarkerParts(t: Target)
    ensures Marker(t) == WORD + " " + (Lower(t.owner) + ['/'] + AfterOwner(t))
    ensures Marker(t)[|WORD| + 1..] == Lower(t.owner) + ['/'] + AfterOwner(t)
  {
  }

  /** GitHub may store a body with the other line ending; its lines, and so its marker, are the same. */
  function Crlf(s: string): string {
    if |s| == 0 then "" else (if s[0] == '\n' then "\r\n" else [s[0]]) + Crlf(s[1..])
  }

  lemma {:induction false} UnixUndoesCrlf(s: string)
    ensures Unix(Crlf(s)) == s
    ensures '\r' !in s ==> Unix(s) == s
  {
    if |s| > 0 {
      UnixUndoesCrlf(s[1..]);
      var t := Crlf(s[1..]);
      if s[0] == '\n' {
        assert Crlf(s)[2..] == t;
      } else {
        assert Crlf(s)[1..] == t;
        if s[0] == '\r' && |t| > 0 && t[0] == '\n' { CrlfHead(s[1..]); }
      }
      assert s == [s[0]] + s[1..];
    }
  }

  lemma CrlfHead(s: string)
    ensures |Crlf(s)| > 0 ==> Crlf(s)[0] != '\n'
  {
  }

  lemma MarkerSurvivesCrlf(body: string, marker: string)
    requires '\r' !in body
    ensures HasMarker(Crlf(body), marker) <==> HasMarker(body, marker)
  {
    UnixUndoesCrlf(body);
  }

  // ---- what a composed text says ----

  /* The last line of a composed text. */
  function SourceLine(t: Target): string {
    "Review-Raven-Source: " + Lower(t.owner) + "/" + Lower(t.repo) + "#" + Decimal(t.pr) + " " + t.source.kind + ":" + t.source.id
  }

  /** Line by line: the URL of the comment answered, the text, and the source. */
  ghost predicate SaysReply(body: string, url: string, text: string, t: Target) {
    Split(body, '\n') == Split("元指摘: " + url, '\n') + [""] + Split(text, '\n') + ["", SourceLine(t)]
  }

  /** Line by line: the text, the pull request, the comment, the head and the reason, and the source. */
  ghost predicate SaysIssue(body: string, text: string, prUrl: string, url: string, head: string, reason: string, t: Target) {
    Split(body, '\n') ==
      Split(text, '\n') + [""] + Split("元PR: " + prUrl, '\n') + Split("元指摘: " + url, '\n')
      + ["確認HEAD: " + head, "理由: " + reason, "", SourceLine(t)]
  }

  lemma MarkerIsSourceLine(t: Target)
    ensures Marker(t) == SourceLine(t)
  {
    hide Lower, Decimal;
  }

  /** A composed reply says the URL, the whole text and the source, each on lines of its own. */
  lemma ReplyBodySays(url: string, text: string, t: Target)
    requires ValidTarget(t, true)
    ensures SaysReply(ReplyBody(url, text, Marker(t)), url, text, t)
  {
    hide Marker, Split, ValidTarget;
    MarkerShape(t);
    MarkerIsSourceLine(t);
    var m, first := Marker(t), "元指摘: " + url;
    var rest := text + "\n" + ("" + "\n" + m);
    assert ReplyBody(url, text, m) == first + "\n" + ("" + "\n" + rest) by { ReplyParagraphs(first, text, m); }
    SplitConcat(first, "" + "\n" + rest);
    SplitConcat("", rest);
    SplitConcat(text, "" + "\n" + m);
    SplitConcat("", m);
    SplitWhole("", '\n');
    SplitWhole(m, '\n');
  }

  lemma ReplyParagraphs(first: string, text: string, m: string)
    ensures first + "\n\n" + text + "\n\n" + m == first + "\n" + ("" + "\n" + (text + "\n" + ("" + "\n" + m)))
  {
    assert "\n\n" == "\n" + "\n";
  }

  /** A composed issue says the text, the pull request, the comment, the head, the reason and the source, each on lines of
      its own. */
  lemma IssueBodySays(text: string, prUrl: string, url: string, head: string, reason: string, t: Target)
    requires ValidTarget(t, true) && '\n' !in head && '\n' !in reason
    ensures SaysIssue(IssueBody(text, prUrl, url, head, reason, Marker(t)), text, prUrl, url, head, reason, t)
  {
    hide Marker, Split, ValidTarget;
    MarkerShape(t);
    MarkerIsSourceLine(t);
    var m := Marker(t);
    var l1, l2, l3, l4 := "元PR: " + prUrl, "元指摘: " + url, "確認HEAD: " + head, "理由: " + reason;
    IssueParagraphs(text, l1, l2, l3, l4, m);
    var r4 := "" + "\n" + m;
    var r3 := l4 + "\n" + r4;
    var r2 := l3 + "\n" + r3;
    var r1 := l2 + "\n" + r2;
    SplitConcat(text, "" + "\n" + (l1 + "\n" + r1));
    SplitConcat("", l1 + "\n" + r1);
    SplitConcat(l1, r1);
    SplitConcat(l2, r2);
    SplitConcat(l3, r3);
    SplitConcat(l4, r4);
    SplitConcat("", m);
    SplitWhole("", '\n');
    SplitWhole(l3, '\n');
    SplitWhole(l4, '\n');
    SplitWhole(m, '\n');
  }

  lemma IssueParagraphs(text: string, l1: string, l2: string, l3: string, l4: string, m: string)
    ensures text + "\n\n" + l1 + "\n" + l2 + "\n" + l3 + "\n" + l4 + "\n\n" + m
         == text + "\n" + ("" + "\n" + (l1 + "\n" + (l2 + "\n" + (l3 + "\n" + (l4 + "\n" + ("" + "\n" + m))))))
  {
    assert "\n\n" == "\n" + "\n";
  }
}
