/** The allowlist of comment authors: one spelling per login, and the parsed list of them. */
module TrustedAuthors {
  import opened Prelude

  const BOT_SUFFIX := "[bot]"

  function FoldChar(c: char): char {
    if 'A' <= c <= 'Z' then (c as int + ('a' as int - 'A' as int)) as char else c
  }

  function Fold(login: string): (s: string)
    ensures |s| == |login|
    ensures forall i :: 0 <= i < |login| ==> s[i] == FoldChar(login[i])
  {
    if login == "" then "" else [FoldChar(login[0])] + Fold(login[1..])
  }

  predicate EndsWith(s: string, suffix: string) {
    |suffix| <= |s| && s[|s| - |suffix|..] == suffix
  }

  function TrimSuffix(s: string, suffix: string): string {
    if EndsWith(s, suffix) then s[..|s| - |suffix|] else s
  }

  function Normalize(login: string): string {
    TrimSuffix(Fold(login), BOT_SUFFIX)
  }

  /* Lowers the letters of a byte copy in place, then cuts the suffix. */
  method NormalizeLogin(login: string) returns (r: string)
    ensures r == Normalize(login)
  {
    var b := new char[|login|](i requires 0 <= i < |login| => login[i]);
    for i := 0 to b.Length
      invariant forall k :: 0 <= k < i ==> b[k] == FoldChar(login[k])
      invariant forall k :: i <= k < b.Length ==> b[k] == login[k]
    {
      if 'A' <= b[i] <= 'Z' {
        b[i] := (b[i] as int + ('a' as int - 'A' as int)) as char;
      }
    }
    assert b[..] == Fold(login);
    r := TrimSuffix(b[..], BOT_SUFFIX);
  }

  /* The character in lower case, as far as ASCII letters go. */
  predicate LowerOf(low: char, c: char) {
    if 'A' <= c <= 'Z' then low as int == c as int + 32 else low == c
  }

  /* It ends in "[bot]", in any case. */
  predicate EndsInBot(login: string) {
    var n := |login|;
    && n >= 5 && login[n - 5] == '[' && (login[n - 4] == 'b' || login[n - 4] == 'B') && (login[n - 3] == 'o' || login[n - 3] == 'O')
    && (login[n - 2] == 't' || login[n - 2] == 'T') && login[n - 1] == ']'
  }

  /** One spelling per login: letters in lower case, and one "[bot]" at the end, in any case, left out. */
  lemma NormalizeSpells(login: string)
    ensures var r := Normalize(login);
            && |r| == (if EndsInBot(login) then |login| - 5 else |login|)
            && forall i :: 0 <= i < |r| ==> LowerOf(r[i], login[i])
  {
    FoldedSuffix(login);
  }

  lemma FoldedSuffix(login: string)
    ensures EndsWith(Fold(login), BOT_SUFFIX) <==> EndsInBot(login)
  {
    var n, folded := |login|, Fold(login);
    if n >= 5 {
      var end := folded[n - 5..];
      assert end == [folded[n - 5], folded[n - 4], folded[n - 3], folded[n - 2], folded[n - 1]];
      assert BOT_SUFFIX == ['[', 'b', 'o', 't', ']'];
    }
  }

  predicate IsAlnum(c: char) { 'a' <= c <= 'z' || '0' <= c <= '9' }

  /* The login pattern: ASCII alphanumerics and hyphens, no hyphen at either end. */
  predicate IsLogin(s: string) {
    |s| > 0 && IsAlnum(s[0]) && IsAlnum(s[|s| - 1]) && forall c :: c in s ==> IsAlnum(c) || c == '-'
  }

  lemma LoginIsNormal(s: string)
    requires IsLogin(s)
    ensures Normalize(s) == s && TrimSpace(s) == s && ',' !in s
  {
    assert Fold(s) == s by {
      forall i | 0 <= i < |s| ensures FoldChar(s[i]) == s[i] { assert s[i] in s; }
    }
    if |s| >= |BOT_SUFFIX| {
      assert s[|s| - |BOT_SUFFIX|..][4] == s[|s| - 1];
    }
    assert !IsSpace(s[0]) && !IsSpace(s[|s| - 1]);
  }

  lemma FoldStable(s: string)
    ensures Fold(Fold(s)) == Fold(s) && forall i :: 0 <= i <= |s| ==> Fold(Fold(s)[..i]) == Fold(s)[..i]
  {
    hide Fold;
    forall i | 0 <= i <= |s| ensures Fold(Fold(s)[..i]) == Fold(s)[..i] {
    }
    assert Fold(s)[..|s|] == Fold(s);
  }

  lemma FoldAppend(a: string, b: string)
    ensures Fold(a + b) == Fold(a) + Fold(b)
  {
    hide Fold;
    var s, r := Fold(a + b), Fold(a) + Fold(b);
    assert |s| == |r|;
    forall i | 0 <= i < |s| ensures s[i] == r[i] {
      if i >= |a| { assert (a + b)[i] == b[i - |a|]; }
    }
  }

  lemma FoldOfSuffix()
    ensures Fold(BOT_SUFFIX) == BOT_SUFFIX
  {
    hide Fold;
    var s := Fold(BOT_SUFFIX);
    assert forall i :: 0 <= i < |s| ==> s[i] == BOT_SUFFIX[i];
  }

  /** The REST spelling of an App ("name[bot]") and its GraphQL spelling ("name") compare equal, unless
      the name itself carries the suffix. */
  lemma BotSpellingsAgree(login: string)
    ensures Normalize(login + BOT_SUFFIX) == Fold(login)
    ensures Normalize(login + BOT_SUFFIX) == Normalize(login) <==> !EndsWith(Fold(login), BOT_SUFFIX)
  {
    hide Fold;
    FoldAppend(login, BOT_SUFFIX);
    FoldOfSuffix();
    var s := Fold(login) + BOT_SUFFIX;
    assert s[|login|..] == BOT_SUFFIX && s[..|login|] == Fold(login);
    assert EndsWith(s, BOT_SUFFIX);
  }

  lemma EndsWithTwice(s: string, suffix: string)
    ensures EndsWith(s, suffix + suffix) <==> EndsWith(s, suffix) && EndsWith(s[..|s| - |suffix|], suffix)
  {
    var n := |suffix|;
    if 2 * n <= |s| {
      var end := s[|s| - 2 * n..];
      assert end == s[..|s| - n][|s| - 2 * n..] + s[|s| - n..];
      assert end[n..] == s[|s| - n..] && end[..n] == s[..|s| - n][|s| - 2 * n..];
      assert (suffix + suffix)[..n] == suffix == (suffix + suffix)[n..];
    }
  }

  /** Normalizing is not idempotent: a second pass changes the login exactly when the suffix is doubled. */
  lemma NormalizeTwice(login: string)
    ensures Normalize(Normalize(login)) == Normalize(login) <==> !EndsWith(Fold(login), BOT_SUFFIX + BOT_SUFFIX)
  {
    FoldStable(login);
    EndsWithTwice(Fold(login), BOT_SUFFIX);
    assert Fold(login)[..|login|] == Fold(login);
  }

  /* The entries of the comma-separated text, in order and normalized; blank ones are skipped. */
  function Entries(parts: seq<string>): seq<string> {
    if |parts| == 0 then []
    else if TrimSpace(parts[0]) == "" then Entries(parts[1..])
    else [Normalize(TrimSpace(parts[0]))] + Entries(parts[1..])
  }

  function Collect(entries: seq<string>, logins: seq<string>): Option<seq<string>> {
    if |entries| == 0 then Some(logins)
    else if !IsLogin(entries[0]) then None
    else Collect(entries[1..], if entries[0] in logins then logins else logins + [entries[0]])
  }

  /* None stands for the error that stops startup. */
  function ParseAllowlist(raw: string): Option<seq<string>> {
    Collect(Entries(Split(raw, ',')), [])
  }

  method Parse(raw: string) returns (r: Option<seq<string>>)
    ensures r == ParseAllowlist(raw)
  {
    var logins: seq<string> := [];
    var seen: set<string> := {};
    var parts := Split(raw, ',');
    var i := 0;
    while i < |parts|
      invariant 0 <= i <= |parts|
      invariant seen == set x | x in logins
      invariant ParseAllowlist(raw) == Collect(Entries(parts[i..]), logins)
    {
      assert parts[i..][1..] == parts[i + 1..];
      var entry := TrimSpace(parts[i]);
      i := i + 1;
      if entry == "" {
        continue;
      }
      var normalized := NormalizeLogin(entry);
      assert Entries(parts[i - 1..])[1..] == Entries(parts[i..]);
      if !IsLogin(normalized) {
        return None;
      }
      if normalized in seen {
        continue;
      }
      seen := seen + {normalized};
      logins := logins + [normalized];
    }
    return Some(logins);
  }

  /** `out` lists every entry once, each at the place of its first appearance. */
  ghost predicate FirstAppearances(entries: seq<string>, out: seq<string>) {
    && (forall i, j :: 0 <= i < j < |out| ==> out[i] != out[j])
    && (forall x :: x in entries ==> x in out)
    && forall j :: 0 <= j < |out| ==> AppearsAfterItsPredecessors(entries, out, j)
  }

  ghost predicate AppearsAfterItsPredecessors(entries: seq<string>, out: seq<string>, j: nat)
    requires j < |out|
  {
    exists k :: 0 <= k < |entries| && entries[k] == out[j] && out[j] !in entries[..k]
                && forall i :: 0 <= i < j ==> out[i] in entries[..k]
  }

  lemma AppearanceExtends(done: seq<string>, x: string, logins: seq<string>)
    requires FirstAppearances(done, logins)
    ensures FirstAppearances(done + [x], if x in logins then logins else logins + [x])
  {
    var entries := done + [x];
    var out := if x in logins then logins else logins + [x];
    forall j | 0 <= j < |out| ensures AppearsAfterItsPredecessors(entries, out, j) {
      if j < |logins| {
        assert AppearsAfterItsPredecessors(done, logins, j);
        var k :| 0 <= k < |done| && done[k] == logins[j] && logins[j] !in done[..k]
                 && forall i :: 0 <= i < j ==> logins[i] in done[..k];
        assert entries[..k] == done[..k] && entries[k] == out[j];
      } else {
        assert entries[..|done|] == done;
        assert x !in done;
        forall i | 0 <= i < j ensures out[i] in done {
          assert AppearsAfterItsPredecessors(done, logins, i);
        }
        assert entries[|done|] == out[j];
      }
    }
  }

  lemma {:induction false} CollectLists(done: seq<string>, rest: seq<string>, logins: seq<string>)
    requires FirstAppearances(done, logins) && forall x :: x in logins ==> IsLogin(x)
    ensures Collect(rest, logins).Some? <==> forall x :: x in rest ==> IsLogin(x)
    ensures Collect(rest, logins).Some? ==>
              FirstAppearances(done + rest, Collect(rest, logins).value)
              && forall x :: x in Collect(rest, logins).value ==> IsLogin(x)
    decreases |rest|
  {
    if |rest| == 0 {
      assert done + rest == done;
    } else if IsLogin(rest[0]) {
      var next := if rest[0] in logins then logins else logins + [rest[0]];
      AppearanceExtends(done, rest[0], logins);
      CollectLists(done + [rest[0]], rest[1..], next);
      assert done + [rest[0]] + rest[1..] == done + rest;
      assert rest == [rest[0]] + rest[1..];
    }
  }

  /** What parsing promises: it fails exactly when some entry is not a login, and otherwise yields the
      entries without repetition, in order of first appearance, each a login that Normalize keeps. */
  lemma ParseMeaning(raw: string)
    ensures ParseAllowlist(raw).Some? <==> forall x :: x in Entries(Split(raw, ',')) ==> IsLogin(x)
    ensures ParseAllowlist(raw).Some? <==>
            forall part :: part in Split(raw, ',') && TrimSpace(part) != "" ==> LooksLikeLogin(Normalize(TrimSpace(part)))
    ensures ParseAllowlist(raw).Some? ==>
              forall x :: x in ParseAllowlist(raw).value <==>
                exists part :: part in Split(raw, ',') && TrimSpace(part) != "" && x == Normalize(TrimSpace(part))
    ensures ParseAllowlist(raw).Some? ==>
              FirstAppearances(Entries(Split(raw, ',')), ParseAllowlist(raw).value)
    ensures ParseAllowlist(raw).Some? ==>
              forall x :: x in ParseAllowlist(raw).value ==> IsLogin(x) && Normalize(x) == x
  {
    var entries := Entries(Split(raw, ','));
    CollectLists([], entries, []);
    assert [] + entries == entries;
    forall x | IsLogin(x) ensures Normalize(x) == x { LoginIsNormal(x); }
    PartsMean(raw);
  }

  lemma PartsMean(raw: string)
    ensures (forall x :: x in Entries(Split(raw, ',')) ==> IsLogin(x)) <==>
            forall part :: part in Split(raw, ',') && TrimSpace(part) != "" ==> LooksLikeLogin(Normalize(TrimSpace(part)))
    ensures ParseAllowlist(raw).Some? && FirstAppearances(Entries(Split(raw, ',')), ParseAllowlist(raw).value) ==>
              forall x :: x in ParseAllowlist(raw).value <==>
                exists part :: part in Split(raw, ',') && TrimSpace(part) != "" && x == Normalize(TrimSpace(part))
  {
    hide Normalize, TrimSpace, Entries, ParseAllowlist, IsLogin, LooksLikeLogin, Split;
    var parts, entries := Split(raw, ','), Entries(Split(raw, ','));
    forall x ensures x in entries <==> exists part :: part in parts && TrimSpace(part) != "" && x == Normalize(TrimSpace(part)) {
      EntriesMean(parts, x);
    }
    forall s ensures IsLogin(s) <==> LooksLikeLogin(s) { LoginsLookLikeIt(s); }
    if ParseAllowlist(raw).Some? && FirstAppearances(entries, ParseAllowlist(raw).value) {
      AppearancesAreEntries(entries, ParseAllowlist(raw).value);
    }
  }

  lemma AppearancesAreEntries(entries: seq<string>, out: seq<string>)
    requires FirstAppearances(entries, out)
    ensures forall x :: x in out <==> x in entries
  {
    forall x | x in out ensures x in entries {
      var j :| 0 <= j < |out| && out[j] == x;
      assert AppearsAfterItsPredecessors(entries, out, j);
    }
  }

  /* Lower-case letters, digits and hyphens, with no hyphen at either end. */
  predicate LooksLikeLogin(s: string) {
    && s != "" && s[0] != '-' && s[|s| - 1] != '-'
    && forall i :: 0 <= i < |s| ==> 'a' <= s[i] <= 'z' || '0' <= s[i] <= '9' || s[i] == '-'
  }

  lemma {:induction false} EntriesMean(parts: seq<string>, x: string)
    ensures x in Entries(parts) <==> exists part :: part in parts && TrimSpace(part) != "" && x == Normalize(TrimSpace(part))
  {
    hide Normalize, TrimSpace;
    if |parts| > 0 {
      var first, rest := parts[0], parts[1..];
      EntriesMean(rest, x);
      assert forall part :: part in parts <==> part == first || part in rest by { assert parts == [first] + rest; }
      if TrimSpace(first) == "" {
        assert Entries(parts) == Entries(rest);
      } else {
        assert Entries(parts) == [Normalize(TrimSpace(first))] + Entries(rest);
        if x == Normalize(TrimSpace(first)) { assert x == Entries(parts)[0] && first in parts; }
      }
    }
  }

  lemma LoginsLookLikeIt(s: string)
    ensures IsLogin(s) <==> LooksLikeLogin(s)
  {
    if LooksLikeLogin(s) {
      forall c | c in s ensures IsAlnum(c) || c == '-' { }
    }
    if IsLogin(s) {
      forall i | 0 <= i < |s| ensures 'a' <= s[i] <= 'z' || '0' <= s[i] <= '9' || s[i] == '-' { assert s[i] in s; }
    }
  }

  lemma {:induction false} CollectKeepsDistinct(entries: seq<string>, logins: seq<string>)
    requires forall x :: x in entries ==> IsLogin(x) && x !in logins
    requires forall i, j :: 0 <= i < j < |entries| ==> entries[i] != entries[j]
    ensures Collect(entries, logins) == Some(logins + entries)
  {
    if |entries| == 0 {
      assert logins + entries == logins;
    } else {
      CollectKeepsDistinct(entries[1..], logins + [entries[0]]);
      assert logins + [entries[0]] + entries[1..] == logins + entries;
    }
  }

  lemma {:induction false} LoginsAreTheirEntries(logins: seq<string>)
    requires forall x :: x in logins ==> IsLogin(x)
    ensures Entries(logins) == logins
  {
    if |logins| > 0 {
      LoginIsNormal(logins[0]);
      LoginsAreTheirEntries(logins[1..]);
    }
  }

  /** Writing the parsed list back with commas and parsing it again changes nothing. */
  lemma ParseRoundTrip(raw: string)
    requires ParseAllowlist(raw).Some?
    ensures ParseAllowlist(Join(ParseAllowlist(raw).value, ',')) == ParseAllowlist(raw)
  {
    ParseMeaning(raw);
    var logins := ParseAllowlist(raw).value;
    if logins != [] {
      forall x | x in logins ensures ',' !in x { LoginIsNormal(x); }
      SplitJoin(logins, ',');
      LoginsAreTheirEntries(logins);
      CollectKeepsDistinct(logins, []);
      assert [] + logins == logins;
    }
  }
}
