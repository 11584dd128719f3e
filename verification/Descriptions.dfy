/** Replacing the description of a pull request: one guarded write and its read-back. */
module Descriptions {
  import opened Prelude
  import opened GitHub
  import opened TrustedAuthors
  import opened FollowUpMarker
  import FollowUp
  import opened FollowUpGuarantees

  datatype Update = Update(owner: string, repo: string, pr: int, expectedHead: string, expectedHash: string, body: string)

  datatype Error =
    | InvalidInput | ReadFailed | PreconditionFailed | AppIdentityFailed
    | UpdateOutcomeUnknown | PostUpdateMismatch

  predicate MayHaveChanged(e: Error) { e.UpdateOutcomeUnknown? || e.PostUpdateMismatch? }

  datatype Outcome = Unchanged(description: Description) | Updated(description: Description) | Failed(error: Error)

  predicate ValidTarget(u: Update) { ValidName(u.owner) && ValidName(u.repo) && u.pr > 0 }

  predicate ValidUpdate(u: Update) { ValidTarget(u) && IsLowerHex(u.expectedHead, 40) && IsLowerHex(u.expectedHash, 64) }

  /* What the query answered, as far as it identifies a pull request and its people. */
  predicate Complete(d: Description) {
    && d.url != "" && IsLowerHex(d.headSHA, 40) && d.state in ["OPEN", "CLOSED", "MERGED"]
    && (d.originalAuthor.Some? ==> FollowUp.IsIdentified(d.originalAuthor.value))
    && (d.lastEditor.Some? ==> FollowUp.IsIdentified(d.lastEditor.value))
  }

  function GetPRDescription(w: World, log: Log): (Fallible<Description>, Log) {
    var d := w.describe(log);
    (if d.Ok? && Complete(d.value) then d else Err, log + [CallDescribe(d)])
  }

  /* strings.EqualFold on logins, which GitHub limits to ASCII. */
  predicate EqualFold(a: string, b: string) { Fold(a) == Fold(b) }

  /* The same original author before and after: by node ID, or none at all. */
  predicate SameAuthor(a: Option<Actor>, b: Option<Actor>) {
    (a.None? && b.None?) || (a.Some? && b.Some? && a.value.nodeId == b.value.nodeId)
  }

  /* GraphQL leaves out the suffix of a Bot's REST login. */
  predicate EditedBy(editor: Option<Actor>, bot: Actor) {
    && editor.Some? && editor.value.typ == "Bot" && editor.value.nodeId == bot.nodeId
    && (EqualFold(editor.value.login, bot.login) || EqualFold(editor.value.login, TrimSuffix(bot.login, BOT_SUFFIX)))
  }

  predicate ReadsBack(before: Description, after: Description, u: Update, bot: Actor) {
    && after.state == "OPEN" && after.headSHA == u.expectedHead && after.body == u.body
    && SameAuthor(before.originalAuthor, after.originalAuthor) && EditedBy(after.lastEditor, bot)
  }

  function Patch(w: World, log: Log, u: Update, before: Description, bot: Actor): (Outcome, Log) {
    var ok := w.patch(log, u.body);
    var log1 := log + [CallPatch(u.body, ok)];
    if !ok then (Failed(UpdateOutcomeUnknown), log1)
    else
      var (after, log2) := GetPRDescription(w, log1);
      if after.Err? then (Failed(UpdateOutcomeUnknown), log2)
      else if !ReadsBack(before, after.value, u, bot) then (Failed(PostUpdateMismatch), log2)
      else (Updated(after.value), log2)
  }

  /** UpdatePRDescription. */
  function UpdatePRDescription(w: World, log: Log, u: Update, appLogin: string): (Outcome, Log) {
    if !ValidUpdate(u) then (Failed(InvalidInput), log)
    else
      var (before, log1) := GetPRDescription(w, log);
      if before.Err? then (Failed(ReadFailed), log1)
      else if before.value.state != "OPEN" || before.value.headSHA != u.expectedHead || w.sha256(before.value.body) != u.expectedHash then
        (Failed(PreconditionFailed), log1)
      else if before.value.body == u.body then (Unchanged(before.value), log1)
      else if appLogin == "" then (Failed(AppIdentityFailed), log1)
      else
        var bot := w.bot(log1, appLogin);
        var log2 := log1 + [CallBot(appLogin, bot)];
        if bot.Err? || bot.value.typ != "Bot" || !EqualFold(bot.value.login, appLogin) || bot.value.nodeId == "" then
          (Failed(AppIdentityFailed), log2)
        else Patch(w, log2, u, before.value, bot.value)
  }

  /* The write at k came right after the App was identified and the description was read as expected. */
  ghost predicate GuardedPatch(w: World, log: Log, log': Log, u: Update, appLogin: string, k: nat) {
    && OneWrite(log, log', k) && k >= |log| + 2 && log'[k].CallPatch? && log'[k].body == u.body
    && log'[k - 2].CallDescribe? && log'[k - 2].description.Ok?
    && log'[k - 1].CallBot? && log'[k - 1].bot.Ok? && log'[k - 1].bot.value.typ == "Bot" && log'[k - 1].bot.value.nodeId != ""
    && log'[k - 1].login == appLogin != "" && Fold(log'[k - 1].bot.value.login) == Fold(appLogin)
    && var before := log'[k - 2].description.value;
       before.state == "OPEN" && before.headSHA == u.expectedHead && w.sha256(before.body) == u.expectedHash && before.body != u.body
  }

  lemma UpdateTrace(w: World, log: Log, u: Update, appLogin: string) returns (k: nat)
    ensures var (r, log') := UpdatePRDescription(w, log, u, appLogin);
            if FollowUp.Quiet(log, log') then (r.Unchanged? && r.description.body == u.body) || (r.Failed? && !MayHaveChanged(r.error))
            else GuardedPatch(w, log, log', u, appLogin, k) && (r.Updated? || (r.Failed? && MayHaveChanged(r.error)))
  {
    hide Complete, Fold, ReadsBack, ValidUpdate;
    k := |log| + 2;
    var log' := UpdatePRDescription(w, log, u, appLogin).1;
    assert |log'| > k ==> log'[k].IsWrite();
  }

  /** A description is written at most once. An error says that something may have changed exactly when the
      write was attempted; "unchanged" means no write, "updated" exactly one, under the expectations of the caller. */
  lemma UpdateWritesOnce(w: World, log: Log, u: Update, appLogin: string)
    ensures var (r, log') := UpdatePRDescription(w, log, u, appLogin);
            && log <= log' && Writes(log) <= Writes(log') <= Writes(log) + 1
            && (r.Failed? ==> (MayHaveChanged(r.error) <==> Writes(log') == Writes(log) + 1))
            && (r.Unchanged? ==> Writes(log') == Writes(log) && r.description.body == u.body)
            && (r.Updated? ==> Writes(log') == Writes(log) + 1)
    ensures var log' := UpdatePRDescription(w, log, u, appLogin).1;
            Writes(log') == Writes(log) + 1 ==> exists k :: GuardedPatch(w, log, log', u, appLogin, k)
  {
    var k := UpdateTrace(w, log, u, appLogin);
    var (r, log') := UpdatePRDescription(w, log, u, appLogin);
    hide UpdatePRDescription;
    if FollowUp.Quiet(log, log') { QuietCounts(log, log'); } else { OneWriteCounts(log, log', k); }
  }

  /** An update that succeeds leaves the body asked for, edited by the identified bot, with the original author
      and the expected head: what the last read showed. */
  lemma UpdateReadsBack(w: World, log: Log, u: Update, appLogin: string)
    requires UpdatePRDescription(w, log, u, appLogin).0.Updated?
    ensures var (r, log') := UpdatePRDescription(w, log, u, appLogin);
            && |log'| == |log| + 4
            && log'[|log| + 1].CallBot? && log'[|log| + 1].bot.Ok?
            && log'[|log| + 3] == CallDescribe(Ok(r.description))
            && r.description.state == "OPEN" && r.description.headSHA == u.expectedHead && r.description.body == u.body
            && r.description.lastEditor.Some? && r.description.lastEditor.value.nodeId == log'[|log| + 1].bot.value.nodeId
            && r.description.lastEditor.value.typ == "Bot" && log'[|log| + 1].login == appLogin != ""
            && Fold(log'[|log| + 1].bot.value.login) == Fold(appLogin)
            && SpelledAlike(r.description.lastEditor.value.login, log'[|log| + 1].bot.value.login)
            && r.description.url != "" && IsLowerHex(r.description.headSHA, 40)
            && log'[|log|].CallDescribe? && log'[|log|].description.Ok?
            && var before, after := log'[|log|].description.value.originalAuthor, r.description.originalAuthor;
               if before.None? then after.None? else after.Some? && after.value.nodeId == before.value.nodeId != ""
  {
    hide ValidUpdate, Fold;
  }

  /* The same login but for case, and for a "[bot]" that the second may end in. */
  predicate SpelledAlike(a: string, b: string) {
    Fold(a) == Fold(b) || (|b| >= 5 && b[|b| - 5..] == "[bot]" && Fold(a) == Fold(b[..|b| - 5]))
  }
}
