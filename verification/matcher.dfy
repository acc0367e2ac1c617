/**
 * `ErrorMatcher` (notes/regex_patterns.go): classifies git failures by pattern matches on the
 * error text (`errStr`) and on the captured stderr. Every pattern is an unanchored literal, so
 * a match is a substring test; `(?i)` patterns are case-insensitive, the `exit code` and
 * `exit status` patterns are not, and `no notes? found` is the two literals it can match.
 */
module Matcher {
  import opened Wrappers
  import opened Text
  import opened NoteErrors
  import opened GitExec
  import opened Refs

  /** `noteNotFoundPattern`: `(?i)no notes? found`. */
  predicate MentionsNoNoteFound(s: string) {
    ContainsFold(s, "no note found") || ContainsFold(s, "no notes found")
  }

  /** `IsNoteNotFoundError` (notes/regex_patterns.go:51-56). */
  predicate IsNoteNotFoundError(errStr: string, stderr: string) {
    Contains(errStr, "exit code 1")
    && (MentionsNoNoteFound(stderr)
        || ContainsFold(errStr, "no note found for object")
        || ContainsFold(errStr, "failed to get note"))
  }

  /** `IsInvalidCommitError` (notes/regex_patterns.go:59-62). */
  predicate IsInvalidCommitError(errStr: string) {
    ContainsFold(errStr, "fatal: failed to resolve") || Contains(errStr, "exit code 128")
  }

  /** `IsRemoteRefNotFoundError` (notes/regex_patterns.go:65-71). */
  predicate IsRemoteRefNotFoundError(stderr: string, errStr: string) {
    ContainsFold(stderr, "couldn't find remote ref")
    || ContainsFold(stderr, "no such ref")
    || ContainsFold(stderr, "fetch-pack: invalid refspec")
    || (Contains(errStr, "exit status 1") && stderr == "")
    || Contains(errStr, "exit status 128")
  }

  /** `IsNotesRefNotFoundError` (notes/regex_patterns.go:74-78). */
  predicate IsNotesRefNotFoundError(errMsg: string) {
    ContainsFold(errMsg, "bad notes ref") || ContainsFold(errMsg, "does not exist") || MentionsNoNoteFound(errMsg)
  }

  /** `IsDeleteNoteNotFoundError` (notes/regex_patterns.go:81-84). */
  predicate IsDeleteNoteNotFoundError(stderr: string, errStr: string) {
    ContainsFold(stderr, "object has no note") || Contains(errStr, "exit code 1")
  }

  /** `IsPushRetryableError` (notes/regex_patterns.go:87-91). */
  predicate IsPushRetryableError(errStr: string) {
    ContainsFold(errStr, "non-fast-forward") || ContainsFold(errStr, "fetch first") || ContainsFold(errStr, "rejected")
  }

  /** `IsMergeUpToDate` (notes/regex_patterns.go:94-97). */
  predicate IsMergeUpToDate(mergeStderr: string) {
    ContainsFold(mergeStderr, "already up to date") || ContainsFold(mergeStderr, "nothing to merge")
  }

  /** `IsMergeConflict` (notes/regex_patterns.go:100-102). */
  predicate IsMergeConflict(mergeStderr: string) {
    ContainsFold(mergeStderr, "conflict")
  }

  /**
   * `ErrorMatcher.ValidateCommitSHA` (notes/regex_patterns.go:105-116): true exactly when
   * `validateCommitSHA` accepts the spec, after issuing the same commands.
   */
  function ValidateCommitSHA(git: Backend, log: seq<Cmd>, sha: string): (r: Run<bool>)
    ensures r.value <==> ValidateCommitSha(git, log, sha).value.None?
    ensures r.issued == ValidateCommitSha(git, log, sha).issued
    ensures !IsSafeRevisionSpec(sha) ==> !r.value && r.issued == []
    ensures sha == "" ==> r.value && r.issued == []
  {
    if !IsSafeRevisionSpec(sha) then Run(false, [])
    else if sha == "" then Run(true, [])
    else Run(Call(git, log, VerifyCmd(sha)).err.None?, [VerifyCmd(sha)])
  }

  /** "exit code 128" contains "exit code 1": every exit-128 text is an exit-1 text too. */
  lemma ExitCode128IsExitCode1(errStr: string)
    requires Contains(errStr, "exit code 128")
    ensures Contains(errStr, "exit code 1")
  {
    ContainsPrefixOfPattern(errStr, "exit code 128", "exit code 1");
  }

  /** So the delete matcher treats every exit-128 failure as a missing note. */
  lemma DeleteMatcherAcceptsExit128(stderr: string, errStr: string)
    requires Contains(errStr, "exit code 128")
    ensures IsDeleteNoteNotFoundError(stderr, errStr)
  {
    ExitCode128IsExitCode1(errStr);
  }

  /**
   * In the text of a git exit whose code starts with the digit 1 the not-found predicates
   * need only their stderr pattern: the "exit code 1" conjunct is always met.
   */
  lemma NoteNotFoundOnExitFamily(args: Cmd, p: Process)
    requires |args| > 0 && p.status.Exited? && FormatInt(p.status.code)[0] == '1'
    ensures Execute(args, p).err.Some?
    ensures var errStr := ErrorString(Execute(args, p).err.value);
      && (MentionsNoNoteFound(p.stderr) ==> IsNoteNotFoundError(errStr, p.stderr))
      && IsDeleteNoteNotFoundError(p.stderr, errStr)
  {
    ExitCodeOnePatternFamily(args, p);
  }

  /** The up-to-date and conflict predicates can both hold for one merge output. */
  lemma UpToDateAndConflictOverlap()
    ensures var s := "Already up to date" + "; CONFLICT in notes"; IsMergeUpToDate(s) && IsMergeConflict(s)
  {
    var upToDate, conflict := "Already up to date", "; CONFLICT in notes";
    LowerConcat(upToDate, conflict);
    LowerUpToDate();
    LowerConflict();
    assert OccursAt(Lower(upToDate), Lower("already up to date"), 0);
    ContainsInLeft(Lower(upToDate), Lower(conflict), Lower("already up to date"));
    assert OccursAt(Lower(conflict), Lower("conflict"), 2);
    ContainsInRight(Lower(upToDate), Lower(conflict), Lower("conflict"));
  }

  lemma LowerUpToDate()
    ensures Lower("Already up to date") == "already up to date" == Lower("already up to date")
  {
  }

  lemma LowerConflict()
    ensures Lower("; CONFLICT in notes") == "; conflict in notes"
    ensures Lower("conflict") == "conflict"
  {
  }

  lemma LowerConcat(a: string, b: string)
    ensures Lower(a + b) == Lower(a) + Lower(b)
  {
  }
}
