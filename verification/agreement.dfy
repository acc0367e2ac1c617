/**
 * How the `ErrorMatcher` predicates (notes/regex_patterns.go) relate to the checks the note
 * operations write inline (notes/notes.go). Where the inline check lower-cases the text it
 * searches, the two agree; where it searches the text as it is, the matcher accepts more,
 * and a witness shows the gap. Where the matcher demands more (an empty stderr, an
 * "exit code 1"), it accepts less.
 */
module Agreement {
  import opened Text
  import Matcher
  import Store
  import Listing
  import Sync

  /** Searching the lower-cased text for a lower-case literal is the `(?i)` match of that literal. */
  lemma LowerLiteral(s: string, p: string)
    requires forall i :: 0 <= i < |p| ==> !IsUpper(p[i])
    ensures ContainsFold(s, p) <==> Contains(Lower(s), p)
  {
    assert Lower(p) == p;
  }

  /** The fetch check of `pushNotesAttempt` (notes/notes.go:375-380) is `IsRemoteRefNotFoundError`. */
  lemma PushFetchCheckAgrees(stderr: string, errStr: string)
    ensures Matcher.IsRemoteRefNotFoundError(stderr, errStr) <==> Sync.RemoteNotesAbsent(stderr, errStr)
  {
    LowerLiteral(stderr, "couldn't find remote ref");
    LowerLiteral(stderr, "no such ref");
    LowerLiteral(stderr, "fetch-pack: invalid refspec");
  }

  /**
   * The fetch check of `FetchNotes` (notes/notes.go:268-273) accepts every failure the matcher
   * accepts and more: it tolerates "exit status 1" whatever the stderr.
   */
  lemma FetchNotesCheckIsWeaker(stderr: string, errStr: string)
    ensures Matcher.IsRemoteRefNotFoundError(stderr, errStr) ==> Store.FetchSaysRemoteRefAbsent(stderr, errStr)
    ensures Store.FetchSaysRemoteRefAbsent("error", "exit status 1")
    ensures !Matcher.IsRemoteRefNotFoundError("error", "exit status 1")
  {
    PushFetchCheckAgrees(stderr, errStr);
    assert OccursAt("exit status 1", "exit status 1", 0);
    assert |Lower("error")| == 5;
  }

  /** The merge checks of notes/notes.go:413-426 are `IsMergeUpToDate` and `IsMergeConflict`. */
  lemma MergeChecksAgree(stderr: string)
    ensures Matcher.IsMergeUpToDate(stderr) <==> Sync.MergeWasNoOp(stderr)
    ensures Matcher.IsMergeConflict(stderr) <==> Contains(Lower(stderr), "conflict")
  {
    LowerLiteral(stderr, "already up to date");
    LowerLiteral(stderr, "nothing to merge");
    LowerLiteral(stderr, "conflict");
  }

  /**
   * Every text the case-sensitive retry check (notes/notes.go:340-342) retries satisfies
   * `IsPushRetryableError`; the matcher also accepts capitalised texts the loop does not retry.
   */
  lemma RetryCheckIsStricter(errStr: string)
    ensures Sync.PushRetryable(errStr) ==> Matcher.IsPushRetryableError(errStr)
    ensures Matcher.IsPushRetryableError("Rejected") && !Sync.PushRetryable("Rejected")
  {
    if Contains(errStr, "non-fast-forward") { ContainsIgnoringCase(errStr, "non-fast-forward"); }
    if Contains(errStr, "fetch first") { ContainsIgnoringCase(errStr, "fetch first"); }
    if Contains(errStr, "rejected") { ContainsIgnoringCase(errStr, "rejected"); }
    assert Lower("Rejected") == "rejected";
    assert OccursAt(Lower("Rejected"), Lower("rejected"), 0);
    assert !OccursAt("Rejected", "rejected", 0) by { assert "Rejected"[0] != "rejected"[0]; }
  }

  /**
   * The not-found checks of `GetNoteWithContext` (notes/notes.go:55-62): the first is the
   * matcher's first case; the second does not demand "exit code 1", so it accepts texts the
   * matcher rejects.
   */
  lemma NoteNotFoundChecks(errStr: string, stderr: string)
    ensures Store.ShowSaysNoNote(errStr, stderr) ==> Matcher.IsNoteNotFoundError(errStr, stderr)
    ensures Contains(errStr, "exit code 1") && Store.ShowMentionsMissingNote(errStr) ==> Matcher.IsNoteNotFoundError(errStr, stderr)
    ensures Store.ShowMentionsMissingNote("failed to get note")
    ensures !Matcher.IsNoteNotFoundError("failed to get note", stderr)
  {
    LowerLiteral(stderr, "no note found");
    LowerLiteral(stderr, "no notes found");
    if Contains(errStr, "no note found for object") { ContainsIgnoringCase(errStr, "no note found for object"); }
    if Contains(errStr, "failed to get note") { ContainsIgnoringCase(errStr, "failed to get note"); }
    assert OccursAt("failed to get note", "failed to get note", 0);
    assert !Contains("failed to get note", "exit code 1") by {
      forall i | 0 <= i <= |"failed to get note"| - |"exit code 1"|
        ensures !OccursAt("failed to get note", "exit code 1", i)
      {
        assert "failed to get note"[i..i + 11][1] != "exit code 1"[1];
      }
    }
  }

  /** The invalid-commit check of notes/notes.go:65-66 implies `IsInvalidCommitError`. */
  lemma InvalidCommitCheckAgrees(errStr: string)
    ensures Store.ShowMentionsBadCommit(errStr) ==> Matcher.IsInvalidCommitError(errStr)
  {
    if Contains(errStr, "fatal: failed to resolve") { ContainsIgnoringCase(errStr, "fatal: failed to resolve"); }
  }

  /**
   * The empty-listing check of `GetNoteList` (notes/notes.go:158-159): its first three markers
   * are `IsNotesRefNotFoundError`'s; its fourth, "exit code 1", is not.
   */
  lemma ListCheckExtendsMatcher(errMsg: string)
    ensures (Contains(errMsg, "bad notes ref") || Contains(errMsg, "does not exist") || Contains(errMsg, "no notes found"))
            ==> Matcher.IsNotesRefNotFoundError(errMsg)
    ensures Listing.ListFailureMeansEmpty("exit code 1") && !Matcher.IsNotesRefNotFoundError("exit code 1")
  {
    if Contains(errMsg, "bad notes ref") { ContainsIgnoringCase(errMsg, "bad notes ref"); }
    if Contains(errMsg, "does not exist") { ContainsIgnoringCase(errMsg, "does not exist"); }
    if Contains(errMsg, "no notes found") { ContainsIgnoringCase(errMsg, "no notes found"); }
    assert OccursAt("exit code 1", "exit code 1", 0);
    assert |Lower("exit code 1")| == 11;
  }

  /** The delete check of notes/notes.go:244-246 implies `IsDeleteNoteNotFoundError`. */
  lemma DeleteCheckAgrees(stderr: string, errStr: string)
    ensures Store.RemoveFoundNoNote(stderr, errStr) ==> Matcher.IsDeleteNoteNotFoundError(stderr, errStr)
  {
    if Contains(stderr, "object has no note") { ContainsIgnoringCase(stderr, "object has no note"); }
  }
}
