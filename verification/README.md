# gitnotes: a model of a `git notes` wrapper library

The library stores small pieces of data, plain text or a stream of JSON documents, as git notes
attached to commits, one notes ref per namespace (`refs/notes/<namespace>`). It reads, writes,
deletes and lists notes, fetches a namespace from a remote, and publishes it by fetching,
merging with the `cat_sort_uniq` strategy and pushing, retrying when a concurrent push wins the
race. Every operation is a short sequence of `git` commands. The library decides what to do
next, and which error to return, by matching substrings of git's stderr and of the error text
that `executeGitCommand` builds.

This model keeps that decision logic and leaves the process out:

- **The git process is abstract.** `git` is a *backend*, a function from the commands already
  issued and the next command to an exit status with the two output streams. A scripted fake
  and a stateful repository are both backends.
- **Every operation returns the commands it issued, in order.** This is `Run(value, issued)`.
  So "nothing is written" and "the merge is never pushed" become statements about that list.
- **Straight-line operations are functions.** The operations with loops are methods: the bulk
  read, the listing scanners, the JSON decode loop and the push retry loop. Each method is proved
  to compute its specification function.
- **The package-level test-hook pair is a class.** Its methods update the hooks in place.

The repository has two variants of the library:

- **The `notes` package** (notes/notes.go, notes/utils.go, notes/regex_patterns.go, notes/errors.go) is
  modelled in the modules below:

  | Module | What it covers |
  |---|---|
  | `NoteErrors` | typed errors and Go's `%w` wrap chains |
  | `GitExec` | `executeGitCommand`, its context variant, `notesRefExists`, the hook registry |
  | `Refs` | ref formatting, revision-spec validation, the command lines |
  | `Matcher` | `ErrorMatcher` |
  | `Store` | get, set, delete, fetch |
  | `Bulk` | `GetNotesBulk` |
  | `Listing` | `GetNoteList` |
  | `Sync` | `PushNotes`, `PushNotesWithRetry`, `pushNotesAttempt` |
  | `NoteJson` | `SetNoteJSON`, `GetNoteJSON` |

- **The older root variant** (notes.go) is `LegacyNotes`, with lemmas stating where the two
  variants disagree.

`Agreement` relates the `ErrorMatcher` predicates to the checks the operations write inline.
`Text` models the handful of Go `strings`/`strconv` functions used: `TrimSpace`, `Fields`,
`ToLower` on ASCII, `Contains`, `ParseInt` and `%d` formatting.

Points where the model reads the code rather than its comments:

- **The not-found error's fields.** The code builds `NoteNotFoundError{Namespace: …, CommitSha: …}`,
  while notes/errors.go:9-12 declares the fields `Ref` and `CommitSha`. The model fills `Ref`
  with the namespace argument, as the composite literal evidently means.
- **The `exit code 1` checks match a prefix.** Every check for "exit code 1" or "exit status 1"
  is a substring test, so it also accepts exit codes 10-19, 128, and every other code whose
  decimal form starts with 1. The model states this (`GitExec.ExitCodeOnePatternFamily`,
  `Store.DeleteMissingNoteSucceeds`) instead of treating the check as "exit code equals 1".
- **The bootstrap of an empty notes ref is not called.** The test file expects pushing a
  namespace with no local notes to create an empty notes ref first. No operation in
  notes/notes.go calls `initializeEmptyNotesRef`, so the model does not do it either.
- **One `formatNamespaceRef` serves both variants.** The root variant's definition
  (notes.go:19-27) is identical to the package's, so `Refs.FormatNamespaceRef` is used for both.

## Model

| member | source | states |
|---|---|---|
| NoteErrors.Root | notes/errors.go:18-21 | the innermost error of a `%w` chain is never itself a wrapper |
| NoteErrors.ErrorString | notes/errors.go:14-45 | the text of each error kind: not found names the commit and the ref, invalid names the spec, the size error both numbers in decimal; a wrapper surrounds its cause's text |
| NoteErrors.IsNoteNotFound | notes/errors.go:18-21 | true when the chain holds a `NoteNotFound` (see `KindIsRootKind`) |
| NoteErrors.IsInvalidCommitSha | notes/errors.go:32-35 | true when the chain holds an `InvalidCommitSha` (see `KindIsRootKind`) |
| NoteErrors.IsNoteSizeExceededError | notes/errors.go:47-50 | true when the chain holds a `NoteSizeExceeded` (see `KindIsRootKind`) |
| NoteErrors.KindIsRootKind | notes/errors.go:18-50 | `IsNoteNotFound`, `IsInvalidCommitSha`, `IsNoteSizeExceededError` hold exactly when the innermost error of the chain is of that kind |
| NoteErrors.WrapKeepsKind | notes/errors.go:18-50 | wrapping an error with `%w` preserves which of the three predicates hold |
| NoteErrors.KindsAreExclusive | notes/errors.go:18-50 | no error satisfies two of the three kind predicates |
| NoteErrors.RootTextIsVisible | notes/errors.go:14-16 | the text of a wrapped error contains the text of its innermost cause |
| NoteErrors.SizeTextShowsBothNumbers | notes/errors.go:43-45 | the size error text shows the size followed by "exceeds maximum allowed size", and ends with the maximum, both in decimal |
| GitExec.Execute | notes/utils.go:104-133 | error exactly on process failure; trimmed stdout/stderr on success, raw ones on failure |
| GitExec.ExecuteContext | notes/utils.go:136-169 | without a context error it is `Execute`; with one, a failed command reports the context error |
| GitExec.ExitFailureText | notes/utils.go:127-128 | the error of an exit names the subcommand and the code, contains `exit status N`, and ends with the raw stderr |
| GitExec.ExitCodeOnePatternFamily | notes/utils.go:127-128 | for every exit code whose decimal form starts with 1, the error text contains both "exit code 1" and "exit status 1" |
| GitExec.NotesRefExists | notes/utils.go:193-216 | exists iff `show-ref` succeeds; no error iff success or exit code 1; an error names the ref |
| GitExec.Fire | notes/utils.go:33-35 | a hook call is recorded exactly when the hook is set, with the command's arguments |
| GitExec.HookRegistry.constructor | notes/utils.go:18-22 | both hooks start unset and nothing has fired |
| GitExec.HookRegistry.SetForTesting | notes/utils.go:38-52 | installs the new pair and returns a restorer holding the previous pair |
| GitExec.HookRegistry.Restore | notes/utils.go:46-51 | reinstates the pair held by the restorer |
| GitExec.HookRegistry.RunHook | notes/utils.go:24-36 | fires the before or after hook when set; the pair is unchanged |
| GitExec.HookRegistry.ExecuteGitCommand | notes/utils.go:104-107 | result is `Execute`; the before hook then the after hook fire with the command |
| GitExec.HooksForOneCommand | notes/utils.go:38-52 | installing hooks, running one command and restoring: exactly the installed hooks see the command, and the previous pair is back |
| Refs.FormatNamespaceRef | notes/utils.go:73-81 | the ref always starts with `refs/notes/`, and ends with the namespace when one is given |
| Refs.FormatNamespaceRefCases | notes/utils.go:73-81 | empty gives `refs/notes/commits`, a `refs/notes/` name is kept, anything else gets the prefix |
| Refs.FormatNamespaceRefIdempotent | notes/utils.go:73-81 | formatting a formatted ref changes nothing |
| Refs.SafeRevisionSpecCases | notes/utils.go:57-67 | empty is safe, a leading `-` is unsafe, otherwise safe iff no NUL; `HEAD~1` is safe |
| Refs.IsSafeRevisionSpec | notes/utils.go:57-67 | whether a commit spec may be handed to git: empty, or no leading `-` and no NUL (cases in `SafeRevisionSpecCases`) |
| Refs.RemoteTrackingRef | notes/notes.go:393-395 | `refs/remotes/<remote>/` followed by the local ref without `refs/` (see `TrackingRefOfNotesRef`) |
| Refs.TrackingRefOfNotesRef | notes/notes.go:393-395 | the tracking ref of any namespace is `refs/remotes/<remote>/notes/…` |
| Refs.ValidateCommitSha | notes/utils.go:86-100 | unsafe specs are rejected without git; empty is accepted without git; otherwise accepted iff `rev-parse --verify` succeeds; every rejection is `InvalidCommitSha` of the spec |
| Refs.ValidateIssuesNoWrite | notes/utils.go:86-100 | validation issues at most one command, never a write |
| Matcher.ValidateCommitSHA | notes/regex_patterns.go:105-116 | true exactly when `validateCommitSHA` accepts, after the same commands |
| Matcher.IsNoteNotFoundError | notes/regex_patterns.go:51-56 | "exit code 1" in the error, and a case-insensitive "no note(s) found" in stderr, "no note found for object" or "failed to get note" in the error (see `NoteNotFoundOnExitFamily`) |
| Matcher.IsInvalidCommitError | notes/regex_patterns.go:59-62 | a case-insensitive "fatal: failed to resolve" or an "exit code 128" in the error |
| Matcher.IsRemoteRefNotFoundError | notes/regex_patterns.go:65-71 | a missing-ref phrase in stderr, an exit status 1 with empty stderr, or exit status 128 |
| Matcher.IsNotesRefNotFoundError | notes/regex_patterns.go:74-78 | a case-insensitive "bad notes ref", "does not exist" or "no note(s) found" |
| Matcher.IsDeleteNoteNotFoundError | notes/regex_patterns.go:81-84 | "object has no note" in stderr or "exit code 1" in the error (see `DeleteMatcherAcceptsExit128`) |
| Matcher.IsPushRetryableError | notes/regex_patterns.go:87-91 | a case-insensitive "non-fast-forward", "fetch first" or "rejected" |
| Matcher.IsMergeUpToDate | notes/regex_patterns.go:94-97 | a case-insensitive "already up to date" or "nothing to merge" (see `UpToDateAndConflictOverlap`) |
| Matcher.IsMergeConflict | notes/regex_patterns.go:100-102 | a case-insensitive "conflict" (see `UpToDateAndConflictOverlap`) |
| Matcher.ExitCode128IsExitCode1 | notes/regex_patterns.go:81-84 | any text containing "exit code 128" contains "exit code 1" |
| Matcher.DeleteMatcherAcceptsExit128 | notes/regex_patterns.go:81-84 | the delete not-found matcher accepts every exit-128 text |
| Matcher.NoteNotFoundOnExitFamily | notes/regex_patterns.go:51-56 | on an exit whose code starts with 1, the note-not-found matcher depends only on the stderr pattern |
| Matcher.UpToDateAndConflictOverlap | notes/regex_patterns.go:94-102 | one merge output can be both "up to date" and "conflict" |
| Agreement.PushFetchCheckAgrees | notes/notes.go:375-380 | the inline fetch check of a push attempt is exactly `IsRemoteRefNotFoundError` |
| Agreement.FetchNotesCheckIsWeaker | notes/notes.go:268-273 | the `FetchNotes` check accepts all the matcher accepts, plus a witness it does not |
| Agreement.MergeChecksAgree | notes/notes.go:413-426 | the inline merge checks are exactly `IsMergeUpToDate` and `IsMergeConflict` |
| Agreement.RetryCheckIsStricter | notes/notes.go:340-342 | the case-sensitive retry check implies `IsPushRetryableError`, not conversely ("Rejected") |
| Agreement.NoteNotFoundChecks | notes/notes.go:55-62 | the first not-found check implies the matcher; the second does not ("failed to get note") |
| Agreement.InvalidCommitCheckAgrees | notes/notes.go:65-66 | the inline invalid-commit check implies `IsInvalidCommitError` |
| Agreement.ListCheckExtendsMatcher | notes/notes.go:158-159 | three listing markers imply `IsNotesRefNotFoundError`; "exit code 1" does not |
| Agreement.DeleteCheckAgrees | notes/notes.go:244-246 | the inline delete check implies `IsDeleteNoteNotFoundError` |
| Store.ExecuteErrorIsUntyped | notes/utils.go:123-130 | an error from `executeGitCommand` is of none of the typed kinds |
| Store.ResolveHead | notes/notes.go:37-43 | a given spec is kept without git; empty issues `rev-parse HEAD`, whose failure reads "failed to resolve HEAD: …" |
| Store.ShowFailure | notes/notes.go:46-69 | a done context wins, then the not-found checks give `NoteNotFound`, then the invalid-commit check, else a wrapped error |
| Store.ShowStage | notes/notes.go:45-71 | issues exactly the `notes show`; succeeds iff git does |
| Store.GetNoteWithContext | notes/notes.go:29-72 | unsafe specs fail with no command; otherwise one or two commands, and a note comes from the `notes show` of the commit |
| Store.GetNoteOutcome | notes/notes.go:45-71 | for a validated commit the note is the trimmed show output, or `ShowFailure` of the failed show |
| Store.UnsetNoteIsNotFound | notes/notes.go:55-58 | exit 1 with "no note found" reads as `NoteNotFound` for that commit |
| Store.UnknownCommitIsInvalid | notes/notes.go:31-33 | a spec git cannot verify is `InvalidCommitSha`, and no note is read or written |
| Store.GetNote | notes/notes.go:24-27 | `GetNoteWithContext` with no deadline, so every property proved of it holds |
| Store.SetNote | notes/notes.go:117-142 | invalid specs rejected with no command; a value over `MaxNoteSize` UTF-8 bytes rejected with the typed error carrying its byte count; success means the last command was the `notes add` of the value |
| Store.SetNoteSizeLimit | notes/notes.go:123-125 | above `MaxNoteSize` UTF-8 bytes nothing is written and the size error is returned; at or below the limit the size is never the error |
| Store.SetNoteAtLimitWrites | notes/notes.go:123-137 | a value of exactly `MaxNoteSize` UTF-8 bytes reaches `notes add` |
| Store.SetNoteCountsBytes | notes/notes.go:123-124 | a note of fewer than `MaxNoteSize` characters but more than `MaxNoteSize` bytes (euro signs, three bytes each) is refused, and the error reports the byte count |
| Store.DeleteNote | notes/notes.go:230-251 | empty and unsafe specs are rejected without git; success iff the remove succeeded or its failure reads as "no note" |
| Store.DeleteMissingNoteSucceeds | notes/notes.go:244-246 | deleting a note git reports missing (any exit code starting with 1) succeeds |
| Store.Distinct | notes/notes.go:290-307 | same elements, each once |
| Store.FetchNotes | notes/notes.go:253-319 | empty remote rejected; first command is the forced fetch; success iff the fetch succeeded or reads as "remote ref absent"; at most three commands |
| Store.FetchNotesFetchesListedCommits | notes/notes.go:281-313 | after a successful fetch, every listed commit is fetched once in one command, whose outcome is ignored |
| Store.FetchFromUnknownRemoteSucceeds | notes/notes.go:268-276 | an exit-128 fetch succeeds after that single command |
| Bulk.ValidateAll | notes/notes.go:79-84 | every rejected commit is in the map with its `InvalidCommitSha`, and every unsafe one is rejected |
| Bulk.ReadAll | notes/notes.go:91-111 | every non-rejected commit lands in the notes map or the error map, and nothing else does |
| Bulk.Record | notes/notes.go:103-108 | a note goes to the results, an error to the errors |
| Bulk.BulkCoversEveryCommit | notes/notes.go:74-115 | the two maps together cover exactly the requested commits; rejected commits carry their validation error and no note |
| Bulk.ReadAllDisjoint | notes/notes.go:91-111 | without duplicates, no commit is both read and failed |
| Bulk.BulkDisjoint | notes/notes.go:74-115 | without duplicate commits, no commit has both a note and an error |
| Bulk.GetNotesBulk | notes/notes.go:74-115 | the method computes `BulkOutcome` |
| Bulk.ValidateEach | notes/notes.go:80-84 | the validation loop computes `ValidateAll` |
| Bulk.ReadEach | notes/notes.go:91-111 | the read loop computes `ReadAll` |
| Listing.ListedCommitsOfRows | notes/notes.go:173-183 | a listing of `<note> <commit>` lines names exactly those commits, in order |
| Listing.ListedCommitsOfLines | notes/notes.go:173-183 | lines that each name one commit give those commits in order |
| Listing.ParseTimestampLines | notes/notes.go:202-214 | a parsed batch has at most one row per line, every timestamp within int64 |
| Listing.ParseErrorPersists | notes/notes.go:208-211 | once a prefix fails to parse, the whole batch fails with that error |
| Listing.TimestampRowsRoundTrip | notes/notes.go:194-214 | what `%H %ct` prints for commits reads back as exactly those commits and timestamps |
| Listing.PrintedRowReadsBack | notes/notes.go:205-212 | one printed row reads back as its commit |
| Listing.ParseRowsThatRead | notes/notes.go:202-214 | lines that each read as one commit parse to those commits |
| Listing.InsertByTime | notes/notes.go:217-219 | inserting into a newest-first list keeps it newest first and adds exactly the element |
| Listing.SortNewestFirst | notes/notes.go:216-219 | the result is newest first and a permutation of the input |
| Listing.Shas | notes/notes.go:221-225 | the i-th SHA is the i-th row's commit |
| Listing.NoteListRows | notes/notes.go:152-228 | first command is `notes list`, at most one more; the rows returned are newest first |
| Listing.ListFailureMeansEmpty | notes/notes.go:158-159 | the four listing-failure markers that mean "no notes yet" |
| Listing.NoteList | notes/notes.go:152-228 | the SHAs of `NoteListRows`, or its error (see `NoteListIsSortedBatch`, `NoteListEmptyCases`) |
| Listing.ShasOfPermutation | notes/notes.go:216-225 | reordering the rows reorders their SHAs: the same multiset of commits |
| Listing.NoteListIsSortedBatch | notes/notes.go:193-227 | the list is the parsed timestamp batch reordered newest first, nothing lost or added |
| Listing.NoteListEmptyCases | notes/notes.go:155-191 | a listing failure mentioning "bad notes ref", "does not exist", "no notes found" or "exit code 1" (each stated on its own), and a listing naming no commits, give an empty list after the one `notes list` |
| Listing.ScanListing | notes/notes.go:173-183 | the first scanner loop computes `ListedCommits` |
| Listing.ScanTimestamps | notes/notes.go:202-214 | the second scanner loop computes `ParseTimestampLines` |
| Listing.ExtractShas | notes/notes.go:222-225 | the extraction loop computes `Shas` |
| Listing.GetNoteList | notes/notes.go:152-228 | the method computes `NoteList` |
| NoteJson.Snippet | notes/notes.go:511-528 | at most 40 positions; when the window start `max(offset-20, 0)` lies inside the note, exactly the note's text from that start to `min(offset+20, len)`, including the offset's character when the offset is inside; otherwise the placeholder |
| NoteJson.DecodeFailure | notes/notes.go:508-532 | a wrapped error counting the documents processed and containing the decoder's error |
| NoteJson.DecodeFrom | notes/notes.go:497-540 | keeps the documents decoded so far as a prefix; never more than `MaxJSONObjects`; the cap error only at exactly 1000 |
| NoteJson.NoteJson | notes/notes.go:467-541 | empty commit rejected; at most 1000 documents; documents only from a note that was read |
| NoteJson.NoteJsonReadOutcomes | notes/notes.go:476-491 | missing and blank notes give nothing and no error; other read failures are wrapped keeping their kind |
| NoteJson.DecodeFailureKeepsPrefix | notes/notes.go:508-533 | a failure after k documents returns exactly those k with an error counting k |
| NoteJson.DecodeChain | notes/notes.go:497-536 | decoding from any point of a chain of documents continues that chain |
| NoteJson.CapStopsAtThousand | notes/notes.go:497-500 | a note with more than 1000 documents yields the first 1000 and the cap error |
| NoteJson.GetNoteJSON | notes/notes.go:467-541 | the method computes `NoteJson` |
| NoteJson.DecodeLoop | notes/notes.go:493-540 | the decode loop computes `DecodeFrom` |
| NoteJson.SetNoteJson | notes/notes.go:451-466 | empty commit rejected; a marshal failure issues nothing; success writes the marshalled text |
| NoteJson.SetThenGetRoundTrip | notes/notes.go:451-541 | a value whose JSON text is within `MaxNoteSize` UTF-8 bytes, written and read back through git and the decoder, is exactly that value |
| NoteJson.SetNoteJsonWrites | notes/notes.go:459-465 | a value that marshals to at most `MaxNoteSize` UTF-8 bytes and a commit that verifies write the marshalled text as the note |
| NoteJson.ShowAfterWrite | notes/notes.go:24-71 | a note git shows is read back unchanged |
| NoteJson.SingleDocument | notes/notes.go:497-540 | a text that is one document decodes to that document alone |
| Listing.ListedCommit | notes/notes.go:176-182 | at most one commit per listing line |
| Sync.RemoteNotesAbsent | notes/notes.go:375-380 | the fetch failures that mean the remote has no notes ref yet: a missing-ref phrase in lower-cased stderr, exit status 1 with empty stderr, or exit status 128 |
| Sync.MergeWasNoOp | notes/notes.go:413-416 | a merge failure whose lower-cased stderr says "already up to date" or "nothing to merge" is no failure |
| Sync.PushRetryable | notes/notes.go:340-342 | a push error is retried only when its text literally contains "non-fast-forward", "fetch first" or "rejected" |
| Sync.FetchStage | notes/notes.go:368-386 | exactly the fetch; the remote exists on success, absence per the inline check, any other failure an error |
| Sync.Rollback | notes/notes.go:418-424 | the abort first; the `update-ref` to the trimmed snapshot exactly when the snapshot is non-empty |
| Sync.MergeError | notes/notes.go:426-431 | a wrapped error containing the git error |
| Sync.MergeStep | notes/notes.go:411-433 | the merge first; a real failure rolls back; every error is wrapped |
| Sync.MergeStage | notes/notes.go:389-435 | on a notes ref: snapshot, verify, then merge when the tracking ref verifies; errors are wrapped |
| Sync.PushStage | notes/notes.go:437-446 | exactly the push; succeeds iff git accepts it; the error wraps it |
| Sync.Attempt | notes/notes.go:358-449 | opens with the abort then the fetch of the formatted ref |
| Sync.FetchFailureStopsAttempt | notes/notes.go:382-386 | a real fetch failure ends the attempt with no merge or push |
| Sync.AbsentRemoteSkipsMerge | notes/notes.go:370-389 | a remote without notes goes straight to the push |
| Sync.UnverifiedTrackingRefSkipsMerge | notes/notes.go:407-409 | an unverified tracking ref means snapshot and verify only |
| Sync.FailedMergeRollsBack | notes/notes.go:412-431 | a real merge failure aborts, resets the ref exactly when it had a value, and returns an error |
| Sync.MergeStageNeverPushes | notes/notes.go:389-435 | the merge stage issues no push |
| Sync.MergeStepNeverPushes | notes/notes.go:411-433 | the merge step issues no push |
| Sync.FailedMergeIsNotPushed | notes/notes.go:426-431 | a failed merge ends the attempt before the push |
| Sync.AttemptSucceedsByPushing | notes/notes.go:437-448 | success means the last command was the push and git accepted it |
| Sync.AttemptErrorIsWrapped | notes/notes.go:358-449 | every attempt error wraps a git failure; the internal-error branch is unreachable |
| Sync.PushNotesAttempt | notes/notes.go:358-449 | the method computes `Attempt` |
| Sync.MergeSteps | notes/notes.go:389-435 | the method computes `MergeStage` |
| Sync.Backoff | notes/notes.go:346 | attempt² × 100 ms |
| Sync.RetryFrom | notes/notes.go:333-355 | between 1 and the remaining attempts when any are allowed, otherwise the "push failed after N attempts" error; one sleep between consecutive attempts |
| Sync.PushWithRetry | notes/notes.go:328-356 | an empty remote is rejected with no command |
| Sync.RetryBounds | notes/notes.go:333-355 | at most `maxRetries` attempts, each backoff attempt²×100 ms, the generic error only when no attempt is allowed |
| Sync.RetrySleeps | notes/notes.go:343-347 | the i-th sleep is the backoff of attempt i |
| Sync.RetryErrorsAreWrapped | notes/notes.go:333-353 | if every attempt error is wrapped, so is the loop's error |
| Sync.NonRetryableReturnedUnchanged | notes/notes.go:339-352 | a non-retryable error, or any error on the last attempt, is returned unchanged after one attempt with no sleep |
| Sync.RejectedPushIsRetried | notes/notes.go:339-348 | a retryable error before the last attempt sleeps the backoff and tries again, logging the commands issued |
| Sync.PushNotesWithRetry | notes/notes.go:328-356 | the method computes `PushWithRetry` |
| Sync.RetryLoop | notes/notes.go:333-355 | the loop computes `RetryFrom` from attempt 0 |
| Sync.RetryStep | notes/notes.go:334-348 | one loop turn extends the run by that attempt |
| Sync.RetryExhausted | notes/notes.go:355 | when no attempt remains, the run ends with the generic error |
| Sync.PushNotes | notes/notes.go:323-325 | with a remote, between one and three attempts |
| LegacyNotes.ExecuteGit | notes.go:31-43 | error exactly on failure; trimmed outputs on success, raw ones on failure |
| LegacyNotes.ExecuteErrorText | notes.go:39-41 | the error names the command, contains `exit status N` for an exit, and ends with the stderr; it is never typed |
| LegacyNotes.GetNote | notes.go:46-56 | empty commit rejected with no command; otherwise one `notes show`, each failure wrapped |
| LegacyNotes.SetNote | notes.go:59-69 | empty commit rejected; otherwise one `notes add -f` whatever the value's size |
| LegacyNotes.DeleteNote | notes.go:138-148 | empty commit rejected; any remove failure is an error |
| LegacyNotes.FetchNotes | notes.go:152-164 | empty remote rejected; one forced fetch; any failure is an error |
| LegacyNotes.MissingNoteDeleteDiffers | notes.go:143-146 | removing a missing note fails here and succeeds in the package |
| LegacyNotes.UnknownRemoteFetchDiffers | notes.go:159-162 | an exit-128 fetch fails here and succeeds in the package |
| LegacyNotes.OversizedNoteDiffers | notes.go:59-69 | a value over `MaxNoteSize` UTF-8 bytes is written here and refused by the package with the size error carrying its byte count |
| LegacyNotes.LookupLines | notes.go:96-117 | one timestamp lookup per listed commit, stopping at the first failure |
| LegacyNotes.LookupFailurePersists | notes.go:105-114 | once a lookup over a prefix fails, the loop has stopped there |
| LegacyNotes.ReadTimestamp | notes.go:105-115 | a failed lookup or an unparsable trimmed timestamp is a wrapped error naming the commit; otherwise the row |
| LegacyNotes.ListFailureMeansEmpty | notes.go:86 | the three listing-failure markers, without the package's "exit code 1" |
| LegacyNotes.NoteList | notes.go:79-135 | the SHAs of `NoteListRows`, or its error (see `NoteListLooksUpEachCommit`, `NoteListOutcomes`) |
| LegacyNotes.NoteListRows | notes.go:79-135 | first command is `notes list`; rows returned newest first |
| LegacyNotes.NoteListLooksUpEachCommit | notes.go:96-134 | after the listing, one lookup per listed commit, in listing order; the result is a permutation of the listed commits (same multiset), newest first |
| LegacyNotes.NoteListOutcomes | notes.go:83-94 | a listing failure mentioning "bad notes ref", "does not exist" or "no notes found" (each stated on its own), and an empty listing, give an empty list; any other listing failure, a failed lookup or a bad timestamp is an error |
| LegacyNotes.GetNoteList | notes.go:79-135 | the method computes `NoteList` |
| LegacyNotes.LookupEach | notes.go:96-117 | the scanner loop computes `LookupLines` |
| LegacyNotes.MergeStage | notes.go:194-229 | at most verify and merge, never a rollback; a no-op merge is not an error |
| LegacyNotes.MergeError | notes.go:219-224 | says "possible conflict" when the lower-cased stderr mentions a conflict, and contains the git error |
| LegacyNotes.PushStage | notes.go:235-241 | exactly the push; succeeds iff git accepts it |
| LegacyNotes.PushNotes | notes.go:168-245 | fetch first, at most four commands, never a rollback; success means the push was last and accepted |
| LegacyNotes.FetchFailureStopsPush | notes.go:188-191 | a real fetch failure is the only command |
| LegacyNotes.AbsentRemoteIsPushedWithoutMerge | notes.go:176-187 | without remote notes: fetch then push |
| LegacyNotes.UnverifiedTrackingRefIsNotMerged | notes.go:206-210 | fetch, verify, push |
| LegacyNotes.FailedMergeIsReturned | notes.go:215-224 | a real merge failure is returned at once, with no push or rollback |
| LegacyNotes.NoOpMergeIsPushed | notes.go:217-218 | a no-op merge is followed by the push, which decides |
| LegacyNotes.DecodeAll | notes.go:292-326 | keeps the documents decoded so far as a prefix, with no cap; an error counts the documents |
| LegacyNotes.DecodeAllChain | notes.go:292-326 | decoding from any point of a chain continues it |
| LegacyNotes.NoObjectCap | notes.go:292-330 | 1001 documents are all returned, where the package stops at 1000 |
| LegacyNotes.DecodeFailureKeepsPrefix | notes.go:299-323 | a failure after k documents returns exactly those k |
| LegacyNotes.NoteDocuments | notes.go:267-331 | empty commit rejected; one `notes show`; documents only from a note that was read |
| LegacyNotes.EveryReadFailureIsNoDocuments | notes.go:272-287 | every read failure, and a blank note, gives no documents and no error |
| LegacyNotes.GetNoteJSON | notes.go:267-331 | the method computes `NoteDocuments` |
| LegacyNotes.DecodeStream | notes.go:289-330 | the decode loop computes `DecodeAll` |
| LegacyNotes.SetNoteJson | notes.go:250-262 | empty commit rejected; a marshal failure issues nothing; otherwise `SetNote` of the text |
| LegacyNotes.SetThenGetRoundTrip | notes.go:250-331 | a value written and read back is exactly that value |
| Text.ParseFormatRoundTrip | notes/notes.go:208 | `ParseInt` reads back any int64 formatted in decimal |
| Text.TrimSpaceEmptyIff | notes/notes.go:489 | a text trims to empty exactly when it is all white space |
| Text.RuneLen | notes/notes.go:123-124 | each character takes one to four UTF-8 bytes, one exactly for ASCII |
| Text.Utf8Len | notes/notes.go:123-124 | Go's `len` of a string: at least one and at most four bytes per character |
| Text.Utf8LenConcat | notes/notes.go:123-124 | the byte length of a concatenation is the sum of the byte lengths |
| Text.Utf8LenAscii | notes/notes.go:123-124 | byte length equals character count exactly when the text is ASCII |
| Text.Utf8LenRepeated | notes/notes.go:123-124 | a text of one repeated character takes that character's width times its length |

## Left out

- The `git` process, its environment variables and its real output are not modelled; the backend stands for them.
- Clocks and sleeping are left out: `time.Sleep` appears only as the list of backoffs slept.
- Contexts are not modelled as timers. `ctx.Err()` is a parameter fixed for the whole call; a context that ends part-way through a call is not modelled.
- `Bulk.GetNotesBulk`: the goroutines, the semaphore of 10 and the mutex are left out, and commits are read one after another in the given order. Interleavings of the concurrent reads, and the order in which they issue their commands, are not represented.
- JSON encoding and decoding belong to Go's `encoding/json`. They are parameters: a marshal function, and a decoder answering for a text and an offset.
- The root variant's uncapped decode loop requires every document the decoder reads to span at least one position of the note (the `Advances` requirement); termination of the loop depends on it.
- NoteJson.Snippet: notes are strings of characters here, and the decoder's offsets and the 20-position window count characters. Go counts bytes, so the snippet agrees with Go's only on ASCII notes, and a window that splits a multi-byte character is not modelled. The note size limit does count UTF-8 bytes (`Text.Utf8Len`).
- `%T` type names are a parameter; `%q` and `%v` formatting of other values are not modelled.
- `strings.ToLower` is modelled on ASCII only; Unicode case folding is left out.
- `bufio.Scanner` is modelled as splitting on newlines and dropping a trailing carriage return. Its token-too-long error is left out, and `scanner.Err()` never fails here.
- Listing.SortNewestFirst: `sort.Slice` is not stable, so the order among equal timestamps is not specified. The sort is a function on sequences, not an in-place sort of the slice.
- Store.FetchNotes: Go map iteration order is random. The commits are fetched in order of first appearance, and the lemma fixes the set of commits, not their order.
- Nil and empty slices and maps are not distinguished.
- `initializeEmptyNotesRef` (notes/utils.go:173-189) is called by no operation and is not modelled.
- notes/timed_manager.go, main.go, the `NotesManager` wrapper and the tests are not part of this model.
- The note operations do not thread the hook registry. The hooks are modelled for one `executeGitCommand` call (`GitExec.HookRegistry.ExecuteGitCommand`), and the operations call `Execute`, which is the same command with the hooks aside.
- Sync.PushNotesWithRetry: its loop repeats the specification function `Attempt`. The imperative `Sync.PushNotesAttempt` is proved to compute that same function.
- Integer widths: exit codes and sizes are unbounded integers; the int64 range is enforced where the source parses a timestamp.
