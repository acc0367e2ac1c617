/**
 * The note store of the notes package (notes/notes.go:24-142, 230-319): reading, writing
 * and deleting one note, and fetching a notes ref, each a straight-line sequence of git
 * commands whose failures are classified from their text.
 */
module Store {
  import opened Wrappers
  import opened Text
  import opened NoteErrors
  import opened GitExec
  import opened Refs
  import opened Listing

  /** `MaxNoteSize`: 10 MiB. */
  const MaxNoteSize: int := 10 * 1024 * 1024

  /** An error produced by `executeGitCommand` is never one of the typed errors. */
  lemma ExecuteErrorIsUntyped(args: Cmd, p: Process)
    requires |args| > 0 && !p.status.Success?
    ensures Execute(args, p).err.Some?
    ensures var e := Execute(args, p).err.value;
      !IsNoteNotFound(e) && !IsInvalidCommitSha(e) && !IsNoteSizeExceededError(e)
  {
    var e := Execute(args, p).err.value;
    assert e.Wrapped? && e.cause.Message?;
  }

  /**
   * An empty spec stands for HEAD: `git rev-parse HEAD` resolves it, and its failure is
   * reported as "failed to resolve HEAD" (notes/notes.go:37-43, 129-135).
   */
  function ResolveHead(git: Backend, log: seq<Cmd>, ctxErr: Option<Error>, commitSha: string): (r: Run<Result<string, Error>>)
    ensures commitSha != "" ==> r == Run(Ok(commitSha), [])
    ensures commitSha == "" ==> r.issued == [RevParseCmd("HEAD")]
    ensures r.value.Err? ==> HasPrefix(ErrorString(r.value.error), "failed to resolve HEAD: ")
  {
    if commitSha != "" then Run(Ok(commitSha), [])
    else
      var o := CallContext(git, log, ctxErr, RevParseCmd("HEAD"));
      if o.err.Some? then
        var e := Wrapped("failed to resolve HEAD: ", o.err.value, "");
        assert ErrorString(e) == "failed to resolve HEAD: " + (ErrorString(o.err.value) + "");
        Run(Err(e), [RevParseCmd("HEAD")])
      else Run(Ok(o.stdout), [RevParseCmd("HEAD")])
  }

  /** The first not-found check of notes/notes.go:55-57. */
  predicate ShowSaysNoNote(errStr: string, stderr: string) {
    Contains(errStr, "exit code 1")
    && (Contains(Lower(stderr), "no note found") || Contains(Lower(stderr), "no notes found"))
  }

  /** The second not-found check of notes/notes.go:61-62. */
  predicate ShowMentionsMissingNote(errStr: string) {
    Contains(errStr, "no note found for object") || Contains(errStr, "failed to get note")
  }

  /** The invalid-commit check of notes/notes.go:65-66. */
  predicate ShowMentionsBadCommit(errStr: string) {
    Contains(errStr, "fatal: failed to resolve") || Contains(errStr, "exit code 128")
  }

  /**
   * The error `GetNoteWithContext` reports for a failed `notes show` (notes/notes.go:46-69).
   * The checks are tried in order: a done context wins, then the two not-found checks, then
   * the invalid-commit check; anything else is wrapped.
   */
  function ShowFailure(ctxErr: Option<Error>, namespace: string, ref: string, sha: string, p: Process): (e: Error)
    requires !p.status.Success?
    ensures ctxErr.Some? ==> e == ctxErr.value
    ensures ctxErr.None? ==>
      var o := Execute(ShowNoteCmd(ref, sha), p);
      var errStr := ErrorString(o.err.value);
      && (IsNoteNotFound(e) <==> ShowSaysNoNote(errStr, o.stderr) || ShowMentionsMissingNote(errStr))
      && (IsNoteNotFound(e) ==> e == NoteNotFound(namespace, sha))
      && (IsInvalidCommitSha(e) <==> !IsNoteNotFound(e) && ShowMentionsBadCommit(errStr))
      && (IsInvalidCommitSha(e) ==> e == InvalidCommitSha(sha))
      && (!IsNoteNotFound(e) && !IsInvalidCommitSha(e) ==> Contains(ErrorString(e), errStr))
  {
    if ctxErr.Some? then ctxErr.value
    else
      var o := Execute(ShowNoteCmd(ref, sha), p);
      var errStr := ErrorString(o.err.value);
      if ShowSaysNoNote(errStr, o.stderr) then NoteNotFound(namespace, sha)
      else if ShowMentionsMissingNote(errStr) then NoteNotFound(namespace, sha)
      else if ShowMentionsBadCommit(errStr) then InvalidCommitSha(sha)
      else
        var prefix := "failed to get note for " + sha + " in " + ref + ": ";
        ExecuteErrorIsUntyped(ShowNoteCmd(ref, sha), p);
        ContainsInfix(prefix, errStr, "");
        Wrapped(prefix, o.err.value, "")
  }

  /** The `notes show` step of `GetNoteWithContext`: the trimmed note, or the classified failure. */
  function ShowStage(git: Backend, log: seq<Cmd>, ctxErr: Option<Error>, namespace: string, sha: string)
    : (r: Run<Result<string, Error>>)
    ensures r.issued == [ShowNoteCmd(FormatNamespaceRef(namespace), sha)]
    ensures r.value.Ok? <==> git(log, ShowNoteCmd(FormatNamespaceRef(namespace), sha)).status.Success?
  {
    var ref := FormatNamespaceRef(namespace);
    var show := ShowNoteCmd(ref, sha);
    var p := git(log, show);
    var o := ExecuteContext(ctxErr, show, p);
    if o.err.None? then Run(Ok(o.stdout), [show])
    else Run(Err(ShowFailure(ctxErr, namespace, ref, sha, p)), [show])
  }

  /**
   * `GetNoteWithContext` (notes/notes.go:29-72). `ctxErr` is the context's error, taken as
   * fixed for the whole call.
   */
  function GetNoteWithContext(git: Backend, log: seq<Cmd>, ctxErr: Option<Error>, namespace: string, commitSha: string)
    : (r: Run<Result<string, Error>>)
    ensures !IsSafeRevisionSpec(commitSha) ==> r == Run(Err(InvalidCommitSha(commitSha)), [])
    ensures 1 <= |r.issued| <= 2 || !IsSafeRevisionSpec(commitSha)
    ensures commitSha != "" && r.value.Ok? ==> Last(r.issued) == ShowNoteCmd(FormatNamespaceRef(namespace), commitSha)
  {
    var v := ValidateCommitSha(git, log, commitSha);
    if v.value.Some? then Run(Err(v.value.value), v.issued)
    else
      var head := ResolveHead(git, log + v.issued, ctxErr, commitSha);
      match head.value
      case Err(e) => Run(Err(e), v.issued + head.issued)
      case Ok(sha) =>
        var show := ShowStage(git, log + v.issued + head.issued, ctxErr, namespace, sha);
        Run(show.value, v.issued + head.issued + show.issued)
  }

  /** `GetNote` (notes/notes.go:24-27): `GetNoteWithContext` under a context that never ends. */
  function GetNote(git: Backend, log: seq<Cmd>, namespace: string, commitSha: string): Run<Result<string, Error>> {
    GetNoteWithContext(git, log, None, namespace, commitSha)
  }

  /**
   * For a given commit that passes validation, the note is the trimmed output of
   * `notes show`, and a failed show is classified by `ShowFailure`.
   */
  lemma GetNoteOutcome(git: Backend, log: seq<Cmd>, ctxErr: Option<Error>, namespace: string, commitSha: string)
    requires commitSha != "" && ValidateCommitSha(git, log, commitSha).value.None?
    ensures var ref := FormatNamespaceRef(namespace);
      var show := ShowNoteCmd(ref, commitSha);
      var p := git(log + [VerifyCmd(commitSha)], show);
      var r := GetNoteWithContext(git, log, ctxErr, namespace, commitSha);
      && r.issued == [VerifyCmd(commitSha), show]
      && (p.status.Success? ==> r.value == Ok(TrimSpace(p.stdout)))
      && (!p.status.Success? ==> r.value == Err(ShowFailure(ctxErr, namespace, ref, commitSha, p)))
  {
    assert log + [VerifyCmd(commitSha)] + [] == log + [VerifyCmd(commitSha)];
  }

  /**
   * A commit without a note: `notes show` exits with 1 and says "no note found", and the
   * read reports `NoteNotFound` for that commit.
   */
  lemma UnsetNoteIsNotFound(git: Backend, log: seq<Cmd>, namespace: string, commitSha: string)
    requires commitSha != "" && ValidateCommitSha(git, log, commitSha).value.None?
    requires var p := git(log + [VerifyCmd(commitSha)], ShowNoteCmd(FormatNamespaceRef(namespace), commitSha));
      p.status == Exited(1) && Contains(Lower(p.stderr), "no note found")
    ensures GetNote(git, log, namespace, commitSha).value == Err(NoteNotFound(namespace, commitSha))
  {
    var ref := FormatNamespaceRef(namespace);
    var p := git(log + [VerifyCmd(commitSha)], ShowNoteCmd(ref, commitSha));
    GetNoteOutcome(git, log, None, namespace, commitSha);
    FormatSmallCodes();
    ExitCodeOnePatternFamily(ShowNoteCmd(ref, commitSha), p);
  }

  /** A spec git cannot resolve is reported as an invalid commit before any note is read. */
  lemma UnknownCommitIsInvalid(git: Backend, log: seq<Cmd>, namespace: string, commitSha: string)
    requires commitSha != "" && !git(log, VerifyCmd(commitSha)).status.Success?
    ensures GetNote(git, log, namespace, commitSha).value == Err(InvalidCommitSha(commitSha))
    ensures IsInvalidCommitSha(GetNote(git, log, namespace, commitSha).value.error)
    ensures forall c | c in GetNote(git, log, namespace, commitSha).issued :: !IsAddNote(c) && c[0] == "rev-parse"
  {
  }

  /**
   * `SetNote` (notes/notes.go:117-142): validation, then the size limit, then
   * `notes add -f -m <value>`.
   */
  function SetNote(git: Backend, log: seq<Cmd>, namespace: string, commitSha: string, value: string): (r: Run<Option<Error>>)
    ensures !IsSafeRevisionSpec(commitSha) ==> r == Run(Some(InvalidCommitSha(commitSha)), [])
    ensures ValidateCommitSha(git, log, commitSha).value.None? && Utf8Len(value) > MaxNoteSize ==>
      r == Run(Some(NoteSizeExceeded(Utf8Len(value), MaxNoteSize)), ValidateCommitSha(git, log, commitSha).issued)
    ensures r.value.None? ==> Utf8Len(value) <= MaxNoteSize && |r.issued| > 0 && IsAddNote(Last(r.issued))
    ensures commitSha != "" && r.value.None? ==>
      Last(r.issued) == AddNoteCmd(FormatNamespaceRef(namespace), value, commitSha)
  {
    var v := ValidateCommitSha(git, log, commitSha);
    if v.value.Some? then Run(v.value, v.issued)
    else if Utf8Len(value) > MaxNoteSize then Run(Some(NoteSizeExceeded(Utf8Len(value), MaxNoteSize)), v.issued)
    else
      var ref := FormatNamespaceRef(namespace);
      var head := ResolveHead(git, log + v.issued, None, commitSha);
      match head.value
      case Err(e) => Run(Some(e), v.issued + head.issued)
      case Ok(sha) =>
        var add := AddNoteCmd(ref, value, sha);
        var o := Call(git, log + v.issued + head.issued, add);
        if o.err.Some? then
          Run(Some(Wrapped("failed to set note for " + sha + " in " + ref + " (stdout: " + o.stdout
                           + " | stderr: " + o.stderr + "): ", o.err.value, "")),
              v.issued + head.issued + [add])
        else Run(None, v.issued + head.issued + [add])
  }

  /**
   * The size limit, on the value's length in UTF-8 bytes: a value over `MaxNoteSize` bytes is
   * rejected with the typed error and no note is written; a value of exactly `MaxNoteSize`
   * bytes is never rejected for its size. The
   * size error is the only one of its kind, and the invalid-commit error comes only from
   * validation.
   */
  lemma SetNoteSizeLimit(git: Backend, log: seq<Cmd>, namespace: string, commitSha: string, value: string)
    ensures var r := SetNote(git, log, namespace, commitSha, value);
      var valid := ValidateCommitSha(git, log, commitSha).value.None?;
      && (r.value.Some? && IsNoteSizeExceededError(r.value.value) <==> valid && Utf8Len(value) > MaxNoteSize)
      && (r.value.Some? && IsInvalidCommitSha(r.value.value) <==> !valid)
      && (Utf8Len(value) > MaxNoteSize ==> forall c | c in r.issued :: !IsAddNote(c))
  {
    var r := SetNote(git, log, namespace, commitSha, value);
    var v := ValidateCommitSha(git, log, commitSha);
    if v.value.None? && Utf8Len(value) <= MaxNoteSize {
      var ref := FormatNamespaceRef(namespace);
      var head := ResolveHead(git, log + v.issued, None, commitSha);
      if head.value.Err? {
        var p := git(log + v.issued, RevParseCmd("HEAD"));
        ExecuteErrorIsUntyped(RevParseCmd("HEAD"), p);
      } else {
        var add := AddNoteCmd(ref, value, head.value.value);
        var p := git(log + v.issued + head.issued, add);
        if !p.status.Success? {
          ExecuteErrorIsUntyped(add, p);
        }
      }
    }
    if Utf8Len(value) > MaxNoteSize {
      assert forall c | c in r.issued :: c[0] == "rev-parse";
    }
  }

  /** A value of exactly the limit in bytes reaches `notes add` when the commit is given and valid. */
  lemma SetNoteAtLimitWrites(git: Backend, log: seq<Cmd>, namespace: string, commitSha: string, value: string)
    requires Utf8Len(value) == MaxNoteSize && commitSha != "" && ValidateCommitSha(git, log, commitSha).value.None?
    ensures SetNote(git, log, namespace, commitSha, value).issued
      == [VerifyCmd(commitSha), AddNoteCmd(FormatNamespaceRef(namespace), value, commitSha)]
  {
  }

  /**
   * The limit counts bytes, not characters: a note of `MaxNoteSize / 3 + 1` euro signs (three
   * bytes each) is refused, and the error reports its byte count, although it has far fewer
   * than `MaxNoteSize` characters.
   */
  lemma SetNoteCountsBytes(git: Backend, log: seq<Cmd>, namespace: string, commitSha: string, value: string)
    requires |value| == MaxNoteSize / 3 + 1 && forall i | 0 <= i < |value| :: value[i] == '\U{20AC}'
    requires ValidateCommitSha(git, log, commitSha).value.None?
    ensures |value| < MaxNoteSize
    ensures SetNote(git, log, namespace, commitSha, value).value == Some(NoteSizeExceeded(3 * |value|, MaxNoteSize))
  {
    Utf8LenRepeated(value, '\U{20AC}');
  }

  /** The remove failures that mean "there was no note" (notes/notes.go:244-245). */
  predicate RemoveFoundNoNote(stderr: string, errStr: string) {
    Contains(stderr, "object has no note") || Contains(errStr, "exit code 1")
  }

  /** `DeleteNote` (notes/notes.go:230-251): deleting a missing note succeeds. */
  function DeleteNote(git: Backend, log: seq<Cmd>, namespace: string, commitSha: string): (r: Run<Option<Error>>)
    ensures commitSha == "" ==> r == Run(Some(Message("commitSha cannot be empty")), [])
    ensures commitSha != "" && !IsSafeRevisionSpec(commitSha) ==> r == Run(Some(InvalidCommitSha(commitSha)), [])
    ensures r.value.None? ==>
      commitSha != "" && r.issued == [VerifyCmd(commitSha), RemoveNoteCmd(FormatNamespaceRef(namespace), commitSha)]
    ensures r.value.None? <==>
      commitSha != "" && ValidateCommitSha(git, log, commitSha).value.None?
      && var o := Call(git, log + [VerifyCmd(commitSha)], RemoveNoteCmd(FormatNamespaceRef(namespace), commitSha));
         (o.err.None? || RemoveFoundNoNote(o.stderr, ErrorString(o.err.value)))
  {
    if commitSha == "" then Run(Some(Message("commitSha cannot be empty")), [])
    else
      var v := ValidateCommitSha(git, log, commitSha);
      if v.value.Some? then Run(v.value, v.issued)
      else
        var ref := FormatNamespaceRef(namespace);
        var remove := RemoveNoteCmd(ref, commitSha);
        var o := Call(git, log + v.issued, remove);
        if o.err.None? then Run(None, v.issued + [remove])
        else if Contains(o.stderr, "object has no note") || Contains(ErrorString(o.err.value), "exit code 1") then
          Run(None, v.issued + [remove])
        else
          Run(Some(Wrapped("failed to delete note for " + commitSha + " in " + ref + " (stderr: " + o.stderr + "): ",
                           o.err.value, "")), v.issued + [remove])
  }

  /**
   * Deleting twice is deleting once: when `notes remove` exits with 1 because the note is
   * gone, the delete still succeeds. So does every exit code written with a leading 1,
   * 128 among them, since "exit code 1" is matched as a substring.
   */
  lemma DeleteMissingNoteSucceeds(git: Backend, log: seq<Cmd>, namespace: string, commitSha: string)
    requires commitSha != "" && ValidateCommitSha(git, log, commitSha).value.None?
    requires var p := git(log + [VerifyCmd(commitSha)], RemoveNoteCmd(FormatNamespaceRef(namespace), commitSha));
      p.status.Exited? && FormatInt(p.status.code)[0] == '1'
    ensures DeleteNote(git, log, namespace, commitSha).value == None
  {
    var remove := RemoveNoteCmd(FormatNamespaceRef(namespace), commitSha);
    ExitCodeOnePatternFamily(remove, git(log + [VerifyCmd(commitSha)], remove));
  }

  /** The fetch failures that mean "the remote has no such notes ref" (notes/notes.go:268-273). */
  predicate FetchSaysRemoteRefAbsent(stderr: string, errStr: string) {
    Contains(Lower(stderr), "couldn't find remote ref")
    || Contains(Lower(stderr), "no such ref")
    || Contains(Lower(stderr), "fetch-pack: invalid refspec")
    || Contains(errStr, "exit status 1")
    || Contains(errStr, "exit status 128")
  }

  /** The elements of `xs` in order of first occurrence, each once. */
  function Distinct(xs: seq<string>): (r: seq<string>)
    ensures forall x :: x in r <==> x in xs
    ensures forall i, j :: 0 <= i < j < |r| ==> r[i] != r[j]
  {
    if xs == [] then []
    else
      var prefix := Distinct(xs[..|xs| - 1]);
      assert forall x :: x in xs <==> x in xs[..|xs| - 1] || x == Last(xs) by {
        assert xs == xs[..|xs| - 1] + [Last(xs)];
      }
      if Last(xs) in prefix then prefix else prefix + [Last(xs)]
  }

  function FetchRefCmd(remote: string, ref: string): Cmd {
    ["fetch", "--force", remote, ref + ":" + ref]
  }

  /**
   * `FetchNotes` (notes/notes.go:253-319): force-fetch the notes ref into itself; on success,
   * list the notes and fetch the commits they annotate, ignoring how that goes.
   */
  function FetchNotes(git: Backend, log: seq<Cmd>, namespace: string, remote: string): (r: Run<Option<Error>>)
    ensures remote == "" ==> r == Run(Some(Message("remoteName cannot be empty")), [])
    ensures remote != "" ==> 1 <= |r.issued| <= 3 && r.issued[0] == FetchRefCmd(remote, FormatNamespaceRef(namespace))
    ensures r.value.None? <==>
      remote != ""
      && var o := Call(git, log, FetchRefCmd(remote, FormatNamespaceRef(namespace)));
         (o.err.None? || FetchSaysRemoteRefAbsent(o.stderr, ErrorString(o.err.value)))
    ensures r.value.Some? ==> |r.issued| <= 1
  {
    if remote == "" then Run(Some(Message("remoteName cannot be empty")), [])
    else
      var ref := FormatNamespaceRef(namespace);
      var spec := ref + ":" + ref;
      var fetch := FetchRefCmd(remote, ref);
      var o := Call(git, log, fetch);
      if o.err.Some? then
        if FetchSaysRemoteRefAbsent(o.stderr, ErrorString(o.err.value)) then Run(None, [fetch])
        else
          Run(Some(Wrapped("failed to fetch notes for namespace " + namespace + " (refspec " + spec + ") from "
                           + remote + " (stderr: " + o.stderr + "): ", o.err.value, "")), [fetch])
      else
        var list := ListNotesCmd(ref);
        var l := Call(git, log + [fetch], list);
        if l.err.None? && l.stdout != "" then
          var shas := Distinct(ListedCommits(Lines(l.stdout)));
          if |shas| > 0 then Run(None, [fetch, list, ["fetch", remote] + shas])
          else Run(None, [fetch, list])
        else Run(None, [fetch, list])
  }

  /**
   * After a successful notes fetch, every commit the listing names is fetched, once each, in
   * one command, and how that command ends does not matter.
   */
  lemma FetchNotesFetchesListedCommits(git: Backend, log: seq<Cmd>, namespace: string, remote: string)
    requires remote != ""
    requires Call(git, log, FetchRefCmd(remote, FormatNamespaceRef(namespace))).err.None?
    ensures var r := FetchNotes(git, log, namespace, remote);
      var fetch := FetchRefCmd(remote, FormatNamespaceRef(namespace));
      var l := Call(git, log + [fetch], ListNotesCmd(FormatNamespaceRef(namespace)));
      var listed := ListedCommits(Lines(l.stdout));
      && r.value.None?
      && (l.err.None? && listed != [] ==>
            |r.issued| == 3 && r.issued[2][..2] == ["fetch", remote]
            && (forall c :: c in r.issued[2][2..] <==> c in listed)
            && (forall i, j :: 2 <= i < j < |r.issued[2]| ==> r.issued[2][i] != r.issued[2][j]))
  {
    var ref := FormatNamespaceRef(namespace);
    var fetch := FetchRefCmd(remote, ref);
    var l := Call(git, log + [fetch], ListNotesCmd(ref));
    var listed := ListedCommits(Lines(l.stdout));
    if l.err.None? && listed != [] {
      assert l.stdout != "";
      var shas := Distinct(listed);
      assert listed[0] in shas;
      var cmd := ["fetch", remote] + shas;
      assert cmd[2..] == shas;
    }
  }

  /** Fetching from a remote git does not know exits with 128, and the fetch still succeeds. */
  lemma FetchFromUnknownRemoteSucceeds(git: Backend, log: seq<Cmd>, namespace: string, remote: string)
    requires remote != ""
    requires git(log, FetchRefCmd(remote, FormatNamespaceRef(namespace))).status == Exited(128)
    ensures FetchNotes(git, log, namespace, remote) == Run(None, [FetchRefCmd(remote, FormatNamespaceRef(namespace))])
  {
    var fetch := FetchRefCmd(remote, FormatNamespaceRef(namespace));
    var p := git(log, fetch);
    FormatSmallCodes();
    ExitCodeOnePatternFamily(fetch, p);
  }
}
