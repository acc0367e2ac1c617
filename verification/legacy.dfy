/**
 * The older root-package variant of the library (notes.go).
 *
 * It issues the same kinds of git commands as the `notes` package but decides differently:
 * it only rejects an empty commit, never validates it, never limits the note size, passes on
 * every failure of `notes remove` and `fetch`, looks timestamps up one commit at a time,
 * merges without rolling back, pushes once, and decodes JSON streams without an object cap.
 * Its `formatNamespaceRef` (notes.go:19-27) is the same definition as the package's, so
 * `Refs.FormatNamespaceRef` serves both.
 */
module LegacyNotes {
  import opened Wrappers
  import opened Text
  import opened NoteErrors
  import opened GitExec
  import opened Refs
  import Listing
  import Store
  import NoteJson
  import Sync

  /**
   * `executeGitCommand` (notes.go:31-43): outputs trimmed on success; on any failure the raw
   * outputs and "git <command> failed: <process error>; stderr: <stderr>".
   */
  function ExecuteGit(args: Cmd, p: Process): (o: Output)
    requires |args| > 0
    ensures o.err.None? <==> p.status.Success?
    ensures p.status.Success? ==> o.stdout == TrimSpace(p.stdout) && o.stderr == TrimSpace(p.stderr)
    ensures !p.status.Success? ==> o.stdout == p.stdout && o.stderr == p.stderr
  {
    if p.status.Success? then Output(TrimSpace(p.stdout), TrimSpace(p.stderr), None)
    else Output(p.stdout, p.stderr, Some(Wrapped("git " + args[0] + " failed: ", ProcessError(p.status), "; stderr: " + p.stderr)))
  }

  function CallGit(git: Backend, log: seq<Cmd>, args: Cmd): Output
    requires |args| > 0
  {
    ExecuteGit(args, git(log, args))
  }

  /**
   * The error text names the command, carries Go's `exit status N` for an exit, and ends with
   * the raw stderr; no typed error is ever at its root.
   */
  lemma ExecuteErrorText(args: Cmd, p: Process)
    requires |args| > 0 && !p.status.Success?
    ensures ExecuteGit(args, p).err.Some?
    ensures var e := ExecuteGit(args, p).err.value;
      && HasPrefix(ErrorString(e), "git " + args[0] + " failed: ")
      && HasSuffix(ErrorString(e), "; stderr: " + p.stderr)
      && (p.status.Exited? ==> Contains(ErrorString(e), "exit status " + FormatInt(p.status.code)))
      && !IsNoteNotFound(e) && !IsInvalidCommitSha(e) && !IsNoteSizeExceededError(e)
  {
    var head := "git " + args[0] + " failed: ";
    var cause := ProcessError(p.status);
    var tail := "; stderr: " + p.stderr;
    var text := ErrorString(Wrapped(head, cause, tail));
    assert text == head + ErrorString(cause) + tail;
    assert text[..|head|] == head;
    assert text[|text| - |tail|..] == tail;
    if p.status.Exited? {
      ContainsInfix(head, ErrorString(cause), tail);
    }
  }

  /** `GetNote` (notes.go:46-56): every failure is wrapped as "failed to get note for …". */
  function GetNote(git: Backend, log: seq<Cmd>, namespace: string, commitSha: string): (r: Run<Result<string, Error>>)
    ensures commitSha == "" ==> r == Run(Err(Message("commitSha cannot be empty")), [])
    ensures commitSha != "" ==>
      var show := ShowNoteCmd(FormatNamespaceRef(namespace), commitSha);
      && r.issued == [show]
      && (r.value.Ok? <==> git(log, show).status.Success?)
      && (r.value.Ok? ==> r.value.value == TrimSpace(git(log, show).stdout))
      && (r.value.Err? ==> HasPrefix(ErrorString(r.value.error), "failed to get note for " + commitSha))
  {
    if commitSha == "" then Run(Err(Message("commitSha cannot be empty")), [])
    else
      var ref := FormatNamespaceRef(namespace);
      var show := ShowNoteCmd(ref, commitSha);
      var o := CallGit(git, log, show);
      if o.err.Some? then
        var head := "failed to get note for " + commitSha + " in " + ref + ": ";
        assert ErrorString(Wrapped(head, o.err.value, ""))[..|"failed to get note for " + commitSha|]
            == "failed to get note for " + commitSha;
        Run(Err(Wrapped(head, o.err.value, "")), [show])
      else Run(Ok(o.stdout), [show])
  }

  /** `SetNote` (notes.go:59-69): one `notes add -f`, whatever the size of the value. */
  function SetNote(git: Backend, log: seq<Cmd>, namespace: string, commitSha: string, value: string): (r: Run<Option<Error>>)
    ensures commitSha == "" ==> r == Run(Some(Message("commitSha cannot be empty")), [])
    ensures commitSha != "" ==>
      var add := AddNoteCmd(FormatNamespaceRef(namespace), value, commitSha);
      r.issued == [add] && (r.value.None? <==> git(log, add).status.Success?)
  {
    if commitSha == "" then Run(Some(Message("commitSha cannot be empty")), [])
    else
      var ref := FormatNamespaceRef(namespace);
      var add := AddNoteCmd(ref, value, commitSha);
      var o := CallGit(git, log, add);
      if o.err.Some? then
        Run(Some(Wrapped("failed to set note for " + commitSha + " in " + ref + " (stderr: " + o.stderr + "): ",
                         o.err.value, "")), [add])
      else Run(None, [add])
  }

  /** `DeleteNote` (notes.go:138-148): a failed `notes remove` is always an error. */
  function DeleteNote(git: Backend, log: seq<Cmd>, namespace: string, commitSha: string): (r: Run<Option<Error>>)
    ensures commitSha == "" ==> r == Run(Some(Message("commitSha cannot be empty")), [])
    ensures commitSha != "" ==>
      var remove := RemoveNoteCmd(FormatNamespaceRef(namespace), commitSha);
      r.issued == [remove] && (r.value.None? <==> git(log, remove).status.Success?)
  {
    if commitSha == "" then Run(Some(Message("commitSha cannot be empty")), [])
    else
      var ref := FormatNamespaceRef(namespace);
      var remove := RemoveNoteCmd(ref, commitSha);
      var o := CallGit(git, log, remove);
      if o.err.Some? then
        Run(Some(Wrapped("failed to delete note for " + commitSha + " in " + ref + " (stderr: " + o.stderr + "): ",
                         o.err.value, "")), [remove])
      else Run(None, [remove])
  }

  /** `FetchNotes` (notes.go:152-164): one forced fetch of the ref into itself; any failure is an error. */
  function FetchNotes(git: Backend, log: seq<Cmd>, namespace: string, remote: string): (r: Run<Option<Error>>)
    ensures remote == "" ==> r == Run(Some(Message("remoteName cannot be empty")), [])
    ensures remote != "" ==>
      var fetch := Store.FetchRefCmd(remote, FormatNamespaceRef(namespace));
      r.issued == [fetch] && (r.value.None? <==> git(log, fetch).status.Success?)
  {
    if remote == "" then Run(Some(Message("remoteName cannot be empty")), [])
    else
      var ref := FormatNamespaceRef(namespace);
      var spec := ref + ":" + ref;
      var fetch := Store.FetchRefCmd(remote, ref);
      var o := CallGit(git, log, fetch);
      if o.err.Some? then
        Run(Some(Wrapped("failed to fetch notes for namespace " + namespace + " (refspec " + spec + ") from "
                         + remote + " (stderr: " + o.stderr + "): ", o.err.value, "")), [fetch])
      else Run(None, [fetch])
  }

  /**
   * Where the two variants part: removing a note that git reports missing with exit code 1
   * is an error here and a success in the package.
   */
  lemma MissingNoteDeleteDiffers(git: Backend, log: seq<Cmd>, namespace: string, commitSha: string)
    requires commitSha != "" && IsSafeRevisionSpec(commitSha)
    requires git(log, VerifyCmd(commitSha)).status.Success?
    requires var remove := RemoveNoteCmd(FormatNamespaceRef(namespace), commitSha);
      git(log, remove).status == Exited(1) && git(log + [VerifyCmd(commitSha)], remove).status == Exited(1)
    ensures DeleteNote(git, log, namespace, commitSha).value.Some?
    ensures Store.DeleteNote(git, log, namespace, commitSha).value.None?
  {
    var remove := RemoveNoteCmd(FormatNamespaceRef(namespace), commitSha);
    var p := git(log + [VerifyCmd(commitSha)], remove);
    FormatSmallCodes();
    ExitCodeOnePatternFamily(remove, p);
  }

  /**
   * Fetching from a remote git does not know (exit status 128) fails here and succeeds in the
   * package.
   */
  lemma UnknownRemoteFetchDiffers(git: Backend, log: seq<Cmd>, namespace: string, remote: string)
    requires remote != ""
    requires git(log, Store.FetchRefCmd(remote, FormatNamespaceRef(namespace))).status == Exited(128)
    ensures FetchNotes(git, log, namespace, remote).value.Some?
    ensures Store.FetchNotes(git, log, namespace, remote).value.None?
  {
    var fetch := Store.FetchRefCmd(remote, FormatNamespaceRef(namespace));
    FormatSmallCodes();
    ExitFailureText(fetch, git(log, fetch));
    var o := Call(git, log, fetch);
    assert "exit status " + FormatInt(128) == "exit status 128";
    assert Store.FetchSaysRemoteRefAbsent(o.stderr, ErrorString(o.err.value));
  }

  /**
   * There is no size limit here: a value over `MaxNoteSize` UTF-8 bytes is written when git
   * accepts it, where the package refuses it with `NoteSizeExceeded`, reporting its byte count,
   * and writes nothing.
   */
  lemma OversizedNoteDiffers(git: Backend, log: seq<Cmd>, namespace: string, commitSha: string, value: string)
    requires commitSha != "" && IsSafeRevisionSpec(commitSha) && Utf8Len(value) > Store.MaxNoteSize
    requires git(log, VerifyCmd(commitSha)).status.Success?
    requires git(log, AddNoteCmd(FormatNamespaceRef(namespace), value, commitSha)).status.Success?
    ensures SetNote(git, log, namespace, commitSha, value).value.None?
    ensures Store.SetNote(git, log, namespace, commitSha, value).value == Some(NoteSizeExceeded(Utf8Len(value), Store.MaxNoteSize))
  {
  }

  // `GetNoteList` (notes.go:79-135)

  function TimestampLookupCmd(sha: string): Cmd { ["show", "-s", "--format=%ct", sha] }

  /** What one timestamp lookup decides: the row, or why there is none. */
  function ReadTimestamp(sha: string, o: Output): Result<Listing.CommitInfo, Error> {
    if o.err.Some? then Err(Wrapped("failed to get timestamp for commit " + sha + ": ", o.err.value, ""))
    else match ParseInt64(TrimSpace(o.stdout))
      case Ok(t) => Ok(Listing.CommitInfo(sha, t))
      case Err(reason) =>
        Err(Wrapped("failed to parse timestamp for commit " + sha + " ('" + o.stdout + "'): ",
                    Listing.NumError(TrimSpace(o.stdout), reason), ""))
  }

  /**
   * The scanner loop over the listing: one lookup per listed commit, in order, until the first
   * lookup that fails; the rows read so far are the listed commits with their timestamps.
   */
  function LookupLines(git: Backend, log: seq<Cmd>, lines: seq<string>): (r: Run<Result<seq<Listing.CommitInfo>, Error>>)
    ensures var listed := Listing.ListedCommits(lines);
      && |r.issued| <= |listed|
      && (forall i | 0 <= i < |r.issued| :: r.issued[i] == TimestampLookupCmd(listed[i]))
      && (r.value.Ok? ==> |r.issued| == |listed| == |r.value.value|
                          && forall i | 0 <= i < |listed| :: r.value.value[i].sha == listed[i])
      && (r.value.Err? ==> |r.issued| > 0)
  {
    if lines == [] then Run(Ok([]), [])
    else
      var prev := LookupLines(git, log, lines[..|lines| - 1]);
      var parts := Fields(Listing.Last(lines));
      match prev.value
      case Err(e) => prev
      case Ok(cs) =>
        if |parts| < 2 then prev
        else
          var cmd := TimestampLookupCmd(parts[1]);
          match ReadTimestamp(parts[1], CallGit(git, log + prev.issued, cmd))
          case Err(e) => Run(Err(e), prev.issued + [cmd])
          case Ok(c) => Run(Ok(cs + [c]), prev.issued + [cmd])
  }

  /** Once the lookups over a prefix of the listing fail, the loop has stopped with that failure. */
  lemma {:induction false} LookupFailurePersists(git: Backend, log: seq<Cmd>, lines: seq<string>, k: nat)
    requires k <= |lines| && LookupLines(git, log, lines[..k]).value.Err?
    ensures LookupLines(git, log, lines) == LookupLines(git, log, lines[..k])
    decreases |lines| - k
  {
    if k < |lines| {
      assert lines[..|lines| - 1][..k] == lines[..k];
      LookupFailurePersists(git, log, lines[..|lines| - 1], k);
    } else {
      assert lines[..k] == lines;
    }
  }

  /** The listing failures that mean "no notes" here: no "exit code 1" among them (notes.go:86). */
  predicate ListFailureMeansEmpty(errMsg: string) {
    Contains(errMsg, "bad notes ref") || Contains(errMsg, "does not exist") || Contains(errMsg, "no notes found")
  }

  /** `GetNoteList` with the rows it sorted, and the git commands it issues. */
  function NoteListRows(git: Backend, log: seq<Cmd>, namespace: string): (r: Run<Result<seq<Listing.CommitInfo>, Error>>)
    ensures |r.issued| >= 1 && r.issued[0] == ListNotesCmd(FormatNamespaceRef(namespace))
    ensures r.value.Ok? ==> Listing.NewestFirst(r.value.value)
  {
    var ref := FormatNamespaceRef(namespace);
    var list := ListNotesCmd(ref);
    var o := CallGit(git, log, list);
    if o.err.Some? then
      if ListFailureMeansEmpty(ErrorString(o.err.value)) then Run(Ok([]), [list])
      else Run(Err(Wrapped("failed to list notes in " + ref + ": ", o.err.value, "")), [list])
    else if o.stdout == "" then Run(Ok([]), [list])
    else
      var l := LookupLines(git, log + [list], Lines(o.stdout));
      match l.value
      case Err(e) => Run(Err(e), [list] + l.issued)
      case Ok(cs) => Run(Ok(Listing.SortNewestFirst(cs)), [list] + l.issued)
  }

  function NoteList(git: Backend, log: seq<Cmd>, namespace: string): Run<Result<seq<string>, Error>> {
    var r := NoteListRows(git, log, namespace);
    Run(if r.value.Ok? then Ok(Listing.Shas(r.value.value)) else Err(r.value.error), r.issued)
  }

  /**
   * A listing git printed is looked up commit by commit: after the `notes list`, one
   * `show -s --format=%ct` per listed commit, and the result holds exactly the listed commits,
   * each as often as listed, reordered newest first.
   */
  lemma NoteListLooksUpEachCommit(git: Backend, log: seq<Cmd>, namespace: string)
    requires var o := CallGit(git, log, ListNotesCmd(FormatNamespaceRef(namespace))); o.err.None? && o.stdout != ""
    requires NoteListRows(git, log, namespace).value.Ok?
    ensures var o := CallGit(git, log, ListNotesCmd(FormatNamespaceRef(namespace)));
      var listed := Listing.ListedCommits(Lines(o.stdout));
      var r := NoteListRows(git, log, namespace);
      var shas := NoteList(git, log, namespace).value.value;
      && |r.issued| == |listed| + 1
      && (forall i | 0 <= i < |listed| :: r.issued[i + 1] == TimestampLookupCmd(listed[i]))
      && multiset(shas) == multiset(listed)
      && Listing.NewestFirst(r.value.value)
  {
    var ref := FormatNamespaceRef(namespace);
    var list := ListNotesCmd(ref);
    var o := CallGit(git, log, list);
    var listed := Listing.ListedCommits(Lines(o.stdout));
    var l := LookupLines(git, log + [list], Lines(o.stdout));
    var cs := l.value.value;
    var sorted := Listing.SortNewestFirst(cs);
    assert Listing.Shas(cs) == listed;
    Listing.ShasOfPermutation(sorted, cs);
  }

  /**
   * No notes ref, or an empty listing, is an empty list; a failed lookup or an unparsable
   * timestamp is an error.
   */
  lemma NoteListOutcomes(git: Backend, log: seq<Cmd>, namespace: string)
    ensures var list := ListNotesCmd(FormatNamespaceRef(namespace));
      var o := CallGit(git, log, list);
      && (o.err.Some? && Contains(ErrorString(o.err.value), "bad notes ref") ==> NoteList(git, log, namespace) == Run(Ok([]), [list]))
      && (o.err.Some? && Contains(ErrorString(o.err.value), "does not exist") ==> NoteList(git, log, namespace) == Run(Ok([]), [list]))
      && (o.err.Some? && Contains(ErrorString(o.err.value), "no notes found") ==> NoteList(git, log, namespace) == Run(Ok([]), [list]))
      && (o.err.Some? && !ListFailureMeansEmpty(ErrorString(o.err.value)) ==> NoteList(git, log, namespace).value.Err?)
      && (o.err.None? && o.stdout == "" ==> NoteList(git, log, namespace) == Run(Ok([]), [list]))
      && (o.err.None? && o.stdout != "" && LookupLines(git, log + [list], Lines(o.stdout)).value.Err? ==>
            NoteList(git, log, namespace).value.Err?)
  {
  }

  /** `GetNoteList`, with its scanner loop. */
  method GetNoteList(git: Backend, log: seq<Cmd>, namespace: string) returns (r: Result<seq<string>, Error>, issued: seq<Cmd>)
    ensures Run(r, issued) == NoteList(git, log, namespace)
  {
    var ref := FormatNamespaceRef(namespace);
    var list := ListNotesCmd(ref);
    var o := CallGit(git, log, list);
    issued := [list];
    if o.err.Some? {
      var errMsg := ErrorString(o.err.value);
      if Contains(errMsg, "bad notes ref") || Contains(errMsg, "does not exist") || Contains(errMsg, "no notes found") {
        return Ok([]), issued;
      }
      return Err(Wrapped("failed to list notes in " + ref + ": ", o.err.value, "")), issued;
    }
    if o.stdout == "" {
      return Ok([]), issued;
    }
    var commits, lookups := LookupEach(git, log + issued, Lines(o.stdout));
    issued := issued + lookups;
    if commits.Err? {
      return Err(commits.error), issued;
    }
    var sortedShas := Listing.ExtractShas(Listing.SortNewestFirst(commits.value));
    return Ok(sortedShas), issued;
  }

  /** The scanner loop of `GetNoteList`: a timestamp lookup per listed commit, returning at the first failure. */
  method LookupEach(git: Backend, log: seq<Cmd>, lines: seq<string>)
      returns (r: Result<seq<Listing.CommitInfo>, Error>, issued: seq<Cmd>)
    ensures Run(r, issued) == LookupLines(git, log, lines)
  {
    var commitsWithNotes: seq<Listing.CommitInfo> := [];
    issued := [];
    var i := 0;
    while i < |lines|
      invariant 0 <= i <= |lines|
      invariant LookupLines(git, log, lines[..i]) == Run(Ok(commitsWithNotes), issued)
    {
      assert lines[..i + 1][..i] == lines[..i];
      var parts := Fields(lines[i]);
      if |parts| >= 2 {
        var commitSha := parts[1];
        var cmd := TimestampLookupCmd(commitSha);
        var ts := CallGit(git, log + issued, cmd);
        issued := issued + [cmd];
        if ts.err.Some? {
          r := Err(Wrapped("failed to get timestamp for commit " + commitSha + ": ", ts.err.value, ""));
          LookupFailurePersists(git, log, lines, i + 1);
          return;
        }
        var timestamp := ParseInt64(TrimSpace(ts.stdout));
        if timestamp.Err? {
          r := Err(Wrapped("failed to parse timestamp for commit " + commitSha + " ('" + ts.stdout + "'): ",
                           Listing.NumError(TrimSpace(ts.stdout), timestamp.error), ""));
          LookupFailurePersists(git, log, lines, i + 1);
          return;
        }
        commitsWithNotes := commitsWithNotes + [Listing.CommitInfo(commitSha, timestamp.value)];
      }
      i := i + 1;
    }
    assert lines[..i] == lines;
    r := Ok(commitsWithNotes);
  }

  // `PushNotes` (notes.go:166-245)

  /** A command of the package's rollback after a failed merge: `notes merge --abort` or `update-ref`. */
  predicate IsRollbackCmd(c: Cmd) {
    |c| > 0 && (c[0] == "update-ref" || (c[0] == "notes" && |c| >= 5 && c[3] == "merge" && c[4] == "--abort"))
  }

  /**
   * Steps 2 and 3 (notes.go:194-229): verify the tracking ref and, when it verifies, merge
   * from it; a merge that git reports up to date or with nothing to merge is not a failure.
   */
  function MergeStage(git: Backend, log: seq<Cmd>, ref: string, remote: string): (r: Run<Option<Error>>)
    ensures |r.issued| <= 2 && forall c | c in r.issued :: !IsRollbackCmd(c)
    ensures HasPrefix(ref, NotesPrefix) ==>
      var tracking := RemoteTrackingRef(remote, ref);
      var verify := VerifyCmd(tracking);
      var merge := MergeCmd(ref, tracking);
      && (!git(log, verify).status.Success? ==> r == Run(None, [verify]))
      && (git(log, verify).status.Success? ==>
            r.issued == [verify, merge]
            && (r.value.None? <==> var o := CallGit(git, log + [verify], merge); o.err.None? || Sync.MergeWasNoOp(o.stderr)))
  {
    if !HasPrefix(ref, NotesPrefix) then
      Run(Some(Message("internal programming error: localRef '" + ref + "' is not in the expected 'refs/notes/...' format")), [])
    else
      var tracking := RemoteTrackingRef(remote, ref);
      var verify := VerifyCmd(tracking);
      if CallGit(git, log, verify).err.Some? then Run(None, [verify])
      else
        var merge := MergeCmd(ref, tracking);
        var o := CallGit(git, log + [verify], merge);
        if o.err.None? || Sync.MergeWasNoOp(o.stderr) then Run(None, [verify, merge])
        else Run(Some(MergeError(tracking, ref, o.err.value, o.stderr)), [verify, merge])
  }

  /**
   * The error of a merge that failed for real (notes.go:219-224): it names a possible conflict
   * when the lower-cased stderr mentions one, and carries the git error and the stderr.
   */
  function MergeError(tracking: string, ref: string, e: Error, stderr: string): (r: Error)
    ensures Contains(Lower(stderr), "conflict") ==> Contains(ErrorString(r), "possible conflict")
    ensures Contains(ErrorString(r), ErrorString(e))
  {
    var tail := "; stderr: " + stderr;
    var lead := if Contains(Lower(stderr), "conflict") then
      "failed to automatically merge notes from '" + tracking + "' into '" + ref + "' using 'cat_sort_uniq', possible conflict"
    else "failed to merge notes from '" + tracking + "' into '" + ref + "'";
    var r := Wrapped(lead + ": ", e, tail);
    ContainsInfix(lead + ": ", ErrorString(e), tail);
    if Contains(Lower(stderr), "conflict") then
      ConflictPhrase(tracking, ref);
      ContainsInLeft(lead, ": ", "possible conflict");
      ContainsInLeft(lead + ": ", ErrorString(e), "possible conflict");
      ContainsInLeft(lead + ": " + ErrorString(e), tail, "possible conflict");
      r
    else r
  }

  lemma ConflictPhrase(tracking: string, ref: string)
    ensures Contains("failed to automatically merge notes from '" + tracking + "' into '" + ref
                     + "' using 'cat_sort_uniq', possible conflict", "possible conflict")
  {
    var lead := "failed to automatically merge notes from '" + tracking + "' into '" + ref + "' using 'cat_sort_uniq', ";
    ContainsInfix(lead, "possible conflict", []);
    assert lead + "possible conflict" + [] == "failed to automatically merge notes from '" + tracking + "' into '" + ref
                     + "' using 'cat_sort_uniq', possible conflict";
  }

  /** Step 4 (notes.go:231-241): one push of the notes ref. */
  function PushStage(git: Backend, log: seq<Cmd>, ref: string, remote: string): (r: Run<Option<Error>>)
    ensures r.issued == [PushCmd(remote, ref)]
    ensures r.value.None? <==> git(log, PushCmd(remote, ref)).status.Success?
  {
    var push := PushCmd(remote, ref);
    var o := CallGit(git, log, push);
    if o.err.Some? then
      Run(Some(Wrapped("failed to push merged notes ref '" + ref + "' to remote '" + remote + "': ",
                       o.err.value, "; stderr: " + o.stderr)), [push])
    else Run(None, [push])
  }

  /**
   * `PushNotes`: fetch, merge when the remote has notes, push once. Nothing is ever rolled
   * back, and success means the push was the last command and git accepted it.
   */
  function PushNotes(git: Backend, log: seq<Cmd>, namespace: string, remote: string): (r: Run<Option<Error>>)
    ensures 1 <= |r.issued| <= 4 && r.issued[0] == FetchCmd(remote, FormatNamespaceRef(namespace))
    ensures forall c | c in r.issued :: !IsRollbackCmd(c)
    ensures r.value.None? ==>
      var push := PushCmd(remote, FormatNamespaceRef(namespace));
      r.issued[|r.issued| - 1] == push && git(log + r.issued[..|r.issued| - 1], push).status.Success?
  {
    var ref := FormatNamespaceRef(namespace);
    var fetch := FetchCmd(remote, ref);
    var f := CallGit(git, log, fetch);
    if f.err.Some? && !Sync.RemoteNotesAbsent(f.stderr, ErrorString(f.err.value)) then
      Run(Some(Wrapped("failed to fetch notes from remote '" + remote + "' for ref '" + ref + "' before merge: ",
                       f.err.value, "; stderr: " + f.stderr)), [fetch])
    else
      var m := if f.err.None? then MergeStage(git, log + [fetch], ref, remote) else Run(None, []);
      var merged := [fetch] + m.issued;
      if m.value.Some? then Run(m.value, merged)
      else
        var p := PushStage(git, log + merged, ref, remote);
        assert (merged + p.issued)[..|merged|] == merged;
        Run(p.value, merged + p.issued)
  }

  /** A fetch failure that does not say the remote lacks the notes ends the push: nothing else is run. */
  lemma FetchFailureStopsPush(git: Backend, log: seq<Cmd>, namespace: string, remote: string)
    requires var f := CallGit(git, log, FetchCmd(remote, FormatNamespaceRef(namespace)));
      f.err.Some? && !Sync.RemoteNotesAbsent(f.stderr, ErrorString(f.err.value))
    ensures var r := PushNotes(git, log, namespace, remote);
      r.value.Some? && r.issued == [FetchCmd(remote, FormatNamespaceRef(namespace))]
  {
  }

  /** Without remote notes there is nothing to merge: fetch, then push. */
  lemma AbsentRemoteIsPushedWithoutMerge(git: Backend, log: seq<Cmd>, namespace: string, remote: string)
    requires var f := CallGit(git, log, FetchCmd(remote, FormatNamespaceRef(namespace)));
      f.err.Some? && Sync.RemoteNotesAbsent(f.stderr, ErrorString(f.err.value))
    ensures var ref := FormatNamespaceRef(namespace);
      PushNotes(git, log, namespace, remote).issued == [FetchCmd(remote, ref), PushCmd(remote, ref)]
  {
  }

  /** A tracking ref that does not verify is not merged from: fetch, verify, push. */
  lemma UnverifiedTrackingRefIsNotMerged(git: Backend, log: seq<Cmd>, namespace: string, remote: string)
    requires var ref := FormatNamespaceRef(namespace);
      && CallGit(git, log, FetchCmd(remote, ref)).err.None?
      && !git(log + [FetchCmd(remote, ref)], VerifyCmd(RemoteTrackingRef(remote, ref))).status.Success?
    ensures var ref := FormatNamespaceRef(namespace);
      PushNotes(git, log, namespace, remote).issued
        == [FetchCmd(remote, ref), VerifyCmd(RemoteTrackingRef(remote, ref)), PushCmd(remote, ref)]
  {
    var ref := FormatNamespaceRef(namespace);
    assert [FetchCmd(remote, ref)] + [VerifyCmd(RemoteTrackingRef(remote, ref))] + [PushCmd(remote, ref)]
        == [FetchCmd(remote, ref), VerifyCmd(RemoteTrackingRef(remote, ref)), PushCmd(remote, ref)];
  }

  /**
   * A merge failure that is not "already up to date" or "nothing to merge" is returned at once:
   * the merge is the last command, with no push and no rollback; with "conflict" in its stderr
   * the error says "possible conflict".
   */
  lemma FailedMergeIsReturned(git: Backend, log: seq<Cmd>, namespace: string, remote: string)
    requires var ref := FormatNamespaceRef(namespace);
      var tracking := RemoteTrackingRef(remote, ref);
      var before := log + [FetchCmd(remote, ref)];
      var merge := CallGit(git, before + [VerifyCmd(tracking)], MergeCmd(ref, tracking));
      && CallGit(git, log, FetchCmd(remote, ref)).err.None?
      && git(before, VerifyCmd(tracking)).status.Success?
      && merge.err.Some? && !Sync.MergeWasNoOp(merge.stderr)
    ensures var ref := FormatNamespaceRef(namespace);
      var tracking := RemoteTrackingRef(remote, ref);
      var merge := CallGit(git, log + [FetchCmd(remote, ref)] + [VerifyCmd(tracking)], MergeCmd(ref, tracking));
      var r := PushNotes(git, log, namespace, remote);
      && r.value.Some?
      && r.issued == [FetchCmd(remote, ref), VerifyCmd(tracking), MergeCmd(ref, tracking)]
      && (Contains(Lower(merge.stderr), "conflict") ==> Contains(ErrorString(r.value.value), "possible conflict"))
  {
    var ref := FormatNamespaceRef(namespace);
    var tracking := RemoteTrackingRef(remote, ref);
    assert [FetchCmd(remote, ref)] + [VerifyCmd(tracking), MergeCmd(ref, tracking)]
        == [FetchCmd(remote, ref), VerifyCmd(tracking), MergeCmd(ref, tracking)];
  }

  /** A merge git reports as a no-op is followed by the push, whose outcome decides. */
  lemma NoOpMergeIsPushed(git: Backend, log: seq<Cmd>, namespace: string, remote: string)
    requires var ref := FormatNamespaceRef(namespace);
      var tracking := RemoteTrackingRef(remote, ref);
      var before := log + [FetchCmd(remote, ref)];
      var merge := CallGit(git, before + [VerifyCmd(tracking)], MergeCmd(ref, tracking));
      && CallGit(git, log, FetchCmd(remote, ref)).err.None?
      && git(before, VerifyCmd(tracking)).status.Success?
      && merge.err.Some? && Sync.MergeWasNoOp(merge.stderr)
    ensures var ref := FormatNamespaceRef(namespace);
      var tracking := RemoteTrackingRef(remote, ref);
      var cmds := [FetchCmd(remote, ref), VerifyCmd(tracking), MergeCmd(ref, tracking)];
      var r := PushNotes(git, log, namespace, remote);
      && r.issued == cmds + [PushCmd(remote, ref)]
      && (r.value.None? <==> git(log + cmds, PushCmd(remote, ref)).status.Success?)
  {
    var ref := FormatNamespaceRef(namespace);
    var tracking := RemoteTrackingRef(remote, ref);
    assert [FetchCmd(remote, ref)] + [VerifyCmd(tracking), MergeCmd(ref, tracking)]
        == [FetchCmd(remote, ref), VerifyCmd(tracking), MergeCmd(ref, tracking)];
  }

  // `SetNoteJSON` and `GetNoteJSON` (notes.go:247-331)

  /** The decoder moves forward: a decoded document spans at least one position of the note. */
  ghost predicate Advances<T>(dec: NoteJson.Decoder<T>) {
    forall content: string, offset: nat ::
      dec(content, offset).Decoded? ==> offset < dec(content, offset).next <= |content|
  }

  /**
   * The decode loop (notes.go:292-326) from `offset` on, with `done` the documents decoded so
   * far; there is no cap on their number.
   */
  function DecodeAll<T>(dec: NoteJson.Decoder<T>, typeName: string, commitSha: string, content: string, offset: nat,
                        done: seq<T>): (r: (seq<T>, Option<Error>))
    requires Advances(dec)
    ensures |done| <= |r.0| && r.0[..|done|] == done
    ensures offset <= |content| ==> |r.0| <= |done| + (|content| - offset)
    ensures r.1.Some? ==> Contains(ErrorString(r.1.value), "(processed " + FormatInt(|r.0|) + " objects)")
    decreases |content| - offset
  {
    match dec(content, offset)
    case NoMore => (done, None)
    case Failed(cause, at) => (done, Some(NoteJson.DecodeFailure(typeName, commitSha, |done|, content, cause, at)))
    case Decoded(v, next) =>
      var r := DecodeAll(dec, typeName, commitSha, content, next, done + [v]);
      assert r.0[..|done|] == (done + [v])[..|done|];
      r
  }

  /** Following a chain of decoded documents from its start is following it from any point on it. */
  lemma {:induction false} DecodeAllChain<T>(dec: NoteJson.Decoder<T>, typeName: string, commitSha: string,
                                             content: string, offsets: seq<nat>, values: seq<T>, k: nat)
    requires Advances(dec)
    requires |offsets| == |values| + 1 && k <= |values|
    requires forall i :: 0 <= i < |values| ==> dec(content, offsets[i]) == NoteJson.Decoded(values[i], offsets[i + 1])
    ensures DecodeAll(dec, typeName, commitSha, content, offsets[k], values[..k])
         == DecodeAll(dec, typeName, commitSha, content, offsets[|values|], values)
    decreases |values| - k
  {
    if k < |values| {
      assert values[..k] + [values[k]] == values[..k + 1];
      DecodeAllChain(dec, typeName, commitSha, content, offsets, values, k + 1);
    } else {
      assert values[..k] == values;
    }
  }

  /**
   * Every document of the stream is returned, however many there are: a stream of 1001
   * documents yields all of them here, where the package stops at 1000 with its cap error.
   */
  lemma NoObjectCap<T>(dec: NoteJson.Decoder<T>, typeName: string, commitSha: string, content: string,
                       offsets: seq<nat>, values: seq<T>)
    requires Advances(dec)
    requires |offsets| == |values| + 1 && offsets[0] == 0 && |values| == NoteJson.MaxJSONObjects + 1
    requires forall i :: 0 <= i < |values| ==> dec(content, offsets[i]) == NoteJson.Decoded(values[i], offsets[i + 1])
    requires dec(content, offsets[|values|]) == NoteJson.NoMore
    ensures DecodeAll(dec, typeName, commitSha, content, 0, []) == (values, None)
    ensures NoteJson.DecodeFrom(dec, typeName, commitSha, content, 0, [])
         == (values[..NoteJson.MaxJSONObjects], Some(NoteJson.CapExceeded))
  {
    DecodeAllChain(dec, typeName, commitSha, content, offsets, values, 0);
    assert values[..0] == [];
    var n := NoteJson.MaxJSONObjects;
    NoteJson.CapStopsAtThousand(dec, typeName, commitSha, content, offsets[..n + 1], values[..n]);
  }

  /**
   * A decode failure after `k` documents returns exactly those `k` documents, with an error
   * counting them.
   */
  lemma DecodeFailureKeepsPrefix<T>(dec: NoteJson.Decoder<T>, typeName: string, commitSha: string,
                                    content: string, offsets: seq<nat>, values: seq<T>, cause: Error, at: nat)
    requires Advances(dec)
    requires |offsets| == |values| + 1 && offsets[0] == 0
    requires forall i :: 0 <= i < |values| ==> dec(content, offsets[i]) == NoteJson.Decoded(values[i], offsets[i + 1])
    requires dec(content, offsets[|values|]) == NoteJson.Failed(cause, at)
    ensures var r := DecodeAll(dec, typeName, commitSha, content, 0, []);
      r.0 == values && r.1 == Some(NoteJson.DecodeFailure(typeName, commitSha, |values|, content, cause, at))
  {
    DecodeAllChain(dec, typeName, commitSha, content, offsets, values, 0);
    assert values[..0] == [];
  }

  /** `GetNoteJSON`: the documents of the note, the error, and the commands issued. */
  function NoteDocuments<T>(git: Backend, log: seq<Cmd>, dec: NoteJson.Decoder<T>, typeName: string, namespace: string,
                            commitSha: string): (r: Run<(seq<T>, Option<Error>)>)
    requires Advances(dec)
    ensures commitSha == "" ==> r == Run(([], Some(Message("commitSha cannot be empty for GetNoteJSON"))), [])
    ensures commitSha != "" ==> r.issued == [ShowNoteCmd(FormatNamespaceRef(namespace), commitSha)]
    ensures r.value.0 != [] ==> GetNote(git, log, namespace, commitSha).value.Ok?
  {
    if commitSha == "" then Run(([], Some(Message("commitSha cannot be empty for GetNoteJSON"))), [])
    else
      var g := GetNote(git, log, namespace, commitSha);
      match g.value
      case Err(e) =>
        if Contains(ErrorString(e), "failed to get note") then Run(([], None), g.issued)
        else Run(([], Some(Wrapped("failed to get underlying note for commit " + commitSha + ": ", e, ""))), g.issued)
      case Ok(content) =>
        if TrimSpace(content) == "" then Run(([], None), g.issued)
        else Run(DecodeAll(dec, typeName, commitSha, content, 0, []), g.issued)
  }

  /**
   * Every failure to read the note, a missing note as much as an unknown commit or a broken
   * repository, reads as no documents and no error; so does a blank note.
   */
  lemma EveryReadFailureIsNoDocuments<T>(git: Backend, log: seq<Cmd>, dec: NoteJson.Decoder<T>, typeName: string,
                                         namespace: string, commitSha: string)
    requires Advances(dec) && commitSha != ""
    ensures var show := ShowNoteCmd(FormatNamespaceRef(namespace), commitSha);
      var p := git(log, show);
      (!p.status.Success? || TrimSpace(TrimSpace(p.stdout)) == "") ==>
        NoteDocuments(git, log, dec, typeName, namespace, commitSha).value == ([], None)
  {
    var g := GetNote(git, log, namespace, commitSha).value;
    if g.Err? {
      var text := ErrorString(g.error);
      assert text[..|"failed to get note"|] == "failed to get note";
      assert OccursAt(text, "failed to get note", 0);
    }
  }

  /** `GetNoteJSON`, with its decode loop. */
  method GetNoteJSON<T>(git: Backend, log: seq<Cmd>, dec: NoteJson.Decoder<T>, typeName: string, namespace: string,
                        commitSha: string) returns (results: seq<T>, err: Option<Error>, issued: seq<Cmd>)
    requires Advances(dec)
    ensures Run((results, err), issued) == NoteDocuments(git, log, dec, typeName, namespace, commitSha)
  {
    results, err, issued := [], None, [];
    if commitSha == "" {
      err := Some(Message("commitSha cannot be empty for GetNoteJSON"));
      return;
    }
    var g := GetNote(git, log, namespace, commitSha);
    issued := g.issued;
    if g.value.Err? {
      if !Contains(ErrorString(g.value.error), "failed to get note") {
        err := Some(Wrapped("failed to get underlying note for commit " + commitSha + ": ", g.value.error, ""));
      }
      return;
    }
    var noteContent := g.value.value;
    if TrimSpace(noteContent) == "" {
      return;
    }
    results, err := DecodeStream(dec, typeName, commitSha, noteContent);
  }

  /** The `for decoder.More()` loop: decode until the stream ends or a document fails. */
  method DecodeStream<T>(dec: NoteJson.Decoder<T>, typeName: string, commitSha: string, content: string)
      returns (results: seq<T>, err: Option<Error>)
    requires Advances(dec)
    ensures (results, err) == DecodeAll(dec, typeName, commitSha, content, 0, [])
  {
    results, err := [], None;
    var offset: nat := 0;
    while true
      invariant DecodeAll(dec, typeName, commitSha, content, offset, results)
             == DecodeAll(dec, typeName, commitSha, content, 0, [])
      decreases |content| - offset
    {
      var step := dec(content, offset);
      if step.NoMore? {
        return;
      }
      if step.Failed? {
        err := Some(NoteJson.DecodeFailure(typeName, commitSha, |results|, content, step.cause, step.offset));
        return;
      }
      results := results + [step.value];
      offset := step.next;
    }
  }

  /** `SetNoteJSON` (notes.go:250-262): the marshalled value becomes the whole note. */
  function SetNoteJson<T>(git: Backend, log: seq<Cmd>, marshal: NoteJson.Marshal<T>, typeName: string, namespace: string,
                          commitSha: string, value: T): (r: Run<Option<Error>>)
    ensures commitSha == "" ==> r == Run(Some(Message("commitSha cannot be empty for SetNoteJSON")), [])
    ensures commitSha != "" && marshal(value).Err? ==> r.issued == [] && r.value.Some?
    ensures commitSha != "" && marshal(value).Ok? ==>
      r.issued == [AddNoteCmd(FormatNamespaceRef(namespace), marshal(value).value, commitSha)]
  {
    if commitSha == "" then Run(Some(Message("commitSha cannot be empty for SetNoteJSON")), [])
    else
      match marshal(value)
      case Err(e) =>
        Run(Some(Wrapped("failed to marshal value of type " + typeName + " to JSON for commit " + commitSha + ": ",
                         e, "")), [])
      case Ok(text) => SetNote(git, log, namespace, commitSha, text)
  }

  /**
   * Writing a value and reading it back: when git stores the note (`notes show` after the
   * `notes add` prints the text written) and the decoder reads the marshalled text as one
   * document, the note reads back as exactly that value.
   */
  lemma SetThenGetRoundTrip<T>(git: Backend, log: seq<Cmd>, marshal: NoteJson.Marshal<T>, dec: NoteJson.Decoder<T>,
                               typeName: string, namespace: string, commitSha: string, value: T)
    requires Advances(dec) && commitSha != "" && marshal(value).Ok?
    requires var text := marshal(value).value;
      var add := AddNoteCmd(FormatNamespaceRef(namespace), text, commitSha);
      && git(log, add).status.Success?
      && git(log + [add], ShowNoteCmd(FormatNamespaceRef(namespace), commitSha)) == Process(Success, text, "")
    requires var text := marshal(value).value;
      TrimSpace(text) == text != "" && dec(text, 0) == NoteJson.Decoded(value, |text|) && dec(text, |text|) == NoteJson.NoMore
    ensures var w := SetNoteJson(git, log, marshal, typeName, namespace, commitSha, value);
      && w.value.None?
      && NoteDocuments(git, log + w.issued, dec, typeName, namespace, commitSha).value == ([value], None)
  {
    var text := marshal(value).value;
    var add := AddNoteCmd(FormatNamespaceRef(namespace), text, commitSha);
    assert SetNoteJson(git, log, marshal, typeName, namespace, commitSha, value) == Run(None, [add]);
    assert GetNote(git, log + [add], namespace, commitSha).value == Ok(text);
    assert DecodeAll(dec, typeName, commitSha, text, |text|, [value]) == ([value], None);
    assert [] + [value] == [value];
    assert DecodeAll(dec, typeName, commitSha, text, 0, []) == ([value], None);
  }
}
