/**
 * Notes refs, revision specs and the git command lines the library issues
 * (notes/utils.go:54-100, notes/notes.go).
 */
module Refs {
  import opened Wrappers
  import opened Text
  import opened NoteErrors
  import opened GitExec

  const NotesPrefix := "refs/notes/"
  const DefaultNotesRef := "refs/notes/commits"

  /** `formatNamespaceRef` (notes/utils.go:73-81). */
  function FormatNamespaceRef(namespace: string): (ref: string)
    ensures HasPrefix(ref, NotesPrefix)
    ensures namespace != "" ==> HasSuffix(ref, namespace)
  {
    if namespace == "" then DefaultNotesRef
    else if HasPrefix(namespace, NotesPrefix) then namespace
    else NotesPrefix + namespace
  }

  /** The three cases of `formatNamespaceRef`. */
  lemma FormatNamespaceRefCases(namespace: string)
    ensures namespace == "" ==> FormatNamespaceRef(namespace) == "refs/notes/commits"
    ensures HasPrefix(namespace, "refs/notes/") ==> FormatNamespaceRef(namespace) == namespace
    ensures namespace != "" && !HasPrefix(namespace, "refs/notes/") ==>
      FormatNamespaceRef(namespace) == "refs/notes/" + namespace
  {
  }

  /** A formatted ref is its own format: formatting twice is formatting once. */
  lemma FormatNamespaceRefIdempotent(namespace: string)
    ensures FormatNamespaceRef(FormatNamespaceRef(namespace)) == FormatNamespaceRef(namespace)
  {
  }

  /** `isSafeRevisionSpec` (notes/utils.go:57-67). */
  predicate IsSafeRevisionSpec(sha: string) {
    if sha == "" then true
    else if HasPrefix(sha, "-") then false
    else '\0' !in sha
  }

  /**
   * The empty spec is safe, an option-like spec never is, any other is safe exactly when it has
   * no NUL; rev-specs such as `HEAD~1` pass.
   */
  lemma SafeRevisionSpecCases(sha: string)
    ensures IsSafeRevisionSpec("")
    ensures sha != "" && sha[0] == '-' ==> !IsSafeRevisionSpec(sha)
    ensures sha != "" && sha[0] != '-' ==> (IsSafeRevisionSpec(sha) <==> forall i :: 0 <= i < |sha| ==> sha[i] != '\0')
    ensures IsSafeRevisionSpec("HEAD~1")
  {
    if sha != "" && sha[0] == '-' {
      assert HasPrefix(sha, "-");
    }
    assert !HasPrefix("HEAD~1", "-") by { assert "HEAD~1"[0] == 'H'; }
    assert '\0' !in "HEAD~1";
  }

  /** `refs/remotes/<remote>/` followed by the local ref without its `refs/` (notes/notes.go:393-395). */
  function RemoteTrackingRef(remote: string, localRef: string): string {
    "refs/remotes/" + remote + "/" + TrimPrefix(localRef, "refs/")
  }

  /** For every notes ref the tracking ref is `refs/remotes/<remote>/notes/<name>`. */
  lemma TrackingRefOfNotesRef(remote: string, namespace: string)
    ensures var ref := FormatNamespaceRef(namespace);
      RemoteTrackingRef(remote, ref) == "refs/remotes/" + remote + "/notes/" + ref[|NotesPrefix|..]
  {
    var ref := FormatNamespaceRef(namespace);
    assert ref[..5] == "refs/";
    assert TrimPrefix(ref, "refs/") == "notes/" + ref[|NotesPrefix|..];
  }

  // The command lines the library issues.

  function VerifyCmd(rev: string): Cmd { ["rev-parse", "--verify", rev] }
  function RevParseCmd(rev: string): Cmd { ["rev-parse", rev] }
  function ShowNoteCmd(ref: string, sha: string): Cmd { ["notes", "--ref", ref, "show", sha] }
  function AddNoteCmd(ref: string, value: string, sha: string): Cmd {
    ["notes", "--ref", ref, "add", "-f", "-m", value, sha]
  }
  function RemoveNoteCmd(ref: string, sha: string): Cmd { ["notes", "--ref", ref, "remove", sha] }
  function ListNotesCmd(ref: string): Cmd { ["notes", "--ref", ref, "list"] }
  function MergeAbortCmd(ref: string): Cmd { ["notes", "--ref", ref, "merge", "--abort"] }
  function MergeCmd(ref: string, from: string): Cmd {
    ["notes", "--ref", ref, "merge", "-s", "cat_sort_uniq", from]
  }
  function FetchCmd(remote: string, ref: string): Cmd { ["fetch", remote, ref] }
  function PushCmd(remote: string, ref: string): Cmd { ["push", remote, ref] }
  function UpdateRefCmd(ref: string, sha: string): Cmd { ["update-ref", ref, sha] }

  /** A command that writes a note: `notes … add`. */
  predicate IsAddNote(c: Cmd) {
    |c| >= 4 && c[0] == "notes" && c[3] == "add"
  }

  /** A command that writes the repository or the remote. */
  predicate IsWrite(c: Cmd) {
    |c| > 0 &&
    (c[0] == "push" || c[0] == "update-ref" || c[0] == "fetch"
     || (c[0] == "notes" && |c| >= 4 && c[3] in {"add", "remove", "merge"}))
  }

  /**
   * `validateCommitSHA` (notes/utils.go:86-100): `None` when the spec is acceptable,
   * otherwise an `InvalidCommitSha` for it.
   */
  function ValidateCommitSha(git: Backend, log: seq<Cmd>, sha: string): (r: Run<Option<Error>>)
    ensures !IsSafeRevisionSpec(sha) ==> r == Run(Some(InvalidCommitSha(sha)), [])
    ensures sha == "" ==> r == Run(None, [])
    ensures IsSafeRevisionSpec(sha) && sha != "" ==>
      r.issued == [VerifyCmd(sha)] && (r.value.None? <==> git(log, VerifyCmd(sha)).status.Success?)
    ensures r.value.Some? ==> r.value.value == InvalidCommitSha(sha)
  {
    if !IsSafeRevisionSpec(sha) then Run(Some(InvalidCommitSha(sha)), [])
    else if sha == "" then Run(None, [])
    else if Call(git, log, VerifyCmd(sha)).err.Some? then Run(Some(InvalidCommitSha(sha)), [VerifyCmd(sha)])
    else Run(None, [VerifyCmd(sha)])
  }

  /** Validation never writes: it issues at most one `rev-parse --verify`. */
  lemma ValidateIssuesNoWrite(git: Backend, log: seq<Cmd>, sha: string)
    ensures |ValidateCommitSha(git, log, sha).issued| <= 1
    ensures forall c | c in ValidateCommitSha(git, log, sha).issued :: !IsWrite(c)
  {
  }
}
