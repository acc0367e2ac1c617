/**
 * `GetNotesBulk` (notes/notes.go:74-115): every commit is validated first, and the ones that
 * pass are read with `GetNote`. The source reads them in goroutines; here they are read one
 * after another, in the order given.
 */
module Bulk {
  import opened Wrappers
  import opened Text
  import opened NoteErrors
  import opened GitExec
  import opened Refs
  import opened Listing
  import opened Store

  /** The first loop (notes/notes.go:80-84): the validation error of every rejected commit. */
  function ValidateAll(git: Backend, log: seq<Cmd>, shas: seq<string>): (r: Run<map<string, Error>>)
    ensures forall k | k in r.value :: k in shas && r.value[k] == InvalidCommitSha(k)
    ensures forall s | s in shas && !IsSafeRevisionSpec(s) :: s in r.value
    decreases |shas|
  {
    if shas == [] then Run(map[], [])
    else
      var prev := ValidateAll(git, log, shas[..|shas| - 1]);
      var sha := Last(shas);
      assert forall s :: s in shas <==> s in shas[..|shas| - 1] || s == sha by {
        assert shas == shas[..|shas| - 1] + [sha];
      }
      var v := ValidateCommitSha(git, log + prev.issued, sha);
      if v.value.Some? then Run(prev.value[sha := v.value.value], prev.issued + v.issued)
      else Run(prev.value, prev.issued + v.issued)
  }

  /** How one commit is read, given the commands issued before: `GetNote` for one namespace. */
  type Reader = (seq<Cmd>, string) -> Run<Result<string, Error>>

  function NoteReader(git: Backend, namespace: string): Reader {
    (log: seq<Cmd>, sha: string) => GetNote(git, log, namespace, sha)
  }

  /**
   * The second loop (notes/notes.go:91-111): every commit not in `rejected` is read; a note goes
   * to the first map, a read error to the second.
   */
  function ReadAll(read: Reader, log: seq<Cmd>, shas: seq<string>, rejected: map<string, Error>)
    : (r: Run<(map<string, string>, map<string, Error>)>)
    ensures forall k | k in r.value.0 :: k in shas && k !in rejected
    ensures forall k | k in r.value.1 :: k in shas && k !in rejected
    ensures forall s | s in shas && s !in rejected :: s in r.value.0 || s in r.value.1
    decreases |shas|
  {
    if shas == [] then Run((map[], map[]), [])
    else
      var prev := ReadAll(read, log, shas[..|shas| - 1], rejected);
      var sha := Last(shas);
      assert forall s :: s in shas <==> s in shas[..|shas| - 1] || s == sha by {
        assert shas == shas[..|shas| - 1] + [sha];
      }
      if sha in rejected then prev
      else
        var g := read(log + prev.issued, sha);
        Run(Record(prev.value, sha, g.value), prev.issued + g.issued)
  }

  /** Records the outcome of one read: the note in the first map, or the error in the second. */
  function Record(acc: (map<string, string>, map<string, Error>), sha: string, read: Result<string, Error>)
    : (r: (map<string, string>, map<string, Error>))
    ensures forall k :: k in r.0 <==> k in acc.0 || (read.Ok? && k == sha)
    ensures forall k :: k in r.1 <==> k in acc.1 || (read.Err? && k == sha)
    ensures read.Ok? ==> r == (acc.0[sha := read.value], acc.1)
    ensures read.Err? ==> r == (acc.0, acc.1[sha := read.error])
  {
    match read
    case Ok(note) => (acc.0[sha := note], acc.1)
    case Err(e) => (acc.0, acc.1[sha := e])
  }

  /** The outcome of `GetNotesBulk`: (notes, errors) and the commands issued. */
  function BulkOutcome(git: Backend, log: seq<Cmd>, namespace: string, shas: seq<string>)
    : Run<(map<string, string>, map<string, Error>)>
  {
    var v := ValidateAll(git, log, shas);
    var rd := ReadAll(NoteReader(git, namespace), log + v.issued, shas, v.value);
    Run((rd.value.0, v.value + rd.value.1), v.issued + rd.issued)
  }

  /**
   * Every commit asked for ends up in one of the two maps, and nothing else does; a commit that
   * fails validation has its `InvalidCommitSha` error and no note, an unsafe spec among them.
   */
  lemma BulkCoversEveryCommit(git: Backend, log: seq<Cmd>, namespace: string, shas: seq<string>)
    ensures var r := BulkOutcome(git, log, namespace, shas).value;
      && r.0.Keys + r.1.Keys == set s | s in shas
      && (forall s | s in ValidateAll(git, log, shas).value :: r.1[s] == InvalidCommitSha(s) && s !in r.0)
      && (forall s | s in shas && !IsSafeRevisionSpec(s) :: r.1[s] == InvalidCommitSha(s) && s !in r.0)
  {
  }

  /** Without repeated commits, reading puts each commit in exactly one of the maps. */
  lemma {:induction false} ReadAllDisjoint(read: Reader, log: seq<Cmd>, shas: seq<string>, rejected: map<string, Error>)
    requires forall i, j :: 0 <= i < j < |shas| ==> shas[i] != shas[j]
    ensures var r := ReadAll(read, log, shas, rejected).value; r.0.Keys !! r.1.Keys
    decreases |shas|
  {
    if shas != [] {
      var init := shas[..|shas| - 1];
      ReadAllDisjoint(read, log, init, rejected);
      assert Last(shas) !in init by {
        forall i | 0 <= i < |init| ensures init[i] != Last(shas) {
          assert init[i] == shas[i];
        }
      }
    }
  }

  /** Without repeated commits, no commit has both a note and an error. */
  lemma BulkDisjoint(git: Backend, log: seq<Cmd>, namespace: string, shas: seq<string>)
    requires forall i, j :: 0 <= i < j < |shas| ==> shas[i] != shas[j]
    ensures var r := BulkOutcome(git, log, namespace, shas).value; r.0.Keys !! r.1.Keys
  {
    var v := ValidateAll(git, log, shas);
    ReadAllDisjoint(NoteReader(git, namespace), log + v.issued, shas, v.value);
  }

  /** `GetNotesBulk`, its two loops run in order. */
  method GetNotesBulk(git: Backend, log: seq<Cmd>, namespace: string, shas: seq<string>)
      returns (results: map<string, string>, errors: map<string, Error>, issued: seq<Cmd>)
    ensures Run((results, errors), issued) == BulkOutcome(git, log, namespace, shas)
  {
    var rejected, checked := ValidateEach(git, log, shas);
    var read: seq<Cmd>;
    results, errors, read := ReadEach(git, log + checked, namespace, shas, rejected);
    errors := rejected + errors;
    issued := checked + read;
  }

  method ValidateEach(git: Backend, log: seq<Cmd>, shas: seq<string>)
      returns (rejected: map<string, Error>, issued: seq<Cmd>)
    ensures Run(rejected, issued) == ValidateAll(git, log, shas)
  {
    rejected, issued := map[], [];
    var i := 0;
    while i < |shas|
      invariant 0 <= i <= |shas|
      invariant Run(rejected, issued) == ValidateAll(git, log, shas[..i])
    {
      assert shas[..i + 1][..i] == shas[..i];
      var v := ValidateCommitSha(git, log + issued, shas[i]);
      if v.value.Some? {
        rejected := rejected[shas[i] := v.value.value];
      }
      issued := issued + v.issued;
      i := i + 1;
    }
    assert shas[..i] == shas;
  }

  method ReadEach(git: Backend, log: seq<Cmd>, namespace: string, shas: seq<string>, rejected: map<string, Error>)
      returns (results: map<string, string>, errors: map<string, Error>, issued: seq<Cmd>)
    ensures Run((results, errors), issued) == ReadAll(NoteReader(git, namespace), log, shas, rejected)
  {
    results, errors, issued := map[], map[], [];
    var i := 0;
    while i < |shas|
      invariant 0 <= i <= |shas|
      invariant Run((results, errors), issued) == ReadAll(NoteReader(git, namespace), log, shas[..i], rejected)
    {
      assert shas[..i + 1][..i] == shas[..i];
      var sha := shas[i];
      if sha !in rejected {
        var g := GetNote(git, log + issued, namespace, sha);
        if g.value.Ok? {
          results := results[sha := g.value.value];
        } else {
          errors := errors[sha := g.value.error];
        }
        assert (results, errors) == Record(ReadAll(NoteReader(git, namespace), log, shas[..i], rejected).value, sha, g.value);
        issued := issued + g.issued;
      }
      i := i + 1;
    }
    assert shas[..i] == shas;
  }
}
