/**
 * `GetNoteList` (notes/notes.go:144-228): the commits that carry a note in a namespace,
 * newest first. The listing `<note-object> <commit>` is read line by line, the commit
 * timestamps are fetched in one `git show -s --format=%H %ct …`, parsed, and sorted.
 */
module Listing {
  import opened Wrappers
  import opened Text
  import opened NoteErrors
  import opened GitExec
  import opened Refs

  /** `commitInfo`: a commit and its committer timestamp. */
  datatype CommitInfo = CommitInfo(sha: string, timestamp: int)

  function Last<T>(s: seq<T>): T
    requires |s| > 0
  {
    s[|s| - 1]
  }

  /** The commit named on one listing line, when it has at least two fields. */
  function ListedCommit(line: string): (r: seq<string>)
    ensures |r| <= 1
  {
    var parts := Fields(line);
    if |parts| >= 2 then [parts[1]] else []
  }

  /** The commits named by a listing, in order; lines with fewer than two fields are skipped. */
  function ListedCommits(lines: seq<string>): (r: seq<string>)
    ensures |r| <= |lines|
  {
    if lines == [] then [] else ListedCommits(lines[..|lines| - 1]) + ListedCommit(Last(lines))
  }

  /** A token as git prints a SHA or a number: non-empty and without white space. */
  predicate IsToken(s: string) {
    |s| > 0 && forall i :: 0 <= i < |s| ==> !IsSpace(s[i])
  }

  lemma FieldsOfToken(a: string)
    requires IsToken(a)
    ensures Fields(a) == [a]
  {
    SpanOfToken(a);
    assert a[..|a|] == a && a[|a|..] == [];
  }

  lemma {:induction false} SpanOfToken(a: string)
    requires forall i :: 0 <= i < |a| ==> !IsSpace(a[i])
    ensures SpanNonSpace(a) == |a|
  {
    if |a| > 0 {
      SpanOfToken(a[1..]);
    }
  }

  /** Two tokens separated by a blank split into exactly those two fields. */
  lemma FieldsOfPair(a: string, b: string)
    requires IsToken(a) && IsToken(b)
    ensures Fields(a + " " + b) == [a, b]
  {
    var s := a + " " + b;
    SpanPrefix(s, |a|);
    assert s[..|a|] == a;
    assert s[|a|..] == " " + b;
    assert (" " + b)[1..] == b;
    FieldsOfToken(b);
  }

  lemma {:induction false} SpanPrefix(s: string, n: nat)
    requires n < |s| && IsSpace(s[n])
    requires forall i :: 0 <= i < n ==> !IsSpace(s[i])
    ensures SpanNonSpace(s) == n
    decreases n
  {
    if n > 0 {
      SpanPrefix(s[1..], n - 1);
    }
  }

  /**
   * The listing git prints, `<note-object> <commit>` per line, names exactly the commits
   * written into it, in order.
   */
  lemma ListedCommitsOfRows(notes: seq<string>, commits: seq<string>)
    requires |notes| == |commits|
    requires forall i :: 0 <= i < |notes| ==> IsToken(notes[i]) && IsToken(commits[i])
    ensures ListedCommits(seq(|notes|, i requires 0 <= i < |notes| => notes[i] + " " + commits[i])) == commits
  {
    var rows := seq(|notes|, i requires 0 <= i < |notes| => notes[i] + " " + commits[i]);
    forall i | 0 <= i < |rows| ensures ListedCommit(rows[i]) == [commits[i]] {
      FieldsOfPair(notes[i], commits[i]);
    }
    ListedCommitsOfLines(rows, commits);
  }

  /** Lines that each name one commit name those commits, in order. */
  lemma {:induction false} ListedCommitsOfLines(lines: seq<string>, commits: seq<string>)
    requires |lines| == |commits|
    requires forall i :: 0 <= i < |lines| ==> ListedCommit(lines[i]) == [commits[i]]
    ensures ListedCommits(lines) == commits
  {
    if |lines| > 0 {
      var n := |lines| - 1;
      ListedCommitsOfLines(lines[..n], commits[..n]);
      assert commits == commits[..n] + [commits[n]];
    }
  }



  /** The error of `strconv.ParseInt` for the text `s`. */
  function NumError(s: string, reason: string): Error {
    Message("strconv.ParseInt: parsing \"" + s + "\": " + reason)
  }

  /**
   * One line of the `%H %ct` batch: nothing for a line with fewer than two fields, otherwise
   * the commit and its parsed timestamp, or the parse error.
   */
  function TimestampRow(line: string): Option<Result<CommitInfo, Error>> {
    var parts := Fields(line);
    if |parts| < 2 then None
    else match ParseInt64(parts[1])
      case Ok(t) => Some(Ok(CommitInfo(parts[0], t)))
      case Err(reason) =>
        Some(Err(Wrapped("failed to parse timestamp for commit " + parts[0] + ": ", NumError(parts[1], reason), "")))
  }

  /** The rows of the timestamp batch, in order; the first malformed timestamp is the error. */
  function ParseTimestampLines(lines: seq<string>): (r: Result<seq<CommitInfo>, Error>)
    ensures r.Ok? ==> |r.value| <= |lines|
    ensures r.Ok? ==> forall i :: 0 <= i < |r.value| ==> -Int64Cutoff <= r.value[i].timestamp < Int64Cutoff
  {
    if lines == [] then Ok([])
    else match ParseTimestampLines(lines[..|lines| - 1])
      case Err(e) => Err(e)
      case Ok(cs) =>
        match TimestampRow(Last(lines))
        case None => Ok(cs)
        case Some(Err(e)) => Err(e)
        case Some(Ok(c)) => Ok(cs + [c])
  }

  /** Once a prefix of the batch fails to parse, the whole batch fails with that error. */
  lemma {:induction false} ParseErrorPersists(lines: seq<string>, k: nat)
    requires k <= |lines| && ParseTimestampLines(lines[..k]).Err?
    ensures ParseTimestampLines(lines) == ParseTimestampLines(lines[..k])
    decreases |lines| - k
  {
    if k < |lines| {
      assert lines[..k + 1][..k] == lines[..k];
      ParseErrorPersists(lines, k + 1);
    } else {
      assert lines[..k] == lines;
    }
  }

  /**
   * What git prints for `--format=%H %ct` reads back as the commits and timestamps it was
   * printed from.
   */
  lemma TimestampRowsRoundTrip(cs: seq<CommitInfo>)
    requires forall i :: 0 <= i < |cs| ==> IsToken(cs[i].sha) && -Int64Cutoff <= cs[i].timestamp < Int64Cutoff
    ensures ParseTimestampLines(seq(|cs|, i requires 0 <= i < |cs| => PrintedRow(cs[i]))) == Ok(cs)
  {
    var rows := seq(|cs|, i requires 0 <= i < |cs| => PrintedRow(cs[i]));
    forall i | 0 <= i < |rows| ensures TimestampRow(rows[i]) == Some(Ok(cs[i])) {
      PrintedRowReadsBack(cs[i]);
    }
    ParseRowsThatRead(rows, cs);
  }

  /** Lines that each read as one commit parse to those commits, in order. */
  lemma {:induction false} ParseRowsThatRead(lines: seq<string>, cs: seq<CommitInfo>)
    requires |lines| == |cs|
    requires forall i :: 0 <= i < |lines| ==> TimestampRow(lines[i]) == Some(Ok(cs[i]))
    ensures ParseTimestampLines(lines) == Ok(cs)
  {
    if |lines| > 0 {
      var n := |lines| - 1;
      ParseRowsThatRead(lines[..n], cs[..n]);
      assert cs == cs[..n] + [cs[n]];
    }
  }

  /** The line `%H %ct` prints for a commit. */
  function PrintedRow(c: CommitInfo): string {
    c.sha + " " + FormatInt(c.timestamp)
  }

  /** One printed row reads back as the commit it was printed from. */
  lemma PrintedRowReadsBack(c: CommitInfo)
    requires IsToken(c.sha) && -Int64Cutoff <= c.timestamp < Int64Cutoff
    ensures TimestampRow(PrintedRow(c)) == Some(Ok(c))
  {
    FormatIntIsToken(c.timestamp);
    FieldsOfPair(c.sha, FormatInt(c.timestamp));
    ParseFormatRoundTrip(c.timestamp);
  }

  lemma FormatIntIsToken(n: int)
    ensures IsToken(FormatInt(n))
  {
    var d := FormatNat(if n < 0 then -n else n);
    assert forall i :: 0 <= i < |d| ==> IsDigit(d[i]);
  }

  /** Non-increasing timestamps: newest first. */
  predicate NewestFirst(cs: seq<CommitInfo>) {
    forall i, j :: 0 <= i < j < |cs| ==> cs[i].timestamp >= cs[j].timestamp
  }

  function InsertByTime(c: CommitInfo, cs: seq<CommitInfo>): (r: seq<CommitInfo>)
    requires NewestFirst(cs)
    ensures NewestFirst(r)
    ensures multiset(r) == multiset(cs) + multiset{c}
    ensures |r| == |cs| + 1 && (r[0] == c || (|cs| > 0 && r[0] == cs[0]))
  {
    if cs == [] then [c]
    else if c.timestamp >= cs[0].timestamp then
      ConsNewestFirst(c, cs);
      [c] + cs
    else
      TailNewestFirst(cs);
      var rest := InsertByTime(c, cs[1..]);
      assert cs == [cs[0]] + cs[1..];
      assert multiset(cs) == multiset{cs[0]} + multiset(cs[1..]);
      ConsNewestFirst(cs[0], rest);
      assert multiset([cs[0]] + rest) == multiset{cs[0]} + multiset(rest);
      [cs[0]] + rest
  }

  lemma TailNewestFirst(cs: seq<CommitInfo>)
    requires |cs| > 0 && NewestFirst(cs)
    ensures NewestFirst(cs[1..])
  {
    forall i, j | 0 <= i < j < |cs| - 1 ensures cs[1..][i].timestamp >= cs[1..][j].timestamp {
      assert cs[1..][i] == cs[i + 1] && cs[1..][j] == cs[j + 1];
    }
  }

  lemma ConsNewestFirst(x: CommitInfo, rest: seq<CommitInfo>)
    requires NewestFirst(rest) && (|rest| > 0 ==> x.timestamp >= rest[0].timestamp)
    ensures NewestFirst([x] + rest)
  {
    var r := [x] + rest;
    forall i, j | 0 <= i < j < |r| ensures r[i].timestamp >= r[j].timestamp {
      if i > 0 {
        assert r[i] == rest[i - 1] && r[j] == rest[j - 1];
      } else {
        assert r[j] == rest[j - 1];
      }
    }
  }

  /**
   * `sort.Slice` with "newer timestamp first": a newest-first permutation of the rows. The
   * library sort is not stable; the order among equal timestamps is not specified here.
   */
  function SortNewestFirst(cs: seq<CommitInfo>): (r: seq<CommitInfo>)
    ensures NewestFirst(r)
    ensures multiset(r) == multiset(cs)
    ensures |r| == |cs|
  {
    if cs == [] then []
    else
      assert cs == [cs[0]] + cs[1..];
      InsertByTime(cs[0], SortNewestFirst(cs[1..]))
  }

  function Shas(cs: seq<CommitInfo>): (r: seq<string>)
    ensures |r| == |cs| && forall i :: 0 <= i < |cs| ==> r[i] == cs[i].sha
  {
    seq(|cs|, i requires 0 <= i < |cs| => cs[i].sha)
  }

  lemma ShasConcat(x: seq<CommitInfo>, y: seq<CommitInfo>)
    ensures Shas(x + y) == Shas(x) + Shas(y)
  {
    assert forall i | 0 <= i < |x + y| :: Shas(x + y)[i] == (Shas(x) + Shas(y))[i];
  }

  /** Rows that are a permutation of each other carry the same commits, with multiplicity. */
  lemma {:induction false} ShasOfPermutation(a: seq<CommitInfo>, b: seq<CommitInfo>)
    requires multiset(a) == multiset(b)
    ensures multiset(Shas(a)) == multiset(Shas(b))
    decreases |a|
  {
    if a == [] {
      assert |b| == |multiset(b)| == 0;
    } else {
      assert a[0] in multiset(b);
      var j :| 0 <= j < |b| && b[j] == a[0];
      var rest := b[..j] + b[j + 1..];
      assert b == b[..j] + [b[j]] + b[j + 1..];
      assert a == [a[0]] + a[1..];
      assert multiset(b) == multiset(b[..j]) + multiset{b[j]} + multiset(b[j + 1..]);
      assert multiset(rest) == multiset(b[..j]) + multiset(b[j + 1..]);
      assert multiset(a) == multiset{a[0]} + multiset(a[1..]);
      assert multiset(a[1..]) == multiset(a) - multiset{a[0]} == multiset(b) - multiset{b[j]} == multiset(rest);
      ShasOfPermutation(a[1..], rest);
      ShasConcat([a[0]], a[1..]);
      ShasConcat(b[..j], b[j + 1..]);
      ShasConcat(b[..j] + [b[j]], b[j + 1..]);
      ShasConcat(b[..j], [b[j]]);
    }
  }

  /** The listing failures that mean "no notes yet" (notes/notes.go:158-159). */
  predicate ListFailureMeansEmpty(errMsg: string) {
    Contains(errMsg, "bad notes ref") || Contains(errMsg, "does not exist")
    || Contains(errMsg, "no notes found") || Contains(errMsg, "exit code 1")
  }

  function TimestampCmd(shas: seq<string>): Cmd {
    ["show", "-s", "--format=%H %ct"] + shas
  }

  /**
   * What the outcome of `git notes list` decides: the listed commits (none when the namespace
   * has no notes), or the error.
   */
  function ReadListing(ref: string, o: Output): Result<seq<string>, Error> {
    if o.err.Some? then
      if ListFailureMeansEmpty(ErrorString(o.err.value)) then Ok([])
      else Err(Wrapped("failed to list notes in " + ref + ": ", o.err.value, ""))
    else if o.stdout == "" then Ok([])
    else Ok(ListedCommits(Lines(o.stdout)))
  }

  /** What the outcome of the timestamp batch decides: the parsed rows, or the error. */
  function ReadTimestamps(t: Output): Result<seq<CommitInfo>, Error> {
    if t.err.Some? then Err(Wrapped("failed to get timestamps for commits: ", t.err.value, ""))
    else ParseTimestampLines(Lines(t.stdout))
  }

  /**
   * The specification of `GetNoteList`: its result with the rows it sorted, and the git
   * commands it issues.
   */
  function NoteListRows(git: Backend, log: seq<Cmd>, namespace: string): (r: Run<Result<seq<CommitInfo>, Error>>)
    ensures 1 <= |r.issued| <= 2 && r.issued[0] == ListNotesCmd(FormatNamespaceRef(namespace))
    ensures r.value.Ok? ==> NewestFirst(r.value.value)
  {
    var ref := FormatNamespaceRef(namespace);
    var list := ListNotesCmd(ref);
    match ReadListing(ref, Call(git, log, list))
    case Err(e) => Run(Err(e), [list])
    case Ok(shas) =>
      if shas == [] then Run(Ok([]), [list])
      else
        var show := TimestampCmd(shas);
        match ReadTimestamps(Call(git, log + [list], show))
        case Err(e) => Run(Err(e), [list, show])
        case Ok(cs) => Run(Ok(SortNewestFirst(cs)), [list, show])
  }

  /** The SHAs `GetNoteList` returns. */
  function NoteList(git: Backend, log: seq<Cmd>, namespace: string): Run<Result<seq<string>, Error>> {
    var r := NoteListRows(git, log, namespace);
    Run(if r.value.Ok? then Ok(Shas(r.value.value)) else Err(r.value.error), r.issued)
  }

  /**
   * A list obtained from a timestamp batch is that batch reordered newest first: one SHA
   * per row with two fields, nothing lost and nothing added.
   */
  lemma NoteListIsSortedBatch(git: Backend, log: seq<Cmd>, namespace: string)
    requires |NoteListRows(git, log, namespace).issued| == 2
    requires NoteListRows(git, log, namespace).value.Ok?
    ensures var r := NoteListRows(git, log, namespace);
      var batch := ReadTimestamps(Call(git, log + [r.issued[0]], r.issued[1]));
      && batch.Ok?
      && multiset(r.value.value) == multiset(batch.value)
      && NewestFirst(r.value.value)
  {
  }

  /** The failures and outputs for which the list is empty rather than an error. */
  lemma NoteListEmptyCases(git: Backend, log: seq<Cmd>, namespace: string)
    ensures var list := ListNotesCmd(FormatNamespaceRef(namespace));
      var o := Call(git, log, list);
      && (o.err.Some? && Contains(ErrorString(o.err.value), "bad notes ref") ==> NoteList(git, log, namespace) == Run(Ok([]), [list]))
      && (o.err.Some? && Contains(ErrorString(o.err.value), "does not exist") ==> NoteList(git, log, namespace) == Run(Ok([]), [list]))
      && (o.err.Some? && Contains(ErrorString(o.err.value), "no notes found") ==> NoteList(git, log, namespace) == Run(Ok([]), [list]))
      && (o.err.Some? && Contains(ErrorString(o.err.value), "exit code 1") ==> NoteList(git, log, namespace) == Run(Ok([]), [list]))
      && (o.err.None? && ListedCommits(Lines(o.stdout)) == [] ==> NoteList(git, log, namespace) == Run(Ok([]), [list]))
  {
  }

  /** The first scanner loop of `GetNoteList`: the commit column of the listing. */
  method ScanListing(lines: seq<string>) returns (commitShas: seq<string>)
    ensures commitShas == ListedCommits(lines)
  {
    commitShas := [];
    var i := 0;
    while i < |lines|
      invariant 0 <= i <= |lines|
      invariant commitShas == ListedCommits(lines[..i])
    {
      var parts := Fields(lines[i]);
      if |parts| >= 2 {
        commitShas := commitShas + [parts[1]];
      }
      assert lines[..i + 1][..i] == lines[..i];
      i := i + 1;
    }
    assert lines[..i] == lines;
  }

  /** The second scanner loop of `GetNoteList`: parses rows, returning at the first bad timestamp. */
  method ScanTimestamps(rows: seq<string>) returns (r: Result<seq<CommitInfo>, Error>)
    ensures r == ParseTimestampLines(rows)
  {
    var commits: seq<CommitInfo> := [];
    var i := 0;
    while i < |rows|
      invariant 0 <= i <= |rows|
      invariant ParseTimestampLines(rows[..i]) == Ok(commits)
    {
      assert rows[..i + 1][..i] == rows[..i];
      var parts := Fields(rows[i]);
      if |parts| >= 2 {
        var timestamp := ParseInt64(parts[1]);
        if timestamp.Err? {
          ParseErrorPersists(rows, i + 1);
          return Err(Wrapped("failed to parse timestamp for commit " + parts[0] + ": ",
                             NumError(parts[1], timestamp.error), ""));
        }
        commits := commits + [CommitInfo(parts[0], timestamp.value)];
      }
      i := i + 1;
    }
    assert rows[..i] == rows;
    return Ok(commits);
  }

  /** The extraction loop of `GetNoteList`. */
  method ExtractShas(sorted: seq<CommitInfo>) returns (shas: seq<string>)
    ensures shas == Shas(sorted)
  {
    shas := [];
    var i := 0;
    while i < |sorted|
      invariant 0 <= i <= |sorted|
      invariant shas == Shas(sorted[..i])
    {
      shas := shas + [sorted[i].sha];
      i := i + 1;
    }
    assert sorted[..i] == sorted;
  }

  /** `GetNoteList` (notes/notes.go:152-228), proved to compute `NoteList`. */
  method GetNoteList(git: Backend, log: seq<Cmd>, namespace: string)
      returns (r: Result<seq<string>, Error>, issued: seq<Cmd>)
    ensures Run(r, issued) == NoteList(git, log, namespace)
  {
    var ref := FormatNamespaceRef(namespace);
    var list := ListNotesCmd(ref);
    var o := Call(git, log, list);
    issued := [list];
    if o.err.Some? {
      var errMsg := ErrorString(o.err.value);
      if Contains(errMsg, "bad notes ref") || Contains(errMsg, "does not exist")
        || Contains(errMsg, "no notes found") || Contains(errMsg, "exit code 1") {
        return Ok([]), issued;
      }
      return Err(Wrapped("failed to list notes in " + ref + ": ", o.err.value, "")), issued;
    }
    if o.stdout == "" {
      return Ok([]), issued;
    }

    var commitShas := ScanListing(Lines(o.stdout));
    if |commitShas| == 0 {
      return Ok([]), issued;
    }

    var show := TimestampCmd(commitShas);
    var t := Call(git, log + issued, show);
    issued := issued + [show];
    if t.err.Some? {
      return Err(Wrapped("failed to get timestamps for commits: ", t.err.value, "")), issued;
    }

    var commits := ScanTimestamps(Lines(t.stdout));
    if commits.Err? {
      return Err(commits.error), issued;
    }
    var sortedShas := ExtractShas(SortNewestFirst(commits.value));
    return Ok(sortedShas), issued;
  }
}
