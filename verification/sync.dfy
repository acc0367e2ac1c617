/**
 * Publishing notes (notes/notes.go:321-449): one push attempt fetches the remote notes ref,
 * merges it into the local one with the `cat_sort_uniq` strategy and pushes the result; the
 * retry loop repeats attempts that a concurrent push rejected.
 */
module Sync {
  import opened Wrappers
  import opened Text
  import opened NoteErrors
  import opened GitExec
  import opened Refs

  /** `DefaultRetryAttempts`. */
  const DefaultRetryAttempts: int := 3

  /** The fetch failures read as "the remote has no notes ref yet" (notes/notes.go:375-380). */
  predicate RemoteNotesAbsent(stderr: string, errStr: string) {
    Contains(Lower(stderr), "couldn't find remote ref")
    || Contains(Lower(stderr), "no such ref")
    || Contains(Lower(stderr), "fetch-pack: invalid refspec")
    || (Contains(errStr, "exit status 1") && stderr == "")
    || Contains(errStr, "exit status 128")
  }

  /** The merge failures that are not failures (notes/notes.go:413-416). */
  predicate MergeWasNoOp(stderr: string) {
    Contains(Lower(stderr), "already up to date") || Contains(Lower(stderr), "nothing to merge")
  }

  /**
   * Step 1 (notes/notes.go:368-386): fetch the notes ref. `Ok(true)` when the remote has it,
   * `Ok(false)` when it does not, an error otherwise.
   */
  function FetchStage(git: Backend, log: seq<Cmd>, ref: string, remote: string): (r: Run<Result<bool, Error>>)
    ensures r.issued == [FetchCmd(remote, ref)]
    ensures var o := Call(git, log, FetchCmd(remote, ref));
      && (r.value == Ok(true) <==> o.err.None?)
      && (r.value == Ok(false) <==> o.err.Some? && RemoteNotesAbsent(o.stderr, ErrorString(o.err.value)))
  {
    var fetch := FetchCmd(remote, ref);
    var o := Call(git, log, fetch);
    if o.err.None? then Run(Ok(true), [fetch])
    else if RemoteNotesAbsent(o.stderr, ErrorString(o.err.value)) then Run(Ok(false), [fetch])
    else
      Run(Err(Wrapped("failed to fetch notes from remote '" + remote + "' for ref '" + ref + "' before merge: ",
                      o.err.value, "; stderr: " + o.stderr)), [fetch])
  }

  /** The command runs the git subcommand `name`. */
  predicate Invokes(c: Cmd, name: string) {
    |c| > 0 && c[0] == name
  }

  /** The clean-up after a failed merge (notes/notes.go:418-424): abort, and reset the ref if it had a value. */
  function Rollback(ref: string, snapshot: string): (cmds: seq<Cmd>)
    ensures |cmds| > 0 && cmds[0] == MergeAbortCmd(ref)
    ensures snapshot == "" <==> cmds == [MergeAbortCmd(ref)]
    ensures snapshot != "" ==> cmds == [MergeAbortCmd(ref), UpdateRefCmd(ref, TrimSpace(snapshot))]
  {
    if snapshot != "" then [MergeAbortCmd(ref), UpdateRefCmd(ref, TrimSpace(snapshot))] else [MergeAbortCmd(ref)]
  }

  /** The error of a merge that failed for real (notes/notes.go:426-431). */
  function MergeError(tracking: string, ref: string, e: Error, stderr: string): (r: Error)
    ensures r.Wrapped? && Contains(ErrorString(r), ErrorString(e))
  {
    var head := if Contains(Lower(stderr), "conflict") then
      "failed to automatically merge notes from '" + tracking + "' into '" + ref + "' using 'cat_sort_uniq', conflict: "
    else "failed to merge notes from '" + tracking + "' into '" + ref + "': ";
    ContainsInfix(head, ErrorString(e), "; stderr: " + stderr);
    Wrapped(head, e, "; stderr: " + stderr)
  }

  /** The pre-merge value of the local ref (notes/notes.go:401-405): "" when it does not resolve. */
  function Snapshot(git: Backend, log: seq<Cmd>, ref: string): string {
    var snap := Call(git, log, RevParseCmd(ref));
    if snap.err.None? then snap.stdout else ""
  }

  /**
   * Step 3 (notes/notes.go:411-433): merge the tracking ref; a merge that fails for a reason
   * other than there being nothing to merge is aborted, the ref reset to `snapshot` when that
   * is not empty, and reported.
   */
  function MergeStep(git: Backend, log: seq<Cmd>, ref: string, tracking: string, snapshot: string): (r: Run<Option<Error>>)
    ensures |r.issued| > 0 && r.issued[0] == MergeCmd(ref, tracking)
    ensures var merge := Call(git, log, MergeCmd(ref, tracking));
      && (r.value.None? <==> merge.err.None? || MergeWasNoOp(merge.stderr))
      && (r.value.None? ==> r.issued == [MergeCmd(ref, tracking)])
      && (r.value.Some? ==> r.issued == [MergeCmd(ref, tracking)] + Rollback(ref, snapshot))
    ensures r.value.Some? ==> r.value.value.Wrapped?
  {
    var merge := Call(git, log, MergeCmd(ref, tracking));
    if merge.err.None? || MergeWasNoOp(merge.stderr) then Run(None, [MergeCmd(ref, tracking)])
    else Run(Some(MergeError(tracking, ref, merge.err.value, merge.stderr)), [MergeCmd(ref, tracking)] + Rollback(ref, snapshot))
  }

  /**
   * Steps 2 and 3 (notes/notes.go:389-435): snapshot the local ref, and merge the tracking ref
   * into it when the tracking ref verifies.
   */
  function MergeStage(git: Backend, log: seq<Cmd>, ref: string, remote: string): (r: Run<Option<Error>>)
    ensures HasPrefix(ref, NotesPrefix) ==>
      |r.issued| >= 2 && r.issued[0] == RevParseCmd(ref) && r.issued[1] == VerifyCmd(RemoteTrackingRef(remote, ref))
    ensures HasPrefix(ref, NotesPrefix) && r.value.Some? ==> r.value.value.Wrapped?
  {
    if !HasPrefix(ref, NotesPrefix) then
      Run(Some(Message("internal error: localRef '" + ref + "' is not in the expected 'refs/notes/...' format")), [])
    else
      var tracking := RemoteTrackingRef(remote, ref);
      var snapshot := Snapshot(git, log, ref);
      var verify := Call(git, log + [RevParseCmd(ref)], VerifyCmd(tracking));
      var before := [RevParseCmd(ref), VerifyCmd(tracking)];
      if verify.err.Some? then Run(None, before)
      else
        var m := MergeStep(git, log + before, ref, tracking, snapshot);
        Run(m.value, before + m.issued)
  }

  /** Step 4 (notes/notes.go:437-446): push the local notes ref. */
  function PushStage(git: Backend, log: seq<Cmd>, ref: string, remote: string): (r: Run<Option<Error>>)
    ensures r.issued == [PushCmd(remote, ref)]
    ensures r.value.None? <==> git(log, PushCmd(remote, ref)).status.Success?
    ensures r.value.Some? ==>
      Contains(ErrorString(r.value.value), ErrorString(Call(git, log, PushCmd(remote, ref)).err.value))
  {
    var o := Call(git, log, PushCmd(remote, ref));
    if o.err.None? then Run(None, [PushCmd(remote, ref)])
    else
      var head := "failed to push merged notes ref '" + ref + "' to remote '" + remote + "': ";
      ContainsInfix(head, ErrorString(o.err.value), "; stderr: " + o.stderr);
      Run(Some(Wrapped(head, o.err.value, "; stderr: " + o.stderr)), [PushCmd(remote, ref)])
  }

  /** `pushNotesAttempt` (notes/notes.go:358-449). The opening `merge --abort` is issued and its outcome ignored. */
  function Attempt(git: Backend, log: seq<Cmd>, namespace: string, remote: string): (r: Run<Option<Error>>)
    ensures |r.issued| >= 2 && r.issued[0] == MergeAbortCmd(FormatNamespaceRef(namespace))
    ensures r.issued[1] == FetchCmd(remote, FormatNamespaceRef(namespace))
  {
    var ref := FormatNamespaceRef(namespace);
    var f := FetchStage(git, log + [MergeAbortCmd(ref)], ref, remote);
    var fetched := [MergeAbortCmd(ref), FetchCmd(remote, ref)];
    match f.value
    case Err(e) => Run(Some(e), fetched)
    case Ok(exists_) =>
      var m := if exists_ then MergeStage(git, log + fetched, ref, remote) else Run(None, []);
      var merged := fetched + m.issued;
      if m.value.Some? then Run(m.value, merged)
      else
        var p := PushStage(git, log + merged, ref, remote);
        Run(p.value, merged + p.issued)
  }

  /**
   * A fetch failure that is not the remote lacking the ref ends the attempt with that error:
   * nothing is merged or pushed.
   */
  lemma FetchFailureStopsAttempt(git: Backend, log: seq<Cmd>, namespace: string, remote: string)
    requires var ref := FormatNamespaceRef(namespace);
      FetchStage(git, log + [MergeAbortCmd(ref)], ref, remote).value.Err?
    ensures var ref := FormatNamespaceRef(namespace);
      var r := Attempt(git, log, namespace, remote);
      && r.value == Some(FetchStage(git, log + [MergeAbortCmd(ref)], ref, remote).value.error)
      && r.issued == [MergeAbortCmd(ref), FetchCmd(remote, ref)]
  {
  }

  /** When the remote has no notes ref, the attempt goes straight to the push. */
  lemma AbsentRemoteSkipsMerge(git: Backend, log: seq<Cmd>, namespace: string, remote: string)
    requires var ref := FormatNamespaceRef(namespace);
      FetchStage(git, log + [MergeAbortCmd(ref)], ref, remote).value == Ok(false)
    ensures var ref := FormatNamespaceRef(namespace);
      var pre := [MergeAbortCmd(ref), FetchCmd(remote, ref)];
      Attempt(git, log, namespace, remote) == Run(PushStage(git, log + pre, ref, remote).value, pre + [PushCmd(remote, ref)])
  {
    var ref := FormatNamespaceRef(namespace);
    var pre := [MergeAbortCmd(ref), FetchCmd(remote, ref)];
    assert pre + [] == pre;
  }

  /** A tracking ref that does not verify means no merge: the snapshot is taken and the push follows. */
  lemma UnverifiedTrackingRefSkipsMerge(git: Backend, log: seq<Cmd>, ref: string, remote: string)
    requires HasPrefix(ref, NotesPrefix)
    requires !git(log + [RevParseCmd(ref)], VerifyCmd(RemoteTrackingRef(remote, ref))).status.Success?
    ensures MergeStage(git, log, ref, remote) == Run(None, [RevParseCmd(ref), VerifyCmd(RemoteTrackingRef(remote, ref))])
  {
  }

  /**
   * A merge that fails for a reason other than "already up to date" or "nothing to merge" is
   * aborted, the local ref is reset to its snapshot exactly when it had one, and nothing is
   * pushed.
   */
  lemma FailedMergeRollsBack(git: Backend, log: seq<Cmd>, ref: string, tracking: string, snapshot: string)
    requires var merge := Call(git, log, MergeCmd(ref, tracking)); merge.err.Some? && !MergeWasNoOp(merge.stderr)
    ensures var r := MergeStep(git, log, ref, tracking, snapshot);
      && r.value.Some?
      && r.issued[1] == MergeAbortCmd(ref)
      && ((exists c | c in r.issued :: Invokes(c, "update-ref")) <==> snapshot != "")
      && (snapshot != "" ==> UpdateRefCmd(ref, TrimSpace(snapshot)) in r.issued)
      && forall c | c in r.issued :: !Invokes(c, "push")
  {
    var r := MergeStep(git, log, ref, tracking, snapshot);
    assert r.issued == [MergeCmd(ref, tracking)] + Rollback(ref, snapshot);
    RollbackCommands(ref, tracking, snapshot);
  }

  /** The commands of a failed merge: the merge, the abort, and the reset exactly when there is a snapshot. */
  lemma RollbackCommands(ref: string, tracking: string, snapshot: string)
    ensures var cmds := [MergeCmd(ref, tracking)] + Rollback(ref, snapshot);
      && cmds[1] == MergeAbortCmd(ref)
      && ((exists c | c in cmds :: Invokes(c, "update-ref")) <==> snapshot != "")
      && (snapshot != "" ==> UpdateRefCmd(ref, TrimSpace(snapshot)) in cmds)
      && forall c | c in cmds :: !Invokes(c, "push")
  {
    var merge := MergeCmd(ref, tracking);
    var abort := MergeAbortCmd(ref);
    var cmds := [merge] + Rollback(ref, snapshot);
    if snapshot != "" {
      var reset := UpdateRefCmd(ref, TrimSpace(snapshot));
      assert cmds == [merge, abort, reset];
      assert forall c | c in cmds :: c == merge || c == abort || c == reset;
      assert Invokes(cmds[2], "update-ref");
    } else {
      assert cmds == [merge, abort];
      assert forall c | c in cmds :: c == merge || c == abort;
    }
  }

  /** The merge stage never pushes. */
  lemma MergeStageNeverPushes(git: Backend, log: seq<Cmd>, ref: string, remote: string)
    ensures forall c | c in MergeStage(git, log, ref, remote).issued :: !Invokes(c, "push")
  {
    var r := MergeStage(git, log, ref, remote);
    if HasPrefix(ref, NotesPrefix) {
      var tracking := RemoteTrackingRef(remote, ref);
      var before := [RevParseCmd(ref), VerifyCmd(tracking)];
      if Call(git, log + [RevParseCmd(ref)], VerifyCmd(tracking)).err.None? {
        var m := MergeStep(git, log + before, ref, tracking, Snapshot(git, log, ref));
        MergeStepNeverPushes(git, log + before, ref, tracking, Snapshot(git, log, ref));
        assert r.issued == before + m.issued;
      }
    }
  }

  lemma MergeStepNeverPushes(git: Backend, log: seq<Cmd>, ref: string, tracking: string, snapshot: string)
    ensures forall c | c in MergeStep(git, log, ref, tracking, snapshot).issued :: !Invokes(c, "push")
  {
    var issued := MergeStep(git, log, ref, tracking, snapshot).issued;
    var merge := MergeCmd(ref, tracking);
    var abort := MergeAbortCmd(ref);
    if issued != [merge] {
      if snapshot != "" {
        var reset := UpdateRefCmd(ref, TrimSpace(snapshot));
        assert issued == [merge] + [abort, reset] == [merge, abort, reset];
      } else {
        assert issued == [merge] + [abort] == [merge, abort];
      }
    }
  }

  /** A failed merge stage ends the attempt with its error, before the push. */
  lemma FailedMergeIsNotPushed(git: Backend, log: seq<Cmd>, namespace: string, remote: string)
    requires var ref := FormatNamespaceRef(namespace);
      var pre := [MergeAbortCmd(ref), FetchCmd(remote, ref)];
      && FetchStage(git, log + [MergeAbortCmd(ref)], ref, remote).value == Ok(true)
      && MergeStage(git, log + pre, ref, remote).value.Some?
    ensures var ref := FormatNamespaceRef(namespace);
      var r := Attempt(git, log, namespace, remote);
      && r.value == MergeStage(git, log + [MergeAbortCmd(ref), FetchCmd(remote, ref)], ref, remote).value
      && forall c | c in r.issued :: !Invokes(c, "push")
  {
    var ref := FormatNamespaceRef(namespace);
    var pre := [MergeAbortCmd(ref), FetchCmd(remote, ref)];
    MergeStageNeverPushes(git, log + pre, ref, remote);
  }

  /**
   * An attempt succeeds only by pushing: its last command is the push of the local notes ref,
   * and that push succeeded.
   */
  lemma AttemptSucceedsByPushing(git: Backend, log: seq<Cmd>, namespace: string, remote: string)
    ensures var ref := FormatNamespaceRef(namespace);
      var r := Attempt(git, log, namespace, remote);
      r.value.None? ==>
        && r.issued[|r.issued| - 1] == PushCmd(remote, ref)
        && git(log + r.issued[..|r.issued| - 1], PushCmd(remote, ref)).status.Success?
  {
    var ref := FormatNamespaceRef(namespace);
    var r := Attempt(git, log, namespace, remote);
    var f := FetchStage(git, log + [MergeAbortCmd(ref)], ref, remote);
    var fetched := [MergeAbortCmd(ref), FetchCmd(remote, ref)];
    if f.value.Ok? {
      var m := if f.value.value then MergeStage(git, log + fetched, ref, remote) else Run(None, []);
      if m.value.None? {
        var merged := fetched + m.issued;
        assert r.issued == merged + [PushCmd(remote, ref)];
        assert r.issued[..|r.issued| - 1] == merged;
      }
    }
  }

  /**
   * Every error of an attempt wraps the git failure behind it; in particular the internal-error
   * message about a malformed local ref is never produced, the formatted ref being a notes ref.
   */
  lemma AttemptErrorIsWrapped(git: Backend, log: seq<Cmd>, namespace: string, remote: string)
    ensures var r := Attempt(git, log, namespace, remote); r.value.Some? ==> r.value.value.Wrapped?
  {
  }

  /** `pushNotesAttempt`, with the `remoteNotesExist` flag of the source. */
  method PushNotesAttempt(git: Backend, log: seq<Cmd>, namespace: string, remote: string)
      returns (err: Option<Error>, issued: seq<Cmd>)
    ensures Run(err, issued) == Attempt(git, log, namespace, remote)
  {
    var localRef := FormatNamespaceRef(namespace);
    var fetched := FetchStage(git, log + [MergeAbortCmd(localRef)], localRef, remote);
    issued := [MergeAbortCmd(localRef), FetchCmd(remote, localRef)];
    if fetched.value.Err? {
      return Some(fetched.value.error), issued;
    }
    var remoteNotesExist := fetched.value.value;
    if remoteNotesExist {
      var merged: seq<Cmd>;
      err, merged := MergeSteps(git, log + issued, localRef, remote);
      issued := issued + merged;
      if err.Some? {
        return;
      }
    } else {
      assert issued + [] == issued;
    }
    var pushed := PushStage(git, log + issued, localRef, remote);
    err := pushed.value;
    issued := issued + pushed.issued;
  }

  /** Steps 2 and 3 of `PushNotesAttempt`, with the `localRefSHA` snapshot of the source. */
  method MergeSteps(git: Backend, log: seq<Cmd>, localRef: string, remote: string)
      returns (err: Option<Error>, issued: seq<Cmd>)
    requires HasPrefix(localRef, NotesPrefix)
    ensures Run(err, issued) == MergeStage(git, log, localRef, remote)
  {
    var tracking := RemoteTrackingRef(remote, localRef);
    var localRefSha := Snapshot(git, log, localRef);
    var verify := Call(git, log + [RevParseCmd(localRef)], VerifyCmd(tracking));
    issued := [RevParseCmd(localRef), VerifyCmd(tracking)];
    err := None;
    if verify.err.None? {
      var merged := MergeStep(git, log + issued, localRef, tracking, localRefSha);
      err := merged.value;
      issued := issued + merged.issued;
    }
  }

  /** The retry test of notes/notes.go:340-342: literal, case-sensitive matches. */
  predicate PushRetryable(errStr: string) {
    Contains(errStr, "non-fast-forward") || Contains(errStr, "fetch first") || Contains(errStr, "rejected")
  }

  /** The backoff before the retry that follows attempt `attempt` (counting from 0), in milliseconds. */
  function Backoff(attempt: nat): (ms: nat)
    ensures ms == attempt * attempt * 100
  {
    attempt * attempt * 100
  }

  /** How a run of attempts ended: the error, the commands, the backoffs slept, and the attempt count. */
  datatype Retried = Retried(err: Option<Error>, issued: seq<Cmd>, sleeps: seq<nat>, attempts: nat)

  function Then(issued: seq<Cmd>, sleeps: seq<nat>, attempts: nat, rest: Retried): Retried {
    Retried(rest.err, issued + rest.issued, sleeps + rest.sleeps, attempts + rest.attempts)
  }

  /** One push attempt, given the commands issued before it. */
  type Attempter = seq<Cmd> -> Run<Option<Error>>

  function AttemptOf(git: Backend, namespace: string, remote: string): Attempter {
    (log: seq<Cmd>) => Attempt(git, log, namespace, remote)
  }

  /** The attempts from `attempt` on (notes/notes.go:333-355). */
  function RetryFrom(attemptWith: Attempter, log: seq<Cmd>, maxRetries: int, attempt: nat): (r: Retried)
    ensures attempt < maxRetries ==> 1 <= r.attempts <= maxRetries - attempt
    ensures attempt >= maxRetries ==> r == Retried(Some(Message("push failed after " + FormatInt(maxRetries) + " attempts")), [], [], 0)
    ensures |r.sleeps| + 1 == r.attempts || r.attempts == 0
    decreases maxRetries - attempt
  {
    if attempt >= maxRetries then Retried(Some(Message("push failed after " + FormatInt(maxRetries) + " attempts")), [], [], 0)
    else
      var a := attemptWith(log);
      if a.value.None? then Retried(None, a.issued, [], 1)
      else if PushRetryable(ErrorString(a.value.value)) && attempt < maxRetries - 1 then
        Then(a.issued, [Backoff(attempt)], 1, RetryFrom(attemptWith, log + a.issued, maxRetries, attempt + 1))
      else Retried(a.value, a.issued, [], 1)
  }

  /** `PushNotesWithRetry` (notes/notes.go:327-356). */
  function PushWithRetry(git: Backend, log: seq<Cmd>, namespace: string, remote: string, maxRetries: int): (r: Retried)
    ensures remote == "" ==> r == Retried(Some(Message("remoteName cannot be empty")), [], [], 0)
  {
    if remote == "" then Retried(Some(Message("remoteName cannot be empty")), [], [], 0)
    else RetryFrom(AttemptOf(git, namespace, remote), log, maxRetries, 0)
  }

  /**
   * The retry loop: at most `maxRetries` attempts, a backoff of attempt²×100 ms before each
   * retry, and the generic "push failed after N attempts" only when no attempt is allowed.
   */
  lemma RetryBounds(git: Backend, log: seq<Cmd>, namespace: string, remote: string, maxRetries: int)
    requires remote != ""
    ensures var r := PushWithRetry(git, log, namespace, remote, maxRetries);
      && (maxRetries > 0 ==> 1 <= r.attempts <= maxRetries && |r.sleeps| == r.attempts - 1)
      && (forall i | 0 <= i < |r.sleeps| :: r.sleeps[i] == i * i * 100)
      && (r.err == Some(Message("push failed after " + FormatInt(maxRetries) + " attempts")) <==> maxRetries <= 0)
  {
    RetrySleeps(AttemptOf(git, namespace, remote), log, maxRetries, 0);
    if maxRetries > 0 {
      var attemptWith := AttemptOf(git, namespace, remote);
      forall l: seq<Cmd> ensures attemptWith(l).value.Some? ==> attemptWith(l).value.value.Wrapped? {
        AttemptErrorIsWrapped(git, l, namespace, remote);
      }
      RetryErrorsAreWrapped(attemptWith, log, maxRetries, 0);
    }
  }

  /** The backoffs slept from attempt `attempt` on are attempt²×100 ms, attempt after attempt. */
  lemma {:induction false} RetrySleeps(attemptWith: Attempter, log: seq<Cmd>, maxRetries: int, attempt: nat)
    ensures forall i | 0 <= i < |RetryFrom(attemptWith, log, maxRetries, attempt).sleeps| ::
      RetryFrom(attemptWith, log, maxRetries, attempt).sleeps[i] == Backoff(attempt + i)
    decreases maxRetries - attempt
  {
    if attempt < maxRetries {
      var a := attemptWith(log);
      if a.value.Some? && PushRetryable(ErrorString(a.value.value)) && attempt < maxRetries - 1 {
        var rest := RetryFrom(attemptWith, log + a.issued, maxRetries, attempt + 1);
        RetrySleeps(attemptWith, log + a.issued, maxRetries, attempt + 1);
        assert forall j | 0 <= j < |rest.sleeps| :: rest.sleeps[j] == Backoff(attempt + 1 + j);
        var r := RetryFrom(attemptWith, log, maxRetries, attempt);
        assert r.sleeps == [Backoff(attempt)] + rest.sleeps;
        forall i | 0 <= i < |r.sleeps| ensures r.sleeps[i] == Backoff(attempt + i) {
          if i > 0 {
            assert r.sleeps[i] == rest.sleeps[i - 1] == Backoff(attempt + 1 + (i - 1));
          }
        }
      }
    }
  }

  /** When every attempt error is a wrapped one, so is the error of the loop. */
  lemma {:induction false} RetryErrorsAreWrapped(attemptWith: Attempter, log: seq<Cmd>, maxRetries: int, attempt: nat)
    requires attempt < maxRetries
    requires forall l :: attemptWith(l).value.Some? ==> attemptWith(l).value.value.Wrapped?
    ensures var r := RetryFrom(attemptWith, log, maxRetries, attempt); r.err.Some? ==> r.err.value.Wrapped?
    decreases maxRetries - attempt
  {
    var a := attemptWith(log);
    if a.value.Some? && PushRetryable(ErrorString(a.value.value)) && attempt < maxRetries - 1 {
      RetryErrorsAreWrapped(attemptWith, log + a.issued, maxRetries, attempt + 1);
    }
  }

  /**
   * An error that is not retryable is returned as the attempt produced it, after that single
   * attempt and without sleeping; so is a retryable one on the last allowed attempt.
   */
  lemma NonRetryableReturnedUnchanged(attemptWith: Attempter, log: seq<Cmd>, maxRetries: int, attempt: nat)
    requires attempt < maxRetries
    requires var a := attemptWith(log);
      a.value.Some? && (!PushRetryable(ErrorString(a.value.value)) || attempt == maxRetries - 1)
    ensures var a := attemptWith(log);
      RetryFrom(attemptWith, log, maxRetries, attempt) == Retried(a.value, a.issued, [], 1)
  {
  }

  /** A rejected push is attempted again after the backoff, with the commands issued so far in the log. */
  lemma RejectedPushIsRetried(attemptWith: Attempter, log: seq<Cmd>, maxRetries: int, attempt: nat)
    requires attempt < maxRetries - 1
    requires var a := attemptWith(log); a.value.Some? && PushRetryable(ErrorString(a.value.value))
    ensures var a := attemptWith(log);
      var rest := RetryFrom(attemptWith, log + a.issued, maxRetries, attempt + 1);
      var r := RetryFrom(attemptWith, log, maxRetries, attempt);
      r.err == rest.err && r.attempts == rest.attempts + 1 && r.sleeps == [Backoff(attempt)] + rest.sleeps
  {
  }

  /** `PushNotesWithRetry`, with its loop over `attempt`. */
  method PushNotesWithRetry(git: Backend, log: seq<Cmd>, namespace: string, remote: string, maxRetries: int)
      returns (r: Retried)
    ensures r == PushWithRetry(git, log, namespace, remote, maxRetries)
  {
    if remote == "" {
      return Retried(Some(Message("remoteName cannot be empty")), [], [], 0);
    }
    r := RetryLoop(AttemptOf(git, namespace, remote), log, maxRetries);
  }

  /** The loop of `PushNotesWithRetry`, over the attempt it repeats. */
  method RetryLoop(attemptWith: Attempter, log: seq<Cmd>, maxRetries: int) returns (r: Retried)
    ensures r == RetryFrom(attemptWith, log, maxRetries, 0)
  {
    var issued: seq<Cmd> := [];
    var sleeps: seq<nat> := [];
    var attempt: nat := 0;
    assert Then([], [], 0, RetryFrom(attemptWith, log, maxRetries, 0)) == RetryFrom(attemptWith, log, maxRetries, 0);
    assert log + [] == log;
    while attempt < maxRetries
      invariant Then(issued, sleeps, attempt, RetryFrom(attemptWith, log + issued, maxRetries, attempt))
             == RetryFrom(attemptWith, log, maxRetries, 0)
      decreases maxRetries - attempt
    {
      var a := attemptWith(log + issued);
      RetryStep(attemptWith, log, issued, sleeps, attempt, maxRetries);
      if a.value.None? {
        return Retried(None, issued + a.issued, sleeps, attempt + 1);
      }
      if PushRetryable(ErrorString(a.value.value)) && attempt < maxRetries - 1 {
        issued := issued + a.issued;
        sleeps := sleeps + [Backoff(attempt)];
        attempt := attempt + 1;
        continue;
      }
      return Retried(a.value, issued + a.issued, sleeps, attempt + 1);
    }
    RetryExhausted(attemptWith, log, issued, sleeps, attempt, maxRetries);
    r := Retried(Some(Message("push failed after " + FormatInt(maxRetries) + " attempts")), issued, sleeps, attempt);
  }

  /** One turn of the retry loop, seen from the whole run. */
  lemma RetryStep(attemptWith: Attempter, log: seq<Cmd>, issued: seq<Cmd>, sleeps: seq<nat>, attempt: nat, maxRetries: int)
    requires attempt < maxRetries
    ensures var a := attemptWith(log + issued);
      var cur := Then(issued, sleeps, attempt, RetryFrom(attemptWith, log + issued, maxRetries, attempt));
      && (a.value.None? ==> cur == Retried(None, issued + a.issued, sleeps, attempt + 1))
      && (a.value.Some? && PushRetryable(ErrorString(a.value.value)) && attempt < maxRetries - 1 ==>
            cur == Then(issued + a.issued, sleeps + [Backoff(attempt)], attempt + 1,
                        RetryFrom(attemptWith, log + (issued + a.issued), maxRetries, attempt + 1)))
      && (a.value.Some? && !(PushRetryable(ErrorString(a.value.value)) && attempt < maxRetries - 1) ==>
            cur == Retried(a.value, issued + a.issued, sleeps, attempt + 1))
  {
    var a := attemptWith(log + issued);
    assert sleeps + [] == sleeps;
    if a.value.Some? && PushRetryable(ErrorString(a.value.value)) && attempt < maxRetries - 1 {
      var rest := RetryFrom(attemptWith, log + issued + a.issued, maxRetries, attempt + 1);
      ThenThen(issued, sleeps, attempt, a.issued, [Backoff(attempt)], 1, rest);
      assert log + issued + a.issued == log + (issued + a.issued);
    }
  }

  lemma RetryExhausted(attemptWith: Attempter, log: seq<Cmd>, issued: seq<Cmd>, sleeps: seq<nat>, attempt: nat, maxRetries: int)
    requires attempt >= maxRetries
    ensures Then(issued, sleeps, attempt, RetryFrom(attemptWith, log + issued, maxRetries, attempt))
         == Retried(Some(Message("push failed after " + FormatInt(maxRetries) + " attempts")), issued, sleeps, attempt)
  {
    assert issued + [] == issued && sleeps + [] == sleeps;
  }

  lemma ThenThen(i1: seq<Cmd>, s1: seq<nat>, n1: nat, i2: seq<Cmd>, s2: seq<nat>, n2: nat, rest: Retried)
    ensures Then(i1, s1, n1, Then(i2, s2, n2, rest)) == Then(i1 + i2, s1 + s2, n1 + n2, rest)
  {
    assert i1 + (i2 + rest.issued) == i1 + i2 + rest.issued;
    assert s1 + (s2 + rest.sleeps) == s1 + s2 + rest.sleeps;
  }

  /** `PushNotes` (notes/notes.go:321-325): three attempts. */
  function PushNotes(git: Backend, log: seq<Cmd>, namespace: string, remote: string): (r: Retried)
    ensures remote != "" ==> 1 <= r.attempts <= 3
  {
    PushWithRetry(git, log, namespace, remote, DefaultRetryAttempts)
  }
}
