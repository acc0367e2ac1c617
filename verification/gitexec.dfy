/**
 * Running `git`, seen from the library (notes/utils.go).
 *
 * The process itself is abstract: a `Backend` answers each command with an exit status and the
 * two output streams, and may take into account every command issued before it, so a scripted
 * fake and a stateful repository are both backends. What the model keeps is what the library
 * does with the answer: which outputs are trimmed, and the exact shape of the error text that
 * the string classifiers later search.
 */
module GitExec {
  import opened Wrappers
  import opened Text
  import opened NoteErrors

  /** The arguments passed to `git`. */
  type Cmd = seq<string>

  /** How `cmd.Run()` ended. */
  datatype Status =
    | Success
      /** An `*exec.ExitError` of a process that exited with this code. */
    | Exited(code: int)
      /** An `*exec.ExitError` of a process killed by a signal; its exit code reads as -1. */
    | Signaled(signal: string)
      /** Any other error, e.g. the `git` binary could not be started. */
    | NotStarted(reason: string)

  datatype Process = Process(status: Status, stdout: string, stderr: string)

  /** The `(stdout, stderr, err)` triple returned by `executeGitCommand`. */
  datatype Output = Output(stdout: string, stderr: string, err: Option<Error>)

  /** git: the outcome of a command, given the commands issued before it. */
  type Backend = (seq<Cmd>, Cmd) -> Process

  /** A result together with the git commands issued to obtain it, in order. */
  datatype Run<+T> = Run(value: T, issued: seq<Cmd>)

  /** `exitErr.ExitCode()`. */
  function ExitCode(st: Status): int {
    match st
    case Exited(code) => code
    case Signaled(_) => -1
    case _ => 0
  }

  /** The error `cmd.Run()` returns, as text. */
  function ProcessError(st: Status): Error {
    match st
    case Exited(code) => Message("exit status " + FormatInt(code))
    case Signaled(sig) => Message("signal: " + sig)
    case NotStarted(reason) => Message(reason)
    case Success => Message("")
  }

  /** `executeGitCommand` (notes/utils.go:104-133), the hooks aside. */
  function Execute(args: Cmd, p: Process): (o: Output)
    requires |args| > 0
    ensures o.err.None? <==> p.status.Success?
    ensures p.status.Success? ==> o.stdout == TrimSpace(p.stdout) && o.stderr == TrimSpace(p.stderr)
    ensures !p.status.Success? ==> o.stdout == p.stdout && o.stderr == p.stderr
  {
    match p.status
    case Success => Output(TrimSpace(p.stdout), TrimSpace(p.stderr), None)
    case NotStarted(_) =>
      Output(p.stdout, p.stderr,
        Some(Wrapped("git " + args[0] + " failed: ", ProcessError(p.status), "; stderr: " + p.stderr)))
    case _ =>
      Output(p.stdout, p.stderr,
        Some(Wrapped("git " + args[0] + " failed with exit code " + FormatInt(ExitCode(p.status)) + ": ",
          ProcessError(p.status), "; stderr: " + p.stderr)))
  }

  /**
   * `executeGitCommandContext` (notes/utils.go:136-169). `ctxErr` is `ctx.Err()` when the
   * command has finished: a failure under a done context reports the context's error instead.
   */
  function ExecuteContext(ctxErr: Option<Error>, args: Cmd, p: Process): (o: Output)
    requires |args| > 0
    ensures o.err.None? <==> p.status.Success?
    ensures ctxErr.None? ==> o == Execute(args, p)
    ensures ctxErr.Some? && !p.status.Success? ==>
      o.err == Some(Wrapped("command cancelled: ", ctxErr.value, "")) && o.stderr == p.stderr
  {
    if !p.status.Success? && ctxErr.Some? then
      Output(p.stdout, p.stderr, Some(Wrapped("command cancelled: ", ctxErr.value, "")))
    else Execute(args, p)
  }

  /** Issues `args` after the commands in `log` and reads the answer. */
  function Call(git: Backend, log: seq<Cmd>, args: Cmd): Output
    requires |args| > 0
  {
    Execute(args, git(log, args))
  }

  function CallContext(git: Backend, log: seq<Cmd>, ctxErr: Option<Error>, args: Cmd): Output
    requires |args| > 0
  {
    ExecuteContext(ctxErr, args, git(log, args))
  }

  /**
   * The error text of a command that exited with a code: it opens with the command name and
   * the code, carries Go's `exit status N`, and ends with the unmodified stderr.
   */
  lemma ExitFailureText(args: Cmd, p: Process)
    requires |args| > 0 && p.status.Exited?
    ensures Execute(args, p).err.Some?
    ensures var text := ErrorString(Execute(args, p).err.value);
      && HasPrefix(text, "git " + args[0] + " failed with exit code " + FormatInt(p.status.code))
      && Contains(text, "exit status " + FormatInt(p.status.code))
      && HasSuffix(text, "; stderr: " + p.stderr)
  {
    var code := FormatInt(p.status.code);
    var head := "git " + args[0] + " failed with exit code " + code;
    var status := "exit status " + code;
    var tail := "; stderr: " + p.stderr;
    var e := Wrapped(head + ": ", Message(status), tail);
    assert Execute(args, p).err == Some(e);
    var text := ErrorString(e);
    assert ErrorString(Message(status)) == status;
    assert text == (head + ": ") + status + tail;
    assert text == head + (": " + status + tail);
    ContainsInfix(head + ": ", status, tail);
    assert text == (head + ": " + status) + tail;
  }

  /**
   * Literal substring matching sees "exit code 1" and "exit status 1" in the text of every
   * exit whose decimal code starts with 1 (1, 10..19, 128, …), not only in that of exit 1.
   */
  lemma ExitCodeOnePatternFamily(args: Cmd, p: Process)
    requires |args| > 0 && p.status.Exited? && FormatInt(p.status.code)[0] == '1'
    ensures Execute(args, p).err.Some?
    ensures Contains(ErrorString(Execute(args, p).err.value), "exit code 1")
    ensures Contains(ErrorString(Execute(args, p).err.value), "exit status 1")
  {
    ExitFailureText(args, p);
    ExitCodeOneInText(ErrorString(Execute(args, p).err.value), args[0], FormatInt(p.status.code));
  }

  lemma ExitCodeOneInText(text: string, name: string, code: string)
    requires |code| > 0 && code[0] == '1'
    requires HasPrefix(text, "git " + name + " failed with exit code " + code)
    requires Contains(text, "exit status " + code)
    ensures Contains(text, "exit code 1") && Contains(text, "exit status 1")
  {
    var head := "git " + name + " failed with exit code " + code;
    var k := |"git " + name + " failed with "|;
    assert head[k..k + 11] == "exit code 1";
    assert text[..|head|] == head;
    assert text[k..k + 11] == head[k..k + 11];
    assert OccursAt(text, "exit code 1", k);
    assert ("exit status " + code)[..13] == "exit status 1";
    ContainsPrefixOfPattern(text, "exit status " + code, "exit status 1");
  }

  lemma FormatSmallCodes()
    ensures FormatInt(1) == "1" && FormatInt(128) == "128"
  {
    assert FormatNat(12) == "12";
  }

  /**
   * `notesRefExists` (notes/utils.go:193-216): the outcome of `git show-ref --verify --quiet`,
   * whose output is not captured, read as (exists, error).
   */
  function NotesRefExists(ref: string, st: Status): (r: (bool, Option<Error>))
    ensures r.0 <==> st.Success?
    ensures r.1.None? <==> (st.Success? || st == Exited(1))
    ensures r.1.Some? ==> Contains(ErrorString(r.1.value), ref)
  {
    if st.Success? then (true, None)
    else if st == Exited(1) then (false, None)
    else
      var e := Wrapped("git show-ref failed while checking " + ref + ": ", ProcessError(st), "");
      ContainsInfix("git show-ref failed while checking ", ref, ": " + ErrorString(ProcessError(st)));
      assert ErrorString(e) == "git show-ref failed while checking " + ref + (": " + ErrorString(ProcessError(st)));
      (false, Some(e))
  }

  /** The command line of `notesRefExists`. */
  function ShowRefCmd(ref: string): Cmd {
    ["show-ref", "--verify", "--quiet", ref]
  }

  /** A test hook, known by name; the function it stands for is not modelled. */
  datatype Hook = Hook(name: string)

  /** The restore closure returned by `setGitCommandHooksForTesting`: the pair it reinstates. */
  datatype Restorer = Restorer(before: Option<Hook>, after: Option<Hook>)

  /** The hook invocations made by one `runGitCommandHook` with the hook `h`. */
  function Fire(h: Option<Hook>, args: Cmd): (r: seq<(Hook, Cmd)>)
    ensures |r| <= 1
    ensures h.None? <==> r == []
    ensures h.Some? ==> r == [(h.value, args)]
  {
    if h.Some? then [(h.value, args)] else []
  }

  /**
   * The package-level hook pair of notes/utils.go:18-22 and the record of every hook call.
   * Hooks run outside the lock, so the pair is read once per call.
   */
  class HookRegistry {
    var before: Option<Hook>
    var after: Option<Hook>
    var fired: seq<(Hook, Cmd)>

    constructor ()
      ensures before == None && after == None && fired == []
    {
      before := None;
      after := None;
      fired := [];
    }

    /** `setGitCommandHooksForTesting` (notes/utils.go:38-52). */
    method SetForTesting(b: Option<Hook>, a: Option<Hook>) returns (restore: Restorer)
      modifies this
      ensures before == b && after == a && fired == old(fired)
      ensures restore == Restorer(old(before), old(after))
    {
      restore := Restorer(before, after);
      before := b;
      after := a;
    }

    /** Calling the closure returned by `SetForTesting`. */
    method Restore(restore: Restorer)
      modifies this
      ensures before == restore.before && after == restore.after && fired == old(fired)
    {
      before := restore.before;
      after := restore.after;
    }

    /** `runGitCommandHook` (notes/utils.go:24-36): calls the chosen hook only when it is set. */
    method RunHook(isBefore: bool, args: Cmd)
      modifies this
      ensures before == old(before) && after == old(after)
      ensures fired == old(fired) + Fire(if isBefore then old(before) else old(after), args)
    {
      var hook := if isBefore then before else after;
      if hook.Some? {
        fired := fired + [(hook.value, args)];
      }
    }

    /** `executeGitCommand` with its hooks: the before-hook, the command, the deferred after-hook. */
    method ExecuteGitCommand(args: Cmd, p: Process) returns (o: Output)
      requires |args| > 0
      modifies this
      ensures o == Execute(args, p)
      ensures before == old(before) && after == old(after)
      ensures fired == old(fired) + Fire(old(before), args) + Fire(old(after), args)
    {
      RunHook(true, args);
      o := Execute(args, p);
      RunHook(false, args);
    }
  }

  /**
   * The test pattern of installing hooks, running one command and restoring: the command is
   * seen by exactly the installed hooks, and afterwards the previous pair is back.
   */
  method HooksForOneCommand(registry: HookRegistry, b: Option<Hook>, a: Option<Hook>, args: Cmd, p: Process)
      returns (o: Output)
    requires |args| > 0
    modifies registry
    ensures o == Execute(args, p)
    ensures registry.before == old(registry.before) && registry.after == old(registry.after)
    ensures registry.fired == old(registry.fired) + Fire(b, args) + Fire(a, args)
  {
    var restore := registry.SetForTesting(b, a);
    o := registry.ExecuteGitCommand(args, p);
    registry.Restore(restore);
  }
}
