/**
 * The typed errors of the notes package (notes/errors.go) and Go's error wrapping.
 *
 * A Go `error` built by `fmt.Errorf("…%w…", cause)` keeps its cause reachable through
 * `errors.Unwrap`; `errors.As` walks that chain. `Wrapped(prefix, cause, suffix)` is such an
 * error, and `Message(text)` is one that wraps nothing (`errors.New`, `fmt.Errorf` without `%w`,
 * and the library errors the model does not look into).
 */
module NoteErrors {
  import opened Text

  datatype Error =
    | NoteNotFound(ref: string, commitSha: string)
    | InvalidCommitSha(commitSha: string)
    | NoteSizeExceeded(size: int, maxSize: int)
    | Message(text: string)
    | Wrapped(prefix: string, cause: Error, suffix: string)

  /** `err.Error()`. */
  function ErrorString(e: Error): string {
    match e
    case NoteNotFound(ref, sha) => "note not found for commit " + sha + " in ref " + ref
    case InvalidCommitSha(sha) => "invalid or non-existent commit SHA: " + sha
    case NoteSizeExceeded(size, max) =>
      "note size " + FormatInt(size) + " exceeds maximum allowed size " + FormatInt(max)
    case Message(text) => text
    case Wrapped(prefix, cause, suffix) => prefix + ErrorString(cause) + suffix
  }

  /** The innermost error of a wrap chain. */
  function Root(e: Error): (r: Error)
    ensures !r.Wrapped?
  {
    if e.Wrapped? then Root(e.cause) else e
  }

  /** `IsNoteNotFound`: `errors.As(err, *NoteNotFoundError)`. */
  predicate IsNoteNotFound(e: Error) {
    match e
    case NoteNotFound(_, _) => true
    case Wrapped(_, cause, _) => IsNoteNotFound(cause)
    case _ => false
  }

  /** `IsInvalidCommitSha`: `errors.As(err, *InvalidCommitShaError)`. */
  predicate IsInvalidCommitSha(e: Error) {
    match e
    case InvalidCommitSha(_) => true
    case Wrapped(_, cause, _) => IsInvalidCommitSha(cause)
    case _ => false
  }

  /** `IsNoteSizeExceededError`: `errors.As(err, *NoteSizeExceededError)`. */
  predicate IsNoteSizeExceededError(e: Error) {
    match e
    case NoteSizeExceeded(_, _) => true
    case Wrapped(_, cause, _) => IsNoteSizeExceededError(cause)
    case _ => false
  }

  /** Each predicate holds exactly when the innermost error of the chain is of its kind. */
  lemma {:induction false} KindIsRootKind(e: Error)
    ensures IsNoteNotFound(e) <==> Root(e).NoteNotFound?
    ensures IsInvalidCommitSha(e) <==> Root(e).InvalidCommitSha?
    ensures IsNoteSizeExceededError(e) <==> Root(e).NoteSizeExceeded?
  {
    if e.Wrapped? {
      KindIsRootKind(e.cause);
    }
  }

  /** Wrapping keeps the kind: a chain built over an error of one kind is recognised as it. */
  lemma {:induction false} WrapKeepsKind(prefix: string, cause: Error, suffix: string)
    ensures IsNoteNotFound(Wrapped(prefix, cause, suffix)) == IsNoteNotFound(cause)
    ensures IsInvalidCommitSha(Wrapped(prefix, cause, suffix)) == IsInvalidCommitSha(cause)
    ensures IsNoteSizeExceededError(Wrapped(prefix, cause, suffix)) == IsNoteSizeExceededError(cause)
  {
  }

  /** The three predicates never hold together: each recognises only its own kind. */
  lemma KindsAreExclusive(e: Error)
    ensures !(IsNoteNotFound(e) && IsInvalidCommitSha(e))
    ensures !(IsNoteNotFound(e) && IsNoteSizeExceededError(e))
    ensures !(IsInvalidCommitSha(e) && IsNoteSizeExceededError(e))
  {
    KindIsRootKind(e);
  }

  /**
   * The text of the innermost error survives every wrap: matching a pattern against the
   * text of a wrapped error also sees the text of its cause.
   */
  lemma {:induction false} RootTextIsVisible(e: Error)
    ensures Contains(ErrorString(e), ErrorString(Root(e)))
  {
    if e.Wrapped? {
      RootTextIsVisible(e.cause);
      var inner := ErrorString(e.cause);
      ContainsInRight(e.prefix, inner, ErrorString(Root(e)));
      ContainsInLeft(e.prefix + inner, e.suffix, ErrorString(Root(e)));
    } else {
      ContainsInfix([], ErrorString(e), []);
      assert [] + ErrorString(e) + [] == ErrorString(e);
    }
  }

  /**
   * The size message names the rejected size, followed by the words that introduce the limit,
   * and ends with the limit, both in decimal.
   */
  lemma SizeTextShowsBothNumbers(size: int, max: int)
    ensures Contains(ErrorString(NoteSizeExceeded(size, max)), "note size " + FormatInt(size) + " exceeds maximum allowed size ")
    ensures HasSuffix(ErrorString(NoteSizeExceeded(size, max)), " exceeds maximum allowed size " + FormatInt(max))
  {
    var sized, limit := "note size " + FormatInt(size), " exceeds maximum allowed size ";
    var text := ErrorString(NoteSizeExceeded(size, max));
    assert OccursAt(sized + limit, sized + limit, 0);
    ContainsInLeft(sized + limit, FormatInt(max), sized + limit);
    assert text == sized + (limit + FormatInt(max));
  }
}
