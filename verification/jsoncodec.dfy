/**
 * Notes holding a stream of concatenated JSON documents (notes/notes.go:451-541).
 *
 * Encoding and decoding JSON belong to Go's `encoding/json` and are not modelled: a `Marshal`
 * turns a value into text or fails, and a `Decoder` answers, for the note text and an
 * offset in it, whether another document follows and, if so, the decoded value with the offset after
 * it, or the decode error with the decoder's input offset.
 */
module NoteJson {
  import opened Wrappers
  import opened Text
  import opened NoteErrors
  import opened GitExec
  import opened Refs
  import opened Store

  /** `MaxJSONObjects`. */
  const MaxJSONObjects: nat := 1000

  datatype Step<+T> =
      /** `decoder.More()` is false: no further document. */
    | NoMore
    | Decoded(value: T, next: nat)
    | Failed(cause: Error, offset: nat)

  type Decoder<!T> = (string, nat) -> Step<T>
  type Marshal<!T> = T -> Result<string, Error>

  function Max(a: int, b: int): int { if a < b then b else a }
  function Min(a: int, b: int): int { if a < b then a else b }

  /**
   * The context shown with a decode error: the text from 20 positions before the offset to 20
   * after it, clipped to the note, or a placeholder when that window starts at or past the
   * end of the note. Positions are characters here, where Go counts bytes. The source's
   * second branch (`noteContent[snippetStart:]`) cannot be taken with a non-negative offset.
   */
  function Snippet(content: string, offset: nat): (r: string)
    ensures |r| <= 40
    ensures Max(offset - 20, 0) < |content| ==>
      && OccursAt(content, r, Max(offset - 20, 0))
      && |r| == Min(offset + 20, |content|) - Max(offset - 20, 0)
    ensures offset < |content| ==> content[offset] in r
    ensures Max(offset - 20, 0) >= |content| ==> r == "(context unavailable)"
  {
    var start := Max(offset - 20, 0);
    var end := Min(offset + 20, |content|);
    if start < end && start < |content| && end <= |content| then
      assert offset < |content| ==> content[offset] == content[start..end][offset - start];
      content[start..end]
    else if start < |content| then
      assert false; ""
    else "(context unavailable)"
  }

  /** The error for the document the decoder rejected after `processed` documents. */
  function DecodeFailure(typeName: string, commitSha: string, processed: nat, content: string, cause: Error, offset: nat)
    : (e: Error)
    ensures e.Wrapped?
    ensures Contains(ErrorString(e), "(processed " + FormatInt(processed) + " objects)")
    ensures Contains(ErrorString(e), ErrorString(cause))
  {
    var count := "(processed " + FormatInt(processed) + " objects)";
    var head := "failed to decode JSON object into " + typeName + " in stream for commit " + commitSha + " ";
    var tail := ". Context around error (offset approx " + FormatInt(offset) + "): \"..."
                + Snippet(content, offset) + "...\": ";
    WrappedShowsParts(head, count, tail, cause);
    Wrapped(head + count + tail, cause, "")
  }

  lemma WrappedShowsParts(head: string, middle: string, tail: string, cause: Error)
    ensures Contains(ErrorString(Wrapped(head + middle + tail, cause, "")), middle)
    ensures Contains(ErrorString(Wrapped(head + middle + tail, cause, "")), ErrorString(cause))
  {
    var c := ErrorString(cause);
    assert ErrorString(Wrapped(head + middle + tail, cause, "")) == head + middle + (tail + c) + "";
    ContainsInfix(head, middle, tail + c);
    assert head + middle + (tail + c) + "" == head + middle + (tail + c);
    ContainsInfix(head + middle + tail, c, "");
  }

  const CapExceeded := Message("exceeded maximum number of JSON objects (1000) in note")

  /**
   * The decode loop of `GetNoteJSON` (notes/notes.go:494-536), from `offset` on, with `done`
   * the documents decoded so far: the decoded documents and the error that stopped the loop.
   */
  function DecodeFrom<T>(dec: Decoder<T>, typeName: string, commitSha: string, content: string, offset: nat,
                         done: seq<T>): (r: (seq<T>, Option<Error>))
    ensures |done| <= MaxJSONObjects ==> |r.0| <= MaxJSONObjects
    ensures |done| <= |r.0| && r.0[..|done|] == done
    ensures r.1 == Some(CapExceeded) ==> |r.0| == MaxJSONObjects || |done| > MaxJSONObjects
    ensures r.1.Some? && r.1 != Some(CapExceeded) ==>
      Contains(ErrorString(r.1.value), "(processed " + FormatInt(|r.0|) + " objects)")
    decreases MaxJSONObjects - |done|
  {
    match dec(content, offset)
    case NoMore => (done, None)
    case Failed(cause, at) =>
      if |done| >= MaxJSONObjects then (done, Some(CapExceeded))
      else
        (done, Some(DecodeFailure(typeName, commitSha, |done|, content, cause, at)))
    case Decoded(v, next) =>
      if |done| >= MaxJSONObjects then (done, Some(CapExceeded))
      else
        var r := DecodeFrom(dec, typeName, commitSha, content, next, done + [v]);
        assert r.0[..|done|] == (done + [v])[..|done|];
        r
  }

  /** `GetNoteJSON` (notes/notes.go:467-541): the documents, the error, and the commands issued. */
  function NoteJson<T>(git: Backend, log: seq<Cmd>, dec: Decoder<T>, typeName: string, namespace: string,
                       commitSha: string): (r: Run<(seq<T>, Option<Error>)>)
    ensures commitSha == "" ==> r == Run(([], Some(Message("commitSha cannot be empty for GetNoteJSON"))), [])
    ensures |r.value.0| <= MaxJSONObjects
    ensures r.value.1.None? && r.value.0 != [] ==> GetNote(git, log, namespace, commitSha).value.Ok?
  {
    if commitSha == "" then Run(([], Some(Message("commitSha cannot be empty for GetNoteJSON"))), [])
    else
      var g := GetNote(git, log, namespace, commitSha);
      match g.value
      case Err(e) =>
        if IsNoteNotFound(e) then Run(([], None), g.issued)
        else Run(([], Some(Wrapped("failed to get underlying note for commit " + commitSha + ": ", e, ""))), g.issued)
      case Ok(content) =>
        if TrimSpace(content) == "" then Run(([], None), g.issued)
        else Run(DecodeFrom(dec, typeName, commitSha, content, 0, []), g.issued)
  }

  /**
   * A missing note and a blank note both read as no documents and no error; any other read
   * failure is passed on wrapped, keeping its kind, so an unknown commit still reads as an
   * invalid commit.
   */
  lemma NoteJsonReadOutcomes<T>(git: Backend, log: seq<Cmd>, dec: Decoder<T>, typeName: string, namespace: string,
                                commitSha: string)
    requires commitSha != ""
    ensures var g := GetNote(git, log, namespace, commitSha).value;
      var r := NoteJson(git, log, dec, typeName, namespace, commitSha).value;
      && (g.Err? && IsNoteNotFound(g.error) ==> r == ([], None))
      && (g.Ok? && TrimSpace(g.value) == "" ==> r == ([], None))
      && (g.Err? && !IsNoteNotFound(g.error) ==>
            r.0 == [] && r.1.Some?
            && (IsInvalidCommitSha(r.1.value) <==> IsInvalidCommitSha(g.error))
            && (IsNoteSizeExceededError(r.1.value) <==> IsNoteSizeExceededError(g.error)))
  {
    var g := GetNote(git, log, namespace, commitSha).value;
    if g.Err? && !IsNoteNotFound(g.error) {
      WrapKeepsKind("failed to get underlying note for commit " + commitSha + ": ", g.error, "");
    }
  }

  /**
   * A failed decode returns exactly the documents decoded before it: after `k` documents the
   * decoder rejects the next one, and the result is those `k` documents and an error counting
   * them.
   */
  lemma {:induction false} DecodeFailureKeepsPrefix<T>(dec: Decoder<T>, typeName: string, commitSha: string,
                                                       content: string, offsets: seq<nat>, values: seq<T>,
                                                       cause: Error, at: nat)
    requires |offsets| == |values| + 1 && offsets[0] == 0 && |values| < MaxJSONObjects
    requires forall i :: 0 <= i < |values| ==> dec(content, offsets[i]) == Decoded(values[i], offsets[i + 1])
    requires dec(content, offsets[|values|]) == Failed(cause, at)
    ensures var r := DecodeFrom(dec, typeName, commitSha, content, 0, []);
      r.0 == values && r.1 == Some(DecodeFailure(typeName, commitSha, |values|, content, cause, at))
  {
    DecodeChain(dec, typeName, commitSha, content, offsets, values, 0);
    assert values[..0] == [];
    assert values[..|values|] == values;
  }

  lemma {:induction false} DecodeChain<T>(dec: Decoder<T>, typeName: string, commitSha: string, content: string,
                                          offsets: seq<nat>, values: seq<T>, k: nat)
    requires |offsets| == |values| + 1 && |values| < MaxJSONObjects && k <= |values|
    requires forall i :: 0 <= i < |values| ==> dec(content, offsets[i]) == Decoded(values[i], offsets[i + 1])
    ensures DecodeFrom(dec, typeName, commitSha, content, offsets[k], values[..k])
         == DecodeFrom(dec, typeName, commitSha, content, offsets[|values|], values)
    decreases |values| - k
  {
    if k < |values| {
      assert values[..k] + [values[k]] == values[..k + 1];
      DecodeChain(dec, typeName, commitSha, content, offsets, values, k + 1);
      assert values[..|values|] == values;
    } else {
      assert values[..k] == values;
    }
  }

  /**
   * The cap: a note holding more than `MaxJSONObjects` documents yields the first 1000 and the
   * cap error.
   */
  lemma CapStopsAtThousand<T>(dec: Decoder<T>, typeName: string, commitSha: string, content: string,
                              offsets: seq<nat>, values: seq<T>)
    requires |offsets| == |values| + 1 && |values| == MaxJSONObjects
    requires forall i :: 0 <= i < |values| ==> dec(content, offsets[i]) == Decoded(values[i], offsets[i + 1])
    requires offsets[0] == 0 && !dec(content, offsets[|values|]).NoMore?
    ensures DecodeFrom(dec, typeName, commitSha, content, 0, []) == (values, Some(CapExceeded))
  {
    var k := |values| - 1;
    var init := values[..k];
    DecodeChain(dec, typeName, commitSha, content, offsets[..k + 1], init, 0);
    assert init[..0] == [];
    assert init[..|init|] == init;
    assert init + [values[k]] == values;
  }

  /** `GetNoteJSON`, with the decode loop of the source. */
  method GetNoteJSON<T>(git: Backend, log: seq<Cmd>, dec: Decoder<T>, typeName: string, namespace: string,
                        commitSha: string) returns (results: seq<T>, err: Option<Error>, issued: seq<Cmd>)
    ensures Run((results, err), issued) == NoteJson(git, log, dec, typeName, namespace, commitSha)
  {
    results, err, issued := [], None, [];
    if commitSha == "" {
      err := Some(Message("commitSha cannot be empty for GetNoteJSON"));
      return;
    }
    var g := GetNote(git, log, namespace, commitSha);
    issued := g.issued;
    if g.value.Err? {
      if !IsNoteNotFound(g.value.error) {
        err := Some(Wrapped("failed to get underlying note for commit " + commitSha + ": ", g.value.error, ""));
      }
      return;
    }
    var content := g.value.value;
    if TrimSpace(content) == "" {
      return;
    }
    results, err := DecodeLoop(dec, typeName, commitSha, content);
  }

  method DecodeLoop<T>(dec: Decoder<T>, typeName: string, commitSha: string, content: string)
      returns (results: seq<T>, err: Option<Error>)
    ensures (results, err) == DecodeFrom(dec, typeName, commitSha, content, 0, [])
  {
    results, err := [], None;
    var offset: nat := 0;
    while true
      invariant |results| <= MaxJSONObjects
      invariant DecodeFrom(dec, typeName, commitSha, content, offset, results)
             == DecodeFrom(dec, typeName, commitSha, content, 0, [])
      decreases MaxJSONObjects - |results|
    {
      var step := dec(content, offset);
      if step.NoMore? {
        return;
      }
      if |results| >= MaxJSONObjects {
        err := Some(CapExceeded);
        return;
      }
      if step.Failed? {
        err := Some(DecodeFailure(typeName, commitSha, |results|, content, step.cause, step.offset));
        return;
      }
      results := results + [step.value];
      offset := step.next;
    }
  }

  /** `SetNoteJSON` (notes/notes.go:451-466): the marshalled value becomes the whole note. */
  function SetNoteJson<T>(git: Backend, log: seq<Cmd>, marshal: Marshal<T>, typeName: string, namespace: string,
                          commitSha: string, value: T): (r: Run<Option<Error>>)
    ensures commitSha == "" ==> r == Run(Some(Message("commitSha cannot be empty for SetNoteJSON")), [])
    ensures commitSha != "" && marshal(value).Err? ==> r.issued == [] && r.value.Some?
    ensures r.value.None? ==>
      marshal(value).Ok? && Utf8Len(marshal(value).value) <= MaxNoteSize
      && r.issued == [VerifyCmd(commitSha), AddNoteCmd(FormatNamespaceRef(namespace), marshal(value).value, commitSha)]
  {
    if commitSha == "" then Run(Some(Message("commitSha cannot be empty for SetNoteJSON")), [])
    else
      match marshal(value)
      case Err(e) =>
        Run(Some(Wrapped("failed to marshal value of type " + typeName + " to JSON for commit " + commitSha + ": ",
                         e, "")), [])
      case Ok(text) =>
        SetNote(git, log, namespace, commitSha, text)
  }

  /**
   * Writing a value and reading it back: when git stores the note (the commit verifies and
   * `notes show` after the `notes add` prints the text written) and the decoder reads the
   * marshalled text as the one document it is, the note reads back as exactly that value.
   */
  lemma SetThenGetRoundTrip<T>(git: Backend, log: seq<Cmd>, marshal: Marshal<T>, dec: Decoder<T>, typeName: string,
                               namespace: string, commitSha: string, value: T)
    requires commitSha != "" && IsSafeRevisionSpec(commitSha)
    requires marshal(value).Ok? && Utf8Len(marshal(value).value) <= MaxNoteSize
    requires var text := marshal(value).value;
      var ref := FormatNamespaceRef(namespace);
      var written := log + [VerifyCmd(commitSha), AddNoteCmd(ref, text, commitSha)];
      && git(log, VerifyCmd(commitSha)).status.Success?
      && git(log + [VerifyCmd(commitSha)], AddNoteCmd(ref, text, commitSha)).status.Success?
      && git(written, VerifyCmd(commitSha)).status.Success?
      && git(written + [VerifyCmd(commitSha)], ShowNoteCmd(ref, commitSha)) == Process(Success, text, "")
    requires var text := marshal(value).value;
      TrimSpace(text) == text != "" && dec(text, 0) == Decoded(value, |text|) && dec(text, |text|) == NoMore
    ensures var w := SetNoteJson(git, log, marshal, typeName, namespace, commitSha, value);
      && w.value.None?
      && NoteJson(git, log + w.issued, dec, typeName, namespace, commitSha).value == ([value], None)
  {
    var text := marshal(value).value;
    var ref := FormatNamespaceRef(namespace);
    SetNoteJsonWrites(git, log, marshal, typeName, namespace, commitSha, value);
    var written := log + [VerifyCmd(commitSha), AddNoteCmd(ref, text, commitSha)];
    ShowAfterWrite(git, written, namespace, commitSha, text);
    SingleDocument(dec, typeName, commitSha, text, value);
  }

  lemma SetNoteJsonWrites<T>(git: Backend, log: seq<Cmd>, marshal: Marshal<T>, typeName: string, namespace: string,
                             commitSha: string, value: T)
    requires commitSha != "" && IsSafeRevisionSpec(commitSha)
    requires marshal(value).Ok? && Utf8Len(marshal(value).value) <= MaxNoteSize
    requires git(log, VerifyCmd(commitSha)).status.Success?
    requires git(log + [VerifyCmd(commitSha)], AddNoteCmd(FormatNamespaceRef(namespace), marshal(value).value, commitSha))
               .status.Success?
    ensures SetNoteJson(git, log, marshal, typeName, namespace, commitSha, value)
         == Run(None, [VerifyCmd(commitSha), AddNoteCmd(FormatNamespaceRef(namespace), marshal(value).value, commitSha)])
  {
    assert log + [VerifyCmd(commitSha)] + [] == log + [VerifyCmd(commitSha)];
  }

  lemma ShowAfterWrite(git: Backend, written: seq<Cmd>, namespace: string, commitSha: string, text: string)
    requires commitSha != "" && IsSafeRevisionSpec(commitSha) && TrimSpace(text) == text
    requires git(written, VerifyCmd(commitSha)).status.Success?
    requires git(written + [VerifyCmd(commitSha)], ShowNoteCmd(FormatNamespaceRef(namespace), commitSha))
          == Process(Success, text, "")
    ensures GetNote(git, written, namespace, commitSha).value == Ok(text)
  {
    GetNoteOutcome(git, written, None, namespace, commitSha);
  }

  lemma SingleDocument<T>(dec: Decoder<T>, typeName: string, commitSha: string, text: string, value: T)
    requires dec(text, 0) == Decoded(value, |text|) && dec(text, |text|) == NoMore
    ensures DecodeFrom(dec, typeName, commitSha, text, 0, []) == ([value], None)
  {
    assert DecodeFrom(dec, typeName, commitSha, text, |text|, [value]) == ([value], None);
  }
}
