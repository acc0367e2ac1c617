/**
 * The string primitives the Go code leans on: `strings.Contains`, `strings.HasPrefix`,
 * `strings.TrimPrefix`, `strings.TrimSpace`, `strings.Fields`, `strings.ToLower`, the line
 * splitting of a default `bufio.Scanner`, `%d` formatting and `strconv.ParseInt(s, 10, 64)`.
 *
 * Case-insensitive matching covers ASCII letters only: every pattern of the error classifier
 * is an ASCII literal.
 */
module Text {
  import opened Wrappers

  /** `unicode.IsSpace`: the separators used by `strings.Fields` and `strings.TrimSpace`. */
  predicate IsSpace(c: char) {
    c == ' ' || c == '\t' || c == '\n' || c == '\U{0B}' || c == '\U{0C}' || c == '\r'
    || c == '\U{85}' || c == '\U{A0}' || c == '\U{1680}' || ('\U{2000}' <= c <= '\U{200A}')
    || c == '\U{2028}' || c == '\U{2029}' || c == '\U{202F}' || c == '\U{205F}' || c == '\U{3000}'
  }

  predicate IsUpper(c: char) { 'A' <= c <= 'Z' }

  function LowerChar(c: char): char {
    if IsUpper(c) then (c as int + 32) as char else c
  }

  /** `strings.ToLower`, restricted to ASCII letters. */
  function Lower(s: string): string {
    seq(|s|, i requires 0 <= i < |s| => LowerChar(s[i]))
  }

  predicate HasPrefix(s: string, p: string) {
    |p| <= |s| && s[..|p|] == p
  }

  predicate HasSuffix(s: string, p: string) {
    |p| <= |s| && s[|s| - |p|..] == p
  }

  /** `strings.TrimPrefix`. */
  function TrimPrefix(s: string, p: string): (r: string)
    ensures HasPrefix(s, p) ==> s == p + r
    ensures !HasPrefix(s, p) ==> r == s
  {
    if HasPrefix(s, p) then s[|p|..] else s
  }

  /** The pattern `p` occurs in `s` starting at index `i`. */
  predicate OccursAt(s: string, p: string, i: int) {
    0 <= i && i + |p| <= |s| && s[i..i + |p|] == p
  }

  /** `strings.Contains`, and the match of an unanchored literal regular expression. */
  predicate Contains(s: string, p: string) {
    exists i | 0 <= i <= |s| - |p| :: OccursAt(s, p, i)
  }

  /** The match of a `(?i)` literal regular expression. */
  predicate ContainsFold(s: string, p: string) {
    Contains(Lower(s), Lower(p))
  }

  lemma ContainsInfix(a: string, p: string, b: string)
    ensures Contains(a + p + b, p)
  {
    assert (a + p + b)[|a|..|a| + |p|] == p;
    assert OccursAt(a + p + b, p, |a|);
  }

  lemma ContainsInLeft(a: string, b: string, p: string)
    requires Contains(a, p)
    ensures Contains(a + b, p)
  {
    var i :| 0 <= i <= |a| - |p| && OccursAt(a, p, i);
    assert (a + b)[i..i + |p|] == a[i..i + |p|];
    assert OccursAt(a + b, p, i);
  }

  lemma ContainsInRight(a: string, b: string, p: string)
    requires Contains(b, p)
    ensures Contains(a + b, p)
  {
    var i :| 0 <= i <= |b| - |p| && OccursAt(b, p, i);
    assert (a + b)[|a| + i..|a| + i + |p|] == b[i..i + |p|];
    assert OccursAt(a + b, p, |a| + i);
  }

  /** Every occurrence of `q` is an occurrence of each prefix of `q`. */
  lemma ContainsPrefixOfPattern(s: string, q: string, p: string)
    requires Contains(s, q) && HasPrefix(q, p)
    ensures Contains(s, p)
  {
    var i :| 0 <= i <= |s| - |q| && OccursAt(s, q, i);
    assert s[i..i + |p|] == q[..|p|];
    assert OccursAt(s, p, i);
  }

  /** A case-sensitive match is also a case-insensitive one. */
  lemma ContainsIgnoringCase(s: string, p: string)
    requires Contains(s, p)
    ensures ContainsFold(s, p)
  {
    var i :| 0 <= i <= |s| - |p| && OccursAt(s, p, i);
    assert Lower(s)[i..i + |p|] == Lower(p) by {
      forall k | 0 <= k < |p|
        ensures Lower(s)[i..i + |p|][k] == Lower(p)[k]
      {
        assert s[i + k] == p[k];
      }
    }
    assert OccursAt(Lower(s), Lower(p), i);
  }

  /** Drops the leading white space. */
  function TrimLeft(s: string): string
    decreases |s|
  {
    if |s| > 0 && IsSpace(s[0]) then TrimLeft(s[1..]) else s
  }

  /** Drops the trailing white space. */
  function TrimRight(s: string): string
    decreases |s|
  {
    if |s| > 0 && IsSpace(s[|s| - 1]) then TrimRight(s[..|s| - 1]) else s
  }

  /** `strings.TrimSpace`. */
  function TrimSpace(s: string): string {
    TrimRight(TrimLeft(s))
  }

  /** `TrimLeft` removes a suffix-preserving run of white space, and no more. */
  lemma {:induction false} TrimLeftSpec(s: string)
    ensures var r := TrimLeft(s);
      && |r| <= |s| && r == s[|s| - |r|..]
      && (r == [] || !IsSpace(r[0]))
      && forall i :: 0 <= i < |s| - |r| ==> IsSpace(s[i])
    decreases |s|
  {
    if |s| > 0 && IsSpace(s[0]) {
      TrimLeftSpec(s[1..]);
      var r := TrimLeft(s);
      assert s[1..][|s[1..]| - |r|..] == s[|s| - |r|..];
      forall i | 0 <= i < |s| - |r| ensures IsSpace(s[i]) {
        if i > 0 {
          assert s[i] == s[1..][i - 1];
        }
      }
    }
  }

  /** `TrimRight` removes a trailing run of white space, and no more. */
  lemma {:induction false} TrimRightSpec(s: string)
    ensures var r := TrimRight(s);
      && |r| <= |s| && r == s[..|r|]
      && (r == [] || !IsSpace(r[|r| - 1]))
      && forall i :: |r| <= i < |s| ==> IsSpace(s[i])
    decreases |s|
  {
    if |s| > 0 && IsSpace(s[|s| - 1]) {
      TrimRightSpec(s[..|s| - 1]);
      var r := TrimRight(s);
      assert s[..|s| - 1][..|r|] == s[..|r|];
      forall i | |r| <= i < |s| ensures IsSpace(s[i]) {
        if i < |s| - 1 {
          assert s[i] == s[..|s| - 1][i];
        }
      }
    }
  }

  /** Trimming leaves nothing exactly when the text is white space only. */
  lemma TrimSpaceEmptyIff(s: string)
    ensures TrimSpace(s) == [] <==> forall i :: 0 <= i < |s| ==> IsSpace(s[i])
  {
    var t := TrimLeft(s);
    TrimLeftSpec(s);
    TrimRightSpec(t);
    if TrimSpace(s) == [] {
      assert |t| == 0;
    } else {
      var r := TrimSpace(s);
      assert r[0] == t[0] == s[|s| - |t|];
    }
  }

  /** Length of the leading run of non-space characters. */
  function SpanNonSpace(s: string): (n: nat)
    ensures n <= |s|
    ensures forall i :: 0 <= i < n ==> !IsSpace(s[i])
    ensures n < |s| ==> IsSpace(s[n])
  {
    if |s| > 0 && !IsSpace(s[0]) then 1 + SpanNonSpace(s[1..]) else 0
  }

  /** `strings.Fields`: the maximal runs of non-space characters, in order. */
  function Fields(s: string): seq<string>
    decreases |s|
  {
    if s == [] then []
    else if IsSpace(s[0]) then Fields(s[1..])
    else
      var n := SpanNonSpace(s);
      [s[..n]] + Fields(s[n..])
  }

  /** Index of the first `c` in `s`, or `|s|` when there is none. */
  function IndexOf(s: string, c: char): (k: nat)
    ensures k <= |s|
    ensures k < |s| ==> s[k] == c
    ensures forall i :: 0 <= i < k ==> s[i] != c
  {
    if s == [] then 0 else if s[0] == c then 0 else 1 + IndexOf(s[1..], c)
  }

  function DropCR(s: string): string {
    if |s| > 0 && s[|s| - 1] == '\r' then s[..|s| - 1] else s
  }

  /**
   * The tokens of a `bufio.Scanner` with its default `ScanLines` split: the text between
   * newlines, one trailing carriage return dropped, and no empty token after a final newline.
   */
  function Lines(s: string): (r: seq<string>)
    ensures s == [] <==> r == []
    decreases |s|
  {
    if s == [] then []
    else
      var k := IndexOf(s, '\n');
      if k == |s| then [DropCR(s)] else [DropCR(s[..k])] + Lines(s[k + 1..])
  }

  /**
   * The number of bytes UTF-8 uses for `c`: one below U+0080, two below U+0800, three below
   * U+10000 and four above.
   */
  function RuneLen(c: char): (n: nat)
    ensures 1 <= n <= 4
    ensures n == 1 <==> c as int < 0x80
  {
    if c as int < 0x80 then 1 else if c as int < 0x800 then 2 else if c as int < 0x1_0000 then 3 else 4
  }

  /** Go's `len` of a string: the length of its UTF-8 encoding in bytes. */
  function Utf8Len(s: string): (n: nat)
    ensures |s| <= n <= 4 * |s|
  {
    if s == [] then 0 else RuneLen(s[0]) + Utf8Len(s[1..])
  }

  lemma {:induction false} Utf8LenConcat(a: string, b: string)
    ensures Utf8Len(a + b) == Utf8Len(a) + Utf8Len(b)
  {
    if a != [] {
      assert (a + b)[0] == a[0] && (a + b)[1..] == a[1..] + b;
      assert Utf8Len(a + b) == RuneLen(a[0]) + Utf8Len(a[1..] + b);
      Utf8LenConcat(a[1..], b);
    } else {
      assert a + b == b;
    }
  }

  /** Bytes and characters agree exactly on ASCII text. */
  lemma {:induction false} Utf8LenAscii(s: string)
    ensures Utf8Len(s) == |s| <==> forall i | 0 <= i < |s| :: s[i] as int < 0x80
  {
    if s != [] {
      Utf8LenAscii(s[1..]);
      assert forall i | 1 <= i < |s| :: s[i] == s[1..][i - 1];
    }
  }

  /** A text made of one character repeated takes that character's width per character. */
  lemma {:induction false} Utf8LenRepeated(s: string, c: char)
    requires forall i | 0 <= i < |s| :: s[i] == c
    ensures Utf8Len(s) == RuneLen(c) * |s|
  {
    if s != [] {
      Utf8LenRepeated(s[1..], c);
    }
  }

  predicate IsDigit(c: char) { '0' <= c <= '9' }

  predicate AllDigits(s: string) {
    forall i :: 0 <= i < |s| ==> IsDigit(s[i])
  }

  function DigitChar(d: nat): char
    requires d < 10
  {
    (48 + d) as char
  }

  /** `%d` of a non-negative integer. */
  function FormatNat(n: nat): (r: string)
    ensures |r| > 0 && AllDigits(r)
  {
    if n < 10 then [DigitChar(n)] else FormatNat(n / 10) + [DigitChar(n % 10)]
  }

  /** `%d`: decimal, with a leading minus sign for negative values. */
  function FormatInt(n: int): string {
    if n < 0 then "-" + FormatNat(-n) else FormatNat(n)
  }

  /** The value of a string of decimal digits, read most significant first. */
  function DigitsValue(s: string): nat
    requires AllDigits(s)
  {
    if s == [] then 0 else DigitsValue(s[..|s| - 1]) * 10 + (s[|s| - 1] as int - 48)
  }

  /** Length of the leading run of decimal digits. */
  function DigitRun(s: string): (k: nat)
    ensures k <= |s| && AllDigits(s[..k])
    ensures k < |s| ==> !IsDigit(s[k])
  {
    if |s| > 0 && IsDigit(s[0]) then
      var k := 1 + DigitRun(s[1..]);
      assert s[..k] == [s[0]] + s[1..][..k - 1];
      k
    else 0
  }

  const MaxUint64: nat := 0xFFFF_FFFF_FFFF_FFFF
  const Int64Cutoff: int := 0x8000_0000_0000_0000

  const ErrSyntax := "invalid syntax"
  const ErrRange := "value out of range"

  /**
   * `strconv.ParseUint(s, 10, 64)`. The library scans left to right and stops at the first
   * non-digit (a syntax error) or at the first prefix whose value exceeds 2^64-1 (a range
   * error); prefix values only grow, so the range error wins exactly when the digit run in
   * front of the first non-digit is already too large.
   */
  function ParseUint64(s: string): Result<nat, string> {
    if s == [] then Err(ErrSyntax)
    else
      var k := DigitRun(s);
      if DigitsValue(s[..k]) > MaxUint64 then Err(ErrRange)
      else if k < |s| then Err(ErrSyntax)
      else Ok(DigitsValue(s))
  }

  /** `strconv.ParseInt(s, 10, 64)`: an optional sign, decimal digits, a 64-bit range. */
  function ParseInt64(s: string): (r: Result<int, string>)
    ensures r.Ok? ==> -Int64Cutoff <= r.value < Int64Cutoff
    ensures r.Err? ==> r.error == ErrSyntax || r.error == ErrRange
    ensures s == [] ==> r == Err(ErrSyntax)
  {
    if s == [] then Err(ErrSyntax)
    else
      var neg := s[0] == '-';
      var body := if s[0] == '+' || s[0] == '-' then s[1..] else s;
      match ParseUint64(body)
      case Err(e) => if e == ErrSyntax then Err(ErrSyntax) else Err(ErrRange)
      case Ok(u) =>
        if !neg && u >= Int64Cutoff then Err(ErrRange)
        else if neg && u > Int64Cutoff then Err(ErrRange)
        else Ok(if neg then 0 - u else u)
  }

  lemma {:induction false} DigitsValueOfFormat(n: nat)
    ensures DigitsValue(FormatNat(n)) == n
  {
    var s := FormatNat(n);
    if n >= 10 {
      DigitsValueOfFormat(n / 10);
      assert s[..|s| - 1] == FormatNat(n / 10);
    }
  }

  lemma DigitRunOfDigits(s: string)
    requires AllDigits(s)
    ensures DigitRun(s) == |s|
  {
  }

  /** Reading back what `%d` printed yields the value printed, for every 64-bit integer. */
  lemma ParseFormatRoundTrip(n: int)
    requires -Int64Cutoff <= n < Int64Cutoff
    ensures ParseInt64(FormatInt(n)) == Ok(n)
  {
    var m: nat := if n < 0 then -n else n;
    var digits := FormatNat(m);
    DigitRunOfDigits(digits);
    DigitsValueOfFormat(m);
    assert digits[..|digits|] == digits;
    assert ParseUint64(digits) == Ok(m);
    if n < 0 {
      assert FormatInt(n)[1..] == digits;
    } else {
      assert IsDigit(FormatInt(n)[0]);
    }
  }
}
