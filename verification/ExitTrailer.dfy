/** The line a command's wrapper appends to its output, and reading the exit status back from it. */
module ExitTrailer {
  import opened Decimals
  import opened Replies

  const MARKER: string := "\n__AGENT_FORKD_EXIT:"

  // ----- decimal numbers

  function Decimal(n: int): string {
    if n < 0 then "-" + DecimalNat(-n) else DecimalNat(n)
  }

  /** str::parse for a 32-bit signed integer */
  function ParseI32(s: string): Option<int> {
    var negative := s != [] && s[0] == '-';
    var digits := if s != [] && (s[0] == '-' || s[0] == '+') then s[1..] else s;
    if digits == [] || !AllDigits(digits) then None
    else
      var magnitude: int := NatValue(digits);
      var value := if negative then -magnitude else magnitude;
      if -0x8000_0000 <= value < 0x8000_0000 then Some(value) else None
  }

  lemma ParseDigits(digits: string)
    requires digits != [] && AllDigits(digits)
    ensures NatValue(digits) < 0x8000_0000 ==> ParseI32(digits) == Some(NatValue(digits))
    ensures NatValue(digits) <= 0x8000_0000 ==> ParseI32("-" + digits) == Some(-(NatValue(digits) as int))
  {
    assert IsDigit(digits[0]);
    assert ("-" + digits)[1..] == digits;
  }

  lemma ParseDecimal(n: int)
    requires -0x8000_0000 <= n < 0x8000_0000
    ensures ParseI32(Decimal(n)) == Some(n)
  {
    var size := if n < 0 then -n else n;
    DecimalNatRoundTrip(size);
    ParseDigits(DecimalNat(size));
  }

  // ----- searching and trimming

  predicate OccursAt(s: string, m: string, i: nat) {
    i + |m| <= |s| && s[i..i + |m|] == m
  }

  /** rfind: the last place at or before `from` where `m` occurs */
  function LastOccurrence(s: string, m: string, from: nat): (r: Option<nat>)
    ensures r.Some? ==> OccursAt(s, m, r.value) && r.value <= from
    ensures forall i :: 0 <= i <= from && (r.Some? ==> r.value < i) ==> !OccursAt(s, m, i)
  {
    if OccursAt(s, m, from) then Some(from)
    else if from == 0 then None
    else LastOccurrence(s, m, from - 1)
  }

  lemma {:induction false} LastOccurrenceMeans(s: string, m: string, from: nat, k: nat)
    requires k <= from && OccursAt(s, m, k) && forall i :: k < i <= from ==> !OccursAt(s, m, i)
    ensures LastOccurrence(s, m, from) == Some(k)
  {
    if k < from {
      LastOccurrenceMeans(s, m, from - 1, k);
    }
  }

  /** The text up to the first newline, or all of it. */
  function FirstLine(s: string): string {
    if s == [] || s[0] == '\n' then [] else [s[0]] + FirstLine(s[1..])
  }

  /** The characters with the White_Space property of the Unicode Character Database, which `trim` takes away. */
  predicate IsWhitespace(c: char) {
    || '\U{0009}' <= c <= '\U{000D}' || c == ' ' || c == '\U{0085}' || c == '\U{00A0}' || c == '\U{1680}'
    || '\U{2000}' <= c <= '\U{200A}' || c in {'\U{2028}', '\U{2029}', '\U{202F}', '\U{205F}', '\U{3000}'}
  }

  function TrimStart(s: string): string {
    if s != [] && IsWhitespace(s[0]) then TrimStart(s[1..]) else s
  }

  function TrimEnd(s: string): string {
    if s != [] && IsWhitespace(s[|s| - 1]) then TrimEnd(s[..|s| - 1]) else s
  }

  function Trim(s: string): string {
    TrimEnd(TrimStart(s))
  }

  /** Only white space is taken away, and all of it at both ends. */
  lemma {:induction false} TrimMeans(s: string) returns (before: string, after: string)
    ensures s == before + Trim(s) + after
    ensures forall i :: 0 <= i < |before| ==> IsWhitespace(before[i])
    ensures forall i :: 0 <= i < |after| ==> IsWhitespace(after[i])
    ensures Trim(s) != [] ==> !IsWhitespace(Trim(s)[0]) && !IsWhitespace(Trim(s)[|Trim(s)| - 1])
  {
    before := TrimStartMeans(s);
    after := TrimEndMeans(TrimStart(s));
  }

  lemma {:induction false} TrimStartMeans(s: string) returns (before: string)
    ensures s == before + TrimStart(s) && forall i :: 0 <= i < |before| ==> IsWhitespace(before[i])
    ensures TrimStart(s) != [] ==> !IsWhitespace(TrimStart(s)[0])
  {
    if s != [] && IsWhitespace(s[0]) {
      var rest := TrimStartMeans(s[1..]);
      before := [s[0]] + rest;
      assert s == [s[0]] + s[1..];
    } else {
      before := [];
    }
  }

  lemma {:induction false} TrimEndMeans(s: string) returns (after: string)
    ensures s == TrimEnd(s) + after && forall i :: 0 <= i < |after| ==> IsWhitespace(after[i])
    ensures TrimEnd(s) != [] ==> !IsWhitespace(TrimEnd(s)[|TrimEnd(s)| - 1])
  {
    if s != [] && IsWhitespace(s[|s| - 1]) {
      var rest := TrimEndMeans(s[..|s| - 1]);
      after := rest + [s[|s| - 1]];
      assert s == s[..|s| - 1] + [s[|s| - 1]];
    } else {
      after := [];
    }
  }

  /** A line goes on up to a newline, and up to the end if there is none. */
  lemma {:induction false} FirstLineMeans(s: string)
    ensures FirstLine(s) <= s && '\n' !in FirstLine(s)
    ensures |FirstLine(s)| < |s| ==> s[|FirstLine(s)|] == '\n'
    decreases |s|
  {
    if s != [] && s[0] != '\n' {
      FirstLineMeans(s[1..]);
    }
  }

  /** An optional sign and at least one digit, and a value that fits. */
  lemma ParseI32Means(s: string, sign: string, digits: string)
    requires s == sign + digits && sign in {"", "+", "-"} && (digits != [] ==> digits[0] != '-' && digits[0] != '+')
    ensures ParseI32(s).Some? <==>
            digits != [] && AllDigits(digits)
            && (NatValue(digits) < 0x8000_0000 || (sign == "-" && NatValue(digits) == 0x8000_0000))
    ensures ParseI32(s).Some? ==> ParseI32(s).value == (if sign == "-" then -1 else 1) * NatValue(digits)
  {
    assert sign != "" ==> s[0] == sign[0] && s[1..] == digits;
    assert sign == "" ==> s == digits;
  }

  lemma {:induction false} FirstLineStops(a: string, rest: string)
    requires forall i :: 0 <= i < |a| ==> a[i] != '\n'
    ensures FirstLine(a + "\n" + rest) == a
  {
    var t := a + "\n" + rest;
    if a == [] {
      assert t[0] == '\n';
    } else {
      assert t[0] == a[0] && t[1..] == a[1..] + "\n" + rest;
      FirstLineStops(a[1..], rest);
      assert [a[0]] + a[1..] == a;
    }
  }

  // ----- the trailer

  function Trailer(status: int): string {
    MARKER + Decimal(status) + "\n"
  }

  /** What a buffer's last marker says, and where it starts. */
  function ReadTrailer(text: string): (r: Option<(int, nat)>)
    ensures r.Some? ==> OccursAt(text, MARKER, r.value.1)
  {
    match LastOccurrence(text, MARKER, |text|)
    case None => None
    case Some(start) =>
      match ParseI32(Trim(FirstLine(text[start + |MARKER|..])))
      case None => None
      case Some(status) => Some((status, start))
  }

  class OutputBuffer {
    var text: string

    constructor (text: string)
      ensures this.text == text
    {
      this.text := text;
    }

    /** parse_child_exit_status: on success the buffer is cut back to what precedes the trailer. */
    method ParseChildExitStatus() returns (status: Option<int>)
      modifies this
      ensures match ReadTrailer(old(text))
              case None => status == None && text == old(text)
              case Some((value, start)) => status == Some(value) && text == old(text)[..start]
    {
      var found := LastOccurrence(text, MARKER, |text|);
      if found.None? {
        return None;
      }
      var line := FirstLine(text[found.value + |MARKER|..]);
      var value := ParseI32(Trim(line));
      if value.None? {
        return None;
      }
      text := text[..found.value];
      return value;
    }
  }

  lemma {:induction false} DecimalHasNoSpace(n: int)
    ensures Decimal(n) != []
    ensures forall i :: 0 <= i < |Decimal(n)| ==> !IsWhitespace(Decimal(n)[i])
  {
    DecimalNatRoundTrip(if n < 0 then -n else n);
    var digits := DecimalNat(if n < 0 then -n else n);
    forall i | 0 <= i < |Decimal(n)| ensures !IsWhitespace(Decimal(n)[i]) {
      if n < 0 && i > 0 {
        assert Decimal(n)[i] == digits[i - 1];
      }
    }
  }

  /** The appended trailer holds the last marker, however many the output itself contains. */
  lemma TrailerIsLast(output: string, status: int)
    ensures LastOccurrence(output + Trailer(status), MARKER, |output + Trailer(status)|) == Some(|output|)
  {
    var t := output + Trailer(status);
    var d := Decimal(status);
    DecimalHasNoSpace(status);
    assert t == output + (MARKER + (d + "\n"));
    assert t[|output|..|output| + |MARKER|] == MARKER;
    forall i | |output| < i <= |t| ensures !OccursAt(t, MARKER, i) {
      if i + |MARKER| <= |t| {
        var k := i - |output|;
        assert t[i] == (MARKER + (d + "\n"))[k];
        assert t[i] != '\n' by {
          if k < |MARKER| {
            MarkerHasOneNewline(k);
          } else {
            assert t[i] == d[k - |MARKER|];
          }
        }
        assert t[i..i + |MARKER|][0] == t[i];
      }
    }
    LastOccurrenceMeans(t, MARKER, |t|, |output|);
  }

  lemma MarkerHasOneNewline(k: nat)
    requires 0 < k < |MARKER|
    ensures MARKER[k] != '\n' && MARKER[0] == '\n'
  {
  }

  lemma TrimNothing(s: string)
    requires s != [] && !IsWhitespace(s[0]) && !IsWhitespace(s[|s| - 1])
    ensures Trim(s) == s
  {
  }

  /** For every output and every status, reading the trailer gives the status, and cutting the buffer there
      gives back exactly the output. */
  lemma TrailerRoundTrip(output: string, status: int)
    requires -0x8000_0000 <= status < 0x8000_0000
    ensures ReadTrailer(output + Trailer(status)) == Some((status, |output|))
    ensures (output + Trailer(status))[..|output|] == output
  {
    var t := output + Trailer(status);
    TrailerIsLast(output, status);
    var after := t[|output| + |MARKER|..];
    assert after == Decimal(status) + "\n" + [];
    DecimalHasNoSpace(status);
    FirstLineStops(Decimal(status), []);
    TrimNothing(Decimal(status));
    ParseDecimal(status);
  }
}
