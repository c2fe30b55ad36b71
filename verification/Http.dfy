/** The two parsers that turn a probed server's HTTP response into a status and headers: the Rust one that reads
    a command-line client's output (adapters/cli/src/backend.rs) and the Go one that reads the connection
    (adapters/go/main.go). */
module Http {
  import opened Wrappers
  import opened Seqs
  import opened Text

  datatype Header = Header(name: string, value: string)

  datatype Outcome = Outcome(status: int, headers: seq<Header>)

  // ---------------------------------------------------------------- searching and splitting

  /** The first place `pat` starts in `s`. */
  function Find(s: string, pat: string): (r: Option<nat>)
    ensures r.Some? ==> r.value + |pat| <= |s|
  {
    if pat <= s then Some(0)
    else if s == [] then None
    else match Find(s[1..], pat) case Some(i) => Some(i + 1) case None => None
  }

  lemma {:induction false} FindAfter(skipped: string, rest: string, pat: string)
    requires forall i :: 0 <= i < |skipped| ==> !(pat <= (skipped + rest)[i..])
    ensures Find(skipped + rest, pat) ==
            match Find(rest, pat) case Some(i) => Some(|skipped| + i) case None => None
  {
    if skipped == [] {
      assert skipped + rest == rest;
    } else {
      var s, tail := skipped + rest, skipped[1..] + rest;
      assert s[0..] == s && s[1..] == tail;
      forall i | 0 <= i < |skipped[1..]|
        ensures !(pat <= tail[i..])
      {
        var j := i + 1;
        assert s[j..] == tail[i..];
      }
      FindAfter(skipped[1..], rest, pat);
    }
  }

  /** `strings.Split` of Go. */
  function Split(s: string, sep: string): (r: seq<string>)
    requires sep != []
    ensures r != []
    decreases |s|
  {
    match Find(s, sep)
    case None => [s]
    case Some(i) => [s[..i]] + Split(s[i + |sep|..], sep)
  }

  function StripCr(s: string): (r: string)
  {
    if s != [] && s[|s| - 1] == '\r' then s[..|s| - 1] else s
  }

  /** `lines` of Rust: a line ends at LF or CRLF, and nothing follows the last line end. */
  function Lines(s: string): (r: seq<string>)
    decreases |s|
  {
    if s == [] then []
    else match Find(s, "\n")
      case None => [s]
      case Some(i) => [StripCr(s[..i])] + Lines(s[i + 1..])
  }

  function TokenLength(s: string): (n: nat)
    ensures n <= |s|
  {
    if s == [] || IsSpace(s[0]) then 0 else 1 + TokenLength(s[1..])
  }

  /** `split_whitespace` of Rust and `Fields` of Go. */
  function Fields(s: string): (r: seq<string>)
    decreases |s|
  {
    if s == [] then []
    else if IsSpace(s[0]) then Fields(s[1..])
    else
      var n := TokenLength(s);
      [s[..n]] + Fields(s[n..])
  }

  // ---------------------------------------------------------------- numbers

  predicate IsDigit(c: char) { '0' <= c <= '9' }

  predicate AllDigits(s: string)
  {
    forall i :: 0 <= i < |s| ==> IsDigit(s[i])
  }

  function DigitValue(c: char): (v: nat)
    requires IsDigit(c)
  {
    c as int - '0' as int
  }

  function Decimal(s: string): (n: nat)
    requires AllDigits(s)
  {
    if s == [] then 0 else 10 * Decimal(s[..|s| - 1]) + DigitValue(s[|s| - 1])
  }

  /** `parse::<u16>`: an optional plus sign, then digits only. */
  function ParseU16(s: string): (r: Option<nat>)
  {
    var digits := if s != [] && s[0] == '+' then s[1..] else s;
    if digits == [] || !AllDigits(digits) || Decimal(digits) > 0xFFFF then None else Some(Decimal(digits))
  }

  function DigitPrefix(s: string): (r: string)
    ensures AllDigits(r)
  {
    if s == [] || !IsDigit(s[0]) then [] else [s[0]] + DigitPrefix(s[1..])
  }

  /** `Sscanf` with `%d` into a zeroed 64-bit integer: a sign and leading digits; anything else leaves zero. */
  function ScanInt(s: string): (r: int)
  {
    var signed := s != [] && (s[0] == '+' || s[0] == '-');
    var digits := DigitPrefix(if signed then s[1..] else s);
    var magnitude: int := Decimal(digits);
    var value := if signed && s[0] == '-' then -magnitude else magnitude;
    if digits == [] || !(-0x8000_0000_0000_0000 <= value < 0x8000_0000_0000_0000) then 0 else value
  }

  // ---------------------------------------------------------------- header lines

  /** A line without a colon is no header. */
  function HeaderOf(line: string): (r: seq<Header>)
  {
    match Find(line, ":")
    case None => []
    case Some(i) => [Header(Trim(line[..i]), Trim(line[i + 1..]))]
  }

  function HeadersOf(lines: seq<string>): (r: seq<Header>)
  {
    FlatMap(HeaderOf, lines)
  }

  /** How many lines come before the first blank one. */
  function UntilBlank(lines: seq<string>): (n: nat)
    ensures n <= |lines|
    ensures forall i :: 0 <= i < n ==> Trim(lines[i]) != []
    ensures n < |lines| ==> Trim(lines[n]) == []
  {
    if lines == [] || Trim(lines[0]) == [] then 0 else 1 + UntilBlank(lines[1..])
  }

  lemma UntilBlankIs(lines: seq<string>, n: nat)
    requires n < |lines| && Trim(lines[n]) == []
    requires forall i :: 0 <= i < n ==> Trim(lines[i]) != []
    ensures UntilBlank(lines) == n
  {
  }

  // ---------------------------------------------------------------- the Rust parser

  function RustStatus(statusLine: string): (r: Option<nat>)
  {
    var fields := Fields(statusLine);
    if |fields| < 2 then None else ParseU16(fields[1])
  }

  function RustOutcome(text: string): (r: Option<Outcome>)
  {
    match Find(text, "HTTP/1.")
    case None => None
    case Some(start) =>
      var lines := Lines(text[start..]);
      if lines == [] || RustStatus(lines[0]).None? then None
      else
        var rest := lines[1..];
        Some(Outcome(RustStatus(lines[0]).value, HeadersOf(rest[..UntilBlank(rest)])))
  }

  /** The header loop of `parse_http`: up to the first blank line. */
  method ReadHeaders(lines: seq<string>) returns (headers: seq<Header>)
    ensures headers == HeadersOf(lines[..UntilBlank(lines)])
  {
    headers := [];
    var i := 0;
    while i < |lines|
      invariant i <= UntilBlank(lines)
      invariant headers == HeadersOf(lines[..i])
    {
      var line := lines[i];
      if Trim(line) == [] {
        return;
      }
      FlatMapStep(HeaderOf, lines, i);
      var colon := Find(line, ":");
      if colon.Some? {
        headers := headers + [Header(Trim(line[..colon.value]), Trim(line[colon.value + 1..]))];
      }
      i := i + 1;
    }
  }

  /** `parse_http`, but for the body excerpt. */
  method ParseHttp(text: string) returns (r: Option<Outcome>)
    ensures r == RustOutcome(text)
  {
    var start := Find(text, "HTTP/1.");
    if start.None? {
      return None;
    }
    var lines := Lines(text[start.value..]);
    if lines == [] {
      return None;
    }
    var status := RustStatus(lines[0]);
    if status.None? {
      return None;
    }
    var headers := ReadHeaders(lines[1..]);
    return Some(Outcome(status.value, headers));
  }

  // ---------------------------------------------------------------- the Go parser

  const CRLF := "\r\n"

  function GoHead(text: string): (r: string)
  {
    match Find(text, CRLF + CRLF)
    case None => text
    case Some(i) => text[..i]
  }

  function GoStatus(statusLine: string): (r: int)
  {
    var parts := Fields(statusLine);
    if |parts| > 1 then ScanInt(parts[1]) else 0
  }

  function GoOutcome(text: string): (r: Option<Outcome>)
  {
    var lines := Split(GoHead(text), CRLF);
    if !("HTTP/" <= lines[0]) then None
    else Some(Outcome(GoStatus(lines[0]), HeadersOf(lines[1..])))
  }

  /** The parsing half of `doHTTP`, but for the body excerpt. */
  method ParseResponse(text: string) returns (r: Option<Outcome>)
    ensures r == GoOutcome(text)
  {
    var lines := Split(GoHead(text), CRLF);
    if !("HTTP/" <= lines[0]) {
      return None;
    }
    var parts := Fields(lines[0]);
    var status := 0;
    if |parts| > 1 {
      status := ScanInt(parts[1]);
    }
    var headers: seq<Header> := [];
    ghost var rest := lines[1..];
    for i := 1 to |lines|
      invariant headers == HeadersOf(rest[..i - 1])
    {
      FlatMapStep(HeaderOf, rest, i - 1);
      var line := lines[i];
      var colon := Find(line, ":");
      if colon.Some? {
        headers := headers + [Header(Trim(line[..colon.value]), Trim(line[colon.value + 1..]))];
      }
    }
    assert rest[..|lines| - 1] == rest;
    return Some(Outcome(status, headers));
  }
}
