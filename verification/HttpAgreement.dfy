/** Both parsers read back what a well-formed response says (sections 4 and 5 of RFC 9112). */
module HttpAgreement {
  import opened Wrappers
  import opened Seqs
  import opened Text
  import opened Http

  // ---------------------------------------------------------------- rendering

  /** A response before it is rendered: header values as sent, with any white space around them. */
  datatype Response = Response(minor: char, status: nat, reason: string, headers: seq<Header>, body: string)

  predicate OnOneLine(s: string)
  {
    forall i :: 0 <= i < |s| ==> s[i] != '\r' && s[i] != '\n'
  }

  /** No white space and no colon, and not empty. */
  predicate FieldName(s: string)
  {
    s != [] && forall i :: 0 <= i < |s| ==> !IsSpace(s[i]) && s[i] != ':'
  }

  predicate WellFormed(resp: Response)
  {
    && IsDigit(resp.minor) && resp.status < 1000 && OnOneLine(resp.reason)
    && forall i :: 0 <= i < |resp.headers| ==> FieldName(resp.headers[i].name) && OnOneLine(resp.headers[i].value)
  }

  function Digit(n: nat): (c: char)
    requires n < 10
  {
    ('0' as int + n) as char
  }

  function StatusDigits(n: nat): (s: string)
    requires n < 1000
  {
    [Digit(n / 100), Digit(n / 10 % 10), Digit(n % 10)]
  }

  function StatusLine(resp: Response): (s: string)
    requires resp.status < 1000
  {
    "HTTP/1." + [resp.minor] + " " + StatusDigits(resp.status) + " " + resp.reason
  }

  function HeaderLine(h: Header): (s: string)
  {
    h.name + ":" + h.value
  }

  function HeaderLines(headers: seq<Header>): (r: seq<string>)
    ensures |r| == |headers|
    ensures forall i :: 0 <= i < |headers| ==> r[i] == HeaderLine(headers[i])
  {
    seq(|headers|, i requires 0 <= i < |headers| => HeaderLine(headers[i]))
  }

  /** The lines, each with its line end, then the blank line, then the body. */
  function Rendered(lines: seq<string>, body: string): (s: string)
  {
    if lines == [] then CRLF + body else lines[0] + CRLF + Rendered(lines[1..], body)
  }

  function Render(resp: Response): (s: string)
    requires resp.status < 1000
  {
    Rendered([StatusLine(resp)] + HeaderLines(resp.headers), resp.body)
  }

  /** The headers a reader should see: each value without the white space around it. */
  function Read(headers: seq<Header>): (r: seq<Header>)
    ensures |r| == |headers|
    ensures forall i :: 0 <= i < |headers| ==> r[i] == Header(headers[i].name, Trim(headers[i].value))
  {
    seq(|headers|, i requires 0 <= i < |headers| => Header(headers[i].name, Trim(headers[i].value)))
  }

  // ---------------------------------------------------------------- header lines

  lemma FindColon(name: string, value: string)
    requires forall i :: 0 <= i < |name| ==> name[i] != ':'
    ensures Find(name + ":" + value, ":") == Some(|name|)
  {
    var rest := ":" + value;
    assert name + ":" + value == name + rest;
    forall i | 0 <= i < |name|
      ensures !(":" <= (name + rest)[i..])
    {
      assert (name + rest)[i..][0] == name[i];
    }
    FindAfter(name, rest, ":");
  }

  lemma NameTrimsToItself(name: string)
    requires FieldName(name)
    ensures Trim(name) == name
  {
    TrimPadded("", name, "");
    assert "" + name + "" == name;
  }

  lemma HeaderLineReads(h: Header)
    requires FieldName(h.name) && OnOneLine(h.value)
    ensures HeaderOf(HeaderLine(h)) == [Header(h.name, Trim(h.value))]
  {
    var line := HeaderLine(h);
    FindColon(h.name, h.value);
    assert line[..|h.name|] == h.name;
    assert line[|h.name| + 1..] == h.value;
    NameTrimsToItself(h.name);
  }

  lemma HeaderLinesRead(headers: seq<Header>)
    requires forall i :: 0 <= i < |headers| ==> FieldName(headers[i].name) && OnOneLine(headers[i].value)
    ensures HeadersOf(HeaderLines(headers)) == Read(headers)
  {
    var lines := HeaderLines(headers);
    forall i | 0 <= i < |headers|
      ensures HeaderOf(lines[i]) == [Read(headers)[i]]
    {
      HeaderLineReads(headers[i]);
    }
    FlatMapSingletons(HeaderOf, lines, Read(headers));
  }

  // ---------------------------------------------------------------- rendered lines

  /** A line that may stand before the blank one. */
  predicate FullLine(line: string)
  {
    line != [] && OnOneLine(line)
  }

  ghost predicate FullLines(lines: seq<string>)
  {
    forall i :: 0 <= i < |lines| ==> FullLine(lines[i])
  }

  /** No line end starts inside a line. */
  lemma NoBreakInside(line: string, rest: string, sep: string)
    requires OnOneLine(line) && sep != [] && (sep[0] == '\r' || sep[0] == '\n')
    ensures Find(line + rest, sep) ==
            match Find(rest, sep) case Some(i) => Some(|line| + i) case None => None
  {
    forall i | 0 <= i < |line|
      ensures !(sep <= (line + rest)[i..])
    {
      assert (line + rest)[i..][0] == line[i];
    }
    FindAfter(line, rest, sep);
  }

  lemma LineFeedAt(line: string, rest: string)
    requires OnOneLine(line)
    ensures Find(line + CRLF + rest, "\n") == Some(|line| + 1)
  {
    var tail := CRLF + rest;
    assert line + CRLF + rest == line + tail;
    NoBreakInside(line, tail, "\n");
    assert tail[1..] == "\n" + rest;
    assert "\n" <= tail[1..];
  }

  lemma FirstLine(line: string, rest: string)
    requires OnOneLine(line)
    ensures Lines(line + CRLF + rest) == [line] + Lines(rest)
  {
    var text := line + CRLF + rest;
    LineFeedAt(line, rest);
    assert text[..|line| + 1] == line + "\r";
    assert text[|line| + 2..] == rest;
    assert StripCr(line + "\r") == line;
  }

  /** Rust sees the rendered lines, then an empty one, then the lines of the body. */
  lemma {:induction false} LinesOfRendered(lines: seq<string>, body: string)
    requires forall i :: 0 <= i < |lines| ==> OnOneLine(lines[i])
    ensures Lines(Rendered(lines, body)) == lines + [""] + Lines(body)
  {
    if lines == [] {
      FirstLine("", body);
      assert "" + CRLF + body == CRLF + body;
    } else {
      FirstLine(lines[0], Rendered(lines[1..], body));
      LinesOfRendered(lines[1..], body);
      assert lines == [lines[0]] + lines[1..];
    }
  }

  /** The text up to the blank line: the lines with a line end between each two. */
  function Joined(lines: seq<string>): (s: string)
    requires lines != []
  {
    if |lines| == 1 then lines[0] else lines[0] + CRLF + Joined(lines[1..])
  }

  lemma NoBlankYet(line: string, rest: string)
    requires OnOneLine(line) && rest != [] && rest[0] != '\r'
    ensures Find(line + CRLF + rest, CRLF + CRLF) ==
            match Find(rest, CRLF + CRLF) case Some(i) => Some(|line| + 2 + i) case None => None
  {
    assert line + CRLF + rest == line + (CRLF + rest);
    NoBreakInside(line, CRLF + rest, CRLF + CRLF);
    PastLineEnd(rest);
  }

  lemma PastLineEnd(rest: string)
    requires rest != [] && rest[0] != '\r'
    ensures Find(CRLF + rest, CRLF + CRLF) ==
            match Find(rest, CRLF + CRLF) case Some(i) => Some(i + 2) case None => None
  {
    var tail, next := CRLF + rest, "\n" + rest;
    assert tail[2] == rest[0] && (CRLF + CRLF)[2] == '\r';
    FindNext(tail, CRLF + CRLF);
    assert tail[1..] == next;
    FindNext(next, CRLF + CRLF);
    assert next[1..] == rest;
  }

  lemma FindNext(s: string, pat: string)
    requires s != [] && !(pat <= s)
    ensures Find(s, pat) == match Find(s[1..], pat) case Some(i) => Some(i + 1) case None => None
  {
  }

  /** Go's cut at the first blank line takes exactly the lines. */
  lemma {:induction false} HeadOfRendered(lines: seq<string>, body: string)
    requires lines != [] && FullLines(lines)
    ensures Find(Rendered(lines, body), CRLF + CRLF) == Some(|Joined(lines)|)
    ensures |Joined(lines)| <= |Rendered(lines, body)|
    ensures Rendered(lines, body)[..|Joined(lines)|] == Joined(lines)
  {
    var line, rest := lines[0], Rendered(lines[1..], body);
    if |lines| == 1 {
      assert Rendered(lines, body) == line + (CRLF + CRLF + body);
      NoBreakInside(line, CRLF + CRLF + body, CRLF + CRLF);
    } else {
      HeadOfRendered(lines[1..], body);
      assert FullLine(lines[1]);
      assert rest[0] == lines[1][0];
      NoBlankYet(line, rest);
      assert Rendered(lines, body) == (line + CRLF) + rest;
    }
  }

  lemma SplitFirst(line: string, rest: string)
    requires OnOneLine(line)
    ensures Split(line + (CRLF + rest), CRLF) == [line] + Split(rest, CRLF)
  {
    var s := line + (CRLF + rest);
    NoBreakInside(line, CRLF + rest, CRLF);
    assert CRLF <= CRLF + rest;
    assert s[..|line|] == line;
    assert s[|line| + 2..] == rest;
  }

  lemma SplitNothing(line: string)
    requires OnOneLine(line)
    ensures Split(line, CRLF) == [line]
  {
    NoBreakInside(line, "", CRLF);
    assert line + "" == line;
  }

  lemma {:induction false} SplitOfJoined(lines: seq<string>)
    requires lines != [] && forall i :: 0 <= i < |lines| ==> OnOneLine(lines[i])
    ensures Split(Joined(lines), CRLF) == lines
  {
    if |lines| == 1 {
      SplitNothing(lines[0]);
    } else {
      SplitOfJoined(lines[1..]);
      SplitFirst(lines[0], Joined(lines[1..]));
      assert lines[0] + CRLF + Joined(lines[1..]) == lines[0] + (CRLF + Joined(lines[1..]));
      assert lines == [lines[0]] + lines[1..];
    }
  }

  // ---------------------------------------------------------------- the status line

  lemma {:induction false} TokenEnds(token: string, rest: string)
    requires forall i :: 0 <= i < |token| ==> !IsSpace(token[i])
    requires rest == [] || IsSpace(rest[0])
    ensures TokenLength(token + rest) == |token|
  {
    if token == [] {
      assert token + rest == rest;
    } else {
      assert (token + rest)[1..] == token[1..] + rest;
      TokenEnds(token[1..], rest);
    }
  }

  lemma FirstField(token: string, rest: string)
    requires token != [] && forall i :: 0 <= i < |token| ==> !IsSpace(token[i])
    requires rest == [] || IsSpace(rest[0])
    ensures Fields(token + rest) == [token] + Fields(rest)
  {
    TokenEnds(token, rest);
    assert (token + rest)[0] == token[0];
    assert (token + rest)[..|token|] == token;
    assert (token + rest)[|token|..] == rest;
  }

  lemma StatusField(resp: Response)
    requires WellFormed(resp)
    ensures |Fields(StatusLine(resp))| >= 2 && Fields(StatusLine(resp))[1] == StatusDigits(resp.status)
  {
    var version, digits := "HTTP/1." + [resp.minor], StatusDigits(resp.status);
    var tail := " " + resp.reason;
    var rest := " " + (digits + tail);
    assert StatusLine(resp) == version + rest;
    FirstField(version, rest);
    assert rest[1..] == digits + tail;
    assert Fields(rest) == Fields(digits + tail);
    FirstField(digits, tail);
  }

  lemma ThreeDigits(n: nat)
    requires n < 1000
    ensures n == 100 * (n / 100) + 10 * (n / 10 % 10) + n % 10
  {
  }

  lemma StatusDigitsValue(n: nat)
    requires n < 1000
    ensures AllDigits(StatusDigits(n)) && Decimal(StatusDigits(n)) == n
  {
    var s := StatusDigits(n);
    assert s[..2] == [s[0], s[1]] && s[..2][..1] == [s[0]] && s[..2][..1][..0] == [];
    assert Decimal(s[..2][..1]) == n / 100;
    assert Decimal(s[..2]) == 10 * (n / 100) + n / 10 % 10;
    ThreeDigits(n);
  }

  lemma {:induction false} DigitPrefixOfDigits(s: string)
    requires AllDigits(s)
    ensures DigitPrefix(s) == s
  {
    if s != [] {
      DigitPrefixOfDigits(s[1..]);
      assert s == [s[0]] + s[1..];
    }
  }

  lemma StatusAgrees(resp: Response)
    requires WellFormed(resp)
    ensures RustStatus(StatusLine(resp)) == Some(resp.status) && GoStatus(StatusLine(resp)) == resp.status
  {
    var s := StatusDigits(resp.status);
    StatusField(resp);
    StatusDigitsValue(resp.status);
    DigitPrefixOfDigits(s);
    assert IsDigit(s[0]);
  }

  // ---------------------------------------------------------------- the two parsers

  lemma ResponseLines(resp: Response)
    requires WellFormed(resp)
    ensures FullLines([StatusLine(resp)] + HeaderLines(resp.headers))
    ensures forall i :: 0 <= i < |resp.headers| ==> Trim(HeaderLines(resp.headers)[i]) != []
  {
    forall i | 0 <= i < |resp.headers|
      ensures FullLine(HeaderLine(resp.headers[i])) && Trim(HeaderLine(resp.headers[i])) != []
    {
      HeaderLineIsFull(resp.headers[i]);
    }
  }

  lemma {:induction false} TrimStartKeeps(s: string)
    requires s != [] && !IsSpace(s[0])
    ensures TrimEnd(s) != [] && TrimStart(s) == s
  {
    if IsSpace(s[|s| - 1]) {
      TrimStartKeeps(s[..|s| - 1]);
    }
  }

  lemma HeaderLineIsFull(h: Header)
    requires FieldName(h.name) && OnOneLine(h.value)
    ensures FullLine(HeaderLine(h)) && Trim(HeaderLine(h)) != []
  {
    var line := HeaderLine(h);
    forall i | 0 <= i < |line|
      ensures line[i] != '\r' && line[i] != '\n'
    {
      if i < |h.name| {
        assert !IsSpace(h.name[i]);
      }
    }
    assert line[0] == h.name[0];
    TrimStartKeeps(line);
  }

  /** The Go parser reads back the status and the headers that were rendered. */
  lemma GoReads(resp: Response)
    requires WellFormed(resp)
    ensures GoOutcome(Render(resp)) == Some(Outcome(resp.status, Read(resp.headers)))
  {
    var headers := HeaderLines(resp.headers);
    var lines := [StatusLine(resp)] + headers;
    ResponseLines(resp);
    HeadOfRendered(lines, resp.body);
    SplitOfJoined(lines);
    assert lines[1..] == headers;
    HeaderLinesRead(resp.headers);
    StatusAgrees(resp);
  }

  /** Nothing in the client's output before the response starts one. */
  predicate Quiet(preamble: string)
  {
    forall i :: 0 <= i <= |preamble| ==> !("HTTP/1." <= preamble[i..])
  }

  /** A match cannot straddle the border, since no proper suffix of the marker is a prefix of it. */
  lemma ResponseStartsAt(preamble: string, response: string)
    requires Quiet(preamble) && "HTTP/1." <= response
    ensures Find(preamble + response, "HTTP/1.") == Some(|preamble|)
  {
    var text := preamble + response;
    forall i | 0 <= i < |preamble|
      ensures !("HTTP/1." <= text[i..])
    {
      NoStraddle(preamble, response, i);
    }
    FindAfter(preamble, response, "HTTP/1.");
  }

  lemma NoStraddle(preamble: string, response: string, i: nat)
    requires Quiet(preamble) && response != [] && response[0] == 'H' && i < |preamble|
    ensures !("HTTP/1." <= (preamble + response)[i..])
  {
    var marker, tail, k := "HTTP/1.", (preamble + response)[i..], |preamble| - i;
    assert tail == preamble[i..] + response;
    if k >= 7 {
      assert tail[..7] == preamble[i..][..7];
      assert !(marker <= preamble[i..]);
    } else {
      assert tail[k] == 'H' && marker[k] != 'H';
    }
  }

  /** The Rust parser reads the same from the response behind any preamble. */
  lemma RustReads(preamble: string, resp: Response)
    requires WellFormed(resp) && Quiet(preamble)
    ensures RustOutcome(preamble + Render(resp)) == Some(Outcome(resp.status, Read(resp.headers)))
  {
    var text := Render(resp);
    assert text[..7] == "HTTP/1.";
    ResponseStartsAt(preamble, text);
    assert (preamble + text)[|preamble|..] == text;
    RustReadsLines(resp);
  }

  lemma LinesOfResponse(resp: Response)
    requires WellFormed(resp)
    ensures Lines(Render(resp)) == [StatusLine(resp)] + (HeaderLines(resp.headers) + [""] + Lines(resp.body))
  {
    var lines := [StatusLine(resp)] + HeaderLines(resp.headers);
    ResponseLines(resp);
    LinesOfRendered(lines, resp.body);
  }

  lemma HeadersBeforeBlank(resp: Response)
    requires WellFormed(resp)
    ensures var rest := HeaderLines(resp.headers) + [""] + Lines(resp.body);
            HeadersOf(rest[..UntilBlank(rest)]) == Read(resp.headers)
  {
    var headers := HeaderLines(resp.headers);
    var rest := headers + [""] + Lines(resp.body);
    ResponseLines(resp);
    UntilBlankIs(rest, |headers|);
    assert rest[..|headers|] == headers;
    HeaderLinesRead(resp.headers);
  }

  lemma RustReadsLines(resp: Response)
    requires WellFormed(resp)
    ensures var lines := Lines(Render(resp));
            && lines != [] && lines[0] == StatusLine(resp)
            && RustStatus(lines[0]) == Some(resp.status)
            && HeadersOf(lines[1..][..UntilBlank(lines[1..])]) == Read(resp.headers)
  {
    LinesOfResponse(resp);
    assert Lines(Render(resp))[1..] == HeaderLines(resp.headers) + [""] + Lines(resp.body);
    HeadersBeforeBlank(resp);
    StatusAgrees(resp);
  }

  /** On every well-formed response the two parsers agree. */
  lemma ParsersAgree(resp: Response)
    requires WellFormed(resp)
    ensures RustOutcome(Render(resp)) == GoOutcome(Render(resp))
  {
    RustReads("", resp);
    GoReads(resp);
    assert "" + Render(resp) == Render(resp);
  }
}
