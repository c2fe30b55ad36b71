/** What the two HTTP parsers make of arbitrary text: when they answer at all, and what single lines and numbers
    read as. */
module HttpReading {
  import opened Wrappers
  import opened Text
  import opened Http

  // ---------------------------------------------------------------- searching

  ghost predicate FirstAt(s: string, pat: string, i: nat)
  {
    i <= |s| && pat <= s[i..] && forall j :: 0 <= j < i ==> !(pat <= s[j..])
  }

  /** `Find` is the first occurrence, and finds nothing only where there is none. */
  lemma {:induction false} FindIsFirst(s: string, pat: string)
    ensures Find(s, pat).None? <==> !Contains(s, pat)
    ensures Find(s, pat).Some? ==> FirstAt(s, pat, Find(s, pat).value)
  {
    assert s[0..] == s;
    if !(pat <= s) && s != [] {
      FindIsFirst(s[1..], pat);
      ShiftedContains(s, pat);
      if Find(s, pat).Some? {
        ShiftedFirst(s, pat, Find(s[1..], pat).value);
      }
    }
  }

  lemma ShiftedContains(s: string, pat: string)
    requires s != [] && !(pat <= s)
    ensures Contains(s, pat) <==> Contains(s[1..], pat)
  {
    if Contains(s, pat) {
      var i :| 0 <= i <= |s| && pat <= s[i..];
      assert i > 0 by { assert s[0..] == s; }
      assert s[1..][i - 1..] == s[i..];
    }
    if Contains(s[1..], pat) {
      var i :| 0 <= i <= |s[1..]| && pat <= s[1..][i..];
      assert s[i + 1..] == s[1..][i..];
    }
  }

  lemma ShiftedFirst(s: string, pat: string, i: nat)
    requires s != [] && !(pat <= s) && FirstAt(s[1..], pat, i)
    ensures FirstAt(s, pat, i + 1)
  {
    assert s[i + 1..] == s[1..][i..];
    forall j | 0 <= j < i + 1
      ensures !(pat <= s[j..])
    {
      if j == 0 {
        assert s[0..] == s;
      } else {
        assert s[j..] == s[1..][j - 1..];
      }
    }
  }

  // ---------------------------------------------------------------- lines

  lemma FindChar(line: string, rest: string, c: char)
    requires c !in line
    ensures Find(line, [c]) == None && Find(line + [c] + rest, [c]) == Some(|line|)
  {
    var text := line + ([c] + rest);
    assert line + [c] + rest == text;
    forall i | 0 <= i < |line|
      ensures !([c] <= text[i..])
    {
      assert text[i..][0] == line[i];
    }
    FindAfter(line, [c] + rest, [c]);
    FindIsFirst(line, [c]);
    forall i | 0 <= i <= |line|
      ensures !([c] <= line[i..])
    {
      assert i < |line| ==> line[i..][0] == line[i];
    }
  }

  /** A line ends at a line feed, with one carriage return before it dropped; the last line needs no end, and
      there is none after the last line feed. */
  lemma LineByLine(line: string, rest: string)
    requires '\n' !in line
    ensures Lines(line + "\r\n" + rest) == [line] + Lines(rest)
    ensures line == [] || line[|line| - 1] != '\r' ==> Lines(line + "\n" + rest) == [line] + Lines(rest)
    ensures Lines(line) == if line == [] then [] else [line]
  {
    var long := line + "\r";
    FindChar(long, rest, '\n');
    assert line + "\r\n" + rest == long + "\n" + rest;
    assert (long + "\n" + rest)[..|long|] == long && (long + "\n" + rest)[|long| + 1..] == rest;
    assert long[..|long| - 1] == line;
    FindChar(line, rest, '\n');
    assert (line + "\n" + rest)[..|line|] == line && (line + "\n" + rest)[|line| + 1..] == rest;
  }

  /** A header is cut at its first colon and trimmed on both sides; a line without a colon is none. */
  lemma HeaderByColon(name: string, value: string)
    requires ':' !in name
    ensures HeaderOf(name + ":" + value) == [Header(Trim(name), Trim(value))]
    ensures HeaderOf(name) == []
  {
    var line := name + ":" + value;
    FindChar(name, value, ':');
    assert line[..|name|] == name && line[|name| + 1..] == value;
  }

  // ---------------------------------------------------------------- numbers

  /** Digits, perhaps behind a plus sign. */
  predicate Numeral(s: string, digits: string)
  {
    digits != [] && AllDigits(digits) && (s == digits || s == "+" + digits)
  }

  /** Rust reads a numeral up to 65535, and nothing else. */
  lemma U16Iff(s: string, n: nat)
    ensures ParseU16(s) == Some(n) <==> exists digits :: Numeral(s, digits) && Decimal(digits) == n <= 65535
  {
    if ParseU16(s) == Some(n) {
      var digits := if s[0] == '+' then s[1..] else s;
      assert Numeral(s, digits);
    }
    forall digits | Numeral(s, digits)
      ensures ParseU16(s) == if Decimal(digits) <= 65535 then Some(Decimal(digits)) else None
    {
      NumeralDigits(s, digits);
    }
  }

  lemma NumeralDigits(s: string, digits: string)
    requires Numeral(s, digits)
    ensures digits == if s[0] == '+' then s[1..] else s
  {
    assert IsDigit(digits[0]);
  }

  lemma {:induction false} DigitPrefixStops(digits: string, rest: string)
    requires AllDigits(digits) && (rest == [] || !IsDigit(rest[0]))
    ensures DigitPrefix(digits + rest) == digits
  {
    if digits == [] {
      assert digits + rest == rest;
    } else {
      assert (digits + rest)[1..] == digits[1..] + rest;
      DigitPrefixStops(digits[1..], rest);
    }
  }

  /** Go reads the leading digits, whatever follows, with either sign; out of the 64-bit range it is left at zero. */
  lemma ScanReadsDigits(sign: string, digits: string, rest: string)
    requires sign in ["", "+", "-"] && AllDigits(digits) && (rest == [] || !IsDigit(rest[0]))
    requires digits == [] && sign == "" ==> rest == [] || rest[0] !in "+-"
    ensures var n := if sign == "-" then -(Decimal(digits) as int) else Decimal(digits);
            ScanInt(sign + digits + rest) == if -0x8000_0000_0000_0000 <= n <= 0x7FFF_FFFF_FFFF_FFFF then n else 0
  {
    var s := sign + digits + rest;
    DigitPrefixStops(digits, rest);
    if sign == "" {
      assert s == digits + rest;
      assert s != [] ==> s[0] != '+' && s[0] != '-';
    } else {
      assert s[1..] == digits + rest;
    }
  }

  /** Whatever status Rust accepts, Go reads as the same number. */
  lemma StatusesAgree(line: string)
    requires RustStatus(line).Some?
    ensures GoStatus(line) == RustStatus(line).value
  {
    var field := Fields(line)[1];
    U16Iff(field, RustStatus(line).value);
    var digits :| Numeral(field, digits) && Decimal(digits) == RustStatus(line).value;
    var sign := if field == digits then "" else "+";
    assert field == sign + digits + "";
    ScanReadsDigits(sign, digits, "");
  }

  // ---------------------------------------------------------------- when there is an answer

  /** Go answers exactly when the text begins with a version. */
  lemma GoAnswersIff(text: string)
    ensures GoOutcome(text).Some? <==> "HTTP/" <= text
  {
    var head := GoHead(text);
    FindIsFirst(text, CRLF + CRLF);
    CutKeepsVersion(text, CRLF + CRLF);
    FindIsFirst(head, CRLF);
    CutKeepsVersion(head, CRLF);
  }

  /** Cutting at a line end takes nothing from a version in front. */
  lemma CutKeepsVersion(text: string, sep: string)
    requires CRLF <= sep
    ensures var cut := match Find(text, sep) case None => text case Some(i) => text[..i];
            "HTTP/" <= cut <==> "HTTP/" <= text
  {
    FindIsFirst(text, sep);
    if Find(text, sep).Some? {
      var i := Find(text, sep).value;
      assert sep[0] == text[i..][0] == text[i];
      if "HTTP/" <= text {
        assert forall k :: 0 <= k < 5 ==> text[k] != '\r';
        assert text[..i][..5] == text[..5];
      }
    }
  }

  /** The text up to its first line feed. */
  ghost predicate FirstLineIs(text: string, line: string)
  {
    '\n' !in line && (text == line || line + "\n" <= text)
  }

  lemma FirstOfLines(text: string, line: string)
    requires text != [] && FirstLineIs(text, line)
    ensures Lines(text) != [] && Lines(text)[0] == if text == line then line else StripCr(line)
  {
    if text == line {
      FindChar(line, [], '\n');
    } else {
      var rest := text[|line| + 1..];
      assert text == line + "\n" + rest;
      FindChar(line, rest, '\n');
      assert text[..|line|] == line;
    }
  }

  /** The carriage return before a line feed is white space to `split_whitespace`. */
  lemma {:induction false} FieldsIgnoreCr(s: string)
    ensures Fields(s + "\r") == Fields(s)
    decreases |s|
  {
    var t := s + "\r";
    if s == [] {
      assert t[1..] == [];
    } else if IsSpace(s[0]) {
      assert t[1..] == s[1..] + "\r";
      FieldsIgnoreCr(s[1..]);
    } else {
      var n := TokenLength(s);
      TokenIgnoresCr(s);
      assert t[..n] == s[..n] && t[n..] == s[n..] + "\r";
      FieldsIgnoreCr(s[n..]);
    }
  }

  lemma {:induction false} TokenIgnoresCr(s: string)
    ensures TokenLength(s + "\r") == TokenLength(s)
  {
    if s != [] && !IsSpace(s[0]) {
      assert (s + "\r")[1..] == s[1..] + "\r";
      TokenIgnoresCr(s[1..]);
    }
  }

  lemma FieldsOfFirstLine(text: string, line: string)
    requires text != [] && FirstLineIs(text, line)
    ensures Lines(text) != [] && Fields(Lines(text)[0]) == Fields(line)
  {
    FirstOfLines(text, line);
    if text != line && line != [] && line[|line| - 1] == '\r' {
      assert line == StripCr(line) + "\r";
      FieldsIgnoreCr(StripCr(line));
    }
  }

  lemma StatusIsSecondField(line: string, same: string)
    requires Fields(same) == Fields(line)
    ensures RustStatus(same) == RustStatus(line)
  {
  }

  /** Rust answers exactly when the line of the first version marker has a second field that is a 16-bit number. */
  lemma RustAnswersIff(text: string, i: nat, line: string, n: nat)
    requires FirstAt(text, "HTTP/1.", i) && FirstLineIs(text[i..], line)
    ensures RustOutcome(text).Some? && RustOutcome(text).value.status == n <==>
            |Fields(line)| >= 2 && ParseU16(Fields(line)[1]) == Some(n)
  {
    FirstMatches(text, "HTTP/1.", i);
    FieldsOfFirstLine(text[i..], line);
    StatusIsSecondField(line, Lines(text[i..])[0]);
  }

  lemma FirstMatches(text: string, pat: string, i: nat)
    requires FirstAt(text, pat, i)
    ensures Find(text, pat) == Some(i)
  {
    FindIsFirst(text, pat);
    assert Contains(text, pat);
    var k := Find(text, pat).value;
    assert !(k < i) && !(i < k);
  }

  /** Without a marker Rust gives nothing. */
  lemma NoMarkerNoAnswer(text: string)
    requires !Contains(text, "HTTP/1.")
    ensures RustOutcome(text).None?
  {
    FindIsFirst(text, "HTTP/1.");
  }
}
