/** Base16 as the validator (crates/cavp-validate/src/lib.rs) and the browser (apps/web/src/lib/mldsa.ts)
    use it. */
module Hex {
  import opened Wrappers
  import opened Text

  type Byte = b: nat | b < 256

  function HexValue(c: char): (v: Option<nat>)
    ensures v.Some? ==> v.value < 16
  {
    if '0' <= c <= '9' then Some(c as int - '0' as int)
    else if 'a' <= c <= 'f' then Some(c as int - 'a' as int + 10)
    else if 'A' <= c <= 'F' then Some(c as int - 'A' as int + 10)
    else None
  }

  /** Sixteen digits, the letters in either case. */
  lemma HexDigit(c: char, v: nat)
    requires v < 16
    ensures HexValue(c) == Some(v) <==> c == "0123456789abcdef"[v] || c == "0123456789ABCDEF"[v]
  {
  }

  /** `hex::decode`: two digits a byte, either case, nothing else. */
  function Decode(s: string): (r: Option<seq<Byte>>)
  {
    if s == [] then Some([])
    else if |s| == 1 then None
    else
      match (HexValue(s[0]), HexValue(s[1]), Decode(s[2..]))
      case (Some(hi), Some(lo), Some(rest)) => Some([16 * hi + lo] + rest)
      case _ => None
  }

  lemma {:induction false} DecodeLength(s: string)
    ensures Decode(s).Some? ==> |s| == 2 * |Decode(s).value|
  {
    if |s| >= 2 {
      DecodeLength(s[2..]);
    }
  }

  predicate AllHex(s: string)
  {
    forall i :: 0 <= i < |s| ==> HexValue(s[i]).Some?
  }

  lemma AllHexSplit(s: string)
    requires |s| >= 2
    ensures AllHex(s) <==> HexValue(s[0]).Some? && HexValue(s[1]).Some? && AllHex(s[2..])
  {
    forall i | 2 <= i < |s|
      ensures s[2..][i - 2] == s[i]
    {
    }
    if HexValue(s[0]).Some? && HexValue(s[1]).Some? && AllHex(s[2..]) {
      forall i | 0 <= i < |s|
        ensures HexValue(s[i]).Some?
      {
        if i >= 2 { assert HexValue(s[2..][i - 2]).Some?; }
      }
    }
    if AllHex(s) {
      forall i | 0 <= i < |s[2..]|
        ensures HexValue(s[2..][i]).Some?
      {
        assert s[2..][i] == s[i + 2];
      }
    }
  }

  /** Text decodes exactly when it is all digits and of even length. */
  lemma {:induction false} DecodesIffAllHex(s: string)
    ensures Decode(s).Some? <==> AllHex(s) && |s| % 2 == 0
  {
    if |s| >= 2 {
      DecodesIffAllHex(s[2..]);
      AllHexSplit(s);
    }
  }

  lemma SameDigit(c: char, d: char)
    requires HexValue(c).Some?
    ensures HexValue(d) == HexValue(c) <==> LowerChar(d) == LowerChar(c)
  {
  }

  /** Comparing hex ignoring case is comparing bytes. */
  lemma {:induction false} EqIgnoreCaseIsSameBytes(a: string, b: string)
    requires Decode(a).Some?
    ensures EqIgnoreCase(a, b) <==> Decode(b) == Decode(a)
  {
    DecodeLength(a);
    DecodeLength(b);
    if |a| >= 2 && |b| >= 2 {
      EqIgnoreCaseIsSameBytes(a[2..], b[2..]);
      SameDigit(a[0], b[0]);
      SameDigit(a[1], b[1]);
      LowerSplit(a);
      LowerSplit(b);
      if Decode(b) == Decode(a) {
        SameByte(a, b);
      }
    } else if |a| == 0 {
      assert EqIgnoreCase(a, b) <==> b == [];
    } else {
      assert |a| != |b|;
    }
  }

  lemma LowerSplit(s: string)
    requires |s| >= 2
    ensures Lower(s) == [LowerChar(s[0]), LowerChar(s[1])] + Lower(s[2..])
  {
  }

  lemma Nibbles(hi: nat, lo: nat, hi': nat, lo': nat)
    requires lo < 16 && lo' < 16 && 16 * hi + lo == 16 * hi' + lo'
    ensures hi == hi' && lo == lo'
  {
  }

  lemma SameByte(a: string, b: string)
    requires |a| >= 2 && |b| >= 2 && Decode(a).Some? && Decode(b) == Decode(a)
    ensures HexValue(a[0]) == HexValue(b[0]) && HexValue(a[1]) == HexValue(b[1]) && Decode(a[2..]) == Decode(b[2..])
  {
    var x, y := Decode(a).value, Decode(b).value;
    assert x[0] == 16 * HexValue(a[0]).value + HexValue(a[1]).value;
    assert y[0] == 16 * HexValue(b[0]).value + HexValue(b[1]).value;
    Nibbles(HexValue(a[0]).value, HexValue(a[1]).value, HexValue(b[0]).value, HexValue(b[1]).value);
    assert x[1..] == Decode(a[2..]).value;
    assert y[1..] == Decode(b[2..]).value;
  }

  // ---------------------------------------------------------------- the browser's codec

  function LowerDigit(v: nat): (c: char)
    requires v < 16
  {
    if v < 10 then ('0' as int + v) as char else ('a' as int + v - 10) as char
  }

  /** `byte.toString(16)`: no leading zero. */
  function ToString16(b: Byte): (s: string)
    ensures 1 <= |s| <= 2
  {
    if b < 16 then [LowerDigit(b)] else [LowerDigit(b / 16), LowerDigit(b % 16)]
  }

  function PadStart2(s: string): (r: string)
    requires |s| <= 2
    ensures |r| == 2
  {
    if |s| == 2 then s else if |s| == 1 then "0" + s else "00"
  }

  function UpperChar(c: char): (r: char)
  {
    if 'a' <= c <= 'z' then (c as int - 32) as char else c
  }

  function Upper(s: string): (r: string)
    ensures |r| == |s|
  {
    seq(|s|, i requires 0 <= i < |s| => UpperChar(s[i]))
  }

  function JoinedHex(bytes: seq<Byte>): (s: string)
  {
    if bytes == [] then [] else PadStart2(ToString16(bytes[0])) + JoinedHex(bytes[1..])
  }

  function BytesToHex(bytes: seq<Byte>): (s: string)
  {
    Upper(JoinedHex(bytes))
  }

  /** One of the sixteen digits as RFC 4648 writes them, letters in upper case. */
  predicate IsUpperDigit(c: char)
  {
    c in "0123456789ABCDEF"
  }

  lemma UpperDigits(v: nat)
    requires v < 16
    ensures IsUpperDigit(UpperChar(LowerDigit(v))) && HexValue(UpperChar(LowerDigit(v))) == Some(v)
  {
    assert "0123456789ABCDEF"[v] == UpperChar(LowerDigit(v));
  }

  lemma ByteDigits(b: Byte)
    ensures PadStart2(ToString16(b)) == [LowerDigit(b / 16), LowerDigit(b % 16)]
  {
    assert LowerDigit(0) == '0';
  }

  function UpperPair(b: Byte): (s: string)
  {
    [UpperChar(LowerDigit(b / 16)), UpperChar(LowerDigit(b % 16))]
  }

  lemma BytesToHexSplit(bytes: seq<Byte>)
    requires bytes != []
    ensures BytesToHex(bytes) == UpperPair(bytes[0]) + BytesToHex(bytes[1..])
  {
    ByteDigits(bytes[0]);
  }

  lemma DecodePair(hi: nat, lo: nat, c: char, d: char, rest: string)
    requires HexValue(c) == Some(hi) && HexValue(d) == Some(lo) && Decode(rest).Some?
    ensures Decode([c, d] + rest) == Some([16 * hi + lo] + Decode(rest).value)
  {
    assert ([c, d] + rest)[2..] == rest;
  }

  lemma PairDigits(b: Byte) returns (c: char, d: char)
    ensures UpperPair(b) == [c, d]
    ensures HexValue(c).Some? && HexValue(d).Some? && 16 * HexValue(c).value + HexValue(d).value == b
  {
    var hi, lo := b / 16, b % 16;
    c, d := UpperChar(LowerDigit(hi)), UpperChar(LowerDigit(lo));
    UpperDigits(hi);
    UpperDigits(lo);
  }

  lemma OneByte(b: Byte, rest: string)
    requires Decode(rest).Some?
    ensures Decode(UpperPair(b) + rest) == Some([b] + Decode(rest).value)
  {
    var c, d := PairDigits(b);
    DecodePair(HexValue(c).value, HexValue(d).value, c, d, rest);
  }

  lemma {:induction false} DecodeOfBytesToHex(bytes: seq<Byte>)
    ensures Decode(BytesToHex(bytes)) == Some(bytes)
  {
    if bytes != [] {
      DecodeOfBytesToHex(bytes[1..]);
      BytesToHexSplit(bytes);
      OneByte(bytes[0], BytesToHex(bytes[1..]));
      assert bytes == [bytes[0]] + bytes[1..];
    }
  }

  /** What the browser prints is in upper case. */
  lemma {:induction false} BytesToHexIsUpper(bytes: seq<Byte>)
    ensures forall c :: c in BytesToHex(bytes) ==> IsUpperDigit(c)
  {
    if bytes != [] {
      BytesToHexIsUpper(bytes[1..]);
      BytesToHexSplit(bytes);
      UpperDigits(bytes[0] / 16);
      UpperDigits(bytes[0] % 16);
    }
  }

  /** What `trim` and `\s` mean to the browser: no U+0085, but the byte order mark. */
  predicate IsJsSpace(c: char)
  {
    (IsSpace(c) && c as int != 0x85) || c as int == 0xFEFF
  }

  function StripSpaces(s: string): (r: string)
  {
    if s == [] then []
    else if IsJsSpace(s[0]) then StripSpaces(s[1..])
    else [s[0]] + StripSpaces(s[1..])
  }

  lemma {:induction false} StripNothing(s: string)
    requires forall i :: 0 <= i < |s| ==> !IsJsSpace(s[i])
    ensures StripSpaces(s) == s
  {
    if s != [] {
      StripNothing(s[1..]);
    }
  }

  /** White space put in anywhere goes again. */
  lemma {:induction false} StripIgnoresInserted(s: string, i: nat, c: char)
    requires i <= |s| && IsJsSpace(c)
    ensures StripSpaces(s[..i] + [c] + s[i..]) == StripSpaces(s)
  {
    var t := s[..i] + [c] + s[i..];
    if i == 0 {
      assert t[1..] == s;
    } else {
      assert t[0] == s[0] && t[1..] == s[1..][..i - 1] + [c] + s[1..][i - 1..];
      StripIgnoresInserted(s[1..], i - 1, c);
    }
  }

  lemma {:induction false} StrippedHasNoSpaces(s: string)
    ensures forall i :: 0 <= i < |StripSpaces(s)| ==> !IsJsSpace(StripSpaces(s)[i])
  {
    if s != [] {
      StrippedHasNoSpaces(s[1..]);
    }
  }

  predicate AllSpaces(s: string)
  {
    forall i :: 0 <= i < |s| ==> IsJsSpace(s[i])
  }

  /** A text with white space put in before every character and at the end; any of it may be empty. */
  function Spaced(s: string, gaps: seq<string>): (r: string)
    requires |gaps| == |s| + 1
  {
    if s == [] then gaps[0] else gaps[0] + [s[0]] + Spaced(s[1..], gaps[1..])
  }

  predicate Gaps(gaps: seq<string>, s: string)
  {
    |gaps| == |s| + 1 && forall i :: 0 <= i < |gaps| ==> AllSpaces(gaps[i])
  }

  lemma {:induction false} StripLeading(gap: string, rest: string)
    requires AllSpaces(gap)
    ensures StripSpaces(gap + rest) == StripSpaces(rest)
  {
    if gap == [] {
      assert gap + rest == rest;
    } else {
      assert (gap + rest)[1..] == gap[1..] + rest;
      StripLeading(gap[1..], rest);
    }
  }

  /** Whatever white space is put in, what is left is the text without its own. */
  lemma {:induction false} StripSpaced(s: string, gaps: seq<string>)
    requires Gaps(gaps, s)
    ensures StripSpaces(Spaced(s, gaps)) == StripSpaces(s)
  {
    if s == [] {
      assert gaps[0] + "" == gaps[0];
      StripLeading(gaps[0], "");
    } else {
      var rest := [s[0]] + Spaced(s[1..], gaps[1..]);
      assert Spaced(s, gaps) == gaps[0] + rest;
      StripLeading(gaps[0], rest);
      assert rest[1..] == Spaced(s[1..], gaps[1..]);
      StripSpaced(s[1..], gaps[1..]);
    }
  }

  /** Every text is some characters with white space put in. */
  lemma {:induction false} IsSpaced(s: string) returns (gaps: seq<string>)
    ensures Gaps(gaps, StripSpaces(s)) && Spaced(StripSpaces(s), gaps) == s
  {
    if s == [] {
      gaps := [""];
    } else {
      var rest := IsSpaced(s[1..]);
      var digits := StripSpaces(s[1..]);
      if IsJsSpace(s[0]) {
        gaps := [[s[0]] + rest[0]] + rest[1..];
        SpacedByOne(digits, rest, s[0]);
      } else {
        gaps := [""] + rest;
        assert StripSpaces(s)[1..] == digits && gaps[1..] == rest;
        assert Spaced(StripSpaces(s), gaps) == "" + [s[0]] + Spaced(digits, rest);
      }
      assert [s[0]] + s[1..] == s;
    }
  }

  lemma SpacedByOne(s: string, gaps: seq<string>, c: char)
    requires Gaps(gaps, s) && IsJsSpace(c)
    ensures Gaps([[c] + gaps[0]] + gaps[1..], s)
    ensures Spaced(s, [[c] + gaps[0]] + gaps[1..]) == [c] + Spaced(s, gaps)
  {
    var wider := [[c] + gaps[0]] + gaps[1..];
    assert wider[1..] == gaps[1..];
    forall i | 0 <= i < |wider|
      ensures AllSpaces(wider[i])
    {
      assert AllSpaces(gaps[i]);
    }
  }

  lemma DigitsAreNotSpaces(s: string)
    requires AllHex(s)
    ensures forall i :: 0 <= i < |s| ==> !IsJsSpace(s[i]) && !IsSpace(s[i])
  {
    forall i | 0 <= i < |s|
      ensures !IsJsSpace(s[i]) && !IsSpace(s[i])
    {
      assert HexValue(s[i]).Some?;
    }
  }

  lemma {:induction false} DecodeAt(s: string, i: nat)
    requires Decode(s).Some? && i < |Decode(s).value|
    ensures 2 * i + 1 < |s| && HexValue(s[2 * i]).Some? && HexValue(s[2 * i + 1]).Some?
    ensures Decode(s).value[i] == 16 * HexValue(s[2 * i]).value + HexValue(s[2 * i + 1]).value
  {
    if i > 0 {
      DecodeAt(s[2..], i - 1);
    }
  }

  /** Digits with any white space among them read as the digits. */
  lemma SpacedDigits(digits: string, gaps: seq<string>)
    requires Gaps(gaps, digits) && forall i :: 0 <= i < |digits| ==> !IsJsSpace(digits[i])
    ensures StripSpaces(Spaced(digits, gaps)) == digits
  {
    StripSpaced(digits, gaps);
    StripNothing(digits);
  }

  /** `hexToBytes`: white space anywhere is dropped, then the digits fill an array byte by byte. */
  method HexToBytes(hex: string) returns (r: Option<array<Byte>>)
    ensures r.Some? <==> Decode(StripSpaces(hex)).Some?
    ensures r.Some? ==> fresh(r.value) && r.value[..] == Decode(StripSpaces(hex)).value
    ensures forall digits, gaps ::
              Gaps(gaps, digits) && (forall i :: 0 <= i < |digits| ==> !IsJsSpace(digits[i])) &&
              hex == Spaced(digits, gaps) ==>
                (r.Some? <==> AllHex(digits) && |digits| % 2 == 0) &&
                (r.Some? ==> Decode(digits) == Some(r.value[..]))
  {
    var clean := StripSpaces(hex);
    forall digits, gaps | Gaps(gaps, digits) && (forall i :: 0 <= i < |digits| ==> !IsJsSpace(digits[i])) &&
                          hex == Spaced(digits, gaps)
      ensures clean == digits
    {
      SpacedDigits(digits, gaps);
    }
    DecodesIffAllHex(clean);
    DecodeLength(clean);
    if !AllHex(clean) || |clean| % 2 != 0 {
      return None;
    }
    ghost var want := Decode(clean).value;
    var bytes := new Byte[|clean| / 2](_ => 0);
    for i := 0 to bytes.Length
      invariant forall k :: 0 <= k < i ==> bytes[k] == want[k]
    {
      DecodeAt(clean, i);
      bytes[i] := 16 * HexValue(clean[2 * i]).value + HexValue(clean[2 * i + 1]).value;
    }
    assert bytes[..] == want;
    return Some(bytes);
  }

  /** `hexToBytes` undoes `bytesToHex`, whatever white space a student puts in between. */
  lemma HexRoundTrip(bytes: seq<Byte>, gaps: seq<string>)
    requires Gaps(gaps, BytesToHex(bytes))
    ensures Decode(StripSpaces(Spaced(BytesToHex(bytes), gaps))) == Some(bytes)
    ensures Decode(StripSpaces(BytesToHex(bytes))) == Some(bytes)
  {
    var s := BytesToHex(bytes);
    DecodeOfBytesToHex(bytes);
    DecodesIffAllHex(s);
    DigitsAreNotSpaces(s);
    SpacedDigits(s, gaps);
    StripNothing(s);
  }
}
