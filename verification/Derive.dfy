/** The deterministic filler of the question-pack generator (tools/gen-cavp-vectors.mjs): hash blocks of a
    counter, laid end to end and cut to length. */
module Derive {
  import opened Hex

  /** SHA-256 as far as the loop is concerned: any function from text to 32-byte blocks. */
  ghost predicate IsHash(hash: string -> seq<Byte>)
  {
    forall text :: |hash(text)| == 32
  }

  function DecimalDigit(d: nat): (c: char)
    requires d < 10
  {
    ('0' as int + d) as char
  }

  /** A counter as a template literal prints it. */
  function Printed(n: nat): (s: string)
    ensures |s| == 1 <==> n < 10
    ensures s != [] && ':' !in s
  {
    if n < 10 then [DecimalDigit(n)] else Printed(n / 10) + [DecimalDigit(n % 10)]
  }

  function CounterText(prefix: string, counter: nat): (s: string)
  {
    prefix + ":" + Printed(counter)
  }

  /** Byte `i` of the endless filler for a label: byte `i mod 32` of hash block `i div 32`. */
  ghost function ByteAt(hash: string -> seq<Byte>, prefix: string, i: nat): (b: Byte)
    requires IsHash(hash)
  {
    hash(CounterText(prefix, i / 32))[i % 32]
  }

  /** What a call of `derive` returns. */
  ghost predicate IsDerived(out: seq<Byte>, hash: string -> seq<Byte>, prefix: string, len: nat)
    requires IsHash(hash)
  {
    |out| == len && forall i :: 0 <= i < len ==> out[i] == ByteAt(hash, prefix, i)
  }

  /** `derive`: the loop writes whole blocks at a moving offset, the last one cut at the end of the buffer. */
  method Derive(hash: string -> seq<Byte>, prefix: string, len: nat) returns (out: array<Byte>)
    requires IsHash(hash)
    ensures fresh(out) && IsDerived(out[..], hash, prefix, len)
  {
    out := new Byte[len](_ => 0);
    var offset, counter := 0, 0;
    while offset < len
      invariant offset == 32 * counter
      invariant forall i :: 0 <= i < offset && i < len ==> out[i] == ByteAt(hash, prefix, i)
    {
      var block := hash(CounterText(prefix, counter));
      forall i | 0 <= i < len && offset <= i < offset + 32
        ensures block[i - offset] == ByteAt(hash, prefix, i)
      {
        assert i / 32 == counter && i % 32 == i - offset;
      }
      forall i | offset <= i < len && i < offset + |block| {
        out[i] := block[i - offset];
      }
      counter := counter + 1;
      offset := offset + |block|;
    }
  }

  /** The first `n` blocks, end to end. */
  ghost function Blocks(hash: string -> seq<Byte>, prefix: string, n: nat): (r: seq<Byte>)
    requires IsHash(hash)
  {
    if n == 0 then [] else Blocks(hash, prefix, n - 1) + hash(CounterText(prefix, n - 1))
  }

  lemma {:induction false} BlocksAreDerived(hash: string -> seq<Byte>, prefix: string, n: nat)
    requires IsHash(hash)
    ensures IsDerived(Blocks(hash, prefix, n), hash, prefix, 32 * n)
  {
    if n > 0 {
      BlocksAreDerived(hash, prefix, n - 1);
      var init, block := Blocks(hash, prefix, n - 1), hash(CounterText(prefix, n - 1));
      forall i | 0 <= i < 32 * n
        ensures (init + block)[i] == ByteAt(hash, prefix, i)
      {
        if i >= 32 * (n - 1) {
          assert i / 32 == n - 1 && i % 32 == i - 32 * (n - 1);
        }
      }
    }
  }

  /** A derivation is the run of blocks cut to length, so a shorter one is a prefix of a longer one. */
  lemma DerivedIsPrefix(short: seq<Byte>, long: seq<Byte>, hash: string -> seq<Byte>, prefix: string, blocks: nat)
    requires IsHash(hash)
    requires IsDerived(short, hash, prefix, |short|) && IsDerived(long, hash, prefix, |long|)
    requires |short| <= |long| <= 32 * blocks
    ensures short <= long <= Blocks(hash, prefix, blocks)
  {
    BlocksAreDerived(hash, prefix, blocks);
  }

  /** What a run of decimal digits is worth, most significant first. */
  function Worth(s: string): (n: nat)
  {
    if s == [] then 0
    else 10 * Worth(s[..|s| - 1]) + if '0' <= s[|s| - 1] <= '9' then s[|s| - 1] as int - '0' as int else 0
  }

  /** A counter is printed as its decimal numeral, without leading zeros. */
  lemma {:induction false} PrintedIsDecimal(n: nat)
    ensures forall i :: 0 <= i < |Printed(n)| ==> '0' <= Printed(n)[i] <= '9'
    ensures Worth(Printed(n)) == n
    ensures Printed(n)[0] == '0' ==> Printed(n) == "0" && n == 0
  {
    var s := Printed(n);
    if n < 10 {
      assert s[..0] == [] && Worth(s[..0]) == 0;
    } else {
      PrintedIsDecimal(n / 10);
      assert s[..|s| - 1] == Printed(n / 10);
    }
  }

  /** The first block of a label hashes the label, a colon and a zero. */
  lemma DerivationBegins(out: seq<Byte>, hash: string -> seq<Byte>, prefix: string)
    requires IsHash(hash) && IsDerived(out, hash, prefix, |out|)
    ensures out <= hash(prefix + ":0") || hash(prefix + ":0") <= out
    ensures |out| > 32 ==> out[32..] <= hash(prefix + ":1") || hash(prefix + ":1") <= out[32..]
  {
    assert CounterText(prefix, 0) == prefix + ":0" && CounterText(prefix, 1) == prefix + ":1";
    forall i | 0 <= i < |out| && i < 32
      ensures out[i] == hash(prefix + ":0")[i]
    {
    }
    forall i | 32 <= i < |out| && i < 64
      ensures out[i] == hash(prefix + ":1")[i - 32]
    {
    }
  }

  lemma {:induction false} PrintedInjective(m: nat, n: nat)
    requires Printed(m) == Printed(n)
    ensures m == n
  {
    var s, t := Printed(m), Printed(n);
    assert s[|s| - 1] == DecimalDigit(m % 10) && t[|t| - 1] == DecimalDigit(n % 10);
    if m >= 10 && n >= 10 {
      assert s[..|s| - 1] == Printed(m / 10) && t[..|t| - 1] == Printed(n / 10);
      PrintedInjective(m / 10, n / 10);
    }
  }

  lemma ColonComesFirst(prefix: string, digits: string, prefix': string, digits': string)
    requires prefix + ":" + digits == prefix' + ":" + digits' && ':' !in digits
    ensures |prefix'| <= |prefix|
  {
    var text := prefix + ":" + digits;
    forall i | |prefix| < i < |text|
      ensures text[i] != ':'
    {
      assert text[i] == digits[i - |prefix| - 1];
    }
    assert text[|prefix'|] == (prefix' + ":" + digits')[|prefix'|];
  }

  /** No two blocks, of one label or of two, hash the same text. */
  lemma BlocksHashDifferentTexts(prefix: string, counter: nat, prefix': string, counter': nat)
    requires CounterText(prefix, counter) == CounterText(prefix', counter')
    ensures prefix == prefix' && counter == counter'
  {
    var text, digits, digits' := CounterText(prefix, counter), Printed(counter), Printed(counter');
    ColonComesFirst(prefix, digits, prefix', digits');
    ColonComesFirst(prefix', digits', prefix, digits);
    assert prefix == text[..|prefix|] == prefix';
    assert digits == text[|prefix| + 1..] == digits';
    PrintedInjective(counter, counter');
  }
}
