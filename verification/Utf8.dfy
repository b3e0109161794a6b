/** UTF-8 as the record codec checks and writes it (rec.go: validUTF8, appendRune). */
module Utf8 {

  // Byte strings are sequences of characters, one per byte. `Octets` is the grammar of section 4 of
  // RFC 3629, written independently of the code's arithmetic.

  predicate Between(lo: int, c: char, hi: int) { lo <= c as int <= hi }

  predicate Tail(c: char) { Between(0x80, c, 0xBF) }

  predicate One(b: string) { |b| >= 1 && Between(0x00, b[0], 0x7F) }

  predicate Two(b: string) { |b| >= 2 && Between(0xC2, b[0], 0xDF) && Tail(b[1]) }

  predicate Three(b: string) {
    && |b| >= 3
    && (|| (Between(0xE0, b[0], 0xE0) && Between(0xA0, b[1], 0xBF))
        || (Between(0xE1, b[0], 0xEC) && Tail(b[1]))
        || (Between(0xED, b[0], 0xED) && Between(0x80, b[1], 0x9F))
        || (Between(0xEE, b[0], 0xEF) && Tail(b[1])))
    && Tail(b[2])
  }

  predicate Four(b: string) {
    && |b| >= 4
    && (|| (Between(0xF0, b[0], 0xF0) && Between(0x90, b[1], 0xBF))
        || (Between(0xF1, b[0], 0xF3) && Tail(b[1]))
        || (Between(0xF4, b[0], 0xF4) && Between(0x80, b[1], 0x8F)))
    && Tail(b[2]) && Tail(b[3])
  }

  /** How many bytes of b its first character takes; zero when it does not start with one. */
  function Width(b: string): (n: nat)
    ensures n <= |b| && n <= 4
  {
    if One(b) then 1 else if Two(b) then 2 else if Three(b) then 3 else if Four(b) then 4 else 0
  }

  /** UTF8-octets. */
  predicate Octets(b: string) { b == [] || (Width(b) > 0 && Octets(b[Width(b)..])) }

  /** The bits a lead byte keeps for the code point. */
  function Lead(c: char): int {
    if c as int < 0x80 then c as int else if c as int / 32 == 0x6 then c as int % 32
    else if c as int / 16 == 0xE then c as int % 16 else c as int % 8
  }

  /** The bits of the first n bytes of a character. */
  function Bits(b: string, n: nat): int
    requires 1 <= n <= |b|
  {
    if n == 1 then Lead(b[0]) else Bits(b, n - 1) * 64 + b[n - 1] as int % 64
  }

  predicate ScalarValue(cp: int) { 0 <= cp <= 0x10FFFF && !(0xD800 <= cp <= 0xDFFF) }

  /** The smallest code point that needs n bytes. */
  function Lowest(n: nat): int { if n <= 1 then 0 else if n == 2 then 0x80 else if n == 3 then 0x800 else 0x10000 }

  /** How many bytes the lead byte's top bits announce; zero when they announce none. */
  function Announced(c: char): (n: nat)
    ensures n <= 4
  {
    if c as int < 0x80 then 1 else if c as int / 32 == 0x6 then 2
    else if c as int / 16 == 0xE then 3 else if c as int / 8 == 0x1E then 4 else 0
  }

  predicate Continued(b: string, n: nat)
    requires n <= |b|
  {
    forall k :: 1 <= k < n ==> b[k] as int / 64 == 0x2
  }

  /** The code's test of one character, on the bits and not on the byte ranges. */
  predicate Passes(b: string) {
    && b != [] && var n := Announced(b[0]);
       && 1 <= n <= |b|
       && Continued(b, n)
       && (n == 1 || (Lowest(n) <= Bits(b, n) && ScalarValue(Bits(b, n))))
  }

  lemma BitsSpelled(b: string, n: nat)
    requires 1 <= n <= |b| && n == Announced(b[0])
    ensures n == 2 ==> Bits(b, n) == (b[0] as int - 0xC0) * 64 + b[1] as int % 64
    ensures n == 3 ==> Bits(b, n) == (b[0] as int - 0xE0) * 4096 + b[1] as int % 64 * 64 + b[2] as int % 64
    ensures n == 4 ==>
      Bits(b, n) == (b[0] as int - 0xF0) * 262144 + b[1] as int % 64 * 4096 + b[2] as int % 64 * 64 + b[3] as int % 64
  {
    if n > 1 { assert Bits(b, 2) == Bits(b, 1) * 64 + b[1] as int % 64; }
    if n > 2 { assert Bits(b, 3) == Bits(b, 2) * 64 + b[2] as int % 64; }
    if n > 3 { assert Bits(b, 4) == Bits(b, 3) * 64 + b[3] as int % 64; }
  }

  /** The arithmetic test and the grammar agree on every first character. */
  lemma PassesExactly(b: string)
    ensures Passes(b) <==> Width(b) > 0
    ensures Passes(b) ==> Width(b) == Announced(b[0])
  {
    if b != [] {
      var n := Announced(b[0]);
      if 1 <= n <= |b| { BitsSpelled(b, n); }
    }
  }

  /** The length of the character at i, or zero for none: one turn of validUTF8's loop. */
  method CharacterAt(b: string, i: nat) returns (n: nat)
    requires i < |b|
    ensures n == Width(b[i..])
  {
    ghost var rest := b[i..];
    PassesExactly(rest);
    var c := b[i];
    var cp := 0;
    if c as int < 0x80 { return 1; }
    if c as int / 32 == 0x6 { n, cp := 2, c as int % 32; }
    else if c as int / 16 == 0xE { n, cp := 3, c as int % 16; }
    else if c as int / 8 == 0x1E { n, cp := 4, c as int % 8; }
    else { return 0; }
    if i + n > |b| { return 0; }
    var k := 1;
    while k < n
      invariant 1 <= k <= n && cp == Bits(rest, k)
      invariant Continued(rest, k)
    {
      if b[i + k] as int / 64 != 0x2 {
        assert !Continued(rest, n) by { assert rest[k] as int / 64 != 0x2; }
        return 0;
      }
      cp := cp * 64 + b[i + k] as int % 64;
      k := k + 1;
    }
    if cp < Lowest(n) || cp > 0x10FFFF || 0xD800 <= cp <= 0xDFFF { return 0; }
  }

  method ValidUTF8(b: string) returns (ok: bool)
    ensures ok <==> Octets(b)
  {
    var i := 0;
    while i < |b|
      invariant 0 <= i <= |b|
      invariant Octets(b) <==> Octets(b[i..])
    {
      var n := CharacterAt(b, i);
      if n == 0 { return false; }
      assert b[i..][n..] == b[i + n..];
      i := i + n;
    }
    return true;
  }

  /** The bytes of one code point. */
  function Rune(cp: int): (b: string)
    requires 0 <= cp <= 0x10FFFF
  {
    if cp < 0x80 then [cp as char]
    else if cp < 0x800 then [(0xC0 + cp / 64) as char, (0x80 + cp % 64) as char]
    else if cp < 0x10000 then
      [(0xE0 + cp / 4096) as char, (0x80 + cp / 64 % 64) as char, (0x80 + cp % 64) as char]
    else
      [(0xF0 + cp / 262144) as char, (0x80 + cp / 4096 % 64) as char, (0x80 + cp / 64 % 64) as char,
       (0x80 + cp % 64) as char]
  }

  /** Every scalar value is written as one character of the grammar and reads back as itself. */
  lemma RuneReadsBack(cp: int, rest: string)
    requires ScalarValue(cp)
    ensures Width(Rune(cp) + rest) == |Rune(cp)| && Bits(Rune(cp) + rest, |Rune(cp)|) == cp
  {
    var b := Rune(cp) + rest;
    RunePasses(cp);
    BitsPrefix(Rune(cp), rest, |Rune(cp)|);
    PassesExactly(Rune(cp));
    PassesExactly(b);
  }

  /** And the other way: each character of the grammar is the one spelling of its scalar value. */
  lemma CharacterIsRune(b: string)
    requires Width(b) > 0
    ensures ScalarValue(Bits(b, Width(b))) && Rune(Bits(b, Width(b))) == b[..Width(b)]
  {
    PassesExactly(b);
    var n := Width(b);
    hide Width, Rune;
    BitsSpelled(b, n);
    if n == 1 {
      OneByteBack(b);
    } else if n == 2 {
      TwoBytesBack(b[0], b[1]);
    } else if n == 3 {
      ThreeBytesBack(b[0], b[1], b[2]);
    } else {
      FourBytesBack(b[0], b[1], b[2], b[3]);
    }
  }

  lemma OneByteBack(b: string)
    requires b != [] && Announced(b[0]) == 1
    ensures 0 <= Bits(b, 1) < 0x80 && Rune(Bits(b, 1)) == b[..1]
  {
    assert b[..1] == [b[0]];
  }

  /** A byte that continues a character, and the six bits it carries. */
  predicate Continues(c: char) { c as int / 64 == 2 }

  lemma TwoBytesBack(a: char, b: char)
    requires a as int / 32 == 0x6 && Continues(b)
    requires 0x80 <= (a as int - 0xC0) * 64 + b as int % 64
    ensures Rune((a as int - 0xC0) * 64 + b as int % 64) == [a, b]
  {
    Regroup(0, 0, a as int - 0xC0, b as int % 64);
  }

  lemma ThreeBytesBack(a: char, b: char, c: char)
    requires a as int / 16 == 0xE && Continues(b) && Continues(c)
    requires 0x800 <= (a as int - 0xE0) * 4096 + b as int % 64 * 64 + c as int % 64
    ensures Rune((a as int - 0xE0) * 4096 + b as int % 64 * 64 + c as int % 64) == [a, b, c]
  {
    Regroup(0, a as int - 0xE0, b as int % 64, c as int % 64);
  }

  lemma FourBytesBack(a: char, b: char, c: char, d: char)
    requires a as int / 8 == 0x1E && Continues(b) && Continues(c) && Continues(d)
    requires 0x10000 <= (a as int - 0xF0) * 262144 + b as int % 64 * 4096 + c as int % 64 * 64 + d as int % 64 <= 0x10FFFF
    ensures Rune((a as int - 0xF0) * 262144 + b as int % 64 * 4096 + c as int % 64 * 64 + d as int % 64) == [a, b, c, d]
  {
    Regroup(a as int - 0xF0, b as int % 64, c as int % 64, d as int % 64);
  }

  lemma Regroup(a: int, b: int, c: int, d: int)
    requires 0 <= a && 0 <= b < 64 && 0 <= c < 64 && 0 <= d < 64
    ensures var n := a * 262144 + b * 4096 + c * 64 + d;
      n / 64 == a * 4096 + b * 64 + c && n % 64 == d && n / 4096 == a * 64 + b && n / 262144 == a
      && n / 64 % 64 == c && n / 4096 % 64 == b
  {
  }

  lemma {:induction false} BitsPrefix(a: string, rest: string, n: nat)
    requires 1 <= n <= |a|
    ensures Bits(a + rest, n) == Bits(a, n)
  {
    if n > 1 { BitsPrefix(a, rest, n - 1); }
  }

  ghost predicate Carries(b: string, cp: int) {
    Passes(b) && Announced(b[0]) == |b| && Bits(b, |b|) == cp
  }

  lemma RunePasses(cp: int)
    requires ScalarValue(cp)
    ensures Carries(Rune(cp), cp)
  {
    hide Carries, Passes, Bits;
    if cp < 0x80 { OneByte(cp); }
    else if cp < 0x800 { TwoBytes(cp); }
    else if cp < 0x10000 { ThreeBytes(cp); }
    else { FourBytes(cp); }
  }

  lemma OneByte(cp: int)
    requires 0 <= cp < 0x80
    ensures Carries([cp as char], cp)
  {
  }

  lemma TwoBytes(cp: int)
    requires 0x80 <= cp < 0x800
    ensures Carries([(0xC0 + cp / 64) as char, (0x80 + cp % 64) as char], cp)
  {
    var b := [(0xC0 + cp / 64) as char, (0x80 + cp % 64) as char];
    SixBits(cp);
    BitsSpelled(b, 2);
  }

  lemma ThreeBytes(cp: int)
    requires 0x800 <= cp < 0x10000 && ScalarValue(cp)
    ensures Carries([(0xE0 + cp / 4096) as char, (0x80 + cp / 64 % 64) as char, (0x80 + cp % 64) as char], cp)
  {
    var b := [(0xE0 + cp / 4096) as char, (0x80 + cp / 64 % 64) as char, (0x80 + cp % 64) as char];
    SixBits(cp);
    SixBits(cp / 64);
    assert cp / 64 / 64 == cp / 4096;
    BitsSpelled(b, 3);
  }

  lemma FourBytes(cp: int)
    requires 0x10000 <= cp && ScalarValue(cp)
    ensures Carries([(0xF0 + cp / 262144) as char, (0x80 + cp / 4096 % 64) as char, (0x80 + cp / 64 % 64) as char,
                     (0x80 + cp % 64) as char], cp)
  {
    var b := [(0xF0 + cp / 262144) as char, (0x80 + cp / 4096 % 64) as char, (0x80 + cp / 64 % 64) as char,
              (0x80 + cp % 64) as char];
    SixBits(cp);
    SixBits(cp / 64);
    SixBits(cp / 4096);
    assert cp / 64 / 64 == cp / 4096 && cp / 4096 / 64 == cp / 262144;
    BitsSpelled(b, 4);
  }

  lemma SixBits(n: int)
    requires 0 <= n
    ensures n == n / 64 * 64 + n % 64 && 0 <= n % 64 < 64
    ensures (0x80 + n % 64) / 64 == 2 && (0x80 + n % 64) % 64 == n % 64
  {
  }

  lemma {:induction false} AsciiOctets(b: string)
    requires forall i :: 0 <= i < |b| ==> b[i] as int < 0x80
    ensures Octets(b)
  {
    if b != [] { AsciiOctets(b[1..]); }
  }
}
