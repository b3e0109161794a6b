/** How the record codec writes and reads a string (go/abstraction/download/request/rec.go: escByte,
    esc, str, escape, hex4). */
module JsonString {
  import opened Bytes
  import opened JsonNumber
  import opened Utf8

  // ---- Writing ----------------------------------------------------------------------------------

  function HexDigit(n: int): char
    requires 0 <= n < 16
  {
    if n < 10 then (n + '0' as int) as char else (n - 10 + 'a' as int) as char
  }

  function EscByte(c: char): (t: string)
    ensures |t| > 0
  {
    if c == '"' then "\\\""
    else if c == '\\' then "\\\\"
    else if c as int == 0x08 then "\\b"
    else if c as int == 0x0C then "\\f"
    else if c == '\n' then "\\n"
    else if c == '\r' then "\\r"
    else if c == '\t' then "\\t"
    else if c as int < 0x20 then "\\u00" + [HexDigit(c as int / 16), HexDigit(c as int % 16)]
    else [c]
  }

  function Escaped(s: string): string { if s == [] then [] else EscByte(s[0]) + Escaped(s[1..]) }

  function Esc(s: string): string { "\"" + Escaped(s) + "\"" }

  lemma {:induction false} EscapedSnoc(s: string, c: char)
    ensures Escaped(s + [c]) == Escaped(s) + EscByte(c)
  {
    if s == [] {
      assert s + [c] == [c] && Escaped([c]) == EscByte(c) + Escaped([]);
    } else {
      assert (s + [c])[1..] == s[1..] + [c];
      EscapedSnoc(s[1..], c);
    }
  }

  lemma EscapedEmpty()
    ensures Escaped([]) == []
  {
  }

  method WriteEsc(out: string, s: string) returns (r: string)
    ensures r == out + Esc(s)
  {
    hide EscByte, Escaped;
    EscapedEmpty();
    r := out + "\"";
    for i := 0 to |s|
      invariant r == out + "\"" + Escaped(s[..i])
    {
      EscapedSnoc(s[..i], s[i]);
      assert s[..i + 1] == s[..i] + [s[i]];
      r := r + EscByte(s[i]);
    }
    assert s[..|s|] == s;
    r := r + "\"";
  }

  // ---- Reading ----------------------------------------------------------------------------------

  /** The value of a hexadecimal digit, or -1. */
  function HexFigure(c: char): (n: int)
    ensures -1 <= n < 16
  {
    if '0' <= c <= '9' then c as int - '0' as int
    else if 'a' <= c <= 'f' then c as int - 'a' as int + 10
    else if 'A' <= c <= 'F' then c as int - 'A' as int + 10
    else -1
  }

  function Hex4(buf: string, pos: nat): (r: Parsed<int>)
    requires pos <= |buf|
    ensures r.Got? ==> 0 <= r.value <= 0xFFFF && r.pos == pos + 4 <= |buf|
  {
    if pos + 4 > |buf| then Refused("bad_string", pos)
    else
      var a, b, c, d := HexFigure(buf[pos]), HexFigure(buf[pos + 1]), HexFigure(buf[pos + 2]), HexFigure(buf[pos + 3]);
      if a < 0 || b < 0 || c < 0 || d < 0 then Refused("bad_string", pos)
      else Got(((a * 16 + b) * 16 + c) * 16 + d, pos + 4)
  }

  predicate HighSurrogate(u: int) { 0xD800 <= u <= 0xDBFF }

  predicate LowSurrogate(u: int) { 0xDC00 <= u <= 0xDFFF }

  function Joined(hi: int, lo: int): int { 0x10000 + (hi - 0xD800) * 1024 + (lo - 0xDC00) }

  /** \u at pos (just past the letter): one scalar value, from one escape or a surrogate pair. */
  function UnicodeEscape(buf: string, pos: nat): (r: Parsed<string>)
    requires pos <= |buf|
    ensures r.Got? ==> pos < r.pos <= |buf|
  {
    match Hex4(buf, pos)
    case Refused(w, p) => Refused(w, p)
    case Got(u, p) =>
      if LowSurrogate(u) then Refused("bad_string", p)
      else if !HighSurrogate(u) then Got(Rune(u), p)
      else if !Stands(buf, p, "\\u") then Refused("bad_string", p)
      else
        match Hex4(buf, p + 2)
        case Refused(w, q) => Refused(w, q)
        case Got(lo, q) => if LowSurrogate(lo) then Got(Rune(Joined(u, lo)), q) else Refused("bad_string", q)
  }

  /** The bytes an escape stands for; pos is at the backslash. */
  function Escape(buf: string, pos: nat): (r: Parsed<string>)
    requires pos < |buf|
    ensures r.Got? ==> pos < r.pos <= |buf|
  {
    var p := pos + 1;
    if p >= |buf| then Refused("malformed", p)
    else
      var c := buf[p];
      if c == '"' || c == '\\' || c == '/' then Got([c], p + 1)
      else if c == 'b' then Got([8 as char], p + 1)
      else if c == 'f' then Got([12 as char], p + 1)
      else if c == 'n' then Got("\n", p + 1)
      else if c == 'r' then Got("\r", p + 1)
      else if c == 't' then Got("\t", p + 1)
      else if c == 'u' then UnicodeEscape(buf, p + 1)
      else Refused("bad_string", p + 1)
  }

  /** The rest of a string whose opening quote has been read and whose value so far is `out`. */
  function StrFrom(buf: string, pos: nat, out: string): (r: Parsed<string>)
    requires pos <= |buf|
    ensures r.Got? ==> pos < r.pos <= |buf| && Octets(r.value)
    decreases |buf| - pos
  {
    if pos >= |buf| then Refused("malformed", pos)
    else if buf[pos] == '"' then if Octets(out) then Got(out, pos + 1) else Refused("bad_string", pos + 1)
    else if buf[pos] as int < 0x20 then Refused("bad_string", pos)
    else if buf[pos] == '\\' then
      match Escape(buf, pos)
      case Refused(w, p) => Refused(w, p)
      case Got(bytes, p) => StrFrom(buf, p, out + bytes)
    else StrFrom(buf, pos + 1, out + [buf[pos]])
  }

  function Str(buf: string, pos: nat): (r: Parsed<string>)
    requires pos <= |buf|
    ensures r.Got? ==> pos < r.pos <= |buf| && Octets(r.value)
  {
    if At(buf, pos) != '"' then Refused("wrong_type", pos) else StrFrom(buf, pos + 1, [])
  }

  // ---- What is written is what is read ------------------------------------------------------------

  lemma HexRoundTrip(n: int)
    requires 0 <= n < 16
    ensures HexFigure(HexDigit(n)) == n
  {
  }

  lemma EscByteReads(buf: string, pos: nat, c: char, out: string)
    requires pos <= |buf| && Stands(buf, pos, EscByte(c))
    ensures StrFrom(buf, pos, out) == StrFrom(buf, pos + |EscByte(c)|, out + [c])
  {
    var t := EscByte(c);
    StandsAt(buf, pos, t, 0);
    if |t| > 1 { StandsAt(buf, pos, t, 1); }
    if c as int < 0x20 && |t| == 6 {
      ControlReads(buf, pos, c);
    }
  }

  lemma ControlReads(buf: string, pos: nat, c: char)
    requires pos <= |buf| && Stands(buf, pos, EscByte(c)) && c as int < 0x20 && |EscByte(c)| == 6
    ensures Escape(buf, pos) == Got([c], pos + 6)
  {
    var t := EscByte(c);
    assert t == "\\u00" + [HexDigit(c as int / 16), HexDigit(c as int % 16)];
    StandsAt(buf, pos, t, 0);
    StandsAt(buf, pos, t, 1);
    StandsAt(buf, pos, t, 2);
    StandsAt(buf, pos, t, 3);
    StandsAt(buf, pos, t, 4);
    StandsAt(buf, pos, t, 5);
    HexRoundTrip(c as int / 16);
    HexRoundTrip(c as int % 16);
    assert Hex4(buf, pos + 2) == Got(c as int, pos + 6);
  }

  lemma {:induction false} EscapedReads(buf: string, pos: nat, s: string, out: string)
    requires pos <= |buf| && Stands(buf, pos, Escaped(s))
    ensures StrFrom(buf, pos, out) == StrFrom(buf, pos + |Escaped(s)|, out + s)
    decreases |s|
  {
    hide StrFrom, EscByte, Octets;
    if s == [] {
      assert out + s == out;
    } else {
      var width := |EscByte(s[0])|;
      EscapedSplits(buf, pos, s);
      EscByteReads(buf, pos, s[0], out);
      EscapedReads(buf, pos + width, s[1..], out + [s[0]]);
      assert out + [s[0]] + s[1..] == out + s;
    }
  }

  lemma EscapedSplits(buf: string, pos: nat, s: string)
    requires s != [] && Stands(buf, pos, Escaped(s))
    ensures Stands(buf, pos, EscByte(s[0])) && Stands(buf, pos + |EscByte(s[0])|, Escaped(s[1..]))
    ensures |Escaped(s)| == |EscByte(s[0])| + |Escaped(s[1..])|
  {
    StandsSplit(buf, pos, EscByte(s[0]), Escaped(s[1..]));
  }

  /** A written string reads back as itself exactly when it is UTF-8. */
  lemma StringReadsBack(buf: string, pos: nat, s: string)
    requires pos <= |buf| && Stands(buf, pos, Esc(s))
    ensures Str(buf, pos) == if Octets(s) then Got(s, pos + |Esc(s)|) else Refused("bad_string", pos + |Esc(s)|)
  {
    hide Escape, Escaped, EscByte, Octets;
    var body := "\"" + Escaped(s);
    assert Esc(s) == body + "\"";
    StandsSplit(buf, pos, body, "\"");
    StandsSplit(buf, pos, "\"", Escaped(s));
    StandsAt(buf, pos, "\"", 0);
    StandsAt(buf, pos + |body|, "\"", 0);
    EscapedReads(buf, pos + 1, s, []);
    assert [] + s == s;
  }

  // ---- Every scalar value has an escape, and reads back from it ------------------------------------

  function HexText(u: int): string
    requires 0 <= u <= 0xFFFF
  {
    [HexDigit(u / 4096), HexDigit(u / 256 % 16), HexDigit(u / 16 % 16), HexDigit(u % 16)]
  }

  /** The escape of a scalar value: one \u, or two for those past the first plane. */
  function Spelling(cp: int): string
    requires ScalarValue(cp)
  {
    if cp < 0x10000 then "\\u" + HexText(cp)
    else "\\u" + HexText(0xD800 + (cp - 0x10000) / 1024) + "\\u" + HexText(0xDC00 + (cp - 0x10000) % 1024)
  }

  lemma HexTextReads(buf: string, pos: nat, u: int)
    requires pos <= |buf| && 0 <= u <= 0xFFFF && Stands(buf, pos, HexText(u))
    ensures Hex4(buf, pos) == Got(u, pos + 4)
  {
    var t := HexText(u);
    FourFigures(u);
    StandsAt(buf, pos, t, 0);
    StandsAt(buf, pos, t, 1);
    StandsAt(buf, pos, t, 2);
    StandsAt(buf, pos, t, 3);
  }

  lemma FourFigures(u: int)
    requires 0 <= u <= 0xFFFF
    ensures ((u / 4096 * 16 + u / 256 % 16) * 16 + u / 16 % 16) * 16 + u % 16 == u
    ensures forall i :: 0 <= i < 4 ==> HexFigure(HexText(u)[i]) == [u / 4096, u / 256 % 16, u / 16 % 16, u % 16][i]
  {
    assert u / 256 == u / 16 / 16 && u / 4096 == u / 256 / 16;
  }

  /** Both forms of escape give the one character the scalar value has, which the UTF-8 check
      accepts and which carries the same value; a surrogate alone gives nothing. */
  lemma EscapeReadsScalar(buf: string, pos: nat, cp: int)
    requires ScalarValue(cp) && pos < |buf| && Stands(buf, pos, Spelling(cp))
    ensures Escape(buf, pos) == Got(Rune(cp), pos + |Spelling(cp)|)
    ensures Octets(Rune(cp)) && Bits(Rune(cp), |Rune(cp)|) == cp
  {
    RuneReadsBack(cp, []);
    assert Rune(cp) + [] == Rune(cp) && Rune(cp)[|Rune(cp)|..] == [];
    if cp < 0x10000 {
      StandsSplit(buf, pos, "\\u", HexText(cp));
      StandsAt(buf, pos, "\\u", 0);
      StandsAt(buf, pos, "\\u", 1);
      HexTextReads(buf, pos + 2, cp);
    } else {
      PairReads(buf, pos, cp);
    }
  }

  lemma PairReads(buf: string, pos: nat, cp: int)
    requires 0x10000 <= cp <= 0x10FFFF && pos < |buf| && Stands(buf, pos, Spelling(cp))
    ensures Escape(buf, pos) == Got(Rune(cp), pos + 12) && |Spelling(cp)| == 12
  {
    var hi, lo := 0xD800 + (cp - 0x10000) / 1024, 0xDC00 + (cp - 0x10000) % 1024;
    var first, second := "\\u" + HexText(hi), "\\u" + HexText(lo);
    assert Spelling(cp) == first + second;
    StandsSplit(buf, pos, first, second);
    StandsSplit(buf, pos, "\\u", HexText(hi));
    StandsSplit(buf, pos + 6, "\\u", HexText(lo));
    StandsAt(buf, pos, "\\u", 0);
    StandsAt(buf, pos, "\\u", 1);
    HexTextReads(buf, pos + 2, hi);
    HexTextReads(buf, pos + 8, lo);
    assert Joined(hi, lo) == cp;
  }
}
