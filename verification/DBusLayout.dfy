/** The D-Bus wire format byte by byte, against the marshaller of DBusWire and DBusMessage. */
module DBusLayout {
  import opened Bytes
  import opened DBusMessage
  import opened DBusRoundTrip
  import opened DBusWire

  // The message format and the marshalling table of the "Message Protocol" chapter of D-Bus
  // Specification 0.43, written with byte positions and weights. Nothing here is defined by the
  // functions it is compared with.

  // ---- Numbers -------------------------------------------------------------------------------------

  /** The number n bytes at a position are, the least or the most significant byte first. */
  function Little(s: string, at: nat, n: nat): int
    requires at + n <= |s| && n in {1, 2, 4, 8}
  {
    match n
    case 1 => s[at] as int
    case 2 => s[at] as int + 256 * s[at + 1] as int
    case 4 => s[at] as int + 256 * s[at + 1] as int + 65536 * s[at + 2] as int + 16777216 * s[at + 3] as int
    case _ =>
      s[at] as int + 256 * s[at + 1] as int + 65536 * s[at + 2] as int + 16777216 * s[at + 3] as int
      + 4294967296 * s[at + 4] as int + 1099511627776 * s[at + 5] as int
      + 281474976710656 * s[at + 6] as int + 72057594037927936 * s[at + 7] as int
  }

  function Big(s: string, at: nat, n: nat): int
    requires at + n <= |s| && n in {1, 2, 4, 8}
  {
    match n
    case 1 => s[at] as int
    case 2 => 256 * s[at] as int + s[at + 1] as int
    case 4 => 16777216 * s[at] as int + 65536 * s[at + 1] as int + 256 * s[at + 2] as int + s[at + 3] as int
    case _ =>
      72057594037927936 * s[at] as int + 281474976710656 * s[at + 1] as int
      + 1099511627776 * s[at + 2] as int + 4294967296 * s[at + 3] as int
      + 16777216 * s[at + 4] as int + 65536 * s[at + 5] as int + 256 * s[at + 6] as int + s[at + 7] as int
  }

  function Weighed(big: bool, s: string, at: nat, n: nat): int
    requires at + n <= |s| && n in {1, 2, 4, 8}
  {
    if big then Big(s, at, n) else Little(s, at, n)
  }

  /** The next multiple of n. */
  function Up(off: nat, n: nat): nat
    requires n > 0
  {
    if off % n == 0 then off else off - off % n + n
  }

  lemma LowFirst(p: string)
    requires p != ""
    ensures Number(false, p) == p[0] as int + 256 * Number(false, p[1..])
  {
  }

  lemma HighFirst(p: string)
    requires p != ""
    ensures Number(true, p) == 256 * Number(true, p[..|p| - 1]) + p[|p| - 1] as int
  {
  }

  lemma FourBytes(p: string)
    requires |p| == 4
    ensures Number(false, p) == p[0] as int + 256 * p[1] as int + 65536 * p[2] as int + 16777216 * p[3] as int
    ensures Number(true, p) == 16777216 * p[0] as int + 65536 * p[1] as int + 256 * p[2] as int + p[3] as int
  {
    TwoBytes(p[2..]);
    TwoBytes(p[..2]);
    assert p[1..][1..] == p[2..] && p[..3][..2] == p[..2];
  }

  lemma TwoBytes(p: string)
    requires |p| == 2
    ensures Number(false, p) == p[0] as int + 256 * p[1] as int
    ensures Number(true, p) == 256 * p[0] as int + p[1] as int
  {
    assert Number(false, p[1..]) == p[1] as int && Number(true, p[..1]) == p[0] as int;
  }

  lemma EightBytes(p: string)
    requires |p| == 8
    ensures Number(false, p) == Number(false, p[..4]) + 4294967296 * Number(false, p[4..])
    ensures Number(true, p) == 4294967296 * Number(true, p[..4]) + Number(true, p[4..])
  {
    FourBytes(p[..4]);
    FourBytes(p[4..]);
    hide Number;
    LowFirst(p);
    LowFirst(p[1..]);
    LowFirst(p[2..]);
    LowFirst(p[3..]);
    assert p[1..][1..] == p[2..] && p[2..][1..] == p[3..] && p[3..][1..] == p[4..];
    HighFirst(p);
    HighFirst(p[..7]);
    HighFirst(p[..6]);
    HighFirst(p[..5]);
    assert p[..7][..6] == p[..6] && p[..6][..5] == p[..5] && p[..5][..4] == p[..4];
  }

  lemma NumberIs(b: string, at: nat, n: nat)
    requires at + n <= |b| && n in {1, 2, 4, 8}
    ensures Number(false, b[at..at + n]) == Little(b, at, n)
    ensures Number(true, b[at..at + n]) == Big(b, at, n)
  {
    var p := b[at..at + n];
    if n == 1 {
      assert p[1..] == [] && p[..0] == [];
    } else if n == 2 {
      TwoBytes(p);
    } else if n == 4 {
      FourBytes(p);
    } else {
      FourBytes(p[..4]);
      FourBytes(p[4..]);
      hide Number;
      EightBytes(p);
    }
  }

  // ---- Values ----------------------------------------------------------------------------------------

  /** The fixed types and their sizes, which are their alignments too. */
  function Size(c: char): nat {
    match c
    case 'y' => 1
    case 'n' => 2
    case 'q' => 2
    case 'b' => 4
    case 'i' => 4
    case 'u' => 4
    case 'h' => 4
    case 'x' => 8
    case 't' => 8
    case 'd' => 8
    case _ => 0
  }

  lemma {:induction false} AlignedUp(b: string, off: nat, n: nat)
    requires off <= |b| && n in {1, 2, 4, 8}
    ensures off <= Up(off, n) < off + n
    ensures Aligned(b, off, n) == if Up(off, n) <= |b| then Good(Up(off, n), Up(off, n)) else Bad(Refused)
    decreases |b| - off
  {
    UpIs(off, n);
    if off % n != 0 && off < |b| { AlignedUp(b, off + 1, n); }
  }

  lemma UpIs(off: nat, n: nat)
    requires n in {1, 2, 4, 8}
    ensures off <= Up(off, n) < off + n && (off % n == 0 <==> Up(off, n) == off)
    ensures off % n != 0 ==> Up(off + 1, n) == Up(off, n)
  {
    if n == 2 { NextByTwo(off); } else if n == 4 { NextByFour(off); } else if n == 8 { NextByEight(off); }
  }

  lemma NextByTwo(off: nat)
    ensures off % 2 == 1 ==> (off + 1) % 2 == 0
  {
  }

  lemma NextByFour(off: nat)
    ensures (off + 1) % 4 == if off % 4 == 3 then 0 else off % 4 + 1
  {
  }

  lemma NextByEight(off: nat)
    ensures (off + 1) % 8 == if off % 8 == 7 then 0 else off % 8 + 1
  {
  }

  lemma FixedIs(big: bool, b: string, off: nat, n: nat)
    requires off <= |b| && n in {1, 2, 4, 8}
    ensures var at := Up(off, n);
      FixedAt(big, b, off, n) == if at + n > |b| then Bad(Refused) else Good(Weighed(big, b, at, n), at + n)
  {
    hide Number, Aligned, Up, Little, Big;
    AlignedUp(b, off, n);
    var at := Up(off, n);
    if at + n <= |b| { NumberIs(b, at, n); }
  }

  /** A fixed type, wherever it stands: it starts at the next multiple of its size, its bytes weigh
      as the order says, and a boolean is true when any of them is not zero. */
  lemma FixedOnTheWire(big: bool, b: string, off: nat, c: char, depth: nat)
    requires off <= |b| && depth <= 64 && Size(c) > 0
    ensures var at, n := Up(off, Size(c)), Size(c);
      Value(big, b, off, [c], depth) ==
        if at + n > |b| then Bad(Refused)
        else
          var x := Weighed(big, b, at, n);
          Good(Fixed(c, if c == 'b' then (if x == 0 then 0 else 1) else x), at + n)
  {
    hide FixedAt, Up, Little, Big;
    assert Width(c) == Size(c);
    FixedIs(big, b, off, Size(c));
  }

  /** A string or a path: its length in four bytes, that many bytes, and one more. A signature has its
      length in one byte. */
  lemma TextOnTheWire(big: bool, b: string, off: nat, c: char, depth: nat)
    requires off <= |b| && depth <= 64 && c in "sog"
    ensures var w := if c == 'g' then 1 else 4; var at := Up(off, w);
      Value(big, b, off, [c], depth) ==
        if at + w > |b| then Bad(Refused)
        else
          var n := Weighed(big, b, at, w);
          if n < 0 || at + w + n + 1 > |b| then Bad(Refused)
          else
            var text := b[at + w..at + w + n];
            Good(if c == 'g' then Sig(text) else Str(text), at + w + n + 1)
  {
    hide FixedAt, Up, Little, Big;
    FixedIs(big, b, off, if c == 'g' then 1 else 4);
  }

  /** No other type is known, and none is read below the sixty-fourth level. */
  lemma OtherTypes(big: bool, b: string, off: nat, sig: string, depth: nat)
    requires off <= |b| && sig != "" && depth <= 65
    ensures depth == 65 || sig[0] !in "ybnqiuhxtdsogav({" ==> Value(big, b, off, sig, depth) == Bad(Refused)
  {
    if sig[0] !in "ybnqiuhxtdsogav({" {
      assert Width(sig[0]) == 0 by { assert sig[0] !in "biuh" && sig[0] !in "xtd"; }
    }
  }

  /** Where the elements of an array begin, after its length, by the first letter of their type. */
  function Begins(c: char): nat {
    match c
    case 'n' => 2
    case 'q' => 2
    case 'b' => 4
    case 'i' => 4
    case 'u' => 4
    case 'h' => 4
    case 's' => 4
    case 'o' => 4
    case 'a' => 4
    case 'x' => 8
    case 't' => 8
    case 'd' => 8
    case '(' => 8
    case '{' => 8
    case _ => 1
  }

  /** An array: its length in four bytes, then padding that the length does not count, then elements
      one after another until that many bytes are used up. */
  lemma ArrayOnTheWire(big: bool, b: string, off: nat, element: string, depth: nat)
    requires off <= |b| && depth <= 64 && element != "" && CompleteType(element) == |element|
    ensures var at := Up(off, 4);
      Value(big, b, off, "a" + element, depth) ==
        if at + 4 > |b| then Bad(Refused)
        else
          var n, start := Weighed(big, b, at, 4), Up(at + 4, Begins(element[0]));
          if start + n > |b| then Bad(Refused)
          else if element[0] == '{' then EntriesAt(big, b, start, start + n, element, depth, map[])
          else ElementsAt(big, b, start, start + n, element, depth, [])
  {
    hide FixedAt, Aligned, EntriesAt, ElementsAt, CompleteType, Up, Little, Big, Alignment, Begins;
    var at, sig := Up(off, 4), "a" + element;
    assert sig[0] == 'a' && sig[1..] == element && sig[1..1 + |element|] == element;
    FixedIs(big, b, off, 4);
    BeginsAligned(element[0]);
    if at + 4 <= |b| { AlignedUp(b, at + 4, Begins(element[0])); }
    assert Value(big, b, off, sig, depth) == ArrayAt(big, b, off, sig, depth);
  }

  lemma BeginsAligned(c: char)
    ensures Alignment(c) == Begins(c) && Begins(c) in {1, 2, 4, 8}
  {
  }

  /** A struct or a dict entry begins at a multiple of eight, and its fields follow one another with
      what padding each needs. */
  lemma StructOnTheWire(big: bool, b: string, off: nat, sig: string, depth: nat)
    requires off <= |b| && depth <= 64 && sig != "" && sig[0] in "({" && CompleteType(sig) == |sig| >= 2
    ensures Value(big, b, off, sig, depth) ==
      if Up(off, 8) > |b| then Bad(Refused) else FieldsAt(big, b, Up(off, 8), sig[1..|sig| - 1], depth, [])
  {
    hide Aligned, FieldsAt, CompleteType;
    AlignedUp(b, off, 8);
  }

  // ---- Values as they are written ------------------------------------------------------------------------

  /** Zero bytes up to the next multiple of n, and then a word. */
  predicate OpensWith(e: string, off: nat, n: nat, word: int)
    requires n > 0
  {
    && Up(off, n) - off + 4 <= |e|
    && (forall i :: 0 <= i < Up(off, n) - off ==> e[i] as int == 0)
    && Little(e, Up(off, n) - off, 4) == word
  }

  lemma WordWeighs(v: int)
    requires 0 <= v < WORDS
    ensures Little(WordBytes(false, v), 0, 4) == v && Big(WordBytes(true, v), 0, 4) == v
  {
    hide Number, WordBytes;
    forall big ensures (if big then Big(WordBytes(big, v), 0, 4) else Little(WordBytes(big, v), 0, 4)) == v {
      WordBytesRead(big, v);
      FourBytes(WordBytes(big, v));
    }
  }

  lemma PadReaches(off: nat, n: nat)
    requires n == 4 || n == 8
    ensures off + |Pad(off, n)| == Up(off, n) && forall i :: 0 <= i < |Pad(off, n)| ==> Pad(off, n)[i] as int == 0
  {
    hide Zeros;
    UpIs(off, n);
  }

  lemma WordWritten(off: nat, v: int, more: string)
    requires 0 <= v < 0x1_0000_0000
    ensures OpensWith(WordText(false, off, v) + more, off, 4, v) && |WordText(false, off, v)| == Up(off, 4) - off + 4
  {
    var pad, w := Pad(off, 4), WordBytes(false, v);
    PadReaches(off, 4);
    WordWeighs(v);
    hide Pad, WordBytes, Up;
    var e := WordText(false, off, v) + more;
    assert forall i :: 0 <= i < |pad| ==> e[i] == pad[i];
    assert forall i :: 0 <= i < 4 ==> e[|pad| + i] == w[i];
  }

  /** A written string or path: its length at a multiple of four, zero bytes before it, its bytes, and
      a zero byte. */
  lemma TextWritten(off: nat, s: string)
    requires |s| < 0x1_0000_0000
    ensures ValText(false, off, Path(s)) == ValText(false, off, Text(s))
    ensures var e := ValText(false, off, Text(s)); var at := Up(off, 4) - off + 4;
      OpensWith(e, off, 4, |s|) && |e| == at + |s| + 1 && e[at..at + |s|] == s && e[at + |s|] as int == 0
  {
    hide WordText, Up, OpensWith;
    var w, end := WordText(false, off, |s|), "\0";
    assert ValText(false, off, Text(s)) == w + s + end;
    assert w + s + end == w + (s + end);
    hide *;
    WordWritten(off, |s|, s + end);
    Between(w, s, end);
  }

  lemma Between(a: string, b: string, c: string)
    requires |c| == 1
    ensures (a + b + c)[|a|..|a| + |b|] == b && (a + b + c)[|a| + |b|] == c[0]
  {
  }

  /** A written signature: its length in one byte, its bytes, and a zero byte. */
  lemma SignatureWritten(off: nat, g: string)
    requires |g| < 256
    ensures ValText(false, off, Signature(g)) == [|g| as char] + g + [0 as char]
  {
  }

  /** A written array of strings: its length does not count itself. */
  lemma ListWritten(off: nat, ss: seq<string>)
    requires |TextsText(false, Up(off, 4) + 4, ss)| < 0x1_0000_0000
    ensures var e, body := ValText(false, off, Texts(ss)), TextsText(false, Up(off, 4) + 4, ss);
      OpensWith(e, off, 4, |body|) && e[Up(off, 4) - off + 4..] == body
  {
    PadReaches(off, 4);
    hide Pad, Up, OpensWith, WordBytes;
    var body := TextsText(false, Up(off, 4) + 4, ss);
    assert ValText(false, off, Texts(ss)) == WordText(false, off, |body|) + body;
    hide *;
    WordWritten(off, |body|, body);
  }

  /** A written map: its length counts neither itself nor what aligns the first entry, and every byte
      of that is zero. */
  lemma MapWritten(off: nat, es: seq<Entry>)
    requires |EntriesText(false, Up(Up(off, 4) + 4, 8), es)| < 0x1_0000_0000
    ensures var e, start := ValText(false, off, Dict(es)), Up(Up(off, 4) + 4, 8);
      var body := EntriesText(false, start, es);
      && OpensWith(e, off, 4, |body|) && |e| == start - off + |body| && e[start - off..] == body
      && forall i :: Up(off, 4) - off + 4 <= i < start - off ==> e[i] as int == 0
  {
    PadReaches(off, 4);
    var at, start := Up(off, 4) + 4, Up(Up(off, 4) + 4, 8);
    var gap, body := Pad(at, 8), EntriesText(false, start, es);
    PadReaches(at, 8);
    hide Pad, Up, OpensWith, WordBytes;
    var w := WordText(false, off, |body|);
    assert ValText(false, off, Dict(es)) == w + (gap + body);
    hide *;
    WordWritten(off, |body|, gap + body);
    GapBetween(w, gap, body);
  }

  lemma GapBetween(w: string, gap: string, body: string)
    requires forall i :: 0 <= i < |gap| ==> gap[i] as int == 0
    ensures var e := w + (gap + body);
      e[|w| + |gap|..] == body && forall i :: |w| <= i < |w| + |gap| ==> e[i] as int == 0
  {
  }

  // ---- Types -------------------------------------------------------------------------------------------

  /** A complete type: one letter, an array of a type, or types between brackets. */
  datatype Type = Basic(c: char) | Array(of: Type) | Round(ts: seq<Type>) | Curly(ts: seq<Type>)

  function Spelt(t: Type): string
    decreases t, 0
  {
    match t
    case Basic(c) => [c]
    case Array(of) => "a" + Spelt(of)
    case Round(ts) => "(" + AllSpelt(ts) + ")"
    case Curly(ts) => "{" + AllSpelt(ts) + "}"
  }

  function AllSpelt(ts: seq<Type>): string
    decreases ts, 0
  {
    if ts == [] then "" else Spelt(ts[0]) + AllSpelt(ts[1..])
  }

  predicate Letters(t: Type)
    decreases t, 0
  {
    match t
    case Basic(c) => c !in "a({)}"
    case Array(of) => Letters(of)
    case Round(ts) => AllLetters(ts)
    case Curly(ts) => AllLetters(ts)
  }

  predicate AllLetters(ts: seq<Type>)
    decreases ts, 0
  {
    ts == [] || (Letters(ts[0]) && AllLetters(ts[1..]))
  }

  /** The first complete type of a signature is found where it ends, whatever follows. */
  lemma {:induction false} TypeEnds(t: Type, rest: string)
    requires Letters(t)
    ensures Spelt(t) != "" && CompleteType(Spelt(t) + rest) == |Spelt(t)|
    ensures Spelt(t)[0] !in ")}"
    decreases t, 0
  {
    hide Closed, AllSpelt;
    var s := Spelt(t) + rest;
    match t
    case Basic(c) =>
    case Array(of) =>
      TypeEnds(of, rest);
      assert s[1..] == Spelt(of) + rest;
    case Round(ts) =>
      assert s == "(" + AllSpelt(ts) + (")" + rest);
      TypesEnd(s, 1, ts, ')', rest);
    case Curly(ts) =>
      assert s == "{" + AllSpelt(ts) + ("}" + rest);
      TypesEnd(s, 1, ts, '}', rest);
  }

  lemma {:induction false} TypesEnd(s: string, i: nat, ts: seq<Type>, closer: char, rest: string)
    requires AllLetters(ts) && 0 < i <= |s| && closer in ")}" && s[i..] == AllSpelt(ts) + ([closer] + rest)
    ensures Closed(s, i, closer) == i + |AllSpelt(ts)| + 1
    decreases ts, 0
  {
    hide CompleteType, Spelt;
    if ts == [] {
      assert s[i] == s[i..][0] == closer;
    } else {
      var first, more := Spelt(ts[0]), AllSpelt(ts[1..]) + ([closer] + rest);
      assert s[i..] == first + more;
      TypeEnds(ts[0], more);
      assert s[i] == s[i..][0] == first[0];
      assert s[i + |first|..] == s[i..][|first|..] == more;
      TypesEnd(s, i + |first|, ts[1..], closer, rest);
    }
  }

  // ---- Messages ----------------------------------------------------------------------------------------

  /** The sixteen fixed bytes of a message the encoder sends: the letter of its byte order, the kind,
      no flags, version one, and the length of the body, the serial and the length of the fields, each
      least significant byte first. The body begins at the next multiple of eight after the fields,
      zero bytes before it, and ends the message. */
  predicate LaysOut(e: string, kind: int, serial: int, body: string) {
    && |e| >= 16 && e[0] == 'l' && e[1] as int == kind && e[2] as int == 0 && e[3] as int == 1
    && Little(e, 4, 4) == |body| && Little(e, 8, 4) == serial
    && var fields := 16 + Little(e, 12, 4);
    && |e| == Up(fields, 8) + |body| && e[Up(fields, 8)..] == body
    && forall i :: fields <= i < Up(fields, 8) ==> e[i] as int == 0
  }

  lemma MessageOnTheWire(m: Message)
    requires 0 <= m.kind < 256 && 0 <= m.serial < 0x1_0000_0000 && |Encode(false, m)| < 0x1_0000_0000
    ensures LaysOut(Encode(false, m), m.kind, m.serial, BodyText(false, 0, m.body))
  {
    HeaderCodes(m);
    EncodeParts(m);
    var body, fields := BodyText(false, 0, m.body), CodedTexts(false, 16, HeaderFields(m));
    var pad := Pad(16 + |fields|, 8);
    var head := Head(false, m.kind, |body|, m.serial, |fields|);
    hide *;
    PadReaches(16 + |fields|, 8);
    LaidOut(Encode(false, m), head, fields, pad, body);
    HeadBytes(m.kind, |body|, m.serial, |fields|);
    SameNumbers(Encode(false, m), head);
    PutTogether(Encode(false, m), head, m.kind, m.serial, |fields|, |pad|, body);
  }

  lemma PutTogether(e: string, head: string, kind: int, serial: int, fields: nat, pad: nat, body: string)
    requires |head| == 16 && |e| == 16 + fields + pad + |body| && 16 + fields + pad == Up(16 + fields, 8)
    requires forall i :: 0 <= i < 16 ==> e[i] == head[i]
    requires forall i :: 16 + fields <= i < 16 + fields + pad ==> e[i] as int == 0
    requires e[16 + fields + pad..] == body
    requires Little(e, 4, 4) == |body| && Little(e, 8, 4) == serial && Little(e, 12, 4) == fields
    requires head[0] == 'l' && head[1] as int == kind && head[2] as int == 0 && head[3] as int == 1
    ensures LaysOut(e, kind, serial, body)
  {
  }

  lemma LaidOut(e: string, head: string, fields: string, pad: string, body: string)
    requires e == head + fields + pad + body && |head| == 16
    ensures |e| == 16 + |fields| + |pad| + |body| && e[..16] == head
    ensures forall i :: 16 + |fields| <= i < 16 + |fields| + |pad| ==> e[i] == pad[i - 16 - |fields|]
    ensures e[16 + |fields| + |pad|..] == body
  {
  }

  lemma SameNumbers(e: string, head: string)
    requires |head| == 16 <= |e| && e[..16] == head
    ensures forall i :: 0 <= i < 16 ==> e[i] == head[i]
    ensures Little(e, 4, 4) == Little(head, 4, 4) && Little(e, 8, 4) == Little(head, 8, 4)
    ensures Little(e, 12, 4) == Little(head, 12, 4)
  {
    assert forall i :: 0 <= i < 16 ==> e[i] == e[..16][i];
  }

  lemma EncodeParts(m: Message)
    requires 0 <= m.kind < 256 && Codes(HeaderFields(m))
    ensures var body, fields := BodyText(false, 0, m.body), CodedTexts(false, 16, HeaderFields(m));
      Encode(false, m) == Head(false, m.kind, |body|, m.serial, |fields|) + fields + Pad(16 + |fields|, 8) + body
  {
  }

  lemma HeadBytes(kind: int, body: int, serial: int, fields: int)
    requires 0 <= kind < 256 && 0 <= body < WORDS && 0 <= serial < WORDS && 0 <= fields < WORDS
    ensures var h := Head(false, kind, body, serial, fields);
      && h[0] == 'l' && h[1] as int == kind && h[2] as int == 0 && h[3] as int == 1
      && Little(h, 4, 4) == body && Little(h, 8, 4) == serial && Little(h, 12, 4) == fields
  {
    WordWeighs(body);
    WordWeighs(serial);
    WordWeighs(fields);
    var a, b, c := WordBytes(false, body), WordBytes(false, serial), WordBytes(false, fields);
    hide WordBytes;
    var h := Head(false, kind, body, serial, fields);
    assert forall i :: 0 <= i < 4 ==> h[4 + i] == a[i] && h[8 + i] == b[i] && h[12 + i] == c[i];
  }

  /** The word at a position of a stream, in the order its first byte names. */
  function WordIn(stream: string, at: nat): int
    requires at + 4 <= |stream|
  {
    Weighed(stream[0] == 'B', stream, at, 4)
  }

  /** A stream without sixteen bytes, or without a byte order, is no message. */
  lemma NoOrder(show: Decoded -> string, stream: string)
    requires |stream| < 16 || stream[0] !in "lB"
    ensures Read(show, stream) == Bad(Refused)
  {
    hide Value, BodyAt, Number, PlacedAll;
  }

  /** How any other stream is taken: not with a length beyond 2^24, and what is accepted takes it up
      to the end of its body, with the kind and serial it states. */
  lemma StreamIsTaken(show: Decoded -> string, stream: string)
    requires |stream| >= 16 && stream[0] in "lB"
    ensures var fields, body := WordIn(stream, 12), WordIn(stream, 4);
      fields >= 0 && body >= 0
    ensures var fields, body := WordIn(stream, 12), WordIn(stream, 4);
      var total := Up(16 + fields, 8) + body;
      fields > 16777216 || body > 16777216 || total > 16777216 || total > |stream| ==> Read(show, stream) == Bad(Refused)
    ensures Read(show, stream).Good? ==>
      && Read(show, stream).off == Up(16 + WordIn(stream, 12), 8) + WordIn(stream, 4)
      && Read(show, stream).value.serial == WordIn(stream, 8) && Read(show, stream).value.kind == stream[1] as int
  {
    hide *;
    WordWeighed(stream, 4);
    WordWeighed(stream, 8);
    WordWeighed(stream, 12);
    MarkIs();
    UpRounds(16 + WordIn(stream, 12));
    ReadParts(show, stream, stream[0] == 'B', WordIn(stream, 12), WordIn(stream, 4), WordIn(stream, 8));
  }

  lemma WordWeighed(stream: string, at: nat)
    requires at + 4 <= |stream| && stream[0] in "lB"
    ensures WordIn(stream, at) == Number(stream[0] == 'B', stream[at..at + 4])
  {
    NumberIs(stream, at, 4);
  }

  lemma UpRounds(off: nat)
    ensures Up(off, 8) == off + (8 - off % 8) % 8
  {
  }

  lemma MarkIs()
    ensures Mark(true) == 'B' && Mark(false) == 'l'
  {
  }

  lemma ReadParts(show: Decoded -> string, stream: string, big: bool, fields: nat, body: nat, serial: nat)
    requires |stream| >= 16 && stream[0] == Mark(big)
    requires Number(big, stream[4..8]) == body && Number(big, stream[8..12]) == serial && Number(big, stream[12..16]) == fields
    ensures var total := 16 + fields + (8 - (16 + fields) % 8) % 8 + body;
      && (fields > 16777216 || body > 16777216 || total > 16777216 || total > |stream| ==> Read(show, stream) == Bad(Refused))
      && (Read(show, stream).Good? ==>
            && Read(show, stream).off == total && Read(show, stream).value.serial == serial
            && Read(show, stream).value.kind == stream[1] as int)
  {
    hide Value, BodyAt, Number, PlacedAll;
    var blank := Blank(stream[1] as int, serial);
    if Read(show, stream).Good? {
      var fs := Value(big, stream[..16 + fields], 12, "a(yv)", 0).value;
      PlacedKeeps(show, blank, fs.xs);
    }
  }

  lemma {:induction false} PlacedKeeps(show: Decoded -> string, m: Received, xs: seq<Decoded>)
    ensures PlacedAll(show, m, xs).kind == m.kind && PlacedAll(show, m, xs).serial == m.serial
    decreases |xs|
  {
    if xs != [] {
      var x := xs[0];
      var next := if x.Struct? && |x.fs| == 2 && x.fs[0].Fixed? && x.fs[1].Var? then Placed(show, m, x.fs[0].raw, x.fs[1].v) else m;
      PlacedKeeps(show, next, xs[1..]);
    }
  }

  /** The header fields by their codes, each there exactly when it says something. */
  lemma FieldsByCode(m: Message, code: int, v: Val)
    ensures Coded(code, v) in HeaderFields(m) <==>
      || (code == 1 && v == Path(m.path) && m.path != "")
      || (code == 2 && v == Text(m.iface) && m.iface != "")
      || (code == 3 && v == Text(m.member) && m.member != "")
      || (code == 4 && v == Text(m.errorName) && m.errorName != "")
      || (code == 5 && v == Word(m.replySerial) && m.replySerial != 0)
      || (code == 6 && v == Text(m.destination) && m.destination != "")
      || (code == 7 && v == Text(m.sender) && m.sender != "")
      || (code == 8 && v == Signature(BodySignature(m.body)) && m.body != [])
  {
    hide BodySignature, Present;
    var slots := Slots(m);
    PresentExactly(slots, Coded(code, v));
    SignedExactly(m.body);
    assert |slots| == 8 && forall i :: 0 <= i < 8 ==> slots[i].field.code == i + 1;
    if 1 <= code <= 8 { assert slots[code - 1].field.code == code; }
  }

  /** A written header field: zero bytes up to a multiple of eight, its code, its type, its value. */
  lemma FieldWritten(off: nat, f: Coded)
    requires 0 <= f.code < 256 && (f.v.Path? || f.v.Text? || f.v.Word? || f.v.Signature?)
    ensures var e, at := CodedText(false, off, f), Up(off, 8) - off;
      var letter := match f.v case Path(_) => 'o' case Text(_) => 's' case Word(_) => 'u' case _ => 'g';
      && |e| >= at + 4 && (forall i :: 0 <= i < at ==> e[i] as int == 0)
      && e[at] as int == f.code && e[at + 1..at + 4] == [1 as char, letter, 0 as char]
      && e[at + 4..] == ValText(false, off + at + 4, f.v)
  {
    var pad, sig := Pad(off, 8), SigText(SignatureOf(f.v));
    PadReaches(off, 8);
    var v := ValText(false, off + |pad| + 1 + |sig|, f.v);
    assert sig == [1 as char, SignatureOf(f.v)[0], 0 as char];
    hide Pad, Up, ValText, SigText;
    assert CodedText(false, off, f) == pad + ([f.code as char] + (sig + v));
    FieldParts(pad, f.code as char, sig, v);
  }

  lemma FieldParts(pad: string, code: char, sig: string, v: string)
    requires |sig| == 3
    ensures var e, at := pad + ([code] + (sig + v)), |pad|;
      (forall i :: 0 <= i < at ==> e[i] == pad[i]) && e[at] == code && e[at + 1..at + 4] == sig && e[at + 4..] == v
  {
  }

  lemma {:induction false} PresentExactly(slots: seq<Slot>, f: Coded)
    ensures f in Present(slots) <==> exists i :: 0 <= i < |slots| && slots[i] == Slot(true, f)
  {
    if slots != [] {
      PresentExactly(slots[1..], f);
      assert forall i :: 1 <= i < |slots| ==> slots[i] == slots[1..][i - 1];
      if slots[0] != Slot(true, f) && exists i :: 0 <= i < |slots| && slots[i] == Slot(true, f) {
        var i :| 0 <= i < |slots| && slots[i] == Slot(true, f);
        assert slots[1..][i - 1] == Slot(true, f);
      }
    }
  }

  lemma SignedExactly(vs: seq<Val>)
    ensures BodySignature(vs) == "" <==> vs == []
  {
  }
}
