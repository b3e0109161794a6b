/** What the decoder makes of any JSON text, however it is spelled and laid out: white space anywhere,
    members in any order, strings with any escapes. A text is a tree here, `Means` says what record the
    tree stands for or why it stands for none, and the decoder says the same of the text. */
module JsonDecode {
  import opened Bytes
  import opened JsonNumber
  import opened JsonRecords
  import opened JsonString
  import opened Options
  import opened Utf8

  // ---- Strings ----------------------------------------------------------------------------------------

  /** A hexadecimal digit, in either case. */
  datatype Hexed = Hexed(v: nat, upper: bool)

  /** A part of a spelled string: a byte as it is, a short escape, a \u escape of one unit or of two, a
      \u escape that is not hexadecimal, or a first half with no second one after it. */
  datatype Piece =
    | Raw(c: char) | Short(c: char) | Unicode(u: seq<Hexed>) | Pair(hi: seq<Hexed>, lo: seq<Hexed>)
    | Garbled(s: string) | Half(hi: seq<Hexed>, c: char)

  predicate Unit(h: seq<Hexed>) { |h| == 4 && forall i :: 0 <= i < 4 ==> h[i].v < 16 }

  function DigitText(d: Hexed): char
    requires d.v < 16
  {
    if d.upper then "0123456789ABCDEF"[d.v] else "0123456789abcdef"[d.v]
  }

  function UnitText(h: seq<Hexed>): string
    requires Unit(h)
  {
    [DigitText(h[0]), DigitText(h[1]), DigitText(h[2]), DigitText(h[3])]
  }

  function Weight(h: seq<Hexed>): (u: int)
    requires Unit(h)
    ensures 0 <= u <= 0xFFFF
  {
    4096 * h[0].v + 256 * h[1].v + 16 * h[2].v + h[3].v
  }

  predicate WellSpelt(p: Piece) {
    match p
    case Raw(c) => c != '"' && c != '\\'
    case Short(c) => c != 'u'
    case Unicode(u) => Unit(u) && !(0xD800 <= Weight(u) <= 0xDBFF)
    case Pair(hi, lo) => Unit(hi) && Unit(lo) && 0xD800 <= Weight(hi) <= 0xDBFF
    case Garbled(s) => |s| == 4 && exists i :: 0 <= i < 4 && s[i] !in "0123456789abcdefABCDEF"
    case Half(hi, c) => Unit(hi) && 0xD800 <= Weight(hi) <= 0xDBFF && c != '\\'
  }

  function PieceText(p: Piece): (t: string)
    requires WellSpelt(p)
    ensures t != ""
  {
    match p
    case Raw(c) => [c]
    case Short(c) => ['\\', c]
    case Unicode(u) => "\\u" + UnitText(u)
    case Pair(hi, lo) => "\\u" + UnitText(hi) + ("\\u" + UnitText(lo))
    case Garbled(s) => "\\u" + s
    case Half(hi, c) => "\\u" + UnitText(hi) + [c]
  }

  /** The bytes a part stands for, if it may stand in a string at all. */
  function Sense(p: Piece): Option<string>
    requires WellSpelt(p)
  {
    match p
    case Raw(c) => if c as int < 0x20 then None else Some([c])
    case Short(c) =>
      if c == '"' || c == '\\' || c == '/' then Some([c])
      else if c == 'b' then Some([8 as char])
      else if c == 'f' then Some([12 as char])
      else if c == 'n' then Some([10 as char])
      else if c == 'r' then Some([13 as char])
      else if c == 't' then Some([9 as char])
      else None
    case Unicode(u) => if 0xDC00 <= Weight(u) <= 0xDFFF then None else Some(Rune(Weight(u)))
    case Pair(hi, lo) =>
      if 0xDC00 <= Weight(lo) <= 0xDFFF
      then Some(Rune(0x10000 + (Weight(hi) - 0xD800) * 0x400 + (Weight(lo) - 0xDC00))) else None
    case Garbled(_) => None
    case Half(_, _) => None
  }

  predicate AllWellSpelt(ps: seq<Piece>) { forall i :: 0 <= i < |ps| ==> WellSpelt(ps[i]) }

  function PiecesText(ps: seq<Piece>): string
    requires AllWellSpelt(ps)
  {
    if ps == [] then "" else PieceText(ps[0]) + PiecesText(ps[1..])
  }

  function Quoted(ps: seq<Piece>): string
    requires AllWellSpelt(ps)
  {
    "\"" + PiecesText(ps) + "\""
  }

  function Senses(ps: seq<Piece>): Option<string>
    requires AllWellSpelt(ps)
  {
    if ps == [] then Some("")
    else if Sense(ps[0]).None? || Senses(ps[1..]).None? then None
    else Some(Sense(ps[0]).value + Senses(ps[1..]).value)
  }

  /** What a spelled string says: the bytes of its parts, which must be UTF-8 together. */
  function Says(ps: seq<Piece>): Option<string>
    requires AllWellSpelt(ps)
  {
    if Senses(ps).Some? && Octets(Senses(ps).value) then Senses(ps) else None
  }

  lemma DigitFigures(d: Hexed)
    requires d.v < 16
    ensures HexFigure(DigitText(d)) == d.v
  {
    if d.v < 8 { } else { }
  }

  lemma NoFigure(c: char)
    requires c !in "0123456789abcdefABCDEF"
    ensures HexFigure(c) == -1
  {
    FigureIndex(c);
  }

  lemma FigureIndex(c: char)
    ensures HexFigure(c) >= 0 ==> c in "0123456789abcdefABCDEF"
  {
    var k := HexFigure(c);
    if 0 <= k {
      if 'A' <= c <= 'F' {
        assert "0123456789abcdefABCDEF"[k + 6] == c;
      } else {
        assert "0123456789abcdefABCDEF"[k] == c;
      }
    }
  }

  lemma UnitReads(buf: string, pos: nat, h: seq<Hexed>)
    requires pos <= |buf| && Unit(h) && Stands(buf, pos, UnitText(h))
    ensures Hex4(buf, pos) == Got(Weight(h), pos + 4)
  {
    var t := UnitText(h);
    StandsAt(buf, pos, t, 0);
    StandsAt(buf, pos, t, 1);
    StandsAt(buf, pos, t, 2);
    StandsAt(buf, pos, t, 3);
    DigitFigures(h[0]);
    DigitFigures(h[1]);
    DigitFigures(h[2]);
    DigitFigures(h[3]);
    hide HexFigure, DigitText;
  }

  lemma GarbledReads(buf: string, pos: nat, s: string)
    requires pos <= |buf| && |s| == 4 && Stands(buf, pos, s)
    requires exists i :: 0 <= i < 4 && s[i] !in "0123456789abcdefABCDEF"
    ensures Hex4(buf, pos) == Refused("bad_string", pos)
  {
    var i :| 0 <= i < 4 && s[i] !in "0123456789abcdefABCDEF";
    NoFigure(s[i]);
    StandsAt(buf, pos, s, 0);
    StandsAt(buf, pos, s, 1);
    StandsAt(buf, pos, s, 2);
    StandsAt(buf, pos, s, 3);
    hide HexFigure;
  }

  /** One part of a string, read. */
  ghost predicate Takes(buf: string, pos: nat, out: string, sense: Option<string>, end: int)
    requires pos <= |buf|
  {
    if sense.None? then StrFrom(buf, pos, out).Refused? && StrFrom(buf, pos, out).word == "bad_string"
    else pos <= end <= |buf| && StrFrom(buf, pos, out) == StrFrom(buf, end, out + sense.value)
  }

  lemma EscapeTakes(buf: string, pos: nat, out: string, sense: Option<string>, end: int)
    requires pos < |buf| && buf[pos] == '\\'
    requires if sense.Some? then Escape(buf, pos) == Got(sense.value, end)
             else Escape(buf, pos).Refused? && Escape(buf, pos).word == "bad_string"
    ensures Takes(buf, pos, out, sense, end)
  {
    hide Escape;
  }

  lemma ShortReads(buf: string, pos: nat, c: char)
    requires c != 'u' && Stands(buf, pos, ['\\', c])
    ensures pos + 1 < |buf| && buf[pos] == '\\'
    ensures var r := Escape(buf, pos);
      if Sense(Short(c)).Some? then r == Got(Sense(Short(c)).value, pos + 2) else r.Refused? && r.word == "bad_string"
  {
    StandsAt(buf, pos, ['\\', c], 0);
    StandsAt(buf, pos, ['\\', c], 1);
    hide UnicodeEscape;
    assert "\n" == [10 as char] && "\r" == [13 as char] && "\t" == [9 as char];
  }

  lemma UnicodeReads(buf: string, pos: nat, text: string)
    requires Stands(buf, pos, "\\u" + text)
    ensures pos + 2 <= |buf| && buf[pos] == '\\' && Stands(buf, pos + 2, text)
    ensures Escape(buf, pos) == UnicodeEscape(buf, pos + 2)
  {
    hide UnicodeEscape;
    StandsSplit(buf, pos, "\\u", text);
    StandsAt(buf, pos, "\\u", 0);
    StandsAt(buf, pos, "\\u", 1);
  }

  lemma OneUnit(buf: string, pos: nat, p: Piece)
    requires p.Unicode? && WellSpelt(p) && Stands(buf, pos, PieceText(p))
    ensures pos + 2 <= |buf| && buf[pos] == '\\'
    ensures var r := Escape(buf, pos);
      if Sense(p).Some? then r == Got(Sense(p).value, pos + 6) else r.Refused? && r.word == "bad_string"
  {
    hide Escape, Hex4, Rune, UnitText;
    UnicodeReads(buf, pos, UnitText(p.u));
    UnitReads(buf, pos + 2, p.u);
  }

  lemma TwoUnits(buf: string, pos: nat, p: Piece)
    requires p.Pair? && WellSpelt(p) && Stands(buf, pos, PieceText(p))
    ensures pos + 2 <= |buf| && buf[pos] == '\\'
    ensures var r := Escape(buf, pos);
      if Sense(p).Some? then r == Got(Sense(p).value, pos + 12) else r.Refused? && r.word == "bad_string"
  {
    hide Escape, UnicodeEscape, Hex4, Rune, UnitText, Stands, PieceText, Weight;
    PairStands(buf, pos, p);
    UnitReads(buf, pos + 2, p.hi);
    UnitReads(buf, pos + 8, p.lo);
    PairJoins(buf, pos + 2, Weight(p.hi), Weight(p.lo));
  }

  lemma PairJoins(buf: string, pos: nat, u: int, l: int)
    requires pos + 6 <= |buf| && 0xD800 <= u <= 0xDBFF && Hex4(buf, pos) == Got(u, pos + 4)
    requires Stands(buf, pos + 4, "\\u") && Hex4(buf, pos + 6) == Got(l, pos + 10)
    ensures UnicodeEscape(buf, pos) ==
      if 0xDC00 <= l <= 0xDFFF then Got(Rune(0x10000 + (u - 0xD800) * 0x400 + (l - 0xDC00)), pos + 10)
      else Refused("bad_string", pos + 10)
  {
    hide Hex4, Rune;
  }

  lemma PairStands(buf: string, pos: nat, p: Piece)
    requires p.Pair? && WellSpelt(p) && Stands(buf, pos, PieceText(p))
    ensures pos + 8 <= |buf| && buf[pos] == '\\' && Escape(buf, pos) == UnicodeEscape(buf, pos + 2)
    ensures Stands(buf, pos + 2, UnitText(p.hi)) && Stands(buf, pos + 6, "\\u") && Stands(buf, pos + 8, UnitText(p.lo))
  {
    hide Escape, UnicodeEscape, DigitText;
    var hi, lo := UnitText(p.hi), UnitText(p.lo);
    assert |hi| == 4 && |lo| == 4;
    hide UnitText;
    var second := "\\u" + lo;
    assert PieceText(p) == "\\u" + (hi + second);
    UnicodeReads(buf, pos, hi + second);
    StandsSplit(buf, pos + 2, hi, second);
    StandsSplit(buf, pos + 6, "\\u", lo);
  }

  lemma HalfUnit(buf: string, pos: nat, p: Piece)
    requires (p.Half? || p.Garbled?) && WellSpelt(p) && Stands(buf, pos, PieceText(p))
    ensures pos + 2 <= |buf| && buf[pos] == '\\'
    ensures Escape(buf, pos).Refused? && Escape(buf, pos).word == "bad_string"
  {
    hide Escape, Hex4, Rune;
    if p.Garbled? {
      UnicodeReads(buf, pos, p.s);
      GarbledReads(buf, pos + 2, p.s);
    } else {
      var hi := UnitText(p.hi);
      assert |hi| == 4;
      assert PieceText(p) == "\\u" + (hi + [p.c]);
      UnicodeReads(buf, pos, hi + [p.c]);
      StandsSplit(buf, pos + 2, hi, [p.c]);
      StandsAt(buf, pos + 6, [p.c], 0);
      UnitReads(buf, pos + 2, p.hi);
      NoEscape(buf, pos + 6);
    }
  }

  lemma NoEscape(buf: string, pos: nat)
    requires At(buf, pos) != '\\'
    ensures !Stands(buf, pos, "\\u")
  {
    var t := "\\u";
    assert pos + 2 <= |buf| ==> buf[pos..pos + 2][0] == buf[pos] && t[0] == '\\';
  }

  lemma PieceReads(buf: string, pos: nat, p: Piece, out: string)
    requires pos <= |buf| && WellSpelt(p) && Stands(buf, pos, PieceText(p))
    ensures Takes(buf, pos, out, Sense(p), pos + |PieceText(p)|)
  {
    hide Escape, Takes, UnitText;
    var end := pos + |PieceText(p)|;
    match p
    case Raw(c) => RawReads(buf, pos, c, out);
    case Short(c) =>
      ShortReads(buf, pos, c);
      EscapeTakes(buf, pos, out, Sense(p), end);
    case Unicode(_) =>
      OneUnit(buf, pos, p);
      UnitWidth(p.u);
      EscapeTakes(buf, pos, out, Sense(p), end);
    case Pair(_, _) =>
      TwoUnits(buf, pos, p);
      UnitWidth(p.hi);
      UnitWidth(p.lo);
      EscapeTakes(buf, pos, out, Sense(p), end);
    case Garbled(_) =>
      HalfUnit(buf, pos, p);
      EscapeTakes(buf, pos, out, Sense(p), end);
    case Half(_, _) =>
      HalfUnit(buf, pos, p);
      EscapeTakes(buf, pos, out, Sense(p), end);
  }

  lemma UnitWidth(h: seq<Hexed>)
    requires Unit(h)
    ensures |UnitText(h)| == 4
  {
  }

  lemma RawReads(buf: string, pos: nat, c: char, out: string)
    requires c != '"' && c != '\\' && Stands(buf, pos, [c])
    ensures pos < |buf| && Takes(buf, pos, out, Sense(Raw(c)), pos + 1)
  {
    StandsAt(buf, pos, [c], 0);
  }

  lemma {:induction false} PiecesRead(buf: string, pos: nat, ps: seq<Piece>, out: string)
    requires pos <= |buf| && AllWellSpelt(ps) && Stands(buf, pos, PiecesText(ps))
    ensures Takes(buf, pos, out, Senses(ps), pos + |PiecesText(ps)|)
    decreases |ps|
  {
    hide StrFrom, PieceText, Sense, WellSpelt;
    if ps == [] {
      assert out + "" == out;
    } else {
      var width := |PieceText(ps[0])|;
      StandsSplit(buf, pos, PieceText(ps[0]), PiecesText(ps[1..]));
      PieceReads(buf, pos, ps[0], out);
      if Sense(ps[0]).Some? {
        PiecesRead(buf, pos + width, ps[1..], out + Sense(ps[0]).value);
        if Senses(ps[1..]).Some? {
          assert out + Sense(ps[0]).value + Senses(ps[1..]).value == out + (Sense(ps[0]).value + Senses(ps[1..]).value);
        }
      }
    }
  }

  /** A spelled string reads as what it says, and is refused as a bad string where it says nothing. */
  lemma StringSays(buf: string, pos: nat, ps: seq<Piece>)
    requires pos <= |buf| && AllWellSpelt(ps) && Stands(buf, pos, Quoted(ps))
    ensures Says(ps).Some? ==> Str(buf, pos) == Got(Says(ps).value, pos + |Quoted(ps)|)
    ensures Says(ps).None? ==> Str(buf, pos).Refused? && Str(buf, pos).word == "bad_string"
  {
    hide Octets, PiecesText, Senses, Escape;
    var text := PiecesText(ps);
    Stands3(buf, pos, "\"", text, "\"");
    StandsAt(buf, pos, "\"", 0);
    StandsAt(buf, pos + 1 + |text|, "\"", 0);
    PiecesRead(buf, pos + 1, ps, []);
    assert Senses(ps).Some? ==> [] + Senses(ps).value == Senses(ps).value;
  }

  // ---- Texts ------------------------------------------------------------------------------------------

  /** A JSON text as a tree, with the white space before and after each of its parts. A number is its
      sign, its digits and whatever fraction or exponent it has. */
  datatype Json =
    | JNull | JBool(b: bool) | JNum(neg: bool, ds: string, tail: string) | JStr(ps: seq<Piece>)
    | JObj(gap: string, es: seq<Entry>) | JArr(gap: string, xs: seq<Item>)

  datatype Entry = Entry(before: string, key: seq<Piece>, colon: string, value: string, x: Json, after: string)

  datatype Item = Item(before: string, x: Json, after: string)

  predicate Blank(s: string) { forall i :: 0 <= i < |s| ==> s[i] == ' ' || s[i] == '\t' || s[i] == '\n' || s[i] == '\r' }

  predicate Numeral(ds: string) { ds != "" && forall i :: 0 <= i < |ds| ==> '0' <= ds[i] <= '9' }

  function Decimal(ds: string): int
    requires forall i :: 0 <= i < |ds| ==> '0' <= ds[i] <= '9'
  {
    if ds == "" then 0 else 10 * Decimal(ds[..|ds| - 1]) + (ds[|ds| - 1] as int - 48)
  }

  /** White space is where the tree says it is, and strings are spelled. */
  predicate Laid(j: Json)
    decreases j, 0
  {
    match j
    case JNum(_, ds, tail) => Numeral(ds) && (tail != "" ==> tail[0] in ".eE")
    case JStr(ps) => AllWellSpelt(ps)
    case JObj(gap, es) => Blank(gap) && EntriesLaid(es)
    case JArr(gap, xs) => Blank(gap) && ItemsLaid(xs)
    case _ => true
  }

  predicate EntryLaid(e: Entry)
    decreases e, 1
  {
    Blank(e.before) && AllWellSpelt(e.key) && Blank(e.colon) && Blank(e.value) && Laid(e.x) && Blank(e.after)
  }

  predicate EntriesLaid(es: seq<Entry>)
    decreases es, 0
  {
    es == [] || (EntryLaid(es[0]) && EntriesLaid(es[1..]))
  }

  predicate ItemLaid(i: Item)
    decreases i, 1
  {
    Blank(i.before) && Laid(i.x) && Blank(i.after)
  }

  predicate ItemsLaid(xs: seq<Item>)
    decreases xs, 0
  {
    xs == [] || (ItemLaid(xs[0]) && ItemsLaid(xs[1..]))
  }

  function Text(j: Json): string
    requires Laid(j)
    decreases j, 0
  {
    match j
    case JNull => "null"
    case JBool(b) => if b then "true" else "false"
    case JNum(neg, ds, tail) => (if neg then "-" else "") + ds + tail
    case JStr(ps) => Quoted(ps)
    case JObj(gap, es) => "{" + (if es == [] then gap else EntriesText(es)) + "}"
    case JArr(gap, xs) => "[" + (if xs == [] then gap else ItemsText(xs)) + "]"
  }

  function KeyPart(e: Entry): string
    requires EntryLaid(e)
  {
    e.before + Quoted(e.key) + e.colon + ":" + e.value
  }

  function EntryText(e: Entry): string
    requires EntryLaid(e)
    decreases e, 1
  {
    KeyPart(e) + Text(e.x) + e.after
  }

  function EntriesText(es: seq<Entry>): string
    requires es != [] && EntriesLaid(es)
    decreases es, 0
  {
    if |es| == 1 then EntryText(es[0]) else EntryText(es[0]) + "," + EntriesText(es[1..])
  }

  function ItemText(i: Item): string
    requires ItemLaid(i)
    decreases i, 1
  {
    i.before + Text(i.x) + i.after
  }

  function ItemsText(xs: seq<Item>): string
    requires xs != [] && ItemsLaid(xs)
    decreases xs, 0
  {
    if |xs| == 1 then ItemText(xs[0]) else ItemText(xs[0]) + "," + ItemsText(xs[1..])
  }

  // ---- What a text stands for ---------------------------------------------------------------------------

  datatype Verdict<+T> = Accepts(value: T) | Rejects(word: string)

  function Fields(kind: Kind): set<string> {
    match kind
    case AConstraints => {"network"}
    case AnArtifact => {"digest", "size"}
    case ASource => {"scheme", "locator", "credential"}
    case ARequest => {"artifact", "sources", "constraints"}
    case AFailure => {"error", "permanent", "cause"}
  }

  function MustHave(kind: Kind): set<string> {
    match kind
    case AConstraints => {}
    case AnArtifact => {}
    case ASource => {"scheme", "locator"}
    case ARequest => {"artifact", "sources"}
    case AFailure => {"error"}
  }

  function MeansText(j: Json): Verdict<string>
    requires Laid(j)
  {
    if !j.JStr? then Rejects("wrong_type") else if Says(j.ps).None? then Rejects("bad_string") else Accepts(Says(j.ps).value)
  }

  /** A whole number, spelled without leading zeros, without a minus on zero, without fraction or
      exponent, and one that 64 bits hold. */
  function MeansSize(j: Json): Verdict<int>
    requires Laid(j)
  {
    if !j.JNum? then Rejects("wrong_type")
    else if j.tail != "" || (j.ds[0] == '0' && (|j.ds| > 1 || j.neg)) then Rejects("number_spelling")
    else
      var n := if j.neg then -Decimal(j.ds) else Decimal(j.ds);
      if -0x8000_0000_0000_0000 <= n <= 0x7FFF_FFFF_FFFF_FFFF then Accepts(n) else Rejects("number_spelling")
  }

  function MeansNetwork(j: Json): Verdict<int>
    requires Laid(j)
  {
    match MeansText(j)
    case Rejects(w) => Rejects(w)
    case Accepts(x) => if x == "any" then Accepts(1) else if x == "unmetered" then Accepts(2) else Rejects("bad_enum")
  }

  /** A scalar field of a record, given the text after its key. */
  function MeansScalar(v: Value, key: string, j: Json): Verdict<Value>
    requires Laid(j) && !v.OfRequest?
  {
    match v
    case OfConstraints(c) =>
      (match MeansNetwork(j) case Rejects(w) => Rejects(w) case Accepts(n) => Accepts(OfConstraints(Constraints(n))))
    case OfArtifact(a) =>
      if key == "size" then
        (match MeansSize(j) case Rejects(w) => Rejects(w) case Accepts(n) => Accepts(OfArtifact(Artifact(a.digest, n))))
      else (match MeansText(j) case Rejects(w) => Rejects(w) case Accepts(x) => Accepts(OfArtifact(Artifact(x, a.size))))
    case OfSource(s) =>
      (match MeansText(j)
       case Rejects(w) => Rejects(w)
       case Accepts(x) =>
         Accepts(OfSource(if key == "scheme" then Source(x, s.locator, s.credential)
                          else if key == "locator" then Source(s.scheme, x, s.credential)
                          else Source(s.scheme, s.locator, x))))
    case OfFailure(f) =>
      if key == "permanent" then
        if j.JBool? then Accepts(OfFailure(Failure(f.error, j.b, f.cause))) else Rejects("wrong_type")
      else
        (match MeansText(j)
         case Rejects(w) => Rejects(w)
         case Accepts(x) =>
           Accepts(OfFailure(if key == "error" then Failure(x, f.permanent, f.cause) else Failure(f.error, f.permanent, x))))
  }

  /** A field of a record, given the text after its key. */
  function MeansField(v: Value, key: string, j: Json): Verdict<Value>
    requires Laid(j)
    decreases j, 2
  {
    match v
    case OfRequest(r) =>
      if key == "artifact" then
        (match Means(AnArtifact, j)
         case Rejects(w) => Rejects(w)
         case Accepts(x) => if x.OfArtifact? then Accepts(OfRequest(Request(x.a, r.sources, r.constraints))) else Rejects(""))
      else if key == "constraints" then
        (match Means(AConstraints, j)
         case Rejects(w) => Rejects(w)
         case Accepts(x) => if x.OfConstraints? then Accepts(OfRequest(Request(r.artifact, r.sources, Some(x.c)))) else Rejects(""))
      else if !j.JArr? then Rejects("wrong_type")
      else
        (match MeansSources(j.xs, [])
         case Rejects(w) => Rejects(w)
         case Accepts(ss) => Accepts(OfRequest(Request(r.artifact, ss, r.constraints))))
    case _ => MeansScalar(v, key, j)
  }

  function MeansSources(xs: seq<Item>, out: seq<Source>): Verdict<seq<Source>>
    requires ItemsLaid(xs)
    decreases xs, 0
  {
    if xs == [] then Accepts(out)
    else
      assert ItemLaid(xs[0]);
      match Means(ASource, xs[0].x)
      case Rejects(w) => Rejects(w)
      case Accepts(x) => if x.OfSource? then MeansSources(xs[1..], out + [x.s]) else Rejects("")
  }

  /** The members of a record one after another: what was seen, and what the record holds then. */
  function MeansMembers(kind: Kind, es: seq<Entry>, seen: set<string>, v: Value): Verdict<(set<string>, Value)>
    requires EntriesLaid(es)
    decreases es, 0
  {
    if es == [] then Accepts((seen, v))
    else
      assert EntryLaid(es[0]);
      match Says(es[0].key)
      case None => Rejects("bad_string")
      case Some(key) =>
        if key !in Fields(kind) then Rejects("unknown_field")
        else if key in seen then Rejects("duplicate_field")
        else
          match MeansField(v, key, es[0].x)
          case Rejects(w) => Rejects(w)
          case Accepts(next) => MeansMembers(kind, es[1..], seen + {key}, next)
  }

  /** The record a text stands for, or the first reason why it stands for none. */
  function Means(kind: Kind, j: Json): Verdict<Value>
    requires Laid(j)
    decreases j, 1
  {
    if !j.JObj? then Rejects("wrong_type")
    else
      match MeansMembers(kind, j.es, {}, Zero(kind))
      case Rejects(w) => Rejects(w)
      case Accepts(p) => if MustHave(kind) <= p.0 then Accepts(p.1) else Rejects("missing_field")
  }

  /** The decoder's answer is the one the text stands for. */
  predicate Agrees<T(==)>(r: Parsed<T>, w: Verdict<T>, end: int) {
    match w
    case Accepts(v) => r == Got(v, end)
    case Rejects(word) => r.Refused? && r.word == word
  }

  // ---- Scalars ------------------------------------------------------------------------------------------

  lemma {:induction false} ExtendLast(u: int, ds: string, c: char)
    ensures Extend(u, ds + [c]) == Extend(u, ds) * 10 + Figure(c)
    decreases |ds|
  {
    if ds == [] {
      assert [] + [c] == [c] && [c][1..] == [];
    } else {
      assert (ds + [c])[1..] == ds[1..] + [c];
      ExtendLast(u * 10 + Figure(ds[0]), ds[1..], c);
    }
  }

  lemma {:induction false} DecimalIs(ds: string)
    requires forall i :: 0 <= i < |ds| ==> '0' <= ds[i] <= '9'
    ensures Extend(0, ds) == Decimal(ds) >= 0
  {
    if ds != "" {
      var init := ds[..|ds| - 1];
      DecimalIs(init);
      ExtendLast(0, init, ds[|ds| - 1]);
      assert ds == init + [ds[|ds| - 1]];
    }
  }

  lemma NumberMeans(buf: string, pos: nat, j: Json)
    requires pos <= |buf| && j.JNum? && Laid(j) && Stands(buf, pos, Text(j)) && !Follows(At(buf, pos + |Text(j)|))
    ensures Agrees(Integer(buf, pos, MIN_INT64, MAX_INT64), MeansSize(j), pos + |Text(j)|)
  {
    hide *;
    NumberParts(buf, pos, j);
    var sign := if j.neg then "-" else "";
    var q := pos + |sign|;
    NumberStarts(buf, pos, j, q);
    RefusedSpelling(buf, pos);
    SameFinish(buf, pos);
    NumberFollows(buf, q, j.ds, j.tail);
    AfterDigits(buf, q, j.ds, j.tail);
    if j.ds[0] == '0' { ZeroEnds(buf, q, j.ds); } else { DigitsEnd(buf, q, j.ds); }
    var e := if j.ds[0] == '0' then q + 1 else q + |j.ds|;
    NumberJudged(Integer(buf, pos, MIN_INT64, MAX_INT64), j, q, At(buf, e), e);
  }

  lemma NumberParts(buf: string, pos: nat, j: Json)
    requires pos <= |buf| && j.JNum? && Laid(j) && Stands(buf, pos, Text(j)) && !Follows(At(buf, pos + |Text(j)|))
    ensures var sign := if j.neg then "-" else ""; var q := pos + |sign|;
      && Stands(buf, pos, sign) && Stands(buf, q, j.ds) && Stands(buf, q + |j.ds|, j.tail)
      && pos + |Text(j)| == q + |j.ds + j.tail| && Numeral(j.ds)
      && if j.tail != "" then j.tail[0] in ".eE" else !Follows(At(buf, q + |j.ds|))
  {
    Stands3(buf, pos, if j.neg then "-" else "", j.ds, j.tail);
  }

  /** The digits judged, once it is known where they end and what comes after. */
  lemma NumberJudged(r: Parsed<int>, j: Json, q: int, after: char, e: int)
    requires j.JNum? && Laid(j) && e == (if j.ds[0] == '0' then q + 1 else q + |j.ds|)
    requires |j.ds| == 1 || j.ds[0] != '0' ==> (Follows(after) <==> j.tail != "")
    requires j.ds[0] == '0' && |j.ds| > 1 ==> Follows(after)
    requires j.ds[0] == '0' ==> |j.ds| > 1 || Decimal(j.ds) == 0
    requires j.ds[0] != '0' ==> Decimal(j.ds) > 0
    requires var u := if j.ds[0] == '0' then 0 else Decimal(j.ds);
      var f := Finish(j.neg, u, after, e, MIN_INT64, MAX_INT64);
      && r.Got? == f.Got? && (r.Got? ==> r == f) && (r.Refused? ==> r.word == "number_spelling")
    ensures Agrees(r, MeansSize(j), q + |j.ds + j.tail|)
  {
    hide Decimal, Follows;
  }

  lemma NumberStarts(buf: string, pos: nat, j: Json, q: nat)
    requires j.JNum? && Laid(j) && q == pos + (if j.neg then 1 else 0)
    requires Stands(buf, pos, if j.neg then "-" else "") && Stands(buf, q, j.ds)
    ensures At(buf, pos) == '-' <==> j.neg
    ensures q < |buf| && At(buf, q) == j.ds[0] && Digit(At(buf, q))
  {
    StandsAt(buf, q, j.ds, 0);
    if j.neg { StandsAt(buf, pos, "-", 0); }
  }

  lemma NumberFollows(buf: string, q: nat, ds: string, tail: string)
    requires Stands(buf, q + |ds|, tail)
    requires if tail != "" then tail[0] in ".eE" else !Follows(At(buf, q + |ds|))
    ensures Follows(At(buf, q + |ds|)) <==> tail != ""
  {
    if tail != "" { StandsAt(buf, q + |ds|, tail, 0); }
  }

  lemma AfterDigits(buf: string, q: nat, ds: string, tail: string)
    requires Stands(buf, q + |ds|, tail)
    requires if tail != "" then tail[0] in ".eE" else !Follows(At(buf, q + |ds|))
    ensures !Digit(At(buf, q + |ds|))
  {
    if tail != "" { StandsAt(buf, q + |ds|, tail, 0); }
  }

  /** Where the digits of a number end, and what they come to. */
  lemma ZeroEnds(buf: string, q: nat, ds: string)
    requires q < |buf| && Numeral(ds) && Stands(buf, q, ds) && ds[0] == '0'
    ensures Unsigned(buf, q) == Got(0, q + 1) && (|ds| > 1 ==> Follows(At(buf, q + 1)))
    ensures |ds| == 1 ==> Decimal(ds) == 0
  {
    StandsAt(buf, q, ds, 0);
    if |ds| > 1 { StandsAt(buf, q, ds, 1); }
  }

  lemma DigitsEnd(buf: string, q: nat, ds: string)
    requires q < |buf| && Numeral(ds) && Stands(buf, q, ds) && ds[0] != '0' && !Digit(At(buf, q + |ds|))
    ensures Unsigned(buf, q) == Got(Decimal(ds), q + |ds|) && Decimal(ds) > 0
  {
    StandsAt(buf, q, ds, 0);
    hide Extend, RunEnd, Decimal;
    RunIs(buf, q, q + |ds|, ds);
    DecimalIs(ds);
    RunSpells(ds);
  }

  /** A text's first byte tells what it is. */
  predicate Begins(j: Json, c: char) {
    match j
    case JNull => c == 'n'
    case JBool(b) => c == if b then 't' else 'f'
    case JNum(_, _, _) => c == '-' || Digit(c)
    case JStr(_) => c == '"'
    case JObj(_, _) => c == '{'
    case JArr(_, _) => c == '['
  }

  lemma FirstByte(buf: string, pos: nat, j: Json)
    requires Laid(j) && Stands(buf, pos, Text(j))
    ensures pos < |buf| && Begins(j, buf[pos]) && !Space(buf[pos]) && Text(j) != ""
  {
    hide EntriesText, ItemsText, PiecesText, EntriesLaid, ItemsLaid;
    var t := Text(j);
    assert t != "" && Begins(j, t[0]) && !Space(t[0]);
    StandsAt(buf, pos, t, 0);
  }

  lemma TextMeans(buf: string, pos: nat, j: Json)
    requires pos <= |buf| && Laid(j) && Stands(buf, pos, Text(j))
    ensures Agrees(Str(buf, pos), MeansText(j), pos + |Text(j)|)
  {
    hide Says, StrFrom, Quoted;
    FirstByte(buf, pos, j);
    if j.JStr? { StringSays(buf, pos, j.ps); }
  }

  lemma SizeMeans(buf: string, pos: nat, j: Json)
    requires pos <= |buf| && Laid(j) && Stands(buf, pos, Text(j)) && !Follows(At(buf, pos + |Text(j)|))
    ensures Agrees(Integer(buf, pos, MIN_INT64, MAX_INT64), MeansSize(j), pos + |Text(j)|)
  {
    FirstByte(buf, pos, j);
    if j.JNum? { NumberMeans(buf, pos, j); }
    hide Text, MeansSize, Accumulate, Finish;
    if !j.JNum? { NoNumber(j); }
  }

  lemma NoNumber(j: Json)
    requires Laid(j) && !j.JNum?
    ensures MeansSize(j) == Rejects("wrong_type")
  {
  }

  /** Where "true" stands the value is true, where "false" stands it is false, and no other text is a
      boolean at all. */
  lemma BooleanMeans(buf: string, pos: nat, j: Json)
    requires pos <= |buf| && Laid(j) && Stands(buf, pos, Text(j))
    ensures j.JBool? ==> Boolean(buf, pos) == Got(j.b, pos + |Text(j)|)
    ensures !j.JBool? ==> Boolean(buf, pos).Refused? && Boolean(buf, pos).word == "wrong_type"
  {
    FirstByte(buf, pos, j);
  }

  lemma ScalarMeans(kind: Kind, key: string, buf: string, pos: nat, v: Value, j: Json)
    requires pos <= |buf| && Laid(j) && Stands(buf, pos, Text(j)) && !Follows(At(buf, pos + |Text(j)|))
    requires !kind.ARequest? && key in Fields(kind) && v.KindOf() == kind && Clean(v)
    ensures Agrees(Scalar(NameOf(kind, key), buf, pos, v), MeansScalar(v, key, j), pos + |Text(j)|)
  {
    hide Text, Str, Integer, Boolean, Laid, MeansText, MeansSize, Octets, Stands, Follows, MeansNetwork, ParseNetwork;
    TextMeans(buf, pos, j);
    match v
    case OfArtifact(_) => SizeMeans(buf, pos, j);
    case OfFailure(_) => BooleanMeans(buf, pos, j);
    case OfConstraints(_) => NetworkMeans(buf, pos, j);
    case _ =>
  }

  lemma NetworkMeans(buf: string, pos: nat, j: Json)
    requires pos <= |buf| && Laid(j) && Agrees(Str(buf, pos), MeansText(j), pos + |Text(j)|)
    ensures var r := Str(buf, pos);
      match MeansNetwork(j)
      case Accepts(n) => r.Got? && r.pos == pos + |Text(j)| && ParseNetwork(r.value) == Some(n)
      case Rejects(w) => if r.Got? then ParseNetwork(r.value).None? && w == "bad_enum" else w == r.word
  {
    hide Text, Str, Laid, MeansText;
  }

  // ---- White space and keys -----------------------------------------------------------------------------

  lemma {:induction false} SkipBlank(buf: string, pos: nat, ws: string)
    requires pos <= |buf| && Blank(ws) && Stands(buf, pos, ws) && !Space(At(buf, pos + |ws|))
    ensures Skip(buf, pos) == pos + |ws|
    decreases |ws|
  {
    if ws != "" {
      StandsAt(buf, pos, ws, 0);
      assert ws == [ws[0]] + ws[1..];
      StandsSplit(buf, pos, [ws[0]], ws[1..]);
      SkipBlank(buf, pos + 1, ws[1..]);
    }
  }

  lemma KeyMeans(buf: string, pos: nat, e: Entry)
    requires pos <= |buf| && EntryLaid(e) && Stands(buf, pos, KeyPart(e)) && !Space(At(buf, pos + |KeyPart(e)|))
    ensures Says(e.key).Some? ==> Key(buf, pos) == Got(Says(e.key).value, pos + |KeyPart(e)|)
    ensures Says(e.key).None? ==> Key(buf, pos).Refused? && Key(buf, pos).word == "bad_string"
    ensures At(buf, Skip(buf, pos)) == '"'
  {
    hide Says, Str, Quoted, Skip, Laid, Stands, AllWellSpelt;
    assert AllWellSpelt(e.key) && Blank(e.before) && Blank(e.colon) && Blank(e.value);
    var q := pos + |e.before|;
    var c := q + |Quoted(e.key)| + |e.colon|;
    QuotedStarts(e.key);
    KeyStands(buf, pos, e.before, Quoted(e.key), e.colon, e.value);
    SkipBlank(buf, pos, e.before);
    StringSays(buf, q, e.key);
    SkipBlank(buf, q + |Quoted(e.key)|, e.colon);
    SkipBlank(buf, c + 1, e.value);
  }

  lemma QuotedStarts(ps: seq<Piece>)
    requires AllWellSpelt(ps)
    ensures Quoted(ps) != "" && Quoted(ps)[0] == '"'
  {
    hide PiecesText;
  }

  lemma KeyStands(buf: string, pos: nat, before: string, t: string, colon: string, value: string)
    requires t != "" && t[0] == '"' && Stands(buf, pos, before + t + colon + ":" + value)
    ensures var q := pos + |before|; var c := q + |t| + |colon|;
      && Stands(buf, pos, before) && Stands(buf, q, t) && At(buf, q) == '"'
      && Stands(buf, q + |t|, colon) && At(buf, c) == ':' && Stands(buf, c + 1, value) && c + 1 + |value| <= |buf|
  {
    var q := pos + |before|;
    var c := q + |t| + |colon|;
    hide Stands;
    Stands3(buf, pos, before + t + colon, ":", value);
    Stands3(buf, pos, before, t, colon);
    StandsAt(buf, q, t, 0);
    StandsAt(buf, c, ":", 0);
    StandsEnds(buf, c + 1, value);
  }

  lemma StandsEnds(buf: string, pos: int, text: string)
    requires Stands(buf, pos, text)
    ensures 0 <= pos && pos + |text| <= |buf|
  {
  }

  // ---- Names ----------------------------------------------------------------------------------------------

  /** The fields seen so far, by name and by key. */
  ghost predicate Matches(kind: Kind, names: set<Name>, keys: set<string>) {
    forall key :: key in Fields(kind) ==> (NameOf(kind, key) in names <==> key in keys)
  }

  lemma FieldNames(kind: Kind, key: string)
    ensures NameOf(kind, key).Unknown? <==> key !in Fields(kind)
  {
  }

  lemma NamesDiffer(kind: Kind, a: string, b: string)
    requires a in Fields(kind) && b in Fields(kind) && NameOf(kind, a) == NameOf(kind, b)
    ensures a == b
  {
  }

  lemma MatchesMore(kind: Kind, names: set<Name>, keys: set<string>, key: string)
    requires Matches(kind, names, keys) && key in Fields(kind)
    ensures Matches(kind, names + {NameOf(kind, key)}, keys + {key})
  {
    hide NameOf, Fields;
    forall k | k in Fields(kind) && NameOf(kind, k) == NameOf(kind, key) ensures k == key {
      NamesDiffer(kind, k, key);
    }
  }

  lemma NeedsMatch(kind: Kind, names: set<Name>, keys: set<string>)
    requires Matches(kind, names, keys)
    ensures Needed(kind) <= names <==> MustHave(kind) <= keys
  {
    assert forall key :: key in MustHave(kind) ==> key in Fields(kind) && NameOf(kind, key) in Needed(kind);
    match kind
    case ASource => assert NameOf(ASource, "scheme") == Scheme && NameOf(ASource, "locator") == Locator;
    case ARequest => assert NameOf(ARequest, "artifact") == ItsArtifact && NameOf(ARequest, "sources") == ItsSources;
    case AFailure => assert NameOf(AFailure, "error") == Error;
    case _ =>
  }

  // ---- Records ----------------------------------------------------------------------------------------------

  /** The members as far as they go, against what they mean. */
  ghost predicate HeldAgrees(kind: Kind, r: Parsed<Held>, w: Verdict<(set<string>, Value)>, end: int) {
    match w
    case Accepts(p) => r.Got? && r.pos == end && r.value.v == p.1 && Matches(kind, r.value.seen, p.0)
    case Rejects(word) => r.Refused? && r.word == word
  }

  /** The closer of an object or a list, or a comma. */
  predicate Closes(c: char) { c == ',' || c == '}' || c == ']' }

  /** A value with white space after it, up to a comma or a closer. */
  lemma ValueStands(buf: string, pos: nat, j: Json, after: string)
    requires Laid(j) && Blank(after) && Stands(buf, pos, Text(j) + after) && Closes(At(buf, pos + |Text(j) + after|))
    ensures var end := pos + |Text(j)|;
      && Stands(buf, pos, Text(j)) && pos < |buf| && !Space(buf[pos]) && !Closes(buf[pos])
      && end <= |buf| && !Follows(At(buf, end)) && Skip(buf, end) == end + |after|
  {
    hide Text, Skip, Stands, Laid;
    var end := pos + |Text(j)|;
    StandsSplit(buf, pos, Text(j), after);
    FirstByte(buf, pos, j);
    NoCloser(j, buf[pos]);
    StandsEnds(buf, pos, Text(j));
    SkipBlank(buf, end, after);
    if after != "" { StandsAt(buf, end, after, 0); }
  }

  lemma NoCloser(j: Json, c: char)
    requires Begins(j, c)
    ensures !Closes(c)
  {
  }

  lemma FieldIs(kind: Kind, key: string, buf: string, pos: nat, depth: nat, h: Held, j: Json, seen: set<string>,
                r: Parsed<Value>, w: Verdict<Value>, end: int)
    requires pos <= |buf| && Holds(h, kind) && Matches(kind, h.seen, seen)
    requires key in Fields(kind) && key !in seen ==>
      Agrees(r, w, end)
      && r == if kind.ARequest? then Nested(NameOf(kind, key), buf, pos, depth, h.v) else Scalar(NameOf(kind, key), buf, pos, h.v)
    ensures var f := Field(kind, NameOf(kind, key), buf, pos, depth, h);
      if key !in Fields(kind) then f.Refused? && f.word == "unknown_field"
      else if key in seen then f.Refused? && f.word == "duplicate_field"
      else if w.Rejects? then f.Refused? && f.word == w.word
      else f == Got(Held(h.seen + {NameOf(kind, key)}, w.value), end)
  {
    hide Nested, Scalar, NameOf;
    FieldNames(kind, key);
  }

  lemma EntrySplits(buf: string, pos: nat, e: Entry)
    requires EntryLaid(e) && Stands(buf, pos, EntryText(e)) && Closes(At(buf, pos + |EntryText(e)|))
    ensures var p := pos + |KeyPart(e)|; var end := p + |Text(e.x)|;
      && Stands(buf, pos, KeyPart(e)) && Stands(buf, p, Text(e.x)) && Laid(e.x) && AllWellSpelt(e.key)
      && p < |buf| && !Space(buf[p]) && end <= |buf| && !Follows(At(buf, end))
      && Skip(buf, end) == end + |e.after| == pos + |EntryText(e)|
  {
    assert Laid(e.x) && Blank(e.after) && AllWellSpelt(e.key);
    hide KeyPart, Text, Closes;
    assert EntryText(e) == KeyPart(e) + (Text(e.x) + e.after);
    StandsSplit(buf, pos, KeyPart(e), Text(e.x) + e.after);
    ValueStands(buf, pos + |KeyPart(e)|, e.x, e.after);
  }

  /** The key, the field and what stands after it, put together. */
  lemma MemberIs(kind: Kind, buf: string, pos: nat, depth: nat, h: Held, key: string, p: nat, next: Held, q: nat)
    requires pos <= |buf| && p <= |buf| && Holds(h, kind) && Holds(next, kind) && q <= |buf|
    requires Key(buf, pos) == Got(key, p)
    ensures var f := Field(kind, NameOf(kind, key), buf, p, depth, h);
      && (f.Refused? ==> Members(kind, buf, pos, depth, h) == Refused(f.word, f.pos))
      && (f == Got(next, q) ==> Members(kind, buf, pos, depth, h) == More(kind, buf, q, depth, next))
  {
    hide Field, Key, NameOf, More;
  }

  lemma NoKey(kind: Kind, buf: string, pos: nat, depth: nat, h: Held)
    requires pos <= |buf| && Holds(h, kind) && Key(buf, pos).Refused?
    ensures Members(kind, buf, pos, depth, h).Refused? && Members(kind, buf, pos, depth, h).word == Key(buf, pos).word
  {
    hide Key, Field, More;
  }

  lemma MoreIs(kind: Kind, buf: string, q: nat, depth: nat, h: Held, end: nat)
    requires q <= |buf| && Holds(h, kind) && Skip(buf, q) == end < |buf| && Closes(At(buf, end))
    ensures More(kind, buf, q, depth, h) == if At(buf, end) == ',' then Members(kind, buf, end + 1, depth, h) else Got(h, end)
  {
    hide Skip, Members;
  }

  lemma EntriesSplit(buf: string, pos: nat, es: seq<Entry>)
    requires es != [] && EntriesLaid(es) && Stands(buf, pos, EntriesText(es)) && At(buf, pos + |EntriesText(es)|) == '}'
    ensures EntryLaid(es[0]) && EntriesLaid(es[1..]) && Stands(buf, pos, EntryText(es[0]))
    ensures var p := pos + |EntryText(es[0])|;
      if |es| == 1 then At(buf, p) == '}' && p == pos + |EntriesText(es)|
      else At(buf, p) == ',' && Stands(buf, p + 1, EntriesText(es[1..])) && p + 1 + |EntriesText(es[1..])| == pos + |EntriesText(es)|
    ensures pos + |EntryText(es[0])| < |buf|
  {
    hide EntryText, EntryLaid;
    if |es| > 1 {
      Stands3(buf, pos, EntryText(es[0]), ",", EntriesText(es[1..]));
      StandsAt(buf, pos + |EntryText(es[0])|, ",", 0);
    } else {
      StandsEnds(buf, pos, EntryText(es[0]));
      EndsBefore(buf, pos + |EntryText(es[0])|);
    }
  }

  lemma EndsBefore(buf: string, p: int)
    requires At(buf, p) == '}'
    ensures 0 <= p < |buf|
  {
  }

  lemma {:induction false} MembersMean(kind: Kind, buf: string, pos: nat, depth: nat, h: Held, seen: set<string>, es: seq<Entry>)
    requires pos <= |buf| && es != [] && EntriesLaid(es) && Stands(buf, pos, EntriesText(es))
    requires At(buf, pos + |EntriesText(es)|) == '}' && depth + Below(kind) <= 64
    requires Holds(h, kind) && Matches(kind, h.seen, seen)
    ensures HeldAgrees(kind, Members(kind, buf, pos, depth, h), MeansMembers(kind, es, seen, h.v), pos + |EntriesText(es)|)
    ensures At(buf, Skip(buf, pos)) == '"'
    decreases es, 0
  {
    hide Stands, Members, More, Field, Key, Skip, Says, KeyPart, EntryText, Text, Scalar, Nested, NameOf, Fields;
    hide MeansField, Matches, Clean;
    var e := es[0];
    EntriesSplit(buf, pos, es);
    EntrySplits(buf, pos, e);
    var p := pos + |KeyPart(e)|;
    var q := p + |Text(e.x)|;
    var end := pos + |EntryText(e)|;
    KeyMeans(buf, pos, e);
    if Says(e.key).None? {
      NoKey(kind, buf, pos, depth, h);
    } else {
      var key := Says(e.key).value;
      var w := MeansField(h.v, key, e.x);
      var r := FieldAt(kind, key, buf, p, depth, h.v);
      if key in Fields(kind) { FieldMeans(kind, key, buf, p, depth, h.v, e.x); }
      FieldIs(kind, key, buf, p, depth, h, e.x, seen, r, w, q);
      if key in Fields(kind) && key !in seen && w.Accepts? {
        var next := Held(h.seen + {NameOf(kind, key)}, w.value);
        MemberIs(kind, buf, pos, depth, h, key, p, next, q);
        MoreIs(kind, buf, q, depth, next, end);
        MatchesMore(kind, h.seen, seen, key);
        if |es| > 1 { MembersMean(kind, buf, end + 1, depth, next, seen + {key}, es[1..]); }
      } else {
        MemberIs(kind, buf, pos, depth, h, key, p, h, q);
      }
    }
  }

  /** A field's value, whatever kind of field it is. */
  function FieldAt(kind: Kind, key: string, buf: string, pos: nat, depth: nat, v: Value): (r: Parsed<Value>)
    requires pos <= |buf| && v.KindOf() == kind && Clean(v)
  {
    if kind.ARequest? then Nested(NameOf(kind, key), buf, pos, depth, v) else Scalar(NameOf(kind, key), buf, pos, v)
  }

  lemma {:induction false} FieldMeans(kind: Kind, key: string, buf: string, pos: nat, depth: nat, v: Value, j: Json)
    requires pos <= |buf| && Laid(j) && Stands(buf, pos, Text(j)) && !Follows(At(buf, pos + |Text(j)|))
    requires key in Fields(kind) && v.KindOf() == kind && Clean(v) && depth + Below(kind) <= 64
    ensures Agrees(FieldAt(kind, key, buf, pos, depth, v), MeansField(v, key, j), pos + |Text(j)|)
    ensures FieldAt(kind, key, buf, pos, depth, v).Got? ==> Holds(Held({}, FieldAt(kind, key, buf, pos, depth, v).value), kind)
    decreases j, 3
  {
    hide Stands, Text, Scalar, Record, Sources, MeansScalar, Laid, Clean, NameOf, Fields;
    if !kind.ARequest? {
      ScalarMeans(kind, key, buf, pos, v, j);
    } else {
      NestedMeans(key, buf, pos, depth, v, j);
    }
  }

  lemma {:induction false} NestedMeans(key: string, buf: string, pos: nat, depth: nat, v: Value, j: Json)
    requires pos <= |buf| && Laid(j) && Stands(buf, pos, Text(j)) && !Follows(At(buf, pos + |Text(j)|))
    requires key in Fields(ARequest) && v.OfRequest? && Clean(v) && depth + 2 <= 64
    ensures Agrees(Nested(NameOf(ARequest, key), buf, pos, depth, v), MeansField(v, key, j), pos + |Text(j)|)
    decreases j, 2
  {
    hide Stands, Text, Record, Sources, Laid, Clean, Means;
    if key == "artifact" {
      RecordMeans(AnArtifact, buf, pos, depth, j);
    } else if key == "constraints" {
      RecordMeans(AConstraints, buf, pos, depth, j);
    } else {
      SourcesMean(buf, pos, depth, j);
    }
  }

  lemma {:induction false} RecordMeans(kind: Kind, buf: string, pos: nat, depth: nat, j: Json)
    requires pos <= |buf| && Laid(j) && Stands(buf, pos, Text(j)) && depth + 1 + Below(kind) <= 64
    ensures Agrees(Record(kind, buf, pos, depth), Means(kind, j), pos + |Text(j)|)
    decreases j, 1
  {
    hide *;
    FirstByte(buf, pos, j);
    if !j.JObj? { NoObject(kind, buf, pos, depth, j); }
    else if j.es == [] { EmptyRecord(kind, buf, pos, depth, j); }
    else { FullRecord(kind, buf, pos, depth, j); }
  }

  lemma NoObject(kind: Kind, buf: string, pos: nat, depth: nat, j: Json)
    requires pos < |buf| && Laid(j) && !j.JObj? && Begins(j, buf[pos])
    ensures Agrees(Record(kind, buf, pos, depth), Means(kind, j), pos + |Text(j)|)
  {
    hide Text, Laid;
    NoRecord(kind, buf, pos, depth);
    hide Record;
  }

  lemma EmptyRecord(kind: Kind, buf: string, pos: nat, depth: nat, j: Json)
    requires pos <= |buf| && j.JObj? && Laid(j) && Stands(buf, pos, Text(j)) && j.es == [] && depth + 1 <= 64
    ensures Agrees(Record(kind, buf, pos, depth), Means(kind, j), pos + |Text(j)|)
  {
    hide Stands, Members, Skip, MeansMembers, Zero;
    var end := pos + 1 + |j.gap|;
    Stands3(buf, pos, "{", j.gap, "}");
    StandsAt(buf, pos, "{", 0);
    StandsAt(buf, end, "}", 0);
    SkipBlank(buf, pos + 1, j.gap);
    NoMembers(kind, j.es);
    RecordIs(kind, buf, pos, depth, Got(Held({}, Zero(kind)), end));
    hide Record;
  }

  lemma {:induction false} FullRecord(kind: Kind, buf: string, pos: nat, depth: nat, j: Json)
    requires pos <= |buf| && j.JObj? && Laid(j) && Stands(buf, pos, Text(j)) && j.es != [] && depth + 1 + Below(kind) <= 64
    ensures Agrees(Record(kind, buf, pos, depth), Means(kind, j), pos + |Text(j)|)
    decreases j, 0
  {
    hide *;
    Braces(buf, pos, j);
    NothingSeen(kind);
    var start := Start(kind);
    MembersMean(kind, buf, pos + 1, depth + 1, start, {}, j.es);
    var r := Members(kind, buf, pos + 1, depth + 1, start);
    MembersSkip(kind, buf, pos + 1, depth + 1, start);
    RecordIs(kind, buf, pos, depth, r);
    RecordJudged(kind, j, buf, r, Record(kind, buf, pos, depth), pos + |Text(j)|);
  }

  lemma Start(kind: Kind) returns (h: Held)
    ensures h == Held({}, Zero(kind)) && Holds(h, kind)
  {
    h := Held({}, Zero(kind));
  }

  lemma Braces(buf: string, pos: nat, j: Json)
    requires pos <= |buf| && j.JObj? && Laid(j) && Stands(buf, pos, Text(j)) && j.es != []
    ensures EntriesLaid(j.es) && pos < |buf| && buf[pos] == '{' && Stands(buf, pos + 1, EntriesText(j.es))
    ensures At(buf, pos + 1 + |EntriesText(j.es)|) == '}' && pos + |Text(j)| == pos + 1 + |EntriesText(j.es)| + 1
  {
    hide EntriesText;
    var inside := EntriesText(j.es);
    assert Text(j) == "{" + inside + "}";
    hide Text, Stands, EntriesLaid;
    Stands3(buf, pos, "{", inside, "}");
    StandsAt(buf, pos, "{", 0);
    StandsAt(buf, pos + 1 + |inside|, "}", 0);
  }

  lemma RecordJudged(kind: Kind, j: Json, buf: string, r: Parsed<Held>, q: Parsed<Value>, end: int)
    requires j.JObj? && Laid(j) && EntriesLaid(j.es) && At(buf, end - 1) == '}'
    requires HeldAgrees(kind, r, MeansMembers(kind, j.es, {}, Zero(kind)), end - 1)
    requires r.Refused? ==> q.Refused? && q.word == r.word
    requires r.Got? && At(buf, r.pos) == '}' ==>
      if Needed(kind) <= r.value.seen then q == Got(r.value.v, r.pos + 1) else q.Refused? && q.word == "missing_field"
    ensures Agrees(q, Means(kind, j), end)
  {
    hide Laid, EntriesLaid, Matches, Zero, Needed, MustHave, MeansMembers, At;
    var w := MeansMembers(kind, j.es, {}, Zero(kind));
    if w.Accepts? { NeedsMatch(kind, r.value.seen, w.value.0); }
  }

  /** How many levels a record of a kind has below its own. */
  function Below(kind: Kind): nat { if kind.ARequest? then 2 else 0 }

  lemma NoRecord(kind: Kind, buf: string, pos: nat, depth: nat)
    requires pos < |buf| && buf[pos] != '{'
    ensures Record(kind, buf, pos, depth).Refused? && Record(kind, buf, pos, depth).word == "wrong_type"
  {
    hide Members;
  }

  lemma NoMembers(kind: Kind, es: seq<Entry>)
    requires es == []
    ensures MeansMembers(kind, es, {}, Zero(kind)) == Accepts(({}, Zero(kind)))
    ensures MustHave(kind) <= {} <==> Needed(kind) <= {}
  {
    NeedsMatch(kind, {}, {});
  }

  lemma NothingSeen(kind: Kind)
    ensures Matches(kind, {}, {})
  {
  }

  lemma MembersSkip(kind: Kind, buf: string, pos: nat, depth: nat, h: Held)
    requires pos <= |buf| && Holds(h, kind)
    ensures Members(kind, buf, Skip(buf, pos), depth, h) == Members(kind, buf, pos, depth, h)
  {
    SkipTwice(buf, pos);
    hide Skip, Field, More;
    assert Key(buf, Skip(buf, pos)) == Key(buf, pos);
  }

  lemma {:induction false} SkipTwice(buf: string, pos: nat)
    requires pos <= |buf|
    ensures Skip(buf, Skip(buf, pos)) == Skip(buf, pos)
    decreases |buf| - pos
  {
    if pos < |buf| && Space(buf[pos]) { SkipTwice(buf, pos + 1); }
  }

  /** A record's braces, around its members. */
  lemma RecordIs(kind: Kind, buf: string, pos: nat, depth: nat, r: Parsed<Held>)
    requires pos < |buf| && buf[pos] == '{' && depth + 1 <= 64
    requires var p := Skip(buf, pos + 1); var start := Held({}, Zero(kind));
      if At(buf, p) == '}' then r == Got(start, p) else r == Members(kind, buf, p, depth + 1, start)
    ensures var q := Record(kind, buf, pos, depth);
      && (r.Refused? ==> q.Refused? && q.word == r.word)
      && (r.Got? && At(buf, r.pos) == '}' ==>
            if Needed(kind) <= r.value.seen then q == Got(r.value.v, r.pos + 1) else q.Refused? && q.word == "missing_field")
  {
    hide Members, Skip;
  }

  // ---- Lists ------------------------------------------------------------------------------------------------

  lemma {:induction false} SourcesMean(buf: string, pos: nat, depth: nat, j: Json)
    requires pos <= |buf| && Laid(j) && Stands(buf, pos, Text(j)) && depth + 2 <= 64
    ensures !j.JArr? ==> Sources(buf, pos, depth).Refused? && Sources(buf, pos, depth).word == "wrong_type"
    ensures j.JArr? ==> Agrees(Sources(buf, pos, depth), MeansSources(j.xs, []), pos + |Text(j)|)
    decreases j, 1
  {
    hide *;
    FirstByte(buf, pos, j);
    if j.JArr? {
      Brackets(buf, pos, j);
      var inside := if j.xs == [] then j.gap else ItemsText(j.xs);
      if j.xs == [] {
        SkipBlank(buf, pos + 1, j.gap);
        NoItems(j.xs);
        SourcesIs(buf, pos, depth, Got([], pos + 1 + |inside|));
      } else {
        ElementsMean(buf, pos + 1, depth + 1, j.xs, []);
        ElementsSkip(buf, pos + 1, depth + 1, []);
        SourcesIs(buf, pos, depth, Elements(buf, pos + 1, depth + 1, []));
      }
      ListJudged(buf, if j.xs == [] then Got([], pos + 1 + |inside|) else Elements(buf, pos + 1, depth + 1, []),
                 MeansSources(j.xs, []), Sources(buf, pos, depth), pos + |Text(j)|);
    } else {
      NoList(buf, pos, depth, j);
    }
  }

  lemma NoList(buf: string, pos: nat, depth: nat, j: Json)
    requires pos < |buf| && !j.JArr? && Begins(j, buf[pos])
    ensures Sources(buf, pos, depth).Refused? && Sources(buf, pos, depth).word == "wrong_type"
  {
    hide Elements;
  }

  lemma ListJudged(buf: string, r: Parsed<seq<Source>>, w: Verdict<seq<Source>>, q: Parsed<seq<Source>>, end: int)
    requires At(buf, end - 1) == ']' && Agrees(r, w, end - 1)
    requires r.Refused? ==> q.Refused? && q.word == r.word
    requires r.Got? && At(buf, r.pos) == ']' ==> q == Got(r.value, r.pos + 1)
    ensures Agrees(q, w, end)
  {
  }

  lemma Brackets(buf: string, pos: nat, j: Json)
    requires pos <= |buf| && j.JArr? && Laid(j) && Stands(buf, pos, Text(j))
    ensures pos < |buf| && buf[pos] == '[' && Blank(j.gap) && ItemsLaid(j.xs)
    ensures var inside := if j.xs == [] then j.gap else ItemsText(j.xs);
      Stands(buf, pos + 1, inside) && At(buf, pos + 1 + |inside|) == ']' && pos + |Text(j)| == pos + 1 + |inside| + 1
    ensures CleanSources([]) && !Space(At(buf, pos + |Text(j)| - 1))
  {
    hide ItemsText;
    var inside := if j.xs == [] then j.gap else ItemsText(j.xs);
    assert Text(j) == "[" + inside + "]";
    hide Text, Stands, ItemsLaid;
    Stands3(buf, pos, "[", inside, "]");
    StandsAt(buf, pos, "[", 0);
    StandsAt(buf, pos + 1 + |inside|, "]", 0);
  }

  /** A list's brackets, around its elements. */
  lemma SourcesIs(buf: string, pos: nat, depth: nat, r: Parsed<seq<Source>>)
    requires pos < |buf| && buf[pos] == '[' && depth + 1 <= 64
    requires var p := Skip(buf, pos + 1); if At(buf, p) == ']' then r == Got([], p) else r == Elements(buf, p, depth + 1, [])
    ensures var q := Sources(buf, pos, depth);
      && (r.Refused? ==> q.Refused? && q.word == r.word)
      && (r.Got? && At(buf, r.pos) == ']' ==> q == Got(r.value, r.pos + 1))
  {
    hide Elements, Skip;
  }

  lemma NoItems(xs: seq<Item>)
    requires xs == []
    ensures MeansSources(xs, []) == Accepts([])
  {
  }

  lemma ElementsSkip(buf: string, pos: nat, depth: nat, out: seq<Source>)
    requires pos <= |buf| && CleanSources(out)
    ensures Elements(buf, Skip(buf, pos), depth, out) == Elements(buf, pos, depth, out)
  {
    SkipTwice(buf, pos);
    hide Skip, Record, MoreElements;
  }

  lemma ItemsSplit(buf: string, pos: nat, xs: seq<Item>)
    requires xs != [] && ItemsLaid(xs) && Stands(buf, pos, ItemsText(xs)) && At(buf, pos + |ItemsText(xs)|) == ']'
    ensures ItemLaid(xs[0]) && ItemsLaid(xs[1..]) && Stands(buf, pos, ItemText(xs[0]))
    ensures var p := pos + |ItemText(xs[0])|;
      if |xs| == 1 then At(buf, p) == ']' && p == pos + |ItemsText(xs)|
      else At(buf, p) == ',' && Stands(buf, p + 1, ItemsText(xs[1..])) && p + 1 + |ItemsText(xs[1..])| == pos + |ItemsText(xs)|
    ensures 0 <= pos && pos + |ItemText(xs[0])| < |buf|
  {
    hide ItemText, ItemLaid;
    if |xs| > 1 {
      Stands3(buf, pos, ItemText(xs[0]), ",", ItemsText(xs[1..]));
      StandsAt(buf, pos + |ItemText(xs[0])|, ",", 0);
      StandsEnds(buf, pos, ItemText(xs[0]));
    } else {
      StandsEnds(buf, pos, ItemText(xs[0]));
    }
  }

  lemma ItemSplits(buf: string, pos: nat, i: Item)
    requires pos <= |buf| && ItemLaid(i) && Stands(buf, pos, ItemText(i)) && Closes(At(buf, pos + |ItemText(i)|))
    ensures Laid(i.x)
    ensures var p := pos + |i.before|; var end := p + |Text(i.x)|;
      && Stands(buf, p, Text(i.x)) && p < |buf| && Skip(buf, pos) == p && !Closes(buf[p])
      && end <= |buf| && Skip(buf, end) == end + |i.after| == pos + |ItemText(i)|
  {
    assert Blank(i.before) && Laid(i.x) && Blank(i.after);
    hide Text, Closes, Laid, Stands, Skip, Space, Follows, Blank;
    assert ItemText(i) == i.before + (Text(i.x) + i.after);
    StandsSplit(buf, pos, i.before, Text(i.x) + i.after);
    ValueStands(buf, pos + |i.before|, i.x, i.after);
    SkipBlank(buf, pos, i.before);
  }

  lemma {:induction false} ElementsMean(buf: string, pos: nat, depth: nat, xs: seq<Item>, out: seq<Source>)
    requires pos <= |buf| && xs != [] && ItemsLaid(xs) && Stands(buf, pos, ItemsText(xs)) && CleanSources(out)
    requires At(buf, pos + |ItemsText(xs)|) == ']' && depth + 1 <= 64
    ensures Agrees(Elements(buf, pos, depth, out), MeansSources(xs, out), pos + |ItemsText(xs)|)
    ensures At(buf, Skip(buf, pos)) != ']'
    decreases xs, 0
  {
    hide Stands, Record, Skip, ItemText, Text, Means, Clean, Laid;
    var i := xs[0];
    ItemsSplit(buf, pos, xs);
    ItemSplits(buf, pos, i);
    var p, end := pos + |i.before|, pos + |ItemText(i)|;
    var q := p + |Text(i.x)|;
    RecordMeans(ASource, buf, p, depth, i.x);
    var r := Record(ASource, buf, p, depth);
    if r.Got? {
      var next := SourceClean(r.value, out);
      if |xs| > 1 { ElementsMean(buf, end + 1, depth, xs[1..], next); }
    }
  }

  lemma SourceClean(v: Value, out: seq<Source>) returns (next: seq<Source>)
    requires v.OfSource? && Clean(v) && CleanSources(out)
    ensures next == out + [v.s] && CleanSources(next)
  {
    next := out + [v.s];
  }

  // ---- Whole inputs -------------------------------------------------------------------------------------------

  lemma TextStands(lead: string, t: string, trail: string)
    ensures var buf := lead + t + trail;
      Stands(buf, 0, lead) && Stands(buf, |lead|, t) && Stands(buf, |lead| + |t|, trail)
  {
    var buf := lead + t + trail;
    assert buf[0..|buf|] == buf;
    Stands3(buf, 0, lead, t, trail);
  }

  /** The decoder's answer to a whole input is the one its text stands for, whatever white space is in
      and around it: the same record, or a refusal with the same reason. */
  lemma DecodeMeans(kind: Kind, lead: string, j: Json, trail: string)
    requires Laid(j) && Blank(lead) && Blank(trail)
    ensures Agrees(Decode(kind, lead + Text(j) + trail), Means(kind, j), |lead + Text(j) + trail|)
  {
    hide Text, Record, Means, Skip, Stands;
    var t := Text(j);
    var buf := lead + t + trail;
    TextStands(lead, t, trail);
    FirstByte(buf, |lead|, j);
    SkipBlank(buf, 0, lead);
    SkipBlank(buf, |lead| + |t|, trail);
    RecordMeans(kind, buf, |lead|, 0, j);
  }

  /** Whatever is left after a record and white space is refused as trailing bytes. */
  lemma TrailingMeans(kind: Kind, lead: string, j: Json, trail: string, more: string)
    requires Laid(j) && Blank(lead) && Blank(trail) && more != "" && !Blank([more[0]]) && Means(kind, j).Accepts?
    ensures var r := Decode(kind, lead + Text(j) + (trail + more)); r.Refused? && r.word == "trailing_bytes"
  {
    hide Text, Record, Means, Skip, Stands;
    var t := Text(j);
    var buf := lead + t + (trail + more);
    TextStands(lead, t, trail + more);
    FirstByte(buf, |lead|, j);
    StandsSplit(buf, |lead| + |t|, trail, more);
    StandsAt(buf, |lead| + |t| + |trail|, more, 0);
    NotBlank(more[0]);
    SkipBlank(buf, 0, lead);
    SkipBlank(buf, |lead| + |t|, trail);
    RecordMeans(kind, buf, |lead|, 0, j);
  }

  lemma NotBlank(c: char)
    requires !Blank([c])
    ensures !Space(c)
  {
  }

  /** A record below the sixty-fourth level is refused, whatever it is. */
  lemma TooDeepMeans(kind: Kind, buf: string, pos: nat, depth: nat)
    requires pos < |buf| && buf[pos] == '{' && depth >= 64
    ensures Record(kind, buf, pos, depth).Refused? && Record(kind, buf, pos, depth).word == "depth_exceeded"
  {
    hide Members;
  }

  /** A failure says whether it is permanent in a word of its own, true or false, before its reason or
      after it, however its keys and its reason are spelled. */
  lemma PermanentEitherWay(lead: string, gap: string, error: Entry, permanent: Entry, x: string, b: bool, trail: string)
    requires Blank(lead) && Blank(gap) && Blank(trail) && EntryLaid(error) && EntryLaid(permanent)
    requires AllWellSpelt(error.key) && AllWellSpelt(permanent.key) && Laid(error.x)
    requires Says(error.key) == Some("error") && error.x.JStr? && Says(error.x.ps) == Some(x)
    requires Says(permanent.key) == Some("permanent") && permanent.x == JBool(b)
    ensures forall es | es == [error, permanent] || es == [permanent, error] ::
      Laid(JObj(gap, es)) && var buf := lead + Text(JObj(gap, es)) + trail;
      Decode(AFailure, buf) == Got(OfFailure(Failure(x, b, "")), |buf|)
  {
    hide Says, Decode, Text, EntryLaid;
    forall es | es == [error, permanent] || es == [permanent, error]
      ensures Laid(JObj(gap, es)) && var buf := lead + Text(JObj(gap, es)) + trail;
        Decode(AFailure, buf) == Got(OfFailure(Failure(x, b, "")), |buf|)
    {
      TwoLaid(gap, es);
      DecodeMeans(AFailure, lead, JObj(gap, es), trail);
      TwoMean(gap, error, permanent, x, b);
    }
  }

  lemma TwoLaid(gap: string, es: seq<Entry>)
    requires Blank(gap) && |es| == 2 && EntryLaid(es[0]) && EntryLaid(es[1])
    ensures Laid(JObj(gap, es)) && EntriesLaid(es)
  {
    hide EntryLaid;
    assert EntriesLaid(es[1..][1..]);
    assert EntriesLaid(es[1..]);
  }

  lemma TwoMean(gap: string, error: Entry, permanent: Entry, x: string, b: bool)
    requires Blank(gap) && EntryLaid(error) && EntryLaid(permanent)
    requires AllWellSpelt(error.key) && AllWellSpelt(permanent.key) && Laid(error.x)
    requires Says(error.key) == Some("error") && error.x.JStr? && Says(error.x.ps) == Some(x)
    requires Says(permanent.key) == Some("permanent") && permanent.x == JBool(b)
    ensures Laid(JObj(gap, [error, permanent])) && Means(AFailure, JObj(gap, [error, permanent])) == Accepts(OfFailure(Failure(x, b, "")))
    ensures Laid(JObj(gap, [permanent, error])) && Means(AFailure, JObj(gap, [permanent, error])) == Accepts(OfFailure(Failure(x, b, "")))
  {
    hide Says, EntryLaid;
    TwoLaid(gap, [error, permanent]);
    TwoLaid(gap, [permanent, error]);
    var v := Zero(AFailure);
    var e1, p1 := OfFailure(Failure(x, false, "")), OfFailure(Failure("", b, ""));
    var done := OfFailure(Failure(x, b, ""));
    OneMeans(error, {}, v, [permanent], "error", e1);
    OneMeans(permanent, {"error"}, e1, [], "permanent", done);
    OneMeans(permanent, {}, v, [error], "permanent", p1);
    OneMeans(error, {"permanent"}, p1, [], "error", done);
  }

  lemma OneMeans(e: Entry, seen: set<string>, v: Value, rest: seq<Entry>, key: string, next: Value)
    requires EntriesLaid([e] + rest) && EntriesLaid(rest) && EntryLaid(e) && AllWellSpelt(e.key) && Laid(e.x)
    requires Says(e.key) == Some(key) && key in Fields(AFailure) && key !in seen && MeansField(v, key, e.x) == Accepts(next)
    ensures MeansMembers(AFailure, [e] + rest, seen, v) == MeansMembers(AFailure, rest, seen + {key}, next)
  {
    hide Says, MeansField, EntryLaid, Laid;
    assert ([e] + rest)[1..] == rest;
  }
}
