/** What the D-Bus encoder writes is what its decoder reads: every value within the limits comes
    back, and one nested deeper than the decoder goes is refused.

    `Fits` is what can be written at all, `Erase` what a value comes back as, and `Height` how deep
    it nests; `ValueReads` says the rest, for any offset in any bytes. */
module DBusRoundTrip {
  import opened Bytes
  import opened DBusWire
  import opened Numbers

  // ---- Values that can be written, and what they come back as ---------------------------------------

  /** Signatures short enough for their length byte, words that fit, and variants that say what they
      hold. */
  predicate Fits(v: Val)
    decreases v, 0
  {
    match v
    case Text(_) => true
    case Path(_) => true
    case Signature(g) => |g| <= 255
    case Word(u) => 0 <= u < WORDS
    case Variant(sig, x) => sig == SignatureOf(x) && Fits(x)
    case Texts(_) => true
    case Dict(es) => EntriesFit(es)
  }

  predicate EntriesFit(es: seq<Entry>)
    decreases es, 0
  {
    es == [] || (es[0].sig == SignatureOf(es[0].value) && Fits(es[0].value) && EntriesFit(es[1..]))
  }

  /** How many levels of the decoder a value takes below its own. */
  function Height(v: Val): nat
    decreases v, 0
  {
    match v
    case Variant(_, x) => 1 + Height(x)
    case Texts(ss) => if ss == [] then 0 else 1
    case Dict(es) => EntriesHeight(es)
    case _ => 0
  }

  /** An entry is a struct in the array, a variant in the struct, and a value in the variant. */
  function EntriesHeight(es: seq<Entry>): nat
    decreases es, 0
  {
    if es == [] then 0 else Max(3 + Height(es[0].value), EntriesHeight(es[1..]))
  }

  function Erase(v: Val): Decoded
    decreases v, 0
  {
    match v
    case Text(s) => Str(s)
    case Path(s) => Str(s)
    case Signature(g) => Sig(g)
    case Word(u) => Fixed('u', u)
    case Variant(sig, x) => Var(sig, Erase(x))
    case Texts(ss) => List(Strs(ss))
    case Dict(es) => Map(Entries(es, map[]))
  }

  function Strs(ss: seq<string>): seq<Decoded> { if ss == [] then [] else [Str(ss[0])] + Strs(ss[1..]) }

  function Entries(es: seq<Entry>, out: map<Decoded, Decoded>): map<Decoded, Decoded>
    decreases es, 0
  {
    if es == [] then out else Entries(es[1..], out[Str(es[0].key) := Var(es[0].sig, Erase(es[0].value))])
  }

  // ---- Padding and numbers ------------------------------------------------------------------------

  lemma {:induction false} AlignedToFour(b: string, off: nat, stop: nat)
    requires off <= stop <= |b| && stop % 4 == 0 && stop - off < 4
    ensures Aligned(b, off, 4) == Good(stop, stop)
    decreases stop - off
  {
    if off < stop {
      assert off % 4 != 0;
      AlignedToFour(b, off + 1, stop);
    }
  }

  lemma {:induction false} AlignedToEight(b: string, off: nat, stop: nat)
    requires off <= stop <= |b| && stop % 8 == 0 && stop - off < 8
    ensures Aligned(b, off, 8) == Good(stop, stop)
    decreases stop - off
  {
    if off < stop {
      assert off % 8 != 0;
      AlignedToEight(b, off + 1, stop);
    }
  }

  lemma PadReads(b: string, off: nat, n: nat)
    requires (n == 4 || n == 8) && off + |Pad(off, n)| <= |b|
    ensures Aligned(b, off, n).Good? && Aligned(b, off, n).off == off + |Pad(off, n)|
  {
    var stop := off + |Pad(off, n)|;
    hide Pad, Aligned;
    if n == 4 { AlignedToFour(b, off, stop); } else { AlignedToEight(b, off, stop); }
  }

  lemma WordBytesRead(big: bool, v: int)
    requires 0 <= v < WORDS
    ensures Number(big, WordBytes(big, v)) == v
  {
    var p := WordBytes(big, v);
    var high, low := v / 65536 % 256 + 256 * (v / 16777216 % 256), v % 256 + 256 * (v / 256 % 256);
    if big {
      assert p[..3][..2] == p[..2] && p[..2][..1] == p[..1] && p[..1][..0] == [];
      assert Number(big, p[..1]) == v / 16777216 % 256;
      assert Number(big, p[..2]) == high;
    } else {
      assert p[1..][1..] == p[2..] && p[2..][1..] == p[3..] && p[3..][1..] == [];
      assert Number(big, p[3..]) == v / 16777216 % 256;
      assert Number(big, p[2..]) == high;
    }
    assert v / 256 / 256 == v / 65536 && v / 65536 / 256 == v / 16777216;
  }

  lemma WordReads(big: bool, b: string, off: nat, v: int)
    requires 0 <= v < WORDS && Stands(b, off, WordText(big, off, v))
    ensures FixedAt(big, b, off, 4) == Good(v, off + |WordText(big, off, v)|)
  {
    StandsSplit(b, off, Pad(off, 4), WordBytes(big, v));
    PadReads(b, off, 4);
    WordBytesRead(big, v);
  }

  lemma StrReads(big: bool, b: string, off: nat, s: string)
    requires |b| < WORDS && Stands(b, off, StrText(big, off, s))
    ensures StrAt(big, b, off) == Good(s, off + |StrText(big, off, s)|)
  {
    Stands3(b, off, WordText(big, off, |s|), s, "\0");
    WordReads(big, b, off, |s|);
  }

  lemma SigReads(big: bool, b: string, off: nat, s: string)
    requires |s| <= 255 && Stands(b, off, SigText(s))
    ensures SigAt(big, b, off) == Good(s, off + |SigText(s)|)
  {
    var len := [(|s| % 256) as char];
    Stands3(b, off, len, s, "\0");
    assert Aligned(b, off, 1).off == off;
    assert b[off..off + 1] == len;
    assert Number(big, len) == |s| by { assert len[1..] == [] && len[..0] == []; }
  }

  lemma SignatureIsOne(v: Val)
    ensures CompleteType(SignatureOf(v)) == |SignatureOf(v)| && 0 < |SignatureOf(v)| <= 5
  {
    if v.Texts? { ListType(); }
    else if v.Dict? { MapType(); }
  }

  lemma ListType()
    ensures CompleteType("as") == 2
  {
    assert "as"[1..] == "s";
  }

  lemma MapType()
    ensures CompleteType("a{sv}") == 5
  {
    DictType();
    hide Closed;
    assert "a{sv}"[1..] == "{sv}";
  }

  lemma DictType()
    ensures CompleteType("{sv}") == 4 && CompleteType("sv") == 1 && CompleteType("v") == 1
  {
    assert Closed("{sv}", 3, '}') == 4;
    assert Closed("{sv}", 2, '}') == 4;
  }

  // ---- Values ---------------------------------------------------------------------------------------

  /** A value read back, or refused for going deeper than the decoder does. */
  function Expected(v: Decoded, end: nat, depth: nat, height: nat): Reading<Decoded> {
    if depth + height <= DEEPEST then Good(v, end) else Bad(Refused)
  }

  lemma TooDeep(big: bool, b: string, off: nat, sig: string)
    requires off <= |b| && sig != ""
    ensures Value(big, b, off, sig, DEEPEST + 1) == Bad(Refused)
  {
  }

  lemma LeafReads(big: bool, b: string, off: nat, v: Val, depth: nat)
    requires |b| < WORDS && depth <= DEEPEST + 1 && Stands(b, off, ValText(big, off, v)) && Fits(v)
    requires v.Text? || v.Path? || v.Signature? || v.Word?
    ensures Value(big, b, off, SignatureOf(v), depth) == Expected(Erase(v), off + |ValText(big, off, v)|, depth, 0)
  {
    hide VariantAt, ArrayAt, StructAt, StrText, SigText, WordText, StrAt, SigAt;
    match v
    case Text(s) => StrReads(big, b, off, s);
    case Path(s) => StrReads(big, b, off, s);
    case Signature(s) => SigReads(big, b, off, s);
    case Word(u) => WordReads(big, b, off, u);
  }

  lemma SigValueReads(big: bool, b: string, off: nat, sig: string, depth: nat)
    requires |b| < WORDS && depth <= DEEPEST + 1 && Stands(b, off, SigText(sig)) && |sig| <= 255
    ensures Value(big, b, off, "g", depth) == Expected(Sig(sig), off + |SigText(sig)|, depth, 0)
  {
    LeafReads(big, b, off, Signature(sig), depth);
  }

  lemma StrValueReads(big: bool, b: string, off: nat, x: string, depth: nat)
    requires |b| < WORDS && depth <= DEEPEST + 1 && Stands(b, off, StrText(big, off, x))
    ensures Value(big, b, off, "s", depth) == Expected(Str(x), off + |StrText(big, off, x)|, depth, 0)
  {
    LeafReads(big, b, off, Text(x), depth);
  }

  lemma {:induction false} VariantReads(big: bool, b: string, off: nat, sig: string, x: Val, depth: nat)
    requires |b| < WORDS && depth <= DEEPEST + 1 && sig == SignatureOf(x) && Fits(x)
    requires Stands(b, off, SigText(sig)) && Stands(b, off + |SigText(sig)|, ValText(big, off + |SigText(sig)|, x))
    ensures Value(big, b, off, "v", depth)
      == Expected(Var(sig, Erase(x)), off + |SigText(sig)| + |ValText(big, off + |SigText(sig)|, x)|, depth, 1 + Height(x))
    decreases x, 1
  {
    hide Value, SigText, ValText, CompleteType, Fits;
    if depth == DEEPEST + 1 { TooDeep(big, b, off, "v"); }
    SignatureIsOne(x);
    if depth <= DEEPEST {
      var o := off + |SigText(sig)|;
      SigValueReads(big, b, off, sig, depth + 1);
      if depth == DEEPEST { TooDeep(big, b, o, sig); }
      ValueReads(big, b, o, x, depth + 1);
      VariantFrom(big, b, off, sig, o, Value(big, b, o, sig, depth + 1), depth);
    }
  }

  /** A variant, from its signature and its value as they read one level down. */
  lemma VariantFrom(big: bool, b: string, off: nat, sig: string, o: nat, inner: Reading<Decoded>, depth: nat)
    requires off <= o <= |b| && sig != "" && CompleteType(sig) == |sig| && depth <= DEEPEST
    requires Value(big, b, off, "g", depth + 1) == Expected(Sig(sig), o, depth + 1, 0)
    requires inner == Value(big, b, o, sig, depth + 1) && (depth == DEEPEST ==> inner == Bad(Refused))
    ensures Value(big, b, off, "v", depth) == if inner.Bad? then Bad(inner.why) else Good(Var(sig, inner.value), inner.off)
  {
    hide ArrayAt, StructAt, FixedAt;
  }

  lemma VariantStands(big: bool, b: string, off: nat, sig: string, x: Val)
    requires Stands(b, off, ValText(big, off, Variant(sig, x)))
    ensures Stands(b, off, SigText(sig)) && Stands(b, off + |SigText(sig)|, ValText(big, off + |SigText(sig)|, x))
    ensures |ValText(big, off, Variant(sig, x))| == |SigText(sig)| + |ValText(big, off + |SigText(sig)|, x)|
  {
    hide SigText;
    StandsSplit(b, off, SigText(sig), ValText(big, off + |SigText(sig)|, x));
  }

  lemma {:induction false} ValueReads(big: bool, b: string, off: nat, v: Val, depth: nat)
    requires |b| < WORDS && depth <= DEEPEST + 1 && Stands(b, off, ValText(big, off, v)) && Fits(v)
    ensures SignatureOf(v) != ""
    ensures Value(big, b, off, SignatureOf(v), depth) == Expected(Erase(v), off + |ValText(big, off, v)|, depth, Height(v))
    decreases v, 0
  {
    hide Value, ValText, SigText, CompleteType;
    SignatureIsOne(v);
    match v
    case Variant(sig, x) =>
      VariantStands(big, b, off, sig, x);
      VariantReads(big, b, off, sig, x, depth);
    case Texts(ss) => TextsRead(big, b, off, ss, depth);
    case Dict(es) => DictReads(big, b, off, es, depth);
    case _ => LeafReads(big, b, off, v, depth);
  }

  // ---- Arrays -----------------------------------------------------------------------------------------

  lemma ArrayStands(big: bool, b: string, off: nat, n: nat, gap: string, body: string) returns (start: nat)
    requires n < WORDS && Stands(b, off, Pad(off, 4) + WordBytes(big, n) + gap + body)
    ensures FixedAt(big, b, off, 4) == Good(n, off + |Pad(off, 4)| + 4)
    ensures start == off + |Pad(off, 4)| + 4 + |gap| <= |b| && Stands(b, start, body)
  {
    var head := WordText(big, off, n);
    start := off + |head| + |gap|;
    Stands3(b, off, head, gap, body);
    WordReads(big, b, off, n);
  }

  lemma TextsRead(big: bool, b: string, off: nat, ss: seq<string>, depth: nat)
    requires |b| < WORDS && depth <= DEEPEST + 1 && Stands(b, off, ValText(big, off, Texts(ss)))
    ensures Value(big, b, off, "as", depth)
      == Expected(List(Strs(ss)), off + |ValText(big, off, Texts(ss))|, depth, if ss == [] then 0 else 1)
  {
    hide Value, TextsText, FixedAt, CompleteType, ElementsAt;
    if depth == DEEPEST + 1 { TooDeep(big, b, off, "as"); }
    StringType();
    var body := TextsText(big, off + |Pad(off, 4)| + 4, ss);
    assert ValText(big, off, Texts(ss)) == Pad(off, 4) + WordBytes(big, |body|) + [] + body;
    var start := ArrayStands(big, b, off, |body|, [], body);
    if depth <= DEEPEST {
      StringsRead(big, b, start, start + |body|, ss, depth, []);
      assert [] + Strs(ss) == Strs(ss);
      ArrayFrom(big, b, off, |body|, "as", "s", start, depth);
    }
  }

  /** An array, from its length, its element type and the loop over its elements. */
  lemma ArrayFrom(big: bool, b: string, off: nat, n: nat, sig: string, element: string, start: nat, depth: nat)
    requires off <= |b| && start + n <= |b| && depth <= DEEPEST && FixedAt(big, b, off, 4).Good? && FixedAt(big, b, off, 4).value == n
    requires |sig| > 1 && sig[0] == 'a' && sig[1..] == element && CompleteType(element) == |element|
    requires Aligned(b, FixedAt(big, b, off, 4).off, Alignment(element[0])).Good?
    requires Aligned(b, FixedAt(big, b, off, 4).off, Alignment(element[0])).off == start
    ensures Value(big, b, off, sig, depth)
      == if element[0] == '{' then EntriesAt(big, b, start, start + n, element, depth, map[])
         else ElementsAt(big, b, start, start + n, element, depth, [])
  {
    hide ElementsAt, EntriesAt, StructAt, VariantAt;
    assert sig[1..1 + |element|] == element;
  }

  lemma StringType()
    ensures "as"[1..] == "s" && CompleteType("s") == 1 && Alignment('s') == 4
  {
  }

  lemma NoElements(big: bool, b: string, off: nat, end: nat, element: string, depth: nat, out: seq<Decoded>)
    requires off <= |b| && end <= |b| && element != "" && depth <= DEEPEST
    ensures off >= end ==> ElementsAt(big, b, off, end, element, depth, out) == Good(List(out), off)
  {
  }

  lemma NoEntries(big: bool, b: string, off: nat, end: nat, depth: nat, out: map<Decoded, Decoded>)
    requires off <= |b| && end <= |b| && depth <= DEEPEST
    ensures off >= end ==> EntriesAt(big, b, off, end, "{sv}", depth, out) == Good(Map(out), off)
  {
  }

  lemma {:induction false} StringsRead(big: bool, b: string, off: nat, end: nat, ss: seq<string>, depth: nat, out: seq<Decoded>)
    requires |b| < WORDS && depth <= DEEPEST && Stands(b, off, TextsText(big, off, ss)) && end == off + |TextsText(big, off, ss)|
    ensures ElementsAt(big, b, off, end, "s", depth, out)
      == Expected(List(out + Strs(ss)), end, depth, if ss == [] then 0 else 1)
    decreases |ss|
  {
    hide Value, ElementsAt;
    NoElements(big, b, off, end, "s", depth, out);
    if ss == [] {
      assert out + [] == out;
    } else {
      var first := StrText(big, off, ss[0]);
      StandsSplit(b, off, first, TextsText(big, off + |first|, ss[1..]));
      LeafReads(big, b, off, Text(ss[0]), depth + 1);
      StringsRead(big, b, off + |first|, end, ss[1..], depth, out + [Str(ss[0])]);
      assert out + [Str(ss[0])] + Strs(ss[1..]) == out + Strs(ss);
      ElementFrom(big, b, off, end, Str(ss[0]), off + |first|, depth, out);
    }
  }

  lemma ElementFrom(big: bool, b: string, off: nat, end: nat, x: Decoded, o: nat, depth: nat, out: seq<Decoded>)
    requires off < end <= |b| && off < o <= |b| && depth <= DEEPEST
    requires Value(big, b, off, "s", depth + 1) == Expected(x, o, depth + 1, 0)
    ensures ElementsAt(big, b, off, end, "s", depth, out)
      == if depth + 1 <= DEEPEST then ElementsAt(big, b, o, end, "s", depth, out + [x]) else Bad(Refused)
  {
    hide Value;
  }

  lemma EntryStands(big: bool, b: string, off: nat, e: Entry) returns (start: nat, o: nat, end: nat)
    requires Stands(b, off, EntryText(big, off, e))
    ensures off <= start <= o <= |b| && Aligned(b, off, 8).Good? && Aligned(b, off, 8).off == start
    ensures Stands(b, start, StrText(big, start, e.key)) && o == start + |StrText(big, start, e.key)|
    ensures Stands(b, o, SigText(e.sig)) && Stands(b, o + |SigText(e.sig)|, ValText(big, o + |SigText(e.sig)|, e.value))
    ensures end == off + |EntryText(big, off, e)| == o + |SigText(e.sig)| + |ValText(big, o + |SigText(e.sig)|, e.value)|
  {
    hide StrText, SigText, ValText;
    var pad := Pad(off, 8);
    start := off + |pad|;
    var key, sig := StrText(big, start, e.key), SigText(e.sig);
    o := start + |key|;
    var x := ValText(big, o + |sig|, e.value);
    assert EntryText(big, off, e) == pad + key + (sig + x);
    Stands3(b, off, pad, key, sig + x);
    StandsSplit(b, o, sig, x);
    PadReads(b, off, 8);
    end := off + |EntryText(big, off, e)|;
  }

  lemma {:induction false} EntryReads(big: bool, b: string, off: nat, e: Entry, depth: nat)
    requires |b| < WORDS && depth <= DEEPEST + 1 && Stands(b, off, EntryText(big, off, e))
    requires e.sig == SignatureOf(e.value) && Fits(e.value)
    ensures Value(big, b, off, "{sv}", depth)
      == Expected(Struct([Str(e.key), Var(e.sig, Erase(e.value))]), off + |EntryText(big, off, e)|, depth, 2 + Height(e.value))
    decreases e, 1
  {
    hide Value, EntryText, StrText, SigText, ValText, Aligned;
    if depth == DEEPEST + 1 { TooDeep(big, b, off, "{sv}"); }
    var start, o, end := EntryStands(big, b, off, e);
    if depth <= DEEPEST {
      StrValueReads(big, b, start, e.key, depth + 1);
      VariantReads(big, b, o, e.sig, e.value, depth + 1);
      PairFrom(big, b, off, start, e.key, o, Value(big, b, o, "v", depth + 1), depth);
    }
  }

  /** A dict entry, from its key and its value as they read one level down. */
  lemma PairFrom(big: bool, b: string, off: nat, start: nat, key: string, o: nat, v: Reading<Decoded>, depth: nat)
    requires off <= start <= o <= |b| && depth <= DEEPEST && Aligned(b, off, 8).Good? && Aligned(b, off, 8).off == start
    requires Value(big, b, start, "s", depth + 1) == Expected(Str(key), o, depth + 1, 0)
    requires v == Value(big, b, o, "v", depth + 1) && (depth == DEEPEST ==> v == Bad(Refused))
    ensures Value(big, b, off, "{sv}", depth) == if v.Bad? then Bad(v.why) else Good(Struct([Str(key), v.value]), v.off)
  {
    hide Value, FieldsAt;
    PairFields(big, b, start, key, o, v, depth);
    StructFrom(big, b, off, start, depth);
  }

  lemma StructFrom(big: bool, b: string, off: nat, start: nat, depth: nat)
    requires off <= start <= |b| && depth <= DEEPEST && Aligned(b, off, 8).Good? && Aligned(b, off, 8).off == start
    ensures Value(big, b, off, "{sv}", depth) == FieldsAt(big, b, start, "sv", depth, [])
  {
    hide FieldsAt, ArrayAt, VariantAt, Aligned, CompleteType, FixedAt;
    DictType();
    StructIs(big, b, off, "{sv}", "sv", start, depth);
  }

  lemma StructIs(big: bool, b: string, off: nat, sig: string, inner: string, start: nat, depth: nat)
    requires off <= start <= |b| && depth <= DEEPEST && Aligned(b, off, 8).Good? && Aligned(b, off, 8).off == start
    requires |sig| == |inner| + 2 && (sig[0] == '{' || sig[0] == '(') && sig[1..|sig| - 1] == inner && CompleteType(sig) == |sig|
    ensures Value(big, b, off, sig, depth) == FieldsAt(big, b, start, inner, depth, [])
  {
    hide FieldsAt, ArrayAt, VariantAt, Aligned, CompleteType, FixedAt;
  }

  lemma PairFields(big: bool, b: string, start: nat, key: string, o: nat, v: Reading<Decoded>, depth: nat)
    requires start <= o <= |b| && depth <= DEEPEST
    requires Value(big, b, start, "s", depth + 1) == Expected(Str(key), o, depth + 1, 0)
    requires v == Value(big, b, o, "v", depth + 1) && (depth == DEEPEST ==> v == Bad(Refused))
    ensures FieldsAt(big, b, start, "sv", depth, []) == if v.Bad? then Bad(v.why) else Good(Struct([Str(key), v.value]), v.off)
  {
    hide Value, FieldsAt, CompleteType;
    DictType();
    FieldFrom(big, b, start, "sv", "s", "v", depth, []);
    if depth < DEEPEST {
      assert [] + [Str(key)] == [Str(key)];
      FieldFrom(big, b, o, "v", "v", "", depth, [Str(key)]);
      if v.Good? {
        assert [Str(key)] + [v.value] == [Str(key), v.value];
        NoFields(big, b, v.off, depth, [Str(key), v.value]);
      }
    }
  }

  lemma NoFields(big: bool, b: string, off: nat, depth: nat, out: seq<Decoded>)
    requires off <= |b| && depth <= DEEPEST
    ensures FieldsAt(big, b, off, "", depth, out) == Good(Struct(out), off)
  {
  }

  lemma FieldFrom(big: bool, b: string, off: nat, inner: string, first: string, rest: string, depth: nat, out: seq<Decoded>)
    requires off <= |b| && depth <= DEEPEST && first != "" && inner == first + rest && CompleteType(inner) == |first|
    ensures var x := Value(big, b, off, first, depth + 1);
      FieldsAt(big, b, off, inner, depth, out) == if x.Bad? then Bad(x.why) else FieldsAt(big, b, x.off, rest, depth, out + [x.value])
  {
    hide Value, CompleteType;
    assert inner[..|first|] == first && inner[|first|..] == rest;
  }

  lemma {:induction false} EntriesRead(big: bool, b: string, off: nat, end: nat, es: seq<Entry>, depth: nat, out: map<Decoded, Decoded>)
    requires |b| < WORDS && depth <= DEEPEST && EntriesFit(es)
    requires Stands(b, off, EntriesText(big, off, es)) && end == off + |EntriesText(big, off, es)|
    ensures EntriesAt(big, b, off, end, "{sv}", depth, out) == Expected(Map(Entries(es, out)), end, depth, EntriesHeight(es))
    decreases es, 0
  {
    hide Value, EntriesAt, EntryText;
    NoEntries(big, b, off, end, depth, out);
    if es != [] {
      var first := EntryText(big, off, es[0]);
      var x := Struct([Str(es[0].key), Var(es[0].sig, Erase(es[0].value))]);
      StandsSplit(b, off, first, EntriesText(big, off + |first|, es[1..]));
      EntryNotEmpty(big, off, es[0]);
      EntryReads(big, b, off, es[0], depth + 1);
      EntriesRead(big, b, off + |first|, end, es[1..], depth, out[x.fs[0] := x.fs[1]]);
      EntryFrom(big, b, off, end, x, off + |first|, depth, 2 + Height(es[0].value), out);
    }
  }

  lemma EntryNotEmpty(big: bool, off: nat, e: Entry)
    ensures |EntryText(big, off, e)| > 0
  {
    hide ValText;
  }

  lemma EntryFrom(big: bool, b: string, off: nat, end: nat, x: Decoded, o: nat, depth: nat, height: nat, out: map<Decoded, Decoded>)
    requires off < end <= |b| && off < o <= |b| && depth <= DEEPEST && x.Struct? && |x.fs| == 2 && Hashable(x.fs[0])
    requires Value(big, b, off, "{sv}", depth + 1) == Expected(x, o, depth + 1, height)
    ensures EntriesAt(big, b, off, end, "{sv}", depth, out)
      == if depth + 1 + height <= DEEPEST then EntriesAt(big, b, o, end, "{sv}", depth, out[x.fs[0] := x.fs[1]]) else Bad(Refused)
  {
    hide Value;
  }

  lemma DictStands(big: bool, b: string, off: nat, es: seq<Entry>) returns (o: nat, gap: string, body: string, start: nat)
    requires |b| < WORDS && Stands(b, off, ValText(big, off, Dict(es)))
    ensures FixedAt(big, b, off, 4).Good? && FixedAt(big, b, off, 4).value == |body| && FixedAt(big, b, off, 4).off == o
    ensures Aligned(b, o, 8).Good? && Aligned(b, o, 8).off == start
    ensures start <= |b| && body == EntriesText(big, start, es) && Stands(b, start, body)
    ensures start + |body| == off + |ValText(big, off, Dict(es))|
  {
    hide EntriesText, WordBytes;
    o := off + |Pad(off, 4)| + 4;
    gap := Pad(o, 8);
    body := EntriesText(big, o + |gap|, es);
    DictSpelt(big, off, es, gap, body);
    start := ArrayStands(big, b, off, |body|, gap, body);
    PadReads(b, o, 8);
  }

  lemma DictSpelt(big: bool, off: nat, es: seq<Entry>, gap: string, body: string)
    requires gap == Pad(off + |Pad(off, 4)| + 4, 8) && body == EntriesText(big, off + |Pad(off, 4)| + 4 + |gap|, es)
    ensures ValText(big, off, Dict(es)) == Pad(off, 4) + WordBytes(big, |body|) + gap + body
    ensures |ValText(big, off, Dict(es))| == |Pad(off, 4)| + 4 + |gap| + |body|
  {
    hide EntriesText, Pad;
  }

  lemma {:induction false} DictReads(big: bool, b: string, off: nat, es: seq<Entry>, depth: nat)
    requires |b| < WORDS && depth <= DEEPEST + 1 && Stands(b, off, ValText(big, off, Dict(es))) && EntriesFit(es)
    ensures Value(big, b, off, "a{sv}", depth)
      == Expected(Map(Entries(es, map[])), off + |ValText(big, off, Dict(es))|, depth, EntriesHeight(es))
    decreases es, 1
  {
    hide Value, ValText, EntriesText, EntriesAt, CompleteType, FixedAt, Aligned;
    if depth == DEEPEST + 1 { TooDeep(big, b, off, "a{sv}"); }
    var o, gap, body, start := DictStands(big, b, off, es);
    if depth <= DEEPEST {
      EntriesRead(big, b, start, start + |body|, es, depth, map[]);
      DictType();
      assert "a{sv}"[1..] == "{sv}";
      ArrayFrom(big, b, off, |body|, "a{sv}", "{sv}", start, depth);
    }
  }
}
