/** The D-Bus encoder and decoder as the objects they are (go/netcost/dbus.go: dbusEncoder,
    dbusDecoder): a buffer appended to, with array lengths patched in afterwards, and an offset and
    a depth moved along. Each method does what DBusWire or DBusMessage says.

    The round trip is proved of those functions, in DBusRoundTrip and DBusMessage, whose offsets
    are those of the buffer here. */
module DBusCodec {
  import opened DBusMessage
  import opened DBusWire

  class Encoder {
    var b: string

    constructor (start: string)
      ensures b == start
    {
      b := start;
    }

    method Align(n: nat)
      requires n == 4 || n == 8
      modifies this
      ensures b == old(b) + Pad(|old(b)|, n)
    {
      while |b| % n != 0
        invariant |b| <= |old(b)| + |Pad(|old(b)|, n)|
        invariant b == old(b) + Zeros(|b| - |old(b)|)
        decreases |old(b)| + |Pad(|old(b)|, n)| - |b|
      {
        b := b + "\0";
        assert b == old(b) + Zeros(|b| - |old(b)|);
      }
      OnlyMultiple(|old(b)|, n, |b|);
    }

    method U32(v: int)
      modifies this
      ensures b == old(b) + WordText(false, |old(b)|, v)
    {
      Align(4);
      b := b + WordBytes(false, v);
    }

    method PutStr(v: string)
      modifies this
      ensures b == old(b) + StrText(false, |old(b)|, v)
    {
      U32(|v|);
      b := b + v + "\0";
    }

    method PutSig(v: string)
      modifies this
      ensures b == old(b) + SigText(v)
    {
      b := b + [(|v| % 256) as char] + v + "\0";
    }

    /** The length of an array, put where a zero was left for it. */
    method Patch(at: nat, v: int, ghost before: string, ghost after: string)
      requires b == before + WordBytes(false, 0) + after && at == |before|
      modifies this
      ensures b == before + WordBytes(false, v) + after
    {
      assert |WordBytes(false, 0)| == 4 && |WordBytes(false, v)| == 4;
      b := b[..at] + WordBytes(false, v) + b[at + 4..];
    }

    method PutValue(v: Val)
      modifies this
      ensures b == old(b) + ValText(false, |old(b)|, v)
      decreases v, 2
    {
      hide Pad, StrText, SigText;
      match v
      case Text(s) => PutStr(s);
      case Path(s) => PutStr(s);
      case Signature(s) => PutSig(s);
      case Word(u) => U32(u);
      case Variant(sig, x) =>
        PutSig(sig);
        PutValue(x);
      case Texts(ss) => PutTexts(ss);
      case Dict(es) => PutDict(es);
    }

    method PutTexts(ss: seq<string>)
      modifies this
      ensures b == old(b) + ValText(false, |old(b)|, Texts(ss))
    {
      hide Pad, StrText, WordBytes;
      ghost var base := b + Pad(|b|, 4);
      U32(0);
      LengthIsFour(0);
      var at := |b| - 4;
      var start := |b|;
      for i := 0 to |ss|
        invariant |b| >= start
        invariant b + TextsText(false, |b|, ss[i..]) == base + WordBytes(false, 0) + TextsText(false, start, ss)
      {
        assert ss[i..][1..] == ss[i + 1..];
        PutStr(ss[i]);
      }
      assert ss[|ss|..] == [];
      Patch(at, |b| - start, base, TextsText(false, start, ss));
    }

    method PutEntry(e: Entry)
      modifies this
      ensures b == old(b) + EntryText(false, |old(b)|, e)
      decreases e, 3
    {
      hide Pad, StrText, SigText;
      Align(8);
      PutStr(e.key);
      PutSig(e.sig);
      PutValue(e.value);
    }

    method PutEntries(es: seq<Entry>)
      modifies this
      ensures b == old(b) + EntriesText(false, |old(b)|, es)
      decreases es, 0
    {
      hide EntryText;
      for i := 0 to |es|
        invariant b + EntriesText(false, |b|, es[i..]) == old(b) + EntriesText(false, |old(b)|, es)
      {
        assert es[i..][1..] == es[i + 1..];
        PutEntry(es[i]);
      }
      assert es[|es|..] == [];
    }

    method PutDict(es: seq<Entry>)
      modifies this
      ensures b == old(b) + ValText(false, |old(b)|, Dict(es))
      decreases es, 1
    {
      hide Pad, WordBytes, EntriesText, ValText;
      ghost var base := b + Pad(|b|, 4);
      DictIs(|b|, es);
      U32(0);
      LengthIsFour(0);
      var at := |b| - 4;
      ghost var gap := Pad(|b|, 8);
      Align(8);
      var start := |b|;
      ghost var body := EntriesText(false, start, es);
      PutEntries(es);
      assert b == base + WordBytes(false, 0) + (gap + body);
      Patch(at, |b| - start, base, gap + body);
    }
  }

  lemma DictIs(off: nat, es: seq<Entry>)
    ensures var pad := Pad(off, 4); var gap := Pad(off + |pad| + 4, 8);
      var body := EntriesText(false, off + |pad| + 4 + |gap|, es);
      ValText(false, off, Dict(es)) == pad + WordBytes(false, |body|) + gap + body
  {
    hide Pad, EntriesText;
  }

  lemma LengthIsFour(v: int)
    ensures |WordBytes(false, v)| == 4
  {
  }

  /** There is one multiple of n in any n consecutive lengths. */
  lemma OnlyMultiple(off: nat, n: nat, len: nat)
    requires (n == 4 || n == 8) && off <= len <= off + |Pad(off, n)| && len % n == 0
    ensures len == off + |Pad(off, n)|
  {
    var up := off + |Pad(off, n)|;
    var none := |Pad(off, n)|;
    hide Pad;
    if n == 4 { Only4(len, up); } else { Only8(len, up); }
  }

  lemma Only4(a: nat, b: nat)
    requires a % 4 == 0 && b % 4 == 0 && a <= b < a + 4
    ensures a == b
  {
  }

  lemma Only8(a: nat, b: nat)
    requires a % 8 == 0 && b % 8 == 0 && a <= b < a + 8
    ensures a == b
  {
  }

  // ---- Messages ---------------------------------------------------------------------------------------

  method PutField(e: Encoder, f: Coded)
    requires 0 <= f.code < 256
    modifies e
    ensures e.b == old(e.b) + CodedText(false, |old(e.b)|, f)
  {
    hide Pad, ValText, SigText;
    e.Align(8);
    e.b := e.b + [f.code as char];
    e.PutSig(SignatureOf(f.v));
    e.PutValue(f.v);
  }

  /** The coded fields there are, one after another. */
  method PutFields(e: Encoder, slots: seq<Slot>)
    requires forall i :: 0 <= i < |slots| ==> 0 < slots[i].field.code < 256
    modifies e
    ensures Codes(Present(slots)) && e.b == old(e.b) + CodedTexts(false, |old(e.b)|, Present(slots))
  {
    hide CodedText, CodedTexts, Present, Codes;
    PresentCodes(slots);
    assert slots[0..] == slots;
    for i := 0 to |slots|
      invariant Codes(Present(slots[i..]))
      invariant e.b + CodedTexts(false, |e.b|, Present(slots[i..])) == old(e.b) + CodedTexts(false, |old(e.b)|, Present(slots))
    {
      NextSlot(|e.b|, slots[i..]);
      assert slots[i..][1..] == slots[i + 1..];
      if slots[i].present { PutField(e, slots[i].field); }
    }
    assert slots[|slots|..] == [];
    NoMoreText(|e.b|);
  }

  lemma NoMoreText(off: nat)
    ensures Present([]) == [] && CodedTexts(false, off, []) == ""
  {
  }

  lemma NextSlot(off: nat, slots: seq<Slot>)
    requires slots != [] && forall i :: 0 <= i < |slots| ==> 0 < slots[i].field.code < 256
    ensures Codes(Present(slots)) && Codes(Present(slots[1..]))
    ensures var first := if slots[0].present then CodedText(false, off, slots[0].field) else "";
      CodedTexts(false, off, Present(slots)) == first + CodedTexts(false, off + |first|, Present(slots[1..]))
  {
    hide CodedText;
    PresentCodes(slots);
    PresentCodes(slots[1..]);
    if slots[0].present {
      FirstText(off, slots[0].field, Present(slots[1..]));
    } else {
      assert Present(slots) == Present(slots[1..]);
    }
  }

  lemma FirstText(off: nat, f: Coded, rest: seq<Coded>)
    requires 0 < f.code < 256 && Codes([f] + rest) && Codes(rest)
    ensures var first := CodedText(false, off, f); CodedTexts(false, off, [f] + rest) == first + CodedTexts(false, off + |first|, rest)
  {
    hide CodedText;
    assert ([f] + rest)[1..] == rest;
  }

  method EncodeBody(vs: seq<Val>) returns (body: Encoder, signature: string)
    ensures fresh(body) && body.b == BodyText(false, 0, vs) && signature == BodySignature(vs)
  {
    hide ValText, SignatureOf, BodyText, BodySignature;
    body := new Encoder("");
    signature := "";
    assert vs[0..] == vs;
    for i := 0 to |vs|
      invariant fresh(body) && body.b + BodyText(false, |body.b|, vs[i..]) == BodyText(false, 0, vs)
      invariant signature + BodySignature(vs[i..]) == BodySignature(vs)
    {
      NextInBody(|body.b|, vs, i);
      signature := signature + SignatureOf(vs[i]);
      body.PutValue(vs[i]);
    }
    EndOfBody(|body.b|, vs);
  }

  lemma NextInBody(off: nat, vs: seq<Val>, i: nat)
    requires i < |vs|
    ensures BodySignature(vs[i..]) == SignatureOf(vs[i]) + BodySignature(vs[i + 1..])
    ensures var first := ValText(false, off, vs[i]);
      BodyText(false, off, vs[i..]) == first + BodyText(false, off + |first|, vs[i + 1..])
  {
    hide ValText, SignatureOf;
    assert vs[i..][1..] == vs[i + 1..];
  }

  lemma EndOfBody(off: nat, vs: seq<Val>)
    ensures BodySignature(vs[|vs|..]) == "" && BodyText(false, off, vs[|vs|..]) == ""
  {
    assert vs[|vs|..] == [];
  }

  method EncodeMessage(m: Message) returns (out: string)
    requires 0 <= m.kind < 256
    ensures out == Encode(false, m)
  {
    hide WordBytes, CodedTexts, BodyText, BodySignature, Present;
    var body, signature := EncodeBody(m.body);
    HeaderCodes(m);
    var e := new Encoder(['l', m.kind as char, '\0', 1 as char]);
    AlignedWords(|body.b|, m.serial);
    e.U32(|body.b|);
    e.U32(m.serial);
    ghost var before := e.b;
    e.U32(0);
    var at := |e.b| - 4;
    e.Align(8);
    var start := |e.b|;
    PutFields(e, Slots(m));
    ghost var fields := CodedTexts(false, 16, HeaderFields(m));
    e.Patch(at, |e.b| - start, before, fields);
    e.Align(8);
    out := e.b + body.b;
  }

  /** The first three words of a header need no padding. */
  lemma AlignedWords(a: int, b: int)
    ensures Pad(4, 4) == [] && Pad(8, 4) == [] && Pad(12, 4) == [] && Pad(16, 8) == []
    ensures |WordBytes(false, a)| == 4 && |WordBytes(false, b)| == 4 && |WordBytes(false, 0)| == 4
  {
  }

  // ---- Reading ----------------------------------------------------------------------------------------

  class Decoder {
    const b: string
    const big: bool
    var off: int
    var depth: int

    ghost predicate Valid() reads this { 0 <= off <= |b| && 0 <= depth <= DEEPEST + 1 }

    constructor (bytes: string, big: bool, at: nat)
      requires at <= |bytes|
      ensures Valid() && b == bytes && this.big == big && off == at && depth == 0
    {
      b := bytes;
      this.big := big;
      off := at;
      depth := 0;
    }

    method Align(n: nat) returns (ok: bool)
      requires Valid() && n > 0
      modifies this`off
      ensures Valid() && (ok <==> Aligned(b, old(off), n).Good?) && (ok ==> off == Aligned(b, old(off), n).off)
    {
      while off % n != 0
        invariant Valid() && Aligned(b, old(off), n) == Aligned(b, off, n)
        decreases |b| - off
      {
        if off >= |b| { return false; }
        off := off + 1;
      }
      return true;
    }

    method ReadFixed(size: nat) returns (r: Reading<int>)
      requires Valid() && size > 0
      modifies this`off
      ensures Valid() && r == FixedAt(big, b, old(off), size) && (r.Good? ==> off == r.off)
    {
      var ok := Align(size);
      if !ok || off + size > |b| { return Bad(Refused); }
      var p := b[off..off + size];
      off := off + size;
      return Good(Number(big, p), off);
    }

    /** n bytes and the one that ends them. */
    method Take(n: nat) returns (r: Reading<string>)
      requires Valid()
      modifies this`off
      ensures Valid() && r == Taken(b, old(off), n) && (r.Good? ==> off == r.off)
    {
      if off + n + 1 > |b| { return Bad(Refused); }
      var p := b[off..off + n];
      off := off + n + 1;
      return Good(p, off);
    }

    method ReadText(width: nat) returns (r: Reading<string>)
      requires Valid() && (width == 4 || width == 1)
      modifies this`off
      ensures Valid() && r == (if width == 4 then StrAt(big, b, old(off)) else SigAt(big, b, old(off)))
      ensures r.Good? ==> off == r.off
    {
      var n := ReadFixed(width);
      if n.Bad? { return Bad(n.why); }
      r := Take(n.value);
    }

    /** One complete value; the depth is put back however it ends. */
    method ReadValue(sig: string) returns (r: Reading<Decoded>)
      requires Valid() && sig != ""
      modifies this`off, this`depth
      ensures Valid() && r == Value(big, b, old(off), sig, old(depth)) && (r.Good? ==> off == r.off) && depth == old(depth)
      decreases DEEPEST + 1 - depth, 2
    {
      hide FixedAt, StrAt, SigAt, VariantAt, ArrayAt, StructAt;
      var c := sig[0];
      if depth > DEEPEST { return Bad(Refused); }
      if Width(c) > 0 {
        var n := ReadFixed(Width(c));
        return if n.Good? then Good(Fixed(c, Held(c, n.value)), n.off) else Bad(n.why);
      }
      if c == 's' || c == 'o' {
        var s := ReadText(4);
        return if s.Good? then Good(Str(s.value), s.off) else Bad(s.why);
      }
      if c == 'g' {
        var s := ReadText(1);
        return if s.Good? then Good(Sig(s.value), s.off) else Bad(s.why);
      }
      if c == 'v' {
        r := ReadVariant();
      } else if c == 'a' {
        r := ReadArray(sig);
      } else if c == '(' || c == '{' {
        r := ReadStruct(sig);
      } else {
        r := Bad(Refused);
      }
    }

    method ReadVariant() returns (r: Reading<Decoded>)
      requires Valid() && depth <= DEEPEST
      modifies this`off, this`depth
      ensures Valid() && r == VariantAt(big, b, old(off), old(depth)) && (r.Good? ==> off == r.off) && depth == old(depth)
      decreases DEEPEST + 1 - depth, 1
    {
      hide Value;
      depth := depth + 1;
      var g := ReadValue("g");
      var x: Reading<Decoded> := if g.Bad? then Bad(g.why) else Bad(Refused);
      if g.Good? && g.value.Sig? && CompleteType(g.value.g) == |g.value.g| {
        x := ReadValue(g.value.g);
        if x.Good? { x := Good(Var(g.value.g, x.value), x.off); }
      }
      depth := depth - 1;
      return x;
    }

    method ReadArray(sig: string) returns (r: Reading<Decoded>)
      requires Valid() && sig != "" && depth <= DEEPEST
      modifies this`off, this`depth
      ensures Valid() && r == ArrayAt(big, b, old(off), sig, old(depth)) && (r.Good? ==> off == r.off) && depth == old(depth)
      decreases DEEPEST + 1 - depth, 1
    {
      hide FixedAt, Aligned, ElementsAt, EntriesAt;
      var n := ReadFixed(4);
      if n.Bad? { return Bad(n.why); }
      var size := CompleteType(sig[1..]);
      if size < 0 { return Bad(Refused); }
      var element := sig[1..1 + size];
      var ok := Align(Alignment(element[0]));
      if !ok || off + n.value > |b| { return Bad(Refused); }
      if element[0] == '{' { r := ReadEntries(off + n.value, element); } else { r := ReadElements(off + n.value, element); }
    }

    method ReadElements(end: nat, element: string) returns (r: Reading<Decoded>)
      requires Valid() && end <= |b| && element != "" && depth <= DEEPEST
      modifies this`off, this`depth
      ensures Valid() && r == ElementsAt(big, b, old(off), end, element, old(depth), [])
      ensures (r.Good? ==> off == r.off) && depth == old(depth)
      decreases DEEPEST + 1 - depth, 0
    {
      hide Value;
      var out: seq<Decoded> := [];
      depth := depth + 1;
      while off < end
        invariant Valid() && depth == old(depth) + 1
        invariant ElementsAt(big, b, old(off), end, element, old(depth), []) == ElementsAt(big, b, off, end, element, old(depth), out)
        decreases |b| - off
      {
        var was := off;
        var x := ReadValue(element);
        if x.Bad? || off <= was {
          depth := depth - 1;
          return if x.Bad? then Bad(x.why) else Bad(Endless);
        }
        out := out + [x.value];
      }
      depth := depth - 1;
      return Good(List(out), off);
    }

    method ReadEntries(end: nat, element: string) returns (r: Reading<Decoded>)
      requires Valid() && end <= |b| && element != "" && depth <= DEEPEST
      modifies this`off, this`depth
      ensures Valid() && r == EntriesAt(big, b, old(off), end, element, old(depth), map[])
      ensures (r.Good? ==> off == r.off) && depth == old(depth)
      decreases DEEPEST + 1 - depth, 0
    {
      hide Value;
      var m: map<Decoded, Decoded> := map[];
      depth := depth + 1;
      while off < end
        invariant Valid() && depth == old(depth) + 1
        invariant EntriesAt(big, b, old(off), end, element, old(depth), map[]) == EntriesAt(big, b, off, end, element, old(depth), m)
        decreases |b| - off
      {
        var was := off;
        var x := ReadValue(element);
        if x.Bad? || !x.value.Struct? || |x.value.fs| < 2 || !Hashable(x.value.fs[0]) || off <= was {
          depth := depth - 1;
          if x.Bad? { return Bad(x.why); }
          return if !x.value.Struct? || |x.value.fs| < 2 || !Hashable(x.value.fs[0]) then Bad(Panics) else Bad(Endless);
        }
        m := m[x.value.fs[0] := x.value.fs[1]];
      }
      depth := depth - 1;
      return Good(Map(m), off);
    }

    method ReadStruct(sig: string) returns (r: Reading<Decoded>)
      requires Valid() && sig != "" && depth <= DEEPEST
      modifies this`off, this`depth
      ensures Valid() && r == StructAt(big, b, old(off), sig, old(depth)) && (r.Good? ==> off == r.off) && depth == old(depth)
      decreases DEEPEST + 1 - depth, 1
    {
      hide Value, Aligned;
      var ok := Align(8);
      var size := CompleteType(sig);
      if !ok || size < 2 { return Bad(Refused); }
      var inner := sig[1..size - 1];
      var fields: seq<Decoded> := [];
      depth := depth + 1;
      ghost var start := off;
      while inner != ""
        invariant Valid() && depth == old(depth) + 1
        invariant FieldsAt(big, b, start, sig[1..size - 1], old(depth), []) == FieldsAt(big, b, off, inner, old(depth), fields)
        decreases |inner|
      {
        var n := CompleteType(inner);
        if n < 0 {
          depth := depth - 1;
          return Bad(Refused);
        }
        var x := ReadValue(inner[..n]);
        if x.Bad? {
          depth := depth - 1;
          return Bad(x.why);
        }
        fields := fields + [x.value];
        inner := inner[n..];
      }
      depth := depth - 1;
      return Good(Struct(fields), off);
    }
  }

  method PlaceFields(show: Decoded -> string, m: Received, xs: seq<Decoded>) returns (r: Received)
    ensures r == PlacedAll(show, m, xs)
  {
    hide Placed;
    r := m;
    for i := 0 to |xs|
      invariant PlacedAll(show, m, xs) == PlacedAll(show, r, xs[i..])
    {
      assert xs[i..][1..] == xs[i + 1..];
      var x := xs[i];
      if x.Struct? && |x.fs| == 2 && x.fs[0].Fixed? && x.fs[1].Var? { r := Placed(show, r, x.fs[0].raw, x.fs[1].v); }
    }
    assert xs[|xs|..] == [];
  }

  method ReadBody(body: Decoder, signature: string) returns (r: Reading<seq<Decoded>>)
    requires body.Valid() && body.depth == 0
    modifies body
    ensures r == BodyAt(body.big, body.b, old(body.off), signature, [])
  {
    hide Value;
    var sig := signature;
    var out: seq<Decoded> := [];
    while sig != ""
      invariant body.Valid() && body.depth == 0
      invariant BodyAt(body.big, body.b, old(body.off), signature, []) == BodyAt(body.big, body.b, body.off, sig, out)
      decreases |sig|
    {
      var n := CompleteType(sig);
      if n < 0 { return Bad(Refused); }
      var x := body.ReadValue(sig[..n]);
      if x.Bad? { return Bad(x.why); }
      out := out + [x.value];
      sig := sig[n..];
    }
    return Good(out, body.off);
  }

  method ReadMessage(show: Decoded -> string, stream: string) returns (r: Reading<Received>)
    ensures r == Read(show, stream)
  {
    hide Value, PlacedAll, BodyAt, Number;
    if |stream| < 16 || (stream[0] != 'l' && stream[0] != 'B') { return Bad(Refused); }
    var big := stream[0] == 'B';
    var bodyLen, fieldsLen := Number(big, stream[4..8]), Number(big, stream[12..16]);
    var headerLen := 16 + fieldsLen;
    headerLen := headerLen + (8 - headerLen % 8) % 8;
    var total := headerLen + bodyLen;
    if fieldsLen > MAX_MESSAGE || bodyLen > MAX_MESSAGE || total > MAX_MESSAGE || total > |stream| { return Bad(Refused); }
    var d := new Decoder(stream[..16 + fieldsLen], big, 12);
    var fields := d.ReadValue("a(yv)");
    if fields.Bad? { return Bad(fields.why); }
    if !fields.value.List? { return Bad(Refused); }
    var m := Blank(stream[1] as int, Number(big, stream[8..12]));
    m := PlaceFields(show, m, fields.value.xs);
    var body := new Decoder(stream[headerLen..total], big, 0);
    var out := ReadBody(body, m.signature);
    return if out.Good? then Good(m.(body := out.value), total) else Bad(out.why);
  }
}
