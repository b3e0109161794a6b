/** Whole D-Bus messages (go/netcost/dbus.go: encodeMessage, readMessage): a header of fixed
    fields and an array of coded ones, padded to eight bytes, and a body marshalled in a buffer
    of its own. Only the little-endian form is written by the encoder; both are read.

    The fields come back through `HeaderReads`, the body through `BodyReads`, and `MessageRoundTrip`
    puts the two together. */
module DBusMessage {
  import opened Bytes
  import opened DBusRoundTrip
  import opened DBusWire

  datatype Message = Message(kind: int, serial: int, path: string, iface: string, member: string, errorName: string,
                             replySerial: int, destination: string, sender: string, body: seq<Val>)

  datatype Received = Received(kind: int, serial: int, path: string, iface: string, member: string, errorName: string,
                               replySerial: int, destination: string, sender: string, signature: string,
                               body: seq<Decoded>)

  const MAX_MESSAGE: int := 0x100_0000

  // ---- Writing ------------------------------------------------------------------------------------

  datatype Coded = Coded(code: int, v: Val)

  function BodySignature(vs: seq<Val>): string {
    if vs == [] then "" else SignatureOf(vs[0]) + BodySignature(vs[1..])
  }

  function BodyText(big: bool, off: nat, vs: seq<Val>): string
    decreases |vs|
  {
    if vs == [] then "" else
      var first := ValText(big, off, vs[0]);
      first + BodyText(big, off + |first|, vs[1..])
  }

  /** A header field that may be there. */
  datatype Slot = Slot(present: bool, field: Coded)

  function Slots(m: Message): seq<Slot> {
    [Slot(m.path != "", Coded(1, Path(m.path))), Slot(m.iface != "", Coded(2, Text(m.iface))),
     Slot(m.member != "", Coded(3, Text(m.member))), Slot(m.errorName != "", Coded(4, Text(m.errorName))),
     Slot(m.replySerial != 0, Coded(5, Word(m.replySerial))), Slot(m.destination != "", Coded(6, Text(m.destination))),
     Slot(m.sender != "", Coded(7, Text(m.sender))),
     Slot(BodySignature(m.body) != "", Coded(8, Signature(BodySignature(m.body))))]
  }

  function Present(slots: seq<Slot>): seq<Coded> {
    if slots == [] then []
    else (if slots[0].present then [slots[0].field] else []) + Present(slots[1..])
  }

  function HeaderFields(m: Message): seq<Coded> { Present(Slots(m)) }

  function CodedText(big: bool, off: nat, f: Coded): string
    requires 0 <= f.code < 256
  {
    var pad := Pad(off, 8);
    var sig := SigText(SignatureOf(f.v));
    pad + [f.code as char] + sig + ValText(big, off + |pad| + 1 + |sig|, f.v)
  }

  predicate Codes(fs: seq<Coded>) { forall i :: 0 <= i < |fs| ==> 0 < fs[i].code < 256 }

  function CodedTexts(big: bool, off: nat, fs: seq<Coded>): string
    requires Codes(fs)
    decreases |fs|
  {
    if fs == [] then "" else
      var first := CodedText(big, off, fs[0]);
      first + CodedTexts(big, off + |first|, fs[1..])
  }

  /** The first byte says the order of the rest. */
  function Mark(big: bool): char { if big then 'B' else 'l' }

  /** The fixed sixteen bytes: byte order, kind, flags, version, and three words. */
  function Head(big: bool, kind: int, body: int, serial: int, fields: int): (h: string)
    requires 0 <= kind < 256
    ensures |h| == 16
  {
    [Mark(big), kind as char, '\0', 1 as char] + WordBytes(big, body) + WordBytes(big, serial) + WordBytes(big, fields)
  }

  predicate Sendable(m: Message) {
    && 0 <= m.kind < 256 && 0 <= m.serial < WORDS && 0 <= m.replySerial < WORDS
    && |BodySignature(m.body)| <= 255
    && forall i :: 0 <= i < |m.body| ==> Fits(m.body[i])
  }

  lemma {:induction false} PresentCodes(slots: seq<Slot>)
    requires forall i :: 0 <= i < |slots| ==> 0 < slots[i].field.code < 256
    ensures Codes(Present(slots))
  {
    if slots != [] { PresentCodes(slots[1..]); }
  }

  lemma HeaderCodes(m: Message)
    ensures Codes(HeaderFields(m))
  {
    hide BodySignature, Present;
    PresentCodes(Slots(m));
  }

  function Encode(big: bool, m: Message): string
    requires 0 <= m.kind < 256
  {
    HeaderCodes(m);
    var body := BodyText(big, 0, m.body);
    var fields := CodedTexts(big, 16, HeaderFields(m));
    Head(big, m.kind, |body|, m.serial, |fields|) + fields + Pad(16 + |fields|, 8) + body
  }

  // ---- Reading ------------------------------------------------------------------------------------

  function TextOf(show: Decoded -> string, d: Decoded): string {
    match d
    case Str(s) => s
    case Sig(g) => g
    case _ => show(d)
  }

  function SerialOf(d: Decoded): int { if d.Fixed? && (d.kind == 'u' || d.kind == 'h') then d.raw else 0 }

  /** One coded field put in its place; an unknown code is passed over. */
  function Placed(show: Decoded -> string, m: Received, code: int, v: Decoded): Received {
    if code == 1 then m.(path := TextOf(show, v))
    else if code == 2 then m.(iface := TextOf(show, v))
    else if code == 3 then m.(member := TextOf(show, v))
    else if code == 4 then m.(errorName := TextOf(show, v))
    else if code == 5 then m.(replySerial := SerialOf(v))
    else if code == 6 then m.(destination := TextOf(show, v))
    else if code == 7 then m.(sender := TextOf(show, v))
    else if code == 8 then m.(signature := TextOf(show, v))
    else m
  }

  function PlacedAll(show: Decoded -> string, m: Received, xs: seq<Decoded>): Received
    decreases |xs|
  {
    if xs == [] then m
    else
      var x := xs[0];
      var next := if x.Struct? && |x.fs| == 2 && x.fs[0].Fixed? && x.fs[1].Var? then Placed(show, m, x.fs[0].raw, x.fs[1].v) else m;
      PlacedAll(show, next, xs[1..])
  }

  function BodyAt(big: bool, b: string, off: nat, sig: string, out: seq<Decoded>): Reading<seq<Decoded>>
    requires off <= |b|
    decreases |sig|
  {
    if sig == "" then Good(out, off)
    else
      var n := CompleteType(sig);
      if n < 0 then Bad(Refused)
      else
        match Value(big, b, off, sig[..n], 0)
        case Bad(why) => Bad(why)
        case Good(x, o) => BodyAt(big, b, o, sig[n..], out + [x])
  }

  /** A message from the front of a stream, and how much of the stream it took. */
  function Read(show: Decoded -> string, stream: string): Reading<Received> {
    if |stream| < 16 || (stream[0] != Mark(true) && stream[0] != Mark(false)) then Bad(Refused)
    else
      var big := stream[0] == Mark(true);
      var bodyLen, fieldsLen := Number(big, stream[4..8]), Number(big, stream[12..16]);
      var headerLen := 16 + fieldsLen + (8 - (16 + fieldsLen) % 8) % 8;
      var total := headerLen + bodyLen;
      if fieldsLen > MAX_MESSAGE || bodyLen > MAX_MESSAGE || total > MAX_MESSAGE || total > |stream| then Bad(Refused)
      else
        match Value(big, stream[..16 + fieldsLen], 12, "a(yv)", 0)
        case Bad(why) => Bad(why)
        case Good(fields, _) =>
          if !fields.List? then Bad(Refused)
          else
            var blank := Received(stream[1] as int, Number(big, stream[8..12]), "", "", "", "", 0, "", "", "", []);
            var m := PlacedAll(show, blank, fields.xs);
            match BodyAt(big, stream[headerLen..total], 0, m.signature, [])
            case Bad(why) => Bad(why)
            case Good(xs, _) => Good(m.(body := xs), total)
  }

  // ---- What is sent is what arrives -----------------------------------------------------------------

  lemma WithinPrefix(stream: string, n: nat, pos: int, text: string)
    requires n <= |stream| && Stands(stream, pos, text) && pos + |text| <= n
    ensures Stands(stream[..n], pos, text)
  {
    assert stream[..n][pos..pos + |text|] == stream[pos..pos + |text|];
  }

  lemma TwoFields(sig: string)
    requires |sig| == 4 && sig[0] == '(' && sig[3] == ')'
    requires forall i :: 1 <= i < 3 ==> sig[i] != 'a' && sig[i] != '(' && sig[i] != '{' && sig[i] != ')'
    ensures CompleteType(sig) == 4 && CompleteType(sig[1..3]) == 1
  {
    assert Closed(sig, 3, ')') == 4;
    assert CompleteType(sig[2..]) == 1 && CompleteType(sig[1..]) == 1;
    assert Closed(sig, 2, ')') == 4;
  }

  lemma HeaderTypes()
    ensures CompleteType("(yv)") == 4 && CompleteType("yv") == 1 && CompleteType("v") == 1
    ensures "a(yv)"[1..] == "(yv)" && "(yv)"[1..3] == "yv"
  {
    hide CompleteType, Closed;
    DictType();
    TwoFields("(yv)");
    assert "(yv)"[1..3] == "yv";
  }

  lemma CodedStands(big: bool, b: string, off: nat, f: Coded) returns (start: nat, o: nat)
    requires 0 <= f.code < 256 && Stands(b, off, CodedText(big, off, f))
    ensures off <= start < o <= |b| && Aligned(b, off, 8).Good? && Aligned(b, off, 8).off == start
    ensures o == start + 1 && b[start] as int == f.code
    ensures var sig := SigText(SignatureOf(f.v));
      && Stands(b, o, sig) && Stands(b, o + |sig|, ValText(big, o + |sig|, f.v))
      && off + |CodedText(big, off, f)| == o + |sig| + |ValText(big, o + |sig|, f.v)|
  {
    hide SigText, ValText;
    var pad, code, sig := Pad(off, 8), [f.code as char], SigText(SignatureOf(f.v));
    start := off + |pad|;
    o := start + 1;
    var x := ValText(big, o + |sig|, f.v);
    assert CodedText(big, off, f) == pad + code + (sig + x);
    Stands3(b, off, pad, code, sig + x);
    StandsSplit(b, o, sig, x);
    StandsAt(b, start, code, 0);
    PadReads(b, off, 8);
  }

  lemma CodeReads(big: bool, b: string, start: nat, code: int, depth: nat)
    requires start < |b| && depth <= DEEPEST && b[start] as int == code
    ensures Value(big, b, start, "y", depth) == Good(Fixed('y', code), start + 1)
  {
    hide VariantAt, ArrayAt, StructAt;
    assert b[start..start + 1] == [b[start]] && [b[start]][1..] == [];
    assert [b[start]][..0] == [];
    assert Number(big, [b[start]]) == code;
  }

  /** What a coded field comes back as. */
  function Back(f: Coded): Decoded { Struct([Fixed('y', f.code), Var(SignatureOf(f.v), Erase(f.v))]) }

  lemma CodedPair(big: bool, b: string, start: nat, o: nat, end: nat, code: Decoded, v: Decoded)
    requires start <= o <= |b| && end <= |b|
    requires Value(big, b, start, "y", 2) == Good(code, o) && Value(big, b, o, "v", 2) == Good(v, end)
    ensures FieldsAt(big, b, start, "yv", 1, []) == Good(Struct([code, v]), end)
  {
    hide Value, FieldsAt, CompleteType;
    HeaderTypes();
    assert [] + [code] == [code] && [code] + [v] == [code, v];
    FieldFrom(big, b, start, "yv", "y", "v", 1, []);
    FieldFrom(big, b, o, "v", "v", "", 1, [code]);
    NoFields(big, b, end, 1, [code, v]);
  }

  lemma CodedReads(big: bool, b: string, off: nat, f: Coded)
    requires |b| < WORDS && 0 <= f.code < 256 && Stands(b, off, CodedText(big, off, f)) && Fits(f.v) && Height(f.v) == 0
    ensures Value(big, b, off, "(yv)", 1) == Good(Back(f), off + |CodedText(big, off, f)|)
  {
    hide Value, CodedText, SigText, ValText, FieldsAt, CompleteType, Erase, Fits, Aligned, Back, Height;
    var start, o := CodedStands(big, b, off, f);
    HeaderTypes();
    StructIs(big, b, off, "(yv)", "yv", start, 1);
    CodedFieldsRead(big, b, start, o, f);
  }

  lemma CodedFieldsRead(big: bool, b: string, start: nat, o: nat, f: Coded)
    requires |b| < WORDS && 0 <= f.code < 256 && Fits(f.v) && Height(f.v) == 0
    requires start < o <= |b| && o == start + 1 && b[start] as int == f.code
    requires Stands(b, o, SigText(SignatureOf(f.v)))
    requires Stands(b, o + |SigText(SignatureOf(f.v))|, ValText(big, o + |SigText(SignatureOf(f.v))|, f.v))
    ensures var sig := SigText(SignatureOf(f.v));
      FieldsAt(big, b, start, "yv", 1, []) == Good(Back(f), o + |sig| + |ValText(big, o + |sig|, f.v)|)
  {
    hide Value, SigText, ValText, FieldsAt, Erase, Fits;
    var sig := SigText(SignatureOf(f.v));
    CodeReads(big, b, start, f.code, 2);
    VariantReads(big, b, o, SignatureOf(f.v), f.v, 2);
    CodedPair(big, b, start, o, o + |sig| + |ValText(big, o + |sig|, f.v)|, Fixed('y', f.code), Var(SignatureOf(f.v), Erase(f.v)));
  }

  function Backs(fs: seq<Coded>): seq<Decoded> { if fs == [] then [] else [Back(fs[0])] + Backs(fs[1..]) }

  predicate Plain(fs: seq<Coded>) { Codes(fs) && forall i :: 0 <= i < |fs| ==> Fits(fs[i].v) && Height(fs[i].v) == 0 }

  lemma {:induction false} CodedTextsRead(big: bool, b: string, off: nat, end: nat, fs: seq<Coded>, out: seq<Decoded>)
    requires |b| < WORDS && Plain(fs) && Stands(b, off, CodedTexts(big, off, fs)) && end == off + |CodedTexts(big, off, fs)|
    ensures ElementsAt(big, b, off, end, "(yv)", 0, out) == Good(List(out + Backs(fs)), end)
    decreases |fs|
  {
    hide ElementsAt, Value, CodedText, Back, Fits, Height;
    NoElements(big, b, off, end, "(yv)", 0, out);
    if fs == [] {
      assert out + [] == out;
    } else {
      var first := CodedText(big, off, fs[0]);
      StandsSplit(b, off, first, CodedTexts(big, off + |first|, fs[1..]));
      CodedReads(big, b, off, fs[0]);
      CodedNotEmpty(big, off, fs[0]);
      CodedTextsRead(big, b, off + |first|, end, fs[1..], out + [Back(fs[0])]);
      assert out + [Back(fs[0])] + Backs(fs[1..]) == out + Backs(fs);
      NextElement(big, b, off, end, Back(fs[0]), off + |first|, out);
    }
  }

  lemma CodedNotEmpty(big: bool, off: nat, f: Coded)
    requires 0 <= f.code < 256
    ensures |CodedText(big, off, f)| > 0
  {
    hide ValText, SigText;
  }

  lemma NextElement(big: bool, b: string, off: nat, end: nat, x: Decoded, o: nat, out: seq<Decoded>)
    requires off < end <= |b| && off < o <= |b| && Value(big, b, off, "(yv)", 1) == Good(x, o)
    ensures ElementsAt(big, b, off, end, "(yv)", 0, out) == ElementsAt(big, b, o, end, "(yv)", 0, out + [x])
  {
    hide Value;
  }

  /** The header's array of coded fields, read from just before its length. */
  lemma HeaderReads(big: bool, b: string, fs: seq<Coded>, n: nat)
    requires |b| < WORDS && Plain(fs) && n == |CodedTexts(big, 16, fs)| && |b| == 16 + n
    requires Stands(b, 12, WordBytes(big, n)) && Stands(b, 16, CodedTexts(big, 16, fs))
    ensures Value(big, b, 12, "a(yv)", 0) == Good(List(Backs(fs)), 16 + n)
  {
    HeaderArray(big, b, n);
    hide *;
    AllCodedRead(big, b, fs, n);
  }

  lemma AllCodedRead(big: bool, b: string, fs: seq<Coded>, n: nat)
    requires |b| < WORDS && Plain(fs) && n == |CodedTexts(big, 16, fs)| && |b| == 16 + n
    requires Stands(b, 16, CodedTexts(big, 16, fs))
    ensures ElementsAt(big, b, 16, 16 + n, "(yv)", 0, []) == Good(List(Backs(fs)), 16 + n)
  {
    assert [] + Backs(fs) == Backs(fs);
    hide *;
    CodedTextsRead(big, b, 16, 16 + n, fs, []);
  }

  lemma HeaderShape()
    ensures "a(yv)"[0] == 'a' && |"a(yv)"| == 5 && "(yv)"[0] == '(' && |"(yv)"| == 4 && Alignment('(') == 8
  {
  }

  lemma HeaderArray(big: bool, b: string, n: nat)
    requires n < WORDS && |b| == 16 + n && Stands(b, 12, WordBytes(big, n))
    ensures Value(big, b, 12, "a(yv)", 0) == ElementsAt(big, b, 16, 16 + n, "(yv)", 0, [])
  {
    HeaderLength(big, b, n);
    HeaderTypes();
    HeaderShape();
    ListAt(big, b, n, "a(yv)", "(yv)");
  }

  lemma ListAt(big: bool, b: string, n: nat, sig: string, element: string)
    requires |b| == 16 + n && FixedAt(big, b, 12, 4) == Good(n, 16) && Aligned(b, 16, 8) == Good(16, 16)
    requires |sig| > 1 && sig[0] == 'a' && sig[1..] == element && CompleteType(element) == |element|
    requires element[0] == '(' && Alignment('(') == 8
    ensures Value(big, b, 12, sig, 0) == ElementsAt(big, b, 16, 16 + n, element, 0, [])
  {
    assert 0 <= DEEPEST;
    hide *;
    ArrayFrom(big, b, 12, n, sig, element, 16, 0);
  }

  lemma HeaderLength(big: bool, b: string, n: nat)
    requires n < WORDS && |b| >= 16 && Stands(b, 12, WordBytes(big, n))
    ensures FixedAt(big, b, 12, 4) == Good(n, 16) && Aligned(b, 16, 8) == Good(16, 16)
  {
    hide WordBytes;
    WordBytesRead(big, n);
    assert Aligned(b, 12, 4).off == 12;
  }

  /** The fields there are, put in place one after another. */
  function Applied(show: Decoded -> string, m: Received, slots: seq<Slot>): Received
    decreases |slots|
  {
    if slots == [] then m
    else Applied(show, if slots[0].present then Placed(show, m, slots[0].field.code, Erase(slots[0].field.v)) else m, slots[1..])
  }

  lemma {:induction false} PlacedIsApplied(show: Decoded -> string, m: Received, slots: seq<Slot>)
    ensures PlacedAll(show, m, Backs(Present(slots))) == Applied(show, m, slots)
    decreases |slots|
  {
    hide Placed, Erase;
    if slots != [] {
      var s := slots[0];
      if s.present {
        assert Present(slots) == [s.field] + Present(slots[1..]);
        assert Present(slots)[1..] == Present(slots[1..]);
        assert Backs(Present(slots)) == [Back(s.field)] + Backs(Present(slots[1..]));
        assert Backs(Present(slots))[1..] == Backs(Present(slots[1..]));
        PlacedIsApplied(show, Placed(show, m, s.field.code, Erase(s.field.v)), slots[1..]);
      } else {
        assert Present(slots) == Present(slots[1..]);
        PlacedIsApplied(show, m, slots[1..]);
      }
    }
  }

  function Blank(kind: int, serial: int): Received { Received(kind, serial, "", "", "", "", 0, "", "", "", []) }

  /** The header a message arrives with: every field as it was sent, and the body's signature. */
  function Header(m: Message): Received {
    Received(m.kind, m.serial, m.path, m.iface, m.member, m.errorName, m.replySerial, m.destination, m.sender,
             BodySignature(m.body), [])
  }

  lemma SlotApplied(show: Decoded -> string, m: Received, s: Slot, rest: seq<Slot>)
    ensures Applied(show, m, [s] + rest) == Applied(show, if s.present then Placed(show, m, s.field.code, Erase(s.field.v)) else m, rest)
  {
    hide Placed, Erase;
    assert ([s] + rest)[1..] == rest;
  }

  lemma TextSlot(show: Decoded -> string, m: Received, code: int, s: string, v: Val, rest: seq<Slot>)
    requires v == Text(s) || v == Path(s) || v == Signature(s)
    ensures Applied(show, m, [Slot(s != "", Coded(code, v))] + rest) == Applied(show, if s != "" then Placed(show, m, code, Erase(v)) else m, rest)
    ensures TextOf(show, Erase(v)) == s
  {
    hide Placed;
    SlotApplied(show, m, Slot(s != "", Coded(code, v)), rest);
  }

  lemma FrontApplied(show: Decoded -> string, m: Message, rest: seq<Slot>)
    ensures var front := [Slot(m.path != "", Coded(1, Path(m.path))), Slot(m.iface != "", Coded(2, Text(m.iface))),
                          Slot(m.member != "", Coded(3, Text(m.member)))];
      Applied(show, Blank(m.kind, m.serial), front + rest)
      == Applied(show, Blank(m.kind, m.serial).(path := m.path, iface := m.iface, member := m.member), rest)
  {
    hide Applied, Erase;
    var s1, s2, s3 := Slot(m.path != "", Coded(1, Path(m.path))), Slot(m.iface != "", Coded(2, Text(m.iface))),
      Slot(m.member != "", Coded(3, Text(m.member)));
    var r1 := Blank(m.kind, m.serial).(path := m.path);
    var r2 := r1.(iface := m.iface);
    assert [s1, s2, s3] + rest == [s1] + ([s2] + ([s3] + rest));
    TextSlot(show, Blank(m.kind, m.serial), 1, m.path, Path(m.path), [s2] + ([s3] + rest));
    TextSlot(show, r1, 2, m.iface, Text(m.iface), [s3] + rest);
    TextSlot(show, r2, 3, m.member, Text(m.member), rest);
  }

  lemma MiddleApplied(show: Decoded -> string, m: Message, r: Received, rest: seq<Slot>)
    requires r.errorName == "" && r.replySerial == 0 && r.destination == ""
    ensures var middle := [Slot(m.errorName != "", Coded(4, Text(m.errorName))),
                           Slot(m.replySerial != 0, Coded(5, Word(m.replySerial))),
                           Slot(m.destination != "", Coded(6, Text(m.destination)))];
      Applied(show, r, middle + rest)
      == Applied(show, r.(errorName := m.errorName, replySerial := m.replySerial, destination := m.destination), rest)
  {
    hide Applied;
    var s4, s5, s6 := Slot(m.errorName != "", Coded(4, Text(m.errorName))),
      Slot(m.replySerial != 0, Coded(5, Word(m.replySerial))), Slot(m.destination != "", Coded(6, Text(m.destination)));
    var r4 := r.(errorName := m.errorName);
    var r5 := r4.(replySerial := m.replySerial);
    assert [s4, s5, s6] + rest == [s4] + ([s5] + ([s6] + rest));
    TextSlot(show, r, 4, m.errorName, Text(m.errorName), [s5] + ([s6] + rest));
    SlotApplied(show, r4, s5, [s6] + rest);
    TextSlot(show, r5, 6, m.destination, Text(m.destination), rest);
  }

  lemma BackApplied(show: Decoded -> string, m: Message, r: Received)
    requires r.sender == "" && r.signature == ""
    ensures var sig := BodySignature(m.body);
      Applied(show, r, [Slot(m.sender != "", Coded(7, Text(m.sender))), Slot(sig != "", Coded(8, Signature(sig)))])
      == r.(sender := m.sender, signature := sig)
  {
    hide Applied, BodySignature, Erase;
    var sig := BodySignature(m.body);
    var s7, s8 := Slot(m.sender != "", Coded(7, Text(m.sender))), Slot(sig != "", Coded(8, Signature(sig)));
    assert [s7, s8] == [s7] + ([s8] + []);
    TextSlot(show, r, 7, m.sender, Text(m.sender), [s8] + []);
    TextSlot(show, r.(sender := m.sender), 8, sig, Signature(sig), []);
    NothingApplied(show, r.(sender := m.sender, signature := sig));
  }

  lemma HeaderApplied(show: Decoded -> string, m: Message)
    ensures Applied(show, Blank(m.kind, m.serial), Slots(m)) == Header(m)
  {
    hide Applied, BodySignature;
    var ss := Slots(m);
    var r3 := Blank(m.kind, m.serial).(path := m.path, iface := m.iface, member := m.member);
    var front, middle, back := [ss[0], ss[1], ss[2]], [ss[3], ss[4], ss[5]], [ss[6], ss[7]];
    assert ss == front + (middle + back);
    FrontApplied(show, m, middle + back);
    MiddleApplied(show, m, r3, back);
    BackApplied(show, m, r3.(errorName := m.errorName, replySerial := m.replySerial, destination := m.destination));
  }

  lemma NothingApplied(show: Decoded -> string, m: Received)
    ensures Applied(show, m, []) == m
  {
  }

  // ---- Bodies ---------------------------------------------------------------------------------------

  lemma DictPrefix(sig: string)
    requires |sig| >= 5 && sig[0] == 'a' && sig[1] == '{' && sig[2] == 's' && sig[3] == 'v' && sig[4] == '}'
    ensures CompleteType(sig) == 5
  {
    var t := sig[1..];
    assert Closed(t, 3, '}') == 4;
    assert CompleteType(t[2..]) == 1 && CompleteType(t[1..]) == 1;
    assert Closed(t, 2, '}') == 4;
    assert Closed(t, 1, '}') == 4;
    assert CompleteType(t) == 4;
  }

  lemma SimplePrefix(sig: string)
    requires sig != "" && sig[0] != 'a' && sig[0] != '(' && sig[0] != '{'
    ensures CompleteType(sig) == 1
  {
  }

  lemma TypePrefix(v: Val, rest: string)
    ensures CompleteType(SignatureOf(v) + rest) == |SignatureOf(v)| && SignatureOf(v) != ""
  {
    hide Closed;
    var sig := SignatureOf(v) + rest;
    if v.Texts? {
      SimplePrefix(sig[1..]);
    } else if v.Dict? {
      DictPrefix(sig);
    } else {
      SimplePrefix(sig);
    }
  }

  function Erased(vs: seq<Val>): seq<Decoded> { if vs == [] then [] else [Erase(vs[0])] + Erased(vs[1..]) }

  /** No value nested deeper than the decoder goes. */
  predicate Shallow(vs: seq<Val>) { forall i :: 0 <= i < |vs| ==> Height(vs[i]) <= DEEPEST }

  lemma {:induction false} BodyReads(big: bool, b: string, off: nat, vs: seq<Val>, out: seq<Decoded>)
    requires |b| < WORDS && Stands(b, off, BodyText(big, off, vs)) && forall i :: 0 <= i < |vs| ==> Fits(vs[i])
    ensures BodyAt(big, b, off, BodySignature(vs), out)
      == if Shallow(vs) then Good(out + Erased(vs), off + |BodyText(big, off, vs)|) else Bad(Refused)
    decreases |vs|
  {
    hide Value, ValText, CompleteType, Fits, Height, Erase, SignatureOf;
    if vs == [] {
      assert out + [] == out;
    } else {
      var first, sig, rest := ValText(big, off, vs[0]), SignatureOf(vs[0]), BodySignature(vs[1..]);
      StandsSplit(b, off, first, BodyText(big, off + |first|, vs[1..]));
      TypePrefix(vs[0], rest);
      assert (sig + rest)[..|sig|] == sig && (sig + rest)[|sig|..] == rest;
      ValueReads(big, b, off, vs[0], 0);
      BodyReads(big, b, off + |first|, vs[1..], out + [Erase(vs[0])]);
      assert out + [Erase(vs[0])] + Erased(vs[1..]) == out + Erased(vs);
      assert Shallow(vs) <==> Height(vs[0]) <= DEEPEST && Shallow(vs[1..]) by {
        assert forall i :: 1 <= i < |vs| ==> vs[i] == vs[1..][i - 1];
      }
    }
  }

  // ---- The whole of a message -------------------------------------------------------------------------

  lemma {:induction false} PresentPlain(slots: seq<Slot>)
    requires forall i :: 0 <= i < |slots| ==>
      0 < slots[i].field.code < 256 && Fits(slots[i].field.v) && Height(slots[i].field.v) == 0
    ensures Plain(Present(slots))
  {
    hide Fits, Height;
    if slots != [] { PresentPlain(slots[1..]); }
  }

  lemma HeaderPlain(m: Message)
    requires Sendable(m)
    ensures Plain(HeaderFields(m))
  {
    hide BodySignature, Present;
    PresentPlain(Slots(m));
  }

  /** Where the parts of a message stand in a stream that starts with it. */
  lemma PartsStand(big: bool, m: Message, stream: string, body: string, fields: string, pad: string)
    requires Sendable(m) && Codes(HeaderFields(m)) && Stands(stream, 0, Encode(big, m))
    requires body == BodyText(big, 0, m.body) && fields == CodedTexts(big, 16, HeaderFields(m)) && pad == Pad(16 + |fields|, 8)
    ensures |Encode(big, m)| == 16 + |fields| + |pad| + |body| && 0 <= m.kind < 256 && 0 <= m.serial < WORDS
    ensures Stands(stream, 0, Head(big, m.kind, |body|, m.serial, |fields|)) && Stands(stream, 16, fields)
    ensures Stands(stream, 16 + |fields| + |pad|, body)
  {
    hide BodyText, CodedTexts, HeaderFields, Pad, Head;
    var head := Head(big, m.kind, |body|, m.serial, |fields|);
    assert Encode(big, m) == head + fields + (pad + body);
    Stands3(stream, 0, head, fields, pad + body);
    StandsSplit(stream, 16 + |fields|, pad, body);
  }

  lemma HeadReads(big: bool, stream: string, kind: int, body: int, serial: int, fields: int)
    requires 0 <= kind < 256 && 0 <= body < WORDS && 0 <= serial < WORDS && 0 <= fields < WORDS
    requires Stands(stream, 0, Head(big, kind, body, serial, fields))
    ensures |stream| >= 16 && stream[0] == Mark(big) && stream[1] as int == kind
    ensures Number(big, stream[4..8]) == body && Number(big, stream[8..12]) == serial && Number(big, stream[12..16]) == fields
    ensures Stands(stream, 12, WordBytes(big, fields))
  {
    var first := [Mark(big), kind as char, '\0', 1 as char];
    var b, s, f := WordBytes(big, body), WordBytes(big, serial), WordBytes(big, fields);
    assert Head(big, kind, body, serial, fields) == first + b + s + f;
    hide Number, WordBytes, Stands, Mark, Head;
    Stands3(stream, 0, first + b, s, f);
    StandsSplit(stream, 0, first, b);
    FirstBytes(stream, Mark(big), kind as char);
    WordAt(big, stream, 4, body);
    WordAt(big, stream, 8, serial);
    WordAt(big, stream, 12, fields);
  }

  lemma FirstBytes(stream: string, mark: char, kind: char)
    requires Stands(stream, 0, [mark, kind, '\0', 1 as char])
    ensures |stream| >= 4 && stream[0] == mark && stream[1] == kind
  {
    StandsAt(stream, 0, [mark, kind, '\0', 1 as char], 0);
    StandsAt(stream, 0, [mark, kind, '\0', 1 as char], 1);
  }

  lemma WordAt(big: bool, stream: string, pos: nat, v: int)
    requires 0 <= v < WORDS && Stands(stream, pos, WordBytes(big, v))
    ensures pos + 4 <= |stream| && Number(big, stream[pos..pos + 4]) == v
  {
    hide Number, WordBytes;
    WordBytesRead(big, v);
  }

  /** The header of a stream that starts with a message, decoded. */
  lemma HeaderArrives(show: Decoded -> string, big: bool, m: Message, stream: string, fields: string)
    requires Sendable(m) && Plain(HeaderFields(m)) && fields == CodedTexts(big, 16, HeaderFields(m))
    requires Stands(stream, 12, WordBytes(big, |fields|)) && Stands(stream, 16, fields) && 16 + |fields| < WORDS
    ensures var b := stream[..16 + |fields|];
      Value(big, b, 12, "a(yv)", 0) == Good(List(Backs(HeaderFields(m))), 16 + |fields|)
    ensures PlacedAll(show, Blank(m.kind, m.serial), Backs(HeaderFields(m))) == Header(m)
  {
    hide Value, CodedTexts, Slots, Applied, Plain;
    assert |WordBytes(big, |fields|)| == 4;
    var b := stream[..16 + |fields|];
    WithinPrefix(stream, 16 + |fields|, 12, WordBytes(big, |fields|));
    WithinPrefix(stream, 16 + |fields|, 16, fields);
    HeaderReads(big, b, HeaderFields(m), |fields|);
    PlacedIsApplied(show, Blank(m.kind, m.serial), Slots(m));
    HeaderApplied(show, m);
  }

  /** Every message that can be sent arrives as it was, whatever follows it in the stream, exactly
      when it is no longer than the reader takes and no value in it is nested deeper. */
  lemma MessageRoundTrip(show: Decoded -> string, big: bool, m: Message, rest: string)
    requires Sendable(m) && |Encode(big, m)| < WORDS
    ensures Read(show, Encode(big, m) + rest)
      == if |Encode(big, m)| <= 16777216 && Shallow(m.body) then Good(Header(m).(body := Erased(m.body)), |Encode(big, m)|)
         else Bad(Refused)
  {
    hide Encode, Value, BodyText, CodedTexts, HeaderFields, Pad, Backs, PlacedAll, BodyAt, Erased, Shallow, Number;
    hide Read, Fits, Plain, WordBytes, BodySignature, Head;
    HeaderCodes(m);
    HeaderPlain(m);
    var stream, body, fields := Encode(big, m) + rest, BodyText(big, 0, m.body), CodedTexts(big, 16, HeaderFields(m));
    var pad := Pad(16 + |fields|, 8);
    assert stream[0..|Encode(big, m)|] == Encode(big, m);
    PartsStand(big, m, stream, body, fields, pad);
    HeadReads(big, stream, m.kind, |body|, m.serial, |fields|);
    HeaderArrives(show, big, m, stream, fields);
    BodyArrives(big, m, stream, body, fields, pad);
    PadWidth(16 + |fields|);
    ReadFrom(show, big, stream, m.kind, m.serial, |fields|, |body|, |pad|, Backs(HeaderFields(m)), Header(m));
  }

  lemma PadWidth(off: nat)
    ensures |Pad(off, 8)| == (8 - off % 8) % 8
  {
  }

  lemma BodyArrives(big: bool, m: Message, stream: string, body: string, fields: string, pad: string)
    requires Sendable(m) && body == BodyText(big, 0, m.body) && Stands(stream, 16 + |fields| + |pad|, body) && |body| < WORDS
    ensures var start := 16 + |fields| + |pad|;
      BodyAt(big, stream[start..start + |body|], 0, BodySignature(m.body), [])
      == if Shallow(m.body) then Good(Erased(m.body), |body|) else Bad(Refused)
  {
    hide BodyText, BodyAt, Erased, Shallow;
    assert body[0..|body|] == body;
    assert [] + Erased(m.body) == Erased(m.body);
    BodyReads(big, body, 0, m.body, []);
  }

  /** How the reader puts together what the parts of a stream read as. */
  lemma ReadFrom(show: Decoded -> string, big: bool, stream: string, kind: int, serial: int, fields: nat, body: nat, pad: nat, xs: seq<Decoded>, header: Received)
    requires |stream| >= 16 && stream[0] == Mark(big) && stream[1] as int == kind
    requires Number(big, stream[4..8]) == body && Number(big, stream[8..12]) == serial && Number(big, stream[12..16]) == fields
    requires pad == (8 - (16 + fields) % 8) % 8 && 16 + fields + pad + body <= |stream|
    requires Value(big, stream[..16 + fields], 12, "a(yv)", 0) == Good(List(xs), 16 + fields)
    requires PlacedAll(show, Blank(kind, serial), xs) == header
    ensures var start := 16 + fields + pad; var total := start + body;
      var r := BodyAt(big, stream[start..total], 0, header.signature, []);
      Read(show, stream) == if total > MAX_MESSAGE then Bad(Refused) else if r.Bad? then Bad(r.why) else Good(header.(body := r.value), total)
  {
    hide Value, BodyAt, Number, PlacedAll;
  }

  // ---- Map entries in any order -----------------------------------------------------------------------

  predicate Distinct(es: seq<Entry>) { forall i, j :: 0 <= i < j < |es| ==> es[i].key != es[j].key }

  /** What the entries read back as: each key's own value, and nothing else. */
  lemma {:induction false} EntriesLookup(es: seq<Entry>, out: map<Decoded, Decoded>)
    requires Distinct(es)
    ensures forall e :: e in es ==> Str(e.key) in Entries(es, out) && Entries(es, out)[Str(e.key)] == Var(e.sig, Erase(e.value))
    ensures forall d :: d in out && (forall e :: e in es ==> d != Str(e.key)) ==> d in Entries(es, out) && Entries(es, out)[d] == out[d]
    ensures forall d :: d in Entries(es, out) ==> d in out || exists e :: e in es && d == Str(e.key)
    decreases |es|
  {
    hide Erase;
    if es != [] {
      var e := es[0];
      var next := out[Str(e.key) := Var(e.sig, Erase(e.value))];
      EntriesLookup(es[1..], next);
      assert forall x :: x in es <==> x == e || x in es[1..];
      assert forall x :: x in es[1..] ==> x.key != e.key;
    }
  }

  /** A map is read back the same whatever order its entries went out in. */
  lemma AnyOrder(a: seq<Entry>, b: seq<Entry>)
    requires Distinct(a) && Distinct(b) && forall e :: e in a <==> e in b
    ensures Erase(Dict(a)) == Erase(Dict(b))
  {
    EntriesLookup(a, map[]);
    EntriesLookup(b, map[]);
    var x, y := Entries(a, map[]), Entries(b, map[]);
    forall d | d in x ensures d in y && x[d] == y[d] {
      var e :| e in a && d == Str(e.key);
    }
    forall d | d in y ensures d in x {
      var e :| e in b && d == Str(e.key);
    }
    assert x == y;
  }
}
