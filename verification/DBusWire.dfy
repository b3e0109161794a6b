/** The D-Bus marshaller as functions (go/netcost/dbus.go). */
module DBusWire {

  // The bytes of a value at an offset, and what a decoder makes of any bytes, in either byte order; the
  // encoder writes little-endian only. Alignment and array
  // lengths follow "Marshaling (Wire Format)" in the "Message Protocol" chapter of D-Bus
  // Specification 0.43. Byte strings are sequences of characters, one per byte.

  // ---- What the encoder writes ------------------------------------------------------------------

  /** The values an encoder takes; a map is given as its entries in the order they are written. */
  datatype Val =
    | Text(s: string)
    | Path(p: string)
    | Signature(g: string)
    | Word(u: int)
    | Variant(sig: string, value: Val)
    | Texts(ss: seq<string>)
    | Dict(entries: seq<Entry>)

  datatype Entry = Entry(key: string, sig: string, value: Val)

  const WORDS: int := 0x1_0000_0000

  function SignatureOf(v: Val): string {
    match v
    case Text(_) => "s"
    case Path(_) => "o"
    case Signature(_) => "g"
    case Word(_) => "u"
    case Variant(_, _) => "v"
    case Texts(_) => "as"
    case Dict(_) => "a{sv}"
  }

  /** Zero bytes up to the next multiple of n. */
  function Pad(off: nat, n: nat): (p: string)
    requires n == 4 || n == 8
    ensures (off + |p|) % n == 0 && |p| < n
  {
    RoundsUp(off);
    if n == 4 then Zeros((4 - off % 4) % 4) else Zeros((8 - off % 8) % 8)
  }

  lemma RoundsUp(off: nat)
    ensures (off + (4 - off % 4) % 4) % 4 == 0 && (off + (8 - off % 8) % 8) % 8 == 0
  {
    UpTo4(off / 4, off % 4);
    UpTo8(off / 8, off % 8);
  }

  lemma UpTo4(q: nat, r: nat)
    requires r < 4
    ensures (4 * q + r + (4 - r) % 4) % 4 == 0
  {
  }

  lemma UpTo8(q: nat, r: nat)
    requires r < 8
    ensures (8 * q + r + (8 - r) % 8) % 8 == 0
  {
  }

  function Zeros(k: nat): (z: string)
    ensures |z| == k && forall i :: 0 <= i < k ==> z[i] == '\0'
  {
    seq(k, i => '\0')
  }

  /** The four bytes of a word, the last of them first unless `big`. */
  function WordBytes(big: bool, v: int): (p: string)
    ensures |p| == 4
  {
    var a, b, c, d := (v % 256) as char, (v / 256 % 256) as char, (v / 65536 % 256) as char, (v / 16777216 % 256) as char;
    if big then [d, c, b, a] else [a, b, c, d]
  }

  function WordText(big: bool, off: nat, v: int): string { Pad(off, 4) + WordBytes(big, v) }

  function StrText(big: bool, off: nat, s: string): string { WordText(big, off, |s|) + s + "\0" }

  /** The length goes into one byte, whatever it is. */
  function SigText(s: string): string { [(|s| % 256) as char] + s + "\0" }

  /** The bytes a value adds to a buffer of length off. */
  function ValText(big: bool, off: nat, v: Val): string
    decreases v, 0
  {
    match v
    case Text(s) => StrText(big, off, s)
    case Path(s) => StrText(big, off, s)
    case Signature(s) => SigText(s)
    case Word(u) => WordText(big, off, u)
    case Variant(sig, x) => SigText(sig) + ValText(big, off + |SigText(sig)|, x)
    case Texts(ss) =>
      var pad := Pad(off, 4);
      var body := TextsText(big, off + |pad| + 4, ss);
      pad + WordBytes(big, |body|) + body
    case Dict(es) =>
      var pad := Pad(off, 4);
      var gap := Pad(off + |pad| + 4, 8);
      var body := EntriesText(big, off + |pad| + 4 + |gap|, es);
      pad + WordBytes(big, |body|) + gap + body
  }

  function TextsText(big: bool, off: nat, ss: seq<string>): string
    decreases |ss|
  {
    if ss == [] then [] else
      var first := StrText(big, off, ss[0]);
      first + TextsText(big, off + |first|, ss[1..])
  }

  function EntryText(big: bool, off: nat, e: Entry): string
    decreases e, 1
  {
    var pad := Pad(off, 8);
    var key := StrText(big, off + |pad|, e.key);
    var sig := SigText(e.sig);
    pad + key + sig + ValText(big, off + |pad| + |key| + |sig|, e.value)
  }

  function EntriesText(big: bool, off: nat, es: seq<Entry>): string
    decreases es, 0
  {
    if es == [] then [] else
      var first := EntryText(big, off, es[0]);
      first + EntriesText(big, off + |first|, es[1..])
  }

  // ---- What the decoder makes of bytes ------------------------------------------------------------

  datatype Decoded =
    | Fixed(kind: char, raw: int)
    | Str(s: string)
    | Sig(g: string)
    | Var(sig: string, v: Decoded)
    | List(xs: seq<Decoded>)
    | Map(m: map<Decoded, Decoded>)
    | Struct(fs: seq<Decoded>)

  /** Why there is no value: the decoder says so, or it goes round for ever on elements that take no
      bytes, or it stops short on a dict entry that is not a pair or a key that cannot be one. */
  datatype Fault = Refused | Endless | Panics

  datatype Reading<+T> = Good(value: T, off: int) | Bad(why: Fault)

  /** The length of the first complete type of a signature, if it has one. */
  function CompleteType(sig: string): (n: int)
    ensures n == -1 || 0 < n <= |sig|
    decreases |sig|, |sig|
  {
    if sig == "" then -1
    else if sig[0] == 'a' then
      var n := CompleteType(sig[1..]);
      if n < 0 then -1 else n + 1
    else if sig[0] == '(' then Closed(sig, 1, ')')
    else if sig[0] == '{' then Closed(sig, 1, '}')
    else 1
  }

  /** Past the types from i on to the closer. */
  function Closed(sig: string, i: nat, closer: char): (n: int)
    requires 0 < i <= |sig|
    ensures n == -1 || i < n <= |sig|
    decreases |sig|, |sig| - i
  {
    if i == |sig| then -1
    else if sig[i] == closer then i + 1
    else
      var n := CompleteType(sig[i..]);
      if n < 0 then -1 else Closed(sig, i + n, closer)
  }

  function Alignment(c: char): (n: nat)
    ensures n > 0
  {
    if c == 'n' || c == 'q' then 2
    else if c in "biuhsoa" then 4
    else if c in "xtd({" then 8
    else 1
  }

  /** The width of a fixed type, or zero. */
  function Width(c: char): nat {
    if c == 'y' then 1 else if c == 'n' || c == 'q' then 2 else if c in "biuh" then 4 else if c in "xtd" then 8 else 0
  }

  /** What a fixed type makes of its number: a boolean is true for any but zero. */
  function Held(c: char, n: int): int { if c == 'b' && n != 0 then 1 else n }

  /** Past any padding; Bad when the bytes end first. */
  function Aligned(b: string, off: nat, n: nat): (r: Reading<int>)
    requires off <= |b| && n > 0
    ensures if r.Good? then off <= r.off <= |b| && r.off % n == 0 else r.why.Refused?
    decreases |b| - off
  {
    if off % n == 0 then Good(off, off) else if off >= |b| then Bad(Refused) else Aligned(b, off + 1, n)
  }

  /** The number some bytes are, in either order. */
  function Number(big: bool, p: string): (n: nat)
    decreases |p|
  {
    if p == [] then 0
    else if big then 256 * Number(big, p[..|p| - 1]) + p[|p| - 1] as int
    else p[0] as int + 256 * Number(big, p[1..])
  }

  function FixedAt(big: bool, b: string, off: nat, size: nat): (r: Reading<int>)
    requires off <= |b| && size > 0
    ensures r.Good? ==> off < r.off <= |b| && 0 <= r.value
  {
    match Aligned(b, off, size)
    case Bad(why) => Bad(why)
    case Good(_, o) => if o + size > |b| then Bad(Refused) else Good(Number(big, b[o..o + size]), o + size)
  }

  /** n bytes and the one that ends them. */
  function Taken(b: string, off: nat, n: nat): (r: Reading<string>)
    requires off <= |b|
    ensures r.Good? ==> off < r.off <= |b|
  {
    if off + n + 1 > |b| then Bad(Refused) else Good(b[off..off + n], off + n + 1)
  }

  function StrAt(big: bool, b: string, off: nat): (r: Reading<string>)
    requires off <= |b|
    ensures r.Good? ==> off < r.off <= |b|
  {
    match FixedAt(big, b, off, 4)
    case Bad(why) => Bad(why)
    case Good(n, o) => Taken(b, o, n)
  }

  function SigAt(big: bool, b: string, off: nat): (r: Reading<string>)
    requires off <= |b|
    ensures r.Good? ==> off < r.off <= |b|
  {
    match FixedAt(big, b, off, 1)
    case Bad(why) => Bad(why)
    case Good(n, o) => Taken(b, o, n)
  }

  const DEEPEST := 64

  /** Whether a value may be a map's key: one that is or holds a list or a map may not. */
  predicate Hashable(d: Decoded) { (d.Var? && Hashable(d.v)) || d.Fixed? || d.Str? || d.Sig? }

  /** One complete value from the front of a signature. */
  function Value(big: bool, b: string, off: nat, sig: string, depth: nat): (r: Reading<Decoded>)
    requires off <= |b| && sig != "" && depth <= DEEPEST + 1
    ensures r.Good? ==> off <= r.off <= |b|
    decreases DEEPEST + 1 - depth, 2
  {
    var c := sig[0];
    if depth > DEEPEST then Bad(Refused)
    else if Width(c) > 0 then
      match FixedAt(big, b, off, Width(c))
      case Bad(why) => Bad(why)
      case Good(n, o) => Good(Fixed(c, Held(c, n)), o)
    else if c == 's' || c == 'o' then
      match StrAt(big, b, off)
      case Bad(why) => Bad(why)
      case Good(s, o) => Good(Str(s), o)
    else if c == 'g' then
      match SigAt(big, b, off)
      case Bad(why) => Bad(why)
      case Good(s, o) => Good(Sig(s), o)
    else if c == 'v' then VariantAt(big, b, off, depth)
    else if c == 'a' then ArrayAt(big, b, off, sig, depth)
    else if c == '(' || c == '{' then StructAt(big, b, off, sig, depth)
    else Bad(Refused)
  }

  function VariantAt(big: bool, b: string, off: nat, depth: nat): (r: Reading<Decoded>)
    requires off <= |b| && depth <= DEEPEST
    ensures r.Good? ==> off <= r.off <= |b|
    decreases DEEPEST + 1 - depth, 1
  {
    match Value(big, b, off, "g", depth + 1)
    case Bad(why) => Bad(why)
    case Good(g, o) =>
      if !g.Sig? || CompleteType(g.g) != |g.g| then Bad(Refused)
      else
        match Value(big, b, o, g.g, depth + 1)
        case Bad(why) => Bad(why)
        case Good(x, p) => Good(Var(g.g, x), p)
  }

  function ArrayAt(big: bool, b: string, off: nat, sig: string, depth: nat): (r: Reading<Decoded>)
    requires off <= |b| && sig != "" && depth <= DEEPEST
    ensures r.Good? ==> off <= r.off <= |b|
    decreases DEEPEST + 1 - depth, 1
  {
    match FixedAt(big, b, off, 4)
    case Bad(why) => Bad(why)
    case Good(n, o) =>
      var size := CompleteType(sig[1..]);
      if size < 0 then Bad(Refused)
      else
        var element := sig[1..1 + size];
        match Aligned(b, o, Alignment(element[0]))
        case Bad(why) => Bad(why)
        case Good(_, start) =>
          if start + n > |b| then Bad(Refused)
          else if element[0] == '{' then EntriesAt(big, b, start, start + n, element, depth, map[])
          else ElementsAt(big, b, start, start + n, element, depth, [])
  }

  function ElementsAt(big: bool, b: string, off: nat, end: nat, element: string, depth: nat, out: seq<Decoded>): (r: Reading<Decoded>)
    requires off <= |b| && end <= |b| && element != "" && depth <= DEEPEST
    ensures r.Good? ==> off <= r.off <= |b|
    decreases DEEPEST + 1 - depth, 0, |b| - off
  {
    if off >= end then Good(List(out), off)
    else
      match Value(big, b, off, element, depth + 1)
      case Bad(why) => Bad(why)
      case Good(x, o) => if o <= off then Bad(Endless) else ElementsAt(big, b, o, end, element, depth, out + [x])
  }

  function EntriesAt(big: bool, b: string, off: nat, end: nat, element: string, depth: nat, out: map<Decoded, Decoded>): (r: Reading<Decoded>)
    requires off <= |b| && end <= |b| && element != "" && depth <= DEEPEST
    ensures r.Good? ==> off <= r.off <= |b|
    decreases DEEPEST + 1 - depth, 0, |b| - off
  {
    if off >= end then Good(Map(out), off)
    else
      match Value(big, b, off, element, depth + 1)
      case Bad(why) => Bad(why)
      case Good(x, o) =>
        if !x.Struct? || |x.fs| < 2 || !Hashable(x.fs[0]) then Bad(Panics)
        else if o <= off then Bad(Endless)
        else EntriesAt(big, b, o, end, element, depth, out[x.fs[0] := x.fs[1]])
  }

  function StructAt(big: bool, b: string, off: nat, sig: string, depth: nat): (r: Reading<Decoded>)
    requires off <= |b| && sig != "" && depth <= DEEPEST
    ensures r.Good? ==> off <= r.off <= |b|
    decreases DEEPEST + 1 - depth, 1
  {
    match Aligned(b, off, 8)
    case Bad(why) => Bad(why)
    case Good(_, o) =>
      var size := CompleteType(sig);
      if size < 2 then Bad(Refused) else FieldsAt(big, b, o, sig[1..size - 1], depth, [])
  }

  function FieldsAt(big: bool, b: string, off: nat, inner: string, depth: nat, out: seq<Decoded>): (r: Reading<Decoded>)
    requires off <= |b| && depth <= DEEPEST
    ensures r.Good? ==> off <= r.off <= |b|
    decreases DEEPEST + 1 - depth, 0, |inner|
  {
    if inner == "" then Good(Struct(out), off)
    else
      var n := CompleteType(inner);
      if n < 0 then Bad(Refused)
      else
        match Value(big, b, off, inner[..n], depth + 1)
        case Bad(why) => Bad(why)
        case Good(x, o) => FieldsAt(big, b, o, inner[n..], depth, out + [x])
  }
}
