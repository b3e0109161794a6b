/** The records the codec carries: their texts, and what a reader makes of any input. */
module JsonRecords {
  import opened Bytes
  import opened JsonNumber
  import opened JsonString
  import opened Options
  import opened Utf8

  // go/abstraction/download/request/rec.go and go/rec/rec.go: enc*, Encode, decode*, decodeList and
  // Decode. The decoder is one function over the kind of record, since the generated decoders differ
  // only in their fields; JsonReader and JsonWriter hold the loops.

  /** 0 when unset, 1 for "any", 2 for "unmetered"; nothing else is a member. */
  datatype Constraints = Constraints(network: int)

  datatype Artifact = Artifact(digest: string, size: int)

  datatype Source = Source(scheme: string, locator: string, credential: string)

  datatype Request = Request(artifact: Artifact, sources: seq<Source>, constraints: Option<Constraints>)

  datatype Failure = Failure(error: string, permanent: bool, cause: string)

  datatype Kind = AConstraints | AnArtifact | ASource | ARequest | AFailure

  datatype Value =
    | OfConstraints(c: Constraints)
    | OfArtifact(a: Artifact)
    | OfSource(s: Source)
    | OfRequest(r: Request)
    | OfFailure(f: Failure)
  {
    function KindOf(): Kind {
      match this
      case OfConstraints(_) => AConstraints
      case OfArtifact(_) => AnArtifact
      case OfSource(_) => ASource
      case OfRequest(_) => ARequest
      case OfFailure(_) => AFailure
    }
  }

  const DEPTH_LIMIT := 64

  // ---- What the wire can carry ----------------------------------------------------------------------

  predicate CleanConstraints(c: Constraints) { c.network == 0 || Known(c.network) }

  predicate CleanArtifact(a: Artifact) { Octets(a.digest) && MIN_INT64 <= a.size <= MAX_INT64 }

  predicate CleanSource(s: Source) { Octets(s.scheme) && Octets(s.locator) && Octets(s.credential) }

  predicate CleanSources(ss: seq<Source>) { forall i :: 0 <= i < |ss| ==> CleanSource(ss[i]) }

  predicate CleanRequest(r: Request) {
    CleanArtifact(r.artifact) && CleanSources(r.sources) && (r.constraints.Some? ==> CleanConstraints(r.constraints.value))
  }

  predicate CleanFailure(f: Failure) { Octets(f.error) && Octets(f.cause) }

  /** Every string is UTF-8, every size fits 64 bits, every network is a member. */
  predicate Clean(v: Value) {
    match v
    case OfConstraints(c) => CleanConstraints(c)
    case OfArtifact(a) => CleanArtifact(a)
    case OfSource(s) => CleanSource(s)
    case OfRequest(r) => CleanRequest(r)
    case OfFailure(f) => CleanFailure(f)
  }

  datatype Name =
    | Network | Digest | Size | Scheme | Locator | Credential
    | ItsArtifact | ItsSources | ItsConstraints | Error | Permanent | Cause | Unknown

  function Spelt(name: Name): string {
    match name
    case Network => "network"
    case Digest => "digest"
    case Size => "size"
    case Scheme => "scheme"
    case Locator => "locator"
    case Credential => "credential"
    case ItsArtifact => "artifact"
    case ItsSources => "sources"
    case ItsConstraints => "constraints"
    case Error => "error"
    case Permanent => "permanent"
    case Cause => "cause"
    case Unknown => ""
  }

  /** The field of a kind of record that a key names. */
  function NameOf(kind: Kind, key: string): Name {
    match kind
    case AConstraints => if key == "network" then Network else Unknown
    case AnArtifact => if key == "digest" then Digest else if key == "size" then Size else Unknown
    case ASource =>
      if key == "scheme" then Scheme else if key == "locator" then Locator
      else if key == "credential" then Credential else Unknown
    case ARequest =>
      if key == "artifact" then ItsArtifact else if key == "sources" then ItsSources
      else if key == "constraints" then ItsConstraints else Unknown
    case AFailure =>
      if key == "error" then Error else if key == "permanent" then Permanent
      else if key == "cause" then Cause else Unknown
  }

  predicate Known(network: int) { network == 1 || network == 2 }

  function WireName(network: int): string
    requires Known(network)
  {
    if network == 1 then "any" else "unmetered"
  }

  function ParseNetwork(word: string): Option<int> {
    if word == "any" then Some(1) else if word == "unmetered" then Some(2) else None
  }

  // ---- Texts --------------------------------------------------------------------------------------

  function Spaces(n: nat): string { if n == 0 then "" else Spaces(n - 1) + " " }

  function Line(depth: nat): string { "\n" + Spaces(depth * 2) }

  function MemberText(depth: nat, name: Name, text: string): string {
    Line(depth) + Esc(Spelt(name)) + ": " + text
  }

  datatype Member = Member(name: Name, text: string)

  /** Members one to a line, with a comma between. */
  function MembersText(ms: seq<Member>, depth: nat): string {
    if ms == [] then ""
    else MemberText(depth, ms[0].name, ms[0].text) + (if |ms| > 1 then "," else "") + MembersText(ms[1..], depth)
  }

  function ObjectText(ms: seq<Member>, depth: nat): string {
    if ms == [] then "{}" else "{" + MembersText(ms, depth + 1) + Line(depth) + "}"
  }

  function ElementsText(texts: seq<string>, depth: nat): string {
    if texts == [] then ""
    else Line(depth) + texts[0] + (if |texts| > 1 then "," else "") + ElementsText(texts[1..], depth)
  }

  function ListText(texts: seq<string>, depth: nat): string {
    if texts == [] then "[]" else "[" + ElementsText(texts, depth + 1) + Line(depth) + "]"
  }

  function Optional(present: bool, name: Name, text: string): seq<Member> {
    if present then [Member(name, text)] else []
  }

  function ConstraintsMembers(c: Constraints): seq<Member>
    requires c.network == 0 || Known(c.network)
  {
    Optional(c.network != 0, Network, if c.network != 0 then Esc(WireName(c.network)) else "")
  }

  function ArtifactMembers(a: Artifact): seq<Member> {
    Optional(a.digest != "", Digest, Esc(a.digest)) + Optional(a.size != 0, Size, Num(a.size))
  }

  function SourceMembers(s: Source): seq<Member> {
    [Member(Scheme, Esc(s.scheme)), Member(Locator, Esc(s.locator))]
    + Optional(s.credential != "", Credential, Esc(s.credential))
  }

  /** A network word the encoder does not know makes it panic; every other request has a text. */
  predicate Spellable(r: Request) {
    r.constraints.None? || r.constraints.value.network == 0 || Known(r.constraints.value.network)
  }

  function SourceTexts(ss: seq<Source>, depth: nat): seq<string> {
    if ss == [] then [] else [ObjectText(SourceMembers(ss[0]), depth)] + SourceTexts(ss[1..], depth)
  }

  function RequestMembers(r: Request, depth: nat): seq<Member>
    requires Spellable(r)
  {
    [Member(ItsArtifact, ObjectText(ArtifactMembers(r.artifact), depth + 1)),
     Member(ItsSources, ListText(SourceTexts(r.sources, depth + 2), depth + 1))]
    + (if r.constraints.None? then []
       else [Member(ItsConstraints, ObjectText(ConstraintsMembers(r.constraints.value), depth + 1))])
  }

  function FailureMembers(f: Failure): seq<Member> {
    [Member(Error, Esc(f.error))] + Optional(f.permanent, Permanent, "true")
    + Optional(f.cause != "", Cause, Esc(f.cause))
  }

  function EncodeRequest(r: Request): string
    requires Spellable(r)
  {
    ObjectText(RequestMembers(r, 0), 0) + "\n"
  }

  function EncodeFailure(f: Failure): string { ObjectText(FailureMembers(f), 0) + "\n" }

  // ---- Reading --------------------------------------------------------------------------------------

  predicate Space(c: char) { c == ' ' || c == '\t' || c == '\n' || c == '\r' }

  /** Past any white space. */
  function Skip(buf: string, pos: nat): (p: nat)
    requires pos <= |buf|
    ensures pos <= p <= |buf| && !Space(At(buf, p))
    decreases |buf| - pos
  {
    if pos < |buf| && Space(buf[pos]) then Skip(buf, pos + 1) else pos
  }

  function Boolean(buf: string, pos: nat): (r: Parsed<bool>)
    requires pos <= |buf|
    ensures r.Got? ==> pos < r.pos <= |buf|
  {
    if At(buf, pos) == 't' then if Stands(buf, pos, "true") then Got(true, pos + 4) else Refused("malformed", pos)
    else if At(buf, pos) == 'f' then if Stands(buf, pos, "false") then Got(false, pos + 5) else Refused("malformed", pos)
    else Refused("wrong_type", pos)
  }

  function Needed(kind: Kind): set<Name> {
    match kind
    case AConstraints => {}
    case AnArtifact => {}
    case ASource => {Scheme, Locator}
    case ARequest => {ItsArtifact, ItsSources}
    case AFailure => {Error}
  }

  function Zero(kind: Kind): (v: Value)
    ensures v.KindOf() == kind && Clean(v)
  {
    match kind
    case AConstraints => OfConstraints(Constraints(0))
    case AnArtifact => OfArtifact(Artifact("", 0))
    case ASource => OfSource(Source("", "", ""))
    case ARequest => OfRequest(Request(Artifact("", 0), [], None))
    case AFailure => OfFailure(Failure("", false, ""))
  }

  datatype Held = Held(seen: set<Name>, v: Value)

  predicate Holds(h: Held, kind: Kind) { h.v.KindOf() == kind && Clean(h.v) }

  /** A string field put in its place. */
  function PutString(v: Value, name: Name, x: string): (out: Value)
    requires Clean(v) && Octets(x)
    ensures out.KindOf() == v.KindOf() && Clean(out)
  {
    match v
    case OfArtifact(a) => if name.Digest? then OfArtifact(a.(digest := x)) else v
    case OfSource(s) =>
      if name.Scheme? then OfSource(s.(scheme := x))
      else if name.Locator? then OfSource(s.(locator := x))
      else if name.Credential? then OfSource(s.(credential := x)) else v
    case OfFailure(f) =>
      if name.Error? then OfFailure(f.(error := x)) else if name.Cause? then OfFailure(f.(cause := x)) else v
    case OfConstraints(_) => v
    case OfRequest(_) => v
  }

  /** A field that holds no record, read into place. */
  function Scalar(name: Name, buf: string, pos: nat, v: Value): (r: Parsed<Value>)
    requires pos <= |buf| && Clean(v)
    ensures r.Got? ==> pos < r.pos <= |buf| && r.value.KindOf() == v.KindOf() && Clean(r.value)
  {
    if name.Size? && v.OfArtifact? then
      match Integer(buf, pos, MIN_INT64, MAX_INT64)
      case Refused(w, p) => Refused(w, p)
      case Got(n, p) => Got(OfArtifact(v.a.(size := n)), p)
    else if name.Permanent? && v.OfFailure? then
      match Boolean(buf, pos)
      case Refused(w, p) => Refused(w, p)
      case Got(b, p) => Got(OfFailure(v.f.(permanent := b)), p)
    else if v.OfConstraints? then
      match Str(buf, pos)
      case Refused(w, p) => Refused(w, p)
      case Got(x, p) =>
        if ParseNetwork(x).None? then Refused("bad_enum", p)
        else Got(OfConstraints(Constraints(ParseNetwork(x).value)), p)
    else
      match Str(buf, pos)
      case Refused(w, p) => Refused(w, p)
      case Got(x, p) => Got(PutString(v, name, x), p)
  }

  /** One field's value, read into the record; `depth` is the record's own. */
  function Field(kind: Kind, name: Name, buf: string, pos: nat, depth: nat, h: Held): (r: Parsed<Held>)
    requires pos <= |buf| && Holds(h, kind)
    ensures r.Got? ==> pos < r.pos <= |buf| && Holds(r.value, kind)
    decreases |buf| - pos, 4
  {
    if name.Unknown? then Refused("unknown_field", pos)
    else if name in h.seen then Refused("duplicate_field", pos)
    else
      match if kind.ARequest? then Nested(name, buf, pos, depth, h.v) else Scalar(name, buf, pos, h.v)
      case Refused(w, p) => Refused(w, p)
      case Got(v, p) => Got(Held(h.seen + {name}, v), p)
  }

  /** A request's fields, each of them a record or a list of records. */
  function Nested(name: Name, buf: string, pos: nat, depth: nat, v: Value): (r: Parsed<Value>)
    requires pos <= |buf| && v.OfRequest? && Clean(v)
    ensures r.Got? ==> pos < r.pos <= |buf| && r.value.OfRequest? && Clean(r.value)
    decreases |buf| - pos, 3
  {
    if name.ItsArtifact? then
      match Record(AnArtifact, buf, pos, depth)
      case Refused(w, p) => Refused(w, p)
      case Got(x, p) => Got(OfRequest(v.r.(artifact := x.a)), p)
    else if name.ItsSources? then
      match Sources(buf, pos, depth)
      case Refused(w, p) => Refused(w, p)
      case Got(xs, p) => Got(OfRequest(v.r.(sources := xs)), p)
    else
      match Record(AConstraints, buf, pos, depth)
      case Refused(w, p) => Refused(w, p)
      case Got(x, p) => Got(OfRequest(v.r.(constraints := Some(x.c))), p)
  }

  /** A key and the colon after it, up to where the value starts. */
  function Key(buf: string, pos: nat): (r: Parsed<string>)
    requires pos <= |buf|
    ensures r.Got? ==> pos < r.pos <= |buf|
  {
    var p := Skip(buf, pos);
    if At(buf, p) != '"' then Refused("malformed", p)
    else
      match Str(buf, p)
      case Refused(w, q) => Refused(w, q)
      case Got(key, q) =>
        var c := Skip(buf, q);
        if At(buf, c) != ':' then Refused("malformed", c) else Got(key, Skip(buf, c + 1))
  }

  /** The members of an object from one that must be there, to what stands where they end. */
  function Members(kind: Kind, buf: string, pos: nat, depth: nat, h: Held): (r: Parsed<Held>)
    requires pos <= |buf| && Holds(h, kind)
    ensures r.Got? ==> pos < r.pos <= |buf| && Holds(r.value, kind)
    decreases |buf| - pos, 5
  {
    match Key(buf, pos)
    case Refused(w, p) => Refused(w, p)
    case Got(key, p) =>
      match Field(kind, NameOf(kind, key), buf, p, depth, h)
      case Refused(w, q) => Refused(w, q)
      case Got(next, q) => More(kind, buf, q, depth, next)
  }

  /** After a member: another, or the end of them. */
  function More(kind: Kind, buf: string, pos: nat, depth: nat, h: Held): (r: Parsed<Held>)
    requires pos <= |buf| && Holds(h, kind)
    ensures r.Got? ==> pos <= r.pos <= |buf| && Holds(r.value, kind)
    decreases |buf| - pos, 6
  {
    var p := Skip(buf, pos);
    if At(buf, p) == ',' then Members(kind, buf, p + 1, depth, h) else Got(h, p)
  }

  /** A record, its own nesting entered and left. */
  function Record(kind: Kind, buf: string, pos: nat, depth: nat): (r: Parsed<Value>)
    requires pos <= |buf|
    ensures r.Got? ==> pos < r.pos <= |buf| && r.value.KindOf() == kind && Clean(r.value)
    decreases |buf| - pos, 2
  {
    if At(buf, pos) != '{' then Refused("wrong_type", pos)
    else if depth + 1 > DEPTH_LIMIT then Refused("depth_exceeded", pos)
    else
      var p := Skip(buf, pos + 1);
      var start := Held({}, Zero(kind));
      match if At(buf, p) == '}' then Got(start, p) else Members(kind, buf, p, depth + 1, start)
      case Refused(w, q) => Refused(w, q)
      case Got(h, q) =>
        if At(buf, q) != '}' then Refused("malformed", q)
        else if !(Needed(kind) <= h.seen) then Refused("missing_field", q + 1)
        else Got(h.v, q + 1)
  }

  /** The elements of a list from one that must be there. */
  function Elements(buf: string, pos: nat, depth: nat, out: seq<Source>): (r: Parsed<seq<Source>>)
    requires pos <= |buf| && CleanSources(out)
    ensures r.Got? ==> pos < r.pos <= |buf| && CleanSources(r.value)
    decreases |buf| - pos, 4
  {
    var p := Skip(buf, pos);
    match Record(ASource, buf, p, depth)
    case Refused(w, q) => Refused(w, q)
    case Got(x, q) => MoreElements(buf, q, depth, out + [x.s])
  }

  function MoreElements(buf: string, pos: nat, depth: nat, out: seq<Source>): (r: Parsed<seq<Source>>)
    requires pos <= |buf| && CleanSources(out)
    ensures r.Got? ==> pos <= r.pos <= |buf| && CleanSources(r.value)
    decreases |buf| - pos, 5
  {
    var p := Skip(buf, pos);
    if At(buf, p) == ',' then Elements(buf, p + 1, depth, out) else Got(out, p)
  }

  function Sources(buf: string, pos: nat, depth: nat): (r: Parsed<seq<Source>>)
    requires pos <= |buf|
    ensures r.Got? ==> pos < r.pos <= |buf| && CleanSources(r.value)
    decreases |buf| - pos, 2
  {
    if At(buf, pos) != '[' then Refused("wrong_type", pos)
    else if depth + 1 > DEPTH_LIMIT then Refused("depth_exceeded", pos)
    else
      var p := Skip(buf, pos + 1);
      match if At(buf, p) == ']' then Got([], p) else Elements(buf, p, depth + 1, [])
      case Refused(w, q) => Refused(w, q)
      case Got(xs, q) => if At(buf, q) != ']' then Refused("malformed", q) else Got(xs, q + 1)
  }

  /** A whole input: one record, and nothing but white space around it. */
  function Decode(kind: Kind, buf: string): (r: Parsed<Value>)
    ensures r.Got? ==> r.value.KindOf() == kind && Clean(r.value) && r.pos == |buf|
  {
    match Record(kind, buf, Skip(buf, 0), 0)
    case Refused(w, p) => Refused(w, p)
    case Got(v, p) => if Skip(buf, p) < |buf| then Refused("trailing_bytes", Skip(buf, p)) else Got(v, Skip(buf, p))
  }
}
