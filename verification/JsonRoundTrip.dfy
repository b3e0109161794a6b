/** What is written is what is read: for every request and every failure the decoder gives back
    exactly the value the encoder was given, when the wire can carry it and not otherwise.

    A record's text is a list of members, each of which moves the decoder from one held value to
    the next (`MemberReads`, and one lemma for each kind of field); a list is read element by
    element the same way. The last section puts the parts of a request together, and carries the
    result over to inputs that are spelled differently. */
module JsonRoundTrip {
  import opened Bytes
  import opened JsonNumber
  import opened JsonRecords
  import opened JsonString
  import opened Options
  import opened Utf8

  lemma {:induction false} SkipSpaces(buf: string, pos: nat, n: nat)
    requires pos <= |buf| && Stands(buf, pos, Spaces(n))
    ensures |Spaces(n)| == n && Skip(buf, pos) == Skip(buf, pos + n)
    decreases n
  {
    if n > 0 {
      SpacesCons(n);
      StandsSplit(buf, pos, " ", Spaces(n - 1));
      StandsAt(buf, pos, " ", 0);
      SkipSpaces(buf, pos + 1, n - 1);
    }
  }

  lemma {:induction false} SpacesCons(n: nat)
    requires n > 0
    ensures Spaces(n) == " " + Spaces(n - 1)
  {
    if n > 1 { SpacesCons(n - 1); }
  }

  lemma SkipLine(buf: string, pos: nat, depth: nat)
    requires pos <= |buf| && Stands(buf, pos, Line(depth))
    ensures Skip(buf, pos) == Skip(buf, pos + |Line(depth)|)
  {
    StandsSplit(buf, pos, "\n", Spaces(depth * 2));
    StandsAt(buf, pos, "\n", 0);
    SkipSpaces(buf, pos + 1, depth * 2);
  }

  /** A text a value can start with, so that nothing before it is skipped into it. */
  predicate Starts(text: string) { text != "" && !Space(text[0]) }

  function KeyText(depth: nat, key: string): string { Line(depth) + Esc(key) + ": " }

  /** Where a key's quote and its colon are. */
  lemma KeyStands(buf: string, pos: nat, depth: nat, key: string) returns (quote: nat, colon: nat)
    requires Stands(buf, pos, KeyText(depth, key))
    ensures pos <= quote < colon < colon + 2 == pos + |KeyText(depth, key)| <= |buf|
    ensures Skip(buf, pos) == Skip(buf, quote) && At(buf, quote) == '"'
    ensures Stands(buf, quote, Esc(key)) && colon == quote + |Esc(key)|
    ensures At(buf, colon) == ':' && At(buf, colon + 1) == ' '
  {
    quote := pos + |Line(depth)|;
    colon := quote + |Esc(key)|;
    Stands3(buf, pos, Line(depth), Esc(key), ": ");
    SkipLine(buf, pos, depth);
    StandsAt(buf, quote, Esc(key), 0);
    StandsAt(buf, colon, ": ", 0);
    StandsAt(buf, colon, ": ", 1);
  }

  lemma KeyReads(buf: string, pos: nat, depth: nat, key: string, value: nat)
    requires pos <= |buf| && Stands(buf, pos, KeyText(depth, key)) && Octets(key)
    requires value == pos + |KeyText(depth, key)| && !Space(At(buf, value))
    ensures value <= |buf| && Key(buf, pos) == Got(key, value)
    ensures At(buf, Skip(buf, pos)) == '"' && Key(buf, Skip(buf, pos)) == Key(buf, pos)
  {
    hide Str, Esc, KeyText, Octets, Stands;
    var quote, colon := KeyStands(buf, pos, depth, key);
    KeyAt(buf, quote, key, colon);
  }

  lemma KeyAt(buf: string, quote: nat, key: string, colon: nat)
    requires quote < |buf| && Stands(buf, quote, Esc(key)) && colon == quote + |Esc(key)| && Octets(key)
    requires At(buf, quote) == '"' && At(buf, colon) == ':' && At(buf, colon + 1) == ' ' && !Space(At(buf, colon + 2))
    ensures colon + 2 <= |buf| && Key(buf, quote) == Got(key, colon + 2)
  {
    StringReadsBack(buf, quote, key);
    assert Skip(buf, colon + 1) == Skip(buf, colon + 2);
  }

  predicate Ends(c: char) { c == ',' || c == '\n' }

  /** A member's text, wherever it stands with a comma or a new line after it, takes the record
      from one state to the next. */
  ghost predicate Advances(kind: Kind, buf: string, m: Member, depth: nat, h: Held, next: Held) {
    && Holds(h, kind) && Holds(next, kind)
    && m.name == NameOf(kind, Spelt(m.name)) && Octets(Spelt(m.name)) && Starts(m.text)
    && forall p: nat :: Stands(buf, p, m.text) && Ends(At(buf, p + |m.text|)) ==>
         Field(kind, m.name, buf, p, depth, h) == Got(next, p + |m.text|)
  }

  ghost predicate AllAdvance(kind: Kind, buf: string, ms: seq<Member>, depth: nat, hs: seq<Held>) {
    && |hs| == |ms| + 1
    && forall i :: 0 <= i < |ms| ==> Advances(kind, buf, ms[i], depth, hs[i], hs[i + 1])
  }

  lemma MemberStands(buf: string, pos: nat, line: nat, m: Member, end: nat) returns (value: nat)
    requires Stands(buf, pos, MemberText(line, m.name, m.text)) && end == pos + |MemberText(line, m.name, m.text)|
    ensures Stands(buf, pos, KeyText(line, Spelt(m.name))) && value == pos + |KeyText(line, Spelt(m.name))|
    ensures Stands(buf, value, m.text) && end == value + |m.text|
  {
    var k := KeyText(line, Spelt(m.name));
    assert MemberText(line, m.name, m.text) == k + m.text;
    StandsSplit(buf, pos, k, m.text);
    value := pos + |k|;
  }

  lemma MemberFrom(kind: Kind, buf: string, pos: nat, value: nat, m: Member, depth: nat, h: Held, next: Held, end: nat)
    requires pos <= |buf| && Advances(kind, buf, m, depth, h, next)
    requires Key(buf, pos) == Got(Spelt(m.name), value) && Stands(buf, value, m.text) && end == value + |m.text|
    requires Ends(At(buf, end))
    ensures end <= |buf| && Members(kind, buf, pos, depth, h) == More(kind, buf, end, depth, next)
  {
    assert Field(kind, m.name, buf, value, depth, h) == Got(next, end);
  }

  lemma MemberReads(kind: Kind, buf: string, pos: nat, line: nat, m: Member, depth: nat, h: Held, next: Held, end: nat)
    requires pos <= |buf| && Advances(kind, buf, m, depth, h, next)
    requires Stands(buf, pos, MemberText(line, m.name, m.text)) && end == pos + |MemberText(line, m.name, m.text)|
    requires Ends(At(buf, end))
    ensures end <= |buf| && Members(kind, buf, pos, depth, h) == More(kind, buf, end, depth, next)
    ensures At(buf, Skip(buf, pos)) == '"' && Members(kind, buf, Skip(buf, pos), depth, h) == Members(kind, buf, pos, depth, h)
  {
    var value := MemberStands(buf, pos, line, m, end);
    StandsAt(buf, value, m.text, 0);
    KeyReads(buf, pos, line, Spelt(m.name), value);
    MemberFrom(kind, buf, pos, value, m, depth, h, next, end);
  }

  /** How a list of members splits into the first and the rest. */
  lemma MembersStand(buf: string, pos: nat, line: nat, ms: seq<Member>, end: nat) returns (comma: nat)
    requires ms != [] && Stands(buf, pos, MembersText(ms, line)) && end == pos + |MembersText(ms, line)|
    ensures Stands(buf, pos, MemberText(line, ms[0].name, ms[0].text))
    ensures comma == pos + |MemberText(line, ms[0].name, ms[0].text)|
    ensures |ms| == 1 ==> comma == end
    ensures |ms| > 1 ==> At(buf, comma) == ',' && Stands(buf, comma + 1, MembersText(ms[1..], line))
    ensures |ms| > 1 ==> end == comma + 1 + |MembersText(ms[1..], line)|
  {
    hide MemberText, Spaces;
    var first, rest := MemberText(line, ms[0].name, ms[0].text), MembersText(ms[1..], line);
    comma := pos + |first|;
    if |ms| == 1 {
      assert first + "" + rest == first;
    } else {
      Stands3(buf, pos, first, ",", rest);
      StandsAt(buf, comma, ",", 0);
    }
  }

  /** The members of a text read one after another, up to the line the brace stands on. */
  lemma {:induction false} MembersRead(kind: Kind, buf: string, pos: nat, line: nat, ms: seq<Member>, depth: nat,
                                       hs: seq<Held>, end: nat)
    requires ms != [] && AllAdvance(kind, buf, ms, depth, hs)
    requires pos <= |buf| && Stands(buf, pos, MembersText(ms, line)) && end == pos + |MembersText(ms, line)|
    requires At(buf, end) == '\n'
    ensures end <= |buf| && Holds(hs[0], kind) && Holds(hs[|ms|], kind)
    ensures Members(kind, buf, pos, depth, hs[0]) == More(kind, buf, end, depth, hs[|ms|])
    ensures At(buf, Skip(buf, pos)) == '"'
    ensures Members(kind, buf, Skip(buf, pos), depth, hs[0]) == Members(kind, buf, pos, depth, hs[0])
    decreases |ms|
  {
    hide Members, More, Field, MembersText;
    var comma := MembersStand(buf, pos, line, ms, end);
    assert Advances(kind, buf, ms[0], depth, hs[0], hs[1]);
    MemberReads(kind, buf, pos, line, ms[0], depth, hs[0], hs[1], comma);
    if |ms| > 1 {
      RestAdvances(kind, buf, ms, depth, hs);
      CommaContinues(kind, buf, comma, depth, hs[1]);
      MembersRead(kind, buf, comma + 1, line, ms[1..], depth, hs[1..], end);
    }
  }

  lemma CommaContinues(kind: Kind, buf: string, comma: nat, depth: nat, h: Held)
    requires Holds(h, kind) && At(buf, comma) == ','
    ensures comma < |buf| && More(kind, buf, comma, depth, h) == Members(kind, buf, comma + 1, depth, h)
  {
    assert Skip(buf, comma) == comma;
  }

  lemma RestAdvances(kind: Kind, buf: string, ms: seq<Member>, depth: nat, hs: seq<Held>)
    requires |ms| > 0 && AllAdvance(kind, buf, ms, depth, hs)
    ensures AllAdvance(kind, buf, ms[1..], depth, hs[1..])
  {
    forall i | 0 <= i < |ms| - 1 ensures Advances(kind, buf, ms[1..][i], depth, hs[1..][i], hs[1..][i + 1]) {
      assert Advances(kind, buf, ms[i + 1], depth, hs[i + 1], hs[i + 2]);
    }
  }

  lemma ObjectStands(buf: string, pos: nat, line: nat, ms: seq<Member>, end: nat) returns (inner: nat, brace: nat)
    requires ms != [] && Stands(buf, pos, ObjectText(ms, line)) && end == pos + |ObjectText(ms, line)|
    ensures pos < |buf| && At(buf, pos) == '{' && Stands(buf, pos + 1, MembersText(ms, line + 1))
    ensures inner == pos + 1 + |MembersText(ms, line + 1)| <= |buf| && At(buf, inner) == '\n'
    ensures brace <= |buf| && Skip(buf, inner) == brace && At(buf, brace) == '}' && end == brace + 1
  {
    var text, close := MembersText(ms, line + 1), Line(line);
    inner, brace := Braced(buf, pos, text, close);
    LineThenBrace(buf, inner, line, brace);
  }

  lemma LineThenBrace(buf: string, inner: nat, line: nat, brace: nat)
    requires inner <= |buf| && Stands(buf, inner, Line(line)) && brace == inner + |Line(line)| && At(buf, brace) == '}'
    ensures brace < |buf| && Skip(buf, inner) == brace
  {
    SkipLine(buf, inner, line);
  }

  lemma Braced(buf: string, pos: nat, text: string, close: string) returns (inner: nat, brace: nat)
    requires Stands(buf, pos, "{" + text + close + "}") && close != "" && close[0] == '\n'
    ensures pos < |buf| && At(buf, pos) == '{' && Stands(buf, pos + 1, text)
    ensures inner == pos + 1 + |text| && Stands(buf, inner, close) && At(buf, inner) == '\n'
    ensures brace == inner + |close| < |buf| && At(buf, brace) == '}'
  {
    inner := pos + 1 + |text|;
    brace := inner + |close|;
    Stands3(buf, pos, "{" + text, close, "}");
    StandsSplit(buf, pos, "{", text);
    StandsAt(buf, pos, "{", 0);
    StandsAt(buf, inner, close, 0);
    StandsAt(buf, brace, "}", 0);
  }

  lemma BraceEnds(kind: Kind, buf: string, inner: nat, brace: nat, depth: nat, h: Held)
    requires inner <= |buf| && Skip(buf, inner) == brace && At(buf, brace) == '}'
    requires Holds(h, kind)
    ensures More(kind, buf, inner, depth, h) == Got(h, brace)
  {
  }

  lemma BracesHold(kind: Kind, buf: string, pos: nat, brace: nat, depth: nat, h: Held)
    requires pos < |buf| && At(buf, pos) == '{' && At(buf, Skip(buf, pos + 1)) != '}' && depth < DEPTH_LIMIT
    requires Members(kind, buf, Skip(buf, pos + 1), depth + 1, Held({}, Zero(kind))) == Got(h, brace)
    requires At(buf, brace) == '}' && Needed(kind) <= h.seen
    ensures Record(kind, buf, pos, depth) == Got(h.v, brace + 1)
  {
  }

  lemma EmptyObjectReads(kind: Kind, buf: string, pos: nat, depth: nat)
    requires pos <= |buf| && Stands(buf, pos, "{}") && depth < DEPTH_LIMIT && Needed(kind) == {}
    ensures Record(kind, buf, pos, depth) == Got(Zero(kind), pos + 2)
  {
    StandsAt(buf, pos, "{}", 0);
    StandsAt(buf, pos, "{}", 1);
    assert Skip(buf, pos + 1) == pos + 1;
  }

  /** An object's text reads as the record its members build. */
  lemma ObjectReads(kind: Kind, buf: string, pos: nat, line: nat, ms: seq<Member>, depth: nat, hs: seq<Held>, end: nat)
    requires pos <= |buf| && Stands(buf, pos, ObjectText(ms, line)) && end == pos + |ObjectText(ms, line)|
    requires depth < DEPTH_LIMIT
    requires AllAdvance(kind, buf, ms, depth + 1, hs) && hs[0] == Held({}, Zero(kind)) && Needed(kind) <= hs[|ms|].seen
    ensures Record(kind, buf, pos, depth) == Got(hs[|ms|].v, end)
  {
    if ms == [] {
      EmptyObjectReads(kind, buf, pos, depth);
    } else {
      var inner, brace := ObjectStands(buf, pos, line, ms, end);
      MembersRead(kind, buf, pos + 1, line + 1, ms, depth + 1, hs, inner);
      BraceEnds(kind, buf, inner, brace, depth + 1, hs[|ms|]);
      BracesHold(kind, buf, pos, brace, depth, hs[|ms|]);
    }
  }

  // ---- Each kind of field ---------------------------------------------------------------------------

  /** A field the kind has, and its key names. */
  predicate Has(kind: Kind, name: Name) { !name.Unknown? && NameOf(kind, Spelt(name)) == name }

  predicate Ascii(s: string) { forall i :: 0 <= i < |s| ==> s[i] as int < 0x80 }

  lemma SpeltAscii(name: Name)
    ensures Ascii(Spelt(name))
  {
  }

  lemma SpeltOctets(name: Name)
    ensures Octets(Spelt(name))
  {
    SpeltAscii(name);
    AsciiOctets(Spelt(name));
  }

  lemma EscStarts(x: string)
    ensures Starts(Esc(x))
  {
    assert Esc(x)[0] == '"';
  }

  /** A scalar whose own text reads as it should takes the record on. */
  lemma ScalarAdvances(kind: Kind, buf: string, m: Member, depth: nat, h: Held, v: Value)
    requires Has(kind, m.name) && !kind.ARequest? && m.name !in h.seen && Holds(h, kind) && Holds(Held({}, v), kind)
    requires Starts(m.text)
    requires forall p: nat :: Stands(buf, p, m.text) && Ends(At(buf, p + |m.text|)) ==>
      Scalar(m.name, buf, p, h.v) == Got(v, p + |m.text|)
    ensures Advances(kind, buf, m, depth, h, Held(h.seen + {m.name}, v))
  {
    hide Nested, Record, Scalar, Octets, Clean, Spelt;
    SpeltOctets(m.name);
  }

  predicate TakesString(v: Value, name: Name) {
    || (v.OfArtifact? && name.Digest?)
    || (v.OfSource? && (name.Scheme? || name.Locator? || name.Credential?))
    || (v.OfFailure? && (name.Error? || name.Cause?))
  }

  lemma StringAdvances(kind: Kind, buf: string, name: Name, x: string, depth: nat, h: Held)
    requires TakesString(h.v, name) && Has(kind, name) && name !in h.seen && Holds(h, kind) && Octets(x)
    ensures Advances(kind, buf, Member(name, Esc(x)), depth, h, Held(h.seen + {name}, PutString(h.v, name, x)))
  {
    EscStarts(x);
    var v := PutString(h.v, name, x);
    forall p: nat | Stands(buf, p, Esc(x)) ensures Scalar(name, buf, p, h.v) == Got(v, p + |Esc(x)|) {
      StringReadsBack(buf, p, x);
    }
    ScalarAdvances(kind, buf, Member(name, Esc(x)), depth, h, v);
  }

  lemma NumStarts(n: int)
    ensures Starts(Num(n))
  {
    assert n < 0 ==> Num(n)[0] == '-';
  }

  lemma SizeAdvances(buf: string, n: int, depth: nat, h: Held)
    requires h.v.OfArtifact? && Size !in h.seen && Clean(h.v) && MIN_INT64 <= n <= MAX_INT64
    ensures Advances(AnArtifact, buf, Member(Size, Num(n)), depth, h, Held(h.seen + {Size}, OfArtifact(h.v.a.(size := n))))
  {
    NumStarts(n);
    var v := OfArtifact(h.v.a.(size := n));
    forall p: nat | Stands(buf, p, Num(n)) && Ends(At(buf, p + |Num(n)|))
      ensures Scalar(Size, buf, p, h.v) == Got(v, p + |Num(n)|)
    {
      SpelledIsGot(buf, p, n);
    }
    ScalarAdvances(AnArtifact, buf, Member(Size, Num(n)), depth, h, v);
  }

  lemma TrueAdvances(buf: string, depth: nat, h: Held)
    requires h.v.OfFailure? && Permanent !in h.seen && Clean(h.v)
    ensures Advances(AFailure, buf, Member(Permanent, "true"), depth, h,
                     Held(h.seen + {Permanent}, OfFailure(h.v.f.(permanent := true))))
  {
    var v := OfFailure(h.v.f.(permanent := true));
    forall p: nat | Stands(buf, p, "true") ensures Scalar(Permanent, buf, p, h.v) == Got(v, p + 4) {
      StandsAt(buf, p, "true", 0);
    }
    ScalarAdvances(AFailure, buf, Member(Permanent, "true"), depth, h, v);
  }

  lemma NetworkAdvances(buf: string, n: int, depth: nat, h: Held)
    requires h.v.OfConstraints? && Network !in h.seen && Clean(h.v) && Known(n)
    ensures Advances(AConstraints, buf, Member(Network, Esc(WireName(n))), depth, h,
                     Held(h.seen + {Network}, OfConstraints(Constraints(n))))
  {
    var x, v := WireName(n), OfConstraints(Constraints(n));
    EscStarts(x);
    assert Ascii(x);
    AsciiOctets(x);
    forall p: nat | Stands(buf, p, Esc(x)) ensures Scalar(Network, buf, p, h.v) == Got(v, p + |Esc(x)|) {
      StringReadsBack(buf, p, x);
    }
    ScalarAdvances(AConstraints, buf, Member(Network, Esc(x)), depth, h, v);
  }

  // ---- Each kind of record --------------------------------------------------------------------------

  /** One more member, when it is there to take. */
  lemma Then(kind: Kind, buf: string, ms: seq<Member>, depth: nat, hs: seq<Held>, present: bool, m: Member, next: Held)
    returns (more: seq<Held>)
    requires AllAdvance(kind, buf, ms, depth, hs)
    requires present ==> Advances(kind, buf, m, depth, hs[|ms|], next)
    ensures AllAdvance(kind, buf, ms + Optional(present, m.name, m.text), depth, more)
    ensures more[0] == hs[0] && more[|more| - 1] == if present then next else hs[|ms|]
  {
    more := if present then hs + [next] else hs;
    var all := ms + Optional(present, m.name, m.text);
    forall i | 0 <= i < |all| ensures Advances(kind, buf, all[i], depth, more[i], more[i + 1]) {
      if i < |ms| { assert Advances(kind, buf, ms[i], depth, hs[i], hs[i + 1]); }
    }
  }

  /** The states an artifact passes through as its members are read. */
  lemma ArtifactSteps(buf: string, a: Artifact, depth: nat) returns (hs: seq<Held>)
    requires CleanArtifact(a)
    ensures AllAdvance(AnArtifact, buf, ArtifactMembers(a), depth, hs)
    ensures hs[0] == Held({}, Zero(AnArtifact)) && hs[|ArtifactMembers(a)|].v == OfArtifact(a)
  {
    var h0 := Held({}, OfArtifact(Artifact("", 0)));
    var h1 := Held(h0.seen + {Digest}, OfArtifact(Artifact(a.digest, 0)));
    StringAdvances(AnArtifact, buf, Digest, a.digest, depth, h0);
    hs := Then(AnArtifact, buf, [], depth, [h0], a.digest != "", Member(Digest, Esc(a.digest)), h1);
    var ms := Optional(a.digest != "", Digest, Esc(a.digest));
    assert [] + ms == ms;
    var h := hs[|ms|];
    SizeAdvances(buf, a.size, depth, h);
    hs := Then(AnArtifact, buf, ms, depth, hs, a.size != 0, Member(Size, Num(a.size)),
               Held(h.seen + {Size}, OfArtifact(Artifact(a.digest, a.size))));
  }

  lemma ArtifactReads(buf: string, pos: nat, line: nat, a: Artifact, depth: nat)
    requires pos <= |buf| && Stands(buf, pos, ObjectText(ArtifactMembers(a), line))
    requires CleanArtifact(a) && depth < DEPTH_LIMIT
    ensures Record(AnArtifact, buf, pos, depth) == Got(OfArtifact(a), pos + |ObjectText(ArtifactMembers(a), line)|)
  {
    var ms := ArtifactMembers(a);
    var hs := ArtifactSteps(buf, a, depth + 1);
    ObjectReads(AnArtifact, buf, pos, line, ms, depth, hs, pos + |ObjectText(ms, line)|);
  }

  lemma SourceSteps(buf: string, s: Source, depth: nat) returns (hs: seq<Held>)
    requires CleanSource(s)
    ensures AllAdvance(ASource, buf, SourceMembers(s), depth, hs)
    ensures hs[0] == Held({}, Zero(ASource)) && hs[|SourceMembers(s)|].v == OfSource(s)
    ensures Needed(ASource) <= hs[|SourceMembers(s)|].seen
  {
    hide Advances, Field, Scalar, Esc;
    var h0 := Held({}, OfSource(Source("", "", "")));
    var h1 := Held(h0.seen + {Scheme}, OfSource(Source(s.scheme, "", "")));
    var h2 := Held(h1.seen + {Locator}, OfSource(Source(s.scheme, s.locator, "")));
    var scheme, locator := Member(Scheme, Esc(s.scheme)), Member(Locator, Esc(s.locator));
    StringAdvances(ASource, buf, Scheme, s.scheme, depth, h0);
    StringAdvances(ASource, buf, Locator, s.locator, depth, h1);
    StringAdvances(ASource, buf, Credential, s.credential, depth, h2);
    hs := Then(ASource, buf, [], depth, [h0], true, scheme, h1);
    assert [] + Optional(true, scheme.name, scheme.text) == [scheme];
    hs := Then(ASource, buf, [scheme], depth, hs, true, locator, h2);
    assert [scheme] + Optional(true, locator.name, locator.text) == [scheme, locator];
    hs := Then(ASource, buf, [scheme, locator], depth, hs, s.credential != "", Member(Credential, Esc(s.credential)),
               Held(h2.seen + {Credential}, OfSource(s)));
  }

  lemma SourceReads(buf: string, pos: nat, line: nat, s: Source, depth: nat)
    requires pos <= |buf| && Stands(buf, pos, ObjectText(SourceMembers(s), line))
    requires CleanSource(s) && depth < DEPTH_LIMIT
    ensures Record(ASource, buf, pos, depth) == Got(OfSource(s), pos + |ObjectText(SourceMembers(s), line)|)
  {
    var ms := SourceMembers(s);
    var hs := SourceSteps(buf, s, depth + 1);
    ObjectReads(ASource, buf, pos, line, ms, depth, hs, pos + |ObjectText(ms, line)|);
  }

  lemma ConstraintsRead(buf: string, pos: nat, line: nat, c: Constraints, depth: nat)
    requires CleanConstraints(c) && depth < DEPTH_LIMIT
    requires pos <= |buf| && Stands(buf, pos, ObjectText(ConstraintsMembers(c), line))
    ensures Record(AConstraints, buf, pos, depth)
      == Got(OfConstraints(c), pos + |ObjectText(ConstraintsMembers(c), line)|)
  {
    hide Record, ObjectText, Octets;
    var ms := ConstraintsMembers(c);
    var h0 := Held({}, OfConstraints(Constraints(0)));
    var hs := [h0];
    if c.network != 0 {
      NetworkAdvances(buf, c.network, depth + 1, h0);
      hs := [h0, Held(h0.seen + {Network}, OfConstraints(c))];
    }
    ObjectReads(AConstraints, buf, pos, line, ms, depth, hs, pos + |ObjectText(ms, line)|);
  }

  lemma FailureSteps(buf: string, f: Failure) returns (hs: seq<Held>)
    requires CleanFailure(f)
    ensures AllAdvance(AFailure, buf, FailureMembers(f), 1, hs)
    ensures hs[0] == Held({}, Zero(AFailure)) && hs[|FailureMembers(f)|].v == OfFailure(f)
    ensures Needed(AFailure) <= hs[|FailureMembers(f)|].seen
  {
    hide Advances, Field, Scalar, Esc;
    var h0 := Held({}, OfFailure(Failure("", false, "")));
    var h1 := Held(h0.seen + {Error}, OfFailure(Failure(f.error, false, "")));
    var h2 := Held(h1.seen + {Permanent}, OfFailure(Failure(f.error, true, "")));
    var error := Member(Error, Esc(f.error));
    StringAdvances(AFailure, buf, Error, f.error, 1, h0);
    TrueAdvances(buf, 1, h1);
    hs := Then(AFailure, buf, [], 1, [h0], true, error, h1);
    assert [] + Optional(true, error.name, error.text) == [error];
    hs := Then(AFailure, buf, [error], 1, hs, f.permanent, Member(Permanent, "true"), h2);
    var ms := [error] + Optional(f.permanent, Permanent, "true");
    var h := hs[|ms|];
    StringAdvances(AFailure, buf, Cause, f.cause, 1, h);
    hs := Then(AFailure, buf, ms, 1, hs, f.cause != "", Member(Cause, Esc(f.cause)), Held(h.seen + {Cause}, OfFailure(f)));
  }

  lemma FailureReads(buf: string, pos: nat, f: Failure)
    requires pos <= |buf| && Stands(buf, pos, ObjectText(FailureMembers(f), 0)) && CleanFailure(f)
    ensures Record(AFailure, buf, pos, 0) == Got(OfFailure(f), pos + |ObjectText(FailureMembers(f), 0)|)
  {
    hide Record, ObjectText;
    var ms := FailureMembers(f);
    var hs := FailureSteps(buf, f);
    ObjectReads(AFailure, buf, pos, 0, ms, 0, hs, pos + |ObjectText(ms, 0)|);
  }

  // ---- Lists ------------------------------------------------------------------------------------------

  /** Where the first element is, and where the rest are. */
  lemma ElementsStand(buf: string, pos: nat, line: nat, texts: seq<string>, end: nat) returns (first: nat, comma: nat)
    requires texts != [] && Stands(buf, pos, ElementsText(texts, line)) && end == pos + |ElementsText(texts, line)|
    ensures pos <= first <= |buf| && Skip(buf, pos) == Skip(buf, first) && Stands(buf, first, texts[0])
    ensures comma == first + |texts[0]|
    ensures |texts| == 1 ==> comma == end
    ensures |texts| > 1 ==> At(buf, comma) == ',' && Stands(buf, comma + 1, ElementsText(texts[1..], line))
    ensures |texts| > 1 ==> end == comma + 1 + |ElementsText(texts[1..], line)|
  {
    hide Spaces, Skip;
    var head, rest := Line(line) + texts[0], ElementsText(texts[1..], line);
    first := pos + |Line(line)|;
    comma := pos + |head|;
    if |texts| == 1 {
      assert head + "" + rest == head;
    } else {
      Stands3(buf, pos, head, ",", rest);
      StandsAt(buf, comma, ",", 0);
    }
    StandsSplit(buf, pos, Line(line), texts[0]);
    SkipLine(buf, pos, line);
  }

  lemma ElementFrom(buf: string, pos: nat, depth: nat, first: nat, s: Source, comma: nat, out: seq<Source>)
    requires pos <= |buf| && first <= |buf| && Skip(buf, pos) == first && CleanSources(out) && CleanSource(s)
    requires Record(ASource, buf, first, depth) == Got(OfSource(s), comma)
    ensures comma <= |buf| && Elements(buf, pos, depth, out) == MoreElements(buf, comma, depth, out + [s])
  {
    hide Record;
  }

  lemma ElementReads(buf: string, first: nat, line: nat, s: Source, depth: nat, comma: nat)
    requires first <= |buf| && Stands(buf, first, ObjectText(SourceMembers(s), line)) && CleanSource(s)
    requires depth < DEPTH_LIMIT && comma == first + |ObjectText(SourceMembers(s), line)|
    ensures At(buf, first) == '{' && Skip(buf, first) == first
    ensures Record(ASource, buf, first, depth) == Got(OfSource(s), comma)
  {
    hide Record;
    SourceReads(buf, first, line, s, depth);
    var inner, brace := ObjectStands(buf, first, line, SourceMembers(s), comma);
  }

  lemma {:induction false} ElementsRead(buf: string, pos: nat, line: nat, ss: seq<Source>, depth: nat,
                                        out: seq<Source>, end: nat)
    requires ss != [] && CleanSources(ss) && CleanSources(out) && depth < DEPTH_LIMIT
    requires pos <= |buf| && Stands(buf, pos, ElementsText(SourceTexts(ss, line), line))
    requires end == pos + |ElementsText(SourceTexts(ss, line), line)|
    ensures end <= |buf| && At(buf, Skip(buf, pos)) == '{'
    ensures Elements(buf, pos, depth, out) == MoreElements(buf, end, depth, out + ss)
    ensures Elements(buf, Skip(buf, pos), depth, out) == Elements(buf, pos, depth, out)
    decreases |ss|
  {
    hide Record, MoreElements, Elements, ObjectText, ElementsText, Skip, Stands, SourceTexts, CleanSources, Octets;
    TextsCons(ss, line);
    CleanSplit(out, ss);
    var first, comma := ElementsStand(buf, pos, line, SourceTexts(ss, line), end);
    ElementReads(buf, first, line, ss[0], depth, comma);
    ElementFrom(buf, pos, depth, first, ss[0], comma, out);
    ElementFrom(buf, first, depth, first, ss[0], comma, out);
    if |ss| == 1 {
      assert ss == [ss[0]];
    } else {
      CommaElement(buf, comma, depth, out + [ss[0]]);
      ElementsRead(buf, comma + 1, line, ss[1..], depth, out + [ss[0]], end);
      assert out + [ss[0]] + ss[1..] == out + ss;
    }
  }

  lemma {:induction false} TextsCons(ss: seq<Source>, line: nat)
    ensures |SourceTexts(ss, line)| == |ss|
    ensures ss != [] ==> SourceTexts(ss, line)[0] == ObjectText(SourceMembers(ss[0]), line)
    ensures ss != [] ==> SourceTexts(ss, line)[1..] == SourceTexts(ss[1..], line)
  {
    if ss != [] { TextsCons(ss[1..], line); }
  }

  lemma CleanSplit(out: seq<Source>, ss: seq<Source>)
    requires ss != [] && CleanSources(out) && CleanSources(ss)
    ensures CleanSource(ss[0]) && CleanSources(out + [ss[0]]) && CleanSources(ss[1..])
  {
  }

  lemma CommaElement(buf: string, comma: nat, depth: nat, out: seq<Source>)
    requires At(buf, comma) == ',' && CleanSources(out)
    ensures comma < |buf| && MoreElements(buf, comma, depth, out) == Elements(buf, comma + 1, depth, out)
  {
    assert Skip(buf, comma) == comma;
  }

  lemma ListStands(buf: string, pos: nat, line: nat, texts: seq<string>, end: nat) returns (inner: nat, bracket: nat)
    requires texts != [] && Stands(buf, pos, ListText(texts, line)) && end == pos + |ListText(texts, line)|
    ensures pos < |buf| && At(buf, pos) == '[' && Stands(buf, pos + 1, ElementsText(texts, line + 1))
    ensures inner == pos + 1 + |ElementsText(texts, line + 1)| <= |buf| && Skip(buf, inner) == bracket
    ensures bracket < |buf| && At(buf, bracket) == ']' && end == bracket + 1
  {
    hide ElementsText, Spaces;
    var text, close := ElementsText(texts, line + 1), Line(line);
    inner := pos + 1 + |text|;
    bracket := inner + |close|;
    Stands3(buf, pos, "[" + text, close, "]");
    StandsSplit(buf, pos, "[", text);
    StandsAt(buf, pos, "[", 0);
    StandsAt(buf, bracket, "]", 0);
    SkipLine(buf, inner, line);
  }

  lemma BracketsHold(buf: string, pos: nat, inner: nat, bracket: nat, depth: nat, ss: seq<Source>)
    requires pos < |buf| && At(buf, pos) == '[' && At(buf, Skip(buf, pos + 1)) != ']' && depth < DEPTH_LIMIT
    requires inner <= |buf| && CleanSources(ss) && Elements(buf, Skip(buf, pos + 1), depth + 1, []) == MoreElements(buf, inner, depth + 1, ss)
    requires Skip(buf, inner) == bracket && At(buf, bracket) == ']'
    ensures Sources(buf, pos, depth) == Got(ss, bracket + 1)
  {
    hide Elements;
  }

  lemma EmptyListReads(buf: string, pos: nat, depth: nat)
    requires pos <= |buf| && Stands(buf, pos, "[]") && depth < DEPTH_LIMIT
    ensures Sources(buf, pos, depth) == Got([], pos + 2)
  {
    StandsAt(buf, pos, "[]", 0);
    StandsAt(buf, pos, "[]", 1);
    assert Skip(buf, pos + 1) == pos + 1;
  }

  lemma SourceTextsEmpty(ss: seq<Source>, line: nat)
    ensures SourceTexts(ss, line + 1) == [] <==> ss == []
    ensures ss == [] ==> ListText(SourceTexts(ss, line + 1), line) == "[]"
  {
    hide ObjectText;
  }

  lemma SourcesRead(buf: string, pos: nat, line: nat, ss: seq<Source>, depth: nat, end: nat)
    requires CleanSources(ss) && depth + 1 < DEPTH_LIMIT
    requires pos <= |buf| && Stands(buf, pos, ListText(SourceTexts(ss, line + 1), line))
    requires end == pos + |ListText(SourceTexts(ss, line + 1), line)|
    ensures Sources(buf, pos, depth) == Got(ss, end)
  {
    if ss == [] {
      SourceTextsEmpty(ss, line);
      hide *;
      EmptyListReads(buf, pos, depth);
    } else {
      SomeSourcesRead(buf, pos, line, ss, depth, end);
    }
  }

  lemma SomeSourcesRead(buf: string, pos: nat, line: nat, ss: seq<Source>, depth: nat, end: nat)
    requires ss != [] && CleanSources(ss) && depth + 1 < DEPTH_LIMIT
    requires pos <= |buf| && Stands(buf, pos, ListText(SourceTexts(ss, line + 1), line))
    requires end == pos + |ListText(SourceTexts(ss, line + 1), line)|
    ensures Sources(buf, pos, depth) == Got(ss, end)
  {
    SourceTextsEmpty(ss, line);
    hide *;
    var inner, bracket := ListStands(buf, pos, line, SourceTexts(ss, line + 1), end);
    AllElementsRead(buf, pos + 1, line + 1, ss, depth + 1, inner);
    BracketsHold(buf, pos, inner, bracket, depth, ss);
  }

  lemma AllElementsRead(buf: string, pos: nat, line: nat, ss: seq<Source>, depth: nat, end: nat)
    requires ss != [] && CleanSources(ss) && depth < DEPTH_LIMIT
    requires pos <= |buf| && Stands(buf, pos, ElementsText(SourceTexts(ss, line), line))
    requires end == pos + |ElementsText(SourceTexts(ss, line), line)|
    ensures end <= |buf| && At(buf, Skip(buf, pos)) != ']'
    ensures Elements(buf, Skip(buf, pos), depth, []) == MoreElements(buf, end, depth, ss)
  {
    assert CleanSources([]) && [] + ss == ss;
    hide *;
    ElementsRead(buf, pos, line, ss, depth, [], end);
  }

  // ---- A request --------------------------------------------------------------------------------------

  lemma NestedAdvances(buf: string, m: Member, depth: nat, h: Held, v: Value)
    requires Has(ARequest, m.name) && m.name !in h.seen && Holds(h, ARequest) && Holds(Held({}, v), ARequest)
    requires Starts(m.text)
    requires forall p: nat :: Stands(buf, p, m.text) ==> Nested(m.name, buf, p, depth, h.v) == Got(v, p + |m.text|)
    ensures Advances(ARequest, buf, m, depth, h, Held(h.seen + {m.name}, v))
  {
    hide Nested, Scalar, Octets, Clean, Spelt;
    SpeltOctets(m.name);
  }

  lemma ObjectStarts(ms: seq<Member>, line: nat)
    ensures Starts(ObjectText(ms, line))
  {
    assert ObjectText(ms, line)[0] == '{';
  }

  lemma ListStarts(texts: seq<string>, line: nat)
    ensures Starts(ListText(texts, line))
  {
    assert ListText(texts, line)[0] == '[';
  }

  lemma ArtifactAdvances(buf: string, a: Artifact, depth: nat, h: Held)
    requires h.v.OfRequest? && ItsArtifact !in h.seen && Clean(h.v) && CleanArtifact(a) && depth < DEPTH_LIMIT
    ensures Advances(ARequest, buf, Member(ItsArtifact, ObjectText(ArtifactMembers(a), 1)), depth, h,
                     Held(h.seen + {ItsArtifact}, OfRequest(h.v.r.(artifact := a))))
  {
    hide Record, ObjectText, Octets, Field, CleanSources;
    var text, v := ObjectText(ArtifactMembers(a), 1), OfRequest(h.v.r.(artifact := a));
    ObjectStarts(ArtifactMembers(a), 1);
    forall p: nat | Stands(buf, p, text) ensures Nested(ItsArtifact, buf, p, depth, h.v) == Got(v, p + |text|) {
      ArtifactReads(buf, p, 1, a, depth);
    }
    NestedAdvances(buf, Member(ItsArtifact, text), depth, h, v);
  }

  lemma NestedSources(buf: string, p: nat, depth: nat, v: Value, ss: seq<Source>, end: nat)
    requires p <= |buf| && v.OfRequest? && Clean(v) && CleanSources(ss) && Sources(buf, p, depth) == Got(ss, end)
    ensures Nested(ItsSources, buf, p, depth, v) == Got(OfRequest(v.r.(sources := ss)), end)
  {
    hide Sources, Record;
  }

  lemma SourcesAdvance(buf: string, ss: seq<Source>, depth: nat, h: Held)
    requires h.v.OfRequest? && ItsSources !in h.seen && Clean(h.v) && CleanSources(ss) && depth + 1 < DEPTH_LIMIT
    ensures Advances(ARequest, buf, Member(ItsSources, ListText(SourceTexts(ss, 2), 1)), depth, h,
                     Held(h.seen + {ItsSources}, OfRequest(h.v.r.(sources := ss))))
  {
    hide Sources, ListText, Nested, Octets;
    var text, v := ListText(SourceTexts(ss, 2), 1), OfRequest(h.v.r.(sources := ss));
    ListStarts(SourceTexts(ss, 2), 1);
    forall p: nat | Stands(buf, p, text) ensures Nested(ItsSources, buf, p, depth, h.v) == Got(v, p + |text|) {
      SourcesRead(buf, p, 1, ss, depth, p + |text|);
      NestedSources(buf, p, depth, h.v, ss, p + |text|);
    }
    NestedAdvances(buf, Member(ItsSources, text), depth, h, v);
  }

  lemma ConstraintsAdvance(buf: string, c: Constraints, depth: nat, h: Held)
    requires h.v.OfRequest? && ItsConstraints !in h.seen && Clean(h.v) && CleanConstraints(c) && depth < DEPTH_LIMIT
    ensures Advances(ARequest, buf, Member(ItsConstraints, ObjectText(ConstraintsMembers(c), 1)), depth, h,
                     Held(h.seen + {ItsConstraints}, OfRequest(h.v.r.(constraints := Some(c)))))
  {
    hide Record, ObjectText, Octets, Field, CleanSources;
    var text, v := ObjectText(ConstraintsMembers(c), 1), OfRequest(h.v.r.(constraints := Some(c)));
    ObjectStarts(ConstraintsMembers(c), 1);
    forall p: nat | Stands(buf, p, text) ensures Nested(ItsConstraints, buf, p, depth, h.v) == Got(v, p + |text|) {
      ConstraintsRead(buf, p, 1, c, depth);
    }
    NestedAdvances(buf, Member(ItsConstraints, text), depth, h, v);
  }

  lemma RequestSteps(buf: string, r: Request) returns (hs: seq<Held>)
    requires CleanRequest(r)
    ensures AllAdvance(ARequest, buf, RequestMembers(r, 0), 1, hs)
    ensures hs[0] == Held({}, Zero(ARequest)) && hs[|RequestMembers(r, 0)|].v == OfRequest(r)
    ensures Needed(ARequest) <= hs[|RequestMembers(r, 0)|].seen
  {
    hide Advances, ObjectText, ListText;
    var h0 := Held({}, OfRequest(Request(Artifact("", 0), [], None)));
    var h1 := Held(h0.seen + {ItsArtifact}, OfRequest(Request(r.artifact, [], None)));
    var h2 := Held(h1.seen + {ItsSources}, OfRequest(Request(r.artifact, r.sources, None)));
    var first := Member(ItsArtifact, ObjectText(ArtifactMembers(r.artifact), 1));
    var second := Member(ItsSources, ListText(SourceTexts(r.sources, 2), 1));
    ArtifactAdvances(buf, r.artifact, 1, h0);
    SourcesAdvance(buf, r.sources, 1, h1);
    hs := Then(ARequest, buf, [], 1, [h0], true, first, h1);
    assert [] + Optional(true, first.name, first.text) == [first];
    hs := Then(ARequest, buf, [first], 1, hs, true, second, h2);
    assert [first] + Optional(true, second.name, second.text) == [first, second];
    if r.constraints.Some? {
      var third := Member(ItsConstraints, ObjectText(ConstraintsMembers(r.constraints.value), 1));
      ConstraintsAdvance(buf, r.constraints.value, 1, h2);
      hs := Then(ARequest, buf, [first, second], 1, hs, true, third, Held(h2.seen + {ItsConstraints}, OfRequest(r)));
    }
  }

  /** A text and a new line after it is the whole of an input. */
  lemma WholeInput(kind: Kind, text: string, v: Value)
    requires Starts(text) && v.KindOf() == kind && Clean(v) && Record(kind, text + "\n", 0, 0) == Got(v, |text|)
    ensures Decode(kind, text + "\n") == Got(v, |text| + 1)
  {
    hide Record;
    var buf := text + "\n";
    assert buf[0] == text[0] && buf[|text|] == '\n';
    assert Skip(buf, 0) == 0 && Skip(buf, |text|) == Skip(buf, |text| + 1) == |buf|;
  }

  lemma TextStands(text: string)
    ensures Stands(text + "\n", 0, text)
  {
    assert (text + "\n")[0..|text|] == text;
  }

  lemma RequestReads(r: Request, text: string)
    requires CleanRequest(r) && text == ObjectText(RequestMembers(r, 0), 0)
    ensures Record(ARequest, text + "\n", 0, 0) == Got(OfRequest(r), |text|) && Starts(text)
  {
    hide Record, ObjectText, RequestMembers, AllAdvance, Zero, Needed, CleanArtifact, CleanSources;
    TextStands(text);
    var hs := RequestSteps(text + "\n", r);
    ObjectReads(ARequest, text + "\n", 0, 0, RequestMembers(r, 0), 0, hs, |text|);
    ObjectStarts(RequestMembers(r, 0), 0);
  }

  /** Every request the encoder can write comes back as it was, exactly when its strings are UTF-8
      and its size fits; no other value ever comes back in its place. */
  lemma RequestRoundTrip(r: Request)
    requires Spellable(r)
    ensures Decode(ARequest, EncodeRequest(r)) == Got(OfRequest(r), |EncodeRequest(r)|) <==> CleanRequest(r)
  {
    hide Record, ObjectText, RequestMembers, Decode;
    if CleanRequest(r) {
      var text := ObjectText(RequestMembers(r, 0), 0);
      RequestReads(r, text);
      WholeInput(ARequest, text, OfRequest(r));
    }
  }

  lemma FailureWhole(f: Failure, text: string)
    requires CleanFailure(f) && text == ObjectText(FailureMembers(f), 0)
    ensures Record(AFailure, text + "\n", 0, 0) == Got(OfFailure(f), |text|) && Starts(text)
  {
    hide Record, ObjectText, FailureMembers, Octets;
    TextStands(text);
    FailureReads(text + "\n", 0, f);
    ObjectStarts(FailureMembers(f), 0);
  }

  lemma FailureRoundTrip(f: Failure)
    ensures Decode(AFailure, EncodeFailure(f)) == Got(OfFailure(f), |EncodeFailure(f)|) <==> CleanFailure(f)
  {
    hide Record, ObjectText, FailureMembers, Decode;
    if CleanFailure(f) {
      var text := ObjectText(FailureMembers(f), 0);
      FailureWhole(f, text);
      WholeInput(AFailure, text, OfFailure(f));
    }
  }

  /** Whatever spelling an accepted input used, the value it gave is written and read back the same. */
  lemma AcceptedIsStable(buf: string)
    requires Decode(ARequest, buf).Got?
    ensures var r := Decode(ARequest, buf).value.r;
      Spellable(r) && Decode(ARequest, EncodeRequest(r)) == Got(OfRequest(r), |EncodeRequest(r)|)
  {
    hide Record;
    RequestRoundTrip(Decode(ARequest, buf).value.r);
  }
}
