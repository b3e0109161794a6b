/** The reader itself: a position and a nesting depth moved by methods
    (go/abstraction/download/request/rec.go: reader). Every method gives what the function of
    JsonRecords, JsonString or JsonNumber gives from the position it was called at, stands where
    that ends, and leaves the depth as it found it when it accepts.

    The five generated record decoders are one method here, over the kind of record, and the two
    entry points are one, over the kind of the whole input. */
module JsonReader {
  import opened Bytes
  import opened JsonNumber
  import opened JsonRecords
  import opened JsonString
  import opened Options
  import opened Utf8

  class Reader {
    const buf: string
    var pos: int
    var depth: int

    ghost predicate Valid() reads this { 0 <= pos <= |buf| && 0 <= depth }

    constructor (input: string)
      ensures Valid() && buf == input && pos == 0 && depth == 0
    {
      buf := input;
      pos := 0;
      depth := 0;
    }

    method Ws()
      requires Valid()
      modifies this`pos
      ensures Valid() && pos == Skip(buf, old(pos))
    {
      while pos < |buf| && Space(buf[pos])
        invariant Valid() && Skip(buf, old(pos)) == Skip(buf, pos)
      {
        pos := pos + 1;
      }
    }

    method ReadHex4() returns (r: Parsed<int>)
      requires Valid()
      modifies this`pos
      ensures Valid() && r == Hex4(buf, old(pos)) && (r.Got? ==> pos == r.pos)
      ensures r.Refused? ==> r.pos == pos
    {
      if pos + 4 > |buf| { return Refused("bad_string", pos); }
      var u := 0;
      for i := 0 to 4
        invariant pos == old(pos) && 0 <= u
        invariant forall k :: pos <= k < pos + i ==> HexFigure(buf[k]) >= 0
        invariant i == 1 ==> u == HexFigure(buf[pos])
        invariant i == 2 ==> u == HexFigure(buf[pos]) * 16 + HexFigure(buf[pos + 1])
        invariant i == 3 ==> u == (HexFigure(buf[pos]) * 16 + HexFigure(buf[pos + 1])) * 16 + HexFigure(buf[pos + 2])
        invariant i == 4 ==> Hex4(buf, pos) == Got(u, pos + 4)
        invariant i == 0 ==> u == 0
      {
        var figure := HexFigure(buf[pos + i]);
        if figure < 0 { return Refused("bad_string", pos); }
        u := u * 16 + figure;
      }
      pos := pos + 4;
      return Got(u, pos);
    }

    method ReadUnicode() returns (r: Parsed<string>)
      requires Valid()
      modifies this`pos
      ensures Valid() && r == UnicodeEscape(buf, old(pos)) && (r.Got? ==> pos == r.pos)
    {
      var first := ReadHex4();
      if first.Refused? { return Refused(first.word, first.pos); }
      var u := first.value;
      if LowSurrogate(u) { return Refused("bad_string", pos); }
      if HighSurrogate(u) {
        if pos + 1 >= |buf| || buf[pos] != '\\' || buf[pos + 1] != 'u' {
          NoMarker(buf, pos);
          return Refused("bad_string", pos);
        }
        assert buf[pos..pos + 2] == "\\u";
        pos := pos + 2;
        var second := ReadHex4();
        if second.Refused? { return Refused(second.word, second.pos); }
        if !LowSurrogate(second.value) { return Refused("bad_string", pos); }
        u := Joined(u, second.value);
      }
      return Got(Rune(u), pos);
    }

    method ReadEscape() returns (r: Parsed<string>)
      requires Valid() && pos < |buf|
      modifies this`pos
      ensures Valid() && r == Escape(buf, old(pos)) && (r.Got? ==> pos == r.pos)
    {
      pos := pos + 1;
      if pos >= |buf| { return Refused("malformed", pos); }
      var c := buf[pos];
      pos := pos + 1;
      match c
      case '"' => return Got([c], pos);
      case '\\' => return Got([c], pos);
      case '/' => return Got([c], pos);
      case 'b' => return Got([8 as char], pos);
      case 'f' => return Got([12 as char], pos);
      case 'n' => return Got("\n", pos);
      case 'r' => return Got("\r", pos);
      case 't' => return Got("\t", pos);
      case 'u' => r := ReadUnicode();
      case _ => return Refused("bad_string", pos);
    }

    method ReadStr() returns (r: Parsed<string>)
      requires Valid()
      modifies this`pos
      ensures Valid() && r == Str(buf, old(pos)) && (r.Got? ==> pos == r.pos)
    {
      if At(buf, pos) != '"' { return Refused("wrong_type", pos); }
      pos := pos + 1;
      var out := "";
      while true
        invariant Valid() && StrFrom(buf, old(pos) + 1, []) == StrFrom(buf, pos, out)
        decreases |buf| - pos
      {
        if pos >= |buf| { return Refused("malformed", pos); }
        var c := buf[pos];
        if c == '"' {
          pos := pos + 1;
          var ok := ValidUTF8(out);
          if !ok { return Refused("bad_string", pos); }
          return Got(out, pos);
        } else if c as int < 0x20 {
          return Refused("bad_string", pos);
        } else if c == '\\' {
          var e := ReadEscape();
          if e.Refused? { return Refused(e.word, e.pos); }
          out := out + e.value;
        } else {
          out := out + [c];
          pos := pos + 1;
        }
      }
    }

    method ReadInteger(min: int, max: int) returns (r: Parsed<int>)
      requires Valid()
      modifies this`pos
      ensures Valid() && r == Integer(buf, old(pos), min, max) && (r.Got? ==> pos == r.pos)
    {
      var c := At(buf, pos);
      if c != '-' && !Digit(c) { return Refused("wrong_type", pos); }
      var neg := c == '-';
      if neg { pos := pos + 1; }
      if !Digit(At(buf, pos)) { return Refused("malformed", pos); }
      var u: uint64 := 0;
      if At(buf, pos) == '0' {
        pos := pos + 1;
      } else {
        var digits := ReadDigits(buf, pos);
        if digits.Refused? { return Refused(digits.word, digits.pos); }
        u := digits.value;
        pos := digits.pos;
      }
      if Follows(At(buf, pos)) { return Refused("number_spelling", pos); }
      if neg && u == 0 { return Refused("number_spelling", pos); }
      var n: int;
      if neg && u as int == MAX_INT64 + 1 {
        n := MIN_INT64;
      } else if u as int > MAX_INT64 {
        return Refused("number_spelling", pos);
      } else if neg {
        n := -(u as int);
      } else {
        n := u as int;
      }
      if n < min || n > max { return Refused("number_spelling", pos); }
      return Got(n, pos);
    }

    method Literal(word: string) returns (ok: bool)
      requires Valid()
      modifies this`pos
      ensures Valid() && (ok <==> Stands(buf, old(pos), word)) && pos == old(pos) + if ok then |word| else 0
    {
      if pos + |word| > |buf| || buf[pos..pos + |word|] != word { return false; }
      pos := pos + |word|;
      return true;
    }

    method ReadBoolean() returns (r: Parsed<bool>)
      requires Valid()
      modifies this`pos
      ensures Valid() && r == Boolean(buf, old(pos)) && (r.Got? ==> pos == r.pos)
    {
      var ok: bool;
      if At(buf, pos) == 't' {
        ok := Literal("true");
        return if ok then Got(true, pos) else Refused("malformed", pos);
      }
      if At(buf, pos) == 'f' {
        ok := Literal("false");
        return if ok then Got(false, pos) else Refused("malformed", pos);
      }
      return Refused("wrong_type", pos);
    }

    // ---- Records ----------------------------------------------------------------------------------

    /** An opening brace or bracket, one level of nesting, and the white space after it. */
    method Enter(open: char) returns (r: Option<string>)
      requires Valid()
      modifies this`pos, this`depth
      ensures Valid()
      ensures r == if At(buf, old(pos)) != open then Some("wrong_type")
                   else if old(depth) + 1 > DEPTH_LIMIT then Some("depth_exceeded") else None
      ensures r.Some? ==> pos == old(pos)
      ensures r.None? && open != '\0' ==>
        old(pos) < |buf| && pos == Skip(buf, old(pos) + 1) && depth == old(depth) + 1
    {
      if At(buf, pos) != open { return Some("wrong_type"); }
      depth := depth + 1;
      if depth > DEPTH_LIMIT { return Some("depth_exceeded"); }
      if pos < |buf| { pos := pos + 1; }
      Ws();
      return None;
    }

    method ReadKey() returns (r: Parsed<string>)
      requires Valid()
      modifies this`pos
      ensures Valid() && r == Key(buf, old(pos)) && (r.Got? ==> pos == r.pos)
    {
      Ws();
      if At(buf, pos) != '"' { return Refused("malformed", pos); }
      r := ReadStr();
      if r.Refused? { return; }
      Ws();
      if At(buf, pos) != ':' { return Refused("malformed", pos); }
      pos := pos + 1;
      Ws();
      return Got(r.value, pos);
    }

    method ReadScalar(name: Name, v: Value) returns (r: Parsed<Value>)
      requires Valid() && Clean(v)
      modifies this`pos
      ensures Valid() && r == Scalar(name, buf, old(pos), v) && (r.Got? ==> pos == r.pos)
    {
      if name.Size? && v.OfArtifact? {
        var n := ReadInteger(MIN_INT64, MAX_INT64);
        return if n.Got? then Got(OfArtifact(v.a.(size := n.value)), pos) else Refused(n.word, n.pos);
      }
      if name.Permanent? && v.OfFailure? {
        var b := ReadBoolean();
        return if b.Got? then Got(OfFailure(v.f.(permanent := b.value)), pos) else Refused(b.word, b.pos);
      }
      var x := ReadStr();
      if x.Refused? { return Refused(x.word, x.pos); }
      if v.OfConstraints? {
        var word := ParseNetwork(x.value);
        return if word.Some? then Got(OfConstraints(Constraints(word.value)), pos) else Refused("bad_enum", pos);
      }
      return Got(PutString(v, name, x.value), pos);
    }

    method ReadField(kind: Kind, name: Name, h: Held) returns (r: Parsed<Held>)
      requires Valid() && Holds(h, kind)
      modifies this`pos, this`depth
      ensures Valid() && r == Field(kind, name, buf, old(pos), old(depth), h)
      ensures r.Got? ==> pos == r.pos && depth == old(depth)
      decreases |buf| - pos, 4
    {
      hide Scalar;
      if name.Unknown? { return Refused("unknown_field", pos); }
      if name in h.seen { return Refused("duplicate_field", pos); }
      var x: Parsed<Value>;
      if kind.ARequest? { x := ReadNested(name, h.v); } else { x := ReadScalar(name, h.v); }
      return if x.Got? then Got(Held(h.seen + {name}, x.value), pos) else Refused(x.word, x.pos);
    }

    method ReadNested(name: Name, v: Value) returns (r: Parsed<Value>)
      requires Valid() && v.OfRequest? && Clean(v)
      modifies this`pos, this`depth
      ensures Valid() && r == Nested(name, buf, old(pos), old(depth), v)
      ensures r.Got? ==> pos == r.pos && depth == old(depth)
      decreases |buf| - pos, 3
    {
      if name.ItsSources? {
        var xs := ReadSources();
        return if xs.Got? then Got(OfRequest(v.r.(sources := xs.value)), pos) else Refused(xs.word, xs.pos);
      }
      var x := ReadRecord(if name.ItsArtifact? then AnArtifact else AConstraints);
      if x.Refused? { return x; }
      return Got(OfRequest(if name.ItsArtifact? then v.r.(artifact := x.value.a)
                           else v.r.(constraints := Some(x.value.c))), pos);
    }

    /** One member, and whether a comma promises another. */
    method ReadMember(kind: Kind, h: Held) returns (r: Parsed<Held>, more: bool)
      requires Valid() && Holds(h, kind)
      modifies this`pos, this`depth
      ensures Valid() && (r.Refused? ==> Members(kind, buf, old(pos), old(depth), h) == r)
      ensures r.Got? ==> depth == old(depth) && old(pos) < pos && Holds(r.value, kind)
      ensures r.Got? && more ==> Members(kind, buf, old(pos), depth, h) == Members(kind, buf, pos, depth, r.value)
      ensures r.Got? && !more ==> Members(kind, buf, old(pos), depth, h) == Got(r.value, pos)
      decreases |buf| - pos, 5
    {
      hide Members, More, Field, Key, Skip;
      MembersUnfold(kind, buf, pos, depth, h);
      more := false;
      var key := ReadKey();
      if key.Refused? { return Refused(key.word, key.pos), false; }
      r := ReadField(kind, NameOf(kind, key.value), h);
      if r.Refused? { return; }
      MoreUnfolds(kind, buf, pos, depth, r.value);
      SkipForward(buf, pos);
      Ws();
      more := At(buf, pos) == ',';
      if more { pos := pos + 1; }
    }

    method ReadRecord(kind: Kind) returns (r: Parsed<Value>)
      requires Valid()
      modifies this`pos, this`depth
      ensures Valid() && r == Record(kind, buf, old(pos), old(depth))
      ensures r.Got? ==> pos == r.pos && depth == old(depth)
      decreases |buf| - pos, 2
    {
      hide Members, More, Field, Key, Skip, Record;
      RecordUnfolds(kind, buf, pos, depth);
      var fault := Enter('{');
      if fault.Some? { return Refused(fault.value, pos); }
      var h := Held({}, Zero(kind));
      ghost var start := h;
      ghost var first := pos;
      var more := At(buf, pos) != '}';
      while more
        invariant Valid() && old(pos) < first <= pos && depth == old(depth) + 1 && Holds(h, kind)
        invariant more ==> At(buf, first) != '}'
        invariant more ==> Members(kind, buf, first, depth, start) == Members(kind, buf, pos, depth, h)
        invariant !more && At(buf, first) != '}' ==> Members(kind, buf, first, depth, start) == Got(h, pos)
        invariant !more && At(buf, first) == '}' ==> pos == first && h == start
        decreases |buf| - pos, more
      {
        var next;
        next, more := ReadMember(kind, h);
        if next.Refused? { return Refused(next.word, next.pos); }
        h := next.value;
      }
      if At(buf, pos) != '}' { return Refused("malformed", pos); }
      pos := pos + 1;
      depth := depth - 1;
      if !(Needed(kind) <= h.seen) { return Refused("missing_field", pos); }
      return Got(h.v, pos);
    }

    method ReadSources() returns (r: Parsed<seq<Source>>)
      requires Valid()
      modifies this`pos, this`depth
      ensures Valid() && r == Sources(buf, old(pos), old(depth))
      ensures r.Got? ==> pos == r.pos && depth == old(depth)
      decreases |buf| - pos, 2
    {
      hide Record, Skip, Sources, Elements, MoreElements;
      SourcesUnfold(buf, pos, depth);
      var fault := Enter('[');
      if fault.Some? { return Refused(fault.value, pos); }
      var out: seq<Source> := [];
      ghost var first := pos;
      var more := At(buf, pos) != ']';
      while more
        invariant Valid() && old(pos) < first <= pos && depth == old(depth) + 1 && CleanSources(out)
        invariant more ==> At(buf, first) != ']'
        invariant more ==> Elements(buf, first, depth, []) == Elements(buf, pos, depth, out)
        invariant !more && At(buf, first) != ']' ==> Elements(buf, first, depth, []) == Got(out, pos)
        invariant !more && At(buf, first) == ']' ==> pos == first && out == []
        decreases |buf| - pos, more
      {
        ElementsUnfold(buf, pos, depth, out);
        Ws();
        var x := ReadRecord(ASource);
        if x.Refused? { return Refused(x.word, x.pos); }
        out := out + [x.value.s];
        MoreElementsUnfold(buf, pos, depth, out);
        Ws();
        more := At(buf, pos) == ',';
        if more { pos := pos + 1; }
      }
      if At(buf, pos) != ']' { return Refused("malformed", pos); }
      pos := pos + 1;
      depth := depth - 1;
      return Got(out, pos);
    }
  }

  // ---- One turn of each loop, as the functions have it ----------------------------------------------

  lemma SkipForward(buf: string, pos: nat)
    requires pos <= |buf|
    ensures pos <= Skip(buf, pos) <= |buf|
  {
  }

  lemma MembersUnfold(kind: Kind, buf: string, pos: nat, depth: nat, h: Held)
    requires pos <= |buf| && Holds(h, kind)
    ensures var k := Key(buf, pos); var m := Members(kind, buf, pos, depth, h);
      if k.Refused? then m == Refused(k.word, k.pos)
      else
        var f := Field(kind, NameOf(kind, k.value), buf, k.pos, depth, h);
        m == if f.Refused? then Refused(f.word, f.pos) else More(kind, buf, f.pos, depth, f.value)
  {
    hide Key, Field, More;
  }

  lemma MoreUnfolds(kind: Kind, buf: string, pos: nat, depth: nat, h: Held)
    requires pos <= |buf| && Holds(h, kind)
    ensures var p := Skip(buf, pos);
      More(kind, buf, pos, depth, h) == if At(buf, p) == ',' then Members(kind, buf, p + 1, depth, h) else Got(h, p)
  {
    hide Members;
  }

  lemma RecordUnfolds(kind: Kind, buf: string, pos: nat, depth: nat)
    requires pos <= |buf|
    ensures var r := Record(kind, buf, pos, depth);
      if At(buf, pos) != '{' then r == Refused("wrong_type", pos)
      else if depth + 1 > DEPTH_LIMIT then r == Refused("depth_exceeded", pos)
      else
        var p := Skip(buf, pos + 1);
        var start := Held({}, Zero(kind));
        var m := if At(buf, p) == '}' then Got(start, p) else Members(kind, buf, p, depth + 1, start);
        if m.Refused? then r == Refused(m.word, m.pos)
        else if At(buf, m.pos) != '}' then r == Refused("malformed", m.pos)
        else if !(Needed(kind) <= m.value.seen) then r == Refused("missing_field", m.pos + 1)
        else r == Got(m.value.v, m.pos + 1)
  {
    hide Members;
  }

  lemma ElementsUnfold(buf: string, pos: nat, depth: nat, out: seq<Source>)
    requires pos <= |buf| && CleanSources(out)
    ensures var x := Record(ASource, buf, Skip(buf, pos), depth); var e := Elements(buf, pos, depth, out);
      if x.Refused? then e == Refused(x.word, x.pos) else e == MoreElements(buf, x.pos, depth, out + [x.value.s])
  {
    hide Record, MoreElements;
  }

  lemma MoreElementsUnfold(buf: string, pos: nat, depth: nat, out: seq<Source>)
    requires pos <= |buf| && CleanSources(out)
    ensures var p := Skip(buf, pos);
      MoreElements(buf, pos, depth, out) == if At(buf, p) == ',' then Elements(buf, p + 1, depth, out) else Got(out, p)
  {
    hide Elements;
  }

  lemma SourcesUnfold(buf: string, pos: nat, depth: nat)
    requires pos <= |buf|
    ensures var r := Sources(buf, pos, depth);
      if At(buf, pos) != '[' then r == Refused("wrong_type", pos)
      else if depth + 1 > DEPTH_LIMIT then r == Refused("depth_exceeded", pos)
      else
        var p := Skip(buf, pos + 1);
        var e := if At(buf, p) == ']' then Got([], p) else Elements(buf, p, depth + 1, []);
        if e.Refused? then r == Refused(e.word, e.pos)
        else r == if At(buf, e.pos) != ']' then Refused("malformed", e.pos) else Got(e.value, e.pos + 1)
  {
    hide Elements;
  }

  /** Decode: for any input at all, what the function says, with every level of nesting left. */
  method DecodeInput(kind: Kind, input: string) returns (r: Parsed<Value>)
    ensures r == Decode(kind, input)
  {
    hide Record;
    var reader := new Reader(input);
    reader.Ws();
    r := reader.ReadRecord(kind);
    if r.Refused? { return; }
    reader.Ws();
    if reader.pos < |reader.buf| { return Refused("trailing_bytes", reader.pos); }
    return Got(r.value, reader.pos);
  }

  lemma NoMarker(buf: string, pos: nat)
    requires pos <= |buf| && (pos + 1 >= |buf| || buf[pos] != '\\' || buf[pos + 1] != 'u')
    ensures !Stands(buf, pos, "\\u")
  {
    if Stands(buf, pos, "\\u") {
      StandsAt(buf, pos, "\\u", 0);
      StandsAt(buf, pos, "\\u", 1);
    }
  }
}
