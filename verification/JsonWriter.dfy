/** The encoders: an output buffer appended to field by field
    (go/abstraction/download/request/rec.go: pad, encList, enc*, Encode; go/rec/rec.go: encFailure).
    Each leaves the buffer longer by exactly the text of its record.

    What that text is, and that it reads back, is said of the functions of JsonRecords, in
    JsonRoundTrip. */
module JsonWriter {
  import opened JsonNumber
  import opened JsonRecords
  import opened JsonString
  import opened Options

  class Writer {
    var out: string

    constructor ()
      ensures out == ""
    {
      out := "";
    }

    method Pad(depth: nat)
      modifies this
      ensures out == old(out) + Spaces(depth * 2)
    {
      for i := 0 to depth * 2
        invariant out == old(out) + Spaces(i)
      {
        out := out + " ";
      }
    }

    method PutString(s: string)
      modifies this
      ensures out == old(out) + Esc(s)
    {
      out := WriteEsc(out, s);
    }

    method PutNum(n: int)
      requires MIN_INT64 <= n <= MAX_INT64
      modifies this
      ensures out == old(out) + Num(n)
    {
      out := WriteNum(out, n);
    }

    /** A comma when this is not the first, a new line, and the key. */
    method PutKey(first: bool, depth: nat, name: Name)
      modifies this
      ensures out == old(out) + (if first then "" else ",") + Line(depth) + Esc(Spelt(name)) + ": "
    {
      if !first { out := out + ","; }
      out := out + "\n";
      Pad(depth);
      PutString(Spelt(name));
      out := out + ": ";
    }

    method PutClose(empty: bool, depth: nat)
      modifies this
      ensures out == old(out) + (if empty then "" else Line(depth)) + "}"
    {
      if !empty {
        out := out + "\n";
        Pad(depth);
      }
      out := out + "}";
    }

    /** A string field after the members already down. */
    method PutField(first: bool, depth: nat, name: Name, s: string, ghost base: string, ghost ms: seq<Member>)
      requires out == base + "{" + WrittenSoFar(ms, depth) && (first <==> ms == [])
      modifies this
      ensures out == base + "{" + WrittenSoFar(ms + [Member(name, Esc(s))], depth)
    {
      hide Esc, Spaces, WrittenSoFar;
      WrittenSnoc(ms, Member(name, Esc(s)), depth);
      PutKey(first, depth, name);
      PutString(s);
    }

    method PutSize(first: bool, depth: nat, n: int, ghost base: string, ghost ms: seq<Member>)
      requires out == base + "{" + WrittenSoFar(ms, depth) && (first <==> ms == []) && MIN_INT64 <= n <= MAX_INT64
      modifies this
      ensures out == base + "{" + WrittenSoFar(ms + [Member(Size, Num(n))], depth)
    {
      hide Num, Esc, Spaces, WrittenSoFar;
      WrittenSnoc(ms, Member(Size, Num(n)), depth);
      PutKey(first, depth, Size);
      PutNum(n);
    }

    method PutPermanent(depth: nat, ghost base: string, ghost ms: seq<Member>)
      requires out == base + "{" + WrittenSoFar(ms, depth) && ms != []
      modifies this
      ensures out == base + "{" + WrittenSoFar(ms + [Member(Permanent, "true")], depth)
    {
      hide Esc, Spaces, WrittenSoFar;
      WrittenSnoc(ms, Member(Permanent, "true"), depth);
      PutKey(false, depth, Permanent);
      out := out + "true";
    }

    method EncConstraints(c: Constraints, depth: nat)
      requires CleanConstraints(c)
      modifies this
      ensures out == old(out) + ObjectText(ConstraintsMembers(c), depth)
    {
      ghost var base := out;
      out := out + "{";
      assert out == base + "{" + WrittenSoFar([], depth + 1);
      if c.network != 0 { PutField(true, depth + 1, Network, WireName(c.network), base, []); }
      PutClose(c.network == 0, depth);
      assert c.network != 0 ==> [] + [Member(Network, Esc(WireName(c.network)))] == ConstraintsMembers(c);
      Close(base, ConstraintsMembers(c), depth);
    }

    method EncArtifact(a: Artifact, depth: nat)
      requires MIN_INT64 <= a.size <= MAX_INT64
      modifies this
      ensures out == old(out) + ObjectText(ArtifactMembers(a), depth)
    {
      hide Esc, Spaces, Num, WrittenSoFar, ObjectText;
      ghost var base := out;
      WrittenNothing(depth + 1);
      ghost var ms: seq<Member> := [];
      out := out + "{";
      assert out == base + "{" + WrittenSoFar(ms, depth + 1);
      var first := true;
      if a.digest != "" {
        PutField(true, depth + 1, Digest, a.digest, base, ms);
        ms := ms + [Member(Digest, Esc(a.digest))];
        first := false;
      }
      if a.size != 0 {
        PutSize(first, depth + 1, a.size, base, ms);
        ms := ms + [Member(Size, Num(a.size))];
        first := false;
      }
      PutClose(first, depth);
      assert ms == ArtifactMembers(a);
      Close(base, ms, depth);
    }

    method EncSource(s: Source, depth: nat)
      modifies this
      ensures out == old(out) + ObjectText(SourceMembers(s), depth)
    {
      hide Esc, Spaces, WrittenSoFar, ObjectText;
      ghost var base := out;
      WrittenNothing(depth + 1);
      ghost var ms: seq<Member> := [];
      out := out + "{";
      assert out == base + "{" + WrittenSoFar(ms, depth + 1);
      PutField(true, depth + 1, Scheme, s.scheme, base, ms);
      ms := ms + [Member(Scheme, Esc(s.scheme))];
      PutField(false, depth + 1, Locator, s.locator, base, ms);
      ms := ms + [Member(Locator, Esc(s.locator))];
      if s.credential != "" {
        PutField(false, depth + 1, Credential, s.credential, base, ms);
        ms := ms + [Member(Credential, Esc(s.credential))];
      }
      PutClose(false, depth);
      assert ms == SourceMembers(s);
      Close(base, ms, depth);
    }

    method PutElement(s: Source, depth: nat, last: bool)
      modifies this
      ensures out == old(out) + "\n" + Spaces(depth * 2) + ObjectText(SourceMembers(s), depth) + (if last then "" else ",")
    {
      hide Spaces, ObjectText;
      out := out + "\n";
      Pad(depth);
      EncSource(s, depth);
      if !last { out := out + ","; }
    }

    /** encList over the sources. */
    method EncSources(ss: seq<Source>, depth: nat)
      modifies this
      ensures out == old(out) + ListText(SourceTexts(ss, depth + 1), depth)
    {
      hide Spaces, ObjectText, ElementsText, ElementsSoFar, SourceTexts, ListText, Line;
      ghost var base := out;
      ghost var texts := SourceTexts(ss, depth + 1);
      TextsLength(ss, depth + 1);
      ListWritten(base, texts, depth);
      if |ss| == 0 {
        out := out + "[]";
        return;
      }
      out := out + "[";
      for i := 0 to |ss|
        invariant out == base + "[" + ElementsSoFar(texts, depth + 1, i)
      {
        TextsAt(ss, depth + 1, i);
        PutElement(ss[i], depth + 1, i + 1 == |ss|);
        ElementsSnoc(base + "[", texts, depth + 1, i);
      }
      out := out + "\n";
      Pad(depth);
      out := out + "]";
    }

    method PutArtifact(a: Artifact, ghost base: string)
      requires out == base + "{" && MIN_INT64 <= a.size <= MAX_INT64
      modifies this
      ensures out == base + "{" + WrittenSoFar([Member(ItsArtifact, ObjectText(ArtifactMembers(a), 1))], 1)
    {
      hide Esc, Spaces, ObjectText, WrittenSoFar;
      WrittenNothing(1);
      var m := Member(ItsArtifact, ObjectText(ArtifactMembers(a), 1));
      assert [] + [m] == [m];
      WrittenSnoc([], m, 1);
      PutKey(true, 1, ItsArtifact);
      EncArtifact(a, 1);
    }

    method PutSources(ss: seq<Source>, ghost base: string, ghost ms: seq<Member>)
      requires out == base + "{" + WrittenSoFar(ms, 1) && ms != []
      modifies this
      ensures out == base + "{" + WrittenSoFar(ms + [Member(ItsSources, ListText(SourceTexts(ss, 2), 1))], 1)
    {
      hide Esc, Spaces, ListText, WrittenSoFar;
      WrittenSnoc(ms, Member(ItsSources, ListText(SourceTexts(ss, 2), 1)), 1);
      PutKey(false, 1, ItsSources);
      EncSources(ss, 1);
    }

    method PutConstraints(c: Constraints, ghost base: string, ghost ms: seq<Member>)
      requires out == base + "{" + WrittenSoFar(ms, 1) && ms != [] && CleanConstraints(c)
      modifies this
      ensures out == base + "{" + WrittenSoFar(ms + [Member(ItsConstraints, ObjectText(ConstraintsMembers(c), 1))], 1)
    {
      hide Esc, Spaces, ObjectText, WrittenSoFar;
      WrittenSnoc(ms, Member(ItsConstraints, ObjectText(ConstraintsMembers(c), 1)), 1);
      PutKey(false, 1, ItsConstraints);
      EncConstraints(c, 1);
    }

    method EncRequest(r: Request)
      requires Spellable(r) && MIN_INT64 <= r.artifact.size <= MAX_INT64
      modifies this
      ensures out == old(out) + ObjectText(RequestMembers(r, 0), 0)
    {
      hide Esc, Spaces, ObjectText, ListText, WrittenSoFar;
      ghost var base := out;
      out := out + "{";
      PutArtifact(r.artifact, base);
      ghost var ms := [Member(ItsArtifact, ObjectText(ArtifactMembers(r.artifact), 1))];
      PutSources(r.sources, base, ms);
      ms := ms + [Member(ItsSources, ListText(SourceTexts(r.sources, 2), 1))];
      if r.constraints.Some? {
        PutConstraints(r.constraints.value, base, ms);
        ms := ms + [Member(ItsConstraints, ObjectText(ConstraintsMembers(r.constraints.value), 1))];
      }
      PutClose(false, 0);
      assert ms == RequestMembers(r, 0);
      Close(base, ms, 0);
    }

    method EncFailure(f: Failure)
      modifies this
      ensures out == old(out) + ObjectText(FailureMembers(f), 0)
    {
      hide Esc, Spaces, WrittenSoFar, ObjectText;
      ghost var base := out;
      WrittenNothing(1);
      ghost var ms: seq<Member> := [];
      out := out + "{";
      assert out == base + "{" + WrittenSoFar(ms, 1);
      PutField(true, 1, Error, f.error, base, ms);
      ms := ms + [Member(Error, Esc(f.error))];
      if f.permanent {
        PutPermanent(1, base, ms);
        ms := ms + [Member(Permanent, "true")];
      }
      if f.cause != "" {
        PutField(false, 1, Cause, f.cause, base, ms);
        ms := ms + [Member(Cause, Esc(f.cause))];
      }
      PutClose(false, 0);
      assert ms == FailureMembers(f);
      Close(base, ms, 0);
    }
  }

  method EncodedRequest(r: Request) returns (text: string)
    requires Spellable(r) && MIN_INT64 <= r.artifact.size <= MAX_INT64
    ensures text == EncodeRequest(r)
  {
    hide ObjectText, RequestMembers;
    var w := new Writer();
    w.EncRequest(r);
    text := w.out + "\n";
  }

  method EncodedFailure(f: Failure) returns (text: string)
    ensures text == EncodeFailure(f)
  {
    hide ObjectText, FailureMembers;
    var w := new Writer();
    w.EncFailure(f);
    text := w.out + "\n";
  }

  // ---- Members written in order are the members' text -------------------------------------------------

  ghost function WrittenSoFar(ms: seq<Member>, depth: nat): string {
    if ms == [] then ""
    else
      var last := ms[|ms| - 1];
      WrittenSoFar(ms[..|ms| - 1], depth) + (if |ms| > 1 then "," else "") + MemberText(depth, last.name, last.text)
  }

  lemma WrittenNothing(depth: nat)
    ensures WrittenSoFar([], depth) == ""
  {
  }

  lemma WrittenSnoc(ms: seq<Member>, m: Member, depth: nat)
    ensures WrittenSoFar(ms + [m], depth) == WrittenSoFar(ms, depth) + (if ms == [] then "" else ",") + MemberText(depth, m.name, m.text)
  {
    hide MemberText;
    assert (ms + [m])[..|ms|] == ms;
  }

  lemma {:induction false} MembersSnoc(ms: seq<Member>, m: Member, depth: nat)
    ensures MembersText(ms + [m], depth)
      == MembersText(ms, depth) + (if ms == [] then "" else ",") + MemberText(depth, m.name, m.text)
    decreases |ms|
  {
    hide MemberText;
    if ms == [] {
      assert [] + [m] == [m] && [m][1..] == [];
    } else {
      assert (ms + [m])[1..] == ms[1..] + [m];
      MembersSnoc(ms[1..], m, depth);
    }
  }

  lemma {:induction false} WrittenIsText(ms: seq<Member>, depth: nat)
    ensures WrittenSoFar(ms, depth) == MembersText(ms, depth)
    decreases |ms|
  {
    hide MemberText;
    if ms != [] {
      var head := ms[..|ms| - 1];
      assert ms == head + [ms[|ms| - 1]];
      WrittenIsText(head, depth);
      MembersSnoc(head, ms[|ms| - 1], depth);
    }
  }

  lemma Close(base: string, ms: seq<Member>, depth: nat)
    ensures base + "{" + WrittenSoFar(ms, depth + 1) + (if ms == [] then "" else Line(depth)) + "}" == base + ObjectText(ms, depth)
  {
    hide Spaces, MemberText;
    WrittenIsText(ms, depth + 1);
  }

  /** The first i elements of a list's text, commas and all. */
  ghost function ElementsSoFar(texts: seq<string>, depth: nat, i: nat): string
    requires i <= |texts|
  {
    if i == 0 then ""
    else ElementsSoFar(texts, depth, i - 1) + (Line(depth) + texts[i - 1] + (if i < |texts| then "," else ""))
  }

  lemma ElementsSnoc(base: string, texts: seq<string>, depth: nat, i: nat)
    requires i < |texts|
    ensures base + ElementsSoFar(texts, depth, i + 1)
      == base + ElementsSoFar(texts, depth, i) + "\n" + Spaces(depth * 2) + texts[i] + (if i + 1 < |texts| then "," else "")
  {
    hide Spaces;
  }

  lemma ElementsHead(texts: seq<string>, depth: nat, i: nat)
    requires i < |texts|
    ensures ElementsText(texts[i..], depth)
      == (Line(depth) + texts[i] + (if i + 1 < |texts| then "," else "")) + ElementsText(texts[i + 1..], depth)
  {
    hide Line;
    assert texts[i..][1..] == texts[i + 1..];
  }

  lemma {:induction false} ElementsAll(texts: seq<string>, depth: nat, i: nat)
    requires i <= |texts|
    ensures ElementsSoFar(texts, depth, i) + ElementsText(texts[i..], depth) == ElementsSoFar(texts, depth, |texts|)
    decreases |texts| - i
  {
    hide Line, ElementsText;
    if i < |texts| {
      ElementsHead(texts, depth, i);
      ElementsAll(texts, depth, i + 1);
    } else {
      assert texts[i..] == [];
      NoElements(depth);
    }
  }

  lemma NoElements(depth: nat)
    ensures ElementsText([], depth) == ""
  {
  }

  lemma ListWritten(base: string, texts: seq<string>, depth: nat)
    ensures texts == [] ==> ListText(texts, depth) == "[]"
    ensures ElementsSoFar(texts, depth + 1, 0) == ""
    ensures texts != [] ==>
      base + ListText(texts, depth)
      == base + "[" + ElementsSoFar(texts, depth + 1, |texts|) + "\n" + Spaces(depth * 2) + "]"
  {
    hide Spaces, ElementsText;
    ElementsAll(texts, depth + 1, 0);
    assert texts[0..] == texts;
  }

  lemma {:induction false} TextsLength(ss: seq<Source>, depth: nat)
    ensures |SourceTexts(ss, depth)| == |ss|
  {
    if ss != [] { TextsLength(ss[1..], depth); }
  }

  lemma {:induction false} TextsAt(ss: seq<Source>, depth: nat, i: nat)
    requires i < |ss|
    ensures i < |SourceTexts(ss, depth)| && SourceTexts(ss, depth)[i] == ObjectText(SourceMembers(ss[i]), depth)
  {
    hide ObjectText;
    if i > 0 { TextsAt(ss[1..], depth, i - 1); }
  }
}
