/** The canonical text of a request and of a failure, byte for byte: one member to a line, two spaces a
    level, a fixed order, and nothing for what is not set. */
module JsonLayout {
  import opened JsonNumber
  import opened JsonRecords
  import opened JsonString
  import opened Options

  /** A byte of a string as it is written: as it is, by its short escape, or by \u00 and two lower-case
      hexadecimal digits. */
  lemma EscapesAsWritten(c: char)
    ensures c as int >= 0x20 && c != '"' && c != '\\' ==> EscByte(c) == [c]
    ensures EscByte('"') == ['\\', '"'] && EscByte('\\') == ['\\', '\\']
    ensures EscByte(8 as char) == ['\\', 'b'] && EscByte(9 as char) == ['\\', 't'] && EscByte(10 as char) == ['\\', 'n']
    ensures EscByte(12 as char) == ['\\', 'f'] && EscByte(13 as char) == ['\\', 'r']
    ensures c as int < 0x20 && c as int !in {8, 9, 10, 12, 13} ==>
      EscByte(c) == ['\\', 'u', '0', '0', if c as int < 16 then '0' else '1', "0123456789abcdef"[c as int % 16]]
  {
    if c as int < 0x20 {
      HexLetter(c as int % 16);
      HexLetter(c as int / 16);
    }
  }

  lemma HexLetter(n: int)
    requires 0 <= n < 16
    ensures HexDigit(n) == "0123456789abcdef"[n]
  {
    if n < 8 { } else { }
  }

  /** A key on a line of its own. */
  function Key(indent: string, key: string): string { "\n" + indent + "\"" + key + "\": " }

  function Quoted(s: string): string { "\"" + Escaped(s) + "\"" }

  lemma KeyEscaped(name: Name)
    ensures Esc(Spelt(name)) == "\"" + Spelt(name) + "\""
  {
    match name
    case Network => PlainKey("network");
    case Digest => PlainKey("digest");
    case Size => PlainKey("size");
    case Scheme => PlainKey("scheme");
    case Locator => PlainKey("locator");
    case Credential => PlainKey("credential");
    case ItsArtifact => PlainKey("artifact");
    case ItsSources => PlainKey("sources");
    case ItsConstraints => PlainKey("constraints");
    case Error => PlainKey("error");
    case Permanent => PlainKey("permanent");
    case Cause => PlainKey("cause");
    case Unknown => PlainKey("");
    hide Escaped;
  }

  lemma {:induction false} PlainKey(s: string)
    requires forall i :: 0 <= i < |s| ==> 'a' <= s[i] <= 'z'
    ensures Escaped(s) == s
  {
    if s != "" { PlainKey(s[1..]); }
  }

  lemma Indents()
    ensures Line(0) == "\n" && Line(1) == "\n  " && Line(2) == "\n    " && Line(3) == "\n      "
  {
    assert Spaces(2) == "  ";
    assert Spaces(4) == "    ";
    assert Spaces(6) == "      ";
  }

  lemma OneMember(name: Name, text: string, depth: nat, indent: string)
    requires Line(depth) == "\n" + indent
    ensures MemberText(depth, name, text) == Key(indent, Spelt(name)) + text
  {
    KeyEscaped(name);
  }

  function Commas(texts: seq<string>): string {
    if texts == [] then "" else if |texts| == 1 then texts[0] else texts[0] + "," + Commas(texts[1..])
  }

  /** A record's members, laid out. */
  function Laid(indent: string, texts: seq<string>): string {
    if texts == [] then "{}" else "{" + Commas(texts) + "\n" + indent + "}"
  }

  lemma {:induction false} MembersLaid(ms: seq<Member>, depth: nat, inner: string, texts: seq<string>)
    requires Line(depth) == "\n" + inner
    requires |texts| == |ms| && forall i :: 0 <= i < |ms| ==> texts[i] == Key(inner, Spelt(ms[i].name)) + ms[i].text
    ensures MembersText(ms, depth) == Commas(texts)
  {
    hide Line, Spelt, Key, MemberText;
    if ms != [] {
      OneMember(ms[0].name, ms[0].text, depth, inner);
      MembersLaid(ms[1..], depth, inner, texts[1..]);
    }
  }

  lemma ObjectLaid(ms: seq<Member>, depth: nat, indent: string, inner: string, texts: seq<string>)
    requires Line(depth) == "\n" + indent && Line(depth + 1) == "\n" + inner
    requires |texts| == |ms| && forall i :: 0 <= i < |ms| ==> texts[i] == Key(inner, Spelt(ms[i].name)) + ms[i].text
    ensures ObjectText(ms, depth) == Laid(indent, texts)
  {
    MembersLaid(ms, depth + 1, inner, texts);
    hide MembersText, Commas, Line, Spelt, Key;
    assert "{" + Commas(texts) + ("\n" + indent) + "}" == "{" + Commas(texts) + "\n" + indent + "}";
  }

  /** A failure's text: its reason, that it is permanent if it is, and its cause if it has one. */
  lemma FailureLaidOut(f: Failure)
    ensures EncodeFailure(f) ==
      Laid("", [Key("  ", "error") + Quoted(f.error)]
               + (if f.permanent then [Key("  ", "permanent") + "true"] else [])
               + (if f.cause != "" then [Key("  ", "cause") + Quoted(f.cause)] else [])) + "\n"
  {
    Indents();
    hide ObjectText, Laid, Key, Line, Escaped;
    var texts := [Key("  ", "error") + Quoted(f.error)]
               + (if f.permanent then [Key("  ", "permanent") + "true"] else [])
               + (if f.cause != "" then [Key("  ", "cause") + Quoted(f.cause)] else []);
    ObjectLaid(FailureMembers(f), 0, "", "  ", texts);
  }

  function ArtifactLaid(a: Artifact): string {
    Laid("  ", (if a.digest != "" then [Key("    ", "digest") + Quoted(a.digest)] else [])
               + (if a.size != 0 then [Key("    ", "size") + Num(a.size)] else []))
  }

  lemma ArtifactLaidOut(a: Artifact)
    ensures ObjectText(ArtifactMembers(a), 1) == ArtifactLaid(a)
  {
    Indents();
    hide ObjectText, Laid, Key, Line, Escaped, Num;
    var texts := (if a.digest != "" then [Key("    ", "digest") + Quoted(a.digest)] else [])
                 + (if a.size != 0 then [Key("    ", "size") + Num(a.size)] else []);
    ObjectLaid(ArtifactMembers(a), 1, "  ", "    ", texts);
  }

  function ConstraintsLaid(c: Constraints): string {
    Laid("  ", if c.network == 0 then [] else [Key("    ", "network") + Quoted(if c.network == 1 then "any" else "unmetered")])
  }

  lemma ConstraintsLaidOut(c: Constraints)
    requires c.network == 0 || c.network == 1 || c.network == 2
    ensures ObjectText(ConstraintsMembers(c), 1) == ConstraintsLaid(c)
  {
    Indents();
    hide ObjectText, Laid, Key, Line, Escaped;
    var texts := if c.network == 0 then [] else [Key("    ", "network") + Quoted(if c.network == 1 then "any" else "unmetered")];
    ObjectLaid(ConstraintsMembers(c), 1, "  ", "    ", texts);
  }

  function SourceLaid(s: Source): string {
    Laid("    ", [Key("      ", "scheme") + Quoted(s.scheme), Key("      ", "locator") + Quoted(s.locator)]
                 + (if s.credential != "" then [Key("      ", "credential") + Quoted(s.credential)] else []))
  }

  lemma SourceLaidOut(s: Source)
    ensures ObjectText(SourceMembers(s), 2) == SourceLaid(s)
  {
    Indents();
    hide ObjectText, Laid, Key, Line, Escaped;
    var texts := [Key("      ", "scheme") + Quoted(s.scheme), Key("      ", "locator") + Quoted(s.locator)]
                 + (if s.credential != "" then [Key("      ", "credential") + Quoted(s.credential)] else []);
    ObjectLaid(SourceMembers(s), 2, "    ", "      ", texts);
  }

  /** Sources one to a line. */
  function SourceLines(ss: seq<Source>): seq<string> {
    if ss == [] then [] else ["\n    " + SourceLaid(ss[0])] + SourceLines(ss[1..])
  }

  lemma {:induction false} SourcesLaidOut(ss: seq<Source>)
    ensures ElementsText(SourceTexts(ss, 2), 2) == Commas(SourceLines(ss))
    ensures |SourceTexts(ss, 2)| == |ss| == |SourceLines(ss)|
  {
    hide ObjectText, SourceLaid, Line;
    if ss != [] {
      Indents();
      SourceLaidOut(ss[0]);
      SourcesLaidOut(ss[1..]);
      assert SourceTexts(ss, 2)[1..] == SourceTexts(ss[1..], 2);
      assert SourceLines(ss)[1..] == SourceLines(ss[1..]);
    }
  }

  function ListLaid(ss: seq<Source>): string { if ss == [] then "[]" else "[" + Commas(SourceLines(ss)) + "\n  ]" }

  lemma ListLaidOut(ss: seq<Source>)
    ensures ListText(SourceTexts(ss, 2), 1) == ListLaid(ss)
  {
    Indents();
    SourcesLaidOut(ss);
    hide ElementsText, SourceTexts, Commas, SourceLines, Line;
    var inside := Commas(SourceLines(ss));
    assert "[" + inside + "\n  " + "]" == "[" + inside + "\n  ]";
  }

  function RequestTexts(r: Request): seq<string> {
    [Key("  ", "artifact") + ArtifactLaid(r.artifact), Key("  ", "sources") + ListLaid(r.sources)]
    + (if r.constraints.Some? then [Key("  ", "constraints") + ConstraintsLaid(r.constraints.value)] else [])
  }

  lemma RequestMember(r: Request, i: nat)
    requires Spellable(r) && i < |RequestMembers(r, 0)|
    ensures |RequestTexts(r)| == |RequestMembers(r, 0)|
    ensures var m := RequestMembers(r, 0)[i]; RequestTexts(r)[i] == Key("  ", Spelt(m.name)) + m.text
  {
    hide ObjectText, ListText, ListLaid, Key, ArtifactLaid, ConstraintsLaid, SourceTexts, ArtifactMembers, ConstraintsMembers;
    if i == 0 { ArtifactLaidOut(r.artifact); }
    else if i == 1 { ListLaidOut(r.sources); }
    else { ConstraintsLaidOut(r.constraints.value); }
  }

  lemma AllRequestMembers(r: Request)
    requires Spellable(r)
    ensures var ms, texts := RequestMembers(r, 0), RequestTexts(r);
      |texts| == |ms| && forall i :: 0 <= i < |ms| ==> texts[i] == Key("  ", Spelt(ms[i].name)) + ms[i].text
  {
    assert |RequestMembers(r, 0)| > 0;
    hide *;
    RequestMember(r, 0);
    forall i | 0 <= i < |RequestMembers(r, 0)|
      ensures RequestTexts(r)[i] == Key("  ", Spelt(RequestMembers(r, 0)[i].name)) + RequestMembers(r, 0)[i].text
    {
      RequestMember(r, i);
    }
  }

  lemma RequestObject(r: Request)
    requires Spellable(r)
    ensures EncodeRequest(r) == ObjectText(RequestMembers(r, 0), 0) + "\n"
  {
    hide ObjectText, RequestMembers;
  }

  /** A request's text: the artifact with what is known of it, the sources, and the constraints if there
      are any. */
  lemma RequestLaidOut(r: Request)
    requires Spellable(r)
    ensures EncodeRequest(r) == Laid("", RequestTexts(r)) + "\n"
  {
    hide *;
    Indents();
    AllRequestMembers(r);
    RequestObject(r);
    ObjectLaid(RequestMembers(r, 0), 0, "", "  ", RequestTexts(r));
  }
}
