/** The few text operations of Go's standard library that headers and handles are read with. */
module Text {
  import opened Options

  /** strings.Cut on one character: what comes before its first occurrence and what comes after. */
  function Cut(s: string, c: char): (r: Option<(string, string)>)
    ensures r.None? <==> c !in s
    ensures r.Some? ==> s == r.value.0 + [c] + r.value.1 && c !in r.value.0
  {
    if s == "" then None
    else if s[0] == c then Some(("", s[1..]))
    else
      match Cut(s[1..], c)
      case None => None
      case Some(p) => Some(([s[0]] + p.0, p.1))
  }

  lemma {:induction false} CutAt(a: string, c: char, b: string)
    requires c !in a
    ensures Cut(a + [c] + b, c) == Some((a, b))
  {
    if a == "" {
      assert a + [c] + b == [c] + b;
    } else {
      assert (a + [c] + b)[1..] == a[1..] + [c] + b;
      CutAt(a[1..], c, b);
      assert a == [a[0]] + a[1..];
    }
  }

  predicate Blank(c: char) { c == ' ' || '\t' <= c <= '\r' }

  function TrimLeft(s: string): string { if s != "" && Blank(s[0]) then TrimLeft(s[1..]) else s }

  function TrimRight(s: string): string
    decreases |s|
  {
    if s != "" && Blank(s[|s| - 1]) then TrimRight(s[..|s| - 1]) else s
  }

  /** strings.TrimSpace on ASCII text. */
  function Trim(s: string): string { TrimRight(TrimLeft(s)) }

  /** Nothing to trim at either end. */
  predicate Trimmed(s: string) { s != "" ==> !Blank(s[0]) && !Blank(s[|s| - 1]) }

  lemma TrimmedStays(s: string)
    requires Trimmed(s)
    ensures Trim(s) == s
  {
  }

  function Lower(c: char): char { if 'A' <= c <= 'Z' then (c as int + 32) as char else c }

  function LowerCase(s: string): (t: string)
    ensures |t| == |s|
  {
    seq(|s|, i requires 0 <= i < |s| => Lower(s[i]))
  }

  /** The blanks of ASCII, by their codes: tab, the three line ends with the vertical tab, space. */
  predicate Spaces(s: string) { forall i :: 0 <= i < |s| ==> 9 <= s[i] as int <= 13 || s[i] as int == 32 }

  /** Blanks at either end are what is taken off, and nothing else. */
  lemma {:induction false} TrimTakesBlanks(left: string, s: string, right: string)
    requires Spaces(left) && Spaces(right)
    requires s != "" ==> !Spaces(s[..1]) && !Spaces(s[|s| - 1..])
    ensures Trim(left + s + right) == s
  {
    TrimsLeft(left, s + right);
    assert left + s + right == left + (s + right);
    if s == "" {
      TrimsLeft(right, "");
      assert right + "" == right && s + right == right;
    } else {
      TrimsRight(s, right);
    }
  }

  lemma {:induction false} TrimsLeft(left: string, s: string)
    requires Spaces(left)
    ensures s == "" || !Spaces(s[..1]) ==> TrimLeft(left + s) == s
    ensures TrimLeft(left + s) == TrimLeft(s)
  {
    if left == "" {
      assert left + s == s;
    } else {
      assert (left + s)[1..] == left[1..] + s;
      TrimsLeft(left[1..], s);
    }
  }

  lemma {:induction false} TrimsRight(s: string, right: string)
    requires Spaces(right) && s != "" && !Spaces(s[|s| - 1..])
    ensures TrimRight(s + right) == s
    decreases |right|
  {
    if right == "" {
      assert s + right == s;
    } else {
      var w := s + right;
      assert w[..|w| - 1] == s + right[..|right| - 1] && w[|w| - 1] == right[|right| - 1];
      TrimsRight(s, right[..|right| - 1]);
    }
  }

  /** The twenty-six capitals become the small letters; no other character changes. */
  lemma LowerExactly(c: char)
    ensures var large, small := "ABCDEFGHIJKLMNOPQRSTUVWXYZ", "abcdefghijklmnopqrstuvwxyz";
      && (c !in large ==> Lower(c) == c)
      && forall i :: 0 <= i < |large| && c == large[i] ==> i < |small| && Lower(c) == small[i]
  {
    var large, small := "ABCDEFGHIJKLMNOPQRSTUVWXYZ", "abcdefghijklmnopqrstuvwxyz";
    assert |large| == 26 && |small| == 26;
    if 'A' <= c <= 'Z' { InOrder(c as int - 'A' as int); }
    forall i | 0 <= i < 26 ensures large[i] as int == 65 + i && small[i] as int == 97 + i { InOrder(i); }
  }

  lemma InOrder(i: nat)
    requires i < 26
    ensures "ABCDEFGHIJKLMNOPQRSTUVWXYZ"[i] as int == 65 + i && "abcdefghijklmnopqrstuvwxyz"[i] as int == 97 + i
  {
    if i < 9 { } else if i < 18 { } else { }
  }

  /** strings.TrimPrefix. */
  function Without(s: string, prefix: string): string { if prefix <= s then s[|prefix|..] else s }
}
