/** Which version of an artifact a response is of, and which bytes of it (go/validators.go, and the
    range check of go/fetchers.go): entity tags, dates, and Content-Range, read by two readers.

    Text is one character per byte; a Content-Range is written here as section 14.4 of RFC 9110 has
    it, and then each reader is asked about it. */
module Validators {
  import opened Options
  import opened Text
  import opened Bytes
  import opened JsonNumber

  // ---- Numbers ----------------------------------------------------------------------------------

  predicate Figures(s: string) { forall i :: 0 <= i < |s| ==> Digit(s[i]) }

  /** strconv.ParseInt in base ten and 64 bits. */
  function ParseInt(s: string): Option<int> {
    var signed := s != "" && (s[0] == '-' || s[0] == '+');
    var ds := if signed then s[1..] else s;
    if ds == "" || !Figures(ds) then None
    else
      var n := if signed && s[0] == '-' then -Extend(0, ds) else Extend(0, ds);
      if MIN_INT64 <= n <= MAX_INT64 then Some(n) else None
  }

  /** A sign or none, zeros or none, and a number within 64 bits: that number. */
  lemma ParsesSigned(sign: string, zeros: string, n: nat)
    requires sign in ["", "+", "-"] && forall i :: 0 <= i < |zeros| ==> zeros[i] == '0'
    ensures var v := if sign == "-" then 0 - n else n;
      ParseInt(sign + zeros + Digits(n)) ==
        if -0x8000_0000_0000_0000 <= v <= 0x7FFF_FFFF_FFFF_FFFF then Some(v) else None
  {
    var ds := zeros + Digits(n);
    ZerosAddNothing(zeros, Digits(n));
    DigitsExtend(n);
    assert Figures(ds);
    assert sign + zeros + Digits(n) == sign + ds;
    if sign == "" {
      assert sign + ds == ds;
    } else {
      assert (sign + ds)[1..] == ds;
    }
  }

  lemma DigitsExtend(n: nat)
    ensures Extend(0, Digits(n)) == n
  {
    var ds := Digits(n);
    if n > 0 {
      RunSpells(ds);
      DigitsInjective(Extend(0, ds), n);
    } else {
      assert ds == "0" && Extend(0, ds) == Extend(0, "");
    }
  }

  lemma {:induction false} ZerosAddNothing(zeros: string, ds: string)
    requires forall i :: 0 <= i < |zeros| ==> zeros[i] == '0'
    ensures Extend(0, zeros + ds) == Extend(0, ds)
  {
    if zeros == "" {
      assert zeros + ds == ds;
    } else {
      assert (zeros + ds)[1..] == zeros[1..] + ds;
      ZerosAddNothing(zeros[1..], ds);
    }
  }

  lemma ParsesDigits(n: nat)
    ensures ParseInt(Digits(n)) == if n <= MAX_INT64 then Some(n) else None
  {
    ParsesSigned("", "", n);
    assert "" + "" + Digits(n) == Digits(n);
  }

  /** No digits, or anything but a digit past the sign: no number. */
  lemma ParsesNoOther(s: string, i: nat)
    requires i < |s| && !Digit(s[i]) && (i > 0 || (s[0] != '-' && s[0] != '+'))
    ensures ParseInt(s).None?
    ensures ParseInt("").None? && ParseInt("+").None? && ParseInt("-").None?
  {
    if s[0] == '-' || s[0] == '+' { assert s[1..][i - 1] == s[i]; }
  }

  // ---- Content-Range ----------------------------------------------------------------------------

  /** The range and length of a Content-Range, as section 14.4 of RFC 9110 writes them. */
  function RangeText(first: nat, last: nat, total: Option<nat>): string {
    Digits(first) + "-" + (Digits(last) + "/" + (if total.Some? then Digits(total.value) else "*"))
  }

  function Split(s: string): Option<(string, string)> {
    match Cut(s, '/')
    case None => None
    case Some(p) => Cut(p.0, '-')
  }

  function ContentRangeStart(header: string): Option<int> {
    match Cut(Trim(header), ' ')
    case None => None
    case Some(p) =>
      if LowerCase(p.0) != "bytes" then None
      else
        match Split(Trim(p.1))
        case None => None
        case Some(ends) =>
          match ParseInt(Trim(ends.0))
          case None => None
          case Some(n) => if n < 0 then None else Some(n)
  }

  function ContentRangeTotal(header: string): int {
    match Cut(Trim(header), ' ')
    case None => 0
    case Some(p) =>
      match Cut(Trim(p.1), '/')
      case None => 0
      case Some(q) =>
        match ParseInt(Trim(q.1))
        case None => 0
        case Some(n) => if n <= 0 then 0 else n
  }

  predicate NamesRange(header: string, start: int, end: int) {
    match Split(Without(Trim(header), "bytes "))
    case None => false
    case Some(ends) => ParseInt(ends.0) == Some(start) && ParseInt(ends.1) == Some(end - 1)
  }

  predicate AnswersFrom(contentType: string, header: string, from: int) {
    && !("multipart/" <= LowerCase(Trim(contentType)))
    && ContentRangeStart(header) == Some(from)
  }

  /** What the three parts of a range come apart as. */
  lemma PartsShape(a: string, b: string, tail: string)
    requires a != "" && b != "" && tail != "" && Figures(a) && Figures(b) && (Figures(tail) || tail == "*")
    ensures var s := a + "-" + (b + "/" + tail);
      && Cut(s, '/') == Some((a + "-" + b, tail)) && Split(s) == Some((a, b))
      && s[0] == a[0] && s[|s| - 1] == tail[|tail| - 1] && '/' !in a + "-" + b
  {
    var s := a + "-" + (b + "/" + tail);
    assert s == (a + "-" + b) + ['/'] + tail;
    CutAt(a + "-" + b, '/', tail);
    CutAt(a, '-', b);
  }

  lemma FiguresTrimmed(s: string)
    requires s != "" && Figures(s)
    ensures Trimmed(s) && Trim(s) == s
  {
    TrimmedStays(s);
  }

  function Tail(total: Option<nat>): (t: string)
    ensures t != "" && (Figures(t) || t == "*")
  {
    if total.Some? then Digits(total.value) else "*"
  }

  lemma RangeTextShape(first: nat, last: nat, total: Option<nat>)
    ensures var s := RangeText(first, last, total);
      && Trimmed(s) && Trim(s) == s && s != "" && Digit(s[0]) && ' ' !in s
      && Cut(s, '/') == Some((Digits(first) + "-" + Digits(last), Tail(total)))
      && Split(s) == Some((Digits(first), Digits(last)))
      && Trim(Tail(total)) == Tail(total) && Trim(Digits(first)) == Digits(first)
  {
    hide Digits, Tail, Cut, Trim, Split;
    var a, b, tail := Digits(first), Digits(last), Tail(total);
    RangeIs(first, last, total);
    PartsShape(a, b, tail);
    var s := a + "-" + (b + "/" + tail);
    FiguresTrimmed(a);
    TrimmedStays(tail);
    TrimmedStays(s);
  }

  lemma RangeIs(first: nat, last: nat, total: Option<nat>)
    ensures RangeText(first, last, total) == Digits(first) + "-" + (Digits(last) + "/" + Tail(total))
  {
    hide Digits;
  }

  predicate Letters(u: string) { forall i :: 0 <= i < |u| ==> 'a' <= Lower(u[i]) <= 'z' }

  lemma UnitShape(unit: string, first: nat, last: nat, total: Option<nat>)
    requires Letters(unit) && unit != ""
    ensures var body := RangeText(first, last, total); var s := unit + " " + body;
      Trim(s) == s && Cut(s, ' ') == Some((unit, body)) && Trim(body) == body
  {
    var body := RangeText(first, last, total);
    var s := unit + " " + body;
    RangeTextShape(first, last, total);
    CutAt(unit, ' ', body);
    assert s == unit + [' '] + body;
    assert s[0] == unit[0] && s[|s| - 1] == body[|body| - 1];
    TrimmedStays(s);
    TrimmedStays(body);
  }

  /** A written Content-Range is read back: where it starts, and how long the artifact is. */
  lemma ContentRangeReads(unit: string, first: nat, last: nat, total: Option<nat>)
    requires Letters(unit) && unit != ""
    ensures var s := unit + " " + RangeText(first, last, total);
      && (ContentRangeStart(s) == Some(first) <==> LowerCase(unit) == "bytes" && first <= MAX_INT64)
      && (ContentRangeStart(s).Some? ==> ContentRangeStart(s) == Some(first))
      && ContentRangeTotal(s) == if total.Some? && total.value <= MAX_INT64 then total.value else 0
  {
    RangeTextShape(first, last, total);
    UnitShape(unit, first, last, total);
    ParsesDigits(first);
    if total.Some? { ParsesDigits(total.value); } else { ParsesNoOther("*", 0); }
  }

  /** The parallel path's check passes a written Content-Range exactly when it is in "bytes",
      spelled so, and says exactly the range that was asked for. */
  lemma NamesRangeExactly(unit: string, first: nat, last: nat, total: Option<nat>, start: int, end: int)
    requires Letters(unit) && unit != "" && 0 <= start < end <= MAX_INT64
    ensures NamesRange(unit + " " + RangeText(first, last, total), start, end) <==>
      unit == "bytes" && first == start && last == end - 1
  {
    hide Digits, RangeText, Trim, ParseInt, Split, Cut;
    var body := RangeText(first, last, total);
    UnitShape(unit, first, last, total);
    if unit == "bytes" {
      assert Without(unit + " " + body, "bytes ") == body;
      BareRange(first, last, total, start, end);
    } else {
      NotBytes(unit, body);
      OtherUnit(unit, first, last, total);
    }
  }

  /** A range with no unit before it. */
  lemma BareRange(first: nat, last: nat, total: Option<nat>, start: int, end: int)
    requires 0 <= start < end <= MAX_INT64
    ensures var ends := Split(RangeText(first, last, total));
      && ends.Some?
      && (ParseInt(ends.value.0) == Some(start) && ParseInt(ends.value.1) == Some(end - 1) <==>
            first == start && last == end - 1)
  {
    hide Digits, RangeText, Trim, ParseInt, Split, Cut;
    RangeTextShape(first, last, total);
    ParsesDigits(first);
    ParsesDigits(last);
  }

  lemma OtherUnit(unit: string, first: nat, last: nat, total: Option<nat>)
    requires Letters(unit) && unit != ""
    ensures var ends := Split(unit + " " + RangeText(first, last, total)); ends.Some? && ParseInt(ends.value.0).None?
  {
    hide Digits, Trim, ParseInt, Tail, Cut, RangeText;
    RangeIs(first, last, total);
    var a, b, tail := Digits(first), Digits(last), Tail(total);
    var s := unit + " " + RangeText(first, last, total);
    var front := unit + " " + a;
    assert s == (front + "-" + b) + ['/'] + tail;
    LettersHaveNo(unit);
    CutAt(front + "-" + b, '/', tail);
    CutAt(front, '-', b);
    assert front[|unit|] == ' ';
    ParsesNoOther(front, |unit|);
  }

  lemma LettersHaveNo(unit: string)
    requires Letters(unit)
    ensures ' ' !in unit && '-' !in unit && '/' !in unit
  {
    forall i | 0 <= i < |unit| ensures unit[i] != ' ' && unit[i] != '-' && unit[i] != '/' {
      assert 'a' <= Lower(unit[i]) <= 'z';
    }
  }

  lemma NotBytes(unit: string, body: string)
    requires Letters(unit) && unit != "bytes"
    ensures !("bytes " <= unit + " " + body)
  {
    var s, p := unit + " " + body, "bytes ";
    LettersHaveNo(unit);
    assert s[..|unit|] == unit && s[|unit|] == ' ' && p[5] == ' ';
    if |unit| > 5 {
      assert s[5] == unit[5] != p[5];
    } else if |unit| < 5 {
      assert s[|unit|] != p[|unit|];
    } else {
      assert s[..5] != p[..5];
    }
  }

  lemma NoContentType(header: string, from: int)
    ensures AnswersFrom("", header, from) <==> ContentRangeStart(header) == Some(from)
  {
    hide ContentRangeStart;
  }

  /** A header without its parts names no range and no length; a length that is no positive number
      is none. */
  lemma PartsMissing(header: string, start: int, end: int)
    ensures '/' !in header || '-' !in header ==> !NamesRange(header, start, end)
    ensures '/' !in header || ' ' !in Trim(header) ==> ContentRangeTotal(header) == 0
    ensures '/' !in header || '-' !in header || ' ' !in Trim(header) ==> ContentRangeStart(header).None?
    ensures ContentRangeTotal(header) >= 0 && (ContentRangeStart(header).Some? ==> ContentRangeStart(header).value >= 0)
  {
    hide ParseInt, LowerCase, Cut, Trim;
    TrimIsPart(header, '/');
    TrimIsPart(header, '-');
    var t := Trim(header);
    var v := Without(t, "bytes ");
    assert forall c :: c in v ==> c in t;
    NoSplit(v);
    if ' ' in t {
      var p := Cut(t, ' ').value;
      assert forall c :: c in p.1 ==> c in t;
      TrimIsPart(p.1, '/');
      TrimIsPart(p.1, '-');
      NoSplit(Trim(p.1));
    }
  }

  lemma NoSplit(s: string)
    ensures '/' !in s || '-' !in s ==> Split(s).None?
  {
    hide Cut;
  }

  lemma {:induction false} TrimIsPart(s: string, c: char)
    ensures c !in s ==> c !in Trim(s)
  {
    LeftIsPart(s, c);
    RightIsPart(TrimLeft(s), c);
  }

  lemma {:induction false} LeftIsPart(s: string, c: char)
    ensures c !in s ==> c !in TrimLeft(s)
  {
    if s != "" && Blank(s[0]) { LeftIsPart(s[1..], c); }
  }

  lemma {:induction false} RightIsPart(s: string, c: char)
    ensures c !in s ==> c !in TrimRight(s)
    decreases |s|
  {
    if s != "" && Blank(s[|s| - 1]) { RightIsPart(s[..|s| - 1], c); }
  }

  /** An answer in parts, its type spelled in any case and padded, is no answer to one range; any
      other type leaves it to the Content-Range. */
  lemma AnswersExactly(left: string, kind: string, right: string, header: string, from: int)
    requires Spaces(left) && Spaces(right)
    requires kind != "" ==> !Spaces(kind[..1]) && !Spaces(kind[|kind| - 1..])
    ensures AnswersFrom(left + kind + right, header, from) <==>
      && ContentRangeStart(header) == Some(from)
      && !(|kind| >= 10 && LowerCase(kind[..10]) == "multipart/")
  {
    hide ContentRangeStart, Trim, Spaces;
    TrimTakesBlanks(left, kind, right);
    var t := LowerCase(kind);
    assert |"multipart/"| == 10;
    if |kind| >= 10 { assert LowerCase(kind[..10]) == t[..10]; }
  }

  /** The two readers differ on everything but the usual spelling: the streaming path takes the
      unit in any case and insists on it, the parallel path takes no other case but can do without. */
  lemma ReadersDiffer(unit: string, first: nat, last: nat, total: Option<nat>)
    requires Letters(unit) && unit != "" && first <= last < MAX_INT64
    ensures var body := RangeText(first, last, total); var s := unit + " " + body;
      && (AnswersFrom("", s, first) != NamesRange(s, first, last + 1) <==> LowerCase(unit) == "bytes" && unit != "bytes")
      && NamesRange(body, first, last + 1) && !AnswersFrom("", body, first)
  {
    hide Digits, RangeText, LowerCase, AnswersFrom, NamesRange, ContentRangeStart, Letters;
    UsualUnit();
    var body := RangeText(first, last, total);
    NoContentType(unit + " " + body, first);
    NoContentType(body, first);
    ContentRangeReads(unit, first, last, total);
    NamesRangeExactly(unit, first, last, total, first, last + 1);
    BareDiffers(first, last, total);
  }

  lemma UsualUnit()
    ensures LowerCase("bytes") == "bytes" && Letters("bytes")
  {
  }

  lemma BareDiffers(first: nat, last: nat, total: Option<nat>)
    requires first <= last < MAX_INT64
    ensures var body := RangeText(first, last, total);
      NamesRange(body, first, last + 1) && ContentRangeStart(body).None?
  {
    hide Digits, RangeText, Trim, ParseInt, Split, Cut, LowerCase;
    var body := RangeText(first, last, total);
    RangeTextShape(first, last, total);
    BareRange(first, last, total, first, last + 1);
    assert Without(body, "bytes ") == body;
    assert Cut(body, ' ').None?;
  }

  // ---- Entity tags --------------------------------------------------------------------------------

  /** etagc of section 8.8.3 of RFC 9110. */
  predicate TagByte(c: char) { c == '!' || '#' <= c <= '~' || 0x80 <= c as int <= 0xFF }

  predicate OpaqueTag(s: string) {
    |s| >= 2 && s[0] == '"' && s[|s| - 1] == '"' && forall i :: 1 <= i < |s| - 1 ==> TagByte(s[i])
  }

  predicate EntityTag(s: string) { OpaqueTag(s) || (|s| >= 2 && s[..2] == "W/" && OpaqueTag(s[2..])) }

  predicate StrongTag(s: string) {
    && s != ""
    && !(|s| >= 2 && LowerCase(s[..2]) == "w/")
    && |s| >= 2 && s[0] == '"' && s[|s| - 1] == '"'
  }

  /** What is acted on begins and ends with quotes of its own; of the entity tags a server may
      send, that is exactly those not marked weak. */
  lemma StrongTagExactly(s: string)
    ensures StrongTag(s) <==> |s| >= 2 && s[0] == '"' && s[|s| - 1] == '"'
    ensures EntityTag(s) ==> (StrongTag(s) <==> OpaqueTag(s)) && (StrongTag(s) <==> !("W/" <= s))
  {
    if |s| >= 2 && s[0] == '"' { assert LowerCase(s[..2])[0] == '"'; }
  }

  // ---- Dates --------------------------------------------------------------------------------------

  predicate Matches(c: char, p: char) {
    match p
    case '9' => Digit(c)
    case 'a' => 'a' <= Lower(c) <= 'z'
    case '#' => Digit(c) || c == ' '
    case _ => c == p
  }

  predicate Fits(s: string, pattern: string) {
    |s| == |pattern| && forall i :: 0 <= i < |s| ==> Matches(s[i], pattern[i])
  }

  method Shaped(s: string, pattern: string) returns (ok: bool)
    ensures ok <==> Fits(s, pattern)
  {
    if |s| != |pattern| { return false; }
    for i := 0 to |s|
      invariant forall k :: 0 <= k < i ==> Matches(s[k], pattern[k])
    {
      if !Matches(s[i], pattern[i]) { return false; }
    }
    return true;
  }

  const MONTHS: string := "JanFebMarAprMayJunJulAugSepOctNovDec"

  /** strings.Index from an offset on: the first occurrence, or -1. */
  function Find(text: string, w: string, from: nat): (i: int)
    requires from <= |text|
    ensures i >= 0 ==> from <= i && Stands(text, i, w)
    ensures forall k :: from <= k && (i < 0 || k < i) ==> !Stands(text, k, w)
    decreases |text| - from
  {
    if Stands(text, from, w) then from
    else if from == |text| then -1
    else Find(text, w, from + 1)
  }

  predicate MonthAt(s: string, at: nat)
    requires at + 3 <= |s|
  {
    var i := Find(MONTHS, s[at..at + 3], 0);
    i >= 0 && i % 3 == 0
  }

  const MONTH_NAMES: seq<string> :=
    ["Jan", "Feb", "Mar", "Apr", "May", "Jun", "Jul", "Aug", "Sep", "Oct", "Nov", "Dec"]

  predicate Capital(c: char) { 'A' <= c <= 'Z' }

  lemma CapitalsStartMonths(i: nat)
    requires i < 36
    ensures |MONTHS| == 36 && (Capital(MONTHS[i]) <==> i % 3 == 0)
  {
    assert |MONTHS| == 36;
    if i < 12 { } else if i < 24 { } else { }
  }

  /** Where every third character and no other is a capital, a word of three is found at a multiple
      of three exactly when it is one of those that start there. */
  lemma FoundAtThirds(text: string, w: string)
    requires |w| == 3 && |text| % 3 == 0
    requires forall i :: 0 <= i < |text| ==> (Capital(text[i]) <==> i % 3 == 0)
    ensures var i := Find(text, w, 0);
      i >= 0 && i % 3 == 0 <==> exists p :: 0 <= p && p % 3 == 0 && Stands(text, p, w)
  {
    var i := Find(text, w, 0);
    if i >= 0 {
      StandsAt(text, i, w, 0);
    }
    forall p | 0 <= p && p % 3 == 0 && Stands(text, p, w) ensures i >= 0 && i % 3 == 0 {
      StandsAt(text, p, w, 0);
    }
  }

  lemma TwelveNames()
    ensures |MONTH_NAMES| == 12
  {
  }

  lemma NameLetters(k: nat)
    requires k < 12
    ensures var w := MONTH_NAMES[k];
      |MONTHS| == 36 && |w| == 3 && MONTHS[3 * k] == w[0] && MONTHS[3 * k + 1] == w[1] && MONTHS[3 * k + 2] == w[2]
  {
    assert |MONTHS| == 36;
    if k < 4 { } else if k < 8 { } else { }
  }

  /** The search for a three-letter word in the twelve run together finds a month, and only a
      month, at a multiple of three. */
  lemma MonthExactly(s: string, at: nat)
    requires at + 3 <= |s|
    ensures MonthAt(s, at) <==> s[at..at + 3] in MONTH_NAMES
  {
    var w := s[at..at + 3];
    forall i | 0 <= i < |MONTHS| ensures Capital(MONTHS[i]) <==> i % 3 == 0 { CapitalsStartMonths(i); }
    FoundAtThirds(MONTHS, w);
    MonthsStand(w);
  }

  lemma MonthsStand(w: string)
    requires |w| == 3
    ensures (exists p :: 0 <= p && p % 3 == 0 && Stands(MONTHS, p, w)) <==> w in MONTH_NAMES
  {
    hide MONTHS, MONTH_NAMES;
    TwelveNames();
    NameLetters(0);
    forall p | 0 <= p && p % 3 == 0 && Stands(MONTHS, p, w) ensures w in MONTH_NAMES {
      NameLetters(p / 3);
      assert w == MONTH_NAMES[p / 3];
    }
    if w in MONTH_NAMES {
      var k :| 0 <= k < |MONTH_NAMES| && MONTH_NAMES[k] == w;
      NameLetters(k);
      assert Stands(MONTHS, 3 * k, w);
    }
  }

  predicate ObsoleteDate(s: string) {
    match Cut(s, ',')
    case None => false
    case Some(p) =>
      && p.0 != "" && p.1 != "" && p.1[0] == ' '
      && Letters(p.0) && Fits(p.1[1..], "99-aaa-99 99:99:99 GMT") && MonthAt(p.1[1..], 3)
  }

  predicate HttpDate(s: string) {
    if Fits(s, "aaa, 99 aaa 9999 99:99:99 GMT") then MonthAt(s, 8)
    else if Fits(s, "aaa aaa #9 99:99:99 9999") then MonthAt(s, 4)
    else ObsoleteDate(s)
  }

  // The three spellings as section 5.6.7 of RFC 9110 lays them out, piece by piece.

  predicate Clock(s: string) {
    && |s| == 8 && Figures(s[..2]) && s[2] == ':' && Figures(s[3..5]) && s[5] == ':' && Figures(s[6..])
  }

  /** Sun, 06 Nov 1994 08:49:37 GMT */
  predicate ImfFixdate(s: string) {
    && |s| == 29 && Letters(s[..3]) && s[3..5] == ", " && Figures(s[5..7]) && s[7] == ' '
    && s[8..11] in MONTH_NAMES && s[11] == ' ' && Figures(s[12..16]) && s[16] == ' '
    && Clock(s[17..25]) && s[25..] == " GMT"
  }

  /** Sun Nov  6 08:49:37 1994 */
  predicate Asctime(s: string) {
    && |s| == 24 && Letters(s[..3]) && s[3] == ' ' && s[4..7] in MONTH_NAMES && s[7] == ' '
    && (Digit(s[8]) || s[8] == ' ') && Digit(s[9]) && s[10] == ' '
    && Clock(s[11..19]) && s[19] == ' ' && Figures(s[20..])
  }

  /** 06-Nov-94 08:49:37 GMT */
  predicate Rfc850Rest(s: string) {
    && |s| == 22 && Figures(s[..2]) && s[2] == '-' && s[3..6] in MONTH_NAMES && s[6] == '-'
    && Figures(s[7..9]) && s[9] == ' ' && Clock(s[10..18]) && s[18..] == " GMT"
  }

  /** Sunday, 06-Nov-94 08:49:37 GMT, n letters before the comma */
  predicate Rfc850(s: string, n: nat) {
    0 < n && |s| == n + 24 && Letters(s[..n]) && s[n..n + 2] == ", " && Rfc850Rest(s[n + 2..])
  }

  lemma FitsJoined(v: string, w: string, p: string, q: string)
    requires |v| == |p|
    ensures Fits(v + w, p + q) <==> Fits(v, p) && Fits(w, q)
  {
    var s, r := v + w, p + q;
    assert forall i :: 0 <= i < |v| ==> s[i] == v[i] && r[i] == p[i];
    if |w| == |q| {
      assert forall i :: 0 <= i < |w| ==> s[|v| + i] == w[i] && r[|v| + i] == q[i];
      if Fits(s, r) {
        forall i | 0 <= i < |w| ensures Matches(w[i], q[i]) { assert Matches(s[|v| + i], r[|v| + i]); }
      }
    }
  }

  /** What is left of a text against what is left of a layout: one piece, and the rest. */
  lemma FitsNext(s: string, at: nat, p: string, q: string)
    requires at <= |s|
    ensures Fits(s[at..], p + q) <==>
      at + |p| <= |s| && Fits(s[at..at + |p|], p) && Fits(s[at + |p|..], q)
    ensures Fits(s[at..], p + q) ==> |s| - at == |p| + |q|
  {
    if at + |p| <= |s| {
      assert s[at..] == s[at..at + |p|] + s[at + |p|..];
      FitsJoined(s[at..at + |p|], s[at + |p|..], p, q);
    }
  }

  lemma LettersFit(s: string)
    ensures Fits(s, "aaa") <==> |s| == 3 && Letters(s)
  {
    assert "aaa"[0] == 'a' && "aaa"[1] == 'a' && "aaa"[2] == 'a';
  }

  lemma FiguresFit(s: string)
    ensures Fits(s, "99") <==> |s| == 2 && Figures(s)
    ensures Fits(s, "9999") <==> |s| == 4 && Figures(s)
  {
  }

  lemma DayFits(s: string)
    ensures Fits(s, "#9") <==> |s| == 2 && (Digit(s[0]) || s[0] == ' ') && Digit(s[1])
  {
    if Fits(s, "#9") { assert Matches(s[0], '#') && Matches(s[1], '9'); }
  }

  lemma FixedFits(s: string, p: string)
    requires forall i :: 0 <= i < |p| ==> p[i] != '9' && p[i] != 'a' && p[i] != '#'
    ensures Fits(s, p) <==> s == p
  {
  }

  lemma ClockFits(s: string)
    ensures Fits(s, "99:99:99") <==> Clock(s)
  {
    if |s| == 8 { assert s[..2][0] == s[0] && s[3..5][0] == s[3] && s[6..][0] == s[6]; }
  }

  /** The pieces of a layout, told to the verifier one by one. */
  lemma PieceFits(s: string)
    ensures Fits(s, "aaa") <==> |s| == 3 && Letters(s)
    ensures Fits(s, "99") <==> |s| == 2 && Figures(s)
    ensures Fits(s, "9999") <==> |s| == 4 && Figures(s)
    ensures Fits(s, "99:99:99") <==> Clock(s)
    ensures Fits(s, " GMT") <==> s == " GMT"
    ensures Fits(s, ", ") <==> s == ", "
    ensures Fits(s, " ") <==> s == " "
    ensures Fits(s, "-") <==> s == "-"
    ensures Fits(s, "#9") <==> |s| == 2 && (Digit(s[0]) || s[0] == ' ') && Digit(s[1])
  {
    hide Fits;
    LettersFit(s);
    FiguresFit(s);
    DayFits(s);
    ClockFits(s);
    FixedFits(s, " GMT");
    FixedFits(s, ", ");
    FixedFits(s, " ");
    FixedFits(s, "-");
  }

  lemma NamesAreLetters(w: string)
    requires w in MONTH_NAMES
    ensures Letters(w)
  {
    var k :| 0 <= k < |MONTH_NAMES| && MONTH_NAMES[k] == w;
    if k < 4 { } else if k < 8 { } else { }
  }

  lemma ImfLayout()
    ensures "aaa, 99 aaa 9999 99:99:99 GMT" ==
      "aaa" + (", " + ("99" + (" " + ("aaa" + (" " + ("9999" + (" " + ("99:99:99" + " GMT"))))))))
  {
  }

  lemma AsctimeLayout()
    ensures "aaa aaa #9 99:99:99 9999" ==
      "aaa" + (" " + ("aaa" + (" " + ("#9" + (" " + ("99:99:99" + (" " + "9999")))))))
  {
  }

  lemma Rfc850Layout()
    ensures "99-aaa-99 99:99:99 GMT" == "99" + ("-" + ("aaa" + ("-" + ("99" + (" " + ("99:99:99" + " GMT"))))))
  {
  }

  lemma ImfExactly(s: string)
    ensures Fits(s, "aaa, 99 aaa 9999 99:99:99 GMT") && MonthAt(s, 8) <==> ImfFixdate(s)
  {
    hide Fits, MonthAt, Letters, Figures, Clock, MONTH_NAMES;
    ImfLayout();
    var r7 := "99:99:99" + " GMT";
    var r5 := "9999" + (" " + r7);
    var r3 := "aaa" + (" " + r5);
    var r1 := "99" + (" " + r3);
    assert s[0..] == s;
    FitsNext(s, 0, "aaa", ", " + r1);
    if |s| == 29 {
      FitsNext(s, 3, ", ", r1);
      FitsNext(s, 5, "99", " " + r3);
      FitsNext(s, 7, " ", r3);
      FitsNext(s, 8, "aaa", " " + r5);
      FitsNext(s, 11, " ", r5);
      FitsNext(s, 12, "9999", " " + r7);
      FitsNext(s, 16, " ", r7);
      FitsNext(s, 17, "99:99:99", " GMT");
      PieceFits(s[0..3]); PieceFits(s[3..5]); PieceFits(s[5..7]); PieceFits(s[7..8]); PieceFits(s[8..11]);
      PieceFits(s[11..12]); PieceFits(s[12..16]); PieceFits(s[16..17]); PieceFits(s[17..25]); PieceFits(s[25..]);
      assert s[7..8] == [s[7]] && s[11..12] == [s[11]] && s[16..17] == [s[16]] && s[..3] == s[0..3];
      MonthExactly(s, 8);
      if s[8..11] in MONTH_NAMES { NamesAreLetters(s[8..11]); }
    }
  }

  lemma AsctimeExactly(s: string)
    ensures Fits(s, "aaa aaa #9 99:99:99 9999") && MonthAt(s, 4) <==> Asctime(s)
  {
    hide Fits, MonthAt, Letters, Figures, Clock, MONTH_NAMES;
    AsctimeLayout();
    var r6 := "99:99:99" + (" " + "9999");
    var r4 := "#9" + (" " + r6);
    var r2 := "aaa" + (" " + r4);
    assert s[0..] == s;
    FitsNext(s, 0, "aaa", " " + r2);
    if |s| == 24 {
      FitsNext(s, 3, " ", r2);
      FitsNext(s, 4, "aaa", " " + r4);
      FitsNext(s, 7, " ", r4);
      FitsNext(s, 8, "#9", " " + r6);
      FitsNext(s, 10, " ", r6);
      FitsNext(s, 11, "99:99:99", " " + "9999");
      FitsNext(s, 19, " ", "9999");
      PieceFits(s[0..3]); PieceFits(s[3..4]); PieceFits(s[4..7]); PieceFits(s[7..8]); PieceFits(s[8..10]);
      PieceFits(s[10..11]); PieceFits(s[11..19]); PieceFits(s[19..20]); PieceFits(s[20..]);
      assert s[3..4] == [s[3]] && s[7..8] == [s[7]] && s[10..11] == [s[10]] && s[19..20] == [s[19]] && s[..3] == s[0..3];
      MonthExactly(s, 4);
      if s[4..7] in MONTH_NAMES { NamesAreLetters(s[4..7]); }
    }
  }

  lemma Rfc850RestExactly(s: string)
    ensures Fits(s, "99-aaa-99 99:99:99 GMT") && MonthAt(s, 3) <==> Rfc850Rest(s)
  {
    hide Fits, MonthAt, Letters, Figures, Clock, MONTH_NAMES;
    Rfc850Layout();
    var r6 := "99:99:99" + " GMT";
    var r4 := "99" + (" " + r6);
    var r2 := "aaa" + ("-" + r4);
    assert s[0..] == s;
    FitsNext(s, 0, "99", "-" + r2);
    if |s| == 22 {
      FitsNext(s, 2, "-", r2);
      FitsNext(s, 3, "aaa", "-" + r4);
      FitsNext(s, 6, "-", r4);
      FitsNext(s, 7, "99", " " + r6);
      FitsNext(s, 9, " ", r6);
      FitsNext(s, 10, "99:99:99", " GMT");
      PieceFits(s[0..2]); PieceFits(s[2..3]); PieceFits(s[3..6]); PieceFits(s[6..7]); PieceFits(s[7..9]);
      PieceFits(s[9..10]); PieceFits(s[10..18]); PieceFits(s[18..]);
      assert s[2..3] == [s[2]] && s[6..7] == [s[6]] && s[9..10] == [s[9]] && s[..2] == s[0..2];
      MonthExactly(s, 3);
      if s[3..6] in MONTH_NAMES { NamesAreLetters(s[3..6]); }
    }
  }

  lemma Rfc850Exactly(s: string)
    ensures ObsoleteDate(s) <==> exists n: nat :: Rfc850(s, n)
  {
    hide ObsoleteDate, Rfc850;
    if ObsoleteDate(s) { var n := ObsoleteIsRfc850(s); }
    forall n: nat | Rfc850(s, n) ensures ObsoleteDate(s) { Rfc850IsObsolete(s, n); }
  }

  lemma ObsoleteIsRfc850(s: string) returns (n: nat)
    requires ObsoleteDate(s)
    ensures Rfc850(s, n)
  {
    hide Fits, MonthAt, Rfc850Rest, Letters;
    var p := Cut(s, ',').value;
    n := |p.0|;
    Rfc850RestExactly(p.1[1..]);
    Rfc850RestLong(p.1[1..]);
    assert s[..n] == p.0 && s[n..n + 2] == ", " && s[n + 2..] == p.1[1..];
  }

  lemma Rfc850IsObsolete(s: string, n: nat)
    requires Rfc850(s, n)
    ensures ObsoleteDate(s)
  {
    hide Fits, MonthAt, Rfc850Rest, Letters;
    var day, rest := s[..n], s[n + 2..];
    Rfc850RestExactly(rest);
    LettersHaveNoComma(day);
    assert s == day + [','] + (" " + rest);
    CutAt(day, ',', " " + rest);
  }

  lemma Rfc850RestLong(s: string)
    requires Rfc850Rest(s)
    ensures |s| == 22
  {
  }

  lemma LettersHaveNoComma(s: string)
    requires Letters(s)
    ensures ',' !in s
  {
  }

  /** No text has two of the layouts. */
  lemma OneLayout(s: string)
    ensures Fits(s, "aaa, 99 aaa 9999 99:99:99 GMT") ==> !Asctime(s) && forall n: nat :: !Rfc850(s, n)
    ensures Fits(s, "aaa aaa #9 99:99:99 9999") ==> forall n: nat :: !Rfc850(s, n)
  {
    if Fits(s, "aaa, 99 aaa 9999 99:99:99 GMT") {
      assert Matches(s[3], ',') && |s| == 29;
      forall n: nat | |s| == n + 24 ensures !Letters(s[..n]) { assert s[..n][3] == ','; }
    }
  }

  /** What passes for a date has one of the three layouts of section 5.6.7 of RFC 9110 and the name
      of a month where it stands; weekdays and numbers are not looked into. */
  lemma HttpDateExactly(s: string)
    ensures HttpDate(s) <==> ImfFixdate(s) || Asctime(s) || exists n: nat :: Rfc850(s, n)
  {
    hide Fits, MonthAt, ObsoleteDate, ImfFixdate, Asctime, Rfc850;
    ImfExactly(s);
    AsctimeExactly(s);
    Rfc850Exactly(s);
    OneLayout(s);
  }

  // ---- Validators -----------------------------------------------------------------------------------

  datatype Validators = Validators(etag: string, lastModified: string) {
    function IfRange(): string { if etag != "" then etag else lastModified }
  }

  /** What is kept of a response to name its version: a strong tag, or failing that a date, as the
      server wrote it; never a weak tag, and nothing when there is neither. */
  method StrongValidators(etag: string, lastModified: string) returns (v: Validators)
    ensures v.etag != "" ==> StrongTag(v.etag) && v.etag == Trim(etag) && v.lastModified == ""
    ensures v.lastModified != "" ==> HttpDate(v.lastModified) && v.lastModified == Trim(lastModified)
    ensures v.etag == "" <==> !StrongTag(Trim(etag))
    ensures v.lastModified == "" <==> StrongTag(Trim(etag)) || !HttpDate(Trim(lastModified))
    ensures v.IfRange() == v.etag + v.lastModified
    ensures EntityTag(Trim(etag)) ==> (v.etag != "" <==> OpaqueTag(Trim(etag)))
  {
    v := Validators("", "");
    var tag := Trim(etag);
    StrongTagExactly(tag);
    if StrongTag(tag) { v := v.(etag := tag); }
    if v.etag == "" {
      var date := Trim(lastModified);
      if HttpDate(date) { v := v.(lastModified := date); }
    }
  }
}
