/** How the record codec spells and reads a 64-bit integer (rec.go: num, integer). */
module JsonNumber {
  import opened Bytes

  // The files are go/abstraction/download/request/rec.go and, for a reader with integers of any size,
  // py/abstraction/download/request/_codec.py.

  /** What reading at an offset comes to: a value and where it ends, or a refusal and where. */
  datatype Parsed<+T> = Got(value: T, pos: int) | Refused(word: string, pos: int)

  const MIN_INT64: int := -0x8000_0000_0000_0000
  const MAX_INT64: int := 0x7FFF_FFFF_FFFF_FFFF
  const WORD: int := 0x1_0000_0000_0000_0000

  /** The largest accumulator another digit may be pushed onto. */
  const FULL: int := 922337203685477580

  predicate Digit(c: char) { '0' <= c <= '9' }

  function Figure(c: char): int { c as int - '0' as int }

  // ---- Writing ----------------------------------------------------------------------------------

  function Digits(u: nat): (ds: string)
    ensures |ds| > 0 && forall i :: 0 <= i < |ds| ==> Digit(ds[i])
    ensures u > 0 ==> ds[0] != '0'
  {
    (if u < 10 then [] else Digits(u / 10)) + [(u % 10 + '0' as int) as char]
  }

  /** The one canonical spelling. */
  function Num(n: int): string { if n < 0 then "-" + Digits(-n) else Digits(n) }

  lemma TwosComplement(n: int)
    requires MIN_INT64 <= n <= MAX_INT64
    ensures n < 0 ==> (WORD - n % WORD) % WORD == -n
    ensures n >= 0 ==> n % WORD == n
  {
    if n < 0 { assert n % WORD == n + WORD; }
  }

  lemma PeelDigit(u: nat, d: string)
    requires u > 0
    ensures Digits(u) + d == (if u < 10 then [] else Digits(u / 10)) + ([(u % 10 + '0' as int) as char] + d)
  {
  }

  /** num: digits peeled off an unsigned word, whose two's complement stands for a negative. */
  method WriteNum(out: string, n: int) returns (r: string)
    requires MIN_INT64 <= n <= MAX_INT64
    ensures r == out + Num(n)
  {
    if n == 0 { return out + "0"; }
    var u := if n < 0 then (WORD - n % WORD) % WORD else n % WORD;
    TwosComplement(n);
    ghost var whole := u;
    var d := "";
    while u > 0
      invariant 0 <= u < WORD
      invariant u > 0 ==> Digits(whole) == Digits(u) + d
      invariant u == 0 ==> Digits(whole) == d
    {
      PeelDigit(u, d);
      d := [(u % 10 + '0' as int) as char] + d;
      u := u / 10;
    }
    r := out + (if n < 0 then "-" else "") + d;
  }

  // ---- Reading ----------------------------------------------------------------------------------

  /** More digits read after u. */
  function Extend(u: int, ds: string): int
    decreases |ds|
  {
    if ds == [] then u else Extend(u * 10 + Figure(ds[0]), ds[1..])
  }

  /** Where the run of digits at pos ends. */
  function RunEnd(buf: string, pos: nat): (e: nat)
    requires pos <= |buf|
    ensures pos <= e <= |buf| && !Digit(At(buf, e))
    ensures forall i :: pos <= i < e ==> Digit(buf[i])
    decreases |buf| - pos
  {
    if pos < |buf| && Digit(buf[pos]) then RunEnd(buf, pos + 1) else pos
  }

  /** Digits pushed onto a 64-bit accumulator, refused before one could overflow it. */
  function Accumulate(buf: string, pos: nat, u: int): (r: Parsed<int>)
    requires pos <= |buf| && 0 <= u < WORD
    ensures r.Got? ==> 0 <= r.value < WORD && pos <= r.pos <= |buf|
    decreases |buf| - pos
  {
    if !Digit(At(buf, pos)) then Got(u, pos)
    else if u > FULL then Refused("number_spelling", pos)
    else Accumulate(buf, pos + 1, u * 10 + Figure(At(buf, pos)))
  }

  /** What may not follow a number: more of one. */
  predicate Follows(c: char) { c == '.' || c == 'e' || c == 'E' || Digit(c) }

  function Finish(neg: bool, u: int, after: char, e: int, min: int, max: int): Parsed<int> {
    var n := if neg then -u else u;
    if Follows(after) || (neg && u == 0) || n < MIN_INT64 || n > MAX_INT64 || n < min || n > max
    then Refused("number_spelling", e)
    else Got(n, e)
  }

  function Integer(buf: string, pos: nat, min: int, max: int): (r: Parsed<int>)
    requires pos <= |buf|
    ensures r.Got? ==> pos < r.pos <= |buf| && min <= r.value <= max
  {
    var c := At(buf, pos);
    var neg := c == '-';
    if !neg && !Digit(c) then Refused("wrong_type", pos)
    else
      var q := if neg then pos + 1 else pos;
      if !Digit(At(buf, q)) then Refused("malformed", q)
      else if At(buf, q) == '0' then Finish(neg, 0, At(buf, q + 1), q + 1, min, max)
      else
        match Accumulate(buf, q, 0)
        case Refused(w, p) => Refused(w, p)
        case Got(u, e) => Finish(neg, u, At(buf, e), e, min, max)
  }

  /** The Python reader: the digits found first, counted, and converted whole. */
  function PythonInteger(buf: string, pos: nat, low: int, high: int): Parsed<int>
    requires pos <= |buf|
  {
    var c := At(buf, pos);
    var neg := c == '-';
    if !neg && !Digit(c) then Refused("wrong_type", pos)
    else
      var q := if neg then pos + 1 else pos;
      if !Digit(At(buf, q)) then Refused("malformed", q)
      else
        var e := if At(buf, q) == '0' then q + 1 else RunEnd(buf, q);
        var u := Extend(0, buf[q..e]);
        var n := if neg then -u else u;
        if Follows(At(buf, e)) || e - q > 19 || (neg && u == 0) || n < low || n > high
        then Refused("number_spelling", e)
        else Got(n, e)
  }

  /** The value n, spelled as Num spells it, stands at pos and nothing continues it. */
  predicate Spelled(buf: string, pos: int, n: int) {
    Stands(buf, pos, Num(n)) && !Follows(At(buf, pos + |Num(n)|))
  }

  lemma {:induction false} ExtendSpells(u: int, ds: string)
    requires 0 < u && forall i :: 0 <= i < |ds| ==> Digit(ds[i])
    ensures Extend(u, ds) >= u && Digits(Extend(u, ds)) == Digits(u) + ds
    decreases |ds|
  {
    if ds != [] {
      var next := u * 10 + Figure(ds[0]);
      ExtendSpells(next, ds[1..]);
      assert Digits(next) == Digits(u) + [ds[0]];
    }
  }

  /** Digits that do not start with zero are the canonical spelling of their value. */
  lemma RunSpells(ds: string)
    requires ds != [] && ds[0] != '0' && forall i :: 0 <= i < |ds| ==> Digit(ds[i])
    ensures Extend(0, ds) > 0 && Digits(Extend(0, ds)) == ds
  {
    var d := Figure(ds[0]);
    OneDigit(ds[0]);
    ExtendSpells(d, ds[1..]);
    assert ds == [ds[0]] + ds[1..];
    assert Extend(0, ds) == Extend(d, ds[1..]);
  }

  lemma OneDigit(c: char)
    requires Digit(c)
    ensures Digits(Figure(c)) == [c]
  {
  }

  lemma {:induction false} DigitsInjective(a: nat, b: nat)
    requires Digits(a) == Digits(b)
    ensures a == b
  {
    var x, y := Digits(a), Digits(b);
    assert x[|x| - 1] == y[|y| - 1] && x[..|x| - 1] == y[..|y| - 1];
    assert a >= 10 ==> x[..|x| - 1] == Digits(a / 10);
    assert b >= 10 ==> y[..|y| - 1] == Digits(b / 10);
    if a >= 10 && b >= 10 { DigitsInjective(a / 10, b / 10); }
  }

  /** The accumulator gives the value of the whole run whenever that value can be an answer, and
      refuses only values no 64-bit integer has. */
  lemma {:induction false} AccumulateRun(buf: string, pos: nat, u: int)
    requires pos <= |buf| && 0 <= u < WORD
    ensures var e := RunEnd(buf, pos); var v := Extend(u, buf[pos..e]);
      if Accumulate(buf, pos, u).Got? then Accumulate(buf, pos, u) == Got(v, e) else v > MAX_INT64 + 1
    ensures Extend(u, buf[pos..RunEnd(buf, pos)]) >= u
    decreases |buf| - pos
  {
    var e := RunEnd(buf, pos);
    var ds := buf[pos..e];
    if Digit(At(buf, pos)) {
      var next := u * 10 + Figure(buf[pos]);
      assert ds[1..] == buf[pos + 1..e];
      if u > FULL { ExtendGrows(next, ds[1..]); } else { AccumulateRun(buf, pos + 1, next); }
    }
  }

  lemma {:induction false} ExtendGrows(u: int, ds: string)
    requires 0 <= u && forall i :: 0 <= i < |ds| ==> Digit(ds[i])
    ensures Extend(u, ds) >= u
    decreases |ds|
  {
    if ds != [] { ExtendGrows(u * 10 + Figure(ds[0]), ds[1..]); }
  }

  function Pow10(k: nat): int { if k == 0 then 1 else 10 * Pow10(k - 1) }

  lemma {:induction false} LongIsLarge(u: nat, k: nat)
    requires |Digits(u)| > k && k > 0
    ensures u >= Pow10(k)
  {
    if k > 1 { LongIsLarge(u / 10, k - 1); }
  }

  lemma TenToThe19()
    ensures Pow10(19) > MAX_INT64 + 1
  {
    assert Pow10(5) == 100000;
    assert Pow10(10) == 10000000000;
    assert Pow10(15) == 1000000000000000;
  }

  /** A canonical spelling starts with a zero only when it is zero's. */
  lemma StartOfDigits(buf: string, q: nat, u: nat)
    requires q <= |buf| && Stands(buf, q, Digits(u)) && !Digit(At(buf, q + |Digits(u)|))
    ensures Digit(At(buf, q)) && (At(buf, q) == '0' <==> u == 0)
    ensures u > 0 ==> RunEnd(buf, q) == q + |Digits(u)|
    ensures u == 0 ==> |Digits(u)| == 1
  {
    StandsAt(buf, q, Digits(u), 0);
    RunIs(buf, q, q + |Digits(u)|, Digits(u));
  }

  lemma {:induction false} RunIs(buf: string, pos: nat, e: nat, ds: string)
    requires pos <= e <= |buf| && buf[pos..e] == ds && !Digit(At(buf, e))
    requires forall i :: 0 <= i < |ds| ==> Digit(ds[i])
    ensures RunEnd(buf, pos) == e
    decreases e - pos
  {
    if pos < e {
      assert buf[pos] == ds[0] && buf[pos + 1..e] == ds[1..];
      RunIs(buf, pos + 1, e, ds[1..]);
    }
  }

  /** The unsigned digits at q, read by the accumulator or found and converted whole. */
  function Unsigned(buf: string, q: nat): Parsed<int>
    requires q <= |buf|
  {
    if At(buf, q) == '0' then Got(0, q + 1) else Got(Extend(0, buf[q..RunEnd(buf, q)]), RunEnd(buf, q))
  }

  lemma UnsignedSpells(buf: string, q: nat)
    requires q <= |buf| && Digit(At(buf, q))
    ensures var r := Unsigned(buf, q);
      && r.value >= 0 && q < r.pos <= |buf| && Stands(buf, q, Digits(r.value)) && r.pos == q + |Digits(r.value)|
      && (At(buf, q) == '0' <==> r.value == 0)
  {
    if At(buf, q) == '0' {
      OneDigit('0');
    } else {
      RunSpells(buf[q..RunEnd(buf, q)]);
    }
  }

  /** A number whose digits stand at q and end there is the one Unsigned finds. */
  lemma SpelledIsUnsigned(buf: string, q: nat, u: nat)
    requires q <= |buf| && Stands(buf, q, Digits(u)) && !Digit(At(buf, q + |Digits(u)|))
    ensures Unsigned(buf, q) == Got(u, q + |Digits(u)|) && Digit(At(buf, q))
  {
    StartOfDigits(buf, q, u);
    if u > 0 {
      UnsignedSpells(buf, q);
      DigitsInjective(u, Unsigned(buf, q).value);
    }
  }

  /** Both readers finish the same way from the same digits, unless both refuse. */
  lemma SameFinish(buf: string, pos: nat)
    requires pos <= |buf|
    ensures var neg := At(buf, pos) == '-'; var q := if neg then pos + 1 else pos;
      Digit(At(buf, q)) ==> var r := Unsigned(buf, q);
        && Integer(buf, pos, MIN_INT64, MAX_INT64).Got? == Finish(neg, r.value, At(buf, r.pos), r.pos, MIN_INT64, MAX_INT64).Got?
        && (Integer(buf, pos, MIN_INT64, MAX_INT64).Got? ==>
              Integer(buf, pos, MIN_INT64, MAX_INT64) == Finish(neg, r.value, At(buf, r.pos), r.pos, MIN_INT64, MAX_INT64))
  {
    var q := if At(buf, pos) == '-' then pos + 1 else pos;
    if Digit(At(buf, q)) && At(buf, q) != '0' { AccumulateRun(buf, q, 0); }
  }

  /** A value's spelling at an offset, seen from the digits. */
  predicate DigitsStand(buf: string, pos: int, n: int) {
    if n < 0 then At(buf, pos) == '-' && Stands(buf, pos + 1, Digits(-n)) && !Follows(At(buf, pos + 1 + |Digits(-n)|))
    else Stands(buf, pos, Digits(n)) && !Follows(At(buf, pos + |Digits(n)|))
  }

  lemma SpelledDigits(buf: string, pos: nat, n: int)
    requires pos <= |buf|
    ensures Spelled(buf, pos, n) <==> DigitsStand(buf, pos, n)
  {
    hide Digits, Follows;
    if n < 0 {
      StandsSplit(buf, pos, "-", Digits(-n));
      if pos < |buf| { assert buf[pos..pos + 1] == [buf[pos]]; }
    }
  }

  lemma GotIsStanding(buf: string, pos: nat)
    requires pos <= |buf| && Integer(buf, pos, MIN_INT64, MAX_INT64).Got?
    ensures var r := Integer(buf, pos, MIN_INT64, MAX_INT64); var n := r.value;
      && MIN_INT64 <= n <= MAX_INT64 && DigitsStand(buf, pos, n)
      && r.pos == pos + (if n < 0 then 1 + |Digits(-n)| else |Digits(n)|)
  {
    SameFinish(buf, pos);
    UnsignedSpells(buf, if At(buf, pos) == '-' then pos + 1 else pos);
  }

  lemma GotIsSpelled(buf: string, pos: nat)
    requires pos <= |buf| && Integer(buf, pos, MIN_INT64, MAX_INT64).Got?
    ensures var r := Integer(buf, pos, MIN_INT64, MAX_INT64);
      MIN_INT64 <= r.value <= MAX_INT64 && Spelled(buf, pos, r.value) && r.pos == pos + |Num(r.value)|
  {
    GotIsStanding(buf, pos);
    SpelledDigits(buf, pos, Integer(buf, pos, MIN_INT64, MAX_INT64).value);
  }

  function Signed(neg: bool, u: int): int { if neg then -u else u }

  lemma DigitsAreGot(buf: string, pos: nat, q: nat, u: nat)
    requires pos <= q <= |buf| && q == (if At(buf, pos) == '-' then pos + 1 else pos)
    requires Stands(buf, q, Digits(u)) && !Follows(At(buf, q + |Digits(u)|))
    requires if At(buf, pos) == '-' then 0 < u <= MAX_INT64 + 1 else u <= MAX_INT64
    ensures Integer(buf, pos, MIN_INT64, MAX_INT64) == Got(Signed(At(buf, pos) == '-', u), q + |Digits(u)|)
  {
    UnsignedStands(buf, q, u);
    SameFinish(buf, pos);
  }

  lemma StandingIsGot(buf: string, pos: nat, n: int)
    requires pos <= |buf| && MIN_INT64 <= n <= MAX_INT64 && DigitsStand(buf, pos, n)
    ensures Integer(buf, pos, MIN_INT64, MAX_INT64) == Got(n, pos + (if n < 0 then 1 + |Digits(-n)| else |Digits(n)|))
  {
    if n < 0 {
      DigitsAreGot(buf, pos, pos + 1, -n);
    } else {
      StandsAt(buf, pos, Digits(n), 0);
      DigitsAreGot(buf, pos, pos, n);
    }
  }

  lemma SpelledIsGot(buf: string, pos: nat, n: int)
    requires pos <= |buf| && MIN_INT64 <= n <= MAX_INT64 && Spelled(buf, pos, n)
    ensures Integer(buf, pos, MIN_INT64, MAX_INT64) == Got(n, pos + |Num(n)|)
  {
    SpelledDigits(buf, pos, n);
    StandingIsGot(buf, pos, n);
  }

  lemma UnsignedStands(buf: string, q: nat, u: nat)
    requires q <= |buf| && Stands(buf, q, Digits(u)) && !Follows(At(buf, q + |Digits(u)|))
    ensures Unsigned(buf, q) == Got(u, q + |Digits(u)|) && Digit(At(buf, q))
  {
    SpelledIsUnsigned(buf, q, u);
  }

  /** The reader accepts exactly the canonical spellings of the 64-bit integers, each as the integer
      it spells: no leading zero, no minus zero, no fraction, no exponent, nothing out of range. */
  lemma ReadsExactlyTheSpellings(buf: string, pos: nat, n: int, p: int)
    requires pos <= |buf|
    ensures Integer(buf, pos, MIN_INT64, MAX_INT64) == Got(n, p)
      <==> MIN_INT64 <= n <= MAX_INT64 && Spelled(buf, pos, n) && p == pos + |Num(n)|
  {
    if Integer(buf, pos, MIN_INT64, MAX_INT64) == Got(n, p) {
      GotIsSpelled(buf, pos);
    } else if MIN_INT64 <= n <= MAX_INT64 && Spelled(buf, pos, n) {
      SpelledIsGot(buf, pos, n);
    }
  }

  /** A refused number that does begin with a digit is refused for its spelling. */
  lemma RefusedSpelling(buf: string, pos: nat)
    requires pos <= |buf| && Digit(At(buf, if At(buf, pos) == '-' then pos + 1 else pos))
    ensures var r := Integer(buf, pos, MIN_INT64, MAX_INT64); r.Refused? ==> r.word == "number_spelling"
  {
    var q := if At(buf, pos) == '-' then pos + 1 else pos;
    if At(buf, q) != '0' { AccumulateWord(buf, q, 0); }
  }

  lemma {:induction false} AccumulateWord(buf: string, pos: nat, u: int)
    requires pos <= |buf| && 0 <= u < WORD
    ensures Accumulate(buf, pos, u).Refused? ==> Accumulate(buf, pos, u).word == "number_spelling"
    decreases |buf| - pos
  {
    if Digit(At(buf, pos)) && u <= FULL { AccumulateWord(buf, pos + 1, u * 10 + Figure(At(buf, pos))); }
  }

  /** The Python reader, with integers of any size, accepts the same inputs with the same values, and
      gives the same reason for refusing any other. */
  lemma PythonReadsTheSame(buf: string, pos: nat, n: int, p: int)
    requires pos <= |buf|
    ensures Integer(buf, pos, MIN_INT64, MAX_INT64) == Got(n, p) <==> PythonInteger(buf, pos, MIN_INT64, MAX_INT64) == Got(n, p)
    ensures var r, q := Integer(buf, pos, MIN_INT64, MAX_INT64), PythonInteger(buf, pos, MIN_INT64, MAX_INT64);
      r.Refused? && q.Refused? ==> r.word == q.word
  {
    var q := if At(buf, pos) == '-' then pos + 1 else pos;
    SameFinish(buf, pos);
    if Digit(At(buf, q)) {
      RefusedSpelling(buf, pos);
      UnsignedSpells(buf, q);
      var r := Unsigned(buf, q);
      if At(buf, q) == '0' {
        assert buf[q..q + 1] == ['0'];
        assert Extend(0, ['0']) == Extend(0, []);
      }
      if r.pos - q > 19 {
        LongIsLarge(r.value, 19);
        TenToThe19();
      }
    }
  }

  /** Two values never share a spelling. */
  lemma NumInjective(a: int, b: int)
    requires Num(a) == Num(b)
    ensures a == b
  {
    SignFirst(a);
    SignFirst(b);
    if a < 0 {
      assert Num(a)[1..] == Num(b)[1..];
      DigitsInjective(-a, -b);
    } else {
      DigitsInjective(a, b);
    }
  }

  lemma SignFirst(n: int)
    ensures Num(n)[0] == '-' <==> n < 0
  {
  }

  newtype uint64 = x: int | 0 <= x < WORD

  /** The Go reader's own loop: a 64-bit accumulator that stays one, whatever the input. */
  method ReadDigits(buf: string, pos: nat) returns (r: Parsed<uint64>)
    requires pos <= |buf|
    ensures match Accumulate(buf, pos, 0) {
              case Got(u, e) => r.Got? && r.value as int == u && r.pos == e
              case Refused(w, e) => r == Refused(w, e)
            }
  {
    var u: uint64 := 0;
    var p := pos;
    var d := At(buf, p);
    while Digit(d)
      invariant pos <= p <= |buf| && d == At(buf, p)
      invariant Accumulate(buf, pos, 0) == Accumulate(buf, p, u as int)
      decreases |buf| - p
    {
      if u > FULL as uint64 { return Refused("number_spelling", p); }
      u := u * 10 + Figure(d) as uint64;
      p := p + 1;
      d := At(buf, p);
    }
    return Got(u, p);
  }

  /** The Python reader's two loops: the digits are found before any are converted. */
  method PythonReadInteger(buf: string, pos: nat, low: int, high: int) returns (r: Parsed<int>)
    requires pos <= |buf|
    ensures r == PythonInteger(buf, pos, low, high)
  {
    var p := pos;
    var c := At(buf, p);
    if c != '-' && !Digit(c) { return Refused("wrong_type", p); }
    var negative := c == '-';
    if negative { p := p + 1; }
    if !Digit(At(buf, p)) { return Refused("malformed", p); }
    var start := p;
    if At(buf, p) == '0' {
      p := p + 1;
    } else {
      while Digit(At(buf, p))
        invariant start <= p <= |buf| && RunEnd(buf, start) == RunEnd(buf, p)
        decreases |buf| - p
      {
        p := p + 1;
      }
    }
    if Follows(At(buf, p)) || p - start > 19 { return Refused("number_spelling", p); }
    var n := Convert(buf[start..p]);
    if negative {
      if n == 0 { return Refused("number_spelling", p); }
      n := -n;
    }
    if n < low || n > high { return Refused("number_spelling", p); }
    return Got(n, p);
  }

  method Convert(ds: string) returns (n: int)
    ensures n == Extend(0, ds)
  {
    n := 0;
    for i := 0 to |ds|
      invariant Extend(0, ds) == Extend(n, ds[i..])
    {
      assert ds[i..][1..] == ds[i + 1..];
      n := n * 10 + Figure(ds[i]);
    }
  }
}
