/** The range set a checkpoint is written in, and the facts every other module builds on. */
module Ranges {
  import opened Numbers
  import opened Options

  // Half-open byte intervals in canonical form: sorted, non-empty, disjoint and not even touching.
  // `Covers` is the meaning of a set; `SameBytesSameList` says canonical form spells each meaning
  // exactly once.

  datatype Range = Range(start: int, end: int)

  /** Byte x is inside one of the ranges. */
  ghost predicate Covers(rs: seq<Range>, x: int) {
    rs != [] && (rs[0].start <= x < rs[0].end || Covers(rs[1..], x))
  }

  /** Every byte of a is in b. */
  ghost predicate Within(a: seq<Range>, b: seq<Range>) { forall x :: Covers(a, x) ==> Covers(b, x) }

  predicate Canonical(rs: seq<Range>) {
    rs == []
    || (&& 0 <= rs[0].start < rs[0].end
        && (|rs| > 1 ==> rs[0].end < rs[1].start)
        && Canonical(rs[1..]))
  }

  /** The end of the last range: how far the set reaches, which says nothing about holes. */
  function Reach(rs: seq<Range>): int { if rs == [] then 0 else rs[|rs| - 1].end }

  function Total(rs: seq<Range>): int {
    if rs == [] then 0 else rs[0].end - rs[0].start + Total(rs[1..])
  }

  /** The length of the leading run of proven bytes. */
  function VerifiedPrefix(rs: seq<Range>): int {
    if rs != [] && rs[0].start == 0 then rs[0].end else 0
  }

  /** The proven set of a checkpoint that says only how long its prefix is. */
  function WholePrefix(total: int): seq<Range> { if total > 0 then [Range(0, total)] else [] }

  predicate PrefixShaped(rs: seq<Range>) { |rs| == 0 || (|rs| == 1 && rs[0].start == 0) }

  function Add(rs: seq<Range>, a: int, b: int): (out: seq<Range>)
    requires Canonical(rs) && 0 <= a <= b
    ensures Canonical(out)
    ensures forall x :: Covers(out, x) <==> Covers(rs, x) || a <= x < b
    ensures a == b ==> out == rs
    ensures a < b ==> out != [] && out[0].start == if rs == [] then a else Min(a, rs[0].start)
  {
    if a == b then rs
    else if rs == [] then [Range(a, b)]
    else if b < rs[0].start then [Range(a, b)] + rs
    else if rs[0].end < a then [rs[0]] + Add(rs[1..], a, b)
    else Add(rs[1..], Min(a, rs[0].start), Max(b, rs[0].end))
  }

  /** What of [lo, hi) the set does not hold. */
  function Missing(rs: seq<Range>, lo: int, hi: int): (out: seq<Range>)
    requires Canonical(rs) && 0 <= lo
    ensures Canonical(out)
    ensures forall x :: Covers(out, x) <==> lo <= x < hi && !Covers(rs, x)
    ensures out != [] ==> lo <= out[0].start
  {
    if lo >= hi then []
    else if rs == [] then [Range(lo, hi)]
    else if rs[0].end <= lo then
      CoversFrom(rs[1..]);
      Missing(rs[1..], lo, hi)
    else if rs[0].start >= hi then
      CoversFrom(rs);
      [Range(lo, hi)]
    else
      CoversFrom(rs);
      CoversFrom(rs[1..]);
      var rest := Missing(rs[1..], rs[0].end, hi);
      if lo < rs[0].start then [Range(lo, rs[0].start)] + rest else rest
  }

  /** The canonical form of any list, or None when it holds a range no byte set can mean. */
  function CanonicalRanges(rs: seq<Range>): (out: Option<seq<Range>>)
    ensures out.None? <==> exists i :: 0 <= i < |rs| && !(0 <= rs[i].start <= rs[i].end)
    ensures out.Some? ==> Canonical(out.value) && forall x :: Covers(out.value, x) <==> Covers(rs, x)
  {
    if rs == [] then Some([])
    else
      assert forall i :: 1 <= i < |rs| ==> rs[i] == rs[1..][i - 1];
      match CanonicalRanges(rs[1..])
      case None => None
      case Some(rest) =>
        if 0 <= rs[0].start <= rs[0].end then Some(Add(rest, rs[0].start, rs[0].end)) else None
  }

  /** Every covered byte of a canonical list lies at or after its first start. */
  lemma {:induction false} CoversFrom(rs: seq<Range>)
    requires Canonical(rs)
    ensures rs != [] ==> forall x :: Covers(rs, x) ==> rs[0].start <= x
    ensures rs != [] ==> forall x :: Covers(rs[1..], x) ==> rs[0].end < x
    ensures rs != [] ==> Covers(rs, rs[0].start) && !Covers(rs, rs[0].end)
  {
    if |rs| > 1 { CoversFrom(rs[1..]); }
  }

  lemma {:induction false} CoversBelowReach(rs: seq<Range>)
    requires Canonical(rs)
    ensures forall x :: Covers(rs, x) ==> 0 <= x < Reach(rs)
    ensures rs != [] ==> Covers(rs, Reach(rs) - 1)
    ensures 0 <= Reach(rs)
  {
    if |rs| > 1 {
      CoversBelowReach(rs[1..]);
      CoversFrom(rs);
    }
  }

  lemma {:induction false} CoversConcat(a: seq<Range>, b: seq<Range>)
    ensures forall x :: Covers(a + b, x) <==> Covers(a, x) || Covers(b, x)
  {
    if a == [] {
      assert a + b == b;
    } else {
      assert (a + b)[1..] == a[1..] + b;
      CoversConcat(a[1..], b);
    }
  }

  lemma CoversOne(r: Range)
    ensures forall x :: Covers([r], x) <==> r.start <= x < r.end
  {
    assert [r][1..] == [];
  }

  lemma WholePrefixCovers(total: int)
    ensures Canonical(WholePrefix(total)) && forall x :: Covers(WholePrefix(total), x) <==> 0 <= x < total
  {
    CoversOne(Range(0, total));
  }

  lemma {:induction false} CanonicalSnoc(a: seq<Range>, r: Range)
    requires Canonical(a) && r.start < r.end && (if a == [] then 0 <= r.start else Reach(a) < r.start)
    ensures Canonical(a + [r])
    ensures forall x :: Covers(a + [r], x) <==> Covers(a, x) || r.start <= x < r.end
  {
    CoversConcat(a, [r]);
    if a != [] {
      assert (a + [r])[1..] == a[1..] + [r];
      CanonicalSnoc(a[1..], r);
    }
  }

  /** Any element of a canonical list is itself a non-empty range the list covers. */
  lemma {:induction false} CanonicalAt(rs: seq<Range>, i: nat)
    requires Canonical(rs) && i < |rs|
    ensures 0 <= rs[i].start < rs[i].end <= Reach(rs)
    ensures i + 1 < |rs| ==> rs[i].end < rs[i + 1].start
    ensures Canonical(rs[i..]) && Canonical(rs[..i])
    ensures i > 0 ==> Reach(rs[..i]) < rs[i].start
    ensures forall x :: Covers(rs, x) <==> Covers(rs[..i], x) || Covers(rs[i..], x)
  {
    assert rs == rs[..i] + rs[i..];
    CoversConcat(rs[..i], rs[i..]);
    if i > 0 {
      CanonicalAt(rs[1..], i - 1);
      assert rs[1..][i - 1..] == rs[i..];
      assert rs[..i][1..] == rs[1..][..i - 1];
    } else if |rs| > 1 {
      CanonicalAt(rs[1..], 0);
    }
  }

  /** Canonical form is a spelling: one byte set, one list. */
  lemma {:induction false} SameBytesSameList(a: seq<Range>, b: seq<Range>)
    requires Canonical(a) && Canonical(b)
    requires forall x :: Covers(a, x) <==> Covers(b, x)
    ensures a == b
  {
    if a == [] || b == [] {
      if a != [] { assert Covers(a, a[0].start); }
      if b != [] { assert Covers(b, b[0].start); }
    } else {
      CoversFrom(a);
      CoversFrom(b);
      assert b[0].start <= a[0].end < b[0].end ==> Covers(b, a[0].end);
      assert a[0].start <= b[0].end < a[0].end ==> Covers(a, b[0].end);
      assert a[0] == b[0];
      forall x ensures Covers(a[1..], x) <==> Covers(b[1..], x) {
        assert Covers(a, x) <==> Covers(b, x);
      }
      SameBytesSameList(a[1..], b[1..]);
    }
  }

  /** The bytes a list covers, as a finite set. */
  ghost function Points(rs: seq<Range>): (p: set<int>)
    ensures forall x :: x in p <==> Covers(rs, x)
  {
    if rs == [] then {} else Interval(rs[0].start, rs[0].end) + Points(rs[1..])
  }

  predicate Inside(a: int, x: int, b: int) { a <= x < b }

  ghost function Interval(a: int, b: int): (p: set<int>)
    ensures forall x :: x in p <==> a <= x < b
  {
    set x | a <= x < b && Inside(a, x, b)
  }

  lemma {:induction false} IntervalSize(a: int, b: int)
    requires a <= b
    ensures |Interval(a, b)| == b - a
    decreases b - a
  {
    if a < b {
      IntervalSize(a + 1, b);
      assert Interval(a, b) == {a} + Interval(a + 1, b);
    } else {
      assert Interval(a, b) == {};
    }
  }

  /** Total counts bytes: it is the number of offsets the set covers. */
  lemma {:induction false} TotalCounts(rs: seq<Range>)
    requires Canonical(rs)
    ensures Total(rs) == |Points(rs)|
  {
    if rs != [] {
      TotalCounts(rs[1..]);
      CoversFrom(rs);
      var head := Interval(rs[0].start, rs[0].end);
      IntervalSize(rs[0].start, rs[0].end);
      assert head !! Points(rs[1..]);
      assert |head + Points(rs[1..])| == |head| + |Points(rs[1..])|;
    }
  }

  lemma {:induction false} SubsetSize<T>(a: set<T>, b: set<T>)
    requires a <= b
    ensures |a| <= |b|
    ensures |a| == |b| ==> a == b
  {
    assert b == a + (b - a);
    assert |b| == |a| + |b - a|;
    if |a| == |b| { assert b - a == {}; }
  }

  /** A set that grew without its count moving did not grow: the reason an unchanged count may
      skip a write. */
  lemma SameCountSameSet(a: seq<Range>, b: seq<Range>)
    requires Canonical(a) && Canonical(b)
    requires forall x :: Covers(a, x) ==> Covers(b, x)
    ensures Total(a) <= Total(b)
    ensures Total(a) == Total(b) ==> a == b
  {
    TotalCounts(a);
    TotalCounts(b);
    SubsetSize(Points(a), Points(b));
    if Total(a) == Total(b) {
      assert Points(a) == Points(b);
      forall x ensures Covers(a, x) <==> Covers(b, x) {
        assert x in Points(a) <==> x in Points(b);
      }
      SameBytesSameList(a, b);
    }
  }

  lemma {:induction false} TotalWithinReach(rs: seq<Range>)
    requires Canonical(rs)
    ensures 0 <= Total(rs) <= Reach(rs)
    ensures rs != [] ==> Total(rs) <= Reach(rs) - rs[0].start
    ensures |rs| > 1 ==> Total(rs) < Reach(rs) - rs[0].start
    ensures rs != [] ==> 0 < Total(rs)
  {
    if |rs| > 1 { TotalWithinReach(rs[1..]); }
  }

  /** Every byte before n is proven. */
  ghost predicate ProvenBelow(rs: seq<Range>, n: int) { forall x :: 0 <= x < n ==> Covers(rs, x) }

  lemma NotProven(rs: seq<Range>, x: int, n: int)
    requires 0 <= x < n && !Covers(rs, x)
    ensures !ProvenBelow(rs, n)
  {
  }

  /** The count of a set is a proven prefix length for prefix-shaped sets and for no others. */
  lemma CountIsPrefixExactly(rs: seq<Range>)
    requires Canonical(rs)
    ensures PrefixShaped(rs) <==> ProvenBelow(rs, Total(rs))
    ensures PrefixShaped(rs) <==> VerifiedPrefix(rs) == Total(rs)
  {
    TotalWithinReach(rs);
    if !PrefixShaped(rs) {
      CoversFrom(rs);
      TotalWithinReach(rs[1..]);
      NotProven(rs, if rs[0].start > 0 then 0 else rs[0].end, Total(rs));
    }
  }

  /** The verified prefix is the longest run of proven bytes from zero. */
  lemma PrefixIsLeadingRun(rs: seq<Range>)
    requires Canonical(rs)
    ensures 0 <= VerifiedPrefix(rs) <= Reach(rs)
    ensures forall x :: 0 <= x < VerifiedPrefix(rs) ==> Covers(rs, x)
    ensures !Covers(rs, VerifiedPrefix(rs))
  {
    CoversBelowReach(rs);
    CoversFrom(rs);
    if rs != [] { CanonicalAt(rs, 0); }
  }
}
