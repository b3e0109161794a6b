/** Where an artifact may be cut for several connections at once (go/parallel.go). */
module RangePlan {
  import opened Options
  import opened Ranges

  // The grid this layer chooses, the partition a source publishes, merging what is too fine, and
  // cutting a gap so that no request crosses a cut.

  const MIN_RANGE_SIZE: int := 0x100_0000
  const MAX_RANGES: int := 512
  const WORD: int := 0x8000_0000_0000_0000

  function FloorFrom(size: int, floor: int): int
    requires 0 < floor
    decreases size - floor
  {
    if size / floor > MAX_RANGES then
      DoublingStaysBelow(size, floor);
      FloorFrom(size, 2 * floor)
    else floor
  }

  /** The smallest range this layer chooses for an artifact of this size. */
  function Floor(size: int): int { FloorFrom(size, MIN_RANGE_SIZE) }

  method RangeFloor(size: int) returns (floor: int)
    ensures floor == Floor(size)
  {
    floor := MIN_RANGE_SIZE;
    while size / floor > MAX_RANGES
      invariant 0 < floor && FloorFrom(size, floor) == Floor(size)
      decreases size - floor
    {
      DoublingStaysBelow(size, floor);
      floor := 2 * floor;
    }
  }

  lemma DivBounds(n: int, d: int)
    requires 0 < d
    ensures d * (n / d) <= n < d * (n / d) + d
  {
  }

  /** q fits into n/d exactly when q steps of d fit into n. */
  lemma FitsExactly(n: int, d: int, q: int)
    requires 0 < d
    ensures q <= n / d <==> d * q <= n
  {
    DivBounds(n, d);
    MulMono(q, n / d, d);
    MulMono(n / d + 1, q, d);
  }

  lemma MulMono(a: int, b: int, d: int)
    requires 0 < d
    ensures a <= b ==> d * a <= d * b
  {
  }

  lemma DoublingStaysBelow(size: int, floor: int)
    requires 0 < floor && size / floor > MAX_RANGES
    ensures 2 * floor <= size
  {
    FitsExactly(size, floor, 2);
  }

  /** `floor` doubled k times. */
  function Doubled(floor: int, k: nat): (d: int)
    ensures 0 < floor ==> floor <= d
    ensures 0 < floor && 0 < k ==> 2 * floor <= d
  {
    if k == 0 then floor else 2 * Doubled(floor, k - 1)
  }

  lemma {:induction false} DoubledTwice(floor: int, j: nat, k: nat)
    ensures Doubled(Doubled(floor, j), k) == Doubled(floor, j + k)
  {
    if k > 0 { DoubledTwice(floor, j, k - 1); }
  }

  /** The floor is the least doubling of `from` that cuts the artifact into at most 512 ranges. */
  lemma {:induction false} FloorIsLeast(size: int, from: int) returns (k: nat)
    requires 0 < from
    ensures FloorFrom(size, from) == Doubled(from, k)
    ensures size / FloorFrom(size, from) <= 512
    ensures k > 0 ==> size / Doubled(from, k - 1) > 512
    decreases size - from
  {
    if size / from > MAX_RANGES {
      DoublingStaysBelow(size, from);
      var j := FloorIsLeast(size, 2 * from);
      k := j + 1;
      DoubledTwice(from, 1, j);
      if j > 0 { DoubledTwice(from, 1, j - 1); }
    } else {
      k := 0;
    }
  }

  /** A larger artifact's floor is a smaller one's, doubled some number of times. */
  lemma {:induction false} FloorsNest(small: int, large: int, from: int) returns (k: nat)
    requires 0 < from && small <= large
    ensures 0 < FloorFrom(small, from)
    ensures FloorFrom(large, from) == Doubled(FloorFrom(small, from), k)
    decreases small - from
  {
    if small / from > MAX_RANGES {
      DoublingStaysBelow(small, from);
      FitsExactly(small, from, MAX_RANGES + 1);
      FitsExactly(large, from, MAX_RANGES + 1);
      k := FloorsNest(small, large, 2 * from);
    } else {
      k := FloorIsLeast(large, from);
    }
  }

  /** The k-th mark of a grid of this step. */
  function Mark(step: int, k: nat): int { if k == 0 then 0 else Mark(step, k - 1) + step }

  lemma {:induction false} MarkIsProduct(step: int, k: nat)
    ensures Mark(step, k) == step * k
  {
    if k > 0 { MarkIsProduct(step, k - 1); }
  }

  lemma {:induction false} MarksAscend(step: int, j: nat, k: nat)
    requires 0 < step && j < k
    ensures Mark(step, j) < Mark(step, k)
    decreases k
  {
    if j < k - 1 { MarksAscend(step, j, k - 1); }
  }

  /** Every mark of a doubled grid is a mark of the grid. */
  lemma {:induction false} MarkOfDoubled(step: int, k: nat, n: nat) returns (m: nat)
    requires 0 < step
    ensures n <= m && Mark(Doubled(step, k), n) == Mark(step, m)
    decreases k
  {
    if k == 0 {
      m := n;
    } else {
      MarkIsProduct(Doubled(step, k), n);
      MarkIsProduct(Doubled(step, k - 1), 2 * n);
      m := MarkOfDoubled(step, k - 1, 2 * n);
    }
  }

  ghost predicate IsGrid(cuts: seq<int>, size: int) {
    && (forall i :: 0 <= i < |cuts| ==> cuts[i] == Mark(Floor(size), i + 1))
    && Mark(Floor(size), |cuts| + 1) >= size
    && (cuts != [] ==> Mark(Floor(size), |cuts|) < size)
  }

  method GridPlan(size: int) returns (cuts: seq<int>)
    ensures IsGrid(cuts, size)
  {
    var step := RangeFloor(size);
    var _ := FloorIsLeast(size, MIN_RANGE_SIZE);
    cuts := [];
    var at := step;
    assert at == Mark(step, 0) + step;
    while at < size
      invariant at == Mark(step, |cuts| + 1)
      invariant forall i :: 0 <= i < |cuts| ==> cuts[i] == Mark(step, i + 1)
      invariant cuts != [] ==> Mark(step, |cuts|) < size
      decreases size - at
    {
      cuts := cuts + [at];
      at := at + step;
    }
  }

  /** Two owners that read different sizes agree about boundaries: a larger artifact's cuts that
      lie inside a smaller one are all cuts of the smaller. */
  lemma GridsNest(small: int, smallCuts: seq<int>, large: int, largeCuts: seq<int>, c: int)
    requires small <= large && IsGrid(smallCuts, small) && IsGrid(largeCuts, large)
    requires c in largeCuts && c < small
    ensures c in smallCuts
  {
    var k := FloorsNest(small, large, MIN_RANGE_SIZE);
    var f := Floor(small);
    var i :| 0 <= i < |largeCuts| && largeCuts[i] == c;
    var m := MarkOfDoubled(f, k, i + 1);
    if m > |smallCuts| + 1 { MarksAscend(f, |smallCuts| + 1, m); }
    assert smallCuts[m - 1] == c;
  }

  const STEP54: int := 0x40_0000_0000_0000

  /** The loop that lays the grid adds one step past the last cut. In 64 bits that addition stays
      in range exactly for artifacts no longer than 2^63 - 2^54 bytes. */
  lemma GridFitsWordExactly(size: int, cuts: seq<int>)
    requires 0 < size < WORD && IsGrid(cuts, size)
    ensures Mark(Floor(size), |cuts| + 1) < WORD <==> size <= WORD - STEP54
  {
    var f := Floor(size);
    var j := FloorNearWord(size);
    MarkIsProduct(STEP54, 511);
    MarkIsProduct(STEP54, 512);
    if size <= WORD - STEP54 {
      var m := MarkOfDoubled(f, j, 511);
      if |cuts| + 1 > m && cuts != [] {
        if |cuts| > m { MarksAscend(f, m, |cuts|); }
      }
      if |cuts| + 1 < m { MarksAscend(f, |cuts| + 1, m); }
    } else {
      if |cuts| + 1 < 511 { MarksAscend(f, |cuts| + 1, 511); }
      if |cuts| + 1 > 512 { MarksAscend(f, 512, |cuts| + 1); }
    }
  }

  /** Every 63-bit size has a floor that doubles up to 2^54, and the last 2^54 sizes have it exactly. */
  lemma FloorNearWord(size: int) returns (j: nat)
    requires 0 < size < WORD
    ensures 0 < Floor(size) && Doubled(Floor(size), j) == STEP54
    ensures size > WORD - STEP54 ==> j == 0
  {
    var k := FloorIsLeast(size, MIN_RANGE_SIZE);
    ThirtyDoublings();
    if k > 30 {
      DoubledTwice(MIN_RANGE_SIZE, 30, k - 31);
      FitsExactly(size, Doubled(MIN_RANGE_SIZE, k - 1), MAX_RANGES + 1);
    }
    j := 30 - k;
    DoubledTwice(MIN_RANGE_SIZE, k, j);
    if j > 0 && size > WORD - STEP54 { FitsExactly(size, Floor(size), MAX_RANGES + 1); }
  }

  lemma ThirtyDoublings()
    ensures Doubled(MIN_RANGE_SIZE, 30) == STEP54
  {
    assert Doubled(MIN_RANGE_SIZE, 10) == 0x4_0000_0000;
    DoubledTwice(MIN_RANGE_SIZE, 10, 10);
    assert Doubled(0x4_0000_0000, 10) == 0x1000_0000_0000;
    DoubledTwice(MIN_RANGE_SIZE, 20, 10);
    assert Doubled(0x1000_0000_0000, 10) == STEP54;
  }

  ghost predicate Ascending(cuts: seq<int>, size: int) {
    && (forall i :: 0 <= i < |cuts| ==> 0 < cuts[i] < size)
    && (forall i, j :: 0 <= i < j < |cuts| ==> cuts[i] < cuts[j])
  }

  /** A source's own partition: refused whole if any field is not a number, not ascending, not
      inside the artifact, or one more than this layer would ever cut for itself. `fields` are
      the comma-separated fields as an integer parse sees them. */
  method PublishedPlan(fields: seq<Option<int>>, size: int) returns (ok: bool, cuts: seq<int>)
    ensures ok <==> && 0 < |fields| < 512
                    && (forall i :: 0 <= i < |fields| ==> fields[i].Some?)
                    && Ascending(seq(|fields|, i requires 0 <= i < |fields| =>
                         if fields[i].Some? then fields[i].value else 0), size)
    ensures ok ==> |cuts| == |fields| && forall i :: 0 <= i < |cuts| ==> fields[i] == Some(cuts[i])
    ensures ok ==> Ascending(cuts, size)
  {
    cuts := [];
    var prev := 0;
    ghost var parsed := seq(|fields|, i requires 0 <= i < |fields| =>
      if fields[i].Some? then fields[i].value else 0);
    for i := 0 to |fields|
      invariant |cuts| == i && i < MAX_RANGES
      invariant forall j :: 0 <= j < i ==> fields[j] == Some(cuts[j])
      invariant Ascending(cuts, size)
      invariant prev == if i == 0 then 0 else cuts[i - 1]
    {
      var n := fields[i];
      if n.None? || n.value <= prev || n.value >= size || |cuts| >= MAX_RANGES - 1 {
        assert n.Some? ==> parsed[i] == n.value;
        assert i > 0 ==> parsed[i - 1] == cuts[i - 1];
        return false, [];
      }
      cuts := cuts + [n.value];
      prev := n.value;
    }
    assert forall i :: 0 <= i < |fields| ==> parsed[i] == cuts[i];
    ok := |cuts| > 0;
  }

  /** Where the range ending at cut i starts. */
  function Before(cuts: seq<int>, i: nat): int
    requires i <= |cuts|
  {
    if i == 0 then 0 else cuts[i - 1]
  }

  /** Cuts far enough apart: every range they make, first and last included, is at least floor. */
  ghost predicate Spaced(cuts: seq<int>, size: int, floor: int) {
    && (forall i :: 0 <= i < |cuts| ==> Before(cuts, i) + floor <= cuts[i])
    && (cuts != [] ==> Before(cuts, |cuts|) + floor <= size)
  }

  /** A declared cut is given up only for being too near a kept one, the start or the end. */
  ghost predicate TooNear(c: int, kept: seq<int>, size: int, floor: int) {
    size - c < floor || c < floor || exists p :: p in kept && p < c < p + floor
  }

  /** `kept` is what merging makes of the declared cuts: some of them, spaced, none given up
      without a reason. */
  ghost predicate Merged(cuts: seq<int>, kept: seq<int>, size: int, floor: int) {
    && (forall c :: c in kept ==> c in cuts)
    && Spaced(kept, size, floor)
    && (forall c :: c in cuts && c !in kept ==> TooNear(c, kept, size, floor))
  }

  lemma MergedStep(cuts: seq<int>, kept: seq<int>, c: int, size: int, floor: int)
    requires 0 < floor && Merged(cuts, kept, size, floor)
    requires forall b :: b in cuts ==> b < c
    requires kept != [] ==> kept[|kept| - 1] < c
    requires 0 < c
    ensures if c - Before(kept, |kept|) < floor || size - c < floor then Merged(cuts + [c], kept, size, floor)
            else Merged(cuts + [c], kept + [c], size, floor)
  {
    if c - Before(kept, |kept|) < floor || size - c < floor {
      assert c !in kept;
      assert kept != [] ==> kept[|kept| - 1] in kept;
      assert TooNear(c, kept, size, floor);
    } else {
      var next := kept + [c];
      assert forall i :: 0 <= i <= |kept| ==> Before(next, i) == Before(kept, i);
      forall b | b in cuts + [c] && b !in next ensures TooNear(b, next, size, floor) {
        assert TooNear(b, kept, size, floor);
        assert forall p :: p in kept ==> p in next;
      }
    }
  }

  method Coarsened(size: int, cuts: seq<int>) returns (kept: seq<int>)
    requires Ascending(cuts, size)
    ensures Merged(cuts, kept, size, Floor(size))
    ensures |kept| < 512
  {
    var floor := RangeFloor(size);
    var k := FloorIsLeast(size, MIN_RANGE_SIZE);
    kept := [];
    var prev := 0;
    for i := 0 to |cuts|
      invariant Merged(cuts[..i], kept, size, floor)
      invariant prev == Before(kept, |kept|)
    {
      var c := cuts[i];
      assert cuts[..i + 1] == cuts[..i] + [c];
      assert kept != [] ==> kept[|kept| - 1] in kept;
      MergedStep(cuts[..i], kept, c, size, floor);
      if !(c - prev < floor || size - c < floor) {
        kept := kept + [c];
        prev := c;
      }
    }
    assert cuts[..|cuts|] == cuts;
    AtMost512(size, kept);
  }

  lemma {:induction false} SpacedReach(cuts: seq<int>, size: int, floor: int, n: nat)
    requires Spaced(cuts, size, floor) && n <= |cuts|
    ensures Mark(floor, n) <= Before(cuts, n)
  {
    if n > 0 { SpacedReach(cuts, size, floor, n - 1); }
  }

  /** Spaced cuts make at most 512 ranges. */
  lemma AtMost512(size: int, cuts: seq<int>)
    requires Spaced(cuts, size, Floor(size))
    ensures |cuts| < 512
  {
    var k := FloorIsLeast(size, MIN_RANGE_SIZE);
    var floor := Floor(size);
    if cuts != [] {
      SpacedReach(cuts, size, floor, |cuts|);
      assert Mark(floor, |cuts| + 1) <= size;
      FitsExactly(size, floor, MAX_RANGES + 1);
      MarkIsProduct(floor, MAX_RANGES + 1);
      if |cuts| >= MAX_RANGES + 1 { MarksAscend(floor, MAX_RANGES + 1, |cuts| + 1); }
    }
  }

  /** Consecutive non-empty ranges running from a to b. */
  predicate Tiles(rs: seq<Range>, a: int, b: int) {
    if rs == [] then a == b
    else rs[0].start == a < rs[0].end && Tiles(rs[1..], rs[0].end, b)
  }

  lemma {:induction false} TilesSnoc(rs: seq<Range>, a: int, b: int, c: int)
    requires Tiles(rs, a, b) && b < c
    ensures Tiles(rs + [Range(b, c)], a, c)
  {
    if rs != [] {
      TilesSnoc(rs[1..], rs[0].end, b, c);
      assert (rs + [Range(b, c)])[1..] == rs[1..] + [Range(b, c)];
    }
  }

  lemma {:induction false} TilesCover(rs: seq<Range>, a: int, b: int)
    requires Tiles(rs, a, b)
    ensures a <= b
    ensures forall x :: Covers(rs, x) <==> a <= x < b
  {
    if rs != [] { TilesCover(rs[1..], rs[0].end, b); }
  }

  /** No range has a cut strictly inside it, and every boundary is a cut or an end of the gap. */
  ghost predicate CutExactly(rs: seq<Range>, cuts: seq<int>, g: Range) {
    && (forall r, c :: r in rs && c in cuts ==> !(r.start < c < r.end))
    && (forall r :: r in rs ==> (r.start == g.start || r.start in cuts) && (r.end == g.end || r.end in cuts))
  }

  /** The piece up to the next boundary added to a gap cut as far as `at`. */
  lemma PieceFits(rs: seq<Range>, cuts: seq<int>, g: Range, at: int, c: int)
    requires Tiles(rs, g.start, at) && CutExactly(rs, cuts, g) && at < c && NoneBetween(cuts, at, c)
    requires at == g.start || at in cuts
    requires c == g.end || c in cuts
    ensures Tiles(rs + [Range(at, c)], g.start, c) && CutExactly(rs + [Range(at, c)], cuts, g)
  {
    TilesSnoc(rs, g.start, at, c);
    hide Tiles;
    forall r | r in rs + [Range(at, c)] ensures r in rs || r == Range(at, c) {
    }
  }

  method RangesOf(size: int, cuts: seq<int>, g: Range) returns (rs: seq<Range>)
    requires Ascending(cuts, size)
    ensures g.start < g.end ==> Tiles(rs, g.start, g.end) && CutExactly(rs, cuts, g)
    ensures g.start >= g.end ==> rs == []
  {
    rs := [];
    var at := g.start;
    var k := 0;
    assert Tiles(rs, g.start, at) && CutExactly(rs, cuts, g);
    hide Tiles, CutExactly;
    while k < |cuts|
      invariant 0 <= k <= |cuts|
      invariant g.start >= g.end ==> rs == [] && at == g.start
      invariant Tiles(rs, g.start, at) && CutExactly(rs, cuts, g)
      invariant at == g.start || (at in cuts && at < g.end)
      invariant forall j :: 0 <= j < k ==> cuts[j] <= at
      decreases |cuts| - k
    {
      var c := cuts[k];
      if c > at {
        if c >= g.end { break; }
        assert NoneBetween(cuts, at, c);
        PieceFits(rs, cuts, g, at, c);
        rs := rs + [Range(at, c)];
        at := c;
      }
      k := k + 1;
    }
    if at < g.end {
      assert NoneBetween(cuts, at, g.end);
      PieceFits(rs, cuts, g, at, g.end);
      rs := rs + [Range(at, g.end)];
    }
  }

  ghost predicate NoneBetween(cuts: seq<int>, a: int, b: int) { forall c :: c in cuts ==> !(a < c < b) }

  /** Cuts of a whole artifact at spaced places: no range below the floor, at most 512 of them. */
  lemma {:induction false} WholePlanBound(size: int, cuts: seq<int>, rs: seq<Range>)
    requires 0 < size && Ascending(cuts, size) && Spaced(cuts, size, Floor(size)) && cuts != []
    requires Tiles(rs, 0, size) && CutExactly(rs, cuts, Range(0, size))
    ensures forall r :: r in rs ==> r.end - r.start >= Floor(size)
    ensures |rs| <= 512
  {
    var floor := Floor(size);
    var k := FloorIsLeast(size, MIN_RANGE_SIZE);
    forall r | r in rs ensures r.end - r.start >= floor {
      TilesInside(rs, 0, size, r);
      RangeAtLeast(size, cuts, r, floor);
    }
    TilesReach(rs, 0, size, floor);
    FitsExactly(size, floor, MAX_RANGES + 1);
    MarkIsProduct(floor, MAX_RANGES + 1);
    if |rs| > MAX_RANGES + 1 { MarksAscend(floor, MAX_RANGES + 1, |rs|); }
  }

  lemma RangeAtLeast(size: int, cuts: seq<int>, r: Range, floor: int)
    requires Ascending(cuts, size) && Spaced(cuts, size, floor) && cuts != []
    requires 0 <= r.start < r.end <= size
    requires NoneBetween(cuts, r.start, r.end)
    requires r.start == 0 || r.start in cuts
    requires r.end == size || r.end in cuts
    ensures r.end - r.start >= floor
  {
    var j := if r.end in cuts then IndexOf(cuts, r.end) else |cuts|;
    BeforeIsStart(size, cuts, r, j);
    assert j < |cuts| ==> Before(cuts, j) + floor <= cuts[j];
  }

  ghost function IndexOf(cuts: seq<int>, c: int): (j: nat)
    requires c in cuts
    ensures j < |cuts| && cuts[j] == c
  {
    var j :| 0 <= j < |cuts| && cuts[j] == c;
    j
  }

  /** A range free of cuts that ends at cut j, or past all of them, starts at the cut before. */
  lemma BeforeIsStart(size: int, cuts: seq<int>, r: Range, j: nat)
    requires Ascending(cuts, size) && j <= |cuts|
    requires r.end == if j < |cuts| then cuts[j] else size
    requires 0 <= r.start < r.end && NoneBetween(cuts, r.start, r.end)
    requires r.start == 0 || r.start in cuts
    ensures r.start == Before(cuts, j)
  {
    if j > 0 { assert cuts[j - 1] in cuts; }
    if r.start in cuts { var h := IndexOf(cuts, r.start); }
  }

  lemma {:induction false} TilesInside(rs: seq<Range>, a: int, b: int, r: Range)
    requires Tiles(rs, a, b) && r in rs
    ensures a <= r.start < r.end <= b
  {
    TilesCover(rs[1..], rs[0].end, b);
    if r != rs[0] { TilesInside(rs[1..], rs[0].end, b, r); }
  }

  lemma {:induction false} TilesReach(rs: seq<Range>, a: int, b: int, floor: int)
    requires Tiles(rs, a, b) && forall r :: r in rs ==> r.end - r.start >= floor
    ensures a + Mark(floor, |rs|) <= b
  {
    if rs != [] {
      TilesReach(rs[1..], rs[0].end, b, floor);
    }
  }

  /** What is left to fetch: a set this layer cannot make sense of is read as nothing proven. */
  method Gaps(size: int, have: seq<Range>) returns (out: seq<Range>)
    ensures Canonical(out)
    ensures forall x :: Covers(out, x) <==>
      0 <= x < size && !(CanonicalRanges(have).Some? && Covers(have, x))
  {
    var proven := CanonicalRanges(have);
    out := Missing(if proven.Some? then proven.value else [], 0, size);
  }
}
