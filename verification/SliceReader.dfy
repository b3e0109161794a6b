/** Reading bounded pieces of a remote artifact (go/slice.go: Slice, sliceAt, Prefix, bufferAt). The
    source answers a range with the artifact's own bytes or not at all; `up` says which.

    Requests and bytes moved are counted, as the source counts them. */
module SliceReader {
  import opened Numbers
  import opened Options

  const MIN_WINDOW: int := 0x1_0000
  const MAX_WINDOW: int := 0x40_0000

  datatype Span = Span(start: int, end: int)

  class Slice {
    const artifact: string
    var sized: bool
    var fetched: nat
    var requests: nat
    var read: seq<Span>

    constructor (artifact: string)
      requires artifact != ""
      ensures this.artifact == artifact && !sized && fetched == 0 && requests == 0 && read == []
    {
      this.artifact := artifact;
      sized := false;
      fetched := 0;
      requests := 0;
      read := [];
    }

    /** The length, asked for once: one request and one byte. */
    method Size(up: bool) returns (r: Option<int>)
      modifies this
      ensures r == if old(sized) || up then Some(|artifact|) else None
      ensures sized == (old(sized) || up) && read == old(read)
      ensures requests == old(requests) + (if old(sized) then 0 else 1)
      ensures fetched == old(fetched) + (if old(sized) then 0 else 1)
    {
      if sized { return Some(|artifact|); }
      requests := requests + 1;
      fetched := fetched + 1;
      if !up { return None; }
      sized := true;
      return Some(|artifact|);
    }

    method Read(start: int, end: int, up: bool) returns (r: Option<string>)
      requires end <= |artifact|
      modifies this
      ensures sized == old(sized)
      ensures r.Some? <==> 0 <= start < end && up
      ensures r.Some? ==> r.value == artifact[start..end] && requests == old(requests) + 1
      ensures r.Some? ==> fetched == old(fetched) + (end - start) && read == old(read) + [Span(start, end)]
      ensures r.None? ==> requests == old(requests) && fetched == old(fetched) && read == old(read)
    {
      if start < 0 || end <= start { return None; }
      if !up { return None; }
      requests := requests + 1;
      fetched := fetched + (end - start);
      read := read + [Span(start, end)];
      return Some(artifact[start..end]);
    }
  }

  /** A window of the artifact being filled at absolute offsets. */
  method WriteAt(buf: array<char>, base: int, p: string, off: int) returns (ok: bool)
    modifies buf
    ensures ok <==> 0 <= off - base && off - base + |p| <= buf.Length
    ensures !ok ==> buf[..] == old(buf[..])
    ensures ok ==> buf[..] == old(buf[..off - base]) + p + old(buf[off - base + |p|..])
  {
    var at := off - base;
    if at < 0 || at + |p| > buf.Length { return false; }
    for i := 0 to |p|
      invariant forall k :: 0 <= k < buf.Length ==> buf[k] == if at <= k < at + i then p[k - at] else old(buf[k])
    {
      buf[at + i] := p[i];
    }
    return true;
  }

  /** The front of an artifact, grown as a parser finds it needs more. */
  class Prefix {
    const s: Slice
    var buf: string

    ghost predicate Valid()
      reads this, s
    {
      buf <= s.artifact
    }

    constructor (s: Slice)
      ensures Valid() && this.s == s && buf == ""
    {
      this.s := s;
      buf := "";
    }

    /** The first n bytes, or all there are; only those not already held are fetched. */
    method Grow(n: nat, up: bool) returns (r: Option<string>)
      requires Valid()
      modifies this, s
      ensures Valid()
      ensures r.Some? ==> |r.value| == Min(n, |s.artifact|) && r.value <= s.artifact
      ensures r.Some? ==> |buf| == Max(|old(buf)|, Min(n, |s.artifact|))
      ensures r.None? ==> buf == old(buf)
      ensures r.None? <==> !up && (!old(s.sized) || Min(n, |s.artifact|) > |old(buf)|)
      ensures s.fetched == old(s.fetched) + (|buf| - |old(buf)|) + (if old(s.sized) then 0 else 1)
      ensures s.sized == (old(s.sized) || up)
    {
      var size := s.Size(up);
      if size.None? { return None; }
      var want := Min(n, size.value);
      var have := |buf|;
      if want <= have { return Some(buf[..want]); }
      var more := s.Read(have, want, up);
      if more.None? { return None; }
      buf := buf + more.value;
      assert buf == s.artifact[..want];
      return Some(buf);
    }
  }

  datatype ReadEnd = Whole | AtEnd | Broken

  /** The read-ahead window: its bytes, where they start, where the last one ended and how wide it
      was. */
  class SliceAt {
    const s: Slice
    var buf: Option<string>
    var base: int
    var next: int
    var win: int

    ghost predicate Valid()
      reads this, s
    {
      && (win == 0 || MIN_WINDOW <= win <= MAX_WINDOW) && (buf.None? ==> next == 0)
      && (buf.Some? ==>
           && 0 <= base && base + |buf.value| == next <= |s.artifact| && win > 0
           && buf.value == s.artifact[base..next])
    }

    constructor (s: Slice)
      ensures Valid() && this.s == s && buf == None && next == 0 && win == 0
    {
      this.s := s;
      buf := None;
      base := 0;
      next := 0;
      win := 0;
    }

    predicate Holds(off: int, end: int)
      reads this
    {
      buf.Some? && base <= off && end <= base + |buf.value|
    }

    /** How wide the next window is: twice the last while reads go on where it stopped. */
    function NextWindow(off: int): int
      reads this
    {
      if off == next && win > 0 then Min(win * 2, MAX_WINDOW) else MIN_WINDOW
    }

    method Fill(off: int, end: int, up: bool) returns (ok: bool)
      requires Valid() && 0 <= off <= end <= |s.artifact| && off < |s.artifact|
      modifies this, s
      ensures Valid() && s.sized == old(s.sized)
      ensures ok <==> old(Holds(off, end)) || up
      ensures old(Holds(off, end)) ==>
        s.requests == old(s.requests) && buf == old(buf) && base == old(base) && next == old(next) && win == old(win)
      ensures ok && !old(Holds(off, end)) ==>
        && s.requests == old(s.requests) + 1
        && win == (if off == old(next) && old(win) > 0 then Min(old(win) * 2, 4194304) else 65536)
        && base == off && next == Min(off + Max(end - off, win), |s.artifact|)
      ensures ok ==> Holds(off, end)
    {
      if buf.Some? && base <= off && end <= base + |buf.value| { return true; }
      if off == next && win > 0 { win := Min(win * 2, MAX_WINDOW); } else { win := MIN_WINDOW; }
      var stop := Min(off + Max(end - off, win), |s.artifact|);
      var more := s.Read(off, stop, up);
      if more.None? { return false; }
      buf, base, next := more, off, stop;
      return true;
    }

    /** Any read: the artifact's own bytes at that offset, as many as there are. */
    method ReadAt(n: nat, off: int, up: bool) returns (data: string, r: ReadEnd)
      requires Valid()
      modifies this, s
      ensures Valid()
      ensures !r.Broken? ==> data == if 0 <= off < |s.artifact| then s.artifact[off..Min(off + n, |s.artifact|)] else ""
      ensures !r.Broken? ==> (r.AtEnd? <==> off < 0 || off >= |s.artifact| || off + n > |s.artifact|)
      ensures r.Broken? ==> data == ""
      ensures r.Broken? <==>
        !up && (!old(s.sized) || (0 <= off < |s.artifact| && !old(Holds(off, Min(off + n, |s.artifact|)))))
      ensures up ==> s.sized
      ensures up && 0 <= off < |s.artifact| ==>
        var end := Min(off + n, |s.artifact|); var probe := if old(s.sized) then 0 else 1;
        if old(Holds(off, end)) then
          s.requests == old(s.requests) + probe && base == old(base) && next == old(next) && win == old(win)
        else
          && s.requests == old(s.requests) + probe + 1 && win == old(NextWindow(off))
          && base == off && next == Min(off + Max(end - off, win), |s.artifact|)
      ensures up && 0 <= off < |s.artifact| ==> Holds(off, Min(off + n, |s.artifact|))
    {
      var size := s.Size(up);
      if size.None? { return "", Broken; }
      if off >= size.value || off < 0 { return "", AtEnd; }
      var end, short := off + n, false;
      if end > size.value { end, short := size.value, true; }
      var ok := Fill(off, end, up);
      if !ok { return "", Broken; }
      data := buf.value[off - base..end - base];
      Within(s.artifact, base, next, off, end);
      return data, if short then AtEnd else Whole;
    }
  }

  lemma Within(whole: string, base: int, next: int, off: int, end: int)
    requires 0 <= base <= off <= end <= next <= |whole|
    ensures whole[base..next][off - base..end - base] == whole[off..end]
  {
    var window := whole[base..next];
    assert forall i :: off <= i < end ==> window[i - base] == whole[i];
  }

  // ---- What a pass from one end to the other costs ---------------------------------------------------

  /** The width of the k-th window of an unbroken run of reads. */
  function Window(k: nat): int { if k <= 1 then MIN_WINDOW else Min(2 * Window(k - 1), MAX_WINDOW) }

  /** What k windows cover. */
  function Covered(k: nat): int { if k == 0 then 0 else Covered(k - 1) + Window(k) }

  lemma {:induction false} WindowsSettle(k: nat)
    requires k >= 7
    ensures Window(k) == MAX_WINDOW && Covered(k) == 63 * MIN_WINDOW + (k - 6) * MAX_WINDOW
    decreases k
  {
    if k == 7 {
      assert Window(2) == 2 * MIN_WINDOW && Window(3) == 4 * MIN_WINDOW && Window(4) == 8 * MIN_WINDOW;
      assert Window(5) == 16 * MIN_WINDOW && Window(6) == 32 * MIN_WINDOW;
      assert Covered(1) == MIN_WINDOW && Covered(2) == 3 * MIN_WINDOW && Covered(3) == 7 * MIN_WINDOW;
      assert Covered(4) == 15 * MIN_WINDOW && Covered(5) == 31 * MIN_WINDOW && Covered(6) == 63 * MIN_WINDOW;
    } else {
      WindowsSettle(k - 1);
    }
  }

  function CeilDiv(n: int, d: int): int
    requires d > 0
  {
    (n + d - 1) / d
  }

  /** If the first k-1 windows do not reach the end, k is small. */
  lemma WindowsNeeded(k: nat, size: int)
    requires 0 < size && (k > 0 ==> Covered(k - 1) < size)
    ensures k <= 6 + CeilDiv(size, MAX_WINDOW)
  {
    if k > 7 {
      WindowsSettle(k - 1);
      assert (k - 7) * MAX_WINDOW < size;
      CeilAbove(size, k - 7);
    } else {
      CeilAbove(size, 0);
    }
  }

  lemma CeilAbove(size: int, m: nat)
    requires m * MAX_WINDOW < size
    ensures m < CeilDiv(size, MAX_WINDOW)
  {
  }

  lemma {:induction false} WindowsWide(k: nat)
    ensures MIN_WINDOW <= Window(k) <= MAX_WINDOW && Window(k) % MIN_WINDOW == 0 && Covered(k) % MIN_WINDOW == 0
    ensures 0 <= Covered(k)
    decreases k
  {
    if k > 0 { WindowsWide(k - 1); }
  }

  /** A multiple of a multiple is a multiple. */
  lemma MultipleOf(n: int, step: int, chunk: int)
    requires 0 < chunk && 0 < step && 0 <= n && step % chunk == 0 && n % step == 0
    ensures n % chunk == 0
  {
    var a, b := n / step, step / chunk;
    assert n == step * a && step == chunk * b;
    assert n == chunk * (b * a);
    Divides(chunk, b * a);
  }

  lemma Divides(c: int, m: int)
    requires 0 < c
    ensures (c * m) % c == 0
  {
    assert (c * m + 0) % c == 0 by { Remainder(c, m, 0); }
  }

  lemma Remainder(c: int, m: int, r: int)
    requires 0 <= r < c
    ensures (c * m + r) / c == m && (c * m + r) % c == r
  {
    var n := c * m + r;
    assert n == c * (n / c) + n % c;
    assert c * (n / c - m) == r - n % c;
    FactorGrows(c, n / c - m);
  }

  lemma FactorGrows(c: int, d: int)
    requires 0 < c
    ensures (d >= 1 ==> c * d >= c) && (d <= -1 ==> c * d <= -c)
  {
  }

  lemma SameMultiple(x: int, y: int, c: int)
    requires 0 < c && x % c == 0 && y % c == 0 && x <= y < x + c
    ensures x == y
  {
    var a, b := x / c, y / c;
    WholeMultiple(x, c);
    WholeMultiple(y, c);
    Spread(c, a, b);
    FactorGrows(c, b - a);
  }

  lemma WholeMultiple(x: int, c: int)
    requires 0 < c && x % c == 0
    ensures x == c * (x / c)
  {
  }

  lemma Spread(c: int, a: int, b: int)
    ensures c * b - c * a == c * (b - a)
  {
  }

  lemma NextMultiple(x: int, c: int)
    requires 0 < c && x % c == 0
    ensures (x + c) % c == 0
  {
    assert x == c * (x / c);
    assert x + c == c * (x / c + 1);
    Divides(c, x / c + 1);
  }

  lemma WindowAfter(k: nat)
    ensures Covered(0) == 0 && Window(1) == MIN_WINDOW && Covered(k + 1) == Covered(k) + Window(k + 1)
    ensures k > 0 ==> Window(k + 1) == Min(2 * Window(k), MAX_WINDOW)
  {
  }

  lemma ChunkFits(chunk: nat)
    requires 0 < chunk && MIN_WINDOW % chunk == 0
    ensures chunk <= MIN_WINDOW
  {
  }

  /** A read that runs past the window starts where the window ended. */
  lemma NextIsHere(off: nat, chunk: nat, next: int, k: nat, size: int)
    requires 0 < chunk && MIN_WINDOW % chunk == 0 && off % chunk == 0 && off <= next && off < size
    requires next == Min(Covered(k), size) && Min(off + chunk, size) > next
    ensures off == next == Covered(k)
  {
    WindowsWide(k);
    MultipleOf(Covered(k), MIN_WINDOW, chunk);
    SameMultiple(off, next, chunk);
  }

  predicate On(off: int, chunk: nat)
    requires 0 < chunk
  {
    off % chunk == 0
  }

  /** Where a pass is after k windows: at a chunk's edge, inside the last window, with one request for
      each window and one for the length. */
  ghost predicate Passing(a: SliceAt, off: nat, chunk: nat, k: nat)
    requires 0 < chunk
    reads a, a.s
  {
    && a.Valid() && off <= |a.s.artifact| && (off < |a.s.artifact| ==> On(off, chunk))
    && (k == 0 ==> off == 0 && a.s.requests == 0 && !a.s.sized && a.buf == None && a.win == 0)
    && (k > 0 ==>
         && a.s.sized && a.s.requests == k + 1 && a.buf.Some? && a.win == Window(k) && a.base <= off <= a.next
         && a.next == Min(Covered(k), |a.s.artifact|) && Covered(k - 1) < |a.s.artifact|)
  }

  method PassStep(a: SliceAt, off: nat, chunk: nat, ghost k: nat) returns (data: string, ghost j: nat)
    requires 0 < chunk && MIN_WINDOW % chunk == 0 && Passing(a, off, chunk, k) && off < |a.s.artifact|
    modifies a, a.s
    ensures data == a.s.artifact[off..Min(off + chunk, |a.s.artifact|)]
    ensures Passing(a, off + |data|, chunk, j)
  {
    ghost var end := Min(off + chunk, |a.s.artifact|);
    ghost var held := a.Holds(off, end);
    NextMultiple(off, chunk);
    ChunkFits(chunk);
    WindowsWide(k + 1);
    WindowAfter(k);
    if !held && k > 0 { NextIsHere(off, chunk, a.next, k, |a.s.artifact|); }
    hide Window, Covered;
    var r;
    data, r := a.ReadAt(chunk, off, true);
    j := if held then k else k + 1;
  }

  /** Reading an artifact from one end to the other in chunks that divide the smallest window: the
      bytes are the artifact's, and the requests are the length probe and one for each window. */
  method ReadThrough(s: Slice, chunk: nat) returns (all: string)
    requires s.artifact != "" && s.requests == 0 && !s.sized && 0 < chunk && 65536 % chunk == 0
    modifies s
    ensures all == s.artifact
    ensures s.requests <= 7 + (|s.artifact| + 4194303) / 4194304
  {
    var a := new SliceAt(s);
    all := "";
    ghost var k: nat := 0;
    while |all| < |s.artifact|
      invariant a.s == s && fresh(a) && all <= s.artifact && Passing(a, |all|, chunk, k)
    {
      var data;
      data, k := PassStep(a, |all|, chunk, k);
      all := all + data;
    }
    WindowsNeeded(k, |s.artifact|);
  }
}
