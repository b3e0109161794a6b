/** One planned range written into the middle of a file (go/fetchers.go: copyRange, rangeWriter;
    go/parallel.go: fetchRange). The writer cannot leave its range whatever the server sends, and a
    source that fails part way leaves only the rest of the range to the next one. */
module RangeCopy {
  import opened Numbers
  import opened Ranges

  /** What a reader yields: chunks, and then the end of the body or a broken connection. */
  datatype Body<T> = Body(chunks: seq<seq<T>>, broken: bool)

  datatype Copied = Complete | Short | Overrun | Broken

  function Flatten<T>(chunks: seq<seq<T>>): seq<T> {
    if chunks == [] then [] else chunks[0] + Flatten(chunks[1..])
  }

  lemma {:induction false} FlattenSnoc<T>(chunks: seq<seq<T>>, i: nat)
    requires i < |chunks|
    ensures Flatten(chunks[..i + 1]) == Flatten(chunks[..i]) + chunks[i]
    ensures Flatten(chunks) == Flatten(chunks[..i]) + Flatten(chunks[i..])
    ensures Flatten(chunks[i..]) == chunks[i] + Flatten(chunks[i + 1..])
  {
    assert chunks[i..][1..] == chunks[i + 1..];
    if i == 0 {
      assert chunks[..1] == [chunks[0]];
      assert Flatten([chunks[0]]) == chunks[0] + Flatten([]);
    } else {
      FlattenSnoc(chunks[1..], i - 1);
      assert chunks[1..][..i] == chunks[..i + 1][1..];
      assert chunks[1..][..i - 1] == chunks[..i][1..];
      assert chunks[1..][i - 1..] == chunks[i..];
      assert chunks[1..][i..] == chunks[i + 1..];
    }
  }

  /** `data` laid over `file` at an offset. */
  function Patched<T>(file: seq<T>, at: int, data: seq<T>): (out: seq<T>)
    requires 0 <= at && at + |data| <= |file|
  {
    file[..at] + data + file[at + |data|..]
  }

  class RangeWriter<T> {
    const out: array<T>
    const end: int
    var at: int
    var landed: int

    ghost predicate Valid() reads this { 0 <= at <= end <= out.Length }

    constructor (out: array<T>, range: Range)
      requires 0 <= range.start <= range.end <= out.Length
      ensures Valid() && this.out == out && end == range.end && at == range.start && landed == range.start
    {
      this.out := out;
      this.end := range.end;
      at := range.start;
      landed := range.start;
    }

    /** Writes all of p at the current offset, or what the disk accepts of it, or, when p reaches
        past the end of the range, nothing at all. */
    method Write(p: seq<T>, accepts: nat) returns (n: nat, ok: bool)
      requires Valid()
      modifies this`at, this`landed, out
      ensures Valid() && at == old(at) + n
      ensures n <= |p| && (ok <==> n == |p| && old(at) + |p| <= end)
      ensures old(at) + |p| > end ==> n == 0
      ensures old(at) + |p| <= end ==> n == Min(accepts, |p|)
      ensures out[..] == Patched(old(out[..]), old(at), p[..n])
      ensures landed == if n > 0 then at else old(landed)
    {
      var base := at;
      if base + |p| > end {
        assert Patched(out[..], base, p[..0]) == out[..];
        return 0, false;
      }
      n := Min(accepts, |p|);
      for i := 0 to n
        invariant at == base && landed == old(landed)
        invariant forall j :: 0 <= j < out.Length ==>
          out[j] == if base <= j < base + i then p[j - base] else old(out[j])
      {
        out[base + i] := p[i];
      }
      at := base + n;
      if n > 0 { landed := at; }
      ok := n == |p|;
      assert out[..] == Patched(old(out[..]), base, p[..n]);
    }
  }

  /** Bytes arriving in order at one offset. */
  lemma PatchedTwice<T>(file: seq<T>, at: int, a: seq<T>, b: seq<T>)
    requires 0 <= at && at + |a| + |b| <= |file|
    ensures Patched(Patched(file, at, a), at + |a|, b) == Patched(file, at, a + b)
  {
  }

  /** m bytes of the next chunk taken off what is left of a body, and laid down after the rest. */
  lemma Advanced<T>(before: seq<T>, start: nat, whole: seq<T>, n: nat, chunk: seq<T>, later: seq<T>, m: nat)
    requires n <= |whole| && whole == whole[..n] + [] + (chunk + later) && m <= |chunk|
    requires start + n + m <= |before|
    ensures n + m <= |whole| && whole == whole[..n + m] + chunk[m..] + later
    ensures Patched(Patched(before, start, whole[..n]), start + n, chunk[..m]) == Patched(before, start, whole[..n + m])
  {
    assert whole == whole[..n] + chunk[..m] + chunk[m..] + later;
    assert whole[..n + m] == whole[..n] + chunk[..m];
    PatchedTwice(before, start, whole[..n], chunk[..m]);
  }

  /** A reader never yields an empty chunk. */
  ghost predicate Reads<T>(body: Body<T>) { forall i :: 0 <= i < |body.chunks| ==> body.chunks[i] != [] }

  /** What is down so far: the first n bytes of the body, and the rest of it still to come. */
  ghost predicate SoFar<T>(file: seq<T>, before: seq<T>, start: int, whole: seq<T>, n: nat, rest: seq<T>) {
    && 0 <= start && n <= |whole| && start + n <= |before|
    && whole == whole[..n] + rest && file == Patched(before, start, whole[..n])
  }

  method CopyChunk<T>(w: RangeWriter<T>, chunk: seq<T>, taken: nat, accepts: nat,
                      ghost before: seq<T>, ghost start: int, ghost whole: seq<T>, ghost n: nat, ghost later: seq<T>)
    returns (m: nat, ok: bool)
    requires w.Valid() && w.at == start + n && w.at + taken <= w.end && taken <= |chunk|
    requires SoFar(w.out[..], before, start, whole, n, chunk + later)
    modifies w`at, w`landed, w.out
    ensures w.Valid() && w.at == start + n + m && m == Min(accepts, taken) && (ok <==> m == taken)
    ensures SoFar(w.out[..], before, start, whole, n + m, chunk[m..] + later)
  {
    m, ok := w.Write(chunk[..taken], accepts);
    assert chunk[..taken][..m] == chunk[..m];
    Advanced(before, start, whole, n, chunk, later, m);
  }

  /** How much of a body lands when at most `want` bytes may and the disk takes no more than
      `accepts` of any one chunk. */
  function Taken<T>(chunks: seq<seq<T>>, want: nat, accepts: nat): (n: nat)
    ensures n <= want && n <= |Flatten(chunks)|
  {
    if chunks == [] || want == 0 then 0
    else
      var k := Min(|chunks[0]|, want);
      if accepts < k then accepts else k + Taken(chunks[1..], want - k, accepts)
  }

  ghost predicate Fits<T>(chunks: seq<seq<T>>, accepts: nat) { forall i :: 0 <= i < |chunks| ==> |chunks[i]| <= accepts }

  /** A body of the right length is taken whole exactly when the disk takes each of its chunks. */
  lemma {:induction false} AllTaken<T>(chunks: seq<seq<T>>, accepts: nat)
    ensures Taken(chunks, |Flatten(chunks)|, accepts) == |Flatten(chunks)| <==> Fits(chunks, accepts)
  {
    if chunks != [] {
      var rest := chunks[1..];
      AllTaken(rest, accepts);
      assert forall i :: 0 < i < |chunks| ==> chunks[i] == rest[i - 1];
      assert Fits(chunks, accepts) <==> |chunks[0]| <= accepts && Fits(rest, accepts);
      if Flatten(rest) == [] && |chunks[0]| <= accepts { NothingFits(rest, accepts); }
    }
  }

  lemma {:induction false} NothingFits<T>(chunks: seq<seq<T>>, accepts: nat)
    requires Flatten(chunks) == []
    ensures Fits(chunks, accepts) && Taken(chunks, 0, accepts) == 0
  {
    if chunks != [] { NothingFits(chunks[1..], accepts); }
  }

  /** A disk that takes every chunk takes all of the body there is room for. */
  lemma {:induction false} RoomTaken<T>(chunks: seq<seq<T>>, want: nat, accepts: nat)
    requires Fits(chunks, accepts)
    ensures Taken(chunks, want, accepts) == Min(want, |Flatten(chunks)|)
  {
    if chunks != [] && want > 0 {
      assert forall i :: 0 < i < |chunks| ==> chunks[i] == chunks[1..][i - 1];
      RoomTaken(chunks[1..], want - Min(|chunks[0]|, want), accepts);
    }
  }

  /** The body copied into the range, no further than the range's end; anything past it is seen and
      refused, and anything missing is seen and refused. */
  method CopyRange<T>(out: array<T>, range: Range, body: Body<T>, accepts: nat) returns (r: Copied, landed: int)
    requires 0 <= range.start <= range.end <= out.Length && Reads(body)
    modifies out
    ensures landed == range.start + Taken(body.chunks, range.end - range.start, accepts)
    ensures out[..] == Patched(old(out[..]), range.start, Flatten(body.chunks)[..landed - range.start])
    ensures r.Complete? <==> landed == range.end && |Flatten(body.chunks)| == range.end - range.start
    ensures r.Overrun? <==> landed == range.end && |Flatten(body.chunks)| > range.end - range.start
    ensures r.Short? <==> landed < range.end && landed - range.start == |Flatten(body.chunks)| && !body.broken
  {
    hide Flatten, Patched, Taken;
    var w := new RangeWriter<T>(out, range);
    var want := range.end - range.start;
    ghost var whole, before := Flatten(body.chunks), out[..];
    var i, n := 0, 0;
    var rest: seq<T> := [];
    Unstarted(before, range.start, body.chunks);
    while i < |body.chunks| && n < want
      invariant w.Valid() && w.out == out && w.end == range.end && fresh(w)
      invariant 0 <= i <= |body.chunks| && 0 <= n <= want && w.at == range.start + n
      invariant SoFar(out[..], before, range.start, whole, n, rest + Flatten(body.chunks[i..]))
      invariant n < want ==> rest == []
      invariant Taken(body.chunks, want, accepts) == n + Taken(body.chunks[i..], want - n, accepts)
    {
      FlattenSnoc(body.chunks, i);
      TakenNext(body.chunks, i, want - n, accepts);
      var chunk := body.chunks[i];
      ghost var later := Flatten(body.chunks[i + 1..]);
      assert [] + (chunk + later) == chunk + later;
      var m, ok := CopyChunk(w, chunk, Min(|chunk|, want - n), accepts, before, range.start, whole, n, later);
      n := n + m;
      i := i + 1;
      if !ok {
        NotAll(whole, n, chunk[m..] + later);
        return Broken, range.start + n;
      }
      rest := chunk[m..];
    }
    landed := range.start + n;
    TakenEnds(body.chunks[i..], want - n, accepts);
    if n < want {
      assert body.chunks[i..] == [];
      NoneLeft<T>();
      r := if body.broken then Broken else Short;
    } else if rest != [] || i < |body.chunks| {
      if i < |body.chunks| { ChunkLeft(body.chunks, i); }
      r := Overrun;
    } else {
      assert body.chunks[i..] == [];
      NoneLeft<T>();
      r := Complete;
    }
  }

  lemma Unstarted<T>(before: seq<T>, start: nat, chunks: seq<seq<T>>)
    requires start <= |before|
    ensures chunks[0..] == chunks && SoFar(before, before, start, Flatten(chunks), 0, [] + Flatten(chunks[0..]))
  {
    assert chunks[0..] == chunks;
    assert Patched(before, start, []) == before;
  }

  lemma TakenNext<T>(chunks: seq<seq<T>>, i: nat, room: nat, accepts: nat)
    requires i < |chunks| && room > 0
    ensures var k := Min(|chunks[i]|, room);
      Taken(chunks[i..], room, accepts) == if accepts < k then accepts else k + Taken(chunks[i + 1..], room - k, accepts)
  {
    assert chunks[i..][1..] == chunks[i + 1..];
  }

  lemma TakenEnds<T>(chunks: seq<seq<T>>, room: nat, accepts: nat)
    ensures chunks == [] || room == 0 ==> Taken(chunks, room, accepts) == 0
  {
  }

  lemma NoneLeft<T>()
    ensures Flatten<T>([]) == []
  {
  }

  lemma ChunkLeft<T>(chunks: seq<seq<T>>, i: nat)
    requires i < |chunks| && chunks[i] != []
    ensures |Flatten(chunks[i..])| > 0
  {
    FlattenSnoc(chunks, i);
  }

  lemma NotAll<T>(whole: seq<T>, n: nat, rest: seq<T>)
    requires n <= |whole| && whole == whole[..n] + rest && rest != []
    ensures n < |whole|
  {
  }

  /** A source either refuses the request, for good or for now, or answers with a body. */
  datatype Answer<T> = Refused(permanent: bool) | Served(body: Body<T>)

  /** A body that holds the artifact's own bytes from an offset, for as long as it and the range go. */
  ghost predicate Honest<T>(artifact: seq<T>, from: int, end: int, a: Answer<T>) {
    a.Served? && 0 <= from <= end <= |artifact| ==>
      var b := Flatten(a.body.chunks);
      forall k :: 0 <= k < |b| && from + k < end ==> b[k] == artifact[from + k]
  }

  ghost predicate AllHonest<T(!new)>(artifact: seq<T>, end: int, serve: (nat, int) -> Answer<T>) {
    forall i, from :: Honest(artifact, from, end, serve(i, from))
  }

  ghost predicate AllRead<T(!new)>(serve: (nat, int) -> Answer<T>) {
    forall i, from :: serve(i, from).Served? ==> Reads(serve(i, from).body)
  }

  /** Laying honest bytes after honest bytes. */
  lemma PatchIsHonest<T>(artifact: seq<T>, file: seq<T>, start: int, from: int, end: int, a: Answer<T>, k: nat)
    requires 0 <= start <= from <= end <= |file| && end <= |artifact| && a.Served? && Honest(artifact, from, end, a)
    requires k <= |Flatten(a.body.chunks)| && from + k <= end
    requires forall x :: start <= x < from ==> file[x] == artifact[x]
    ensures var f := Patched(file, from, Flatten(a.body.chunks)[..k]);
      && |f| == |file|
      && (forall x :: start <= x < from + k ==> f[x] == artifact[x])
      && (forall x :: 0 <= x < |file| && (x < from || from + k <= x) ==> f[x] == file[x])
  {
  }

  lemma PatchOutside<T>(file: seq<T>, at: int, data: seq<T>)
    requires 0 <= at && at + |data| <= |file|
    ensures |Patched(file, at, data)| == |file|
    ensures forall x :: 0 <= x < |file| && (x < at || at + |data| <= x) ==> Patched(file, at, data)[x] == file[x]
  {
  }

  /** A body of exactly the length asked for, every chunk of which the disk takes. */
  ghost predicate Fills<T>(a: Answer<T>, from: int, end: int, accepts: nat) {
    a.Served? && |Flatten(a.body.chunks)| == end - from && Fits(a.body.chunks, accepts)
  }

  /** Where the next source is asked from, and how far bytes have landed. */
  datatype Asking = Asking(from: int, reached: int)

  /** What the sources before this one leave: it is asked from where they got to, as long as that
      is inside the range. */
  ghost function Ask<T>(range: Range, serve: (nat, int) -> Answer<T>, accepts: nat, i: nat): (a: Asking)
    requires range.start < range.end
    ensures range.start <= a.from < range.end && (a.from == a.reached || a.reached == range.end)
  {
    if i == 0 then Asking(range.start, range.start)
    else
      var p := Ask(range, serve, accepts, i - 1);
      var answer := serve(i - 1, p.from);
      var reached :=
        if answer.Refused? then p.reached
        else Max(p.reached, p.from + Taken(answer.body.chunks, range.end - p.from, accepts));
      Asking(if range.start < reached < range.end then reached else p.from, reached)
  }

  /** One range from whichever source completes it: the first one that fills what those before it
      left, each asked from where they got to. Success means the whole range is down, however many
      sources had a part in it; the failure reported is for good only when every source refused,
      and refused for good. */
  method FetchRange<T(!new)>(out: array<T>, range: Range, sources: nat, serve: (nat, int) -> Answer<T>,
                             accepts: nat, ghost artifact: seq<T>)
    returns (ok: bool, permanent: bool)
    requires 0 <= range.start < range.end <= out.Length && range.end <= |artifact| && 0 < sources && AllRead(serve)
    modifies out
    ensures forall x :: 0 <= x < out.Length && !(range.start <= x < range.end) ==> out[x] == old(out[x])
    ensures ok <==> exists i: nat ::
      i < sources && Fills(serve(i, Ask(range, serve, accepts, i).from), Ask(range, serve, accepts, i).from, range.end, accepts)
    ensures ok && AllHonest(artifact, range.end, serve) ==>
      forall x :: range.start <= x < range.end ==> out[x] == artifact[x]
    ensures permanent <==> forall i: nat :: i < sources ==> serve(i, range.start) == Refused(true)
    ensures permanent ==> !ok
  {
    hide Patched, Flatten, Honest, Taken, Fits, Ask;
    var from, reached, i := range.start, range.start, 0;
    ghost var honest := AllHonest(artifact, range.end, serve);
    permanent := true;
    ok := false;
    FirstAsk(range, serve, accepts);
    while i < sources
      invariant 0 <= i <= sources && range.start <= from < range.end && from <= reached <= range.end
      invariant Ask(range, serve, accepts, i) == Asking(if range.start < reached < range.end then reached else from, reached)
      invariant permanent ==> reached == range.start
      invariant permanent <==> forall j: nat :: j < i ==> serve(j, range.start) == Refused(true)
      invariant forall j: nat :: j < i ==>
        !Fills(serve(j, Ask(range, serve, accepts, j).from), Ask(range, serve, accepts, j).from, range.end, accepts)
      invariant forall x :: 0 <= x < out.Length && !(range.start <= x < range.end) ==> out[x] == old(out[x])
      invariant honest ==> forall x :: range.start <= x < reached ==> out[x] == artifact[x]
    {
      if range.start < reached < range.end { from := reached; }
      var answer := serve(i, from);
      NextAsk(range, serve, accepts, i);
      if answer.Served? {
        ghost var before := out[..];
        var r, landed := CopyRange(out, Range(from, range.end), answer.body, accepts);
        FillsExactly(answer, from, range.end, accepts);
        PatchOutside(before, from, Flatten(answer.body.chunks)[..landed - from]);
        if honest {
          assert Honest(artifact, from, range.end, answer);
          PatchIsHonest(artifact, before, range.start, from, range.end, answer, landed - from);
        }
        if landed > reached { reached := landed; }
        permanent := false;
        if r.Complete? { return true, false; }
      } else {
        permanent := permanent && answer.permanent;
      }
      i := i + 1;
    }
  }

  lemma FirstAsk<T>(range: Range, serve: (nat, int) -> Answer<T>, accepts: nat)
    requires range.start < range.end
    ensures Ask(range, serve, accepts, 0) == Asking(range.start, range.start)
  {
  }

  lemma NextAsk<T>(range: Range, serve: (nat, int) -> Answer<T>, accepts: nat, i: nat)
    requires range.start < range.end
    ensures var p := Ask(range, serve, accepts, i); var answer := serve(i, p.from);
      var reached := if answer.Refused? then p.reached
                     else Max(p.reached, p.from + Taken(answer.body.chunks, range.end - p.from, accepts));
      Ask(range, serve, accepts, i + 1) == Asking(if range.start < reached < range.end then reached else p.from, reached)
  {
  }

  /** A source that serves part of what it is asked for, all of it taken, leaves just the rest to the
      next one; one that refuses, or fills its range or runs past it, leaves what it was asked for. */
  lemma AskedForTheRest<T>(range: Range, serve: (nat, int) -> Answer<T>, accepts: nat, i: nat)
    requires range.start < range.end
    ensures var p, next := Ask(range, serve, accepts, i), Ask(range, serve, accepts, i + 1).from;
      var answer := serve(i, p.from);
      && (answer.Refused? ==> next == p.from)
      && (answer.Served? && Fits(answer.body.chunks, accepts) ==>
            var more := |Flatten(answer.body.chunks)|;
            next == if p.reached < range.end && p.from + more < range.end then p.from + more else p.from)
  {
    hide Flatten, Taken, Fits;
    var p := Ask(range, serve, accepts, i);
    var answer := serve(i, p.from);
    if answer.Served? && Fits(answer.body.chunks, accepts) {
      RoomTaken(answer.body.chunks, range.end - p.from, accepts);
    }
  }

  /** A source that fills whatever part of the range it is asked for is enough. */
  lemma OneSureSource<T>(range: Range, sources: nat, serve: (nat, int) -> Answer<T>, accepts: nat, i: nat)
    requires range.start < range.end && i < sources
    requires forall from :: range.start <= from < range.end ==> Fills(serve(i, from), from, range.end, accepts)
    ensures exists j: nat ::
      j < sources && Fills(serve(j, Ask(range, serve, accepts, j).from), Ask(range, serve, accepts, j).from, range.end, accepts)
  {
    var from := Ask(range, serve, accepts, i).from;
    assert Fills(serve(i, from), from, range.end, accepts);
  }

  lemma FillsExactly<T>(a: Answer<T>, from: int, end: int, accepts: nat)
    requires a.Served? && from <= end
    ensures Fills(a, from, end, accepts) <==>
      |Flatten(a.body.chunks)| == end - from && Taken(a.body.chunks, end - from, accepts) == end - from
  {
    AllTaken(a.body.chunks, accepts);
  }
}
