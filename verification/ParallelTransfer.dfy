/** Several connections filling the gaps of one partial, in any interleaving. */
module ParallelTransfer {
  import opened Numbers
  import opened RangePlan
  import opened Ranges
  import opened ResumePlan
  import opened Runs

  // The steps are those of go/parallel.go (parallel, fetchRange, progress). Workers, the landed timer
  // and the store interleave freely; a sync and a record write are separate steps, and a crash may
  // come between any two.
  //
  // The disk is which offsets hold written bytes, which of them a sync has made durable, and how long
  // the file is: a sparse write at the far end makes the file long without filling it.

  datatype Disk = Disk(written: set<int>, synced: set<int>, length: int)

  /** `done` is Progress.Done, which a delegate's report overwrites: it need not count the set. */
  datatype Rec = Rec(have: seq<Range>, done: int)

  datatype Worker =
    | Free
    | Fetching(range: Range, from: int, at: int, reached: int)
    | Fetched(range: Range)
    | Synced(range: Range)
    | Failed

  datatype Timer = Waiting | Chosen(parts: seq<Range>) | Ready(parts: seq<Range>)

  /** `stale`: the record has not been written since this run began. `limit`: how long the file
      can get while that is so. Neither steers a step; they are what the proof remembers. */
  datatype Progress = Progress(have: seq<Range>, todo: seq<Range>, workers: seq<Worker>,
                               landed: map<int, int>, timer: Timer, stale: bool, limit: int)

  datatype Phase = Idle | Going(p: Progress) | Ended(have: seq<Range>, ok: bool)

  datatype State = State(disk: Disk, rec: Rec, phase: Phase)

  datatype Job = Job(size: nat, connections: nat)

  datatype Action =
    | Crash(left: Disk) | Shorten(n: nat) | Recount(done: int) | Start(have: seq<Range>, todo: seq<Range>)
    | Take(i: nat) | Byte(i: nat) | Land(i: nat) | NextSource(i: nat) | Finish(i: nat) | Fail(i: nat)
    | SyncRange(i: nat) | Prove(i: nat, refused: bool)
    | Choose(parts: seq<Range>) | SyncParts | SyncFails | KeepLanded(refused: bool)
    | End(ok: bool) | KeepCount(refused: bool) | Mismatch(removed: bool, refused: bool)

  // ---- Planning -------------------------------------------------------------------------------

  /** Ranges one after another inside [lo, hi), none empty, none overlapping. */
  ghost predicate Ordered(rs: seq<Range>, lo: int, hi: int) {
    if rs == [] then true else lo <= rs[0].start < rs[0].end <= hi && Ordered(rs[1..], rs[0].end, hi)
  }

  lemma {:induction false} OrderedConcat(a: seq<Range>, b: seq<Range>, lo: int, mid: int, hi: int)
    requires Ordered(a, lo, mid) && lo <= mid <= hi && Ordered(b, mid, hi)
    ensures Ordered(a + b, lo, hi)
  {
    if a == [] {
      assert a + b == b;
      OrderedFrom(b, mid, lo, hi);
    } else {
      assert (a + b)[1..] == a[1..] + b;
      OrderedConcat(a[1..], b, a[0].end, mid, hi);
    }
  }

  lemma OrderedFrom(rs: seq<Range>, lo: int, lower: int, hi: int)
    requires Ordered(rs, lo, hi) && lower <= lo
    ensures Ordered(rs, lower, hi)
  {
  }

  lemma {:induction false} TilesOrdered(rs: seq<Range>, a: int, b: int)
    requires Tiles(rs, a, b)
    ensures a <= b && Ordered(rs, a, b)
  {
    if rs != [] { TilesOrdered(rs[1..], rs[0].end, b); }
  }

  lemma {:induction false} OrderedAt(rs: seq<Range>, lo: int, hi: int, i: nat)
    requires Ordered(rs, lo, hi) && i < |rs|
    ensures lo <= rs[i].start < rs[i].end <= hi
    ensures Ordered(rs[i + 1..], rs[i].end, hi)
    ensures forall j :: i < j < |rs| ==> rs[i].end <= rs[j].start < rs[j].end <= hi
  {
    if i > 0 {
      OrderedAt(rs[1..], rs[0].end, hi, i - 1);
      assert rs[1..][i - 1] == rs[i] && rs[1..][i..] == rs[i + 1..];
      assert forall j :: 0 < j < |rs| ==> rs[j] == rs[1..][j - 1];
    } else {
      var rest := rs[1..];
      forall j | 0 < j < |rs| ensures rs[0].end <= rs[j].start < rs[j].end <= hi {
        OrderedAt(rest, rs[0].end, hi, j - 1);
        assert rest[j - 1] == rs[j];
      }
    }
  }

  /** The ranges so far are those of the first i gaps, and end where the last of those does. */
  ghost predicate CutSoFar(gaps: seq<Range>, i: nat, todo: seq<Range>)
    requires i <= |gaps|
  {
    && Ordered(todo, 0, if i == 0 then 0 else gaps[i - 1].end)
    && forall x :: Covers(todo, x) <==> Covers(gaps[..i], x)
  }

  lemma CutOneMore(gaps: seq<Range>, i: nat, todo: seq<Range>, rs: seq<Range>)
    requires Canonical(gaps) && i < |gaps| && CutSoFar(gaps, i, todo) && Tiles(rs, gaps[i].start, gaps[i].end)
    ensures CutSoFar(gaps, i + 1, todo + rs)
  {
    hide Tiles, Canonical, Ordered;
    var g, reached := gaps[i], if i == 0 then 0 else gaps[i - 1].end;
    CanonicalAt(gaps, i);
    if i > 0 { CanonicalAt(gaps, i - 1); }
    TilesOrdered(rs, g.start, g.end);
    TilesCover(rs, g.start, g.end);
    OrderedFrom(rs, g.start, reached, g.end);
    OrderedConcat(todo, rs, 0, reached, g.end);
    hide Covers;
    CoversConcat(todo, rs);
    assert gaps[..i + 1] == gaps[..i] + [g];
    CoversConcat(gaps[..i], [g]);
    CoversOne(g);
  }

  /** Every gap of the starting set, cut into ranges, in order and with nothing left over. */
  method RangesToFetch(size: int, cuts: seq<int>, have: seq<Range>) returns (todo: seq<Range>)
    requires 0 <= size && Ascending(cuts, size) && Canonical(have)
    ensures Ordered(todo, 0, size)
    ensures forall x :: Covers(todo, x) <==> 0 <= x < size && !Covers(have, x)
  {
    var gaps := Missing(have, 0, size);
    hide Canonical, Missing, Ascending, Tiles;
    NothingCut(gaps);
    todo := [];
    for i := 0 to |gaps|
      invariant CutSoFar(gaps, i, todo)
    {
      hide CutSoFar;
      GapWithin(gaps, i, have, size);
      var rs := RangesOf(size, cuts, gaps[i]);
      CutOneMore(gaps, i, todo, rs);
      todo := todo + rs;
    }
    AllCut(gaps, todo, have, size);
  }

  lemma NothingCut(gaps: seq<Range>)
    ensures CutSoFar(gaps, 0, [])
  {
  }

  lemma GapWithin(gaps: seq<Range>, i: nat, have: seq<Range>, size: int)
    requires Canonical(gaps) && i < |gaps| && forall x :: Covers(gaps, x) <==> 0 <= x < size && !Covers(have, x)
    ensures 0 <= gaps[i].start < gaps[i].end <= size
  {
    CanonicalAt(gaps, i);
    CoversBelowReach(gaps);
    assert Covers(gaps, Reach(gaps) - 1);
  }

  lemma AllCut(gaps: seq<Range>, todo: seq<Range>, have: seq<Range>, size: int)
    requires Canonical(gaps) && 0 <= size && forall x :: Covers(gaps, x) <==> 0 <= x < size && !Covers(have, x)
    requires CutSoFar(gaps, |gaps|, todo)
    ensures Ordered(todo, 0, size)
    ensures forall x :: Covers(todo, x) <==> 0 <= x < size && !Covers(have, x)
  {
    var n := |gaps|;
    assert gaps[..n] == gaps;
    if n > 0 { GapWithin(gaps, n - 1, have, size); }
    OrderedWithin(todo, 0, if n == 0 then 0 else gaps[n - 1].end, size);
  }

  lemma {:induction false} OrderedWithin(rs: seq<Range>, lo: int, hi: int, higher: int)
    requires Ordered(rs, lo, hi) && hi <= higher
    ensures Ordered(rs, lo, higher)
  {
    if rs != [] { OrderedWithin(rs[1..], rs[0].end, hi, higher); }
  }

  // ---- Steps ----------------------------------------------------------------------------------

  function Flushed(d: Disk): Disk { d.(synced := d.written) }

  function Written(d: Disk, x: int): Disk { d.(written := d.written + {x}, length := Max(d.length, x + 1)) }

  /** A truncation, here durable at once. */
  ghost function Truncated(d: Disk, n: int): Disk {
    Disk(d.written * Interval(0, n), d.synced * Interval(0, n), Min(d.length, n))
  }

  ghost predicate WellFormed(d: Disk) {
    0 <= d.length && d.synced <= d.written && d.written <= Interval(0, d.length)
  }

  /** What may be found after power is lost: every synced byte, some of the others, and a file as
      long as it had become or shorter. */
  ghost predicate Survives(d: Disk, e: Disk) {
    WellFormed(e) && d.synced <= e.written <= d.written && e.synced == e.written && e.length <= d.length
  }

  ghost predicate World(s: State, a: Action, t: State) {
    || (a.Crash? && Survives(s.disk, a.left) && t == s.(disk := a.left, phase := Idle))
    || (a.Shorten? && s.phase.Idle? && t == s.(disk := Truncated(s.disk, a.n)))
    || (a.Recount? && s.phase.Idle? && t == s.(rec := s.rec.(done := a.done)))
  }

  /** The bytes the next n ranges of a plan end before. */
  function Limit(todo: seq<Range>, n: nat): int {
    if todo == [] || n == 0 then 0 else todo[(if n <= |todo| then n else |todo|) - 1].end
  }

  function AllFree(n: nat): seq<Worker> { seq(n, i => Free) }

  /** A run begins: the recorded set cut to the file, the file cut to the artifact, the rest
      planned. The record itself is not written. */
  ghost predicate Starts(j: Job, s: State, a: Action, t: State) {
    && a.Start? && s.phase.Idle?
    && Canonical(a.have) && (forall x :: Covers(a.have, x) <==> Covers(s.rec.have, x) && x < s.disk.length)
    && Ordered(a.todo, 0, j.size)
    && (forall x :: Covers(a.todo, x) <==> 0 <= x < j.size && !Covers(a.have, x))
    && var d := Truncated(s.disk, j.size);
       t == s.(disk := d,
               phase := Going(Progress(a.have, a.todo, AllFree(j.connections), map[], Waiting, true,
                                       Max(d.length, Limit(a.todo, j.connections)))))
  }

  ghost predicate Takes(s: State, a: Action, t: State) {
    && a.Take? && s.phase.Going?
    && var p := s.phase.p;
       && a.i < |p.workers| && p.workers[a.i].Free? && p.todo != []
       && var r := p.todo[0];
          t == s.(phase := Going(p.(todo := p.todo[1..],
                                    workers := p.workers[a.i := Fetching(r, r.start, r.start, r.start)])))
  }

  /** A byte is written at the worker's own offset, never at or past the end of its range. */
  ghost predicate Writes(s: State, a: Action, t: State) {
    && a.Byte? && s.phase.Going?
    && var p := s.phase.p;
       && a.i < |p.workers| && p.workers[a.i].Fetching? && p.workers[a.i].at < p.workers[a.i].range.end
       && var w := p.workers[a.i];
          t == s.(disk := Written(s.disk, w.at), phase := Going(p.(workers := p.workers[a.i := w.(at := w.at + 1)])))
  }

  function LandedAt(landed: map<int, int>, start: int, at: int): map<int, int> {
    if start in landed && at <= landed[start] then landed else landed[start := at]
  }

  ghost predicate Lands(s: State, a: Action, t: State) {
    && a.Land? && s.phase.Going?
    && var p := s.phase.p;
       && a.i < |p.workers| && p.workers[a.i].Fetching?
       && var w := p.workers[a.i];
          t == s.(phase := Going(p.(workers := p.workers[a.i := w.(reached := Max(w.reached, w.at))],
                                    landed := LandedAt(p.landed, w.range.start, w.at))))
  }

  /** The next source is asked for the rest of the range: from what has landed, when that is
      strictly inside it, and otherwise from where the last one was asked. */
  ghost predicate Switches(s: State, a: Action, t: State) {
    && a.NextSource? && s.phase.Going?
    && var p := s.phase.p;
       && a.i < |p.workers| && p.workers[a.i].Fetching?
       && var w := p.workers[a.i];
          var from := if w.from < w.reached < w.range.end then w.reached else w.from;
          t == s.(phase := Going(p.(workers := p.workers[a.i := w.(from := from, at := from)])))
  }

  ghost predicate Finishes(s: State, a: Action, t: State) {
    && a.Finish? && s.phase.Going?
    && var p := s.phase.p;
       && a.i < |p.workers| && p.workers[a.i].Fetching? && p.workers[a.i].at == p.workers[a.i].range.end
       && t == s.(phase := Going(p.(workers := p.workers[a.i := Fetched(p.workers[a.i].range)])))
  }

  ghost predicate Fails(s: State, a: Action, t: State) {
    && a.Fail? && s.phase.Going?
    && var p := s.phase.p;
       && a.i < |p.workers| && !p.workers[a.i].Free?
       && t == s.(phase := Going(p.(workers := p.workers[a.i := Failed])))
  }

  ghost predicate SyncsRange(s: State, a: Action, t: State) {
    && a.SyncRange? && s.phase.Going?
    && var p := s.phase.p;
       && a.i < |p.workers| && p.workers[a.i].Fetched?
       && t == s.(disk := Flushed(s.disk), phase := Going(p.(workers := p.workers[a.i := Synced(p.workers[a.i].range)])))
  }

  function Recorded(have: seq<Range>): Rec { Rec(have, Total(have)) }

  ghost predicate Proves(s: State, a: Action, t: State) {
    && a.Prove? && s.phase.Going?
    && var p := s.phase.p;
       && a.i < |p.workers| && p.workers[a.i].Synced? && Canonical(p.have)
       && var r := p.workers[a.i].range;
          && 0 <= r.start <= r.end
          && var next := Add(p.have, r.start, r.end);
             t == s.(rec := if a.refused then s.rec else Recorded(next),
                     phase := Going(p.(have := next, landed := p.landed - {r.start},
                                       workers := p.workers[a.i := if a.refused then Failed else Free],
                                       stale := p.stale && a.refused)))
  }

  /** The landed part of every range still arriving, in no particular order. */
  ghost predicate Parts(landed: map<int, int>, parts: seq<Range>) {
    && (forall r :: r in parts ==> r.start in landed && r.start < r.end == landed[r.start])
    && (forall k :: k in landed && k < landed[k] ==> Range(k, landed[k]) in parts)
  }

  ghost predicate Chooses(s: State, a: Action, t: State) {
    && a.Choose? && s.phase.Going? && s.phase.p.timer.Waiting? && Parts(s.phase.p.landed, a.parts) && a.parts != []
    && t == s.(phase := Going(s.phase.p.(timer := Chosen(a.parts))))
  }

  ghost predicate SyncsParts(s: State, a: Action, t: State) {
    && a.SyncParts? && s.phase.Going? && s.phase.p.timer.Chosen?
    && t == s.(disk := Flushed(s.disk), phase := Going(s.phase.p.(timer := Timer.Ready(s.phase.p.timer.parts))))
  }

  /** The file could not be synced: the tick is over and the next one tries again. */
  ghost predicate SyncsFail(s: State, a: Action, t: State) {
    && a.SyncFails? && s.phase.Going? && s.phase.p.timer.Chosen?
    && t == s.(phase := Going(s.phase.p.(timer := Waiting)))
  }

  /** Every part folded into the set. */
  function AddAll(have: seq<Range>, parts: seq<Range>): (out: seq<Range>)
    requires Canonical(have) && forall r :: r in parts ==> 0 <= r.start <= r.end
    ensures Canonical(out)
    ensures forall x :: Covers(out, x) <==> Covers(have, x) || Covers(parts, x)
    decreases |parts|
  {
    if parts == [] then have
    else AddAll(Add(have, parts[0].start, parts[0].end), parts[1..])
  }

  ghost predicate KeepsLanded(s: State, a: Action, t: State) {
    && a.KeepLanded? && s.phase.Going? && s.phase.p.timer.Ready?
    && var p := s.phase.p;
       && Canonical(p.have) && (forall r :: r in p.timer.parts ==> 0 <= r.start <= r.end)
       && var next := AddAll(p.have, p.timer.parts);
          if Total(next) == Total(p.have) then t == s.(phase := Going(p.(timer := Waiting)))
          else t == s.(rec := if a.refused then s.rec else Recorded(next),
                       phase := Going(p.(have := next, timer := Waiting, stale := p.stale && a.refused)))
  }

  ghost predicate Resting(workers: seq<Worker>) {
    forall i :: 0 <= i < |workers| ==> workers[i].Free? || workers[i].Failed?
  }

  ghost predicate AnyFailed(workers: seq<Worker>) { exists i :: 0 <= i < |workers| && workers[i].Failed? }

  /** The run returns: without error only when every range was fed and none failed. */
  ghost predicate Ends(s: State, a: Action, t: State) {
    && a.End? && s.phase.Going?
    && var p := s.phase.p;
       && p.timer.Waiting? && Resting(p.workers)
       && (a.ok ==> p.todo == [] && !AnyFailed(p.workers))
       && t == s.(disk := if a.ok then Flushed(s.disk) else s.disk, phase := Ended(p.have, a.ok))
  }

  /** What is written down after a failure: the number of proven bytes, as a prefix. */
  function Kept(rec: Rec, have: seq<Range>): Rec {
    if Total(have) <= 0 || rec.done >= Total(have) then rec else Rec([Range(0, Total(have))], Total(have))
  }

  ghost predicate KeepsCount(s: State, a: Action, t: State) {
    && a.KeepCount? && s.phase.Ended?
    && t == s.(rec := if a.refused || s.phase.ok then s.rec else Kept(s.rec, s.phase.have), phase := Idle)
  }

  /** The whole artifact hashed to something else: the partial removed and the checkpoint cleared,
      either of which may fail. */
  ghost predicate Mismatches(s: State, a: Action, t: State) {
    && a.Mismatch? && s.phase.Ended? && s.phase.ok
    && t == State(if a.removed then Truncated(s.disk, 0) else s.disk, if a.refused then s.rec else Rec([], 0), Idle)
  }

  ghost predicate Step(j: Job, s: State, a: Action, t: State) {
    || World(s, a, t) || Starts(j, s, a, t) || Takes(s, a, t) || Writes(s, a, t) || Lands(s, a, t)
    || Switches(s, a, t) || Finishes(s, a, t) || Fails(s, a, t) || SyncsRange(s, a, t) || Proves(s, a, t)
    || Chooses(s, a, t) || SyncsParts(s, a, t) || SyncsFail(s, a, t) || KeepsLanded(s, a, t)
    || Ends(s, a, t) || KeepsCount(s, a, t) || Mismatches(s, a, t)
  }

  // ---- What every reachable state keeps --------------------------------------------------------

  /** The main claim: every recorded byte inside the file was written, and synced, before. */
  ghost predicate CrashSafe(s: State) {
    forall x :: x in Points(s.rec.have) && x < s.disk.length ==> x in s.disk.synced
  }

  /** What a worker still owes the run. */
  ghost function Owes(w: Worker): set<int> {
    if w.Free? || w.Failed? then {} else Interval(w.range.start, w.range.end)
  }

  ghost predicate GoodWorker(j: Job, d: Disk, stale: bool, limit: int, w: Worker) {
    w.Free? || w.Failed?
    || (&& 0 <= w.range.start < w.range.end <= j.size
        && (stale ==> w.range.end <= limit)
        && (w.Fetching? ==>
            && w.range.start <= w.from <= w.at <= w.range.end && w.range.start <= w.reached <= w.range.end
            && Interval(w.range.start, w.at) <= d.written && Interval(w.range.start, w.reached) <= d.written)
        && (w.Fetched? ==> Interval(w.range.start, w.range.end) <= d.written)
        && (w.Synced? ==> Interval(w.range.start, w.range.end) <= d.synced))
  }

  ghost predicate GoodWorkers(j: Job, d: Disk, p: Progress) {
    forall i :: 0 <= i < |p.workers| ==> GoodWorker(j, d, p.stale, p.limit, p.workers[i])
  }

  ghost predicate GoodLanded(j: Job, d: Disk, landed: map<int, int>) {
    forall k :: k in landed ==> 0 <= k && landed[k] <= j.size && Interval(k, landed[k]) <= d.written
  }

  ghost predicate GoodParts(j: Job, held: set<int>, parts: seq<Range>) {
    forall r :: r in parts ==> 0 <= r.start < r.end <= j.size && Interval(r.start, r.end) <= held
  }

  ghost predicate GoodTimer(j: Job, d: Disk, t: Timer) {
    && (t.Chosen? ==> GoodParts(j, d.written, t.parts))
    && (t.Ready? ==> GoodParts(j, d.synced, t.parts))
  }

  ghost predicate GoodHave(j: Job, d: Disk, have: seq<Range>) {
    Canonical(have) && Points(have) <= d.synced && Points(have) <= Interval(0, j.size)
  }

  ghost predicate OwedBySomeone(workers: seq<Worker>, x: int) {
    exists i :: 0 <= i < |workers| && x in Owes(workers[i])
  }

  /** Nothing is forgotten: every byte is proven, planned or in a worker's hands. */
  ghost predicate Accounted(j: Job, p: Progress) {
    AnyFailed(p.workers)
    || forall x :: Inside(0, x, j.size) ==> x in Points(p.have) || x in Points(p.todo) || OwedBySomeone(p.workers, x)
  }

  ghost function Busy(workers: seq<Worker>): set<int> { set i | 0 <= i < |workers| && !workers[i].Free? }

  /** Before the first record write no worker takes a second range, so only the first few ranges
      of the plan can lengthen the file. */
  ghost predicate Bounded(j: Job, d: Disk, rec: Rec, p: Progress) {
    if p.stale then
      && d.length <= p.limit
      && (forall i :: 0 <= i < |p.todo| && i + |Busy(p.workers)| < j.connections ==> p.todo[i].end <= p.limit)
      && forall x :: x in Points(rec.have) ==> x in d.synced || p.limit <= x
    else Points(rec.have) <= d.synced
  }

  ghost predicate Inv(j: Job, s: State) {
    && WellFormed(s.disk) && Canonical(s.rec.have) && CrashSafe(s)
    && match s.phase {
         case Idle => true
         case Going(p) =>
           && |p.workers| == j.connections
           && GoodHave(j, s.disk, p.have) && Ordered(p.todo, 0, j.size) && GoodWorkers(j, s.disk, p)
           && GoodLanded(j, s.disk, p.landed) && GoodTimer(j, s.disk, p.timer)
           && Accounted(j, p) && Bounded(j, s.disk, s.rec, p)
         case Ended(have, ok) => GoodHave(j, s.disk, have) && (ok ==> Points(have) == Interval(0, j.size))
       }
  }

  /** A claim of the record that the file no longer reaches, and that the first ranges a run hands
      out may reach again before anything corrects the record. */
  ghost predicate Exposed(j: Job, s: State, todo: seq<Range>, x: int) {
    Covers(s.rec.have, x) && s.disk.length <= x < Limit(todo, j.connections)
  }

  /** The conditions under which the claim is made: no exposed claim when a run starts, the proven
      set inside the artifact, and a count kept as a prefix only when it is one. */
  ghost predicate Guarded(j: Job, s: State, a: Action) {
    && (a.Start? ==> Reach(a.have) <= j.size && forall x :: Inside(s.disk.length, x, Limit(a.todo, j.connections)) ==> !Covers(s.rec.have, x))
    && (a.KeepCount? && s.phase.Ended? && !s.phase.ok && !a.refused ==>
          PrefixShaped(s.phase.have) || s.rec.done >= Total(s.phase.have))
  }

  // ---- One step ---------------------------------------------------------------------------------

  /** A disk that only gained bytes still holds everything the run relies on. */
  ghost predicate Grew(d: Disk, e: Disk) { d.written <= e.written && d.synced <= e.synced }

  lemma GrowthKeeps(j: Job, d: Disk, e: Disk, p: Progress)
    requires Grew(d, e)
    ensures GoodHave(j, d, p.have) ==> GoodHave(j, e, p.have)
    ensures GoodWorkers(j, d, p) ==> GoodWorkers(j, e, p)
    ensures GoodLanded(j, d, p.landed) ==> GoodLanded(j, e, p.landed)
    ensures GoodTimer(j, d, p.timer) ==> GoodTimer(j, e, p.timer)
  {
    if GoodWorkers(j, d, p) {
      forall i | 0 <= i < |p.workers| ensures GoodWorker(j, e, p.stale, p.limit, p.workers[i]) {
        assert GoodWorker(j, d, p.stale, p.limit, p.workers[i]);
      }
    }
  }

  /** One worker moving on, with the rest as they were. */
  lemma WorkerKeeps(j: Job, d: Disk, p: Progress, q: Progress, i: nat, w: Worker)
    requires i < |p.workers| && GoodWorkers(j, d, p) && q.workers == p.workers[i := w]
    requires q.limit == p.limit && (q.stale ==> p.stale) && GoodWorker(j, d, q.stale, q.limit, w)
    ensures GoodWorkers(j, d, q)
  {
    forall k | 0 <= k < |q.workers| ensures GoodWorker(j, d, q.stale, q.limit, q.workers[k]) {
      assert GoodWorker(j, d, p.stale, p.limit, p.workers[k]);
    }
  }

  lemma AccountedKeeps(j: Job, p: Progress, q: Progress, i: nat, w: Worker)
    requires Accounted(j, p) && i < |p.workers| && q.workers == p.workers[i := w]
    requires Points(p.have) <= Points(q.have)
    requires w.Failed? || (!p.workers[i].Failed?
      && Points(p.todo) + Owes(p.workers[i]) <= Points(q.have) + Points(q.todo) + Owes(w))
    ensures Accounted(j, q)
  {
    if AnyFailed(p.workers) {
      var k :| 0 <= k < |p.workers| && p.workers[k].Failed?;
      assert q.workers[k].Failed?;
    } else if w.Failed? {
      assert q.workers[i].Failed?;
    } else {
      forall x | Inside(0, x, j.size)
        ensures x in Points(q.have) || x in Points(q.todo) || OwedBySomeone(q.workers, x)
      {
        if x !in Points(p.have) && x !in Points(p.todo) {
          var k :| 0 <= k < |p.workers| && x in Owes(p.workers[k]);
          assert k != i ==> q.workers[k] == p.workers[k];
        }
        if x in Owes(w) { assert q.workers[i] == w; }
      }
    }
  }

  /** Busy workers stay busy until the record is written. */
  lemma BusyKeeps(p: Progress, q: Progress, i: nat, w: Worker)
    requires i < |p.workers| && q.workers == p.workers[i := w] && !w.Free? && !p.workers[i].Free?
    ensures Busy(q.workers) == Busy(p.workers)
  {
  }

  lemma WorldKeeps(j: Job, s: State, a: Action, t: State)
    requires Inv(j, s) && World(s, a, t)
    ensures Inv(j, t)
  {
  }

  lemma StartsKeeps(j: Job, s: State, a: Action, t: State)
    requires Inv(j, s) && Guarded(j, s, a) && Starts(j, s, a, t)
    ensures Inv(j, t)
  {
    var p, d := t.phase.p, t.disk;
    CoversBelowReach(a.have);
    CoversBelowReach(s.rec.have);
    forall x | x in Points(a.have) ensures x in d.synced && x in Interval(0, j.size) {
      assert Covers(a.have, x) && x in Points(s.rec.have);
    }
    forall x | x in Points(s.rec.have) ensures x in d.synced || p.limit <= x {
      assert Covers(s.rec.have, x) && !Inside(s.disk.length, x, Limit(a.todo, j.connections));
    }
    assert Busy(p.workers) == {};
    FirstEndWithin(a.todo, j.size, j.connections);
    assert forall x :: x in Points(a.todo) <==> Covers(a.todo, x);
    assert forall x :: x in Points(a.have) <==> Covers(a.have, x);
  }

  lemma FirstEndWithin(todo: seq<Range>, size: int, n: nat)
    requires Ordered(todo, 0, size)
    ensures forall i :: 0 <= i < |todo| && i < n ==> todo[i].end <= Limit(todo, n)
  {
    forall i | 0 <= i < |todo| && i < n ensures todo[i].end <= Limit(todo, n) {
      OrderedAt(todo, 0, size, i);
    }
  }

  lemma TakesKeeps(j: Job, s: State, a: Action, t: State)
    requires Inv(j, s) && Takes(s, a, t)
    ensures Inv(j, t)
  {
    var p, q, r := s.phase.p, t.phase.p, s.phase.p.todo[0];
    var w := q.workers[a.i];
    OrderedAt(p.todo, 0, j.size, 0);
    OrderedFrom(q.todo, r.end, 0, j.size);
    assert Busy(q.workers) == Busy(p.workers) + {a.i};
    if p.stale {
      SubsetSize(Busy(q.workers), Interval(0, j.connections));
      IntervalSize(0, j.connections);
    }
    WorkerKeeps(j, s.disk, p, q, a.i, w);
    AccountedKeeps(j, p, q, a.i, w);
  }

  lemma WritesKeeps(j: Job, s: State, a: Action, t: State)
    requires Inv(j, s) && Writes(s, a, t)
    ensures Inv(j, t)
  {
    var p, q, w := s.phase.p, t.phase.p, s.phase.p.workers[a.i];
    assert GoodWorker(j, s.disk, p.stale, p.limit, w);
    GrowthKeeps(j, s.disk, t.disk, p);
    assert Interval(w.range.start, w.at + 1) == Interval(w.range.start, w.at) + {w.at};
    WorkerKeeps(j, t.disk, p, q, a.i, q.workers[a.i]);
    AccountedKeeps(j, p, q, a.i, q.workers[a.i]);
    BusyKeeps(p, q, a.i, q.workers[a.i]);
  }

  lemma LandsKeeps(j: Job, s: State, a: Action, t: State)
    requires Inv(j, s) && (Lands(s, a, t) || Switches(s, a, t))
    ensures Inv(j, t)
  {
    var p, q, w := s.phase.p, t.phase.p, s.phase.p.workers[a.i];
    assert GoodWorker(j, s.disk, p.stale, p.limit, w);
    WorkerKeeps(j, s.disk, p, q, a.i, q.workers[a.i]);
    AccountedKeeps(j, p, q, a.i, q.workers[a.i]);
    BusyKeeps(p, q, a.i, q.workers[a.i]);
  }

  lemma FinishesKeeps(j: Job, s: State, a: Action, t: State)
    requires Inv(j, s) && (Finishes(s, a, t) || Fails(s, a, t))
    ensures Inv(j, t)
  {
    var p, q, w := s.phase.p, t.phase.p, s.phase.p.workers[a.i];
    assert GoodWorker(j, s.disk, p.stale, p.limit, w);
    WorkerKeeps(j, s.disk, p, q, a.i, q.workers[a.i]);
    AccountedKeeps(j, p, q, a.i, q.workers[a.i]);
    BusyKeeps(p, q, a.i, q.workers[a.i]);
  }

  lemma SyncsKeeps(j: Job, s: State, a: Action, t: State)
    requires Inv(j, s) && (SyncsRange(s, a, t) || SyncsParts(s, a, t))
    ensures Inv(j, t)
  {
    var p, q := s.phase.p, t.phase.p;
    GrowthKeeps(j, s.disk, t.disk, p);
    if SyncsRange(s, a, t) {
      assert GoodWorker(j, s.disk, p.stale, p.limit, p.workers[a.i]);
      WorkerKeeps(j, t.disk, p, q, a.i, q.workers[a.i]);
      AccountedKeeps(j, p, q, a.i, q.workers[a.i]);
      BusyKeeps(p, q, a.i, q.workers[a.i]);
    }
  }

  lemma ProvesKeeps(j: Job, s: State, a: Action, t: State)
    requires Inv(j, s) && Proves(s, a, t)
    ensures Inv(j, t)
  {
    var p, q, w := s.phase.p, t.phase.p, s.phase.p.workers[a.i];
    assert GoodWorker(j, s.disk, p.stale, p.limit, w);
    assert Points(q.have) == Points(p.have) + Interval(w.range.start, w.range.end);
    WorkerKeeps(j, s.disk, p, q, a.i, q.workers[a.i]);
    AccountedKeeps(j, p, q, a.i, q.workers[a.i]);
    if q.stale { BusyKeeps(p, q, a.i, q.workers[a.i]); }
  }

  lemma ChoosesKeeps(j: Job, s: State, a: Action, t: State)
    requires Inv(j, s) && (Chooses(s, a, t) || SyncsFail(s, a, t))
    ensures Inv(j, t)
  {
  }

  lemma {:induction false} PartsCovered(held: set<int>, j: Job, parts: seq<Range>)
    requires GoodParts(j, held, parts)
    ensures Points(parts) <= held && Points(parts) <= Interval(0, j.size)
  {
    if parts != [] { PartsCovered(held, j, parts[1..]); }
  }

  lemma KeepsLandedKeeps(j: Job, s: State, a: Action, t: State)
    requires Inv(j, s) && KeepsLanded(s, a, t)
    ensures Inv(j, t)
  {
    var p, q := s.phase.p, t.phase.p;
    var next := AddAll(p.have, p.timer.parts);
    PartsCovered(s.disk.synced, j, p.timer.parts);
    assert Points(next) == Points(p.have) + Points(p.timer.parts);
    StillGood(j, s.disk, p, q);
    StillAccounted(j, p, q);
  }

  lemma StillGood(j: Job, d: Disk, p: Progress, q: Progress)
    requires GoodWorkers(j, d, p) && q.workers == p.workers && q.limit == p.limit && (q.stale ==> p.stale)
    ensures GoodWorkers(j, d, q)
  {
    forall k | 0 <= k < |q.workers| ensures GoodWorker(j, d, q.stale, q.limit, q.workers[k]) {
      assert GoodWorker(j, d, p.stale, p.limit, p.workers[k]);
    }
  }

  lemma StillAccounted(j: Job, p: Progress, q: Progress)
    requires Accounted(j, p) && q.workers == p.workers && q.todo == p.todo && Points(p.have) <= Points(q.have)
    ensures Accounted(j, q)
  {
  }

  lemma EndsKeeps(j: Job, s: State, a: Action, t: State)
    requires Inv(j, s) && Ends(s, a, t)
    ensures Inv(j, t)
  {
    var p := s.phase.p;
    if a.ok {
      forall x | x in Interval(0, j.size) ensures x in Points(p.have) {
        assert Inside(0, x, j.size);
        assert Points(p.todo) == {};
      }
    }
  }

  lemma MismatchesKeeps(j: Job, s: State, a: Action, t: State)
    requires Inv(j, s) && Mismatches(s, a, t)
    ensures Inv(j, t)
  {
  }

  lemma KeepsCountKeeps(j: Job, s: State, a: Action, t: State)
    requires Inv(j, s) && Guarded(j, s, a) && KeepsCount(s, a, t)
    ensures Inv(j, t)
  {
    var have := s.phase.have;
    if t.rec != s.rec {
      CountIsPrefixExactly(have);
      CoversOne(Range(0, Total(have)));
      assert forall x :: x in Points(t.rec.have) ==> x in Points(have);
    }
  }

  lemma StepKeeps(j: Job, s: State, a: Action, t: State)
    requires Inv(j, s) && Guarded(j, s, a) && Step(j, s, a, t)
    ensures Inv(j, t)
  {
    if World(s, a, t) { WorldKeeps(j, s, a, t); }
    else if Starts(j, s, a, t) { StartsKeeps(j, s, a, t); }
    else if Takes(s, a, t) { TakesKeeps(j, s, a, t); }
    else if Writes(s, a, t) { WritesKeeps(j, s, a, t); }
    else if Lands(s, a, t) || Switches(s, a, t) { LandsKeeps(j, s, a, t); }
    else if Finishes(s, a, t) || Fails(s, a, t) { FinishesKeeps(j, s, a, t); }
    else if SyncsRange(s, a, t) || SyncsParts(s, a, t) { SyncsKeeps(j, s, a, t); }
    else if Proves(s, a, t) { ProvesKeeps(j, s, a, t); }
    else if Chooses(s, a, t) || SyncsFail(s, a, t) { ChoosesKeeps(j, s, a, t); }
    else if KeepsLanded(s, a, t) { KeepsLandedKeeps(j, s, a, t); }
    else if Ends(s, a, t) { EndsKeeps(j, s, a, t); }
    else if Mismatches(s, a, t) { MismatchesKeeps(j, s, a, t); }
    else { KeepsCountKeeps(j, s, a, t); }
  }

  // ---- Whole runs ---------------------------------------------------------------------------------

  ghost predicate Run(j: Job, states: seq<State>, actions: seq<Action>) {
    && |states| == |actions| + 1
    && forall i :: 0 <= i < |actions| ==> Step(j, states[i], actions[i], states[i + 1])
  }

  ghost predicate GuardedRun(j: Job, states: seq<State>, actions: seq<Action>) {
    Run(j, states, actions) && forall i :: 0 <= i < |actions| ==> Guarded(j, states[i], actions[i])
  }

  /** Any job between attempts whose record is true: every byte it names inside the file is synced. */
  ghost predicate Startable(s: State) {
    s.phase.Idle? && WellFormed(s.disk) && Canonical(s.rec.have) && CrashSafe(s)
  }

  /** Every interleaving of workers, timer, store and crashes, over any number of runs, keeps the
      record behind the disk; and a run that returns without error has proven the whole artifact. */
  lemma {:induction false} RunsAreCrashSafe(j: Job, states: seq<State>, actions: seq<Action>)
    requires GuardedRun(j, states, actions) && Startable(states[0])
    ensures forall i :: 0 <= i < |states| ==> Inv(j, states[i]) && CrashSafe(states[i])
  {
    assert Inv(j, states[0]);
    for n := 0 to |actions|
      invariant forall i :: 0 <= i <= n ==> Inv(j, states[i])
    {
      StepKeeps(j, states[n], actions[n], states[n + 1]);
    }
  }

  /** What the next owner reads off: the record cut to whatever file a crash leaves names only
      bytes that are there. */
  lemma ClippedAfterAnyCrash(j: Job, states: seq<State>, actions: seq<Action>, left: Disk, clipped: seq<Range>)
    requires GuardedRun(j, states, actions) && Startable(states[0])
    requires Survives(states[|actions|].disk, left)
    requires forall x :: Covers(clipped, x) <==> Covers(states[|actions|].rec.have, x) && x < left.length
    ensures Points(clipped) <= left.written
  {
    RunsAreCrashSafe(j, states, actions);
    var s := states[|actions|];
    forall x | x in Points(clipped) ensures x in left.written {
      assert Covers(clipped, x) && x in Points(s.rec.have);
    }
  }

  /** No error means no gap: the set returned is [0, size), its count is the size, and all of it
      has been synced. */
  lemma NoErrorMeansWhole(j: Job, states: seq<State>, actions: seq<Action>)
    requires GuardedRun(j, states, actions) && Startable(states[0])
    requires states[|actions|].phase.Ended? && states[|actions|].phase.ok
    ensures Total(states[|actions|].phase.have) == j.size
    ensures Interval(0, j.size) <= states[|actions|].disk.synced
    ensures 0 < j.size ==> states[|actions|].phase.have == [Range(0, j.size)]
  {
    RunsAreCrashSafe(j, states, actions);
    var have := states[|actions|].phase.have;
    TotalCounts(have);
    IntervalSize(0, j.size);
    if 0 < j.size {
      CoversOne(Range(0, j.size));
      assert forall x :: Covers(have, x) <==> x in Points(have);
      SameBytesSameList(have, [Range(0, j.size)]);
    }
  }

  /** A tick that leaves the record alone because the count did not move had nothing to add. */
  lemma SkippedTickLosesNothing(j: Job, s: State, a: Action, t: State)
    requires Inv(j, s) && KeepsLanded(s, a, t)
    ensures Points(t.phase.p.have) == Points(s.phase.p.have) + Points(s.phase.p.timer.parts)
  {
    var p := s.phase.p;
    var next := AddAll(p.have, p.timer.parts);
    SameCountSameSet(p.have, next);
    assert Points(next) == Points(p.have) + Points(p.timer.parts);
  }

  // ---- No worker writes where another one does ------------------------------------------------------

  ghost predicate Apart(p: Progress) {
    && (forall i, k :: 0 <= i < k < |p.workers| ==> Owes(p.workers[i]) !! Owes(p.workers[k]))
    && (forall i :: 0 <= i < |p.workers| ==> Owes(p.workers[i]) !! Points(p.todo))
  }

  /** The only step that gives a worker bytes is Take; every other leaves each with what it owed or
      less. */
  ghost predicate OnlyShrinks(p: Progress, q: Progress) {
    && q.todo == p.todo && |q.workers| == |p.workers|
    && forall i :: 0 <= i < |p.workers| ==> Owes(q.workers[i]) <= Owes(p.workers[i])
  }

  lemma FetchingShrinks(s: State, a: Action, t: State)
    requires Writes(s, a, t) || Lands(s, a, t) || Switches(s, a, t) || Finishes(s, a, t)
    ensures OnlyShrinks(s.phase.p, t.phase.p)
  {
  }

  lemma ProvingShrinks(s: State, a: Action, t: State)
    requires Fails(s, a, t) || SyncsRange(s, a, t) || Proves(s, a, t)
    ensures OnlyShrinks(s.phase.p, t.phase.p)
  {
  }

  lemma ShrinkKeepsApart(p: Progress, q: Progress)
    requires Apart(p) && OnlyShrinks(p, q)
    ensures Apart(q)
  {
  }

  lemma OthersShrink(j: Job, s: State, a: Action, t: State)
    requires s.phase.Going? && t.phase.Going? && Step(j, s, a, t) && !a.Take?
    ensures OnlyShrinks(s.phase.p, t.phase.p)
  {
    if a.Byte? || a.Land? || a.NextSource? || a.Finish? {
      FetchingShrinks(s, a, t);
    } else if a.Fail? || a.SyncRange? || a.Prove? {
      ProvingShrinks(s, a, t);
    }
  }

  lemma TakeStep(j: Job, s: State, a: Action, t: State)
    requires Step(j, s, a, t) && s.phase.Going? && a.Take?
    ensures Takes(s, a, t)
  {
  }

  lemma FirstStep(j: Job, s: State, a: Action, t: State)
    requires Step(j, s, a, t) && !s.phase.Going? && t.phase.Going?
    ensures Apart(t.phase.p)
  {
    assert Starts(j, s, a, t);
  }

  lemma StepKeepsApart(j: Job, s: State, a: Action, t: State)
    requires Step(j, s, a, t) && t.phase.Going?
    requires s.phase.Going? ==> Apart(s.phase.p) && Ordered(s.phase.p.todo, 0, j.size)
    ensures Apart(t.phase.p)
  {
    hide Step;
    if s.phase.Going? {
      var p, q := s.phase.p, t.phase.p;
      if a.Take? {
        TakeStep(j, s, a, t);
        TakeIsApart(p, q, a.i, q.workers[a.i], j.size);
      } else {
        OthersShrink(j, s, a, t);
        ShrinkKeepsApart(p, q);
      }
    } else {
      FirstStep(j, s, a, t);
    }
  }

  lemma TakeIsApart(p: Progress, q: Progress, i: nat, w: Worker, size: int)
    requires Apart(p) && Ordered(p.todo, 0, size) && p.todo != [] && i < |p.workers|
    requires q.todo == p.todo[1..] && q.workers == p.workers[i := w]
    requires Owes(w) == Interval(p.todo[0].start, p.todo[0].end)
    ensures Apart(q)
  {
    OrderedCovers(q.todo, p.todo[0].end, size);
    assert Points(p.todo) == Interval(p.todo[0].start, p.todo[0].end) + Points(q.todo);
    assert forall k :: 0 <= k < |p.workers| && k != i ==> q.workers[k] == p.workers[k];
  }

  lemma {:induction false} OrderedCovers(rs: seq<Range>, lo: int, hi: int)
    requires Ordered(rs, lo, hi)
    ensures forall x :: x in Points(rs) ==> lo <= x < hi
  {
    if rs != [] { OrderedCovers(rs[1..], rs[0].end, hi); }
  }

  /** In every run each byte is written inside its own worker's planned range, which no other
      worker has and no later worker will be given. */
  lemma {:induction false} WritesStayInRange(j: Job, states: seq<State>, actions: seq<Action>, n: nat)
    requires GuardedRun(j, states, actions) && Startable(states[0])
    requires n < |actions| && Writes(states[n], actions[n], states[n + 1])
    ensures var p, i, x := states[n].phase.p, actions[n].i, states[n].phase.p.workers[actions[n].i].at;
      && states[n + 1].disk.written == states[n].disk.written + {x}
      && p.workers[i].range.start <= x < p.workers[i].range.end && x !in Points(p.todo)
      && forall k :: 0 <= k < |p.workers| && k != i ==> x !in Owes(p.workers[k])
  {
    RunsAreCrashSafe(j, states, actions);
    for m := 0 to n
      invariant forall k :: 0 <= k <= m && states[k].phase.Going? ==> Apart(states[k].phase.p)
    {
      assert Inv(j, states[m]);
      if states[m + 1].phase.Going? { StepKeepsApart(j, states[m], actions[m], states[m + 1]); }
    }
    var s := states[n];
    var p := s.phase.p;
    var w := p.workers[actions[n].i];
    assert Inv(j, s) && GoodWorker(j, s.disk, p.stale, p.limit, w);
    assert w.at in Owes(w);
  }

  // ---- Each guard is needed --------------------------------------------------------------------------

  /** Keeping the count as a prefix claims only proven bytes exactly when the set is one prefix, or
      the record already counts as much. */
  lemma KeptCountIsProvenExactly(rec: Rec, have: seq<Range>)
    requires Canonical(have) && Points(rec.have) <= Points(have)
    ensures Points(Kept(rec, have).have) <= Points(have) <==> PrefixShaped(have) || rec.done >= Total(have)
  {
    CountIsPrefixExactly(have);
    TotalWithinReach(have);
    var count := Total(have);
    assert Points([Range(0, count)]) == Interval(0, count) by {
      CoversOne(Range(0, count));
      assert forall x :: x in Points([Range(0, count)]) <==> Covers([Range(0, count)], x);
    }
    if !PrefixShaped(have) {
      var x :| 0 <= x < count && !Covers(have, x);
      assert x in Interval(0, count) && x !in Points(have);
    }
  }

  /** The workers of a fresh run each taking a range, in order. */
  lemma {:induction false} EachTakes(j: Job, s: State, m: nat) returns (states: seq<State>, actions: seq<Action>)
    requires s.phase.Going? && m <= |s.phase.p.workers| && m <= |s.phase.p.todo|
    requires forall i :: 0 <= i < |s.phase.p.workers| ==> s.phase.p.workers[i].Free?
    ensures Run(j, states, actions) && |actions| == m && states[0] == s
    ensures states[m].disk == s.disk && states[m].rec == s.rec && states[m].phase.Going?
    ensures states[m].phase.p.todo == s.phase.p.todo[m..] && |states[m].phase.p.workers| == |s.phase.p.workers|
    ensures forall i :: m <= i < |s.phase.p.workers| ==> states[m].phase.p.workers[i].Free?
    ensures m > 0 ==> var r := s.phase.p.todo[m - 1]; states[m].phase.p.workers[m - 1] == Fetching(r, r.start, r.start, r.start)
  {
    if m == 0 {
      states, actions := [s], [];
    } else {
      states, actions := EachTakes(j, s, m - 1);
      var u := states[m - 1];
      var p, r := u.phase.p, u.phase.p.todo[0];
      var t := u.(phase := Going(p.(todo := p.todo[1..], workers := p.workers[m - 1 := Fetching(r, r.start, r.start, r.start)])));
      assert Takes(u, Take(m - 1), t);
      states, actions := states + [t], actions + [Take(m - 1)];
    }
  }

  /** One worker writing up to the end of its range while nobody syncs. */
  lemma {:induction false} BytesArrive(j: Job, s: State, i: nat) returns (states: seq<State>, actions: seq<Action>)
    requires s.phase.Going? && i < |s.phase.p.workers| && s.phase.p.workers[i].Fetching?
    requires s.phase.p.workers[i].at < s.phase.p.workers[i].range.end
    ensures Run(j, states, actions) && |actions| > 0 && states[0] == s
    ensures states[|actions|].rec == s.rec && states[|actions|].disk.synced == s.disk.synced
    ensures s.phase.p.workers[i].range.end <= states[|actions|].disk.length
    decreases s.phase.p.workers[i].range.end - s.phase.p.workers[i].at
  {
    var p, w := s.phase.p, s.phase.p.workers[i];
    var t := s.(disk := Written(s.disk, w.at), phase := Going(p.(workers := p.workers[i := w.(at := w.at + 1)])));
    assert Writes(s, Byte(i), t);
    if w.at + 1 == w.range.end {
      states, actions := [s, t], [Byte(i)];
    } else {
      states, actions := BytesArrive(j, t, i);
      states, actions := [s] + states, [Byte(i)] + actions;
    }
  }

  lemma RunsJoin(j: Job, s1: seq<State>, a1: seq<Action>, s2: seq<State>, a2: seq<Action>)
    requires Run(j, s1, a1) && Run(j, s2, a2) && s1[|a1|] == s2[0]
    ensures Run(j, Joined(s1, s2), a1 + a2)
    ensures Joined(s1, s2)[0] == s1[0] && Joined(s1, s2)[|a1 + a2|] == s2[|a2|]
  {
    hide Step, Joined;
    var s, a := Joined(s1, s2), a1 + a2;
    JoinedAt(s1, s2, 0);
    JoinedAt(s1, s2, |a|);
    forall i | 0 <= i < |a| ensures Step(j, s[i], a[i], s[i + 1]) {
      JoinedAt(s1, s2, i);
      JoinedAt(s1, s2, i + 1);
    }
  }

  /** An exposed claim is lost: the file grows past it while the record, not yet corrected, still
      claims it, and no sync has put a byte there. */
  lemma ExposedIsLost(j: Job, s: State, a: Action, t: State, x: int)
    returns (states: seq<State>, actions: seq<Action>)
    requires Inv(j, s) && Starts(j, s, a, t) && Exposed(j, s, a.todo, x)
    ensures Run(j, states, actions) && |actions| > 0 && states[0] == s && actions[0] == a
    ensures !CrashSafe(states[|actions|])
  {
    CoversBelowReach(s.rec.have);
    var n, p := j.connections, t.phase.p;
    var m := if n <= |p.todo| then n else |p.todo|;
    OrderedAt(p.todo, 0, j.size, m - 1);
    var s1, a1 := EachTakes(j, t, m);
    var s2, a2 := BytesArrive(j, s1[m], m - 1);
    RunsJoin(j, s1, a1, s2, a2);
    RunsJoin(j, [s, t], [a], Joined(s1, s2), a1 + a2);
    states, actions := Joined([s, t], Joined(s1, s2)), [a] + (a1 + a2);
    var end := states[|actions|];
    assert end == s2[|a2|];
    assert x in Points(end.rec.have) && x < end.disk.length && x !in end.disk.synced;
  }

  /** A run of it: one byte of a plan is fetched and recorded, the process is lost, the file is cut
      to nothing, and the next run starts on a record that still claims the byte. */
  lemma ExposedHappens(len: nat) returns (states: seq<State>, actions: seq<Action>)
    requires 1 < len
    ensures Run(Job(len, 1), states, actions) && Startable(states[0])
    ensures states[0].rec == Rec([], 0) && states[0].disk == Disk({}, {}, 0)
    ensures !CrashSafe(states[|actions|])
  {
    var j, todo := Job(len, 1), [Range(0, len)];
    CoversOne(Range(0, len));
    var s1, a1 := OneByteLands(len);
    var s2, a2 := OneByteRecorded(j, s1[|a1|]);
    RunsJoin(j, s1, a1, s2, a2);
    var s, rec := s2[|a2|], Rec([Range(0, 1)], 1);
    var u1, u2 := State(Disk({0}, {0}, 1), rec, Idle), State(Disk({}, {}, 0), rec, Idle);
    assert World(s, Crash(u1.disk), u1);
    assert Truncated(u1.disk, 0) == u2.disk;
    assert World(u1, Shorten(0), u2);
    RunsJoin(j, Joined(s1, s2), a1 + a2, [s, u1, u2], [Crash(u1.disk), Shorten(0)]);
    var s3, a3 := Joined(Joined(s1, s2), [s, u1, u2]), a1 + a2 + [Crash(u1.disk), Shorten(0)];
    var t := FreshStart(len, rec);
    assert Covers(rec.have, 0);
    var s4, a4 := ExposedIsLost(j, u2, Start([], todo), t, 0);
    RunsJoin(j, s3, a3, s4, a4);
    states, actions := Joined(s3, s4), a3 + a4;
  }

  lemma FreshStart(len: nat, rec: Rec) returns (t: State)
    requires 1 < len && Canonical(rec.have)
    ensures Starts(Job(len, 1), State(Disk({}, {}, 0), rec, Idle), Start([], [Range(0, len)]), t)
    ensures t == State(Disk({}, {}, 0), rec,
                       Going(Progress([], [Range(0, len)], [Free], map[], Waiting, true, len)))
  {
    var todo, s := [Range(0, len)], State(Disk({}, {}, 0), rec, Idle);
    CoversOne(Range(0, len));
    CoversBelowReach(rec.have);
    t := s.(phase := Going(Progress([], todo, [Free], map[], Waiting, true, len)));
    assert Truncated(s.disk, len) == s.disk && AllFree(1) == [Free];
    assert Limit(todo, 1) == len;
  }

  lemma OneByteLands(len: nat) returns (states: seq<State>, actions: seq<Action>)
    requires 1 < len
    ensures Run(Job(len, 1), states, actions) && states[0] == State(Disk({}, {}, 0), Rec([], 0), Idle)
    ensures states[|actions|] == State(Disk({0}, {}, 1), Rec([], 0),
      Going(Progress([], [], [Fetching(Range(0, len), 0, 1, 1)], map[0 := 1], Waiting, true, len)))
  {
    var j, todo, r := Job(len, 1), [Range(0, len)], Range(0, len);
    var s0 := State(Disk({}, {}, 0), Rec([], 0), Idle);
    var s1 := FreshStart(len, Rec([], 0));
    var p := s1.phase.p;
    assert todo[1..] == [];
    var s2 := s1.(phase := Going(p.(todo := [], workers := [Fetching(r, 0, 0, 0)])));
    var s3 := s2.(disk := Disk({0}, {}, 1), phase := Going(p.(todo := [], workers := [Fetching(r, 0, 1, 0)])));
    var s4 := s3.(phase := Going(p.(todo := [], workers := [Fetching(r, 0, 1, 1)], landed := map[0 := 1])));
    assert forall a: Worker, b: Worker :: [a][0 := b] == [b];
    assert Takes(s1, Take(0), s2);
    assert Writes(s2, Byte(0), s3);
    assert Lands(s3, Land(0), s4);
    states, actions := [s0, s1, s2, s3, s4], [Start([], todo), Take(0), Byte(0), Land(0)];
  }

  /** The timer's tick for that byte. */
  lemma OneByteRecorded(j: Job, s: State) returns (states: seq<State>, actions: seq<Action>)
    requires s.phase.Going? && s.rec == Rec([], 0) && s.disk == Disk({0}, {}, 1)
    requires s.phase.p.have == [] && s.phase.p.landed == map[0 := 1] && s.phase.p.timer.Waiting?
    ensures Run(j, states, actions) && states[0] == s
    ensures states[|actions|].disk == Disk({0}, {0}, 1) && states[|actions|].rec == Rec([Range(0, 1)], 1)
  {
    var p, have := s.phase.p, [Range(0, 1)];
    var s1 := s.(phase := Going(p.(timer := Chosen(have))));
    var s2 := s1.(disk := Disk({0}, {0}, 1), phase := Going(p.(timer := Timer.Ready(have))));
    var s3 := s2.(rec := Rec(have, 1), phase := Going(p.(have := have, stale := false)));
    assert Chooses(s, Choose(have), s1);
    assert SyncsParts(s1, SyncParts, s2);
    assert AddAll([], have) == have;
    assert KeepsLanded(s2, KeepLanded(false), s3);
    states, actions := [s, s1, s2, s3], [Choose(have), SyncParts, KeepLanded(false)];
  }

  /** Two ranges of any length, one byte landed in the second, its record refused once for a reason
      that fences nobody: the count goes down as the prefix [0, 1), and byte 0 was never written. */
  lemma HoledCountLies(len: nat) returns (states: seq<State>, actions: seq<Action>)
    requires 0 < len
    ensures Run(Job(2 * len, 2), states, actions) && Startable(states[0]) && states[0].rec == Rec([], 0)
    ensures states[|actions|].rec.have == [Range(0, 1)] && 0 < states[|actions|].disk.length
    ensures 0 !in states[|actions|].disk.written && !CrashSafe(states[|actions|])
  {
    var j := Job(2 * len, 2);
    var s1, a1 := SecondRangeLands(len);
    hide Step, Run, Joined;
    var s2, a2 := HoledCountEnds(j, s1[|a1|], len);
    RunsJoin(j, s1, a1, s2, a2);
    states, actions := Joined(s1, s2), a1 + a2;
  }

  lemma SecondRangeLands(len: nat) returns (states: seq<State>, actions: seq<Action>)
    requires 0 < len
    ensures Run(Job(2 * len, 2), states, actions) && states[0] == State(Disk({}, {}, 0), Rec([], 0), Idle)
    ensures var t := states[|actions|];
      && t.disk == Disk({len}, {}, len + 1) && t.rec == Rec([], 0) && t.phase.Going?
      && t.phase.p.have == [] && t.phase.p.landed == map[len := len + 1] && t.phase.p.timer.Waiting?
      && |t.phase.p.workers| == 2 && t.phase.p.workers[0].Fetching? && t.phase.p.workers[1].Fetching?
  {
    var j, r0, r1 := Job(2 * len, 2), Range(0, len), Range(len, 2 * len);
    var w0, w1 := Fetching(r0, 0, 0, 0), Fetching(r1, len, len, len);
    var todo, parts, wrote := [r0, r1], [Range(len, len + 1)], w1.(at := len + 1);
    assert forall x :: Covers(todo, x) <==> 0 <= x < j.size by { CoversConcat([r0], [r1]); CoversOne(r0); CoversOne(r1); }
    var s0 := State(Disk({}, {}, 0), Rec([], 0), Idle);
    var p1 := Progress([], todo, AllFree(2), map[], Waiting, true, 2 * len);
    var s1 := s0.(disk := Truncated(s0.disk, 2 * len), phase := Going(p1));
    assert s1.disk == s0.disk && Limit(todo, j.connections) == todo[1].end;
    assert Truncated(s0.disk, j.size).length == 0;
    assert Max(0, todo[1].end) == 2 * len;
    assert AllFree(j.connections) == p1.workers;
    assert Starts(j, s0, Start([], todo), s1);
    var s2 := s1.(phase := Going(p1.(todo := [r1], workers := p1.workers[0 := w0])));
    assert todo[1..] == [r1];
    assert Takes(s1, Take(0), s2);
    var p3 := p1.(todo := [], workers := [w0, w1]);
    var s3 := s2.(phase := Going(p3));
    assert [r1][1..] == [] && p1.workers[0 := w0][1 := w1] == [w0, w1];
    assert Takes(s2, Take(1), s3);
    var d := Disk({len}, {}, len + 1);
    var s4 := s3.(disk := d, phase := Going(p3.(workers := [w0, wrote])));
    assert [w0, w1][1 := wrote] == [w0, wrote];
    assert Writes(s3, Byte(1), s4);
    var p5 := p3.(workers := [w0, wrote.(reached := len + 1)], landed := map[len := len + 1]);
    var s5 := s4.(phase := Going(p5));
    assert [w0, wrote][1 := wrote.(reached := len + 1)] == p5.workers;
    assert Lands(s4, Land(1), s5);
    states, actions := [s0, s1, s2, s3, s4, s5], [Start([], todo), Take(0), Take(1), Byte(1), Land(1)];
  }

  lemma HoledCountEnds(j: Job, s: State, at: nat) returns (states: seq<State>, actions: seq<Action>)
    requires s.phase.Going? && s.rec == Rec([], 0) && s.disk == Disk({at}, {}, at + 1) && 0 < at
    requires s.phase.p.have == [] && s.phase.p.landed == map[at := at + 1] && s.phase.p.timer.Waiting?
    requires |s.phase.p.workers| == 2 && forall i :: 0 <= i < 2 ==> s.phase.p.workers[i].Fetching?
    ensures Run(j, states, actions) && states[0] == s && |actions| == 7
    ensures states[7] == State(Disk({at}, {at}, at + 1), Rec([Range(0, 1)], 1), Idle) && !CrashSafe(states[7])
  {
    var p, have, e := s.phase.p, [Range(at, at + 1)], Disk({at}, {at}, at + 1);
    var s1 := s.(phase := Going(p.(timer := Chosen(have))));
    var s2 := s1.(disk := e, phase := Going(p.(timer := Timer.Ready(have))));
    var q := p.(have := have);
    var s3 := s2.(phase := Going(q));
    var s4 := s3.(phase := Going(q.(workers := [Failed, p.workers[1]])));
    var s5 := s4.(phase := Going(q.(workers := [Failed, Failed])));
    var s6 := s5.(phase := Ended(have, false));
    var s7 := State(e, Rec([Range(0, 1)], 1), Idle);
    assert Chooses(s, Choose(have), s1);
    assert SyncsParts(s1, SyncParts, s2);
    assert AddAll([], have) == have;
    assert KeepsLanded(s2, KeepLanded(true), s3);
    assert p.workers[0 := Failed] == [Failed, p.workers[1]] && [Failed, p.workers[1]][1 := Failed] == [Failed, Failed];
    assert Fails(s3, Fail(0), s4) && Fails(s4, Fail(1), s5);
    assert Ends(s5, End(false), s6) && KeepsCount(s6, KeepCount(false), s7);
    states := [s, s1, s2, s3, s4, s5, s6, s7];
    actions := [Choose(have), SyncParts, KeepLanded(true), Fail(0), Fail(1), End(false), KeepCount(false)];
    assert Covers(s7.rec.have, 0) && 0 in Points(s7.rec.have);
  }
}
