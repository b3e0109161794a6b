/** What a resumed transfer may do (go/resumepoint.go). */
module ResumePlan {
  import opened Options
  import opened Ranges

  // Given are the checkpoint, the file on disk and the artifact's declared size. A gap's `to` of zero
  // means "to the end of whatever the source holds".

  datatype Checkpoint<+V> = Checkpoint(prefix: int, verified: seq<Range>, validators: V)

  datatype Gap = Gap(from: int, to: int) {
    predicate Open() { to == 0 }
  }

  datatype Plan<+V> = Plan(have: seq<Range>, gaps: seq<Gap>, trim: int, discarded: int, validators: V) {
    function From(): int { if |gaps| == 0 then trim else gaps[0].from }

    predicate OneStream() { PrefixShaped(have) && |gaps| == 1 && gaps[0].Open() }
  }

  /** What stat says about the partial. */
  datatype Partial = Absent | StatFailed | Directory | File(length: nat)

  datatype Planned<+V> = Refused | Ready(plan: Plan<V>)

  /** Both fields of a checkpoint claim bytes, so what it proves is their union. */
  function Proven<V>(cp: Checkpoint<V>): (out: Option<seq<Range>>)
    ensures out.Some? ==>
      && Canonical(out.value)
      && forall x :: Covers(out.value, x) <==> Covers(cp.verified, x) || 0 <= x < cp.prefix
  {
    var folded := if cp.prefix > 0 then cp.verified + [Range(0, cp.prefix)] else cp.verified;
    CoversConcat(cp.verified, [Range(0, cp.prefix)]);
    CoversOne(Range(0, cp.prefix));
    CanonicalRanges(folded)
  }

  /** A size nobody knows, or one the proven set already runs past: nothing to divide into gaps. */
  predicate Unbounded(have: seq<Range>, size: int) { size <= 0 || Reach(have) > size }

  /** The bytes a gap asks for, once the artifact's size is known. */
  function Bytes(g: Gap, size: int): Range { Range(g.from, if g.to == 0 then size else g.to) }

  function Asked(gaps: seq<Gap>, size: int): (out: seq<Range>)
    ensures |out| == |gaps|
    ensures forall i :: 0 <= i < |gaps| ==> out[i] == Bytes(gaps[i], size)
  {
    seq(|gaps|, i requires 0 <= i < |gaps| => Bytes(gaps[i], size))
  }

  /** The gaps are exactly what is missing: one open request from the verified prefix when the
      size is no guide, and otherwise the canonical complement of the set in [0, size), open
      where and only where it runs to the end. */
  ghost predicate FillsTheRest(have: seq<Range>, gaps: seq<Gap>, size: int) {
    if Unbounded(have, size) then
      gaps == [Gap(VerifiedPrefix(have), 0)]
    else
      && Canonical(Asked(gaps, size))
      && (forall x :: Covers(Asked(gaps, size), x) <==> 0 <= x < size && !Covers(have, x))
      && forall i :: 0 <= i < |gaps| ==> (gaps[i].Open() <==> Bytes(gaps[i], size).end == size)
  }

  /** The proven set cut to the file's length: a shorter file removes claims and adds none. */
  method Clip(have: seq<Range>, length: int) returns (out: seq<Range>)
    requires Canonical(have) && 0 <= length
    ensures Canonical(out)
    ensures forall x :: Covers(out, x) <==> Covers(have, x) && x < length
    ensures Reach(out) <= length
  {
    out := [];
    var i := 0;
    while i < |have|
      invariant 0 <= i <= |have|
      invariant Canonical(out) && Reach(out) <= length
      invariant i == 0 ==> out == []
      invariant i > 0 && out != [] ==> Reach(out) <= have[i - 1].end
      invariant forall x :: Covers(out, x) <==> Covers(have[..i], x) && x < length
    {
      var r := have[i];
      ClipStep(have, i);
      if r.start >= length {
        CoversFrom(have[i..]);
        CanonicalAt(have, i);
        return;
      }
      if r.end > length { r := r.(end := length); }
      CanonicalSnoc(out, r);
      out := out + [r];
      i := i + 1;
    }
    assert have[..i] == have;
  }

  lemma ClipStep(have: seq<Range>, i: nat)
    requires Canonical(have) && i < |have|
    ensures 0 <= have[i].start < have[i].end
    ensures i > 0 ==> have[i - 1].end < have[i].start
    ensures Canonical(have[i..]) && have[i..][0] == have[i]
    ensures forall x :: Covers(have, x) <==> Covers(have[..i], x) || Covers(have[i..], x)
    ensures forall x :: Covers(have[..i + 1], x) <==> Covers(have[..i], x) || have[i].start <= x < have[i].end
  {
    CanonicalAt(have, i);
    if i > 0 { CanonicalAt(have, i - 1); }
    assert have[..i + 1] == have[..i] + [have[i]];
    CoversConcat(have[..i], [have[i]]);
    CoversOne(have[i]);
  }

  method GapsFor(have: seq<Range>, size: int) returns (gaps: seq<Gap>)
    requires Canonical(have)
    ensures FillsTheRest(have, gaps, size)
  {
    if size <= 0 || (|have| > 0 && have[|have| - 1].end > size) {
      return [Gap(VerifiedPrefix(have), 0)];
    }
    var missing := Missing(have, 0, size);
    CoversBelowReach(missing);
    assert missing != [] ==> Covers(missing, Reach(missing) - 1);
    gaps := [];
    for i := 0 to |missing|
      invariant |gaps| == i
      invariant forall j :: 0 <= j < i ==> Bytes(gaps[j], size) == missing[j]
      invariant forall j :: 0 <= j < i ==> (gaps[j].Open() <==> missing[j].end == size)
    {
      CanonicalAt(missing, i);
      var m := missing[i];
      var g := Gap(m.start, m.end);
      if m.end >= size { g := g.(to := 0); }
      gaps := gaps + [g];
    }
    assert Asked(gaps, size) == missing;
  }

  /** How much of the partial there is to keep. */
  function OnDisk(p: Partial): nat { if p.File? then p.length else 0 }

  /** Everything a plan promises about what it keeps and what it will ask for. */
  ghost predicate Honest<V>(p: Plan<V>, proven: seq<Range>, partial: Partial, size: int) {
    && Canonical(p.have)
    && (forall x :: Covers(p.have, x) <==> Covers(proven, x) && x < OnDisk(partial))
    && p.trim == Reach(p.have)
    && p.discarded == (if p.have == [] then 0 else OnDisk(partial) - p.trim)
    && FillsTheRest(p.have, p.gaps, size)
  }

  method PlanResume<V>(partial: Partial, cp: Checkpoint<V>, size: int, none: V) returns (r: Planned<V>)
    ensures r.Refused? <==>
      Proven(cp).None? || (Proven(cp).value != [] && (partial.StatFailed? || partial.Directory?))
    ensures r.Ready? ==> Honest(r.plan, Proven(cp).value, partial, size)
    ensures r.Ready? ==> r.plan.validators == if r.plan.have == [] then none else cp.validators
  {
    var proven := Proven(cp);
    if proven.None? { return Refused; }
    var have := proven.value;
    var whole := GapsFor([], size);
    if |have| == 0 { return Ready(Plan([], whole, 0, 0, none)); }
    CoversBelowReach(have);
    match partial
    case Absent => return Ready(Plan([], whole, 0, 0, none));
    case StatFailed => return Refused;
    case Directory => return Refused;
    case File(length) =>
      have := Clip(have, length);
      if |have| == 0 { return Ready(Plan([], whole, 0, 0, none)); }
      var gaps := GapsFor(have, size);
      var reach := have[|have| - 1].end;
      return Ready(Plan(have, gaps, reach, length - reach, cp.validators));
  }

  /** A known size that holds the set is split with nothing lost and nothing asked for twice. */
  lemma PlanPartitions<V>(p: Plan<V>, proven: seq<Range>, partial: Partial, size: int)
    requires Honest(p, proven, partial, size) && 0 < size && Reach(p.have) <= size
    ensures forall x :: 0 <= x < size <==> Covers(p.have, x) || Covers(Asked(p.gaps, size), x)
    ensures forall x :: !(Covers(p.have, x) && Covers(Asked(p.gaps, size), x))
    ensures Total(p.have) + Total(Asked(p.gaps, size)) == size
    ensures forall i :: 0 <= i < |p.gaps| - 1 ==> !p.gaps[i].Open()
  {
    var asked := Asked(p.gaps, size);
    CoversBelowReach(p.have);
    TotalCounts(p.have);
    TotalCounts(asked);
    IntervalSize(0, size);
    assert Points(p.have) !! Points(asked);
    assert Points(p.have) + Points(asked) == Interval(0, size);
    assert |Points(p.have) + Points(asked)| == |Points(p.have)| + |Points(asked)|;
    CoversBelowReach(asked);
    forall i | 0 <= i < |p.gaps| - 1 ensures !p.gaps[i].Open() {
      CanonicalAt(asked, i);
      CanonicalAt(asked, i + 1);
      assert Covers(asked, Reach(asked) - 1);
    }
  }

  /** Where the next request starts is the verified prefix, whatever holes there are. */
  lemma FromIsVerifiedPrefix<V>(p: Plan<V>, proven: seq<Range>, partial: Partial, size: int)
    requires Honest(p, proven, partial, size)
    ensures p.From() == VerifiedPrefix(p.have)
  {
    if !Unbounded(p.have, size) {
      PlanPartitions(p, proven, partial, size);
      PrefixIsLeadingRun(p.have);
      CoversBelowReach(p.have);
      var asked := Asked(p.gaps, size);
      CoversFrom(asked);
      var v := VerifiedPrefix(p.have);
      if asked == [] {
        assert v >= size;
      } else {
        assert Covers(asked, asked[0].start) && !Covers(p.have, asked[0].start);
        assert v < size ==> Covers(asked, v);
      }
    }
  }

  /** Hashing while writing is chosen exactly for a prefix that is not yet the whole artifact. */
  lemma OneStreamExactly<V>(p: Plan<V>, proven: seq<Range>, partial: Partial, size: int)
    requires Honest(p, proven, partial, size)
    ensures p.OneStream() <==> PrefixShaped(p.have) && !(0 < size == Reach(p.have))
  {
    if !Unbounded(p.have, size) {
      PlanPartitions(p, proven, partial, size);
      FromIsVerifiedPrefix(p, proven, partial, size);
      CoversBelowReach(p.have);
      var asked := Asked(p.gaps, size);
      if PrefixShaped(p.have) {
        PrefixIsLeadingRun(p.have);
        var rest := if Reach(p.have) == size then [] else [Range(Reach(p.have), size)];
        SameBytesSameList(asked, rest);
      }
    }
  }

  /** A set whose bytes all fit the file is kept whole, so planning twice keeps the same bytes. */
  lemma ClipIsIdentityWithin(have: seq<Range>, clipped: seq<Range>, length: int)
    requires Canonical(have) && Canonical(clipped)
    requires forall x :: Covers(clipped, x) <==> Covers(have, x) && x < length
    ensures clipped == have <==> Reach(have) <= length || have == []
  {
    CoversBelowReach(have);
    CoversBelowReach(clipped);
    if Reach(have) <= length || have == [] { SameBytesSameList(have, clipped); }
    assert have != [] ==> Covers(have, Reach(have) - 1);
  }
}
