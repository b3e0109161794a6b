/** One stream filling the gaps of a partial, and which version of the artifact every byte is of. */
module StreamTransfer {
  import opened Numbers
  import opened Options
  import opened Ranges
  import opened ResumePlan
  import opened Runs

  // The steps are those of go/runner.go (stream, fetch, restart, report, keepProven) and
  // go/fetchers.go (HTTP.get and HTTP.Fetch). Every byte of the file is labelled with the version it
  // came from; the disk has a volatile view and what a sync made durable; the record has a proven
  // set and the version its validators name.
  //
  // The server follows sections 13.1.5, 14.2 and 15.3.7 of RFC 9110 and gives every version its own
  // strong entity tag: a ranged request that names a version is answered 206 only with that version,
  // and 200 is a whole artifact. Which version a source holds may change at any moment.

  type Version = nat

  /** `done` is Progress.Done, which a delegate's report overwrites: it need not count the set. */
  datatype Rec = Rec(have: seq<Range>, done: int, version: Option<Version>)

  /** `dirty` are offsets written since the last sync with something new; `durable` is what a
      crash cannot take back except by restoring a truncation that never became durable. */
  datatype Disk = Disk(vol: map<int, Version>, length: nat, durable: map<int, Version>, dirty: set<int>)

  datatype Mem = Mem(proven: seq<Range>, seen: Option<Version>, gap: Gap, rest: seq<Gap>, restarted: bool) {
    /** A request with a Range header, and so with an If-Range when a version is known. */
    predicate Ranged() { gap.from > 0 || gap.to > 0 }
  }

  datatype Report = Silent | Chosen(at: int) | Synced(at: int)

  datatype Ending = Finished | Broken | Stopped

  datatype Pc =
    | Idle
    | Planned(m: Mem, whole: bool)
    | Fetching(m: Mem)
    | Clearing(m: Mem, answer: Option<Version>)
    | Again(m: Mem)
    | Receiving(m: Mem, w: Version, written: nat, report: Report)
    | Closing(m: Mem, ending: Ending)
    | Closed(m: Mem, ending: Ending)

  datatype State = State(disk: Disk, rec: Rec, pc: Pc)

  /** What run makes of a stream that ended well: delivered, of the wrong length, or of the wrong
      digest, the partial then removed or not. */
  datatype Verdict = Delivered | WrongLength | WrongDigest(removed: bool)

  datatype Answer = Partial(w: Version) | Misplaced | Unsatisfiable | Whole(w: Version) | NoAnswer

  datatype Action =
    | Crash(after: Disk) | Shorten(n: nat) | Recount(done: int)
    | MakePlan(plan: Plan<Option<Version>>, size: int) | RecordPlan(declared: bool, refused: bool)
    | Request(answer: Answer) | GiveUp(stopped: bool)
    | RecordClear(refused: bool) | RequestAgain(answer: Answer)
    | Byte | Choose(at: int) | SyncReport | WriteReport(refused: bool) | EndFetch(ok: bool, stopped: bool)
    | Sync(ok: bool) | Conclude(verdict: Verdict, refused: bool, retried: bool)

  // ---- Disk ---------------------------------------------------------------------------------

  function Truncated(d: Disk, n: int): Disk
    requires 0 <= n
  {
    d.(vol := map x | x in d.vol && x < n :: d.vol[x], length := Min(n, d.length))
  }

  function Flushed(d: Disk): Disk { d.(durable := d.vol, dirty := {}) }

  /** Writing a byte that is already there changes nothing, however much of it a crash undoes. */
  function Put(d: Disk, x: int, w: Version): Disk
    requires 0 <= x
  {
    if x in d.vol && d.vol[x] == w then d
    else d.(vol := d.vol[x := w], length := Max(d.length, x + 1), dirty := d.dirty + {x})
  }

  ghost predicate WellFormed(d: Disk) {
    && (forall x :: x in d.vol ==> 0 <= x < d.length)
    && (forall x :: x in d.vol && x !in d.dirty ==> x in d.durable && d.durable[x] == d.vol[x])
  }

  /** What may be found after power is lost: clean bytes are as they were, a truncation may or may
      not have reached the disk, and dirty offsets hold anything. */
  ghost predicate Survives(d: Disk, e: Disk) {
    && (forall x :: x in e.vol ==> 0 <= x < e.length)
    && (forall x :: x in d.vol && x !in d.dirty ==> x in e.vol && e.vol[x] == d.vol[x])
    && (forall x :: x !in d.vol && x !in d.dirty && x in e.vol ==> x in d.durable && e.vol[x] == d.durable[x])
    && (forall x :: 0 <= x < e.length && x !in d.vol && x !in d.dirty && x in d.durable ==> x in e.vol)
    && (e.length <= d.length || e.length - 1 in d.durable || e.length - 1 in d.dirty)
    && e.durable == e.vol && e.dirty == {}
  }

  /** The proven set after the bytes of this gap up to `at` have landed. */
  function Fold(rs: seq<Range>, from: int, at: int): (out: seq<Range>)
    requires Canonical(rs) && 0 <= from <= at
    ensures Canonical(out) && Points(out) == Points(rs) + Interval(from, at)
    ensures from == at ==> out == rs
  {
    var out := Add(rs, from, at);
    assert forall x :: x in Points(out) <==> x in Points(rs) + Interval(from, at);
    out
  }

  function Written(have: seq<Range>, version: Option<Version>): Rec { Rec(have, Total(have), version) }

  // ---- Steps --------------------------------------------------------------------------------

  function FirstOf(gaps: seq<Gap>): Gap { if gaps == [] then Gap(0, 0) else gaps[0] }

  function RestOf(gaps: seq<Gap>): seq<Gap> { if gaps == [] then [] else gaps[1..] }

  ghost predicate World(s: State, a: Action, t: State) {
    || (a.Crash? && Survives(s.disk, a.after) && t == s.(disk := a.after, pc := Idle))
    || (a.Shorten? && s.pc.Idle? && a.n < s.disk.length && t == s.(disk := Truncated(s.disk, a.n)))
    || (a.Recount? && s.pc.Idle? && t == s.(rec := s.rec.(done := a.done)))
  }

  ghost predicate Plans(s: State, a: Action, t: State) {
    && a.MakePlan? && s.pc.Idle?
    && var p := a.plan;
       && Honest(p, s.rec.have, File(s.disk.length), a.size)
       && p.validators == (if p.have == [] then None else s.rec.version)
       && 0 <= p.trim
       && t == s.(disk := Truncated(s.disk, p.trim),
                  pc := Planned(Mem(p.have, p.validators, FirstOf(p.gaps), RestOf(p.gaps), false), p.gaps == []))
  }

  /** The plan is not written down: the store refuses it, or the count already agrees with it. */
  predicate Unwritten(s: State, a: Action)
    requires a.RecordPlan? && s.pc.Planned?
  {
    a.refused || (s.rec.done == Total(s.pc.m.proven) && !a.declared)
  }

  ghost predicate Declares(s: State, a: Action, t: State) {
    && a.RecordPlan? && s.pc.Planned?
    && var m := s.pc.m;
       t == s.(rec := if Unwritten(s, a) then s.rec else Written(m.proven, m.seen),
               pc := if s.pc.whole then Closing(m, Finished) else Fetching(m))
  }

  /** The stream begins again at byte zero: the file emptied, and with it everything derived. */
  function Restarted(m: Mem): Mem { Mem([], None, Gap(0, 0), m.rest, true) }

  function Accepted(m: Mem, w: Version): Pc { Receiving(m.(seen := Some(w)), w, 0, Silent) }

  ghost predicate Requests(s: State, a: Action, t: State) {
    && a.Request? && s.pc.Fetching?
    && var m := s.pc.m;
       match a.answer {
         case Partial(w) =>
           && (m.Ranged() && m.seen.Some? ==> w == m.seen.value)
           && t == s.(pc := Accepted(m, w))
         case Whole(w) =>
           if m.Ranged() then t == s.(disk := Truncated(s.disk, 0), pc := Clearing(Restarted(m), Some(w)))
           else t == s.(pc := Accepted(m, w))
         case NoAnswer => t == s
         case _ =>
           if m.Ranged() then t == s.(disk := Truncated(s.disk, 0), pc := Clearing(Restarted(m), None))
           else t == s
       }
  }

  ghost predicate GivesUp(s: State, a: Action, t: State) {
    a.GiveUp? && s.pc.Fetching? && t == s.(pc := Closing(s.pc.m, if a.stopped then Stopped else Broken))
  }

  ghost predicate Clears(s: State, a: Action, t: State) {
    && a.RecordClear? && s.pc.Clearing?
    && if a.refused then t == s.(pc := Fetching(s.pc.m))
       else t == s.(rec := Rec([], 0, None),
                    pc := if s.pc.answer.None? then Again(s.pc.m) else Accepted(s.pc.m, s.pc.answer.value))
  }

  ghost predicate AsksAgain(s: State, a: Action, t: State) {
    && a.RequestAgain? && s.pc.Again?
    && t == s.(pc := if a.answer.Whole? then Accepted(s.pc.m, a.answer.w) else Fetching(s.pc.m))
  }

  ghost predicate Writes(s: State, a: Action, t: State) {
    && a.Byte? && s.pc.Receiving? && 0 <= s.pc.m.gap.from
    && t == s.(disk := Put(s.disk, s.pc.m.gap.from + s.pc.written, s.pc.w), pc := s.pc.(written := s.pc.written + 1))
  }

  /** A progress report: the offset is taken, the file synced, and only then the record written. */
  ghost predicate Reports(s: State, a: Action, t: State) {
    && s.pc.Receiving?
    && var m := s.pc.m;
       || (a.Choose? && m.gap.from <= a.at <= m.gap.from + s.pc.written && t == s.(pc := s.pc.(report := Chosen(a.at))))
       || (a.SyncReport? && s.pc.report.Chosen?
           && t == s.(disk := Flushed(s.disk), pc := s.pc.(report := Synced(s.pc.report.at))))
  }

  ghost predicate Records(s: State, a: Action, t: State) {
    && a.WriteReport? && s.pc.Receiving? && s.pc.report.Synced?
    && var m := s.pc.m;
       && Canonical(m.proven) && 0 <= m.gap.from <= s.pc.report.at
       && var next := Fold(m.proven, m.gap.from, s.pc.report.at);
          if a.refused then t == s.(pc := s.pc.(report := Silent))
          else t == s.(rec := Written(next, m.seen), pc := s.pc.(report := Silent, m := m.(proven := next)))
  }

  /** Where a fetch leaves off: the next gap, the next source for this gap, or the end. */
  function AfterFetch(m: Mem, written: nat, ok: bool, stopped: bool): Pc {
    if ok then
      if m.restarted || m.rest == [] then Closing(m, Finished)
      else Fetching(m.(gap := m.rest[0], rest := m.rest[1..]))
    else if stopped then Closing(m, Stopped)
    else if written > 0 then Closing(m, Broken)
    else Fetching(m)
  }

  ghost predicate Ends(s: State, a: Action, t: State) {
    && a.EndFetch? && s.pc.Receiving? && Canonical(s.pc.m.proven) && 0 <= s.pc.m.gap.from
    && var m := s.pc.m;
       var next := m.(proven := Fold(m.proven, m.gap.from, m.gap.from + s.pc.written));
       t == s.(pc := AfterFetch(next, s.pc.written, a.ok, a.stopped))
  }

  ghost predicate Closes(s: State, a: Action, t: State) {
    a.Sync? && s.pc.Closing?
    && t == (if a.ok then s.(disk := Flushed(s.disk), pc := Closed(s.pc.m, s.pc.ending)) else s.(pc := Idle))
  }

  /** keepProven: a prefix, where the record does not already count as much. */
  function Kept(r: Rec, m: Mem): Rec {
    var prefix := VerifiedPrefix(m.proven);
    if prefix <= 0 || r.done >= prefix then r else Written([Range(0, prefix)], m.seen)
  }

  /** What is written down after the last sync: all of it when stopped, the leading run when the
      sources failed or the length is wrong, nothing when the digest is. */
  function Concluded(r: Rec, m: Mem, ending: Ending, verdict: Verdict): Rec {
    match ending
    case Stopped => Written(m.proven, m.seen)
    case Broken => Kept(r, m)
    case Finished =>
      match verdict
      case Delivered => r
      case WrongLength => Kept(r, m)
      case WrongDigest(_) => Rec([], 0, None)
  }

  /** A refused write leaves the record; after a stop, run still offers the leading run of it. */
  ghost predicate Concludes(s: State, a: Action, t: State) {
    && a.Conclude? && s.pc.Closed?
    && var removes := s.pc.ending.Finished? && a.verdict.WrongDigest? && a.verdict.removed;
       t == State(if removes then Truncated(s.disk, 0) else s.disk,
                  if !a.refused then Concluded(s.rec, s.pc.m, s.pc.ending, a.verdict)
                  else if a.retried && s.pc.ending.Stopped? then Kept(s.rec, s.pc.m) else s.rec,
                  Idle)
  }

  ghost predicate Step(s: State, a: Action, t: State) {
    || World(s, a, t) || Plans(s, a, t) || Declares(s, a, t) || Requests(s, a, t) || GivesUp(s, a, t)
    || Clears(s, a, t) || AsksAgain(s, a, t) || Writes(s, a, t) || Reports(s, a, t) || Records(s, a, t)
    || Ends(s, a, t) || Closes(s, a, t) || Concludes(s, a, t)
  }

  // ---- What every reachable state keeps ------------------------------------------------------

  /** Offset x lies past everything the disk holds or may still hold. */
  ghost predicate Beyond(d: Disk, x: int) {
    x >= d.length && forall y :: y in d.durable || y in d.dirty ==> y < x
  }

  ghost predicate Sound(d: Disk, v: Option<Version>, x: int) {
    && x !in d.dirty
    && (x < d.length ==> x in d.vol && (v.Some? ==> d.vol[x] == v.value))
    && (x in d.durable && v.Some? ==> d.durable[x] == v.value)
    && (x in d.durable || Beyond(d, x))
  }

  /** Every claimed byte, up to the file's length, is on the disk, durable, and of version v if
      there is one. */
  ghost predicate AllSound(d: Disk, v: Option<Version>, claims: set<int>) {
    forall x :: x in claims ==> Sound(d, v, x)
  }

  /** The main claim: what the record proves is on the disk to stay, and all of the one version the
      recorded validators name. */
  ghost predicate NoSplice(s: State) { AllSound(s.disk, s.rec.version, Points(s.rec.have)) }

  /** The proven set in memory is in the file and of the version last seen, if one was. */
  ghost predicate InFile(d: Disk, v: Option<Version>, claims: set<int>) {
    forall x :: x in claims ==> x in d.vol && (v.Some? ==> d.vol[x] == v.value)
  }

  /** What is kept is of a version that is known. */
  predicate Versioned(m: Mem) { m.proven == [] || m.seen.Some? }

  ghost predicate Later(m: Mem) { 0 <= m.gap.from && forall i :: 0 <= i < |m.rest| ==> 0 < m.rest[i].from }

  /** No request for a gap goes out unconditionally while there is anything to protect. */
  ghost predicate Asks(m: Mem) { Later(m) && (m.Ranged() || m.proven == []) }

  ghost predicate Linked(r: Rec, m: Mem) {
    Points(r.have) <= Points(m.proven) && (Points(r.have) == {} || r.version == m.seen)
  }

  ghost predicate Holds(s: State, m: Mem) {
    Canonical(m.proven) && Versioned(m) && InFile(s.disk, m.seen, Points(m.proven)) && Linked(s.rec, m)
  }

  /** The bytes of the current gap that have arrived, and how far a pending report has got. */
  ghost predicate Arrived(d: Disk, m: Mem, w: Version, written: nat, report: Report) {
    && m.seen == Some(w)
    && InFile(d, Some(w), Interval(m.gap.from, m.gap.from + written))
    && (!report.Silent? ==> m.gap.from <= report.at <= m.gap.from + written)
    && (report.Synced? ==> d.dirty !! Points(m.proven) + Interval(m.gap.from, report.at))
  }

  ghost predicate At(s: State) {
    match s.pc
    case Idle => true
    case Planned(m, whole) =>
      && Canonical(m.proven) && InFile(s.disk, m.seen, Points(m.proven)) && s.disk.dirty !! Points(m.proven)
      && (whole || (Asks(m) && Versioned(m))) && Points(m.proven) <= Points(s.rec.have)
      && (m.proven == [] || m.seen == s.rec.version)
    case Fetching(m) => Holds(s, m) && Asks(m)
    case Again(m) => m.proven == [] && m.gap == Gap(0, 0) && Asks(m) && Points(s.rec.have) == {}
    case Clearing(m, _) => m.proven == [] && m.gap == Gap(0, 0) && Asks(m) && s.disk.length == 0
    case Receiving(m, w, written, report) =>
      Holds(s, m) && Later(m) && (written == 0 ==> Asks(m)) && Arrived(s.disk, m, w, written, report)
    case Closing(m, _) => Canonical(m.proven) && InFile(s.disk, m.seen, Points(m.proven))
    case Closed(m, _) => Canonical(m.proven) && InFile(s.disk, m.seen, Points(m.proven)) && s.disk.dirty == {}
  }

  ghost predicate Inv(s: State) { WellFormed(s.disk) && Canonical(s.rec.have) && NoSplice(s) && At(s) }

  /** The plan would send a request with neither a Range nor an If-Range while it keeps bytes: the
      kept set does not start at zero and no size bounds its gaps. */
  predicate Unconditional(have: seq<Range>, size: int) {
    have != [] && VerifiedPrefix(have) == 0 && Unbounded(have, size)
  }

  /** Bytes are kept of a version the record does not name, and more is asked for. */
  predicate Unnamed(r: Rec, p: Plan<Option<Version>>) { r.version.None? && p.have != [] && p.gaps != [] }

  /** A step that keeps to the conditions under which the claim is made: no unconditional plan, none
      that keeps bytes of no named version, and neither of the two writes the code goes on without is missing, unless there was nothing
      for it to take back or nothing is fetched. */
  ghost predicate Guarded(s: State, a: Action) {
    && (a.MakePlan? ==> !Unconditional(a.plan.have, a.size) && !Unnamed(s.rec, a.plan))
    && (a.RecordPlan? && s.pc.Planned? && !s.pc.whole && Unwritten(s, a) ==>
          Points(s.rec.have) <= Points(s.pc.m.proven))
    && (a.RecordClear? && a.refused ==> Points(s.rec.have) == {})
  }

  // ---- The disk under each kind of write -----------------------------------------------------

  lemma CrashKeeps(d: Disk, e: Disk, v: Option<Version>, claims: set<int>)
    requires WellFormed(d) && Survives(d, e) && AllSound(d, v, claims)
    ensures WellFormed(e) && AllSound(e, v, claims)
  {
    forall x | x in claims ensures Sound(e, v, x) {
      assert Sound(d, v, x);
    }
  }

  /** Truncating takes nothing from a record: what it still claims is durable or out of reach. */
  lemma TruncateKeeps(d: Disk, n: nat, v: Option<Version>, claims: set<int>)
    requires WellFormed(d) && AllSound(d, v, claims)
    ensures WellFormed(Truncated(d, n)) && AllSound(Truncated(d, n), v, claims)
  {
    forall x | x in claims ensures Sound(Truncated(d, n), v, x) {
      assert Sound(d, v, x);
    }
  }

  lemma FlushKeeps(d: Disk, v: Option<Version>, claims: set<int>)
    requires WellFormed(d) && AllSound(d, v, claims)
    ensures WellFormed(Flushed(d)) && AllSound(Flushed(d), v, claims)
  {
    forall x | x in claims ensures Sound(Flushed(d), v, x) {
      assert Sound(d, v, x);
    }
  }

  /** A byte of the version in hand harms no claim that is itself in the file. */
  lemma PutKeeps(d: Disk, x: int, w: Version, v: Option<Version>, claims: set<int>, held: set<int>)
    requires WellFormed(d) && AllSound(d, v, claims) && 0 <= x
    requires claims <= held && InFile(d, Some(w), held) && (claims == {} || v == Some(w))
    ensures WellFormed(Put(d, x, w)) && AllSound(Put(d, x, w), v, claims)
    ensures InFile(Put(d, x, w), Some(w), held + {x})
  {
    forall y | y in claims ensures Sound(Put(d, x, w), v, y) {
      assert Sound(d, v, y);
      assert y in held;
    }
  }

  /** Bytes in the file, of one version and synced, may be claimed. */
  lemma SyncedIsSound(d: Disk, v: Option<Version>, claims: set<int>)
    requires WellFormed(d) && InFile(d, v, claims) && d.dirty !! claims
    ensures AllSound(d, v, claims)
  {
    forall x | x in claims ensures Sound(d, v, x) {
      assert x in d.vol && x !in d.dirty;
    }
  }

  // ---- One step ------------------------------------------------------------------------------

  lemma WorldKeeps(s: State, a: Action, t: State)
    requires Inv(s) && World(s, a, t)
    ensures Inv(t)
  {
    if a.Crash? {
      CrashKeeps(s.disk, a.after, s.rec.version, Points(s.rec.have));
    } else if a.Shorten? {
      TruncateKeeps(s.disk, a.n, s.rec.version, Points(s.rec.have));
    }
  }

  /** Every gap of a guarded plan goes out with a Range, unless nothing is kept. */
  lemma PlanAsks(p: Plan<Option<Version>>, have: seq<Range>, length: nat, size: int)
    requires Honest(p, have, File(length), size) && !Unconditional(p.have, size)
    ensures Asks(Mem(p.have, p.validators, FirstOf(p.gaps), RestOf(p.gaps), false)) || p.gaps == []
  {
    PrefixIsLeadingRun(p.have);
    if !Unbounded(p.have, size) && p.gaps != [] {
      var asked := Asked(p.gaps, size);
      forall i | 0 <= i < |asked| ensures 0 <= asked[i].start && (0 < i ==> 0 < asked[i].start) {
        CanonicalAt(asked, i);
        if 0 < i { CanonicalAt(asked, i - 1); }
      }
      assert asked[0] == Bytes(p.gaps[0], size);
      CoversBelowReach(p.have);
      CanonicalAt(asked, 0);
      assert p.have != [] ==> !Covers(asked, Reach(p.have) - 1);
    }
  }

  /** What a truncated file still holds of the claims below its new length. */
  lemma KeptByPlan(d: Disk, n: nat, v: Option<Version>, claims: set<int>, kept: set<int>)
    requires AllSound(d, v, claims) && kept <= claims && forall x :: x in kept ==> x < n && x < d.length
    ensures InFile(Truncated(d, n), v, kept) && d.dirty !! kept
  {
    forall x | x in kept ensures x in d.vol && (v.Some? ==> d.vol[x] == v.value) && x !in d.dirty {
      assert Sound(d, v, x);
    }
  }

  /** The bytes a plan keeps are claimed, and inside the file it keeps. */
  lemma PlanWithin(p: Plan<Option<Version>>, have: seq<Range>, length: nat, size: int)
    requires Honest(p, have, File(length), size)
    ensures 0 <= p.trim && Points(p.have) <= Points(have)
    ensures forall x :: x in Points(p.have) ==> x < p.trim && x < length
  {
    CoversBelowReach(p.have);
  }

  lemma PlannedAt(s: State, p: Plan<Option<Version>>, t: State)
    requires t.pc == Planned(Mem(p.have, p.validators, FirstOf(p.gaps), RestOf(p.gaps), false), p.gaps == [])
    requires t.rec == s.rec && Canonical(p.have) && (p.validators == if p.have == [] then None else s.rec.version)
    requires (t.pc.whole || (Asks(t.pc.m) && Versioned(t.pc.m))) && InFile(t.disk, s.rec.version, Points(p.have)) && t.disk.dirty !! Points(p.have)
    requires Points(p.have) <= Points(s.rec.have)
    ensures At(t)
  {
  }

  lemma PlansKeeps(s: State, a: Action, t: State)
    requires Inv(s) && Guarded(s, a) && Plans(s, a, t)
    ensures Inv(t)
  {
    var p, v, claims := a.plan, s.rec.version, Points(s.rec.have);
    TruncateKeeps(s.disk, p.trim, v, claims);
    PlanAsks(p, s.rec.have, s.disk.length, a.size);
    PlanWithin(p, s.rec.have, s.disk.length, a.size);
    KeptByPlan(s.disk, p.trim, v, claims, Points(p.have));
    assert p.have == [] ==> Points(p.have) == {};
    PlannedAt(s, p, t);
  }

  lemma DeclaresKeeps(s: State, a: Action, t: State)
    requires Inv(s) && Guarded(s, a) && Declares(s, a, t)
    ensures Inv(t)
  {
    var m := s.pc.m;
    SyncedIsSound(s.disk, m.seen, Points(m.proven));
  }

  /** Where the record's count is that of its set, a plan left unwritten because the count agrees
      had nothing to take back. */
  lemma CountedPlanIsWritten(s: State, a: Action)
    requires Inv(s) && s.pc.Planned? && a.RecordPlan? && !a.refused && Unwritten(s, a)
    requires s.rec.done == Total(s.rec.have)
    ensures s.rec.have == s.pc.m.proven
  {
    var m := s.pc.m;
    assert forall x :: Covers(m.proven, x) <==> x in Points(m.proven);
    assert forall x :: Covers(s.rec.have, x) <==> x in Points(s.rec.have);
    SameCountSameSet(m.proven, s.rec.have);
  }

  lemma RequestsKeeps(s: State, a: Action, t: State)
    requires Inv(s) && Requests(s, a, t)
    ensures Inv(t)
  {
    TruncateKeeps(s.disk, 0, s.rec.version, Points(s.rec.have));
    var m := s.pc.m;
    assert m.proven == [] ==> Points(m.proven) == {};
    assert m.seen.None? ==> Points(m.proven) == {};
  }

  lemma ClearsKeeps(s: State, a: Action, t: State)
    requires Inv(s) && Guarded(s, a) && (Clears(s, a, t) || AsksAgain(s, a, t) || GivesUp(s, a, t))
    ensures Inv(t)
  {
    assert s.pc.m.proven == [] ==> Points(s.pc.m.proven) == {};
  }

  /** A byte arriving leaves what had arrived, and is itself there; nothing held becomes dirty. */
  lemma ByteArrives(d: Disk, m: Mem, w: Version, written: nat, report: Report)
    requires WellFormed(d) && 0 <= m.gap.from && Arrived(d, m, w, written, report)
    requires InFile(d, m.seen, Points(m.proven))
    ensures Arrived(Put(d, m.gap.from + written, w), m, w, written + 1, report)
  {
    var at := m.gap.from + written;
    var held := Points(m.proven) + Interval(m.gap.from, at);
    assert Interval(m.gap.from, at + 1) == Interval(m.gap.from, at) + {at};
    PutIsClean(d, at, w, held);
    if report.Synced? { assert Points(m.proven) + Interval(m.gap.from, report.at) <= held; }
  }

  /** A byte arriving dirties nothing that had already arrived. */
  lemma PutIsClean(d: Disk, x: int, w: Version, held: set<int>)
    requires 0 <= x && InFile(d, Some(w), held)
    ensures Put(d, x, w).dirty * held == d.dirty * held
  {
  }

  lemma WritesKeeps(s: State, a: Action, t: State)
    requires Inv(s) && Writes(s, a, t)
    ensures Inv(t)
  {
    var m, w := s.pc.m, s.pc.w;
    PutKeeps(s.disk, m.gap.from + s.pc.written, w, s.rec.version, Points(s.rec.have), Points(m.proven));
    ByteArrives(s.disk, m, w, s.pc.written, s.pc.report);
  }

  lemma ReportsKeeps(s: State, a: Action, t: State)
    requires Inv(s) && Reports(s, a, t)
    ensures Inv(t)
  {
    FlushKeeps(s.disk, s.rec.version, Points(s.rec.have));
  }

  /** What a report writes down was synced after it was chosen. */
  lemma RecordsKeeps(s: State, a: Action, t: State)
    requires Inv(s) && Records(s, a, t)
    ensures Inv(t)
  {
    var m, at := s.pc.m, s.pc.report.at;
    var next := Fold(m.proven, m.gap.from, at);
    assert Interval(m.gap.from, at) <= Interval(m.gap.from, m.gap.from + s.pc.written);
    SyncedIsSound(s.disk, m.seen, Points(next));
  }

  lemma EndsKeeps(s: State, a: Action, t: State)
    requires Inv(s) && Ends(s, a, t)
    ensures Inv(t)
  {
    var m := s.pc.m;
    var next := Fold(m.proven, m.gap.from, m.gap.from + s.pc.written);
    if s.pc.written == 0 { assert Interval(m.gap.from, m.gap.from) == {}; }
  }

  lemma ClosesKeeps(s: State, a: Action, t: State)
    requires Inv(s) && (Closes(s, a, t) || Concludes(s, a, t))
    ensures Inv(t)
  {
    var m := s.pc.m;
    FlushKeeps(s.disk, s.rec.version, Points(s.rec.have));
    if Concludes(s, a, t) {
      TruncateKeeps(s.disk, 0, s.rec.version, Points(s.rec.have));
      SyncedIsSound(s.disk, m.seen, Points(m.proven));
      PrefixIsLeadingRun(m.proven);
      CoversOne(Range(0, VerifiedPrefix(m.proven)));
      SyncedIsSound(s.disk, m.seen, Points([Range(0, VerifiedPrefix(m.proven))]));
    }
  }

  lemma StepKeeps(s: State, a: Action, t: State)
    requires Inv(s) && Guarded(s, a) && Step(s, a, t)
    ensures Inv(t)
  {
    if World(s, a, t) { WorldKeeps(s, a, t); }
    else if Plans(s, a, t) { PlansKeeps(s, a, t); }
    else if Declares(s, a, t) { DeclaresKeeps(s, a, t); }
    else if Requests(s, a, t) { RequestsKeeps(s, a, t); }
    else if Clears(s, a, t) || AsksAgain(s, a, t) || GivesUp(s, a, t) { ClearsKeeps(s, a, t); }
    else if Writes(s, a, t) { WritesKeeps(s, a, t); }
    else if Reports(s, a, t) { ReportsKeeps(s, a, t); }
    else if Records(s, a, t) { RecordsKeeps(s, a, t); }
    else if Ends(s, a, t) { EndsKeeps(s, a, t); }
    else { ClosesKeeps(s, a, t); }
  }

  // ---- Whole runs ----------------------------------------------------------------------------

  ghost predicate Run(states: seq<State>, actions: seq<Action>) {
    && |states| == |actions| + 1
    && forall i :: 0 <= i < |actions| ==> Step(states[i], actions[i], states[i + 1])
  }

  ghost predicate GuardedRun(states: seq<State>, actions: seq<Action>) {
    Run(states, actions) && forall i :: 0 <= i < |actions| ==> Guarded(states[i], actions[i])
  }

  /** Any job between attempts whose record is true: whatever set it names, with holes or without,
      is in the file to stay, as far as the file goes, and of the version it names. */
  ghost predicate Startable(s: State) {
    s.pc.Idle? && WellFormed(s.disk) && Canonical(s.rec.have) && NoSplice(s)
  }

  /** A job nobody has fetched anything for, whatever file is lying at its partial path. */
  lemma FreshIsStartable(d: Disk, done: int)
    requires WellFormed(d)
    ensures Startable(State(d, Rec([], done, None), Idle))
  {
  }

  /** Over every run, through resumes, restarts, failing sources, refused reports, lost processes
      and lost power, no record ever proves a byte of a version other than the one it names. */
  lemma {:induction false} NoRunSplices(states: seq<State>, actions: seq<Action>)
    requires GuardedRun(states, actions) && Startable(states[0])
    ensures forall i :: 0 <= i < |states| ==> Inv(states[i]) && NoSplice(states[i])
  {
    assert Inv(states[0]);
    for n := 0 to |actions|
      invariant forall i :: 0 <= i <= n ==> Inv(states[i])
    {
      StepKeeps(states[n], actions[n], states[n + 1]);
    }
  }

  /** Crash safety, as the next owner sees it: whatever a crash leaves of the file, every recorded
      byte inside its length is there, and is of the version the recorded validators name, if they
      name one. */
  lemma AfterAnyCrash(states: seq<State>, actions: seq<Action>, left: Disk, x: int)
    requires GuardedRun(states, actions) && Startable(states[0])
    requires Survives(states[|actions|].disk, left)
    requires Covers(states[|actions|].rec.have, x) && x < left.length
    ensures var v := states[|actions|].rec.version; x in left.vol && (v.None? || v == Some(left.vol[x]))
  {
    NoRunSplices(states, actions);
    var s := states[|actions|];
    assert NoSplice(s) && x in Points(s.rec.have);
    CrashKeeps(s.disk, left, s.rec.version, Points(s.rec.have));
    assert Sound(left, s.rec.version, x);
  }

  // ---- Each guard is needed --------------------------------------------------------------------

  lemma RunsJoin(s1: seq<State>, a1: seq<Action>, s2: seq<State>, a2: seq<Action>)
    requires Run(s1, a1) && Run(s2, a2) && s1[|a1|] == s2[0]
    ensures Run(Joined(s1, s2), a1 + a2)
    ensures Joined(s1, s2)[0] == s1[0] && Joined(s1, s2)[|a1 + a2|] == s2[|a2|]
  {
    hide Step, Joined;
    var s, a := Joined(s1, s2), a1 + a2;
    JoinedAt(s1, s2, 0);
    JoinedAt(s1, s2, |a|);
    forall i | 0 <= i < |a| ensures Step(s[i], a[i], s[i + 1]) {
      JoinedAt(s1, s2, i);
      JoinedAt(s1, s2, i + 1);
    }
  }

  lemma RunAfter(s: State, a: Action, t: State, states: seq<State>, actions: seq<Action>)
    requires Step(s, a, t) && Run(states, actions) && states[0] == t
    ensures Run([s] + states, [a] + actions) && ([s] + states)[|actions| + 1] == states[|actions|]
  {
    hide Step;
    var ss, as' := [s] + states, [a] + actions;
    forall i | 0 <= i < |as'| ensures Step(ss[i], as'[i], ss[i + 1]) {
      if i > 0 { assert ss[i] == states[i - 1] && as'[i] == actions[i - 1]; }
    }
  }

  lemma RunThen(states: seq<State>, actions: seq<Action>, a: Action, t: State)
    requires Run(states, actions) && Step(states[|actions|], a, t)
    ensures Run(states + [t], actions + [a]) && (states + [t])[0] == states[0]
  {
    hide Step;
    var ss, as' := states + [t], actions + [a];
    forall i | 0 <= i < |as'| ensures Step(ss[i], as'[i], ss[i + 1]) {
      if i < |actions| { assert ss[i] == states[i] && ss[i + 1] == states[i + 1] && as'[i] == actions[i]; }
    }
  }

  /** Nothing here is a write the guard is about. */
  predicate Fetches(actions: seq<Action>) { forall a :: a in actions ==> a.Request? || a.Byte? || a.EndFetch? }

  /** Bytes of the version in hand arriving one after another. */
  lemma {:induction false} BytesArrive(s: State, n: nat) returns (states: seq<State>, actions: seq<Action>)
    requires s.pc.Receiving? && 0 <= s.pc.m.gap.from && WellFormed(s.disk)
    ensures Run(states, actions) && |actions| == n && states[0] == s && Fetches(actions)
    ensures states[n].rec == s.rec && states[n].pc == s.pc.(written := s.pc.written + n)
    ensures WellFormed(states[n].disk)
    ensures forall x :: x in s.disk.dirty ==> x in states[n].disk.dirty
    ensures forall x :: Inside(s.pc.m.gap.from + s.pc.written, x, s.pc.m.gap.from + s.pc.written + n) ==>
      && x in states[n].disk.vol && states[n].disk.vol[x] == s.pc.w
      && (x in s.disk.vol || x in states[n].disk.dirty)
    ensures forall x :: !Inside(s.pc.m.gap.from + s.pc.written, x, s.pc.m.gap.from + s.pc.written + n) ==>
      (x in states[n].disk.vol <==> x in s.disk.vol) && (x in s.disk.vol ==> states[n].disk.vol[x] == s.disk.vol[x])
  {
    if n == 0 {
      states, actions := [s], [];
    } else {
      states, actions := BytesArrive(s, n - 1);
      var u := states[n - 1];
      var t := u.(disk := Put(u.disk, u.pc.m.gap.from + u.pc.written, u.pc.w), pc := u.pc.(written := u.pc.written + 1));
      assert Step(u, Byte, t) by { assert Writes(u, Byte, t); }
      states, actions := states + [t], actions + [Byte];
    }
  }

  // ---- Going from gap to gap ---------------------------------------------------------------------

  function Todo(m: Mem): seq<Gap> { [m.gap] + m.rest }

  /** Gaps one after another, each but the last with an end. */
  predicate InOrder(gaps: seq<Gap>) {
    && gaps != [] && 0 <= gaps[0].from
    && forall i :: 0 <= i < |gaps| - 1 ==> gaps[i].from < gaps[i].to <= gaps[i + 1].from
  }

  ghost predicate Filled(d: Disk, e: Disk, from: int, to: int, w: Version) {
    && (forall x :: Inside(from, x, to) ==> x in e.vol && e.vol[x] == w)
    && (forall x :: !Inside(from, x, to) ==> (x in e.vol <==> x in d.vol) && (x in d.vol ==> e.vol[x] == d.vol[x]))
  }

  /** A gap with an end, answered with its bytes: the stream goes on to the next one. */
  lemma FillGap(s: State, w: Version) returns (states: seq<State>, actions: seq<Action>)
    requires s.pc.Fetching? && WellFormed(s.disk) && Canonical(s.pc.m.proven)
    requires !s.pc.m.restarted && s.pc.m.rest != [] && InOrder(Todo(s.pc.m)) && (s.pc.m.seen.None? || s.pc.m.seen == Some(w))
    ensures Run(states, actions) && states[0] == s && Fetches(actions)
    ensures var m, t := s.pc.m, states[|actions|];
      && t.rec == s.rec && t.pc.Fetching? && WellFormed(t.disk) && Filled(s.disk, t.disk, m.gap.from, m.gap.to, w)
      && t.pc.m == Mem(Fold(m.proven, m.gap.from, m.gap.to), Some(w), m.rest[0], m.rest[1..], false)
  {
    var m, n := s.pc.m, s.pc.m.gap.to - s.pc.m.gap.from;
    assert Todo(m)[0] == m.gap && Todo(m)[1] == m.rest[0] && n > 0;
    var s1 := s.(pc := Accepted(m, w));
    assert Requests(s, Request(Answer.Partial(w)), s1);
    states, actions := BytesArrive(s1, n);
    var u := states[n];
    var t := u.(pc := Fetching(Mem(Fold(m.proven, m.gap.from, m.gap.to), Some(w), m.rest[0], m.rest[1..], false)));
    assert Ends(u, EndFetch(true, false), t);
    RunThen(states, actions, EndFetch(true, false), t);
    states, actions := states + [t], actions + [EndFetch(true, false)];
    RunAfter(s, Request(Answer.Partial(w)), s1, states, actions);
    states, actions := [s] + states, [Request(Answer.Partial(w))] + actions;
  }

  lemma NextInOrder(m: Mem)
    requires InOrder(Todo(m)) && m.rest != []
    ensures Todo(m)[1..] == m.rest && InOrder(m.rest) && m.gap.from < m.gap.to <= m.rest[0].from <= m.rest[|m.rest| - 1].from
    decreases |m.rest|
  {
    var gaps := Todo(m);
    assert gaps[0] == m.gap && forall i :: 0 <= i < |m.rest| ==> gaps[i + 1] == m.rest[i];
    forall i | 0 <= i < |m.rest| - 1 ensures m.rest[i].from < m.rest[i].to <= m.rest[i + 1].from {
      assert gaps[i + 1].from < gaps[i + 1].to <= gaps[i + 2].from;
    }
    Ascend(m.rest);
  }

  lemma {:induction false} Ascend(gaps: seq<Gap>)
    requires InOrder(gaps)
    ensures 0 <= gaps[0].from <= gaps[|gaps| - 1].from
    decreases |gaps|
  {
    if |gaps| > 1 {
      assert gaps[0].from < gaps[0].to <= gaps[1].from;
      assert forall i :: 0 <= i < |gaps| - 1 ==> gaps[1..][i] == gaps[i + 1];
      Ascend(gaps[1..]);
    }
  }

  /** Every gap but the last one filled; nothing is written where the last one starts or after. */
  lemma {:induction false} WalkGaps(s: State, w: Version) returns (states: seq<State>, actions: seq<Action>)
    requires s.pc.Fetching? && WellFormed(s.disk) && Canonical(s.pc.m.proven) && !s.pc.m.restarted
    requires InOrder(Todo(s.pc.m)) && (s.pc.m.seen.None? || s.pc.m.seen == Some(w))
    ensures Run(states, actions) && states[0] == s && Fetches(actions)
    ensures var gaps, t := Todo(s.pc.m), states[|actions|];
      && t.rec == s.rec && t.pc.Fetching? && WellFormed(t.disk) && Canonical(t.pc.m.proven)
      && (t.pc.m.seen == s.pc.m.seen || t.pc.m.seen == Some(w)) && !t.pc.m.restarted
      && t.pc.m.gap == gaps[|gaps| - 1] && t.pc.m.rest == []
      && forall x :: t.pc.m.gap.from <= x && x in t.disk.vol ==> x in s.disk.vol
    decreases |s.pc.m.rest|
  {
    var m := s.pc.m;
    if m.rest == [] {
      states, actions := [s], [];
    } else {
      NextInOrder(m);
      var s1, a1 := FillGap(s, w);
      var u := s1[|a1|];
      assert Todo(u.pc.m) == m.rest;
      var s2, a2 := WalkGaps(u, w);
      RunsJoin(s1, a1, s2, a2);
      states, actions := Joined(s1, s2), a1 + a2;
    }
  }

  /** The gaps of a plan are such a list, and its last one starts no later than any byte past what
      the plan keeps. */
  lemma PlanInOrder(p: Plan<Option<Version>>, have: seq<Range>, length: nat, size: int)
    requires Honest(p, have, File(length), size) && p.gaps != []
    ensures InOrder(p.gaps) && 0 <= Reach(p.have)
    ensures p.gaps[|p.gaps| - 1].from <= Reach(p.have)
  {
    PrefixIsLeadingRun(p.have);
    if !Unbounded(p.have, size) {
      var asked, n := Asked(p.gaps, size), |p.gaps|;
      CoversBelowReach(asked);
      forall i | 0 <= i < n - 1 ensures p.gaps[i].from < p.gaps[i].to <= p.gaps[i + 1].from {
        CanonicalAt(asked, i);
        CanonicalAt(asked, i + 1);
        assert Covers(asked, Reach(asked) - 1);
        assert asked[i] == Bytes(p.gaps[i], size) && asked[i + 1] == Bytes(p.gaps[i + 1], size);
      }
      CanonicalAt(asked, 0);
      assert asked[0] == Bytes(p.gaps[0], size);
      LastGapStarts(p.have, asked, size);
      assert asked[n - 1] == Bytes(p.gaps[n - 1], size);
    }
  }

  lemma LastGapStarts(have: seq<Range>, asked: seq<Range>, size: int)
    requires Canonical(have) && Canonical(asked) && asked != []
    requires forall x :: Covers(asked, x) <==> 0 <= x < size && !Covers(have, x)
    ensures asked[|asked| - 1].start <= Reach(have)
  {
    var n := |asked| - 1;
    CanonicalAt(asked, n);
    CoversBelowReach(have);
    CoversBelowReach(asked);
    CoversFrom(asked[n..]);
    CoversBelowReach(asked[..n]);
    var x := asked[n].start;
    assert Covers(asked[n..], x) && Covers(asked, x);
    if x > 0 { assert !Covers(asked, x - 1); }
  }

  /** What a plan keeps, guarded or not, is in the file and of the recorded version; what it does
      not keep of the record lies at or past the end of the file. */
  lemma PlansHold(s: State, a: Action, t: State)
    requires Inv(s) && Plans(s, a, t)
    ensures Canonical(t.pc.m.proven) && InFile(t.disk, s.rec.version, Points(t.pc.m.proven)) && WellFormed(t.disk)
    ensures t.pc.m.proven != [] ==> Covers(t.pc.m.proven, t.pc.m.proven[0].start)
    ensures forall x :: x in Points(s.rec.have) && x !in Points(t.pc.m.proven) ==>
      Reach(t.pc.m.proven) <= x && x !in t.disk.vol
  {
    var p, v, claims := a.plan, s.rec.version, Points(s.rec.have);
    TruncateKeeps(s.disk, p.trim, v, claims);
    PlanWithin(p, s.rec.have, s.disk.length, a.size);
    KeptByPlan(s.disk, p.trim, v, claims, Points(p.have));
    CoversBelowReach(p.have);
    CoversBelowReach(s.rec.have);
    if p.have != [] { assert Covers(p.have, p.have[0].start) && Sound(s.disk, v, p.have[0].start); }
    forall x | x in claims && x !in Points(p.have) ensures Reach(p.have) <= x && s.disk.length <= x {
      assert Covers(s.rec.have, x) && !Covers(p.have, x);
    }
  }

  /** One byte of an accepted answer, reported and recorded. */
  lemma FirstByteRecorded(s: State, t: State) returns (states: seq<State>, actions: seq<Action>)
    requires s.pc.Receiving? && s.pc.written == 0 && Canonical(s.pc.m.proven) && 0 <= s.pc.m.gap.from
    requires t.disk == Flushed(Put(s.disk, s.pc.m.gap.from, s.pc.w))
    requires t.rec == Written(Fold(s.pc.m.proven, s.pc.m.gap.from, s.pc.m.gap.from + 1), s.pc.m.seen)
    requires t.pc == s.pc.(written := 1, report := Silent, m := s.pc.m.(proven := t.rec.have))
    ensures Run(states, actions) && |actions| == 4 && states[0] == s && states[4] == t
    ensures forall a :: a in actions ==> a.Byte? || a.Choose? || a.SyncReport? || a.WriteReport?
  {
    var at := s.pc.m.gap.from;
    var s1 := s.(disk := Put(s.disk, at, s.pc.w), pc := s.pc.(written := 1));
    var s2 := s1.(pc := s1.pc.(report := Chosen(at + 1)));
    var s3 := s2.(disk := Flushed(s2.disk), pc := s2.pc.(report := Synced(at + 1)));
    assert Writes(s, Byte, s1);
    assert Reports(s1, Choose(at + 1), s2);
    assert Reports(s2, SyncReport, s3);
    assert Records(s3, WriteReport(false), t);
    states, actions := [s, s1, s2, s3, t], [Byte, Choose(at + 1), SyncReport, WriteReport(false)];
  }

  /** The plan written down or not, and its first request answered with bytes of any version the
      request lets through. */
  lemma AnswerAccepted(t: State, answer: Answer, w: Version) returns (u: State, r: State)
    requires t.pc.Planned? && !t.pc.whole
    requires if t.pc.m.Ranged() then answer == Answer.Partial(w) && t.pc.m.seen.None? else answer == Whole(w)
    ensures Step(t, RecordPlan(false, false), u) && Step(u, Request(answer), r)
    ensures r.disk == t.disk && r.pc == Accepted(t.pc.m, w)
  {
    var m, b := t.pc.m, RecordPlan(false, false);
    u := t.(rec := if Unwritten(t, b) then t.rec else Written(m.proven, m.seen), pc := Fetching(m));
    r := u.(pc := Accepted(m, w));
    assert Declares(t, b, u);
    assert Requests(u, Request(answer), r);
  }

  /** The first byte of it recorded, beside one of another version that is kept. */
  lemma SplicedByFirst(r: State, w: Version, x: int) returns (states: seq<State>, actions: seq<Action>)
    requires r.pc.Receiving? && r.pc.written == 0 && r.pc.w == w && r.pc.m.seen == Some(w) && Canonical(r.pc.m.proven)
    requires 0 <= r.pc.m.gap.from && x in Points(r.pc.m.proven) && x != r.pc.m.gap.from
    requires x in r.disk.vol && r.disk.vol[x] != w
    ensures Run(states, actions) && |actions| == 4 && states[0] == r
    ensures states[4].rec.version == Some(w) && x in Points(states[4].rec.have) && !NoSplice(states[4])
  {
    var m := r.pc.m;
    var next := Fold(m.proven, m.gap.from, m.gap.from + 1);
    var end := State(Flushed(Put(r.disk, m.gap.from, w)), Written(next, Some(w)),
                     r.pc.(written := 1, report := Silent, m := m.(proven := next)));
    SplicedAt(end, x, r.disk.vol[x]);
    states, actions := FirstByteRecorded(r, end);
  }

  lemma AnswerRecorded(s: State, a: Action, t: State, answer: Answer, w: Version, x: int)
    returns (states: seq<State>, actions: seq<Action>)
    requires Inv(s) && Plans(s, a, t) && !t.pc.whole && x in Points(t.pc.m.proven)
    requires 0 <= t.pc.m.gap.from && x != t.pc.m.gap.from && x in t.disk.vol && t.disk.vol[x] != w
    requires if t.pc.m.Ranged() then answer == Answer.Partial(w) && t.pc.m.seen.None? else answer == Whole(w)
    ensures Run(states, actions) && |actions| == 7 && states[0] == s && actions[0] == a
    ensures states[7].rec.version == Some(w) && x in Points(states[7].rec.have) && !NoSplice(states[7])
  {
    PlansHold(s, a, t);
    assert Step(s, a, t);
    hide Step, Inv, NoSplice, Plans, Run;
    var u, r := AnswerAccepted(t, answer, w);
    states, actions := SplicedByFirst(r, w, x);
    RunAfter(u, Request(answer), r, states, actions);
    states, actions := [u] + states, [Request(answer)] + actions;
    RunAfter(t, RecordPlan(false, false), u, states, actions);
    states, actions := [t] + states, [RecordPlan(false, false)] + actions;
    RunAfter(s, a, t, states, actions);
    states, actions := [s] + states, [a] + actions;
  }

  /** After an unconditional plan, any source that has moved to a new version splices it into the
      record with its first byte. */
  lemma UnconditionalSplices(s: State, a: Action, t: State) returns (states: seq<State>, actions: seq<Action>)
    requires Inv(s) && Plans(s, a, t) && Unconditional(a.plan.have, a.size)
    ensures Run(states, actions) && |actions| == 7 && states[0] == s && actions[0] == a
    ensures !NoSplice(states[7])
  {
    PlansHold(s, a, t);
    var m, x := t.pc.m, t.pc.m.proven[0].start;
    assert x in Points(m.proven) && m.gap == Gap(0, 0);
    var w := t.disk.vol[x] + 1;
    states, actions := AnswerRecorded(s, a, t, Whole(w), w, x);
  }

  /** After a plan that keeps bytes of no named version, the first answer of another version names
      it for all of them, whatever else holds of the plan. */
  lemma UnnamedSplices(s: State, a: Action, t: State, x: int, w: Version)
    returns (states: seq<State>, actions: seq<Action>)
    requires Inv(s) && Plans(s, a, t) && Unnamed(s.rec, a.plan)
    requires x in Points(t.pc.m.proven) && x in t.disk.vol && t.disk.vol[x] != w
    ensures Run(states, actions) && |actions| == 7 && states[0] == s && actions[0] == a
    ensures states[7].rec.version == Some(w) && x in Points(states[7].rec.have) && !NoSplice(states[7])
  {
    PlansHold(s, a, t);
    FromIsVerifiedPrefix(a.plan, s.rec.have, File(s.disk.length), a.size);
    PrefixIsLeadingRun(a.plan.have);
    states, actions := AnswerRecorded(s, a, t, if t.pc.m.Ranged() then Answer.Partial(w) else Whole(w), w, x);
  }

  /** So no such plan is safe: it keeps some byte, which is of some version, and there are others. */
  lemma UnnamedIsUnsafe(s: State, a: Action, t: State) returns (states: seq<State>, actions: seq<Action>)
    requires Inv(s) && Plans(s, a, t) && Unnamed(s.rec, a.plan)
    ensures Run(states, actions) && states[0] == s && actions != [] && actions[0] == a && !NoSplice(states[|actions|])
  {
    PlansHold(s, a, t);
    var x := t.pc.m.proven[0].start;
    assert x in Points(t.pc.m.proven);
    states, actions := UnnamedSplices(s, a, t, x, t.disk.vol[x] + 1);
  }

  lemma SplicedAt(s: State, x: int, v: Version)
    requires x in Points(s.rec.have) && s.rec.version.Some? && s.rec.version != Some(v) && x in s.disk.durable && s.disk.durable[x] == v
    ensures !NoSplice(s)
  {
    assert !Sound(s.disk, s.rec.version, x);
  }

  /** After a refused clear, the next source's bytes land under a record that still claims the old
      version's. */
  lemma RefusedClearSplices(s: State, x: int) returns (states: seq<State>, actions: seq<Action>)
    requires Inv(s) && s.pc.Clearing? && x in Points(s.rec.have)
    ensures Run(states, actions) && |actions| > 0 && states[0] == s && actions[0] == RecordClear(true)
    ensures !NoSplice(states[|actions|])
  {
    assert Sound(s.disk, s.rec.version, x);
    CoversBelowReach(s.rec.have);
    var m, w := s.pc.m, if s.rec.version.Some? then s.rec.version.value + 1 else 0;
    var s1 := s.(pc := Fetching(m));
    var s2 := s1.(pc := Accepted(m, w));
    assert Clears(s, RecordClear(true), s1);
    assert Requests(s1, Request(Whole(w)), s2);
    states, actions := BytesArrive(s2, x + 1);
    var end := states[x + 1];
    assert Inside(0, x, x + 1);
    assert !Sound(end.disk, end.rec.version, x);
    RunAfter(s1, Request(Whole(w)), s2, states, actions);
    states, actions := [s1] + states, [Request(Whole(w))] + actions;
    RunAfter(s, RecordClear(true), s1, states, actions);
    states, actions := [s] + states, [RecordClear(true)] + actions;
  }

  /** After a plan left unwritten, a claim past the end of the file the plan keeps is covered by
      bytes no sync has made durable: the gaps before the last are filled, and then the last one,
      up to the claim. */
  lemma UnwrittenPlanLosesSync(s: State, a: Action, t: State, b: Action, u: State, x: int)
    returns (states: seq<State>, actions: seq<Action>)
    requires Inv(s) && Plans(s, a, t) && Declares(t, b, u) && Unwritten(t, b) && !t.pc.whole
    requires x in Points(s.rec.have) && x !in Points(t.pc.m.proven)
    ensures Run(states, actions) && |actions| > 1 && states[0] == s && actions[0] == a && actions[1] == b
    ensures !NoSplice(states[|actions|])
  {
    UnwrittenLeaves(s, a, t, b, u, x);
    states, actions := GapsReach(u, if u.pc.m.seen.Some? then u.pc.m.seen.value else 0, x);
    DirtyIsNotSound(states[|actions|], x);
    RunAfter(t, b, u, states, actions);
    RunAfter(s, a, t, [t] + states, [b] + actions);
    states, actions := [s] + ([t] + states), [a] + ([b] + actions);
  }

  lemma DirtyIsNotSound(s: State, x: int)
    requires x in Points(s.rec.have) && x in s.disk.dirty
    ensures !NoSplice(s)
  {
    assert !Sound(s.disk, s.rec.version, x);
  }

  lemma UnwrittenLeaves(s: State, a: Action, t: State, b: Action, u: State, x: int)
    requires Inv(s) && Plans(s, a, t) && Declares(t, b, u) && Unwritten(t, b) && !t.pc.whole
    requires x in Points(s.rec.have) && x !in Points(t.pc.m.proven)
    ensures Step(s, a, t) && Step(t, b, u)
    ensures u.rec == s.rec && u.disk == t.disk && WellFormed(u.disk) && x !in u.disk.vol
    ensures u.pc == Fetching(t.pc.m) && Canonical(u.pc.m.proven) && !u.pc.m.restarted
    ensures var gaps := Todo(u.pc.m); InOrder(gaps) && gaps[|gaps| - 1].from <= x
  {
    PlansHold(s, a, t);
    PlanInOrder(a.plan, s.rec.have, s.disk.length, a.size);
    assert Todo(t.pc.m) == a.plan.gaps;
  }

  /** All the gaps answered, up to a byte in the last one that was not in the file. */
  lemma GapsReach(s: State, w: Version, x: int) returns (states: seq<State>, actions: seq<Action>)
    requires s.pc.Fetching? && WellFormed(s.disk) && Canonical(s.pc.m.proven) && !s.pc.m.restarted
    requires InOrder(Todo(s.pc.m)) && (s.pc.m.seen.None? || s.pc.m.seen == Some(w))
    requires Todo(s.pc.m)[|Todo(s.pc.m)| - 1].from <= x && x !in s.disk.vol
    ensures Run(states, actions) && states[0] == s && states[|actions|].rec == s.rec
    ensures x in states[|actions|].disk.dirty
  {
    hide InOrder, Run, Todo;
    Ascend(Todo(s.pc.m));
    var s1, a1 := WalkGaps(s, w);
    var s2, a2 := LastGapReaches(s1[|a1|], w, x);
    RunsJoin(s1, a1, s2, a2);
    states, actions := Joined(s1, s2), a1 + a2;
  }

  /** The last gap answered up to a byte that was not in the file. */
  lemma LastGapReaches(s: State, w: Version, x: int) returns (states: seq<State>, actions: seq<Action>)
    requires s.pc.Fetching? && WellFormed(s.disk) && (s.pc.m.seen.None? || s.pc.m.seen == Some(w))
    requires 0 <= s.pc.m.gap.from <= x && x !in s.disk.vol
    ensures Run(states, actions) && states[0] == s && states[|actions|].rec == s.rec
    ensures x in states[|actions|].disk.dirty
  {
    var m, n := s.pc.m, x + 1 - s.pc.m.gap.from;
    var s1 := s.(pc := Accepted(m, w));
    assert Requests(s, Request(Answer.Partial(w)), s1);
    states, actions := BytesArrive(s1, n);
    assert Inside(m.gap.from, x, m.gap.from + n);
    RunAfter(s, Request(Answer.Partial(w)), s1, states, actions);
    states, actions := [s] + states, [Request(Answer.Partial(w))] + actions;
  }

  // ---- Each of the three happens -----------------------------------------------------------------

  function OneByte(v: Version): Disk { Disk(map[0 := v], 1, map[0 := v], {}) }

  function FirstRec(v: Version): Rec { Rec([Range(0, 1)], 1, Some(v)) }

  const EMPTY: State := State(Disk(map[], 0, map[], {}), Rec([], 0, None), Idle)

  const FROM_ZERO: Plan<Option<Version>> := Plan([], [Gap(0, 0)], 0, 0, None)

  lemma FromZeroIsHonest(have: seq<Range>)
    requires Canonical(have)
    ensures Honest(FROM_ZERO, have, File(0), 0) && RestOf(FROM_ZERO.gaps) == []
  {
    CoversBelowReach(have);
  }

  /** Nothing recorded and nothing in the file: the plan, and the answer to its request. */
  lemma FirstAnswer(v: Version) returns (states: seq<State>, actions: seq<Action>)
    ensures GuardedRun(states, actions) && states[0] == EMPTY && Startable(states[0])
    ensures states[|actions|] == EMPTY.(pc := Accepted(Mem([], None, Gap(0, 0), [], false), v))
  {
    FreshIsStartable(EMPTY.disk, 0);
    FromZeroIsHonest([]);
    assert Truncated(EMPTY.disk, 0) == EMPTY.disk;
    var m := Mem([], None, Gap(0, 0), [], false);
    var s1, s2, s3 := EMPTY.(pc := Planned(m, false)), EMPTY.(pc := Fetching(m)), EMPTY.(pc := Accepted(m, v));
    assert Plans(EMPTY, MakePlan(FROM_ZERO, 0), s1);
    assert Declares(s1, RecordPlan(false, false), s2);
    assert Requests(s2, Request(Whole(v)), s3);
    states, actions := [EMPTY, s1, s2, s3], [MakePlan(FROM_ZERO, 0), RecordPlan(false, false), Request(Whole(v))];
  }

  /** One byte fetched and recorded, and then the process lost. */
  lemma OneByteRecorded(v: Version) returns (states: seq<State>, actions: seq<Action>)
    ensures Run(states, actions) && states[0] == EMPTY && Startable(EMPTY)
    ensures states[|actions|] == State(OneByte(v), FirstRec(v), Idle)
  {
    var s1, a1 := FirstAnswer(v);
    var s := s1[|a1|];
    var t := State(OneByte(v), FirstRec(v), s.pc.(written := 1, report := Silent, m := s.pc.m.(proven := [Range(0, 1)])));
    assert Flushed(Put(s.disk, 0, v)) == OneByte(v) && Fold([], 0, 1) == [Range(0, 1)];
    var s2, a2 := FirstByteRecorded(s, t);
    RunsJoin(s1, a1, s2, a2);
    var end := t.(pc := Idle);
    assert World(t, Crash(OneByte(v)), end);
    RunsJoin(Joined(s1, s2), a1 + a2, [t, end], [Crash(OneByte(v))]);
    states, actions := Joined(Joined(s1, s2), [t, end]), a1 + a2 + [Crash(OneByte(v))];
  }

  /** A later attempt finds the source moved on, the restart's record write is refused, and the
      source after it splices. */
  lemma RefusedClearHappens(v: Version) returns (states: seq<State>, actions: seq<Action>)
    ensures Run(states, actions) && states[0] == EMPTY && Startable(EMPTY)
    ensures RecordClear(true) in actions && !NoSplice(states[|actions|])
  {
    var s1, a1 := OneByteRecorded(v);
    var s := s1[|a1|];
    var t, m := SecondPlan(v);
    var u := t.(pc := Fetching(m));
    var c := State(Truncated(OneByte(v), 0), FirstRec(v), Clearing(Restarted(m), Some(v + 1)));
    assert Declares(t, RecordPlan(false, false), u);
    assert Requests(u, Request(Whole(v + 1)), c);
    ClearingIsReached(v, c);
    var s2, a2 := RefusedClearSplices(c, 0);
    var end := s2[|a2|];
    RunAfter(u, Request(Whole(v + 1)), c, s2, a2);
    s2, a2 := [u] + s2, [Request(Whole(v + 1))] + a2;
    RunAfter(t, RecordPlan(false, false), u, s2, a2);
    s2, a2 := [t] + s2, [RecordPlan(false, false)] + a2;
    RunAfter(s, MakePlan(FromOne(v), 0), t, s2, a2);
    s2, a2 := [s] + s2, [MakePlan(FromOne(v), 0)] + a2;
    RunsJoin(s1, a1, s2, a2);
    states, actions := Joined(s1, s2), a1 + a2;
    assert a2[3] == RecordClear(true) && actions[|a1| + 3] == a2[3];
  }

  function FromOne(v: Version): Plan<Option<Version>> { Plan([Range(0, 1)], [Gap(1, 0)], 1, 0, Some(v)) }

  lemma SecondPlan(v: Version) returns (t: State, m: Mem)
    ensures m == Mem([Range(0, 1)], Some(v), Gap(1, 0), [], false)
    ensures t == State(OneByte(v), FirstRec(v), Planned(m, false))
    ensures Plans(State(OneByte(v), FirstRec(v), Idle), MakePlan(FromOne(v), 0), t)
  {
    CoversOne(Range(0, 1));
    m := Mem([Range(0, 1)], Some(v), Gap(1, 0), [], false);
    t := State(OneByte(v), FirstRec(v), Planned(m, false));
    assert Truncated(OneByte(v), 1) == OneByte(v) && RestOf(FromOne(v).gaps) == [];
  }

  lemma ClearingIsReached(v: Version, c: State)
    requires c == State(Truncated(OneByte(v), 0), FirstRec(v), Clearing(Mem([], None, Gap(0, 0), [], true), Some(v + 1)))
    ensures Inv(c) && 0 in Points(c.rec.have)
  {
    CoversOne(Range(0, 1));
  }

  /** The file is cut to nothing between two attempts, and the second one's plan is not written
      down: the store refuses it, or a delegate reported nothing done in between and the count of
      what is kept is the same. */
  lemma UnwrittenPlanHappens(v: Version, refused: bool) returns (states: seq<State>, actions: seq<Action>)
    ensures Run(states, actions) && states[0] == EMPTY && Startable(EMPTY)
    ensures RecordPlan(false, refused) in actions && !NoSplice(states[|actions|])
  {
    var s1, a1 := OneByteRecorded(v);
    var s := s1[|a1|];
    var r := FirstRec(v).(done := 0);
    var cut := Truncated(OneByte(v), 0);
    var u1, u2 := s.(rec := r), State(cut, r, Idle);
    assert World(s, Recount(0), u1) && World(u1, Shorten(0), u2);
    RunsJoin(s1, a1, [s, u1, u2], [Recount(0), Shorten(0)]);
    s1, a1 := Joined(s1, [s, u1, u2]), a1 + [Recount(0), Shorten(0)];
    var m := Mem([], None, Gap(0, 0), [], false);
    var t, u := u2.(pc := Planned(m, false)), u2.(pc := Fetching(m));
    CutIsReached(v, u2, t, u, refused);
    var s2, a2 := UnwrittenPlanLosesSync(u2, MakePlan(FROM_ZERO, 0), t, RecordPlan(false, refused), u, 0);
    RunsJoin(s1, a1, s2, a2);
    states, actions := Joined(s1, s2), a1 + a2;
    assert actions[|a1| + 1] == a2[1];
  }

  lemma CutIsReached(v: Version, s: State, t: State, u: State, refused: bool)
    requires s == State(Truncated(OneByte(v), 0), FirstRec(v).(done := 0), Idle)
    requires var m := Mem([], None, Gap(0, 0), [], false);
      t == s.(pc := Planned(m, false)) && u == s.(pc := Fetching(m))
    ensures Inv(s) && 0 in Points(s.rec.have) && 0 !in Points(t.pc.m.proven)
    ensures Plans(s, MakePlan(FROM_ZERO, 0), t) && Declares(t, RecordPlan(false, refused), u)
    ensures Unwritten(t, RecordPlan(false, refused))
  {
    CoversOne(Range(0, 1));
    FromZeroIsHonest(s.rec.have);
    assert Truncated(s.disk, 0) == s.disk;
  }

  /** A run of bytes of one version, durable, and a record that names them: the start of the two
      lemmas below. */
  function HoledDisk(a: nat, b: nat, v: Version): Disk {
    var vol := map x: int | a <= x < b && Inside(a, x, b) :: v;
    Disk(vol, b, vol, {})
  }

  lemma HoledIsStartable(a: nat, b: nat, v: Version)
    requires a < b
    ensures Startable(State(HoledDisk(a, b, v), Rec([Range(a, b)], b - a, Some(v)), Idle))
  {
    CoversOne(Range(a, b));
  }

  /** A record whose set starts past zero, with no size to bound its gaps. This layer writes a hole
      only while a size is declared; such a record comes from another implementation of it, or
      reaches past the size it declares, and planning has a branch for it. */
  lemma UnconditionalHappens(a: nat, v: Version) returns (states: seq<State>, actions: seq<Action>)
    requires 0 < a
    ensures Run(states, actions) && Startable(states[0]) && !NoSplice(states[|actions|])
    ensures states[0].rec == Rec([Range(a, a + 1)], 1, Some(v)) && actions[0].MakePlan? && actions[0].size == 0
  {
    HoledIsStartable(a, a + 1, v);
    var s := State(HoledDisk(a, a + 1, v), Rec([Range(a, a + 1)], 1, Some(v)), Idle);
    var p := Plan(s.rec.have, [Gap(0, 0)], a + 1, 0, Some(v));
    CoversOne(Range(a, a + 1));
    assert Truncated(s.disk, a + 1) == s.disk && RestOf(p.gaps) == [];
    var t := s.(pc := Planned(Mem(p.have, Some(v), Gap(0, 0), [], false), false));
    assert Plans(s, MakePlan(p, 0), t);
    states, actions := UnconditionalSplices(s, MakePlan(p, 0), t);
  }

  /** A set recorded with no validators, as a first attempt by several connections leaves it: the
      next request carries no If-Range, and the first answer's version is put to all of it. */
  lemma UnnamedHappens(a: nat, b: nat, size: nat, v: Version, w: Version)
    returns (states: seq<State>, actions: seq<Action>)
    requires 0 < a < b < size && v != w
    ensures Run(states, actions) && Startable(states[0]) && |actions| == 7
    ensures states[0] == State(HoledDisk(a, b, v), Rec([Range(a, b)], b - a, None), Idle)
    ensures states[7].rec.version == Some(w) && a in Points(states[7].rec.have) && !NoSplice(states[7])
  {
    HoledIsStartable(a, b, v);
    var s := State(HoledDisk(a, b, v), Rec([Range(a, b)], b - a, None), Idle);
    var p := Plan(s.rec.have, [Gap(0, a), Gap(b, 0)], b, 0, None);
    HoledPlan(a, b, size, v, p.(validators := Some(v)));
    assert Truncated(s.disk, b) == s.disk && RestOf(p.gaps) == [Gap(b, 0)];
    var t := s.(pc := Planned(Mem(p.have, None, Gap(0, a), [Gap(b, 0)], false), false));
    assert Plans(s, MakePlan(p, size), t);
    CoversOne(Range(a, b));
    assert Covers(t.pc.m.proven, a) && Inside(a, a, b);
    states, actions := UnnamedSplices(s, MakePlan(p, size), t, a, w);
  }

  /** A hole before and an end missing: the two gaps of such a set are filled in turn, and what is
      proven then is the whole artifact, synced and of the version that was recorded. */
  lemma HoledIsFilled(a: nat, b: nat, size: nat, v: Version) returns (states: seq<State>, actions: seq<Action>)
    requires 0 < a < b < size
    ensures GuardedRun(states, actions) && Startable(states[0])
    ensures states[0].rec == Rec([Range(a, b)], b - a, Some(v))
    ensures var t := states[|actions|];
      && t.pc.Closed? && t.pc.ending.Finished? && t.pc.m.proven == [Range(0, size)] && t.pc.m.seen == Some(v)
      && forall x :: Inside(0, x, size) ==> x in t.disk.durable && t.disk.durable[x] == v
  {
    var s, t, u, p := HoledBegins(a, b, size, v);
    var s1, a1 := FillGap(u, v);
    var s2, a2 := LastGapEnds(s1[|a1|], v, size - b);
    RunsJoin(s1, a1, s2, a2);
    states, actions := Joined(s1, s2), a1 + a2;
    assert states[0] == u && states[|actions|] == s2[|a2|];
    WholeIsOne(s2[|a2|].pc.m.proven, size);
    states, actions := GuardedAfter(s, MakePlan(p, size), t, RecordPlan(false, false), u, states, actions);
  }

  /** A plan made and written down, and then nothing the guard is about. */
  lemma GuardedAfter(s: State, a: Action, t: State, b: Action, u: State, ss: seq<State>, as': seq<Action>)
    returns (states: seq<State>, actions: seq<Action>)
    requires Step(s, a, t) && Step(t, b, u) && Guarded(s, a) && Guarded(t, b) && Run(ss, as') && ss[0] == u
    requires forall c :: c in as' ==> !c.MakePlan? && !c.RecordPlan? && !c.RecordClear?
    ensures GuardedRun(states, actions) && states[0] == s && states[|actions|] == ss[|as'|]
  {
    hide Step;
    RunAfter(t, b, u, ss, as');
    RunAfter(s, a, t, [t] + ss, [b] + as');
    states, actions := [s] + ([t] + ss), [a] + ([b] + as');
    forall i | 0 <= i < |actions| ensures Guarded(states[i], actions[i]) {
      if i >= 2 { assert actions[i] == as'[i - 2]; }
    }
  }

  lemma HoledBegins(a: nat, b: nat, size: nat, v: Version)
    returns (s: State, t: State, u: State, p: Plan<Option<Version>>)
    requires 0 < a < b < size
    ensures s == State(HoledDisk(a, b, v), Rec([Range(a, b)], b - a, Some(v)), Idle) && Startable(s)
    ensures p.have == s.rec.have && VerifiedPrefix(p.have) == 0 && !Unbounded(p.have, size)
    ensures Plans(s, MakePlan(p, size), t) && Declares(t, RecordPlan(false, false), u)
    ensures Guarded(s, MakePlan(p, size)) && Guarded(t, RecordPlan(false, false))
    ensures u == s.(pc := Fetching(Mem([Range(a, b)], Some(v), Gap(0, a), [Gap(b, 0)], false)))
    ensures InOrder(Todo(u.pc.m))
  {
    HoledIsStartable(a, b, v);
    s := State(HoledDisk(a, b, v), Rec([Range(a, b)], b - a, Some(v)), Idle);
    p := Plan(s.rec.have, [Gap(0, a), Gap(b, 0)], b, 0, Some(v));
    var m := Mem(p.have, Some(v), Gap(0, a), [Gap(b, 0)], false);
    t, u := s.(pc := Planned(m, false)), s.(pc := Fetching(m));
    HoledPlan(a, b, size, v, p);
    assert Total(m.proven) == b - a;
    assert Truncated(s.disk, b) == s.disk && RestOf(p.gaps) == m.rest && Todo(m) == p.gaps;
  }

  lemma HoledPlan(a: nat, b: nat, size: nat, v: Version, p: Plan<Option<Version>>)
    requires 0 < a < b < size && p == Plan([Range(a, b)], [Gap(0, a), Gap(b, 0)], b, 0, Some(v))
    ensures Honest(p, [Range(a, b)], File(b), size)
    ensures InOrder(p.gaps)
  {
    var asked := [Range(0, a), Range(b, size)];
    assert Bytes(p.gaps[0], size) == asked[0] && Bytes(p.gaps[1], size) == asked[1];
    assert Asked(p.gaps, size) == asked;
    CoversOne(Range(a, b));
    CoversOne(Range(b, size));
    assert asked[1..] == [Range(b, size)];
    forall i | 0 <= i < |p.gaps| ensures p.gaps[i].Open() <==> Bytes(p.gaps[i], size).end == size {
      assert i == 0 || i == 1;
    }
  }

  lemma WholeIsOne(have: seq<Range>, size: nat)
    requires 0 < size && Canonical(have) && Points(have) == Interval(0, size)
    ensures have == [Range(0, size)]
  {
    CoversOne(Range(0, size));
    assert forall x :: Covers(have, x) <==> x in Points(have);
    SameBytesSameList(have, [Range(0, size)]);
  }

  /** The last gap answered to its end, and the file synced. */
  lemma LastGapEnds(s: State, w: Version, n: nat) returns (states: seq<State>, actions: seq<Action>)
    requires s.pc.Fetching? && WellFormed(s.disk) && s.pc.m.seen == Some(w) && s.pc.m.rest == [] && !s.pc.m.restarted
    requires Canonical(s.pc.m.proven) && 0 <= s.pc.m.gap.from
    ensures Run(states, actions) && states[0] == s
    ensures forall a :: a in actions ==> a.Request? || a.Byte? || a.EndFetch? || a.Sync?
    ensures var m, t := s.pc.m, states[|actions|];
      && t.pc == Closed(m.(proven := Fold(m.proven, m.gap.from, m.gap.from + n)), Finished)
      && t.disk.durable == t.disk.vol && Filled(s.disk, t.disk, m.gap.from, m.gap.from + n, w)
  {
    var m := s.pc.m;
    var s1 := s.(pc := Accepted(m, w));
    assert Requests(s, Request(Answer.Partial(w)), s1);
    var s2, a2 := BytesArrive(s1, n);
    var u := s2[n];
    var end := m.(proven := Fold(m.proven, m.gap.from, m.gap.from + n));
    var u1 := u.(pc := Closing(end, Finished));
    var u2 := u1.(disk := Flushed(u.disk), pc := Closed(end, Finished));
    assert Ends(u, EndFetch(true, false), u1);
    assert Closes(u1, Sync(true), u2);
    RunThen(s2, a2, EndFetch(true, false), u1);
    RunThen(s2 + [u1], a2 + [EndFetch(true, false)], Sync(true), u2);
    states, actions := s2 + [u1] + [u2], a2 + [EndFetch(true, false)] + [Sync(true)];
    RunAfter(s, Request(Answer.Partial(w)), s1, states, actions);
    states, actions := [s] + states, [Request(Answer.Partial(w))] + actions;
  }
}
