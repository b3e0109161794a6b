/** An answer from outside is about the handoff it was asked of. */
module Observation {
  import opened Handoff
  import opened HandoffRuns
  import opened Jobs
  import opened Options
  import opened Ranges

  // `claimDelegation` (go/delegator.go) binds a Poll or Locate answer to the epoch and handoff that
  // were loaded before asking, whatever other owners do to the record in between.

  /** What any other owner, client or delegate may do. An update is a write by the holder of an
      epoch and may change anything but the epoch and the lease; handing writes a handoff down, and
      the Start that follows it is not a store call: it needs no lease and may come at any time. */
  datatype Op =
    | OtherClaims
    | OtherUpdates(epoch: nat, next: Record)
    | OtherHands(epoch: nat, system: nat)
    | OtherStarts(epoch: nat, h: nat)
    | OtherGivesUp(epoch: nat)
    | OtherReleases(epoch: nat)
    | LeaseLapses
    | IntentChanges(want: Want)
    | WorkStops(h: nat)

  function Apply(r: Record, op: Op): Record {
    match op
    case OtherClaims => (match Claim(r) case None => r case Some(c) => c)
    case OtherUpdates(e, next) => Write(r, e, next.(epoch := r.epoch, held := r.held))
    case OtherHands(e, system) => Write(r, e, Handed(r, system, Request))
    case OtherReleases(e) => Release(r, e)
    case LeaseLapses => r.(held := false)
    case IntentChanges(w) => r.(want := w)
    case _ => r
  }

  function After(r: Record, ops: seq<Op>): Record
    decreases |ops|
  {
    if ops == [] then r else After(Apply(r, ops[0]), ops[1..])
  }

  /** How many of the operations were claims that succeeded. */
  function Claims(r: Record, ops: seq<Op>): nat
    decreases |ops|
  {
    if ops == [] then 0
    else (if ops[0].OtherClaims? && Claim(r).Some? then 1 else 0) + Claims(Apply(r, ops[0]), ops[1..])
  }

  lemma {:induction false} EpochCountsClaims(r: Record, ops: seq<Op>)
    ensures After(r, ops).epoch == r.epoch + Claims(r, ops)
    decreases |ops|
  {
    if ops != [] { EpochCountsClaims(Apply(r, ops[0]), ops[1..]); }
  }

  /** The claim stands exactly when the record is free, nobody claimed it since it was loaded, and
      it still carries the handoff that was observed in the state that was observed. One that does
      not stand leaves the record free and everything but its epoch and state as it was. */
  lemma BoundToWhatWasSeen(seen: Record, ops: seq<Op>)
    ensures var now := After(seen, ops);
      ClaimDelegation(seen, now).Ours? <==>
        && !now.held && !now.state.Terminal()
        && Claims(seen, ops) == 0
        && seen.delegation.Some? && now.delegation == seen.delegation
        && (now.state == seen.state || {now.state, seen.state} == {Pending, Running})
    ensures var now, b := After(seen, ops), ClaimDelegation(seen, After(seen, ops));
      b.Moved? ==> Claim(now).Some? && b.rec == Claim(now).value.(held := false)
  {
    EpochCountsClaims(seen, ops);
  }

  // ---- What the binding does not reach ------------------------------------------------------------

  /** The record with what is outside it: the works the delegates hold, and by epoch the system an
      owner has written a handoff to and not yet had Start's end from. */
  datatype Scene = Scene(rec: Record, works: map<nat, Work>, open: map<nat, nat>)

  /** The far side takes the work on: a Start still open, of a handle not used before. */
  predicate Accepts(w: Scene, op: Op) { op.OtherStarts? && op.epoch in w.open && op.h !in w.works }

  function Play(w: Scene, op: Op): Scene {
    var rec := Apply(w.rec, op);
    match op
    case OtherHands(e, system) => w.(rec := rec, open := if CanWrite(w.rec, e) then w.open[e := system] else w.open)
    case OtherStarts(e, h) =>
      if Accepts(w, op) then w.(works := Accept(w.works, h, w.open[e]), open := w.open - {e}) else w
    case OtherGivesUp(e) => w.(open := w.open - {e})
    case WorkStops(h) => if h in w.works then w.(works := Mark(w.works, h, GaveUp)) else w
    case _ => w.(rec := rec)
  }

  function Played(w: Scene, ops: seq<Op>): Scene
    decreases |ops|
  {
    if ops == [] then w else Played(Play(w, ops[0]), ops[1..])
  }

  lemma {:induction false} PlayedRecord(w: Scene, ops: seq<Op>)
    ensures Played(w, ops).rec == After(w.rec, ops)
    decreases |ops|
  {
    if ops != [] { PlayedRecord(Play(w, ops[0]), ops[1..]); }
  }

  predicate Live(w: Scene, system: nat, h: nat) { h in w.works && w.works[h].Live() && w.works[h].system == system }

  /** An empty Locate answer that is true. */
  predicate NoneLive(w: Scene, system: nat) { forall h :: h in w.works ==> !Live(w, system, h) }

  /** The i-th operation is an acceptance of h by the system, and h was not stopped afterwards. */
  ghost predicate TakenAndKept(w: Scene, ops: seq<Op>, i: nat, system: nat, h: nat)
    requires i < |ops|
  {
    var u := Played(w, ops[..i]);
    && Accepts(u, ops[i]) && ops[i].h == h && u.open[ops[i].epoch] == system
    && WorkStops(h) !in ops[i + 1..]
  }

  lemma {:induction false} PlayedSplits(w: Scene, a: seq<Op>, b: seq<Op>)
    ensures Played(w, a + b) == Played(Played(w, a), b)
    decreases |a|
  {
    if a == [] {
      assert a + b == b;
    } else {
      assert (a + b)[1..] == a[1..] + b;
      PlayedSplits(Play(w, a[0]), a[1..], b);
    }
  }

  /** Once there, a work is live until it is stopped, and stays stopped. */
  lemma {:induction false} LiveUntilStopped(w: Scene, ops: seq<Op>, system: nat, h: nat)
    requires h in w.works
    ensures Live(Played(w, ops), system, h) <==> Live(w, system, h) && WorkStops(h) !in ops
    decreases |ops|
  {
    if ops != [] {
      LiveUntilStopped(Play(w, ops[0]), ops[1..], system, h);
      assert WorkStops(h) in ops <==> ops[0] == WorkStops(h) || WorkStops(h) in ops[1..];
    }
  }

  /** A handle no delegate had used is live afterwards exactly when one of the operations was its
      acceptance and none after that stopped it. */
  lemma {:induction false} LiveMeansTaken(w: Scene, ops: seq<Op>, system: nat, h: nat)
    requires h !in w.works
    ensures Live(Played(w, ops), system, h) <==> exists i :: 0 <= i < |ops| && TakenAndKept(w, ops, i, system, h)
    decreases |ops|
  {
    if ops != [] {
      var next := Play(w, ops[0]);
      if h in next.works {
        LiveUntilStopped(next, ops[1..], system, h);
        FirstTakes(w, ops, system, h);
      } else {
        LiveMeansTaken(next, ops[1..], system, h);
        LaterTakes(w, ops, system, h);
      }
    }
  }

  lemma FirstTakes(w: Scene, ops: seq<Op>, system: nat, h: nat)
    requires ops != [] && h !in w.works && h in Play(w, ops[0]).works
    ensures (exists i :: 0 <= i < |ops| && TakenAndKept(w, ops, i, system, h))
      <==> Live(Play(w, ops[0]), system, h) && WorkStops(h) !in ops[1..]
  {
    assert Played(w, ops[..0]) == w;
    if Live(Play(w, ops[0]), system, h) && WorkStops(h) !in ops[1..] { assert TakenAndKept(w, ops, 0, system, h); }
    forall i | 0 < i < |ops| ensures !TakenAndKept(w, ops, i, system, h) {
      PlayedSplits(w, ops[..1], ops[1..i]);
      assert ops[..i] == ops[..1] + ops[1..i];
      KeepsWorks(Play(w, ops[0]), ops[1..i], h);
      assert ops[..1] == [ops[0]] && Played(w, [ops[0]]) == Played(Play(w, ops[0]), []);
    }
  }

  lemma {:induction false} KeepsWorks(w: Scene, ops: seq<Op>, h: nat)
    requires h in w.works
    ensures h in Played(w, ops).works
    decreases |ops|
  {
    if ops != [] { KeepsWorks(Play(w, ops[0]), ops[1..], h); }
  }

  lemma LaterTakes(w: Scene, ops: seq<Op>, system: nat, h: nat)
    requires ops != [] && h !in w.works && h !in Play(w, ops[0]).works
    ensures (exists i :: 0 <= i < |ops| && TakenAndKept(w, ops, i, system, h))
      <==> exists i :: 0 <= i < |ops[1..]| && TakenAndKept(Play(w, ops[0]), ops[1..], i, system, h)
  {
    var next, rest := Play(w, ops[0]), ops[1..];
    forall i | 0 <= i < |rest|
      ensures TakenAndKept(next, rest, i, system, h) <==> TakenAndKept(w, ops, i + 1, system, h)
    {
      assert rest[i + 1..] == ops[i + 2..];
      assert ops[..i + 1][0] == ops[0] && ops[..i + 1][1..] == rest[..i];
    }
    assert Played(w, ops[..0]) == w;
    assert !TakenAndKept(w, ops, 0, system, h);
    if i :| 0 <= i < |ops| && TakenAndKept(w, ops, i, system, h) {
      assert TakenAndKept(next, rest, i - 1, system, h);
    }
  }

  lemma {:induction false} ClaimsSoFar(r: Record, ops: seq<Op>, i: nat)
    requires i <= |ops|
    ensures Claims(r, ops[..i]) <= Claims(r, ops)
    decreases |ops|
  {
    if i > 0 {
      assert ops[..i][0] == ops[0] && ops[..i][1..] == ops[1..][..i - 1];
      ClaimsSoFar(Apply(r, ops[0]), ops[1..], i - 1);
    }
  }

  /** The Start of an epoch is one to this system that was open when the question was asked, or
      belongs to the holder of the record then. */
  predicate StartOf(w: Scene, epoch: nat, system: nat) {
    (epoch in w.open && w.open[epoch] == system) || (w.rec.held && epoch == w.rec.epoch)
  }

  lemma {:induction false} OpenUnder(w: Scene, ops: seq<Op>, e: nat)
    requires Claims(w.rec, ops) == 0 && e in Played(w, ops).open
    ensures StartOf(w, e, Played(w, ops).open[e])
    decreases |ops|
  {
    if ops != [] {
      var next := Play(w, ops[0]);
      assert next.rec.epoch == w.rec.epoch && (next.rec.held ==> w.rec.held);
      OpenUnder(next, ops[1..], e);
    }
  }

  /** A claim that stands applies an empty answer, true when it was given, over live work exactly
      when a Start to the system that was open at the time of the question, or one opened since by
      the holder of the observed epoch, was accepted and not stopped again: no Start of any other
      epoch can have come in between. */
  lemma MisappliedExactly(w: Scene, ops: seq<Op>, system: nat)
    requires NoneLive(w, system) && ClaimDelegation(w.rec, Played(w, ops).rec).Ours?
    ensures NoneLive(Played(w, ops), system) <==>
      !exists h, i :: 0 <= i < |ops| && TakenAndKept(w, ops, i, system, h) && StartOf(w, ops[i].epoch, system)
  {
    var end := Played(w, ops);
    forall h, i | 0 <= i < |ops| && TakenAndKept(w, ops, i, system, h) ensures Live(end, system, h) {
      if h in w.works { KeepsWorks(w, ops[..i], h); }
      LiveMeansTaken(w, ops, system, h);
    }
    forall h | h in end.works && Live(end, system, h)
      ensures exists i :: 0 <= i < |ops| && TakenAndKept(w, ops, i, system, h) && StartOf(w, ops[i].epoch, system)
    {
      if h in w.works { LiveUntilStopped(w, ops, system, h); }
      LiveMeansTaken(w, ops, system, h);
      var i :| 0 <= i < |ops| && TakenAndKept(w, ops, i, system, h);
      PlayedRecord(w, ops);
      BoundToWhatWasSeen(w.rec, ops);
      ClaimsSoFar(w.rec, ops, i);
      OpenUnder(w, ops[..i], ops[i].epoch);
      assert TakenAndKept(w, ops, i, system, h) && StartOf(w, ops[i].epoch, system);
    }
  }

  /** What can be told before asking: the loaded record is free, and no owner that wrote a handoff
      to this system down still has its Start before it. */
  predicate SafeToAsk(w: Scene, system: nat) { !w.rec.held && system !in w.open.Values }

  /** Over every interleaving the empty answer can be applied without losing work exactly when it
      was safe to ask. */
  lemma SafeToAskExactly(w: Scene, system: nat)
    requires NoneLive(w, system) && !w.rec.state.Terminal() && w.rec.state.Running?
    requires w.rec.delegation == Some(Delegation(system, Request, false))
    ensures SafeToAsk(w, system) <==>
      forall ops :: ClaimDelegation(w.rec, Played(w, ops).rec).Ours? ==> NoneLive(Played(w, ops), system)
  {
    if SafeToAsk(w, system) {
      assert forall e :: !StartOf(w, e, system);
      forall ops | ClaimDelegation(w.rec, Played(w, ops).rec).Ours? ensures NoneLive(Played(w, ops), system) {
        MisappliedExactly(w, ops, system);
      }
    } else {
      var ops := UnsafeRun(w, system);
      assert !NoneLive(Played(w, ops), system);
    }
  }

  lemma {:induction false} UpperBound(s: set<nat>) returns (b: nat)
    ensures forall x :: x in s ==> x < b
    decreases |s|
  {
    if s == {} {
      b := 0;
    } else {
      var x :| x in s;
      b := UpperBound(s - {x});
      if b <= x { b := x + 1; }
      assert forall y :: y in s ==> y == x || y in s - {x};
    }
  }

  /** Asked unsafely, the answer can be applied over live work: the Start that was open, or that
      the holder opens, is accepted, its owner's lease runs out, and the claim stands. */
  lemma UnsafeRun(w: Scene, system: nat) returns (ops: seq<Op>)
    requires w.rec.state.Running? && w.rec.delegation == Some(Delegation(system, Request, false))
    requires !SafeToAsk(w, system)
    ensures ClaimDelegation(w.rec, Played(w, ops).rec).Ours? && !NoneLive(Played(w, ops), system)
  {
    var h := UpperBound(w.works.Keys);
    if e :| e in w.open && w.open[e] == system {
      ops := [OtherStarts(e, h), LeaseLapses];
      OpenStartTaken(w, e, h);
      assert Live(Played(w, ops), system, h);
    } else {
      var e := w.rec.epoch;
      var u := Play(w, OtherHands(e, system));
      ops := [OtherHands(e, system), OtherStarts(e, h), LeaseLapses];
      assert ops[1..] == [OtherStarts(e, h), LeaseLapses];
      OpenStartTaken(u, e, h);
      assert Played(w, ops) == Played(u, ops[1..]);
      assert Live(Played(w, ops), system, h);
    }
  }

  lemma OpenStartTaken(w: Scene, e: nat, h: nat)
    requires e in w.open && h !in w.works
    ensures var t := Played(w, [OtherStarts(e, h), LeaseLapses]);
      && t.rec == w.rec.(held := false) && Live(t, w.open[e], h)
  {
    var one, two := OtherStarts(e, h), LeaseLapses;
    assert [one, two][1..] == [two] && [two][1..] == [];
    var u := Play(w, one);
    assert Played(w, [one, two]) == Played(u, [two]) == Played(Play(u, two), []);
  }

  /** The Start accepted and its answer lost, then the process, and then its lease. */
  lemma StartLost(s: State, h: nat) returns (s1: State, s2: State, s3: State)
    requires s.pc.Starting? && h !in s.works && s.rec.held
    ensures Step(s, Start(AcceptsAndIsLost(h)), s1) && Step(s1, Crash, s2) && Step(s2, Lapse, s3)
    ensures s3 == s.(rec := s.rec.(held := false), works := Accept(s.works, h, s.pc.system), pc := Idle)
  {
    s1 := s.(works := Accept(s.works, h, s.pc.system), pc := Unanswered(s.pc.epoch, s.pc.system));
    assert Starts(s, Start(AcceptsAndIsLost(h)), s1);
    s2 := s1.(pc := Idle);
    s3 := s2.(rec := s2.rec.(held := false));
    assert World(s1, Crash, s2) && World(s2, Lapse, s3);
  }

  /** The machine of Handoff does it too, from a job nobody has touched: an owner hands the job to a
      system and is about to call Start, which is accepted and its answer lost; the process goes and
      its lease runs out. Who loaded the record before the Start and heard a truthful "never had it"
      may claim it now, and would give it back. */
  lemma SameEpochIsNotEnough(job: Record, system: nat, h: nat) returns (states: seq<State>, actions: seq<Action>)
    requires job.state.Pending? && !job.held && job.delegation.None? && !job.want.WantPause?
    ensures IsRun(states, actions) && |states| == 10 && states[0].rec == job
    ensures var seen, end := states[6], states[9];
      && seen.pc == Starting(job.epoch + 1, system) && TrueLocate(seen, system, None)
      && ClaimDelegation(seen.rec, end.rec).Ours? && h in LiveSet(end.works)
      && Back(ClaimDelegation(seen.rec, end.rec).rec).delegation.None?
  {
    var s := State(job, map[], {}, {}, Idle);
    var ss, as', u := HandedOver(s, system);
    var s1, s2, s3 := StartLost(u, h);
    hide Step;
    states, actions := ss + [s1, s2, s3], as' + [Start(AcceptsAndIsLost(h)), Crash, Lapse];
    forall i | 0 <= i < |actions| ensures Step(states[i], actions[i], states[i + 1]) {
      if i < 6 { assert states[i] == ss[i] && states[i + 1] == ss[i + 1] && actions[i] == as'[i]; }
    }
  }

  datatype LocateReply = Unreachable | Definite(found: Option<nat>)

  /** The record resolve leaves, given what the store held when the claim was made. */
  function Resolved(seen: Record, now: Record, reply: LocateReply): Record {
    if reply.Unreachable? then now
    else
      match ClaimDelegation(seen, now)
      case NotClaimed => now
      case Moved(r) => r
      case Ours(r) =>
        var settled := match reply.found
                       case None => Back(r)
                       case Some(h) => r.(delegation := Some(r.delegation.value.(external := Handle(h))));
        settled.(held := false)
  }

  /** One record's store, changed in place. */
  class Store {
    var rec: Record

    constructor (r: Record) ensures rec == r { rec := r; }

    method Claim() returns (claimed: Option<Record>)
      modifies this
      ensures claimed == Handoff.Claim(old(rec))
      ensures rec == if claimed.Some? then claimed.value else old(rec)
    {
      claimed := Handoff.Claim(rec);
      if claimed.Some? { rec := claimed.value; }
    }

    method Update(epoch: nat, next: Record) returns (ok: bool)
      modifies this
      ensures ok <==> CanWrite(old(rec), epoch)
      ensures rec == Write(old(rec), epoch, next)
    {
      ok := CanWrite(rec, epoch);
      if ok { rec := next; }
    }

    method Release(epoch: nat)
      modifies this
      ensures rec == Handoff.Release(old(rec), epoch)
    {
      if CanWrite(rec, epoch) { rec := rec.(held := false); }
    }
  }

  method ClaimObserved(store: Store, seen: Record) returns (claimed: Option<Record>)
    modifies store
    ensures var b := ClaimDelegation(seen, old(store.rec));
      && claimed == (if b.Ours? then Some(b.rec) else None)
      && store.rec == (if b.NotClaimed? then old(store.rec) else b.rec)
  {
    claimed := store.Claim();
    if claimed.None? { return; }
    var c := claimed.value;
    var expected := if seen.state.Pending? then Running else seen.state;
    if c.epoch - 1 != seen.epoch || c.state != expected || c.delegation.None? || seen.delegation.None?
       || c.delegation != seen.delegation
    {
      store.Release(c.epoch);
      claimed := None;
    }
  }

  method Unhand(store: Store, epoch: nat) returns (ok: bool)
    modifies store
    ensures ok <==> CanWrite(old(store.rec), epoch)
    ensures store.rec == Write(old(store.rec), epoch, Back(old(store.rec)))
  {
    ok := store.Update(epoch, store.rec.(delegation := None, state := Pending));
  }

  /** Settles a handoff whose answer was lost, from the delegate's reply. */
  method Resolve(store: Store, seen: Record, reply: LocateReply) returns (ok: bool)
    modifies store
    ensures store.rec == Resolved(seen, old(store.rec), reply)
    ensures ok <==> reply.Definite? && ClaimDelegation(seen, old(store.rec)).Ours?
  {
    if reply.Unreachable? { return false; }
    var claimed := ClaimObserved(store, seen);
    if claimed.None? { return false; }
    var epoch := claimed.value.epoch;
    if reply.found.None? {
      ok := Unhand(store, epoch);
    } else {
      ok := store.Update(epoch,
        store.rec.(delegation := Some(store.rec.delegation.value.(external := Handle(reply.found.value)))));
    }
    store.Release(epoch);
  }

  /** Resolving is the machine's claim, settle and let-go with nothing in between. */
  lemma ResolveIsTheMachine(s: State, found: Option<nat>) returns (claimed: State, settled: State, free: State)
    requires s.pc.Located? && s.pc.found == found && ClaimDelegation(s.pc.seen, s.rec).Ours?
    ensures Step(s, ClaimToSettle, claimed) && Step(claimed, Settle, settled) && Step(settled, LetGo, free)
    ensures free.rec == Resolved(s.pc.seen, s.rec, Definite(found)) && free.pc == Delegating
  {
    hide Step;
    var r := ClaimDelegation(s.pc.seen, s.rec).rec;
    claimed := s.(rec := r, pc := Settling(r.epoch, found));
    var next := match found
                case None => Back(r)
                case Some(h) => r.(delegation := Some(r.delegation.value.(external := Handle(h))));
    settled := claimed.(rec := next, pc := Releasing(r.epoch, Delegating));
    free := settled.(rec := next.(held := false), pc := Delegating);
    ClaimSettles(s, claimed);
    SettleSettles(claimed, settled);
    LetGoSteps(settled, free);
  }

  lemma ClaimSettles(s: State, t: State)
    requires s.pc.Located? && ClaimDelegation(s.pc.seen, s.rec).Ours?
    requires var r := ClaimDelegation(s.pc.seen, s.rec).rec; t == s.(rec := r, pc := Settling(r.epoch, s.pc.found))
    ensures Step(s, ClaimToSettle, t)
  {
    assert Settles(s, ClaimToSettle, t);
  }

  lemma SettleSettles(s: State, t: State)
    requires s.pc.Settling? && CanWrite(s.rec, s.pc.epoch) && s.rec.delegation.Some?
    requires t.rec == match s.pc.found
                      case None => Back(s.rec)
                      case Some(h) => s.rec.(delegation := Some(s.rec.delegation.value.(external := Handle(h))))
    requires t == s.(rec := t.rec, pc := Releasing(s.pc.epoch, Delegating))
    ensures Step(s, Settle, t)
  {
    assert Settles(s, Settle, t);
  }

  lemma LetGoSteps(s: State, t: State)
    requires s.pc.Releasing? && t == s.(rec := Handoff.Release(s.rec, s.pc.epoch), pc := s.pc.next)
    ensures Step(s, LetGo, t)
  {
    assert Finishes(s, LetGo, t);
  }
}
