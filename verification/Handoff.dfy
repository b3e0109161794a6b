/** The delegation handoff, as the steps of one supervisor, the delegates and the world. */
module Handoff {
  import opened Jobs
  import opened Options
  import opened Ranges

  // One job record in a store, the works outside systems hold for it, submissions still in flight,
  // and one supervisor running sweeps in the order of go/serve/pass.go. Each action is one effect
  // of go/delegator.go, go/runner.go or the world outside, so a crash, a lapsed lease, a change of
  // intent or a late acceptance may fall between any two effects.
  //
  // The delegates are Locators and keep their contract: Locate's definite answer is true and final
  // for the request, Failed and Gone are said only of work that has stopped, and an Abandon that
  // reports no error stopped the work. Everything else they do, including losing an answer after
  // accepting and failing to abandon, is open.

  datatype Want = WantRun | WantPause | WantCancel

  /** The handle in a record: the request's own id until the delegate's handle replaces it. */
  datatype External = Request | Handle(h: nat)

  datatype Delegation = Delegation(system: nat, external: External, delivered: bool)

  datatype Record = Record(
    state: JobState,
    want: Want,
    delegation: Option<Delegation>,
    epoch: nat,
    held: bool,
    verified: seq<Range>,
    sources: seq<string>)

  datatype Status = Moving | Arrived | GaveUp | Dropped

  datatype Work = Work(system: nat, status: Status) {
    predicate Live() { status.Moving? || status.Arrived? }
  }

  datatype Report = SaysRunning | SaysTransferred | SaysFailed | SaysGone

  datatype Answer = Answer(report: Report, done: nat, suspended: bool)

  /** What the supervisor is about to do. The epochs are the ones it claimed at; `seen` is the
      record it loaded. */
  datatype Pc =
    | Idle | Reconciling | Delegating | Adopting | Delivering
    | Locating(seen: Record)
    | Located(seen: Record, found: Option<nat>)
    | Settling(epoch: nat, found: Option<nat>)
    | Polling(seen: Record)
    | Polled(seen: Record, answer: Answer)
    | Resuming(epoch: nat)
    | Acting(seen: Record, epoch: nat, report: Report)
    | Finalizing(handle: nat, epoch: nat)
    | Verifying(epoch: nat)
    | TakingBack(handle: nat, epoch: nat)
    | TakenBack(epoch: nat)
    | Stopping(seen: Record)
    | Honouring(handle: nat, epoch: nat, want: Want)
    | Cancelling(epoch: nat)
    | Noting(seen: Record)
    | Noted(epoch: nat)
    | Telling(handle: nat)
    | Releasing(epoch: nat, next: Pc)
    | Handing
    | Offering(epoch: nat)
    | Starting(epoch: nat, system: nat)
    | Unanswered(epoch: nat, system: nat)
    | Unhanding(epoch: nat)
    | Answered(epoch: nat, system: nat, handle: nat)
    | Stray(epoch: nat, handle: nat)
    | Undoing(handle: nat)
    | Taking
    | Beginning(epoch: nat, want: Want)
    | LocalRun(epoch: nat)
    | Interrupted(epoch: nat, want: Want)
    | Receiving
    | Received(epoch: nat)

  datatype State = State(
    rec: Record,
    works: map<nat, Work>,
    inflight: set<nat>,
    bound: set<nat>,
    pc: Pc)

  datatype Outcome =
    | AcceptsAndAnswers(h: nat) | AcceptsAndIsLost(h: nat) | AnswersOwnRequest(h: nat)
    | Repeats(h: nat) | Refuses | Vanishes

  datatype Action =
    // The world.
    | Crash | NextPass | Lapse | Asks(want: Want) | EndElsewhere | Rebind(systems: set<nat>)
    | LateAccept(system: nat, h: nat) | LateDrop(system: nat) | WorkArrives(h: nat) | WorkEnds(h: nat)
    // ReconcileAll and Reconcile.
    | Load | LocateFails | LocateAnswers(found: Option<nat>) | ClaimToSettle | Settle
    | PollFails | PollAnswers(answer: Answer) | ClaimToAct(suspendable: bool) | Resume | Act
    | FinalizeFails(consumed: bool) | Finalize | HashFails | Mismatch(permanent: bool) | Deliver(total: nat)
    | AbandonRestarted(stops: bool) | TakeBack | ClaimToHonour | HonourStop(obeys: bool) | RecordCancel
    | ClaimToNote | Note | TellTerminal(told: bool)
    // DelegateAll and Delegate.
    | PickOrphan | ClaimToDelegate | Offer(system: nat) | NoOffer(released: bool) | Start(outcome: Outcome)
    | LocateLostFails | LocateLost(found: Option<nat>) | Unhand | RecordHandle | AbandonStray(stops: bool)
    | UndoStart(stops: bool)
    // Adopt, Run, TakeDeliveryAll, and letting a lease go.
    | AdoptOrphan | ClaimToRun | BeginRun(recoverableOnly: bool) | Progress(verified: seq<Range>)
    | EndRun(ok: bool, permanent: bool, verified: seq<Range>) | NoticeIntent | HonourRun(verified: seq<Range>)
    | PickDelivered(present: bool) | ClaimToReceive | Receive | LetGo

  /** Store.Claim: refused while held or finished, and it raises the epoch by exactly one. */
  function Claim(r: Record): Option<Record> {
    if r.held || r.state.Terminal() then None
    else Some(r.(epoch := r.epoch + 1, held := true, state := if r.state.Pending? then Running else r.state))
  }

  predicate CanWrite(r: Record, epoch: nat) { r.held && r.epoch == epoch && !r.state.Terminal() }

  function Write(r: Record, epoch: nat, next: Record): Record { if CanWrite(r, epoch) then next else r }

  function Release(r: Record, epoch: nat): Record {
    if r.held && r.epoch == epoch && !r.state.Terminal() then r.(held := false) else r
  }

  /** claimDelegation's test that nothing was claimed and nothing moved since `seen`. */
  predicate StillAsSeen(seen: Record, claimed: Record) {
    && claimed.epoch - 1 == seen.epoch
    && claimed.state == (if seen.state.Pending? then Running else seen.state)
    && claimed.delegation.Some? && claimed.delegation == seen.delegation
  }

  /** claimDelegation: the claimed record when it still is what was observed. */
  datatype Bound = NotClaimed | Moved(rec: Record) | Ours(rec: Record)

  function ClaimDelegation(seen: Record, r: Record): Bound {
    match Claim(r)
    case None => NotClaimed
    case Some(c) => if StillAsSeen(seen, c) then Ours(c) else Moved(Release(c, c.epoch))
  }

  /** A record another process would call orphaned: no lease, not finished, not paused. */
  predicate Orphan(r: Record) {
    !r.held && !r.state.Terminal() && !r.state.Transferred? && !r.want.WantPause?
  }

  function Handed(r: Record, system: nat, e: External): Record {
    r.(delegation := Some(Delegation(system, e, false)), state := Running)
  }

  /** The job is ours again, its sources and checkpoint as they were. */
  function Back(r: Record): Record { r.(delegation := None, state := Pending) }

  /** The handoffs that were accepted and are neither over nor abandoned. */
  function LiveSet(works: map<nat, Work>): (live: set<nat>)
    ensures forall h :: h in live <==> h in works && works[h].Live()
  {
    set h | h in works && works[h].Live()
  }

  predicate LiveWork(s: State, h: nat) { h in LiveSet(s.works) }

  function Drop(works: map<nat, Work>, h: nat): (out: map<nat, Work>)
    ensures LiveSet(out) == LiveSet(works) - {h}
    ensures forall g :: g in works ==> g in out && out[g].system == works[g].system
  {
    if h in works then works[h := works[h].(status := Dropped)] else works
  }

  function Accept(works: map<nat, Work>, h: nat, system: nat): (out: map<nat, Work>)
    requires h !in works
    ensures LiveSet(out) == LiveSet(works) + {h} && h !in LiveSet(works)
    ensures forall g :: g in works ==> g in out && out[g] == works[g]
  {
    works[h := Work(system, Moving)]
  }

  function Mark(works: map<nat, Work>, h: nat, status: Status): (out: map<nat, Work>)
    requires h in works
    ensures LiveSet(out) <= LiveSet(works) + {h}
    ensures !status.Moving? && !status.Arrived? ==> LiveSet(out) == LiveSet(works) - {h}
    ensures forall g :: g in works ==> g in out && out[g].system == works[g].system
  {
    works[h := works[h].(status := status)]
  }

  /** Locate's contract: a handle it names it holds, and is the live one if any is; the empty
      answer is certain. */
  ghost predicate TrueLocate(s: State, system: nat, found: Option<nat>) {
    match found
    case None => forall h :: h in LiveSet(s.works) ==> s.works[h].system != system
    case Some(h) =>
      && h in s.works && s.works[h].system == system
      && forall g :: g in LiveSet(s.works) && s.works[g].system == system ==> g == h
  }

  predicate TruePoll(s: State, h: nat, a: Answer) {
    && (a.report.SaysFailed? || a.report.SaysGone? ==> !LiveWork(s, h))
    && (a.report.SaysTransferred? ==> h in s.works && s.works[h].status.Arrived?)
  }

  function HandleOf(r: Record): nat {
    if r.delegation.Some? && r.delegation.value.external.Handle? then r.delegation.value.external.h else 0
  }

  function SystemOf(r: Record): nat { if r.delegation.Some? then r.delegation.value.system else 0 }

  // ---- The world -------------------------------------------------------------------------

  ghost predicate World(s: State, a: Action, t: State) {
    match a
    case Crash => !s.pc.Idle? && t == s.(pc := Idle)
    case NextPass => s.pc.Idle? && t == s.(pc := Reconciling)
    case Lapse => s.rec.held && t == s.(rec := s.rec.(held := false))
    case Asks(w) => t == s.(rec := s.rec.(want := w))
    case EndElsewhere => !s.rec.state.Terminal() && t == s.(rec := s.rec.(state := Cancelled))
    case Rebind(systems) => t == s.(bound := systems)
    case _ => false
  }

  /** What the outside systems do on their own. */
  ghost predicate Elsewhere(s: State, a: Action, t: State) {
    match a
    case LateAccept(system, h) =>
      system in s.inflight && h !in s.works
      && t == s.(inflight := s.inflight - {system}, works := Accept(s.works, h, system))
    case LateDrop(system) => t == s.(inflight := s.inflight - {system})
    case WorkArrives(h) =>
      h in s.works && s.works[h].status.Moving?
      && t == s.(works := Mark(s.works, h, Arrived))
    case WorkEnds(h) => LiveWork(s, h) && t == s.(works := Mark(s.works, h, GaveUp))
    case _ => false
  }

  // ---- ReconcileAll, Reconcile, resolve, restarted, honourDelegated, stranded ---------------

  /** Where Reconcile goes after its Load, in the order it asks. */
  function AfterLoad(s: State): Pc {
    var r := s.rec;
    if r.delegation.None? || r.delegation.value.delivered || r.state.Transferred? then Delegating
    else if r.delegation.value.external.Request? then
      if SystemOf(r) in s.bound then Locating(r) else Noting(r)
    else if r.state.Terminal() then
      if SystemOf(r) in s.bound then Telling(HandleOf(r)) else Delegating
    else if !r.want.WantRun? then
      if SystemOf(r) in s.bound then Stopping(r) else Delegating
    else if SystemOf(r) in s.bound then Polling(r)
    else Noting(r)
  }

  ghost predicate Settles(s: State, a: Action, t: State) {
    match a
    case LocateFails => s.pc.Locating? && t == s.(pc := Delegating)
    case LocateAnswers(found) =>
      s.pc.Locating? && TrueLocate(s, SystemOf(s.pc.seen), found)
      && t == s.(inflight := s.inflight - {SystemOf(s.pc.seen)}, pc := Located(s.pc.seen, found))
    case ClaimToSettle =>
      s.pc.Located?
      && (match ClaimDelegation(s.pc.seen, s.rec)
          case NotClaimed => t == s.(pc := Delegating)
          case Moved(r) => t == s.(rec := r, pc := Delegating)
          case Ours(r) => t == s.(rec := r, pc := Settling(r.epoch, s.pc.found)))
    case Settle =>
      s.pc.Settling?
      && var next := match s.pc.found
                     case None => Back(s.rec)
                     case Some(h) =>
                       if s.rec.delegation.None? then s.rec
                       else s.rec.(delegation := Some(s.rec.delegation.value.(external := Handle(h))));
         t == s.(rec := Write(s.rec, s.pc.epoch, next), pc := Releasing(s.pc.epoch, Delegating))
    case _ => false
  }

  /** The delegate's report below the offset it was handed refutes its claim to resume. */
  predicate Refutes(seen: Record, a: Answer) { 0 < a.done < VerifiedPrefix(seen.verified) }

  ghost predicate Polls(s: State, a: Action, t: State) {
    match a
    case PollFails => s.pc.Polling? && t == s.(pc := Delegating)
    case PollAnswers(answer) =>
      s.pc.Polling? && TruePoll(s, HandleOf(s.pc.seen), answer) && t == s.(pc := Polled(s.pc.seen, answer))
    case ClaimToAct(suspendable) =>
      s.pc.Polled?
      && var seen, answer := s.pc.seen, s.pc.answer;
         if answer.suspended && !suspendable then t == s.(pc := Delegating)
         else (match ClaimDelegation(seen, s.rec)
               case NotClaimed => t == s.(pc := Delegating)
               case Moved(r) => t == s.(rec := r, pc := Delegating)
               case Ours(r) =>
                 t == s.(rec := r, pc :=
                   if answer.suspended then
                     if r.want.WantRun? then Resuming(r.epoch) else Releasing(r.epoch, Delegating)
                   else if Refutes(seen, answer) then TakingBack(HandleOf(seen), r.epoch)
                   else if !r.want.WantRun? then Releasing(r.epoch, Delegating)
                   else if answer.report.SaysTransferred? then Finalizing(HandleOf(seen), r.epoch)
                   else Acting(seen, r.epoch, answer.report)))
    case Resume => s.pc.Resuming? && t == s.(pc := Releasing(s.pc.epoch, Delegating))
    case Act =>
      s.pc.Acting?
      && var next := if s.pc.report.SaysRunning? then s.rec else Back(s.rec);
         t == s.(rec := Write(s.rec, s.pc.epoch, next), pc := Releasing(s.pc.epoch, Delegating))
    case _ => false
  }

  ghost predicate Takes(s: State, a: Action, t: State) {
    match a
    case FinalizeFails(consumed) =>
      s.pc.Finalizing?
      && t == s.(works := if consumed then Drop(s.works, s.pc.handle) else s.works, pc := Delegating)
    case Finalize =>
      s.pc.Finalizing?
      && t == s.(works := Drop(s.works, s.pc.handle), pc := Verifying(s.pc.epoch))
    case HashFails => s.pc.Verifying? && t == s.(pc := Delegating)
    case Mismatch(permanent) =>
      s.pc.Verifying?
      && var next := Back(s.rec).(state := if permanent then Failed else Pending, verified := []);
         t == s.(rec := Write(s.rec, s.pc.epoch, next), pc := Delegating)
    case Deliver(total) =>
      s.pc.Verifying?
      && var next := if s.rec.delegation.None? then s.rec
                     else s.rec.(state := Transferred,
                                 delegation := Some(s.rec.delegation.value.(delivered := true)),
                                 verified := WholePrefix(total));
         t == s.(rec := Write(s.rec, s.pc.epoch, next), pc := Delegating)
    case AbandonRestarted(stops) =>
      s.pc.TakingBack?
      && t == s.(works := if stops then Drop(s.works, s.pc.handle) else s.works, pc := TakenBack(s.pc.epoch))
    case TakeBack =>
      s.pc.TakenBack?
      && t == s.(rec := Write(s.rec, s.pc.epoch, Back(s.rec)), pc := Releasing(s.pc.epoch, Delegating))
    case _ => false
  }

  ghost predicate Honours(s: State, a: Action, t: State) {
    match a
    case ClaimToHonour =>
      s.pc.Stopping?
      && (match ClaimDelegation(s.pc.seen, s.rec)
          case NotClaimed => t == s.(pc := Delegating)
          case Moved(r) => t == s.(rec := r, pc := Delegating)
          case Ours(r) => t == s.(rec := r, pc := Honouring(HandleOf(s.pc.seen), r.epoch, r.want)))
    case HonourStop(obeys) =>
      s.pc.Honouring?
      && (if !s.pc.want.WantRun? && !obeys then t == s.(pc := Delegating)
          else if s.pc.want.WantCancel? then
            t == s.(works := Drop(s.works, s.pc.handle), pc := Cancelling(s.pc.epoch))
          else t == s.(pc := Releasing(s.pc.epoch, Delegating)))
    case RecordCancel =>
      s.pc.Cancelling?
      && t == s.(rec := Write(s.rec, s.pc.epoch, s.rec.(state := Cancelled, delegation := None)), pc := Delegating)
    case ClaimToNote =>
      s.pc.Noting?
      && (match ClaimDelegation(s.pc.seen, s.rec)
          case NotClaimed => t == s.(pc := Delegating)
          case Moved(r) => t == s.(rec := r, pc := Delegating)
          case Ours(r) => t == s.(rec := r, pc := Noted(r.epoch)))
    case Note => s.pc.Noted? && t == s.(pc := Releasing(s.pc.epoch, Delegating))
    case TellTerminal(told) =>
      s.pc.Telling?
      && t == s.(works := if told then s.works else Drop(s.works, s.pc.handle), pc := Delegating)
    case _ => false
  }

  // ---- DelegateAll, Delegate, located, unhand ----------------------------------------------

  ghost predicate Offers(s: State, a: Action, t: State) {
    match a
    case PickOrphan =>
      s.pc.Delegating?
      && t == s.(pc := if s.bound != {} && Orphan(s.rec) && s.rec.delegation.None? then Handing else Adopting)
    case ClaimToDelegate =>
      s.pc.Handing?
      && (match Claim(s.rec)
          case None => t == s.(pc := Adopting)
          case Some(r) =>
            t == s.(rec := r, pc := if r.delegation.Some? then Releasing(r.epoch, Adopting) else Offering(r.epoch)))
    case NoOffer(released) =>
      s.pc.Offering? && t == s.(pc := if released then Releasing(s.pc.epoch, Adopting) else Adopting)
    case Offer(system) =>
      s.pc.Offering? && system in s.bound
      && (if CanWrite(s.rec, s.pc.epoch)
          then t == s.(rec := Handed(s.rec, system, Request), pc := Starting(s.pc.epoch, system))
          else t == s.(pc := Releasing(s.pc.epoch, Adopting)))
    case _ => false
  }

  ghost predicate Starts(s: State, a: Action, t: State) {
    match a
    case Start(outcome) =>
      s.pc.Starting?
      && var e, system := s.pc.epoch, s.pc.system;
         (match outcome
          case AcceptsAndAnswers(h) =>
            h !in s.works && t == s.(works := Accept(s.works, h, system), pc := Answered(e, system, h))
          case AcceptsAndIsLost(h) =>
            h !in s.works && t == s.(works := Accept(s.works, h, system), pc := Unanswered(e, system))
          case AnswersOwnRequest(h) =>
            h !in s.works && t == s.(works := Accept(s.works, h, system), pc := Stray(e, h))
          case Repeats(h) =>
            h in s.works && s.works[h].system == system && t == s.(pc := Answered(e, system, h))
          case Refuses => t == s.(pc := Unanswered(e, system))
          case Vanishes => t == s.(inflight := s.inflight + {system}, pc := Unanswered(e, system)))
    case _ => false
  }

  ghost predicate Looks(s: State, a: Action, t: State) {
    match a
    case LocateLostFails => s.pc.Unanswered? && t == s.(pc := Releasing(s.pc.epoch, Adopting))
    case LocateLost(found) =>
      s.pc.Unanswered? && TrueLocate(s, s.pc.system, found)
      && t == s.(inflight := s.inflight - {s.pc.system},
                 pc := match found
                       case None => Unhanding(s.pc.epoch)
                       case Some(h) => Answered(s.pc.epoch, s.pc.system, h))
    case _ => false
  }

  ghost predicate Records(s: State, a: Action, t: State) {
    match a
    case Unhand =>
      s.pc.Unhanding?
      && t == s.(rec := Write(s.rec, s.pc.epoch, Back(s.rec)),
                 pc := if CanWrite(s.rec, s.pc.epoch) then Offering(s.pc.epoch)
                       else Releasing(s.pc.epoch, Adopting))
    case RecordHandle =>
      s.pc.Answered?
      && t == s.(rec := Write(s.rec, s.pc.epoch, Handed(s.rec, s.pc.system, Handle(s.pc.handle))),
                 pc := if CanWrite(s.rec, s.pc.epoch) then Releasing(s.pc.epoch, Adopting)
                       else Undoing(s.pc.handle))
    case AbandonStray(stops) =>
      s.pc.Stray?
      && t == s.(works := if stops then Drop(s.works, s.pc.handle) else s.works, pc := Releasing(s.pc.epoch, Adopting))
    case UndoStart(stops) =>
      s.pc.Undoing? && t == s.(works := if stops then Drop(s.works, s.pc.handle) else s.works, pc := Adopting)
    case _ => false
  }

  // ---- Adopt, Run, TakeDeliveryAll, and every Release ---------------------------------------

  ghost predicate Adopts(s: State, a: Action, t: State) {
    match a
    case AdoptOrphan =>
      s.pc.Adopting?
      && (t == s.(pc := Delivering) || (Orphan(s.rec) && s.rec.delegation.None? && t == s.(pc := Taking)))
    case ClaimToRun =>
      s.pc.Taking?
      && (match Claim(s.rec)
          case None => t == s.(pc := Delivering)
          case Some(r) => t == s.(rec := r, pc := Beginning(r.epoch, r.want)))
    case BeginRun(recoverableOnly) =>
      s.pc.Beginning?
      && (if s.pc.want.WantCancel? then
            t == s.(rec := Write(s.rec, s.pc.epoch, s.rec.(state := Cancelled)), pc := Releasing(s.pc.epoch, Delivering))
          else if s.pc.want.WantPause? || recoverableOnly then t == s.(pc := Releasing(s.pc.epoch, Delivering))
          else t == s.(pc := LocalRun(s.pc.epoch)))
    case _ => false
  }

  ghost predicate Finishes(s: State, a: Action, t: State) {
    match a
    case Progress(verified) =>
      s.pc.LocalRun? && t == s.(rec := Write(s.rec, s.pc.epoch, s.rec.(verified := verified)))
    case EndRun(ok, permanent, verified) =>
      s.pc.LocalRun?
      && var next := if ok then s.rec.(state := Transferred, verified := verified)
                     else s.rec.(state := if permanent then Failed else s.rec.state, verified := verified);
         t == s.(rec := Write(s.rec, s.pc.epoch, next), pc := Releasing(s.pc.epoch, Delivering))
    case NoticeIntent =>
      s.pc.LocalRun? && !s.rec.want.WantRun? && t == s.(pc := Interrupted(s.pc.epoch, s.rec.want))
    case HonourRun(verified) =>
      s.pc.Interrupted?
      && var next := s.rec.(state := if s.pc.want.WantCancel? then Cancelled else s.rec.state, verified := verified);
         t == s.(rec := Write(s.rec, s.pc.epoch, next), pc := Releasing(s.pc.epoch, Delivering))
    case PickDelivered(present) =>
      s.pc.Delivering?
      && t == s.(pc := if s.rec.state.Transferred? && (present || s.rec.delegation.None? || s.rec.delegation.value.delivered)
                       then Receiving else Idle)
    case ClaimToReceive =>
      s.pc.Receiving?
      && (match Claim(s.rec)
          case None => t == s.(pc := Idle)
          case Some(r) => t == s.(rec := r, pc := Received(r.epoch)))
    case Receive =>
      s.pc.Received? && t == s.(rec := Write(s.rec, s.pc.epoch, s.rec.(state := Complete)), pc := Idle)
    case LetGo => s.pc.Releasing? && t == s.(rec := Release(s.rec, s.pc.epoch), pc := s.pc.next)
    case _ => false
  }

  ghost predicate Reconciles(s: State, a: Action, t: State) {
    || (a.Load? && s.pc.Reconciling? && t == s.(pc := AfterLoad(s)))
    || Settles(s, a, t)
    || Polls(s, a, t)
    || Takes(s, a, t)
    || Honours(s, a, t)
  }

  ghost predicate Delegates(s: State, a: Action, t: State) {
    Offers(s, a, t) || Records(s, a, t) || Starts(s, a, t) || Looks(s, a, t)
  }

  ghost predicate Step(s: State, a: Action, t: State) {
    || World(s, a, t)
    || Elsewhere(s, a, t)
    || Reconciles(s, a, t)
    || Delegates(s, a, t)
    || Adopts(s, a, t)
    || Finishes(s, a, t)
  }

  ghost predicate Init(s: State) {
    && s.works == map[] && s.inflight == {} && s.pc.Idle?
    && s.rec.delegation.None? && !s.rec.held && s.rec.state.Pending?
  }

  /** A run: actions and the states between them. */
  ghost predicate IsRun(states: seq<State>, actions: seq<Action>) {
    && |states| == |actions| + 1
    && Init(states[0])
    && forall i :: 0 <= i < |actions| ==> Step(states[i], actions[i], states[i + 1])
  }

  /** A job is taken back from a refuted delegate while work for it goes on outside: the delegate was
      told to stop and did not, and the code does not look. */
  predicate Strands(s: State, a: Action, t: State) {
    a.TakeBack? && t.rec != s.rec && LiveSet(s.works) != {}
  }

  /** A run in which that never happens. HandoffRuns shows what may follow wherever it does. */
  ghost predicate IsSoundRun(states: seq<State>, actions: seq<Action>) {
    && IsRun(states, actions)
    && forall i :: 0 <= i < |actions| ==> !Strands(states[i], actions[i], states[i + 1])
  }

  // ---- What holds in every reachable state --------------------------------------------------

  /** Nobody outside holds this job and nothing that could make them hold it is on its way. */
  ghost predicate Clear(s: State) { s.inflight == {} && LiveSet(s.works) == {} }

  /** Whoever may be transferring is the one the record names, and there is at most one. */
  ghost predicate Named(s: State) {
    && (forall h :: h in LiveSet(s.works) ==>
         && s.rec.delegation.Some?
         && s.rec.delegation.value.system == s.works[h].system
         && (s.rec.delegation.value.external.Request? || s.rec.delegation.value.external == Handle(h))
         && !s.rec.delegation.value.delivered)
    && (forall g, h :: g in LiveSet(s.works) && h in LiveSet(s.works) ==> g == h)
    && (s.inflight != {} ==>
         && s.rec.delegation.Some?
         && s.inflight == {s.rec.delegation.value.system}
         && s.rec.delegation.value.external.Request?
         && !s.rec.delegation.value.delivered
         && LiveSet(s.works) == {})
  }

  /** Only this handle may be live. */
  ghost predicate Only(s: State, h: nat) { s.inflight == {} && LiveSet(s.works) <= {h} }

  /** The record still carries the delegation the supervisor loaded. */
  predicate SameHandoff(s: State, seen: Record) { seen.delegation.Some? && s.rec.delegation == seen.delegation }

  /** A located answer still describes the world. */
  ghost predicate Found(s: State, found: Option<nat>) {
    match found
    case None => Clear(s)
    case Some(h) => Only(s, h) && h in s.works && s.works[h].system == SystemOf(s.rec)
  }

  predicate Stage(pc: Pc) { pc.Delegating? || pc.Adopting? || pc.Delivering? }

  predicate HandleRecorded(s: State, h: nat) {
    s.rec.delegation.Some? && s.rec.delegation.value.external == Handle(h) && !s.rec.delegation.value.delivered
  }

  predicate RequestRecorded(s: State, system: nat) {
    s.rec.delegation == Some(Delegation(system, Request, false))
  }

  /** What each point of the supervisor's code may rely on. */
  ghost predicate At(s: State) {
    match s.pc
    case Locating(seen) => SameHandoff(s, seen) && seen.delegation.value.external.Request? && !seen.delegation.value.delivered
    case Located(seen, found) =>
      && SameHandoff(s, seen) && seen.delegation.value.external.Request? && !seen.delegation.value.delivered
      && Found(s, found)
    case Settling(_, found) => RequestRecorded(s, SystemOf(s.rec)) && Found(s, found)
    case Polling(seen) => SameHandoff(s, seen) && HandleRecorded(s, HandleOf(seen))
    case Polled(seen, a) =>
      && SameHandoff(s, seen) && HandleRecorded(s, HandleOf(seen))
      && (a.report.SaysFailed? || a.report.SaysGone? ==> Clear(s))
    case Acting(seen, _, report) =>
      HandleRecorded(s, HandleOf(seen)) && (report.SaysFailed? || report.SaysGone? ==> Clear(s))
      && !report.SaysTransferred?
    case Finalizing(h, _) => HandleRecorded(s, h)
    case Verifying(_) => s.rec.delegation.Some? && Clear(s)
    case TakingBack(h, _) => HandleRecorded(s, h)
    case TakenBack(_) => s.inflight == {}
    case Stopping(seen) => SameHandoff(s, seen) && HandleRecorded(s, HandleOf(seen))
    case Honouring(h, _, _) => HandleRecorded(s, h)
    case Cancelling(_) => Clear(s)
    case Telling(h) => HandleRecorded(s, h)
    case Releasing(_, next) => Stage(next)
    case Handing => s.rec.delegation.None?
    case Offering(_) => s.rec.delegation.None?
    case Starting(_, system) => RequestRecorded(s, system) && Clear(s)
    case Unanswered(_, system) => RequestRecorded(s, system)
    case Unhanding(_) => Clear(s)
    case Answered(_, system, h) => RequestRecorded(s, system) && Only(s, h)
    case Stray(_, h) => Only(s, h)
    case Undoing(h) => Only(s, h)
    case Taking => s.rec.delegation.None?
    case Beginning(_, _) => s.rec.delegation.None?
    case LocalRun(_) => s.rec.delegation.None?
    case Interrupted(_, _) => s.rec.delegation.None?
    case _ => true
  }

  ghost predicate Inv(s: State) { Named(s) && At(s) }

  /** How many transfers of this job are going on: outside, and here. */
  function Transfers(s: State): nat { |LiveSet(s.works)| + if s.pc.LocalRun? then 1 else 0 }

  predicate Quiet(s: State) { LiveSet(s.works) == {} && !s.pc.LocalRun? }

  /** The step takes up a transfer that was not there: a local run begins, or outside work does. */
  predicate BeginsTransfer(s: State, t: State) {
    (t.pc.LocalRun? && !s.pc.LocalRun?) || !(LiveSet(t.works) <= LiveSet(s.works))
  }

  /** Nothing of what is relied on is about the state, the lease, the intent or who is bound. */
  lemma UntouchedKeeps(s: State, t: State)
    requires Inv(s) && t.pc == s.pc && t.works == s.works && t.inflight == s.inflight
    requires t.rec.delegation == s.rec.delegation
    ensures Inv(t) && !BeginsTransfer(s, t)
  {
  }

  lemma GoneKeeps(s: State, t: State)
    requires Inv(s) && (t.pc.Idle? || t.pc.Reconciling?) && t == s.(pc := t.pc)
    ensures Inv(t) && !BeginsTransfer(s, t)
  {
  }

  lemma WorldKeeps(s: State, a: Action, t: State)
    requires Inv(s) && World(s, a, t)
    ensures Inv(t) && (BeginsTransfer(s, t) ==> Quiet(s))
  {
    hide Inv, BeginsTransfer, Quiet;
    if a.Crash? || a.NextPass? { GoneKeeps(s, t); } else { UntouchedKeeps(s, t); }
  }

  lemma LoadKeeps(s: State, t: State)
    requires Inv(s)
    ensures s.pc.Reconciling? && t == s.(pc := AfterLoad(s)) ==> Inv(t) && !BeginsTransfer(s, t)
  {
  }

  lemma SettlesKeeps(s: State, a: Action, t: State)
    requires Inv(s) && Settles(s, a, t)
    ensures Inv(t) && (BeginsTransfer(s, t) ==> Quiet(s))
  {
  }

  lemma PollsKeeps(s: State, a: Action, t: State)
    requires Inv(s) && Polls(s, a, t)
    ensures Inv(t) && (BeginsTransfer(s, t) ==> Quiet(s))
  {
  }

  lemma HonoursKeeps(s: State, a: Action, t: State)
    requires Inv(s) && Honours(s, a, t)
    ensures Inv(t) && (BeginsTransfer(s, t) ==> Quiet(s))
  {
  }

  lemma OffersKeeps(s: State, a: Action, t: State)
    requires Inv(s) && Offers(s, a, t)
    ensures Inv(t) && (BeginsTransfer(s, t) ==> Quiet(s))
  {
  }

  lemma StartsKeeps(s: State, a: Action, t: State)
    requires Inv(s) && Starts(s, a, t)
    ensures Inv(t) && (BeginsTransfer(s, t) ==> Quiet(s))
  {
  }

  lemma FinishesKeeps(s: State, a: Action, t: State)
    requires Inv(s) && Finishes(s, a, t)
    ensures Inv(t) && (BeginsTransfer(s, t) ==> Quiet(s))
  {
  }

  lemma LooksKeeps(s: State, a: Action, t: State)
    requires Inv(s) && Looks(s, a, t)
    ensures Inv(t) && (BeginsTransfer(s, t) ==> Quiet(s))
  {
  }

  lemma ElsewhereKeeps(s: State, a: Action, t: State)
    requires Inv(s) && Elsewhere(s, a, t)
    ensures Inv(t) && (BeginsTransfer(s, t) ==> Quiet(s))
  {
  }

  lemma TakesKeeps(s: State, a: Action, t: State)
    requires Inv(s) && Takes(s, a, t) && !Strands(s, a, t)
    ensures Inv(t) && (BeginsTransfer(s, t) ==> Quiet(s))
  {
  }

  lemma RecordsKeeps(s: State, a: Action, t: State)
    requires Inv(s) && Records(s, a, t)
    ensures Inv(t) && (BeginsTransfer(s, t) ==> Quiet(s))
  {
  }

  lemma AdoptsKeeps(s: State, a: Action, t: State)
    requires Inv(s) && Adopts(s, a, t)
    ensures Inv(t) && (BeginsTransfer(s, t) ==> Quiet(s))
  {
  }

  /** What every step leaves behind. */
  ghost predicate Kept(s: State, t: State) { Inv(t) && (BeginsTransfer(s, t) ==> Quiet(s)) }

  lemma OutsideKeeps(s: State, a: Action, t: State)
    requires Inv(s)
    ensures World(s, a, t) || Elsewhere(s, a, t) ==> Kept(s, t)
  {
    if World(s, a, t) { WorldKeeps(s, a, t); }
    if Elsewhere(s, a, t) { ElsewhereKeeps(s, a, t); }
  }

  lemma ReconcilesKeeps(s: State, a: Action, t: State)
    requires Inv(s) && !Strands(s, a, t)
    ensures Reconciles(s, a, t) ==> Kept(s, t)
  {
    if Settles(s, a, t) { SettlesKeeps(s, a, t); }
    else if Polls(s, a, t) { PollsKeeps(s, a, t); }
    else if Takes(s, a, t) { TakesKeeps(s, a, t); }
    else if Honours(s, a, t) { HonoursKeeps(s, a, t); }
    else if Reconciles(s, a, t) { LoadKeeps(s, t); }
  }

  lemma DelegatesKeeps(s: State, a: Action, t: State)
    requires Inv(s)
    ensures Delegates(s, a, t) ==> Kept(s, t)
  {
    if Offers(s, a, t) { OffersKeeps(s, a, t); }
    if Records(s, a, t) { RecordsKeeps(s, a, t); }
    if Starts(s, a, t) { StartsKeeps(s, a, t); }
    if Looks(s, a, t) { LooksKeeps(s, a, t); }
  }

  lemma RunsKeeps(s: State, a: Action, t: State)
    requires Inv(s)
    ensures Adopts(s, a, t) || Finishes(s, a, t) ==> Kept(s, t)
  {
    if Adopts(s, a, t) { AdoptsKeeps(s, a, t); }
    if Finishes(s, a, t) { FinishesKeeps(s, a, t); }
  }

  lemma StepKeeps(s: State, a: Action, t: State)
    requires Inv(s) && Step(s, a, t) && !Strands(s, a, t)
    ensures Kept(s, t)
  {
    OutsideKeeps(s, a, t);
    ReconcilesKeeps(s, a, t);
    DelegatesKeeps(s, a, t);
    RunsKeeps(s, a, t);
  }

  lemma {:induction false} Reachable(states: seq<State>, actions: seq<Action>, i: nat)
    requires IsSoundRun(states, actions) && i < |states|
    ensures Inv(states[i])
  {
    if i > 0 {
      Reachable(states, actions, i - 1);
      StepKeeps(states[i - 1], actions[i - 1], states[i]);
    }
  }

  // ---- The main claims ----------------------------------------------------------------------

  /** In every run, whatever crashes, lapses, lost answers and late acceptances it holds, this job
      is never transferred twice at once: a transfer begins only when none is going on. It is so as
      long as nothing is taken back from a refuted delegate that goes on working. */
  lemma NoSecondTransfer(states: seq<State>, actions: seq<Action>)
    requires IsSoundRun(states, actions)
    ensures forall i :: 0 <= i < |states| ==> Transfers(states[i]) <= 1
    ensures forall i :: 0 <= i < |actions| && BeginsTransfer(states[i], states[i + 1]) ==> Transfers(states[i]) == 0
  {
    forall i | 0 <= i < |states| ensures Transfers(states[i]) <= 1 {
      Reachable(states, actions, i);
      InvMeansOne(states[i]);
    }
    forall i | 0 <= i < |actions| && BeginsTransfer(states[i], states[i + 1]) ensures Transfers(states[i]) == 0 {
      Reachable(states, actions, i);
      StepKeeps(states[i], actions[i], states[i + 1]);
    }
  }

  lemma InvMeansOne(s: State)
    requires Inv(s)
    ensures Transfers(s) <= 1
    ensures s.pc.LocalRun? ==> Clear(s)
  {
    if h :| h in LiveSet(s.works) { assert LiveSet(s.works) == {h}; }
  }

  /** Every accepted handoff can be found again: in every reachable state the record names the
      system of each live work, with its handle or with the request Locate answers for. */
  lemma NothingIsLost(states: seq<State>, actions: seq<Action>, i: nat, h: nat)
    requires IsSoundRun(states, actions) && i < |states| && h in LiveSet(states[i].works)
    ensures var s := states[i];
      && s.rec.delegation.Some?
      && s.rec.delegation.value.system == s.works[h].system
      && (s.rec.delegation.value.external == Handle(h) || s.rec.delegation.value.external.Request?)
  {
    Reachable(states, actions, i);
  }

  /** Steps of a transfer running here, the only ones that may move the proven set on their own. */
  predicate LocalStep(a: Action) { a.Progress? || a.EndRun? || a.HonourRun? }

  /** What a step may do to the sources and to the proven set. */
  predicate Conserves(s: State, a: Action, t: State) {
    && t.rec.sources == s.rec.sources
    && (!a.Mismatch? && !a.Deliver? && !LocalStep(a) ==> t.rec.verified == s.rec.verified)
    && (a.Mismatch? ==> t.rec == s.rec || t.rec.verified == [])
    && (a.Deliver? ==> t.rec == s.rec || t.rec.verified == WholePrefix(a.total))
  }

  lemma WorldConserves(s: State, a: Action, t: State)
    ensures World(s, a, t) ==> Conserves(s, a, t)
  {
  }

  lemma ElsewhereConserves(s: State, a: Action, t: State)
    ensures Elsewhere(s, a, t) ==> Conserves(s, a, t)
  {
  }

  lemma RunsConserves(s: State, a: Action, t: State)
    ensures Adopts(s, a, t) || Finishes(s, a, t) ==> Conserves(s, a, t)
  {
  }

  lemma SettlesConserves(s: State, a: Action, t: State)
    ensures Settles(s, a, t) ==> Conserves(s, a, t)
  {
  }

  lemma PollsConserves(s: State, a: Action, t: State)
    ensures Polls(s, a, t) ==> Conserves(s, a, t)
  {
  }

  lemma TakesConserves(s: State, a: Action, t: State)
    ensures Takes(s, a, t) ==> Conserves(s, a, t)
  {
  }

  lemma HonoursConserves(s: State, a: Action, t: State)
    ensures Honours(s, a, t) ==> Conserves(s, a, t)
  {
  }

  lemma OffersConserves(s: State, a: Action, t: State)
    ensures Offers(s, a, t) ==> Conserves(s, a, t)
  {
  }

  lemma RecordsConserves(s: State, a: Action, t: State)
    ensures Records(s, a, t) ==> Conserves(s, a, t)
  {
  }

  lemma StartsConserves(s: State, a: Action, t: State)
    ensures Starts(s, a, t) ==> Conserves(s, a, t)
  {
  }

  lemma LooksConserves(s: State, a: Action, t: State)
    ensures Looks(s, a, t) ==> Conserves(s, a, t)
  {
  }

  lemma StepConserves(s: State, a: Action, t: State)
    requires Step(s, a, t)
    ensures Conserves(s, a, t)
  {
    hide World, Elsewhere, Adopts, Finishes, Settles, Polls, Takes, Honours, Offers, Records, Starts, Looks;
    WorldConserves(s, a, t);
    ElsewhereConserves(s, a, t);
    RunsConserves(s, a, t);
    SettlesConserves(s, a, t);
    PollsConserves(s, a, t);
    TakesConserves(s, a, t);
    HonoursConserves(s, a, t);
    OffersConserves(s, a, t);
    RecordsConserves(s, a, t);
    StartsConserves(s, a, t);
    LooksConserves(s, a, t);
  }

  /** No step of the handoff touches the sources, and only two touch what is proven: a digest
      mismatch empties it, and a delivery of `total` bytes replaces it by [0, total), which keeps
      every proven byte exactly when the delivery is at least as long as the set reaches. */
  lemma HandoffKeepsProven(s: State, a: Action, t: State)
    requires Step(s, a, t) && Canonical(s.rec.verified) && !LocalStep(a)
    ensures t.rec.sources == s.rec.sources
    ensures t.rec.verified != s.rec.verified ==> a.Deliver? || (a.Mismatch? && t.rec.verified == [])
    ensures a.Deliver? && t.rec != s.rec ==>
      (Within(s.rec.verified, t.rec.verified) <==> Reach(s.rec.verified) <= a.total)
  {
    StepConserves(s, a, t);
    if a.Deliver? { ReplacedByPrefix(s.rec.verified, a.total); }
  }

  lemma ReplacedByPrefix(v: seq<Range>, total: nat)
    requires Canonical(v)
    ensures Within(v, WholePrefix(total)) <==> Reach(v) <= total
  {
    CoversBelowReach(v);
    WholePrefixCovers(total);
    if Reach(v) > total { assert Covers(v, Reach(v) - 1); }
  }

  lemma {:induction false} SourcesNeverChange(states: seq<State>, actions: seq<Action>, i: nat)
    requires IsRun(states, actions) && i < |states|
    ensures states[i].rec.sources == states[0].rec.sources
  {
    if i > 0 {
      SourcesNeverChange(states, actions, i - 1);
      StepConserves(states[i - 1], actions[i - 1], states[i]);
    }
  }

  /** The claim made for a located answer goes on to settle exactly when the record is free, not
      finished and as it was loaded; the write that follows is then in order, unless the lease
      lapses or the record ends first. */
  lemma SettlingBegins(states: seq<State>, actions: seq<Action>, i: nat)
    requires IsSoundRun(states, actions) && i < |actions| && actions[i].ClaimToSettle?
    ensures var s, t := states[i], states[i + 1];
      && s.pc.Located? && t.rec.verified == s.rec.verified && t.rec.sources == s.rec.sources
      && (t.pc.Settling? <==>
            && !s.rec.held && !s.rec.state.Terminal() && s.rec.epoch == s.pc.seen.epoch
            && (s.rec.state == s.pc.seen.state || {s.rec.state, s.pc.seen.state} == {Pending, Running}))
      && (t.pc.Settling? ==> CanWrite(t.rec, t.pc.epoch) && t.pc.found == s.pc.found)
  {
    Reachable(states, actions, i);
    assert Settles(states[i], actions[i], states[i + 1]);
  }

  /** However the run goes, whatever fell between the answer, the claim and the write, settling
      leaves the sources and the proven bytes alone, and does one of three things: nothing, where the
      store refuses it; gives the job back, where nobody holds it and nothing is on its way; or
      records the handle of the work its system really holds, the only one that may be live. */
  lemma SettlingIsRight(states: seq<State>, actions: seq<Action>, i: nat)
    requires IsSoundRun(states, actions) && i < |actions| && actions[i].Settle?
    ensures var s, t := states[i], states[i + 1];
      && s.pc.Settling? && t.rec.verified == s.rec.verified && t.rec.sources == s.rec.sources
      && if !CanWrite(s.rec, s.pc.epoch) then t.rec == s.rec
         else
           match s.pc.found
           case None => t.rec.delegation.None? && t.rec.state.Pending? && Clear(t)
           case Some(h) =>
             && t.rec.delegation == Some(Delegation(SystemOf(s.rec), Handle(h), false))
             && h in t.works && t.works[h].system == SystemOf(s.rec) && Only(t, h)
  {
    Reachable(states, actions, i);
    assert Settles(states[i], actions[i], states[i + 1]);
  }
}
