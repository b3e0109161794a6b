/** What the supervisor does next, and what it does to the record: the order and the outcome of the
    effects of go/delegator.go and go/serve/pass.go, over every run of the handoff machine. */
module HandoffOrder {
  import opened Handoff
  import opened Jobs
  import opened Options
  import opened Ranges

  // Nothing here speaks of where the supervisor stands in its code: a run is its effects, and what
  // the record, the works and the intent were before and after each.

  /** An effect of the world or of an outside system. */
  predicate Outside(a: Action) {
    || a.Lapse? || a.Asks? || a.EndElsewhere? || a.Rebind?
    || a.LateAccept? || a.LateDrop? || a.WorkArrives? || a.WorkEnds?
  }

  predicate Own(a: Action) { !Outside(a) && !a.Crash? }

  /** The supervisor's effect at j is the one after that at i, in the same process. */
  ghost predicate Next(actions: seq<Action>, i: int, j: int) {
    && 0 <= i < j < |actions| && Own(actions[i]) && Own(actions[j])
    && forall k :: i < k < j ==> Outside(actions[k])
  }

  // ---- The order of the effects ---------------------------------------------------------------------

  predicate Polling(a: Action) { a.PollFails? || a.PollAnswers? }

  predicate Finalizing(a: Action) { a.FinalizeFails? || a.Finalize? }

  predicate RunsOn(a: Action) { a.Progress? || a.EndRun? || a.NoticeIntent? }

  predicate Offering(a: Action) { a.Offer? || a.NoOffer? }

  /** Which effect may come after which, letting a lease go aside. */
  predicate Follows(a: Action, b: Action) {
    match a
    case NextPass => b.Load?
    case Load =>
      b.LocateFails? || b.LocateAnswers? || Polling(b) || b.ClaimToHonour? || b.ClaimToNote? || b.TellTerminal? || b.PickOrphan?
    case LocateFails => b.PickOrphan?
    case LocateAnswers(_) => b.ClaimToSettle?
    case ClaimToSettle => b.Settle? || b.PickOrphan?
    case Settle => b.LetGo?
    case PollFails => b.PickOrphan?
    case PollAnswers(_) => b.ClaimToAct?
    case ClaimToAct(_) => b.Resume? || b.AbandonRestarted? || Finalizing(b) || b.Act? || b.LetGo? || b.PickOrphan?
    case Resume => b.LetGo?
    case Act => b.LetGo?
    case FinalizeFails(_) => b.PickOrphan?
    case Finalize => b.HashFails? || b.Mismatch? || b.Deliver?
    case HashFails => b.PickOrphan?
    case Mismatch(_) => b.PickOrphan?
    case Deliver(_) => b.PickOrphan?
    case AbandonRestarted(_) => b.TakeBack?
    case TakeBack => b.LetGo?
    case ClaimToHonour => b.HonourStop? || b.PickOrphan?
    case HonourStop(_) => b.RecordCancel? || b.LetGo? || b.PickOrphan?
    case RecordCancel => b.PickOrphan?
    case ClaimToNote => b.Note? || b.PickOrphan?
    case Note => b.LetGo?
    case TellTerminal(_) => b.PickOrphan?
    case PickOrphan => b.ClaimToDelegate? || b.AdoptOrphan?
    case ClaimToDelegate => Offering(b) || b.LetGo? || b.AdoptOrphan?
    case NoOffer(_) => b.LetGo? || b.AdoptOrphan?
    case Offer(_) => b.Start? || b.LetGo?
    case Start(_) => b.LocateLost? || b.LocateLostFails? || b.RecordHandle? || b.AbandonStray?
    case LocateLostFails => b.LetGo?
    case LocateLost(_) => b.Unhand? || b.RecordHandle?
    case Unhand => Offering(b) || b.LetGo?
    case RecordHandle => b.LetGo? || b.UndoStart?
    case AbandonStray(_) => b.LetGo?
    case UndoStart(_) => b.AdoptOrphan?
    case AdoptOrphan => b.ClaimToRun? || b.PickDelivered?
    case ClaimToRun => b.BeginRun? || b.PickDelivered?
    case BeginRun(_) => RunsOn(b) || b.LetGo?
    case Progress(_) => RunsOn(b)
    case EndRun(_, _, _) => b.LetGo?
    case NoticeIntent => b.HonourRun?
    case HonourRun(_) => b.LetGo?
    case PickDelivered(_) => b.ClaimToReceive? || b.NextPass?
    case ClaimToReceive => b.Receive? || b.NextPass?
    case Receive => b.NextPass?
    case _ => true
  }

  /** After a lease is let go: a reconciled job is followed by the search for one to hand over, that
      by the search for one to run here, and that by the search for one to close. */
  predicate FollowsRelease(before: Action, b: Action) {
    if before.BeginRun? || before.EndRun? || before.HonourRun? then b.PickDelivered?
    else if before.ClaimToDelegate? || Offering(before) || before.LocateLostFails? || before.Unhand?
            || before.RecordHandle? || before.AbandonStray? then b.AdoptOrphan?
    else b.PickOrphan?
  }

  /** The effects that belong to a point of the code. */
  predicate Stands(pc: Pc, a: Action) {
    match pc
    case Idle => a.NextPass?
    case Reconciling => a.Load?
    case Delegating => a.PickOrphan?
    case Adopting => a.AdoptOrphan?
    case Delivering => a.PickDelivered?
    case Locating(_) => a.LocateFails? || a.LocateAnswers?
    case Located(_, _) => a.ClaimToSettle?
    case Settling(_, _) => a.Settle?
    case Polling(_) => Polling(a)
    case Polled(_, _) => a.ClaimToAct?
    case Resuming(_) => a.Resume?
    case Acting(_, _, _) => a.Act?
    case Finalizing(_, _) => Finalizing(a)
    case Verifying(_) => a.HashFails? || a.Mismatch? || a.Deliver?
    case TakingBack(_, _) => a.AbandonRestarted?
    case TakenBack(_) => a.TakeBack?
    case Stopping(_) => a.ClaimToHonour?
    case Honouring(_, _, _) => a.HonourStop?
    case Cancelling(_) => a.RecordCancel?
    case Noting(_) => a.ClaimToNote?
    case Noted(_) => a.Note?
    case Telling(_) => a.TellTerminal?
    case Releasing(_, _) => a.LetGo?
    case Handing => a.ClaimToDelegate?
    case Offering(_) => Offering(a)
    case Starting(_, _) => a.Start?
    case Unanswered(_, _) => a.LocateLostFails? || a.LocateLost?
    case Unhanding(_) => a.Unhand?
    case Answered(_, _, _) => a.RecordHandle?
    case Stray(_, _) => a.AbandonStray?
    case Undoing(_) => a.UndoStart?
    case Taking => a.ClaimToRun?
    case Beginning(_, _) => a.BeginRun?
    case LocalRun(_) => RunsOn(a)
    case Interrupted(_, _) => a.HonourRun?
    case Receiving => a.ClaimToReceive?
    case Received(_) => a.Receive?
  }

  lemma OutsideKeeps(s: State, a: Action, t: State)
    requires Step(s, a, t) && Outside(a)
    ensures World(s, a, t) || Elsewhere(s, a, t)
    ensures t.pc == s.pc && t.rec.epoch == s.rec.epoch && t.rec.delegation == s.rec.delegation
    ensures t.rec.verified == s.rec.verified && (t.rec.held ==> s.rec.held)
    ensures t.rec.state == s.rec.state || t.rec.state.Cancelled?
  {
  }

  /** Between two effects of the supervisor the world leaves it where it is, and leaves alone all of
      the record but its lease, its intent and its end. */
  lemma {:induction false} Undisturbed(states: seq<State>, actions: seq<Action>, i: nat, j: nat)
    requires IsRun(states, actions) && i < j <= |actions| && forall k :: i < k < j ==> Outside(actions[k])
    ensures var t, u := states[i + 1], states[j];
      && u.pc == t.pc && u.rec.epoch == t.rec.epoch && u.rec.delegation == t.rec.delegation
      && u.rec.verified == t.rec.verified && (u.rec.held ==> t.rec.held)
      && (u.rec.state == t.rec.state || u.rec.state.Cancelled?)
  {
    if j > i + 1 {
      hide Step;
      Undisturbed(states, actions, i, j - 1);
      OutsideKeeps(states[j - 1], actions[j - 1], states[j]);
    }
  }

  lemma SettlesFollow(s: State, a: Action, t: State, b: Action)
    requires Settles(s, a, t)
    ensures Stands(s.pc, a) && (Stands(t.pc, b) && !a.LetGo? ==> Follows(a, b))
  {
    hide ClaimDelegation, Claim, Write, Release, Refutes, Orphan, Drop, Accept, HandleOf, VerifiedPrefix;
    match a
    case LocateFails =>
    case LocateAnswers(_) =>
    case ClaimToSettle =>
    case Settle =>
    case _ =>
  }

  lemma ActsFollow(s: State, a: Action, t: State, b: Action)
    requires Polls(s, a, t) && a.ClaimToAct?
    ensures Stands(s.pc, a) && (Stands(t.pc, b) ==> Follows(a, b))
  {
    hide ClaimDelegation, Refutes, HandleOf;
  }

  lemma PollsFollow(s: State, a: Action, t: State, b: Action)
    requires Polls(s, a, t)
    ensures Stands(s.pc, a) && (Stands(t.pc, b) && !a.LetGo? ==> Follows(a, b))
  {
    hide ClaimDelegation, Write, Back, Refutes, HandleOf, TruePoll;
    match a
    case PollFails =>
    case PollAnswers(_) =>
    case ClaimToAct(_) => ActsFollow(s, a, t, b);
    case Resume =>
    case Act =>
    case _ =>
  }

  lemma TakesFollow(s: State, a: Action, t: State, b: Action)
    requires Takes(s, a, t)
    ensures Stands(s.pc, a) && (Stands(t.pc, b) && !a.LetGo? ==> Follows(a, b))
  {
    hide ClaimDelegation, Claim, Write, Release, Refutes, Orphan, Drop, Accept, HandleOf, VerifiedPrefix;
    match a
    case FinalizeFails(_) =>
    case Finalize =>
    case HashFails =>
    case Mismatch(_) =>
    case Deliver(_) =>
    case AbandonRestarted(_) =>
    case TakeBack =>
    case _ =>
  }

  lemma HonoursFollow(s: State, a: Action, t: State, b: Action)
    requires Honours(s, a, t)
    ensures Stands(s.pc, a) && (Stands(t.pc, b) && !a.LetGo? ==> Follows(a, b))
  {
    hide ClaimDelegation, Claim, Write, Release, Refutes, Orphan, Drop, Accept, HandleOf, VerifiedPrefix;
    match a
    case ClaimToHonour =>
    case HonourStop(_) =>
    case RecordCancel =>
    case ClaimToNote =>
    case Note =>
    case TellTerminal(_) =>
    case _ =>
  }

  lemma ClaimsFollow(s: State, a: Action, t: State, b: Action)
    requires Offers(s, a, t) && (a.ClaimToDelegate? || a.Offer?)
    ensures Stands(s.pc, a) && (Stands(t.pc, b) ==> Follows(a, b))
  {
    hide Claim, CanWrite, Orphan, Handed;
  }

  lemma OffersFollow(s: State, a: Action, t: State, b: Action)
    requires Offers(s, a, t)
    ensures Stands(s.pc, a) && (Stands(t.pc, b) && !a.LetGo? ==> Follows(a, b))
  {
    hide Claim, CanWrite, Orphan, Handed;
    if a.ClaimToDelegate? || a.Offer? {
      ClaimsFollow(s, a, t, b);
    } else {
      assert a.PickOrphan? || a.NoOffer?;
    }
  }

  lemma StartsFollow(s: State, a: Action, t: State, b: Action)
    requires Starts(s, a, t)
    ensures Stands(s.pc, a) && (Stands(t.pc, b) ==> Follows(a, b))
  {
    hide Accept;
    assert a.Start? && (t.pc.Answered? || t.pc.Unanswered? || t.pc.Stray?);
  }

  lemma LooksFollow(s: State, a: Action, t: State, b: Action)
    requires Looks(s, a, t)
    ensures Stands(s.pc, a) && (Stands(t.pc, b) && !a.LetGo? ==> Follows(a, b))
  {
    hide ClaimDelegation, Claim, Write, Release, Refutes, Orphan, Drop, Accept, HandleOf, VerifiedPrefix;
  }

  lemma RecordsFollow(s: State, a: Action, t: State, b: Action)
    requires Records(s, a, t)
    ensures Stands(s.pc, a) && (Stands(t.pc, b) && !a.LetGo? ==> Follows(a, b))
  {
    hide ClaimDelegation, Claim, Write, Release, Refutes, Orphan, Drop, Accept, HandleOf, VerifiedPrefix;
    match a
    case Unhand =>
    case RecordHandle =>
    case AbandonStray(_) =>
    case UndoStart(_) =>
    case _ =>
  }

  lemma AdoptsFollow(s: State, a: Action, t: State, b: Action)
    requires Adopts(s, a, t)
    ensures Stands(s.pc, a) && (Stands(t.pc, b) && !a.LetGo? ==> Follows(a, b))
  {
    hide Claim, Write, Orphan;
    assert a.AdoptOrphan? || a.ClaimToRun? || a.BeginRun?;
  }

  lemma EndsFollow(s: State, a: Action, t: State, b: Action)
    requires Finishes(s, a, t) && (a.Progress? || a.EndRun? || a.NoticeIntent? || a.HonourRun?)
    ensures Stands(s.pc, a) && (Stands(t.pc, b) ==> Follows(a, b))
  {
    hide Write;
  }

  lemma FinishesFollow(s: State, a: Action, t: State, b: Action)
    requires Finishes(s, a, t)
    ensures Stands(s.pc, a) && (Stands(t.pc, b) && !a.LetGo? ==> Follows(a, b))
  {
    hide Claim, Write, Release;
    if a.Progress? || a.EndRun? || a.NoticeIntent? || a.HonourRun? {
      EndsFollow(s, a, t, b);
    } else {
      assert a.PickDelivered? || a.ClaimToReceive? || a.Receive? || a.LetGo?;
    }
  }

  lemma WorldFollow(s: State, a: Action, t: State, b: Action)
    requires World(s, a, t) || Elsewhere(s, a, t) || (a.Load? && s.pc.Reconciling? && t == s.(pc := AfterLoad(s)))
    ensures Own(a) ==> Stands(s.pc, a) && (Stands(t.pc, b) ==> Follows(a, b))
  {
  }

  /** Each effect is made at its own point of the code, and leaves the supervisor where only what
      may follow it can be made. */
  lemma StepFollows(s: State, a: Action, t: State, b: Action)
    requires Step(s, a, t)
    ensures Own(a) ==> Stands(s.pc, a) && (Stands(t.pc, b) && !a.LetGo? ==> Follows(a, b))
  {
    hide World, Elsewhere, Settles, Polls, Takes, Honours, Offers, Starts, Looks, Records, Adopts, Finishes;
    hide Stands, Follows, Own, AfterLoad;
    if Settles(s, a, t) { SettlesFollow(s, a, t, b); }
    if Polls(s, a, t) { PollsFollow(s, a, t, b); }
    if Takes(s, a, t) { TakesFollow(s, a, t, b); }
    if Honours(s, a, t) { HonoursFollow(s, a, t, b); }
    if Offers(s, a, t) { OffersFollow(s, a, t, b); }
    if Starts(s, a, t) { StartsFollow(s, a, t, b); }
    if Looks(s, a, t) { LooksFollow(s, a, t, b); }
    if Records(s, a, t) { RecordsFollow(s, a, t, b); }
    if Adopts(s, a, t) { AdoptsFollow(s, a, t, b); }
    if Finishes(s, a, t) { FinishesFollow(s, a, t, b); }
    if World(s, a, t) || Elsewhere(s, a, t) || (a.Load? && s.pc.Reconciling? && t == s.(pc := AfterLoad(s))) {
      WorldFollow(s, a, t, b);
    }
  }

  /** The effects of a pass come in the order of the code, in every run. */
  lemma InOrder(states: seq<State>, actions: seq<Action>, i: int, j: int)
    requires IsRun(states, actions) && Next(actions, i, j) && !actions[i].LetGo?
    ensures Follows(actions[i], actions[j])
  {
    hide Step, Follows, Stands;
    Undisturbed(states, actions, i, j);
    StepFollows(states[j], actions[j], states[j + 1], actions[j]);
    StepFollows(states[i], actions[i], states[i + 1], actions[j]);
  }

  lemma NextAt(states: seq<State>, actions: seq<Action>, i: int, j: int)
    requires IsRun(states, actions) && Next(actions, i, j)
    ensures var t, u := states[i + 1], states[j];
      && u.pc == t.pc && Stands(t.pc, actions[j]) && u.rec.epoch == t.rec.epoch && u.rec.delegation == t.rec.delegation
      && u.rec.verified == t.rec.verified && (u.rec.held ==> t.rec.held)
      && (u.rec.state == t.rec.state || u.rec.state.Cancelled?)
  {
    hide Step, Stands;
    Undisturbed(states, actions, i, j);
    StepFollows(states[j], actions[j], states[j + 1], actions[j]);
  }

  /** Letting a lease go leads on to the sweep after the one that took it. */
  lemma InOrderAfterRelease(states: seq<State>, actions: seq<Action>, i: int, j: int, k: int)
    requires IsRun(states, actions) && Next(actions, i, j) && Next(actions, j, k) && actions[j].LetGo? && !actions[i].LetGo?
    ensures FollowsRelease(actions[i], actions[k])
  {
    hide Step;
    NextAt(states, actions, i, j);
    NextAt(states, actions, j, k);
    StepRelease(states[i], actions[i], states[i + 1]);
    LetGoStep(states[j], actions[j], states[j + 1]);
  }

  function Onward(a: Action): Pc {
    if a.BeginRun? || a.EndRun? || a.HonourRun? then Delivering
    else if a.ClaimToDelegate? || Offering(a) || a.LocateLostFails? || a.Unhand? || a.RecordHandle? || a.AbandonStray?
    then Adopting
    else Delegating
  }

  lemma ReconcilesRelease(s: State, a: Action, t: State)
    requires Settles(s, a, t) || Polls(s, a, t) || Takes(s, a, t) || Honours(s, a, t)
    ensures t.pc.Releasing? ==> t.pc.next == Onward(a)
  {
    hide ClaimDelegation, Write, Back, Refutes, Drop, HandleOf;
  }

  lemma DelegatesRelease(s: State, a: Action, t: State)
    requires Offers(s, a, t) || Records(s, a, t) || Starts(s, a, t) || Looks(s, a, t)
    ensures t.pc.Releasing? ==> t.pc.next == Onward(a)
  {
    hide Claim, Write, Back, Drop, Accept, Orphan;
  }

  lemma RunsRelease(s: State, a: Action, t: State)
    requires Adopts(s, a, t) || Finishes(s, a, t)
    ensures t.pc.Releasing? && !a.LetGo? ==> t.pc.next == Onward(a)
  {
    hide Claim, Write, Orphan;
  }

  lemma StepRelease(s: State, a: Action, t: State)
    requires Step(s, a, t) && Own(a) && !a.LetGo?
    ensures t.pc.Releasing? ==> t.pc.next == Onward(a)
  {
    hide Settles, Polls, Takes, Honours, Offers, Starts, Looks, Records, Adopts, Finishes, Onward;
    if Settles(s, a, t) || Polls(s, a, t) || Takes(s, a, t) || Honours(s, a, t) { ReconcilesRelease(s, a, t); }
    if Delegates(s, a, t) { DelegatesRelease(s, a, t); }
    if Adopts(s, a, t) || Finishes(s, a, t) { RunsRelease(s, a, t); }
  }

  lemma LetGoStep(s: State, a: Action, t: State)
    requires Step(s, a, t) && a.LetGo?
    ensures s.pc.Releasing? && t == s.(rec := Release(s.rec, s.pc.epoch), pc := s.pc.next)
  {
  }

  // ---- What a sweep does with a record ----------------------------------------------------------------

  /** What follows the load of a record: nothing for one that is not delegated, delivered or
      transferred; the question where the request is, for one whose handle is not known; an order to
      stop for one that has ended, what is wanted where that is not to run, and else a poll; and a
      note where no delegate of that name is bound. */
  lemma LoadDecides(states: seq<State>, actions: seq<Action>, i: int, j: int)
    requires IsRun(states, actions) && Next(actions, i, j) && actions[i].Load?
    ensures var r, b := states[i].rec, actions[j];
      var open := r.delegation.Some? && !r.delegation.value.delivered && !r.state.Transferred?;
      var bound := open && r.delegation.value.system in states[i].bound;
      var unsettled := open && r.delegation.value.external.Request?;
      var ended := r.state.Complete? || r.state.Failed? || r.state.Cancelled?;
      && (b.LocateFails? || b.LocateAnswers? <==> bound && unsettled)
      && (b.TellTerminal? <==> bound && !unsettled && ended)
      && (b.ClaimToHonour? <==> bound && !unsettled && !ended && !r.want.WantRun?)
      && (Polling(b) <==> bound && !unsettled && !ended && r.want.WantRun?)
      && (b.ClaimToNote? <==> open && !bound && (unsettled || (!ended && r.want.WantRun?)))
      && (b.PickOrphan? <==> !open || (!bound && !unsettled && (ended || !r.want.WantRun?)))
  {
    hide Step, Stands;
    NextAt(states, actions, i, j);
    LoadLeads(states[i], actions[i], states[i + 1], actions[j]);
  }

  lemma LoadStep(s: State, a: Action, t: State)
    requires Step(s, a, t) && a.Load?
    ensures t == s.(pc := AfterLoad(s))
  {
  }

  lemma LoadLeads(s: State, a: Action, t: State, b: Action)
    requires Step(s, a, t) && a.Load? && Stands(t.pc, b)
    ensures var r := s.rec;
      var open := r.delegation.Some? && !r.delegation.value.delivered && !r.state.Transferred?;
      var bound := open && r.delegation.value.system in s.bound;
      var unsettled := open && r.delegation.value.external.Request?;
      var ended := r.state.Complete? || r.state.Failed? || r.state.Cancelled?;
      && (b.LocateFails? || b.LocateAnswers? <==> bound && unsettled)
      && (b.TellTerminal? <==> bound && !unsettled && ended)
      && (b.ClaimToHonour? <==> bound && !unsettled && !ended && !r.want.WantRun?)
      && (Polling(b) <==> bound && !unsettled && !ended && r.want.WantRun?)
      && (b.ClaimToNote? <==> open && !bound && (unsettled || (!ended && r.want.WantRun?)))
      && (b.PickOrphan? <==> !open || (!bound && !unsettled && (ended || !r.want.WantRun?)))
  {
    LoadStep(s, a, t);
    hide Step;
  }

  // ---- What is wanted -----------------------------------------------------------------------------------

  /** The claim found nobody holding the job and the record as it was seen. */
  predicate AsSeen(seen: Record, r: Record) {
    && !r.held && !r.state.Complete? && !r.state.Failed? && !r.state.Cancelled?
    && r.epoch == seen.epoch && r.delegation.Some? && r.delegation == seen.delegation
    && (r.state == seen.state || {r.state, seen.state} == {Pending, Running})
  }

  lemma ClaimsAsSeen(seen: Record, r: Record)
    ensures ClaimDelegation(seen, r).Ours? <==> AsSeen(seen, r)
    ensures AsSeen(seen, r) ==>
      ClaimDelegation(seen, r).rec == r.(epoch := r.epoch + 1, held := true, state := if r.state.Pending? then Running else r.state)
  {
    assert {r.state, seen.state} == {Pending, Running} <==>
      (r.state.Pending? && seen.state.Running?) || (r.state.Running? && seen.state.Pending?) by {
      if {r.state, seen.state} == {Pending, Running} {
        assert r.state in {Pending, Running} && seen.state in {Pending, Running};
        assert Pending in {r.state, seen.state} && Running in {r.state, seen.state};
      }
    }
  }

  lemma HonourStep(s: State, a: Action, t: State)
    requires Step(s, a, t) && (a.ClaimToHonour? || a.HonourStop? || a.RecordCancel?)
    ensures Honours(s, a, t)
  {
  }

  /** What the supervisor holds when it is about to carry out an intent: the epoch, the intent and the
      handle of the record as it was when it was claimed. */
  lemma ClaimedToStop(states: seq<State>, actions: seq<Action>, i: int, j: int)
    requires IsRun(states, actions) && Next(actions, i, j) && actions[i].ClaimToHonour? && actions[j].HonourStop?
    ensures var c := states[i].rec;
      && !c.held && c.delegation.Some?
      && states[j].pc == Honouring(HandleOf(c), c.epoch + 1, c.want)
  {
    hide Step;
    NextAt(states, actions, i, j);
    HonourStep(states[i], actions[i], states[i + 1]);
    ClaimsAsSeen(states[i].pc.seen, states[i].rec);
    hide ClaimDelegation;
  }

  /** A pause, or a cancel the delegate does not obey, leaves the record and all work outside as they
      were. A cancel that is obeyed ends just the work the record named when it was claimed. */
  lemma StopIsHonoured(states: seq<State>, actions: seq<Action>, i: int, j: int)
    requires IsRun(states, actions) && Next(actions, i, j) && actions[i].ClaimToHonour? && actions[j].HonourStop?
    ensures var c, s, t := states[i].rec, states[j], states[j + 1];
      && t.rec == s.rec && t.inflight == s.inflight
      && (!c.want.WantCancel? || !actions[j].obeys ==> t.works == s.works)
      && (c.want.WantCancel? && actions[j].obeys ==>
            c.delegation.Some? && forall h :: c.delegation.value.external == Handle(h) ==>
              LiveSet(t.works) == LiveSet(s.works) - {h})
  {
    hide Step;
    ClaimedToStop(states, actions, i, j);
    HonourStep(states[j], actions[j], states[j + 1]);
  }

  /** What follows: a cancel that was obeyed is recorded, the delegation gone, as far as the store
      takes the write; a pause that was obeyed lets the lease go; and nothing is written where the
      delegate did not obey. */
  lemma StopIsRecorded(states: seq<State>, actions: seq<Action>, i: int, j: int, k: int)
    requires IsRun(states, actions) && Next(actions, i, j) && Next(actions, j, k)
    requires actions[i].ClaimToHonour? && actions[j].HonourStop?
    ensures var c, s, t := states[i].rec, states[k], states[k + 1];
      && t.works == s.works
      && if !c.want.WantRun? && !actions[j].obeys then actions[k].PickOrphan? && t.rec == s.rec
         else if c.want.WantCancel? then
           actions[k].RecordCancel?
           && t.rec == if CanWrite(s.rec, c.epoch + 1) then s.rec.(state := Cancelled, delegation := None) else s.rec
         else actions[k].LetGo? && t.rec == if CanWrite(s.rec, c.epoch + 1) then s.rec.(held := false) else s.rec
  {
    hide Step;
    ClaimedToStop(states, actions, i, j);
    NextAt(states, actions, j, k);
    HonourStep(states[j], actions[j], states[j + 1]);
    if actions[k].RecordCancel? { HonourStep(states[k], actions[k], states[k + 1]); }
    if actions[k].LetGo? { LetGoStep(states[k], actions[k], states[k + 1]); }
    if actions[k].PickOrphan? { PickStep(states[k], actions[k], states[k + 1]); }
  }

  lemma PickStep(s: State, a: Action, t: State)
    requires Step(s, a, t) && a.PickOrphan?
    ensures t == s.(pc := if s.bound != {} && Orphan(s.rec) && s.rec.delegation.None? then Handing else Adopting)
  {
  }

  lemma AdoptStep(s: State, a: Action, t: State)
    requires Step(s, a, t) && (a.ClaimToRun? || a.BeginRun?)
    ensures Adopts(s, a, t)
  {
  }

  lemma ClaimedToRun(states: seq<State>, actions: seq<Action>, i: int, j: int)
    requires IsRun(states, actions) && Next(actions, i, j) && actions[i].ClaimToRun? && actions[j].BeginRun?
    ensures var c := states[i].rec; !c.held && states[j].pc == Beginning(c.epoch + 1, c.want)
  {
    hide Step;
    NextAt(states, actions, i, j);
    AdoptStep(states[i], actions[i], states[i + 1]);
  }

  /** A job claimed to be run here is run only where running is what was wanted when it was claimed;
      one wanted cancelled is, and nothing else is changed. */
  lemma RunIsWanted(states: seq<State>, actions: seq<Action>, i: int, j: int)
    requires IsRun(states, actions) && Next(actions, i, j) && actions[i].ClaimToRun? && actions[j].BeginRun?
    ensures var c, s, t := states[i].rec, states[j], states[j + 1];
      && (t.pc.LocalRun? <==> c.want.WantRun? && !actions[j].recoverableOnly)
      && t.works == s.works && t.inflight == s.inflight
      && t.rec == if c.want.WantCancel? && CanWrite(s.rec, c.epoch + 1) then s.rec.(state := Cancelled) else s.rec
  {
    hide Step;
    ClaimedToRun(states, actions, i, j);
    AdoptStep(states[j], actions[j], states[j + 1]);
  }

  // ---- Why a record is as it is ---------------------------------------------------------------------------

  /** The supervisor's effect before this one, in the same process. */
  lemma {:induction false} Before(states: seq<State>, actions: seq<Action>, k: nat, m: nat) returns (i: int)
    requires IsRun(states, actions) && m <= k < |actions| && Own(actions[k]) && !states[m].pc.Idle?
    requires forall x :: m <= x < k ==> Outside(actions[x])
    ensures Next(actions, i, k) && i < m
  {
    hide Step;
    assert m > 0;
    if Outside(actions[m - 1]) {
      OutsideKeeps(states[m - 1], actions[m - 1], states[m]);
      i := Before(states, actions, k, m - 1);
    } else {
      CrashIdles(states[m - 1], actions[m - 1], states[m]);
      i := m - 1;
    }
  }

  lemma CrashIdles(s: State, a: Action, t: State)
    requires Step(s, a, t)
    ensures a.Crash? ==> t.pc.Idle?
  {
  }

  predicate Claims(a: Action) {
    || a.ClaimToSettle? || a.ClaimToAct? || a.ClaimToHonour? || a.ClaimToNote? || a.ClaimToDelegate?
    || a.ClaimToRun? || a.ClaimToReceive?
  }

  /** The only effects that may bring a record to a state. */
  predicate Brings(a: Action, state: JobState) {
    match state
    case Pending => a.Settle? || a.Act? || a.TakeBack? || a.Unhand? || a == Mismatch(false)
    case Running => Claims(a) || a.Offer? || a.RecordHandle?
    case Transferred => a.Deliver? || (a.EndRun? && a.ok)
    case Complete => a.Receive?
    case Failed => a == Mismatch(true) || (a.EndRun? && !a.ok && a.permanent)
    case Cancelled => a.EndElsewhere? || a.RecordCancel? || a.BeginRun? || a.HonourRun?
  }

  /** What a step does to the lease, the intent and the state: only a claim raises the epoch, by one
      and from a free record; only somebody's wish changes the intent; a finished record never changes
      again but in what is wanted of it; and each state has the effects that bring it about. */
  predicate Lawful(s: State, a: Action, t: State) {
    && (t.rec.epoch != s.rec.epoch || (t.rec.held && !s.rec.held) ==>
          Claims(a) && t.rec.epoch == s.rec.epoch + 1 && !s.rec.held)
    && (t.rec.want != s.rec.want ==> a.Asks? && t.rec.want == a.want)
    && (s.rec.state.Terminal() ==> t.rec == s.rec.(want := t.rec.want, held := t.rec.held))
    && (t.rec.state != s.rec.state ==> Brings(a, t.rec.state))
  }

  lemma WorldLawful(s: State, a: Action, t: State)
    requires World(s, a, t) || Elsewhere(s, a, t) || (a.Load? && t == s.(pc := AfterLoad(s)))
    ensures Lawful(s, a, t)
  {
    hide AfterLoad;
  }

  lemma SettlesLawful(s: State, a: Action, t: State)
    requires Settles(s, a, t)
    ensures Lawful(s, a, t)
  {
    hide Refutes, Drop, Accept, HandleOf, VerifiedPrefix;
  }

  lemma PollsLawful(s: State, a: Action, t: State)
    requires Polls(s, a, t)
    ensures Lawful(s, a, t)
  {
    hide Refutes, Drop, Accept, HandleOf, VerifiedPrefix;
  }

  lemma TakesLawful(s: State, a: Action, t: State)
    requires Takes(s, a, t)
    ensures Lawful(s, a, t)
  {
    hide Refutes, Drop, Accept, HandleOf, VerifiedPrefix;
  }

  lemma HonoursLawful(s: State, a: Action, t: State)
    requires Honours(s, a, t)
    ensures Lawful(s, a, t)
  {
    hide Refutes, Drop, Accept, HandleOf, VerifiedPrefix;
  }

  lemma OffersLawful(s: State, a: Action, t: State)
    requires Offers(s, a, t)
    ensures Lawful(s, a, t)
  {
    hide Refutes, Drop, Accept, HandleOf, VerifiedPrefix;
  }

  lemma StartsLawful(s: State, a: Action, t: State)
    requires Starts(s, a, t)
    ensures Lawful(s, a, t)
  {
    hide Refutes, Drop, Accept, HandleOf, VerifiedPrefix;
  }

  lemma LooksLawful(s: State, a: Action, t: State)
    requires Looks(s, a, t)
    ensures Lawful(s, a, t)
  {
    hide Refutes, Drop, Accept, HandleOf, VerifiedPrefix;
  }

  lemma RecordsLawful(s: State, a: Action, t: State)
    requires Records(s, a, t)
    ensures Lawful(s, a, t)
  {
    hide Refutes, Drop, Accept, HandleOf, VerifiedPrefix;
  }

  lemma AdoptsLawful(s: State, a: Action, t: State)
    requires Adopts(s, a, t)
    ensures Lawful(s, a, t)
  {
    hide Refutes, Drop, Accept, HandleOf, VerifiedPrefix;
  }

  lemma FinishesLawful(s: State, a: Action, t: State)
    requires Finishes(s, a, t)
    ensures Lawful(s, a, t)
  {
    hide Refutes, Drop, Accept, HandleOf, VerifiedPrefix;
  }

  lemma StepIsLawful(s: State, a: Action, t: State)
    requires Step(s, a, t)
    ensures Lawful(s, a, t)
  {
    hide World, Elsewhere, Settles, Polls, Takes, Honours, Offers, Starts, Looks, Records, Adopts, Finishes;
    hide Lawful, AfterLoad;
    if Settles(s, a, t) { SettlesLawful(s, a, t); }
    if Polls(s, a, t) { PollsLawful(s, a, t); }
    if Takes(s, a, t) { TakesLawful(s, a, t); }
    if Honours(s, a, t) { HonoursLawful(s, a, t); }
    if Offers(s, a, t) { OffersLawful(s, a, t); }
    if Starts(s, a, t) { StartsLawful(s, a, t); }
    if Looks(s, a, t) { LooksLawful(s, a, t); }
    if Records(s, a, t) { RecordsLawful(s, a, t); }
    if Adopts(s, a, t) { AdoptsLawful(s, a, t); }
    if Finishes(s, a, t) { FinishesLawful(s, a, t); }
    if World(s, a, t) || Elsewhere(s, a, t) || (a.Load? && t == s.(pc := AfterLoad(s))) { WorldLawful(s, a, t); }
  }

  // ---- The fence ------------------------------------------------------------------------------------------

  /** The epoch the supervisor works at, where it has claimed the job. */
  function Epoch(pc: Pc): Option<nat> {
    match pc
    case Settling(e, _) => Some(e)
    case Resuming(e) => Some(e)
    case Acting(_, e, _) => Some(e)
    case Finalizing(_, e) => Some(e)
    case Verifying(e) => Some(e)
    case TakingBack(_, e) => Some(e)
    case TakenBack(e) => Some(e)
    case Honouring(_, e, _) => Some(e)
    case Cancelling(e) => Some(e)
    case Noted(e) => Some(e)
    case Releasing(e, _) => Some(e)
    case Offering(e) => Some(e)
    case Starting(e, _) => Some(e)
    case Unanswered(e, _) => Some(e)
    case Unhanding(e) => Some(e)
    case Answered(e, _, _) => Some(e)
    case Stray(e, _) => Some(e)
    case Beginning(e, _) => Some(e)
    case LocalRun(e) => Some(e)
    case Interrupted(e, _) => Some(e)
    case Received(e) => Some(e)
    case _ => None
  }

  /** A step at an epoch goes on at it or leaves it, a claim begins at the one it raised, and no other
      step begins at any; and what a claim does not change is changed only by the holder of the lease
      at that epoch. */
  predicate Fenced(s: State, a: Action, t: State) {
    && (Epoch(t.pc).Some? && Epoch(t.pc) != Epoch(s.pc) ==>
          Claims(a) && Epoch(t.pc) == Some(t.rec.epoch) && t.rec.held && t.rec.epoch == s.rec.epoch + 1 && !s.rec.held)
    && (Own(a) && !Claims(a) && t.rec != s.rec ==>
          s.rec.held && Epoch(s.pc) == Some(s.rec.epoch) && !s.rec.state.Terminal())
  }

  lemma WorldFenced(s: State, a: Action, t: State)
    requires World(s, a, t) || Elsewhere(s, a, t) || (a.Load? && t == s.(pc := AfterLoad(s)))
    ensures Fenced(s, a, t)
  {
  }

  lemma SettlesFenced(s: State, a: Action, t: State)
    requires Settles(s, a, t)
    ensures Fenced(s, a, t) || a.LetGo?
  {
    hide Refutes, Drop, Accept, HandleOf, VerifiedPrefix, Back, Handed;
  }

  lemma PollsFenced(s: State, a: Action, t: State)
    requires Polls(s, a, t)
    ensures Fenced(s, a, t) || a.LetGo?
  {
    hide Refutes, Drop, Accept, HandleOf, VerifiedPrefix, Back, Handed;
  }

  lemma TakesFenced(s: State, a: Action, t: State)
    requires Takes(s, a, t)
    ensures Fenced(s, a, t) || a.LetGo?
  {
    hide Refutes, Drop, Accept, HandleOf, VerifiedPrefix, Back, Handed;
  }

  lemma HonoursFenced(s: State, a: Action, t: State)
    requires Honours(s, a, t)
    ensures Fenced(s, a, t) || a.LetGo?
  {
    hide Refutes, Drop, Accept, HandleOf, VerifiedPrefix, Back, Handed;
  }

  lemma OffersFenced(s: State, a: Action, t: State)
    requires Offers(s, a, t)
    ensures Fenced(s, a, t) || a.LetGo?
  {
    hide Refutes, Drop, Accept, HandleOf, VerifiedPrefix, Back, Handed;
  }

  lemma StartsFenced(s: State, a: Action, t: State)
    requires Starts(s, a, t)
    ensures Fenced(s, a, t) || a.LetGo?
  {
    hide Refutes, Drop, Accept, HandleOf, VerifiedPrefix, Back, Handed;
  }

  lemma LooksFenced(s: State, a: Action, t: State)
    requires Looks(s, a, t)
    ensures Fenced(s, a, t) || a.LetGo?
  {
    hide Refutes, Drop, Accept, HandleOf, VerifiedPrefix, Back, Handed;
  }

  lemma RecordsFenced(s: State, a: Action, t: State)
    requires Records(s, a, t)
    ensures Fenced(s, a, t) || a.LetGo?
  {
    hide Refutes, Drop, Accept, HandleOf, VerifiedPrefix, Back, Handed;
  }

  lemma AdoptsFenced(s: State, a: Action, t: State)
    requires Adopts(s, a, t)
    ensures Fenced(s, a, t) || a.LetGo?
  {
    hide Refutes, Drop, Accept, HandleOf, VerifiedPrefix, Back, Handed;
  }

  lemma FinishesFenced(s: State, a: Action, t: State)
    requires Finishes(s, a, t)
    ensures Fenced(s, a, t) || a.LetGo?
  {
    hide Refutes, Drop, Accept, HandleOf, VerifiedPrefix, Back, Handed;
  }

  lemma LetGoFenced(s: State, a: Action, t: State)
    requires Step(s, a, t) && a.LetGo? && Plain(s.pc)
    ensures Fenced(s, a, t)
  {
    LetGoStep(s, a, t);
    hide Step;
  }

  /** What is left after a lease is let go is the rest of the pass. */
  predicate Plain(pc: Pc) { pc.Releasing? ==> Stage(pc.next) }

  lemma StepPlain(s: State, a: Action, t: State)
    requires Step(s, a, t) && Plain(s.pc)
    ensures Plain(t.pc)
  {
    hide Step, Onward;
    if a.LetGo? {
      LetGoStep(s, a, t);
    } else if Own(a) {
      StepRelease(s, a, t);
      OnwardStage(a);
    } else if Outside(a) {
      OutsideKeeps(s, a, t);
    } else {
      CrashIdles(s, a, t);
    }
  }

  lemma OnwardStage(a: Action)
    ensures Stage(Onward(a))
  {
  }

  lemma {:induction false} AllPlain(states: seq<State>, actions: seq<Action>, i: nat)
    requires IsRun(states, actions) && i < |states|
    ensures Plain(states[i].pc)
  {
    hide Step;
    if i > 0 {
      AllPlain(states, actions, i - 1);
      StepPlain(states[i - 1], actions[i - 1], states[i]);
    }
  }

  lemma StepFenced(s: State, a: Action, t: State)
    requires Step(s, a, t) && Plain(s.pc)
    ensures Fenced(s, a, t)
  {
    hide World, Elsewhere, Settles, Polls, Takes, Honours, Offers, Starts, Looks, Records, Adopts, Finishes;
    hide Fenced, AfterLoad, Plain;
    if a.LetGo? { LetGoFenced(s, a, t); }
    if Settles(s, a, t) { SettlesFenced(s, a, t); }
    if Polls(s, a, t) { PollsFenced(s, a, t); }
    if Takes(s, a, t) { TakesFenced(s, a, t); }
    if Honours(s, a, t) { HonoursFenced(s, a, t); }
    if Offers(s, a, t) { OffersFenced(s, a, t); }
    if Starts(s, a, t) { StartsFenced(s, a, t); }
    if Looks(s, a, t) { LooksFenced(s, a, t); }
    if Records(s, a, t) { RecordsFenced(s, a, t); }
    if Adopts(s, a, t) { AdoptsFenced(s, a, t); }
    if Finishes(s, a, t) { FinishesFenced(s, a, t); }
    if World(s, a, t) || Elsewhere(s, a, t) || (a.Load? && t == s.(pc := AfterLoad(s))) { WorldFenced(s, a, t); }
  }

  /** Where the supervisor works at an epoch it raised it to, when the job was free, and has not been
      restarted since. */
  lemma {:induction false} ClaimedBefore(states: seq<State>, actions: seq<Action>, k: nat) returns (j: int)
    requires IsRun(states, actions) && k < |states| && Epoch(states[k].pc).Some?
    ensures 0 <= j < k && Claims(actions[j]) && !states[j].rec.held
    ensures states[j + 1].rec.held && Epoch(states[k].pc) == Some(states[j + 1].rec.epoch)
    ensures states[j + 1].rec.epoch == states[j].rec.epoch + 1
    ensures forall x :: j < x < k ==> !actions[x].Crash?
  {
    hide Step, Claims, Plain;
    assert k > 0;
    var s, a, t := states[k - 1], actions[k - 1], states[k];
    AllPlain(states, actions, k - 1);
    StepFenced(s, a, t);
    CrashIdles(s, a, t);
    if Epoch(t.pc) != Epoch(s.pc) { j := k - 1; } else { j := ClaimedBefore(states, actions, k - 1); }
  }

  /** Nothing is written that is not this supervisor's to write: whatever it changes in a record, a
      claim aside, it changes while it holds the lease, at the epoch it itself raised the record to
      when it was free, in the same process, and before the record is finished. */
  lemma WritesUnderItsClaim(states: seq<State>, actions: seq<Action>, i: nat) returns (j: int)
    requires IsRun(states, actions) && i < |actions| && Own(actions[i]) && !Claims(actions[i])
    requires states[i + 1].rec != states[i].rec
    ensures 0 <= j < i && Claims(actions[j]) && !states[j].rec.held
    ensures states[i].rec.held && states[i].rec.epoch == states[j + 1].rec.epoch == states[j].rec.epoch + 1
    ensures !states[i].rec.state.Terminal() && forall x :: j < x < i ==> !actions[x].Crash?
  {
    hide Step, Claims, Plain, Own;
    AllPlain(states, actions, i);
    StepFenced(states[i], actions[i], states[i + 1]);
    j := ClaimedBefore(states, actions, i);
  }

  // ---- Ends ---------------------------------------------------------------------------------------------

  lemma CancelStep(s: State, a: Action, t: State)
    requires Step(s, a, t) && (a.RecordCancel? || a.BeginRun? || a.HonourRun?) && t.rec.state != s.rec.state
    ensures Epoch(s.pc).Some? && CanWrite(s.rec, Epoch(s.pc).value)
    ensures a.RecordCancel? ==> s.pc.Cancelling?
    ensures a.BeginRun? ==> s.pc.Beginning? && s.pc.want.WantCancel?
    ensures a.HonourRun? ==> s.pc.Interrupted? && s.pc.want.WantCancel?
  {
  }

  lemma HonourLeads(s: State, a: Action, t: State)
    requires Step(s, a, t) && t.pc.Cancelling? && Own(a) && Plain(s.pc)
    ensures a.HonourStop? && s.pc.Honouring? && s.pc.want.WantCancel? && t.pc.epoch == s.pc.epoch
  {
    hide Step, Follows, Stands;
    StepFollows(s, a, t, RecordCancel);
    OnlyStopCancels(t.pc, a);
    if a.LetGo? { LetGoStep(s, a, t); } else { HonourStep(s, a, t); }
  }

  lemma OnlyStopCancels(pc: Pc, a: Action)
    requires Own(a) && pc.Cancelling?
    ensures Stands(pc, RecordCancel) && (Follows(a, RecordCancel) && !a.LetGo? ==> a.HonourStop?)
  {
  }

  /** A job is cancelled by this supervisor only because somebody wanted it cancelled when it claimed
      it, or when it looked again while it ran it, in the same process and still under that claim. */
  lemma CancelledOnlyIfAsked(states: seq<State>, actions: seq<Action>, i: nat) returns (j: int)
    requires IsRun(states, actions) && i < |actions| && !actions[i].EndElsewhere?
    requires !states[i].rec.state.Cancelled? && states[i + 1].rec.state.Cancelled?
    ensures 0 <= j < i && (actions[j].ClaimToHonour? || actions[j].ClaimToRun? || actions[j].NoticeIntent?)
    ensures states[j].rec.want.WantCancel? && states[i].rec.held
    ensures !actions[j].NoticeIntent? ==> !states[j].rec.held && states[i].rec.epoch == states[j].rec.epoch + 1
    ensures actions[j].NoticeIntent? ==> Next(actions, j, i) && states[i].rec.epoch == states[j].rec.epoch
  {
    hide Step, Stands, Lawful, Follows;
    StepIsLawful(states[i], actions[i], states[i + 1]);
    LawfulCancel(states[i], actions[i], states[i + 1]);
    CancelStep(states[i], actions[i], states[i + 1]);
    var k := Before(states, actions, i, i);
    NextAt(states, actions, k, i);
    InOrderBack(states, actions, k, i);
    j := k;
    if actions[i].RecordCancel? {
      AllPlain(states, actions, k);
      HonourLeads(states[k], actions[k], states[k + 1]);
      j := Before(states, actions, k, k);
      NextAt(states, actions, j, k);
      InOrderBack(states, actions, j, k);
      ClaimedToStop(states, actions, j, k);
    } else if actions[i].BeginRun? {
      ClaimedToRun(states, actions, j, i);
    } else {
      NoticeStep(states[j], actions[j], states[j + 1]);
    }
  }

  lemma LawfulCancel(s: State, a: Action, t: State)
    requires Lawful(s, a, t) && t.rec.state.Cancelled? && !s.rec.state.Cancelled?
    ensures a.EndElsewhere? || a.RecordCancel? || a.BeginRun? || a.HonourRun?
  {
  }

  lemma NoticeStep(s: State, a: Action, t: State)
    requires Step(s, a, t) && (a.NoticeIntent? || a.HonourRun?)
    ensures Finishes(s, a, t)
  {
  }

  /** A run that sees the intent change stops; a cancel is recorded, and either way what was proven. */
  lemma InterruptIsRecorded(states: seq<State>, actions: seq<Action>, i: int, j: int)
    requires IsRun(states, actions) && Next(actions, i, j) && actions[i].NoticeIntent?
    ensures states[i + 1].rec == states[i].rec && states[i + 1].works == states[i].works && !states[i].rec.want.WantRun?
    ensures actions[j].HonourRun? && states[j + 1].works == states[j].works
    ensures var s, t := states[j], states[j + 1];
      t.rec ==
        if !Holds(s) then s.rec
        else s.rec.(verified := actions[j].verified,
                    state := if states[i].rec.want.WantCancel? then Cancelled else s.rec.state)
  {
    hide Step;
    NextAt(states, actions, i, j);
    NoticeStep(states[i], actions[i], states[i + 1]);
    NoticeStep(states[j], actions[j], states[j + 1]);
  }

  /** The effects that only one other may come before. */
  lemma InOrderBack(states: seq<State>, actions: seq<Action>, i: int, j: int)
    requires IsRun(states, actions) && Next(actions, i, j)
    ensures OnlyAfter(actions[i], actions[j])
  {
    hide Step, Follows, Stands, OnlyAfter, Plain;
    NextAt(states, actions, i, j);
    if actions[i].LetGo? {
      AllPlain(states, actions, i);
      LetGoStep(states[i], actions[i], states[i + 1]);
      StageFirst(states[i].pc, actions[i], actions[j]);
    } else {
      InOrder(states, actions, i, j);
      FollowsOnly(actions[i], actions[j]);
    }
  }

  predicate OnlyAfter(a: Action, b: Action) {
    && (b.HonourStop? ==> a.ClaimToHonour?)
    && (b.BeginRun? ==> a.ClaimToRun?)
    && (b.HonourRun? ==> a.NoticeIntent?)
    && (b.Receive? ==> a.ClaimToReceive?)
    && (b.ClaimToReceive? ==> a.PickDelivered?)
    && (b.AbandonStray? ==> a.Start?)
    && (b.TellTerminal? ==> a.Load?)
    && (b.FinalizeFails? ==> a.ClaimToAct?)
  }

  lemma FollowsOnly(a: Action, b: Action)
    requires Follows(a, b) && Own(a) && !a.LetGo?
    ensures OnlyAfter(a, b)
  {
  }

  lemma StageFirst(pc: Pc, a: Action, b: Action)
    requires pc.Releasing? && Plain(pc) && Stands(pc.next, b)
    ensures OnlyAfter(a, b)
  {
  }

  lemma ReceiveStep(s: State, a: Action, t: State)
    requires Step(s, a, t) && (a.Receive? || a.ClaimToReceive? || a.PickDelivered?)
    ensures Finishes(s, a, t)
  {
  }

  /** A job is complete only when it was transferred: what a sweep closes it picked for having been
      so, and nothing can have undone that since. */
  lemma CompletedWasTransferred(states: seq<State>, actions: seq<Action>, i: nat)
    requires IsRun(states, actions) && i < |actions| && !states[i].rec.state.Complete? && states[i + 1].rec.state.Complete?
    ensures actions[i].Receive? && states[i].rec.state.Transferred?
    ensures states[i + 1].rec == states[i].rec.(state := Complete)
  {
    hide Step, Stands, Lawful;
    StepIsLawful(states[i], actions[i], states[i + 1]);
    LawfulComplete(states[i], actions[i], states[i + 1]);
    ReceiveStep(states[i], actions[i], states[i + 1]);
    var j := Before(states, actions, i, i);
    InOrderBack(states, actions, j, i);
    NextAt(states, actions, j, i);
    ReceiveStep(states[j], actions[j], states[j + 1]);
    var k := Before(states, actions, j, j);
    InOrderBack(states, actions, k, j);
    NextAt(states, actions, k, j);
    ReceiveStep(states[k], actions[k], states[k + 1]);
  }

  lemma LawfulComplete(s: State, a: Action, t: State)
    requires Lawful(s, a, t) && t.rec.state.Complete? && !s.rec.state.Complete?
    ensures a.Receive?
  {
  }

  // ---- What an answer leads to ----------------------------------------------------------------------------

  lemma PollStep(s: State, a: Action, t: State)
    requires Step(s, a, t) && (a.PollAnswers? || a.ClaimToAct? || a.Act?)
    ensures Polls(s, a, t)
  {
  }

  lemma ClaimedAnswer(s: State, a: Action, t: State, b: Action)
    requires Step(s, a, t) && a.ClaimToAct? && Stands(t.pc, b)
    ensures s.pc.Polled?
    ensures var seen, answer, c := s.pc.seen, s.pc.answer, s.rec;
      if (answer.suspended && !a.suspendable) || !AsSeen(seen, c) then b.PickOrphan?
      else if answer.suspended then if c.want.WantRun? then b.Resume? else b.LetGo?
      else if 0 < answer.done < VerifiedPrefix(seen.verified) then b.AbandonRestarted?
      else if !c.want.WantRun? then b.LetGo?
      else if answer.report.SaysTransferred? then Finalizing(b)
      else b.Act?
    ensures b.Act? ==> t.pc == Acting(s.pc.seen, s.rec.epoch + 1, s.pc.answer.report)
    ensures b.AbandonRestarted? ==> t.pc == TakingBack(HandleOf(s.rec), s.rec.epoch + 1)
    ensures Finalizing(b) ==> t.pc == Pc.Finalizing(HandleOf(s.rec), s.rec.epoch + 1)
  {
    AnswerLeads(s, a, t);
    hide Step, AsSeen, VerifiedPrefix, HandleOf;
  }

  lemma AnswerLeads(s: State, a: Action, t: State)
    requires Step(s, a, t) && a.ClaimToAct?
    ensures s.pc.Polled?
    ensures var seen, answer, c, e := s.pc.seen, s.pc.answer, s.rec, s.rec.epoch + 1;
      t.pc ==
        if (answer.suspended && !a.suspendable) || !AsSeen(seen, c) then Delegating
        else if answer.suspended then if c.want.WantRun? then Resuming(e) else Releasing(e, Delegating)
        else if 0 < answer.done < VerifiedPrefix(seen.verified) then TakingBack(HandleOf(c), e)
        else if !c.want.WantRun? then Releasing(e, Delegating)
        else if answer.report.SaysTransferred? then Pc.Finalizing(HandleOf(c), e)
        else Acting(seen, e, answer.report)
  {
    PollStep(s, a, t);
    ClaimsAsSeen(s.pc.seen, s.rec);
    SeenHandle(s.pc.seen, s.rec);
    hide Step, ClaimDelegation, AsSeen, VerifiedPrefix, HandleOf;
  }

  lemma SeenHandle(seen: Record, r: Record)
    ensures AsSeen(seen, r) ==> HandleOf(seen) == HandleOf(r)
  {
  }

  /** What a delegate's report leads to, by the record that was loaded before it was asked and what was
      wanted when the job was claimed to act on it. Nothing where the record is no longer as it was; a
      suspended transfer is resumed where it is wanted; a report short of what was handed over takes
      the job back; a finished one is fetched; and any other is acted on. */
  lemma AnswerDecides(states: seq<State>, actions: seq<Action>, h: int, i: int, j: int, k: int)
    requires IsRun(states, actions) && Next(actions, h, i) && Next(actions, i, j) && Next(actions, j, k)
    requires actions[h].Load? && actions[i].PollAnswers? && actions[j].ClaimToAct?
    ensures var seen, answer, c, b := states[h].rec, actions[i].answer, states[j].rec, actions[k];
      if (answer.suspended && !actions[j].suspendable) || !AsSeen(seen, c) then b.PickOrphan?
      else if answer.suspended then if c.want.WantRun? then b.Resume? else b.LetGo?
      else if 0 < answer.done < VerifiedPrefix(seen.verified) then b.AbandonRestarted?
      else if !c.want.WantRun? then b.LetGo?
      else if answer.report.SaysTransferred? then Finalizing(b)
      else b.Act?
  {
    hide Step, Stands, AsSeen, VerifiedPrefix;
    Asked(states, actions, h, i, j);
    NextAt(states, actions, j, k);
    ClaimedAnswer(states[j], actions[j], states[j + 1], actions[k]);
  }

  lemma Asked(states: seq<State>, actions: seq<Action>, h: int, i: int, j: int)
    requires IsRun(states, actions) && Next(actions, h, i) && Next(actions, i, j)
    requires actions[h].Load? && actions[i].PollAnswers? && actions[j].ClaimToAct?
    ensures states[j].pc == Polled(states[h].rec, actions[i].answer)
  {
    hide Step;
    NextAt(states, actions, h, i);
    NextAt(states, actions, i, j);
    LoadStep(states[h], actions[h], states[h + 1]);
    PollStep(states[i], actions[i], states[i + 1]);
  }

  /** A report that work goes on changes nothing in the record; one that it failed or is gone makes the
      job ours again, its sources and proven bytes as they were. */
  lemma AnswerIsRecorded(states: seq<State>, actions: seq<Action>, i: int, j: int, k: int)
    requires IsRun(states, actions) && Next(actions, i, j) && Next(actions, j, k)
    requires actions[i].PollAnswers? && actions[j].ClaimToAct? && actions[k].Act?
    ensures var s, t := states[k], states[k + 1];
      && t.works == s.works
      && t.rec == if !actions[i].answer.report.SaysRunning? && CanWrite(s.rec, states[j].rec.epoch + 1)
                  then s.rec.(delegation := None, state := Pending) else s.rec
  {
    hide Step, AsSeen, VerifiedPrefix;
    NextAt(states, actions, i, j);
    NextAt(states, actions, j, k);
    PollStep(states[i], actions[i], states[i + 1]);
    ClaimedAnswer(states[j], actions[j], states[j + 1], actions[k]);
    PollStep(states[k], actions[k], states[k + 1]);
  }

  lemma TakeStep(s: State, a: Action, t: State)
    requires Step(s, a, t)
    requires a.AbandonRestarted? || a.TakeBack? || Finalizing(a) || a.HashFails? || a.Mismatch? || a.Deliver?
    ensures Takes(s, a, t)
  {
  }

  /** A refuted delegate is told to stop the work the record named, and the job is ours again whether it
      did or not. */
  lemma RefutedIsTakenBack(states: seq<State>, actions: seq<Action>, i: int, j: int, k: int)
    requires IsRun(states, actions) && Next(actions, i, j) && Next(actions, j, k)
    requires actions[i].ClaimToAct? && actions[j].AbandonRestarted?
    ensures var c, s, t := states[i].rec, states[j], states[j + 1];
      && t.rec == s.rec && LiveSet(t.works) == if actions[j].stops then LiveSet(s.works) - {HandleOf(c)} else LiveSet(s.works)
    ensures var c, s, t := states[i].rec, states[k], states[k + 1];
      && actions[k].TakeBack? && t.works == s.works
      && t.rec == if CanWrite(s.rec, c.epoch + 1) then s.rec.(delegation := None, state := Pending) else s.rec
  {
    hide Step, AsSeen, VerifiedPrefix;
    NextAt(states, actions, i, j);
    NextAt(states, actions, j, k);
    ClaimedAnswer(states[i], actions[i], states[i + 1], actions[j]);
    TakeStep(states[j], actions[j], states[j + 1]);
    TakeStep(states[k], actions[k], states[k + 1]);
  }

  /** A delivery is taken from the work the record named, and then one thing is written of it: nothing
      where it could not be hashed, the job given back or ended with nothing proven where the bytes
      were wrong, and else that it is transferred and delivered, with all its bytes proven. */
  lemma DeliveryIsRecorded(states: seq<State>, actions: seq<Action>, i: int, j: int, k: int)
    requires IsRun(states, actions) && Next(actions, i, j) && Next(actions, j, k)
    requires actions[i].ClaimToAct? && actions[j].Finalize?
    ensures states[j + 1].rec == states[j].rec
    ensures LiveSet(states[j + 1].works) == LiveSet(states[j].works) - {HandleOf(states[i].rec)}
    ensures var c, s, t, b := states[i].rec, states[k], states[k + 1], actions[k];
      && t.works == s.works
      && (b.HashFails? || !CanWrite(s.rec, c.epoch + 1) ==> t.rec == s.rec)
      && (b.Mismatch? && CanWrite(s.rec, c.epoch + 1) ==>
            t.rec == s.rec.(delegation := None, state := if b.permanent then Failed else Pending, verified := []))
      && (b.Deliver? && CanWrite(s.rec, c.epoch + 1) && s.rec.delegation.Some? ==>
            t.rec == s.rec.(state := Transferred, delegation := t.rec.delegation, verified := WholePrefix(b.total))
            && t.rec.delegation == Some(s.rec.delegation.value.(delivered := true)))
  {
    hide Step, AsSeen, VerifiedPrefix, WholePrefix;
    NextAt(states, actions, i, j);
    NextAt(states, actions, j, k);
    ClaimedAnswer(states[i], actions[i], states[i + 1], actions[j]);
    TakeStep(states[j], actions[j], states[j + 1]);
    InOrder(states, actions, j, k);
    TakeStep(states[k], actions[k], states[k + 1]);
  }

  // ---- Handing a job over -----------------------------------------------------------------------------------

  /** The supervisor holds the job at the epoch it works at. */
  predicate Holds(s: State) { s.rec.held && Epoch(s.pc) == Some(s.rec.epoch) && !s.rec.state.Terminal() }

  /** Free for anybody to take up: not held, not finished or transferred, not paused, not handed over. */
  predicate Free(r: Record) {
    && !r.held && !r.state.Complete? && !r.state.Failed? && !r.state.Cancelled? && !r.state.Transferred?
    && !r.want.WantPause? && r.delegation.None?
  }

  lemma HandStep(s: State, a: Action, t: State)
    requires Step(s, a, t) && (a.PickOrphan? || a.ClaimToDelegate? || a.Offer? || a.NoOffer?)
    ensures Offers(s, a, t)
  {
  }

  lemma StartStep(s: State, a: Action, t: State)
    requires Step(s, a, t) && a.Start?
    ensures Starts(s, a, t)
  {
  }

  lemma LookStep(s: State, a: Action, t: State)
    requires Step(s, a, t) && (a.LocateLost? || a.LocateLostFails?)
    ensures Looks(s, a, t)
  {
  }

  lemma RecordStep(s: State, a: Action, t: State)
    requires Step(s, a, t) && (a.Unhand? || a.RecordHandle? || a.UndoStart?)
    ensures Records(s, a, t)
  {
  }

  /** A job is claimed to be handed over only if it was free when it was looked at and some delegate is
      bound; it is offered only if the claim found it still handed to nobody. */
  lemma OffersOnlyFree(states: seq<State>, actions: seq<Action>, i: int, j: int)
    requires IsRun(states, actions) && Next(actions, i, j)
    ensures actions[i].PickOrphan? ==> (actions[j].ClaimToDelegate? <==> states[i].bound != {} && Free(states[i].rec))
    ensures actions[i].ClaimToDelegate? ==>
      var c := states[i].rec;
      if c.held || c.state.Complete? || c.state.Failed? || c.state.Cancelled? then actions[j].AdoptOrphan?
      else if c.delegation.Some? then actions[j].LetGo? else Offering(actions[j])
  {
    hide Step;
    NextAt(states, actions, i, j);
    if actions[i].PickOrphan? || actions[i].ClaimToDelegate? { HandStep(states[i], actions[i], states[i + 1]); }
  }

  /** A delegate is asked to start only once the record says that it may have been: the handoff is
      written down first, and where the store refuses it nobody is asked. */
  lemma WrittenBeforeStart(states: seq<State>, actions: seq<Action>, i: int, j: int)
    requires IsRun(states, actions) && Next(actions, i, j) && actions[i].Offer?
    ensures actions[i].system in states[i].bound && states[i + 1].works == states[i].works
    ensures actions[j].Start? <==> Holds(states[i])
    ensures actions[j].Start? ==>
      && states[i + 1].rec == states[i].rec.(delegation := Some(Delegation(actions[i].system, Request, false)), state := Running)
      && states[j].rec.delegation == Some(Delegation(actions[i].system, Request, false))
    ensures !actions[j].Start? ==> actions[j].LetGo? && states[i + 1].rec == states[i].rec
  {
    hide Step;
    NextAt(states, actions, i, j);
    HandStep(states[i], actions[i], states[i + 1]);
  }

  /** What a start leaves outside, and what its answer, or its loss, leads to: a handle is written
      down, the delegate's answering with the request itself is undone, and after any other the delegate
      is asked what became of the request, which says whether there is a handle to write or the job is
      ours again. */
  lemma StartDecides(states: seq<State>, actions: seq<Action>, i: int, j: int)
    requires IsRun(states, actions) && Next(actions, i, j)
    ensures actions[i].Start? ==>
      var o, b := actions[i].outcome, actions[j];
      if o.AcceptsAndAnswers? || o.Repeats? then b.RecordHandle? && states[j].pc.Answered? && states[j].pc.handle == o.h
      else if o.AnswersOwnRequest? then b.AbandonStray? && states[j].pc.Stray? && states[j].pc.handle == o.h
      else b.LocateLost? || b.LocateLostFails?
    ensures actions[i].Start? ==>
      var o, s, t := actions[i].outcome, states[i], states[i + 1];
      && s.pc.Starting? && t.rec == s.rec
      && t.inflight == (if o.Vanishes? then s.inflight + {s.pc.system} else s.inflight)
      && (o.Refuses? || o.Vanishes? || o.Repeats? ==> t.works == s.works)
      && (o.Repeats? ==> o.h in s.works && s.works[o.h].system == s.pc.system)
      && (o.AcceptsAndAnswers? || o.AcceptsAndIsLost? || o.AnswersOwnRequest? ==>
            o.h !in s.works && t.works == s.works[o.h := Work(s.pc.system, Moving)])
    ensures actions[i].LocateLost? ==>
      var found, b := actions[i].found, actions[j];
      if found.None? then b.Unhand? else b.RecordHandle? && states[j].pc.Answered? && states[j].pc.handle == found.value
    ensures actions[i].LocateLostFails? ==> actions[j].LetGo? && states[i + 1].rec == states[i].rec
  {
    hide Step;
    NextAt(states, actions, i, j);
    if actions[i].Start? { StartStep(states[i], actions[i], states[i + 1]); }
    if actions[i].LocateLost? || actions[i].LocateLostFails? { LookStep(states[i], actions[i], states[i + 1]); }
  }

  /** A handle is written into the record in place of the request; where the store refuses it, the work
      is told to stop. */
  lemma HandleIsRecorded(states: seq<State>, actions: seq<Action>, i: int, j: int)
    requires IsSoundRun(states, actions) && Next(actions, i, j) && actions[i].RecordHandle?
    ensures var s, t, b := states[i], states[i + 1], actions[j];
      && s.pc.Answered? && s.rec.delegation == Some(Delegation(SystemOf(s.rec), Request, false)) && t.works == s.works
      && if Holds(s) then
           b.LetGo?
           && t.rec == s.rec.(delegation := Some(Delegation(SystemOf(s.rec), Handle(s.pc.handle), false)), state := Running)
         else
           b.UndoStart? && t.rec == s.rec && states[j + 1].rec == states[j].rec
           && (b.stops ==> LiveSet(states[j + 1].works) == LiveSet(states[j].works) - {s.pc.handle})
  {
    Reachable(states, actions, i);
    hide Step;
    NextAt(states, actions, i, j);
    RecordStep(states[i], actions[i], states[i + 1]);
    if actions[j].UndoStart? { RecordStep(states[j], actions[j], states[j + 1]); }
  }

  /** The three orders to stop whose answer changes nothing in the record: a delegate that answered a
      start with the request itself, one whose job has ended, and one that was asked for its delivery and
      failed; each ends at most the work that the answer or the record named. */
  lemma OthersAreStopped(states: seq<State>, actions: seq<Action>, i: int, j: int)
    requires IsRun(states, actions) && Next(actions, i, j)
    ensures var s, t, a, b := states[j], states[j + 1], actions[i], actions[j];
      && (b.AbandonStray? || b.TellTerminal? || b.FinalizeFails? ==> t.rec == s.rec)
      && (b.AbandonStray? ==>
            a.Start? && a.outcome.AnswersOwnRequest?
            && LiveSet(t.works) == if b.stops then LiveSet(s.works) - {a.outcome.h} else LiveSet(s.works))
      && (b.TellTerminal? ==>
            a.Load? && LiveSet(t.works) == if b.told then LiveSet(s.works) else LiveSet(s.works) - {HandleOf(states[i].rec)})
      && (b.FinalizeFails? ==>
            a.ClaimToAct?
            && LiveSet(t.works) == if b.consumed then LiveSet(s.works) - {HandleOf(states[i].rec)} else LiveSet(s.works))
  {
    hide Step, Stands, HandleOf;
    NextAt(states, actions, i, j);
    InOrderBack(states, actions, i, j);
    OrderStep(states[j], actions[j], states[j + 1]);
    if actions[j].AbandonStray? { StartDecides(states, actions, i, j); }
    if actions[j].TellTerminal? { LoadStep(states[i], actions[i], states[i + 1]); }
    if actions[j].FinalizeFails? { ClaimedAnswer(states[i], actions[i], states[i + 1], actions[j]); }
  }

  lemma OrderStep(s: State, a: Action, t: State)
    requires Step(s, a, t)
    ensures a.AbandonStray? ==> Records(s, a, t)
    ensures a.TellTerminal? ==> Honours(s, a, t)
    ensures a.FinalizeFails? ==> Takes(s, a, t)
  {
  }

  /** A handoff that is certain not to have been accepted is taken out of the record, and the job is
      offered on; where the store refuses that, the pass lets it be. */
  lemma UnhandedIsOfferedOn(states: seq<State>, actions: seq<Action>, i: int, j: int)
    requires IsRun(states, actions) && Next(actions, i, j) && actions[i].Unhand?
    ensures var s, t := states[i], states[i + 1];
      if Holds(s) then Offering(actions[j]) && t.rec == s.rec.(delegation := None, state := Pending)
      else actions[j].LetGo? && t.rec == s.rec
  {
    hide Step;
    NextAt(states, actions, i, j);
    RecordStep(states[i], actions[i], states[i + 1]);
  }

  /** A job is claimed to be run here only if it was free, and to be closed only if it was transferred
      and nothing is awaited for it; each goes on only where the claim found it free of a lease. */
  lemma TakesUpOnlyFree(states: seq<State>, actions: seq<Action>, i: int, j: int)
    requires IsRun(states, actions) && Next(actions, i, j)
    ensures var r, b := states[i].rec, actions[j];
      var claimable := !r.held && !r.state.Complete? && !r.state.Failed? && !r.state.Cancelled?;
      && (actions[i].AdoptOrphan? && b.ClaimToRun? ==> Free(r))
      && (actions[i].ClaimToRun? ==> (b.BeginRun? <==> claimable))
      && (actions[i].PickDelivered? ==>
            (b.ClaimToReceive? <==>
               r.state.Transferred? && (actions[i].present || r.delegation.None? || r.delegation.value.delivered)))
      && (actions[i].ClaimToReceive? ==> (b.Receive? <==> claimable))
  {
    hide Step;
    NextAt(states, actions, i, j);
    if actions[i].ClaimToRun? { AdoptStep(states[i], actions[i], states[i + 1]); }
    if actions[i].AdoptOrphan? { AdoptedStep(states[i], actions[i], states[i + 1]); }
    if actions[i].PickDelivered? || actions[i].ClaimToReceive? { ReceiveStep(states[i], actions[i], states[i + 1]); }
  }

  lemma AdoptedStep(s: State, a: Action, t: State)
    requires Step(s, a, t) && a.AdoptOrphan?
    ensures t == s.(pc := Delivering) || (Orphan(s.rec) && s.rec.delegation.None? && t == s.(pc := Taking))
  {
  }

  lemma EndStep(s: State, a: Action, t: State)
    requires Step(s, a, t) && (a.Progress? || a.EndRun?)
    ensures Finishes(s, a, t)
  {
  }

  /** A run here writes down what it has proven as it goes, and at its end that the bytes are there, or
      the failure, which ends the job only when it is for good. */
  lemma RunIsRecorded(s: State, a: Action, t: State)
    requires Step(s, a, t) && (a.Progress? || a.EndRun?)
    ensures t.works == s.works && t.inflight == s.inflight
    ensures !Holds(s) ==> t.rec == s.rec
    ensures Holds(s) && a.Progress? ==> t.rec == s.rec.(verified := a.verified)
    ensures Holds(s) && a.EndRun? ==>
      t.rec == s.rec.(verified := a.verified,
                      state := if a.ok then Transferred else if a.permanent then Failed else s.rec.state)
  {
    EndStep(s, a, t);
    hide Step;
  }
}
