/** Runs of the handoff machine, built step by step. */
module HandoffRuns {
  import opened Handoff
  import opened Jobs
  import opened Options
  import opened Ranges
  import opened Runs

  ghost predicate Chain(ss: seq<State>, as': seq<Action>) {
    |ss| == |as'| + 1 && forall i :: 0 <= i < |as'| ==> Step(ss[i], as'[i], ss[i + 1])
  }

  lemma ChainsJoin(s1: seq<State>, a1: seq<Action>, s2: seq<State>, a2: seq<Action>)
    requires Chain(s1, a1) && Chain(s2, a2) && s1[|a1|] == s2[0]
    ensures Chain(Joined(s1, s2), a1 + a2)
    ensures Joined(s1, s2)[0] == s1[0] && Joined(s1, s2)[|a1 + a2|] == s2[|a2|]
  {
    hide Step, Joined;
    var s, a := Joined(s1, s2), a1 + a2;
    JoinedAt(s1, s2, 0);
    JoinedAt(s1, s2, |a|);
    forall i | 0 <= i < |a| ensures Step(s[i], a[i], s[i + 1]) {
      JoinedAt(s1, s2, i);
      JoinedAt(s1, s2, i + 1);
    }
  }

  // ---- Single steps -------------------------------------------------------------------------------

  lemma Bound(s: State, systems: set<nat>)
    ensures Step(s, Rebind(systems), s.(bound := systems))
  {
    assert World(s, Rebind(systems), s.(bound := systems));
  }

  /** A pass begins and loads a record. */
  lemma Loaded(s: State)
    requires s.pc.Idle?
    ensures Step(s, NextPass, s.(pc := Reconciling))
    ensures Step(s.(pc := Reconciling), Load, s.(pc := AfterLoad(s.(pc := Reconciling))))
  {
    var u := s.(pc := Reconciling);
    assert World(s, NextPass, u);
    assert Reconciles(u, Load, u.(pc := AfterLoad(u)));
  }

  lemma OrphanPicked(s: State)
    requires s.pc.Delegating?
    ensures Step(s, PickOrphan, s.(pc := if s.bound != {} && Orphan(s.rec) && s.rec.delegation.None? then Handing else Adopting))
  {
    assert Offers(s, PickOrphan, s.(pc := if s.bound != {} && Orphan(s.rec) && s.rec.delegation.None? then Handing else Adopting));
  }

  lemma OrphanClaimed(s: State)
    requires s.pc.Handing? && Claim(s.rec).Some? && s.rec.delegation.None?
    ensures var r := Claim(s.rec).value; Step(s, ClaimToDelegate, s.(rec := r, pc := Offering(r.epoch)))
  {
    var r := Claim(s.rec).value;
    assert Offers(s, ClaimToDelegate, s.(rec := r, pc := Offering(r.epoch)));
  }

  lemma JobOffered(s: State, system: nat)
    requires s.pc.Offering? && system in s.bound && CanWrite(s.rec, s.pc.epoch)
    ensures Step(s, Offer(system), s.(rec := Handed(s.rec, system, Request), pc := Starting(s.pc.epoch, system)))
  {
    assert Offers(s, Offer(system), s.(rec := Handed(s.rec, system, Request), pc := Starting(s.pc.epoch, system)));
  }

  lemma StartAnswered(s: State, h: nat)
    requires s.pc.Starting? && h !in s.works
    ensures Step(s, Start(AcceptsAndAnswers(h)),
                 s.(works := Accept(s.works, h, s.pc.system), pc := Answered(s.pc.epoch, s.pc.system, h)))
  {
    assert Starts(s, Start(AcceptsAndAnswers(h)),
                  s.(works := Accept(s.works, h, s.pc.system), pc := Answered(s.pc.epoch, s.pc.system, h)));
  }

  lemma HandleWritten(s: State)
    requires s.pc.Answered? && CanWrite(s.rec, s.pc.epoch)
    ensures Step(s, RecordHandle,
                 s.(rec := Handed(s.rec, s.pc.system, Handle(s.pc.handle)), pc := Releasing(s.pc.epoch, Adopting)))
  {
    assert Records(s, RecordHandle,
                   s.(rec := Handed(s.rec, s.pc.system, Handle(s.pc.handle)), pc := Releasing(s.pc.epoch, Adopting)));
  }

  lemma LeaseLetGo(s: State)
    requires s.pc.Releasing?
    ensures Step(s, LetGo, s.(rec := Release(s.rec, s.pc.epoch), pc := s.pc.next))
  {
    assert Finishes(s, LetGo, s.(rec := Release(s.rec, s.pc.epoch), pc := s.pc.next));
  }

  /** Nothing to adopt and nothing delivered: the pass ends. */
  lemma PassEnds(s: State)
    requires s.pc.Adopting? && !s.rec.state.Transferred?
    ensures Step(s, AdoptOrphan, s.(pc := Delivering)) && Step(s.(pc := Delivering), PickDelivered(false), s.(pc := Idle))
  {
    var u := s.(pc := Delivering);
    assert Adopts(s, AdoptOrphan, u);
    assert Finishes(u, PickDelivered(false), s.(pc := Idle));
  }

  lemma RunAdopted(s: State)
    requires s.pc.Adopting? && Orphan(s.rec) && s.rec.delegation.None?
    ensures Step(s, AdoptOrphan, s.(pc := Taking))
  {
    assert Adopts(s, AdoptOrphan, s.(pc := Taking));
  }

  lemma RunClaimed(s: State)
    requires s.pc.Taking? && Claim(s.rec).Some?
    ensures var r := Claim(s.rec).value; Step(s, ClaimToRun, s.(rec := r, pc := Beginning(r.epoch, r.want)))
  {
    var r := Claim(s.rec).value;
    assert Adopts(s, ClaimToRun, s.(rec := r, pc := Beginning(r.epoch, r.want)));
  }

  lemma RunBegun(s: State)
    requires s.pc.Beginning? && s.pc.want.WantRun?
    ensures Step(s, BeginRun(false), s.(pc := LocalRun(s.pc.epoch)))
  {
    assert Adopts(s, BeginRun(false), s.(pc := LocalRun(s.pc.epoch)));
  }

  lemma ProgressMade(s: State, v: seq<Range>)
    requires s.pc.LocalRun? && CanWrite(s.rec, s.pc.epoch)
    ensures Step(s, Progress(v), s.(rec := s.rec.(verified := v)))
  {
    assert Finishes(s, Progress(v), s.(rec := s.rec.(verified := v)));
  }

  lemma ProcessLost(s: State)
    requires !s.pc.Idle? && s.rec.held
    ensures Step(s, Crash, s.(pc := Idle)) && Step(s.(pc := Idle), Lapse, s.(rec := s.rec.(held := false), pc := Idle))
  {
    assert World(s, Crash, s.(pc := Idle));
    assert World(s.(pc := Idle), Lapse, s.(rec := s.rec.(held := false), pc := Idle));
  }

  lemma WorkArrived(s: State, h: nat)
    requires h in s.works && s.works[h].status.Moving?
    ensures Step(s, WorkArrives(h), s.(works := Mark(s.works, h, Arrived)))
  {
    assert Elsewhere(s, WorkArrives(h), s.(works := Mark(s.works, h, Arrived)));
  }

  lemma PollAnswered(s: State, a: Answer)
    requires s.pc.Polling? && TruePoll(s, HandleOf(s.pc.seen), a)
    ensures Step(s, PollAnswers(a), s.(pc := Polled(s.pc.seen, a)))
  {
    assert Polls(s, PollAnswers(a), s.(pc := Polled(s.pc.seen, a)));
  }

  lemma DeliveryClaimed(s: State)
    requires s.pc.Polled? && s.pc.answer.report.SaysTransferred? && !s.pc.answer.suspended
    requires ClaimDelegation(s.pc.seen, s.rec).Ours? && s.rec.want.WantRun? && !Refutes(s.pc.seen, s.pc.answer)
    ensures var r := ClaimDelegation(s.pc.seen, s.rec).rec;
      Step(s, ClaimToAct(false), s.(rec := r, pc := Finalizing(HandleOf(s.pc.seen), r.epoch)))
  {
    var r := ClaimDelegation(s.pc.seen, s.rec).rec;
    assert Polls(s, ClaimToAct(false), s.(rec := r, pc := Finalizing(HandleOf(s.pc.seen), r.epoch)));
  }

  lemma DeliveryTaken(s: State)
    requires s.pc.Finalizing?
    ensures Step(s, Finalize, s.(works := Drop(s.works, s.pc.handle), pc := Verifying(s.pc.epoch)))
  {
    assert Takes(s, Finalize, s.(works := Drop(s.works, s.pc.handle), pc := Verifying(s.pc.epoch)));
  }

  function DeliveredRec(r: Record, total: nat): Record
    requires r.delegation.Some?
  {
    r.(state := Transferred, delegation := Some(r.delegation.value.(delivered := true)), verified := WholePrefix(total))
  }

  lemma DeliveryRecorded(s: State, total: nat)
    requires s.pc.Verifying? && CanWrite(s.rec, s.pc.epoch) && s.rec.delegation.Some?
    ensures Step(s, Deliver(total), s.(rec := DeliveredRec(s.rec, total), pc := Delegating))
  {
    assert Takes(s, Deliver(total), s.(rec := DeliveredRec(s.rec, total), pc := Delegating));
  }

  lemma RefutedClaimed(s: State)
    requires s.pc.Polled? && !s.pc.answer.suspended && Refutes(s.pc.seen, s.pc.answer) && ClaimDelegation(s.pc.seen, s.rec).Ours?
    ensures var r := ClaimDelegation(s.pc.seen, s.rec).rec;
      Step(s, ClaimToAct(false), s.(rec := r, pc := TakingBack(HandleOf(s.pc.seen), r.epoch)))
  {
    var r := ClaimDelegation(s.pc.seen, s.rec).rec;
    assert Polls(s, ClaimToAct(false), s.(rec := r, pc := TakingBack(HandleOf(s.pc.seen), r.epoch)));
  }

  /** The delegate would not stop, and the job is taken back all the same. */
  lemma TakenBackRunning(s: State)
    requires s.pc.TakingBack? && CanWrite(s.rec, s.pc.epoch)
    ensures var u := s.(pc := TakenBack(s.pc.epoch));
      && Step(s, AbandonRestarted(false), u)
      && Step(u, TakeBack, s.(rec := Back(s.rec), pc := Releasing(s.pc.epoch, Delegating)))
  {
    var u := s.(pc := TakenBack(s.pc.epoch));
    assert Takes(s, AbandonRestarted(false), u);
    assert Takes(u, TakeBack, s.(rec := Back(s.rec), pc := Releasing(s.pc.epoch, Delegating)));
  }

  predicate NoneTakenBack(as': seq<Action>) { forall i :: 0 <= i < |as'| ==> !as'[i].AbandonRestarted? }

  // ---- Parts of a run -----------------------------------------------------------------------------

  /** A free job handed to a system, up to the call of Start. */
  lemma HandedOver(s: State, system: nat) returns (ss: seq<State>, as': seq<Action>, t: State)
    requires s.pc.Idle? && Orphan(s.rec) && s.rec.delegation.None?
    ensures Chain(ss, as') && ss[0] == s && |as'| == 6 && t == ss[6] && NoneTakenBack(as')
    ensures var r := Claim(s.rec).value;
      t == s.(bound := {system}, rec := Handed(r, system, Request), pc := Starting(r.epoch, system))
  {
    hide Step;
    var r := Claim(s.rec).value;
    var s1 := s.(bound := {system});
    var s2, s3, s4 := s1.(pc := Reconciling), s1.(pc := Delegating), s1.(pc := Handing);
    var s5 := s1.(rec := r, pc := Offering(r.epoch));
    t := s1.(rec := Handed(r, system, Request), pc := Starting(r.epoch, system));
    Bound(s, {system});
    Loaded(s1);
    OrphanPicked(s3);
    OrphanClaimed(s4);
    JobOffered(s5, system);
    ss, as' := [s, s1, s2, s3, s4, s5, t], [Rebind({system}), NextPass, Load, PickOrphan, ClaimToDelegate, Offer(system)];
  }

  /** A job nobody is bound for, adopted, run here for a while and lost. */
  lemma RunHere(s: State, v: seq<Range>) returns (ss: seq<State>, as': seq<Action>, t: State)
    requires s.pc.Idle? && Orphan(s.rec) && s.rec.delegation.None? && s.rec.want.WantRun? && s.bound == {}
    ensures Chain(ss, as') && ss[0] == s && |as'| == 9 && t == ss[9] && NoneTakenBack(as')
    ensures t == s.(rec := Claim(s.rec).value.(verified := v, held := false))
  {
    hide Step;
    var r := Claim(s.rec).value;
    var s1, s2, s3, s4 := s.(pc := Reconciling), s.(pc := Delegating), s.(pc := Adopting), s.(pc := Taking);
    var s5 := s.(rec := r, pc := Beginning(r.epoch, WantRun));
    var s6 := s.(rec := r, pc := LocalRun(r.epoch));
    var s7 := s6.(rec := r.(verified := v));
    var s8 := s7.(pc := Idle);
    t := s8.(rec := r.(verified := v, held := false));
    Loaded(s);
    OrphanPicked(s2);
    RunAdopted(s3);
    RunClaimed(s4);
    RunBegun(s5);
    ProgressMade(s6, v);
    ProcessLost(s7);
    ss := [s, s1, s2, s3, s4, s5, s6, s7, s8, t];
    as' := [NextPass, Load, PickOrphan, AdoptOrphan, ClaimToRun, BeginRun(false), Progress(v), Crash, Lapse];
  }

  /** The Start answered, the handle written down, the lease let go and the pass over. */
  lemma TakenOn(s: State, h: nat) returns (ss: seq<State>, as': seq<Action>, t: State)
    requires s.pc.Starting? && h !in s.works && CanWrite(s.rec, s.pc.epoch)
    ensures Chain(ss, as') && ss[0] == s && |as'| == 5 && t == ss[5] && NoneTakenBack(as')
    ensures t == s.(works := Accept(s.works, h, s.pc.system),
                    rec := Handed(s.rec, s.pc.system, Handle(h)).(held := false), pc := Idle)
  {
    hide Step;
    var s1 := s.(works := Accept(s.works, h, s.pc.system), pc := Answered(s.pc.epoch, s.pc.system, h));
    var s2 := s1.(rec := Handed(s.rec, s.pc.system, Handle(h)), pc := Releasing(s.pc.epoch, Adopting));
    var s3 := s2.(rec := s2.rec.(held := false), pc := Adopting);
    var s4 := s3.(pc := Delivering);
    t := s3.(pc := Idle);
    StartAnswered(s, h);
    HandleWritten(s1);
    LeaseLetGo(s2);
    PassEnds(s3);
    ss, as' := [s, s1, s2, s3, s4, t], [Start(AcceptsAndAnswers(h)), RecordHandle, LetGo, AdoptOrphan, PickDelivered(false)];
  }

  /** The work arrived, polled, taken and recorded: `total` bytes of it. */
  lemma Delivered(s: State, h: nat, total: nat) returns (ss: seq<State>, as': seq<Action>, t: State)
    requires s.pc.Idle? && !s.rec.held && !s.rec.state.Terminal() && !s.rec.state.Transferred? && s.rec.want.WantRun?
    requires s.rec.delegation.Some? && s.rec.delegation.value.external == Handle(h) && !s.rec.delegation.value.delivered
    requires SystemOf(s.rec) in s.bound && h in s.works && s.works[h].status.Moving? && !(0 < total < VerifiedPrefix(s.rec.verified))
    ensures Chain(ss, as') && ss[0] == s && |as'| == 7 && t == ss[7] && as'[6] == Deliver(total)
    ensures ss[6].rec.verified == s.rec.verified && t.rec.verified == WholePrefix(total) && t.rec != ss[6].rec
  {
    hide Step;
    var a := Answer(SaysTransferred, total, false);
    var s1 := s.(works := Mark(s.works, h, Arrived));
    var s2, s3, s4 := s1.(pc := Reconciling), s1.(pc := Polling(s.rec)), s1.(pc := Polled(s.rec, a));
    var r := ClaimDelegation(s.rec, s.rec).rec;
    var s5 := s1.(rec := r, pc := Finalizing(h, r.epoch));
    var s6 := s5.(works := Drop(s5.works, h), pc := Verifying(r.epoch));
    t := s6.(rec := DeliveredRec(r, total), pc := Delegating);
    WorkArrived(s, h);
    Loaded(s1);
    PollAnswered(s3, a);
    DeliveryClaimed(s4);
    DeliveryTaken(s5);
    DeliveryRecorded(s6, total);
    ss := [s, s1, s2, s3, s4, s5, s6, t];
    as' := [WorkArrives(h), NextPass, Load, PollAnswers(a), ClaimToAct(false), Finalize, Deliver(total)];
  }

  /** From a job nobody has touched: run here until v is proven, lost, and handed to a delegate. */
  lemma UnderWay(job: Record, v: seq<Range>, system: nat, h: nat) returns (ss: seq<State>, as': seq<Action>, t: State)
    requires job.state.Pending? && !job.held && job.delegation.None? && job.want.WantRun?
    ensures Chain(ss, as') && |as'| == 20 && Init(ss[0]) && ss[0].rec == job && t == ss[20]
    ensures NoneTakenBack(as')
    ensures t.pc.Idle? && t.bound == {system} && t.works == map[h := Work(system, Moving)] && t.inflight == {}
    ensures t.rec == job.(state := Running, delegation := Some(Delegation(system, Handle(h), false)),
                          epoch := job.epoch + 2, verified := v)
  {
    hide Step, Joined;
    var s := State(job, map[], {}, {}, Idle);
    var s1, a1, t1 := RunHere(s, v);
    var s2, a2, t2 := HandedOver(t1, system);
    var s3, a3, t3 := TakenOn(t2, h);
    ChainsJoin(s1, a1, s2, a2);
    ChainsJoin(Joined(s1, s2), a1 + a2, s3, a3);
    ss, as', t := Joined(Joined(s1, s2), s3), a1 + a2 + a3, t3;
  }

  // ---- A delivery that drops proven bytes ---------------------------------------------------------

  /** From a job nobody has touched: run here until [m, n) is proven, lost, handed to a delegate
      from zero, and delivered with fewer bytes than the set reached. The delegate reports what it
      delivers; the report refutes nothing, since no prefix was handed to it. */
  lemma ShortDeliveryDrops(job: Record, system: nat, h: nat, m: nat, n: nat, total: nat)
    returns (states: seq<State>, actions: seq<Action>)
    requires job.state.Pending? && !job.held && job.delegation.None? && job.want.WantRun?
    requires 0 < m < n && total < n
    ensures IsRun(states, actions) && states[0].rec == job && |actions| == 27 && actions[26] == Deliver(total)
    ensures states[26].rec.verified == [Range(m, n)] && states[27].rec.verified == WholePrefix(total)
    ensures !Within(states[26].rec.verified, states[27].rec.verified)
  {
    hide Step, Joined;
    ReplacedByPrefix([Range(m, n)], total);
    var s1, a1, t1 := UnderWay(job, [Range(m, n)], system, h);
    var s2, a2, t2 := Delivered(t1, h, total);
    ChainsJoin(s1, a1, s2, a2);
    states, actions := Joined(s1, s2), a1 + a2;
    JoinedAt(s1, s2, 26);
    assert actions[26] == a2[6];
  }

  // ---- A refuted delegate that does not stop ------------------------------------------------------

  /** Wherever a job has been taken back and is wanted, the pass that took it back hands it on. */
  lemma HandedOn(s: State, system: nat, g: nat) returns (ss: seq<State>, as': seq<Action>, t: State)
    requires s.pc.Releasing? && s.pc.next.Delegating? && CanWrite(s.rec, s.pc.epoch)
    requires s.rec.delegation.None? && s.rec.state.Pending? && s.rec.want.WantRun? && system in s.bound && g !in s.works
    ensures Chain(ss, as') && ss[0] == s && |as'| == 5 && t == ss[5]
    ensures as' == [LetGo, PickOrphan, ClaimToDelegate, Offer(system), Start(AcceptsAndAnswers(g))]
    ensures t.works == Accept(s.works, g, system) && t.pc.Answered?
  {
    hide Step;
    var s1 := s.(rec := s.rec.(held := false), pc := Delegating);
    var r := Claim(s1.rec).value;
    var s2, s3 := s1.(pc := Handing), s1.(rec := r, pc := Offering(r.epoch));
    var s4 := s1.(rec := Handed(r, system, Request), pc := Starting(r.epoch, system));
    t := s4.(works := Accept(s.works, g, system), pc := Answered(r.epoch, system, g));
    LeaseLetGo(s);
    OrphanPicked(s1);
    OrphanClaimed(s2);
    JobOffered(s3, system);
    StartAnswered(s4, g);
    ss, as' := [s, s1, s2, s3, s4, t], [LetGo, PickOrphan, ClaimToDelegate, Offer(system), Start(AcceptsAndAnswers(g))];
  }

  /** Wherever a job is taken back while work for it goes on, whatever is wanted of it and whoever is
      bound then, a second transfer may follow in the same pass. */
  lemma RefusedAbandonIsUnsafe(states: seq<State>, actions: seq<Action>, system: nat, g: nat)
    returns (ss: seq<State>, as': seq<Action>)
    requires IsRun(states, actions) && actions != []
    requires Strands(states[|actions| - 1], actions[|actions| - 1], states[|actions|]) && g !in states[|actions|].works
    ensures IsRun(ss, as') && states <= ss && actions <= as' && |as'| == |actions| + 7
    ensures Transfers(ss[|as'|]) >= 2
  {
    var s := states[|actions|];
    assert Takes(states[|actions| - 1], TakeBack, s);
    var h :| h in LiveSet(s.works);
    hide Step, Joined;
    var s1, a1, t1 := WantedAndBound(s, system);
    var s2, a2, t2 := HandedOn(t1, system, g);
    ChainsJoin(states, actions, s1, a1);
    ChainsJoin(Joined(states, s1), actions + a1, s2, a2);
    ss, as' := Joined(Joined(states, s1), s2), actions + a1 + a2;
    JoinedPrefix(states, s1);
    JoinedPrefix(Joined(states, s1), s2);
    TwoLive(t2, h, g);
  }

  /** Somebody wants the job run, and a delegate is bound. */
  lemma WantedAndBound(s: State, system: nat) returns (ss: seq<State>, as': seq<Action>, t: State)
    ensures Chain(ss, as') && ss[0] == s && |as'| == 2 && t == ss[2]
    ensures t == s.(rec := s.rec.(want := WantRun), bound := {system})
  {
    var s1 := s.(rec := s.rec.(want := WantRun));
    t := s1.(bound := {system});
    assert World(s, Asks(WantRun), s1) && World(s1, Rebind({system}), t);
    ss, as' := [s, s1, t], [Asks(WantRun), Rebind({system})];
  }

  lemma JoinedPrefix<T>(a: seq<T>, b: seq<T>)
    requires b != []
    ensures a <= Joined(a, b)
  {
  }

  lemma TwoLive(s: State, h: nat, g: nat)
    requires LiveWork(s, h) && LiveWork(s, g) && h != g
    ensures Transfers(s) >= 2
  {
    var rest := LiveSet(s.works) - {h};
    assert g in rest && LiveSet(s.works) == rest + {h};
  }

  /** Such a run, from a job nobody has touched: run here until [0, n) is proven, lost, handed to a
      delegate that says it resumes and then reports less, taken back while it goes on, and handed on. */
  lemma RefusedAbandonHappens(job: Record, system: nat, h: nat, g: nat, n: nat, done: nat)
    returns (states: seq<State>, actions: seq<Action>)
    requires job.state.Pending? && !job.held && job.delegation.None? && job.want.WantRun?
    requires 0 < done < n && h != g
    ensures IsRun(states, actions) && states[0].rec == job && |actions| == 31
    ensures actions[24] == AbandonRestarted(false) && Strands(states[25], actions[25], states[26])
    ensures Transfers(states[31]) == 2
  {
    hide Step, Joined;
    var s1, a1, t1 := UnderWay(job, [Range(0, n)], system, h);
    var s2, a2, t2 := TakenBackAnyway(t1, h, done);
    var s3, a3, t3 := HandedOn(t2, system, g);
    ChainsJoin(s1, a1, s2, a2);
    ChainsJoin(Joined(s1, s2), a1 + a2, s3, a3);
    states, actions := Joined(Joined(s1, s2), s3), a1 + a2 + a3;
    forall k | 5 <= k <= 6 ensures states[20 + k] == s2[k] {
      JoinedAt(s1, s2, 20 + k);
      JoinedAt(Joined(s1, s2), s3, 20 + k);
    }
    assert actions[24] == a2[4] && actions[25] == a2[5];
    assert LiveSet(t3.works) == {h, g};
  }

  /** The delegate reports less than it was handed, is told to stop, and does not. */
  lemma TakenBackAnyway(s: State, h: nat, done: nat) returns (ss: seq<State>, as': seq<Action>, t: State)
    requires s.pc.Idle? && !s.rec.held && s.rec.state.Running? && s.rec.want.WantRun?
    requires s.rec.delegation.Some? && s.rec.delegation.value.external == Handle(h) && !s.rec.delegation.value.delivered
    requires SystemOf(s.rec) in s.bound && LiveWork(s, h) && 0 < done < VerifiedPrefix(s.rec.verified)
    ensures Chain(ss, as') && ss[0] == s && |as'| == 6 && t == ss[6]
    ensures as' == [NextPass, Load, PollAnswers(Answer(SaysRunning, done, false)), ClaimToAct(false), AbandonRestarted(false), TakeBack]
    ensures var r := Claim(s.rec).value; t == s.(rec := Back(r), pc := Releasing(r.epoch, Delegating))
    ensures Strands(ss[5], as'[5], ss[6])
  {
    hide Step;
    var a := Answer(SaysRunning, done, false);
    var r := ClaimDelegation(s.rec, s.rec).rec;
    var s1, s2, s3 := s.(pc := Reconciling), s.(pc := Polling(s.rec)), s.(pc := Polled(s.rec, a));
    var s4 := s.(rec := r, pc := TakingBack(h, r.epoch));
    var s5 := s4.(pc := TakenBack(r.epoch));
    t := s4.(rec := Back(r), pc := Releasing(r.epoch, Delegating));
    Loaded(s);
    PollAnswered(s2, a);
    RefutedClaimed(s3);
    TakenBackRunning(s4);
    ss := [s, s1, s2, s3, s4, s5, t];
    as' := [NextPass, Load, PollAnswers(a), ClaimToAct(false), AbandonRestarted(false), TakeBack];
  }
}
