/** The lease keeper (go/keeper.go). */
module Keeper {
  import opened Options

  // A ticking loop that extends a lease while the work it is held for keeps reporting, and lets go
  // when the work goes quiet, the store refuses, or it is told to stop. Times are in nanoseconds and
  // store calls are instant.

  const MILLISECOND: int := 1_000_000

  datatype Fence = Stalled | StaleEpoch | Expired | Gone

  /** What the store says to a renewal. */
  datatype Answer = Renewed | Refused(why: Fence) | Transient

  datatype Event = Beat | Tick(answer: Answer) | WriteRefused(why: Option<Fence>) | Stop

  /** The keeper and its lease at a moment: `due` is the next tick, `missed` whether the last one
      failed for no reason the keeper stops for. */
  datatype State = State(now: int, last: int, fence: Option<Fence>, alive: bool, due: int, expires: int, missed: bool)

  datatype Terms = Terms(ttl: int, budget: int) {
    predicate Valid() { 0 < ttl && 0 < budget }

    /** Three renewals a lease, but no more than a thousand a second. */
    function Every(): int { if ttl / 3 < MILLISECOND then MILLISECOND else ttl / 3 }
  }

  /** A keeper started now, on a lease claimed now. */
  function Started(w: Terms, now: int): State { State(now, now, None, true, now + w.Every(), now + w.ttl, false) }

  function Fenced(s: State, why: Fence): State { s.(fence := if s.fence.None? then Some(why) else s.fence) }

  function OnTick(w: Terms, s: State, answer: Answer): State {
    if s.fence.Some? then s.(alive := false)
    else if s.now - s.last >= w.budget then Fenced(s, Stalled).(alive := false)
    else
      match answer
      case Renewed => s.(expires := s.now + w.ttl, due := s.due + w.Every(), missed := false)
      case Transient => s.(due := s.due + w.Every(), missed := true)
      case Refused(why) => Fenced(s, why).(alive := false)
  }

  function After(w: Terms, s: State, t: int, e: Event): State {
    var s := s.(now := t);
    match e
    case Beat => s.(last := t)
    case Tick(answer) => if s.alive then OnTick(w, s, answer) else s
    case WriteRefused(why) => if why.Some? && !why.value.Gone? then Fenced(s, why.value) else s
    case Stop => s.(alive := false)
  }

  class Hold {
    const terms: Terms
    var s: State

    constructor (terms: Terms, now: int)
      ensures s == Started(terms, now) && this.terms == terms
    {
      this.terms := terms;
      s := Started(terms, now);
    }

    method BeatAt(t: int)
      modifies this
      ensures s == After(terms, old(s), t, Beat)
    {
      s := s.(now := t, last := t);
    }

    method Refuse(why: Fence)
      modifies this
      ensures s == Fenced(old(s), why)
    {
      if s.fence.None? { s := s.(fence := Some(why)); }
    }

    /** refused: only a fencing refusal is remembered. */
    method RefusedAt(t: int, why: Option<Fence>)
      modifies this
      ensures s == After(terms, old(s), t, WriteRefused(why))
    {
      s := s.(now := t);
      if why.Some? && !why.value.Gone? { Refuse(why.value); }
    }

    /** One turn of the renewal loop. */
    method TickAt(t: int, answer: Answer)
      modifies this
      ensures s == After(terms, old(s), t, Tick(answer))
    {
      s := s.(now := t);
      if !s.alive { return; }
      var silent := t - s.last;
      if s.fence.Some? {
        s := s.(alive := false);
        return;
      }
      if silent >= terms.budget {
        Refuse(Stalled);
        s := s.(alive := false);
        return;
      }
      match answer
      case Renewed => s := s.(expires := t + terms.ttl, due := s.due + terms.Every(), missed := false);
      case Refused(why) =>
        Refuse(why);
        s := s.(alive := false);
      case Transient => s := s.(due := s.due + terms.Every(), missed := true);
    }

    method StopAt(t: int) returns (fenced: Option<Fence>)
      modifies this
      ensures s == After(terms, old(s), t, Stop) && fenced == s.fence
    {
      s := s.(now := t, alive := false);
      return s.fence;
    }
  }

  // ---- Runs -------------------------------------------------------------------------------------------

  /** Time does not run back, and a living keeper ticks when a tick is due and not otherwise. */
  predicate Follows(s: State, t: int, e: Event) {
    s.now <= t && (s.alive ==> t <= s.due && (e.Tick? ==> t == s.due))
  }

  ghost predicate Run(w: Terms, states: seq<State>, times: seq<int>, events: seq<Event>) {
    && w.Valid() && |times| == |events| && |states| == |events| + 1
    && states[0] == Started(w, states[0].now)
    && forall i :: 0 <= i < |events| ==>
         Follows(states[i], times[i], events[i]) && states[i + 1] == After(w, states[i], times[i], events[i])
  }

  /** The timed bound: work that last reported at a moment cannot keep its lease past that moment by
      more than the budget and one lease. */
  lemma {:induction false} ExpiryBound(w: Terms, states: seq<State>, times: seq<int>, events: seq<Event>)
    requires Run(w, states, times, events)
    ensures forall i :: 0 <= i < |states| ==> states[i].expires <= states[i].last + w.budget + w.ttl
    ensures forall i :: 0 <= i < |states| ==> states[i].last <= states[i].now
  {
    for n := 0 to |events|
      invariant forall i :: 0 <= i <= n ==> states[i].expires <= states[i].last + w.budget + w.ttl && states[i].last <= states[i].now
    {
      assert states[n + 1] == After(w, states[n], times[n], events[n]);
    }
  }

  /** When a tick is due the lease is renewed by its whole length, or not: not once something has fenced
      the work, not when nothing was heard of it for the budget, not when the store refuses. Each of these
      ends the renewals, and the first of them is the reason that stays; a failure that is none of them
      waits for the next turn. */
  lemma TickRenews(w: Terms, states: seq<State>, times: seq<int>, events: seq<Event>, i: nat)
    requires Run(w, states, times, events) && i < |events| && events[i].Tick? && states[i].alive
    ensures var s, t, answer := states[i], states[i + 1], events[i].answer;
      var silent := times[i] - s.last >= w.budget;
      && t.now == times[i] == s.due && t.last == s.last
      && (t.alive <==> s.fence.None? && !silent && !answer.Refused?)
      && t.fence == (if s.fence.Some? then s.fence else if silent then Some(Stalled)
                     else if answer.Refused? then Some(answer.why) else None)
      && t.expires == (if t.alive && answer.Renewed? then times[i] + w.ttl else s.expires)
      && (t.alive ==> t.due == s.due + w.Every() && (t.missed <==> answer.Transient?))
  {
    assert Follows(states[i], times[i], events[i]) && states[i + 1] == After(w, states[i], times[i], events[i]);
  }

  /** A fence is for good, and so is a stop: nothing that happens afterwards moves the lease. */
  lemma {:induction false} NeverRenewedAfterFence(w: Terms, states: seq<State>, times: seq<int>, events: seq<Event>, m: nat, n: nat)
    requires Run(w, states, times, events) && m <= n < |states|
    requires states[m].fence.Some? || !states[m].alive
    ensures states[n].expires == states[m].expires
    ensures states[m].fence.Some? ==> states[n].fence == states[m].fence
    ensures !states[m].alive ==> !states[n].alive
    decreases n - m
  {
    if m < n {
      NeverRenewedAfterFence(w, states, times, events, m, n - 1);
      assert states[n] == After(w, states[n - 1], times[n - 1], events[n - 1]);
    }
  }

  /** The work keeps reporting, the store never refuses, and no two renewals running fail. */
  ghost predicate Steady(w: Terms, states: seq<State>, events: seq<Event>)
    requires |states| == |events| + 1
  {
    forall i :: 0 <= i < |events| ==>
      match events[i] {
        case Tick(answer) =>
          && states[i].due - states[i].last < w.budget
          && !answer.Refused? && (states[i].missed ==> answer.Renewed?)
        case WriteRefused(why) => why.None? || why.value.Gone?
        case Stop => false
        case Beat => true
      }
  }

  /** What holds the lease ahead of the clock between ticks. */
  ghost predicate Ahead(w: Terms, s: State) {
    && s.alive && s.fence.None? && s.now <= s.due
    && s.expires >= s.due + w.ttl - (if s.missed then 2 * w.Every() else w.Every())
  }

  /** While the work is steady the lease never lapses. */
  lemma {:induction false} NeverLapses(w: Terms, states: seq<State>, times: seq<int>, events: seq<Event>)
    requires Run(w, states, times, events) && Steady(w, states, events) && w.ttl > 2 * MILLISECOND
    ensures forall i :: 0 <= i < |states| ==> states[i].now < states[i].expires
  {
    EveryIsOften(w);
    for n := 0 to |events|
      invariant forall i :: 0 <= i <= n ==> Ahead(w, states[i])
    {
      assert Follows(states[n], times[n], events[n]) && states[n + 1] == After(w, states[n], times[n], events[n]);
    }
  }

  /** Turns are a third of the lease apart and never closer than a millisecond, so that two fit inside
      a lease exactly when it is longer than two milliseconds. */
  lemma EveryIsOften(w: Terms)
    requires w.Valid()
    ensures if w.ttl < 3_000_000 then w.Every() == 1_000_000 else 3 * w.Every() <= w.ttl < 3 * w.Every() + 3
    ensures 2 * w.Every() < w.ttl <==> w.ttl > 2_000_000
  {
  }

  /** A lease of two milliseconds or less is lost to a single failed renewal. */
  lemma ShortLeaseLapses(w: Terms) returns (states: seq<State>, times: seq<int>, events: seq<Event>)
    requires w.Valid() && w.ttl <= 2 * MILLISECOND && w.budget > 2 * MILLISECOND
    ensures Run(w, states, times, events) && Steady(w, states, events)
    ensures exists i :: 0 <= i < |states| && states[i].now >= states[i].expires
  {
    var s0 := Started(w, 0);
    var s1 := After(w, s0, MILLISECOND, Tick(Transient));
    var s2 := After(w, s1, 2 * MILLISECOND, Beat);
    states, times, events := [s0, s1, s2], [MILLISECOND, 2 * MILLISECOND], [Tick(Transient), Beat];
    assert states[2].now >= states[2].expires;
  }
}
