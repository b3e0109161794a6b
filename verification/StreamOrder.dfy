/** What each step of a stream leads to and leaves behind, by what was answered, what has arrived and
    how it ended: every two or three steps of the machine of StreamTransfer that follow one another. */
module StreamOrder {
  import opened Options
  import opened Ranges
  import opened ResumePlan
  import opened StreamTransfer

  /** The effects of the stream that belong to a point of it; a crash may come at any. */
  predicate Stands(pc: Pc, a: Action) {
    match pc
    case Idle => a.MakePlan? || a.Shorten? || a.Recount?
    case Planned(_, _) => a.RecordPlan?
    case Fetching(_) => Asks(a)
    case Clearing(_, _) => a.RecordClear?
    case Again(_) => a.RequestAgain?
    case Receiving(_, _, _, _) => Receives(a)
    case Closing(_, _) => a.Sync?
    case Closed(_, _) => a.Conclude?
  }

  /** A source is asked for the gap, or there is none left to ask. */
  predicate Asks(a: Action) { a.Request? || a.GiveUp? }

  /** An answer's body is being read. */
  predicate Receives(a: Action) { a.Byte? || a.Choose? || a.SyncReport? || a.WriteReport? || a.EndFetch? }

  lemma StepStands(s: State, a: Action, t: State)
    requires Step(s, a, t)
    ensures a.Crash? || Stands(s.pc, a)
  {
  }

  predicate WasAsked(m: Mem) { m.gap.from > 0 || m.gap.to > 0 }

  lemma RequestStep(s: State, a: Action, t: State)
    requires Step(s, a, t) && (a.Request? || a.GiveUp? || a.RecordClear? || a.RequestAgain?)
    ensures Requests(s, a, t) || GivesUp(s, a, t) || Clears(s, a, t) || AsksAgain(s, a, t)
  {
  }

  /** What an answer leads to. Bytes of the range asked for, or a whole artifact when the whole was asked
      for, are read, as the version the answer names; no answer, or a refusal of a plain request, goes on
      to the next source; and anything else to a request for a range empties the file and clears the
      record before another byte is asked for. */
  lemma AnswerDecides(s: State, a: Action, t: State, b: Action, u: State)
    requires Step(s, a, t) && a.Request? && Step(t, b, u) && !b.Crash?
    ensures s.pc.Fetching? && t.rec == s.rec
    ensures var asked := WasAsked(s.pc.m);
      match a.answer
      case Partial(w) => Receives(b) && t.disk == s.disk && t.pc.m == s.pc.m.(seen := Some(w))
      case Whole(w) =>
        if asked then b.RecordClear? && t.disk == Truncated(s.disk, 0)
        else Receives(b) && t.disk == s.disk && t.pc.m == s.pc.m.(seen := Some(w))
      case NoAnswer => t == s && Asks(b)
      case _ => if asked then b.RecordClear? && t.disk == Truncated(s.disk, 0) else t == s && Asks(b)
    ensures a.answer.Partial? && WasAsked(s.pc.m) && s.pc.m.seen.Some? ==> a.answer.w == s.pc.m.seen.value
  {
    StepStands(s, a, t);
    StepStands(t, b, u);
    RequestStep(s, a, t);
    hide Step, Truncated;
  }

  /** What a restart leads to: the record cleared as far as the store takes it, and then the artifact
      from its first byte, out of the answer in hand if it holds the whole of it and of another request
      if not. A refused clear goes on to the next source instead. */
  lemma RestartDecides(s: State, a: Action, t: State, c: Action, u: State, b: Action, v: State)
    requires Step(s, a, t) && a.Request? && Step(t, c, u) && c.RecordClear? && Step(u, b, v) && !b.Crash?
    ensures s.pc.Fetching? && u.disk == t.disk
    ensures c.refused ==> u.rec == t.rec && Asks(b)
    ensures !c.refused ==> u.rec == Rec([], 0, None) && if a.answer.Whole? then Receives(b) else b.RequestAgain?
    ensures !u.pc.Idle? ==> u.pc.m.proven == [] && u.pc.m.gap == Gap(0, 0) && u.pc.m.rest == s.pc.m.rest && u.pc.m.restarted
    ensures !c.refused && a.answer.Whole? ==> u.pc.m.seen == Some(a.answer.w)
  {
    StepStands(s, a, t);
    StepStands(t, c, u);
    StepStands(u, b, v);
    RequestStep(s, a, t);
    RequestStep(t, c, u);
    hide Step, Truncated;
  }

  /** Asked again, only a whole artifact is read; anything else is as if nothing had answered. */
  lemma AgainDecides(s: State, a: Action, t: State, b: Action, u: State)
    requires Step(s, a, t) && a.RequestAgain? && Step(t, b, u) && !b.Crash?
    ensures s.pc.Again? && t.disk == s.disk && t.rec == s.rec
    ensures if a.answer.Whole? then Receives(b) && t.pc.m == s.pc.m.(seen := Some(a.answer.w)) else Asks(b) && t.pc.m == s.pc.m
  {
    StepStands(s, a, t);
    StepStands(t, b, u);
    RequestStep(s, a, t);
    hide Step;
  }

  lemma ReceiveStep(s: State, a: Action, t: State)
    requires Step(s, a, t) && Receives(a)
    ensures Writes(s, a, t) || Reports(s, a, t) || Records(s, a, t) || Ends(s, a, t)
  {
  }

  /** What the end of an answer leads to. The gap is filled: the next one, or the end when it was the last
      or the stream had begun again. It is not: the end when the work was stopped or bytes have arrived,
      and the next source when none have. All that arrived is proven. */
  lemma EndDecides(s: State, a: Action, t: State, b: Action, u: State)
    requires Step(s, a, t) && a.EndFetch? && Step(t, b, u) && !b.Crash?
    ensures s.pc.Receiving? && t.disk == s.disk && t.rec == s.rec
    ensures var m, n := s.pc.m, s.pc.written;
      && !t.pc.Idle? && Points(t.pc.m.proven) == Points(m.proven) + Interval(m.gap.from, m.gap.from + n)
      && t.pc.m.seen == m.seen
      && if a.ok && (m.restarted || m.rest == []) then b.Sync? && t.pc.ending == Finished
         else if a.ok then Asks(b) && t.pc.m.gap == m.rest[0] && t.pc.m.rest == m.rest[1..]
         else if a.stopped then b.Sync? && t.pc.ending == Stopped
         else if n > 0 then b.Sync? && t.pc.ending == Broken
         else Asks(b) && t.pc.m.gap == m.gap && t.pc.m.rest == m.rest
  {
    StepStands(s, a, t);
    StepStands(t, b, u);
    ReceiveStep(s, a, t);
    hide Step;
  }

  /** A byte lands at the next offset of the gap; a report takes an offset that has arrived, syncs the
      file, and only then is written: just the proven bytes and those up to that offset, with the version
      they are of and their count. */
  lemma ReportSays(s: State, a: Action, t: State)
    requires Step(s, a, t) && Receives(a) && !a.EndFetch?
    ensures s.pc.Receiving? && t.pc.Receiving?
    ensures var m := s.pc.m;
      && (a.Byte? ==>
            t.disk == Put(s.disk, m.gap.from + s.pc.written, s.pc.w) && t.rec == s.rec && t.pc.m == m
            && t.pc.written == s.pc.written + 1 && t.pc.report == s.pc.report)
      && (a.Choose? ==> m.gap.from <= a.at <= m.gap.from + s.pc.written && t == s.(pc := s.pc.(report := Chosen(a.at))))
      && (a.SyncReport? ==>
            s.pc.report.Chosen? && t.disk.durable == s.disk.vol && t.disk.dirty == {} && t.disk.vol == s.disk.vol
            && t.rec == s.rec && t.pc == s.pc.(report := Synced(s.pc.report.at)))
      && (a.WriteReport? ==> s.pc.report.Synced? && t.disk == s.disk && t.pc.report == Silent)
      && (a.WriteReport? && a.refused ==> t.rec == s.rec && t.pc.m == m)
      && (a.WriteReport? && !a.refused ==>
            && Points(t.rec.have) == Points(m.proven) + Interval(m.gap.from, s.pc.report.at)
            && t.rec.version == m.seen && t.rec.done == Total(t.rec.have) && t.pc.m == m.(proven := t.rec.have))
  {
    ReceiveStep(s, a, t);
    hide Step;
  }

  lemma CloseStep(s: State, a: Action, t: State)
    requires Step(s, a, t) && (a.Sync? || a.Conclude?)
    ensures Closes(s, a, t) || Concludes(s, a, t)
  {
  }

  /** A stream that has ended is synced, or that is the end of it, and only then is anything written down:
      all that is proven where the work was stopped; its leading run, where that is more than is counted,
      where the sources failed or the length is wrong; and nothing proven at all where the digest is wrong,
      the file removed with it as far as it can be. */
  lemma EndIsRecorded(s: State, a: Action, t: State, b: Action, u: State)
    requires Step(s, a, t) && a.Sync? && a.ok && Step(t, b, u) && b.Conclude?
    ensures s.pc.Closing? && t.rec == s.rec && t.disk.durable == s.disk.vol && t.disk.dirty == {} && t.disk.vol == s.disk.vol
    ensures var m, ending := s.pc.m, s.pc.ending;
      var run := VerifiedPrefix(m.proven);
      var prefix := if run > 0 && t.rec.done < run then Rec([Range(0, run)], run, m.seen) else t.rec;
      && u.pc.Idle?
      && u.rec ==
           (if ending.Stopped? then
              if !b.refused then Rec(m.proven, Total(m.proven), m.seen) else if b.retried then prefix else t.rec
            else if b.refused || (ending.Finished? && b.verdict.Delivered?) then t.rec
            else if ending.Broken? || b.verdict.WrongLength? then prefix
            else Rec([], 0, None))
      && u.disk == if ending.Finished? && b.verdict.WrongDigest? && b.verdict.removed then Truncated(t.disk, 0) else t.disk
  {
    CloseStep(s, a, t);
    CloseStep(t, b, u);
    OneRange(VerifiedPrefix(s.pc.m.proven));
    hide Step;
  }

  lemma OneRange(n: int)
    ensures Total([Range(0, n)]) == n
  {
    assert [Range(0, n)][1..] == [];
  }

  /** A sync that fails ends the attempt with nothing written down; giving up before any source answered
      ends the stream as stopped or as failed. */
  lemma FailedSyncEnds(s: State, a: Action, t: State)
    requires Step(s, a, t) && a.Sync? && !a.ok
    ensures t == s.(pc := Idle)
  {
    CloseStep(s, a, t);
    hide Step;
  }

  lemma GiveUpDecides(s: State, a: Action, t: State, b: Action, u: State)
    requires Step(s, a, t) && a.GiveUp? && Step(t, b, u) && !b.Crash?
    ensures s.pc.Fetching? && t.disk == s.disk && t.rec == s.rec && b.Sync?
    ensures t.pc == Closing(s.pc.m, if a.stopped then Stopped else Broken)
  {
    StepStands(s, a, t);
    StepStands(t, b, u);
    RequestStep(s, a, t);
    hide Step;
  }

  lemma PlanStep(s: State, a: Action, t: State)
    requires Step(s, a, t) && (a.MakePlan? || a.RecordPlan?)
    ensures Plans(s, a, t) || Declares(s, a, t)
  {
  }

  /** A plan cuts the file to what it keeps and is then written down, unless the store refuses it or the
      record counts as much already and the length was known; after that its first gap is asked for, or
      there is none and the stream has ended. */
  lemma PlanDecides(s: State, a: Action, t: State, c: Action, u: State, b: Action, v: State)
    requires Step(s, a, t) && a.MakePlan? && Step(t, c, u) && c.RecordPlan? && Step(u, b, v) && !b.Crash?
    ensures 0 <= a.plan.trim && t.disk == Truncated(s.disk, a.plan.trim) && t.rec == s.rec && u.disk == t.disk
    ensures u.rec ==
      if c.refused || (s.rec.done == Total(a.plan.have) && !c.declared) then s.rec
      else Rec(a.plan.have, Total(a.plan.have), if a.plan.have == [] then None else s.rec.version)
    ensures if a.plan.gaps == [] then b.Sync? && u.pc.ending == Finished
            else Asks(b) && u.pc.m.gap == a.plan.gaps[0] && u.pc.m.rest == a.plan.gaps[1..] && !u.pc.m.restarted
    ensures !u.pc.Idle? && u.pc.m.proven == a.plan.have && u.pc.m.seen == if a.plan.have == [] then None else s.rec.version
  {
    StepStands(t, c, u);
    StepStands(u, b, v);
    PlanStep(s, a, t);
    PlanStep(t, c, u);
    hide Step, Truncated, Honest;
  }
}
