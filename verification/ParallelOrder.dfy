/** What each step of a transfer over several connections leaves behind, in the file and in the record:
    every step of the machine of ParallelTransfer, by what it is. */
module ParallelOrder {
  import opened ParallelTransfer
  import opened RangePlan
  import opened Ranges
  import opened ResumePlan

  lemma WorkerStep(j: Job, s: State, a: Action, t: State)
    requires Step(j, s, a, t) && (a.Take? || a.Byte? || a.Land? || a.NextSource? || a.Finish? || a.Fail?)
    ensures Takes(s, a, t) || Writes(s, a, t) || Lands(s, a, t) || Switches(s, a, t) || Finishes(s, a, t) || Fails(s, a, t)
  {
  }

  /** What a worker does with its range. It takes the first one still planned; writes the next byte, never
      past the end; says how far it has landed, which never goes back; and, when a source has failed it, is
      asked from there by the next one as long as that is inside the range. Nothing is synced or recorded,
      and no other worker is touched. */
  lemma WorkerSays(j: Job, s: State, a: Action, t: State)
    requires Step(j, s, a, t) && (a.Take? || a.Byte? || a.Land? || a.NextSource? || a.Finish? || a.Fail?)
    ensures s.phase.Going? && t.phase.Going? && t.rec == s.rec && a.i < |s.phase.p.workers| == |t.phase.p.workers|
    ensures forall k :: 0 <= k < |s.phase.p.workers| && k != a.i ==> t.phase.p.workers[k] == s.phase.p.workers[k]
    ensures !a.Byte? ==> t.disk == s.disk
    ensures var p, q, w, x := s.phase.p, t.phase.p, s.phase.p.workers[a.i], t.phase.p.workers[a.i];
      && (a.Take? ==>
            w.Free? && p.todo != [] && q.todo == p.todo[1..]
            && x == Fetching(p.todo[0], p.todo[0].start, p.todo[0].start, p.todo[0].start))
      && (a.Byte? ==>
            w.Fetching? && w.at < w.range.end && x == w.(at := w.at + 1)
            && t.disk.written == s.disk.written + {w.at} && t.disk.synced == s.disk.synced)
      && (a.Land? ==>
            w.Fetching? && x == w.(reached := if w.at > w.reached then w.at else w.reached)
            && q.landed.Keys == p.landed.Keys + {w.range.start}
            && (forall k :: k in p.landed && k != w.range.start ==> q.landed[k] == p.landed[k])
            && q.landed[w.range.start] ==
                 if w.range.start in p.landed && p.landed[w.range.start] > w.at then p.landed[w.range.start] else w.at)
      && (a.NextSource? ==>
            w.Fetching? && x.Fetching? && x.range == w.range && x.reached == w.reached && x.at == x.from
            && x.from == if w.from < w.reached && w.reached < w.range.end then w.reached else w.from)
      && (a.Finish? ==> w.Fetching? && w.at == w.range.end && x == Fetched(w.range))
      && (a.Fail? ==> x.Failed?)
      && (!a.Take? ==> q.todo == p.todo) && (!a.Land? ==> q.landed == p.landed)
      && q.have == p.have && q.timer == p.timer
  {
    WorkerStep(j, s, a, t);
    hide Step;
  }

  lemma RangeStep(j: Job, s: State, a: Action, t: State)
    requires Step(j, s, a, t) && (a.SyncRange? || a.Prove?)
    ensures SyncsRange(s, a, t) || Proves(s, a, t)
  {
  }

  /** A range that has arrived is synced, and then the proven set is that and what it was, written down
      unless the store refuses, which is the end of the worker. */
  lemma RangeIsProven(j: Job, s: State, a: Action, t: State)
    requires Step(j, s, a, t) && (a.SyncRange? || a.Prove?)
    ensures s.phase.Going? && t.phase.Going? && a.i < |s.phase.p.workers| == |t.phase.p.workers|
    ensures a.SyncRange? ==>
      && t.rec == s.rec && t.disk.synced == s.disk.written == t.disk.written && t.phase.p.have == s.phase.p.have
      && s.phase.p.workers[a.i].Fetched? && t.phase.p.workers[a.i] == Synced(s.phase.p.workers[a.i].range)
    ensures a.Prove? ==>
      && s.phase.p.workers[a.i].Synced? && t.disk == s.disk
      && var r, have := s.phase.p.workers[a.i].range, t.phase.p.have;
      && (forall x :: Covers(have, x) <==> Covers(s.phase.p.have, x) || r.start <= x < r.end)
      && t.phase.p.workers[a.i] == (if a.refused then Failed else Free)
      && t.rec == (if a.refused then s.rec else Rec(have, Total(have)))
      && r.start !in t.phase.p.landed && forall k :: k in s.phase.p.landed && k != r.start ==>
           k in t.phase.p.landed && t.phase.p.landed[k] == s.phase.p.landed[k]
  {
    RangeStep(j, s, a, t);
    hide Step;
  }

  lemma TimerStep(j: Job, s: State, a: Action, t: State)
    requires Step(j, s, a, t) && (a.Choose? || a.SyncParts? || a.SyncFails? || a.KeepLanded?)
    ensures Chooses(s, a, t) || SyncsParts(s, a, t) || SyncsFail(s, a, t) || KeepsLanded(s, a, t)
  {
  }

  /** A tick of the timer chooses all that has landed and nothing else, syncs the file, and then proves just
      what was chosen besides what was proven; nothing is written where that is no more than was counted. */
  lemma TickSays(j: Job, s: State, a: Action, t: State)
    requires Step(j, s, a, t) && (a.Choose? || a.SyncParts? || a.SyncFails? || a.KeepLanded?)
    ensures s.phase.Going? && t.phase.Going? && t.phase.p.workers == s.phase.p.workers && t.phase.p.landed == s.phase.p.landed
    ensures var p, q := s.phase.p, t.phase.p;
      && (!a.SyncParts? ==> t.disk == s.disk) && (!a.KeepLanded? ==> t.rec == s.rec && q.have == p.have)
      && (a.Choose? ==> q.timer.Chosen? && forall k, m :: Range(k, m) in q.timer.parts <==> k in p.landed && p.landed[k] == m && k < m)
      && (a.SyncParts? ==> p.timer.Chosen? && q.timer == Timer.Ready(p.timer.parts) && t.disk.synced == s.disk.written == t.disk.written)
      && (a.SyncFails? ==> q.timer.Waiting?)
      && (a.KeepLanded? ==>
            && p.timer.Ready? && q.timer.Waiting?
            && (Total(q.have) != Total(p.have) ==>
                  t.rec == (if a.refused then s.rec else Rec(q.have, Total(q.have)))
                  && forall x :: Covers(q.have, x) <==> Covers(p.have, x) || Covers(p.timer.parts, x))
            && (Total(q.have) == Total(p.have) ==> q.have == p.have && t.rec == s.rec))
  {
    TimerStep(j, s, a, t);
    hide Step, Covers, Total;
  }

  lemma EndStep(j: Job, s: State, a: Action, t: State)
    requires Step(j, s, a, t) && (a.End? || a.KeepCount? || a.Mismatch?)
    ensures Ends(s, a, t) || KeepsCount(s, a, t) || Mismatches(s, a, t)
  {
  }

  /** The run ends without error only when every range was fed and no worker failed, and then the file is
      synced; a failed one leaves the count of its proven bytes as a prefix, where that is more than is
      counted; and wrong bytes leave nothing proven, and no file, as far as each can be done. */
  lemma EndSays(j: Job, s: State, a: Action, t: State)
    requires Step(j, s, a, t) && (a.End? || a.KeepCount? || a.Mismatch?)
    ensures a.End? ==>
      && s.phase.Going? && t.rec == s.rec && t.phase == Ended(s.phase.p.have, a.ok)
      && (a.ok ==> s.phase.p.todo == [] && t.disk.synced == s.disk.written == t.disk.written
                   && forall i :: 0 <= i < |s.phase.p.workers| ==> s.phase.p.workers[i].Free?)
      && (!a.ok ==> t.disk == s.disk)
    ensures a.KeepCount? ==>
      && s.phase.Ended? && t.disk == s.disk
      && var n := Total(s.phase.have);
      t.rec == if !a.refused && !s.phase.ok && n > 0 && s.rec.done < n then Rec([Range(0, n)], n) else s.rec
    ensures a.Mismatch? ==>
      && s.phase.Ended? && s.phase.ok
      && t.disk == (if a.removed then Truncated(s.disk, 0) else s.disk)
      && t.rec == if a.refused then s.rec else Rec([], 0)
  {
    EndStep(j, s, a, t);
    hide Step, Total;
  }
}
