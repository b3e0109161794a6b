/** Another job service as a delegate (go/serve/remote_delegation.go). */
module RemoteDelegate {
  import opened Options
  import opened Text
  import opened JsonRecords

  // The request it is sent, the handle it is known by, and whether it keeps what `Locator` promises
  // in go/delegator.go: that the empty answer is certain.
  //
  // The service decides on a submission once. An identity is a key under a history epoch;
  // reconciling one that was never accepted seals it, so that it never will be. A submission whose
  // reply is lost may have been decided, may still be on its way, or may never arrive.

  datatype Identity = Identity(epoch: string, key: string)

  // ---- Handles ----------------------------------------------------------------------------------

  function HandleOf(id: Identity): string { id.epoch + "/" + id.key }

  function ParseHandle(external: string): Option<Identity> {
    match Cut(external, '/')
    case None => None
    case Some(p) => if p.0 == "" || p.1 == "" || '/' in p.1 then None else Some(Identity(p.0, p.1))
  }

  /** A handle is understood again exactly when neither part is empty or has a slash in it. */
  lemma HandleReadsBack(id: Identity)
    ensures ParseHandle(HandleOf(id)) == Some(id) <==>
      id.epoch != "" && id.key != "" && '/' !in id.epoch && '/' !in id.key
  {
    if '/' !in id.epoch { CutAt(id.epoch, '/', id.key); }
  }

  // ---- The request ------------------------------------------------------------------------------

  /** A prepared source: its address, the credential it names, and any headers the caller gave. */
  datatype Prepared = Prepared(scheme: string, locator: string, credential: string, headers: nat)

  datatype Needs = Reconciliation | Credentials

  method RemoteRequest(artifact: Artifact, sources: seq<Prepared>) returns (r: Option<(Request, seq<Needs>)>)
    ensures r.Some? <==> forall i :: 0 <= i < |sources| ==> sources[i].headers == 0
    ensures r.Some? ==>
      && var (request, needs) := r.value;
      && request.artifact == artifact && request.constraints.None? && |request.sources| == |sources|
      && (forall i :: 0 <= i < |sources| ==>
            request.sources[i] == Source(sources[i].scheme, sources[i].locator, sources[i].credential))
      && Reconciliation in needs
      && (Credentials in needs <==> exists i :: 0 <= i < |sources| && sources[i].credential != "")
  {
    var out: seq<Source> := [];
    var named := false;
    for i := 0 to |sources|
      invariant |out| == i && forall k :: 0 <= k < i ==>
        sources[k].headers == 0 && out[k] == Source(sources[k].scheme, sources[k].locator, sources[k].credential)
      invariant named <==> exists k :: 0 <= k < i && sources[k].credential != ""
    {
      if sources[i].headers != 0 { return None; }
      named := named || sources[i].credential != "";
      out := out + [Source(sources[i].scheme, sources[i].locator, sources[i].credential)];
    }
    return Some((Request(artifact, out, None), if named then [Reconciliation, Credentials] else [Reconciliation]));
  }

  // ---- The service ------------------------------------------------------------------------------

  datatype Refusal = CredentialRefused(name: string, outcome: string) | Unavailable | Terminal

  /** What admission says to a submission it has not decided yet. */
  datatype Verdict = Takes | Declines(why: Refusal)

  datatype Service = Service(epoch: string, accepted: set<Identity>, sealed: set<Identity>, inflight: set<Identity>)

  function Decided(s: Service, id: Identity, v: Verdict): Service {
    if id in s.accepted || id in s.sealed || v.Declines? then s else s.(accepted := s.accepted + {id})
  }

  function Verdictor(s: Service, id: Identity, v: Verdict): Option<Refusal> {
    if id in s.accepted then None
    else if id in s.sealed then Some(Terminal)
    else match v case Takes => None case Declines(why) => Some(why)
  }

  function Reconciled(s: Service, id: Identity): Service {
    if id in s.accepted then s else s.(sealed := s.sealed + {id})
  }

  // ---- The delegate -----------------------------------------------------------------------------

  /** What becomes of a submission: answered; decided with no usable answer; on its way still;
      never sent or lost on the way. */
  datatype Fate = Answered | Unanswered | Underway | Gone

  datatype Started = NotSent | StartedAs(handle: string) | Refused(why: Refusal) | Uncertain

  datatype Found = Holds(handle: string) | CertainlyNot | CannotTell

  datatype StartResult = StartResult(service: Service, refused: map<string, Refusal>, reply: Started)

  /** Start, for a request that could be put into words or not. */
  function Start(s: Service, refused: map<string, Refusal>, key: string, worded: bool, window: bool, v: Verdict, fate: Fate):
    StartResult
  {
    var id := Identity(s.epoch, key);
    if key == "" || !worded || !window then StartResult(s, refused, NotSent)
    else
      match fate
      case Gone => StartResult(s, refused, Uncertain)
      case Underway => StartResult(s.(inflight := s.inflight + {id}), refused, Uncertain)
      case Unanswered => StartResult(Decided(s, id, v), refused, Uncertain)
      case Answered =>
        match Verdictor(s, id, v)
        case None => StartResult(Decided(s, id, v), refused - {key}, StartedAs(HandleOf(id)))
        case Some(why) => StartResult(Decided(s, id, v), refused[key := why], Refused(why))
  }

  datatype LocateResult = LocateResult(service: Service, found: Found)

  /** Locate. A recorded refusal is taken for certainty without asking. */
  function Locate(s: Service, refused: map<string, Refusal>, key: string, window: bool, fate: Fate): LocateResult {
    var id := Identity(s.epoch, key);
    if key in refused then LocateResult(s, CertainlyNot)
    else if !window || fate.Gone? || fate.Underway? then LocateResult(s, CannotTell)
    else
      LocateResult(Reconciled(s, id),
                   if fate.Unanswered? then CannotTell
                   else if id in s.accepted then Holds(HandleOf(id)) else CertainlyNot)
  }

  /** The delegate as the object it is: the refusals one process remembers. */
  class RemoteJob {
    var refused: map<string, Refusal>

    constructor ()
      ensures refused == map[]
    {
      refused := map[];
    }

    method StartJob(s: Service, key: string, artifact: Artifact, sources: seq<Prepared>, window: bool, v: Verdict,
                    fate: Fate)
      returns (reply: Started, after: Service)
      modifies this
      ensures var sendable := forall i :: 0 <= i < |sources| ==> sources[i].headers == 0;
        StartResult(after, refused, reply) == Start(s, old(refused), key, sendable, window, v, fate)
    {
      if key == "" { return NotSent, s; }
      var request := RemoteRequest(artifact, sources);
      if request.None? || !window { return NotSent, s; }
      var id := Identity(s.epoch, key);
      match fate
      case Gone => return Uncertain, s;
      case Underway => return Uncertain, s.(inflight := s.inflight + {id});
      case Unanswered => return Uncertain, Decided(s, id, v);
      case Answered =>
        after := Decided(s, id, v);
        match Verdictor(s, id, v) {
          case None =>
            refused := refused - {key};
            reply := StartedAs(HandleOf(id));
          case Some(why) =>
            refused := refused[key := why];
            reply := Refused(why);
        }
    }

    method LocateJob(s: Service, key: string, window: bool, fate: Fate) returns (found: Found, after: Service)
      ensures LocateResult(after, found) == Locate(s, refused, key, window, fate)
    {
      if key in refused { return CertainlyNot, s; }
      if !window { return CannotTell, s; }
      var id := Identity(s.epoch, key);
      if fate.Gone? || fate.Underway? { return CannotTell, s; }
      after := Reconciled(s, id);
      if fate.Unanswered? { return CannotTell, after; }
      found := if id in s.accepted then Holds(HandleOf(id)) else CertainlyNot;
    }
  }

  // ---- Runs -------------------------------------------------------------------------------------

  /** The service, what this process remembers of refusals, and what its owner was told: the
      identities whose acceptance was reported, and those submitted with no answer since. */
  datatype World = World(service: Service, refused: map<string, Refusal>, told: set<Identity>, open: set<Identity>)

  datatype Event =
    | Starts(key: string, worded: bool, window: bool, v: Verdict, fate: Fate)
    | Asks(key: string, window: bool, fate: Fate)
    | Arrives(id: Identity, v: Verdict)
    | Vanishes(id: Identity)
    | Restart
    | NewHistory(epoch: string)

  function Fresh(epoch: string): World { World(Service(epoch, {}, {}, {}), map[], {}, {}) }

  function Next(w: World, e: Event): World {
    var s := w.service;
    match e
    case Starts(key, worded, window, v, fate) =>
      var r := Start(s, w.refused, key, worded, window, v, fate);
      var id := Identity(s.epoch, key);
      World(r.service, r.refused,
            if r.reply.StartedAs? then w.told + {id} else w.told,
            if r.reply.Uncertain? then w.open + {id} else w.open)
    case Asks(key, window, fate) =>
      var r := Locate(s, w.refused, key, window, fate);
      var id := Identity(s.epoch, key);
      World(r.service, w.refused,
            if r.found.Holds? then w.told + {id} else w.told,
            if key !in w.refused && !r.found.CannotTell? then w.open - {id} else w.open)
    case Arrives(id, v) =>
      if id in s.inflight then w.(service := Decided(s.(inflight := s.inflight - {id}), id, v)) else w
    case Vanishes(id) => w.(service := s.(inflight := s.inflight - {id}))
    case Restart => w.(refused := map[])
    case NewHistory(epoch) => w.(service := s.(epoch := epoch))
  }

  function After(w: World, es: seq<Event>): World
    decreases |es|
  {
    if es == [] then w else After(Next(w, es[0]), es[1..])
  }

  /** A submission of the request was accepted, or may yet be. */
  ghost predicate Outstanding(s: Service, id: Identity) { id in s.accepted || (id in s.inflight && id !in s.sealed) }

  ghost predicate NeverTaken(s: Service, key: string) {
    forall id: Identity :: id.key == key ==> !Outstanding(s, id)
  }

  /** Everything outstanding is something the owner was told of or had no answer about. */
  ghost predicate Accounted(w: World) {
    && w.service.accepted !! w.service.sealed
    && forall id: Identity :: Outstanding(w.service, id) ==> id in w.told + w.open
  }

  lemma NextAccounted(w: World, e: Event)
    requires Accounted(w)
    ensures Accounted(Next(w, e))
  {
    var t := Next(w, e);
    forall id: Identity | Outstanding(t.service, id) ensures id in t.told + t.open {
      assert Outstanding(w.service, id) ==> id in w.told + w.open;
    }
  }

  lemma {:induction false} RunAccounted(w: World, es: seq<Event>)
    requires Accounted(w)
    ensures Accounted(After(w, es))
    decreases |es|
  {
    if es != [] {
      NextAccounted(w, es[0]);
      RunAccounted(Next(w, es[0]), es[1..]);
    }
  }

  // ---- Whether the empty answer is certain --------------------------------------------------------

  /** What the owner can see before asking: no acceptance it heard of and no submission it had no
      answer about that the delegate's own memory, or the epoch it asks under, would pass over. */
  predicate Askable(w: World, key: string) {
    forall id :: id in w.told + w.open && id.key == key ==> key !in w.refused && id.epoch == w.service.epoch
  }

  /** In every run the delegate's definite answers are true and final whenever they are asked for
      askably: the empty answer means that no submission of the request was or will be accepted,
      and a handle is that of the one identity that was. */
  lemma DefiniteIsTrue(epoch: string, es: seq<Event>, key: string, window: bool, fate: Fate)
    requires Askable(After(Fresh(epoch), es), key)
    ensures var w := After(Fresh(epoch), es); var r := Locate(w.service, w.refused, key, window, fate);
      && (r.found.CertainlyNot? ==> NeverTaken(r.service, key))
      && (r.found.Holds? ==>
            var id := Identity(w.service.epoch, key);
            && r.found.handle == HandleOf(id) && id in r.service.accepted
            && forall other: Identity :: other.key == key && Outstanding(r.service, other) ==> other == id)
  {
    RunAccounted(Fresh(epoch), es);
    var w := After(Fresh(epoch), es);
    var r := Locate(w.service, w.refused, key, window, fate);
    forall id: Identity | id.key == key && Outstanding(r.service, id)
      ensures id in w.told + w.open && id == Identity(w.service.epoch, key)
    {
      assert Outstanding(w.service, id);
    }
  }

  /** Once true, it stays true of everything but a new Start of the same request. */
  lemma {:induction false} StaysUntaken(w: World, es: seq<Event>, key: string)
    requires NeverTaken(w.service, key)
    requires forall i :: 0 <= i < |es| ==> !(es[i].Starts? && es[i].key == key)
    ensures NeverTaken(After(w, es).service, key)
    decreases |es|
  {
    if es != [] {
      var t := Next(w, es[0]);
      forall id: Identity | id.key == key ensures !Outstanding(t.service, id) {
        assert !Outstanding(w.service, id);
      }
      StaysUntaken(t, es[1..], key);
    }
  }

  /** The contract fails where a refusal is remembered: one more Start of the request without an
      answer, and Locate still says the work was never taken. It can be wrong exactly when the
      service could still accept the identity, that is, when it never sealed it. */
  lemma StaleRefusalLiesExactly(w: World, key: string)
    requires key in w.refused && key != "" && NeverTaken(w.service, key)
    ensures Identity(w.service.epoch, key) !in w.service.sealed <==>
      exists v, fate :: StaleLie(w, key, v, fate)
  {
    var id := Identity(w.service.epoch, key);
    if id !in w.service.sealed {
      assert Outstanding(Next(w, Starts(key, true, true, Takes, Unanswered)).service, id);
      assert StaleLie(w, key, Takes, Unanswered);
    } else {
      forall v, fate ensures !StaleLie(w, key, v, fate) {
        var t := Next(w, Starts(key, true, true, v, fate));
        forall other: Identity | other.key == key ensures !Outstanding(t.service, other) {
          assert !Outstanding(w.service, other);
        }
      }
    }
  }

  /** After a Start that ended so, the delegate is certain of what is not so. */
  ghost predicate StaleLie(w: World, key: string, v: Verdict, fate: Fate) {
    var t := Next(w, Starts(key, true, true, v, fate));
    && Start(w.service, w.refused, key, true, true, v, fate).reply.Uncertain?
    && Locate(t.service, t.refused, key, true, Answered).found.CertainlyNot?
    && !NeverTaken(t.service, key)
  }

  /** And where the history moved on: the identity is looked for under the new epoch only. */
  lemma MovedHistoryLiesExactly(w: World, key: string)
    requires key !in w.refused && Accounted(w)
    ensures var r := Locate(w.service, w.refused, key, true, Answered);
      r.found.CertainlyNot? && !NeverTaken(r.service, key) <==>
        && Identity(w.service.epoch, key) !in w.service.accepted
        && exists id: Identity :: id.key == key && id.epoch != w.service.epoch && Outstanding(w.service, id)
  {
    var r := Locate(w.service, w.refused, key, true, Answered);
    var here := Identity(w.service.epoch, key);
    if here !in w.service.accepted {
      assert r.found.CertainlyNot? && !Outstanding(r.service, here);
      forall id: Identity | id != here ensures Outstanding(r.service, id) <==> Outstanding(w.service, id) {
      }
    }
  }

  /** The shortest run to it: refused while the service was unavailable, then taken with the reply
      lost, and the answer is that it never was. */
  lemma RefusedThenTaken(epoch: string, key: string)
    requires key != ""
    ensures var one := Starts(key, true, true, Declines(Unavailable), Answered);
      exists v, fate :: StaleLie(After(Fresh(epoch), [one]), key, v, fate)
    ensures var w := After(Fresh(epoch), [Starts(key, true, true, Declines(Unavailable), Answered),
                                          Starts(key, true, true, Takes, Unanswered)]);
      && Locate(w.service, w.refused, key, true, Answered).found.CertainlyNot?
      && Identity(epoch, key) in w.service.accepted
  {
    var one, two := Starts(key, true, true, Declines(Unavailable), Answered), Starts(key, true, true, Takes, Unanswered);
    assert [one, two][1..] == [two] && [two][1..] == [] && [one][1..] == [];
    var w := Next(Fresh(epoch), one);
    assert After(Fresh(epoch), [one]) == After(w, []) == w;
    StaleRefusalLiesExactly(w, key);
    assert After(w, [two]) == After(Next(w, two), []) == Next(w, two);
    assert After(Fresh(epoch), [one, two]) == After(w, [two]);
  }

  /** The other one: taken with the reply lost, and then the history moves on. */
  lemma TakenThenMoved(epoch: string, next: string, key: string)
    requires key != "" && next != epoch
    ensures var w := After(Fresh(epoch), [Starts(key, true, true, Takes, Unanswered), NewHistory(next)]);
      && Locate(w.service, w.refused, key, true, Answered).found.CertainlyNot?
      && Identity(epoch, key) in w.service.accepted
  {
    var one, two := Starts(key, true, true, Takes, Unanswered), NewHistory(next);
    assert [one, two][1..] == [two] && [two][1..] == [];
    var w := Next(Next(Fresh(epoch), one), two);
    assert After(Fresh(epoch), [one, two]) == After(Next(Fresh(epoch), one), [two]) == After(w, []);
    RunAccounted(Fresh(epoch), [one, two]);
    assert Outstanding(w.service, Identity(epoch, key));
    MovedHistoryLiesExactly(w, key);
  }

  // ---- What the owner can tell ------------------------------------------------------------------

  /** All of a world that the owner and its delegate know; the rest is the service's own. */
  datatype View = View(epoch: string, refused: map<string, Refusal>, told: set<Identity>, open: set<Identity>)

  function ViewOf(w: World): View { View(w.service.epoch, w.refused, w.told, w.open) }

  /** The service's answer is true and final. */
  ghost predicate Right(w: World, key: string) {
    var r, id := Locate(w.service, w.refused, key, true, Answered), Identity(w.service.epoch, key);
    && (r.found.CertainlyNot? ==> NeverTaken(r.service, key))
    && (r.found.Holds? ==>
          && r.found.handle == HandleOf(id) && id in r.service.accepted
          && forall other: Identity :: other.key == key && Outstanding(r.service, other) ==> other == id)
  }

  /** Over all runs the owner cannot tell from the one it is in, the answer is right exactly when
      it is asked for askably. */
  lemma AskableExactly(epoch: string, es: seq<Event>, key: string)
    ensures var w := After(Fresh(epoch), es);
      Askable(w, key) <==>
        forall e, fs :: ViewOf(After(Fresh(e), fs)) == ViewOf(w) ==> Right(After(Fresh(e), fs), key)
  {
    var w := After(Fresh(epoch), es);
    forall e, fs | Askable(w, key) && ViewOf(After(Fresh(e), fs)) == ViewOf(w) ensures Right(After(Fresh(e), fs), key) {
      DefiniteIsTrue(e, fs, key, true, Answered);
    }
    if !Askable(w, key) {
      RunNamed(Fresh(epoch), es);
      var fs := Reached(ViewOf(w));
      assert ViewOf(After(Fresh(""), fs)) == ViewOf(w);
      assert !Right(After(Fresh(""), fs), key);
    }
  }

  /** No request without a name gets anywhere. */
  ghost predicate Named(w: World) {
    && "" !in w.refused
    && forall id: Identity :: id in w.told + w.open + w.service.accepted + w.service.inflight ==> id.key != ""
  }

  lemma {:induction false} RunNamed(w: World, es: seq<Event>)
    requires Named(w)
    ensures Named(After(w, es))
    decreases |es|
  {
    if es != [] {
      assert Named(Next(w, es[0]));
      RunNamed(Next(w, es[0]), es[1..]);
    }
  }

  lemma {:induction false} RunsOn(w: World, a: seq<Event>, b: seq<Event>)
    ensures After(w, a + b) == After(After(w, a), b)
    decreases |a|
  {
    if a == [] {
      assert a + b == b;
    } else {
      assert (a + b)[1..] == a[1..] + b;
      RunsOn(Next(w, a[0]), a[1..], b);
    }
  }

  /** One Start under an epoch of its own. */
  lemma StartUnder(w: World, epoch: string, key: string, v: Verdict, fate: Fate) returns (es: seq<Event>)
    ensures After(w, es) == Next(w.(service := w.service.(epoch := epoch)), Starts(key, true, true, v, fate))
  {
    var one, two := NewHistory(epoch), Starts(key, true, true, v, fate);
    es := [one, two];
    assert es[1..] == [two] && [two][1..] == [];
    assert After(w, es) == After(Next(w, one), [two]) == After(Next(Next(w, one), two), []);
  }

  /** The worlds built here differ in nothing but the epoch the history is at. */
  predicate Same(w: World, v: World) { w == v.(service := v.service.(epoch := w.service.epoch)) }

  lemma {:induction false} AcceptAll(w: World, ids: set<Identity>) returns (es: seq<Event>)
    requires w.service.sealed == {} && w.refused == map[] && forall id :: id in ids ==> id.key != ""
    ensures Same(After(w, es), w.(told := w.told + ids, service := w.service.(accepted := w.service.accepted + ids)))
    decreases |ids|
  {
    if ids == {} {
      es := [];
      assert w.told + ids == w.told && w.service.accepted + ids == w.service.accepted;
    } else {
      var id :| id in ids;
      var a := AcceptAll(w, ids - {id});
      var u := After(w, a);
      var b := StartUnder(u, id.epoch, id.key, Takes, Answered);
      RunsOn(w, a, b);
      es := a + b;
      assert ids == (ids - {id}) + {id};
      assert u.refused - {id.key} == u.refused;
    }
  }

  lemma {:induction false} SubmitAll(w: World, ids: set<Identity>) returns (es: seq<Event>)
    requires forall id :: id in ids ==> id.key != ""
    ensures Same(After(w, es), w.(open := w.open + ids, service := w.service.(inflight := w.service.inflight + ids)))
    decreases |ids|
  {
    if ids == {} {
      es := [];
      assert w.open + ids == w.open && w.service.inflight + ids == w.service.inflight;
    } else {
      var id :| id in ids;
      var a := SubmitAll(w, ids - {id});
      var b := StartUnder(After(w, a), id.epoch, id.key, Takes, Underway);
      RunsOn(w, a, b);
      es := a + b;
      assert ids == (ids - {id}) + {id};
    }
  }

  function Only(m: map<string, Refusal>, keys: set<string>): map<string, Refusal>
    requires keys <= m.Keys
  {
    map k | k in keys :: m[k]
  }

  lemma {:induction false} RefuseAll(w: World, m: map<string, Refusal>, keys: set<string>, epoch: string)
    returns (es: seq<Event>)
    requires keys <= m.Keys && "" !in keys && w.refused == map[] && w.service.sealed == {}
    requires forall id :: id in w.service.accepted ==> id.epoch != epoch
    ensures Same(After(w, es), w.(refused := Only(m, keys)))
    decreases |keys|
  {
    if keys == {} {
      es := [];
      assert Only(m, keys) == map[];
    } else {
      var k :| k in keys;
      var a := RefuseAll(w, m, keys - {k}, epoch);
      var b := StartUnder(After(w, a), epoch, k, Declines(m[k]), Answered);
      RunsOn(w, a, b);
      es := a + b;
      assert Only(m, keys) == Only(m, keys - {k})[k := m[k]];
    }
  }

  lemma {:induction false} UnusedEpoch(ids: set<Identity>) returns (epoch: string)
    ensures forall id :: id in ids ==> |id.epoch| < |epoch|
    decreases |ids|
  {
    if ids == {} {
      epoch := "";
    } else {
      var id :| id in ids;
      var e := UnusedEpoch(ids - {id});
      epoch := e + id.epoch + "0";
      assert forall x :: x in ids ==> x == id || x in ids - {id};
    }
  }

  /** A run to a world of any view, in which everything the owner heard of or had no answer about
      is outstanding. */
  lemma Reached(v: View) returns (es: seq<Event>)
    requires "" !in v.refused && forall id: Identity :: id in v.told + v.open ==> id.key != ""
    ensures After(Fresh(""), es) == World(Service(v.epoch, v.told, {}, v.open), v.refused, v.told, v.open)
  {
    var w := Fresh("");
    var a := AcceptAll(w, v.told);
    var w1 := After(w, a);
    var epoch := UnusedEpoch(v.told);
    var b := RefuseAll(w1, v.refused, v.refused.Keys, epoch);
    RunsOn(w, a, b);
    var w2 := After(w1, b);
    assert Only(v.refused, v.refused.Keys) == v.refused;
    var c := SubmitAll(w2, v.open);
    RunsOn(w, a + b, c);
    var w3 := After(w2, c);
    var d := [NewHistory(v.epoch)];
    assert After(w3, d) == After(Next(w3, d[0]), []);
    RunsOn(w, a + b + c, d);
    es := a + b + c + d;
  }

  // ---- Taking delivery ----------------------------------------------------------------------------

  /** A reply to a result read: a chunk at an offset, or anything else. */
  datatype ResultRead = Chunk(offset: nat, data: string, eof: bool) | NoData

  /** The service answers a read at an offset with the result's own bytes there, and says it is the
      end exactly when it is. */
  predicate Honest(result: string, at: nat, r: ResultRead) {
    r.Chunk? && r.offset == at ==>
      && at + |r.data| <= |result| && r.data == result[at..at + |r.data|]
      && (r.eof <==> at + |r.data| == |result|)
  }

  /** Where the reader stands when it has taken the first n replies. */
  function Taken(replies: seq<ResultRead>, n: nat): nat
    requires n <= |replies|
  {
    if n == 0 then 0
    else Taken(replies, n - 1) + (if replies[n - 1].Chunk? then |replies[n - 1].data| else 0)
  }

  ghost predicate AllHonest(result: string, replies: seq<ResultRead>) {
    forall i :: 0 <= i < |replies| ==> Honest(result, Taken(replies, i), replies[i])
  }

  /** The first k replies and the next one are chunks, each where the one before left off, and none but
      the last of them ends the result. */
  ghost predicate Ends(replies: seq<ResultRead>, k: int) {
    && 0 <= k < |replies| && replies[k].Chunk? && replies[k].eof
    && (forall i :: 0 <= i <= k ==> replies[i].Chunk? && replies[i].offset == Taken(replies, i))
    && forall i :: 0 <= i < k ==> !replies[i].eof
  }

  lemma ChunkExtends(result: string, file: string, r: ResultRead)
    requires |file| <= |result| && file == result[..|file|] && r.Chunk? && r.offset == |file| && Honest(result, |file|, r)
    ensures var more := file + r.data; |more| <= |result| && more == result[..|more|] && (r.eof ==> more == result)
  {
    assert result[..|file| + |r.data|] == result[..|file|] + result[|file|..|file| + |r.data|];
  }

  /** Each of the first k replies a chunk where the one before left off, and none of them the last. */
  ghost predicate GoesOn(replies: seq<ResultRead>, k: nat)
    requires k <= |replies|
  {
    forall i :: 0 <= i < k ==> replies[i].Chunk? && replies[i].offset == Taken(replies, i) && !replies[i].eof
  }

  lemma EndsNowhere(replies: seq<ResultRead>, k: nat)
    requires k <= |replies| && GoesOn(replies, k)
    requires k < |replies| ==> !replies[k].Chunk? || replies[k].offset != Taken(replies, k)
    ensures forall i :: !Ends(replies, i)
  {
    hide Taken;
  }

  lemma EndsHere(replies: seq<ResultRead>, k: nat)
    requires k < |replies| && GoesOn(replies, k)
    requires replies[k].Chunk? && replies[k].offset == Taken(replies, k) && replies[k].eof
    ensures Ends(replies, k)
  {
    hide Taken;
  }

  /** FinalizeReporting: chunks one after another into a file emptied first, until one is the last. */
  method Finalize(replies: seq<ResultRead>, ghost result: string) returns (ok: bool, file: string)
    ensures ok <==> exists k :: Ends(replies, k)
    ensures AllHonest(result, replies) ==> |file| <= |result| && file == result[..|file|] && (ok ==> file == result)
  {
    hide Honest, Ends, GoesOn, AllHonest;
    file := "";
    var offset := 0;
    ghost var honest := AllHonest(result, replies);
    NothingRead(replies);
    for i := 0 to |replies|
      invariant offset == |file| == Taken(replies, i) && GoesOn(replies, i)
      invariant honest ==> |file| <= |result| && file == result[..offset]
    {
      var r := replies[i];
      if !r.Chunk? || r.offset != offset {
        EndsNowhere(replies, i);
        return false, file;
      }
      if honest { HonestAt(result, replies, i); ChunkExtends(result, file, r); }
      file := file + r.data;
      offset := offset + |r.data|;
      if r.eof {
        EndsHere(replies, i);
        return true, file;
      }
      OneMore(replies, i);
    }
    EndsNowhere(replies, |replies|);
    ok := false;
  }

  lemma NothingRead(replies: seq<ResultRead>)
    ensures GoesOn(replies, 0)
  {
  }

  lemma HonestAt(result: string, replies: seq<ResultRead>, i: nat)
    requires AllHonest(result, replies) && i < |replies|
    ensures Honest(result, Taken(replies, i), replies[i])
  {
  }

  lemma OneMore(replies: seq<ResultRead>, i: nat)
    requires i < |replies| && GoesOn(replies, i)
    requires replies[i].Chunk? && replies[i].offset == Taken(replies, i) && !replies[i].eof
    ensures GoesOn(replies, i + 1)
  {
    hide Taken;
  }
}
