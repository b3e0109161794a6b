/** Who may be offered a job: the tier registry, the claims a tier's own behaviour refuted
    (go/tiers.go), and the eligibility tests of go/delegator.go that read them. */
module Tiers {
  import opened Options

  type Capability = string

  const RESUME: Capability := "resume"
  const RECOVERABLE: Capability := "abstraction.download/recoverable-submission@1"

  datatype Tier = Tier(name: string, priority: int)

  /** A built delegate. `declines` is its own answer about the job at hand. */
  datatype Delegate = Delegate(
    system: string,
    schemes: seq<string>,
    capabilities: seq<Capability>,
    locator: bool,
    declines: bool)

  datatype Why = Caught | NeedsLocator | Lacks(missing: seq<Capability>) | Declined

  datatype Refusal = Refusal(system: string, why: Why)

  ghost predicate Sorted(tiers: seq<Tier>) {
    forall i, j :: 0 <= i < j < |tiers| ==> tiers[i].priority <= tiers[j].priority
  }

  ghost predicate DistinctNames(tiers: seq<Tier>) {
    forall i, j :: 0 <= i < j < |tiers| ==> tiers[i].name != tiers[j].name
  }

  /** The first tier stands before the second one. */
  ghost predicate Before(tiers: seq<Tier>, x: Tier, y: Tier) {
    exists i, j :: 0 <= i < j < |tiers| && tiers[i] == x && tiers[j] == y
  }

  /** A tier put where a stable sort by priority leaves one appended last. */
  function Insert(tiers: seq<Tier>, t: Tier): (out: seq<Tier>)
    ensures forall x :: x in out <==> x in tiers || x == t
  {
    if tiers == [] then [t]
    else if t.priority < tiers[0].priority then [t] + tiers
    else
      assert tiers == [tiers[0]] + tiers[1..];
      [tiers[0]] + Insert(tiers[1..], t)
  }

  class Registry {
    var tiers: seq<Tier>
    var disbelieved: map<string, set<Capability>>

    constructor ()
      ensures tiers == [] && disbelieved == map[]
    {
      tiers := [];
      disbelieved := map[];
    }

    ghost predicate Doubts(system: string, c: Capability)
      reads this
    {
      system in disbelieved && c in disbelieved[system]
    }

    /** Records that a tier claimed c and did the opposite. */
    method Disbelieve(system: string, c: Capability)
      modifies this`disbelieved
      ensures forall s, d :: Doubts(s, d) <==> old(Doubts(s, d)) || (s == system && d == c)
    {
      var known := if system in disbelieved then disbelieved[system] else {};
      disbelieved := disbelieved[system := known + {c}];
    }

    method Disbelieves(system: string, c: Capability) returns (doubted: bool)
      ensures doubted <==> Doubts(system, c)
    {
      doubted := system in disbelieved && c in disbelieved[system];
    }

    /** Removes a tier by name. This is the one thing that clears a refuted claim. */
    method UnregisterTier(name: string) returns (there: bool)
      modifies this
      ensures there <==> exists t :: t in old(tiers) && t.name == name
      ensures forall s, d :: Doubts(s, d) <==> old(Doubts(s, d)) && s != name
      ensures old(DistinctNames(tiers)) ==> DistinctNames(tiers)
      ensures old(DistinctNames(tiers)) ==> forall t :: t in tiers <==> t in old(tiers) && t.name != name
    {
      disbelieved := disbelieved - {name};
      var i := 0;
      while i < |tiers|
        invariant 0 <= i <= |tiers| && tiers == old(tiers)
        invariant forall j :: 0 <= j < i ==> tiers[j].name != name
        invariant disbelieved == old(disbelieved) - {name}
      {
        if tiers[i].name == name {
          assert old(tiers)[i] in old(tiers);
          assert old(tiers) == old(tiers)[..i] + [old(tiers)[i]] + old(tiers)[i + 1..];
          tiers := tiers[..i] + tiers[i + 1..];
          return true;
        }
        i := i + 1;
      }
      return false;
    }

    /** What a delegate claims, less what it has been caught not doing. */
    method Believed(x: Delegate) returns (out: seq<Capability>)
      ensures forall c :: c in out <==> c in x.capabilities && !Doubts(x.system, c)
    {
      out := [];
      for i := 0 to |x.capabilities|
        invariant forall c :: c in out <==> c in x.capabilities[..i] && !Doubts(x.system, c)
      {
        var doubted := Disbelieves(x.system, x.capabilities[i]);
        if !doubted { out := out + [x.capabilities[i]]; }
      }
    }

    ghost predicate Suits(x: Delegate, scheme: string, required: seq<Capability>)
      reads this
    {
      && scheme in x.schemes
      && (forall w :: w in required ==> w in x.capabilities && !Doubts(x.system, w))
      && (RECOVERABLE in required ==> x.locator)
    }

    ghost predicate Eligible(x: Delegate, scheme: string, required: seq<Capability>)
      reads this
    {
      Suits(x, scheme, required) && !x.declines
    }

    /** Eligible, and able to resume where there is something to resume. */
    ghost predicate Fits(x: Delegate, scheme: string, required: seq<Capability>, prefix: int)
      reads this
    {
      && Eligible(x, scheme, required)
      && (prefix > 0 ==> RESUME in x.capabilities && !Doubts(x.system, RESUME))
    }

    ghost predicate FirstEligible(chain: seq<Delegate>, i: int, scheme: string, required: seq<Capability>)
      reads this
    {
      && 0 <= i < |chain| && Eligible(chain[i], scheme, required)
      && forall j :: 0 <= j < i ==> !Eligible(chain[j], scheme, required)
    }

    /** The delegates that serve the scheme and were passed over, in chain order. */
    ghost function PassedOver(chain: seq<Delegate>, scheme: string, required: seq<Capability>): seq<Delegate>
      reads this
    {
      if chain == [] then []
      else
        var init, x := chain[..|chain| - 1], chain[|chain| - 1];
        PassedOver(init, scheme, required) + if scheme in x.schemes && !Eligible(x, scheme, required) then [x] else []
    }

    /** The first reason there is: a refuted claim, then a missing Locator, then what it lacks. */
    ghost predicate Explains(r: Refusal, x: Delegate, required: seq<Capability>)
      reads this
    {
      var caught := exists w :: w in required && Doubts(x.system, w);
      var unlocated := RECOVERABLE in required && !x.locator;
      var lacking := exists w :: w in required && w !in x.capabilities;
      && r.system == x.system
      && match r.why
         case Caught => caught
         case NeedsLocator => !caught && unlocated
         case Lacks(missing) =>
           !caught && !unlocated && lacking && forall w :: w in missing <==> w in required && w !in x.capabilities
         case Declined => !caught && !unlocated && !lacking && x.declines
    }

    method Suitable(x: Delegate, scheme: string, required: seq<Capability>) returns (ok: bool)
      ensures ok <==> Suits(x, scheme, required)
    {
      var caps := Believed(x);
      var have := HasAll(caps, required);
      ok := scheme in x.schemes && have && (RECOVERABLE in required ==> x.locator);
    }

    /** The first delegate of the chain that suits the job and does not decline it. */
    method ForSpec(chain: seq<Delegate>, scheme: string, required: seq<Capability>) returns (found: Option<Delegate>)
      ensures found.Some? ==> exists i :: FirstEligible(chain, i, scheme, required) && chain[i] == found.value
      ensures found.None? ==> forall x :: x in chain ==> !Eligible(x, scheme, required)
    {
      for i := 0 to |chain|
        invariant forall j :: 0 <= j < i ==> !Eligible(chain[j], scheme, required)
      {
        var ok := Suitable(chain[i], scheme, required);
        if ok && !chain[i].declines {
          assert FirstEligible(chain, i, scheme, required);
          return Some(chain[i]);
        }
      }
      return None;
    }

    method Refuted(x: Delegate, required: seq<Capability>) returns (caught: bool)
      ensures caught <==> exists w :: w in required && Doubts(x.system, w)
    {
      for i := 0 to |required|
        invariant forall j :: 0 <= j < i ==> !Doubts(x.system, required[j])
      {
        var doubted := Disbelieves(x.system, required[i]);
        if doubted {
          assert required[i] in required;
          return true;
        }
      }
      return false;
    }

    /** Why each delegate that serves the scheme did not get the job: exactly the ones ForSpec
        passes over are named, in chain order, each with the first reason that holds of it. */
    method WhyNot(chain: seq<Delegate>, scheme: string, required: seq<Capability>) returns (out: seq<Refusal>)
      ensures |out| == |PassedOver(chain, scheme, required)|
      ensures forall k :: 0 <= k < |out| ==> Explains(out[k], PassedOver(chain, scheme, required)[k], required)
    {
      hide PassedOver, Explains;
      NobodyPassed(scheme, required);
      out := [];
      for i := 0 to |chain|
        invariant |out| == |PassedOver(chain[..i], scheme, required)|
        invariant forall k :: 0 <= k < |out| ==> Explains(out[k], PassedOver(chain[..i], scheme, required)[k], required)
      {
        var x := chain[i];
        OneMore(chain, i, scheme, required);
        if scheme !in x.schemes { continue; }
        var caught := Refuted(x, required);
        var ok := Suitable(x, scheme, required);
        if caught {
          out := out + [Refusal(x.system, Caught)];
        } else if RECOVERABLE in required && !x.locator {
          out := out + [Refusal(x.system, NeedsLocator)];
        } else if !ok {
          var caps := Believed(x);
          var missing := Unmet(caps, required);
          out := out + [Refusal(x.system, Lacks(missing))];
        } else if x.declines {
          out := out + [Refusal(x.system, Declined)];
        }
        if !Eligible(x, scheme, required) { Explained(out[|out| - 1], x, scheme, required); }
      }
      assert chain[..|chain|] == chain;
    }

    lemma NobodyPassed(scheme: string, required: seq<Capability>)
      ensures PassedOver([], scheme, required) == []
    {
    }

    lemma OneMore(chain: seq<Delegate>, i: nat, scheme: string, required: seq<Capability>)
      requires i < |chain|
      ensures PassedOver(chain[..i + 1], scheme, required) == PassedOver(chain[..i], scheme, required)
        + if scheme in chain[i].schemes && !Eligible(chain[i], scheme, required) then [chain[i]] else []
    {
      assert chain[..i + 1][..i] == chain[..i];
    }

    /** The reason that is given is the first one there is. */
    lemma Explained(r: Refusal, x: Delegate, scheme: string, required: seq<Capability>)
      requires r.system == x.system && scheme in x.schemes && !Eligible(x, scheme, required)
      requires var caught := exists w :: w in required && Doubts(x.system, w);
        if caught then r.why.Caught?
        else if RECOVERABLE in required && !x.locator then r.why.NeedsLocator?
        else if !Suits(x, scheme, required) then
          r.why.Lacks? && forall w :: w in r.why.missing <==> w in required && !(w in x.capabilities && !Doubts(x.system, w))
        else r.why.Declined?
      ensures Explains(r, x, required)
    {
    }

    /** The delegate Delegate would hand one source of a job to: the first of the chain that is
        eligible, where proven bytes make resuming a requirement and nothing else does. */
    method Choose(chain: seq<Delegate>, scheme: string, required: seq<Capability>, prefix: int)
      returns (found: Option<Delegate>)
      ensures found.Some? ==> exists i ::
        && 0 <= i < |chain| && chain[i] == found.value && Fits(chain[i], scheme, required, prefix)
        && forall j :: 0 <= j < i ==> !Fits(chain[j], scheme, required, prefix)
      ensures found.None? ==> forall x :: x in chain ==> !Fits(x, scheme, required, prefix)
    {
      var needs := if prefix > 0 then required + [RESUME] else required;
      found := ForSpec(chain, scheme, needs);
      forall x: Delegate ensures Fits(x, scheme, required, prefix) <==> Eligible(x, scheme, needs) {
        NeedsResume(x, scheme, required);
      }
    }

    /** To require resuming besides is to ask for one more capability. */
    lemma NeedsResume(x: Delegate, scheme: string, required: seq<Capability>)
      ensures Eligible(x, scheme, required + [RESUME]) <==>
        Eligible(x, scheme, required) && RESUME in x.capabilities && !Doubts(x.system, RESUME)
    {
      assert forall w :: w in required + [RESUME] <==> w in required || w == RESUME;
      assert RESUME in required + [RESUME];
    }

    /** A poll that reports progress strictly between nothing and the prefix it was handed. */
    method Observe(system: string, prefix: int, done: int) returns (caught: bool)
      modifies this`disbelieved
      ensures caught <==> 0 < done < prefix
      ensures forall s, d :: Doubts(s, d) <==> old(Doubts(s, d)) || (caught && s == system && d == RESUME)
    {
      caught := done > 0 && done < prefix;
      if caught { Disbelieve(system, RESUME); }
    }

    /** Registers a tier, in the place of one of the same name if there is one, and sorts. */
    method RegisterTier(t: Tier)
      requires Sorted(tiers) && DistinctNames(tiers)
      modifies this`tiers
      ensures Sorted(tiers) && DistinctNames(tiers)
      ensures forall x :: x in tiers <==> x == t || (x in old(tiers) && x.name != t.name)
      ensures forall x, y :: Before(old(tiers), x, y) && x.name != t.name && y.name != t.name ==> Before(tiers, x, y)
      ensures forall x :: x in old(tiers) && x.name != t.name && x.priority == t.priority ==>
        if exists y: Tier :: y.name == t.name && Before(old(tiers), y, x) then Before(tiers, t, x) else Before(tiers, x, t)
    {
      for i := 0 to |tiers|
        invariant tiers == old(tiers)
        invariant forall j :: 0 <= j < i ==> tiers[j].name != t.name
      {
        if tiers[i].name == t.name {
          var replaced := tiers[i := t];
          ReplacedNames(tiers, i, t);
          SortKeeps(replaced);
          tiers := StableSort(replaced);
          SortStable(replaced);
          ReplacedOrder(old(tiers), i, t);
          return;
        }
      }
      SortKeeps(tiers + [t]);
      tiers := StableSort(tiers + [t]);
      SortStable(old(tiers) + [t]);
      AppendedOrder(old(tiers), t);
    }
  }

  lemma ReplacedNames(tiers: seq<Tier>, i: nat, t: Tier)
    requires DistinctNames(tiers) && i < |tiers| && tiers[i].name == t.name
    ensures DistinctNames(tiers[i := t])
    ensures forall x :: x in tiers[i := t] <==> x == t || (x in tiers && x.name != t.name)
  {
    var out := tiers[i := t];
    assert out[i] == t;
    forall x | x in tiers && x.name != t.name ensures x in out {
      var k :| 0 <= k < |tiers| && tiers[k] == x;
      assert out[k] == x;
    }
  }

  /** What a replaced list says of who stood before whom. */
  lemma ReplacedOrder(tiers: seq<Tier>, i: nat, t: Tier)
    requires DistinctNames(tiers) && i < |tiers| && tiers[i].name == t.name
    ensures forall x, y :: Before(tiers, x, y) && x.name != t.name && y.name != t.name ==> Before(tiers[i := t], x, y)
    ensures forall x :: x in tiers && x.name != t.name ==>
      if exists y: Tier :: y.name == t.name && Before(tiers, y, x) then Before(tiers[i := t], t, x)
      else Before(tiers[i := t], x, t)
  {
    var out := tiers[i := t];
    forall x, y | Before(tiers, x, y) && x.name != t.name && y.name != t.name ensures Before(out, x, y) {
      var j, k :| 0 <= j < k < |tiers| && tiers[j] == x && tiers[k] == y;
      assert out[j] == x && out[k] == y;
    }
    forall x | x in tiers && x.name != t.name
      ensures if exists y: Tier :: y.name == t.name && Before(tiers, y, x) then Before(out, t, x) else Before(out, x, t)
    {
      var k :| 0 <= k < |tiers| && tiers[k] == x;
      assert out[k] == x && out[i] == t;
      if i < k { assert Before(tiers, tiers[i], x); }
    }
  }

  lemma AppendedOrder(tiers: seq<Tier>, t: Tier)
    requires forall x :: x in tiers ==> x.name != t.name
    ensures forall x, y :: Before(tiers, x, y) ==> Before(tiers + [t], x, y)
    ensures forall x :: x in tiers ==> Before(tiers + [t], x, t) && !exists y: Tier :: y.name == t.name && Before(tiers, y, x)
  {
    var out := tiers + [t];
    forall x, y | Before(tiers, x, y) ensures Before(out, x, y) {
      var j, k :| 0 <= j < k < |tiers| && tiers[j] == x && tiers[k] == y;
      assert out[j] == x && out[k] == y;
    }
    forall x | x in tiers ensures Before(out, x, t) {
      var k :| 0 <= k < |tiers| && tiers[k] == x;
      assert out[k] == x && out[|tiers|] == t;
    }
  }

  /** Each tier in turn put after those of its own priority: a stable sort. */
  function StableSort(tiers: seq<Tier>): seq<Tier> {
    if tiers == [] then [] else Insert(StableSort(tiers[..|tiers| - 1]), tiers[|tiers| - 1])
  }

  lemma {:induction false} SortKeeps(tiers: seq<Tier>)
    requires DistinctNames(tiers)
    ensures Sorted(StableSort(tiers)) && DistinctNames(StableSort(tiers))
    ensures forall x :: x in StableSort(tiers) <==> x in tiers
  {
    if tiers != [] {
      var init, last := tiers[..|tiers| - 1], tiers[|tiers| - 1];
      assert tiers == init + [last];
      SortKeeps(init);
      InsertKeeps(StableSort(init), last);
    }
  }

  /** One put at k, between those of no higher priority number and the rest. */
  function Put(tiers: seq<Tier>, k: nat, t: Tier): (out: seq<Tier>)
    requires k <= |tiers|
    ensures |out| == |tiers| + 1
    ensures forall i :: 0 <= i < |out| ==> out[i] == if i < k then tiers[i] else if i == k then t else tiers[i - 1]
  {
    tiers[..k] + [t] + tiers[k..]
  }

  lemma InsertKeeps(tiers: seq<Tier>, t: Tier)
    requires Sorted(tiers) && DistinctNames(tiers) && forall x :: x in tiers ==> x.name != t.name
    ensures Sorted(Insert(tiers, t)) && DistinctNames(Insert(tiers, t))
  {
    var k := InsertedAt(tiers, t);
    hide Insert, Put;
    var out := Put(tiers, k, t);
    forall i, j | 0 <= i < j < |out| ensures out[i].priority <= out[j].priority && out[i].name != out[j].name {
      assert i != k ==> tiers[if i < k then i else i - 1] in tiers;
      assert j != k ==> tiers[if j < k then j else j - 1] in tiers;
    }
  }

  lemma {:induction false} InsertedAt(tiers: seq<Tier>, t: Tier) returns (k: nat)
    requires Sorted(tiers)
    ensures k <= |tiers| && Insert(tiers, t) == Put(tiers, k, t)
    ensures forall j :: 0 <= j < |tiers| ==> (j < k <==> tiers[j].priority <= t.priority)
  {
    if tiers == [] || t.priority < tiers[0].priority {
      k := 0;
      assert Put(tiers, 0, t) == [t] + tiers;
    } else {
      var rest := tiers[1..];
      var m := InsertedAt(rest, t);
      k := m + 1;
      assert forall j :: 0 < j < |tiers| ==> tiers[j] == rest[j - 1];
      assert Put(tiers, k, t) == [tiers[0]] + Put(rest, m, t);
    }
  }

  /** The sort is stable: who stood before another of no lower priority number still does. */
  lemma {:induction false} SortStable(tiers: seq<Tier>)
    requires DistinctNames(tiers)
    ensures forall x, y :: Before(tiers, x, y) && x.priority <= y.priority ==> Before(StableSort(tiers), x, y)
  {
    hide Before, Sorted, DistinctNames, StableSort, Insert;
    forall x, y | Before(tiers, x, y) && x.priority <= y.priority ensures Before(StableSort(tiers), x, y) {
      PairStable(tiers, x, y);
    }
  }

  lemma {:induction false} PairStable(tiers: seq<Tier>, x: Tier, y: Tier)
    requires DistinctNames(tiers) && Before(tiers, x, y) && x.priority <= y.priority
    ensures Before(StableSort(tiers), x, y)
  {
    hide Insert, Sorted;
    var init, last := tiers[..|tiers| - 1], tiers[|tiers| - 1];
    SortKeeps(init);
    var k := InsertedAt(StableSort(init), last);
    InsertedOrder(StableSort(init), last, k, x, y);
    var i, j :| 0 <= i < j < |tiers| && tiers[i] == x && tiers[j] == y;
    assert init[i] == x;
    if j < |tiers| - 1 {
      assert init[j] == y && Before(init, x, y);
      PairStable(init, x, y);
    }
  }

  lemma InsertedOrder(tiers: seq<Tier>, t: Tier, k: nat, x: Tier, y: Tier)
    requires k <= |tiers| && forall j :: 0 <= j < |tiers| ==> (j < k <==> tiers[j].priority <= t.priority)
    ensures Before(tiers, x, y) ==> Before(Put(tiers, k, t), x, y)
    ensures x in tiers && x.priority <= t.priority ==> Before(Put(tiers, k, t), x, t)
  {
    var out := Put(tiers, k, t);
    if Before(tiers, x, y) {
      var i, j :| 0 <= i < j < |tiers| && tiers[i] == x && tiers[j] == y;
      assert out[if i < k then i else i + 1] == x && out[if j < k then j else j + 1] == y;
    }
    if x in tiers && x.priority <= t.priority {
      var i :| 0 <= i < |tiers| && tiers[i] == x;
      assert out[i] == x && out[k] == t;
    }
  }

  method HasAll(caps: seq<Capability>, required: seq<Capability>) returns (ok: bool)
    ensures ok <==> forall w :: w in required ==> w in caps
  {
    for i := 0 to |required|
      invariant forall j :: 0 <= j < i ==> required[j] in caps
    {
      if required[i] !in caps { return false; }
    }
    return true;
  }

  method Unmet(caps: seq<Capability>, required: seq<Capability>) returns (out: seq<Capability>)
    ensures forall w :: w in out <==> w in required && w !in caps
  {
    out := [];
    for i := 0 to |required|
      invariant forall w :: w in out <==> w in required[..i] && w !in caps
    {
      if required[i] !in caps { out := out + [required[i]]; }
    }
  }

  // ---- Over every later sequence of sweeps and rebinds --------------------------------------

  /** What one process does between two offers, in any order. */
  datatype Event =
    | Polled(system: string, prefix: int, done: int)
    | Rebound(chain: seq<Delegate>)
    | Registered(tier: Tier)
    | Unregistered(name: string)

  datatype Memory = Memory(chain: seq<Delegate>, doubts: set<(string, Capability)>)

  function Next(m: Memory, e: Event): Memory {
    match e
    case Polled(system, prefix, done) =>
      if 0 < done < prefix then m.(doubts := m.doubts + {(system, RESUME)}) else m
    case Rebound(chain) => m.(chain := chain)
    case Registered(_) => m
    case Unregistered(name) => m.(doubts := set d | d in m.doubts && d.0 != name)
  }

  function After(m: Memory, es: seq<Event>): Memory
    decreases |es|
  {
    if es == [] then m else After(Next(m, es[0]), es[1..])
  }

  /** The delegates a job with these needs may go to, from this memory. */
  predicate MayGet(m: Memory, x: Delegate, scheme: string, required: seq<Capability>, prefix: int) {
    && scheme in x.schemes && !x.declines
    && (forall w :: w in required ==> w in x.capabilities && (x.system, w) !in m.doubts)
    && ("abstraction.download/recoverable-submission@1" in required ==> x.locator)
    && (prefix > 0 ==> "resume" in x.capabilities && (x.system, "resume") !in m.doubts)
  }

  lemma {:induction false} DoubtLasts(m: Memory, es: seq<Event>, system: string)
    requires (system, RESUME) in m.doubts && Unregistered(system) !in es
    ensures (system, RESUME) in After(m, es).doubts
    decreases |es|
  {
    if es != [] { DoubtLasts(Next(m, es[0]), es[1..], system); }
  }

  /** A caught delegate is never again offered a job with proven bytes, whatever is polled, bound
      or registered afterwards, until its tier is unregistered. */
  lemma CaughtForGood(m: Memory, es: seq<Event>, system: string, prefix: int, done: int,
                      x: Delegate, scheme: string, required: seq<Capability>, offered: int)
    requires 0 < done < prefix && Unregistered(system) !in es
    requires x.system == system && offered > 0
    ensures !MayGet(After(Next(m, Polled(system, prefix, done)), es), x, scheme, required, offered)
  {
    DoubtLasts(Next(m, Polled(system, prefix, done)), es, system);
  }

  /** The memory of a registry, which its methods keep in step with `Next`. */
  ghost predicate Remembers(r: Registry, m: Memory)
    reads r
  {
    forall s, c :: r.Doubts(s, c) <==> (s, c) in m.doubts
  }

  method Replay(r: Registry, m: Memory, e: Event) returns (next: Memory)
    requires Remembers(r, m) && Sorted(r.tiers) && DistinctNames(r.tiers)
    modifies r
    ensures next == Next(m, e) && Remembers(r, next)
  {
    next := Next(m, e);
    match e
    case Polled(system, prefix, done) => var _ := r.Observe(system, prefix, done);
    case Rebound(_) =>
    case Registered(t) => r.RegisterTier(t);
    case Unregistered(name) => var _ := r.UnregisterTier(name);
  }

  /** The registry offers the job to the first of the bound delegates the memory allows, and to
      nobody only where the memory allows none of them. */
  method Offered(r: Registry, m: Memory, scheme: string, required: seq<Capability>, prefix: int)
    returns (found: Option<Delegate>)
    requires Remembers(r, m)
    ensures found.Some? ==> exists i ::
      && 0 <= i < |m.chain| && m.chain[i] == found.value && MayGet(m, m.chain[i], scheme, required, prefix)
      && forall j :: 0 <= j < i ==> !MayGet(m, m.chain[j], scheme, required, prefix)
    ensures found.None? ==> forall x :: x in m.chain ==> !MayGet(m, x, scheme, required, prefix)
  {
    found := r.Choose(m.chain, scheme, required, prefix);
    assert forall x: Delegate :: r.Fits(x, scheme, required, prefix) <==> MayGet(m, x, scheme, required, prefix);
  }
}
