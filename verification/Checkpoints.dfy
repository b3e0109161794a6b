/** How a checkpoint is put into a job record and read back (go/ranges.go, CheckpointOf in
    go/spec.go): a set one integer can describe is written as that integer with the `ranges`
    feature withdrawn, and only a set with a hole spends the range list and declares it. */
module Checkpoints {
  import opened Options
  import opened Ranges
  import opened ResumePlan

  datatype Wire<+V> =
    | PrefixOnly(prefix: int, validators: V)
    | WithRanges(prefix: int, ranges: seq<Range>, validators: V)

  const FEATURE: string := "ranges"

  /** What CheckpointOf makes of the stored form. */
  function Read<V>(w: Wire<V>): Checkpoint<V> {
    match w
    case PrefixOnly(n, v) => Checkpoint(n, WholePrefix(n), v)
    case WithRanges(n, rs, v) => Checkpoint(n, rs, v)
  }

  /** A record's other content names, in order. */
  function Others(content: seq<string>): seq<string> {
    if content == [] then []
    else if content[0] == FEATURE then Others(content[1..])
    else [content[0]] + Others(content[1..])
  }

  lemma {:induction false} OthersConcat(a: seq<string>, b: seq<string>)
    ensures Others(a + b) == Others(a) + Others(b)
  {
    if a == [] {
      assert a + b == b;
    } else {
      OthersConcat(a[1..], b);
      assert (a + b)[1..] == a[1..] + b;
    }
  }

  lemma {:induction false} OthersLacksFeature(content: seq<string>)
    ensures FEATURE !in Others(content)
    ensures FEATURE !in content ==> Others(content) == content
  {
    if content != [] { OthersLacksFeature(content[1..]); }
    assert content != [] ==> content == [content[0]] + content[1..];
  }

  class Record<V(==)> {
    var checkpoint: Wire<V>
    var content: seq<string>

    constructor (none: V)
      ensures checkpoint == PrefixOnly(0, none) && content == []
    {
      checkpoint := PrefixOnly(0, none);
      content := [];
    }

    /** Writes a checkpoint; reading it back yields the canonical set, its own leading run and
        the validators, and the record declares ranges exactly when there is a hole to declare. */
    method SetCheckpoint(cp: Checkpoint<V>) returns (ok: bool)
      modifies this
      ensures ok <==> Proven(cp).Some?
      ensures !ok ==> unchanged(this)
      ensures ok ==> Read(checkpoint) == Checkpoint(VerifiedPrefix(Proven(cp).value), Proven(cp).value, cp.validators)
      ensures ok ==> ("ranges" in content <==> !PrefixShaped(Proven(cp).value))
      ensures ok ==> (checkpoint.PrefixOnly? <==> PrefixShaped(Proven(cp).value))
      ensures Others(content) == Others(old(content))
    {
      var proven := Proven(cp);
      if proven.None? { return false; }
      var rs := proven.value;
      if PrefixShaped(rs) {
        checkpoint := PrefixOnly(VerifiedPrefix(rs), cp.validators);
        assert rs != [] ==> rs == [Range(0, rs[0].end)];
        WithdrawRanges();
        OthersLacksFeature(content);
        return true;
      }
      checkpoint := WithRanges(VerifiedPrefix(rs), rs, cp.validators);
      if FEATURE !in content {
        OthersConcat(content, [FEATURE]);
        content := content + [FEATURE];
      }
      return true;
    }

    method WithdrawRanges()
      modifies this`content
      ensures content == Others(old(content))
      ensures FEATURE !in content
    {
      OthersLacksFeature(content);
      if FEATURE !in content { return; }
      var names := content;
      var kept := [];
      for i := 0 to |names|
        invariant kept == Others(names[..i])
      {
        OthersConcat(names[..i], [names[i]]);
        assert names[..i + 1] == names[..i] + [names[i]];
        if names[i] != FEATURE { kept := kept + [names[i]]; }
      }
      assert names == names[..|names|];
      content := kept;
    }
  }
}
