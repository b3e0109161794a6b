/** From the last byte to the final path (go/runner.go, go/delegator.go, and sameDigest of go/spec.go).
    SHA-256 is any function from contents to text. A download that appends is hashed as it is
    written, any other is read back; either way the digest compared is that of the whole file. */
module Delivery {
  import opened Jobs
  import opened Numbers
  import opened Options
  import opened Ranges
  import opened ResumePlan
  import opened Text

  // ---- Comparing digests ----------------------------------------------------------------------------

  predicate HexDigit(c: char) { '0' <= c <= '9' || 'a' <= c <= 'f' }

  predicate Hex(s: string) { |s| == 64 && forall i :: 0 <= i < |s| ==> HexDigit(s[i]) }

  /** The hex of a digest whatever its label and case, or nothing. */
  function BareHex(d: string): string {
    var s := Without(Without(LowerCase(Trim(d)), "sha256:"), "sha256-");
    if Hex(s) then s else ""
  }

  predicate SameDigest(a: string, b: string) { BareHex(a) != "" && BareHex(a) == BareHex(b) }

  /** A digest this layer spells matches a wanted one exactly when the wanted one is that hex under
      some label. */
  lemma OwnSpelling(hex: string, want: string)
    requires Hex(hex)
    ensures SameDigest("sha256:" + hex, want) <==> BareHex(want) == hex
  {
    var d := "sha256:" + hex;
    assert !Blank(d[0]) && d[|d| - 1] == hex[63] && !Blank(d[|d| - 1]);
    TrimmedStays(d);
    assert forall i :: 0 <= i < |d| ==> Lower(d[i]) == d[i];
    assert LowerCase(d) == d;
    assert d[7..] == hex && "sha256:" <= d;
    assert hex[0] != 's' && !("sha256-" <= hex);
  }

  /** A digit's value is how a hash is spelled, in either case. */
  predicate Spells(s: string, v: seq<nat>) {
    && |s| == |v|
    && forall i :: 0 <= i < |s| ==> v[i] < 16 && (s[i] == "0123456789abcdef"[v[i]] || s[i] == "0123456789ABCDEF"[v[i]])
  }

  lemma DigitSpelled(c: char, v: nat)
    requires v < 16 && (c == "0123456789abcdef"[v] || c == "0123456789ABCDEF"[v])
    ensures Lower(c) == "0123456789abcdef"[v] && !Blank(c) && Lower(c) != 's'
    ensures '0' <= Lower(c) <= '9' || 'a' <= Lower(c) <= 'f'
  {
    if v < 8 { } else { }
  }

  /** Two spellings of digests match exactly when they spell the same hash: the label may be there,
      with either separator, and the case is free. */
  lemma SpellingsMatch(m: string, s: string, n: string, t: string, u: seq<nat>, v: seq<nat>)
    requires m in ["", "sha256:", "sha256-"] && n in ["", "sha256:", "sha256-"]
    requires Spells(s, u) && Spells(t, v) && |u| == |v| == 64
    ensures SameDigest(m + s, n + t) <==> u == v
  {
    BareSpelled(m, s, u);
    BareSpelled(n, t, v);
    forall i | 0 <= i < 64 ensures LowerCase(s)[i] == LowerCase(t)[i] <==> u[i] == v[i] {
      DigitSpelled(s[i], u[i]);
      DigitSpelled(t[i], v[i]);
      DigitsApart(u[i], v[i]);
    }
    if LowerCase(s) == LowerCase(t) {
      assert forall i :: 0 <= i < 64 ==> LowerCase(s)[i] == LowerCase(t)[i];
    }
  }

  lemma DigitsApart(a: nat, b: nat)
    requires a < 16 && b < 16
    ensures "0123456789abcdef"[a] == "0123456789abcdef"[b] <==> a == b
  {
    if a < 8 { } else { }
  }

  lemma BareSpelled(tag: string, s: string, v: seq<nat>)
    requires tag in ["", "sha256:", "sha256-"] && Spells(s, v) && |v| == 64
    ensures BareHex(tag + s) == LowerCase(s) != ""
  {
    hide Spells, Hex, Trim, Without;
    SpelledHex(s, v);
    Tagged(tag, s);
    LabelGone(tag, LowerCase(s));
  }

  lemma SpelledHex(s: string, v: seq<nat>)
    requires Spells(s, v) && |v| == 64
    ensures Hex(LowerCase(s)) && LowerCase(s)[0] != 's' && |s| == 64 && !Blank(s[0]) && !Blank(s[63])
  {
    forall i | 0 <= i < 64 ensures !Blank(s[i]) && Lower(s[i]) != 's' && HexDigit(Lower(s[i])) {
      DigitSpelled(s[i], v[i]);
    }
  }

  lemma Tagged(tag: string, s: string)
    requires tag in ["", "sha256:", "sha256-"] && |s| == 64 && !Blank(s[0]) && !Blank(s[63])
    ensures LowerCase(Trim(tag + s)) == tag + LowerCase(s)
  {
    var d := tag + s;
    assert d[|d| - 1] == s[63] && (tag == "" ==> d[0] == s[0]);
    TrimmedStays(d);
  }

  lemma LabelGone(tag: string, l: string)
    requires tag in ["", "sha256:", "sha256-"] && l != "" && l[0] != 's'
    ensures Without(Without(tag + l, "sha256:"), "sha256-") == l
  {
    assert (tag + l)[|tag|] == l[0];
  }

  /** Nothing else is a digest: what does not spell 64 digits, with no tag or blank, matches none. */
  lemma OtherTextMatchesNone(s: string, i: nat, d: string)
    requires Trimmed(s) && s != "" && s[0] != 's' && s[0] != 'S'
    requires |s| != 64 || (i < |s| && s[i] !in "0123456789abcdefABCDEF")
    ensures !SameDigest(s, d) && !SameDigest(d, s)
  {
    TrimmedStays(s);
    var l := LowerCase(s);
    assert l[0] == Lower(s[0]) != 's';
    LabelGone("", l);
    assert "" + l == l;
    if |s| == 64 {
      assert l[i] == Lower(s[i]);
      if HexDigit(l[i]) { DigitInEitherCase(s[i]); }
    }
  }

  lemma DigitInEitherCase(c: char)
    requires HexDigit(Lower(c))
    ensures c in "0123456789abcdefABCDEF"
  {
    var k := if c <= '9' then c as int - 48 else if c <= 'F' then c as int - 49 else c as int - 87;
    assert "0123456789abcdefABCDEF"[k] == c;
  }

  // ---- One stream, hashed as it is written ------------------------------------------------------------

  /** What one source does: whether it makes the stream begin again, what it sends, how much of the
      last chunk the file takes, and whether it ends well. */
  datatype Attempt = Attempt(restarts: bool, chunks: seq<string>, accepts: nat, ends: bool)

  /** Chunks in a row. */
  function Together(chunks: seq<string>): string {
    if chunks == [] then "" else Together(chunks[..|chunks| - 1]) + chunks[|chunks| - 1]
  }

  /** What the file takes of a source: every chunk, but of the last one only what it accepts. */
  function Lands(a: Attempt): string {
    if a.chunks == [] then ""
    else
      var last := a.chunks[|a.chunks| - 1];
      Together(a.chunks[..|a.chunks| - 1]) + last[..Min(a.accepts, |last|)]
  }

  /** The source ends well and the file took all it sent. */
  predicate Succeeds(a: Attempt) { a.ends && Lands(a) == Together(a.chunks) }

  lemma TogetherNext(chunks: seq<string>, i: nat)
    requires i < |chunks|
    ensures Together(chunks[..i + 1]) == Together(chunks[..i]) + chunks[i]
    ensures i + 1 == |chunks| ==> chunks[..i + 1] == chunks
  {
    assert chunks[..i + 1][..i] == chunks[..i];
  }

  lemma LandsLast(a: Attempt)
    ensures Together([]) == "" && (a.chunks == [] ==> Lands(a) == "")
    ensures a.chunks != [] ==>
      var i := |a.chunks| - 1;
      && Lands(a) == Together(a.chunks[..i]) + a.chunks[i][..Min(a.accepts, |a.chunks[i]|)]
      && (|a.chunks[i]| <= a.accepts ==> Lands(a) == Together(a.chunks))
  {
  }

  /** The file takes all that a source sends exactly when it takes the last chunk. */
  lemma SucceedsExactly(a: Attempt)
    ensures Succeeds(a) <==> a.ends && (a.chunks == [] || |a.chunks[|a.chunks| - 1]| <= a.accepts)
    ensures Lands(a) <= Together(a.chunks)
  {
    if a.chunks != [] {
      var last := a.chunks[|a.chunks| - 1];
      var n := Min(a.accepts, |last|);
      assert Together(a.chunks) == Together(a.chunks[..|a.chunks| - 1]) + last;
      assert last == last[..n] + last[n..];
    }
  }

  /** The first source that ends well or leaves something in the file. */
  ghost predicate Decides(sources: seq<Attempt>, k: int) {
    && 0 <= k < |sources| && (Succeeds(sources[k]) || Lands(sources[k]) != "")
    && forall j :: 0 <= j < k ==> !Succeeds(sources[j]) && Lands(sources[j]) == ""
  }

  /** What is left of the kept bytes once the first k sources were asked: a restart drops them. */
  ghost function Kept(kept: string, sources: seq<Attempt>, k: nat): string
    requires k <= |sources|
  {
    if exists j :: 0 <= j < k && sources[j].restarts then "" else kept
  }

  lemma KeptFirst(kept: string, sources: seq<Attempt>)
    ensures Kept(kept, sources, 0) == kept
  {
  }

  lemma KeptNext(kept: string, sources: seq<Attempt>, k: nat)
    requires k < |sources|
    ensures Kept(kept, sources, k + 1) == if sources[k].restarts then "" else Kept(kept, sources, k)
  {
  }

  /** Some source delivers: it succeeds, and every one before it left nothing in the file. */
  ghost predicate Delivers(sources: seq<Attempt>) {
    exists i :: 0 <= i < |sources| && Succeeds(sources[i]) && forall j :: 0 <= j < i ==> Lands(sources[j]) == ""
  }

  /** At most one source decides, and it tells whether one delivers. */
  lemma DecidesAll(sources: seq<Attempt>, k: nat)
    requires Decides(sources, k)
    ensures Delivers(sources) <==> Succeeds(sources[k])
    ensures forall j :: Decides(sources, j) ==> j == k
  {
    hide Succeeds, Lands;
  }

  lemma NoneDecides(sources: seq<Attempt>)
    requires forall j :: 0 <= j < |sources| ==> !Succeeds(sources[j]) && Lands(sources[j]) == ""
    ensures !Delivers(sources) && forall k :: !Decides(sources, k)
  {
    hide Succeeds, Lands;
  }

  /** p laid down at an offset, as writing through a handle does. */
  function Written(file: string, at: nat, p: string): string
    requires at <= |file|
  {
    if at + |p| <= |file| then file[..at] + p + file[at + |p|..] else file[..at] + p
  }

  class Stream {
    var file: string
    var at: nat
    var fed: string
    var from: nat

    /** The partial cut to what the plan keeps, and the hash fed with exactly that. */
    constructor (disk: string, plan: Plan<int>, proven: seq<Range>, size: int)
      requires Honest(plan, proven, File(|disk|), size) && plan.OneStream()
      ensures fed == file && from == |file| && at == |file|
      ensures file <= disk && |file| == VerifiedPrefix(plan.have) == plan.gaps[0].from
    {
      FromIsVerifiedPrefix(plan, proven, File(|disk|), size);
      CoversBelowReach(plan.have);
      assert plan.have != [] ==> Covers(plan.have, Reach(plan.have) - 1);
      file := disk[..plan.trim];
      at := plan.trim;
      from := plan.gaps[0].from;
      fed := "";
      new;
      HashPrefix(VerifiedPrefix(plan.have));
    }

    /** hashPrefix: the first n bytes of the file read into an empty hash. */
    method HashPrefix(n: nat)
      requires n <= |file| && fed == ""
      modifies this`fed
      ensures fed == file[..n]
    {
      var done := 0;
      while done < n
        invariant done <= n && fed == file[..done]
      {
        var step := if n - done < 0x10_0000 then n - done else 0x10_0000;
        fed := fed + file[done..done + step];
        done := done + step;
      }
    }

    method Restart()
      modifies this
      ensures file == "" && at == 0 && fed == "" && from == 0
    {
      file := "";
      at := 0;
      fed := "";
      from := 0;
    }

    /** One write through file and hash: the hash sees a chunk only when the file took all of it. */
    method Write(p: string, accepts: nat) returns (n: nat)
      requires at <= |file|
      modifies this`file, this`at, this`fed
      ensures n == (if accepts < |p| then accepts else |p|) && at == old(at) + n <= |file|
      ensures file == Written(old(file), old(at), p[..n])
      ensures old(at) == |old(file)| ==> file == old(file) + p[..n]
      ensures fed == if n == |p| then old(fed) + p else old(fed)
    {
      n := if accepts < |p| then accepts else |p|;
      file := Written(file, at, p[..n]);
      at := at + n;
      if n == |p| { fed := fed + p; }
    }

    /** One source, from where the last left off. */
    method Fetch(a: Attempt) returns (written: nat, ok: bool)
      requires fed == file && from == |file| && at == from
      modifies this
      ensures ok <==> Succeeds(a)
      ensures file == (if a.restarts then "" else old(file)) + Lands(a) && written == |Lands(a)|
      ensures from + written == |file|
      ensures ok || written == 0 ==> fed == file
    {
      hide Written, Lands, Together, Succeeds;
      LandsLast(a);
      SucceedsExactly(a);
      if a.restarts { Restart(); }
      ghost var base := file;
      written := 0;
      var i := 0;
      while i < |a.chunks|
        invariant 0 <= i <= |a.chunks| && fed == file && from + written == |file| == at
        invariant file == base + Together(a.chunks[..i]) && written == |Together(a.chunks[..i])|
        invariant 0 < i == |a.chunks| ==> |a.chunks[i - 1]| <= a.accepts
      {
        var p := a.chunks[i];
        TogetherNext(a.chunks, i);
        var n := Write(p, if i + 1 < |a.chunks| then |p| else a.accepts);
        assert n == |p| ==> p[..n] == p;
        written := written + n;
        if n < |p| { return written, false; }
        i := i + 1;
      }
      assert a.chunks[..i] == a.chunks;
      ok := a.ends;
    }

    /** The sources in order: the next one only when this one left nothing behind. The stream
        succeeds exactly when some source ends well, all it sent taken, and every one before it left
        nothing in the file. The file then holds the kept bytes, or none of them after a restart, and
        that source's. */
    method FetchAny(sources: seq<Attempt>) returns (ok: bool)
      requires fed == file && from == |file|
      modifies this
      ensures ok <==> Delivers(sources)
      ensures forall k :: Decides(sources, k) ==>
        (ok <==> Succeeds(sources[k])) && file == Kept(old(file), sources, k + 1) + Lands(sources[k])
      ensures (forall k :: !Decides(sources, k)) ==> file == Kept(old(file), sources, |sources|)
      ensures ok ==> fed == file
    {
      hide Succeeds, Lands, Kept, Delivers;
      assert Kept(file, sources, 0) == file by { KeptFirst(file, sources); }
      for i := 0 to |sources|
        invariant fed == file && from == |file| && file == Kept(old(file), sources, i)
        invariant forall j :: 0 <= j < i ==> !Succeeds(sources[j]) && Lands(sources[j]) == ""
      {
        at := from;
        KeptNext(old(file), sources, i);
        var written, done := Fetch(sources[i]);
        if done || written > 0 { DecidesAll(sources, i); }
        if done { return true; }
        if written > 0 { return false; }
      }
      NoneDecides(sources);
      return false;
    }
  }

  /** hashFile: the whole of a file, read a megabyte at a time. */
  method HashFile(file: string) returns (fed: string)
    ensures fed == file
  {
    fed := "";
    while |fed| < |file|
      invariant |fed| <= |file| && fed == file[..|fed|]
    {
      var step := if |file| - |fed| < 0x10_0000 then |file| - |fed| else 0x10_0000;
      fed := fed + file[|fed|..|fed| + step];
    }
    assert file[..|file|] == file;
  }

  // ---- The end of an attempt ----------------------------------------------------------------------------

  datatype Ended = Delivered | Short | Oversize | Mismatch | Undelivered | Unrecorded | SourcesFailed

  /** What the world does to the last steps: whether the partial can be removed and moved, and
      whether the store takes the writes. */
  datatype Luck = Luck(removes: bool, moves: bool, records: bool)

  class Job {
    const sha: string -> string
    const want: string
    const size: int
    var partial: Option<string>
    var final: Option<string>
    var state: JobState
    var claims: seq<Range>

    function Digest(contents: string): string { "sha256:" + sha(contents) }

    /** The claim a transferred record makes about the bytes at its final path. */
    ghost predicate Proven()
      reads this
    {
      state.Transferred? ==> final.Some? && (want != "" ==> SameDigest(Digest(final.value), want))
    }

    constructor (sha: string -> string, want: string, size: int)
      ensures Proven() && state == Running && partial == None && final == None && claims == []
      ensures this.sha == sha && this.want == want && this.size == size
    {
      this.sha := sha;
      this.want := want;
      this.size := size;
      partial := None;
      final := None;
      state := Running;
      claims := [];
    }

    /** keepProven: a prefix that is more than what is claimed so far is claimed instead. */
    method KeepProven(prefix: int, records: bool)
      modifies this`claims
      ensures claims == if records && prefix > 0 && Total(old(claims)) < prefix then [Range(0, prefix)] else old(claims)
    {
      if prefix <= 0 { return; }
      if records && Total(claims) < prefix { claims := [Range(0, prefix)]; }
    }

    predicate RightLength(total: int) { size > 0 ==> total == size }

    predicate RightDigest(contents: string) { want != "" ==> SameDigest(Digest(contents), want) }

    /** run, from the bytes on disk to the record: length, digest, move, record, in that order. */
    method Conclude(total: int, got: string, luck: Luck) returns (r: Ended)
      requires state == Running && partial.Some? && (want != "" ==> got == Digest(partial.value)) && 0 <= total
      modifies this`partial, this`final, this`state, this`claims
      ensures Proven() && (r.Delivered? <==> state.Transferred?) && (state.Transferred? || state.Running?)
      ensures r.Oversize? <==> 0 < size < total
      ensures r.Short? <==> total < size
      ensures r.Mismatch? <==> RightLength(total) && !RightDigest(old(partial.value))
      ensures r.Undelivered? <==> RightLength(total) && RightDigest(old(partial.value)) && !luck.moves
      ensures r.Unrecorded? <==>
        RightLength(total) && RightDigest(old(partial.value)) && luck.moves && !luck.records
      ensures !r.SourcesFailed?
      ensures if r.Delivered? || r.Unrecorded? then final == old(partial) && partial == None
              else final == old(final) && partial == if r.Mismatch? && luck.removes then None else old(partial)
      ensures r.Delivered? ==> Canonical(claims) && forall x :: Covers(claims, x) <==> 0 <= x < total
      ensures r.Mismatch? ==> claims == if luck.records then [] else old(claims)
      ensures r.Short? || r.Oversize? ==>
        claims == if luck.records && 0 < total && Total(old(claims)) < total then [Range(0, total)] else old(claims)
      ensures r.Undelivered? || r.Unrecorded? ==> claims == old(claims)
    {
      if size > 0 && total != size {
        KeepProven(total, luck.records);
        return if total > size then Oversize else Short;
      }
      if want != "" && !SameDigest(got, want) {
        if luck.removes { partial := None; }
        if luck.records { claims := []; }
        return Mismatch;
      }
      if !luck.moves { return Undelivered; }
      final, partial := partial, None;
      if !luck.records { return Unrecorded; }
      claims := WholePrefix(total);
      WholePrefixCovers(total);
      state := Transferred;
      return Delivered;
    }

    /** A one-stream plan: the digest is what the rolling hash came to. Where no source delivers,
        nothing is moved; where one does, what is judged, and what is delivered if it passes, is the
        kept bytes, or none of them after a restart, and that source's. */
    method RunOneStream(plan: Plan<int>, proven: seq<Range>, sources: seq<Attempt>, luck: Luck) returns (r: Ended)
      requires state == Running && Honest(plan, proven, File(|Disk()|), size) && plan.OneStream()
      modifies this`partial, this`final, this`state, this`claims
      ensures Proven() && (r.Delivered? <==> state.Transferred?)
      ensures r.SourcesFailed? <==> !Delivers(sources)
      ensures r.SourcesFailed? ==> final == old(final) && partial.Some?
      ensures forall kept, k :: kept <= old(Disk()) && |kept| == VerifiedPrefix(plan.have) && Decides(sources, k) ==>
        var all := Kept(kept, sources, k + 1) + Lands(sources[k]);
        && (r.SourcesFailed? ==> partial == Some(all))
        && (r.Delivered? <==>
              && Succeeds(sources[k]) && (size > 0 ==> |all| == size)
              && (want != "" ==> SameDigest("sha256:" + sha(all), want)) && luck.moves && luck.records)
        && (r.Delivered? ==> final == Some(all))
    {
      hide Succeeds, Lands, Kept, Honest, Proven;
      var stream := new Stream(Disk(), plan, proven, size);
      ghost var base := stream.file;
      var ok := stream.FetchAny(sources);
      partial := Some(stream.file);
      assert forall kept: string :: kept <= old(Disk()) && |kept| == VerifiedPrefix(plan.have) ==> kept == base;
      forall k | Decides(sources, k) ensures Delivers(sources) <==> Succeeds(sources[k]) {
        DecidesAll(sources, k);
      }
      if !ok {
        KeepProven(|stream.file|, luck.records);
        NotTransferred();
        return SourcesFailed;
      }
      r := Conclude(|stream.file|, Digest(stream.fed), luck);
    }

    lemma NotTransferred()
      requires !state.Transferred?
      ensures Proven()
    {
    }

    /** What the partial holds. */
    function Disk(): string
      reads this
    {
      if partial.Some? then partial.value else ""
    }

    /** Any other plan, one stream per gap or several at once: whatever they filled the file with, it
        is read back from the start. */
    method RunFilled(filled: string, total: int, luck: Luck) returns (r: Ended)
      requires state == Running
      modifies this`partial, this`final, this`state, this`claims
      requires 0 <= total
      ensures Proven() && (r.Delivered? <==> state.Transferred?)
      ensures r.Delivered? <==>
        && (size > 0 ==> total == size) && (want != "" ==> SameDigest("sha256:" + sha(filled), want))
        && luck.moves && luck.records
      ensures r.Mismatch? <==> RightLength(total) && !RightDigest(filled)
      ensures r.Delivered? ==> final == Some(filled)
    {
      partial := Some(filled);
      var got := "";
      if want != "" {
        var fed := HashFile(filled);
        got := Digest(fed);
      }
      r := Conclude(total, got, luck);
    }

    /** What a delegate says it delivered is hashed where it lies before the record says so. */
    method VerifyDelegated(permanent: bool, records: bool) returns (r: Ended)
      requires state == Running && final.Some?
      modifies this`state, this`claims
      ensures Proven() && (r.Delivered? <==> state.Transferred?)
      ensures r.Mismatch? <==> !RightDigest(final.value)
      ensures r.Delivered? <==> records && (want != "" ==> SameDigest("sha256:" + sha(final.value), want))
      ensures r.Mismatch? || r.Unrecorded? || r.Delivered?
      ensures !records ==> state == Running && claims == old(claims)
      ensures r.Mismatch? && records ==> claims == [] && state == if permanent then Failed else Pending
      ensures r.Delivered? ==> Canonical(claims) && forall x :: Covers(claims, x) <==> 0 <= x < |final.value|
    {
      var fed := HashFile(final.value);
      var digest := Digest(fed);
      if want != "" && !SameDigest(digest, want) {
        if records {
          state := if permanent then Failed else Pending;
          claims := [];
        }
        return Mismatch;
      }
      if !records { return Unrecorded; }
      claims := WholePrefix(|fed|);
      WholePrefixCovers(|fed|);
      state := Transferred;
      return Delivered;
    }
  }

  /** Wrong bytes are never delivered under a digest: with a hash that tells the two contents apart,
      a transferred job has the very contents its digest was made from. */
  lemma DeliveredIsWanted(sha: string -> string, wanted: string, delivered: string)
    requires Hex(sha(wanted)) && Hex(sha(delivered))
    requires SameDigest("sha256:" + sha(delivered), "sha256:" + sha(wanted))
    requires sha(delivered) == sha(wanted) ==> delivered == wanted
    ensures delivered == wanted
  {
    OwnSpelling(sha(delivered), "sha256:" + sha(wanted));
    OwnSpelling(sha(wanted), "sha256:" + sha(wanted));
  }
}
