/** Byte strings, one character per byte, and what stands where in them. */
module Bytes {

  /** The byte at an offset, or zero past the end. */
  function At(buf: string, pos: int): char { if 0 <= pos < |buf| then buf[pos] else '\0' }

  /** The text stands in the buffer at an offset. */
  predicate Stands(buf: string, pos: int, text: string) {
    0 <= pos && pos + |text| <= |buf| && buf[pos..pos + |text|] == text
  }

  lemma StandsSplit(buf: string, pos: int, a: string, b: string)
    ensures Stands(buf, pos, a + b) <==> Stands(buf, pos, a) && Stands(buf, pos + |a|, b)
  {
    if 0 <= pos && pos + |a| + |b| <= |buf| {
      assert buf[pos..pos + |a + b|] == buf[pos..pos + |a|] + buf[pos + |a|..pos + |a| + |b|];
      if buf[pos..pos + |a + b|] == a + b {
        assert buf[pos..pos + |a|] == (a + b)[..|a|] && buf[pos + |a|..pos + |a| + |b|] == (a + b)[|a|..];
      }
    }
  }

  lemma Stands3(buf: string, pos: int, a: string, b: string, c: string)
    requires Stands(buf, pos, a + b + c)
    ensures Stands(buf, pos, a) && Stands(buf, pos + |a|, b) && Stands(buf, pos + |a| + |b|, c)
  {
    StandsSplit(buf, pos, a + b, c);
    StandsSplit(buf, pos, a, b);
  }

  lemma StandsAt(buf: string, pos: int, text: string, i: nat)
    requires Stands(buf, pos, text) && i < |text|
    ensures pos + i < |buf| && At(buf, pos + i) == text[i]
  {
    assert buf[pos..pos + |text|][i] == buf[pos + i];
  }
}
