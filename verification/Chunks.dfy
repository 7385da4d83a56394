/** Fixed-size chunks laid end to end, and the arithmetic of positions in them. */
module Chunks {

  type byte = bv8

  function Concat(cs: seq<seq<byte>>): seq<byte> {
    if |cs| == 0 then [] else cs[0] + Concat(cs[1..])
  }

  ghost predicate Uniform(cs: seq<seq<byte>>, b: nat) {
    forall k :: 0 <= k < |cs| ==> |cs[k]| == b
  }

  /** How many bytes n chunks of b bytes hold. */
  function Span(n: int, b: nat): (r: int)
    ensures n >= 0 ==> r >= 0
  {
    n * b
  }

  /** m with the bytes at p overwritten. */
  function Patch(m: seq<byte>, p: nat, bytes: seq<byte>): (r: seq<byte>)
    requires p + |bytes| <= |m|
    ensures |r| == |m|
  {
    m[..p] + bytes + m[p + |bytes|..]
  }

  /** Patching two adjacent stretches is patching both at once. */
  lemma PatchTwice(m: seq<byte>, p: nat, x: seq<byte>, y: seq<byte>)
    requires p + |x| + |y| <= |m|
    ensures Patch(Patch(m, p, x), p + |x|, y) == Patch(m, p, x + y)
  {
  }

  lemma PatchNothing(m: seq<byte>, p: nat)
    requires p <= |m|
    ensures Patch(m, p, []) == m
  {
  }

  /** Patching inside the middle piece. */
  lemma PatchMiddle(a: seq<byte>, x: seq<byte>, z: seq<byte>, o: nat, bytes: seq<byte>)
    requires o + |bytes| <= |x|
    ensures Patch(a + x + z, |a| + o, bytes) == a + Patch(x, o, bytes) + z
  {
  }

  lemma {:induction false} ConcatLength(cs: seq<seq<byte>>, b: nat)
    requires Uniform(cs, b)
    ensures |Concat(cs)| == Span(|cs|, b)
  {
    if |cs| > 0 {
      ConcatLength(cs[1..], b);
      SpanNext(|cs| - 1, b);
    }
  }

  lemma {:induction false} ConcatSplit(cs: seq<seq<byte>>, k: nat)
    requires k <= |cs|
    ensures Concat(cs) == Concat(cs[..k]) + Concat(cs[k..])
  {
    if k == 0 {
      assert cs[0..] == cs;
    } else {
      ConcatSplit(cs[1..], k - 1);
      assert cs[..k][1..] == cs[1..][..k - 1] && cs[1..][k - 1..] == cs[k..];
    }
  }

  lemma ConcatPrefix(cs: seq<seq<byte>>, cs': seq<seq<byte>>)
    requires |cs| <= |cs'| && forall k :: 0 <= k < |cs| ==> cs'[k] == cs[k]
    ensures Concat(cs) <= Concat(cs')
  {
    assert cs'[..|cs|] == cs;
    ConcatSplit(cs', |cs|);
  }

  /** Chunk c occupies the bytes from c * b on. */
  lemma ConcatAround(cs: seq<seq<byte>>, b: nat, c: nat)
    requires Uniform(cs, b) && c < |cs|
    ensures Concat(cs) == Concat(cs[..c]) + cs[c] + Concat(cs[c + 1..])
    ensures |Concat(cs[..c])| == Span(c, b) && Span(c, b) + b <= |Concat(cs)|
  {
    ConcatSplit(cs, c);
    assert cs[c..][0] == cs[c] && cs[c..][1..] == cs[c + 1..];
    ConcatLength(cs[..c], b);
  }

  lemma ChunkSlice(cs: seq<seq<byte>>, b: nat, c: nat, o: nat, n: nat)
    requires Uniform(cs, b) && c < |cs| && o + n <= b
    ensures 0 <= Span(c, b) + o && Span(c, b) + o + n <= |Concat(cs)|
    ensures Concat(cs)[Span(c, b) + o..Span(c, b) + o + n] == cs[c][o..o + n]
  {
    ConcatAround(cs, b, c);
  }

  lemma ChunkPatch(cs: seq<seq<byte>>, b: nat, c: nat, o: nat, bytes: seq<byte>)
    requires Uniform(cs, b) && c < |cs| && o + |bytes| <= b
    ensures 0 <= Span(c, b) + o && Span(c, b) + o + |bytes| <= |Concat(cs)|
    ensures Concat(cs[c := Patch(cs[c], o, bytes)]) == Patch(Concat(cs), Span(c, b) + o, bytes)
  {
    var cs' := cs[c := Patch(cs[c], o, bytes)];
    ConcatAround(cs, b, c);
    ConcatAround(cs', b, c);
    PatchMiddle(Concat(cs[..c]), cs[c], Concat(cs[c + 1..]), o, bytes);
    assert cs'[..c] == cs[..c] && cs'[c + 1..] == cs[c + 1..];
  }

  lemma SpanZero(b: nat)
    ensures Span(0, b) == 0
  {
  }

  lemma SpanNext(x: int, b: nat)
    ensures Span(x + 1, b) == Span(x, b) + b
  {
  }

  lemma SpanAdds(x: int, y: int, b: nat)
    ensures Span(x + y, b) == Span(x, b) + Span(y, b)
  {
  }

  lemma SpanMonotone(x: nat, y: nat, b: nat)
    ensures x <= y ==> Span(x, b) <= Span(y, b)
  {
  }

  /** A position is its chunk and its offset in the chunk. */
  lemma Locate(p: nat, b: nat, c: nat, o: nat)
    requires b > 0 && p == Span(c, b) + o && o < b
    ensures p / b == c && p % b == o
  {
    var q := p / b;
    assert p == q * b + p % b;
    SpanMonotone(q + 1, c, b);
    SpanMonotone(c + 1, q, b);
  }

  /** addCapacity's rounding: the smallest number of chunks that covers size bytes. */
  lemma CeilCovers(size: nat, b: nat)
    requires b > 0
    ensures var n := (size + b - 1) / b; size <= Span(n, b) && (size > 0 ==> n > 0) && (n > 0 ==> Span(n - 1, b) < size)
  {
    var n := (size + b - 1) / b;
    assert size + b - 1 == n * b + (size + b - 1) % b;
  }
}
