/**
 * Cutting a run of `n` items into consecutive pieces of at most `size` items.
 * Both the streaming decode loop (which feeds the engine `stream_size`
 * samples at a time) and `ResamplingFifo::pushAudioBuffer` (which cuts a
 * buffer into `blockSize`-frame slices) follow this discipline: the piece at
 * offset `off` has length `min(size, n - off)`.
 */
module Chunking {
  import opened Common

  datatype Chunk = Chunk(offset: nat, length: nat)

  function End(c: Chunk): nat { c.offset + c.length }

  /** ceil(n / size). */
  function CeilDiv(n: nat, size: nat): nat
    requires size > 0
  {
    (n + size - 1) / size
  }

  /** The pieces, in order: piece k starts at k * size. */
  function Chunks(n: nat, size: nat): (cs: seq<Chunk>)
    requires size > 0
  {
    seq(CeilDiv(n, size), k requires 0 <= k < CeilDiv(n, size) =>
      CeilDivBound(n, size, k); Chunk(k * size, Min(size, n - k * size)))
  }

  /** k pieces fit strictly below n exactly when k is below the piece count. */
  lemma CeilDivBound(n: nat, size: nat, k: nat)
    requires size > 0
    ensures k * size < n <==> k < CeilDiv(n, size)
  {
    var q := CeilDiv(n, size);
    assert (n + size - 1) == q * size + (n + size - 1) % size;
    if k * size < n {
      if q <= k {
        MulMono(q, k, size);
        assert false;
      }
    } else {
      if k < q {
        MulMono(k + 1, q, size);
        assert false;
      }
    }
  }

  /** Multiplication by `size` is monotonic; CeilDivBound uses it for both directions. */
  lemma MulMono(a: nat, b: nat, size: nat)
    requires a <= b
    ensures a * size <= b * size
  {
  }

  /**
   * The pieces tile [0, n): the first starts at 0, each starts where the
   * previous one ended, the last ends at n, and every piece holds between 1
   * and `size` items.
   */
  lemma ChunksTile(n: nat, size: nat)
    requires size > 0
    ensures var cs := Chunks(n, size);
      && (|cs| == 0 <==> n == 0)
      && (|cs| > 0 ==> cs[0].offset == 0 && End(cs[|cs| - 1]) == n)
      && (forall k :: 0 <= k < |cs| ==> 1 <= cs[k].length <= size && End(cs[k]) <= n)
      && (forall k :: 0 < k < |cs| ==> cs[k].offset == End(cs[k - 1]))
  {
    var cs := Chunks(n, size);
    forall k | 0 <= k < |cs|
      ensures 1 <= cs[k].length <= size && End(cs[k]) <= n
    {
      CeilDivBound(n, size, k);
    }
    forall k | 0 < k < |cs|
      ensures cs[k].offset == End(cs[k - 1])
    {
      CeilDivBound(n, size, k);
      assert (k - 1) * size + size == k * size;
    }
    if |cs| > 0 {
      var l := |cs| - 1;
      CeilDivBound(n, size, l);
      CeilDivBound(n, size, l + 1);
      assert l * size + size == (l + 1) * size;
    }
    CeilDivBound(n, size, 0);
  }

  /** The piece count is ceil(n / size): one piece fewer would not reach n. */
  lemma ChunksCount(n: nat, size: nat)
    requires size > 0
    ensures var c := |Chunks(n, size)|;
      (c - 1) * size < n <= c * size || (n == 0 && c == 0)
  {
    var c := |Chunks(n, size)|;
    CeilDivBound(n, size, c);
    if c > 0 { CeilDivBound(n, size, c - 1); }
  }

  /** A run no longer than `size` is a single piece (or none when empty). */
  lemma ChunksSingle(n: nat, size: nat)
    requires size > 0 && n <= size
    ensures Chunks(n, size) == if n == 0 then [] else [Chunk(0, n)]
  {
    CeilDivBound(n, size, 0);
    CeilDivBound(n, size, 1);
  }

  /**
   * A loop that keeps `off == min(n, k * size)` and has produced the first k
   * pieces finds the next piece at `off` with length `min(size, n - off)`,
   * and has produced all of them once `off` reaches `n`.
   */
  lemma ChunksStep(n: nat, size: nat, k: nat, off: nat)
    requires size > 0 && k <= CeilDiv(n, size)
    requires off == if k * size < n then k * size else n
    ensures off < n <==> k < |Chunks(n, size)|
    ensures off < n ==> Chunks(n, size)[k] == Chunk(off, Min(size, n - off))
    ensures off < n ==> (off + Min(size, n - off) == if (k + 1) * size < n then (k + 1) * size else n)
  {
    CeilDivBound(n, size, k);
    assert (k + 1) * size == k * size + size;
  }
}
