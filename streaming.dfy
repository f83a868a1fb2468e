/**
 * What the streaming branches of `LocalDsSTT` show: the audio is fed in
 * chunks of at most `size` samples, the engine is asked for a partial
 * transcript after each chunk, and a partial is printed only when it differs
 * from the previous one.
 */
module Streaming {
  import Chunking

  /** The partial decoded after each chunk: the decoder applied to all audio fed so far. */
  function Partials<A, R>(decode: seq<A> -> R, audio: seq<A>, size: nat): (ps: seq<R>)
    requires size > 0
    ensures var cs := Chunking.Chunks(|audio|, size);
      |ps| == |cs| &&
      forall i :: 0 <= i < |cs| ==> Chunking.End(cs[i]) <= |audio| && ps[i] == decode(audio[..Chunking.End(cs[i])])
  {
    Chunking.ChunksTile(|audio|, size);
    var cs := Chunking.Chunks(|audio|, size);
    seq(|cs|, i requires 0 <= i < |cs| => decode(audio[..Chunking.End(cs[i])]))
  }

  /**
   * The partials printed: each one that differs from the one before it (the
   * first always). The last one kept always equals the previous partial, so
   * comparing with it is comparing with the previous partial.
   */
  function Emitted(ps: seq<string>): seq<string>
  {
    if ps == [] then []
    else
      var n := |ps|;
      Emitted(ps[..n - 1]) + (if n > 1 && ps[n - 2] == ps[n - 1] then [] else [ps[n - 1]])
  }

  /** The partials printed once the first k have arrived: one more arrives at each step of the loop. */
  function EmittedPrefix(ps: seq<string>, k: nat): seq<string>
    requires k <= |ps|
  {
    if k == 0 then []
    else EmittedPrefix(ps, k - 1) + (if k > 1 && ps[k - 2] == ps[k - 1] then [] else [ps[k - 1]])
  }

  /** Printing step by step prints, once all partials have arrived, what `Emitted` describes. */
  lemma {:induction false} EmittedPrefixAll(ps: seq<string>, k: nat)
    requires k <= |ps|
    ensures EmittedPrefix(ps, k) == Emitted(ps[..k])
    decreases k
  {
    if k > 0 {
      EmittedPrefixAll(ps, k - 1);
      assert ps[..k][..k - 1] == ps[..k - 1];
    }
  }

  /** No two consecutive printed partials are equal. */
  lemma {:induction false} EmittedNoRepeats(ps: seq<string>)
    ensures var es := Emitted(ps);
      forall i :: 0 < i < |es| ==> es[i - 1] != es[i]
    decreases |ps|
  {
    if ps != [] {
      var n := |ps|;
      var init := ps[..n - 1];
      EmittedNoRepeats(init);
      if !(n > 1 && ps[n - 2] == ps[n - 1]) && n > 1 {
        EmittedLast(init);
        assert init[|init| - 1] == ps[n - 2];
      }
    }
  }

  /** The last printed partial is the last partial. */
  lemma {:induction false} EmittedLast(ps: seq<string>)
    requires ps != []
    ensures var es := Emitted(ps); es != [] && es[|es| - 1] == ps[|ps| - 1]
    decreases |ps|
  {
    var n := |ps|;
    if n > 1 && ps[n - 2] == ps[n - 1] {
      var init := ps[..n - 1];
      EmittedLast(init);
      assert init[|init| - 1] == ps[n - 2];
    }
  }

  /** Every printed partial is one of the partials, and there are no more of them than partials. */
  lemma {:induction false} EmittedFrom(ps: seq<string>)
    ensures |Emitted(ps)| <= |ps|
    ensures forall e :: e in Emitted(ps) ==> e in ps
    decreases |ps|
  {
    if ps != [] {
      var init := ps[..|ps| - 1];
      EmittedFrom(init);
      assert forall e :: e in init ==> e in ps;
    }
  }

  /** A run of equal partials is printed once. */
  lemma {:induction false} EmittedRun(p: string, n: nat)
    requires n > 0
    ensures Emitted(seq(n, _ => p)) == [p]
    decreases n
  {
    var ps := seq(n, _ => p);
    if n > 1 {
      assert ps[..n - 1] == seq(n - 1, _ => p);
      EmittedRun(p, n - 1);
    }
  }

  /** Two identical consecutive partials give one print; two different ones give two. */
  lemma EmittedPair(a: string, b: string)
    ensures Emitted([a, b]) == if a == b then [a] else [a, b]
  {
    assert [a, b][..1] == [a];
    assert [a][..0] == [];
    assert Emitted([a]) == [a];
  }
}
