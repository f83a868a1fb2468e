/**
 * The bounded frame FIFO that `ResamplingFifo` writes converter output into
 * (`AudioFifo` of the GIN library). gin_audiofifo.h is not part of this
 * model; the FIFO is modelled on the behaviour `ResamplingFifo` relies on:
 * a capacity in frames fixed by `setSize`, which also empties it, and a
 * `write` and a `read` that either move every requested frame or none.
 */
module Fifo {
  import opened Common

  /** One frame: a sample per channel. */
  type Frame = seq<Sample>

  /** A whole write: the block is appended when it fits, otherwise nothing changes. */
  function FifoWrite(frames: seq<Frame>, capacity: nat, block: seq<Frame>): (r: seq<Frame>)
    ensures |frames| + |block| <= capacity ==> r == frames + block
    ensures |frames| + |block| > capacity ==> r == frames
  {
    if |frames| + |block| <= capacity then frames + block else frames
  }

  /** A whole read: the n oldest frames leave when there are that many, otherwise nothing changes. */
  function FifoRead(frames: seq<Frame>, n: nat): (r: (seq<Frame>, seq<Frame>))
    ensures n <= |frames| ==> r.0 + r.1 == frames && |r.0| == n
    ensures n > |frames| ==> r == ([], frames)
  {
    if n <= |frames| then (frames[..n], frames[n..]) else ([], frames)
  }

  /** First in, first out: what was queued first is read first, and a later block follows it. */
  lemma FifoOrder(frames: seq<Frame>, capacity: nat, block: seq<Frame>)
    requires |frames| + |block| <= capacity
    ensures var (first, rest) := FifoRead(FifoWrite(frames, capacity, block), |frames|);
      first == frames && FifoRead(rest, |block|) == (block, [])
  {
    var all := frames + block;
    assert all[..|frames|] == frames && all[|frames|..] == block;
    assert block[..|block|] == block && block[|block|..] == [];
  }

  /** A write never takes the FIFO past its capacity and never loses a queued frame. */
  lemma FifoWriteBounded(frames: seq<Frame>, capacity: nat, block: seq<Frame>)
    requires |frames| <= capacity
    ensures var r := FifoWrite(frames, capacity, block);
      |r| <= capacity && r[..|frames|] == frames
  {
  }

  class AudioFifo {
    var numChannels: nat
    var capacity: nat
    /** The queued frames, oldest first. */
    var frames: seq<Frame>

    ghost predicate Valid()
      reads this
    {
      |frames| <= capacity
    }

    constructor ()
      ensures Valid() && numChannels == 0 && capacity == 0 && frames == []
    {
      numChannels, capacity, frames := 0, 0, [];
    }

    /** `setSize`: new channel count and capacity; the queue is emptied. */
    method SetSize(numCh: nat, maxSamples: nat)
      modifies this
      ensures Valid() && numChannels == numCh && capacity == maxSamples && frames == []
    {
      numChannels, capacity, frames := numCh, maxSamples, [];
    }

    method Reset()
      modifies this
      ensures Valid() && frames == [] && numChannels == old(numChannels) && capacity == old(capacity)
    {
      frames := [];
    }

    function NumReady(): nat
      reads this
    {
      |frames|
    }

    /**
     * `write(src, n)`: the first n frames of the channel-by-sample buffer
     * `src` are queued when there is room for all of them.
     */
    method Write(src: array2<Sample>, n: nat) returns (ok: bool)
      requires Valid() && src.Length0 == numChannels && n <= src.Length1
      modifies this
      ensures Valid() && numChannels == old(numChannels) && capacity == old(capacity)
      ensures ok <==> old(|frames|) + n <= capacity
      ensures frames == FifoWrite(old(frames), capacity, Columns(src, n))
    {
      ok := |frames| + n <= capacity;
      if ok {
        frames := frames + Columns(src, n);
      }
    }

    /** `read(n)`: the n oldest frames, when that many are queued. */
    method Read(n: nat) returns (out: Option<seq<Frame>>)
      requires Valid()
      modifies this
      ensures Valid() && numChannels == old(numChannels) && capacity == old(capacity)
      ensures out.Some? <==> n <= old(|frames|)
      ensures out.Some? ==> out.value == FifoRead(old(frames), n).0
      ensures frames == FifoRead(old(frames), n).1
    {
      if n <= |frames| {
        out := Some(frames[..n]);
        frames := frames[n..];
      } else {
        out := None;
      }
    }
  }

  /** The first n sample columns of a channel-by-sample buffer, as frames. */
  function Columns(src: array2<Sample>, n: nat): (fs: seq<Frame>)
    requires n <= src.Length1
    reads src
    ensures |fs| == n && forall i :: 0 <= i < n ==> |fs[i]| == src.Length0
  {
    seq(n, i requires 0 <= i < n reads src => seq(src.Length0, c requires 0 <= c < src.Length0 reads src => src[c, i]))
  }
}
