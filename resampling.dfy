/**
 * `ResamplingFifo` of the GIN library (gin_resamplingfifo.h): audio pushed
 * in goes through a sample-rate converter (libsamplerate) and the converted
 * frames queue up in a bounded FIFO until popped.
 *
 * The converter is foreign code. It is the function `converter`, fixed at
 * construction, from (channel count, frames consumed since the last reset,
 * input frames, room for output frames, ratio) to the number of input frames
 * it used and the frames it produced; `ConverterOk` states what the model
 * relies on. An audio buffer is its channels, each a sequence of samples.
 */
module Resampling {
  import opened Common
  import opened Fifo
  import Chunking

  /**
   * A conversion ratio as the float the source stores: division by a zero
   * input rate gives infinity.
   */
  datatype Ratio = Finite(value: real) | Infinite

  /** The ratios libsamplerate accepts: between 1/256 and 256. */
  predicate GoodRatio(r: Ratio)
  {
    r.Finite? && 1.0 / 256.0 <= r.value <= 256.0
  }

  /**
   * When a converter call makes progress: `src_new` only creates a state for
   * at least one channel (`setSize` ignores its error, leaving no state), and
   * `src_process` refuses a ratio outside the accepted range.
   */
  predicate Accepts(ch: nat, r: Ratio)
  {
    ch >= 1 && GoodRatio(r)
  }

  /** What one `src_process` call reports. */
  datatype SrcResult = SrcResult(used: nat, out: seq<Frame>)

  type Converter = (nat, seq<Frame>, seq<Frame>, nat, Ratio) -> SrcResult

  /**
   * One converter call on `input` with room for `room` output frames: it uses
   * a prefix of the input, produces at most `room` frames of `ch` samples,
   * makes progress on a non-empty input when it has a state and accepts the
   * ratio, and does nothing otherwise: on a missing state or a rejected ratio
   * `src_process` returns an error before touching its data.
   */
  predicate SrcOk(ch: nat, input: seq<Frame>, room: nat, r: Ratio, res: SrcResult)
  {
    && res.used <= |input|
    && |res.out| <= room
    && (forall i :: 0 <= i < |res.out| ==> |res.out[i]| == ch)
    && (Accepts(ch, r) && |input| > 0 ==> res.used >= 1)
    && (!Accepts(ch, r) ==> res.used == 0 && res.out == [])
  }

  ghost predicate ConverterOk(conv: Converter)
  {
    forall ch, consumed, input, room, r :: SrcOk(ch, input, room, r, conv(ch, consumed, input, room, r))
  }

  /**
   * The inputs the `pushAudioBufferInt` loop never leaves: with no channel,
   * or with a ratio libsamplerate rejects, a call uses no frame and produces
   * none, so `todo` never decreases.
   */
  lemma RejectedStalls(conv: Converter, ch: nat, consumed: seq<Frame>, input: seq<Frame>, room: nat, r: Ratio)
    requires ConverterOk(conv) && !Accepts(ch, r)
    ensures conv(ch, consumed, input, room, r).used == 0 && conv(ch, consumed, input, room, r).out == []
  {
    assert SrcOk(ch, input, room, r, conv(ch, consumed, input, room, r));
  }

  /**
   * The sample rates `initialize` can pass with its 16000 Hz target whose
   * ratio libsamplerate accepts: 63 to 4096000 Hz. A rate of 0 gives an
   * infinite ratio, a negative rate the ratio 0, a rate of 1 to 62 Hz a ratio
   * above 256 and one above 4096000 Hz a ratio below 1/256.
   */
  lemma AcceptedRates(rate: int)
    ensures GoodRatio(RatioOf(rate as real, 16000.0)) <==> 63 <= rate <= 4096000
  {
    var x := rate as real;
    if rate > 0 {
      assert RatioOf(x, 16000.0) == Finite(16000.0 / x);
      if rate < 63 {
        assert x <= 62.0;
        assert 16000.0 / x > 256.0 by {
          assert (16000.0 / x) * x == 16000.0;
        }
      } else if rate > 4096000 {
        assert 16000.0 / x < 1.0 / 256.0 by {
          assert (16000.0 / x) * x == 16000.0;
        }
      } else {
        assert 1.0 / 256.0 <= 16000.0 / x <= 256.0 by {
          assert (16000.0 / x) * x == 16000.0;
        }
      }
    } else if rate < 0 {
      assert 16000.0 / x < 0.0;
    }
  }

  /** Everything a conversion run depends on besides the audio. */
  datatype Setup = Setup(converter: Converter, channels: nat, capacity: nat, blockSize: nat, ratio: Ratio)

  /** `setResamplingRatio`: `max(0, outputRate / inputRate)` in double arithmetic. */
  function RatioOf(inputRate: real, outputRate: real): (r: Ratio)
    ensures r.Finite? ==> r.value >= 0.0
    ensures inputRate > 0.0 && outputRate >= 0.0 ==> r == Finite(outputRate / inputRate)
    ensures inputRate != 0.0 && outputRate / inputRate < 0.0 ==> r == Finite(0.0)
  {
    if inputRate == 0.0 then
      // x / 0.0 is +inf for x > 0; 0 / 0 is NaN and -inf for x < 0, and max(0.0, either) is 0.0
      if outputRate > 0.0 then Infinite else Finite(0.0)
    else Finite(Max(0.0, outputRate / inputRate))
  }

  /** The buffer has at least `ch` channels of at least `n` samples. */
  predicate HasFrames(buffer: seq<seq<Sample>>, ch: nat, n: nat)
  {
    |buffer| >= ch && forall c :: 0 <= c < ch ==> n <= |buffer[c]|
  }

  /** Frames off .. off + n - 1 of the first `ch` channels: what `interleaveSamples` lays out. */
  function Frames(buffer: seq<seq<Sample>>, ch: nat, off: nat, n: nat): (fs: seq<Frame>)
    requires HasFrames(buffer, ch, off + n)
    ensures |fs| == n
    ensures forall i :: 0 <= i < n ==> |fs[i]| == ch && forall c :: 0 <= c < ch ==> fs[i][c] == buffer[c][off + i]
  {
    seq(n, i requires 0 <= i < n => seq(ch, c requires 0 <= c < ch => buffer[c][off + i]))
  }

  lemma FramesAppend(buffer: seq<seq<Sample>>, ch: nat, off: nat, n: nat, m: nat)
    requires HasFrames(buffer, ch, off + n + m)
    ensures Frames(buffer, ch, off, n) + Frames(buffer, ch, off + n, m) == Frames(buffer, ch, off, n + m)
  {
    var a, b, all := Frames(buffer, ch, off, n), Frames(buffer, ch, off + n, m), Frames(buffer, ch, off, n + m);
    forall i | 0 <= i < n + m
      ensures (a + b)[i] == all[i]
    {
      if i < n { assert (a + b)[i] == a[i]; } else { assert (a + b)[i] == b[i - n]; }
    }
  }

  /**
   * The `pushAudioBufferInt` loop: call the converter on the frames not yet
   * used, queue what it produced (all of it, or nothing when the FIFO has no
   * room), and go on until every frame is used. The result is the frames the
   * converter has consumed since its last reset and the FIFO contents.
   */
  function Drive(s: Setup, consumed: seq<Frame>, fifo: seq<Frame>, input: seq<Frame>): (r: (seq<Frame>, seq<Frame>))
    requires ConverterOk(s.converter) && (input == [] || Accepts(s.channels, s.ratio))
    decreases |input|
  {
    if input == [] then (consumed, fifo)
    else
      var res := s.converter(s.channels, consumed, input, 4 * s.blockSize, s.ratio);
      var fifo' := if |res.out| > 0 then FifoWrite(fifo, s.capacity, res.out) else fifo;
      Drive(s, consumed + input[..res.used], fifo', input[res.used..])
  }

  /** The loop ends with every input frame handed to the converter once, in order. */
  lemma {:induction false} DriveConsumesAll(s: Setup, consumed: seq<Frame>, fifo: seq<Frame>, input: seq<Frame>)
    requires ConverterOk(s.converter) && (input == [] || Accepts(s.channels, s.ratio))
    ensures Drive(s, consumed, fifo, input).0 == consumed + input
    decreases |input|
  {
    if input != [] {
      var res := s.converter(s.channels, consumed, input, 4 * s.blockSize, s.ratio);
      assert SrcOk(s.channels, input, 4 * s.blockSize, s.ratio, res);
      var fifo' := if |res.out| > 0 then FifoWrite(fifo, s.capacity, res.out) else fifo;
      DriveConsumesAll(s, consumed + input[..res.used], fifo', input[res.used..]);
      assert input[..res.used] + input[res.used..] == input;
    }
  }

  /**
   * The FIFO only grows and never past its capacity: what was queued stays
   * queued, in front of what the run adds.
   */
  lemma {:induction false} DriveFifo(s: Setup, consumed: seq<Frame>, fifo: seq<Frame>, input: seq<Frame>)
    requires ConverterOk(s.converter) && (input == [] || Accepts(s.channels, s.ratio))
    requires |fifo| <= s.capacity
    ensures var f := Drive(s, consumed, fifo, input).1;
      |f| <= s.capacity && |fifo| <= |f| && f[..|fifo|] == fifo
    decreases |input|
  {
    if input != [] {
      var res := s.converter(s.channels, consumed, input, 4 * s.blockSize, s.ratio);
      assert SrcOk(s.channels, input, 4 * s.blockSize, s.ratio, res);
      var fifo' := if |res.out| > 0 then FifoWrite(fifo, s.capacity, res.out) else fifo;
      DriveFifo(s, consumed + input[..res.used], fifo', input[res.used..]);
      var f := Drive(s, consumed, fifo, input).1;
      assert f[..|fifo'|][..|fifo|] == f[..|fifo|];
    }
  }

  /** One turn of the loop: the converter's call on the unused frames, then the rest. */
  lemma DriveStep(s: Setup, consumed: seq<Frame>, fifo: seq<Frame>, input: seq<Frame>)
    requires ConverterOk(s.converter) && input != [] && Accepts(s.channels, s.ratio)
    ensures var res := s.converter(s.channels, consumed, input, 4 * s.blockSize, s.ratio);
      && SrcOk(s.channels, input, 4 * s.blockSize, s.ratio, res)
      && Drive(s, consumed, fifo, input)
         == Drive(s, consumed + input[..res.used], if |res.out| > 0 then FifoWrite(fifo, s.capacity, res.out) else fifo, input[res.used..])
  {
  }

  /** The slices of `pushAudioBuffer`, one `pushAudioBufferInt` run each, in order. */
  function PushSlices(s: Setup, consumed: seq<Frame>, fifo: seq<Frame>, buffer: seq<seq<Sample>>, cs: seq<Chunking.Chunk>): (r: (seq<Frame>, seq<Frame>))
    requires ConverterOk(s.converter) && Accepts(s.channels, s.ratio)
    requires forall k :: 0 <= k < |cs| ==> HasFrames(buffer, s.channels, Chunking.End(cs[k]))
    decreases |cs|
  {
    if cs == [] then (consumed, fifo)
    else
      assert HasFrames(buffer, s.channels, Chunking.End(cs[0]));
      var r := Drive(s, consumed, fifo, Frames(buffer, s.channels, cs[0].offset, cs[0].length));
      PushSlices(s, r.0, r.1, buffer, cs[1..])
  }

  /** Slices that follow one another from `a` to `b`. */
  ghost predicate Contiguous(cs: seq<Chunking.Chunk>, a: nat, b: nat)
    decreases |cs|
  {
    if cs == [] then a == b else cs[0].offset == a && Contiguous(cs[1..], Chunking.End(cs[0]), b)
  }

  /** The pieces of `Chunks(n, size)` from the k-th on follow one another up to n. */
  lemma {:induction false} ChunksContiguous(n: nat, size: nat, k: nat)
    requires size > 0 && k <= |Chunking.Chunks(n, size)|
    ensures var cs := Chunking.Chunks(n, size);
      Contiguous(cs[k..], if k < |cs| then cs[k].offset else n, n)
    decreases |Chunking.Chunks(n, size)| - k
  {
    var cs := Chunking.Chunks(n, size);
    Chunking.ChunksTile(n, size);
    if k < |cs| {
      ChunksContiguous(n, size, k + 1);
      assert cs[k..][1..] == cs[k + 1..];
    }
  }

  /** Pushing contiguous slices hands the converter every frame from a to b once, in order. */
  lemma {:induction false} PushSlicesConsumesAll(s: Setup, consumed: seq<Frame>, fifo: seq<Frame>,
                                                 buffer: seq<seq<Sample>>, cs: seq<Chunking.Chunk>, a: nat, b: nat)
    requires ConverterOk(s.converter) && Accepts(s.channels, s.ratio)
    requires forall k :: 0 <= k < |cs| ==> HasFrames(buffer, s.channels, Chunking.End(cs[k]))
    requires Contiguous(cs, a, b) && HasFrames(buffer, s.channels, b) && a <= b
    ensures PushSlices(s, consumed, fifo, buffer, cs).0 == consumed + Frames(buffer, s.channels, a, b - a)
    decreases |cs|
  {
    if cs != [] {
      var c := cs[0];
      var r := Drive(s, consumed, fifo, Frames(buffer, s.channels, c.offset, c.length));
      DriveConsumesAll(s, consumed, fifo, Frames(buffer, s.channels, c.offset, c.length));
      ContiguousBound(cs[1..], Chunking.End(c), b);
      PushSlicesConsumesAll(s, r.0, r.1, buffer, cs[1..], Chunking.End(c), b);
      FramesAppend(buffer, s.channels, a, c.length, b - Chunking.End(c));
    }
  }

  lemma {:induction false} ContiguousBound(cs: seq<Chunking.Chunk>, a: nat, b: nat)
    requires Contiguous(cs, a, b)
    ensures a <= b
    decreases |cs|
  {
    if cs != [] { ContiguousBound(cs[1..], Chunking.End(cs[0]), b); }
  }

  /** The FIFO only grows and stays within its capacity over all slices. */
  lemma {:induction false} PushSlicesFifo(s: Setup, consumed: seq<Frame>, fifo: seq<Frame>,
                                          buffer: seq<seq<Sample>>, cs: seq<Chunking.Chunk>)
    requires ConverterOk(s.converter) && Accepts(s.channels, s.ratio)
    requires forall k :: 0 <= k < |cs| ==> HasFrames(buffer, s.channels, Chunking.End(cs[k]))
    requires |fifo| <= s.capacity
    ensures var f := PushSlices(s, consumed, fifo, buffer, cs).1;
      |f| <= s.capacity && |fifo| <= |f| && f[..|fifo|] == fifo
    decreases |cs|
  {
    if cs != [] {
      var input := Frames(buffer, s.channels, cs[0].offset, cs[0].length);
      var r := Drive(s, consumed, fifo, input);
      DriveFifo(s, consumed, fifo, input);
      PushSlicesFifo(s, r.0, r.1, buffer, cs[1..]);
      var f := PushSlices(s, consumed, fifo, buffer, cs).1;
      assert f[..|r.1|][..|fifo|] == f[..|fifo|];
    }
  }

  /**
   * What `pushAudioBuffer` does with n frames: a buffer of at most blockSize
   * frames goes through one `pushAudioBufferInt` run, a larger one through
   * one run per blockSize slice.
   */
  function Push(s: Setup, consumed: seq<Frame>, fifo: seq<Frame>, buffer: seq<seq<Sample>>, n: nat): (r: (seq<Frame>, seq<Frame>))
    requires ConverterOk(s.converter) && HasFrames(buffer, s.channels, n)
    requires n == 0 || (s.blockSize > 0 && Accepts(s.channels, s.ratio))
  {
    if n <= s.blockSize then Drive(s, consumed, fifo, Frames(buffer, s.channels, 0, n))
    else
      Chunking.ChunksTile(n, s.blockSize);
      PushSlices(s, consumed, fifo, buffer, Chunking.Chunks(n, s.blockSize))
  }

  /** Both branches agree with slicing: a short buffer is a single slice. */
  lemma PushIsSlicing(s: Setup, consumed: seq<Frame>, fifo: seq<Frame>, buffer: seq<seq<Sample>>, n: nat)
    requires ConverterOk(s.converter) && HasFrames(buffer, s.channels, n)
    requires s.blockSize > 0 && Accepts(s.channels, s.ratio)
    ensures var cs := Chunking.Chunks(n, s.blockSize);
      && (forall k :: 0 <= k < |cs| ==> HasFrames(buffer, s.channels, Chunking.End(cs[k])))
      && Push(s, consumed, fifo, buffer, n) == PushSlices(s, consumed, fifo, buffer, cs)
  {
    Chunking.ChunksTile(n, s.blockSize);
    if n <= s.blockSize {
      Chunking.ChunksSingle(n, s.blockSize);
      var r := Drive(s, consumed, fifo, Frames(buffer, s.channels, 0, n));
      if n > 0 {
        assert PushSlices(s, r.0, r.1, buffer, []) == r;
      }
    }
  }

  /** `pushAudioBuffer` hands the converter every frame of the buffer exactly once, in order. */
  lemma PushConsumesAll(s: Setup, consumed: seq<Frame>, fifo: seq<Frame>, buffer: seq<seq<Sample>>, n: nat)
    requires ConverterOk(s.converter) && HasFrames(buffer, s.channels, n)
    requires n == 0 || (s.blockSize > 0 && Accepts(s.channels, s.ratio))
    ensures Push(s, consumed, fifo, buffer, n).0 == consumed + Frames(buffer, s.channels, 0, n)
  {
    if n <= s.blockSize {
      DriveConsumesAll(s, consumed, fifo, Frames(buffer, s.channels, 0, n));
    } else {
      Chunking.ChunksTile(n, s.blockSize);
      ChunksContiguous(n, s.blockSize, 0);
      PushSlicesConsumesAll(s, consumed, fifo, buffer, Chunking.Chunks(n, s.blockSize), 0, n);
    }
  }

  /** `pushAudioBuffer` only appends to the FIFO and never overfills it. */
  lemma PushFifoBounded(s: Setup, consumed: seq<Frame>, fifo: seq<Frame>, buffer: seq<seq<Sample>>, n: nat)
    requires ConverterOk(s.converter) && HasFrames(buffer, s.channels, n)
    requires n == 0 || (s.blockSize > 0 && Accepts(s.channels, s.ratio))
    requires |fifo| <= s.capacity
    ensures var f := Push(s, consumed, fifo, buffer, n).1;
      |f| <= s.capacity && |fifo| <= |f| && f[..|fifo|] == fifo
  {
    if n <= s.blockSize {
      DriveFifo(s, consumed, fifo, Frames(buffer, s.channels, 0, n));
    } else {
      Chunking.ChunksTile(n, s.blockSize);
      PushSlicesFifo(s, consumed, fifo, buffer, Chunking.Chunks(n, s.blockSize));
    }
  }

  class ResamplingFifo {
    var numChannels: nat
    var blockSize: nat
    var ratio: Ratio
    /** The frames the converter has consumed since it was created or reset. */
    var srcState: seq<Frame>
    const converter: Converter
    const outputFifo: AudioFifo
    /** Interleaved input: one frame per element, blockSize of them. */
    var ilInputBuffer: array<Frame>
    /** Interleaved converter output: 4 * blockSize frames. */
    var ilOutputBuffer: array<Frame>
    /** De-interleaved converter output, channel by sample. */
    var outputBuffer: array2<Sample>

    ghost predicate Valid()
      reads this, outputFifo
    {
      && ConverterOk(converter)
      && outputFifo.Valid() && outputFifo.numChannels == numChannels
      && ilInputBuffer.Length == blockSize
      && ilOutputBuffer.Length == 4 * blockSize
      && outputBuffer.Length0 == numChannels && outputBuffer.Length1 == 4 * blockSize
      && ilInputBuffer != ilOutputBuffer
    }

    function Config(): Setup
      reads this, outputFifo
    {
      Setup(converter, numChannels, outputFifo.capacity, blockSize, ratio)
    }

    constructor (blockSz: nat, numCh: nat, maxSamples: nat, conv: Converter)
      requires ConverterOk(conv)
      ensures Valid() && fresh(outputFifo)
      ensures Config() == Setup(conv, numCh, maxSamples, blockSz, Finite(1.0))
      ensures srcState == [] && outputFifo.frames == []
    {
      var fifo := new AudioFifo();
      fifo.SetSize(numCh, maxSamples);
      outputFifo, converter := fifo, conv;
      numChannels, blockSize, ratio, srcState := numCh, blockSz, Finite(1.0), [];
      ilInputBuffer := new Frame[blockSz];
      ilOutputBuffer := new Frame[4 * blockSz];
      outputBuffer := new Sample[numCh, 4 * blockSz];
    }

    /**
     * `setSize`: new block size, channel count and FIFO capacity; a new
     * converter state, new buffers and an empty FIFO. The ratio is kept.
     */
    method SetSize(blockSz: nat, numCh: nat, maxSamples: nat)
      requires Valid()
      modifies this, outputFifo
      ensures Valid()
      ensures Config() == old(Config()).(channels := numCh, capacity := maxSamples, blockSize := blockSz)
      ensures srcState == [] && outputFifo.frames == []
      ensures fresh(ilInputBuffer) && fresh(ilOutputBuffer) && fresh(outputBuffer)
    {
      numChannels, blockSize, srcState := numCh, blockSz, [];
      outputFifo.SetSize(numCh, maxSamples);
      ilInputBuffer := new Frame[blockSz];
      ilOutputBuffer := new Frame[4 * blockSz];
      outputBuffer := new Sample[numCh, 4 * blockSz];
    }

    /** `setResamplingRatio`: the ratio becomes output rate over input rate, never negative. */
    method SetResamplingRatio(inputRate: real, outputRate: real)
      requires Valid()
      modifies this`ratio
      ensures Valid() && Config() == old(Config()).(ratio := RatioOf(inputRate, outputRate))
    {
      ratio := RatioOf(inputRate, outputRate);
    }

    method SetRatio(r: real)
      requires Valid()
      modifies this`ratio
      ensures Valid() && Config() == old(Config()).(ratio := Finite(r))
    {
      ratio := Finite(r);
    }

    /** `reset`: the converter starts afresh and the FIFO is emptied. */
    method Reset()
      requires Valid()
      modifies this`srcState, outputFifo
      ensures Valid() && Config() == old(Config())
      ensures srcState == [] && outputFifo.frames == [] && SamplesReady() == 0
    {
      srcState := [];
      outputFifo.Reset();
    }

    function SamplesReady(): (r: nat)
      requires Valid()
      reads this, outputFifo
      ensures r <= outputFifo.capacity
    {
      |outputFifo.frames|
    }

    /**
     * `pushAudioBufferInt` on frames offset .. offset + n - 1 of `buffer`
     * (a slice of at most blockSize frames): interleave them, then call the
     * converter until it has used them all, queueing each non-empty output.
     */
    method PushAudioBufferInt(buffer: seq<seq<Sample>>, offset: nat, n: nat)
      requires Valid() && n <= blockSize && HasFrames(buffer, numChannels, offset + n)
      requires n == 0 || Accepts(numChannels, ratio)
      modifies this`srcState, outputFifo, ilInputBuffer, ilOutputBuffer, outputBuffer
      ensures Valid() && Config() == old(Config())
      ensures (srcState, outputFifo.frames)
           == Drive(Config(), old(srcState), old(outputFifo.frames), Frames(buffer, numChannels, offset, n))
    {
      var input := Frames(buffer, numChannels, offset, n);
      forall i | 0 <= i < n {
        ilInputBuffer[i] := input[i];
      }
      ghost var s := Config();
      ghost var goal := Drive(s, srcState, outputFifo.frames, input);
      var todo: nat, done: nat := n, 0;
      while todo > 0
        invariant done + todo == n
        invariant Valid() && Config() == s
        invariant ilInputBuffer[..n] == input
        invariant Drive(s, srcState, outputFifo.frames, input[done..]) == goal
        decreases todo
      {
        var rest := ilInputBuffer[done..n];
        assert rest == input[done..];
        var res := converter(numChannels, srcState, rest, 4 * blockSize, ratio);
        DriveStep(s, srcState, outputFifo.frames, rest);
        srcState := srcState + rest[..res.used];
        todo, done := todo - res.used, done + res.used;
        assert rest[res.used..] == input[done..];
        if |res.out| > 0 {
          QueueOutput(res.out);
        }
      }
      assert input[done..] == [];
    }

    /**
     * The output half of one converter call: de-interleave the frames into
     * `outputBuffer` and queue them; a write that does not fit is dropped.
     */
    method QueueOutput(out: seq<Frame>)
      requires Valid() && |out| <= 4 * blockSize
      requires forall i :: 0 <= i < |out| ==> |out[i]| == numChannels
      modifies outputFifo, ilOutputBuffer, outputBuffer
      ensures Valid() && Config() == old(Config())
      ensures outputFifo.frames == FifoWrite(old(outputFifo.frames), outputFifo.capacity, out)
    {
      var gen := |out|;
      forall i | 0 <= i < gen {
        ilOutputBuffer[i] := out[i];
      }
      forall c, i | 0 <= c < numChannels && 0 <= i < gen {
        outputBuffer[c, i] := ilOutputBuffer[i][c];
      }
      forall i | 0 <= i < gen
        ensures Columns(outputBuffer, gen)[i] == out[i]
      {
        assert |out[i]| == numChannels;
      }
      var _ := outputFifo.Write(outputBuffer, gen);
    }

    /**
     * `pushAudioBuffer` of a buffer of n frames: directly when it fits in a
     * block, otherwise slice by slice of blockSize frames.
     */
    method PushAudioBuffer(buffer: seq<seq<Sample>>, n: nat)
      requires Valid() && HasFrames(buffer, numChannels, n)
      requires n == 0 || (blockSize > 0 && Accepts(numChannels, ratio))
      modifies this`srcState, outputFifo, ilInputBuffer, ilOutputBuffer, outputBuffer
      ensures Valid() && Config() == old(Config())
      ensures (srcState, outputFifo.frames) == Push(Config(), old(srcState), old(outputFifo.frames), buffer, n)
    {
      if n <= blockSize {
        PushAudioBufferInt(buffer, 0, n);
      } else {
        ghost var s := Config();
        ghost var goal := Push(s, srcState, outputFifo.frames, buffer, n);
        ghost var cs := Chunking.Chunks(n, blockSize);
        Chunking.ChunksTile(n, blockSize);
        var todo, offset := n, 0;
        ghost var k := 0;
        while todo > 0
          invariant offset + todo == n && k <= |cs|
          invariant offset == if k * blockSize < n then k * blockSize else n
          invariant Valid() && Config() == s
          invariant PushSlices(s, srcState, outputFifo.frames, buffer, cs[k..]) == goal
          decreases todo
        {
          var thisBlock := Min(todo, blockSize);
          Chunking.ChunksStep(n, blockSize, k, offset);
          assert cs[k..][0] == Chunking.Chunk(offset, thisBlock) && cs[k..][1..] == cs[k + 1..];
          PushAudioBufferInt(buffer, offset, thisBlock);
          todo, offset, k := todo - thisBlock, offset + thisBlock, k + 1;
        }
        Chunking.ChunksStep(n, blockSize, k, offset);
      }
    }

    /**
     * `popAudioBuffer` into a buffer of |dest| frames holding `dest`: the
     * |dest| oldest converted frames when that many are ready. The source
     * discards the read's result, so an underflow is silent and leaves the
     * buffer as it was.
     */
    method PopAudioBuffer(dest: seq<Frame>) returns (buffer: seq<Frame>)
      requires Valid()
      modifies outputFifo
      ensures Valid() && Config() == old(Config())
      ensures |buffer| == |dest|
      ensures buffer == if |dest| <= old(SamplesReady()) then old(outputFifo.frames)[..|dest|] else dest
      ensures outputFifo.frames == FifoRead(old(outputFifo.frames), |dest|).1
    {
      var read := outputFifo.Read(|dest|);
      buffer := if read.Some? then read.value else dest;
    }
  }
}
