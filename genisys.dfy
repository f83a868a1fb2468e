/**
 * `LibGenisysImpl` (src/LibGenisysImpl.cpp): a speech-to-text front end over
 * a DeepSpeech model. The constructor registers hot words, `initialize` sets
 * up the input resampler, `LocalDsSTT` runs the recogniser in one of five
 * output modes, and `ProcessFile` runs it on a file's samples and tidies the
 * spaces of the text.
 *
 * The recogniser is foreign code. It is the record `Engine` of functions from
 * audio to results; `EngineOk` states what the model relies on. Buffers the
 * engine or `malloc` hands out are tracked in two `Heap`s so that the model
 * states which of them are released.
 */
module Genisys {
  import opened Common
  import Text
  import Transcript
  import HotWords
  import Chunking
  import Streaming
  import Heaps
  import Pcm
  import Resampling

  /** The rate the model is trained on. */
  const TargetSampleRate: int := 16000
  /** The highest input rate the resampler is sized for. */
  const MaxInputSampleRate: int := 96000
  /** Two seconds of the highest input rate: the capacity of the resampler's FIFO. */
  const ResamplerMaxSamples: nat := 2 * MaxInputSampleRate

  /** The statuses of the library's interface; `initialize` only ever returns `Ok`. */
  datatype Status = NoStatus | Ok | Uninitialized | InvalidSampleRate | InternalError

  /** The output options, fixed members of the class in the source. */
  datatype Flags = Flags(
    extendedMetadata: bool,
    jsonOutput: bool,
    jsonCandidateTranscripts: nat,
    streamSize: int,
    extendedStreamSize: int)

  const DefaultFlags: Flags := Flags(false, false, 3, 0, 0)

  /** The five ways `LocalDsSTT` can run the recogniser. */
  datatype Mode =
    | ExtendedMetadata
    | Json(candidates: nat)
    | Streaming(size: nat)
    | ExtendedStreaming(size: nat)
    | Plain

  /**
   * The mode chosen: the extended flag wins over the JSON flag, which wins
   * over a positive stream size, which wins over a positive extended stream
   * size; with none of them the plain call is made.
   */
  function SelectMode(extendedOutput: bool, jsonOutput: bool, flags: Flags): (m: Mode)
    ensures m.ExtendedMetadata? <==> extendedOutput
    ensures m.Json? <==> !extendedOutput && jsonOutput
    ensures m.Streaming? <==> !extendedOutput && !jsonOutput && flags.streamSize > 0
    ensures m.ExtendedStreaming? <==> !extendedOutput && !jsonOutput && flags.streamSize <= 0 && flags.extendedStreamSize > 0
    ensures m.Plain? <==> !extendedOutput && !jsonOutput && flags.streamSize <= 0 && flags.extendedStreamSize <= 0
    ensures m.Json? ==> m.candidates == flags.jsonCandidateTranscripts
    ensures m.Streaming? ==> m.size == flags.streamSize
    ensures m.ExtendedStreaming? ==> m.size == flags.extendedStreamSize
    ensures (m.Streaming? || m.ExtendedStreaming?) ==> m.size > 0
  {
    if extendedOutput then ExtendedMetadata
    else if jsonOutput then Json(flags.jsonCandidateTranscripts)
    else if flags.streamSize > 0 then Streaming(flags.streamSize)
    else if flags.extendedStreamSize > 0 then ExtendedStreaming(flags.extendedStreamSize)
    else Plain
  }

  /** The speech engine, as functions of the audio fed to it. */
  datatype Engine = Engine(
    /** `DS_SpeechToText`: `None` for a null result. */
    speechToText: seq<int16> -> Option<string>,
    /** `DS_SpeechToTextWithMetadata` asked for at most the given number of candidates. */
    withMetadata: (seq<int16>, nat) -> Transcript.Metadata,
    /** `DS_IntermediateDecode` after the given audio was fed to a stream. */
    intermediate: seq<int16> -> string,
    /** `DS_IntermediateDecodeWithMetadata` asked for one candidate. */
    intermediateMetadata: seq<int16> -> Transcript.Metadata,
    /** `DS_FinishStream` after the given audio was fed to a stream. */
    finish: seq<int16> -> string,
    /** `DS_FinishStreamWithMetadata` asked for one candidate. */
    finishMetadata: seq<int16> -> Transcript.Metadata)

  /**
   * What the model relies on: metadata asked for k > 0 candidates holds
   * between one and k of them, and metadata asked for one holds one, so the
   * first candidate the source reads is always there.
   */
  ghost predicate EngineOk(e: Engine)
  {
    && (forall audio, k :: k > 0 ==> 1 <= |e.withMetadata(audio, k).transcripts| <= k)
    && (forall audio :: |e.intermediateMetadata(audio).transcripts| == 1)
    && (forall audio :: |e.finishMetadata(audio).transcripts| == 1)
  }

  /** The text of the best candidate; empty for metadata without candidates. */
  function BestText(m: Transcript.Metadata): string
  {
    if m.transcripts == [] then "" else Transcript.TokensText(m.transcripts[0].tokens)
  }

  /** The text of the best candidate of each metadata. */
  function BestTexts(ms: seq<Transcript.Metadata>): (ts: seq<string>)
    ensures |ts| == |ms| && forall i :: 0 <= i < |ms| ==> ts[i] == BestText(ms[i])
  {
    seq(|ms|, i requires 0 <= i < |ms| => BestText(ms[i]))
  }

  /** The partial transcripts of the extended streaming mode: the best text of each partial's metadata. */
  function IntermediateTexts(e: Engine, audio: seq<int16>, size: nat): seq<string>
    requires size > 0
  {
    BestTexts(Streaming.Partials(e.intermediateMetadata, audio, size))
  }

  /**
   * What `LocalDsSTT` produces in a mode: the result string (`None` for a
   * null one) and the lines it prints on the way. A stream that cannot be
   * created gives the empty string.
   */
  function Decode(mode: Mode, e: Engine, audio: seq<int16>, streamOk: bool, render: real -> string): (Option<string>, seq<string>)
    requires (mode.Streaming? || mode.ExtendedStreaming?) ==> mode.size > 0
  {
    match mode
    case ExtendedMetadata => (Some(BestText(e.withMetadata(audio, 1))), [])
    case Json(k) => (Some(Transcript.MetadataJSON(e.withMetadata(audio, k), render)), [])
    case Streaming(size) =>
      if !streamOk then (Some(""), [])
      else (Some(e.finish(audio)), Streaming.Emitted(Streaming.Partials(e.intermediate, audio, size)))
    case ExtendedStreaming(size) =>
      if !streamOk then (Some(""), [])
      else (Some(BestText(e.finishMetadata(audio))), Streaming.Emitted(IntermediateTexts(e, audio, size)))
    case Plain => (e.speechToText(audio), [])
  }

  /** With the default options and neither output flag, the plain call is made and nothing else is printed. */
  lemma DefaultDecodeIsPlain(e: Engine, audio: seq<int16>, streamOk: bool, render: real -> string)
    ensures Decode(SelectMode(false, false, DefaultFlags), e, audio, streamOk, render) == (e.speechToText(audio), [])
  {
  }

  /**
   * In JSON mode with the default options the JSON holds the best candidate
   * and at most two alternatives, and an alternatives array exactly when the
   * engine returned more than one candidate.
   */
  lemma DefaultJsonCandidates(e: Engine, audio: seq<int16>, render: real -> string)
    requires EngineOk(e)
    ensures SelectMode(false, true, DefaultFlags) == Json(3)
    ensures var ts := e.withMetadata(audio, 3).transcripts;
      1 <= |ts| <= 3 && |ts[1..]| <= 2
    ensures var ts := e.withMetadata(audio, 3).transcripts;
      var alts := Transcript.AlternativeObjects(ts[1..], render);
      && Decode(Json(3), e, audio, true, render).0 == Some(
           "{\n" + Transcript.TranscriptJSON(ts[0], render) + Transcript.AlternativesJSON(ts[1..], render) + "\n}\n")
      && |alts| <= 2
      && (|ts| == 1 ==> Transcript.AlternativesJSON(ts[1..], render) == "")
      && (|ts| > 1 ==>
            Transcript.AlternativesJSON(ts[1..], render) == Transcript.AlternativesOpen + Text.Join(alts, ",\n") + "\n]")
  {
    var ts := e.withMetadata(audio, 3).transcripts;
    assert 1 <= |ts| <= 3;
    var best, rest := Transcript.TranscriptJSON(ts[0], render), Transcript.AlternativesJSON(ts[1..], render);
    assert Transcript.MetadataJSON(e.withMetadata(audio, 3), render) == "{\n" + (best + rest) + "\n}\n";
    assert "{\n" + (best + rest) == "{\n" + best + rest;
  }

  /** A stream that cannot be created prints nothing and gives the empty string. */
  lemma StreamFailureIsEmpty(mode: Mode, e: Engine, audio: seq<int16>, render: real -> string)
    requires mode.Streaming? || mode.ExtendedStreaming?
    requires mode.size > 0
    ensures Decode(mode, e, audio, false, render) == (Some(""), [])
  {
  }

  /** In a streaming mode no two consecutive printed partials are equal, and each is one of the partials decoded. */
  lemma StreamedLines(mode: Mode, e: Engine, audio: seq<int16>, render: real -> string)
    requires mode.Streaming? || mode.ExtendedStreaming?
    requires mode.size > 0
    ensures var printed := Decode(mode, e, audio, true, render).1;
      var ps := if mode.Streaming? then Streaming.Partials(e.intermediate, audio, mode.size) else IntermediateTexts(e, audio, mode.size);
      && (forall i :: 0 < i < |printed| ==> printed[i - 1] != printed[i])
      && (forall p :: p in printed ==> p in ps)
      && |printed| <= |Chunking.Chunks(|audio|, mode.size)|
  {
    var ps := if mode.Streaming? then Streaming.Partials(e.intermediate, audio, mode.size) else IntermediateTexts(e, audio, mode.size);
    Streaming.EmittedNoRepeats(ps);
    Streaming.EmittedFrom(ps);
  }

  /** The text `ProcessFile` returns for a result string: its spaces tidied, or empty for a null one. */
  function FileText(r: Option<string>): string
  {
    match r
    case None => ""
    case Some(s) => Text.CleanTranscript(s)
  }

  class LibGenisys {
    var inputResampler: Resampling.ResamplingFifo?
    var currentBlockSize: int
    var currentInputSampleRate: int
    /** The `DS_AddHotWord` calls the constructor made, in order. */
    var hotWordCalls: seq<HotWords.HotWordCall>
    const flags: Flags
    const engine: Engine
    const converter: Resampling.Converter
    /** How a float is written by the output stream. */
    const render: real -> string
    /** Strings owned by the caller: results and partials of the engine, `strdup` and `malloc` copies. */
    const strings: Heaps.Heap<string>
    /** Metadata owned by the caller, released with `DS_FreeMetadata`. */
    const metadata: Heaps.Heap<Transcript.Metadata>

    ghost function Footprint(): set<object>
      reads this
    {
      if inputResampler == null then {} else {inputResampler, inputResampler.outputFifo}
    }

    ghost predicate Valid()
      reads this, Footprint(), strings, metadata
    {
      && EngineOk(engine) && Resampling.ConverterOk(converter)
      && strings.Valid() && metadata.Valid() && strings as object != metadata
      && (inputResampler != null ==>
            && inputResampler.Valid() && inputResampler.converter == converter
            && inputResampler.numChannels == 1
            && inputResampler.outputFifo.capacity == ResamplerMaxSamples
            && inputResampler.blockSize == currentBlockSize)
    }

    /** `initialize` with these arguments has nothing left to do. */
    predicate Settled(expectedBlockSize: int, sampleRate: int)
      reads this
    {
      inputResampler != null && currentBlockSize == expectedBlockSize && currentInputSampleRate == sampleRate
    }

    /**
     * The constructor: the model and the scorer are loaded (their statuses
     * are parameters, nonzero for a failure, which ends construction early),
     * then the hot words are registered. The sample rate the object starts
     * with is left unset by the source; here it is a parameter.
     */
    constructor (
      modelStatus: int, scorerStatus: int,
      addHotWord: (string, real) -> int, strtof: string -> real,
      engine: Engine, converter: Resampling.Converter, render: real -> string,
      initialSampleRate: int)
      requires EngineOk(engine) && Resampling.ConverterOk(converter)
      ensures Valid() && inputResampler == null && flags == DefaultFlags
      ensures currentInputSampleRate == initialSampleRate
      ensures strings.live == map[] && metadata.live == map[]
      ensures hotWordCalls ==
        if modelStatus != 0 || scorerStatus != 0 then []
        else HotWords.Registration(HotWords.DefaultPairs, addHotWord, strtof)
    {
      this.engine, this.converter, this.render := engine, converter, render;
      flags := DefaultFlags;
      strings := new Heaps.Heap<string>();
      metadata := new Heaps.Heap<Transcript.Metadata>();
      inputResampler, currentBlockSize, currentInputSampleRate := null, 0, initialSampleRate;
      hotWordCalls := [];
      new;
      if modelStatus != 0 {
        return;
      }
      if scorerStatus != 0 {
        return;
      }
      var hotWords := HotWords.HotWordSpec;
      HotWords.DefaultSpecReady(hotWords);
      hotWordCalls := HotWords.RegisterHotWords(hotWords, addHotWord, strtof);
    }

    /**
     * `initialize`: the resampler is created on first use, resized when the
     * block size changes, and retuned and reset when the input rate changes.
     * A rate below 16 kHz draws a warning. A second call with the same
     * arguments changes nothing.
     */
    method Initialize(expectedBlockSize: int, sampleRate: int) returns (status: Status, warned: bool)
      requires Valid() && expectedBlockSize >= 0
      modifies this, Footprint()
      ensures Valid() && status == Ok && (warned <==> sampleRate < TargetSampleRate)
      ensures Settled(expectedBlockSize, sampleRate) && hotWordCalls == old(hotWordCalls)
      ensures old(inputResampler) == null ==> fresh(inputResampler)
      ensures old(inputResampler) != null ==> inputResampler == old(inputResampler)
      ensures inputResampler.ratio ==
        if old(currentInputSampleRate) != sampleRate then Resampling.RatioOf(sampleRate as real, TargetSampleRate as real)
        else if old(inputResampler) == null then Resampling.Finite(1.0)
        else old(inputResampler.ratio)
      ensures old(Settled(expectedBlockSize, sampleRate)) ==>
        inputResampler.srcState == old(inputResampler.srcState) &&
        inputResampler.outputFifo.frames == old(inputResampler.outputFifo.frames)
      ensures !old(Settled(expectedBlockSize, sampleRate)) ==>
        inputResampler.srcState == [] && inputResampler.outputFifo.frames == []
    {
      warned := sampleRate < TargetSampleRate;
      if inputResampler == null {
        currentBlockSize := expectedBlockSize;
        inputResampler := new Resampling.ResamplingFifo(expectedBlockSize, 1, ResamplerMaxSamples, converter);
      } else if currentBlockSize != expectedBlockSize {
        currentBlockSize := expectedBlockSize;
        inputResampler.SetSize(currentBlockSize, 1, ResamplerMaxSamples);
      }
      if currentInputSampleRate != sampleRate {
        currentInputSampleRate := sampleRate;
        inputResampler.SetResamplingRatio(currentInputSampleRate as real, TargetSampleRate as real);
        inputResampler.Reset();
      }
      status := Ok;
    }

    /**
     * `LocalDsSTT`: the recogniser run in the mode the flags select. The
     * result string is handed to the caller (`r` is its handle, `None` for a
     * null result); every other buffer allocated on the way is released, each
     * once, and `printed` is what was printed.
     */
    method LocalDsSTT(audio: seq<int16>, extendedOutput: bool, jsonOutput: bool, streamOk: bool)
      returns (r: Option<nat>, printed: seq<string>)
      requires Valid()
      modifies strings, metadata
      ensures Valid()
      ensures var out := Decode(SelectMode(extendedOutput, jsonOutput, flags), engine, audio, streamOk, render);
        && printed == out.1
        && (r.Some? <==> out.0.Some?)
        && Heaps.Since(strings, old(strings.live), if r.Some? then Some((r.value, out.0.value)) else None)
      ensures Heaps.Since(metadata, old(metadata.live), None)
    {
      ghost var live0 := strings.live;
      ghost var mlive0 := metadata.live;
      if extendedOutput {
        var text := BestTextOf(engine.withMetadata(audio, 1), mlive0);
        var h := Hand(text, live0);
        r, printed := Some(h), [];
      } else if jsonOutput {
        var text := JsonOf(engine.withMetadata(audio, flags.jsonCandidateTranscripts), mlive0);
        var h := Hand(text, live0);
        r, printed := Some(h), [];
      } else if flags.streamSize > 0 {
        r, printed := StreamDecode(audio, flags.streamSize, streamOk);
      } else if flags.extendedStreamSize > 0 {
        r, printed := ExtendedStreamDecode(audio, flags.extendedStreamSize, streamOk);
      } else {
        var text := engine.speechToText(audio);
        if text.Some? {
          var h := Hand(text.value, live0);
          r := Some(h);
        } else {
          r := None;
        }
        printed := [];
      }
    }

    /** A string handed over to the caller: a new buffer, the one kept. */
    method Hand(text: string, ghost live0: map<nat, string>) returns (h: nat)
      requires Heaps.Since(strings, live0, None)
      modifies strings
      ensures Heaps.Since(strings, live0, Some((h, text)))
    {
      h := strings.Alloc(text);
    }

    /**
     * Metadata from the engine, read for the text of its best candidate
     * (`CandidateTranscriptToString`) and released (`DS_FreeMetadata`).
     */
    method BestTextOf(m: Transcript.Metadata, ghost live0: map<nat, Transcript.Metadata>)
      returns (text: string)
      requires |m.transcripts| >= 1
      requires Heaps.Since(metadata, live0, None)
      modifies metadata
      ensures Heaps.Since(metadata, live0, None)
      ensures text == BestText(m)
    {
      var h := metadata.Alloc(m);
      text := Transcript.CandidateTranscriptToString(metadata.live[h].transcripts[0]);
      metadata.Free(h);
    }

    /** Metadata from the engine, written as JSON (`MetadataToJSON`) and released. */
    method JsonOf(m: Transcript.Metadata, ghost live0: map<nat, Transcript.Metadata>)
      returns (text: string)
      requires Heaps.Since(metadata, live0, None)
      modifies metadata
      ensures Heaps.Since(metadata, live0, None)
      ensures text == Transcript.MetadataJSON(m, render)
    {
      var h := metadata.Alloc(m);
      text := Transcript.MetadataToJSON(metadata.live[h], render);
      metadata.Free(h);
    }

    /**
     * A partial arrives from the engine in a new buffer. It is printed and
     * kept when there is no kept partial or it differs from the kept one
     * (`prev`), and released otherwise; the kept one is released once it is
     * no longer kept.
     */
    method TakePartial(
      partial: string, last: Option<nat>, ghost prev: string,
      ghost live0: map<nat, string>)
      returns (kept: nat, shown: seq<string>)
      requires Heaps.Since(strings, live0, Held(last, prev))
      modifies strings
      ensures Heaps.Since(strings, live0, Held(Some(kept), partial))
      ensures shown == if last.None? || prev != partial then [partial] else []
    {
      var p := strings.Alloc(partial);
      if last.None? || strings.live[last.value] != strings.live[p] {
        shown := [strings.live[p]];
        kept := p;
      } else {
        strings.Free(p);
        shown := [];
        kept := last.value;
      }
      if last.Some? && last.value != kept {
        strings.Free(last.value);
      }
    }

    /** Partial k of a stream arrives: it is taken, and printed when it differs from partial k - 1. */
    method TakeNth(
      ghost ps: seq<string>, ghost k: nat, text: string, last: Option<nat>, printed: seq<string>,
      ghost prev: string, ghost live0: map<nat, string>)
      returns (last': Option<nat>, printed': seq<string>, ghost prev': string)
      requires k < |ps| && text == ps[k] && printed == Streaming.EmittedPrefix(ps, k)
      requires (last.None? <==> k == 0) && (k > 0 ==> prev == ps[k - 1])
      requires Heaps.Since(strings, live0, Held(last, prev))
      modifies strings
      ensures printed' == Streaming.EmittedPrefix(ps, k + 1) && last'.Some? && prev' == ps[k]
      ensures Heaps.Since(strings, live0, Held(last', prev'))
    {
      var kept, shown := TakePartial(text, last, prev, live0);
      last', printed', prev' := Some(kept), printed + shown, text;
    }

    /** The next chunk is fed, and partial k read from the metadata decoded then, which is released. */
    method NextIntermediateText(
      audio: seq<int16>, size: nat, off: nat, ghost k: nat, ghost mlive0: map<nat, Transcript.Metadata>)
      returns (off': nat, text: string)
      requires size > 0 && k <= |Chunking.Chunks(|audio|, size)| && off < |audio|
      requires off == if k * size < |audio| then k * size else |audio|
      requires forall a :: |engine.intermediateMetadata(a).transcripts| == 1
      requires Heaps.Since(metadata, mlive0, None)
      modifies metadata
      ensures var ps := IntermediateTexts(engine, audio, size);
        && k < |ps| && text == ps[k] && off' <= |audio|
        && off' == (if (k + 1) * size < |audio| then (k + 1) * size else |audio|)
      ensures Heaps.Since(metadata, mlive0, None)
    {
      var cur := if |audio| - off > size then size else |audio| - off;
      IntermediateTextAt(engine, audio, size, k, off);
      off' := off + cur;
      text := BestTextOf(engine.intermediateMetadata(audio[..off']), mlive0);
    }

    /**
     * One pass of the extended streaming loop: the next chunk (at most `size`
     * samples) is fed, the partial's metadata is read for its best text and
     * released, and the text is taken as partial k.
     */
    method ExtendedChunk(
      audio: seq<int16>, size: nat, off: nat, last: Option<nat>, printed: seq<string>,
      ghost k: nat, ghost prev: string,
      ghost live0: map<nat, string>, ghost mlive0: map<nat, Transcript.Metadata>)
      returns (off': nat, last': Option<nat>, printed': seq<string>, ghost prev': string)
      requires size > 0 && k <= |Chunking.Chunks(|audio|, size)| && off < |audio|
      requires off == if k * size < |audio| then k * size else |audio|
      requires forall a :: |engine.intermediateMetadata(a).transcripts| == 1
      requires var ps := IntermediateTexts(engine, audio, size);
        && k <= |ps| && printed == Streaming.EmittedPrefix(ps, k)
        && (last.None? <==> k == 0) && (k > 0 ==> prev == ps[k - 1])
      requires Heaps.Since(strings, live0, Held(last, prev))
      requires Heaps.Since(metadata, mlive0, None)
      requires strings as object != metadata
      modifies strings, metadata
      ensures var ps := IntermediateTexts(engine, audio, size);
        && k < |ps| && printed' == Streaming.EmittedPrefix(ps, k + 1)
        && last'.Some? && prev' == ps[k] && off' <= |audio|
        && off' == (if (k + 1) * size < |audio| then (k + 1) * size else |audio|)
      ensures Heaps.Since(strings, live0, Held(last', prev'))
      ensures Heaps.Since(metadata, mlive0, None)
    {
      var text;
      off', text := NextIntermediateText(audio, size, off, k, mlive0);
      last', printed', prev' := TakeNth(IntermediateTexts(engine, audio, size), k, text, last, printed, prev, live0);
    }

    /** One pass of the streaming loop: the next chunk (at most `size` samples) is fed and partial k, decoded then, is taken. */
    method StreamChunk(
      audio: seq<int16>, size: nat, off: nat, last: Option<nat>, printed: seq<string>,
      ghost k: nat, ghost prev: string, ghost live0: map<nat, string>)
      returns (off': nat, last': Option<nat>, printed': seq<string>, ghost prev': string)
      requires size > 0 && k <= |Chunking.Chunks(|audio|, size)| && off < |audio|
      requires off == if k * size < |audio| then k * size else |audio|
      requires var ps := Streaming.Partials(engine.intermediate, audio, size);
        && k <= |ps| && printed == Streaming.EmittedPrefix(ps, k)
        && (last.None? <==> k == 0) && (k > 0 ==> prev == ps[k - 1])
      requires Heaps.Since(strings, live0, Held(last, prev))
      modifies strings
      ensures var ps := Streaming.Partials(engine.intermediate, audio, size);
        && k < |ps| && printed' == Streaming.EmittedPrefix(ps, k + 1)
        && last'.Some? && prev' == ps[k] && off' <= |audio|
        && off' == (if (k + 1) * size < |audio| then (k + 1) * size else |audio|)
      ensures Heaps.Since(strings, live0, Held(last', prev'))
    {
      var cur := if |audio| - off > size then size else |audio| - off;
      NextChunk(engine.intermediate, audio, size, k, off);
      off' := off + cur;
      var text := engine.intermediate(audio[..off']);
      last', printed', prev' := TakeNth(Streaming.Partials(engine.intermediate, audio, size), k, text, last, printed, prev, live0);
    }

    /** The streaming branch: chunks of `size` samples, a partial after each, the final text at the end. */
    method StreamDecode(audio: seq<int16>, size: nat, streamOk: bool) returns (r: Option<nat>, printed: seq<string>)
      requires Valid() && size > 0
      modifies strings
      ensures Valid()
      ensures var out := Decode(Streaming(size), engine, audio, streamOk, render);
        && printed == out.1 && r.Some? && out.0.Some?
        && Heaps.Since(strings, old(strings.live), Some((r.value, out.0.value)))
    {
      ghost var live0 := strings.live;
      if !streamOk {
        var h := Hand("", live0);
        r, printed := Some(h), [];
        return;
      }
      ghost var ps := Streaming.Partials(engine.intermediate, audio, size);
      var last;
      last, printed := StreamPartials(audio, size);
      if last.Some? {
        strings.Release(last.value, ps[|ps| - 1], live0);
      }
      var h := Hand(engine.finish(audio), live0);
      r := Some(h);
    }

    /**
     * The chunk loop of the streaming branch: all the audio is fed, every
     * partial is decoded, the ones that differ from the one before are
     * printed, and only the last one is still held.
     */
    method StreamPartials(audio: seq<int16>, size: nat) returns (last: Option<nat>, printed: seq<string>)
      requires strings.Valid() && size > 0
      modifies strings
      ensures var ps := Streaming.Partials(engine.intermediate, audio, size);
        && printed == Streaming.Emitted(ps)
        && (last.None? <==> ps == [])
        && Heaps.Since(strings, old(strings.live), if ps == [] then None else Some((last.value, ps[|ps| - 1])))
    {
      var n := |audio|;
      ghost var ps := Streaming.Partials(engine.intermediate, audio, size);
      ghost var cs := Chunking.Chunks(n, size);
      ghost var live0 := strings.live;
      var off: nat := 0;
      last := None;
      ghost var k: nat := 0;
      ghost var prev := "";
      printed := [];
      while off < n
        invariant k <= |cs| && off <= n && off == if k * size < n then k * size else n
        invariant printed == Streaming.EmittedPrefix(ps, k)
        invariant last.None? <==> k == 0
        invariant k > 0 ==> prev == ps[k - 1]
        invariant Heaps.Since(strings, live0, Held(last, prev))
        decreases n - off
      {
        off, last, printed, prev := StreamChunk(audio, size, off, last, printed, k, prev, live0);
        k := k + 1;
      }
      LoopDone(ps, n, size, k, off);
    }

    /** The extended streaming branch: as the streaming one, with partials and the final text from metadata. */
    method ExtendedStreamDecode(audio: seq<int16>, size: nat, streamOk: bool) returns (r: Option<nat>, printed: seq<string>)
      requires Valid() && size > 0
      modifies strings, metadata
      ensures Valid()
      ensures var out := Decode(ExtendedStreaming(size), engine, audio, streamOk, render);
        && printed == out.1 && r.Some? && out.0.Some?
        && Heaps.Since(strings, old(strings.live), Some((r.value, out.0.value)))
      ensures Heaps.Since(metadata, old(metadata.live), None)
    {
      ghost var live0 := strings.live;
      ghost var mlive0 := metadata.live;
      if !streamOk {
        var h := Hand("", live0);
        r, printed := Some(h), [];
        return;
      }
      ghost var ps := IntermediateTexts(engine, audio, size);
      var last;
      last, printed := ExtendedStreamPartials(audio, size);
      var text := BestTextOf(engine.finishMetadata(audio), mlive0);
      if last.Some? {
        strings.Release(last.value, ps[|ps| - 1], live0);
      }
      var h := Hand(text, live0);
      r := Some(h);
    }

    /** The chunk loop of the extended streaming branch; each partial's metadata is released once read. */
    method ExtendedStreamPartials(audio: seq<int16>, size: nat) returns (last: Option<nat>, printed: seq<string>)
      requires strings.Valid() && metadata.Valid() && strings as object != metadata && size > 0
      requires forall a :: |engine.intermediateMetadata(a).transcripts| == 1
      modifies strings, metadata
      ensures var ps := IntermediateTexts(engine, audio, size);
        && printed == Streaming.Emitted(ps)
        && (last.None? <==> ps == [])
        && Heaps.Since(strings, old(strings.live), if ps == [] then None else Some((last.value, ps[|ps| - 1])))
      ensures Heaps.Since(metadata, old(metadata.live), None)
    {
      var n := |audio|;
      ghost var ps := IntermediateTexts(engine, audio, size);
      ghost var cs := Chunking.Chunks(n, size);
      ghost var live0 := strings.live;
      ghost var mlive0 := metadata.live;
      var off: nat := 0;
      last := None;
      ghost var k: nat := 0;
      ghost var prev := "";
      printed := [];
      while off < n
        invariant k <= |cs| && off <= n && off == if k * size < n then k * size else n
        invariant printed == Streaming.EmittedPrefix(ps, k)
        invariant last.None? <==> k == 0
        invariant k > 0 ==> prev == ps[k - 1]
        invariant Heaps.Since(strings, live0, Held(last, prev))
        invariant Heaps.Since(metadata, mlive0, None)
        decreases n - off
      {
        off, last, printed, prev := ExtendedChunk(audio, size, off, last, printed, k, prev, live0, mlive0);
        k := k + 1;
      }
      LoopDone(ps, n, size, k, off);
    }

    /**
     * `ProcessFile` on the bytes of a file: they are read as 16-bit samples,
     * recognised with the configured flags, and a result string is printed,
     * tidied and released; a null result gives the empty string.
     */
    method ProcessFile(fileBytes: seq<byte>, streamOk: bool) returns (text: string, printed: seq<string>)
      requires Valid()
      modifies strings, metadata
      ensures Valid()
      ensures var out := Decode(SelectMode(flags.extendedMetadata, flags.jsonOutput, flags), engine, Pcm.Samples(fileBytes), streamOk, render);
        && text == FileText(out.0)
        && printed == out.1 + (if out.0.Some? then [out.0.value] else [])
      ensures Heaps.Since(strings, old(strings.live), None)
      ensures Heaps.Since(metadata, old(metadata.live), None)
    {
      var audio := Pcm.Samples(fileBytes);
      var r;
      r, printed := LocalDsSTT(audio, flags.extendedMetadata, flags.jsonOutput, streamOk);
      if r.Some? {
        var s := strings.live[r.value];
        printed := printed + [s];
        text := Text.CleanTranscript(s);
        strings.Free(r.value);
      } else {
        text := "";
      }
    }
  }

  /**
   * One pass of a streaming loop that keeps `off == min(n, k * size)`: the
   * next chunk is the rest of the audio, at most `size` samples of it, and
   * the partial decoded once it is fed is partial k.
   */
  lemma NextChunk<R>(decode: seq<int16> -> R, audio: seq<int16>, size: nat, k: nat, off: nat)
    requires size > 0 && k <= |Chunking.Chunks(|audio|, size)| && off < |audio|
    requires off == if k * size < |audio| then k * size else |audio|
    ensures var cur := if |audio| - off > size then size else |audio| - off;
      var ps := Streaming.Partials(decode, audio, size);
      && k < |ps| && off + cur <= |audio|
      && off + cur == (if (k + 1) * size < |audio| then (k + 1) * size else |audio|)
      && ps[k] == decode(audio[..off + cur])
  {
    var n := |audio|;
    var cur := if n - off > size then size else n - off;
    Chunking.ChunksStep(n, size, k, off);
    var cs := Chunking.Chunks(n, size);
    assert Chunking.End(cs[k]) == off + cur;
  }

  /** The same pass in the extended streaming loop: partial k is the best text of the metadata decoded once the chunk is fed. */
  lemma IntermediateTextAt(e: Engine, audio: seq<int16>, size: nat, k: nat, off: nat)
    requires size > 0 && k <= |Chunking.Chunks(|audio|, size)| && off < |audio|
    requires off == if k * size < |audio| then k * size else |audio|
    ensures var cur := if |audio| - off > size then size else |audio| - off;
      var ps := IntermediateTexts(e, audio, size);
      && k < |ps| && off + cur <= |audio|
      && off + cur == (if (k + 1) * size < |audio| then (k + 1) * size else |audio|)
      && ps[k] == BestText(e.intermediateMetadata(audio[..off + cur]))
  {
    NextChunk(e.intermediateMetadata, audio, size, k, off);
  }

  /** A streaming loop that keeps `off == min(n, k * size)` stops once every partial has arrived, and has printed them all. */
  lemma LoopDone(ps: seq<string>, n: nat, size: nat, k: nat, off: nat)
    requires size > 0 && |ps| == |Chunking.Chunks(n, size)| && k <= |ps|
    requires off == (if k * size < n then k * size else n) && off >= n
    ensures k == |ps| && Streaming.EmittedPrefix(ps, k) == Streaming.Emitted(ps)
  {
    Chunking.ChunksStep(n, size, k, off);
    Streaming.EmittedPrefixAll(ps, k);
    assert ps[..k] == ps;
  }

  /** The kept buffer, when there is one, and what it holds. */
  function Held(last: Option<nat>, v: string): Option<(nat, string)>
  {
    if last.Some? then Some((last.value, v)) else None
  }

}
