# libgenisys speech front end, modelled in Dafny

This project models the core of libgenisys, a speech-to-text front end built on a
DeepSpeech model. It covers four parts:

- **Transcript assembly.** `LibGenisysImpl` turns the engine's token arrays into plain text
  (`CandidateTranscriptToString`), into time-stamped words (`CandidateTranscriptToWords`)
  and into JSON (`CandidateTranscriptToJSON`, `MetadataToJSON`).
- **Decoding.** `LocalDsSTT` runs the recogniser in exactly one of five modes: extended
  metadata, JSON, streaming, extended streaming or plain. The streaming modes feed the
  audio in chunks and print each partial transcript that differs from the previous one.
  Every engine buffer they receive is released exactly once.
- **Configuration.** The constructor registers the hot words of the built-in spec
  `"genesis:5,open:3,close:3,pro:3,tools:3"`, using `SplitStringOnDelim`, which has
  `strtok` semantics on NUL-free strings with ASCII delimiters. `initialize` creates or
  resizes the input resampler, and resets it only when the input rate changes. `ProcessFile` reads a file's bytes as 16-bit samples
  and tidies the spaces of the resulting text.
- **`ResamplingFifo`** of the GIN library. It cuts a pushed buffer into slices of at most
  `blockSize` frames, drives the sample-rate converter over each slice until every frame
  is used, and queues the converted frames in a bounded FIFO.

Files:

| file | contents |
|---|---|
| `common.dfy` | `Option`, `int16`, `byte`, `Min`/`Max` |
| `text.dfy` | `SplitStringOnDelim` and its specification `Split`; the `ProcessFile` space clean-up |
| `transcript.dfy` | tokens, words and JSON |
| `hotwords.dfy` | hot-word spec parsing and the registration loop |
| `chunks.dfy` | cutting `n` items into pieces of at most `size` (used by streaming and by `pushAudioBuffer`) |
| `streaming.dfy` | partial transcripts and which of them are printed |
| `heap.dfy` | ownership of the buffers the engine hands out (ghost record of releases) |
| `pcm.dfy` | bytes to 16-bit little-endian samples and back |
| `audio_fifo.dfy` | the bounded frame FIFO (`AudioFifo`) |
| `resampling.dfy` | `ResamplingFifo` |
| `genisys.dfy` | the `LibGenisysImpl` class: constructor, `initialize`, `LocalDsSTT`, `ProcessFile` |

Foreign code becomes parameters:

- The speech engine is the record `Genisys.Engine`: total functions from the audio fed so
  far to a result. The engine is therefore deterministic.
- `Genisys.EngineOk` states what the model assumes of the engine:
  - metadata asked for k > 0 candidates holds between 1 and k of them;
  - intermediate and final stream metadata holds exactly one candidate.
  The source reads `result->transcripts[0]` without checking for a null result or an empty
  candidate list (src/LibGenisysImpl.cpp:192-193, 269-270 and 289-290), so those cases are
  undefined behaviour in the source. The assumption excludes them; it does not model them.
- The libsamplerate converter is `Resampling.Converter`. `ConverterOk` states what the
  model relies on: a call uses at most the input it is given, produces at most `4*blockSize`
  frames, consumes at least one frame of a non-empty input when it has a state (at least
  one channel) and the ratio is one libsamplerate accepts (`Accepts`), and otherwise uses
  and produces nothing.
- `strtof`, `DS_AddHotWord`, the model and scorer load statuses and `DS_CreateStream`'s
  status are parameters.
- How the output stream prints a float is the abstract `render: real -> string`.
- Times, confidences and audio samples are `real`.

## Model

| member | source | states |
|---|---|---|
| `Text.SplitStringOnDelim` | src/LibGenisysImpl.cpp:424-440 | the `strtok` loop returns exactly `Split(s, delim)`, for strings without NUL and with one-byte delimiters |
| `Text.Split` | src/LibGenisysImpl.cpp:424-440 | every piece is non-empty and contains no delimiter |
| `Text.SplitConcat` | src/LibGenisysImpl.cpp:424-440 | the pieces concatenated are the input with every delimiter removed: nothing else is dropped, and order is kept |
| `Text.SplitAround` | src/LibGenisysImpl.cpp:424-440 | a delimiter separates the pieces before it from the pieces after it; pieces are maximal runs |
| `Text.SplitJoin` | src/LibGenisysImpl.cpp:424-440 | splitting a delimiter-joined list of non-empty delimiter-free words gives the words back |
| `Text.RunLengthUnique` | src/LibGenisysImpl.cpp:430-436 | the run `strtok` returns ends exactly at the first delimiter |
| `Text.CleanTranscriptIsJoin` | src/LibGenisysImpl.cpp:169 | the regex replacement (leading spaces, trailing spaces, runs of two or more spaces, each replaced by its capture) yields the space-separated words joined by single spaces |
| `Text.CleanTranscriptShape` | src/LibGenisysImpl.cpp:169 | the cleaned text has no leading, trailing or doubled space |
| `Text.CleanTranscriptKeepsWords` | src/LibGenisysImpl.cpp:169 | the clean-up changes no word and no word order |
| `Text.CleanTranscriptIdempotent` | src/LibGenisysImpl.cpp:169 | cleaning twice equals cleaning once |
| `Transcript.CandidateTranscriptToString` | src/LibGenisysImpl.cpp:306-315 | the loop returns the token texts concatenated in order with no separator (`TokensText`) |
| `Transcript.TokensTextAppend` | src/LibGenisysImpl.cpp:306-315 | the text of concatenated token runs is the concatenation of their texts |
| `Transcript.CandidateTranscriptToWords` | src/LibGenisysImpl.cpp:317-361 | the scan returns `Words(tokens)`: one word per segment that ends at a space token or at the last token |
| `Transcript.WordsCount` | src/LibGenisysImpl.cpp:339-358 | there is one word per space token, plus one when the last token is not a space; an empty token list gives no words |
| `Transcript.WordsSpellTokens` | src/LibGenisysImpl.cpp:328-337 | the word texts concatenated are the non-space token texts in order, so nothing is lost or invented |
| `Transcript.WordStartIsFirst` | src/LibGenisysImpl.cpp:331-335 | a word starts at its first non-space token with non-empty text |
| `Transcript.WordStartNoWord` | src/LibGenisysImpl.cpp:321-357 | a word with no non-space token starts at 0 |
| `Transcript.WordsDurations` | src/LibGenisysImpl.cpp:342-347 | no word duration is negative |
| `Transcript.WordsAppend` | src/LibGenisysImpl.cpp:340-358 | after a space token, word segmentation starts afresh |
| `Transcript.WordsExample` | src/LibGenisysImpl.cpp:317-361 | tokens `a b " " c d` give the words `ab` and `cd`, with start times and durations clamped at 0 |
| `Transcript.CandidateTranscriptToJSON` | src/LibGenisysImpl.cpp:363-385 | the output is the confidence member followed by the word objects joined by commas with no trailing comma (`TranscriptJSON`); word text is not escaped |
| `Transcript.MetadataToJSON` | src/LibGenisysImpl.cpp:387-422 | the output is `MetadataJSON`: `"{\n"`, then the best candidate, then an `"alternatives"` array of candidates 1..n-1 in engine order (each in braces, separated by `",\n"`) only when there are at least two candidates, then `"\n}\n"` |
| `Transcript.SingleCandidateJSON` | src/LibGenisysImpl.cpp:396-404 | with one candidate, no alternatives array is written |
| `Transcript.JsonExample` | src/LibGenisysImpl.cpp:363-422 | one candidate with confidence 0.87 and the word `hello` gives exactly the expected document |
| `HotWords.FindFirstNotOf` | src/LibGenisysImpl.cpp:32 | the result is absent iff every character is in the set; otherwise it is the first position outside the set |
| `HotWords.BoostExamples` | src/LibGenisysImpl.cpp:32 | `"5"`, `"-2.5"` and `""` pass the boost check; `"5x"` and `"1e3"` fail it |
| `HotWords.RegisterHotWords` | src/LibGenisysImpl.cpp:23-40 | the loop makes exactly the calls of `Registration` over the spec split on `,` and each entry split on `:` |
| `HotWords.RegistrationStops` | src/LibGenisysImpl.cpp:26-39 | the calls cover a prefix of the entries, in order; every entry before the last call was accepted; registration ends early only at an entry refused by the engine or with an invalid boost |
| `HotWords.RegistrationAll` | src/LibGenisysImpl.cpp:26-39 | when every entry is accepted, every entry is registered |
| `HotWords.DefaultSpecEntries` | src/LibGenisysImpl.h:54 | the built-in spec splits on `,` into its five entries |
| `HotWords.DefaultSpecWellFormed` | src/LibGenisysImpl.h:54 | each built-in entry splits on `:` into its word and a boost that passes the check |
| `HotWords.DefaultSpecReady` | src/LibGenisysImpl.h:54 | the built-in spec gives the five word/boost pairs the constructor registers |
| `Chunking.ChunksTile` | src/LibGenisysImpl.cpp:213-221 | the chunks start at 0, each starts where the previous one ended, the last ends at the buffer size, and each has between 1 and `size` items |
| `Chunking.ChunksCount` | libgenisys-dsp/gin/gin_resamplingfifo.h:75-89 | the number of slices is ceil(n / size) |
| `Chunking.ChunksStep` | src/LibGenisysImpl.cpp:217-221 | at offset `off`, the next chunk has length `min(size, n - off)`, and the loop stops exactly when every chunk has been produced |
| `Chunking.ChunksSingle` | libgenisys-dsp/gin/gin_resamplingfifo.h:69-72 | a buffer of at most `size` items is one piece |
| `Streaming.Partials` | src/LibGenisysImpl.cpp:217-223 | partial k is the decode of the audio up to the end of chunk k, with one partial per chunk |
| `Streaming.EmittedNoRepeats` | src/LibGenisysImpl.cpp:225-229 | no two consecutive printed partials are equal |
| `Streaming.EmittedFrom` | src/LibGenisysImpl.cpp:225-233 | every printed partial is a decoded partial, and there are no more prints than partials |
| `Streaming.EmittedLast` | src/LibGenisysImpl.cpp:225-229 | the last printed partial is the last partial |
| `Streaming.EmittedPair` | src/LibGenisysImpl.cpp:225-233 | two identical consecutive partials give one print; two different ones give two |
| `Streaming.EmittedRun` | src/LibGenisysImpl.cpp:225-233 | a run of equal partials is printed once |
| `Streaming.EmittedPrefixAll` | src/LibGenisysImpl.cpp:217-239 | printing partial by partial in the loop prints exactly `Emitted` of all partials |
| `Heaps.Heap.Free` | src/LibGenisysImpl.cpp:230-244 | only a buffer still owned can be released; it is recorded as released |
| `Heaps.Heap.Release` | src/LibGenisysImpl.cpp:241-244 | releasing the one buffer kept since a starting point leaves only the buffers owned at that point |
| `Genisys.SelectMode` | src/LibGenisysImpl.cpp:190-297 | exactly one mode is chosen: extended output wins over JSON, JSON over `stream_size > 0`, that over `extended_stream_size > 0`, and that over plain |
| `Genisys.DefaultDecodeIsPlain` | src/LibGenisysImpl.h:61-65 | with the default flags, decoding is the plain `DS_SpeechToText` call, with nothing printed |
| `Genisys.DefaultJsonCandidates` | src/LibGenisysImpl.h:63 | JSON mode asks for 3 candidates. Under the engine assumption `EngineOk`, the string returned in JSON mode is `"{\n"`, the best candidate, the alternatives and `"\n}\n"`. The alternatives part is empty for one candidate; otherwise it is an array of at most 2 objects |
| `Genisys.StreamFailureIsEmpty` | src/LibGenisysImpl.cpp:205-211 | when the stream cannot be created, the result is `""` and nothing is printed |
| `Genisys.StreamedLines` | src/LibGenisysImpl.cpp:217-239 | in both streaming modes, printed partials never repeat consecutively, are decoded partials, and number at most the chunk count |
| `Genisys.LibGenisys.constructor` | src/LibGenisysImpl.cpp:3-42 | a failed model or scorer load stops construction with no hot words; otherwise the hot-word calls are `Registration` of the built-in pairs |
| `Genisys.LibGenisys.Initialize` | src/LibGenisysImpl.cpp:49-77 | returns `Ok`, and warns iff rate < 16000. Afterwards the block size and rate are stored, and the resampler has 1 channel and a capacity of 2 × 96000. It is created on first use and retuned and reset iff the rate changed; a call with the stored arguments keeps its state |
| `Genisys.LibGenisys.LocalDsSTT` | src/LibGenisysImpl.cpp:183-304 | the result and the printed lines are those of `Decode` in the selected mode; only the result string stays owned; every partial and all metadata are released, each once |
| `Genisys.LibGenisys.TakePartial` | src/LibGenisysImpl.cpp:222-238 | a partial is printed and kept iff there is none or it differs from the kept one; otherwise it is released at once; a superseded kept partial is released |
| `Genisys.LibGenisys.StreamPartials` | src/LibGenisysImpl.cpp:213-239 | the chunk loop feeds all audio in order, prints `Emitted` of the partials, and holds only the last partial |
| `Genisys.LibGenisys.StreamDecode` | src/LibGenisysImpl.cpp:202-247 | the streaming branch returns the finished text after the loop, releases the last partial, and holds nothing else |
| `Genisys.LibGenisys.ExtendedStreamPartials` | src/LibGenisysImpl.cpp:259-287 | like the streaming loop, on the best text of each partial's metadata; every metadata is released in the iteration that received it |
| `Genisys.LibGenisys.ExtendedStreamDecode` | src/LibGenisysImpl.cpp:248-293 | the extended streaming branch returns the best text of the final metadata and frees that metadata and the last partial |
| `Genisys.LibGenisys.BestTextOf` | src/LibGenisysImpl.cpp:190-195 | the best candidate's text is read, and the metadata is released |
| `Genisys.LibGenisys.JsonOf` | src/LibGenisysImpl.cpp:196-201 | the metadata is written as `MetadataJSON`, and then released |
| `Genisys.LibGenisys.ProcessFile` | src/LibGenisysImpl.cpp:147-181 | the file's bytes are decoded as `buffer_size / 2` samples; a non-null result is printed, cleaned and released; a null result gives `""` |
| `Pcm.Samples` | src/LibGenisysImpl.h:24-27 | a buffer of `buffer_size` bytes holds `buffer_size / 2` 16-bit little-endian samples |
| `Pcm.SamplesOfBytes` | src/LibGenisysImpl.cpp:154-158 | reading written samples gives them back |
| `Pcm.BytesOfSamples` | src/LibGenisysImpl.cpp:154-158 | writing read samples gives back the bytes, minus an odd trailing byte |
| `Fifo.FifoOrder` | libgenisys-dsp/gin/gin_resamplingfifo.h:92 | first in, first out: queued frames are read before a later block, and that block follows intact |
| `Fifo.FifoWriteBounded` | libgenisys-dsp/gin/gin_resamplingfifo.h:132 | a write never goes past the capacity and never loses a queued frame |
| `Resampling.RatioOf` | libgenisys-dsp/gin/gin_resamplingfifo.h:50-53 | the ratio is never negative; it is output/input for a positive input rate and 0 when the quotient is negative |
| `Resampling.ResamplingFifo.SetSize` | libgenisys-dsp/gin/gin_resamplingfifo.h:35-48 | sets the channel count, block size and FIFO capacity; allocates new scratch buffers of `blockSize` and `4*blockSize` frames; starts a fresh converter; empties the FIFO; keeps the ratio |
| `Resampling.ResamplingFifo.SetResamplingRatio` | libgenisys-dsp/gin/gin_resamplingfifo.h:50-53 | stores `RatioOf(input, output)` and nothing else |
| `Resampling.ResamplingFifo.SetRatio` | libgenisys-dsp/gin/gin_resamplingfifo.h:55 | stores its argument unchanged |
| `Resampling.ResamplingFifo.Reset` | libgenisys-dsp/gin/gin_resamplingfifo.h:57-63 | the converter restarts and the FIFO is emptied, so `SamplesReady() == 0`; ratio, block size and channel count are unchanged |
| `Resampling.ResamplingFifo.SamplesReady` | libgenisys-dsp/gin/gin_resamplingfifo.h:65 | the frames ready never exceed the capacity |
| `Resampling.ResamplingFifo.PushAudioBufferInt` | libgenisys-dsp/gin/gin_resamplingfifo.h:95-135 | the `done`/`todo` loop keeps `done + todo == n` and leaves the converter state and FIFO as `Drive` describes |
| `Resampling.ResamplingFifo.QueueOutput` | libgenisys-dsp/gin/gin_resamplingfifo.h:125-133 | the generated frames are de-interleaved and queued as one write |
| `Resampling.ResamplingFifo.PushAudioBuffer` | libgenisys-dsp/gin/gin_resamplingfifo.h:67-90 | a short buffer goes through one `pushAudioBufferInt` run and a longer one through one run per slice, giving `Push` |
| `Resampling.ResamplingFifo.PopAudioBuffer` | libgenisys-dsp/gin/gin_resamplingfifo.h:92 | when the buffer's n frames are ready, fills it with the n oldest and removes them; otherwise leaves buffer and FIFO unchanged, with no signal of the underflow |
| `Resampling.RejectedStalls` | libgenisys-dsp/gin/gin_resamplingfifo.h:112-123 | with no channel or a rejected ratio, every converter call uses no frame and produces none, so `todo` never decreases |
| `Resampling.AcceptedRates` | libgenisys-dsp/gin/gin_resamplingfifo.h:50-53 | with the 16000 Hz target, libsamplerate accepts the ratio exactly for input rates from 63 to 4096000 Hz |
| `Resampling.DriveConsumesAll` | libgenisys-dsp/gin/gin_resamplingfifo.h:112-124 | when the converter makes progress, the loop hands it every input frame once, in order |
| `Resampling.DriveFifo` | libgenisys-dsp/gin/gin_resamplingfifo.h:125-133 | the FIFO only grows, keeps what it held, and never exceeds its capacity |
| `Resampling.DriveStep` | libgenisys-dsp/gin/gin_resamplingfifo.h:114-133 | the one-step unfolding of `Drive` that `PushAudioBufferInt`'s loop uses: the converter's call on the unused frames meets `ConverterOk`'s contract, a non-empty output is queued, an empty one writes nothing, and the run continues on the rest |
| `Resampling.PushIsSlicing` | libgenisys-dsp/gin/gin_resamplingfifo.h:67-90 | both branches of `pushAudioBuffer` are slicing into `Chunks(n, blockSize)` |
| `Resampling.PushConsumesAll` | libgenisys-dsp/gin/gin_resamplingfifo.h:67-90 | `pushAudioBuffer` hands the converter every frame of the buffer exactly once, in order |
| `Resampling.PushFifoBounded` | libgenisys-dsp/gin/gin_resamplingfifo.h:67-90 | `pushAudioBuffer` only appends to the FIFO and never overfills it |

## Left out

- `Text.SplitStringOnDelim`: the model splits Dafny strings on whole characters. The source
  copies both strings into NUL-terminated C strings (src/LibGenisysImpl.cpp:427-431), so a
  `'\0'` in the input or in the delimiter set cuts that string short there, and `strtok`
  compares bytes, so a non-ASCII delimiter splits on each of its UTF-8 bytes. The model
  agrees with the source only on strings without NUL and ASCII delimiters, which the
  built-in hot-word spec and its `","`/`":"` delimiters are.
- `gin_audiofifo.h` is not part of this model. `AudioFifo` is modelled as a queue with a
  capacity in frames, whose `write` and `read` move all requested frames or none.
- `ResamplingFifo.pushAudioBufferInt` ignores the result of `outputFifo.write`, so a
  converter output that does not fit is dropped silently. The model follows the code; it
  does not report an overflow.
- libsamplerate (`src_new`, `src_process`, `src_reset`, `src_set_ratio`, `src_delete`) is
  foreign code. It is the `Converter` function of the frames consumed since the last reset;
  its filter state and the interpolation itself are not modelled. The float arithmetic of
  the ratio is modelled as exact reals, with division by a zero input rate as `Infinite`.
- The scratch buffers are arrays of frames, so channel interleaving is a layout that is not
  modelled sample by sample.
- `Resampling.ResamplingFifo.PushAudioBufferInt`: its requires excludes a non-empty slice
  when the resampler has no channel or its ratio is one libsamplerate rejects. On those
  inputs the source loop never ends: `input_frames_used` stays 0, so `todo` never
  decreases (libgenisys-dsp/gin/gin_resamplingfifo.h:112-123), as
  `Resampling.RejectedStalls` shows. With no channel, `src_new` returns no state and
  `setSize` ignores the error (libgenisys-dsp/gin/gin_resamplingfifo.h:40-41); every
  caller here passes 1 channel. `initialize` reaches a rejected ratio with an input rate of
  0 (an infinite ratio), a negative rate (the ratio 0), 1 to 62 Hz (a ratio above 256) or
  above 4096000 Hz (a ratio below 1/256), as `Resampling.AcceptedRates` shows.
  `Resampling.Drive` carries the same requires.
- `Resampling.ResamplingFifo.PushAudioBuffer`: its requires excludes a non-empty buffer
  when `blockSize` is 0, the resampler has no channel or the ratio is rejected. On those
  inputs the source never returns.
  With `blockSize` 0, `thisBlock = min(todo, 0)` is 0 and the slicing loop never advances
  (libgenisys-dsp/gin/gin_resamplingfifo.h:78-88). With a rejected ratio, the converter
  loop above stalls, and so it does with no channel. `Resampling.Push` carries the same
  requires.
- The DeepSpeech engine, rnnoise (`DeNoiseAudioBuffer`) and the Int16/float conversions
  around it are foreign code or floating point. `ProcessFile` passes the file's samples to
  the decoder unchanged. This drops two source facts:
  - `DeNoiseAudioBuffer` converts `buffer_size` samples over a buffer of `buffer_size`
    bytes, in both directions (src/LibGenisysImpl.cpp:130 and 138). It therefore reads and
    writes past the end of the buffer.
  - `rnnoise_process_frame` processes only one frame.
- The warning `initialize` prints for a rate below 16000 passes the target rate and the
  input rate in swapped order (src/LibGenisysImpl.cpp:53-54). The model records only that
  a warning is issued.
- `GetAudioBuffer` (WAV reading and its log-and-continue checks), `malloc`/`free` of the
  audio buffer, `printf` of the timing, and the `clock()` timing (`cpu_time_overall`) are
  I/O. Printed lines are returned as a sequence instead.
- The stubs `processFloat`, `processNativeFloat` and `processPath` return `""` and compute
  nothing. `processNativePath` only forwards to `ProcessFile`.
- The destructor (`rnnoise_destroy`, `src_delete`) and the OS commands
  `OpenProTools`/`CloseProTools` are outside the modelled logic.
- The exact float-to-text formatting of the output stream is the abstract `render`.
- `Genisys.LibGenisys.constructor`: the source leaves `currentInputSampleRate`
  uninitialised. The model takes its starting value as a parameter, so a first
  `initialize` whose rate happens to equal it keeps the default ratio 1.0 without a reset.
- `Genisys.LibGenisys.Initialize`: requires a non-negative block size, because buffer sizes
  are natural numbers here. The source passes any `int` on to `setSize`.
- `HotWords.RegisterHotWords`: requires every entry to split into at least two pieces on
  `:`. The source reads `pair_[1]` unchecked, which is undefined behaviour otherwise. The
  built-in spec meets this, as `HotWords.DefaultSpecReady` proves.
- `Genisys.LibGenisys.LocalDsSTT`: buffers are handles that are never reused, so the
  `prev != last` pointer test is a test of handles. If an engine returned the same pointer
  twice, that aliasing is not modelled.
- Mode flags are constants fixed at construction (the defaults of `LibGenisysImpl.h`).
  `LocalDsSTT` still receives the extended and JSON flags as arguments, as in the source.
