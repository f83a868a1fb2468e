/**
 * Transcript assembly of LibGenisysImpl: the engine's token array becomes
 * plain text (`CandidateTranscriptToString`), time-stamped words
 * (`CandidateTranscriptToWords`) and JSON (`CandidateTranscriptToJSON`,
 * `MetadataToJSON`). Times and confidences are reals; how a number is
 * printed by the output stream is the abstract `render`.
 */
module Transcript {
  import Text
  import opened Common

  /** A token of a candidate transcript (TokenMetadata of the engine). */
  datatype Token = Token(text: string, startTime: real)

  /** One candidate transcript: its tokens and its confidence. */
  datatype CandidateTranscript = CandidateTranscript(tokens: seq<Token>, confidence: real)

  /** What a metadata decode returns: the candidates, best first. */
  datatype Metadata = Metadata(transcripts: seq<CandidateTranscript>)

  /** `meta_word` of LibGenisysImpl.h. */
  datatype MetaWord = MetaWord(word: string, startTime: real, duration: real)

  /** A word boundary token is exactly the one-character text " ". */
  predicate IsSpace(t: Token) { t.text == " " }

  // ---------------------------------------------------------------------
  // CandidateTranscriptToString

  /** The token texts concatenated in order, with nothing added. */
  function TokensText(ts: seq<Token>): string
  {
    if ts == [] then "" else TokensText(ts[..|ts| - 1]) + ts[|ts| - 1].text
  }

  lemma {:induction false} TokensTextAppend(a: seq<Token>, b: seq<Token>)
    ensures TokensText(a + b) == TokensText(a) + TokensText(b)
    decreases |b|
  {
    if b == [] {
      assert a + b == a;
    } else {
      var b' := b[..|b| - 1];
      assert (a + b)[..|a + b| - 1] == a + b';
      TokensTextAppend(a, b');
    }
  }

  /** The text is the first token's text followed by the rest's. */
  lemma TokensTextCons(t: Token, ts: seq<Token>)
    ensures TokensText([t] + ts) == t.text + TokensText(ts)
  {
    TokensTextAppend([t], ts);
    assert [t][..0] == [];
  }

  method CandidateTranscriptToString(transcript: CandidateTranscript) returns (r: string)
    ensures r == TokensText(transcript.tokens)
  {
    var ts := transcript.tokens;
    r := "";
    for i := 0 to |ts|
      invariant r == TokensText(ts[..i])
    {
      assert ts[..i + 1][..i] == ts[..i];
      r := r + ts[i].text;
    }
    assert ts[..|ts|] == ts;
  }

  // ---------------------------------------------------------------------
  // CandidateTranscriptToWords: the specification by segments

  /**
   * Index of the token that closes the first word: the first space token,
   * or the last token when there is none.
   */
  function FirstBoundary(ts: seq<Token>): (k: nat)
    requires ts != []
    ensures k < |ts|
  {
    if IsSpace(ts[0]) || |ts| == 1 then 0 else 1 + FirstBoundary(ts[1..])
  }

  /** The first boundary closes the word: it is a space or the last token, and no space precedes it. */
  lemma {:induction false} FirstBoundaryCloses(ts: seq<Token>)
    requires ts != []
    ensures var k := FirstBoundary(ts);
      && (IsSpace(ts[k]) || k == |ts| - 1)
      && forall m :: 0 <= m < k ==> !IsSpace(ts[m])
    decreases |ts|
  {
    if !(IsSpace(ts[0]) || |ts| == 1) {
      FirstBoundaryCloses(ts[1..]);
      var k := FirstBoundary(ts[1..]);
      assert forall m :: 1 <= m < k + 1 ==> ts[m] == ts[1..][m - 1];
    }
  }

  /** The token runs that make up one word each, every run ending at its boundary. */
  function Segments(ts: seq<Token>): (segs: seq<seq<Token>>)
    decreases |ts|
  {
    if ts == [] then []
    else
      var k := FirstBoundary(ts);
      [ts[..k + 1]] + Segments(ts[k + 1..])
  }

  /** Concatenated texts of the non-space tokens. */
  function NonSpaceText(p: seq<Token>): string
  {
    if p == [] then ""
    else NonSpaceText(p[..|p| - 1]) + (if IsSpace(p[|p| - 1]) then "" else p[|p| - 1].text)
  }

  /**
   * The start time the scan records for a run of tokens: a non-space token
   * sets it while the word text is still empty.
   */
  function WordStart(p: seq<Token>): real
  {
    if p == [] then 0.0
    else
      var q, t := p[..|p| - 1], p[|p| - 1];
      if !IsSpace(t) && NonSpaceText(q) == "" then t.startTime else WordStart(q)
  }

  /** The word a segment makes: its duration runs to the boundary token, floored at 0. */
  function WordOf(seg: seq<Token>): (w: MetaWord)
    requires seg != []
    ensures w.duration >= 0.0
  {
    var start := WordStart(seg);
    var d := seg[|seg| - 1].startTime - start;
    MetaWord(NonSpaceText(seg), start, if d < 0.0 then 0.0 else d)
  }

  /** The words of a token array, one per segment. */
  function Words(ts: seq<Token>): (ws: seq<MetaWord>)
  {
    var segs := Segments(ts);
    seq(|segs|, i requires 0 <= i < |segs| => SegmentsNonEmpty(ts, i); WordOf(segs[i]))
  }

  /** Every segment holds at least its boundary token. */
  lemma {:induction false} SegmentsNonEmpty(ts: seq<Token>, i: nat)
    requires i < |Segments(ts)|
    ensures Segments(ts)[i] != []
    decreases |ts|
  {
    if i > 0 {
      SegmentsNonEmpty(ts[FirstBoundary(ts) + 1..], i - 1);
    }
  }

  /** No word has a negative duration. */
  lemma WordsDurations(ts: seq<Token>)
    ensures forall i :: 0 <= i < |Words(ts)| ==> Words(ts)[i].duration >= 0.0
  {
  }

  /** Number of space tokens. */
  function SpaceCount(ts: seq<Token>): nat
  {
    if ts == [] then 0 else (if IsSpace(ts[0]) then 1 else 0) + SpaceCount(ts[1..])
  }

  /** The first boundary is the only index that can play its role. */
  lemma {:induction false} FirstBoundaryUnique(ts: seq<Token>, k: nat)
    requires k < |ts| && (IsSpace(ts[k]) || k == |ts| - 1)
    requires forall m :: 0 <= m < k ==> !IsSpace(ts[m])
    ensures FirstBoundary(ts) == k
    decreases k
  {
    if k > 0 {
      FirstBoundaryUnique(ts[1..], k - 1);
    }
  }

  /** Segmentation restarts after a space token. */
  lemma {:induction false} SegmentsAppend(x: seq<Token>, y: seq<Token>)
    requires x == [] || IsSpace(x[|x| - 1])
    ensures Segments(x + y) == Segments(x) + Segments(y)
    decreases |x|
  {
    if x == [] {
      assert x + y == y;
    } else {
      var xy := x + y;
      var k := FirstBoundary(x);
      FirstBoundaryCloses(x);
      forall m | 0 <= m < k
        ensures !IsSpace(xy[m])
      {
        assert xy[m] == x[m];
      }
      assert xy[k] == x[k];
      FirstBoundaryUnique(xy, k);
      var x' := x[k + 1..];
      assert xy[..k + 1] == x[..k + 1];
      assert xy[k + 1..] == x' + y;
      if x' != [] { assert x'[|x'| - 1] == x[|x| - 1]; }
      SegmentsAppend(x', y);
      var first := [x[..k + 1]];
      assert Segments(xy) == first + Segments(x' + y);
      assert Segments(x) == first + Segments(x');
      AppendAssoc(first, Segments(x'), Segments(y));
    }
  }

  /** A run whose only space token is its last, or which has none, is one segment. */
  lemma SegmentsSingle(p: seq<Token>)
    requires p != []
    requires forall m :: 0 <= m < |p| - 1 ==> !IsSpace(p[m])
    ensures Segments(p) == [p]
  {
    FirstBoundaryUnique(p, |p| - 1);
    assert p[..|p|] == p && p[|p|..] == [];
    assert Segments(p) == [p] + Segments([]);
  }

  lemma {:induction false} WordsAppend(x: seq<Token>, y: seq<Token>)
    requires x == [] || IsSpace(x[|x| - 1])
    ensures Words(x + y) == Words(x) + Words(y)
  {
    SegmentsAppend(x, y);
  }

  // ---------------------------------------------------------------------
  // CandidateTranscriptToWords: the scan

  /**
   * The state of the scan before token i: the words of ts[..j] are out, and
   * the word being built holds the non-space text of ts[j..i], which holds
   * no space token.
   */
  ghost predicate Scanned(ts: seq<Token>, j: nat, i: nat, wordList: seq<MetaWord>, word: string, start: real)
  {
    && j <= i <= |ts|
    && (j < |ts| ==> j == 0 || IsSpace(ts[j - 1]))
    && (forall m :: j <= m < i ==> !IsSpace(ts[m]))
    && wordList == Words(ts[..j])
    && word == NonSpaceText(ts[j..i]) && start == WordStart(ts[j..i])
  }

  /** Appending token i to the word being built. */
  lemma ScanExtend(ts: seq<Token>, j: nat, i: nat, wordList: seq<MetaWord>,
                   word: string, start: real, word': string, start': real)
    requires Scanned(ts, j, i, wordList, word, start) && i < |ts|
    requires word' == word + (if IsSpace(ts[i]) then "" else ts[i].text)
    requires start' == if !IsSpace(ts[i]) && |word| == 0 then ts[i].startTime else start
    ensures word' == NonSpaceText(ts[j..i + 1]) && start' == WordStart(ts[j..i + 1])
    ensures !IsSpace(ts[i]) ==> Scanned(ts, j, i + 1, wordList, word', start')
  {
    var p := ts[j..i + 1];
    assert p[..|p| - 1] == ts[j..i] && p[|p| - 1] == ts[i];
  }

  /** Appending a token to a run. */
  lemma ScanSnoc(p: seq<Token>, t: Token)
    ensures NonSpaceText(p + [t]) == NonSpaceText(p) + (if IsSpace(t) then "" else t.text)
    ensures WordStart(p + [t]) == if !IsSpace(t) && NonSpaceText(p) == "" then t.startTime else WordStart(p)
  {
    assert (p + [t])[..|p|] == p;
  }

  /** A run whose only space token is its last, or which has none, makes one word. */
  lemma WordsOfRun(ts: seq<Token>, j: nat, i: nat)
    requires j <= i < |ts|
    requires forall m :: j <= m < i ==> !IsSpace(ts[m])
    ensures Words(ts[j..i + 1]) == [WordOf(ts[j..i + 1])]
  {
    var p := ts[j..i + 1];
    forall m | 0 <= m < |p| - 1
      ensures !IsSpace(p[m])
    {
      assert p[m] == ts[j + m];
    }
    SegmentsSingle(p);
  }

  /** Closing the word that began at j with the boundary token at i. */
  lemma ScanClose(ts: seq<Token>, j: nat, i: nat, wordList: seq<MetaWord>, word: string, start: real, duration: real)
    requires j <= i < |ts| && Scanned(ts, j, i, wordList, NonSpaceText(ts[j..i]), WordStart(ts[j..i]))
    requires IsSpace(ts[i]) || i == |ts| - 1
    requires word == NonSpaceText(ts[j..i + 1]) && start == WordStart(ts[j..i + 1])
    requires duration == if ts[i].startTime - start < 0.0 then 0.0 else ts[i].startTime - start
    ensures Scanned(ts, i + 1, i + 1, wordList + [MetaWord(word, start, duration)], "", 0.0)
  {
    var p := ts[j..i + 1];
    WordsOfRun(ts, j, i);
    assert WordOf(p) == MetaWord(word, start, duration) by {
      assert p[|p| - 1] == ts[i];
    }
    assert ts[..i + 1] == ts[..j] + p;
    if j > 0 { assert ts[..j][j - 1] == ts[j - 1]; }
    WordsAppend(ts[..j], p);
    assert ts[i + 1..i + 1] == [];
  }

  method CandidateTranscriptToWords(transcript: CandidateTranscript) returns (wordList: seq<MetaWord>)
    ensures wordList == Words(transcript.tokens)
  {
    var ts := transcript.tokens;
    var n := |ts|;
    wordList := [];
    var word := "";
    var wordStartTime := 0.0;
    ghost var j := 0;  // where the word being built begins
    assert ts[..0] == [] && ts[0..0] == [];
    for i := 0 to n
      invariant Scanned(ts, j, i, wordList, word, wordStartTime)
      invariant i == n ==> j == n
    {
      var token := ts[i];
      ghost var word0, start0 := word, wordStartTime;
      if !IsSpace(token) {
        if |word| == 0 {
          wordStartTime := token.startTime;
        }
        word := word + token.text;
      }
      ScanExtend(ts, j, i, wordList, word0, start0, word, wordStartTime);
      if IsSpace(token) || i == n - 1 {
        var duration := token.startTime - wordStartTime;
        if duration < 0.0 {
          duration := 0.0;
        }
        ScanClose(ts, j, i, wordList, word, wordStartTime, duration);
        wordList := wordList + [MetaWord(word, wordStartTime, duration)];
        word := "";
        wordStartTime := 0.0;
        j := i + 1;
      }
    }
    assert ts[..n] == ts;
  }

  // ---------------------------------------------------------------------
  // What the words are

  /** One word per space token, plus one when the last token is not a space. */
  lemma {:induction false} WordsCount(ts: seq<Token>)
    ensures |Words(ts)| == SpaceCount(ts) + (if ts != [] && !IsSpace(ts[|ts| - 1]) then 1 else 0)
    decreases |ts|
  {
    if ts != [] {
      var k := FirstBoundary(ts);
      FirstBoundaryCloses(ts);
      SpaceCountPrefix(ts, k);
      assert |Segments(ts)| == 1 + |Segments(ts[k + 1..])|;
      WordsCount(ts[k + 1..]);
      if k + 1 < |ts| { assert ts[k + 1..][|ts| - k - 2] == ts[|ts| - 1]; }
    }
  }

  lemma {:induction false} SpaceCountPrefix(ts: seq<Token>, k: nat)
    requires k < |ts| && forall m :: 0 <= m < k ==> !IsSpace(ts[m])
    ensures SpaceCount(ts) == (if IsSpace(ts[k]) then 1 else 0) + SpaceCount(ts[k + 1..])
    decreases k
  {
    if k > 0 {
      assert ts[1..][k..] == ts[k + 1..];
      SpaceCountPrefix(ts[1..], k - 1);
    }
  }

  lemma {:induction false} NonSpaceTextAppend(a: seq<Token>, b: seq<Token>)
    ensures NonSpaceText(a + b) == NonSpaceText(a) + NonSpaceText(b)
    decreases |b|
  {
    if b == [] {
      assert a + b == a;
    } else {
      assert (a + b)[..|a + b| - 1] == a + b[..|b| - 1];
      NonSpaceTextAppend(a, b[..|b| - 1]);
    }
  }

  function WordTexts(ws: seq<MetaWord>): string
  {
    if ws == [] then "" else ws[0].word + WordTexts(ws[1..])
  }

  /** No text is lost or invented: the words spell the non-space tokens, in order. */
  lemma {:induction false} WordsSpellTokens(ts: seq<Token>)
    ensures WordTexts(Words(ts)) == NonSpaceText(ts)
    decreases |ts|
  {
    if ts != [] {
      var k := FirstBoundary(ts);
      WordsSpellTokens(ts[k + 1..]);
      assert ts == ts[..k + 1] + ts[k + 1..];
      NonSpaceTextAppend(ts[..k + 1], ts[k + 1..]);
      assert Words(ts)[1..] == Words(ts[k + 1..]);
    }
  }

  /**
   * A word starts at its first non-space token with non-empty text; a word
   * with no non-space token starts at 0.
   */
  lemma {:induction false} WordStartIsFirst(p: seq<Token>, i: nat)
    requires i < |p| && !IsSpace(p[i]) && p[i].text != ""
    requires forall m :: 0 <= m < i ==> IsSpace(p[m]) || p[m].text == ""
    ensures WordStart(p) == p[i].startTime
    decreases |p|
  {
    var q := p[..|p| - 1];
    if i == |p| - 1 {
      NonSpaceTextEmpty(q);
    } else {
      NonSpaceTextHas(q, i);
      WordStartIsFirst(q, i);
    }
  }

  lemma {:induction false} NonSpaceTextHas(q: seq<Token>, i: nat)
    requires i < |q| && !IsSpace(q[i]) && q[i].text != ""
    ensures NonSpaceText(q) != ""
    decreases |q|
  {
    if i < |q| - 1 {
      NonSpaceTextHas(q[..|q| - 1], i);
    }
  }

  lemma {:induction false} NonSpaceTextEmpty(p: seq<Token>)
    requires forall m :: 0 <= m < |p| ==> IsSpace(p[m]) || p[m].text == ""
    ensures NonSpaceText(p) == ""
    decreases |p|
  {
    if p != [] { NonSpaceTextEmpty(p[..|p| - 1]); }
  }

  lemma {:induction false} WordStartNoWord(p: seq<Token>)
    requires forall m :: 0 <= m < |p| ==> IsSpace(p[m])
    ensures WordStart(p) == 0.0
    decreases |p|
  {
    if p != [] { WordStartNoWord(p[..|p| - 1]); }
  }

  /** The segmentation example: tokens a b " " c d give the words "ab" and "cd". */
  lemma WordsExample(t0: real, t1: real, t3: real)
    ensures Words([Token("a", t0), Token("b", t1), Token(" ", 1.0), Token("c", t3), Token("d", 1.3)])
      == [MetaWord("ab", t0, Max(0.0, 1.0 - t0)), MetaWord("cd", t3, Max(0.0, 1.3 - t3))]
  {
    var a, b, sp, c, d := Token("a", t0), Token("b", t1), Token(" ", 1.0), Token("c", t3), Token("d", 1.3);
    assert [a, b, sp, c, d] == [a, b, sp] + [c, d];
    WordsAppend([a, b, sp], [c, d]);
    assert [a, b] + [sp] == [a, b, sp] && [c, d] + [] == [c, d];
    TwoLetterWord(a, b, [sp]);
    TwoLetterWord(c, d, []);
    assert a.text + b.text == "ab" && c.text + d.text == "cd";
  }

  /** Two non-space one-letter tokens, then at most a space token, make one word. */
  lemma TwoLetterWord(a: Token, b: Token, tail: seq<Token>)
    requires |a.text| == 1 && |b.text| == 1 && !IsSpace(a) && !IsSpace(b)
    requires tail == [] || (|tail| == 1 && IsSpace(tail[0]))
    ensures var end := if tail == [] then b.startTime else tail[0].startTime;
      Words([a, b] + tail) == [MetaWord(a.text + b.text, a.startTime, Max(0.0, end - a.startTime))]
  {
    var p := [a, b] + tail;
    assert [] + [a] == [a] && [a] + [b] == [a, b];
    ScanSnoc([], a);
    ScanSnoc([a], b);
    if tail != [] {
      assert p == [a, b] + [tail[0]];
      ScanSnoc([a, b], tail[0]);
    }
    assert NonSpaceText(p) == a.text + b.text && WordStart(p) == a.startTime;
    assert p[0..|p|] == p;
    WordsOfRun(p, 0, |p| - 1);
    var end := if tail == [] then b.startTime else tail[0].startTime;
    assert p[|p| - 1].startTime == end;
  }

  // ---------------------------------------------------------------------
  // JSON

  function WordJSON(w: MetaWord, render: real -> string): string
  {
    "{\"word\":\"" + w.word + "\",\"time\":" + render(w.startTime) + ",\"duration\":" + render(w.duration) + "}"
  }

  function WordObjects(ws: seq<MetaWord>, render: real -> string): (objs: seq<string>)
    ensures |objs| == |ws| && forall i :: 0 <= i < |ws| ==> objs[i] == WordJSON(ws[i], render)
  {
    seq(|ws|, i requires 0 <= i < |ws| => WordJSON(ws[i], render))
  }

  /** The members in front of the word array. */
  function TranscriptJSONHead(confidence: real, render: real -> string): string
  {
    "\"metadata\":{\"confidence\":" + render(confidence) + "},\"words\":["
  }

  /** One transcript as JSON members: its confidence and its comma-separated word objects. */
  function TranscriptJSON(t: CandidateTranscript, render: real -> string): string
  {
    TranscriptJSONHead(t.confidence, render) + Text.Join(WordObjects(Words(t.tokens), render), ",") + "]"
  }

  /** Text written after the first i of n word objects: a comma follows every object but the last. */
  function CommaList(objs: seq<string>, i: nat): string
    requires i <= |objs|
  {
    Text.Join(objs[..i], ",") + (if 0 < i < |objs| then "," else "")
  }

  lemma CommaListStep(head: string, objs: seq<string>, i: nat)
    requires i < |objs|
    ensures head + CommaList(objs, i + 1) == head + CommaList(objs, i) + objs[i] + (if i < |objs| - 1 then "," else "")
  {
    Text.JoinSnoc(objs[..i], objs[i], ",");
    assert objs[..i + 1] == objs[..i] + [objs[i]];
  }

  method CandidateTranscriptToJSON(transcript: CandidateTranscript, render: real -> string)
    returns (out: string)
    ensures out == TranscriptJSON(transcript, render)
  {
    var words := CandidateTranscriptToWords(transcript);
    ghost var objs := WordObjects(words, render);
    var head := TranscriptJSONHead(transcript.confidence, render);
    out := head;
    for i := 0 to |words|
      invariant out == head + CommaList(objs, i)
    {
      CommaListStep(head, objs, i);
      out := out + WordJSON(words[i], render);
      if i < |words| - 1 {
        out := out + ",";
      }
    }
    assert objs[..|words|] == objs;
    out := out + "]";
  }

  /** The opening of the alternatives array, written after the best transcript. */
  const AlternativesOpen: string := ",\n\"alternatives\":[\n"

  /** Each alternative transcript wrapped in braces. */
  function AlternativeObjects(ts: seq<CandidateTranscript>, render: real -> string): (objs: seq<string>)
    ensures |objs| == |ts|
    ensures forall i :: 0 <= i < |ts| ==> objs[i] == Braced(TranscriptJSON(ts[i], render))
  {
    seq(|ts|, i requires 0 <= i < |ts| => Braced(TranscriptJSON(ts[i], render)))
  }

  /** A list of members made into a JSON object. */
  function Braced(members: string): (r: string)
    ensures |r| == |members| + 2 && r[0] == '{' && r[|r| - 1] == '}' && r[1..|r| - 1] == members
  {
    "{" + members + "}"
  }

  /**
   * The JSON document: the best transcript's members, then, only when there
   * are further candidates, an "alternatives" array holding them in engine
   * order separated by ",\n"; the whole wrapped in "{\n" ... "\n}\n".
   */
  function MetadataJSON(m: Metadata, render: real -> string): string
  {
    var ts := m.transcripts;
    var body := if ts == [] then "" else TranscriptJSON(ts[0], render) + AlternativesJSON(ts[1..], render);
    "{\n" + body + "\n}\n"
  }

  /** The "alternatives" member, present only when there is at least one alternative. */
  function AlternativesJSON(alts: seq<CandidateTranscript>, render: real -> string): string
  {
    if alts == [] then ""
    else AlternativesOpen + Text.Join(AlternativeObjects(alts, render), ",\n") + "\n]"
  }

  /** What MetadataToJSON has written after handling the first j candidates. */
  function MetadataJSONPrefix(best: string, alts: seq<string>, n: nat, j: nat): string
    requires 0 < j <= n && |alts| == n - 1
  {
    var closing := if j == n then "\n]" else if j > 1 then ",\n" else "";
    var tail := if n > 1 then AlternativesOpen + Text.Join(alts[..j - 1], ",\n") + closing else "";
    "{\n" + best + tail
  }

  /** Handling candidate j >= 1 appends its object and a separator or the closing bracket. */
  lemma MetadataJSONPrefixStep(best: string, alts: seq<string>, n: nat, j: nat)
    requires 0 < j < n && |alts| == n - 1
    ensures MetadataJSONPrefix(best, alts, n, j + 1)
      == MetadataJSONPrefix(best, alts, n, j) + alts[j - 1] + (if j < n - 1 then ",\n" else "\n]")
  {
    Text.JoinSnoc(alts[..j - 1], alts[j - 1], ",\n");
    assert alts[..j] == alts[..j - 1] + [alts[j - 1]];
  }

  /** Handling the best transcript writes it and, when alternatives follow, opens their array. */
  lemma MetadataJSONPrefixFirst(best: string, alts: seq<string>, n: nat)
    requires 0 < n && |alts| == n - 1
    ensures MetadataJSONPrefix(best, alts, n, 1) == "{\n" + best + (if n > 1 then AlternativesOpen else "")
  {
    assert alts[..0] == [];
  }

  /** After all candidates the prefix is the document without its closing brace. */
  lemma MetadataJSONPrefixDone(m: Metadata, render: real -> string)
    ensures var ts := m.transcripts;
      MetadataJSON(m, render) ==
        if ts == [] then "{\n\n}\n"
        else MetadataJSONPrefix(TranscriptJSON(ts[0], render), AlternativeObjects(ts[1..], render), |ts|, |ts|) + "\n}\n"
  {
    var ts := m.transcripts;
    if ts != [] {
      var best := TranscriptJSON(ts[0], render);
      var alts := AlternativeObjects(ts[1..], render);
      assert alts[..|ts| - 1] == alts;
      var tail := AlternativesJSON(ts[1..], render);
      assert MetadataJSON(m, render) == "{\n" + (best + tail) + "\n}\n";
      assert MetadataJSONPrefix(best, alts, |ts|, |ts|) == "{\n" + best + tail;
    }
  }

  method MetadataToJSON(result: Metadata, render: real -> string) returns (out: string)
    ensures out == MetadataJSON(result, render)
  {
    var ts := result.transcripts;
    var n := |ts|;
    MetadataJSONPrefixDone(result, render);
    if n == 0 {
      out := "{\n";
      out := out + "\n}\n";
      return;
    }
    ghost var alts := AlternativeObjects(ts[1..], render);
    ghost var best := TranscriptJSON(ts[0], render);
    // the loop's first iteration (j == 0), peeled: the best transcript
    var json := CandidateTranscriptToJSON(ts[0], render);
    out := "{\n" + json;
    if n > 1 {
      out := out + AlternativesOpen;
    }
    MetadataJSONPrefixFirst(best, alts, n);
    for j := 1 to n
      invariant out == MetadataJSONPrefix(best, alts, n, j)
    {
      json := CandidateTranscriptToJSON(ts[j], render);
      assert ts[1..][j - 1] == ts[j];
      MetadataJSONPrefixStep(best, alts, n, j);
      out := out + Braced(json);
      if j < n - 1 {
        out := out + ",\n";
      } else {
        out := out + "\n]";
      }
    }
    out := out + "\n}\n";
  }

  /** The JSON document of a single candidate: its members, and no alternatives array. */
  lemma SingleCandidateJSON(t: CandidateTranscript, render: real -> string)
    ensures MetadataJSON(Metadata([t]), render) == "{\n" + TranscriptJSON(t, render) + "\n}\n"
  {
    assert [t][1..] == [];
  }

  /** The token "hello" closed by a space token makes the one word "hello". */
  lemma HelloWords(hello: Token, sp: Token)
    requires hello == Token("hello", 0.0) && sp == Token(" ", 0.42)
    ensures Words([hello, sp]) == [MetaWord("hello", 0.0, 0.42)]
  {
    var ts := [hello, sp];
    FirstBoundaryUnique(ts, 1);
    assert ts[..2] == ts && ts[2..] == [];
    assert Segments(ts) == [ts] + Segments([]);
    ScanSnoc([], hello);
    assert [] + [hello] == [hello];
    ScanSnoc([hello], sp);
    assert [hello] + [sp] == ts;
    assert NonSpaceText(ts) == "hello" && WordStart(ts) == 0.0;
  }

  /**
   * A single candidate with confidence 0.87 whose token "hello" at 0.0 is
   * closed by a space token at 0.42 gives one word object and no
   * alternatives array.
   */
  lemma JsonExample(render: real -> string)
    ensures MetadataJSON(Metadata([CandidateTranscript([Token("hello", 0.0), Token(" ", 0.42)], 0.87)]), render)
      == "{\n" + "\"metadata\":{\"confidence\":" + render(0.87) + "},\"words\":["
         + "{\"word\":\"hello\",\"time\":" + render(0.0) + ",\"duration\":" + render(0.42) + "}"
         + "]" + "\n}\n"
  {
    var t := CandidateTranscript([Token("hello", 0.0), Token(" ", 0.42)], 0.87);
    HelloWords(t.tokens[0], t.tokens[1]);
    assert t.tokens == [t.tokens[0], t.tokens[1]];
    var objs := WordObjects(Words(t.tokens), render);
    assert objs == [WordJSON(MetaWord("hello", 0.0, 0.42), render)];
    SingleCandidateJSON(t, render);
  }
}
