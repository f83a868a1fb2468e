/**
 * Hot-word registration of the `LibGenisysImpl` constructor: the built-in
 * spec "word:boost,word:boost,..." is split on ',' and each entry on ':';
 * every entry is handed to the engine's `DS_AddHotWord`, and registration
 * stops after the first entry the engine refuses or whose boost is not
 * made of the characters "-.0123456789".
 */
module HotWords {
  import opened Common
  import Text

  /** The built-in hot words and their boosts. */
  const HotWordSpec: string := "genesis:5,open:3,close:3,pro:3,tools:3"

  /** The characters a boost may consist of. */
  const BoostChars: string := "-.0123456789"

  /** `std::string::find_first_not_of`: the first position holding a character not in `chars`. */
  function FindFirstNotOf(s: string, chars: string): (r: Option<nat>)
    ensures r.None? <==> forall i :: 0 <= i < |s| ==> s[i] in chars
    ensures r.Some? ==> r.value < |s| && s[r.value] !in chars && forall i :: 0 <= i < r.value ==> s[i] in chars
  {
    if s == [] then None
    else if s[0] !in chars then Some(0)
    else match FindFirstNotOf(s[1..], chars)
      case None => None
      case Some(k) => Some(k + 1)
  }

  /** The boost check: no character outside `BoostChars` (so the empty boost passes). */
  predicate BoostIsValid(boost: string)
  {
    FindFirstNotOf(boost, BoostChars).None?
  }

  /** One `DS_AddHotWord(ctx, word, boost)` call. */
  datatype HotWordCall = HotWordCall(word: string, boost: real)

  /** Each entry split on ':', as the constructor does before reading a word and a boost. */
  function Pairs(entries: seq<string>): (pairs: seq<seq<string>>)
    ensures |pairs| == |entries| && forall i :: 0 <= i < |entries| ==> pairs[i] == Text.Split(entries[i], ":")
  {
    seq(|entries|, i requires 0 <= i < |entries| => Text.Split(entries[i], ":"))
  }

  /** Every entry has a word and a boost: the source reads the first two pieces unchecked. */
  predicate WellFormed(pairs: seq<seq<string>>)
  {
    forall i :: 0 <= i < |pairs| ==> |pairs[i]| >= 2
  }

  /** The call made for one entry; the boost goes through `strtof` whether valid or not. */
  function CallOf(pair: seq<string>, strtof: string -> real): HotWordCall
    requires |pair| >= 2
  {
    HotWordCall(pair[0], strtof(pair[1]))
  }

  /** The engine took the entry and its boost is well formed: registration goes on. */
  predicate Accepted(pair: seq<string>, add: (string, real) -> int, strtof: string -> real)
    requires |pair| >= 2
  {
    add(pair[0], strtof(pair[1])) == 0 && BoostIsValid(pair[1])
  }

  /**
   * The calls the constructor makes, in order: one per entry up to and
   * including the first that is not accepted.
   */
  function Registration(pairs: seq<seq<string>>, add: (string, real) -> int, strtof: string -> real): seq<HotWordCall>
    requires WellFormed(pairs)
  {
    if pairs == [] then []
    else if Accepted(pairs[0], add, strtof) then [CallOf(pairs[0], strtof)] + Registration(pairs[1..], add, strtof)
    else [CallOf(pairs[0], strtof)]
  }

  /**
   * Registration makes the calls of a prefix of the entries, in order: all
   * entries before the last call were accepted, and it stops early only at
   * an entry that was not.
   */
  lemma {:induction false} RegistrationStops(pairs: seq<seq<string>>, add: (string, real) -> int, strtof: string -> real)
    requires WellFormed(pairs)
    ensures var calls := Registration(pairs, add, strtof);
      && |calls| <= |pairs|
      && (forall i :: 0 <= i < |calls| ==> calls[i] == CallOf(pairs[i], strtof))
      && (forall i :: 0 <= i < |calls| - 1 ==> Accepted(pairs[i], add, strtof))
      && (|calls| < |pairs| ==> !Accepted(pairs[|calls| - 1], add, strtof))
    decreases |pairs|
  {
    if pairs != [] && Accepted(pairs[0], add, strtof) {
      var rest := pairs[1..];
      RegistrationStops(rest, add, strtof);
      var calls, rc := Registration(pairs, add, strtof), Registration(rest, add, strtof);
      assert calls == [CallOf(pairs[0], strtof)] + rc;
      forall i | 1 <= i < |calls|
        ensures calls[i] == CallOf(pairs[i], strtof)
      {
        assert calls[i] == rc[i - 1] && rest[i - 1] == pairs[i];
      }
    }
  }

  /** When every entry is accepted, every entry is registered. */
  lemma {:induction false} RegistrationAll(pairs: seq<seq<string>>, add: (string, real) -> int, strtof: string -> real)
    requires WellFormed(pairs)
    requires forall i :: 0 <= i < |pairs| ==> Accepted(pairs[i], add, strtof)
    ensures |Registration(pairs, add, strtof)| == |pairs|
    decreases |pairs|
  {
    if pairs != [] {
      var rest := pairs[1..];
      assert Accepted(pairs[0], add, strtof);
      assert forall i :: 0 <= i < |rest| ==> rest[i] == pairs[i + 1];
      RegistrationAll(rest, add, strtof);
    }
  }

  /** One step of registration: the entry's call, then the rest only when the entry was accepted. */
  lemma RegistrationStep(pairs: seq<seq<string>>, i: nat, add: (string, real) -> int, strtof: string -> real,
                         done: seq<HotWordCall>, accepted: bool)
    requires WellFormed(pairs) && i < |pairs|
    requires done + Registration(pairs[i..], add, strtof) == Registration(pairs, add, strtof)
    requires accepted == Accepted(pairs[i], add, strtof)
    ensures accepted ==>
      (done + [CallOf(pairs[i], strtof)]) + Registration(pairs[i + 1..], add, strtof) == Registration(pairs, add, strtof)
    ensures !accepted ==> done + [CallOf(pairs[i], strtof)] == Registration(pairs, add, strtof)
  {
    assert pairs[i..][0] == pairs[i] && pairs[i..][1..] == pairs[i + 1..];
    var call := [CallOf(pairs[i], strtof)];
    if accepted {
      assert Registration(pairs[i..], add, strtof) == call + Registration(pairs[i + 1..], add, strtof);
      Common.AppendAssoc(done, call, Registration(pairs[i + 1..], add, strtof));
    }
  }

  /**
   * The registration loop of the constructor: split the spec on ',', each
   * entry on ':', add the hot word, and stop after a refused call or an
   * invalid boost.
   */
  method RegisterHotWords(spec: string, add: (string, real) -> int, strtof: string -> real)
    returns (calls: seq<HotWordCall>)
    requires WellFormed(Pairs(Text.Split(spec, ",")))
    ensures calls == Registration(Pairs(Text.Split(spec, ",")), add, strtof)
  {
    var entries := Text.SplitStringOnDelim(spec, ",");
    ghost var pairs := Pairs(entries);
    calls := [];
    for i := 0 to |entries|
      invariant calls + Registration(pairs[i..], add, strtof) == Registration(pairs, add, strtof)
    {
      var pair := Text.SplitStringOnDelim(entries[i], ":");
      assert pair == pairs[i];
      var boostIsValid := FindFirstNotOf(pair[1], BoostChars).None?;
      var boost := strtof(pair[1]);
      var status := add(pair[0], boost);
      RegistrationStep(pairs, i, add, strtof, calls, status == 0 && boostIsValid);
      calls := calls + [HotWordCall(pair[0], boost)];
      if status != 0 || !boostIsValid {
        return;
      }
    }
  }

  /** The built-in spec as its entries. */
  const DefaultEntries: seq<string> := ["genesis:5", "open:3", "close:3", "pro:3", "tools:3"]

  /** An entry "word:boost" with delimiter-free parts splits into exactly those two parts. */
  lemma SplitPair(word: string, boost: string, entry: string)
    requires entry == word + ":" + boost
    requires |word| > 0 && |boost| > 0 && Text.NoDelim(word, ":") && Text.NoDelim(boost, ":")
    ensures Text.Split(entry, ":") == [word, boost]
  {
    Text.SplitAround(word, ':', boost, ":");
    Text.SplitWhole(word, ":");
    Text.SplitWhole(boost, ":");
    assert word + ":" + boost == word + [':'] + boost;
  }

  /** The words and boosts of the built-in spec. */
  const DefaultPairs: seq<seq<string>> := [["genesis", "5"], ["open", "3"], ["close", "3"], ["pro", "3"], ["tools", "3"]]

  /**
   * The built-in spec splits on ',' into its five entries. (The strings are
   * parameters bound to the constants so that the verifier does not
   * evaluate `Split` on the literals.)
   */
  lemma DefaultSpecEntries(spec: string, entries: seq<string>)
    requires spec == HotWordSpec && entries == DefaultEntries
    ensures Text.Split(spec, ",") == entries
  {
    DefaultSpecJoined(spec, entries);
    forall i | 0 <= i < |entries|
      ensures |entries[i]| > 0 && Text.NoDelim(entries[i], ",")
    {
    }
    Text.SplitJoin(entries, ',', ",");
  }

  lemma DefaultSpecJoined(spec: string, entries: seq<string>)
    requires spec == HotWordSpec && entries == DefaultEntries
    ensures Text.Join(entries, ",") == spec
  {
    var e0, e1, e2, e3, e4 := entries[0], entries[1], entries[2], entries[3], entries[4];
    var r3 := e3 + "," + e4;
    var r2 := e2 + "," + r3;
    var r1 := e1 + "," + r2;
    JoinCons(e3, [e4], r3);
    assert [e3] + [e4] == [e3, e4];
    JoinCons(e2, [e3, e4], r2);
    assert [e2] + [e3, e4] == [e2, e3, e4];
    JoinCons(e1, [e2, e3, e4], r1);
    assert [e1] + [e2, e3, e4] == [e1, e2, e3, e4];
    DefaultSpecShape(spec, entries);
    JoinCons(e0, [e1, e2, e3, e4], spec);
    assert entries == [e0] + [e1, e2, e3, e4];
  }

  lemma DefaultSpecShape(spec: string, entries: seq<string>)
    requires spec == HotWordSpec && entries == DefaultEntries
    ensures spec == entries[0] + "," + (entries[1] + "," + (entries[2] + "," + (entries[3] + "," + entries[4])))
  {
  }

  /** Joining one more piece in front adds it and one separator. */
  lemma JoinCons(w: string, ws: seq<string>, whole: string)
    requires ws != [] && whole == w + "," + Text.Join(ws, ",")
    ensures Text.Join([w] + ws, ",") == whole
  {
    assert ([w] + ws)[1..] == ws;
  }

  /** Each built-in entry splits on ':' into its word and a boost that passes the check. */
  lemma DefaultSpecWellFormed(entries: seq<string>, pairs: seq<seq<string>>)
    requires entries == DefaultEntries && pairs == DefaultPairs
    ensures Pairs(entries) == pairs && WellFormed(pairs)
    ensures forall i :: 0 <= i < |pairs| ==> BoostIsValid(pairs[i][1])
  {
    forall i | 0 <= i < 5
      ensures Text.Split(entries[i], ":") == pairs[i] && BoostIsValid(pairs[i][1])
    {
      EntryPair(entries[i], pairs[i], i);
    }
  }

  /** The i-th built-in entry is its word and boost around ':'. */
  lemma EntryPair(entry: string, pair: seq<string>, i: nat)
    requires i < 5 && entry == DefaultEntries[i] && pair == DefaultPairs[i]
    ensures Text.Split(entry, ":") == pair && BoostIsValid(pair[1])
  {
    assert pair == [pair[0], pair[1]];
    SplitPair(pair[0], pair[1], entry);
    EntryBoostValid(pair[1]);
  }

  /** The built-in spec satisfies what registration needs, and registers its five pairs. */
  lemma DefaultSpecReady(spec: string)
    requires spec == HotWordSpec
    ensures Pairs(Text.Split(spec, ",")) == DefaultPairs && WellFormed(DefaultPairs)
  {
    DefaultSpecEntries(spec, DefaultEntries);
    DefaultSpecWellFormed(DefaultEntries, DefaultPairs);
  }

  lemma EntryBoostValid(boost: string)
    requires boost == "5" || boost == "3"
    ensures BoostIsValid(boost)
  {
    assert boost[0] in BoostChars;
  }

  /** The boost check on a few inputs: numbers pass, the empty boost passes, letters fail. */
  lemma BoostExamples()
    ensures BoostIsValid("5") && BoostIsValid("-2.5") && BoostIsValid("")
    ensures !BoostIsValid("5x") && !BoostIsValid("1e3")
  {
    assert "5x"[1] !in BoostChars;
    assert "1e3"[1] !in BoostChars;
  }
}
