/**
 * String helpers of LibGenisysImpl: `SplitStringOnDelim` (strtok semantics)
 * and the space clean-up that `ProcessFile` applies to a transcript with the
 * regular expression `^ +| +$|( ) +` replaced by `$1`.
 */
module Text {

  /** No character of `w` is a delimiter. */
  ghost predicate NoDelim(w: string, delim: string)
  {
    forall j :: 0 <= j < |w| ==> w[j] !in delim
  }

  /** Length of the longest prefix of `s` free of delimiters. */
  function RunLength(s: string, delim: string): (k: nat)
    ensures k <= |s| && NoDelim(s[..k], delim)
    ensures k < |s| ==> s[k] in delim
  {
    if s == [] || s[0] in delim then 0 else 1 + RunLength(s[1..], delim)
  }

  /** The run length is the only prefix length free of delimiters that ends at one. */
  lemma {:induction false} RunLengthUnique(t: string, delim: string, m: nat)
    requires m <= |t| && NoDelim(t[..m], delim)
    requires m < |t| ==> t[m] in delim
    ensures RunLength(t, delim) == m
    decreases m
  {
    if m > 0 {
      assert t[..m][0] == t[0];
      assert t[1..][..m - 1] == t[..m][1..];
      RunLengthUnique(t[1..], delim, m - 1);
    }
  }

  /**
   * What repeated `strtok` calls return: the maximal non-empty runs of
   * characters not in `delim`, in order.
   */
  function Split(s: string, delim: string): (pieces: seq<string>)
    ensures forall i :: 0 <= i < |pieces| ==> |pieces[i]| > 0 && NoDelim(pieces[i], delim)
    decreases |s|
  {
    if s == [] then []
    else if s[0] in delim then Split(s[1..], delim)
    else
      var k := RunLength(s, delim);
      [s[..k]] + Split(s[k..], delim)
  }

  /** The pieces joined with `sep` between consecutive ones. */
  function Join(ws: seq<string>, sep: string): string
  {
    if ws == [] then "" else if |ws| == 1 then ws[0] else ws[0] + sep + Join(ws[1..], sep)
  }

  /** Adding a piece at the end adds one separator before it, and none after it. */
  lemma {:induction false} JoinSnoc(ws: seq<string>, w: string, sep: string)
    ensures Join(ws + [w], sep) == if ws == [] then w else Join(ws, sep) + sep + w
    decreases |ws|
  {
    if |ws| == 1 {
      assert ws + [w] == [ws[0], w];
    } else if |ws| > 1 {
      assert (ws + [w])[1..] == ws[1..] + [w];
      JoinSnoc(ws[1..], w, sep);
    }
  }

  /** All pieces concatenated with no separator. */
  function Concat(ws: seq<string>): string
  {
    if ws == [] then "" else ws[0] + Concat(ws[1..])
  }

  /** `s` with every delimiter character removed. */
  function Remove(s: string, delim: string): string
  {
    if s == [] then "" else (if s[0] in delim then "" else [s[0]]) + Remove(s[1..], delim)
  }

  /**
   * `SplitStringOnDelim` (src/LibGenisysImpl.cpp): a copy of the input is
   * tokenised with `strtok`, each call skipping leading delimiters and
   * returning the run up to the next one.
   */
  method SplitStringOnDelim(s: string, delim: string) returns (pieces: seq<string>)
    ensures pieces == Split(s, delim)
  {
    pieces := [];
    var i := 0;  // where strtok resumes
    while i < |s|
      invariant 0 <= i <= |s|
      invariant pieces + Split(s[i..], delim) == Split(s, delim)
    {
      SplitStep(s[i..], delim);
      assert s[i..][1..] == s[i + 1..];
      if s[i] in delim {
        // strtok skips a leading delimiter
        i := i + 1;
      } else {
        // strtok returns the run up to the next delimiter
        var k := RunLength(s[i..], delim);
        assert s[i..][..k] == s[i..i + k] && s[i..][k..] == s[i + k..];
        pieces := pieces + [s[i..i + k]];
        i := i + k;
      }
    }
  }

  /** One step of strtok over a non-empty rest. */
  lemma SplitStep(t: string, delim: string)
    requires t != []
    ensures t[0] in delim ==> Split(t, delim) == Split(t[1..], delim)
    ensures t[0] !in delim ==>
      var k := RunLength(t, delim); k > 0 && Split(t, delim) == [t[..k]] + Split(t[k..], delim)
  {
  }

  // ---------------------------------------------------------------------
  // Algebra of Split

  /** A non-empty delimiter-free string is one piece. */
  lemma {:induction false} SplitWhole(w: string, delim: string)
    requires |w| > 0 && NoDelim(w, delim)
    ensures Split(w, delim) == [w]
  {
    RunLengthUnique(w, delim, |w|);
    assert w[..|w|] == w && w[|w|..] == [];
  }

  /** A delimiter separates what comes before it from what comes after it. */
  lemma {:induction false} SplitAround(a: string, d: char, b: string, delim: string)
    requires d in delim
    ensures Split(a + [d] + b, delim) == Split(a, delim) + Split(b, delim)
    decreases |a|
  {
    var s := a + [d] + b;
    if a == [] {
      assert s[1..] == b;
    } else if a[0] in delim {
      assert s[1..] == a[1..] + [d] + b;
      SplitAround(a[1..], d, b, delim);
    } else {
      var k := RunLength(a, delim);
      assert s[..k] == a[..k];
      assert k < |a| ==> s[k] == a[k];
      assert k == |a| ==> s[k] == d;
      RunLengthUnique(s, delim, k);
      assert s[..k] == a[..k];
      assert s[k..] == a[k..] + [d] + b;
      SplitAround(a[k..], d, b, delim);
    }
  }

  /** Concatenating the pieces gives the input with its delimiters removed. */
  lemma {:induction false} SplitConcat(s: string, delim: string)
    ensures Concat(Split(s, delim)) == Remove(s, delim)
    decreases |s|
  {
    if s == [] {
    } else if s[0] in delim {
      SplitConcat(s[1..], delim);
    } else {
      var k := RunLength(s, delim);
      SplitConcat(s[k..], delim);
      assert s == s[..k] + s[k..];
      RemoveAppend(s[..k], s[k..], delim);
      RemoveNone(s[..k], delim);
      assert Split(s, delim)[1..] == Split(s[k..], delim);
    }
  }

  lemma {:induction false} RemoveAppend(a: string, b: string, delim: string)
    ensures Remove(a + b, delim) == Remove(a, delim) + Remove(b, delim)
    decreases |a|
  {
    if a != [] {
      var head := if a[0] in delim then "" else [a[0]];
      assert (a + b)[0] == a[0] && (a + b)[1..] == a[1..] + b;
      RemoveAppend(a[1..], b, delim);
      calc {
        Remove(a + b, delim);
        head + Remove(a[1..] + b, delim);
        head + (Remove(a[1..], delim) + Remove(b, delim));
        (head + Remove(a[1..], delim)) + Remove(b, delim);
        Remove(a, delim) + Remove(b, delim);
      }
    } else {
      assert a + b == b;
    }
  }

  lemma {:induction false} RemoveNone(w: string, delim: string)
    requires NoDelim(w, delim)
    ensures Remove(w, delim) == w
    decreases |w|
  {
    if w != [] { RemoveNone(w[1..], delim); }
  }

  /**
   * Splitting the join of delimiter-free non-empty words on the separator
   * gives the words back.
   */
  lemma {:induction false} SplitJoin(ws: seq<string>, d: char, delim: string)
    requires d in delim
    requires forall i :: 0 <= i < |ws| ==> |ws[i]| > 0 && NoDelim(ws[i], delim)
    ensures Split(Join(ws, [d]), delim) == ws
    decreases |ws|
  {
    if ws == [] {
    } else if |ws| == 1 {
      SplitWhole(ws[0], delim);
    } else {
      SplitJoin(ws[1..], d, delim);
      SplitWhole(ws[0], delim);
      SplitAround(ws[0], d, Join(ws[1..], [d]), delim);
      assert Join(ws, [d]) == ws[0] + [d] + Join(ws[1..], [d]);
    }
  }

  // ---------------------------------------------------------------------
  // The transcript clean-up of ProcessFile

  /** Number of leading space characters. */
  function SpaceRun(s: string): (k: nat)
    ensures k <= |s|
    ensures forall i :: 0 <= i < k ==> s[i] == ' '
    ensures k < |s| ==> s[k] != ' '
  {
    if s == [] || s[0] != ' ' then 0 else 1 + SpaceRun(s[1..])
  }

  /**
   * `std::regex_replace(s, std::regex("^ +| +$|( ) +"), "$1")`: the scan
   * looks for the leftmost match; at each position the alternatives are
   * tried in order. `^ +` (only at the very start) and ` +$` (a run that
   * reaches the end) are replaced by the empty group, `( ) +` (two or more
   * spaces) by a single space; unmatched characters are copied.
   */
  function CollapseSpaces(s: string, atStart: bool): string
    decreases |s|
  {
    if s == [] then ""
    else if s[0] == ' ' then
      var k := SpaceRun(s);
      if atStart then CollapseSpaces(s[k..], false)
      else if k == |s| then ""
      else if k >= 2 then " " + CollapseSpaces(s[k..], false)
      else [s[0]] + CollapseSpaces(s[1..], false)
    else [s[0]] + CollapseSpaces(s[1..], false)
  }

  /** The clean-up `ProcessFile` applies to the decoded text. */
  function CleanTranscript(s: string): string
  {
    CollapseSpaces(s, true)
  }

  /** The words of `s`, when words are separated by spaces. */
  function SpaceWords(s: string): seq<string> { Split(s, " ") }

  lemma {:induction false} SplitSkipSpaces(s: string, k: nat)
    requires k <= |s| && forall i :: 0 <= i < k ==> s[i] == ' '
    ensures Split(s, " ") == Split(s[k..], " ")
    decreases k
  {
    if k > 0 {
      assert s[1..][k - 1..] == s[k..];
      SplitSkipSpaces(s[1..], k - 1);
    }
  }

  lemma SplitNonEmpty(s: string)
    requires |s| > 0 && s[0] != ' '
    ensures Split(s, " ") != []
  {
  }

  /** Prepending a non-space character extends the first word or adds one. */
  lemma {:induction false} SplitCons(c: char, t: string)
    requires c != ' '
    ensures Split([c] + t, " ") ==
      if t != [] && t[0] != ' ' then [[c] + Split(t, " ")[0]] + Split(t, " ")[1..]
      else [[c]] + Split(t, " ")
  {
    var s := [c] + t;
    var k := RunLength(s, " ");
    assert s[1..] == t;
    assert k == 1 + RunLength(t, " ");
    if t != [] && t[0] != ' ' {
      var kt := RunLength(t, " ");
      assert s[..k] == [c] + t[..kt];
      assert s[k..] == t[kt..];
    } else {
      assert s[..k] == [c];
      assert s[k..] == t;
    }
  }

  /**
   * The scan equals the words of the input joined by single spaces, except
   * that in mid-string a leading run of spaces in front of a word leaves one
   * space.
   */
  lemma {:induction false} CollapseSpacesIsJoin(s: string, atStart: bool)
    ensures CollapseSpaces(s, atStart) ==
      (if !atStart && |s| > 0 && s[0] == ' ' && SpaceWords(s) != [] then " " else "")
      + Join(SpaceWords(s), " ")
    decreases |s|
  {
    if s == [] {
    } else if s[0] == ' ' {
      CollapseLeadingSpaces(s, atStart);
    } else {
      var c, t := s[0], s[1..];
      assert s == [c] + t;
      CollapseSpacesIsJoin(t, false);
      JoinSpaceWordsCons(c, t);
      calc {
        CollapseSpaces(s, atStart);
        [c] + CollapseSpaces(t, false);
        Join(SpaceWords([c] + t), " ");
      }
    }
  }

  /** The step of CollapseSpacesIsJoin for a string that starts with a space. */
  lemma {:induction false} CollapseLeadingSpaces(s: string, atStart: bool)
    requires |s| > 0 && s[0] == ' '
    ensures CollapseSpaces(s, atStart) ==
      (if !atStart && SpaceWords(s) != [] then " " else "") + Join(SpaceWords(s), " ")
    decreases |s|, 0
  {
    var k := SpaceRun(s);
    SplitSkipSpaces(s, k);
    if k < |s| { SplitNonEmpty(s[k..]); }
    if atStart {
      assert CollapseSpaces(s, atStart) == CollapseSpaces(s[k..], false);
      CollapseSpacesIsJoin(s[k..], false);
    } else if k == |s| {
      assert s[k..] == [];
    } else if k >= 2 {
      assert CollapseSpaces(s, atStart) == " " + CollapseSpaces(s[k..], false);
      CollapseSpacesIsJoin(s[k..], false);
    } else {
      assert s[1..] == s[k..];
      assert CollapseSpaces(s, atStart) == [s[0]] + CollapseSpaces(s[1..], false);
      CollapseSpacesIsJoin(s[1..], false);
    }
  }

  /** The join of the words of `[c] + t` for a non-space `c`. */
  lemma JoinSpaceWordsCons(c: char, t: string)
    requires c != ' '
    ensures Join(SpaceWords([c] + t), " ") ==
      [c] + (if t != [] && t[0] == ' ' && SpaceWords(t) != [] then " " else "") + Join(SpaceWords(t), " ")
  {
    var wt := SpaceWords(t);
    SplitCons(c, t);
    if t != [] && t[0] != ' ' {
      SplitNonEmpty(t);
      var w0, rest := wt[0], wt[1..];
      assert wt == [w0] + rest;
      JoinFirst([c] + w0, rest, " ");
      JoinFirst(w0, rest, " ");
    } else {
      JoinFirst([c], wt, " ");
    }
  }

  lemma JoinFirst(w: string, ws: seq<string>, sep: string)
    ensures Join([w] + ws, sep) == w + (if ws == [] then "" else sep + Join(ws, sep))
  {
    assert ([w] + ws)[0] == w && ([w] + ws)[1..] == ws;
  }

  /** The clean-up keeps exactly the words, joined by single spaces. */
  lemma CleanTranscriptIsJoin(s: string)
    ensures CleanTranscript(s) == Join(SpaceWords(s), " ")
  {
    CollapseSpacesIsJoin(s, true);
  }

  /** The clean-up changes no word and no word order. */
  lemma CleanTranscriptKeepsWords(s: string)
    ensures SpaceWords(CleanTranscript(s)) == SpaceWords(s)
  {
    CleanTranscriptIsJoin(s);
    SplitJoin(SpaceWords(s), ' ', " ");
  }

  /** Cleaning an already cleaned transcript changes nothing. */
  lemma CleanTranscriptIdempotent(s: string)
    ensures CleanTranscript(CleanTranscript(s)) == CleanTranscript(s)
  {
    CleanTranscriptKeepsWords(s);
    CleanTranscriptIsJoin(CleanTranscript(s));
    CleanTranscriptIsJoin(s);
  }

  /**
   * A join of non-empty space-free words by single spaces neither starts
   * nor ends with a space and holds no two adjacent spaces.
   */
  lemma {:induction false} JoinShape(ws: seq<string>)
    requires forall i :: 0 <= i < |ws| ==> |ws[i]| > 0 && NoDelim(ws[i], " ")
    ensures var r := Join(ws, " ");
      && (|r| > 0 ==> r[0] != ' ' && r[|r| - 1] != ' ')
      && (forall i :: 0 <= i < |r| - 1 ==> !(r[i] == ' ' && r[i + 1] == ' '))
    decreases |ws|
  {
    if |ws| > 1 {
      JoinShape(ws[1..]);
      var w, rest := ws[0], Join(ws[1..], " ");
      var r := Join(ws, " ");
      assert r == w + " " + rest;
      assert |rest| > 0 by { assert |ws[1..][0]| > 0; JoinLength(ws[1..]); }
      forall i | 0 <= i < |r| - 1
        ensures !(r[i] == ' ' && r[i + 1] == ' ')
      {
        if i < |w| - 1 { assert r[i] == w[i]; }
        else if i == |w| - 1 { assert r[i] == w[i]; }
        else if i == |w| { assert r[i + 1] == rest[0]; }
        else { assert r[i] == rest[i - |w| - 1] && r[i + 1] == rest[i - |w|]; }
      }
    }
  }

  lemma {:induction false} JoinLength(ws: seq<string>)
    requires |ws| > 0 && |ws[0]| > 0
    ensures |Join(ws, " ")| > 0
  {
  }

  /** The cleaned transcript has no leading, trailing or doubled space. */
  lemma CleanTranscriptShape(s: string)
    ensures var r := CleanTranscript(s);
      && (|r| > 0 ==> r[0] != ' ' && r[|r| - 1] != ' ')
      && (forall i :: 0 <= i < |r| - 1 ==> !(r[i] == ' ' && r[i + 1] == ' '))
  {
    CleanTranscriptIsJoin(s);
    JoinShape(SpaceWords(s));
  }
}
