/** Where sentences are cut: at the boundary characters and nowhere else. */
module ChunkSentences {
  import opened Chunker

  /** Position `c` starts the text or follows a boundary character. */
  predicate IsCut(text: string, c: nat) {
    c == 0 || (c <= |text| && IsSentenceBoundary(text, c - 1))
  }

  /** The cuts up to position `n`, in order. */
  function Cuts(text: string, n: nat): (cuts: seq<nat>)
    requires n <= |text|
    ensures cuts != [] && forall k :: 0 <= k < |cuts| ==> cuts[k] <= n
  {
    if n == 0 then [0]
    else Cuts(text, n - 1) + if IsCut(text, n) then [n] else []
  }

  /** They are exactly the cuts, each once, in increasing order. */
  lemma {:induction false} CutsAreTheCuts(text: string, n: nat)
    requires n <= |text|
    ensures forall c: nat :: c in Cuts(text, n) <==> c <= n && IsCut(text, c)
    ensures forall i, j :: 0 <= i < j < |Cuts(text, n)| ==> Cuts(text, n)[i] < Cuts(text, n)[j]
  {
    if n > 0 {
      CutsAreTheCuts(text, n - 1);
    }
  }

  /** What lies between successive cuts, trimmed; blanks are dropped. */
  function Between(text: string, cuts: seq<nat>): seq<string>
    requires forall k :: 0 <= k < |cuts| ==> cuts[k] <= |text|
  {
    if |cuts| < 2 then []
    else
      var a, b := cuts[|cuts| - 2], cuts[|cuts| - 1];
      AddNonEmpty(Between(text, cuts[..|cuts| - 1]), if a <= b then Strip(text[a..b]) else "")
  }

  lemma OneMoreCut(text: string, cuts: seq<nat>, b: nat)
    requires cuts != [] && (forall k :: 0 <= k < |cuts| ==> cuts[k] <= |text|) && cuts[|cuts| - 1] <= b <= |text|
    ensures Between(text, cuts + [b]) == AddNonEmpty(Between(text, cuts), Strip(text[cuts[|cuts| - 1]..b]))
  {
    assert (cuts + [b])[..|cuts|] == cuts;
  }

  lemma {:induction false} ScanIsBetween(text: string, n: nat)
    requires n <= |text|
    ensures Scan(text, n) == (Between(text, Cuts(text, n)), Cuts(text, n)[|Cuts(text, n)| - 1])
  {
    if n > 0 {
      ScanIsBetween(text, n - 1);
      if IsCut(text, n) {
        OneMoreCut(text, Cuts(text, n - 1), n);
      } else {
        assert Cuts(text, n) == Cuts(text, n - 1);
      }
    }
  }

  /** The sentences of a text are the non-blank stretches between its start, its cuts and its end. */
  lemma SentencesLieBetweenCuts(text: string)
    ensures var cuts := Cuts(text, |text|);
            Sentences(text) == Between(text, if cuts[|cuts| - 1] < |text| then cuts + [|text|] else cuts)
  {
    ScanIsBetween(text, |text|);
    OneMoreCut(text, Cuts(text, |text|), |text|);
    var start := Scan(text, |text|).1;
    assert text[start..] == text[start..|text|];
  }

  // ---------------------------------------------------------------- which characters are boundaries

  const HARD_BOUNDARIES: string := "!?;\U{3002}\U{FF01}\U{FF1F}\U{FF1B}"

  const ABBREVIATIONS: set<string> := {
    "e.g.", "i.e.", "U.S.", "U.K.", "A.M.", "P.M.", "a.m.", "p.m.", "Inc.", "Ltd.", "No.", "vs.", "approx.", "Dr.",
    "Mr.", "Ms.", "Prof."}

  /** A mark of the end of a sentence is a boundary wherever it stands; a full stop is one at the end of
      the text or before whitespace, unless an abbreviation ends there; nothing else is. */
  lemma BoundaryMeaning(chars: string, index: nat)
    requires index < |chars|
    ensures IsSentenceBoundary(chars, index) <==>
            || chars[index] in HARD_BOUNDARIES
            || (chars[index] == '.' && (index + 1 < |chars| ==> IsWhitespace(chars[index + 1]))
                && forall w :: w in ABBREVIATIONS ==> !EndsWith(chars[..index + 1], w))
  {
    HardBoundaries(chars[index]);
    AbbreviationEnds(chars, index);
  }

  lemma HardBoundaries(c: char)
    ensures IsHardBoundary(c) <==> c in HARD_BOUNDARIES
  {
    assert HARD_BOUNDARIES[0] == '!' && HARD_BOUNDARIES[1] == '?' && HARD_BOUNDARIES[2] == ';';
    assert HARD_BOUNDARIES[3] == '\U{3002}' && HARD_BOUNDARIES[4] == '\U{FF01}';
    assert HARD_BOUNDARIES[5] == '\U{FF1F}' && HARD_BOUNDARIES[6] == '\U{FF1B}';
  }

  lemma AbbreviationEnds(chars: string, index: nat)
    requires index < |chars|
    ensures EndsWithProtectedPeriod(chars, index) <==> exists w :: w in ABBREVIATIONS && EndsWith(chars[..index + 1], w)
  {
    var start := if index > 12 then index - 12 else 0;
    SameAbbreviations();
    forall i | 0 <= i < |PROTECTED|
      ensures EndsWith(chars[start..index + 1], PROTECTED[i]) <==> EndsWith(chars[..index + 1], PROTECTED[i])
    {
      EndInWindow(chars, start, index, PROTECTED[i]);
    }
  }

  lemma SameAbbreviations()
    ensures forall i :: 0 <= i < |PROTECTED| ==> PROTECTED[i] in ABBREVIATIONS && |PROTECTED[i]| <= 13
    ensures forall w :: w in ABBREVIATIONS ==> exists i :: 0 <= i < |PROTECTED| && PROTECTED[i] == w
  {
    assert |PROTECTED| == 17;
    forall w | w in ABBREVIATIONS ensures exists i :: 0 <= i < |PROTECTED| && PROTECTED[i] == w {
      assert w in PROTECTED;
    }
  }

  /** The window of thirteen characters is long enough for every abbreviation. */
  lemma EndInWindow(chars: string, start: nat, index: nat, w: string)
    requires index < |chars| && start == (if index > 12 then index - 12 else 0) && |w| <= 13
    ensures EndsWith(chars[start..index + 1], w) <==> EndsWith(chars[..index + 1], w)
  {
    var all, window := chars[..index + 1], chars[start..index + 1];
    if |w| <= |window| {
      assert window[|window| - |w|..] == all[|all| - |w|..];
    }
  }
}
