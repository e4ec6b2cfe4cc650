/** The pieces a text is packed from: its sentences, and of a sentence that does not fit the longest
    prefix that does, again and again. */
module ChunkPieces {
  import opened Basics
  import opened Trimming
  import opened Chunker
  import opened ChunkContent
  import opened ChunkTokens

  /** The counter never falls from a text to one it is a prefix of. */
  ghost predicate Grows(count: TokenCounter) {
    forall text: string :: GrowsAlong(text, count)
  }

  /** `p` is a prefix of `text` that fits, or one character, and no trimmed prefix that fits is longer. */
  ghost predicate IsLongestCut(p: string, text: string, maxTokens: nat, count: TokenCounter) {
    && p != [] && p <= text && Tight(p, IsWhitespace) && (count(p) <= maxTokens || |p| == 1)
    && forall k: nat :: k <= |text| && count(text[..k]) <= maxTokens ==> |Strip(text[..k])| <= |p|
  }

  /** Each piece is the longest cut of what is left by those before it, and nothing is left in the end. */
  ghost predicate CutUp(pieces: seq<string>, text: string, maxTokens: nat, count: TokenCounter)
    decreases |pieces|
  {
    if pieces == [] then text == []
    else
      && IsLongestCut(pieces[0], text, maxTokens, count)
      && CutUp(pieces[1..], TrimStart(text[|pieces[0]|..], IsWhitespace), maxTokens, count)
  }

  lemma {:induction false} PrefixesCutUp(text: string, maxTokens: nat, count: TokenCounter)
    requires Tight(text, IsWhitespace) && Grows(count)
    ensures CutUp(Prefixes(text, maxTokens, count), text, maxTokens, count)
    decreases |text|
  {
    TrimOfTight(text, IsWhitespace);
    if text != [] {
      var p := TokenPrefix(text, maxTokens, count);
      assert GrowsAlong(text, count);
      TokenPrefixIsLongest(text, maxTokens, count);
      TokenPrefixIsPrefix(text, maxTokens, count);
      var rest := TrimStart(text[|p|..], IsWhitespace);
      TrimStartMeaning(text[|p|..], IsWhitespace);
      RestIsTight(text, |p|);
      PrefixesCutUp(rest, maxTokens, count);
      FirstPrefix(text, p, rest, maxTokens, count);
    }
  }

  lemma FirstPrefix(text: string, p: string, rest: string, maxTokens: nat, count: TokenCounter)
    requires text != [] && Strip(text) != [] && p == TokenPrefix(text, maxTokens, count) && p != [] && |p| <= |text|
    requires rest == TrimStart(text[|p|..], IsWhitespace)
    ensures var pieces := Prefixes(text, maxTokens, count);
            pieces != [] && pieces[0] == p && pieces[1..] == Prefixes(rest, maxTokens, count)
  {
  }

  /** One sentence: itself if it fits, and else cut up. */
  ghost predicate PiecesOfSentence(pieces: seq<string>, sentence: string, maxTokens: nat, count: TokenCounter) {
    if count(sentence) <= maxTokens then pieces == [sentence] else CutUp(pieces, sentence, maxTokens, count)
  }

  function Joined(groups: seq<seq<string>>): seq<string> {
    if groups == [] then [] else Joined(groups[..|groups| - 1]) + groups[|groups| - 1]
  }

  /** The pieces are those of the sentences, sentence by sentence. */
  ghost predicate SentenceBySentence(groups: seq<seq<string>>, sentences: seq<string>, maxTokens: nat,
                                     count: TokenCounter)
  {
    && |groups| == |sentences|
    && forall i :: 0 <= i < |sentences| ==> PiecesOfSentence(groups[i], sentences[i], maxTokens, count)
  }

  lemma {:induction false} BudgetedBySentence(sentences: seq<string>, maxTokens: nat, count: TokenCounter)
    returns (groups: seq<seq<string>>)
    requires AllTight(sentences) && Grows(count)
    ensures SentenceBySentence(groups, sentences, maxTokens, count)
    ensures BudgetedAll(sentences, maxTokens, count) == Joined(groups)
  {
    groups := [];
    if sentences != [] {
      var front, last := sentences[..|sentences| - 1], sentences[|sentences| - 1];
      assert last in sentences && forall s :: s in front ==> s in sentences;
      var before := BudgetedBySentence(front, maxTokens, count);
      PrefixesCutUp(last, maxTokens, count);
      var pieces := Budgeted(last, maxTokens, count);
      groups := before + [pieces];
      OneGroupMore(before, pieces, front, last, maxTokens, count);
      assert sentences == front + [last];
      assert groups[..|groups| - 1] == before;
    }
  }

  lemma OneGroupMore(groups: seq<seq<string>>, pieces: seq<string>, sentences: seq<string>, last: string,
                     maxTokens: nat, count: TokenCounter)
    requires SentenceBySentence(groups, sentences, maxTokens, count)
    requires PiecesOfSentence(pieces, last, maxTokens, count)
    ensures SentenceBySentence(groups + [pieces], sentences + [last], maxTokens, count)
  {
  }

  /** Of a text that is not blank. */
  lemma PiecesAreSentences(text: string, maxTokens: nat, count: TokenCounter) returns (groups: seq<seq<string>>)
    requires Strip(text) != [] && Grows(count)
    ensures Sentences(text) != [] && SentenceBySentence(groups, Sentences(text), maxTokens, count)
    ensures BudgetedSentences(text, maxTokens, count) == Joined(groups)
  {
    SentencesKeepInk(text);
    SomeSentence(text);
    groups := BudgetedBySentence(Sentences(text), maxTokens, count);
  }

  lemma SomeSentence(text: string)
    requires Strip(text) != []
    ensures Sentences(text) != []
  {
    SentencesKeepInk(text);
    TrimMeaning(text, IsWhitespace);
    InkOfTight(Strip(text));
  }

  /** A text that is not blank has ink. */
  lemma InkOfTight(s: string)
    requires s != [] && Tight(s, IsWhitespace)
    ensures Inked(s) != []
  {
  }

  // ---------------------------------------------------------------- an example

  /** One token for every four characters begun. */
  function InFours(s: string): nat {
    (|s| + 3) / 4
  }

  lemma TenLetters()
    ensures Prefixes("abcdefghij", 2, InFours) == ["abcdefgh", "ij"]
  {
    var text := "abcdefghij";
    forall t: string, i, j | 0 <= i <= j <= |t| ensures InFours(t[..i]) <= InFours(t[..j]) {
    }
    assert Grows(InFours) by {
      forall t: string ensures GrowsAlong(t, InFours) {
      }
    }
    PrefixesCutUp(text, 2, InFours);
    var pieces := Prefixes(text, 2, InFours);
    TrimOfTight(text, IsWhitespace);
    FirstOfTen(pieces[0]);
    assert text[8..] == "ij";
    TrimOfTight("ij", IsWhitespace);
  }

  lemma FirstOfTen(p: string)
    requires IsLongestCut(p, "abcdefghij", 2, InFours)
    ensures p == "abcdefgh"
  {
    var text := "abcdefghij";
    assert InFours(text[..8]) == 2 && Tight(text[..8], IsWhitespace);
    TrimOfTight(text[..8], IsWhitespace);
    assert |p| == 8;
    assert p == text[..8];
  }
}
