/** Sharing a token budget among retrieved contexts, and trimming one text to its share. */
module ContextBudget {
  import opened Basics
  import opened Trimming

  /** Python's `str.isspace`. */
  predicate IsPySpace(c: char) {
    || '\t' <= c <= '\r' || '\U{1C}' <= c <= ' ' || c == '\U{85}' || c == '\U{A0}' || c == '\U{1680}'
    || '\U{2000}' <= c <= '\U{200A}' || c == '\U{2028}' || c == '\U{2029}' || c == '\U{202F}'
    || c == '\U{205F}' || c == '\U{3000}'
  }

  function RStrip(s: string): string {
    TrimEnd(s, IsPySpace)
  }

  /** The parts `str.split` finds: one for each character that is not space and follows the start of
      the text or a space. */
  function Words(text: string): nat {
    if text == [] then 0
    else
      var n := |text| - 1;
      Words(text[..n]) + if !IsPySpace(text[n]) && (n == 0 || IsPySpace(text[n - 1])) then 1 else 0
  }

  function NonAscii(text: string): nat {
    if text == [] then 0
    else NonAscii(text[..|text| - 1]) + if text[|text| - 1] as int > 127 then 1 else 0
  }

  function EstimateTokens(text: string): nat {
    if text == [] then 0
    else
      var estimate := Words(text) + NonAscii(text) + Ascii(text) / 4;
      if estimate > 1 then estimate else 1
  }

  function Ascii(text: string): nat {
    if text == [] then 0
    else Ascii(text[..|text| - 1]) + if text[|text| - 1] as int <= 127 then 1 else 0
  }

  /** A word starts at position `i`: no space, at the start of the text or after a space. */
  predicate StartsWord(text: string, i: nat)
    requires i < |text|
  {
    !IsPySpace(text[i]) && (i == 0 || IsPySpace(text[i - 1]))
  }

  ghost function WordStarts(text: string): set<nat> {
    set i: nat | i < |text| && StartsWord(text, i)
  }

  ghost function BeyondAscii(text: string): set<nat> {
    set i: nat | i < |text| && text[i] as int > 127
  }

  lemma {:induction false} WordsAreStarts(text: string)
    ensures Words(text) == |WordStarts(text)|
  {
    if text != [] {
      var n: nat := |text| - 1;
      WordsAreStarts(text[..n]);
      OneCharacterMore(text, n);
    }
  }

  lemma OneCharacterMore(text: string, n: nat)
    requires |text| == n + 1
    ensures n !in WordStarts(text[..n])
    ensures WordStarts(text) == WordStarts(text[..n]) + if StartsWord(text, n) then {n} else {}
  {
    forall i: nat | i < n ensures i in WordStarts(text[..n]) <==> i in WordStarts(text) {
      assert StartsWord(text[..n], i) <==> StartsWord(text, i);
    }
    assert n in WordStarts(text) <==> StartsWord(text, n);
  }

  lemma {:induction false} NonAsciiArePositions(text: string)
    ensures NonAscii(text) == |BeyondAscii(text)|
  {
    if text != [] {
      var n: nat := |text| - 1;
      var before := BeyondAscii(text[..n]);
      NonAsciiArePositions(text[..n]);
      assert BeyondAscii(text) == before + if text[n] as int > 127 then {n} else {};
    }
  }

  lemma {:induction false} AsciiAreTheOthers(text: string)
    ensures NonAscii(text) + Ascii(text) == |text|
  {
    if text != [] {
      AsciiAreTheOthers(text[..|text| - 1]);
    }
  }

  /** What is estimated: the words, the characters beyond ASCII, and a quarter of the others rounded
      down; at least one token for any text that is not empty. */
  lemma EstimateMeaning(text: string)
    ensures |BeyondAscii(text)| <= |text|
    ensures var wide := |BeyondAscii(text)|;
            EstimateTokens(text) == if text == "" then 0 else Max(1, |WordStarts(text)| + wide + (|text| - wide) / 4)
  {
    WordsAreStarts(text);
    NonAsciiArePositions(text);
    AsciiAreTheOthers(text);
  }

  lemma {:induction false} EstimateIsMonotone(text: string, i: nat, j: nat)
    requires i <= j <= |text|
    ensures Words(text[..i]) <= Words(text[..j]) && NonAscii(text[..i]) <= NonAscii(text[..j])
            && Ascii(text[..i]) <= Ascii(text[..j])
    ensures EstimateTokens(text[..i]) <= EstimateTokens(text[..j])
  {
    if i < j {
      EstimateIsMonotone(text, i, j - 1);
      assert text[..j][..j - 1] == text[..j - 1];
    }
  }

  lemma RStripIsPrefix(text: string, i: nat)
    requires i <= |text|
    ensures |RStrip(text[..i])| <= i && RStrip(text[..i]) == text[..|RStrip(text[..i])|]
  {
    TrimEndMeaning(text[..i], IsPySpace);
  }

  /** One character more: kept, or stripped together with the spaces before it. */
  lemma RStripStep(text: string, j: nat)
    requires 0 < j <= |text|
    ensures RStrip(text[..j]) == if IsPySpace(text[j - 1]) then RStrip(text[..j - 1]) else text[..j]
  {
    assert text[..j][..j - 1] == text[..j - 1];
  }

  /** Right-stripping loses nothing to a longer prefix. */
  lemma {:induction false} RStripIsMonotone(text: string, i: nat, j: nat)
    requires i <= j <= |text|
    ensures |RStrip(text[..i])| <= |RStrip(text[..j])|
  {
    if i < j {
      RStripIsMonotone(text, i, j - 1);
      RStripStep(text, j);
      RStripIsPrefix(text, j - 1);
    }
  }

  lemma CandidatesAreMonotone(text: string, i: nat, j: nat)
    requires i <= j <= |text|
    ensures EstimateTokens(RStrip(text[..i])) <= EstimateTokens(RStrip(text[..j]))
  {
    RStripIsMonotone(text, i, j);
    RStripIsPrefix(text, i);
    RStripIsPrefix(text, j);
    EstimateIsMonotone(text, |RStrip(text[..i])|, |RStrip(text[..j])|);
  }

  /** A prefix of the text with no space at its end. */
  predicate StrippedPrefix(p: string, text: string) {
    p <= text && RStrip(p) == p
  }

  /** What trimming promises: the whole text if it fits; otherwise the longest right-stripped prefix
      that fits; nothing at all for an empty budget. */
  predicate IsTrimmed(p: string, text: string, budget: int) {
    if budget <= 0 then p == ""
    else if EstimateTokens(text) <= budget then p == text
    else StrippedPrefix(p, text) && EstimateTokens(p) <= budget
         && forall k: nat :: k <= |text| && StrippedPrefix(text[..k], text) && EstimateTokens(text[..k]) <= budget ==>
           k <= |p|
  }

  /** The promise leaves no choice. */
  lemma TrimmedIsUnique(p: string, q: string, text: string, budget: int)
    requires IsTrimmed(p, text, budget) && IsTrimmed(q, text, budget)
    ensures p == q
  {
    if p <= text && q <= text {
      assert p == text[..|p|] && q == text[..|q|];
    }
  }

  method TrimTextToTokenBudget(text: string, tokenBudget: int) returns (best: string)
    ensures IsTrimmed(best, text, tokenBudget)
    ensures tokenBudget >= 0 ==> EstimateTokens(best) <= tokenBudget
  {
    if tokenBudget <= 0 || text == "" {
      NothingToTrim(text, tokenBudget);
      return "";
    }
    if EstimateTokens(text) <= tokenBudget {
      TrimmedFits(text, text, tokenBudget);
      return text;
    }
    var low: int, high: int := 0, |text|;
    best := "";
    ghost var m := 0;
    NothingFits(text, tokenBudget);
    while low <= high
      invariant 0 <= low <= high + 1 <= |text| + 1
      invariant m <= |text| && best == RStrip(text[..m]) && FitsUpTo(text, m, tokenBudget)
      invariant low == 0 || m == low - 1
      invariant high == |text| || !FitsUpTo(text, high + 1, tokenBudget)
      decreases high - low
    {
      var midpoint := (low + high) / 2;
      var candidate := RStrip(text[..midpoint]);
      if EstimateTokens(candidate) <= tokenBudget {
        best := candidate;
        m := midpoint;
        low := midpoint + 1;
      } else {
        high := midpoint - 1;
      }
    }
    BestIsLongest(text, m, tokenBudget);
    TrimmedFits(best, text, tokenBudget);
  }

  lemma NothingToTrim(text: string, budget: int)
    requires budget <= 0 || text == ""
    ensures IsTrimmed("", text, budget) && EstimateTokens("") == 0
  {
  }

  /** The right-stripped prefix of `k` characters fits the budget. */
  predicate FitsUpTo(text: string, k: nat, budget: int)
    requires k <= |text|
  {
    EstimateTokens(RStrip(text[..k])) <= budget
  }

  lemma NothingFits(text: string, budget: nat)
    ensures RStrip(text[..0]) == "" && FitsUpTo(text, 0, budget)
  {
    TrimEndMeaning(text[..0], IsPySpace);
  }

  /** The last position whose stripped prefix fits gives the longest stripped prefix that fits. */
  lemma BestIsLongest(text: string, m: nat, budget: nat)
    requires budget > 0 && EstimateTokens(text) > budget && m <= |text|
    requires FitsUpTo(text, m, budget)
    requires m < |text| ==> !FitsUpTo(text, m + 1, budget)
    ensures IsTrimmed(RStrip(text[..m]), text, budget)
  {
    var p := RStrip(text[..m]);
    TrimEndMeaning(text[..m], IsPySpace);
    forall k: nat | k <= |text| && StrippedPrefix(text[..k], text) && EstimateTokens(text[..k]) <= budget
      ensures k <= |p|
    {
      if k <= m {
        RStripIsMonotone(text, k, m);
        assert RStrip(text[..k]) == text[..k];
      } else {
        CandidatesAreMonotone(text, m + 1, k);
      }
    }
  }

  // ---------------------------------------------------------------- sharing

  /** A retrieved context; everything but its text is carried along unchanged. */
  datatype Context = Context(id: string, text: string, score: string, metadata: string)

  function Total(contexts: seq<Context>): nat {
    if contexts == [] then 0
    else Total(contexts[..|contexts| - 1]) + EstimateTokens(contexts[|contexts| - 1].text)
  }

  /** What one context may use of `remaining` tokens shared among `left` contexts. */
  function Share(remaining: nat, left: nat): nat
    requires left > 0
  {
    Max(1, remaining / left)
  }

  /** What `tokenBudget` still holds once these results are paid for. */
  function Remaining(tokenBudget: nat, spent: seq<Context>): nat {
    if spent == [] then tokenBudget
    else
      var n := |spent| - 1;
      Max(0, Remaining(tokenBudget, spent[..n]) - EstimateTokens(spent[n].text))
  }

  /** The share context `i` of `n` gets after the results before it were paid for. */
  function ShareOf(tokenBudget: nat, budgeted: seq<Context>, i: nat, n: nat): nat
    requires i <= |budgeted| && i < n
  {
    Share(Remaining(tokenBudget, budgeted[..i]), n - i)
  }

  /** What is left is the budget less what the results cost, as long as there is any. */
  lemma {:induction false} RemainingIsTheRest(tokenBudget: nat, spent: seq<Context>)
    ensures Remaining(tokenBudget, spent) == Max(0, tokenBudget - Total(spent))
  {
    if spent != [] {
      RemainingIsTheRest(tokenBudget, spent[..|spent| - 1]);
    }
  }

  /** The results cost the sum of their estimates. */
  lemma {:induction false} CostsAdd(a: seq<Context>, b: seq<Context>)
    ensures Total(a + b) == Total(a) + Total(b)
  {
    if b == [] {
      assert a + b == a;
    } else {
      var front, last := b[..|b| - 1], b[|b| - 1];
      CostsAdd(a, front);
      assert a + b == (a + front) + [last];
      CostOfOneMore(a + front, last);
    }
  }

  lemma CostOfOneMore(spent: seq<Context>, last: Context)
    ensures Total(spent + [last]) == Total(spent) + EstimateTokens(last.text)
  {
    assert (spent + [last])[..|spent|] == spent;
  }

  /** What earlier contexts did not use is shared among those that are left; the last one gets it all. */
  lemma ShareIsOfTheRest(tokenBudget: nat, budgeted: seq<Context>, i: nat, n: nat)
    requires i <= |budgeted| && i < n
    ensures var rest, share := Max(0, tokenBudget - Total(budgeted[..i])), ShareOf(tokenBudget, budgeted, i, n);
            && (rest < n - i ==> share == 1)
            && (rest >= n - i ==> share * (n - i) <= rest < (share + 1) * (n - i))
  {
    RemainingIsTheRest(tokenBudget, budgeted[..i]);
    ShareBounds(Remaining(tokenBudget, budgeted[..i]), n - i);
  }

  lemma ShareBounds(rest: nat, left: nat)
    requires left > 0
    ensures rest < left ==> Share(rest, left) == 1
    ensures rest >= left ==> Share(rest, left) * left <= rest < (Share(rest, left) + 1) * left
  {
    var q := rest / left;
    DivBounds(rest, left);
    assert (q + 1) * left == q * left + left;
    if rest >= left {
      DivAtLeast(rest, left, 1);
      assert Share(rest, left) == q;
    }
  }

  /** Result `i` is context `i` trimmed to its share and otherwise unchanged. */
  ghost predicate Shared(tokenBudget: nat, contexts: seq<Context>, budgeted: seq<Context>, i: nat)
    requires i < |contexts| && i < |budgeted|
  {
    && budgeted[i].(text := contexts[i].text) == contexts[i]
    && IsTrimmed(budgeted[i].text, contexts[i].text, ShareOf(tokenBudget, budgeted, i, |contexts|))
  }

  /** The first `|budgeted|` contexts have been served in order. */
  ghost predicate SharedOut(tokenBudget: nat, contexts: seq<Context>, budgeted: seq<Context>) {
    |budgeted| <= |contexts| && forall i: nat :: i < |budgeted| ==> Shared(tokenBudget, contexts, budgeted, i)
  }

  lemma SharedInPrefix(tokenBudget: nat, contexts: seq<Context>, budgeted: seq<Context>, m: nat, i: nat)
    requires i < m <= |budgeted| <= |contexts|
    ensures Shared(tokenBudget, contexts, budgeted[..m], i) == Shared(tokenBudget, contexts, budgeted, i)
  {
    assert budgeted[..m][..i] == budgeted[..i];
  }

  lemma SharedOutPrefix(tokenBudget: nat, contexts: seq<Context>, budgeted: seq<Context>)
    requires SharedOut(tokenBudget, contexts, budgeted) && budgeted != []
    ensures SharedOut(tokenBudget, contexts, budgeted[..|budgeted| - 1])
  {
    var n: nat := |budgeted| - 1;
    forall i: nat | i < n ensures Shared(tokenBudget, contexts, budgeted[..n], i) {
      SharedInPrefix(tokenBudget, contexts, budgeted, n, i);
    }
  }

  /** The order and the shares leave no choice. */
  lemma {:induction false} SharedOutIsUnique(tokenBudget: nat, contexts: seq<Context>, a: seq<Context>, b: seq<Context>)
    requires SharedOut(tokenBudget, contexts, a) && SharedOut(tokenBudget, contexts, b) && |a| == |b|
    ensures a == b
  {
    if a != [] {
      var n: nat := |a| - 1;
      SharedOutPrefix(tokenBudget, contexts, a);
      SharedOutPrefix(tokenBudget, contexts, b);
      SharedOutIsUnique(tokenBudget, contexts, a[..n], b[..n]);
      assert Shared(tokenBudget, contexts, a, n) && Shared(tokenBudget, contexts, b, n);
      TrimmedIsUnique(a[n].text, b[n].text, contexts[n].text, ShareOf(tokenBudget, a, n, |contexts|));
      assert a == a[..n] + [a[n]] && b == b[..n] + [b[n]];
    }
  }

  lemma DivBounds(a: nat, b: nat)
    requires b > 0
    ensures a / b * b <= a < a / b * b + b
    ensures a < b ==> a / b == 0
  {
  }

  lemma Cancel(x: int, b: nat)
    requires x * b > 0
    ensures x > 0
  {
  }

  lemma DivAtLeast(a: nat, b: nat, q: nat)
    requires b > 0 && a >= q * b
    ensures a / b >= q
  {
    var d := a / b;
    DivBounds(a, b);
    assert (d + 1 - q) * b == d * b + b - q * b;
    Cancel(d + 1 - q, b);
  }

  lemma ProductAtLeastSum(q: nat, left: nat)
    requires q >= 1 && left >= 1
    ensures q + left - 1 <= q * left
  {
    assert (q - 1) * (left - 1) == q * left - q - left + 1;
  }

  /** Paying for one result that stays within its share: what is paid and what is left together fit
      what was there. */
  lemma PayingStep(remaining: nat, left: nat, used: nat)
    requires left > 0 && used <= Share(remaining, left)
    ensures used + Max(Max(0, remaining - used), left - 1) <= Max(remaining, left)
  {
    DivBounds(remaining, left);
    if remaining >= left {
      DivAtLeast(remaining, left, 1);
      ProductAtLeastSum(remaining / left, left);
    }
  }

  /** With B tokens for n contexts the results cost at most B, or n if that is more. */
  lemma {:induction false} CostIsBounded(tokenBudget: nat, contexts: seq<Context>, budgeted: seq<Context>)
    requires SharedOut(tokenBudget, contexts, budgeted)
    ensures Total(budgeted)
            + Max(Remaining(tokenBudget, budgeted), |contexts| - |budgeted|) <= Max(tokenBudget, |contexts|)
  {
    if budgeted != [] {
      var n: nat := |budgeted| - 1;
      SharedOutPrefix(tokenBudget, contexts, budgeted);
      CostIsBounded(tokenBudget, contexts, budgeted[..n]);
      assert Shared(tokenBudget, contexts, budgeted, n);
      var share := ShareOf(tokenBudget, budgeted, n, |contexts|);
      TrimmedFits(budgeted[n].text, contexts[n].text, share);
      PayingStep(Remaining(tokenBudget, budgeted[..n]), |contexts| - n, EstimateTokens(budgeted[n].text));
    }
  }

  lemma TrimmedFits(p: string, text: string, budget: nat)
    requires IsTrimmed(p, text, budget)
    ensures EstimateTokens(p) <= budget
  {
  }

  /** With a token for every context left, staying within one's share leaves the others' no smaller. */
  lemma ShareNeverFalls(remaining: nat, left: nat, used: nat)
    requires remaining >= left > 1 && used <= Share(remaining, left)
    ensures remaining - used >= left - 1 && Share(remaining - used, left - 1) >= Share(remaining, left)
  {
    var q := remaining / left;
    DivBounds(remaining, left);
    DivAtLeast(remaining, left, 1);
    assert q * (left - 1) == q * left - q;
    ProductAtLeastSum(q, left);
    DivAtLeast(remaining - used, left - 1, q);
  }

  lemma NextShare(tokenBudget: nat, contexts: seq<Context>, budgeted: seq<Context>, i: nat, j: nat)
    requires i < |budgeted| && j == i + 1 < |contexts| && Shared(tokenBudget, contexts, budgeted, i)
    requires Remaining(tokenBudget, budgeted[..i]) >= |contexts| - i
    ensures Remaining(tokenBudget, budgeted[..j]) >= |contexts| - j
    ensures ShareOf(tokenBudget, budgeted, j, |contexts|) >= ShareOf(tokenBudget, budgeted, i, |contexts|)
  {
    var remaining, share := Remaining(tokenBudget, budgeted[..i]), ShareOf(tokenBudget, budgeted, i, |contexts|);
    var used := EstimateTokens(budgeted[i].text);
    TrimmedFits(budgeted[i].text, contexts[i].text, share);
    ShareNeverFalls(remaining, |contexts| - i, used);
    assert budgeted[..j][..i] == budgeted[..i];
    assert Remaining(tokenBudget, budgeted[..j]) == remaining - used;
  }

  /** With at least one token for each context, the share never falls from one context to the next. */
  lemma {:induction false} SharesNeverFall(tokenBudget: nat, contexts: seq<Context>, budgeted: seq<Context>, i: nat)
    requires SharedOut(tokenBudget, contexts, budgeted) && tokenBudget >= |contexts| && i <= |budgeted|
             && i < |contexts|
    ensures Remaining(tokenBudget, budgeted[..i]) >= |contexts| - i
    ensures ShareOf(tokenBudget, budgeted, i, |contexts|) >= tokenBudget / |contexts|
    ensures i > 0 ==> ShareOf(tokenBudget, budgeted, i, |contexts|) >= ShareOf(tokenBudget, budgeted, i - 1, |contexts|)
  {
    if i > 0 {
      SharesNeverFall(tokenBudget, contexts, budgeted, i - 1);
      NextShare(tokenBudget, contexts, budgeted, i - 1, i);
    }
  }

  /** Whatever fits in B div n tokens is kept whole. */
  lemma SmallContextsAreKept(tokenBudget: nat, contexts: seq<Context>, budgeted: seq<Context>, i: nat)
    requires SharedOut(tokenBudget, contexts, budgeted) && tokenBudget >= |contexts| && i < |budgeted|
    requires EstimateTokens(contexts[i].text) <= tokenBudget / |contexts|
    ensures budgeted[i] == contexts[i]
  {
    SharesNeverFall(tokenBudget, contexts, budgeted, i);
    assert Shared(tokenBudget, contexts, budgeted, i);
  }

  /** The bound n is met: contexts of one token each are all served, even when the budget is smaller
      than their number. */
  lemma {:induction false} OneTokenEachIsSpent(tokenBudget: nat, contexts: seq<Context>, budgeted: seq<Context>)
    requires SharedOut(tokenBudget, contexts, budgeted)
    requires forall i :: 0 <= i < |contexts| ==> EstimateTokens(contexts[i].text) == 1
    ensures Total(budgeted) == |budgeted|
  {
    if budgeted != [] {
      var n: nat := |budgeted| - 1;
      SharedOutPrefix(tokenBudget, contexts, budgeted);
      OneTokenEachIsSpent(tokenBudget, contexts, budgeted[..n]);
      assert Shared(tokenBudget, contexts, budgeted, n);
    }
  }

  lemma OneLetter()
    ensures EstimateTokens("a") == 1
  {
    assert "a"[..0] == "";
  }

  /** Contexts of one letter each are served as they are, whatever the budget. */
  lemma LettersAreShared(tokenBudget: nat, n: nat) returns (contexts: seq<Context>)
    ensures |contexts| == n && SharedOut(tokenBudget, contexts, contexts)
    ensures forall i :: 0 <= i < n ==> EstimateTokens(contexts[i].text) == 1
  {
    contexts := seq(n, i => Context("", "a", "", ""));
    OneLetter();
  }

  /** With n contexts and a positive budget, the results never cost more than the budget, whatever the
      contexts, if and only if there is a token for each of them. */
  lemma BudgetIsKeptExactly(tokenBudget: nat, n: nat)
    requires tokenBudget > 0
    ensures (forall contexts, budgeted ::
               |contexts| == n && |budgeted| == n && SharedOut(tokenBudget, contexts, budgeted) ==>
                 Total(budgeted) <= tokenBudget)
            <==> tokenBudget >= n
  {
    if tokenBudget >= n {
      forall contexts, budgeted | |contexts| == n && |budgeted| == n && SharedOut(tokenBudget, contexts, budgeted)
        ensures Total(budgeted) <= tokenBudget
      {
        CostIsBounded(tokenBudget, contexts, budgeted);
      }
    } else {
      var contexts := LettersAreShared(tokenBudget, n);
      OneTokenEachIsSpent(tokenBudget, contexts, contexts);
    }
  }

  lemma ServingTheNext(tokenBudget: nat, contexts: seq<Context>, budgeted: seq<Context>, item: Context)
    requires SharedOut(tokenBudget, contexts, budgeted) && |budgeted| < |contexts|
    requires item.(text := contexts[|budgeted|].text) == contexts[|budgeted|]
    requires IsTrimmed(item.text, contexts[|budgeted|].text,
                       Share(Remaining(tokenBudget, budgeted), |contexts| - |budgeted|))
    ensures SharedOut(tokenBudget, contexts, budgeted + [item])
    ensures Remaining(tokenBudget, budgeted + [item])
            == Max(0, Remaining(tokenBudget, budgeted) - EstimateTokens(item.text))
  {
    var n, r := |budgeted|, budgeted + [item];
    assert r[..n] == budgeted;
    forall i: nat | i < |r| ensures Shared(tokenBudget, contexts, r, i) {
      if i < n {
        SharedInPrefix(tokenBudget, contexts, r, n, i);
      }
    }
  }

  /** Trim every context to its share of what is left; a budget of nought or less means no limit. */
  method ApplyContextTokenBudget(contexts: seq<Context>, tokenBudget: int) returns (budgeted: seq<Context>)
    ensures |budgeted| == |contexts|
    ensures tokenBudget <= 0 ==> budgeted == contexts
    ensures tokenBudget > 0 ==>
            SharedOut(tokenBudget, contexts, budgeted) && Total(budgeted) <= Max(tokenBudget, |contexts|)
  {
    if tokenBudget <= 0 || contexts == [] {
      return contexts;
    }
    var remaining: nat, left: nat := tokenBudget, |contexts|;
    budgeted := [];
    for i := 0 to |contexts|
      invariant |budgeted| == i && left == |contexts| - i
      invariant remaining == Remaining(tokenBudget, budgeted)
      invariant SharedOut(tokenBudget, contexts, budgeted)
    {
      var perContext := Share(remaining, left);
      var trimmed := TrimTextToTokenBudget(contexts[i].text, perContext);
      var item := contexts[i].(text := trimmed);
      ServingTheNext(tokenBudget, contexts, budgeted, item);
      budgeted := budgeted + [item];
      remaining := Max(0, remaining - EstimateTokens(trimmed));
      left := left - 1;
    }
    CostIsBounded(tokenBudget, contexts, budgeted);
  }
}
