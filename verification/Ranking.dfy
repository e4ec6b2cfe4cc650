/** Ranking metrics over a list of retrieved ids. The discount 1/log2(rank + 1) is any positive
    function of the rank that strictly decreases; scores are exact fractions. */
module Ranking {
  import opened Basics
  import opened FirstSeen

  type Id = string

  type Discount = nat -> real

  ghost predicate Decreasing(d: Discount) {
    && (forall r: nat :: r >= 1 ==> d(r) > 0.0)
    && forall a: nat, b: nat :: 1 <= a < b ==> d(a) > d(b)
  }

  function Min(a: int, b: int): int {
    if a < b then a else b
  }

  /** Python's `ids[:k]`: a negative k cuts from the end. */
  function Top(ids: seq<Id>, k: int): (top: seq<Id>)
    ensures top <= ids && |top| == if k >= 0 then Min(k, |ids|) else Max(0, |ids| + k)
  {
    if k >= |ids| then ids
    else if k >= 0 then ids[..k]
    else if |ids| + k >= 0 then ids[..|ids| + k]
    else []
  }

  // ---------------------------------------------------------------- gains

  /** The discounts of the ranks that hold a relevant id. */
  function Gain(top: seq<Id>, relevant: set<Id>, d: Discount): real {
    if top == [] then 0.0
    else Gain(top[..|top| - 1], relevant, d) + if top[|top| - 1] in relevant then d(|top|) else 0.0
  }

  /** The gain of `n` hits at ranks 1 to n. */
  function Ideal(n: nat, d: Discount): real {
    if n == 0 then 0.0 else Ideal(n - 1, d) + d(n)
  }

  function Hits(top: seq<Id>, relevant: set<Id>): (h: nat)
    ensures h <= |top|
  {
    if top == [] then 0
    else Hits(top[..|top| - 1], relevant) + if top[|top| - 1] in relevant then 1 else 0
  }

  /** A single hit gains the discount of its rank. */
  lemma {:induction false} GainOfOneHit(top: seq<Id>, relevant: set<Id>, d: Discount, i: nat)
    requires i < |top| && forall j :: 0 <= j < |top| ==> (top[j] in relevant <==> j == i)
    ensures Gain(top, relevant, d) == d(i + 1)
  {
    var n := |top| - 1;
    assert forall j :: 0 <= j < n ==> top[..n][j] == top[j];
    if i < n {
      GainOfOneHit(top[..n], relevant, d, i);
    } else {
      GainOfNoHit(top[..n], relevant, d);
    }
  }

  lemma {:induction false} GainOfNoHit(top: seq<Id>, relevant: set<Id>, d: Discount)
    requires forall x :: x in top ==> x !in relevant
    ensures Gain(top, relevant, d) == 0.0
  {
    if top != [] {
      GainOfNoHit(top[..|top| - 1], relevant, d);
    }
  }

  /** Gains add up. */
  lemma {:induction false} GainsAdd(top: seq<Id>, a: set<Id>, b: set<Id>, d: Discount)
    requires a !! b
    ensures Gain(top, a + b, d) == Gain(top, a, d) + Gain(top, b, d)
  {
    if top != [] {
      GainsAdd(top[..|top| - 1], a, b, d);
    }
  }

  /** Hits are counted by position. */
  lemma {:induction false} HitsAreAtPositions(ids: seq<Id>, wanted: set<Id>)
    ensures Hits(ids, wanted) == |set i: nat | i < |ids| && ids[i] in wanted|
  {
    if ids != [] {
      var n: nat := |ids| - 1;
      HitsAreAtPositions(ids[..n], wanted);
      var before, all := set i: nat | i < n && ids[..n][i] in wanted, set i: nat | i < |ids| && ids[i] in wanted;
      assert all == before + if ids[n] in wanted then {n} else {};
    }
  }

  lemma {:induction false} IdealGrows(m: nat, n: nat, d: Discount)
    requires Decreasing(d) && m <= n
    ensures 0.0 <= Ideal(m, d) <= Ideal(n, d)
    ensures m < n ==> Ideal(m, d) < Ideal(n, d)
  {
    if n > 0 {
      IdealGrows(if m < n then m else n - 1, n - 1, d);
    }
  }

  /** Rearrangement: wherever the hits stand, moving them to the front gains no less. */
  lemma {:induction false} GainAtMostIdeal(top: seq<Id>, relevant: set<Id>, d: Discount)
    requires Decreasing(d)
    ensures 0.0 <= Gain(top, relevant, d) <= Ideal(Hits(top, relevant), d)
    ensures Hits(top, relevant) > 0 ==> Gain(top, relevant, d) > 0.0
  {
    if top != [] {
      GainAtMostIdeal(top[..|top| - 1], relevant, d);
    }
  }

  /** Without repeats there are no more hits than relevant ids. */
  lemma {:induction false} HitsAreDistinct(top: seq<Id>, relevant: set<Id>) returns (found: set<Id>)
    requires NoDuplicates(top)
    ensures found <= relevant && (forall x :: x in found ==> x in top) && |found| == Hits(top, relevant)
    ensures Hits(top, relevant) <= |relevant|
  {
    if top == [] {
      found := {};
    } else {
      var n := |top| - 1;
      found := HitsAreDistinct(top[..n], relevant);
      if top[n] in relevant {
        assert top[n] !in top[..n];
        found := found + {top[n]};
      }
    }
    Subset(found, relevant);
  }

  lemma {:induction false} Subset(a: set<Id>, b: set<Id>)
    requires a <= b
    ensures |a| <= |b|
  {
    if a != {} {
      var x :| x in a;
      Subset(a - {x}, b - {x});
    }
  }

  lemma {:induction false} MembersBound(ids: seq<Id>)
    ensures |Members(ids)| <= |ids|
    ensures ids != [] ==> Members(ids) != {}
  {
    if ids != [] {
      var n := |ids| - 1;
      MembersBound(ids[..n]);
      assert ids == ids[..n] + [ids[n]];
      assert Members(ids) == Members(ids[..n]) + {ids[n]};
      assert ids[n] in Members(ids);
    }
  }

  lemma HitsBound(retrieved: seq<Id>, relevant: seq<Id>, k: int)
    requires NoDuplicates(retrieved) && k >= 0
    ensures Hits(Top(retrieved, k), Members(relevant)) <= Min(|relevant|, k)
  {
    var _ := HitsAreDistinct(Top(retrieved, k), Members(relevant));
    MembersBound(relevant);
  }

  // ---------------------------------------------------------------- nDCG

  /** Gain over ideal gain; nought when nothing is relevant or no rank is looked at. */
  ghost function Ndcg(retrieved: seq<Id>, relevant: seq<Id>, k: int, d: Discount): real
    requires Decreasing(d)
  {
    if relevant == [] || k <= 0 then 0.0
    else
      IdealGrows(0, Min(|relevant|, k), d);
      Gain(Top(retrieved, k), Members(relevant), d) / Ideal(Min(|relevant|, k), d)
  }

  method NdcgAtK(retrieved: seq<Id>, relevant: seq<Id>, k: int, d: Discount) returns (score: real)
    requires Decreasing(d)
    ensures score == Ndcg(retrieved, relevant, k, d)
  {
    var relevantSet := set x | x in relevant;
    MembersBound(relevant);
    if relevantSet == {} {
      assert relevant == [];
      return 0.0;
    }
    assert relevant != [] by {
      var x :| x in relevantSet;
    }
    var top := Top(retrieved, k);
    var dcg := 0.0;
    for i := 0 to |top|
      invariant dcg == Gain(top[..i], relevantSet, d)
    {
      assert top[..i + 1][..i] == top[..i];
      if top[i] in relevantSet {
        dcg := dcg + d(i + 1);
      }
    }
    assert top[..|top|] == top;
    var n := Min(|relevant|, k);
    var idcg := if n <= 0 then 0.0 else Ideal(n, d);
    if n > 0 {
      IdealGrows(0, n, d);
    }
    if idcg == 0.0 {
      return 0.0;
    }
    return dcg / idcg;
  }

  lemma Ratio(a: real, b: real)
    requires b > 0.0
    ensures (a / b) * b == a
    ensures a >= 0.0 <==> a / b >= 0.0
    ensures a > 0.0 <==> a / b > 0.0
    ensures a <= b <==> a / b <= 1.0
    ensures a == b <==> a / b == 1.0
  {
  }

  /** A ranking without repeats scores between 0 and 1. */
  lemma NdcgIsBounded(retrieved: seq<Id>, relevant: seq<Id>, k: int, d: Discount)
    requires Decreasing(d) && NoDuplicates(retrieved)
    ensures 0.0 <= Ndcg(retrieved, relevant, k, d) <= 1.0
  {
    if relevant != [] && k > 0 {
      var n := Min(|relevant|, k);
      var h := Hits(Top(retrieved, k), Members(relevant));
      HitsBound(retrieved, relevant, k);
      GainAtMostIdeal(Top(retrieved, k), Members(relevant), d);
      IdealGrows(h, n, d);
      IdealGrows(0, n, d);
      Ratio(Gain(Top(retrieved, k), Members(relevant), d), Ideal(n, d));
    }
  }

  /** The first id that repeats an earlier one. */
  lemma {:induction false} FirstRepeat(ids: seq<Id>) returns (j: nat)
    requires !NoDuplicates(ids)
    ensures 0 < j < |ids| && ids[j] in ids[..j] && NoDuplicates(ids[..j])
  {
    var n := |ids| - 1;
    if !NoDuplicates(ids[..n]) {
      j := FirstRepeat(ids[..n]);
      assert ids[..n][..j] == ids[..j];
    } else {
      j := n;
      var a, b :| 0 <= a < b < |ids| && ids[a] == ids[b];
      assert forall x, y :: 0 <= x < y < n ==> ids[x] != ids[y] by {
        forall x, y | 0 <= x < y < n ensures ids[x] != ids[y] {
          assert ids[..n][x] == ids[x] && ids[..n][y] == ids[y];
        }
      }
      assert ids[..n][a] == ids[n];
    }
  }

  lemma {:induction false} AllHits(top: seq<Id>, relevant: set<Id>, d: Discount)
    requires forall x :: x in top ==> x in relevant
    ensures Gain(top, relevant, d) == Ideal(|top|, d) && Hits(top, relevant) == |top|
  {
    if top != [] {
      AllHits(top[..|top| - 1], relevant, d);
    }
  }

  /** With a repeat there are relevant ids for which the score is above 1: those ranked before the
      first repeat, looked at up to the repeat. */
  lemma RepeatsOverscore(retrieved: seq<Id>, d: Discount) returns (relevant: seq<Id>, k: nat)
    requires Decreasing(d) && !NoDuplicates(retrieved)
    ensures NoDuplicates(relevant) && Ndcg(retrieved, relevant, k, d) > 1.0
  {
    var j := FirstRepeat(retrieved);
    relevant, k := retrieved[..j], j + 1;
    var top := Top(retrieved, k);
    assert top == retrieved[..j] + [retrieved[j]];
    AllHits(top, Members(relevant), d);
    IdealGrows(0, j, d);
    IdealGrows(j, j + 1, d);
    Ratio(Ideal(j + 1, d), Ideal(j, d));
  }

  /** Exactly the rankings without repeats never score above 1. */
  lemma NdcgIsBoundedExactlyWithoutRepeats(retrieved: seq<Id>, d: Discount)
    requires Decreasing(d)
    ensures (forall relevant: seq<Id>, k: int :: Ndcg(retrieved, relevant, k, d) <= 1.0) <==> NoDuplicates(retrieved)
  {
    if NoDuplicates(retrieved) {
      forall relevant: seq<Id>, k: int ensures Ndcg(retrieved, relevant, k, d) <= 1.0 {
        NdcgIsBounded(retrieved, relevant, k, d);
      }
    } else {
      var relevant, k := RepeatsOverscore(retrieved, d);
    }
  }

  lemma {:induction false} OnlyFrontHitsAreIdeal(top: seq<Id>, relevant: set<Id>, d: Discount)
    requires Decreasing(d) && Gain(top, relevant, d) == Ideal(Hits(top, relevant), d)
    ensures forall i :: 0 <= i < Hits(top, relevant) ==> top[i] in relevant
  {
    if top != [] {
      var n := |top| - 1;
      GainAtMostIdeal(top[..n], relevant, d);
      OnlyFrontHitsAreIdeal(top[..n], relevant, d);
      assert forall i :: 0 <= i < n ==> top[i] == top[..n][i];
    }
  }

  lemma {:induction false} GainOfPrefix(top: seq<Id>, m: nat, relevant: set<Id>, d: Discount)
    requires Decreasing(d) && m <= |top|
    ensures Gain(top[..m], relevant, d) <= Gain(top, relevant, d)
  {
    if m == |top| {
      assert top[..m] == top;
    } else {
      var n := |top| - 1;
      GainOfPrefix(top[..n], m, relevant, d);
      assert top[..n][..m] == top[..m];
    }
  }

  /** The first `m` retrieved ids exist and are relevant. */
  ghost predicate RelevantFirst(retrieved: seq<Id>, relevant: seq<Id>, m: nat) {
    m <= |retrieved| && forall i :: 0 <= i < m ==> retrieved[i] in relevant
  }

  /** A ranking without repeats scores 1 exactly if it starts with as many relevant ids as could be
      found among the first k. */
  lemma PerfectScore(retrieved: seq<Id>, relevant: seq<Id>, k: int, d: Discount)
    requires Decreasing(d) && NoDuplicates(retrieved) && relevant != [] && k > 0
    ensures Ndcg(retrieved, relevant, k, d) == 1.0 <==> RelevantFirst(retrieved, relevant, Min(|relevant|, k))
  {
    var n, top, found := Min(|relevant|, k), Top(retrieved, k), Members(relevant);
    var h := Hits(top, found);
    IdealGrows(0, n, d);
    Ratio(Gain(top, found, d), Ideal(n, d));
    HitsBound(retrieved, relevant, k);
    GainAtMostIdeal(top, found, d);
    IdealGrows(h, n, d);
    if Gain(top, found, d) == Ideal(n, d) {
      OnlyFrontHitsAreIdeal(top, found, d);
    }
    if RelevantFirst(retrieved, relevant, n) {
      assert top[..n] == retrieved[..n];
      AllHits(top[..n], found, d);
      GainOfPrefix(top, n, found, d);
    }
  }

  // ---------------------------------------------------------------- recall and reciprocal rank

  /** The share of the relevant ids, repeats counted, that are among the first k. */
  function RecallAtK(retrieved: seq<Id>, relevant: seq<Id>, k: int): real {
    if relevant == [] then 0.0
    else Hits(relevant, Members(Top(retrieved, k))) as real / |relevant| as real
  }

  lemma {:induction false} AllFound(ids: seq<Id>, wanted: set<Id>)
    ensures Hits(ids, wanted) == |ids| <==> forall i :: 0 <= i < |ids| ==> ids[i] in wanted
  {
    if ids != [] {
      var n := |ids| - 1;
      AllFound(ids[..n], wanted);
      assert forall i :: 0 <= i < n ==> ids[..n][i] == ids[i];
    }
  }

  lemma {:induction false} SomeFound(ids: seq<Id>, wanted: set<Id>)
    ensures Hits(ids, wanted) > 0 <==> exists i :: 0 <= i < |ids| && ids[i] in wanted
  {
    if ids != [] {
      var n := |ids| - 1;
      SomeFound(ids[..n], wanted);
      assert forall i :: 0 <= i < n ==> ids[..n][i] == ids[i];
    }
  }

  /** Recall is a fraction; it is 1 exactly if every relevant id is among the first k. */
  lemma RecallMeaning(retrieved: seq<Id>, relevant: seq<Id>, k: int)
    requires relevant != []
    ensures 0.0 <= RecallAtK(retrieved, relevant, k) <= 1.0
    ensures RecallAtK(retrieved, relevant, k) == 1.0 <==> forall x :: x in relevant ==> x in Top(retrieved, k)
    ensures RecallAtK(retrieved, relevant, k) > 0.0 <==> exists x :: x in relevant && x in Top(retrieved, k)
  {
    var top := Members(Top(retrieved, k));
    AllFound(relevant, top);
    SomeFound(relevant, top);
    Ratio(Hits(relevant, top) as real, |relevant| as real);
  }

  /** Of so many relevant ids, repeats counted, so many are among the first k. */
  lemma RecallCounts(retrieved: seq<Id>, relevant: seq<Id>, k: int)
    requires relevant != []
    ensures RecallAtK(retrieved, relevant, k) * |relevant| as real
            == |set i: nat | i < |relevant| && relevant[i] in Top(retrieved, k)| as real
  {
    var top := Top(retrieved, k);
    HitsAreAtPositions(relevant, Members(top));
    assert (set i: nat | i < |relevant| && relevant[i] in Members(top))
           == (set i: nat | i < |relevant| && relevant[i] in top);
    Ratio(Hits(relevant, Members(top)) as real, |relevant| as real);
  }

  /** The two metrics agree on whether anything was found, whatever the ranking, unless k is negative:
      recall then cuts the ranking short at its end, and nDCG is nought. */
  lemma NdcgAndRecallAgree(retrieved: seq<Id>, relevant: seq<Id>, k: int, d: Discount)
    requires Decreasing(d)
    ensures Ndcg(retrieved, relevant, k, d) > 0.0 <==> k >= 0 && RecallAtK(retrieved, relevant, k) > 0.0
  {
    if relevant != [] && k >= 0 {
      var top, found := Top(retrieved, k), Members(relevant);
      RecallMeaning(retrieved, relevant, k);
      SomeFound(top, found);
      GainAtMostIdeal(top, found, d);
      if k > 0 {
        IdealGrows(0, Min(|relevant|, k), d);
        Ratio(Gain(top, found, d), Ideal(Min(|relevant|, k), d));
      }
    }
  }

  /** The reciprocal of the first rank that holds a relevant id, or nought. */
  method Mrr(retrieved: seq<Id>, relevant: seq<Id>) returns (score: real)
    ensures score == 0.0 <==> forall x :: x in retrieved ==> x !in relevant
    ensures score != 0.0 ==>
            exists i: nat :: i < |retrieved| && FirstHit(retrieved, relevant, i) && score * (i + 1) as real == 1.0
  {
    var relevantSet := set x | x in relevant;
    for i := 0 to |retrieved|
      invariant forall j :: 0 <= j < i ==> retrieved[j] !in relevant
    {
      if retrieved[i] in relevantSet {
        Ratio(1.0, (i + 1) as real);
        assert FirstHit(retrieved, relevant, i);
        assert retrieved[i] in retrieved;
        return 1.0 / (i + 1) as real;
      }
    }
    return 0.0;
  }

  ghost predicate FirstHit(retrieved: seq<Id>, relevant: seq<Id>, i: nat)
    requires i < |retrieved|
  {
    retrieved[i] in relevant && forall j :: 0 <= j < i ==> retrieved[j] !in relevant
  }

  // ---------------------------------------------------------------- removing repeats first

  lemma {:induction false} UniqueIsNoLonger(ids: seq<Id>)
    ensures |Unique(ids)| <= |ids|
  {
    if ids != [] {
      UniqueIsNoLonger(ids[..|ids| - 1]);
    }
  }

  lemma {:induction false} UniqueOfPrefix(ids: seq<Id>, n: nat)
    requires n <= |ids|
    ensures Unique(ids[..n]) <= Unique(ids)
  {
    if n == |ids| {
      assert ids[..n] == ids;
    } else {
      UniqueOfPrefix(ids[..|ids| - 1], n);
      assert ids[..|ids| - 1][..n] == ids[..n];
    }
  }

  lemma {:induction false} HitsGrow(ids: seq<Id>, a: set<Id>, b: set<Id>)
    requires a <= b
    ensures Hits(ids, a) <= Hits(ids, b)
  {
    if ids != [] {
      HitsGrow(ids[..|ids| - 1], a, b);
    }
  }

  lemma SameTopSameRecall(a: seq<Id>, b: seq<Id>, relevant: seq<Id>, k: int)
    requires forall x :: x in Top(a, k) ==> x in Top(b, k)
    ensures RecallAtK(b, relevant, k) >= RecallAtK(a, relevant, k)
  {
    var before, after := Members(Top(a, k)), Members(Top(b, k));
    HitsGrow(relevant, before, after);
    if relevant != [] {
      Quotients(Hits(relevant, before), Hits(relevant, after), |relevant|);
    }
  }

  /** Each of the results from rank `n` on is there for the first time. */
  predicate NewFrom(ids: seq<Id>, n: nat) {
    forall i :: n <= i < |ids| ==> ids[i] !in ids[..i]
  }

  /** Every result from `n` on adds at most one id, and exactly one if it is new. */
  lemma {:induction false} UniqueGrowth(ids: seq<Id>, n: nat)
    requires n <= |ids|
    ensures |Unique(ids)| <= |Unique(ids[..n])| + |ids| - n
    ensures |Unique(ids)| == |Unique(ids[..n])| + |ids| - n <==> NewFrom(ids, n)
  {
    if n == |ids| {
      assert ids[..n] == ids;
    } else {
      var m := |ids| - 1;
      UniqueGrowth(ids[..m], n);
      assert ids[..m][..n] == ids[..n] && ids[..m + 1] == ids;
      UniqueStep(ids, m);
      NewInFront(ids, n);
    }
  }

  lemma NewInFront(ids: seq<Id>, n: nat)
    requires n < |ids|
    ensures var m := |ids| - 1; NewFrom(ids, n) <==> NewFrom(ids[..m], n) && ids[m] !in ids[..m]
  {
    var m := |ids| - 1;
    assert forall i :: 0 <= i < m ==> ids[..m][..i] == ids[..i] && ids[..m][i] == ids[i];
  }

  /** Whether removing repeats keeps the ids among the first k: always for k of at least nought; for a
      negative k, which drops the last -k results, exactly if it drops everything or the results
      dropped are all new. */
  predicate KeepsTop(ids: seq<Id>, k: int) {
    k >= 0 || |ids| + k <= 0 || NewFrom(ids, |ids| + k)
  }

  lemma UniqueKeepsFront(ids: seq<Id>, k: nat)
    ensures forall x :: x in Top(ids, k) ==> x in Top(Unique(ids), k)
  {
    var n := Min(k, |ids|);
    UniqueOfPrefix(ids, n);
    UniqueIsNoLonger(ids[..n]);
    var front, top := Unique(ids[..n]), Top(Unique(ids), k);
    assert Top(ids, k) == ids[..n] && front <= top;
    forall x | x in front ensures x in top {
      var i :| 0 <= i < |front| && front[i] == x;
      assert top[i] == x;
    }
  }

  /** A negative k leaves of the unique ids those of the results it leaves, if the dropped ones were
      new, and else not even all of those. */
  lemma UniqueCutShort(ids: seq<Id>, k: int) returns (lost: Option<Id>)
    requires k < 0 < |ids| + k
    ensures NewFrom(ids, |ids| + k) ==> forall x :: x in Top(ids, k) ==> x in Top(Unique(ids), k)
    ensures !NewFrom(ids, |ids| + k) ==> lost.Some? && lost.value in Top(ids, k) && lost.value !in Top(Unique(ids), k)
  {
    var n := |ids| + k;
    var all, left := Unique(ids), Unique(ids[..n]);
    UniqueOfPrefix(ids, n);
    UniqueGrowth(ids, n);
    lost := None;
    assert Top(ids, k) == ids[..n] && ids[0] in ids[..n] && left != [];
    if NewFrom(ids, n) {
      assert Top(all, k) == left;
    } else {
      var last := |left| - 1;
      assert Top(all, k) <= left[..last];
      assert left[last] in left;
      lost := Some(left[last]);
    }
  }

  /** Removing repeats never lowers recall, whatever is relevant, exactly if k is not negative, or
      the results it drops from the end are everything or all new. */
  lemma UniqueKeepsRecall(retrieved: seq<Id>, k: int)
    ensures (forall relevant: seq<Id> :: RecallAtK(Unique(retrieved), relevant, k) >= RecallAtK(retrieved, relevant, k))
            <==> KeepsTop(retrieved, k)
  {
    var unique := Unique(retrieved);
    var lost := None;
    if k >= 0 {
      UniqueKeepsFront(retrieved, k);
    } else if |retrieved| + k > 0 {
      lost := UniqueCutShort(retrieved, k);
    }
    if KeepsTop(retrieved, k) {
      forall relevant ensures RecallAtK(unique, relevant, k) >= RecallAtK(retrieved, relevant, k) {
        SameTopSameRecall(retrieved, unique, relevant, k);
      }
    } else {
      var relevant := [lost.value];
      RecallMeaning(unique, relevant, k);
      RecallMeaning(retrieved, relevant, k);
      assert relevant[0] in relevant;
    }
  }

  lemma Quotients(a: nat, b: nat, n: nat)
    requires a <= b && n > 0
    ensures a as real / n as real <= b as real / n as real
  {
    var x, y := a as real / n as real, b as real / n as real;
    Ratio(a as real, n as real);
    Ratio(b as real, n as real);
    assert (y - x) * n as real == b as real - a as real;
    SignOfProduct(y - x, n as real);
  }

  lemma SignOfProduct(d: real, n: real)
    requires n > 0.0 && d * n >= 0.0
    ensures d >= 0.0
  {
  }
}
