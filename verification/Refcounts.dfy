/** The reference-count table: what one pass of decrements and increments does to it, and what
    it means for the table to be the exact count of the holders of each chunk hash. */
module Refcounts {
  import opened FirstSeen

  type Hash = string
  type Table = map<Hash, nat>

  function Count(t: Table, h: Hash): nat {
    if h in t then t[h] else 0
  }

  // ---------------------------------------------------------------- table updates

  function DecrementOne(t: Table, h: Hash): Table {
    if Count(t, h) > 1 then t[h := t[h] - 1]
    else if Count(t, h) == 1 then t - {h}
    else t
  }

  /** The table after `decrement_refcounts` has gone through `hashes`. */
  function Decremented(t: Table, hashes: seq<Hash>): Table {
    if hashes == [] then t
    else DecrementOne(Decremented(t, hashes[..|hashes| - 1]), hashes[|hashes| - 1])
  }

  /** The eviction list `decrement_refcounts` returns. */
  function Evicted(t: Table, hashes: seq<Hash>): seq<Hash> {
    if hashes == [] then []
    else
      var front, h := hashes[..|hashes| - 1], hashes[|hashes| - 1];
      Evicted(t, front) + if Count(Decremented(t, front), h) == 1 then [h] else []
  }

  /** How often the underflow branch or the missing-entry branch is taken. */
  function Skipped(t: Table, hashes: seq<Hash>): nat {
    if hashes == [] then 0
    else
      var front, h := hashes[..|hashes| - 1], hashes[|hashes| - 1];
      Skipped(t, front) + if Count(Decremented(t, front), h) == 0 then 1 else 0
  }

  function Incremented(t: Table, hashes: seq<Hash>): Table {
    if hashes == [] then t
    else
      var t', h := Incremented(t, hashes[..|hashes| - 1]), hashes[|hashes| - 1];
      t'[h := Count(t', h) + 1]
  }

  ghost function Occurrences(hashes: seq<Hash>, h: Hash): nat {
    multiset(hashes)[h]
  }

  /** What a pass of decrements does to any table whatever, repeats in the list included: each
      count falls by the number of occurrences and stops at zero; the entries that reach zero are
      dropped and listed once each; a branch is skipped exactly when the list asks for more than
      the table holds. */
  lemma {:induction false} DecrementMeaning(t: Table, hashes: seq<Hash>, h: Hash)
    ensures var n := Occurrences(hashes, h);
            && Count(Decremented(t, hashes), h) == (if Count(t, h) > n then Count(t, h) - n else 0)
            && (h in Decremented(t, hashes) <==> h in t && (t[h] == 0 || t[h] > n))
            && (h in Evicted(t, hashes) <==> 0 < Count(t, h) <= n)
            && Occurrences(Evicted(t, hashes), h) <= 1
            && (n > Count(t, h) ==> Skipped(t, hashes) > 0)
  {
    if hashes != [] {
      var front, last := hashes[..|hashes| - 1], hashes[|hashes| - 1];
      assert hashes == front + [last];
      DecrementMeaning(t, front, h);
    }
  }

  lemma {:induction false} NothingSkipped(t: Table, hashes: seq<Hash>)
    requires forall h :: Occurrences(hashes, h) <= Count(t, h)
    ensures Skipped(t, hashes) == 0
  {
    if hashes != [] {
      var front, last := hashes[..|hashes| - 1], hashes[|hashes| - 1];
      assert hashes == front + [last];
      assert forall h :: Occurrences(front, h) <= Occurrences(hashes, h);
      assert Occurrences(hashes, last) == Occurrences(front, last) + 1;
      NothingSkipped(t, front);
      DecrementMeaning(t, front, last);
    }
  }

  lemma {:induction false} IncrementMeaning(t: Table, hashes: seq<Hash>, h: Hash)
    ensures Count(Incremented(t, hashes), h) == Count(t, h) + Occurrences(hashes, h)
    ensures h in Incremented(t, hashes) <==> h in t || h in hashes
  {
    if hashes != [] {
      var front, last := hashes[..|hashes| - 1], hashes[|hashes| - 1];
      assert hashes == front + [last];
      IncrementMeaning(t, front, h);
    }
  }

  lemma {:induction false} OccurrencesWithoutDuplicates(hashes: seq<Hash>, h: Hash)
    requires NoDuplicates(hashes)
    ensures Occurrences(hashes, h) == if h in hashes then 1 else 0
  {
    if hashes != [] {
      var front, last := hashes[..|hashes| - 1], hashes[|hashes| - 1];
      assert hashes == front + [last];
      OccurrencesWithoutDuplicates(front, h);
    }
  }

  lemma {:induction false} AtMostOneOccurrence(hashes: seq<Hash>)
    requires forall h :: Occurrences(hashes, h) <= 1
    ensures NoDuplicates(hashes)
  {
    if hashes != [] {
      var front, last := hashes[..|hashes| - 1], hashes[|hashes| - 1];
      assert hashes == front + [last];
      assert forall h :: Occurrences(front, h) <= Occurrences(hashes, h);
      AtMostOneOccurrence(front);
      assert Occurrences(hashes, last) == Occurrences(front, last) + 1;
      assert last !in front;
    }
  }

  // ---------------------------------------------------------------- holders and exactness

  /** The holders (sessions, or forks) whose list mentions `h`, however often it does. */
  ghost function Holders<K>(books: map<K, seq<Hash>>, h: Hash): set<K> {
    set k | k in books && h in books[k]
  }

  ghost function References(sessions: map<string, seq<Hash>>, forks: map<nat, seq<Hash>>, h: Hash): nat {
    |Holders(sessions, h)| + |Holders(forks, h)|
  }

  /** Some session or some fork holds `h`; counting plays no part in this. */
  ghost predicate Referenced(sessions: map<string, seq<Hash>>, forks: map<nat, seq<Hash>>, h: Hash) {
    || (exists s :: s in sessions && h in sessions[s])
    || (exists f :: f in forks && h in forks[f])
  }

  /** The recount: every count is the number of holders, and no entry is zero. */
  ghost predicate Exact(t: Table, sessions: map<string, seq<Hash>>, forks: map<nat, seq<Hash>>) {
    forall h :: Count(t, h) == References(sessions, forks, h) && (h in t ==> t[h] > 0)
  }

  lemma ReferencedIffCounted(sessions: map<string, seq<Hash>>, forks: map<nat, seq<Hash>>, h: Hash)
    ensures Referenced(sessions, forks, h) <==> References(sessions, forks, h) > 0
  {
    var ss, fs := Holders(sessions, h), Holders(forks, h);
    assert forall s :: s in ss <==> s in sessions && h in sessions[s];
    assert forall f :: f in fs <==> f in forks && h in forks[f];
    assert |ss| > 0 <==> exists s :: s in ss;
    assert |fs| > 0 <==> exists f :: f in fs;
  }

  lemma TablesAgree(t: Table, t': Table, sessions: map<string, seq<Hash>>, forks: map<nat, seq<Hash>>)
    requires Exact(t, sessions, forks) && Exact(t', sessions, forks)
    ensures t == t'
  {
    assert forall h :: Count(t, h) == Count(t', h);
    assert t.Keys == t'.Keys by {
      assert forall h :: h in t <==> Count(t, h) > 0;
      assert forall h :: h in t' <==> Count(t', h) > 0;
    }
  }

  function Book<K>(books: map<K, seq<Hash>>, k: K): seq<Hash> {
    if k in books then books[k] else []
  }

  /** One holder changes its list from `old` to `new`. */
  lemma HoldersAfterPut<K>(books: map<K, seq<Hash>>, k: K, new_: seq<Hash>, h: Hash)
    ensures Holders(books[k := new_], h) ==
            if h in new_ then Holders(books, h) + {k} else Holders(books, h) - {k}
  {
  }

  lemma HoldersAfterRemove<K>(books: map<K, seq<Hash>>, k: K, h: Hash)
    ensures Holders(books - {k}, h) == Holders(books, h) - {k}
  {
  }

  function Indicator(b: bool): nat {
    if b then 1 else 0
  }

  lemma ReferencesAfterSession(sessions: map<string, seq<Hash>>, forks: map<nat, seq<Hash>>,
                               k: string, new_: seq<Hash>, h: Hash)
    ensures References(sessions[k := new_], forks, h) + Indicator(h in Book(sessions, k))
            == References(sessions, forks, h) + Indicator(h in new_)
    ensures Holders(sessions - {k}, h) == Holders(sessions[k := []], h)
  {
    HoldersAfterPut(sessions, k, new_, h);
    HoldersAfterPut(sessions, k, [], h);
    HoldersAfterRemove(sessions, k, h);
  }

  lemma ReferencesAfterFork(sessions: map<string, seq<Hash>>, forks: map<nat, seq<Hash>>,
                            k: nat, new_: seq<Hash>, h: Hash)
    ensures References(sessions, forks[k := new_], h) + Indicator(h in Book(forks, k))
            == References(sessions, forks, h) + Indicator(h in new_)
    ensures Holders(forks - {k}, h) == Holders(forks[k := []], h)
  {
    HoldersAfterPut(forks, k, new_, h);
    HoldersAfterPut(forks, k, [], h);
    HoldersAfterRemove(forks, k, h);
  }

  /** The heart of the accounting: decrementing `dec` and incrementing `inc` turns the exact table
      of one family of holders into the exact table of another that differs by just those lists;
      no branch is skipped, and the eviction list is precisely what lost its last holder. */
  lemma Exchange(t: Table, dec: seq<Hash>, inc: seq<Hash>,
                 sessions: map<string, seq<Hash>>, forks: map<nat, seq<Hash>>,
                 sessions': map<string, seq<Hash>>, forks': map<nat, seq<Hash>>)
    requires Exact(t, sessions, forks)
    requires NoDuplicates(dec) && NoDuplicates(inc) && forall h :: h in dec ==> h !in inc
    requires forall h :: References(sessions', forks', h) + Indicator(h in dec)
                         == References(sessions, forks, h) + Indicator(h in inc)
    ensures Exact(Incremented(Decremented(t, dec), inc), sessions', forks')
    ensures Skipped(t, dec) == 0
    ensures NoDuplicates(Evicted(t, dec))
    ensures forall h :: h in Evicted(t, dec) <==>
                        Referenced(sessions, forks, h) && !Referenced(sessions', forks', h)
  {
    var t1 := Decremented(t, dec);
    forall h
      ensures Count(Incremented(t1, inc), h) == References(sessions', forks', h)
      ensures h in Incremented(t1, inc) ==> Incremented(t1, inc)[h] > 0
      ensures Occurrences(dec, h) <= Count(t, h)
      ensures Occurrences(Evicted(t, dec), h) <= 1
      ensures h in Evicted(t, dec) <==>
              Referenced(sessions, forks, h) && !Referenced(sessions', forks', h)
    {
      OccurrencesWithoutDuplicates(dec, h);
      OccurrencesWithoutDuplicates(inc, h);
      DecrementMeaning(t, dec, h);
      IncrementMeaning(t1, inc, h);
      ReferencedIffCounted(sessions, forks, h);
      ReferencedIffCounted(sessions', forks', h);
    }
    NothingSkipped(t, dec);
    AtMostOneOccurrence(Evicted(t, dec));
  }

  /** `Exchange` for one session whose list becomes `new_`. */
  lemma ExchangeSession(t: Table, dec: seq<Hash>, inc: seq<Hash>,
                        sessions: map<string, seq<Hash>>, forks: map<nat, seq<Hash>>,
                        k: string, new_: seq<Hash>)
    requires Exact(t, sessions, forks)
    requires NoDuplicates(dec) && NoDuplicates(inc)
    requires forall h :: h in dec <==> h in Book(sessions, k) && h !in new_
    requires forall h :: h in inc <==> h in new_ && h !in Book(sessions, k)
    ensures Exact(Incremented(Decremented(t, dec), inc), sessions[k := new_], forks)
    ensures Skipped(t, dec) == 0
    ensures NoDuplicates(Evicted(t, dec))
    ensures forall h :: h in Evicted(t, dec) <==>
                        Referenced(sessions, forks, h) && !Referenced(sessions[k := new_], forks, h)
  {
    forall h {
      ReferencesAfterSession(sessions, forks, k, new_, h);
    }
    Exchange(t, dec, inc, sessions, forks, sessions[k := new_], forks);
  }

  /** `Exchange` for one fork whose list becomes `new_`. */
  lemma ExchangeFork(t: Table, dec: seq<Hash>, inc: seq<Hash>,
                     sessions: map<string, seq<Hash>>, forks: map<nat, seq<Hash>>,
                     k: nat, new_: seq<Hash>)
    requires Exact(t, sessions, forks)
    requires NoDuplicates(dec) && NoDuplicates(inc)
    requires forall h :: h in dec <==> h in Book(forks, k) && h !in new_
    requires forall h :: h in inc <==> h in new_ && h !in Book(forks, k)
    ensures Exact(Incremented(Decremented(t, dec), inc), sessions, forks[k := new_])
    ensures Skipped(t, dec) == 0
    ensures NoDuplicates(Evicted(t, dec))
    ensures forall h :: h in Evicted(t, dec) <==>
                        Referenced(sessions, forks, h) && !Referenced(sessions, forks[k := new_], h)
  {
    forall h {
      ReferencesAfterFork(sessions, forks, k, new_, h);
    }
    Exchange(t, dec, inc, sessions, forks, sessions, forks[k := new_]);
  }

  /** Holding an empty list is the same as not being there. */
  lemma EmptyListsHoldNothing(t: Table, sessions: map<string, seq<Hash>>, forks: map<nat, seq<Hash>>,
                              s: string, f: nat)
    ensures Exact(t, sessions[s := []], forks) <==> Exact(t, sessions - {s}, forks)
    ensures Exact(t, sessions, forks[f := []]) <==> Exact(t, sessions, forks - {f})
    ensures forall h :: Referenced(sessions[s := []], forks, h) <==> Referenced(sessions - {s}, forks, h)
    ensures forall h :: Referenced(sessions, forks[f := []], h) <==> Referenced(sessions, forks - {f}, h)
  {
    forall h
      ensures References(sessions[s := []], forks, h) == References(sessions - {s}, forks, h)
      ensures References(sessions, forks[f := []], h) == References(sessions, forks - {f}, h)
      ensures Referenced(sessions[s := []], forks, h) <==> Referenced(sessions - {s}, forks, h)
      ensures Referenced(sessions, forks[f := []], h) <==> Referenced(sessions, forks - {f}, h)
    {
      ReferencesAfterSession(sessions, forks, s, [], h);
      ReferencesAfterFork(sessions, forks, f, [], h);
      ReferencedIffCounted(sessions[s := []], forks, h);
      ReferencedIffCounted(sessions - {s}, forks, h);
      ReferencedIffCounted(sessions, forks[f := []], h);
      ReferencedIffCounted(sessions, forks - {f}, h);
    }
  }

  /** `Exchange` for a session that goes away. */
  lemma ExchangeClosing(t: Table, dec: seq<Hash>, sessions: map<string, seq<Hash>>, forks: map<nat, seq<Hash>>,
                        k: string)
    requires Exact(t, sessions, forks) && NoDuplicates(dec)
    requires forall h :: h in dec <==> h in Book(sessions, k)
    ensures Exact(Decremented(t, dec), sessions - {k}, forks)
    ensures Skipped(t, dec) == 0
    ensures NoDuplicates(Evicted(t, dec))
    ensures forall h :: h in Evicted(t, dec) <==>
                        Referenced(sessions, forks, h) && !Referenced(sessions - {k}, forks, h)
  {
    ExchangeSession(t, dec, [], sessions, forks, k, []);
    EmptyListsHoldNothing(Decremented(t, dec), sessions, forks, k, 0);
  }

  /** `Exchange` for a fork that goes away. */
  lemma ExchangeReleasing(t: Table, dec: seq<Hash>, sessions: map<string, seq<Hash>>, forks: map<nat, seq<Hash>>,
                          k: nat)
    requires Exact(t, sessions, forks) && NoDuplicates(dec)
    requires forall h :: h in dec <==> h in Book(forks, k)
    ensures Exact(Decremented(t, dec), sessions, forks - {k})
    ensures Skipped(t, dec) == 0
    ensures NoDuplicates(Evicted(t, dec))
    ensures forall h :: h in Evicted(t, dec) <==>
                        Referenced(sessions, forks, h) && !Referenced(sessions, forks - {k}, h)
  {
    ExchangeFork(t, dec, [], sessions, forks, k, []);
    EmptyListsHoldNothing(Decremented(t, dec), sessions, forks, "", k);
  }
}
