/** From ranked retrieval results back to the raw source turns and their sessions. */
module Provenance {
  import opened FirstSeen
  import opened Ranking

  /** An entry of an evidence list; `messageId` is empty when the field is missing or false. */
  datatype Ref = Ref(messageId: Id) | NotARef

  datatype Refs = Refs(entries: seq<Ref>) | NotAList

  datatype Observation = Observation(evidence: Refs) | NotAnObservation

  datatype Observations = Observations(entries: seq<Observation>) | NoObservations

  /** A ranked result; `extracted` says that its kind is an extracted memory. */
  datatype Item = Item(id: Id, extracted: bool, evidence: Refs, observations: Observations)

  /** The message ids that are not empty, in order. */
  function MessageIds(refs: Refs): seq<Id> {
    if refs.NotAList? then [] else IdsOf(refs.entries)
  }

  function IdsOf(entries: seq<Ref>): seq<Id> {
    if entries == [] then []
    else
      var last := entries[|entries| - 1];
      IdsOf(entries[..|entries| - 1]) + if last.Ref? && last.messageId != "" then [last.messageId] else []
  }

  function NestedIds(entries: seq<Observation>): seq<Id> {
    if entries == [] then []
    else
      var last := entries[|entries| - 1];
      NestedIds(entries[..|entries| - 1]) + if last.Observation? then MessageIds(last.evidence) else []
  }

  method ObservationMessageIds(observations: Observations) returns (ids: seq<Id>)
    ensures ids == if observations.NoObservations? then [] else NestedIds(observations.entries)
  {
    ids := [];
    if observations.NoObservations? {
      return;
    }
    var entries := observations.entries;
    for i := 0 to |entries|
      invariant ids == NestedIds(entries[..i])
    {
      assert entries[..i + 1][..i] == entries[..i];
      if entries[i].Observation? {
        ids := ids + MessageIds(entries[i].evidence);
      }
    }
    assert entries[..|entries|] == entries;
  }

  /** The turns one result stands for: its direct evidence, else its nested evidence; a result
      without any evidence that was not extracted stands for itself. */
  function Candidates(item: Item): seq<Id> {
    var direct := MessageIds(item.evidence);
    var nested := if item.observations.NoObservations? then [] else NestedIds(item.observations.entries);
    if item.extracted || direct != [] || nested != [] then
      if direct != [] then direct else nested
    else if item.id != "" then [item.id]
    else []
  }

  function AllCandidates(items: seq<Item>): seq<Id> {
    if items == [] then []
    else AllCandidates(items[..|items| - 1]) + Candidates(items[|items| - 1])
  }

  /** Some entry of the list names message `x`. */
  ghost predicate Names(entries: seq<Ref>, x: Id) {
    x != "" && exists i :: 0 <= i < |entries| && entries[i] == Ref(x)
  }

  ghost predicate NamesDirectly(item: Item, x: Id) {
    item.evidence.Refs? && Names(item.evidence.entries, x)
  }

  /** Some observation's evidence names it. */
  ghost predicate ObservationsName(entries: seq<Observation>, x: Id) {
    exists i :: 0 <= i < |entries| && ObservationNames(entries[i], x)
  }

  ghost predicate ObservationNames(observation: Observation, x: Id) {
    observation.Observation? && observation.evidence.Refs? && Names(observation.evidence.entries, x)
  }

  ghost predicate NamesNested(item: Item, x: Id) {
    item.observations.Observations? && ObservationsName(item.observations.entries, x)
  }

  lemma {:induction false} IdsAreNamed(entries: seq<Ref>, x: Id)
    ensures x in IdsOf(entries) <==> Names(entries, x)
  {
    if entries != [] {
      var n := |entries| - 1;
      IdsAreNamed(entries[..n], x);
      NamesOneMore(entries[..n], entries[n], x);
      assert entries == entries[..n] + [entries[n]];
    }
  }

  lemma NamesOneMore(entries: seq<Ref>, last: Ref, x: Id)
    ensures Names(entries + [last], x) <==> Names(entries, x) || (x != "" && last == Ref(x))
  {
    assert forall i :: 0 <= i < |entries| ==> (entries + [last])[i] == entries[i];
    assert (entries + [last])[|entries|] == last;
  }

  lemma {:induction false} NestedAreNamed(entries: seq<Observation>, x: Id)
    ensures x in NestedIds(entries) <==> ObservationsName(entries, x)
  {
    if entries != [] {
      var n := |entries| - 1;
      NestedAreNamed(entries[..n], x);
      assert forall i :: 0 <= i < n ==> entries[..n][i] == entries[i];
      if entries[n].Observation? && entries[n].evidence.Refs? {
        IdsAreNamed(entries[n].evidence.entries, x);
      }
    }
  }

  /** A result stands for the messages its own evidence names; only if that names none, for those its
      observations' evidence names; and only if neither names any and it was not extracted, for itself. */
  lemma CandidatesMeaning(item: Item, x: Id)
    ensures x in Candidates(item) <==>
            || NamesDirectly(item, x)
            || (NamesNested(item, x) && forall y :: !NamesDirectly(item, y))
            || (x == item.id != "" && !item.extracted && forall y :: !NamesDirectly(item, y) && !NamesNested(item, y))
  {
    var direct := MessageIds(item.evidence);
    var nested := if item.observations.NoObservations? then [] else NestedIds(item.observations.entries);
    forall y ensures (y in direct <==> NamesDirectly(item, y)) && (y in nested <==> NamesNested(item, y)) {
      if item.evidence.Refs? {
        IdsAreNamed(item.evidence.entries, y);
      }
      if item.observations.Observations? {
        NestedAreNamed(item.observations.entries, y);
      }
    }
    assert direct == [] || direct[0] in direct;
    assert nested == [] || nested[0] in nested;
  }

  /** No result stands for an empty id. */
  lemma CandidatesAreNotEmpty(item: Item)
    ensures "" !in Candidates(item)
  {
    CandidatesMeaning(item, "");
  }

  // ---------------------------------------------------------------- in order

  /** Evidence lists are read from front to back. */
  lemma {:induction false} IdsOfConcat(a: seq<Ref>, b: seq<Ref>)
    ensures IdsOf(a + b) == IdsOf(a) + IdsOf(b)
  {
    if b == [] {
      assert a + b == a;
    } else {
      var n := |b| - 1;
      assert a + b == a + b[..n] + [b[n]] && (a + b)[..|a + b| - 1] == a + b[..n];
      IdsOfConcat(a, b[..n]);
    }
  }

  /** One id for each entry that has one, in the order of the entries. */
  lemma EvidenceInOrder(a: seq<Ref>, b: seq<Ref>, r: Ref)
    ensures IdsOf(a + [r] + b) == IdsOf(a) + (if r.Ref? && r.messageId != "" then [r.messageId] else []) + IdsOf(b)
  {
    IdsOfConcat(a + [r], b);
    IdsOfConcat(a, [r]);
    assert [r][..0] == [];
  }

  lemma {:induction false} NestedIdsOfConcat(a: seq<Observation>, b: seq<Observation>)
    ensures NestedIds(a + b) == NestedIds(a) + NestedIds(b)
  {
    if b == [] {
      assert a + b == a;
    } else {
      var n := |b| - 1;
      assert a + b == a + b[..n] + [b[n]] && (a + b)[..|a + b| - 1] == a + b[..n];
      NestedIdsOfConcat(a, b[..n]);
    }
  }

  /** The evidence of each observation, in the order of the observations. */
  lemma NestedInOrder(a: seq<Observation>, b: seq<Observation>, evidence: seq<Ref>)
    ensures NestedIds(a + [Observation(Refs(evidence))] + b) == NestedIds(a) + IdsOf(evidence) + NestedIds(b)
  {
    var full := [Observation(Refs(evidence))];
    NestedIdsOfConcat(a + full, b);
    NestedIdsOfConcat(a, full);
    assert full[..0] == [];
  }

  /** The ids a result stands for are in the order of the evidence they come from. */
  lemma CandidatesInOrder(item: Item)
    ensures Candidates(item) == [] || Candidates(item) == [item.id]
            || (item.evidence.Refs? && Candidates(item) == IdsOf(item.evidence.entries))
            || (item.observations.Observations? && Candidates(item) == NestedIds(item.observations.entries))
  {
  }

  /** The turns that the first `n` results stand for come before all other turns. */
  lemma {:induction false} TurnsByRank(results: seq<Item>, n: nat)
    requires n <= |results|
    ensures Unique(AllCandidates(results[..n])) <= Unique(AllCandidates(results))
  {
    if n == |results| {
      assert results[..n] == results;
    } else {
      var m := |results| - 1;
      TurnsByRank(results[..m], n);
      assert results[..m][..n] == results[..n];
      UniqueOfConcat(AllCandidates(results[..m]), Candidates(results[m]));
      PrefixOfPrefix(Unique(AllCandidates(results[..n])), Unique(AllCandidates(results[..m])),
                     Unique(AllCandidates(results)));
    }
  }

  lemma PrefixOfPrefix(a: seq<Id>, b: seq<Id>, c: seq<Id>)
    requires a <= b <= c
    ensures a <= c
  {
  }

  lemma UniqueOfConcat(a: seq<Id>, b: seq<Id>)
    ensures Unique(a) <= Unique(a + b)
  {
    UniqueOfPrefix(a + b, |a|);
    assert (a + b)[..|a|] == a;
  }

  lemma {:induction false} CandidatesStand(results: seq<Item>, x: Id)
    ensures x in AllCandidates(results) <==> StandFor(results, x)
  {
    if results != [] {
      var front, last := results[..|results| - 1], results[|results| - 1];
      CandidatesStand(front, x);
      OneResultMore(front, last, x);
      assert results == front + [last];
      InEither(AllCandidates(front), Candidates(last), x);
    }
  }

  /** Which turns these are. */
  lemma TurnsOfResults(results: seq<Item>, x: Id)
    ensures x in Unique(AllCandidates(results)) <==> StandFor(results, x)
  {
    CandidatesStand(results, x);
  }

  lemma InEither(a: seq<Id>, b: seq<Id>, x: Id)
    ensures x in a + b <==> x in a || x in b
  {
  }

  ghost predicate StandFor(results: seq<Item>, x: Id) {
    exists i :: 0 <= i < |results| && x in Candidates(results[i])
  }

  lemma OneResultMore(results: seq<Item>, last: Item, x: Id)
    ensures StandFor(results + [last], x) <==> StandFor(results, x) || x in Candidates(last)
  {
    assert forall i :: 0 <= i < |results| ==> (results + [last])[i] == results[i];
    assert (results + [last])[|results|] == last;
  }

  /** And those of one result alone are in its own order. */
  lemma TurnsOfOneResult(item: Item)
    ensures Unique(AllCandidates([item])) == Unique(Candidates(item))
  {
    assert [item][..0] == [];
    assert AllCandidates([item]) == AllCandidates([]) + Candidates(item) == Candidates(item);
  }

  /** `ordered` followed by the candidates it lacks. */
  function AddMissing(ordered: seq<Id>, candidates: seq<Id>): seq<Id> {
    if candidates == [] then ordered
    else
      var more, last := AddMissing(ordered, candidates[..|candidates| - 1]), candidates[|candidates| - 1];
      if last in more then more else more + [last]
  }

  lemma {:induction false} MissingAreUnseen(before: seq<Id>, candidates: seq<Id>)
    ensures AddMissing(Unique(before), candidates) == Unique(before + candidates)
  {
    if candidates == [] {
      assert before + candidates == before;
    } else {
      var all, n := before + candidates, |before + candidates| - 1;
      MissingAreUnseen(before, candidates[..|candidates| - 1]);
      assert all[..n] == before + candidates[..|candidates| - 1] && all[..n + 1] == all;
      UniqueStep(all, n);
    }
  }

  /** Append the candidates not seen before; `before` is what the ids so far were taken from. */
  method AddUnseen(candidates: seq<Id>, seen: set<Id>, ordered: seq<Id>, ghost before: seq<Id>)
    returns (seen': set<Id>, ordered': seq<Id>)
    requires ordered == Unique(before) && seen == Members(before)
    ensures ordered' == Unique(before + candidates) && seen' == Members(before + candidates)
  {
    seen', ordered' := seen, ordered;
    for j := 0 to |candidates|
      invariant ordered' == AddMissing(ordered, candidates[..j])
      invariant seen' == Members(ordered')
    {
      assert candidates[..j + 1][..j] == candidates[..j];
      if candidates[j] !in seen' {
        seen' := seen' + {candidates[j]};
        ordered' := ordered' + [candidates[j]];
      }
    }
    assert candidates[..|candidates|] == candidates;
    MissingAreUnseen(before, candidates);
  }

  method CandidatesOf(item: Item) returns (candidates: seq<Id>)
    ensures candidates == Candidates(item)
  {
    var direct := MessageIds(item.evidence);
    var nested := ObservationMessageIds(item.observations);
    if item.extracted || direct != [] || nested != [] {
      candidates := if direct != [] then direct else nested;
    } else {
      candidates := if item.id != "" then [item.id] else [];
    }
  }

  lemma NextCandidates(results: seq<Item>, i: nat)
    requires i < |results|
    ensures AllCandidates(results[..i + 1]) == AllCandidates(results[..i]) + Candidates(results[i])
  {
    assert results[..i + 1][..i] == results[..i];
  }

  /** The source turns of ranked results: each once, in the order in which the results first name them. */
  method RetrievedSourceTurnIds(results: seq<Item>) returns (ordered: seq<Id>)
    ensures ordered == Unique(AllCandidates(results))
  {
    var seen: set<Id> := {};
    ordered := [];
    for i := 0 to |results|
      invariant ordered == Unique(AllCandidates(results[..i]))
      invariant seen == Members(AllCandidates(results[..i]))
    {
      var candidates := CandidatesOf(results[i]);
      seen, ordered := AddUnseen(candidates, seen, ordered, AllCandidates(results[..i]));
      NextCandidates(results, i);
    }
    assert results[..|results|] == results;
  }

  // ---------------------------------------------------------------- sessions

  datatype Error = MissingTurn(turn: Id) | NoSession(turn: Id)

  datatype Outcome = Sessions(ids: seq<Id>) | Failed(error: Error)

  /** What the session lookup of one turn raises, if anything. */
  function Problem(turn: Id, sessionOf: map<Id, Id>): (e: seq<Error>)
    ensures e == [] <==> turn in sessionOf && sessionOf[turn] != ""
  {
    if turn !in sessionOf then [MissingTurn(turn)]
    else if sessionOf[turn] == "" then [NoSession(turn)]
    else []
  }

  /** The first `n` turns all have a session. */
  ghost predicate Resolved(turns: seq<Id>, n: nat, sessionOf: map<Id, Id>)
    requires n <= |turns|
  {
    forall i :: 0 <= i < n ==> turns[i] in sessionOf && sessionOf[turns[i]] != ""
  }

  ghost function SessionsOf(turns: seq<Id>, n: nat, sessionOf: map<Id, Id>): seq<Id>
    requires n <= |turns| && Resolved(turns, n, sessionOf)
  {
    seq(n, i requires 0 <= i < n => sessionOf[turns[i]])
  }

  /** Either every turn has a session and these come back each once, in first-seen order; or the
      error of the first turn that has none. */
  ghost predicate IsSessionLookup(turns: seq<Id>, sessionOf: map<Id, Id>, outcome: Outcome) {
    match outcome
    case Sessions(ids) =>
      Resolved(turns, |turns|, sessionOf) && ids == Unique(SessionsOf(turns, |turns|, sessionOf))
    case Failed(error) =>
      exists n: nat :: n < |turns| && Resolved(turns, n, sessionOf) && Problem(turns[n], sessionOf) == [error]
  }

  lemma NextSession(turns: seq<Id>, n: nat, sessionOf: map<Id, Id>)
    requires n < |turns| && Resolved(turns, n, sessionOf) && Problem(turns[n], sessionOf) == []
    ensures Resolved(turns, n + 1, sessionOf)
    ensures var before, after := SessionsOf(turns, n, sessionOf), SessionsOf(turns, n + 1, sessionOf);
            var session := sessionOf[turns[n]];
            && Unique(after) == (if session in Members(before) then Unique(before) else Unique(before) + [session])
            && Members(after) == Members(before) + {session}
  {
    var all := SessionsOf(turns, n + 1, sessionOf);
    assert all[..n] == SessionsOf(turns, n, sessionOf) && all[..n + 1] == all;
    UniqueStep(all, n);
  }

  method RetrievedSourceSessionIds(results: seq<Item>, sessionOf: map<Id, Id>) returns (outcome: Outcome)
    ensures IsSessionLookup(Unique(AllCandidates(results)), sessionOf, outcome)
  {
    var turns := RetrievedSourceTurnIds(results);
    var seen: set<Id>, ordered: seq<Id> := {}, [];
    for i := 0 to |turns|
      invariant Resolved(turns, i, sessionOf) && ordered == Unique(SessionsOf(turns, i, sessionOf))
      invariant seen == Members(SessionsOf(turns, i, sessionOf))
    {
      if turns[i] !in sessionOf {
        return Failed(MissingTurn(turns[i]));
      }
      var session := sessionOf[turns[i]];
      if session == "" {
        return Failed(NoSession(turns[i]));
      }
      NextSession(turns, i, sessionOf);
      if session !in seen {
        seen := seen + {session};
        ordered := ordered + [session];
      }
    }
    return Sessions(ordered);
  }

  /** The promise leaves no choice: the lookup succeeds exactly if every turn has a session. */
  lemma SessionLookupIsUnique(turns: seq<Id>, sessionOf: map<Id, Id>, a: Outcome, b: Outcome)
    requires IsSessionLookup(turns, sessionOf, a) && IsSessionLookup(turns, sessionOf, b)
    ensures a == b
    ensures a.Sessions? <==> Resolved(turns, |turns|, sessionOf)
  {
    if a.Failed? && b.Failed? {
      var m: nat :| m < |turns| && Resolved(turns, m, sessionOf) && Problem(turns[m], sessionOf) == [a.error];
      var n: nat :| n < |turns| && Resolved(turns, n, sessionOf) && Problem(turns[n], sessionOf) == [b.error];
    }
  }

  // ---------------------------------------------------------------- scoring what was retrieved

  /** Scores of retrieved turns and of retrieved sessions lie between 0 and 1, whatever was retrieved
      and whatever is relevant. */
  lemma RetrievedScoresAreBounded(results: seq<Item>, sessionOf: map<Id, Id>, outcome: Outcome, relevant: seq<Id>,
                                  k: int, d: Discount)
    requires Decreasing(d) && IsSessionLookup(Unique(AllCandidates(results)), sessionOf, outcome)
    ensures 0.0 <= Ndcg(Unique(AllCandidates(results)), relevant, k, d) <= 1.0
    ensures outcome.Sessions? ==> 0.0 <= Ndcg(outcome.ids, relevant, k, d) <= 1.0
  {
    NdcgIsBounded(Unique(AllCandidates(results)), relevant, k, d);
    if outcome.Sessions? {
      NdcgIsBounded(outcome.ids, relevant, k, d);
    }
  }
}
