/** The KV cache coordinator with each handler atomic. The reference-count table is kept up to
    date from set differences; it is always the exact recount over sessions and live forks. */
module KvCacheManager {
  import opened Basics
  import opened FirstSeen
  import opened Refcounts

  datatype Result<+T> = Ok(value: T) | SessionNotFound(sessionId: string) | DebugWriteFailed

  /** `map` is ordered and may hold duplicates. */
  datatype SessionKvState = SessionKvState(map_: seq<Hash>, turnCount: nat)
  datatype ForkSnapshot = ForkSnapshot(sessionId: string, hashes: seq<Hash>)
  datatype OperationOutcome = OperationOutcome(
    evictedCount: nat, prefetchSent: bool, prefetchCount: nat, debugWritten: bool, backendDegraded: bool)

  const DEFAULT_OUTCOME := OperationOutcome(0, false, 0, false, false)

  /** `turn_count` is an unsigned 32-bit counter. */
  const U32_MODULUS: nat := 0x1_0000_0000

  function NextTurn(turnCount: nat): nat {
    (turnCount + 1) % U32_MODULUS
  }

  function Maps(sessions: map<string, SessionKvState>): map<string, seq<Hash>> {
    map s | s in sessions :: sessions[s].map_
  }

  function ForkLists(forks: map<nat, ForkSnapshot>): map<nat, seq<Hash>> {
    map f | f in forks :: forks[f].hashes
  }

  function StateOf(sessions: map<string, SessionKvState>, s: string): SessionKvState {
    if s in sessions then sessions[s] else SessionKvState([], 0)
  }

  /** The outcome fields an eviction call leaves behind; no call is made for an empty list. */
  function AfterEvict(evicted: seq<Hash>, accepted: bool): OperationOutcome {
    if evicted == [] then DEFAULT_OUTCOME
    else if accepted then DEFAULT_OUTCOME.(evictedCount := |evicted|)
    else DEFAULT_OUTCOME.(backendDegraded := true)
  }

  /** What the debug file adds, if it is written at all; `written` tells whether writing it succeeds. */
  function AfterDebug(outcome: OperationOutcome, written: Option<bool>): Result<OperationOutcome> {
    match written
    case None => Ok(outcome)
    case Some(true) => Ok(outcome.(debugWritten := true))
    case Some(false) => DebugWriteFailed
  }

  function AfterPrefetch(outcome: OperationOutcome, hashes: seq<Hash>, accepted: bool): OperationOutcome {
    if hashes == [] then outcome
    else if accepted then outcome.(prefetchCount := |hashes|, prefetchSent := true)
    else outcome.(prefetchCount := |hashes|, backendDegraded := true)
  }

  /** The turn count goes up by one until it wraps around. */
  lemma NextTurnMeaning(turnCount: nat)
    requires turnCount <= 0xFFFF_FFFF
    ensures turnCount < 0xFFFF_FFFF ==> NextTurn(turnCount) == turnCount + 1
    ensures NextTurn(0xFFFF_FFFF) == 0
  {
  }

  /** What the outcomes report, whichever calls the backend accepts: eviction counts what was handed
      over and accepted; a prefetch is counted even when refused; degraded means that some call that
      was made was refused. */
  lemma OutcomeMeaning(evicted: seq<Hash>, evictAccepted: bool, hashes: seq<Hash>, prefetchAccepted: bool)
    ensures var evict := AfterEvict(evicted, evictAccepted);
            var both := AfterPrefetch(evict, hashes, prefetchAccepted);
            && both.evictedCount == evict.evictedCount == (if evictAccepted then |evicted| else 0)
            && (evict.backendDegraded <==> !evictAccepted && evicted != [])
            && (both.backendDegraded <==> (!evictAccepted && evicted != []) || (!prefetchAccepted && hashes != []))
            && both.prefetchCount == |hashes| && (both.prefetchSent <==> prefetchAccepted && hashes != [])
            && evict.prefetchCount == 0 && !evict.prefetchSent && !both.debugWritten
  {
  }

  /** The debug file decides on success, and changes nothing but what is reported of itself. */
  lemma DebugMeaning(outcome: OperationOutcome, written: Option<bool>)
    ensures AfterDebug(outcome, written).Ok? <==> written != Some(false)
    ensures !AfterDebug(outcome, written).SessionNotFound?
    ensures var result := AfterDebug(outcome, written);
            result.Ok? && !outcome.debugWritten ==>
              (result.value.debugWritten <==> written.Some?) && result.value.(debugWritten := false) == outcome
  {
  }

  /** Which snapshot a `fork_end` consumes: the one named, if it is the session's own; without a
      fork id, the session's latest. */
  ghost predicate Chosen(forks: map<nat, ForkSnapshot>, sessionId: string, forkId: Option<nat>, chosen: Option<nat>) {
    && (chosen.Some? ==> chosen.value in forks && forks[chosen.value].sessionId == sessionId)
    && (forkId.Some? ==>
          && (chosen.Some? ==> chosen.value == forkId.value)
          && (chosen.None? ==> !(forkId.value in forks && forks[forkId.value].sessionId == sessionId)))
    && (forkId.None? ==>
          && (chosen.Some? ==> forall f :: f in forks && forks[f].sessionId == sessionId ==> f <= chosen.value)
          && (chosen.None? ==> forall f :: f in forks ==> forks[f].sessionId != sessionId))
  }

  method UniqueHashes(hashes: seq<Hash>) returns (out: seq<Hash>)
    ensures out == Unique(hashes)
  {
    var seen: set<Hash> := {};
    out := [];
    for i := 0 to |hashes|
      invariant out == Unique(hashes[..i])
      invariant seen == Members(hashes[..i])
    {
      UniqueStep(hashes, i);
      if hashes[i] !in seen {
        seen := seen + {hashes[i]};
        out := out + [hashes[i]];
      }
    }
    assert hashes[..|hashes|] == hashes;
  }

  class Manager {
    var sessions: map<string, SessionKvState>
    var refcounts: Table
    var forkSnapshots: map<nat, ForkSnapshot>
    var nextForkId: nat
    // Number of times `decrement_refcounts` logged an underflow or a missing entry.
    var warnings: nat

    ghost predicate Valid()
      reads this
    {
      && Exact(refcounts, Maps(sessions), ForkLists(forkSnapshots))
      && (forall f :: f in forkSnapshots ==> f < nextForkId && NoDuplicates(forkSnapshots[f].hashes))
    }

    /** Some session or live fork references `h`. */
    ghost predicate InUse(h: Hash)
      reads this
    {
      Referenced(Maps(sessions), ForkLists(forkSnapshots), h)
    }

    constructor ()
      ensures Valid() && sessions == map[] && refcounts == map[] && forkSnapshots == map[]
      ensures nextForkId == 1 && warnings == 0
    {
      sessions, refcounts, forkSnapshots, nextForkId, warnings := map[], map[], map[], 1, 0;
    }

    method DecrementRefcounts(hashes: seq<Hash>) returns (toEvict: seq<Hash>)
      modifies this`refcounts, this`warnings
      ensures refcounts == Decremented(old(refcounts), hashes)
      ensures toEvict == Evicted(old(refcounts), hashes)
      ensures warnings == old(warnings) + Skipped(old(refcounts), hashes)
    {
      toEvict := [];
      for i := 0 to |hashes|
        invariant refcounts == Decremented(old(refcounts), hashes[..i])
        invariant toEvict == Evicted(old(refcounts), hashes[..i])
        invariant warnings == old(warnings) + Skipped(old(refcounts), hashes[..i])
      {
        assert hashes[..i + 1][..i] == hashes[..i];
        var hash := hashes[i];
        if hash in refcounts && refcounts[hash] > 0 {
          refcounts := refcounts[hash := refcounts[hash] - 1];
          if refcounts[hash] == 0 {
            toEvict := toEvict + [hash];
            refcounts := refcounts - {hash};
          }
        } else {
          warnings := warnings + 1;
        }
      }
      assert hashes[..|hashes|] == hashes;
    }

    method IncrementRefcounts(hashes: seq<Hash>)
      modifies this`refcounts
      ensures refcounts == Incremented(old(refcounts), hashes)
    {
      for i := 0 to |hashes|
        invariant refcounts == Incremented(old(refcounts), hashes[..i])
      {
        assert hashes[..i + 1][..i] == hashes[..i];
        refcounts := refcounts[hashes[i] := Count(refcounts, hashes[i]) + 1];
      }
      assert hashes[..|hashes|] == hashes;
    }

    /** Replace one session's list in the table: the part `turn_end` and `snapshot_restore` share.
        The session itself is stored by the caller. */
    method ApplyDifference(sessionId: string, newHashes: seq<Hash>) returns (toEvict: seq<Hash>)
      requires Valid()
      modifies this`refcounts, this`warnings
      ensures Exact(refcounts, Maps(sessions)[sessionId := newHashes], ForkLists(forkSnapshots))
      ensures warnings == old(warnings)
      ensures NoDuplicates(toEvict)
      ensures forall h :: h in toEvict <==>
                          InUse(h) && !Referenced(Maps(sessions)[sessionId := newHashes], ForkLists(forkSnapshots), h)
    {
      ghost var before, maps, forks := refcounts, Maps(sessions), ForkLists(forkSnapshots);
      var oldUnique := UniqueHashes(StateOf(sessions, sessionId).map_);
      var newUnique := UniqueHashes(newHashes);
      var toDecrement := Excluding(oldUnique, set h | h in newUnique);
      var toIncrement := Excluding(newUnique, set h | h in oldUnique);
      ExchangeSession(before, toDecrement, toIncrement, maps, forks, sessionId, newHashes);
      toEvict := DecrementRefcounts(toDecrement);
      IncrementRefcounts(toIncrement);
    }

    /** `debug` is `None` unless debugging is enabled. A debug file that cannot be written makes the
        operation fail after everything else has been done. */
    method OnTurnEnd(sessionId: string, newHashes: Option<seq<Hash>>, evictAccepted: bool, debug: Option<bool>)
      returns (evicted: seq<Hash>, outcome: Result<OperationOutcome>)
      requires Valid()
      modifies this
      ensures Valid() && warnings == old(warnings)
      ensures forkSnapshots == old(forkSnapshots) && nextForkId == old(nextForkId)
      ensures sessions == old(sessions)[sessionId := SessionKvState(
                            if newHashes.Some? then newHashes.value else StateOf(old(sessions), sessionId).map_,
                            NextTurn(StateOf(old(sessions), sessionId).turnCount))]
      ensures newHashes.None? ==> refcounts == old(refcounts)
      ensures NoDuplicates(evicted)
      ensures forall h :: h in evicted <==> old(InUse(h)) && !InUse(h)
      ensures outcome == AfterDebug(AfterEvict(evicted, evictAccepted), debug)
    {
      ghost var maps := Maps(sessions);
      var state := StateOf(sessions, sessionId);
      var turnCount := NextTurn(state.turnCount);
      match newHashes {
        case None =>
          evicted := [];
          ReferencedUnchangedByEmpty(sessionId);
          sessions := sessions[sessionId := SessionKvState(state.map_, turnCount)];
          assert Maps(sessions) == maps[sessionId := state.map_];
        case Some(hashes) =>
          evicted := ApplyDifference(sessionId, hashes);
          sessions := sessions[sessionId := SessionKvState(hashes, turnCount)];
          assert Maps(sessions) == maps[sessionId := hashes];
      }
      outcome := AfterDebug(AfterEvict(evicted, evictAccepted), debug);
    }

    /** Storing the list a session already has (nothing, if it is new) moves no reference. */
    lemma ReferencedUnchangedByEmpty(sessionId: string)
      requires Valid()
      ensures var maps' := Maps(sessions)[sessionId := StateOf(sessions, sessionId).map_];
              && Exact(refcounts, maps', ForkLists(forkSnapshots))
              && forall h :: Referenced(maps', ForkLists(forkSnapshots), h) <==> InUse(h)
    {
      var list := StateOf(sessions, sessionId).map_;
      ExchangeSession(refcounts, [], [], Maps(sessions), ForkLists(forkSnapshots), sessionId, list);
      forall h
        ensures Referenced(Maps(sessions)[sessionId := list], ForkLists(forkSnapshots), h) <==> InUse(h)
      {
        ReferencesAfterSession(Maps(sessions), ForkLists(forkSnapshots), sessionId, list, h);
        ReferencedIffCounted(Maps(sessions), ForkLists(forkSnapshots), h);
        ReferencedIffCounted(Maps(sessions)[sessionId := list], ForkLists(forkSnapshots), h);
      }
    }

    method OnSnapshotRestore(sessionId: string, hashes: seq<Hash>, evictAccepted: bool, prefetchAccepted: bool)
      returns (evicted: seq<Hash>, outcome: OperationOutcome)
      requires Valid()
      modifies this
      ensures Valid() && warnings == old(warnings)
      ensures forkSnapshots == old(forkSnapshots) && nextForkId == old(nextForkId)
      ensures sessions
              == old(sessions)[sessionId := SessionKvState(hashes, StateOf(old(sessions), sessionId).turnCount)]
      ensures NoDuplicates(evicted)
      ensures forall h :: h in evicted <==> old(InUse(h)) && !InUse(h)
      ensures outcome == AfterPrefetch(AfterEvict(evicted, evictAccepted), hashes, prefetchAccepted)
    {
      ghost var maps := Maps(sessions);
      evicted := ApplyDifference(sessionId, hashes);
      sessions := sessions[sessionId := SessionKvState(hashes, StateOf(sessions, sessionId).turnCount)];
      assert Maps(sessions) == maps[sessionId := hashes];
      outcome := AfterPrefetch(AfterEvict(evicted, evictAccepted), hashes, prefetchAccepted);
    }

    method OnSessionClose(sessionId: string, evictAccepted: bool)
      returns (evicted: seq<Hash>, outcome: OperationOutcome)
      requires Valid()
      modifies this
      ensures Valid() && warnings == old(warnings)
      ensures forkSnapshots == old(forkSnapshots) && nextForkId == old(nextForkId)
      ensures sessions == old(sessions) - {sessionId}
      ensures NoDuplicates(evicted)
      ensures forall h :: h in evicted <==> old(InUse(h)) && !InUse(h)
      ensures outcome == AfterEvict(evicted, evictAccepted)
    {
      if sessionId !in sessions {
        return [], DEFAULT_OUTCOME;
      }
      ghost var before, maps, forks := refcounts, Maps(sessions), ForkLists(forkSnapshots);
      var unique := UniqueHashes(sessions[sessionId].map_);
      sessions := sessions - {sessionId};
      ExchangeClosing(before, unique, maps, forks, sessionId);
      evicted := DecrementRefcounts(unique);
      assert Maps(sessions) == maps - {sessionId};
      outcome := AfterEvict(evicted, evictAccepted);
    }

    method OnSessionFork(sessionId: string) returns (fork: Result<nat>)
      requires Valid()
      modifies this
      ensures Valid() && warnings == old(warnings) && sessions == old(sessions)
      ensures fork == if sessionId in sessions then Ok(old(nextForkId)) else SessionNotFound(sessionId)
      ensures fork.Ok? ==>
                && fork.value !in old(forkSnapshots)
                && forkSnapshots == old(forkSnapshots)[fork.value :=
                                      ForkSnapshot(sessionId, Unique(sessions[sessionId].map_))]
                && nextForkId == fork.value + 1
      ensures fork.SessionNotFound? ==> unchanged(this)
      ensures forall h :: old(InUse(h)) <==> InUse(h)
    {
      if sessionId !in sessions {
        return SessionNotFound(sessionId);
      }
      ghost var before, maps, forks := refcounts, Maps(sessions), ForkLists(forkSnapshots);
      var hashes := UniqueHashes(sessions[sessionId].map_);
      var forkId := nextForkId;
      nextForkId := nextForkId + 1;
      forkSnapshots := forkSnapshots[forkId := ForkSnapshot(sessionId, hashes)];
      IncrementRefcounts(hashes);
      ExchangeFork(before, [], hashes, maps, forks, forkId, hashes);
      assert ForkLists(forkSnapshots) == forks[forkId := hashes];
      assert sessionId in maps && forall h :: h in hashes <==> h in maps[sessionId];
      fork := Ok(forkId);
    }

    method LatestFork(sessionId: string) returns (chosen: Option<nat>)
      ensures Chosen(forkSnapshots, sessionId, None, chosen)
    {
      chosen := None;
      var rest := forkSnapshots.Keys;
      while rest != {}
        invariant rest <= forkSnapshots.Keys
        invariant chosen.Some? ==> chosen.value in forkSnapshots && forkSnapshots[chosen.value].sessionId == sessionId
        invariant forall f :: f in forkSnapshots && f !in rest && forkSnapshots[f].sessionId == sessionId ==>
                              chosen.Some? && f <= chosen.value
        decreases |rest|
      {
        var f :| f in rest;
        rest := rest - {f};
        if forkSnapshots[f].sessionId == sessionId && (chosen.None? || chosen.value < f) {
          chosen := Some(f);
        }
      }
    }

    /** Consume one live snapshot: the parent's own map plays no part. */
    method ReleaseFork(id: nat) returns (evicted: seq<Hash>)
      requires Valid() && id in forkSnapshots
      modifies this`forkSnapshots, this`refcounts, this`warnings
      ensures Valid() && warnings == old(warnings)
      ensures forkSnapshots == old(forkSnapshots) - {id}
      ensures NoDuplicates(evicted)
      ensures forall h :: h in evicted <==> old(InUse(h)) && !InUse(h)
    {
      ghost var before, maps, forks := refcounts, Maps(sessions), ForkLists(forkSnapshots);
      var hashes := forkSnapshots[id].hashes;
      forkSnapshots := forkSnapshots - {id};
      ExchangeReleasing(before, hashes, maps, forks, id);
      evicted := DecrementRefcounts(hashes);
      assert ForkLists(forkSnapshots) == forks - {id};
    }

    method OnSessionForkEnd(sessionId: string, forkId: Option<nat>, evictAccepted: bool)
      returns (chosen: Option<nat>, evicted: seq<Hash>, outcome: OperationOutcome)
      requires Valid()
      modifies this
      ensures Valid() && warnings == old(warnings)
      ensures sessions == old(sessions) && nextForkId == old(nextForkId)
      ensures Chosen(old(forkSnapshots), sessionId, forkId, chosen)
      ensures forkSnapshots == if chosen.Some? then old(forkSnapshots) - {chosen.value} else old(forkSnapshots)
      ensures chosen.None? ==> refcounts == old(refcounts)
      ensures NoDuplicates(evicted)
      ensures forall h :: h in evicted <==> old(InUse(h)) && !InUse(h)
      ensures outcome == AfterEvict(evicted, evictAccepted)
    {
      if forkId.Some? {
        chosen := if forkId.value in forkSnapshots && forkSnapshots[forkId.value].sessionId == sessionId
                  then forkId else None;
      } else {
        chosen := LatestFork(sessionId);
      }
      if chosen.None? {
        return chosen, [], DEFAULT_OUTCOME;
      }
      evicted := ReleaseFork(chosen.value);
      outcome := AfterEvict(evicted, evictAccepted);
    }

    method RestoreSession(sessionId: string, state: SessionKvState)
      modifies this`sessions
      ensures sessions == old(sessions)[sessionId := state]
    {
      sessions := sessions[sessionId := state];
    }

    /** The recount over the sessions alone. Without live forks it makes any table valid, and on a
        manager that was valid already it changes nothing. */
    method RebuildRefcounts()
      modifies this`refcounts
      ensures Exact(refcounts, Maps(sessions), map[])
      ensures forkSnapshots == map[] ==> Valid()
      ensures forkSnapshots == map[] && old(Valid()) ==> refcounts == old(refcounts)
    {
      var newRefcounts := Recount(sessions);
      RecountAgrees(newRefcounts);
      refcounts := newRefcounts;
    }

    lemma RecountAgrees(recount: Table)
      requires Exact(recount, Maps(sessions), map[])
      ensures forkSnapshots == map[] ==> ForkLists(forkSnapshots) == map[]
      ensures forkSnapshots == map[] && Valid() ==> recount == refcounts
    {
      if forkSnapshots == map[] && Valid() {
        assert ForkLists(forkSnapshots) == map[];
        TablesAgree(recount, refcounts, Maps(sessions), map[]);
      }
    }
  }

  /** The table counts each of `held` once more than before. */
  ghost predicate CountedOnce(before: Table, after: Table, held: set<Hash>) {
    forall h :: Count(after, h) == Count(before, h) + Indicator(h in held) && (h in after <==> h in before || h in held)
  }

  /** The inner loop of `rebuild_refcounts`: each unique hash of one session counted once. */
  method CountSession(table: Table, hashes: seq<Hash>) returns (out: Table)
    ensures CountedOnce(table, out, Members(hashes))
  {
    out := table;
    var seen: set<Hash> := {};
    for i := 0 to |hashes|
      invariant seen == Members(hashes[..i])
      invariant CountedOnce(table, out, seen)
    {
      assert Members(hashes[..i + 1]) == Members(hashes[..i]) + {hashes[i]};
      if hashes[i] !in seen {
        seen := seen + {hashes[i]};
        out := out[hashes[i] := Count(out, hashes[i]) + 1];
      }
    }
    assert hashes[..|hashes|] == hashes;
  }

  /** The outer loop. */
  method Recount(sessions: map<string, SessionKvState>) returns (table: Table)
    ensures Exact(table, Maps(sessions), map[])
  {
    table := map[];
    var rest := sessions.Keys;
    NothingIsExact(Maps(sessions));
    while rest != {}
      invariant rest <= sessions.Keys
      invariant Exact(table, Maps(sessions) - rest, map[])
      decreases |rest|
    {
      var s :| s in rest;
      var counted := CountSession(table, sessions[s].map_);
      RecountStep(table, counted, Maps(sessions), rest, s);
      table, rest := counted, rest - {s};
    }
    assert Maps(sessions) - rest == Maps(sessions);
  }

  lemma NothingIsExact(maps: map<string, seq<Hash>>)
    ensures Exact(map[], maps - maps.Keys, map[])
  {
    assert maps - maps.Keys == map[];
    forall h ensures References(map[], map[], h) == 0 {
      assert Holders<string>(map[], h) == {} && Holders<nat>(map[], h) == {};
    }
  }

  lemma RecountStep(table: Table, out: Table, maps: map<string, seq<Hash>>, rest: set<string>, s: string)
    requires s in maps && s in rest && Exact(table, maps - rest, map[]) && CountedOnce(table, out, Members(maps[s]))
    ensures Exact(out, maps - (rest - {s}), map[])
  {
    var done := maps - rest;
    assert maps - (rest - {s}) == done[s := maps[s]];
    forall h ensures Count(out, h) == References(done[s := maps[s]], map[], h) && (h in out ==> out[h] > 0) {
      ReferencesAfterSession(done, map[], s, maps[s], h);
    }
  }
}
