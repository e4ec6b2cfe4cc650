/** A chain of resumable stages, and the chain of one benchmark arm: however often it is stopped and
    restarted, a normal return leaves what an uninterrupted run would. */
module StageChain {
  import opened Stages

  /** Stages keep out of each other's files, and none touches an input of its own or of an earlier
      stage. */
  ghost predicate WellFormed(stages: seq<Stage>) {
    && (forall s :: s in stages ==> Separate(s))
    && (forall i, j :: 0 <= i < j < |stages| ==> Touched(stages[i]) !! Touched(stages[j]))
    && (forall i, j :: 0 <= i < j < |stages| ==> Named(stages[i].inputs) !! Touched(stages[j]))
  }

  ghost predicate UpToDateUpTo(files: Files, stages: seq<Stage>, manifest: Manifest, n: nat, w: World)
    requires n <= |stages|
  {
    forall i :: 0 <= i < n ==> UpToDate(files, stages[i], manifest, w)
  }

  ghost predicate CompleteUpTo(files: Files, stages: seq<Stage>, manifest: Manifest, n: nat, w: World)
    requires n <= |stages|
  {
    forall i :: 0 <= i < n ==>
      AllPresent(files, Named(stages[i].inputs))
        && IsComplete(files, stages[i], Expected(stages[i], manifest, files, w), w)
  }

  /** Running a stage leaves the stages before it as they were. */
  lemma EarlierStageKept(a: Files, b: Files, earlier: Stage, later: Stage, manifest: Manifest, w: World)
    requires SameBut(b, a, Touched(later)) && Touched(earlier) !! Touched(later)
             && Named(earlier.inputs) !! Touched(later)
    ensures UpToDate(a, earlier, manifest, w) ==> UpToDate(b, earlier, manifest, w)
    ensures AllPresent(a, Named(earlier.inputs)) ==> AllPresent(b, Named(earlier.inputs))
    ensures IsComplete(a, earlier, Expected(earlier, manifest, a, w), w) ==>
            IsComplete(b, earlier, Expected(earlier, manifest, b, w), w)
  {
    assert forall p :: p in Named(earlier.inputs) ==> p !in Touched(later);
    assert Restrict(a, Named(earlier.inputs)) == Restrict(b, Named(earlier.inputs));
    assert MarkerOf(earlier) in Touched(earlier);
    forall n | n in earlier.outputs
      ensures (File(n) in a <==> File(n) in b) && (File(n) in a ==> a[File(n)] == b[File(n)])
    {
      assert File(n) in Touched(earlier);
    }
    forall p | p in Named(earlier.outputs) ensures p in a <==> p in b {
      assert p in Touched(earlier);
    }
  }

  function AllTouched(stages: seq<Stage>): set<Path> {
    set s, p | s in stages && p in Touched(s) :: p
  }

  /** Stage `i` has returned: it and the stages before it are done. */
  lemma StageReturned(a: Files, b: Files, stages: seq<Stage>, i: nat, manifest: Manifest, w: World)
    requires WellFormed(stages) && i < |stages| && SameBut(b, a, Touched(stages[i]))
    requires UpToDateUpTo(a, stages, manifest, i, w) && CompleteUpTo(a, stages, manifest, i, w)
    requires UpToDate(b, stages[i], manifest, w) && IsComplete(b, stages[i], Expected(stages[i], manifest, b, w), w)
    ensures UpToDateUpTo(b, stages, manifest, i + 1, w) && CompleteUpTo(b, stages, manifest, i + 1, w)
  {
    forall j | 0 <= j < i
      ensures UpToDate(b, stages[j], manifest, w)
      ensures AllPresent(b, Named(stages[j].inputs)) && IsComplete(b, stages[j], Expected(stages[j], manifest, b, w), w)
    {
      EarlierStageKept(a, b, stages[j], stages[i], manifest, w);
    }
  }

  /** Some earlier stage makes the file. */
  ghost predicate MadeBefore(stages: seq<Stage>, i: nat, p: Path)
    requires i <= |stages|
  {
    exists j :: 0 <= j < i && p in Named(stages[j].outputs)
  }

  /** Every input that no earlier stage makes is there. */
  ghost predicate Supplied(files: Files, stages: seq<Stage>) {
    forall i: nat, p :: i < |stages| && p in Named(stages[i].inputs) && !MadeBefore(stages, i, p) ==> p in files
  }

  function TotalSteps(stages: seq<Stage>): nat {
    if stages == [] then 0 else TotalSteps(stages[..|stages| - 1]) + StepsOf(stages[|stages| - 1])
  }

  /** Nothing stands in the way of the arm: no command fails, and the process lives long enough. */
  ghost predicate Smooth(stages: seq<Stage>, manifest: Manifest, trouble: Trouble, steps: nat, w: World) {
    steps >= TotalSteps(stages) && forall s :: s in stages ==> Untroubled(s, manifest, trouble, w)
  }

  /** By the time a stage runs its inputs are there. */
  lemma InputsAreThere(a: Files, b: Files, stages: seq<Stage>, i: nat, manifest: Manifest, w: World)
    requires i < |stages| && Supplied(a, stages) && SameBut(b, a, AllTouched(stages[..i]))
    requires UpToDateUpTo(b, stages, manifest, i, w)
    ensures AllPresent(b, Named(stages[i].inputs))
  {
    forall p | p in Named(stages[i].inputs) ensures p in b {
      if MadeBefore(stages, i, p) {
        var j :| 0 <= j < i && p in Named(stages[j].outputs);
        assert UpToDate(b, stages[j], manifest, w);
      } else {
        NotTouchedBefore(stages, i, p.name);
      }
    }
  }

  lemma NotTouchedBefore(stages: seq<Stage>, i: nat, name: string)
    requires i <= |stages| && !MadeBefore(stages, i, File(name))
    ensures File(name) !in AllTouched(stages[..i])
  {
    forall s | s in stages[..i] ensures File(name) !in Touched(s) {
      var j :| 0 <= j < i && stages[j] == s;
      assert File(name) !in Named(stages[j].outputs);
    }
  }

  lemma StepsAdd(stages: seq<Stage>, i: nat)
    requires i < |stages|
    ensures TotalSteps(stages[..i + 1]) == TotalSteps(stages[..i]) + StepsOf(stages[i])
  {
    assert stages[..i + 1][..i] == stages[..i];
  }

  lemma {:induction false} StepsGrow(stages: seq<Stage>, i: nat)
    requires i <= |stages|
    ensures TotalSteps(stages[..i]) <= TotalSteps(stages)
  {
    if i == |stages| {
      assert stages[..i] == stages;
    } else {
      StepsGrow(stages[..|stages| - 1], i);
      assert stages[..|stages| - 1][..i] == stages[..i];
    }
  }

  lemma TouchedByMore(a: Files, b: Files, c: Files, stages: seq<Stage>, i: nat)
    requires i < |stages| && SameBut(b, a, AllTouched(stages[..i])) && SameBut(c, b, Touched(stages[i]))
    ensures SameBut(c, a, AllTouched(stages[..i + 1]))
  {
    assert forall s :: s in stages[..i] ==> s in stages[..i + 1];
    assert stages[i] in stages[..i + 1];
    forall p | p !in AllTouched(stages[..i + 1])
      ensures p !in AllTouched(stages[..i]) && p !in Touched(stages[i])
    {
    }
  }

  /** The stages one after the other, stopping at the first that does not return. A second run right
      after a normal return changes nothing; and if nothing stands in its way, the run returns. */
  method RunArm(ws: Workspace, stages: seq<Stage>, manifest: Manifest, trouble: Trouble) returns (outcome: Outcome)
    requires WellFormed(stages) && Injective(ws.world) && MarkersTruthful(ws.files, Stamp(manifest).Keys, ws.world)
    modifies ws
    ensures MarkersTruthful(ws.files, Stamp(manifest).Keys, ws.world)
    ensures SameBut(ws.files, old(ws.files), AllTouched(stages))
    ensures outcome.Returned? ==> UpToDateUpTo(ws.files, stages, manifest, |stages|, ws.world)
    ensures outcome.Returned? ==> CompleteUpTo(ws.files, stages, manifest, |stages|, ws.world)
    ensures CompleteUpTo(old(ws.files), stages, manifest, |stages|, ws.world) ==>
            outcome.Returned? && ws.files == old(ws.files)
    ensures Smooth(stages, manifest, trouble, old(ws.steps), ws.world) && Supplied(old(ws.files), stages) ==>
            outcome.Returned?
  {
    for i := 0 to |stages|
      invariant MarkersTruthful(ws.files, Stamp(manifest).Keys, ws.world)
      invariant SameBut(ws.files, old(ws.files), AllTouched(stages[..i]))
      invariant UpToDateUpTo(ws.files, stages, manifest, i, ws.world)
                && CompleteUpTo(ws.files, stages, manifest, i, ws.world)
      invariant CompleteUpTo(old(ws.files), stages, manifest, |stages|, ws.world) ==> ws.files == old(ws.files)
      invariant Smooth(stages, manifest, trouble, old(ws.steps), ws.world) && Supplied(old(ws.files), stages) ==>
                  ws.steps >= old(ws.steps) - TotalSteps(stages[..i])
    {
      outcome := NextStage(ws, stages, i, manifest, trouble, old(ws.files), old(ws.steps));
      if !outcome.Returned? {
        assert forall s :: s in stages[..i + 1] ==> s in stages;
        return;
      }
    }
    assert stages[..|stages|] == stages;
    outcome := Returned;
  }

  method NextStage(ws: Workspace, stages: seq<Stage>, i: nat, manifest: Manifest, trouble: Trouble,
                   ghost first: Files, ghost budget: nat)
    returns (outcome: Outcome)
    requires i < |stages| && WellFormed(stages) && Injective(ws.world)
    requires MarkersTruthful(ws.files, Stamp(manifest).Keys, ws.world)
    requires SameBut(ws.files, first, AllTouched(stages[..i]))
    requires UpToDateUpTo(ws.files, stages, manifest, i, ws.world)
             && CompleteUpTo(ws.files, stages, manifest, i, ws.world)
    modifies ws
    ensures MarkersTruthful(ws.files, Stamp(manifest).Keys, ws.world)
    ensures SameBut(ws.files, first, AllTouched(stages[..i + 1]))
    ensures outcome.Returned? ==>
              UpToDateUpTo(ws.files, stages, manifest, i + 1, ws.world)
                && CompleteUpTo(ws.files, stages, manifest, i + 1, ws.world)
    ensures CompleteUpTo(old(ws.files), stages, manifest, |stages|, ws.world) ==>
            outcome.Returned? && ws.files == old(ws.files)
    ensures Smooth(stages, manifest, trouble, budget, ws.world) && Supplied(first, stages)
            && old(ws.steps) >= budget - TotalSteps(stages[..i]) ==>
              outcome.Returned? && ws.steps >= budget - TotalSteps(stages[..i + 1])
  {
    if Supplied(first, stages) {
      InputsAreThere(first, ws.files, stages, i, manifest, ws.world);
    }
    StepsAdd(stages, i);
    StepsGrow(stages, i + 1);
    assert stages[i] in stages;
    outcome := ws.RunStage(stages[i], manifest, trouble);
    TouchedByMore(first, old(ws.files), ws.files, stages, i);
    if outcome.Returned? {
      StageReturned(old(ws.files), ws.files, stages, i, manifest, ws.world);
    }
  }

  // ---------------------------------------------------------------- whole histories

  /** Between attempts anything may happen to the files, except that no new marker appears: every
      marker that is there was there before. */
  ghost predicate OnlyOldMarkers(before: Files, after: Files) {
    forall n :: Complete(n) in after && after[Complete(n)].Marker? ==>
                  Complete(n) in before && before[Complete(n)] == after[Complete(n)]
  }

  /** One attempt: what happened to the files before it, what it runs, and what goes wrong. */
  datatype Attempt = Attempt(meddle: Files -> Files, stages: seq<Stage>, manifest: Manifest, trouble: Trouble)

  ghost predicate Fair(a: Attempt, keys: set<string>) {
    WellFormed(a.stages) && Stamp(a.manifest).Keys == keys && forall files :: OnlyOldMarkers(files, a.meddle(files))
  }

  /** Nothing stands in the way of the attempt, whatever state it finds the directory in. */
  ghost predicate Clear(a: Attempt, w: World) {
    Smooth(a.stages, a.manifest, a.trouble, a.trouble.steps, w) && forall files :: Supplied(a.meddle(files), a.stages)
  }

  /** Any number of attempts in one directory, with commands and manifests changing from one to the
      next and the files meddled with in between: if the last one returns, and it does if nothing
      stands in its way, every output is what its command makes of the inputs. */
  method Restarts(ws: Workspace, attempts: seq<Attempt>, keys: set<string>) returns (outcome: Outcome)
    requires Injective(ws.world) && MarkersTruthful(ws.files, keys, ws.world)
    requires forall k :: 0 <= k < |attempts| ==> Fair(attempts[k], keys)
    modifies ws
    ensures MarkersTruthful(ws.files, keys, ws.world)
    ensures outcome.Returned? ==>
              && attempts != []
              && var last := attempts[|attempts| - 1];
                 UpToDateUpTo(ws.files, last.stages, last.manifest, |last.stages|, ws.world)
    ensures attempts != [] && Clear(attempts[|attempts| - 1], ws.world) ==> outcome.Returned?
  {
    outcome := Died;
    for k := 0 to |attempts|
      invariant MarkersTruthful(ws.files, keys, ws.world)
      invariant outcome.Returned? ==>
                  && k > 0
                  && UpToDateUpTo(ws.files, attempts[k - 1].stages, attempts[k - 1].manifest, |attempts[k - 1].stages|,
                                  ws.world)
      invariant k > 0 && Clear(attempts[k - 1], ws.world) ==> outcome.Returned?
    {
      var a := attempts[k];
      assert Fair(a, keys) && OnlyOldMarkers(ws.files, a.meddle(ws.files));
      ws.files := a.meddle(ws.files);
      ws.steps := a.trouble.steps;
      outcome := RunArm(ws, a.stages, a.manifest, a.trouble);
    }
  }

  /** Every input is an earlier stage's output or a file no stage makes. */
  ghost predicate Fed(stages: seq<Stage>, outside: set<Path>) {
    forall i, p :: 0 <= i < |stages| && p in Named(stages[i].inputs) ==>
      p in outside || MadeBefore(stages, i, p)
  }

  /** Two file systems in which every stage is up to date, however they came about, hold the same
      outputs if they hold the same outside files: a resumed run ends as an uninterrupted one. */
  lemma {:induction false} SameOutputsFromSameDataset(a: Files, b: Files, stages: seq<Stage>, manifest: Manifest,
                                                      outside: set<Path>, n: nat, w: World)
    requires n <= |stages| && Fed(stages, outside)
    requires UpToDateUpTo(a, stages, manifest, n, w) && UpToDateUpTo(b, stages, manifest, n, w)
    requires forall p :: p in outside ==> (p in a <==> p in b) && (p in a ==> a[p] == b[p])
    ensures forall i, p :: 0 <= i < n && p in Named(stages[i].outputs) ==> p in a && p in b && a[p] == b[p]
  {
    if n > 0 {
      SameOutputsFromSameDataset(a, b, stages, manifest, outside, n - 1, w);
      forall p | p in Named(stages[n - 1].inputs) ensures p in a <==> p in b
        ensures p in a ==> a[p] == b[p]
      {
        if p !in outside {
          assert MadeBefore(stages, n - 1, p);
          var j :| 0 <= j < n - 1 && p in Named(stages[j].outputs);
        }
      }
      SameOutputs(a, b, stages[n - 1], manifest, w);
    }
  }

  lemma SameOutputs(a: Files, b: Files, s: Stage, manifest: Manifest, w: World)
    requires UpToDate(a, s, manifest, w) && UpToDate(b, s, manifest, w)
    requires forall p :: p in Named(s.inputs) ==> (p in a <==> p in b) && (p in a ==> a[p] == b[p])
    ensures forall p :: p in Named(s.outputs) ==> p in a && p in b && a[p] == b[p]
  {
    assert Restrict(a, Named(s.inputs)) == Restrict(b, Named(s.inputs));
  }

  // ---------------------------------------------------------------- the arm

  datatype Mode = Raw | Extracted

  function Adapter(dataset: string, command: seq<string>): Stage {
    Stage("adapter", command, ["raw_prepared.json"], [dataset], false)
  }

  function Extract(command: seq<string>): Stage {
    Stage("extract", command,
          ["extracted_prepared.json", "artifacts/extraction_stats.json", "artifacts/run_metadata.json",
           "artifacts/prepared.json"],
          ["raw_prepared.json"], false)
  }

  /** The prepared memories that are indexed. */
  function Indexed(mode: Mode): string {
    if mode.Extracted? then "extracted_prepared.json" else "raw_prepared.json"
  }

  function Add(mode: Mode, store: string, command: seq<string>): Stage {
    Stage("add", command, [store], [Indexed(mode)], true)
  }

  function Search(mode: Mode, store: string, command: seq<string>): Stage {
    Stage("search", command, ["search_results.json"], [Indexed(mode), store], false)
  }

  function Retrieval(dataset: string, command: seq<string>): Stage {
    Stage("retrieval", command, ["retrieval_metrics.json", "retrieval_report.html"], [dataset, "search_results.json"],
          false)
  }

  function Answer(dataset: string, command: seq<string>): Stage {
    Stage("answer", command, ["responses.json", "responses_answer_stats.json"],
          [dataset, "raw_prepared.json", "search_results.json"], false)
  }

  function Judge(command: seq<string>): Stage {
    Stage("judge", command, ["judge_results.json"], ["responses.json"], false)
  }

  function Metrics(command: seq<string>): Stage {
    Stage("metrics", command, ["qa_metrics.json", "qa_report.html"], ["judge_results.json"], false)
  }

  /** The stages of one arm in order, with the files each reads and writes. Commands are looked up by
      stage; `dataset` and `store` are the two names the configuration chooses. */
  function ArmStages(mode: Mode, dataset: string, store: string, commands: string -> seq<string>): seq<Stage> {
    [Adapter(dataset, commands("adapter"))]
    + (if mode.Extracted? then [Extract(commands("extract"))] else [])
    + [Add(mode, store, commands("add")), Search(mode, store, commands("search")),
       Retrieval(dataset, commands("retrieval")), Answer(dataset, commands("answer")),
       Judge(commands("judge")), Metrics(commands("metrics"))]
  }

  /** A stage runs the command of its name, depends on what that command is given, and only the store,
      which cannot be overwritten, is cleaned before a rerun. */
  ghost predicate Wired(s: Stage, mode: Mode, dataset: string, store: string, commands: string -> seq<string>) {
    && s.command == commands(s.name)
    && (s.cleanOutputsOnRerun <==> s.name == "add")
    && (s.name in {"adapter", "retrieval", "answer"} ==> dataset in s.inputs)
    && (s.name == "add" ==> store in s.outputs) && (s.name == "search" ==> store in s.inputs)
    && (s.name in {"add", "search"} ==> Indexed(mode) in s.inputs)
    && (s.name in {"extract", "answer"} ==> "raw_prepared.json" in s.inputs)
    && (s.name in {"retrieval", "answer"} ==> "search_results.json" in s.inputs)
    && (s.name == "judge" ==> "responses.json" in s.inputs)
    && (s.name == "metrics" ==> "judge_results.json" in s.inputs)
  }

  lemma StagesAreWired(mode: Mode, dataset: string, store: string, commands: string -> seq<string>)
    ensures Wired(Adapter(dataset, commands("adapter")), mode, dataset, store, commands)
    ensures Wired(Extract(commands("extract")), mode, dataset, store, commands)
    ensures Wired(Add(mode, store, commands("add")), mode, dataset, store, commands)
    ensures Wired(Search(mode, store, commands("search")), mode, dataset, store, commands)
    ensures Wired(Retrieval(dataset, commands("retrieval")), mode, dataset, store, commands)
    ensures Wired(Answer(dataset, commands("answer")), mode, dataset, store, commands)
    ensures Wired(Judge(commands("judge")), mode, dataset, store, commands)
    ensures Wired(Metrics(commands("metrics")), mode, dataset, store, commands)
  {
  }

  /** Every arm has these stages, in this order, and each is wired to the ones before it. */
  lemma ArmIsWired(mode: Mode, dataset: string, store: string, commands: string -> seq<string>, i: nat)
    requires i < |ArmStages(mode, dataset, store, commands)|
    ensures Wired(ArmStages(mode, dataset, store, commands)[i], mode, dataset, store, commands)
    ensures |ArmStages(mode, dataset, store, commands)| == if mode.Extracted? then 8 else 7
    ensures ArmStages(mode, dataset, store, commands)[i].name
            == ["adapter", "extract", "add", "search", "retrieval", "answer", "judge", "metrics"]
               [if mode.Raw? && i > 0 then i + 1 else i]
  {
    StagesAreWired(mode, dataset, store, commands);
  }

  const ARM_FILES: set<string> := {
    "raw_prepared.json", "extracted_prepared.json", "artifacts/extraction_stats.json", "artifacts/run_metadata.json",
    "artifacts/prepared.json", "search_results.json", "retrieval_metrics.json", "retrieval_report.html",
    "responses.json",
    "responses_answer_stats.json", "judge_results.json", "qa_metrics.json", "qa_report.html"}

  /** The place of each stage in the extracted arm. */
  function Rank(stage: string): nat {
    if stage == "adapter" then 0 else if stage == "extract" then 1 else if stage == "add" then 2
    else if stage == "search" then 3 else if stage == "retrieval" then 4 else if stage == "answer" then 5
    else if stage == "judge" then 6 else if stage == "metrics" then 7 else 8
  }

  /** The place of the stage that writes a file; 9 for files no stage writes. */
  function Writer(name: string, store: string): nat {
    if name == store then 2
    else if name == "raw_prepared.json" then 0
    else if name in {"extracted_prepared.json", "artifacts/extraction_stats.json", "artifacts/run_metadata.json",
                     "artifacts/prepared.json"} then 1
    else if name == "search_results.json" then 3
    else if name in {"retrieval_metrics.json", "retrieval_report.html"} then 4
    else if name in {"responses.json", "responses_answer_stats.json"} then 5
    else if name == "judge_results.json" then 6
    else if name in {"qa_metrics.json", "qa_report.html"} then 7
    else 9
  }

  /** A stage writes exactly the files of its place, and reads only the dataset and files of earlier
      places that the arm has. */
  ghost predicate Placed(s: Stage, mode: Mode, dataset: string, store: string) {
    && s.outputs != [] && Rank(s.name) < 8
    && (forall n :: n in s.outputs <==> Writer(n, store) == Rank(s.name))
    && (forall n :: n in s.inputs ==>
          || n == dataset
          || (Writer(n, store) < Rank(s.name) && (mode.Raw? ==> Writer(n, store) != 1)))
  }

  lemma TouchedApart(s: Stage, t: Stage)
    requires s.name != t.name && forall n :: n in s.outputs ==> n !in t.outputs
    ensures Touched(s) !! Touched(t)
  {
  }

  lemma InputsApart(s: Stage, t: Stage)
    requires forall n :: n in s.inputs ==> n !in t.outputs
    ensures Named(s.inputs) !! Touched(t)
  {
  }

  lemma PlacedApart(s: Stage, t: Stage, mode: Mode, dataset: string, store: string)
    requires Placed(s, mode, dataset, store) && Placed(t, mode, dataset, store) && Writer(dataset, store) == 9
    requires Rank(s.name) <= Rank(t.name)
    ensures Rank(s.name) < Rank(t.name) ==> Touched(s) !! Touched(t)
    ensures Named(s.inputs) !! Touched(t)
  {
    assert forall n :: n in s.inputs ==> n !in t.outputs;
    InputsApart(s, t);
    if Rank(s.name) < Rank(t.name) {
      assert forall n :: n in s.outputs ==> n !in t.outputs;
      TouchedApart(s, t);
    }
  }

  lemma FirstStagesArePlaced(mode: Mode, dataset: string, store: string, command: seq<string>)
    requires dataset !in ARM_FILES && store !in ARM_FILES && dataset != store
    ensures Placed(Adapter(dataset, command), mode, dataset, store)
    ensures Placed(Extract(command), mode, dataset, store)
  {
  }

  lemma StoreStagesArePlaced(mode: Mode, dataset: string, store: string, command: seq<string>)
    requires dataset !in ARM_FILES && store !in ARM_FILES && dataset != store
    ensures Placed(Add(mode, store, command), mode, dataset, store)
    ensures Placed(Search(mode, store, command), mode, dataset, store)
  {
  }

  lemma ResultStagesArePlaced(mode: Mode, dataset: string, store: string, command: seq<string>)
    requires dataset !in ARM_FILES && store !in ARM_FILES && dataset != store
    ensures Placed(Retrieval(dataset, command), mode, dataset, store)
    ensures Placed(Answer(dataset, command), mode, dataset, store)
  {
  }

  lemma LastStagesArePlaced(mode: Mode, dataset: string, store: string, command: seq<string>)
    requires dataset !in ARM_FILES && store !in ARM_FILES && dataset != store
    ensures Placed(Judge(command), mode, dataset, store)
    ensures Placed(Metrics(command), mode, dataset, store)
  {
  }

  function Place(mode: Mode, i: nat): nat {
    if mode.Raw? && i > 0 then i + 1 else i
  }

  lemma ArmStagesArePlaced(mode: Mode, dataset: string, store: string, commands: string -> seq<string>, i: nat)
    requires dataset !in ARM_FILES && store !in ARM_FILES && dataset != store
    requires i < |ArmStages(mode, dataset, store, commands)|
    ensures var s := ArmStages(mode, dataset, store, commands)[i];
            Placed(s, mode, dataset, store) && Rank(s.name) == Place(mode, i)
  {
    var s := ArmStages(mode, dataset, store, commands)[i];
    FirstStagesArePlaced(mode, dataset, store, s.command);
    StoreStagesArePlaced(mode, dataset, store, s.command);
    ResultStagesArePlaced(mode, dataset, store, s.command);
    LastStagesArePlaced(mode, dataset, store, s.command);
  }

  lemma ArmPairApart(mode: Mode, dataset: string, store: string, commands: string -> seq<string>, i: nat, j: nat)
    requires dataset !in ARM_FILES && store !in ARM_FILES && dataset != store
    requires i <= j < |ArmStages(mode, dataset, store, commands)|
    ensures var stages := ArmStages(mode, dataset, store, commands);
            (i < j ==> Touched(stages[i]) !! Touched(stages[j])) && Named(stages[i].inputs) !! Touched(stages[j])
  {
    var stages := ArmStages(mode, dataset, store, commands);
    ArmStagesArePlaced(mode, dataset, store, commands, i);
    ArmStagesArePlaced(mode, dataset, store, commands, j);
    PlacedApart(stages[i], stages[j], mode, dataset, store);
  }

  /** The arm's stages keep apart. */
  lemma ArmIsWellFormed(mode: Mode, dataset: string, store: string, commands: string -> seq<string>)
    requires dataset !in ARM_FILES && store !in ARM_FILES && dataset != store
    ensures WellFormed(ArmStages(mode, dataset, store, commands))
  {
    var stages := ArmStages(mode, dataset, store, commands);
    forall i | 0 <= i < |stages| ensures Separate(stages[i]) {
      ArmStagesArePlaced(mode, dataset, store, commands, i);
      ArmPairApart(mode, dataset, store, commands, i, i);
    }
    forall i, j | 0 <= i < j < |stages|
      ensures Touched(stages[i]) !! Touched(stages[j]) && Named(stages[i].inputs) !! Touched(stages[j])
    {
      ArmPairApart(mode, dataset, store, commands, i, j);
    }
  }

  lemma StageAtPlace(mode: Mode, dataset: string, store: string, commands: string -> seq<string>, n: string)
    returns (j: nat)
    requires dataset !in ARM_FILES && store !in ARM_FILES && dataset != store
    requires Writer(n, store) < 8 && (mode.Raw? ==> Writer(n, store) != 1)
    ensures j < |ArmStages(mode, dataset, store, commands)| && Place(mode, j) == Writer(n, store)
    ensures n in ArmStages(mode, dataset, store, commands)[j].outputs
  {
    var r := Writer(n, store);
    j := if mode.Raw? && r > 0 then r - 1 else r;
    ArmStagesArePlaced(mode, dataset, store, commands, j);
  }

  /** Each stage is fed by the dataset and by earlier stages. */
  lemma ArmIsFed(mode: Mode, dataset: string, store: string, commands: string -> seq<string>)
    requires dataset !in ARM_FILES && store !in ARM_FILES && dataset != store
    ensures Fed(ArmStages(mode, dataset, store, commands), {File(dataset)})
  {
    var stages := ArmStages(mode, dataset, store, commands);
    forall i, p | 0 <= i < |stages| && p in Named(stages[i].inputs)
      ensures p in {File(dataset)} || MadeBefore(stages, i, p)
    {
      ArmStagesArePlaced(mode, dataset, store, commands, i);
      if p != File(dataset) {
        var j := StageAtPlace(mode, dataset, store, commands, p.name);
        assert Place(mode, j) < Place(mode, i);
        assert p in Named(stages[j].outputs);
      }
    }
  }

  /** The files agree on every output of every stage. */
  ghost predicate SameResults(a: Files, b: Files, stages: seq<Stage>) {
    forall i, p :: 0 <= i < |stages| && p in Named(stages[i].outputs) ==> p in a && p in b && a[p] == b[p]
  }

  /** One directory in which the arm was restarted over and over, and a clean one in which it runs
      once: if both return, from the same dataset, they hold the same results. The clean run returns if
      nothing stands in its way, and so does the last of the others. */
  method RestartedAsUninterrupted(ws: Workspace, clean: Workspace, attempts: seq<Attempt>, trouble: Trouble,
                                  mode: Mode, dataset: string, store: string,
                                  commands: string -> seq<string>, manifest: Manifest)
    returns (restarted: Outcome, once: Outcome)
    requires ws != clean && clean.world == ws.world && Injective(ws.world)
    requires MarkersTruthful(ws.files, Stamp(manifest).Keys, ws.world) && forall n :: Complete(n) !in clean.files
    requires dataset !in ARM_FILES && store !in ARM_FILES && dataset != store
    requires forall k :: 0 <= k < |attempts| ==> Fair(attempts[k], Stamp(manifest).Keys)
    requires attempts != [] && attempts[|attempts| - 1].manifest == manifest
    requires attempts[|attempts| - 1].stages == ArmStages(mode, dataset, store, commands)
    modifies ws, clean
    ensures var data := File(dataset);
            restarted.Returned? && once.Returned? && data in ws.files && data in clean.files
              && ws.files[data] == clean.files[data] ==>
              SameResults(ws.files, clean.files, ArmStages(mode, dataset, store, commands))
    ensures File(dataset) in old(clean.files)
            && Smooth(ArmStages(mode, dataset, store, commands), manifest, trouble, old(clean.steps), ws.world) ==>
              once.Returned?
    ensures Clear(attempts[|attempts| - 1], ws.world) ==> restarted.Returned?
  {
    ArmIsWellFormed(mode, dataset, store, commands);
    ArmIsFed(mode, dataset, store, commands);
    ArmIsSupplied(clean.files, mode, dataset, store, commands);
    var stages := ArmStages(mode, dataset, store, commands);
    restarted, once := ResumedAndOnce(ws, clean, attempts, trouble, stages, manifest, File(dataset));
  }

  method ResumedAndOnce(ws: Workspace, clean: Workspace, attempts: seq<Attempt>, trouble: Trouble, stages: seq<Stage>,
                        manifest: Manifest, data: Path)
    returns (restarted: Outcome, once: Outcome)
    requires ws != clean && clean.world == ws.world && Injective(ws.world)
    requires MarkersTruthful(ws.files, Stamp(manifest).Keys, ws.world) && forall n :: Complete(n) !in clean.files
    requires WellFormed(stages) && Fed(stages, {data})
    requires forall k :: 0 <= k < |attempts| ==> Fair(attempts[k], Stamp(manifest).Keys)
    requires attempts != [] && attempts[|attempts| - 1].manifest == manifest
             && attempts[|attempts| - 1].stages == stages
    modifies ws, clean
    ensures restarted.Returned? && once.Returned? && data in ws.files && data in clean.files
            && ws.files[data] == clean.files[data] ==>
              SameResults(ws.files, clean.files, stages)
    ensures Supplied(old(clean.files), stages) && Smooth(stages, manifest, trouble, old(clean.steps), ws.world) ==>
            once.Returned?
    ensures Clear(attempts[|attempts| - 1], ws.world) ==> restarted.Returned?
  {
    restarted := Restarts(ws, attempts, Stamp(manifest).Keys);
    ghost var there := ws.files;
    once := RunArm(clean, stages, manifest, trouble);
    assert ws.files == there;
    AgreeOnResults(ws.files, clean.files, stages, manifest, data, ws.world);
  }

  lemma AgreeOnResults(a: Files, b: Files, stages: seq<Stage>, manifest: Manifest, data: Path, w: World)
    requires Fed(stages, {data})
    ensures data in a && data in b && a[data] == b[data]
            && UpToDateUpTo(a, stages, manifest, |stages|, w) && UpToDateUpTo(b, stages, manifest, |stages|, w) ==>
              SameResults(a, b, stages)
  {
    if data in a && data in b && a[data] == b[data]
       && UpToDateUpTo(a, stages, manifest, |stages|, w) && UpToDateUpTo(b, stages, manifest, |stages|, w)
    {
      SameOutputsFromSameDataset(a, b, stages, manifest, {data}, |stages|, w);
    }
  }

  /** The dataset is all the arm needs. */
  lemma ArmIsSupplied(files: Files, mode: Mode, dataset: string, store: string, commands: string -> seq<string>)
    requires dataset !in ARM_FILES && store !in ARM_FILES && dataset != store
    ensures File(dataset) in files ==> Supplied(files, ArmStages(mode, dataset, store, commands))
  {
    ArmIsFed(mode, dataset, store, commands);
    var stages := ArmStages(mode, dataset, store, commands);
    forall i: nat, p | i < |stages| && p in Named(stages[i].inputs) && !MadeBefore(stages, i, p)
      ensures p == File(dataset)
    {
    }
  }
}
