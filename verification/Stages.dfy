/** Resumable pipeline stages: a stage is skipped when its completion marker still matches its
    command, inputs and outputs, and otherwise run again; the process may die between any two
    changes to the file system. */
module Stages {

  /** Files by name, the two files SQLite keeps beside a database, a stage's completion marker, and
      the temporary file a marker is renamed from. */
  datatype Path =
    | File(name: string)
    | Shm(name: string)
    | Wal(name: string)
    | Complete(stage: string)
    | CompleteTemp(stage: string)

  type Digest = string

  datatype Record = Record(
    stage: string, manifest: Manifest, commandHash: Digest,
    inputs: map<Path, Digest>, outputs: map<Path, Digest>)

  datatype Content = Bytes(text: string) | Marker(record: Record)

  type Files = map<Path, Content>

  /** `inputs` and `outputs` are file names. */
  datatype Stage = Stage(
    name: string, command: seq<string>, outputs: seq<string>, inputs: seq<string>, cleanOutputsOnRerun: bool)

  type Manifest = map<string, string>

  /** The world outside: two hash functions, and what a command writes when it succeeds, as a
      function of its arguments, of the manifest it runs under (which names the implementation and
      the configuration) and of the contents of its declared inputs. */
  datatype World = World(
    hashFile: Content -> Digest,
    hashCommand: seq<string> -> Digest,
    results: (seq<string>, Manifest, map<Path, Content>) -> map<Path, Content>)

  ghost predicate Injective(w: World) {
    && (forall a: Content, b: Content :: w.hashFile(a) == w.hashFile(b) ==> a == b)
    && (forall c: seq<string>, d: seq<string> :: w.hashCommand(c) == w.hashCommand(d) ==> c == d)
  }

  function Named(names: seq<string>): set<Path> {
    set n | n in names :: File(n)
  }

  function MarkerOf(s: Stage): Path {
    Complete(s.name)
  }

  /** Everything running the stage may change. */
  function Touched(s: Stage): set<Path> {
    Named(s.outputs) + (set n | n in s.outputs :: Shm(n)) + (set n | n in s.outputs :: Wal(n))
    + {Complete(s.name), CompleteTemp(s.name)}
  }

  function Restrict(files: Files, paths: set<Path>): Files {
    map p | p in files && p in paths :: files[p]
  }

  function Hashed(files: Files, w: World): map<Path, Digest> {
    map p | p in files :: w.hashFile(files[p])
  }

  predicate AllPresent(files: Files, paths: set<Path>) {
    paths <= files.Keys
  }

  // ---------------------------------------------------------------- markers

  /** What a marker records of the manifest: three of its keys are overwritten. */
  function Stamp(manifest: Manifest): Manifest {
    manifest - {"stage", "command_hash", "inputs"}
  }

  function Expected(s: Stage, manifest: Manifest, files: Files, w: World): Record {
    Record(s.name, Stamp(manifest), w.hashCommand(s.command), Hashed(Restrict(files, Named(s.inputs)), w), map[])
  }

  /** The marker is there, agrees with everything expected, and names the outputs as they are. */
  predicate IsComplete(files: Files, s: Stage, expected: Record, w: World) {
    && MarkerOf(s) in files && AllPresent(files, Named(s.outputs))
    && files[MarkerOf(s)].Marker?
    && Matches(files, s, files[MarkerOf(s)].record, expected, w)
  }

  predicate Matches(files: Files, s: Stage, record: Record, expected: Record, w: World)
    requires AllPresent(files, Named(s.outputs))
  {
    && record.stage == expected.stage
    && (forall k :: k in expected.manifest ==> k in record.manifest && record.manifest[k] == expected.manifest[k])
    && record.commandHash == expected.commandHash
    && record.inputs == expected.inputs
    && forall n :: n in s.outputs ==> File(n) in record.outputs && record.outputs[File(n)] == w.hashFile(files[File(n)])
  }

  /** A marker tells the truth: for some command and some input contents it names, its output
      hashes are those of what the command made of them under the manifest it names. */
  ghost predicate Truthful(record: Record, w: World) {
    exists command: seq<string>, inputs: map<Path, Content> :: Witnessed(record, command, inputs, w)
  }

  ghost predicate Witnessed(record: Record, command: seq<string>, inputs: map<Path, Content>, w: World) {
    && w.hashCommand(command) == record.commandHash
    && Hashed(inputs, w) == record.inputs
    && (forall p :: p in record.outputs ==>
          && p in w.results(command, record.manifest, inputs)
          && w.hashFile(w.results(command, record.manifest, inputs)[p]) == record.outputs[p])
  }

  /** Only `run_stage` writes markers, and always under manifests with the same keys: whatever else
      happened to the files, a marker that is there is truthful. A marker that is missing or
      unreadable is no matter. */
  ghost predicate MarkersTruthful(files: Files, keys: set<string>, w: World) {
    forall n :: Complete(n) in files && files[Complete(n)].Marker? ==> Honest(files[Complete(n)].record, keys, w)
  }

  ghost predicate Honest(record: Record, keys: set<string>, w: World) {
    Truthful(record, w) && record.manifest.Keys == keys
  }

  /** The outputs are what the command makes of the inputs as they are. */
  ghost predicate UpToDate(files: Files, s: Stage, manifest: Manifest, w: World) {
    var inputs := Restrict(files, Named(s.inputs));
    var made := w.results(s.command, Stamp(manifest), inputs);
    && AllPresent(files, Named(s.inputs)) && AllPresent(files, Named(s.outputs))
    && forall n :: n in s.outputs ==> File(n) in made && files[File(n)] == made[File(n)]
  }

  lemma HashedIsInjective(a: Files, b: Files, w: World)
    requires Injective(w) && Hashed(a, w) == Hashed(b, w)
    ensures a == b
  {
    assert a.Keys == Hashed(a, w).Keys && b.Keys == Hashed(b, w).Keys;
    forall p | p in a ensures a[p] == b[p] {
      assert Hashed(a, w)[p] == Hashed(b, w)[p];
    }
  }

  /** A resume hit is never wrong: a truthful marker that matches means up-to-date outputs. */
  lemma CompleteIsUpToDate(files: Files, s: Stage, manifest: Manifest, w: World)
    requires Injective(w) && AllPresent(files, Named(s.inputs))
    requires IsComplete(files, s, Expected(s, manifest, files, w), w)
    requires Honest(files[MarkerOf(s)].record, Stamp(manifest).Keys, w)
    ensures UpToDate(files, s, manifest, w)
  {
    var record := files[MarkerOf(s)].record;
    assert record.manifest == Stamp(manifest);
    var command: seq<string>, inputs: map<Path, Content> :| Witnessed(record, command, inputs, w);
    HashedIsInjective(inputs, Restrict(files, Named(s.inputs)), w);
  }

  /** What the check notices: given the marker of a stage that was complete, a later check is a hit
      exactly if the command, its inputs, the outputs and everything the manifest still names are as
      they were. Whether the stage cleans up, and all other files, do not matter. */
  lemma ChangesAreNoticed(a: Files, b: Files, s: Stage, t: Stage, m: Manifest, n: Manifest, w: World)
    requires Injective(w) && t.name == s.name && t.outputs == s.outputs
    requires IsComplete(a, s, Expected(s, m, a, w), w)
    requires MarkerOf(s) in b && b[MarkerOf(s)] == a[MarkerOf(s)]
    ensures IsComplete(b, t, Expected(t, n, b, w), w) <==>
            && t.command == s.command
            && Restrict(b, Named(t.inputs)) == Restrict(a, Named(s.inputs))
            && Restrict(b, Named(t.outputs)) == Restrict(a, Named(s.outputs))
            && forall k :: k in n && k !in {"stage", "command_hash", "inputs"} ==>
                             WrittenUnder(a[MarkerOf(s)].record, k, n[k])
    ensures forall k :: k in m && k !in {"stage", "command_hash", "inputs"} ==>
                          WrittenUnder(a[MarkerOf(s)].record, k, m[k])
  {
    if Hashed(Restrict(b, Named(t.inputs)), w) == Hashed(Restrict(a, Named(s.inputs)), w) {
      HashedIsInjective(Restrict(b, Named(t.inputs)), Restrict(a, Named(s.inputs)), w);
    }
    if AllPresent(b, Named(t.outputs)) {
      OutputsMatchIff(a, b, s.outputs, a[MarkerOf(s)].record.outputs, w);
    } else {
      assert Restrict(a, Named(s.outputs)).Keys == Named(s.outputs);
    }
  }

  ghost predicate WrittenUnder(record: Record, key: string, value: string) {
    key in record.manifest && record.manifest[key] == value
  }

  lemma OutputsMatchIff(a: Files, b: Files, outputs: seq<string>, hashes: map<Path, Digest>, w: World)
    requires Injective(w) && AllPresent(a, Named(outputs)) && AllPresent(b, Named(outputs))
    requires forall n :: n in outputs ==> File(n) in hashes && hashes[File(n)] == w.hashFile(a[File(n)])
    ensures (forall n :: n in outputs ==> hashes[File(n)] == w.hashFile(b[File(n)]))
            <==> Restrict(b, Named(outputs)) == Restrict(a, Named(outputs))
  {
    if Restrict(b, Named(outputs)) == Restrict(a, Named(outputs)) {
      forall n | n in outputs ensures b[File(n)] == a[File(n)] {
        assert Restrict(b, Named(outputs))[File(n)] == Restrict(a, Named(outputs))[File(n)];
      }
    }
  }

  /** The check compares the expected keys only, so a key the manifest no longer has goes unnoticed.
      A matching marker vouches for the outputs, whatever the commands compute, exactly if it was
      written under the same keys. */
  lemma HitIsRightExactlyWithSameKeys(files: Files, s: Stage, manifest: Manifest, w: World)
    requires Injective(w) && AllPresent(files, Named(s.inputs)) && s.outputs != []
    requires IsComplete(files, s, Expected(s, manifest, files, w), w)
    requires files[MarkerOf(s)].record.outputs.Keys == Named(s.outputs)
    ensures (forall results :: Truthful(files[MarkerOf(s)].record, w.(results := results)) ==>
                               UpToDate(files, s, manifest, w.(results := results)))
            <==> files[MarkerOf(s)].record.manifest.Keys == Stamp(manifest).Keys
  {
    var record := files[MarkerOf(s)].record;
    if record.manifest.Keys == Stamp(manifest).Keys {
      forall results | Truthful(record, w.(results := results))
        ensures UpToDate(files, s, manifest, w.(results := results))
      {
        CompleteIsUpToDate(files, s, manifest, w.(results := results));
      }
    } else {
      var made := Restrict(files, Named(s.outputs));
      var onlyUnder := (command: seq<string>, m: Manifest, inputs: map<Path, Content>) =>
        if m == record.manifest then made else map[];
      var w' := w.(results := onlyUnder);
      forall p | p in record.outputs ensures p in made && w.hashFile(made[p]) == record.outputs[p] {
        var n :| n in s.outputs && File(n) == p;
      }
      assert Witnessed(record, s.command, Restrict(files, Named(s.inputs)), w');
      assert s.outputs[0] in s.outputs;
      assert !UpToDate(files, s, manifest, w');
    }
  }

  /** An input on which it is wrong, whatever the hashes: the marker was written under a manifest that
      names a model, the manifest does not any more, and the command would now make something else. */
  lemma HitUnderLostKey(w: World) returns (files: Files, s: Stage, w': World)
    requires Injective(w)
    ensures w' == w.(results := w'.results) && s.outputs != [] && s.inputs == []
    ensures IsComplete(files, s, Expected(s, map[], files, w'), w') && Truthful(files[MarkerOf(s)].record, w')
    ensures files[MarkerOf(s)].record.manifest == map["model" := "m"]
    ensures !UpToDate(files, s, map[], w')
  {
    var out, old_, new_ := File("out"), map[File("out") := Bytes("old")], map[File("out") := Bytes("new")];
    var results := (command: seq<string>, m: Manifest, inputs: map<Path, Content>) =>
      if m == map["model" := "m"] then old_ else new_;
    s, w' := Stage("s", [], ["out"], [], false), w.(results := results);
    var record := Record("s", map["model" := "m"], w.hashCommand([]), map[], map[out := w.hashFile(Bytes("old"))]);
    files := map[out := Bytes("old"), Complete("s") := Marker(record)];
    assert Hashed(map[], w') == map[] && Restrict(files, Named(s.inputs)) == map[];
    assert Witnessed(record, [], map[], w');
    var none: Manifest := map[];
    assert Stamp(none) == none && "model" !in none;
    assert w'.results(s.command, Stamp(none), Restrict(files, Named(s.inputs))) == new_;
    assert "out" in s.outputs && files[out] == Bytes("old") && new_[out] == Bytes("new");
  }

  // ---------------------------------------------------------------- one stage

  function ResidueOf(outputs: seq<string>): set<Path> {
    Named(outputs) + (set n | n in outputs :: Shm(n)) + (set n | n in outputs :: Wal(n))
  }

  /** What earlier attempts may have left: the outputs, and the two files SQLite keeps beside each. */
  function Residue(s: Stage): set<Path> {
    ResidueOf(s.outputs)
  }

  lemma OneMoreResidue(outputs: seq<string>, i: nat)
    requires i < |outputs|
    ensures var n := outputs[i]; ResidueOf(outputs[..i + 1]) == ResidueOf(outputs[..i]) + {File(n), Shm(n), Wal(n)}
  {
    assert outputs[..i + 1] == outputs[..i] + [outputs[i]];
  }

  /** What there is when the process dies at output `i`, or goes on to the next. */
  lemma RemoveThree(files: Files, s: Stage, i: nat)
    requires i < |s.outputs|
    ensures var n, left := s.outputs[i], files - ResidueOf(s.outputs[..i]);
            && SameBut(left, files, Residue(s)) && SameBut(left - {File(n)}, files, Residue(s))
            && SameBut(left - {File(n)} - {Shm(n)}, files, Residue(s))
            && left - {File(n)} - {Shm(n)} - {Wal(n)} == files - ResidueOf(s.outputs[..i + 1])
  {
    var n, gone := s.outputs[i], ResidueOf(s.outputs[..i]);
    OneMoreResidue(s.outputs, i);
    assert {File(n), Shm(n), Wal(n)} <= Residue(s) && gone <= Residue(s);
    OneByOne(files, gone, File(n), Shm(n), Wal(n));
  }

  lemma OneByOne(files: Files, gone: set<Path>, a: Path, b: Path, c: Path)
    ensures files - gone - {a} - {b} - {c} == files - (gone + {a, b, c})
  {
  }

  lemma AfreshIf(s: Stage, before: Files, found: Files, after: Files)
    requires found == before - {MarkerOf(s)} - (if s.cleanOutputsOnRerun then Residue(s) else {})
    requires SameBut(after, found, Named(s.outputs) + {Complete(s.name), CompleteTemp(s.name)})
    ensures RanAfresh(s, before, found, after)
  {
    if s.cleanOutputsOnRerun {
      forall n | n in s.outputs ensures Shm(n) !in after && Wal(n) !in after {
        assert Shm(n) in Residue(s) && Wal(n) in Residue(s);
        assert Shm(n) !in found && Wal(n) !in found;
      }
    }
  }

  /** The command of a stage that ran from `before` found the files in `found`: its marker gone, and its
      residue if it is to be cleaned, and all else as it was. None of a cleaned stage's SQLite files
      stands beside its outputs in `after`. */
  ghost predicate RanAfresh(s: Stage, before: Files, found: Files, after: Files) {
    && found == before - {MarkerOf(s)} - (if s.cleanOutputsOnRerun then Residue(s) else {})
    && (s.cleanOutputsOnRerun ==> forall n :: n in s.outputs ==> Shm(n) !in after && Wal(n) !in after)
  }

  datatype Outcome = Returned | Raised | Died

  /** What goes wrong in one attempt: the process dies before its file-system change number `steps`;
      the commands of the stages in `failing` exit with an error; and a command that is cut short
      or fails leaves `debris` at its outputs, or nothing where `debris` has nothing. */
  datatype Trouble = Trouble(steps: nat, failing: set<string>, debris: map<Path, Content>)

  /** The file-system changes of a stage that runs: the marker goes, three files for each output if they
      are to be cleaned, the command, and the new marker in two. */
  function StepsOf(s: Stage): nat {
    4 + if s.cleanOutputsOnRerun then 3 * |s.outputs| else 0
  }

  /** The command makes all the outputs, whatever the inputs hold. */
  ghost predicate Works(s: Stage, manifest: Manifest, w: World) {
    forall inputs: Files :: inputs.Keys == Named(s.inputs) ==>
                              Named(s.outputs) <= w.results(s.command, Stamp(manifest), inputs).Keys
  }

  ghost predicate Untroubled(s: Stage, manifest: Manifest, trouble: Trouble, w: World) {
    s.name !in trouble.failing && Works(s, manifest, w)
  }

  /** A stage does not touch its own inputs, and its own files are distinct. */
  ghost predicate Separate(s: Stage) {
    s.outputs != [] && Named(s.inputs) !! Touched(s)
  }

  /** The two file systems differ only within `paths`. */
  ghost predicate SameBut(a: Files, b: Files, paths: set<Path>) {
    forall p :: p !in paths ==> (p in a <==> p in b) && (p in a ==> a[p] == b[p])
  }

  lemma InputsKept(a: Files, b: Files, s: Stage)
    requires Separate(s) && SameBut(a, b, Touched(s))
    ensures Restrict(a, Named(s.inputs)) == Restrict(b, Named(s.inputs))
    ensures AllPresent(a, Named(s.inputs)) <==> AllPresent(b, Named(s.inputs))
    ensures forall m, w :: Expected(s, m, a, w) == Expected(s, m, b, w)
  {
    assert forall p :: p in Named(s.inputs) ==> p !in Touched(s);
    assert Restrict(a, Named(s.inputs)) == Restrict(b, Named(s.inputs));
  }

  /** The files after the command: its outputs replaced by its result. */
  function Ran(files: Files, s: Stage, manifest: Manifest, w: World): Files {
    (files - Named(s.outputs))
    + Restrict(w.results(s.command, Stamp(manifest), Restrict(files, Named(s.inputs))), Named(s.outputs))
  }

  lemma CommandMakes(before: Files, made: Files, s: Stage, manifest: Manifest, w: World)
    requires AllPresent(before, Named(s.inputs)) && made == Ran(before, s, manifest, w)
    ensures AllPresent(made, Named(s.outputs)) ==> Makes(before, made, s, manifest, w)
    ensures Works(s, manifest, w) ==> AllPresent(made, Named(s.outputs))
  {
    var inputs := Restrict(before, Named(s.inputs));
    assert inputs.Keys == Named(s.inputs);
    forall p | p in Named(s.outputs) ensures p in made <==> p in w.results(s.command, Stamp(manifest), inputs) {
    }
  }

  class Workspace {
    var files: Files
    // file-system changes left before the process dies
    var steps: nat
    // the files as the last command found them
    ghost var found: Files
    const world: World

    constructor (files: Files, w: World)
      ensures this.files == files && world == w
    {
      this.files, steps, found, world := files, 0, map[], w;
    }

    /** One file-system change, unless the process dies first. */
    method Change(changed: Files) returns (died: bool)
      modifies this`files, this`steps
      ensures died <==> old(steps) == 0
      ensures died ==> files == old(files)
      ensures !died ==> files == changed && steps == old(steps) - 1
    {
      died := steps == 0;
      if !died {
        steps := steps - 1;
        files := changed;
      }
    }

    /** Remove each output and the two files SQLite keeps beside it. */
    method CleanOutputs(s: Stage) returns (died: bool)
      modifies this`files, this`steps
      ensures SameBut(files, old(files), Residue(s))
      ensures !died ==> files == old(files) - Residue(s)
      ensures old(steps) >= 3 * |s.outputs| ==> !died && steps == old(steps) - 3 * |s.outputs|
    {
      for i := 0 to |s.outputs|
        invariant files == old(files) - ResidueOf(s.outputs[..i])
        invariant steps == old(steps) - 3 * i
      {
        var n := s.outputs[i];
        RemoveThree(old(files), s, i);
        died := Change(files - {File(n)});
        if died { return; }
        died := Change(files - {Shm(n)});
        if died { return; }
        died := Change(files - {Wal(n)});
        if died { return; }
      }
      assert s.outputs[..|s.outputs|] == s.outputs;
      died := false;
    }

    /** Run the command. It writes only its declared outputs; if it succeeds they are its result. */
    method RunCommand(s: Stage, manifest: Manifest, trouble: Trouble) returns (outcome: Outcome)
      modifies this
      ensures found == old(files)
      ensures SameBut(files, old(files), Named(s.outputs))
      ensures outcome.Returned? <==> old(steps) > 0 && s.name !in trouble.failing
      ensures outcome.Returned? ==> steps == old(steps) - 1
      ensures outcome.Returned? ==> files == Ran(old(files), s, manifest, world)
    {
      found := files;
      if steps == 0 || s.name in trouble.failing {
        files := (files - Named(s.outputs)) + Restrict(trouble.debris, Named(s.outputs));
        return if steps == 0 then Died else Raised;
      }
      steps := steps - 1;
      files := Ran(files, s, manifest, world);
      outcome := Returned;
    }

    /** Write the marker beside its place, then rename it there. */
    method WriteMarker(s: Stage, record: Record) returns (died: bool)
      modifies this`files, this`steps
      ensures SameBut(files, old(files), if died then {CompleteTemp(s.name)}
                      else {Complete(s.name), CompleteTemp(s.name)})
      ensures !died ==> Complete(s.name) in files && files[Complete(s.name)] == Marker(record)
      ensures old(steps) >= 2 ==> !died && steps == old(steps) - 2
    {
      died := Change(files[CompleteTemp(s.name) := Marker(record)]);
      if died { return; }
      died := Change((files - {CompleteTemp(s.name)})[Complete(s.name) := Marker(record)]);
    }

    /** Run the command, check its outputs, write the marker. */
    method RunAndMark(s: Stage, manifest: Manifest, trouble: Trouble) returns (outcome: Outcome)
      requires Separate(s) && AllPresent(files, Named(s.inputs))
      requires MarkersTruthful(files, Stamp(manifest).Keys, world)
      modifies this
      ensures SameBut(files, old(files), Named(s.outputs) + {Complete(s.name), CompleteTemp(s.name)})
      ensures MarkersTruthful(files, Stamp(manifest).Keys, world) && found == old(files)
      ensures outcome.Returned? ==>
                UpToDate(files, s, manifest, world) && IsComplete(files, s, Expected(s, manifest, files, world), world)
      ensures Untroubled(s, manifest, trouble, world) && old(steps) >= 3 ==>
                outcome.Returned? && steps == old(steps) - 3
    {
      var expected := Expected(s, manifest, files, world);
      outcome := RunCommand(s, manifest, trouble);
      if !outcome.Returned? { return; }
      CommandMakes(old(files), files, s, manifest, world);
      if !AllPresent(files, Named(s.outputs)) {
        return Raised;
      }
      ghost var made := files;
      var record := expected.(outputs := Hashed(Restrict(files, Named(s.outputs)), world));
      FreshMarkerIsTruthful(old(files), made, s, manifest, world);
      var died := WriteMarker(s, record);
      if died { return Died; }
      FreshMarkerIsComplete(old(files), made, files, s, manifest, world);
      outcome := Returned;
    }

    /** Everything after the check: the marker goes first and comes back last. */
    method Rerun(s: Stage, manifest: Manifest, trouble: Trouble) returns (outcome: Outcome)
      requires Separate(s) && AllPresent(files, Named(s.inputs))
      requires MarkersTruthful(files, Stamp(manifest).Keys, world)
      modifies this
      ensures SameBut(files, old(files), Touched(s)) && MarkersTruthful(files, Stamp(manifest).Keys, world)
      ensures outcome.Returned? ==>
                UpToDate(files, s, manifest, world) && IsComplete(files, s, Expected(s, manifest, files, world), world)
      ensures outcome.Returned? ==> RanAfresh(s, old(files), found, files)
      ensures Untroubled(s, manifest, trouble, world) && old(steps) >= StepsOf(s) ==>
                outcome.Returned? && steps == old(steps) - StepsOf(s)
    {
      var died := Change(files - {MarkerOf(s)});
      if died { return Died; }
      if s.cleanOutputsOnRerun {
        died := CleanOutputs(s);
        if died { return Died; }
      }
      assert files == old(files) - {MarkerOf(s)} - (if s.cleanOutputsOnRerun then Residue(s) else {});
      InputsKept(files, old(files), s);
      outcome := RunAndMark(s, manifest, trouble);
      AfreshIf(s, old(files), found, files);
    }

    method RunStage(s: Stage, manifest: Manifest, trouble: Trouble) returns (outcome: Outcome)
      requires s.outputs == [] || Separate(s)
      requires Injective(world) && MarkersTruthful(files, Stamp(manifest).Keys, world)
      modifies this
      ensures s.outputs == [] || !AllPresent(old(files), Named(s.inputs)) ==> outcome.Raised? && files == old(files)
      ensures SameBut(files, old(files), Touched(s)) && MarkersTruthful(files, Stamp(manifest).Keys, world)
      ensures outcome.Returned? ==>
              UpToDate(files, s, manifest, world) && IsComplete(files, s, Expected(s, manifest, files, world), world)
      ensures s.outputs != [] && AllPresent(old(files), Named(s.inputs))
              && IsComplete(old(files), s, Expected(s, manifest, old(files), world), world) ==>
                outcome.Returned? && files == old(files) && steps == old(steps) && found == old(found)
      ensures outcome.Returned? && !IsComplete(old(files), s, Expected(s, manifest, old(files), world), world) ==>
                RanAfresh(s, old(files), found, files)
      ensures s.outputs != [] && AllPresent(old(files), Named(s.inputs))
              && Untroubled(s, manifest, trouble, world) && old(steps) >= StepsOf(s) ==>
                outcome.Returned? && steps >= old(steps) - StepsOf(s)
    {
      if s.outputs == [] || !AllPresent(files, Named(s.inputs)) {
        return Raised;
      }
      if IsComplete(files, s, Expected(s, manifest, files, world), world) {
        CompleteIsUpToDate(files, s, manifest, world);
        return Returned;
      }
      outcome := Rerun(s, manifest, trouble);
    }
  }

  /** The outputs in `made` are what the command makes of the inputs in `before`. */
  ghost predicate Makes(before: Files, made: Files, s: Stage, manifest: Manifest, w: World) {
    var result := w.results(s.command, Stamp(manifest), Restrict(before, Named(s.inputs)));
    AllPresent(made, Named(s.outputs)) && forall p :: p in Named(s.outputs) ==> p in result && made[p] == result[p]
  }

  lemma FreshMarkerIsComplete(before: Files, made: Files, after: Files, s: Stage, manifest: Manifest, w: World)
    requires Separate(s) && SameBut(after, before, Touched(s))
             && SameBut(after, made, {Complete(s.name), CompleteTemp(s.name)})
    requires AllPresent(before, Named(s.inputs)) && Makes(before, made, s, manifest, w)
    requires Complete(s.name) in after
    requires after[Complete(s.name)] ==
             Marker(Expected(s, manifest, before, w).(outputs := Hashed(Restrict(made, Named(s.outputs)), w)))
    ensures UpToDate(after, s, manifest, w) && IsComplete(after, s, Expected(s, manifest, after, w), w)
  {
    InputsKept(after, before, s);
    forall n | n in s.outputs
      ensures File(n) in after && after[File(n)] == made[File(n)] && File(n) in Restrict(made, Named(s.outputs))
    {
      assert File(n) in Named(s.outputs);
    }
  }

  lemma FreshMarkerIsTruthful(before: Files, made: Files, s: Stage, manifest: Manifest, w: World)
    requires Makes(before, made, s, manifest, w)
    ensures Honest(Expected(s, manifest, before, w).(outputs := Hashed(Restrict(made, Named(s.outputs)), w)),
                   Stamp(manifest).Keys, w)
  {
    var inputs := Restrict(before, Named(s.inputs));
    var record := Expected(s, manifest, before, w).(outputs := Hashed(Restrict(made, Named(s.outputs)), w));
    assert forall p :: p in record.outputs ==> p in Restrict(made, Named(s.outputs));
    assert Witnessed(record, s.command, inputs, w);
  }
}
