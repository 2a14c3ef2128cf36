/** Transform pipelines: the step list check of services/connectivity/app/pipeline.py and the
    step loop of ingest_pipeline.py. A table that was never written does not exist, reading
    it raises, and writing no rows does not create it. */
module PipelineRun {
  import opened Wrappers

  type Row = map<string, string>
  type Tables = map<string, seq<Row>>

  /** One entry of `value_type_casts`; a type name that is no string is `None`. */
  datatype Cast = Cast(column: string, valueType: Option<string>)

  datatype Casts = NoCasts | NotAMap | CastMap(entries: seq<Cast>)

  /** A step; an absent field is the empty string. */
  datatype Step = Step(name: string, input: string, transform: string, output: string, casts: Casts)

  datatype Fault =
    | NoSteps
    | MissingField(step: nat)
    | DuplicateName(step: nat)
    | ReadsItsOutput(step: nat)
    | ReadsLaterOutput(step: nat, producer: string)
    | BadCasts(step: nat)

  // ---------------------------------------------------------------- what the check promises

  predicate Complete(s: Step) {
    s.name != "" && s.input != "" && s.transform != "" && s.output != ""
  }

  predicate CastsWellFormed(casts: Casts) {
    match casts
    case NoCasts => true
    case NotAMap => false
    case CastMap(entries) =>
      entries != [] && forall c | c in entries :: c.column != "" && c.valueType.Some? && c.valueType.value != ""
  }

  /** Some step before `i` writes `dataset`. */
  predicate WrittenBefore(steps: seq<Step>, i: nat, dataset: string)
    requires i <= |steps|
  {
    exists j | 0 <= j < i :: steps[j].output == dataset
  }

  predicate NamedBefore(steps: seq<Step>, i: nat, name: string)
    requires i <= |steps|
  {
    exists j | 0 <= j < i :: steps[j].name == name
  }

  predicate DatasetRules(steps: seq<Step>, i: nat)
    requires i < |steps|
  {
    var s := steps[i];
    s.input != s.output && (WrittenBefore(steps, |steps|, s.input) ==> WrittenBefore(steps, i, s.input))
  }

  predicate StepAccepted(steps: seq<Step>, i: nat)
    requires i < |steps|
  {
    var s := steps[i];
    && Complete(s)
    && !NamedBefore(steps, i, s.name)
    && DatasetRules(steps, i)
    && CastsWellFormed(s.casts)
  }

  predicate Accepted(steps: seq<Step>) {
    steps != [] && forall i | 0 <= i < |steps| :: StepAccepted(steps, i)
  }

  /** A fault names the first step that is not accepted and the first thing wrong with it. Of
      an output read too early it also names the first step that writes it. */
  predicate IsFirstFault(steps: seq<Step>, fault: Fault) {
    if fault.NoSteps? then steps == []
    else
      && fault.step < |steps|
      && (forall i | 0 <= i < fault.step :: StepAccepted(steps, i))
      && var s := steps[fault.step];
      && (fault.MissingField? <==> !Complete(s))
      && (fault.DuplicateName? <==> Complete(s) && NamedBefore(steps, fault.step, s.name))
      && (fault.ReadsItsOutput? <==> Complete(s) && !NamedBefore(steps, fault.step, s.name) && s.input == s.output)
      && (fault.ReadsLaterOutput? ==>
            !WrittenBefore(steps, fault.step, s.input)
            && exists j | fault.step < j < |steps| ::
                 steps[j].output == s.input && steps[j].name == fault.producer && !WrittenBefore(steps, j, s.input))
      && (fault.BadCasts? ==> DatasetRules(steps, fault.step) && !CastsWellFormed(s.casts))
  }

  predicate CastsNamed(casts: Casts) {
    casts.NoCasts?
    || (&& casts.CastMap? && |casts.entries| > 0
        && forall c | c in casts.entries :: |c.column| > 0 && c.valueType.Some? && |c.valueType.value| > 0)
  }

  /** Steps from `i` on write what step `i` reads only if an earlier one does, and it does not itself. */
  predicate ReadsNothingLater(steps: seq<Step>, i: nat)
    requires i < |steps|
  {
    forall j | i <= j < |steps| && steps[j].output == steps[i].input :: i != j && exists k :: 0 <= k < i && steps[k].output == steps[i].input
  }

  lemma DatasetRulesIs(steps: seq<Step>, i: nat)
    requires i < |steps|
    ensures DatasetRules(steps, i) <==> ReadsNothingLater(steps, i)
  {
    if WrittenBefore(steps, |steps|, steps[i].input) {
      var j :| 0 <= j < |steps| && steps[j].output == steps[i].input;
      if j < i {
        assert WrittenBefore(steps, i, steps[i].input);
      }
    }
  }

  lemma StepAcceptedIs(steps: seq<Step>, i: nat)
    requires i < |steps|
    ensures var s := steps[i];
            StepAccepted(steps, i)
            <==> && "" !in [s.name, s.input, s.transform, s.output]
                 && (forall j | 0 <= j < i :: steps[j].name != s.name) && ReadsNothingLater(steps, i) && CastsNamed(s.casts)
  {
    DatasetRulesIs(steps, i);
    var s := steps[i];
    var fields := [s.name, s.input, s.transform, s.output];
    assert fields[0] == s.name && fields[1] == s.input && fields[2] == s.transform && fields[3] == s.output;
    assert CastsNamed(s.casts) <==> CastsWellFormed(s.casts);
  }

  /** A list is accepted exactly if it has a step, every field of every step is filled in, no
      two steps share a name, no step reads a dataset that it or only later steps write, and
      casts, where given, name at least one column, each with a type. */
  lemma AcceptedIff(steps: seq<Step>)
    ensures Accepted(steps) <==>
              && |steps| > 0
              && (forall s | s in steps :: "" !in [s.name, s.input, s.transform, s.output] && CastsNamed(s.casts))
              && (forall i, j | 0 <= j < i < |steps| :: steps[j].name != steps[i].name)
              && (forall i | 0 <= i < |steps| :: ReadsNothingLater(steps, i))
  {
    forall i | 0 <= i < |steps|
      ensures StepAccepted(steps, i)
              <==> && "" !in [steps[i].name, steps[i].input, steps[i].transform, steps[i].output] && CastsNamed(steps[i].casts)
                   && (forall j | 0 <= j < i :: steps[j].name != steps[i].name) && ReadsNothingLater(steps, i)
    {
      StepAcceptedIs(steps, i);
    }
    assert forall s | s in steps :: exists i :: 0 <= i < |steps| && steps[i] == s;
    assert forall i | 0 <= i < |steps| :: steps[i] in steps;
  }

  lemma FaultyStep(steps: seq<Step>, fault: Fault)
    requires IsFirstFault(steps, fault) && !fault.NoSteps?
    ensures !StepAccepted(steps, fault.step)
  {
    if fault.ReadsLaterOutput? {
      assert WrittenBefore(steps, |steps|, steps[fault.step].input);
    }
  }

  /** A list that is rejected has just one such fault. */
  lemma FirstFaultIsUnique(steps: seq<Step>, a: Fault, b: Fault)
    requires IsFirstFault(steps, a) && IsFirstFault(steps, b)
    ensures !Accepted(steps) && a == b
  {
    if !a.NoSteps? {
      FaultyStep(steps, a);
      FaultyStep(steps, b);
      assert a.step == b.step;
      if a.ReadsLaterOutput? {
        assert WrittenBefore(steps, |steps|, steps[a.step].input);
      }
      if b.ReadsLaterOutput? {
        assert WrittenBefore(steps, |steps|, steps[b.step].input);
      }
    }
  }

  // ---------------------------------------------------------------- the check

  /** `_validate_steps`. */
  method ValidateSteps(steps: seq<Step>) returns (fault: Option<Fault>)
    ensures fault.None? <==> Accepted(steps)
    ensures fault.Some? ==> IsFirstFault(steps, fault.value)
  {
    if steps == [] {
      return Some(NoSteps);
    }
    var stepNames: set<string> := {};
    var outputsSoFar: set<string> := {};
    var allOutputs := set s | s in steps && s.output != "" :: s.output;
    for i := 0 to |steps|
      invariant forall name :: name in stepNames <==> NamedBefore(steps, i, name)
      invariant forall dataset :: dataset in outputsSoFar <==> WrittenBefore(steps, i, dataset)
      invariant forall j | 0 <= j < i :: StepAccepted(steps, j)
    {
      var step := steps[i];
      if !Complete(step) {
        assert !StepAccepted(steps, i);
        return Some(MissingField(i));
      }
      if step.name in stepNames {
        assert !StepAccepted(steps, i);
        return Some(DuplicateName(i));
      }
      stepNames := stepNames + {step.name};
      if step.input == step.output {
        assert !StepAccepted(steps, i);
        return Some(ReadsItsOutput(i));
      }
      assert step.input in allOutputs <==> WrittenBefore(steps, |steps|, step.input);
      if step.input in allOutputs && step.input !in outputsSoFar {
        var producer := FirstWriter(steps, step.input);
        assert !StepAccepted(steps, i);
        return Some(ReadsLaterOutput(i, steps[producer].name));
      }
      var wellFormed := CheckCasts(step.casts);
      if !wellFormed {
        assert !StepAccepted(steps, i);
        return Some(BadCasts(i));
      }
      BeforeSnoc(steps, i);
      outputsSoFar := outputsSoFar + {step.output};
    }
    return None;
  }

  lemma BeforeSnoc(steps: seq<Step>, i: nat)
    requires i < |steps|
    ensures forall dataset :: WrittenBefore(steps, i + 1, dataset) <==> WrittenBefore(steps, i, dataset) || dataset == steps[i].output
    ensures forall name :: NamedBefore(steps, i + 1, name) <==> NamedBefore(steps, i, name) || name == steps[i].name
  {
    assert WrittenBefore(steps, i + 1, steps[i].output);
    assert NamedBefore(steps, i + 1, steps[i].name);
  }

  /** The first step writing a dataset that some step writes. */
  method FirstWriter(steps: seq<Step>, dataset: string) returns (producer: nat)
    requires WrittenBefore(steps, |steps|, dataset)
    ensures producer < |steps| && steps[producer].output == dataset
    ensures !WrittenBefore(steps, producer, dataset)
  {
    producer := 0;
    while steps[producer].output != dataset
      invariant producer < |steps| && !WrittenBefore(steps, producer, dataset)
      decreases |steps| - producer
    {
      producer := producer + 1;
    }
  }

  method CheckCasts(casts: Casts) returns (ok: bool)
    ensures ok <==> CastsWellFormed(casts)
  {
    if casts.NoCasts? {
      return true;
    }
    if casts.NotAMap? || casts.entries == [] {
      return false;
    }
    for n := 0 to |casts.entries|
      invariant forall m | 0 <= m < n :: casts.entries[m].column != "" && casts.entries[m].valueType.Some? && casts.entries[m].valueType.value != ""
    {
      var entry := casts.entries[n];
      if entry.column == "" {
        return false;
      }
      if entry.valueType.None? || entry.valueType.value == "" {
        return false;
      }
    }
    return true;
  }

  // ---------------------------------------------------------------- acceptance and order

  predicate DistinctOutputs(steps: seq<Step>) {
    forall i, j | 0 <= i < j < |steps| :: steps[i].output != steps[j].output
  }

  /** Every step that reads a dataset comes after every step that writes it. */
  predicate Topological(steps: seq<Step>) {
    forall i, j | 0 <= i < |steps| && 0 <= j < |steps| && steps[i].output == steps[j].input :: i < j
  }

  /** When outputs are distinct, the dataset rules of the check hold exactly of the
      topological orders. */
  lemma AcceptedIffTopological(steps: seq<Step>)
    requires DistinctOutputs(steps)
    ensures Topological(steps) <==>
            forall j | 0 <= j < |steps| :: DatasetRules(steps, j)
  {
    if !Topological(steps) {
      var i, j :| 0 <= i < |steps| && 0 <= j < |steps| && steps[i].output == steps[j].input && i >= j;
      assert WrittenBefore(steps, |steps|, steps[j].input);
      assert !DatasetRules(steps, j);
    } else {
      forall j | 0 <= j < |steps|
        ensures DatasetRules(steps, j)
      {
        if WrittenBefore(steps, |steps|, steps[j].input) {
          var i :| 0 <= i < |steps| && steps[i].output == steps[j].input;
          assert i < j;
        }
      }
    }
  }

  /** A chain of steps, each reading what the one before it writes. */
  ghost predicate Chain(steps: seq<Step>, path: seq<nat>) {
    && (forall n | 0 <= n < |path| :: path[n] < |steps|)
    && (forall n | 0 <= n < |path| - 1 :: steps[path[n]].output == steps[path[n + 1]].input)
  }

  /** No step writes a dataset that an earlier step reads. */
  predicate KeepsInputs(steps: seq<Step>) {
    forall i, j | 0 <= i < j < |steps| :: steps[j].output != steps[i].input
  }

  /** That is what makes an accepted list a topological order; distinct outputs are enough. */
  lemma KeepsInputsIffTopological(steps: seq<Step>)
    requires Accepted(steps)
    ensures Topological(steps) <==> KeepsInputs(steps)
    ensures DistinctOutputs(steps) ==> KeepsInputs(steps)
  {
    assert forall j | 0 <= j < |steps| :: StepAccepted(steps, j) ==> DatasetRules(steps, j);
    if DistinctOutputs(steps) {
      AcceptedIffTopological(steps);
    }
    if KeepsInputs(steps) {
      forall i, j | 0 <= i < |steps| && 0 <= j < |steps| && steps[i].output == steps[j].input
        ensures i < j
      {
        assert DatasetRules(steps, j);
      }
    }
  }

  /** So the dataset graph of an accepted pipeline that keeps its inputs has no cycle. */
  lemma {:induction false} NoCycle(steps: seq<Step>, path: seq<nat>)
    requires Accepted(steps) && KeepsInputs(steps)
    requires Chain(steps, path) && |path| > 1
    ensures path[0] < path[|path| - 1]
    ensures steps[path[0]].input != steps[path[|path| - 1]].output
    decreases |path|
  {
    KeepsInputsIffTopological(steps);
    var front := path[..|path| - 1];
    var last := path[|path| - 1];
    assert path[|path| - 2] < last;
    assert steps[path[|path| - 2]].output == steps[path[|path| - 2 + 1]].input;
    if |front| > 1 {
      assert forall n | 0 <= n < |front| - 1 :: steps[front[n]].output == steps[path[n + 1]].input;
      NoCycle(steps, front);
    }
  }

  /** The check accepts a cycle otherwise: the third step feeds the second. */
  lemma RepeatedOutputAllowsCycle()
    ensures exists steps ::
              && Accepted(steps) && |steps| == 3
              && Chain(steps, [1, 2, 1])
  {
    var steps := [Step("s", "x", "f", "a", NoCasts), Step("t", "a", "f", "b", NoCasts), Step("u", "b", "f", "a", NoCasts)];
    assert steps[0].name == "s" && steps[1].name == "t" && steps[2].name == "u";
    assert steps[0].output == "a" && steps[1].output == "b";
    assert "s"[0] != "t"[0] && "s"[0] != "u"[0] && "t"[0] != "u"[0] && "a"[0] != "b"[0] && "x"[0] != "a"[0];
    assert StepAccepted(steps, 0) && StepAccepted(steps, 1) && StepAccepted(steps, 2);
    assert Chain(steps, [1, 2, 1]);
  }

  // ---------------------------------------------------------------- a run

  /** The transform functions and the cast check, deterministic; `None` when a call raises. */
  datatype Env = Env(apply: (string, seq<Row>) -> Option<seq<Row>>, castsHold: (seq<Cast>, seq<Row>) -> bool)

  function Rows(tables: Tables, dataset: string): seq<Row> {
    if dataset in tables then tables[dataset] else []
  }

  /** `write_snapshot` in overwrite mode. */
  function Overwrite(tables: Tables, dataset: string, rows: seq<Row>): Tables {
    if rows == [] && dataset !in tables then tables else tables[dataset := rows]
  }

  /** What a step writes, if it gets that far. */
  function StepRows(env: Env, step: Step, tables: Tables): Option<seq<Row>> {
    if step.input !in tables then None
    else
      var rows := env.apply(step.transform, tables[step.input]);
      if rows.Some? && step.casts.CastMap? && step.casts.entries != [] && !env.castsHold(step.casts.entries, rows.value) then None
      else rows
  }

  datatype Outcome = Outcome(tables: Tables, done: nat, succeeded: bool)

  function Run(env: Env, steps: seq<Step>, tables: Tables): (r: Outcome)
    ensures r.done <= |steps| && (r.succeeded <==> r.done == |steps|)
    decreases |steps|
  {
    if steps == [] then Outcome(tables, 0, true)
    else
      var rows := StepRows(env, steps[0], tables);
      if rows.None? then Outcome(tables, 0, false)
      else
        var rest := Run(env, steps[1..], Overwrite(tables, steps[0].output, rows.value));
        rest.(done := rest.done + 1)
  }

  // ---------------------------------------------------------------- what a run does to the store

  /** The rows pass the casts of the step, if it has any. */
  predicate CastsPass(env: Env, step: Step, rows: seq<Row>) {
    step.casts.CastMap? && step.casts.entries != [] ==> env.castsHold(step.casts.entries, rows)
  }

  /** From `a` to `b` the step has put what its function makes of its input, and what passes
      its casts, into its output table and nothing anywhere else. An empty output of a table
      that does not exist does not create it. */
  ghost predicate StepDone(env: Env, step: Step, a: Tables, b: Tables) {
    && step.input in a && env.apply(step.transform, a[step.input]).Some?
    && var rows := env.apply(step.transform, a[step.input]).value;
       && CastsPass(env, step, rows)
       && (step.output in b <==> step.output in a || rows != []) && (step.output in b ==> b[step.output] == rows)
       && (forall d :: d != step.output ==> (d in b <==> d in a) && (d in a ==> b[d] == a[d]))
  }

  /** The step cannot be done on this store: no input table, a function that raises, or rows
      that fail their casts. */
  predicate StepFails(env: Env, step: Step, a: Tables) {
    || step.input !in a
    || env.apply(step.transform, a[step.input]).None?
    || !CastsPass(env, step, env.apply(step.transform, a[step.input]).value)
  }

  /** The stores a run goes through: one step after the other, up to the first that cannot be
      done. */
  ghost predicate Goes(env: Env, steps: seq<Step>, stores: seq<Tables>) {
    && 0 < |stores| <= |steps| + 1
    && (forall k | 0 <= k < |stores| - 1 :: StepDone(env, steps[k], stores[k], stores[k + 1]))
    && (|stores| <= |steps| ==> StepFails(env, steps[|stores| - 1], stores[|stores| - 1]))
  }

  /** The outcome of a run from the first of these stores to the last. */
  ghost predicate IsRun(env: Env, steps: seq<Step>, tables: Tables, r: Outcome) {
    exists stores ::
      && Goes(env, steps, stores) && stores[0] == tables
      && r == Outcome(stores[|stores| - 1], |stores| - 1, |stores| == |steps| + 1)
  }

  lemma {:induction false} RunGoes(env: Env, steps: seq<Step>, tables: Tables) returns (stores: seq<Tables>)
    ensures Goes(env, steps, stores) && stores[0] == tables
    ensures Run(env, steps, tables) == Outcome(stores[|stores| - 1], |stores| - 1, |stores| == |steps| + 1)
    decreases |steps|
  {
    stores := [tables];
    if steps != [] {
      var rows := StepRows(env, steps[0], tables);
      if rows.Some? {
        var rest := RunGoes(env, steps[1..], Overwrite(tables, steps[0].output, rows.value));
        stores := [tables] + rest;
        assert forall k | 0 <= k < |rest| - 1 :: StepDone(env, steps[1..][k], rest[k], rest[k + 1]) && steps[1..][k] == steps[k + 1];
        assert StepDone(env, steps[0], stores[0], stores[1]);
      }
    }
  }

  /** Every run goes through such stores, and a step that cannot be done ends it there: its
      output table is the one it found. */
  lemma RunIsRun(env: Env, steps: seq<Step>, tables: Tables)
    ensures IsRun(env, steps, tables, Run(env, steps, tables))
  {
    var stores := RunGoes(env, steps, tables);
  }

  /** A run has no choice: the stores it goes through are determined. */
  lemma {:induction false} OneRun(env: Env, steps: seq<Step>, a: seq<Tables>, b: seq<Tables>)
    requires Goes(env, steps, a) && Goes(env, steps, b) && a[0] == b[0]
    ensures a == b
    decreases |a|
  {
    if |a| > 1 && |b| > 1 {
      assert StepDone(env, steps[0], a[0], a[1]) && StepDone(env, steps[0], b[0], b[1]);
      assert a[1] == b[1];
      GoesOn(env, steps, a);
      GoesOn(env, steps, b);
      OneRun(env, steps[1..], a[1..], b[1..]);
      assert a == [a[0]] + a[1..] && b == [b[0]] + b[1..];
    } else {
      FirstStep(env, steps, a);
      FirstStep(env, steps, b);
    }
  }

  lemma FirstStep(env: Env, steps: seq<Step>, stores: seq<Tables>)
    requires Goes(env, steps, stores)
    ensures |stores| > 1 <==> steps != [] && !StepFails(env, steps[0], stores[0])
  {
    if |stores| > 1 {
      assert StepDone(env, steps[0], stores[0], stores[1]);
    }
  }

  lemma GoesOn(env: Env, steps: seq<Step>, stores: seq<Tables>)
    requires Goes(env, steps, stores) && |stores| > 1
    ensures Goes(env, steps[1..], stores[1..])
  {
    forall k | 0 <= k < |stores| - 2
      ensures StepDone(env, steps[1..][k], stores[1..][k], stores[1..][k + 1])
    {
      assert StepDone(env, steps[k + 1], stores[k + 1], stores[k + 2]);
    }
  }

  class PipelineRunner {
    var tables: Tables

    constructor (tables: Tables)
      ensures this.tables == tables
    {
      this.tables := tables;
    }

    /** `_run_pipeline`; `results` are the names recorded with the run. */
    method RunPipeline(env: Env, steps: seq<Step>) returns (succeeded: bool, results: seq<string>)
      modifies this
      ensures var r := Run(env, steps, old(tables));
              && tables == r.tables && succeeded == r.succeeded
              && results == seq(r.done, k requires 0 <= k < r.done => steps[k].name)
      ensures IsRun(env, steps, old(tables), Outcome(tables, |results|, succeeded))
    {
      RunIsRun(env, steps, tables);
      succeeded, results := RunSteps(env, steps);
    }

    /** Its step loop. */
    method RunSteps(env: Env, steps: seq<Step>) returns (succeeded: bool, results: seq<string>)
      modifies this
      ensures var r := Run(env, steps, old(tables));
              && tables == r.tables && succeeded == r.succeeded
              && results == seq(r.done, k requires 0 <= k < r.done => steps[k].name)
    {
      results := [];
      for n := 0 to |steps|
        invariant results == seq(n, k requires 0 <= k < n => steps[k].name)
        invariant var rest := Run(env, steps[n..], tables);
                  Run(env, steps, old(tables)) == rest.(done := rest.done + n)
      {
        var step := steps[n];
        assert steps[n..][0] == step && steps[n..][1..] == steps[n + 1..];
        if step.input !in tables {
          return false, results;
        }
        var inputRows := tables[step.input];
        var outputRows := env.apply(step.transform, inputRows);
        if outputRows.None? {
          return false, results;
        }
        if step.casts.CastMap? && step.casts.entries != [] {
          if !env.castsHold(step.casts.entries, outputRows.value) {
            return false, results;
          }
        }
        tables := Overwrite(tables, step.output, outputRows.value);
        results := results + [step.name];
      }
      return true, results;
    }
  }

  /** A failed run leaves exactly what a run of its finished steps alone would have left. */
  lemma {:induction false} FailedRunIsPrefixRun(env: Env, steps: seq<Step>, tables: Tables)
    ensures var r := Run(env, steps, tables);
            Run(env, steps[..r.done], tables) == Outcome(r.tables, r.done, true)
    decreases |steps|
  {
    if steps != [] {
      var rows := StepRows(env, steps[0], tables);
      if rows.Some? {
        FailedRunIsPrefixRun(env, steps[1..], Overwrite(tables, steps[0].output, rows.value));
        var done := Run(env, steps, tables).done;
        assert steps[..done][1..] == steps[1..][..done - 1];
      }
    }
  }

  // ---------------------------------------------------------------- determinism

  /** Two stores before step `i`: the same off the outputs of the pipeline, and with the
      same rows in the outputs written so far. */
  ghost predicate Agree(steps: seq<Step>, i: nat, a: Tables, b: Tables)
    requires i <= |steps|
  {
    && (forall d :: !WrittenBefore(steps, |steps|, d) ==> (d in a <==> d in b) && Rows(a, d) == Rows(b, d))
    && (forall d :: WrittenBefore(steps, i, d) ==> Rows(a, d) == Rows(b, d))
  }

  /** Stores that agree, of which `b` has every table of `a`. */
  ghost predicate InLockstep(steps: seq<Step>, i: nat, a: Tables, b: Tables)
    requires i <= |steps|
  {
    a.Keys <= b.Keys && Agree(steps, i, a, b)
  }

  lemma AgreeingWrite(steps: seq<Step>, i: nat, a: Tables, b: Tables, rows: seq<Row>)
    requires i < |steps| && Agree(steps, i, a, b)
    ensures Agree(steps, i + 1, Overwrite(a, steps[i].output, rows), Overwrite(b, steps[i].output, rows))
  {
    var a', b' := Overwrite(a, steps[i].output, rows), Overwrite(b, steps[i].output, rows);
    forall d | WrittenBefore(steps, i + 1, d)
      ensures Rows(a', d) == Rows(b', d)
    {
      if d != steps[i].output {
        assert WrittenBefore(steps, i, d);
      }
    }
  }

  lemma {:induction false} AgreeingRuns(env: Env, steps: seq<Step>, i: nat, a: Tables, b: Tables)
    requires i <= |steps| && (forall j | 0 <= j < |steps| :: StepAccepted(steps, j))
    requires Agree(steps, i, a, b) && Run(env, steps[i..], a).succeeded && Run(env, steps[i..], b).succeeded
    ensures Agree(steps, |steps|, Run(env, steps[i..], a).tables, Run(env, steps[i..], b).tables)
    decreases |steps| - i
  {
    if i < |steps| {
      var step := steps[i];
      assert steps[i..][0] == step && steps[i..][1..] == steps[i + 1..];
      assert StepAccepted(steps, i);
      assert Rows(a, step.input) == Rows(b, step.input);
      var rows := StepRows(env, step, a).value;
      assert StepRows(env, step, b) == Some(rows);
      AgreeingWrite(steps, i, a, b, rows);
      AgreeingRuns(env, steps, i + 1, Overwrite(a, step.output, rows), Overwrite(b, step.output, rows));
    }
  }

  /** A run that succeeds from `a` succeeds from any `b` in lockstep with it, with the same
      rows in every output, and creates no table the run from `a` did not have. */
  lemma {:induction false} LockstepRuns(env: Env, steps: seq<Step>, i: nat, a: Tables, b: Tables)
    requires i <= |steps| && (forall j | 0 <= j < |steps| :: StepAccepted(steps, j))
    requires InLockstep(steps, i, a, b) && Run(env, steps[i..], a).succeeded
    ensures var (ra, rb) := (Run(env, steps[i..], a), Run(env, steps[i..], b));
            && rb.succeeded && InLockstep(steps, |steps|, ra.tables, rb.tables)
            && a.Keys <= ra.tables.Keys && rb.tables.Keys <= b.Keys + ra.tables.Keys
    decreases |steps| - i
  {
    if i < |steps| {
      var step := steps[i];
      assert steps[i..][0] == step && steps[i..][1..] == steps[i + 1..];
      assert StepAccepted(steps, i);
      assert step.input in a && Rows(a, step.input) == Rows(b, step.input);
      var rows := StepRows(env, step, a).value;
      assert StepRows(env, step, b) == Some(rows);
      AgreeingWrite(steps, i, a, b, rows);
      LockstepRuns(env, steps, i + 1, Overwrite(a, step.output, rows), Overwrite(b, step.output, rows));
    }
  }

  lemma {:induction false} RunTouchesOnlyOutputs(env: Env, steps: seq<Step>, i: nat, a: Tables)
    requires i <= |steps|
    ensures var r := Run(env, steps[i..], a).tables;
            forall d :: !WrittenBefore(steps, |steps|, d) ==> (d in r <==> d in a) && Rows(r, d) == Rows(a, d)
    decreases |steps| - i
  {
    if i < |steps| {
      assert steps[i..][0] == steps[i] && steps[i..][1..] == steps[i + 1..];
      var rows := StepRows(env, steps[i], a);
      if rows.Some? {
        assert WrittenBefore(steps, |steps|, steps[i].output);
        RunTouchesOnlyOutputs(env, steps, i + 1, Overwrite(a, steps[i].output, rows.value));
      }
    }
  }

  /** Accepted pipelines are deterministic: runs that succeed from stores agreeing on what
      no step writes end with the same outputs, and a run that succeeds also succeeds from
      such a store with more tables. */
  lemma RunsAreDeterministic(env: Env, steps: seq<Step>, a: Tables, b: Tables)
    requires Accepted(steps)
    requires forall d :: !WrittenBefore(steps, |steps|, d) ==> (d in a <==> d in b) && Rows(a, d) == Rows(b, d)
    ensures Run(env, steps, a).succeeded && Run(env, steps, b).succeeded ==>
              forall d :: WrittenBefore(steps, |steps|, d) ==> Rows(Run(env, steps, a).tables, d) == Rows(Run(env, steps, b).tables, d)
    ensures Run(env, steps, a).succeeded && a.Keys <= b.Keys ==> Run(env, steps, b).succeeded
  {
    assert steps[0..] == steps;
    assert Agree(steps, 0, a, b);
    if Run(env, steps, a).succeeded {
      if a.Keys <= b.Keys {
        LockstepRuns(env, steps, 0, a, b);
      } else if Run(env, steps, b).succeeded {
        AgreeingRuns(env, steps, 0, a, b);
      }
    }
  }

  /** Running an accepted pipeline again after it succeeded succeeds and changes nothing. */
  lemma RunTwiceIsOnce(env: Env, steps: seq<Step>, a: Tables)
    requires Accepted(steps) && Run(env, steps, a).succeeded
    ensures Run(env, steps, Run(env, steps, a).tables) == Run(env, steps, a)
  {
    assert steps[0..] == steps;
    var once := Run(env, steps, a).tables;
    LockstepRuns(env, steps, 0, a, a);
    RunTouchesOnlyOutputs(env, steps, 0, a);
    assert InLockstep(steps, 0, a, once);
    LockstepRuns(env, steps, 0, a, once);
    var twice := Run(env, steps, once).tables;
    RunTouchesOnlyOutputs(env, steps, 0, once);
    SameTables(steps, once, twice);
  }

  lemma SameTables(steps: seq<Step>, a: Tables, b: Tables)
    requires InLockstep(steps, |steps|, a, b) && b.Keys <= a.Keys
    ensures a == b
  {
    forall d | d in a.Keys
      ensures a[d] == b[d]
    {
      assert Rows(a, d) == Rows(b, d);
    }
  }

  // ---------------------------------------------------------------- when a run succeeds

  /** The rows each finished step of a run writes. */
  function Written(env: Env, steps: seq<Step>, tables: Tables): seq<seq<Row>>
    decreases |steps|
  {
    if steps == [] || StepRows(env, steps[0], tables).None? then []
    else
      var rows := StepRows(env, steps[0], tables).value;
      [rows] + Written(env, steps[1..], Overwrite(tables, steps[0].output, rows))
  }

  lemma {:induction false} WrittenByAll(env: Env, steps: seq<Step>, tables: Tables)
    requires Run(env, steps, tables).succeeded
    ensures |Written(env, steps, tables)| == |steps|
    decreases |steps|
  {
    if steps != [] {
      WrittenByAll(env, steps[1..], Overwrite(tables, steps[0].output, StepRows(env, steps[0], tables).value));
    }
  }

  /** The table step `k` reads is there at step `i`, or gets its rows from a step in between. */
  predicate Available(steps: seq<Step>, written: seq<seq<Row>>, tables: Tables, i: nat, k: nat)
    requires i <= k < |steps| && |written| == |steps|
  {
    steps[k].input in tables || exists j | i <= j < k :: steps[j].output == steps[k].input && written[j] != []
  }

  lemma AvailableAfter(steps: seq<Step>, written: seq<seq<Row>>, tables: Tables, i: nat, k: nat)
    requires i < k < |steps| && |written| == |steps|
    ensures Available(steps, written, tables, i, k)
            <==> Available(steps, written, Overwrite(tables, steps[i].output, written[i]), i + 1, k)
  {
    var after := Overwrite(tables, steps[i].output, written[i]);
    if Available(steps, written, tables, i, k) && steps[k].input !in after {
      var j :| i <= j < k && steps[j].output == steps[k].input && written[j] != [];
      assert j != i;
    }
    if Available(steps, written, after, i + 1, k) && steps[k].input !in tables && steps[k].input in after {
      assert steps[i].output == steps[k].input && written[i] != [];
    }
  }

  ghost predicate AllAvailable(steps: seq<Step>, written: seq<seq<Row>>, tables: Tables, i: nat)
    requires i <= |steps| == |written|
  {
    forall k | i <= k < |steps| :: Available(steps, written, tables, i, k)
  }

  lemma AllAvailableAfter(steps: seq<Step>, written: seq<seq<Row>>, tables: Tables, i: nat)
    requires i < |steps| == |written| && steps[i].input in tables
    ensures AllAvailable(steps, written, tables, i)
            <==> AllAvailable(steps, written, Overwrite(tables, steps[i].output, written[i]), i + 1)
  {
    var after, next := Overwrite(tables, steps[i].output, written[i]), i + 1;
    if AllAvailable(steps, written, tables, i) {
      forall k | next <= k < |steps|
        ensures Available(steps, written, after, next, k)
      {
        assert Available(steps, written, tables, i, k);
        AvailableAfter(steps, written, tables, i, k);
      }
    }
    if AllAvailable(steps, written, after, next) {
      forall k | i <= k < |steps|
        ensures Available(steps, written, tables, i, k)
      {
        if k > i {
          assert Available(steps, written, after, next, k);
          AvailableAfter(steps, written, tables, i, k);
        }
      }
    }
  }

  lemma SameStep(env: Env, steps: seq<Step>, i: nat, a: Tables, b: Tables)
    requires i < |steps| && StepAccepted(steps, i) && Agree(steps, i, a, b)
    requires steps[i].input in a && steps[i].input in b
    ensures StepRows(env, steps[i], a) == StepRows(env, steps[i], b)
  {
    assert Rows(a, steps[i].input) == Rows(b, steps[i].input);
  }

  lemma {:induction false} SuccessIffAvailable(env: Env, steps: seq<Step>, written: seq<seq<Row>>, i: nat, a: Tables, b: Tables)
    requires i <= |steps| && (forall j | 0 <= j < |steps| :: StepAccepted(steps, j))
    requires Agree(steps, i, a, b) && Run(env, steps[i..], a).succeeded
    requires |written| == |steps| && Written(env, steps[i..], a) == written[i..]
    ensures Run(env, steps[i..], b).succeeded <==> AllAvailable(steps, written, b, i)
    decreases |steps| - i
  {
    if i < |steps| {
      var step := steps[i];
      assert steps[i..][0] == step && steps[i..][1..] == steps[i + 1..];
      assert StepAccepted(steps, i);
      assert written[i..][0] == written[i] && written[i..][1..] == written[i + 1..];
      if step.input in b {
        var a', b' := Overwrite(a, step.output, written[i]), Overwrite(b, step.output, written[i]);
        SameStep(env, steps, i, a, b);
        assert StepRows(env, step, a) == Some(written[i]);
        AgreeingWrite(steps, i, a, b, written[i]);
        assert Run(env, steps[i..], b).succeeded == Run(env, steps[i + 1..], b').succeeded;
        SuccessIffAvailable(env, steps, written, i + 1, a', b');
        AllAvailableAfter(steps, written, b, i);
      } else {
        assert !Available(steps, written, b, i, i);
      }
    }
  }

  /** Given a run of an accepted list that succeeds, the run from another store agreeing on
      what no step writes succeeds if and only if every step finds its table: it is in the
      store, or an earlier step wrote rows to it. */
  lemma RunSucceedsIff(env: Env, steps: seq<Step>, a: Tables, b: Tables)
    requires Accepted(steps) && Run(env, steps, a).succeeded
    requires forall d :: !WrittenBefore(steps, |steps|, d) ==> (d in a <==> d in b) && Rows(a, d) == Rows(b, d)
    ensures |Written(env, steps, a)| == |steps|
    ensures Run(env, steps, b).succeeded
            <==> AllAvailable(steps, Written(env, steps, a), b, 0)
  {
    WrittenByAll(env, steps, a);
    var written := Written(env, steps, a);
    assert steps[0..] == steps && written[0..] == written;
    SuccessIffAvailable(env, steps, written, 0, a, b);
  }

  /** For example an empty output is not created, so the step that reads it raises unless an
      older run had left the table there. */
  lemma MissingOutputFailsRun(env: Env, x: Row)
    requires env.apply("f", [x]) == Some([]) && env.apply("g", []) == Some([])
    ensures var steps := [Step("s", "x", "f", "a", NoCasts), Step("t", "a", "g", "b", NoCasts)];
            && Accepted(steps)
            && Run(env, steps, map["x" := [x]]) == Outcome(map["x" := [x]], 1, false)
            && Run(env, steps, map["x" := [x], "a" := [x]]) == Outcome(map["x" := [x], "a" := []], 2, true)
  {
    var steps := [Step("s", "x", "f", "a", NoCasts), Step("t", "a", "g", "b", NoCasts)];
    assert "s"[0] != "t"[0] && "a"[0] != "b"[0] && "x"[0] != "a"[0] && "x"[0] != "b"[0];
    assert steps[0].output == "a";
    assert StepAccepted(steps, 0) && StepAccepted(steps, 1);
    assert steps[1..] == [steps[1]] && steps[1..][1..] == [];
    var full := map["x" := [x], "a" := [x]];
    assert Overwrite(full, "a", []) == map["x" := [x], "a" := []];
  }
}
