/** From a model to its results: the model is partitioned, the constants that control flow
    passes on are found, a controller is made and the plan is run. */
module Executions {
  import opened Arithmetic
  import opened Models
  import opened Semantics
  import opened Scheduling
  import opened Blocking
  import opened FlatPlans
  import opened Machine
  import opened Queues
  import opened Progress
  import opened Partitioner
  import opened Temporaries
  import opened Runs
  import opened Places
  import opened Controllers
  import opened Layouts
  import opened ControllerStarts
  import opened OwnedPlans
  import opened Meanings

  // ----- constants that control flow passes on -----

  // The order in which the runtime's maps list their keys.
  predicate Precedes(a: Key, b: Key) {
    a.0 < b.0 || (a.0 == b.0 && a.1 < b.1)
  }

  ghost predicate Ascending(ks: seq<Key>) {
    forall i, j :: 0 <= i < j < |ks| ==> Precedes(ks[i], ks[j])
  }

  lemma WithoutLast(ks: seq<Key>, last: Key)
    requires Ascending(ks + [last])
    ensures Ascending(ks) && last !in ks
    ensures forall k :: k in ks ==> Precedes(k, last)
  {
    var s := ks + [last];
    assert s[|ks|] == last && forall i :: 0 <= i < |ks| ==> s[i] == ks[i] && Precedes(s[i], last);
  }

  /** Only one ascending list has the same elements. */
  lemma {:induction false} OneAscendingList(a: seq<Key>, b: seq<Key>)
    requires Ascending(a) && Ascending(b) && AsSet(a) == AsSet(b)
    ensures a == b
  {
    hide Ascending;
    assert |a| > 0 ==> a[0] in AsSet(b);
    assert |b| > 0 ==> b[0] in AsSet(a);
    if a != [] {
      var a', b', x, y := a[..|a| - 1], b[..|b| - 1], a[|a| - 1], b[|b| - 1];
      assert a == a' + [x] && b == b' + [y];
      WithoutLast(a', x);
      WithoutLast(b', y);
      assert x in AsSet(b) && y in AsSet(a) && x == y;
      assert AsSet(a') == AsSet(a) - {x} && AsSet(b') == AsSet(b) - {y};
      OneAscendingList(a', b');
    }
  }

  function Inserted(ks: seq<Key>, key: Key): seq<Key> {
    if ks == [] then [key]
    else if ks[0] == key then ks
    else if Precedes(key, ks[0]) then [key] + ks
    else [ks[0]] + Inserted(ks[1..], key)
  }

  lemma {:induction false} InsertedKeepsOrder(ks: seq<Key>, key: Key)
    requires Ascending(ks)
    ensures Ascending(Inserted(ks, key)) && forall k :: k in Inserted(ks, key) <==> k in ks || k == key
  {
    if ks != [] && ks[0] != key && !Precedes(key, ks[0]) {
      var rest := Inserted(ks[1..], key);
      InsertedKeepsOrder(ks[1..], key);
      assert ks == [ks[0]] + ks[1..];
      forall k | k in rest ensures Precedes(ks[0], k) {
      }
    }
  }

  /** The lists hold the constants `s`, each once and in order, by where their bytes are. */
  ghost predicate Gathered(sources: seq<Model>, s: set<Key>, copies: seq<Key>, references: seq<Key>) {
    && Ascending(copies) && Ascending(references)
    && (forall k :: k in copies ==> HasLifetime(sources, k, ConstantCopy))
    && (forall k :: k in references ==> HasLifetime(sources, k, ConstantReference))
    && (forall k :: k in s <==> k in copies || k in references)
  }

  lemma GatheredSplits(code: seq<LogicalStep>, sources: seq<Model>, copies: seq<Key>, references: seq<Key>)
    requires Gathered(sources, ConstantKeys(code, sources), copies, references)
    ensures SplitsConstants(code, sources, copies, references)
  {
    hide ConstantKeys, HasLifetime;
    forall i, j | 0 <= i < j < |copies| ensures copies[i] != copies[j] {
      assert Precedes(copies[i], copies[j]);
    }
    forall i, j | 0 <= i < j < |references| ensures references[i] != references[j] {
      assert Precedes(references[i], references[j]);
    }
  }

  function ConstantsIn(sources: seq<Model>, keys: seq<Key>): set<Key> {
    set k | k in keys && IsConstantKey(sources, k)
  }

  method HandleBoundaryConstant(sources: seq<Model>, key: Key, copies: seq<Key>, references: seq<Key>, ghost s: set<Key>)
    returns (copies': seq<Key>, references': seq<Key>)
    requires Gathered(sources, s, copies, references)
    ensures Gathered(sources, s + ConstantsIn(sources, [key]), copies', references')
  {
    copies', references' := copies, references;
    assert key in [key];
    if HasLifetime(sources, key, ConstantCopy) {
      InsertedKeepsOrder(copies, key);
      copies' := Inserted(copies, key);
    } else if HasLifetime(sources, key, ConstantReference) {
      InsertedKeepsOrder(references, key);
      references' := Inserted(references, key);
    }
  }

  method HandleBoundaryConstants(sources: seq<Model>, keys: seq<Key>, copies: seq<Key>, references: seq<Key>, ghost s: set<Key>)
    returns (copies': seq<Key>, references': seq<Key>)
    requires Gathered(sources, s, copies, references)
    ensures Gathered(sources, s + ConstantsIn(sources, keys), copies', references')
  {
    copies', references' := copies, references;
    assert s + ConstantsIn(sources, keys[..0]) == s;
    for i := 0 to |keys|
      invariant Gathered(sources, s + ConstantsIn(sources, keys[..i]), copies', references')
    {
      copies', references' := HandleBoundaryConstant(sources, keys[i], copies', references', s + ConstantsIn(sources, keys[..i]));
      OneMoreConstant(sources, keys, i);
      assert s + ConstantsIn(sources, keys[..i]) + ConstantsIn(sources, [keys[i]]) == s + ConstantsIn(sources, keys[..i + 1]);
    }
    assert keys[..|keys|] == keys;
  }

  lemma OneMoreConstant(sources: seq<Model>, keys: seq<Key>, i: nat)
    requires i < |keys|
    ensures ConstantsIn(sources, keys[..i + 1]) == ConstantsIn(sources, keys[..i]) + ConstantsIn(sources, [keys[i]])
  {
    hide IsConstantKey;
    assert keys[..i + 1] == keys[..i] + [keys[i]];
  }

  lemma ConstantsOfStep(step: LogicalStep, sources: seq<Model>)
    ensures step.IfStep? ==> ConstantsFor(step, sources) == ConstantsIn(sources, [step.condition]) + ConstantsIn(sources, step.outerInputs)
    ensures step.WhileStep? ==> ConstantsFor(step, sources) == ConstantsIn(sources, step.outerInputs)
    ensures !step.IfStep? && !step.WhileStep? ==> ConstantsFor(step, sources) == {}
  {
    hide IsConstantKey;
  }

  lemma ConstantsOfOneMore(code: seq<LogicalStep>, sources: seq<Model>, i: nat)
    requires i < |code|
    ensures ConstantKeys(code[..i + 1], sources) == ConstantKeys(code[..i], sources) + ConstantsFor(code[i], sources)
  {
    hide ConstantsFor;
    var longer, shorter := code[..i + 1], code[..i];
    forall k ensures k in ConstantKeys(longer, sources) <==> k in ConstantKeys(shorter, sources) || k in ConstantsFor(code[i], sources) {
      if k in ConstantKeys(longer, sources) {
        var p :| 0 <= p < |longer| && k in ConstantsFor(longer[p], sources);
        if p < i { assert k in ConstantsFor(shorter[p], sources); }
      }
      if k in ConstantKeys(shorter, sources) {
        var p :| 0 <= p < |shorter| && k in ConstantsFor(shorter[p], sources);
        assert k in ConstantsFor(longer[p], sources);
      }
      if k in ConstantsFor(code[i], sources) { assert k in ConstantsFor(longer[i], sources); }
    }
  }

  /** Finds the constants that IF and WHILE steps read or pass on. */
  method FindControlFlowBoundaryConstants(code: seq<LogicalStep>, sources: seq<Model>) returns (copies: seq<Key>, references: seq<Key>)
    ensures SplitsConstants(code, sources, copies, references) && Ascending(copies) && Ascending(references)
  {
    hide ConstantKeys, ConstantsFor, ConstantsIn, IsConstantKey;
    copies, references := [], [];
    NoConstants(code, sources);
    for i := 0 to |code|
      invariant Gathered(sources, ConstantKeys(code[..i], sources), copies, references)
    {
      var step := code[i];
      ghost var s := ConstantKeys(code[..i], sources);
      ConstantsOfStep(step, sources);
      ConstantsOfOneMore(code, sources, i);
      hide Gathered;
      match step {
        case IfStep(condition, _, _, outerInputs, _, _, _, _, _) =>
          copies, references := HandleBoundaryConstants(sources, [condition], copies, references, s);
          copies, references := HandleBoundaryConstants(sources, outerInputs, copies, references, s + ConstantsIn(sources, [condition]));
          assert s + ConstantsIn(sources, [condition]) + ConstantsIn(sources, outerInputs) == s + ConstantsFor(step, sources);
        case WhileStep(_, _, _, outerInputs, _, _, _, _, _) =>
          copies, references := HandleBoundaryConstants(sources, outerInputs, copies, references, s);
        case _ =>
          assert s + ConstantsFor(step, sources) == s;
      }
    }
    assert code[..|code|] == code;
    GatheredSplits(code, sources, copies, references);
    assert Ascending(copies) && Ascending(references) by { GatheredInOrder(sources, ConstantKeys(code, sources), copies, references); }
  }

  lemma GatheredInOrder(sources: seq<Model>, s: set<Key>, copies: seq<Key>, references: seq<Key>)
    requires Gathered(sources, s, copies, references)
    ensures Ascending(copies) && Ascending(references)
  {
  }

  lemma NoConstants(code: seq<LogicalStep>, sources: seq<Model>)
    ensures ConstantKeys(code[..0], sources) == {}
  {
  }

  // ----- a whole execution -----

  // What an execution comes to. A model that one device takes whole has a single step.
  // The runtime does not notice temporaries that take more than 32 bits.
  datatype Executed = OneStep(device: nat) | TooLarge | NotFinished | Outputs(values: seq<Bytes>)

  // The main outputs, if the run has written all of them.
  method ReadOutputs(c: Controller, n: nat) returns (r: Executed)
    requires c.Valid()
    ensures r.Outputs? || r.NotFinished?
    ensures forall vals :: AreOutputs(StoreOf(c.layout, c.memory), n, vals) <==> r == Outputs(vals)
  {
    hide StoreOf, Holdable;
    var vals := [];
    for j := 0 to n
      invariant |vals| == j
      invariant forall i: nat :: i < j ==> Result(i) in c.memory && vals[i] == c.memory[Result(i)]
    {
      StoreHas(c.layout, c.memory, Result(j));
      if Result(j) !in c.memory {
        assert MainOutput(j) !in StoreOf(c.layout, c.memory);
        return NotFinished;
      }
      vals := vals + [c.memory[Result(j)]];
    }
    forall i: nat | i < n ensures MainOutput(i) in StoreOf(c.layout, c.memory) && StoreOf(c.layout, c.memory)[MainOutput(i)] == vals[i] {
      StoreHas(c.layout, c.memory, Result(i));
    }
    forall vals' | AreOutputs(StoreOf(c.layout, c.memory), n, vals') ensures vals' == vals {
    }
    r := Outputs(vals);
  }

  ghost predicate AreOutputs(store: map<Location, Bytes>, n: nat, vals: seq<Bytes>) {
    |vals| == n && forall j: nat :: j < n ==> MainOutput(j) in store && store[MainOutput(j)] == vals[j]
  }

  lemma EndHasOutputs(k: Kernels, m: Model, gs: seq<Group>, args: seq<Bytes>, end: nat, vals: seq<Bytes>)
    requires Schedules(gs, m) && EndsWith(k, m, gs, args, end, vals)
    ensures Steps(k, Plan(m, gs), Start(m, gs, args), end).Ended?
    ensures AreOutputs(Steps(k, Plan(m, gs), Start(m, gs, args), end).final.store, |m.outputIndexes|, vals)
  {
    hide Plan, Start, Steps, Schedules;
  }

  /** The flat run comes to an end within a number of steps. */
  ghost predicate EndsWithin(k: Kernels, m: Model, gs: seq<Group>, args: seq<Bytes>, budget: nat, vals: seq<Bytes>)
    requires Schedules(gs, m)
  {
    exists n: nat :: n <= budget && EndsWith(k, m, gs, args, n, vals)
  }

  /** Some budget is enough exactly if the nested run ends without coming to an operation
      that is not passable. */
  lemma EnoughSteps(k: Kernels, m: Model, gs: seq<Group>, args: seq<Bytes>, vals: seq<Bytes>)
    requires Models.Valid(m) && Schedules(gs, m) && |args| == |m.inputIndexes|
    ensures (exists fuel: nat :: RunModel(k, fuel, m, args) == Done(vals) && !ModelBlocks(k, fuel, m, args))
       <==> (exists budget: nat :: EndsWithin(k, m, gs, args, budget, vals))
  {
    hide Models.Valid, Schedules, EndsWith, RunModel, ModelBlocks;
    FlatteningPreservesMeaning(k, m, gs, args, vals);
    if n: nat :| EndsWith(k, m, gs, args, n, vals) {
      assert EndsWithin(k, m, gs, args, n, vals);
    }
  }

  /** The flat run comes to an end with the values. */
  ghost predicate Ends(k: Kernels, m: Model, gs: seq<Group>, args: seq<Bytes>, vals: seq<Bytes>)
    requires Schedules(gs, m)
  {
    exists n: nat :: EndsWith(k, m, gs, args, n, vals)
  }

  // Runs a controller that stands for the initial state.
  method RunFromStart(k: Kernels, ghost m: Model, ghost gs: seq<Group>, c: Controller, n: nat, args: seq<Bytes>, budget: nat) returns (r: Executed)
    requires Schedules(gs, m) && n == |m.outputIndexes| && c.code == Plan(m, gs)
    requires c.nextStepIndex == 0 && c.Running(m, gs) && c.AtMostOnce() && c.Tidy() && c.Snapshot(0) == Start(m, gs, args)
    modifies c
    ensures r.Outputs? || r.NotFinished?
    ensures forall vals :: EndsWithin(k, m, gs, args, budget, vals) ==> r == Outputs(vals)
    ensures r.Outputs? ==> Ends(k, m, gs, args, r.values)
  {
    hide Schedules, Plan, Start, EndsWith, Steps, AreOutputs, StoreOf, Maps.Fits, Maps.Disjoint, Maps.Locations, Holdable, InstalledPlan, Coherent, Controller.Tidy;
    var finished, taken := c.Run(k, m, gs, budget);
    forall vals | EndsWithin(k, m, gs, args, budget, vals)
      ensures finished && AreOutputs(StoreOf(c.layout, c.memory), n, vals)
    {
      var e: nat :| e <= budget && EndsWith(k, m, gs, args, e, vals);
      EndHasOutputs(k, m, gs, args, e, vals);
      EndIsOnly(k, m, gs, args, e, taken);
    }
    if !finished { return NotFinished; }
    r := ReadOutputs(c, n);
    if r.Outputs? {
      OutputsAtEnd(k, m, gs, args, taken, r.values);
      assert EndsWith(k, m, gs, args, taken, r.values);
    }
  }

  // Where a run ends within some steps, more steps, or a crash, are ruled out.
  lemma EndIsOnly(k: Kernels, m: Model, gs: seq<Group>, args: seq<Bytes>, e: nat, n: nat)
    requires Schedules(gs, m) && Steps(k, Plan(m, gs), Start(m, gs, args), e).Ended?
    ensures !Steps(k, Plan(m, gs), Start(m, gs, args), n).Crashed?
    ensures Steps(k, Plan(m, gs), Start(m, gs, args), n).To? ==> n < e
    ensures Steps(k, Plan(m, gs), Start(m, gs, args), n).Ended? ==> Steps(k, Plan(m, gs), Start(m, gs, args), n) == Steps(k, Plan(m, gs), Start(m, gs, args), e)
  {
    hide Plan, Start;
    if e <= n {
      StepsAreStable(k, Plan(m, gs), Start(m, gs, args), e, n);
    } else {
      StepsAreStable(k, Plan(m, gs), Start(m, gs, args), n, e);
    }
  }

  lemma OutputsAtEnd(k: Kernels, m: Model, gs: seq<Group>, args: seq<Bytes>, n: nat, vals: seq<Bytes>)
    requires Schedules(gs, m) && Steps(k, Plan(m, gs), Start(m, gs, args), n).Ended?
    requires AreOutputs(Steps(k, Plan(m, gs), Start(m, gs, args), n).final.store, |m.outputIndexes|, vals)
    ensures EndsWith(k, m, gs, args, n, vals)
  {
    hide Plan, Start, Steps, Schedules;
  }

  lemma StartIsTidy(m: Model, gs: seq<Group>, c: Controller, args: seq<Bytes>)
    requires Models.Valid(m) && Schedules(gs, m) && |args| == |m.inputIndexes|
    requires c.Valid() && c.code == Plan(m, gs) && c.Snapshot(0) == Start(m, gs, args)
    ensures c.Tidy()
  {
    hide *;
    PlanIsSeparated(m, gs);
    StartIsOwned(m, gs, args);
    c.OwnedIsTidy(0);
  }

  lemma EndedIsMeant(k: Kernels, m: Model, gs: seq<Group>, args: seq<Bytes>, vals: seq<Bytes>)
    requires Models.Valid(m) && Schedules(gs, m) && |args| == |m.inputIndexes| && Ends(k, m, gs, args, vals)
    ensures Means(k, m, args, vals)
  {
    hide *;
    AnEnd(k, m, gs, args, vals);
    FlatteningPreservesMeaning(k, m, gs, args, vals);
    NestedRunMeans(k, m, args, vals);
  }

  lemma AnEnd(k: Kernels, m: Model, gs: seq<Group>, args: seq<Bytes>, vals: seq<Bytes>)
    requires Schedules(gs, m) && Ends(k, m, gs, args, vals)
    ensures exists n: nat :: EndsWith(k, m, gs, args, n, vals)
  {
  }

  /** Partitions a model and runs the plan. If the temporaries fit into 32 bits, which the
      total of their sizes decides, and the budget of steps is large enough, the values of
      the nested run are left in the main outputs. Values are given only if they are what the
      model means. */
  method PartitionAndExecute(k: Kernels, m: Model, deviceCount: nat, sizes: Key -> nat, args: seq<Bytes>, budget: nat)
    returns (r: Executed, ghost gs: seq<Group>, ghost copies: seq<Key>, ghost references: seq<Key>)
    requires Models.Valid(m) && DevicesBelow(m, deviceCount) && |args| == |m.inputIndexes|
    requires forall key :: 0 < sizes(key) < UINT32_RANGE
    ensures r.OneStep? <==> exists d: nat :: OneDevice(m, d)
    ensures r.OneStep? ==> OneDevice(m, r.device)
    ensures !r.OneStep? ==> Schedules(gs, m) && Ascending(copies) && SplitsConstants(Plan(m, gs), [m] + AddedModels(m, gs), copies, references)
    ensures !r.OneStep? ==> (r.TooLarge? <==> TotalSize(Plan(m, gs), [m] + AddedModels(m, gs), sizes, copies) >= UINT32_RANGE)
    ensures r.NotFinished? || r.Outputs? ==> forall vals :: EndsWithin(k, m, gs, args, budget, vals) ==> r == Outputs(vals)
    ensures r.Outputs? ==> Ends(k, m, gs, args, r.values) && Means(k, m, args, r.values)
  {
    hide Models.Valid, DevicesBelow, Schedules, Emit, AddedModels, SplitsConstants, HomeKeys, Start, EndsWith, OneDevice, StoreOf, Steps, AreOutputs,
         Maps.Fits, Maps.Disjoint, Maps.Locations, Holdable, InstalledPlan, Coherent, TotalSize, Ascending, Means, Ends, EndsWithin, Controller.Tidy;
    copies, references := [], [];
    var plan := new ExecutionPlan();
    var body;
    body, gs := PartitionTheWork(plan, m, deviceCount);
    if body.SimpleBody? { return OneStep(body.device), gs, [], []; }
    var copied, referred := FindControlFlowBoundaryConstants(plan.steps, plan.sourceModels);
    copies, references := copied, referred;
    var c, size := MakeController(m, gs, plan.steps, plan.sourceModels, sizes, copied, referred, args);
    if size >= UINT32_RANGE { return TooLarge, gs, copies, references; }
    StartIsTidy(m, gs, c, args);
    r := RunFromStart(k, m, gs, c, |m.outputIndexes|, args, budget);
    if r.Outputs? { EndedIsMeant(k, m, gs, args, r.values); }
  }
}
