/**
 * The middleman scenarios, one method per test case: a fixture creates the
 * aggregating middleman for [a, b] and registers the collected actions with
 * a fresh action graph; each scenario then states, as its postcondition,
 * what the test case checks. The artifacts, owner, roots and purposes are
 * parameters, so each scenario holds for all of them (the test case itself
 * uses the purposes "middleman_test" and "runfiles").
 */
module MiddlemanActionTest {
  import opened Wrappers
  import opened Artifacts
  import opened Actions
  import opened ActionGraph
  import opened AnalysisEnvironment
  import opened Middleman
  import ActionCodec

  /** The fixture: the middleman `middle` for [a, b] is created and registered. */
  method InitializeMiddleman(owner: ActionOwner, a: Artifact, b: Artifact, middlemanDir: ArtifactRoot, purpose: string)
    returns (env: CollectingAnalysisEnvironment, factory: MiddlemanFactory,
             graph: MutableActionGraph, middle: Artifact)
    ensures fresh(env) && fresh(factory) && fresh(graph)
    ensures factory.env == env && graph.Valid()
    ensures middle == AggregatingStamp(owner, purpose, middlemanDir)
    ensures env.actions == [Action(AggregatingMiddleman, [a, b], [middle], owner)]
    ensures graph.generatingActions == map[middle := Action(AggregatingMiddleman, [a, b], [middle], owner)]
  {
    env := new CollectingAnalysisEnvironment();
    factory := new MiddlemanFactory(env);
    var r := factory.CreateAggregatingMiddleman(owner, purpose, [a, b], middlemanDir);
    middle := r.value;
    graph := new MutableActionGraph();
    var conflict := env.RegisterWith(graph);
    var action := Action(AggregatingMiddleman, [a, b], [middle], owner);
    assert env.actions == [action];
    assert env.actions[..0] == [];
    assert Register(map[], action).value.Keys == {middle};
  }

  method TestActionIsAMiddleman(owner: ActionOwner, a: Artifact, b: Artifact, middlemanDir: ArtifactRoot, purpose: string)
    returns (middleman: Option<Action>)
    ensures middleman == Some(Action(AggregatingMiddleman, [a, b], [AggregatingStamp(owner, purpose, middlemanDir)], owner))
    ensures middleman.Some? && middleman.value.actionType.IsMiddleman()
  {
    var env, factory, graph, middle := InitializeMiddleman(owner, a, b, middlemanDir, purpose);
    middleman := graph.GetGeneratingAction(middle);
  }

  method TestAAndBAreInputsToMiddleman(owner: ActionOwner, a: Artifact, b: Artifact, middlemanDir: ArtifactRoot, purpose: string)
    returns (middleman: Option<Action>)
    ensures middleman == Some(Action(AggregatingMiddleman, [a, b], [AggregatingStamp(owner, purpose, middlemanDir)], owner))
    ensures middleman.Some? && middleman.value.inputs == [a, b]
  {
    var env, factory, graph, middle := InitializeMiddleman(owner, a, b, middlemanDir, purpose);
    middleman := graph.GetGeneratingAction(middle);
  }

  method TestMiddleIsOutputOfMiddleman(owner: ActionOwner, a: Artifact, b: Artifact, middlemanDir: ArtifactRoot, purpose: string)
    returns (middle: Artifact, middleman: Option<Action>)
    ensures middle == AggregatingStamp(owner, purpose, middlemanDir)
    ensures middleman == Some(Action(AggregatingMiddleman, [a, b], [middle], owner))
    ensures middleman.Some? && middleman.value.outputs == [middle]
  {
    var env, factory, graph;
    env, factory, graph, middle := InitializeMiddleman(owner, a, b, middlemanDir, purpose);
    middleman := graph.GetGeneratingAction(middle);
  }

  /** An empty input list gives null and adds no action to the environment. */
  method TestMiddlemanIsNullForEmptyInputs(owner: ActionOwner, a: Artifact, b: Artifact, middlemanDir: ArtifactRoot, purpose: string)
    returns (result: Option<Artifact>, actionsBefore: seq<Action>, actionsAfter: seq<Action>)
    ensures result == None
    ensures actionsBefore == [Action(AggregatingMiddleman, [a, b], [AggregatingStamp(owner, purpose, middlemanDir)], owner)]
    ensures actionsAfter == actionsBefore
  {
    var env, factory, graph, middle := InitializeMiddleman(owner, a, b, middlemanDir, purpose);
    actionsBefore := env.actions;
    result := factory.CreateAggregatingMiddleman(owner, purpose, [], middlemanDir);
    actionsAfter := env.actions;
  }

  method TestMiddlemanIsIdentityForLonelyInput(owner: ActionOwner, a: Artifact, b: Artifact, middlemanDir: ArtifactRoot, purpose: string)
    returns (result: Option<Artifact>)
    ensures result == Some(a)
  {
    var env, factory, graph, middle := InitializeMiddleman(owner, a, b, middlemanDir, purpose);
    result := factory.CreateAggregatingMiddleman(owner, purpose, [a], middlemanDir);
  }

  /** After clearing the environment, runfiles middlemen for two distinct
      executables sharing `common` are created and registered; both resolve
      to their own middleman actions, whose input sets and output sets differ. */
  method TestDifferentExecutablesForRunfilesMiddleman(
    owner: ActionOwner, a: Artifact, b: Artifact, middlemanDir: ArtifactRoot, purpose: string,
    c: Artifact, d: Artifact, common: Artifact, runfilesPurpose: string)
    returns (actionForC: Option<Action>, actionForD: Option<Action>)
    requires c != d
    ensures actionForC == Some(Action(RunfilesMiddleman, [c, common], [RunfilesStamp(c, runfilesPurpose, middlemanDir)], owner))
    ensures actionForD == Some(Action(RunfilesMiddleman, [d, common], [RunfilesStamp(d, runfilesPurpose, middlemanDir)], owner))
    ensures actionForC.Some? && actionForD.Some?
    ensures actionForC.value.outputs == [RunfilesStamp(c, runfilesPurpose, middlemanDir)]
    ensures actionForD.value.outputs == [RunfilesStamp(d, runfilesPurpose, middlemanDir)]
    ensures actionForC.value.actionType.IsMiddleman() && actionForD.value.actionType.IsMiddleman()
    ensures Elements(actionForD.value.inputs) != Elements(actionForC.value.inputs)
    ensures Elements(actionForD.value.outputs) != Elements(actionForC.value.outputs)
  {
    var env, factory, graph, middle := InitializeMiddleman(owner, a, b, middlemanDir, purpose);
    ghost var g0 := graph.generatingActions;
    env.Clear();
    var middlemanForC := factory.CreateRunfilesMiddleman(owner, c, [c, common], middlemanDir, runfilesPurpose);
    var middlemanForD := factory.CreateRunfilesMiddleman(owner, d, [d, common], middlemanDir, runfilesPurpose);
    ghost var planC := PlanRunfilesMiddleman(owner, c, [c, common], middlemanDir, runfilesPurpose);
    ghost var planD := PlanRunfilesMiddleman(owner, d, [d, common], middlemanDir, runfilesPurpose);
    assert env.actions == [planC.action, planD.action];
    var conflict := env.RegisterWith(graph);

    // The two stamps differ from each other and from the fixture's.
    StampKindsDisjoint(owner, purpose, middlemanDir, c, runfilesPurpose, middlemanDir);
    StampKindsDisjoint(owner, purpose, middlemanDir, d, runfilesPurpose, middlemanDir);
    RunfilesStampIdentity(c, runfilesPurpose, middlemanDir, d, runfilesPurpose, middlemanDir);
    RegisterTwoFresh(g0, planC.action, planD.action, planC.stamp, planD.stamp);

    actionForC := graph.GetGeneratingAction(middlemanForC.value);
    actionForD := graph.GetGeneratingAction(middlemanForD.value);
    DistinctExecutablesGetDistinctMiddlemen(owner, c, d, common, middlemanDir, runfilesPurpose);
  }

  /** Two actions whose single outputs are distinct and unknown to the graph
      both register without a conflict, and each generates its output. */
  lemma RegisterTwoFresh(g: Generators, x: Action, y: Action, sx: Artifact, sy: Artifact)
    requires x.outputs == [sx] && y.outputs == [sy]
    requires sx !in g && sy !in g && sx != sy
    ensures RegisterAll(g, [x, y]).conflict.None?
    ensures Generates(RegisterAll(g, [x, y]).graph, x) && Generates(RegisterAll(g, [x, y]).graph, y)
  {
    var both := [x, y];
    assert both[..0] == [] && both[..2] == both;
    RegisterAllSnoc(g, both, 0);
    var g1 := Register(g, x).value;
    assert sy !in g1;
    RegisterAllSnoc(g, both, 1);
  }

  /** Serialising the middleman and reading it back, with every root it
      mentions resolvable, gives an equivalent action and stable words. */
  method TestCodec(owner: ActionOwner, a: Artifact, b: Artifact, middlemanDir: ArtifactRoot, purpose: string)
    returns (first: Action, second: Action)
    ensures first == Action(AggregatingMiddleman, [a, b], [AggregatingStamp(owner, purpose, middlemanDir)], owner)
    ensures ActionCodec.Deserialize(ActionCodec.Serialize(first), {a.root.name, b.root.name, middlemanDir.name})
      == Success(second)
    ensures ActionCodec.Serialize(second) == ActionCodec.Serialize(first)
    ensures Equivalent(first, second)
    ensures first.actionType.IsMiddleman()
  {
    var env, factory, graph, middle := InitializeMiddleman(owner, a, b, middlemanDir, purpose);
    first := graph.GetGeneratingAction(middle).value;
    var fileSystem: ActionCodec.Context := {a.root.name, b.root.name, middlemanDir.name};
    ActionCodec.RoundTrip(first, fileSystem);
    second := ActionCodec.Deserialize(ActionCodec.Serialize(first), fileSystem).value;
  }
}
