/**
 * The action graph: a map from each output artifact to the one action that
 * generates it. Registration binds every output of an action to that action;
 * an output already bound to a different action is a conflict, and then the
 * graph is left as it was. Nothing is ever removed.
 */
module ActionGraph {
  import opened Wrappers
  import opened Artifacts
  import opened Actions

  type Generators = map<Artifact, Action>

  /** A registration refused because `artifact` is already generated by
      `previous`, which differs from the action being registered. */
  datatype ActionConflict = ActionConflict(artifact: Artifact, previous: Action, attempted: Action)

  /** Every artifact the graph knows is an output of its generating action. */
  ghost predicate WellFormed(g: Generators) {
    forall x | x in g :: x in g[x].outputs
  }

  /** `g` binds every output of `a` to `a`. */
  ghost predicate Generates(g: Generators, a: Action) {
    forall x | x in a.outputs :: x in g && g[x] == a
  }

  /** Everything `g` binds, `h` binds the same way. */
  ghost predicate Extends(h: Generators, g: Generators) {
    forall x | x in g :: x in h && h[x] == g[x]
  }

  /** The first artifact of `outputs`, in order, that `g` already binds to an
      action other than `a`. */
  function FirstConflict(g: Generators, a: Action, outputs: seq<Artifact>): (r: Option<Artifact>)
    ensures r.Some? ==> r.value in outputs && r.value in g && g[r.value] != a
    ensures r.None? <==> forall x | x in outputs :: x !in g || g[x] == a
  {
    if outputs == [] then None
    else if outputs[0] in g && g[outputs[0]] != a then Some(outputs[0])
    else FirstConflict(g, a, outputs[1..])
  }

  /** Registers `a`: fails on the first output bound to a different action,
      otherwise binds all outputs of `a` to it. */
  function Register(g: Generators, a: Action): (r: Result<Generators, ActionConflict>)
    ensures r.Failure? <==> exists x | x in a.outputs :: x in g && g[x] != a
    ensures r.Failure? ==>
      && r.error.attempted == a
      && r.error.artifact in a.outputs
      && r.error.artifact in g
      && r.error.previous == g[r.error.artifact] != a
    ensures r.Success? ==>
      && Generates(r.value, a)
      && Extends(r.value, g)
      && r.value.Keys == g.Keys + set x | x in a.outputs
  {
    match FirstConflict(g, a, a.outputs)
    case Some(x) => Failure(ActionConflict(x, g[x], a))
    case None => Success(g + map x | x in a.outputs :: a)
  }

  /** A successful registration keeps the graph well formed. */
  lemma RegisterPreservesWellFormed(g: Generators, a: Action)
    requires WellFormed(g)
    requires Register(g, a).Success?
    ensures WellFormed(Register(g, a).value)
  {
  }

  /** Registering an action a second time is a no-op. */
  lemma RegisterIdempotent(g: Generators, a: Action)
    requires Register(g, a).Success?
    ensures Register(Register(g, a).value, a) == Success(Register(g, a).value)
  {
    var h := Register(g, a).value;
    assert h == h + map x | x in a.outputs :: a;
  }

  /** The outcome of registering a sequence of actions in order: the graph
      reached, and the conflict that stopped registration, if any. */
  datatype Registration = Registration(graph: Generators, conflict: Option<ActionConflict>)

  /** Every output of every action in `actions`. */
  ghost function AllOutputs(actions: seq<Action>): set<Artifact> {
    set a, x | a in actions && x in a.outputs :: x
  }

  lemma AllOutputsSnoc(init: seq<Action>, last: Action)
    ensures AllOutputs(init + [last]) == AllOutputs(init) + set x | x in last.outputs
  {
  }

  /** Registers `actions` one after the other, stopping at the first conflict;
      the actions registered before it stay registered. Nothing bound before
      is lost or rebound; without a conflict the graph gains exactly the
      outputs of the actions, and a conflict is always raised by one of them. */
  function RegisterAll(g: Generators, actions: seq<Action>): (r: Registration)
    ensures Extends(r.graph, g)
    ensures r.conflict.None? ==> r.graph.Keys == g.Keys + AllOutputs(actions)
    ensures r.conflict.Some? ==> r.conflict.value.attempted in actions
    decreases |actions|
  {
    if actions == [] then Registration(g, None)
    else
      var init := actions[..|actions| - 1];
      var prev := RegisterAll(g, init);
      if prev.conflict.Some? then
        assert prev.conflict.value.attempted in init;
        prev
      else
        var last := actions[|actions| - 1];
        assert actions == init + [last];
        AllOutputsSnoc(init, last);
        match Register(prev.graph, last)
        case Success(h) => Registration(h, None)
        case Failure(c) => Registration(prev.graph, Some(c))
  }

  /** Registering one more action after a conflict-free prefix. */
  lemma RegisterAllSnoc(g: Generators, actions: seq<Action>, i: nat)
    requires i < |actions|
    requires RegisterAll(g, actions[..i]).conflict.None?
    ensures RegisterAll(g, actions[..i + 1]) ==
      match Register(RegisterAll(g, actions[..i]).graph, actions[i])
      case Success(h) => Registration(h, None)
      case Failure(c) => Registration(RegisterAll(g, actions[..i]).graph, Some(c))
  {
    assert actions[..i + 1][..i] == actions[..i];
  }

  /** The position of the action whose registration raised the conflict. */
  ghost function ConflictIndex(g: Generators, actions: seq<Action>): (k: nat)
    requires RegisterAll(g, actions).conflict.Some?
    ensures k < |actions|
    decreases |actions|
  {
    var init := actions[..|actions| - 1];
    if RegisterAll(g, init).conflict.Some? then ConflictIndex(g, init) else |actions| - 1
  }

  /** A conflict is raised by the action `actions[k]` at `ConflictIndex`: the
      graph reported is the one reached by registering the actions before it,
      all without a conflict, and registering `actions[k]` on it fails with
      that conflict. Each action before it generates all of its outputs. */
  lemma {:induction false} RegisterAllConflictAt(g: Generators, actions: seq<Action>)
    requires RegisterAll(g, actions).conflict.Some?
    ensures var k := ConflictIndex(g, actions);
      && RegisterAll(g, actions[..k]) == Registration(RegisterAll(g, actions).graph, None)
      && Register(RegisterAll(g, actions).graph, actions[k]) == Failure(RegisterAll(g, actions).conflict.value)
    ensures WellFormed(g) ==> var k := ConflictIndex(g, actions);
      forall a | a in actions[..k] :: Generates(RegisterAll(g, actions).graph, a)
    decreases |actions|
  {
    var init := actions[..|actions| - 1];
    var k := ConflictIndex(g, actions);
    if RegisterAll(g, init).conflict.Some? {
      RegisterAllConflictAt(g, init);
      assert init[..k] == actions[..k];
    } else {
      assert actions[..k] == init;
    }
    if WellFormed(g) {
      RegisterAllSound(g, actions[..k]);
    }
  }

  /** Once a prefix of `actions` has hit a conflict, the rest is not registered. */
  lemma {:induction false} RegisterAllStopsAtConflict(g: Generators, actions: seq<Action>, k: nat)
    requires k <= |actions|
    requires RegisterAll(g, actions[..k]).conflict.Some?
    ensures RegisterAll(g, actions) == RegisterAll(g, actions[..k])
    decreases |actions| - k
  {
    if k < |actions| {
      var init := actions[..|actions| - 1];
      assert init[..k] == actions[..k];
      RegisterAllStopsAtConflict(g, init, k);
    } else {
      assert actions[..k] == actions;
    }
  }

  /** Registering in order preserves well-formedness, never loses or rebinds
      an existing entry, and, when no conflict arises, leaves every registered
      action as the generator of each of its outputs. */
  lemma {:induction false} RegisterAllSound(g: Generators, actions: seq<Action>)
    requires WellFormed(g)
    ensures WellFormed(RegisterAll(g, actions).graph)
    ensures Extends(RegisterAll(g, actions).graph, g)
    ensures RegisterAll(g, actions).conflict.None? ==>
      forall a | a in actions :: Generates(RegisterAll(g, actions).graph, a)
    decreases |actions|
  {
    if actions != [] {
      var init := actions[..|actions| - 1];
      var last := actions[|actions| - 1];
      RegisterAllSound(g, init);
      var prev := RegisterAll(g, init);
      if prev.conflict.None? && Register(prev.graph, last).Success? {
        RegisterPreservesWellFormed(prev.graph, last);
        var h := Register(prev.graph, last).value;
        forall a | a in actions
          ensures Generates(h, a)
        {
          if a != last {
            assert a in init;
          }
        }
      }
    }
  }

  /** The mutable action graph that registration updates in place. */
  class MutableActionGraph {
    var generatingActions: Generators

    ghost predicate Valid()
      reads this
    {
      WellFormed(generatingActions)
    }

    constructor ()
      ensures Valid()
      ensures generatingActions == map[]
    {
      generatingActions := map[];
    }

    /** Registers `a`, or reports the conflict and changes nothing. */
    method RegisterAction(a: Action) returns (conflict: Option<ActionConflict>)
      requires Valid()
      modifies this
      ensures Valid()
      ensures match Register(old(generatingActions), a)
        case Success(h) => conflict.None? && generatingActions == h
        case Failure(c) => conflict == Some(c) && generatingActions == old(generatingActions)
    {
      match Register(generatingActions, a)
      case Success(h) =>
        RegisterPreservesWellFormed(generatingActions, a);
        generatingActions := h;
        conflict := None;
      case Failure(c) =>
        conflict := Some(c);
    }

    /** The action generating `artifact`, or None for a source artifact. */
    function GetGeneratingAction(artifact: Artifact): (r: Option<Action>)
      reads this
      ensures r.Some? <==> artifact in generatingActions
      ensures r.Some? ==> r.value == generatingActions[artifact]
      ensures Valid() && r.Some? ==> artifact in r.value.outputs
    {
      if artifact in generatingActions then Some(generatingActions[artifact]) else None
    }
  }
}
