/**
 * The collecting analysis environment: it gathers the actions created during
 * analysis and later copies them, in creation order, into an action graph.
 */
module AnalysisEnvironment {
  import opened Wrappers
  import opened Actions
  import opened ActionGraph

  class CollectingAnalysisEnvironment {
    /** The actions created since the last `Clear`, in creation order. */
    var actions: seq<Action>

    constructor ()
      ensures actions == []
    {
      actions := [];
    }

    method RegisterAction(a: Action)
      modifies this
      ensures actions == old(actions) + [a]
    {
      actions := actions + [a];
    }

    /** Forgets the collected actions; graphs already registered with keep them. */
    method Clear()
      modifies this
      ensures actions == []
    {
      actions := [];
    }

    /** Registers the collected actions with `graph` in order, stopping at the
        first conflict. The collected actions themselves are kept. */
    method RegisterWith(graph: MutableActionGraph) returns (conflict: Option<ActionConflict>)
      requires graph.Valid()
      modifies graph
      ensures graph.Valid()
      ensures Registration(graph.generatingActions, conflict)
           == RegisterAll(old(graph.generatingActions), actions)
    {
      ghost var g0 := graph.generatingActions;
      conflict := None;
      var i := 0;
      while i < |actions|
        invariant 0 <= i <= |actions|
        invariant graph.Valid()
        invariant conflict.None?
        invariant Registration(graph.generatingActions, conflict) == RegisterAll(g0, actions[..i])
      {
        RegisterAllSnoc(g0, actions, i);
        conflict := graph.RegisterAction(actions[i]);
        i := i + 1;
        if conflict.Some? {
          RegisterAllStopsAtConflict(g0, actions, i);
          return;
        }
      }
      assert actions[..i] == actions;
    }
  }
}
