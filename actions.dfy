/**
 * Actions: immutable build-step nodes of the action graph. An action has an
 * action type (a middleman kind or a normal action), ordered inputs, ordered
 * outputs and the owner on whose behalf it exists.
 */
module Actions {
  import opened Artifacts

  /** The kind of an action. Code that must treat middlemen specially asks
      `IsMiddleman()` instead of inspecting the action's class. */
  datatype ActionType =
    | Normal
    | AggregatingMiddleman
    | RunfilesMiddleman
    | SchedulingDependencyMiddleman
  {
    predicate IsMiddleman() {
      !Normal?
    }
  }

  /** The requester of an action (a build target), known by its target label. */
  datatype ActionOwner = ActionOwner(targetLabel: string)

  datatype Action = Action(
    actionType: ActionType,
    inputs: seq<Artifact>,
    outputs: seq<Artifact>,
    owner: ActionOwner)

  /** Two actions are equivalent when they agree on action type, inputs,
      outputs and owner. The model keeps no other field, so equivalence is
      structural equality. */
  predicate Equivalent(first: Action, second: Action): (r: bool)
    ensures r <==> first == second
  {
    && first.actionType == second.actionType
    && first.inputs == second.inputs
    && first.outputs == second.outputs
    && first.owner == second.owner
  }
}
