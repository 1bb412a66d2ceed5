/**
 * The middleman factory: the only producer of middleman actions. A request
 * to aggregate a list of artifacts collapses the trivial cases (no input
 * gives nothing, one input is returned unchanged) and otherwise creates a
 * middleman action whose single output is a synthetic stamp artifact under
 * the middleman root. Aggregating middlemen are keyed by purpose and owner,
 * runfiles middlemen by purpose and executable.
 */
module Middleman {
  import opened Wrappers
  import opened Artifacts
  import opened Actions
  import opened MiddlemanNaming
  import opened AnalysisEnvironment

  /** What a factory request comes to: no artifact, the lone input itself,
      or a new stamp artifact together with the middleman action behind it. */
  datatype Outcome =
    | NoInputs
    | LoneInput(artifact: Artifact)
    | Synthesized(stamp: Artifact, action: Action)
  {
    /** The artifact handed back to the caller (None stands for null). */
    function Returned(): Option<Artifact> {
      match this
      case NoInputs => None
      case LoneInput(x) => Some(x)
      case Synthesized(stamp, _) => Some(stamp)
    }

    /** The actions the request creates. */
    function Created(): seq<Action> {
      if Synthesized? then [action] else []
    }
  }

  function Elements(s: seq<Artifact>): set<Artifact> {
    set x | x in s
  }

  /** The stamp artifact of an aggregating middleman: it lies under the
      middleman root, and its path records the key (purpose, owner). */
  function AggregatingStamp(owner: ActionOwner, purpose: string, middlemanDir: ArtifactRoot): (r: Artifact)
    ensures r.root == middlemanDir
    ensures KeyOfStampPath(r.rootRelativePath) == Some([purpose, owner.targetLabel])
  {
    Artifact(StampPath([purpose, owner.targetLabel]), middlemanDir)
  }

  /** The stamp artifact of a runfiles middleman: it lies under the
      middleman root, and its path records the key (purpose, executable),
      the executable's root included. */
  function RunfilesStamp(executable: Artifact, purpose: string, middlemanDir: ArtifactRoot): (r: Artifact)
    ensures r.root == middlemanDir
    ensures KeyOfStampPath(r.rootRelativePath) == Some([purpose, executable.root.name, executable.rootRelativePath])
  {
    Artifact(StampPath([purpose, executable.root.name, executable.rootRelativePath]), middlemanDir)
  }

  function Collapse(owner: ActionOwner, stamp: Artifact, inputs: seq<Artifact>, actionType: ActionType): Outcome {
    if |inputs| == 1 then LoneInput(inputs[0])
    else if inputs == [] then NoInputs
    else Synthesized(stamp, Action(actionType, inputs, [stamp], owner))
  }

  /** The outcome of an aggregating-middleman request. */
  function PlanAggregatingMiddleman(
    owner: ActionOwner, purpose: string, inputs: seq<Artifact>, middlemanDir: ArtifactRoot): (r: Outcome)
    ensures r.Returned().None? <==> inputs == []
    ensures |inputs| == 1 ==> r == LoneInput(inputs[0])
    ensures r.Created() != [] <==> |inputs| >= 2
    ensures |inputs| >= 2 ==>
      && r.Synthesized?
      && r.Returned() == Some(r.stamp)
      && r.stamp == AggregatingStamp(owner, purpose, middlemanDir)
      && r.action.actionType.IsMiddleman()
      && r.action == Action(AggregatingMiddleman, inputs, [r.stamp], owner)
  {
    Collapse(owner, AggregatingStamp(owner, purpose, middlemanDir), inputs, AggregatingMiddleman)
  }

  /** The outcome of a runfiles-middleman request for `executable`. */
  function PlanRunfilesMiddleman(
    owner: ActionOwner, executable: Artifact, inputs: seq<Artifact>,
    middlemanDir: ArtifactRoot, purpose: string): (r: Outcome)
    ensures r.Returned().None? <==> inputs == []
    ensures |inputs| == 1 ==> r == LoneInput(inputs[0])
    ensures r.Created() != [] <==> |inputs| >= 2
    ensures |inputs| >= 2 ==>
      && r.Synthesized?
      && r.Returned() == Some(r.stamp)
      && r.stamp == RunfilesStamp(executable, purpose, middlemanDir)
      && r.action.actionType.IsMiddleman()
      && r.action == Action(RunfilesMiddleman, inputs, [r.stamp], owner)
  {
    Collapse(owner, RunfilesStamp(executable, purpose, middlemanDir), inputs, RunfilesMiddleman)
  }

  /** Aggregating stamps agree exactly when purpose, owner and root agree,
      whatever the inputs. */
  lemma AggregatingStampIdentity(
    owner1: ActionOwner, purpose1: string, dir1: ArtifactRoot,
    owner2: ActionOwner, purpose2: string, dir2: ArtifactRoot)
    ensures AggregatingStamp(owner1, purpose1, dir1) == AggregatingStamp(owner2, purpose2, dir2)
        <==> owner1 == owner2 && purpose1 == purpose2 && dir1 == dir2
  {
    var p, q := [purpose1, owner1.targetLabel], [purpose2, owner2.targetLabel];
    StampPathInjective(p, q);
    if p == q {
      assert p[0] == q[0] && p[1] == q[1];
    }
  }

  /** Runfiles stamps agree exactly when executable, purpose and root agree. */
  lemma RunfilesStampIdentity(
    exec1: Artifact, purpose1: string, dir1: ArtifactRoot,
    exec2: Artifact, purpose2: string, dir2: ArtifactRoot)
    ensures RunfilesStamp(exec1, purpose1, dir1) == RunfilesStamp(exec2, purpose2, dir2)
        <==> exec1 == exec2 && purpose1 == purpose2 && dir1 == dir2
  {
    var p := [purpose1, exec1.root.name, exec1.rootRelativePath];
    var q := [purpose2, exec2.root.name, exec2.rootRelativePath];
    StampPathInjective(p, q);
    if p == q {
      assert p[0] == q[0] && p[1] == q[1] && p[2] == q[2];
    }
  }

  /** An aggregating stamp is never a runfiles stamp. */
  lemma StampKindsDisjoint(
    owner: ActionOwner, purpose1: string, dir1: ArtifactRoot,
    executable: Artifact, purpose2: string, dir2: ArtifactRoot)
    ensures AggregatingStamp(owner, purpose1, dir1) != RunfilesStamp(executable, purpose2, dir2)
  {
    StampPathInjective([purpose1, owner.targetLabel], [purpose2, executable.root.name, executable.rootRelativePath]);
  }

  /** Two distinct executables sharing a common input get two middleman
      actions whose input sets differ and whose output sets differ. */
  lemma DistinctExecutablesGetDistinctMiddlemen(
    owner: ActionOwner, c: Artifact, d: Artifact, common: Artifact,
    middlemanDir: ArtifactRoot, purpose: string)
    requires c != d
    ensures
      var forC := PlanRunfilesMiddleman(owner, c, [c, common], middlemanDir, purpose);
      var forD := PlanRunfilesMiddleman(owner, d, [d, common], middlemanDir, purpose);
      && forC.Synthesized? && forD.Synthesized?
      && Elements(forC.action.inputs) != Elements(forD.action.inputs)
      && Elements(forC.action.outputs) != Elements(forD.action.outputs)
  {
    var forC := PlanRunfilesMiddleman(owner, c, [c, common], middlemanDir, purpose);
    var forD := PlanRunfilesMiddleman(owner, d, [d, common], middlemanDir, purpose);
    RunfilesStampIdentity(c, purpose, middlemanDir, d, purpose, middlemanDir);
    if c == common {
      assert d in Elements(forD.action.inputs) && d !in Elements(forC.action.inputs);
    } else {
      assert c in Elements(forC.action.inputs) && c !in Elements(forD.action.inputs);
    }
    assert forC.stamp in Elements(forC.action.outputs) && forC.stamp !in Elements(forD.action.outputs);
  }

  /** Creates middlemen on behalf of analysis and collects the new actions in
      its analysis environment. */
  class MiddlemanFactory {
    const env: CollectingAnalysisEnvironment

    constructor (env: CollectingAnalysisEnvironment)
      ensures this.env == env
    {
      this.env := env;
    }

    method CreateAggregatingMiddleman(
      owner: ActionOwner, purpose: string, inputs: seq<Artifact>, middlemanDir: ArtifactRoot)
      returns (middleman: Option<Artifact>)
      modifies env
      ensures middleman == PlanAggregatingMiddleman(owner, purpose, inputs, middlemanDir).Returned()
      ensures env.actions == old(env.actions) + PlanAggregatingMiddleman(owner, purpose, inputs, middlemanDir).Created()
    {
      if |inputs| == 1 {
        return Some(inputs[0]);
      }
      middleman := CreateMiddleman(owner, AggregatingStamp(owner, purpose, middlemanDir), inputs, AggregatingMiddleman);
    }

    method CreateRunfilesMiddleman(
      owner: ActionOwner, executable: Artifact, inputs: seq<Artifact>,
      middlemanDir: ArtifactRoot, purpose: string)
      returns (middleman: Option<Artifact>)
      modifies env
      ensures middleman == PlanRunfilesMiddleman(owner, executable, inputs, middlemanDir, purpose).Returned()
      ensures env.actions == old(env.actions) + PlanRunfilesMiddleman(owner, executable, inputs, middlemanDir, purpose).Created()
    {
      if |inputs| == 1 {
        return Some(inputs[0]);
      }
      middleman := CreateMiddleman(owner, RunfilesStamp(executable, purpose, middlemanDir), inputs, RunfilesMiddleman);
    }

    /** Creates the middleman action of a middleman type for a non-empty input
        list and collects it; an empty list yields nothing. */
    method CreateMiddleman(owner: ActionOwner, stamp: Artifact, inputs: seq<Artifact>, actionType: ActionType)
      returns (middleman: Option<Artifact>)
      requires actionType.IsMiddleman()
      modifies env
      ensures inputs == [] ==> middleman == None && env.actions == old(env.actions)
      ensures inputs != [] ==>
        && middleman == Some(stamp)
        && env.actions == old(env.actions) + [Action(actionType, inputs, [stamp], owner)]
    {
      if inputs == [] {
        return None;
      }
      var action := Action(actionType, inputs, [stamp], owner);
      env.RegisterAction(action);
      middleman := Some(stamp);
    }
  }
}
