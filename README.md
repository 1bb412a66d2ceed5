# Middleman actions of a build action graph

This project models the aggregating ("middleman") part of a build system's action graph, as the
middleman test case pins it down, and proves its properties in Dafny.

- **Artifacts** (`Artifacts`) are values: a root-relative path and the root they live under.
- **Actions** (`Actions`) are records with four fields: an action type, ordered inputs, ordered
  outputs and an owner. `ActionType.IsMiddleman()` holds for every middleman kind.
- **The action graph** (`ActionGraph`) maps each output artifact to its generating action. The pure
  `Register` / `RegisterAll` functions specify registration. The class `MutableActionGraph` holds
  the map and updates it in place. An output that is already bound to a different action is a
  conflict, and the graph then stays unchanged.
- **The collecting analysis environment** (`AnalysisEnvironment`) is a class that holds the actions
  created so far. It supports `RegisterAction` (append), `Clear` and `RegisterWith`. `RegisterWith`
  registers the collected actions with a graph in order and stops at the first conflict.
- **The middleman factory** (`Middleman`) collapses the trivial cases:
  - no input gives nothing (null);
  - one input is returned unchanged;
  - two or more inputs give a fresh stamp artifact under the middleman root, whose generating
    action is a middleman with exactly those inputs and only that stamp as output.

  Aggregating stamps are keyed by (purpose, owner label). Runfiles stamps are keyed by (purpose,
  executable).
- **Stamp naming** (`MiddlemanNaming`) derives the stamp path from the list of key parts. Each part
  is escaped and then terminated, which makes the derivation injective. This is proved through a
  decoder of the escaped form.
- **The codec** (`ActionCodec`) serialises an action to a sequence of words. It deserialises
  against a context of resolvable root names. The round trip gives an equivalent action and stable
  words. An unresolvable root or trailing words give a decoding error. Decoding accepts only the
  exact serialised form of what it returns.
- **The test scenarios** (`MiddlemanActionTest`) have one method per test case, plus the shared
  fixture. Each states in its postcondition what the test case asserts. Artifacts, owner, roots and
  purposes are parameters, so every scenario holds for all of them.

The implementations of the middleman factory, the middleman action and the collecting environment
are not part of this model's sources. Their behaviour is rebuilt from what the test states. Where
the test fixes nothing, the model chooses:
- the stamp path scheme (any deterministic, injective scheme serves);
- the handling of registration conflicts;
- the result for an empty runfiles input list. The model applies the same collapsing rule as for
  aggregation and returns nothing. Returning the executable itself would be another reading; the
  test exercises neither.

The model keeps the collecting environment as a staging buffer between the factory and the graph,
because the test registers through it (`registerWith`, `clear`).

## Model

| member | source | states |
|---|---|---|
| `Actions.Equivalent` | src/test/java/com/google/devtools/build/lib/exec/MiddlemanActionTest.java:149-154 | two actions are equivalent (same action type, inputs, outputs, owner) exactly when they are equal |
| `ActionGraph.Register` | src/test/java/com/google/devtools/build/lib/exec/MiddlemanActionTest.java:67 | registration fails exactly when some output is already bound to a different action, and the reported conflict names that output, the previous action and the attempted one; on success every output of the action maps to it, earlier bindings are kept, and the keys grow by exactly the outputs |
| `ActionGraph.RegisterPreservesWellFormed` | src/test/java/com/google/devtools/build/lib/exec/MiddlemanActionTest.java:67 | after a successful registration every artifact in the graph is still among its generator's outputs |
| `ActionGraph.RegisterIdempotent` | src/test/java/com/google/devtools/build/lib/exec/MiddlemanActionTest.java:130 | registering the same action again leaves the graph as it is |
| `ActionGraph.RegisterAll` | src/test/java/com/google/devtools/build/lib/exec/MiddlemanActionTest.java:130 | registering in order never drops or rebinds an entry; without a conflict the graph gains exactly the outputs of all the actions; a reported conflict is always raised by one of the actions |
| `ActionGraph.RegisterAllConflictAt` | src/test/java/com/google/devtools/build/lib/exec/MiddlemanActionTest.java:130 | a conflict is raised at one position k: the graph reported is the conflict-free result of registering the actions before k, registering action k on it fails with exactly that conflict, and (from a well-formed graph) every action before k generates all of its outputs |
| `ActionGraph.RegisterAllStopsAtConflict` | src/test/java/com/google/devtools/build/lib/exec/MiddlemanActionTest.java:130 | once a conflict has occurred, the remaining actions are not registered |
| `ActionGraph.RegisterAllSound` | src/test/java/com/google/devtools/build/lib/exec/MiddlemanActionTest.java:130-133 | registering in order keeps the graph well formed and never drops or rebinds an entry; without a conflict, each registered action generates every one of its outputs |
| `ActionGraph.MutableActionGraph.constructor` | src/test/java/com/google/devtools/build/lib/exec/MiddlemanActionTest.java:67 | a new graph is empty and well formed |
| `ActionGraph.MutableActionGraph.RegisterAction` | src/test/java/com/google/devtools/build/lib/exec/MiddlemanActionTest.java:67 | updates the graph in place to what `Register` gives, or reports the conflict and leaves the graph unchanged; the graph stays well formed |
| `ActionGraph.MutableActionGraph.GetGeneratingAction` | src/test/java/com/google/devtools/build/lib/exec/MiddlemanActionTest.java:72 | gives an action exactly for the artifacts the graph knows, namely the bound one; in a well-formed graph the artifact is among that action's outputs |
| `AnalysisEnvironment.CollectingAnalysisEnvironment.constructor` | src/test/java/com/google/devtools/build/lib/exec/MiddlemanActionTest.java:59-61 | a new environment has collected no actions |
| `AnalysisEnvironment.CollectingAnalysisEnvironment.RegisterAction` | src/test/java/com/google/devtools/build/lib/exec/MiddlemanActionTest.java:62-66 | appends the created action to the collected ones |
| `AnalysisEnvironment.CollectingAnalysisEnvironment.Clear` | src/test/java/com/google/devtools/build/lib/exec/MiddlemanActionTest.java:121 | empties the collected actions |
| `AnalysisEnvironment.CollectingAnalysisEnvironment.RegisterWith` | src/test/java/com/google/devtools/build/lib/exec/MiddlemanActionTest.java:130 | the graph afterwards and the reported conflict are exactly those of registering the collected actions in order, stopping at the first conflict; the graph stays well formed |
| `MiddlemanNaming.StampPath` | src/test/java/com/google/devtools/build/lib/exec/MiddlemanActionTest.java:63-66 | the stamp path of a key lies in the stamp directory, and the key can be read back from it |
| `MiddlemanNaming.ReadEscapedPart` | src/test/java/com/google/devtools/build/lib/exec/MiddlemanActionTest.java:122-129 | reading an escaped, terminated part gives back the part and exactly what follows it |
| `MiddlemanNaming.DecodeEncodeParts` | src/test/java/com/google/devtools/build/lib/exec/MiddlemanActionTest.java:122-129 | decoding an encoded key gives back the key's parts |
| `MiddlemanNaming.StampPathInjective` | src/test/java/com/google/devtools/build/lib/exec/MiddlemanActionTest.java:135-138 | two keys have the same stamp path exactly when they are equal |
| `Middleman.AggregatingStamp` | src/test/java/com/google/devtools/build/lib/exec/MiddlemanActionTest.java:63-66 | the aggregating stamp lies under the middleman root, and its path records the key (purpose, owner label) |
| `Middleman.RunfilesStamp` | src/test/java/com/google/devtools/build/lib/exec/MiddlemanActionTest.java:122-129 | the runfiles stamp lies under the middleman root, and its path records the key (purpose, executable root, executable path) |
| `Middleman.PlanAggregatingMiddleman` | src/test/java/com/google/devtools/build/lib/exec/MiddlemanActionTest.java:91-110 | nothing is returned exactly for an empty list; one input is returned unchanged; an action is created exactly for two or more inputs, and then the returned stamp is derived from (purpose, owner) under the middleman root and is generated by an aggregating middleman with exactly the given inputs, only the stamp as output, and the given owner |
| `Middleman.PlanRunfilesMiddleman` | src/test/java/com/google/devtools/build/lib/exec/MiddlemanActionTest.java:122-129 | the same collapsing rules; for two or more inputs the stamp is derived from (purpose, executable) and its generator is a runfiles middleman with exactly the given inputs and only the stamp as output |
| `Middleman.AggregatingStampIdentity` | src/test/java/com/google/devtools/build/lib/exec/MiddlemanActionTest.java:63-66 | two aggregating stamps are equal exactly when purpose, owner and middleman root are equal, whatever the inputs |
| `Middleman.RunfilesStampIdentity` | src/test/java/com/google/devtools/build/lib/exec/MiddlemanActionTest.java:122-129 | two runfiles stamps are equal exactly when executable, purpose and middleman root are equal |
| `Middleman.StampKindsDisjoint` | src/test/java/com/google/devtools/build/lib/exec/MiddlemanActionTest.java:121-133 | an aggregating stamp never equals a runfiles stamp, so both kinds can be registered in one graph |
| `Middleman.DistinctExecutablesGetDistinctMiddlemen` | src/test/java/com/google/devtools/build/lib/exec/MiddlemanActionTest.java:112-139 | for executables c ≠ d with inputs [c, common] and [d, common], both requests create middleman actions, whose input sets differ and whose output sets differ |
| `Middleman.MiddlemanFactory.constructor` | src/test/java/com/google/devtools/build/lib/exec/MiddlemanActionTest.java:62 | the factory collects into the given environment |
| `Middleman.MiddlemanFactory.CreateAggregatingMiddleman` | src/test/java/com/google/devtools/build/lib/exec/MiddlemanActionTest.java:63-66 | returns what `PlanAggregatingMiddleman` decides and appends exactly the actions it creates to the environment |
| `Middleman.MiddlemanFactory.CreateRunfilesMiddleman` | src/test/java/com/google/devtools/build/lib/exec/MiddlemanActionTest.java:122-129 | returns what `PlanRunfilesMiddleman` decides and appends exactly the actions it creates to the environment |
| `Middleman.MiddlemanFactory.CreateMiddleman` | src/test/java/com/google/devtools/build/lib/exec/MiddlemanActionTest.java:91-99 | called only with a middleman action type; an empty input list yields nothing and creates no action; otherwise it yields the stamp and collects exactly one action of that type with the given inputs, only the stamp as output, and the given owner |
| `ActionCodec.TypeOfTag` | src/test/java/com/google/devtools/build/lib/exec/MiddlemanActionTest.java:150 | a decoded tag re-encodes to itself, and each of the four action-type tags decodes |
| `ActionCodec.ReadCharCodes` | src/test/java/com/google/devtools/build/lib/exec/MiddlemanActionTest.java:141-147 | reading as many character codes as a string has gives back the string and exactly the words after it |
| `ActionCodec.StringRoundTrip` | src/test/java/com/google/devtools/build/lib/exec/MiddlemanActionTest.java:153 | a serialised string reads back whole, leaving exactly the words after it |
| `ActionCodec.ArtifactRoundTrip` | src/test/java/com/google/devtools/build/lib/exec/MiddlemanActionTest.java:143-144 | a serialised artifact reads back when the context resolves its root, and otherwise fails naming that root |
| `ActionCodec.ArtifactSeqRoundTrip` | src/test/java/com/google/devtools/build/lib/exec/MiddlemanActionTest.java:151-152 | a serialised artifact list reads back when every root resolves, and otherwise fails |
| `ActionCodec.ArtifactsRoundTrip` | src/test/java/com/google/devtools/build/lib/exec/MiddlemanActionTest.java:151-152 | the same for a counted artifact list |
| `ActionCodec.Serialize` | src/test/java/com/google/devtools/build/lib/exec/MiddlemanActionTest.java:143 | the first word of a serialised action names its action type |
| `ActionCodec.Deserialize` | src/test/java/com/google/devtools/build/lib/exec/MiddlemanActionTest.java:143-144 | whatever it accepts is exactly the serialised form of the action it returns, so reading is one-to-one; every root of that action is one the context resolves |
| `ActionCodec.DeserializeSerialized` | src/test/java/com/google/devtools/build/lib/exec/MiddlemanActionTest.java:141-147 | deserialising a serialised action gives it back exactly when every root resolves and no words follow; in every other case it fails |
| `ActionCodec.RoundTrip` | src/test/java/com/google/devtools/build/lib/exec/MiddlemanActionTest.java:141-154 | with resolvable roots, the deserialised action is equivalent to the original, and serialising it again gives the same words |
| `MiddlemanActionTest.InitializeMiddleman` | src/test/java/com/google/devtools/build/lib/exec/MiddlemanActionTest.java:51-68 | after the fixture, the graph maps exactly the stamp `middle` to the aggregating middleman over [a, b], and the environment holds that one action |
| `MiddlemanActionTest.TestActionIsAMiddleman` | src/test/java/com/google/devtools/build/lib/exec/MiddlemanActionTest.java:70-76 | the generating action of `middle` is the aggregating middleman over [a, b] with output [middle] and the given owner, so its action type is a middleman |
| `MiddlemanActionTest.TestAAndBAreInputsToMiddleman` | src/test/java/com/google/devtools/build/lib/exec/MiddlemanActionTest.java:78-82 | the generating action of `middle` is that aggregating middleman, and its inputs are exactly [a, b] |
| `MiddlemanActionTest.TestMiddleIsOutputOfMiddleman` | src/test/java/com/google/devtools/build/lib/exec/MiddlemanActionTest.java:84-88 | `middle` is the aggregating stamp for (purpose, owner); its generating action is the aggregating middleman over [a, b], and its outputs are exactly [middle] |
| `MiddlemanActionTest.TestMiddlemanIsNullForEmptyInputs` | src/test/java/com/google/devtools/build/lib/exec/MiddlemanActionTest.java:90-99 | an empty input list gives null; the environment holds the fixture's middleman action before the call and the same actions after it |
| `MiddlemanActionTest.TestMiddlemanIsIdentityForLonelyInput` | src/test/java/com/google/devtools/build/lib/exec/MiddlemanActionTest.java:101-110 | a single input [a] gives back a itself |
| `MiddlemanActionTest.TestDifferentExecutablesForRunfilesMiddleman` | src/test/java/com/google/devtools/build/lib/exec/MiddlemanActionTest.java:112-139 | after `clear()`, the two runfiles stamps are registered with no conflict; each resolves to the runfiles middleman over [c, common] (respectively [d, common]) whose only output is its own stamp; the two actions' input sets differ and their output sets differ |
| `MiddlemanActionTest.RegisterTwoFresh` | src/test/java/com/google/devtools/build/lib/exec/MiddlemanActionTest.java:130 | two actions whose single outputs are distinct and unknown to the graph register in order without a conflict, and each then generates its output |
| `MiddlemanActionTest.TestCodec` | src/test/java/com/google/devtools/build/lib/exec/MiddlemanActionTest.java:141-154 | the middleman action is the fixture's aggregating middleman; deserialising its words against the roots of a, b and the middleman root succeeds with an action equivalent to it that serialises to the same words |

## Left out

- Target analysis and the virtual file system of the test base class are left out (scratch BUILD files, configured targets, files to build, the configuration's middleman directory). Artifacts and roots are parameter values instead.
- The byte format is left out. Serialisation produces words (natural numbers). The injected file-system dependency is a context: the set of root names the reader can resolve.
- The artifact factory is left out. Stamp artifacts are built as plain values, with no caching or ownership bookkeeping.
- The actions that generate `a` and `b` (the dummy rules) are not in the graph. The fixture starts from an empty graph.
- Duplicate inputs are kept as given; inputs are not deduplicated.
- Registration conflicts behave as follows in the model. A conflicting action is refused atomically, and none of its outputs is bound. `registerWith` stops at the first conflict and reports it instead of throwing.
- `Middleman.PlanRunfilesMiddleman`: the result for an empty input list (nothing, no action) is a modelling choice. The test never requests a runfiles middleman without inputs, and returning the executable itself would be another reading.
- The executable passed for a runfiles middleman is always present. A missing executable is not modelled.
- Concurrency and parallel analysis are left out. The model is sequential.
- `src/test/java/com/google/devtools/build/lib/rules/cpp/CompileBuildVariablesTest.java` is not part of this model. Its compile-flag variables come from toolchain and configuration machinery outside this core.
