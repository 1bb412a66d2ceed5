/**
 * Artifacts: identities of build-time files. An artifact is a root-relative
 * path together with the root it lives under; two artifacts are the same
 * exactly when both parts are equal.
 */
module Artifacts {

  /** A root that artifacts are created under (a source root, an output
      directory, the middleman directory), identified by its name. */
  datatype ArtifactRoot = ArtifactRoot(name: string)

  datatype Artifact = Artifact(rootRelativePath: string, root: ArtifactRoot)
}
