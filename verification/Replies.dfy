/** What a repository statement returns or raises. */
module Replies {
  import opened Outcome
  import opened Runs
  import opened Database

  datatype Reply =
    | Done
    | Raised(error: Error)
    | Flag(value: bool)
    | RunFound(run: Option<Run>)
    | Looked(existing: Option<Run>, projectExists: bool)
    | Created(created: Run)
    | Existing(row: Run)
    | Claimed(claim: Option<LeaseClaim>)
    | ProjectFound(project: Option<Project>)
    | ProjectsListed(projects: seq<Project>)
    | ArtifactFound(artifact: Option<Artifact>)
}
