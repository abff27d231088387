/** Project versions: renames guarded by the version a client read never overwrite a change it did not see. */
module OptimisticLock {
  import opened Database
  import opened Replies
  import opened History
  import Ordering
  import Provenance
  import ProjectTable
  import ArtifactTable
  import RunTable
  import Text

  /** Event `i` renamed project `id`. */
  ghost predicate Renames(h: History, i: nat, id: string)
    requires i < |h|
  {
    h[i].command.RenameProject? && h[i].command.projectId == id && ReplyAt(h, i) == Flag(true)
  }

  /** The only change a project row undergoes is a successful rename at its own version, which raises the version. */
  lemma StepVersion(db: Db, e: Event, id: string)
    requires Keyed(db) && id in db.projects && id in Exec(db, e).0.projects
    ensures var before, after := db.projects[id], Exec(db, e).0.projects[id];
      if e.command.RenameProject? && e.command.projectId == id && Exec(db, e).1 == Flag(true)
      then before.version == e.command.expectedVersion && after.version == before.version + 1
           && after.name == e.command.name
      else after == before
  {
    UnfoldPublish(db, e);
    hide ArtifactTable.Publish, ArtifactTable.GetForRun, ProjectTable.ListProjects, RunTable.LookupRun;
  }

  lemma {:induction false} ProjectLivesBetween(h: History, i: nat, k: nat, j: nat, id: string)
    requires FreshIds(h) && i <= k <= j <= |h|
    requires id in At(h, i).projects && id in At(h, j).projects
    ensures id in At(h, k).projects
    decreases j
  {
    hide Exec;
    if k < j {
      KeyedAt(h, j - 1);
      Provenance.StepProject(At(h, j - 1), h[j - 1], id);
      if id in At(h, j - 1).projects {
        ProjectLivesBetween(h, i, k, j - 1, id);
      } else {
        Provenance.ProjectOrigin(h, i, id);
      }
    }
  }

  /** Versions never fall, and a version that has not moved means a row that has not changed. */
  lemma {:induction false} VersionTellsChange(h: History, i: nat, j: nat, id: string)
    requires FreshIds(h) && i <= j <= |h|
    requires id in At(h, i).projects && id in At(h, j).projects
    ensures At(h, i).projects[id].version <= At(h, j).projects[id].version
    ensures At(h, i).projects[id].version == At(h, j).projects[id].version ==>
      At(h, i).projects[id] == At(h, j).projects[id] && forall m: nat :: i <= m < j ==> !Renames(h, m, id)
    decreases j
  {
    hide Exec;
    if i < j {
      ProjectLivesBetween(h, i, j - 1, j, id);
      VersionTellsChange(h, i, j - 1, id);
      KeyedAt(h, j - 1);
      StepVersion(At(h, j - 1), h[j - 1], id);
    }
  }

  lemma RenamedIsThere(h: History, j: nat, id: string)
    requires j < |h| && Renames(h, j, id)
    ensures id in At(h, j).projects && id in At(h, j + 1).projects
    ensures At(h, j).projects[id].version == h[j].command.expectedVersion
    ensures At(h, j + 1).projects[id].version == h[j].command.expectedVersion + 1
  {}

  /** A rename with the version that was read takes effect only if nothing changed the project since the read. */
  lemma NoLostUpdate(h: History, i: nat, j: nat, id: string)
    requires FreshIds(h) && i <= j < |h| && id in At(h, i).projects
    requires Renames(h, j, id) && h[j].command.expectedVersion == At(h, i).projects[id].version
    ensures id in At(h, j).projects && At(h, j).projects[id] == At(h, i).projects[id]
    ensures forall m: nat :: i <= m < j ==> !Renames(h, m, id)
  {
    hide Exec;
    RenamedIsThere(h, j, id);
    VersionTellsChange(h, i, j, id);
  }

  /** Of any number of renames with the same expected version at most one ever succeeds. */
  lemma OneRenamePerVersion(h: History, i: nat, j: nat, id: string)
    requires FreshIds(h) && i < j < |h| && Renames(h, i, id)
    requires h[j].command.RenameProject? && h[j].command.projectId == id
    requires h[j].command.expectedVersion == h[i].command.expectedVersion
    ensures !Renames(h, j, id)
  {
    hide Exec;
    RenamedIsThere(h, i, id);
    if Renames(h, j, id) {
      RenamedIsThere(h, j, id);
      VersionTellsChange(h, i + 1, j, id);
    }
  }

  // ----- reading projects -----

  /** Every project added is an entity. */
  ghost predicate ValidProjects(h: History)
  {
    forall j :: 0 <= j < |h| && h[j].command.AddProject? ==> h[j].command.project.Valid()
  }

  lemma StepValid(db: Db, e: Event, id: string)
    requires id in Exec(db, e).0.projects && (id in db.projects ==> db.projects[id].Valid())
    requires e.command.AddProject? ==> e.command.project.Valid()
    ensures Exec(db, e).0.projects[id].Valid()
  {
    UnfoldPublish(db, e);
    hide ArtifactTable.Publish, ArtifactTable.GetForRun, ProjectTable.ListProjects, RunTable.LookupRun, Text.Blank;
  }

  lemma {:induction false} ProjectsStayValid(h: History, i: nat, id: string)
    requires ValidProjects(h) && i <= |h| && id in At(h, i).projects
    ensures At(h, i).projects[id].Valid()
  {
    hide Exec;
    if id in At(h, i - 1).projects {
      ProjectsStayValid(h, i - 1, id);
    }
    StepValid(At(h, i - 1), h[i - 1], id);
  }

  lemma {:induction false} RowsAreProjects(db: Db, ids: seq<string>)
    requires forall id :: id in ids ==> id in db.projects
    requires forall id :: id in db.projects ==> db.projects[id].Valid()
    ensures forall p :: p in ProjectTable.RowsOf(db, ids) ==> p.Valid()
  {
    if ids != [] { RowsAreProjects(db, ids[1..]); }
  }

  /** Reading and listing projects never trips the entity's own validation, however they were renamed. */
  lemma ProjectReadsNeverRaise(h: History, i: nat, tenant: string, id: string, limit: int, offset: int)
    requires ValidProjects(h) && i <= |h|
    ensures ProjectTable.GetProject(At(h, i), tenant, id).ProjectFound?
    ensures 1 <= limit <= 100 && offset >= 0
        ==> ProjectTable.ListProjects(At(h, i), tenant, limit, offset).ProjectsListed?
  {
    hide Exec;
    var db := At(h, i);
    forall p | p in db.projects
      ensures db.projects[p].Valid()
    {
      ProjectsStayValid(h, i, p);
    }
    if 1 <= limit <= 100 && offset >= 0 {
      Ordering.InOrderSorts(ProjectTable.ProjectsByCreation(db, tenant));
      var ids := Ordering.InOrder(ProjectTable.ProjectsByCreation(db, tenant));
      RowsAreProjects(db, ProjectTable.Page(ids, limit, offset));
    }
  }
}
