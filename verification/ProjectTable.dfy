/** What each statement of the project repository does to the tables. */
module ProjectTable {
  import opened Outcome
  import opened Ordering
  import opened Database
  import opened Replies
  import opened RunTable

  function AddProject(db: Db, tenant: string, project: Project): (Db, Reply)
  {
    if project.tenantId != tenant then (db, Raised(ValueError))
    else if project.id in db.projects
            || exists id :: id in db.projects && db.projects[id].tenantId == tenant
                            && db.projects[id].name == project.name
    then (db, Raised(IntegrityError))
    else (db.(projects := db.projects[project.id := project]), Done)
  }

  function GetProject(db: Db, tenant: string, id: string): Reply
  {
    if !OwnProject(db, tenant, id) then ProjectFound(None)
    else if db.projects[id].Valid() then ProjectFound(Some(db.projects[id]))
    else Raised(ValueError)
  }

  function ProjectsByCreation(db: Db, tenant: string): map<string, int>
  {
    map id | id in db.projects && db.projects[id].tenantId == tenant :: db.projects[id].createdAt
  }

  function Page(ids: seq<string>, limit: nat, offset: nat): (page: seq<string>)
    ensures forall id :: id in page ==> id in ids
  {
    var rest := if offset <= |ids| then ids[offset..] else [];
    if limit <= |rest| then rest[..limit] else rest
  }

  /** Rebuilding the entities of a page raises when one of its rows breaks a rule. */
  function Rebuilt(rows: seq<Project>): Reply
  {
    if forall p :: p in rows ==> p.Valid() then ProjectsListed(rows) else Raised(ValueError)
  }

  function RowsOf(db: Db, ids: seq<string>): seq<Project>
    requires forall id :: id in ids ==> id in db.projects
  {
    if ids == [] then [] else [db.projects[ids[0]]] + RowsOf(db, ids[1..])
  }

  ghost function ListProjects(db: Db, tenant: string, limit: int, offset: int): Reply
  {
    if !(1 <= limit <= 100) || offset < 0 then Raised(ValueError)
    else
      InOrderSorts(ProjectsByCreation(db, tenant));
      Rebuilt(RowsOf(db, Page(InOrder(ProjectsByCreation(db, tenant)), limit, offset)))
  }

  /** `rename`: a read that validates the new name, then an update guarded by the version. */
  function RenameProject(db: Db, tenant: string, id: string, name: string, expectedVersion: int, now: int): (Db, Reply)
  {
    if !OwnProject(db, tenant, id) then (db, Flag(false))
    else if !db.projects[id].Valid() || !db.projects[id].(name := name, updatedAt := now).Valid()
    then (db, Raised(ValueError))
    else if db.projects[id].version != expectedVersion then (db, Flag(false))
    else if exists x :: x in db.projects && x != id && db.projects[x].tenantId == tenant && db.projects[x].name == name
    then (db, Raised(IntegrityError))
    else
      var p := db.projects[id];
      (db.(projects := db.projects[id := p.(name := name, updatedAt := now, version := p.version + 1)]), Flag(true))
  }

  /** Deleting a project cascades to its runs and to their artifacts. */
  function DeleteProject(db: Db, tenant: string, id: string): (Db, Reply)
  {
    if !OwnProject(db, tenant, id) then (db, Flag(false))
    else
      var runs := map r | r in db.runs && db.runs[r].projectId != id :: db.runs[r];
      var artifacts := map a | a in db.artifacts
                             && !(db.artifacts[a].runId in db.runs && db.runs[db.artifacts[a].runId].projectId == id)
                         :: db.artifacts[a];
      (Db(db.projects - {id}, runs, artifacts), Flag(true))
  }
}
