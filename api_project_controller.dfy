/**
 * The JSON API over projects: the filtered and ordered listing, lookup by
 * id, and the client's create, update and delete. The API's own request
 * types carry no attributes: their non-nullable Title and Description get
 * the implicit `[Required]`, and nothing else is checked, so any budget and
 * any status pass, and the owner may move a project to any status directly.
 */
module ApiProjects {
  import opened Domain
  import opened Data
  import Listing

  /** The listing, filtered and ordered as the query string asks. */
  method ListProjects(db: Db, q: Listing.ListQuery) returns (r: seq<(int, Project)>)
    ensures forall x :: x in r <==> x.0 in db.projects && db.projects[x.0] == x.1 && Listing.ProjectMatches(q, x.1)
    ensures q.sort == Some("budget_desc") ==> forall i, j :: 0 <= i < j < |r| ==> r[i].1.budget >= r[j].1.budget
    ensures q.sort == Some("budget_asc") ==> forall i, j :: 0 <= i < j < |r| ==> r[i].1.budget <= r[j].1.budget
    ensures !Listing.SortsByAmount(q) ==> forall i, j :: 0 <= i < j < |r| ==> r[i].1.createdAt >= r[j].1.createdAt
    ensures forall i, j :: 0 <= i < j < |r| ==> r[i].0 != r[j].0
  {
    var rows := Rows(db.projects);
    r := Listing.ProjectsQuery(rows, q);
  }

  /** One project by id; a missing id is answered with BadRequest, not NotFound. */
  method GetProject(db: Db, id: int) returns (r: Result<Project>)
    ensures id !in db.projects ==> r == Err(BadRequest)
    ensures id in db.projects ==> r == Ok(db.projects[id])
  {
    if id !in db.projects {
      return Err(BadRequest);
    }
    r := Ok(db.projects[id]);
  }

  /** The project CreateProject inserts: the caller as client, the requested status or else Open. */
  function NewProject(dto: CreateProjectDto, userId: UserId, now: int): (p: Project)
    ensures p.clientId == userId && p.createdAt == now
    ensures p.title == dto.title && p.description == dto.description && p.budget == dto.budget
    ensures dto.status.None? ==> p.status == ProjectStatus.Open
    ensures dto.status.Some? ==> p.status == dto.status.value
  {
    Project(dto.title, dto.description, dto.budget, userId,
            if dto.status.Some? then dto.status.value else ProjectStatus.Open, now)
  }

  /**
   * Creates a project for the caller. A blank title or description is
   * BadRequest before the action runs; a token without a user id is an
   * unhandled exception.
   */
  method CreateProject(db: Db, dto: CreateProjectDto, userId: Option<UserId>, now: int) returns (r: Result<int>)
    requires db.Valid()
    modifies db
    ensures db.Valid()
    ensures !ValidProjectText(dto.title, dto.description) ==> r == Err(BadRequest) && db.State() == old(db.State())
    ensures ValidProjectText(dto.title, dto.description) && userId.None? ==>
      r == Err(ServerError) && db.State() == old(db.State())
    ensures ValidProjectText(dto.title, dto.description) && userId.Some? ==>
      && r.Ok? && r.value > 0 && r.value !in old(db.projects)
      && db.State() == old(db.State()).(projects := old(db.projects)[r.value := NewProject(dto, userId.value, now)])
  {
    if !ValidProjectText(dto.title, dto.description) {
      return Err(BadRequest);
    }
    if userId.None? {
      return Err(ServerError);
    }
    var id := db.NewProjectId();
    db.projects := db.projects[id := NewProject(dto, userId.value, now)];
    r := Ok(id);
  }

  /** Whether the caller may change the project: NotFound when missing, Forbid when someone else's. */
  function OwnerGate(projects: map<int, Project>, id: int, userId: UserId): (r: Option<Code>)
    ensures r.None? <==> id in projects && projects[id].clientId == userId
    ensures r == Some(NotFound) <==> id !in projects
    ensures r == Some(Forbid) <==> id in projects && projects[id].clientId != userId
  {
    if id !in projects then Some(NotFound)
    else if projects[id].clientId != userId then Some(Forbid)
    else None
  }

  /** What an update writes: title, description, budget and status; the client and creation time stay. */
  function UpdatedProject(p: Project, dto: UpdateProjectDto): (r: Project)
    ensures r.title == dto.title && r.description == dto.description && r.budget == dto.budget && r.status == dto.status
    ensures r.clientId == p.clientId && r.createdAt == p.createdAt
  {
    p.(title := dto.title, description := dto.description, budget := dto.budget, status := dto.status)
  }

  /** Overwrites the caller's project with the request and answers with it; a blank title or description is BadRequest. */
  method UpdateProject(db: Db, id: int, dto: UpdateProjectDto, userId: UserId) returns (r: Result<Project>)
    requires db.Valid()
    modifies db
    ensures db.Valid()
    ensures !ValidProjectText(dto.title, dto.description) ==> r == Err(BadRequest) && db.State() == old(db.State())
    ensures ValidProjectText(dto.title, dto.description) && OwnerGate(old(db.projects), id, userId).Some? ==>
      r == Err(OwnerGate(old(db.projects), id, userId).value) && db.State() == old(db.State())
    ensures ValidProjectText(dto.title, dto.description) && OwnerGate(old(db.projects), id, userId).None? ==>
      && r == Ok(UpdatedProject(old(db.projects)[id], dto))
      && db.State() == old(db.State()).(projects := old(db.projects)[id := r.value])
  {
    if !ValidProjectText(dto.title, dto.description) {
      return Err(BadRequest);
    }
    var gate := OwnerGate(db.projects, id, userId);
    if gate.Some? {
      return Err(gate.value);
    }
    var p := UpdatedProject(db.projects[id], dto);
    db.projects := db.projects[id := p];
    r := Ok(p);
  }

  /** Removes the caller's project, and only that row. */
  method DeleteProject(db: Db, id: int, userId: UserId) returns (r: Result<Unit>)
    requires db.Valid()
    modifies db
    ensures db.Valid()
    ensures OwnerGate(old(db.projects), id, userId).Some? ==>
      r == Err(OwnerGate(old(db.projects), id, userId).value) && db.State() == old(db.State())
    ensures OwnerGate(old(db.projects), id, userId).None? ==> r.Ok? && db.State() == old(db.State()).(projects := old(db.projects) - {id})
  {
    var gate := OwnerGate(db.projects, id, userId);
    if gate.Some? {
      return Err(gate.value);
    }
    db.projects := db.projects - {id};
    r := Ok(());
  }
}
