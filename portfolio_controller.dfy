/**
 * The portfolio handlers: the upsert, the lookups, the owner's delete, and
 * the three operations on the caller's embedded projects. The caller's
 * portfolio is always the one `findOne({ user })` returns.
 */
module PortfolioController {
  import opened Wrappers
  import opened Http
  import opened Persistence
  import opened UserModel
  import opened PortfolioModel
  import opened Database

  /** The sort key `createdAt` of every portfolio. */
  function CreatedAt(portfolios: map<ObjectId, Portfolio>): (key: map<ObjectId, int>)
    ensures key.Keys == portfolios.Keys
  {
    map id | id in portfolios :: portfolios[id].createdAt
  }

  /** `getAllPortfolios`: every portfolio exactly once, newest first. */
  function GetAllPortfolios(portfolios: map<ObjectId, Portfolio>): (r: seq<ObjectId>)
    ensures forall id :: id in r <==> id in portfolios
    ensures forall i, j :: 0 <= i < j < |r| ==> r[i] != r[j]
    ensures forall i, j :: 0 <= i < j < |r| ==> portfolios[r[i]].createdAt >= portfolios[r[j]].createdAt
  {
    var r := FindSortedDesc(portfolios.Keys, CreatedAt(portfolios));
    OnceEach(r, portfolios.Keys);
    r
  }

  /** `getPortfolioByUserId`: the user's portfolio, or 404 when the user has none. */
  function GetPortfolioByUserId(portfolios: map<ObjectId, Portfolio>, user: ObjectId): (r: Reply<ObjectId>)
    ensures r.Refused? <==> forall p :: p in portfolios ==> portfolios[p].user != user
    ensures r.Refused? ==> r.response == Response(StatusNotFound, "Portfolio not found")
    ensures r.Ok? ==> r.value in portfolios && portfolios[r.value].user == user
  {
    match FindByUser(portfolios, user)
    case None => Refused(Response(StatusNotFound, "Portfolio not found"))
    case Some(p) => Ok(p)
  }

  /** `getMyPortfolio`: the caller's portfolio, or 404 when the caller has none. */
  function GetMyPortfolio(portfolios: map<ObjectId, Portfolio>, caller: PublicUser): (r: Reply<ObjectId>)
    ensures r.Refused? <==> forall p :: p in portfolios ==> portfolios[p].user != caller.id
    ensures r.Refused? ==> r.response == Response(StatusNotFound, "Portfolio not found")
    ensures r.Ok? ==> r.value in portfolios && portfolios[r.value].user == caller.id
  {
    GetPortfolioByUserId(portfolios, caller.id)
  }

  /** `createOrUpdatePortfolio`: when the caller has a portfolio its projects are
      replaced by the cast input (200); otherwise a portfolio holding them is
      created (201). A project without title or description fails the save (500).
      Afterwards the caller has exactly one portfolio, and no other user's
      portfolio has been read or written. */
  method CreateOrUpdatePortfolio(db: Store, caller: PublicUser, projects: seq<ProjectFields>, now: int)
    returns (res: Response)
    requires db.Valid()
    modifies db
    ensures db.Valid()
    ensures db.users == old(db.users) && db.jobs == old(db.jobs) && db.applications == old(db.applications)
    ensures !(forall k :: 0 <= k < |projects| ==> ValidFields(projects[k])) ==>
      res == ServerError && unchanged(db)
    ensures (forall k :: 0 <= k < |projects| ==> ValidFields(projects[k])) ==>
      match FindByUser(old(db.portfolios), caller.id)
      case Some(p) =>
        && res == Response(StatusOk, "Portfolio updated successfully")
        && db.portfolios == old(db.portfolios)[p := old(db.portfolios)[p].(
             projects := NewProjects(projects, old(db.nextId)))]
        && db.nextId == old(db.nextId) + |projects|
      case None =>
        && res == Response(StatusCreated, "Portfolio created successfully")
        && old(db.nextId) !in old(db.portfolios)
        && db.portfolios == old(db.portfolios)[old(db.nextId) :=
             Portfolio(caller.id, NewProjects(projects, old(db.nextId) + 1), now)]
        && db.nextId == old(db.nextId) + 1 + |projects|
    ensures res.status != StatusServerError ==>
      exists p, first :: PortfoliosOf(db.portfolios, caller.id) == {p}
        && db.portfolios[p].projects == NewProjects(projects, first)
    ensures forall q :: q in old(db.portfolios) && old(db.portfolios)[q].user != caller.id ==>
      q in db.portfolios && db.portfolios[q] == old(db.portfolios)[q]
  {
    NewProjectsValidation(caller.id, projects, db.nextId, now);
    NewProjectsValidation(caller.id, projects, db.nextId + 1, now);
    var found := FindByUser(db.portfolios, caller.id);
    if found.Some? {
      var p := found.value;
      var cast := NewProjects(projects, db.nextId);
      if !ValidPortfolio(db.portfolios[p].(projects := cast)) {
        return ServerError;
      }
      OnlyPortfolio(db.portfolios, caller.id);
      SaveProjects(db, p, cast, |projects|);
      assert PortfoliosOf(db.portfolios, caller.id) == {p};
      res := Response(StatusOk, "Portfolio updated successfully");
    } else {
      var created := Portfolio(caller.id, NewProjects(projects, db.nextId + 1), now);
      if !ValidPortfolio(created) {
        return ServerError;
      }
      var p := InsertPortfolio(db, created, |projects|);
      assert PortfoliosOf(db.portfolios, caller.id) == {p};
      res := Response(StatusCreated, "Portfolio created successfully");
    }
  }

  /** `Portfolio.create(...)` for a user who has none: stored under a fresh id. */
  method InsertPortfolio(db: Store, created: Portfolio, idsUsed: nat) returns (p: ObjectId)
    requires db.Valid() && ValidPortfolio(created)
    requires forall q :: q in db.portfolios ==> db.portfolios[q].user != created.user
    modifies db
    ensures db.Valid()
    ensures p == old(db.nextId) && p !in old(db.portfolios)
    ensures db.portfolios == old(db.portfolios)[p := created]
    ensures db.nextId == old(db.nextId) + 1 + idsUsed
    ensures db.users == old(db.users) && db.jobs == old(db.jobs) && db.applications == old(db.applications)
  {
    p := db.nextId;
    InsertKeepsOnePerUser(db.portfolios, p, created);
    db.portfolios := db.portfolios[p := created];
    db.nextId := db.nextId + 1 + idsUsed;
  }

  /** Replacing a portfolio by one of the same owner keeps one per user. */
  lemma ReplaceKeepsOnePerUser(portfolios: map<ObjectId, Portfolio>, id: ObjectId, p: Portfolio)
    requires OnePerUser(portfolios) && id in portfolios && portfolios[id].user == p.user
    ensures OnePerUser(portfolios[id := p])
  {
    var m := portfolios[id := p];
    forall a, b | a in m && b in m && m[a].user == m[b].user ensures a == b {
      assert portfolios[a].user == m[a].user && portfolios[b].user == m[b].user;
    }
  }

  /** `deletePortfolio`: 404 when missing, 403 unless the caller owns it, else
      that portfolio alone is removed. */
  method DeletePortfolio(db: Store, caller: PublicUser, id: ObjectId) returns (res: Response)
    requires db.Valid()
    modifies db
    ensures db.Valid()
    ensures id !in old(db.portfolios) ==>
      res == Response(StatusNotFound, "Portfolio not found") && unchanged(db)
    ensures id in old(db.portfolios) && old(db.portfolios)[id].user != caller.id ==>
      res == Response(StatusForbidden, "Not authorized to delete this portfolio") && unchanged(db)
    ensures id in old(db.portfolios) && old(db.portfolios)[id].user == caller.id ==>
      && res == Response(StatusOk, "Portfolio deleted successfully")
      && db.portfolios == old(db.portfolios) - {id}
      && db.users == old(db.users) && db.jobs == old(db.jobs)
      && db.applications == old(db.applications) && db.nextId == old(db.nextId)
  {
    if id !in db.portfolios {
      return Response(StatusNotFound, "Portfolio not found");
    }
    if db.portfolios[id].user != caller.id {
      return Response(StatusForbidden, "Not authorized to delete this portfolio");
    }
    db.portfolios := db.portfolios - {id};
    res := Response(StatusOk, "Portfolio deleted successfully");
  }

  /** Saving the caller's portfolio `p` with new projects. */
  method SaveProjects(db: Store, p: ObjectId, projects: seq<Project>, idsUsed: nat)
    requires db.Valid() && p in db.portfolios
    requires forall k :: 0 <= k < |projects| ==> ValidProject(projects[k])
    modifies db
    ensures db.Valid()
    ensures db.portfolios == old(db.portfolios)[p := old(db.portfolios)[p].(projects := projects)]
    ensures db.nextId == old(db.nextId) + idsUsed
    ensures db.users == old(db.users) && db.jobs == old(db.jobs) && db.applications == old(db.applications)
  {
    var updated := db.portfolios[p].(projects := projects);
    ReplaceKeepsOnePerUser(db.portfolios, p, updated);
    db.portfolios := db.portfolios[p := updated];
    db.nextId := db.nextId + idsUsed;
  }

  /** `addProject`: 404 when the caller has no portfolio; else the cast body is
      appended after the existing projects, which keep their order (500 when it
      lacks a title or description). */
  method AddProject(db: Store, caller: PublicUser, fields: ProjectFields) returns (res: Response)
    requires db.Valid()
    modifies db
    ensures db.Valid()
    ensures FindByUser(old(db.portfolios), caller.id).None? ==>
      res == Response(StatusNotFound, "Portfolio not found. Create portfolio first.") && unchanged(db)
    ensures FindByUser(old(db.portfolios), caller.id).Some? && !ValidFields(fields) ==>
      res == ServerError && unchanged(db)
    ensures FindByUser(old(db.portfolios), caller.id).Some? && ValidFields(fields) ==>
      var p := FindByUser(old(db.portfolios), caller.id).value;
      && res == Response(StatusCreated, "Project added successfully")
      && db.portfolios == old(db.portfolios)[p := old(db.portfolios)[p].(
           projects := old(db.portfolios)[p].projects + [NewProject(old(db.nextId), fields)])]
      && db.nextId == old(db.nextId) + 1
      && db.users == old(db.users) && db.jobs == old(db.jobs) && db.applications == old(db.applications)
  {
    var found := FindByUser(db.portfolios, caller.id);
    if found.None? {
      return Response(StatusNotFound, "Portfolio not found. Create portfolio first.");
    }
    var p := found.value;
    var projects := db.portfolios[p].projects + [NewProject(db.nextId, fields)];
    NewProjectValidation(db.nextId, fields);
    if !ValidFields(fields) {
      assert !ValidProject(projects[|projects| - 1]);
      return ServerError;
    }
    SaveProjects(db, p, projects, 1);
    res := Response(StatusCreated, "Project added successfully");
  }

  /** `updateProject`: 404 when the caller has no portfolio, 404 when no project
      has the id; else the body is merged into the first project with that id
      and every other project is unchanged (500 when the merge empties its
      title or description). */
  method UpdateProject(db: Store, caller: PublicUser, projectId: ObjectId, fields: ProjectFields)
    returns (res: Response)
    requires db.Valid()
    modifies db
    ensures db.Valid()
    ensures FindByUser(old(db.portfolios), caller.id).None? ==>
      res == Response(StatusNotFound, "Portfolio not found") && unchanged(db)
    ensures FindByUser(old(db.portfolios), caller.id).Some? ==>
      var p := FindByUser(old(db.portfolios), caller.id).value;
      var ps := old(db.portfolios)[p].projects;
      match FindProject(ps, projectId)
      case None => res == Response(StatusNotFound, "Project not found") && unchanged(db)
      case Some(k) =>
        if ValidProject(Merge(ps[k], fields)) then
          && res == Response(StatusOk, "Project updated successfully")
          && db.portfolios == old(db.portfolios)[p := old(db.portfolios)[p].(
               projects := ps[k := Merge(ps[k], fields)])]
          && db.users == old(db.users) && db.jobs == old(db.jobs)
          && db.applications == old(db.applications) && db.nextId == old(db.nextId)
        else
          res == ServerError && unchanged(db)
  {
    var found := FindByUser(db.portfolios, caller.id);
    if found.None? {
      return Response(StatusNotFound, "Portfolio not found");
    }
    var p := found.value;
    var ps := db.portfolios[p].projects;
    var k := FindProject(ps, projectId);
    if k.None? {
      return Response(StatusNotFound, "Project not found");
    }
    var merged := Merge(ps[k.value], fields);
    if !ValidProject(merged) {
      return ServerError;
    }
    SaveProjects(db, p, ps[k.value := merged], 0);
    res := Response(StatusOk, "Project updated successfully");
  }

  /** `deleteProject`: 404 when the caller has no portfolio; else every project
      with the id is removed and the rest keep their order. An id no project has
      still answers 200 and changes nothing. */
  method DeleteProject(db: Store, caller: PublicUser, projectId: ObjectId) returns (res: Response)
    requires db.Valid()
    modifies db
    ensures db.Valid()
    ensures FindByUser(old(db.portfolios), caller.id).None? ==>
      res == Response(StatusNotFound, "Portfolio not found") && unchanged(db)
    ensures FindByUser(old(db.portfolios), caller.id).Some? ==>
      var p := FindByUser(old(db.portfolios), caller.id).value;
      && res == Response(StatusOk, "Project deleted successfully")
      && db.portfolios == old(db.portfolios)[p := old(db.portfolios)[p].(
           projects := Pull(old(db.portfolios)[p].projects, projectId))]
      && db.users == old(db.users) && db.jobs == old(db.jobs)
      && db.applications == old(db.applications) && db.nextId == old(db.nextId)
    ensures FindByUser(old(db.portfolios), caller.id).Some? ==>
      var p := FindByUser(old(db.portfolios), caller.id).value;
      FindProject(old(db.portfolios)[p].projects, projectId).None? ==> db.portfolios == old(db.portfolios)
  {
    var found := FindByUser(db.portfolios, caller.id);
    if found.None? {
      return Response(StatusNotFound, "Portfolio not found");
    }
    var p := found.value;
    var ps := db.portfolios[p].projects;
    if FindProject(ps, projectId).None? {
      PullAbsent(ps, projectId);
      assert db.portfolios[p].(projects := ps) == db.portfolios[p];
      assert db.portfolios[p := db.portfolios[p].(projects := ps)] == db.portfolios;
    }
    PullKeepsValid(db.portfolios[p], projectId);
    SaveProjects(db, p, Pull(ps, projectId), 0);
    res := Response(StatusOk, "Project deleted successfully");
  }
}
