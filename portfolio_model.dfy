/**
 * The portfolio schema and its embedded projects: required owner, required
 * project title and description, the `featured` default, and the array
 * operations the controller applies to `projects` (`push`, `id`,
 * `Object.assign` on one element, `pull`).
 */
module PortfolioModel {
  import opened Wrappers
  import opened Persistence

  /** An embedded project; `id` is the sub-document's `_id`. */
  datatype Project = Project(
    id: ObjectId, title: string, description: string, technologies: seq<string>,
    githubLink: Option<string>, liveLink: Option<string>, image: Option<string>,
    startDate: Option<int>, endDate: Option<int>, featured: bool)

  /** A project request body: every path may be present or absent. */
  datatype ProjectFields = ProjectFields(
    title: Option<string>, description: Option<string>, technologies: Option<seq<string>>,
    githubLink: Option<string>, liveLink: Option<string>, image: Option<string>,
    startDate: Option<int>, endDate: Option<int>, featured: Option<bool>)

  const NoProjectFields: ProjectFields :=
    ProjectFields(None, None, None, None, None, None, None, None, None)

  /** A stored portfolio. There is no unique index on `user`. */
  datatype Portfolio = Portfolio(user: ObjectId, projects: seq<Project>, createdAt: int)

  /** Casting a body into a new sub-document: a fresh `_id`, an empty
      technology list and `featured: false` unless given. */
  function NewProject(id: ObjectId, f: ProjectFields): Project {
    Project(id, f.title.GetOr(""), f.description.GetOr(""), f.technologies.GetOr([]),
      f.githubLink, f.liveLink, f.image, f.startDate, f.endDate, f.featured.GetOr(false))
  }

  /** Casting a whole array of bodies; the sub-documents get consecutive fresh ids. */
  function NewProjects(fs: seq<ProjectFields>, firstId: ObjectId): seq<Project> {
    seq(|fs|, k requires 0 <= k < |fs| => NewProject(firstId + k, fs[k]))
  }

  /** Schema validation of a project: title and description are required. */
  predicate ValidProject(p: Project) {
    p.title != "" && p.description != ""
  }

  /** A portfolio saves only when every one of its projects validates. */
  predicate ValidPortfolio(p: Portfolio) {
    forall k :: 0 <= k < |p.projects| ==> ValidProject(p.projects[k])
  }

  predicate ValidFields(f: ProjectFields) {
    f.title.Some? && f.title.value != "" && f.description.Some? && f.description.value != ""
  }

  /** A new project validates exactly when its body has a non-empty title and description. */
  lemma NewProjectValidation(id: ObjectId, f: ProjectFields)
    ensures ValidProject(NewProject(id, f)) <==> ValidFields(f)
    ensures f.featured.None? ==> !NewProject(id, f).featured
  {
  }

  /** Replacing the projects by a cast array validates exactly when every body does. */
  lemma NewProjectsValidation(user: ObjectId, fs: seq<ProjectFields>, firstId: ObjectId, now: int)
    ensures ValidPortfolio(Portfolio(user, NewProjects(fs, firstId), now)) <==>
      forall k :: 0 <= k < |fs| ==> ValidFields(fs[k])
  {
    var ps := NewProjects(fs, firstId);
    forall k | 0 <= k < |fs| ensures ValidProject(ps[k]) <==> ValidFields(fs[k]) {
      NewProjectValidation(firstId + k, fs[k]);
    }
  }

  // ---------------------------------------------------------------- projects.id(...)

  /** `projects.id(id)`: the position of the first project with that id, if any. */
  function FindProject(ps: seq<Project>, id: ObjectId): (r: Option<nat>)
    ensures r.None? <==> forall k :: 0 <= k < |ps| ==> ps[k].id != id
    ensures r.Some? ==> r.value < |ps| && ps[r.value].id == id
    ensures r.Some? ==> forall k :: 0 <= k < r.value ==> ps[k].id != id
    decreases |ps|
  {
    if ps == [] then None
    else if ps[0].id == id then Some(0)
    else
      match FindProject(ps[1..], id)
      case None => None
      case Some(k) => Some(k + 1)
  }

  // ---------------------------------------------------------------- Object.assign(project, body)

  /** `Object.assign(project, body)`: each path present in the body replaces the
      project's value; the id and every absent path are kept. */
  function Merge(p: Project, f: ProjectFields): Project {
    Project(p.id, f.title.GetOr(p.title), f.description.GetOr(p.description),
      f.technologies.GetOr(p.technologies),
      if f.githubLink.Some? then f.githubLink else p.githubLink,
      if f.liveLink.Some? then f.liveLink else p.liveLink,
      if f.image.Some? then f.image else p.image,
      if f.startDate.Some? then f.startDate else p.startDate,
      if f.endDate.Some? then f.endDate else p.endDate,
      f.featured.GetOr(p.featured))
  }

  /** Merging an empty body changes nothing. */
  lemma MergeNothing(p: Project)
    ensures Merge(p, NoProjectFields) == p
  {
  }

  /** Merging the same body twice has the effect of merging it once. */
  lemma MergeIdempotent(p: Project, f: ProjectFields)
    ensures Merge(Merge(p, f), f) == Merge(p, f)
  {
  }

  /** A merge into a valid project validates unless it empties the title or the description. */
  lemma MergeValidation(p: Project, f: ProjectFields)
    requires ValidProject(p)
    ensures ValidProject(Merge(p, f)) <==>
      (f.title.Some? ==> f.title.value != "") && (f.description.Some? ==> f.description.value != "")
  {
  }

  // ---------------------------------------------------------------- projects.pull(id)

  /** `projects.pull(id)`: the projects whose id differs, in their order. */
  function Pull(ps: seq<Project>, id: ObjectId): (r: seq<Project>)
    ensures |r| <= |ps|
    ensures forall k :: 0 <= k < |r| ==> r[k].id != id
    ensures forall p :: p in r <==> p in ps && p.id != id
    decreases |ps|
  {
    if ps == [] then []
    else
      var rest := Pull(ps[1..], id);
      assert forall p :: p in ps <==> p == ps[0] || p in ps[1..];
      if ps[0].id == id then rest else [ps[0]] + rest
  }

  /** `pull` distributes over concatenation, so it keeps the order of the kept projects. */
  lemma {:induction false} PullAppend(a: seq<Project>, b: seq<Project>, id: ObjectId)
    ensures Pull(a + b, id) == Pull(a, id) + Pull(b, id)
    decreases |a|
  {
    if a == [] {
      assert a + b == b;
    } else {
      assert (a + b)[1..] == a[1..] + b;
      PullAppend(a[1..], b, id);
    }
  }

  /** Pulling an id no project has leaves the list as it was. */
  lemma {:induction false} PullAbsent(ps: seq<Project>, id: ObjectId)
    requires forall k :: 0 <= k < |ps| ==> ps[k].id != id
    ensures Pull(ps, id) == ps
    decreases |ps|
  {
    if ps != [] {
      PullAbsent(ps[1..], id);
      assert [ps[0]] + ps[1..] == ps;
    }
  }

  /** Deleting a project twice has the effect of deleting it once. */
  lemma PullIdempotent(ps: seq<Project>, id: ObjectId)
    ensures Pull(Pull(ps, id), id) == Pull(ps, id)
  {
    PullAbsent(Pull(ps, id), id);
  }

  /** Removing projects never makes a valid portfolio invalid. */
  lemma PullKeepsValid(p: Portfolio, id: ObjectId)
    requires ValidPortfolio(p)
    ensures ValidPortfolio(p.(projects := Pull(p.projects, id)))
  {
    var r := Pull(p.projects, id);
    forall k | 0 <= k < |r| ensures ValidProject(r[k]) {
      assert r[k] in p.projects;
    }
  }

  // ---------------------------------------------------------------- ownership

  /** The ids of the portfolios a user owns. */
  function PortfoliosOf(portfolios: map<ObjectId, Portfolio>, user: ObjectId): set<ObjectId> {
    set p | p in portfolios && portfolios[p].user == user
  }

  /** `Portfolio.findOne({ user })`. */
  function FindByUser(portfolios: map<ObjectId, Portfolio>, user: ObjectId): (r: Option<ObjectId>)
    ensures r.None? <==> forall p :: p in portfolios ==> portfolios[p].user != user
    ensures r.Some? ==> r.value in portfolios && portfolios[r.value].user == user
  {
    var r := FindFirst(PortfoliosOf(portfolios, user));
    assert r.None? ==> forall p :: p in portfolios ==> p !in PortfoliosOf(portfolios, user);
    r
  }

  /** At most one portfolio per user: kept by the controller, not by the schema. */
  predicate OnePerUser(portfolios: map<ObjectId, Portfolio>) {
    forall a, b :: a in portfolios && b in portfolios && portfolios[a].user == portfolios[b].user ==> a == b
  }

  /** The schema alone admits two valid portfolios of one user. */
  lemma SchemaAllowsSecondPortfolio(user: ObjectId)
    ensures var m := map[0 := Portfolio(user, [], 0), 1 := Portfolio(user, [], 0)];
      (forall p :: p in m ==> ValidPortfolio(m[p])) && !OnePerUser(m)
  {
    var m := map[0 := Portfolio(user, [], 0), 1 := Portfolio(user, [], 0)];
    assert m[0].user == m[1].user;
  }

  /** Inserting a portfolio for a user who has none keeps one per user. */
  lemma {:induction false} InsertKeepsOnePerUser(portfolios: map<ObjectId, Portfolio>, id: ObjectId, p: Portfolio)
    requires OnePerUser(portfolios) && id !in portfolios
    requires forall q :: q in portfolios ==> portfolios[q].user != p.user
    ensures OnePerUser(portfolios[id := p])
  {
    var m := portfolios[id := p];
    forall a, b | a in m && b in m && m[a].user == m[b].user ensures a == b {
      if a != id && b != id {
        assert portfolios[a].user == portfolios[b].user;
      }
    }
  }

  /** Under one portfolio per user, the user's portfolio is the one `findOne` returns. */
  lemma OnlyPortfolio(portfolios: map<ObjectId, Portfolio>, user: ObjectId)
    requires OnePerUser(portfolios) && FindByUser(portfolios, user).Some?
    ensures PortfoliosOf(portfolios, user) == {FindByUser(portfolios, user).value}
  {
  }
}
