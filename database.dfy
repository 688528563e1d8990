/**
 * The document database as the controllers see it: one collection per model,
 * keyed by ObjectId, and the id generator. Its invariant gathers what the
 * schemas and indexes guarantee about every stored document, plus the one
 * guarantee (one portfolio per user) that only the controllers keep.
 */
module Database {
  import opened UserModel
  import opened JobModel
  import opened ApplicationModel
  import opened PortfolioModel
  import opened Persistence

  class Store {
    var users: map<ObjectId, User>
    var jobs: map<ObjectId, Job>
    var applications: map<ObjectId, Application>
    var portfolios: map<ObjectId, Portfolio>
    /** Every id handed out so far is below `nextId`. */
    var nextId: ObjectId

    /** Every stored document passed its schema's validation (for a user, all but
        the password's length, which is about the plain text before hashing); every id is one
        handed out; the (job, developer) index is unique; no two users share an
        email address; each user owns at most one portfolio. References between
        collections are not checked: a job may be deleted while applications
        still name it. */
    predicate Valid()
      reads this
    {
      && (forall id :: id in users ==> id < nextId && StoredUserValid(users[id]))
      && UniqueEmails(users)
      && (forall id :: id in jobs ==> id < nextId && ValidJob(jobs[id]))
      && (forall id :: id in applications ==> id < nextId && ValidApplication(applications[id]))
      && (forall id :: id in portfolios ==> id < nextId && ValidPortfolio(portfolios[id]))
      && UniquePairs(applications)
      && OnePerUser(portfolios)
    }

    /** A database holding the given users (with ids 0, 1, ...) and nothing else;
        they must have passed validation, and the email index admits them only
        with pairwise different addresses. */
    constructor (registered: seq<User>)
      requires forall i :: 0 <= i < |registered| ==> StoredUserValid(registered[i])
      requires forall i, j :: 0 <= i < j < |registered| ==> registered[i].email != registered[j].email
      ensures Valid()
      ensures users == map i | 0 <= i < |registered| :: registered[i]
      ensures jobs == map[] && applications == map[] && portfolios == map[]
      ensures nextId == |registered|
    {
      users := map i | 0 <= i < |registered| :: registered[i];
      jobs, applications, portfolios := map[], map[], map[];
      nextId := |registered|;
    }
  }
}
