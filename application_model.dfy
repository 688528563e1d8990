/**
 * The application schema: required references and cover letter, the status
 * enum and its default, and the unique (job, developer) index.
 */
module ApplicationModel {
  import opened Wrappers
  import opened Persistence

  const ApplicationStatuses: set<string> := {"pending", "reviewed", "accepted", "rejected"}
  const Pending: string := "pending"

  /** A stored application; `appliedAt` is an integer from the caller's clock. */
  datatype Application = Application(
    job: ObjectId, developer: ObjectId, coverLetter: string,
    resume: Option<string>, status: string, appliedAt: int)

  /** `Application.create({ job, developer, coverLetter, resume })`: the status
      takes its default and the application is dated now. An absent cover letter
      is stored as the empty string, which the required validator refuses just the same. */
  function NewApplication(job: ObjectId, developer: ObjectId, coverLetter: Option<string>,
                          resume: Option<string>, now: int): Application {
    Application(job, developer, coverLetter.GetOr(""), resume, Pending, now)
  }

  /** Schema validation: the cover letter is required and the status is listed. */
  predicate ValidApplication(a: Application) {
    a.coverLetter != "" && a.status in ApplicationStatuses
  }

  /** The unique index on (job, developer). */
  predicate UniquePairs(apps: map<ObjectId, Application>) {
    forall a, b :: a in apps && b in apps ==>
      (apps[a].job == apps[b].job && apps[a].developer == apps[b].developer ==> a == b)
  }

  /** `Application.findOne({ job, developer })` finds something. */
  predicate HasApplied(apps: map<ObjectId, Application>, job: ObjectId, developer: ObjectId) {
    exists a :: a in apps && apps[a].job == job && apps[a].developer == developer
  }

  /** A new application passes validation exactly when its cover letter is
      present and non-empty; the default status is always listed. */
  lemma NewApplicationValidation(job: ObjectId, developer: ObjectId, coverLetter: Option<string>,
                                 resume: Option<string>, now: int)
    ensures ValidApplication(NewApplication(job, developer, coverLetter, resume, now)) <==>
      coverLetter.Some? && coverLetter.value != ""
    ensures NewApplication(job, developer, coverLetter, resume, now).status == Pending
  {
  }

  /** Inserting the application of a pair that has none keeps the index unique. */
  lemma {:induction false} InsertKeepsUniquePairs(apps: map<ObjectId, Application>, id: ObjectId, a: Application)
    requires UniquePairs(apps) && id !in apps
    requires !HasApplied(apps, a.job, a.developer)
    ensures UniquePairs(apps[id := a])
  {
    assert forall y :: y in apps ==> apps[y].job != a.job || apps[y].developer != a.developer;
  }

  /** Changing only the status of an application keeps the index unique. */
  lemma {:induction false} StatusChangeKeepsUniquePairs(apps: map<ObjectId, Application>, id: ObjectId, status: string)
    requires UniquePairs(apps) && id in apps
    ensures UniquePairs(apps[id := apps[id].(status := status)])
  {
    var apps' := apps[id := apps[id].(status := status)];
    forall x, y | x in apps' && y in apps' && apps'[x].job == apps'[y].job
      && apps'[x].developer == apps'[y].developer
      ensures x == y
    {
      assert apps[x].job == apps'[x].job && apps[x].developer == apps'[x].developer;
      assert apps[y].job == apps'[y].job && apps[y].developer == apps'[y].developer;
    }
  }

  /** Any status can replace any other: there is no transition order, and a
      listed status yields a valid application whatever it replaces. */
  lemma AnyStatusChange(a: Application, status: string)
    requires ValidApplication(a)
    ensures ValidApplication(a.(status := status)) <==> status in ApplicationStatuses
  {
  }
}
