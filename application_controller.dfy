/**
 * The application handlers: applying (four checks in a fixed order), the
 * developer's and the job owner's lists, the owner's status change, and the
 * developer's withdrawal.
 */
module ApplicationController {
  import opened Wrappers
  import opened Http
  import opened Persistence
  import opened UserModel
  import opened JobModel
  import opened ApplicationModel
  import opened Database

  /** `applyToJob`: the caller must be a developer (403), the job must exist
      (404) and be active (400), and the caller must not have applied already
      (400), in that order. Only then is an application created, and it is
      stored when it validates (else 500). `jobId` is `None` when the body has none. */
  method ApplyToJob(db: Store, caller: PublicUser, jobId: Option<ObjectId>, coverLetter: Option<string>,
                    resume: Option<string>, now: int) returns (res: Response)
    requires db.Valid()
    modifies db
    ensures db.Valid()
    ensures caller.role != "developer" ==>
      res == Response(StatusForbidden, "Only developers can apply to jobs") && unchanged(db)
    ensures caller.role == "developer" && (jobId.None? || jobId.value !in old(db.jobs)) ==>
      res == Response(StatusNotFound, "Job not found") && unchanged(db)
    ensures (caller.role == "developer" && jobId.Some? && jobId.value in old(db.jobs)
      && old(db.jobs)[jobId.value].status != Active) ==>
      res == Response(StatusBadRequest, "This job is no longer accepting applications") && unchanged(db)
    ensures (caller.role == "developer" && jobId.Some? && jobId.value in old(db.jobs)
      && old(db.jobs)[jobId.value].status == Active
      && HasApplied(old(db.applications), jobId.value, caller.id)) ==>
      res == Response(StatusBadRequest, "You have already applied to this job") && unchanged(db)
    ensures (caller.role == "developer" && jobId.Some? && jobId.value in old(db.jobs)
      && old(db.jobs)[jobId.value].status == Active
      && !HasApplied(old(db.applications), jobId.value, caller.id)) ==>
      var a := NewApplication(jobId.value, caller.id, coverLetter, resume, now);
      if ValidApplication(a) then
        && res == Response(StatusCreated, "Application submitted successfully")
        && old(db.nextId) !in old(db.applications)
        && db.applications == old(db.applications)[old(db.nextId) := a]
        && |db.applications| == |old(db.applications)| + 1
        && db.nextId == old(db.nextId) + 1
        && db.users == old(db.users) && db.jobs == old(db.jobs) && db.portfolios == old(db.portfolios)
      else
        res == ServerError && unchanged(db)
    ensures res.status == StatusCreated <==> |db.applications| == |old(db.applications)| + 1
    ensures res.status != StatusCreated ==> unchanged(db)
  {
    if caller.role != "developer" {
      return Response(StatusForbidden, "Only developers can apply to jobs");
    }
    if jobId.None? || jobId.value !in db.jobs {
      return Response(StatusNotFound, "Job not found");
    }
    var job := db.jobs[jobId.value];
    if job.status != Active {
      return Response(StatusBadRequest, "This job is no longer accepting applications");
    }
    if HasApplied(db.applications, jobId.value, caller.id) {
      return Response(StatusBadRequest, "You have already applied to this job");
    }
    var a := NewApplication(jobId.value, caller.id, coverLetter, resume, now);
    if !ValidApplication(a) {
      return ServerError;
    }
    InsertApplication(db, a);
    res := Response(StatusCreated, "Application submitted successfully");
  }

  /** `Application.create(...)` of a valid application for a pair that has none:
      stored under a fresh id. */
  method InsertApplication(db: Store, a: Application)
    requires db.Valid() && ValidApplication(a) && !HasApplied(db.applications, a.job, a.developer)
    modifies db
    ensures db.Valid()
    ensures old(db.nextId) !in old(db.applications)
    ensures db.applications == old(db.applications)[old(db.nextId) := a]
    ensures db.nextId == old(db.nextId) + 1
    ensures db.users == old(db.users) && db.jobs == old(db.jobs) && db.portfolios == old(db.portfolios)
  {
    InsertKeepsUniquePairs(db.applications, db.nextId, a);
    db.applications := db.applications[db.nextId := a];
    db.nextId := db.nextId + 1;
  }

  /** The sort key `appliedAt` of every application. */
  function AppliedAt(apps: map<ObjectId, Application>): (key: map<ObjectId, int>)
    ensures key.Keys == apps.Keys
  {
    map id | id in apps :: apps[id].appliedAt
  }

  /** `getMyApplications`: each of the developer's applications exactly once,
      most recent first. */
  function GetMyApplications(apps: map<ObjectId, Application>, developer: ObjectId): (r: seq<ObjectId>)
    ensures forall id :: id in r <==> id in apps && apps[id].developer == developer
    ensures forall i, j :: 0 <= i < j < |r| ==> r[i] != r[j]
    ensures forall i, j :: 0 <= i < j < |r| ==> apps[r[i]].appliedAt >= apps[r[j]].appliedAt
  {
    var matching := set id | id in apps && apps[id].developer == developer;
    var r := FindSortedDesc(matching, AppliedAt(apps));
    OnceEach(r, matching);
    r
  }

  /** `getApplicationsForJob`: 404 when the job is missing, 403 unless the
      caller owns it, else each application to that job exactly once, most recent first. */
  function GetApplicationsForJob(jobs: map<ObjectId, Job>, apps: map<ObjectId, Application>,
                                 caller: PublicUser, jobId: ObjectId): (r: Reply<seq<ObjectId>>)
    ensures jobId !in jobs ==> r == Refused(Response(StatusNotFound, "Job not found"))
    ensures jobId in jobs && jobs[jobId].company != caller.id ==>
      r == Refused(Response(StatusForbidden, "Not authorized to view these applications"))
    ensures r.Ok? <==> jobId in jobs && jobs[jobId].company == caller.id
    ensures r.Ok? ==> forall id :: id in r.value <==> id in apps && apps[id].job == jobId
    ensures r.Ok? ==> forall i, j :: 0 <= i < j < |r.value| ==> r.value[i] != r.value[j]
    ensures r.Ok? ==> forall i, j :: 0 <= i < j < |r.value| ==>
      apps[r.value[i]].appliedAt >= apps[r.value[j]].appliedAt
  {
    if jobId !in jobs then Refused(Response(StatusNotFound, "Job not found"))
    else if jobs[jobId].company != caller.id then
      Refused(Response(StatusForbidden, "Not authorized to view these applications"))
    else
      var matching := set id | id in apps && apps[id].job == jobId;
      var r := FindSortedDesc(matching, AppliedAt(apps));
      OnceEach(r, matching);
      Ok(r)
  }

  /** `updateApplicationStatus`: 404 when the application is missing; when its
      job is gone the populated job is null and reading its company throws (500);
      403 unless the caller owns the job; else only `status` is replaced, by any
      listed value whatever the old one, and an unlisted value fails validation (500).
      There is no role check. */
  method UpdateApplicationStatus(db: Store, caller: PublicUser, id: ObjectId, status: string)
    returns (res: Response)
    requires db.Valid()
    modifies db
    ensures db.Valid()
    ensures id !in old(db.applications) ==>
      res == Response(StatusNotFound, "Application not found") && unchanged(db)
    ensures id in old(db.applications) && old(db.applications)[id].job !in old(db.jobs) ==>
      res == ServerError && unchanged(db)
    ensures (id in old(db.applications) && old(db.applications)[id].job in old(db.jobs)
      && old(db.jobs)[old(db.applications)[id].job].company != caller.id) ==>
      res == Response(StatusForbidden, "Not authorized to update this application") && unchanged(db)
    ensures (id in old(db.applications) && old(db.applications)[id].job in old(db.jobs)
      && old(db.jobs)[old(db.applications)[id].job].company == caller.id) ==>
      if status in ApplicationStatuses then
        && res == Response(StatusOk, "Application status updated")
        && db.applications == old(db.applications)[id := old(db.applications)[id].(status := status)]
        && db.users == old(db.users) && db.jobs == old(db.jobs)
        && db.portfolios == old(db.portfolios) && db.nextId == old(db.nextId)
      else
        res == ServerError && unchanged(db)
  {
    if id !in db.applications {
      return Response(StatusNotFound, "Application not found");
    }
    var a := db.applications[id];
    if a.job !in db.jobs {
      return ServerError;
    }
    if db.jobs[a.job].company != caller.id {
      return Response(StatusForbidden, "Not authorized to update this application");
    }
    var updated := a.(status := status);
    AnyStatusChange(a, status);
    if !ValidApplication(updated) {
      return ServerError;
    }
    StatusChangeKeepsUniquePairs(db.applications, id, status);
    db.applications := db.applications[id := updated];
    res := Response(StatusOk, "Application status updated");
  }

  /** `deleteApplication`: 404 when missing, 403 unless the caller is the
      applying developer, else that application alone is removed. */
  method DeleteApplication(db: Store, caller: PublicUser, id: ObjectId) returns (res: Response)
    requires db.Valid()
    modifies db
    ensures db.Valid()
    ensures id !in old(db.applications) ==>
      res == Response(StatusNotFound, "Application not found") && unchanged(db)
    ensures id in old(db.applications) && old(db.applications)[id].developer != caller.id ==>
      res == Response(StatusForbidden, "Not authorized to delete this application") && unchanged(db)
    ensures id in old(db.applications) && old(db.applications)[id].developer == caller.id ==>
      && res == Response(StatusOk, "Application withdrawn successfully")
      && db.applications == old(db.applications) - {id}
      && db.users == old(db.users) && db.jobs == old(db.jobs)
      && db.portfolios == old(db.portfolios) && db.nextId == old(db.nextId)
  {
    if id !in db.applications {
      return Response(StatusNotFound, "Application not found");
    }
    if db.applications[id].developer != caller.id {
      return Response(StatusForbidden, "Not authorized to delete this application");
    }
    db.applications := db.applications - {id};
    res := Response(StatusOk, "Application withdrawn successfully");
  }
}
