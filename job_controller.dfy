/**
 * The job handlers. Each mutating handler changes the store and answers with
 * a status and message; the list and lookup handlers are functions of the
 * job collection. A thrown error (here: a failed validation) is caught and
 * answered with 500 and no change to the store.
 */
module JobController {
  import opened Wrappers
  import opened Http
  import opened Persistence
  import opened UserModel
  import opened JobModel
  import opened Database

  /** `createJob`: only companies may post; the new job is the caller's unless
      the body names another company. */
  method CreateJob(db: Store, caller: PublicUser, body: JobFields, now: int) returns (res: Response)
    requires db.Valid()
    modifies db
    ensures db.Valid()
    ensures caller.role != "company" ==>
      res == Response(StatusForbidden, "Only companies can post jobs") && unchanged(db)
    ensures caller.role == "company" && !ValidJob(NewJob(caller.id, body, now)) ==>
      res == ServerError && unchanged(db)
    ensures caller.role == "company" && ValidJob(NewJob(caller.id, body, now)) ==>
      && res == Response(StatusCreated, "Job created successfully")
      && old(db.nextId) !in old(db.jobs)
      && db.jobs == old(db.jobs)[old(db.nextId) := NewJob(caller.id, body, now)]
      && |db.jobs| == |old(db.jobs)| + 1
      && db.nextId == old(db.nextId) + 1
      && db.users == old(db.users) && db.applications == old(db.applications)
      && db.portfolios == old(db.portfolios)
  {
    if caller.role != "company" {
      return Response(StatusForbidden, "Only companies can post jobs");
    }
    var job := NewJob(caller.id, body, now);
    if !ValidJob(job) {
      return ServerError;
    }
    db.jobs := db.jobs[db.nextId := job];
    db.nextId := db.nextId + 1;
    res := Response(StatusCreated, "Job created successfully");
  }

  /** The sort key `postedAt` of every job. */
  function PostedAt(jobs: map<ObjectId, Job>): (key: map<ObjectId, int>)
    ensures key.Keys == jobs.Keys
  {
    map id | id in jobs :: jobs[id].postedAt
  }

  /** `getAllJobs`: every active job exactly once, newest posting first. */
  function GetAllJobs(jobs: map<ObjectId, Job>): (r: seq<ObjectId>)
    ensures forall id :: id in r <==> id in jobs && jobs[id].status == Active
    ensures forall i, j :: 0 <= i < j < |r| ==> r[i] != r[j]
    ensures forall i, j :: 0 <= i < j < |r| ==> jobs[r[i]].postedAt >= jobs[r[j]].postedAt
  {
    var matching := set id | id in jobs && jobs[id].status == Active;
    var r := FindSortedDesc(matching, PostedAt(jobs));
    OnceEach(r, matching);
    r
  }

  /** `getJobsByCompany`: every job of the company, whatever its status,
      exactly once, newest posting first. */
  function GetJobsByCompany(jobs: map<ObjectId, Job>, company: ObjectId): (r: seq<ObjectId>)
    ensures forall id :: id in r <==> id in jobs && jobs[id].company == company
    ensures forall i, j :: 0 <= i < j < |r| ==> r[i] != r[j]
    ensures forall i, j :: 0 <= i < j < |r| ==> jobs[r[i]].postedAt >= jobs[r[j]].postedAt
  {
    var matching := set id | id in jobs && jobs[id].company == company;
    var r := FindSortedDesc(matching, PostedAt(jobs));
    OnceEach(r, matching);
    r
  }

  /** `getJobById`: the job, or 404 when no job has the id. */
  function GetJobById(jobs: map<ObjectId, Job>, id: ObjectId): (r: Reply<Job>)
    ensures r.Ok? <==> id in jobs
    ensures r.Ok? ==> r.value == jobs[id]
    ensures r.Refused? ==> r.response == Response(StatusNotFound, "Job not found")
  {
    if id in jobs then Ok(jobs[id]) else Refused(Response(StatusNotFound, "Job not found"))
  }

  /** `updateJob`: existence before ownership; the owner's update overwrites
      exactly the paths present in the body (company and status included), and
      the update validators check only those paths. */
  method UpdateJob(db: Store, caller: PublicUser, id: ObjectId, body: JobFields) returns (res: Response)
    requires db.Valid()
    modifies db
    ensures db.Valid()
    ensures id !in old(db.jobs) ==> res == Response(StatusNotFound, "Job not found") && unchanged(db)
    ensures id in old(db.jobs) && old(db.jobs)[id].company != caller.id ==>
      res == Response(StatusForbidden, "Not authorized to update this job") && unchanged(db)
    ensures id in old(db.jobs) && old(db.jobs)[id].company == caller.id && !UpdateFieldsValid(body) ==>
      res == ServerError && unchanged(db)
    ensures id in old(db.jobs) && old(db.jobs)[id].company == caller.id && UpdateFieldsValid(body) ==>
      && res == Response(StatusOk, "Job updated successfully")
      && db.jobs == old(db.jobs)[id := Overwrite(old(db.jobs)[id], body)]
      && db.users == old(db.users) && db.applications == old(db.applications)
      && db.portfolios == old(db.portfolios) && db.nextId == old(db.nextId)
  {
    if id !in db.jobs {
      return Response(StatusNotFound, "Job not found");
    }
    var job := db.jobs[id];
    if job.company != caller.id {
      return Response(StatusForbidden, "Not authorized to update this job");
    }
    if !UpdateFieldsValid(body) {
      return ServerError;
    }
    UpdateValidation(job, body);
    db.jobs := db.jobs[id := Overwrite(job, body)];
    res := Response(StatusOk, "Job updated successfully");
  }

  /** `deleteJob`: existence before ownership; the owner's delete removes that
      job only, and applications naming it stay. */
  method DeleteJob(db: Store, caller: PublicUser, id: ObjectId) returns (res: Response)
    requires db.Valid()
    modifies db
    ensures db.Valid()
    ensures id !in old(db.jobs) ==> res == Response(StatusNotFound, "Job not found") && unchanged(db)
    ensures id in old(db.jobs) && old(db.jobs)[id].company != caller.id ==>
      res == Response(StatusForbidden, "Not authorized to delete this job") && unchanged(db)
    ensures id in old(db.jobs) && old(db.jobs)[id].company == caller.id ==>
      && res == Response(StatusOk, "Job deleted successfully")
      && db.jobs == old(db.jobs) - {id}
      && db.users == old(db.users) && db.applications == old(db.applications)
      && db.portfolios == old(db.portfolios) && db.nextId == old(db.nextId)
  {
    if id !in db.jobs {
      return Response(StatusNotFound, "Job not found");
    }
    if db.jobs[id].company != caller.id {
      return Response(StatusForbidden, "Not authorized to delete this job");
    }
    db.jobs := db.jobs - {id};
    res := Response(StatusOk, "Job deleted successfully");
  }

  /** An owner may hand a job to another company or reopen it: the update
      writes `company` and `status` like any other path. */
  lemma UpdateMayTransferAndReopen(j: Job, company: ObjectId)
    requires ValidJob(j)
    ensures var body := NoFields.(company := Some(company), status := Some(Active));
      UpdateFieldsValid(body) && Overwrite(j, body) == j.(company := company, status := Active)
  {
  }
}
