/**
 * The job schema: required paths, the `jobType`, `experienceLevel` and
 * `status` enums and their defaults, the salary currency default, the title
 * `trim` setter, and what create and update write.
 */
module JobModel {
  import opened Wrappers
  import opened Text
  import opened Persistence

  const JobTypes: set<string> := {"full-time", "part-time", "contract", "internship"}
  const ExperienceLevels: set<string> := {"entry", "mid", "senior", "lead"}
  const JobStatuses: set<string> := {"active", "closed", "draft"}
  const DefaultExperienceLevel: string := "entry"
  const Active: string := "active"
  const DefaultCurrency: string := "CAD"

  datatype Salary = Salary(min: Option<int>, max: Option<int>, currency: Option<string>)

  /** A stored job. Dates are integers supplied by the caller's clock. */
  datatype Job = Job(
    company: ObjectId, title: string, description: string,
    requirements: seq<string>, responsibilities: seq<string>, skills: seq<string>,
    location: string, jobType: string, experienceLevel: string, salary: Salary,
    status: string, applicationDeadline: Option<int>, postedAt: int)

  /** A job request body: every schema path may be present or absent. */
  datatype JobFields = JobFields(
    company: Option<ObjectId>, title: Option<string>, description: Option<string>,
    requirements: Option<seq<string>>, responsibilities: Option<seq<string>>,
    skills: Option<seq<string>>, location: Option<string>, jobType: Option<string>,
    experienceLevel: Option<string>, salary: Option<Salary>, status: Option<string>,
    applicationDeadline: Option<int>, postedAt: Option<int>)

  const NoFields: JobFields :=
    JobFields(None, None, None, None, None, None, None, None, None, None, None, None, None)

  /** Schema validation of a whole job: the required strings are non-empty
      and the three enum paths hold one of their values. */
  predicate ValidJob(j: Job) {
    && j.title != "" && j.description != "" && j.location != ""
    && j.jobType in JobTypes
    && j.experienceLevel in ExperienceLevels
    && j.status in JobStatuses
  }

  /** `Job.create({ company: caller, ...body })`. The body is spread after
      `company`, so a `company` in the body replaces the caller. Absent paths
      take the schema defaults: empty arrays, experience level `entry`, status
      `active`, currency `CAD`, posted now. */
  function NewJob(caller: ObjectId, body: JobFields, now: int): Job {
    var salary := body.salary.GetOr(Salary(None, None, None));
    Job(
      company := body.company.GetOr(caller),
      title := Trim(body.title.GetOr("")),
      description := body.description.GetOr(""),
      requirements := body.requirements.GetOr([]),
      responsibilities := body.responsibilities.GetOr([]),
      skills := body.skills.GetOr([]),
      location := body.location.GetOr(""),
      jobType := body.jobType.GetOr(""),
      experienceLevel := body.experienceLevel.GetOr(DefaultExperienceLevel),
      salary := salary.(currency := Some(salary.currency.GetOr(DefaultCurrency))),
      status := body.status.GetOr(Active),
      applicationDeadline := body.applicationDeadline,
      postedAt := body.postedAt.GetOr(now))
  }

  /** `findByIdAndUpdate(id, body)`: every path present in the body replaces the
      stored value (the title through its `trim` setter); every other path keeps it. */
  function Overwrite(j: Job, body: JobFields): Job {
    Job(
      company := body.company.GetOr(j.company),
      title := if body.title.Some? then Trim(body.title.value) else j.title,
      description := body.description.GetOr(j.description),
      requirements := body.requirements.GetOr(j.requirements),
      responsibilities := body.responsibilities.GetOr(j.responsibilities),
      skills := body.skills.GetOr(j.skills),
      location := body.location.GetOr(j.location),
      jobType := body.jobType.GetOr(j.jobType),
      experienceLevel := body.experienceLevel.GetOr(j.experienceLevel),
      salary := body.salary.GetOr(j.salary),
      status := body.status.GetOr(j.status),
      applicationDeadline := if body.applicationDeadline.Some? then body.applicationDeadline else j.applicationDeadline,
      postedAt := body.postedAt.GetOr(j.postedAt))
  }

  /** The update validators (`runValidators: true`): only the paths present in
      the body are checked. */
  predicate UpdateFieldsValid(body: JobFields) {
    && (body.title.Some? ==> Trim(body.title.value) != "")
    && (body.description.Some? ==> body.description.value != "")
    && (body.location.Some? ==> body.location.value != "")
    && (body.jobType.Some? ==> body.jobType.value in JobTypes)
    && (body.experienceLevel.Some? ==> body.experienceLevel.value in ExperienceLevels)
    && (body.status.Some? ==> body.status.value in JobStatuses)
  }

  /** On a valid job, checking the whole updated document is the same as
      checking only the updated paths. */
  lemma UpdateValidation(j: Job, body: JobFields)
    requires ValidJob(j)
    ensures ValidJob(Overwrite(j, body)) <==> UpdateFieldsValid(body)
  {
  }

  /** Create validation: the required paths must be present and non-empty, the
      job type must be listed, and an enum path given in the body must be listed. */
  lemma NewJobValidation(caller: ObjectId, body: JobFields, now: int)
    ensures ValidJob(NewJob(caller, body, now)) <==>
      && body.title.Some? && Trim(body.title.value) != ""
      && body.description.Some? && body.description.value != ""
      && body.location.Some? && body.location.value != ""
      && body.jobType.Some? && body.jobType.value in JobTypes
      && (body.experienceLevel.Some? ==> body.experienceLevel.value in ExperienceLevels)
      && (body.status.Some? ==> body.status.value in JobStatuses)
  {
  }

  /** The creator becomes the job's company unless the body names another
      company, which then wins; every other body path is kept as given. */
  lemma BodyCompanyWins(caller: ObjectId, body: JobFields, now: int)
    ensures body.company.None? ==> NewJob(caller, body, now).company == caller
    ensures body.company.Some? ==> NewJob(caller, body, now).company == body.company.value
    ensures body.status.Some? ==> NewJob(caller, body, now).status == body.status.value
    ensures body.title.Some? ==> NewJob(caller, body, now).title == Trim(body.title.value)
  {
  }

  /** A job created without a `status` in its body is active, so it accepts applications. */
  lemma NewJobIsActive(caller: ObjectId, body: JobFields, now: int)
    requires body.status.None?
    ensures NewJob(caller, body, now).status == Active
  {
  }

  /** The schema defaults of a created job: experience level `entry` when the
      body has none, and currency `CAD` unless the body's salary names one. */
  lemma NewJobDefaults(caller: ObjectId, body: JobFields, now: int)
    ensures body.experienceLevel.None? ==> NewJob(caller, body, now).experienceLevel == DefaultExperienceLevel
    ensures body.experienceLevel.Some? ==> NewJob(caller, body, now).experienceLevel == body.experienceLevel.value
    ensures (body.salary.None? || body.salary.value.currency.None?) ==>
      NewJob(caller, body, now).salary.currency == Some(DefaultCurrency)
    ensures body.salary.Some? && body.salary.value.currency.Some? ==>
      NewJob(caller, body, now).salary.currency == body.salary.value.currency
    ensures body.salary.Some? ==>
      NewJob(caller, body, now).salary.min == body.salary.value.min && NewJob(caller, body, now).salary.max == body.salary.value.max
    ensures body.postedAt.None? ==> NewJob(caller, body, now).postedAt == now
  {
  }

  /** An update with an empty body changes nothing. */
  lemma OverwriteNothing(j: Job)
    ensures Overwrite(j, NoFields) == j
  {
  }

  /** Sending the same update twice has the effect of sending it once. */
  lemma OverwriteIdempotent(j: Job, body: JobFields)
    ensures Overwrite(Overwrite(j, body), body) == Overwrite(j, body)
  {
    var once := Overwrite(j, body);
    var twice := Overwrite(once, body);
    assert twice.title == once.title by {
      if body.title.Some? {
        TrimIsTrimmed(body.title.value);
        TrimOfTrimmed(Trim(body.title.value));
      }
    }
    assert twice.salary == once.salary;
    assert twice.applicationDeadline == once.applicationDeadline;
  }
}
