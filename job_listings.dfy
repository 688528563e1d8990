/**
 * The job-listing page's filter: a job is shown when it matches the search
 * term, the location filter, the job-type filter and the skill filter.
 */
module JobListings {
  import opened Text
  import opened Sequences

  /** The fields of a listed job the filter reads. */
  datatype Listing = Listing(title: string, company: string, location: string, jobType: string, skills: seq<string>)

  /** The page's four filter inputs; the empty string is an unset filter. */
  datatype Filters = Filters(searchTerm: string, location: string, jobType: string, skill: string)

  const NoFilters: Filters := Filters("", "", "", "")

  /** The search term occurs in the title or the company, ignoring case. */
  predicate MatchesSearch(j: Listing, term: string) {
    Includes(ToLower(j.title), ToLower(term)) || Includes(ToLower(j.company), ToLower(term))
  }

  /** An unset location filter imposes nothing; a set one must occur in the location, ignoring case. */
  predicate MatchesLocation(j: Listing, location: string) {
    location == "" || Includes(ToLower(j.location), ToLower(location))
  }

  /** An unset job-type filter imposes nothing; a set one must equal the job type exactly. */
  predicate MatchesJobType(j: Listing, jobType: string) {
    jobType == "" || j.jobType == jobType
  }

  /** An unset skill filter imposes nothing; a set one must occur in some skill, ignoring case. */
  predicate MatchesSkill(j: Listing, skill: string) {
    skill == "" || SomeIncludesIgnoringCase(j.skills, skill)
  }

  predicate Matches(j: Listing, f: Filters) {
    MatchesSearch(j, f.searchTerm) && MatchesLocation(j, f.location)
    && MatchesJobType(j, f.jobType) && MatchesSkill(j, f.skill)
  }

  /** `filteredJobs`: the jobs that match every filter, in their order. */
  function FilteredJobs(jobs: seq<Listing>, f: Filters): (r: seq<Listing>)
    ensures forall j :: j in r <==> j in jobs && Matches(j, f)
    ensures IsSubsequence(r, jobs)
  {
    Filter(jobs, j => Matches(j, f))
  }

  /** With every filter unset, every job is shown. */
  lemma NoFiltersKeepAll(jobs: seq<Listing>)
    ensures FilteredJobs(jobs, NoFilters) == jobs
  {
    forall k | 0 <= k < |jobs| ensures Matches(jobs[k], NoFilters) {
      IncludesEmpty(ToLower(jobs[k].title));
    }
    FilterAll(jobs, j => Matches(j, NoFilters));
  }

  /** Filtering a concatenation of job lists filters each list. */
  lemma FilteredJobsAppend(a: seq<Listing>, b: seq<Listing>, f: Filters)
    ensures FilteredJobs(a + b, f) == FilteredJobs(a, f) + FilteredJobs(b, f)
  {
    FilterAppend(a, b, j => Matches(j, f));
  }

  /** A job with no skills never passes a set skill filter. */
  lemma NoSkillsFailSkillFilter(j: Listing, f: Filters)
    requires j.skills == [] && f.skill != ""
    ensures !Matches(j, f)
  {
  }

  /** The job-type filter is case-sensitive: `Full-time` does not select `full-time` jobs. */
  lemma JobTypeIsCaseSensitive(j: Listing)
    requires j.jobType == "full-time"
    ensures !MatchesJobType(j, "Full-time")
  {
    assert "full-time"[0] != "Full-time"[0];
  }

  /** The search ignores case on both sides. */
  lemma SearchIgnoresCase(j: Listing, term: string)
    ensures MatchesSearch(j, ToLower(term)) <==> MatchesSearch(j, term)
  {
    ToLowerIdempotent(term);
  }
}
