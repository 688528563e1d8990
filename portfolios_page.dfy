/**
 * The developer-portfolios page's filter: a developer is shown when the
 * search term matches the name or the bio and the skill filter matches a skill.
 */
module PortfoliosPage {
  import opened Wrappers
  import opened Text
  import opened Sequences

  /** The optional profile the filter reads; a missing `bio` or `skills` is `None`. */
  datatype DevProfile = DevProfile(bio: Option<string>, skills: Option<seq<string>>)

  datatype Developer = Developer(name: string, profile: Option<DevProfile>)

  /** The bio when it is present and non-empty (an empty string is falsy). */
  function Bio(u: Developer): Option<string> {
    if u.profile.Some? && u.profile.value.bio.Some? && u.profile.value.bio.value != ""
    then u.profile.value.bio else None
  }

  /** The skills when present (an empty array is still present). */
  function Skills(u: Developer): Option<seq<string>> {
    if u.profile.Some? then u.profile.value.skills else None
  }

  /** The search term occurs in the name, or in the bio when there is one, ignoring case. */
  predicate MatchesSearch(u: Developer, term: string) {
    Includes(ToLower(u.name), ToLower(term))
    || (Bio(u).Some? && Includes(ToLower(Bio(u).value), ToLower(term)))
  }

  /** An unset skill filter imposes nothing; a set one must occur in some skill, ignoring case. */
  predicate MatchesSkill(u: Developer, skill: string) {
    skill == "" || (Skills(u).Some? && SomeIncludesIgnoringCase(Skills(u).value, skill))
  }

  /** `filteredUsers`: the developers that match both conditions, in their order. */
  function FilteredUsers(users: seq<Developer>, searchTerm: string, skill: string): (r: seq<Developer>)
    ensures forall u :: u in r <==> u in users && MatchesSearch(u, searchTerm) && MatchesSkill(u, skill)
    ensures IsSubsequence(r, users)
  {
    Filter(users, u => MatchesSearch(u, searchTerm) && MatchesSkill(u, skill))
  }

  /** An empty search term matches every developer. */
  lemma EmptySearchMatches(u: Developer)
    ensures MatchesSearch(u, "")
  {
    IncludesEmpty(ToLower(u.name));
  }

  /** With both inputs empty, every developer is shown. */
  lemma NoFiltersKeepAll(users: seq<Developer>)
    ensures FilteredUsers(users, "", "") == users
  {
    forall k | 0 <= k < |users| ensures MatchesSearch(users[k], "") {
      EmptySearchMatches(users[k]);
    }
    FilterAll(users, u => MatchesSearch(u, "") && MatchesSkill(u, ""));
  }

  /** A developer without a bio, or with an empty one, matches only by name. */
  lemma NoBioMatchesByNameOnly(u: Developer, term: string)
    requires u.profile.None? || u.profile.value.bio.None? || u.profile.value.bio.value == ""
    ensures MatchesSearch(u, term) <==> Includes(ToLower(u.name), ToLower(term))
  {
  }

  /** A developer without skills, or with none listed, fails a set skill filter. */
  lemma NoSkillsExcluded(u: Developer, skill: string)
    requires u.profile.None? || u.profile.value.skills.None? || u.profile.value.skills.value == []
    requires skill != ""
    ensures !MatchesSkill(u, skill)
  {
  }

  /** Filtering a concatenation of developer lists filters each list. */
  lemma FilteredUsersAppend(a: seq<Developer>, b: seq<Developer>, searchTerm: string, skill: string)
    ensures FilteredUsers(a + b, searchTerm, skill)
      == FilteredUsers(a, searchTerm, skill) + FilteredUsers(b, searchTerm, skill)
  {
    FilterAppend(a, b, u => MatchesSearch(u, searchTerm) && MatchesSkill(u, skill));
  }
}
