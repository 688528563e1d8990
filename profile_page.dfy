/**
 * The profile page's state transformers: normalising the fetched user into
 * the form, routing a changed field into the form, parsing the skills text,
 * and cancelling an edit. React's setters only install the new state, so
 * each handler is a function from the old page state to the new one.
 */
module ProfilePage {
  import opened Wrappers
  import opened Text
  import opened Sequences

  /** The fetched `profile` object; `None` is missing (or null), and a
      `skills` value that is not an array is `None` too. */
  datatype RawProfile = RawProfile(
    bio: Option<string>, skills: Option<seq<string>>, experience: Option<string>,
    location: Option<string>, github: Option<string>, linkedin: Option<string>,
    portfolio: Option<string>)

  /** The fetched user: its top-level string fields and its profile. */
  datatype RawUser = RawUser(top: map<string, string>, profile: Option<RawProfile>)

  /** The normalised profile: every field present. */
  datatype ProfileForm = ProfileForm(
    bio: string, skills: seq<string>, experience: string, location: string,
    github: string, linkedin: string, portfolio: string)

  /** `formData` (and the saved `profile`). */
  datatype FormData = FormData(top: map<string, string>, profile: ProfileForm)

  datatype Page = Page(profile: FormData, formData: FormData, editing: bool, error: string)

  // ---------------------------------------------------------------- fetchProfile

  /** `x || ''` on an optional string. */
  function OrEmpty(s: Option<string>): string {
    if s.Some? then s.value else ""
  }

  /** The normalisation in `fetchProfile`: the top-level fields are spread as
      they are, except `profile`, which is rebuilt with every string field
      defaulting to `''` and `skills` to `[]`. */
  function Normalize(data: RawUser): FormData {
    var p := data.profile.GetOr(RawProfile(None, None, None, None, None, None, None));
    FormData(data.top - {"profile"},
      ProfileForm(OrEmpty(p.bio), p.skills.GetOr([]), OrEmpty(p.experience), OrEmpty(p.location),
        OrEmpty(p.github), OrEmpty(p.linkedin), OrEmpty(p.portfolio)))
  }

  /** A form seen as fetched data. */
  function Embed(f: FormData): RawUser {
    var p := f.profile;
    RawUser(f.top, Some(RawProfile(Some(p.bio), Some(p.skills), Some(p.experience), Some(p.location),
      Some(p.github), Some(p.linkedin), Some(p.portfolio))))
  }

  /** Normalising data that already has the form's shape gives it back. */
  lemma NormalizeEmbed(f: FormData)
    requires "profile" !in f.top
    ensures Normalize(Embed(f)) == f
  {
    assert f.top - {"profile"} == f.top;
  }

  /** Normalising is idempotent. */
  lemma NormalizeIdempotent(data: RawUser)
    ensures Normalize(Embed(Normalize(data))) == Normalize(data)
  {
    NormalizeEmbed(Normalize(data));
  }

  /** A user fetched without a profile gets an empty profile; every top-level field but `profile` is kept. */
  lemma NormalizeMissingProfile(data: RawUser)
    requires data.profile.None?
    ensures Normalize(data).profile == ProfileForm("", [], "", "", "", "", "")
    ensures forall k :: k in data.top && k != "profile" ==> k in Normalize(data).top && Normalize(data).top[k] == data.top[k]
  {
  }

  /** What the fetch produced. */
  datatype FetchResult =
    | NoSession                             // no stored token or user: the fetch is not attempted
    | Answered(data: RawUser, error: string) // the server's answer; `""` stands for a falsy `error`
    | Failed                                // the request threw

  /** The answer is the user's data: it carries no (truthy) `error`. */
  predicate IsData(result: FetchResult) {
    result.Answered? && result.error == ""
  }

  /** `fetchProfile`: on data, the saved profile and the form both become the
      normalised user and the error is cleared; otherwise only a non-empty error
      message is set. */
  function FetchProfile(page: Page, result: FetchResult): (r: Page)
    ensures IsData(result) ==> r.profile == r.formData == Normalize(result.data) && r.error == ""
    ensures !IsData(result) ==> r.profile == page.profile && r.formData == page.formData && r.error != ""
    ensures result.Answered? && result.error != "" ==> r.error == result.error
    ensures r.editing == page.editing
  {
    match result
    case NoSession => page.(error := "Authentication expired. Please log in again.")
    case Answered(data, e) =>
      if e != "" then page.(error := e)
      else
        var f := Normalize(data);
        page.(profile := f, formData := f, error := "")
    case Failed => page.(error := "Failed to fetch profile. Please try again.")
  }

  // ---------------------------------------------------------------- handleChange

  /** The field names `handleChange` routes into `formData.profile`. */
  const NestedFields: set<string> := {"bio", "experience", "location", "github", "linkedin", "portfolio"}

  /** A place in the form: a top-level field, or a string field of the profile. */
  datatype Path = Top(key: string) | InProfile(field: string)

  /** Where `handleChange` writes the field called `name`. */
  function Route(name: string): Path {
    if name in NestedFields then InProfile(name) else Top(name)
  }

  /** The value at a path, if the form has one there. */
  function Get(f: FormData, path: Path): Option<string> {
    match path
    case Top(k) => if k in f.top then Some(f.top[k]) else None
    case InProfile(n) =>
      if n == "bio" then Some(f.profile.bio)
      else if n == "experience" then Some(f.profile.experience)
      else if n == "location" then Some(f.profile.location)
      else if n == "github" then Some(f.profile.github)
      else if n == "linkedin" then Some(f.profile.linkedin)
      else if n == "portfolio" then Some(f.profile.portfolio)
      else None
  }

  function SetProfileField(p: ProfileForm, name: string, value: string): ProfileForm {
    if name == "bio" then p.(bio := value)
    else if name == "experience" then p.(experience := value)
    else if name == "location" then p.(location := value)
    else if name == "github" then p.(github := value)
    else if name == "linkedin" then p.(linkedin := value)
    else if name == "portfolio" then p.(portfolio := value)
    else p
  }

  /** `handleChange`: a profile field name updates `formData.profile`, any other
      name the top level of `formData`. */
  function HandleChange(page: Page, name: string, value: string): Page
    requires name != "profile"
  {
    var f := page.formData;
    var f' := if name in NestedFields then f.(profile := SetProfileField(f.profile, name, value))
              else f.(top := f.top[name := value]);
    page.(formData := f')
  }

  /** Exactly one place changes, the one the name routes to, and it gets the value;
      the skills, the saved profile and the editing flag stay as they were. */
  lemma HandleChangeWritesOnePlace(page: Page, name: string, value: string)
    requires name != "profile"
    ensures Get(HandleChange(page, name, value).formData, Route(name)) == Some(value)
    ensures forall path :: path != Route(name) ==>
      Get(HandleChange(page, name, value).formData, path) == Get(page.formData, path)
    ensures HandleChange(page, name, value).formData.profile.skills == page.formData.profile.skills
    ensures HandleChange(page, name, value).profile == page.profile
    ensures HandleChange(page, name, value).editing == page.editing
  {
  }

  // ---------------------------------------------------------------- handleSkillsChange

  function TrimAll(xs: seq<string>): (r: seq<string>)
    ensures |r| == |xs|
    ensures forall k :: 0 <= k < |xs| ==> r[k] == Trim(xs[k])
    ensures forall k :: 0 <= k < |r| ==> IsTrimmed(r[k])
  {
    forall k | 0 <= k < |xs| ensures IsTrimmed(Trim(xs[k])) {
      TrimIsTrimmed(xs[k]);
    }
    seq(|xs|, k requires 0 <= k < |xs| => Trim(xs[k]))
  }

  /** `filter(s => s)` keeps the truthy strings: the non-empty ones. */
  predicate Truthy(s: string) {
    s != ""
  }

  /** `text.split(',').map(s => s.trim()).filter(s => s)`. */
  function ParseSkills(text: string): (r: seq<string>)
    ensures forall k :: 0 <= k < |r| ==> r[k] != "" && IsTrimmed(r[k]) && ',' !in r[k]
  {
    var pieces := Split(text, ',');
    var trimmed := TrimAll(pieces);
    SplitPiecesOmitSeparator(text, ',');
    var r := Filter(trimmed, Truthy);
    forall k | 0 <= k < |r| ensures r[k] != "" && IsTrimmed(r[k]) && ',' !in r[k] {
      assert r[k] in trimmed;
      var j :| 0 <= j < |trimmed| && trimmed[j] == r[k];
      assert ',' !in pieces[j];
      TrimIsTrimmed(pieces[j]);
      TrimKeepsChars(pieces[j]);
    }
    r
  }

  /** Trimming pointwise distributes over concatenation. */
  lemma TrimAllAppend(a: seq<string>, b: seq<string>)
    ensures TrimAll(a + b) == TrimAll(a) + TrimAll(b)
  {
  }

  /** What survives trimming and dropping empty pieces: the non-empty trimmed pieces. */
  lemma TrimmedPieces(pieces: seq<string>, x: string)
    ensures x in Filter(TrimAll(pieces), Truthy) <==>
      x != "" && exists k :: 0 <= k < |pieces| && x == Trim(pieces[k])
  {
    var trimmed := TrimAll(pieces);
    if x in trimmed {
      var j :| 0 <= j < |trimmed| && trimmed[j] == x;
      assert x == Trim(pieces[j]);
    }
    if exists k :: 0 <= k < |pieces| && x == Trim(pieces[k]) {
      var k :| 0 <= k < |pieces| && x == Trim(pieces[k]);
      assert trimmed[k] == x;
    }
  }

  /** A skill is parsed iff it is a non-empty trimmed comma-separated piece of the text. */
  lemma ParseSkillsMembers(text: string, x: string)
    ensures x in ParseSkills(text) <==>
      x != "" && exists k :: 0 <= k < |Split(text, ',')| && x == Trim(Split(text, ',')[k])
  {
    var pieces := Split(text, ',');
    assert ParseSkills(text) == Filter(TrimAll(pieces), Truthy);
    TrimmedPieces(pieces, x);
    if x in ParseSkills(text) {
      var j :| 0 <= j < |pieces| && x == Trim(pieces[j]);
      assert 0 <= j < |Split(text, ',')| && x == Trim(Split(text, ',')[j]);
    }
    if exists k :: 0 <= k < |Split(text, ',')| && x == Trim(Split(text, ',')[k]) {
      var k :| 0 <= k < |Split(text, ',')| && x == Trim(Split(text, ',')[k]);
      assert x == Trim(pieces[k]);
    }
  }

  /** Parsing text with a comma in it parses each side of the comma. */
  lemma ParseSkillsAppend(a: string, b: string)
    ensures ParseSkills(a + "," + b) == ParseSkills(a) + ParseSkills(b)
  {
    assert a + "," + b == a + [','] + b;
    SplitAround(a, ',', b);
    TrimAllAppend(Split(a, ','), Split(b, ','));
    FilterAppend(TrimAll(Split(a, ',')), TrimAll(Split(b, ',')), Truthy);
  }

  /** A comma-free text parses to its trimmed self, or to nothing when that is empty. */
  lemma ParseSkillsPiece(t: string)
    requires ',' !in t
    ensures ParseSkills(t) == if Trim(t) == "" then [] else [Trim(t)]
  {
    SplitWithoutSeparator(t, ',');
    assert TrimAll([t]) == [Trim(t)];
  }

  /** A space before the first piece stays in that piece. */
  lemma SplitAfterSpace(s: string)
    ensures Split(" " + s, ',') == [" " + Split(s, ',')[0]] + Split(s, ',')[1..]
  {
    assert (" " + s)[1..] == s;
  }

  /** Two lists that differ at most in the first piece, which trims the same, trim the same. */
  lemma TrimAllSameButFirst(a: seq<string>, b: seq<string>)
    requires |a| == |b| && |a| >= 1 && a[1..] == b[1..] && Trim(a[0]) == Trim(b[0])
    ensures TrimAll(a) == TrimAll(b)
  {
    forall k | 0 <= k < |a| ensures TrimAll(a)[k] == TrimAll(b)[k] {
      if k > 0 {
        assert a[k] == a[1..][k - 1] == b[1..][k - 1] == b[k];
      }
    }
  }

  /** A leading space before a piece is trimmed away. */
  lemma TrimAllSplitAfterSpace(s: string)
    ensures TrimAll(Split(" " + s, ',')) == TrimAll(Split(s, ','))
  {
    var rest := Split(s, ',');
    SplitAfterSpace(s);
    TrimDropsLeadingWhitespace(" ", rest[0]);
    TrimAllSameButFirst(Split(" " + s, ','), rest);
  }

  /** Splitting the displayed `join(', ')` on commas and trimming gives the skills back. */
  lemma {:induction false} TrimSplitJoin(xs: seq<string>)
    requires |xs| >= 1
    requires forall k :: 0 <= k < |xs| ==> IsTrimmed(xs[k]) && ',' !in xs[k]
    ensures TrimAll(Split(Join(xs, ", "), ',')) == xs
    decreases |xs|
  {
    if |xs| == 1 {
      SplitWithoutSeparator(xs[0], ',');
      TrimOfTrimmed(xs[0]);
    } else {
      var tail := Join(xs[1..], ", ");
      assert Join(xs, ", ") == xs[0] + [','] + (" " + tail);
      SplitAtFirstSeparator(xs[0], ',', " " + tail);
      TrimAllSplitAfterSpace(tail);
      TrimSplitJoin(xs[1..]);
      TrimOfTrimmed(xs[0]);
      assert TrimAll([xs[0]] + Split(" " + tail, ',')) == [Trim(xs[0])] + TrimAll(Split(" " + tail, ','));
      assert [xs[0]] + xs[1..] == xs;
    }
  }

  /** Round trip: parsing the displayed skills gives back the list, when every
      skill is non-empty, trimmed and comma-free. */
  lemma ParseDisplayedSkills(xs: seq<string>)
    requires forall k :: 0 <= k < |xs| ==> xs[k] != "" && IsTrimmed(xs[k]) && ',' !in xs[k]
    ensures ParseSkills(Join(xs, ", ")) == xs
  {
    if xs == [] {
      assert Split("", ',') == [""];
      assert TrimAll([""]) == [""];
    } else {
      TrimSplitJoin(xs);
      FilterAll(xs, Truthy);
    }
  }

  /** Parsing the displayed skills gives back exactly the non-empty ones, in order,
      when every skill is trimmed and comma-free. */
  lemma ParseDisplayedKeepsNonEmpty(xs: seq<string>)
    requires forall k :: 0 <= k < |xs| ==> IsTrimmed(xs[k]) && ',' !in xs[k]
    ensures ParseSkills(Join(xs, ", ")) == Filter(xs, Truthy)
  {
    if xs == [] {
      assert Split("", ',') == [""];
      assert TrimAll([""]) == [""];
    } else {
      TrimSplitJoin(xs);
    }
  }

  /** A skill list with an empty or untrimmed entry does not survive the round trip. */
  lemma ParseDropsEmptySkills()
    ensures ParseSkills(Join(["a", ""], ", ")) == ["a"]
  {
    assert Join(["a", ""], ", ") == "a" + [','] + " ";
    SplitAtFirstSeparator("a", ',', " ");
    SplitWithoutSeparator(" ", ',');
    TrimOfTrimmed("a");
    assert Trim(" ") == "";
    assert TrimAll(["a", " "]) == ["a", ""];
  }

  /** `handleSkillsChange`: the parsed text becomes `formData.profile.skills`. */
  function HandleSkillsChange(page: Page, text: string): Page {
    page.(formData := page.formData.(profile := page.formData.profile.(skills := ParseSkills(text))))
  }

  /** Only the skills change: every top-level and profile string field, the saved
      profile and the editing flag stay as they were. */
  lemma HandleSkillsChangeOnlySkills(page: Page, text: string)
    ensures HandleSkillsChange(page, text).formData.profile.skills == ParseSkills(text)
    ensures forall path :: Get(HandleSkillsChange(page, text).formData, path) == Get(page.formData, path)
    ensures HandleSkillsChange(page, text).formData.top == page.formData.top
    ensures HandleSkillsChange(page, text).profile == page.profile
    ensures HandleSkillsChange(page, text).editing == page.editing
  {
  }

  // ---------------------------------------------------------------- handleCancel

  /** `handleCancel`: the form goes back to the saved profile and editing stops. */
  function HandleCancel(page: Page): (r: Page)
    ensures r.formData == page.profile && !r.editing
    ensures r.profile == page.profile && r.error == page.error
  {
    page.(formData := page.profile, editing := false)
  }

  /** Cancelling discards every edit made since the last save. */
  lemma CancelDiscardsChange(page: Page, name: string, value: string)
    requires name != "profile"
    ensures HandleCancel(HandleChange(page, name, value)) == HandleCancel(page)
  {
  }

  lemma CancelDiscardsSkillsChange(page: Page, text: string)
    ensures HandleCancel(HandleSkillsChange(page, text)) == HandleCancel(page)
  {
  }
}
