/**
 * The user schema: field setters (trim, lowercase), defaults, validators
 * (required, email pattern, password length, role enum), the unique email
 * index, the `select: false` password, and the pre-save hook that hashes a
 * modified password.
 */
module UserModel {
  import opened Wrappers
  import opened Text
  import opened Persistence

  const Roles: set<string> := {"developer", "company", "admin"}
  const DefaultRole: string := "developer"
  const MinPasswordLength: nat := 6

  /** The developer sub-document. */
  datatype Profile = Profile(
    bio: Option<string>, skills: seq<string>, experience: Option<string>,
    location: Option<string>, github: Option<string>, linkedin: Option<string>,
    portfolio: Option<string>, profilePicture: Option<string>)

  /** The company sub-document. */
  datatype CompanyInfo = CompanyInfo(
    companyName: Option<string>, industry: Option<string>, companySize: Option<string>,
    website: Option<string>, location: Option<string>, description: Option<string>)

  /** A stored user document; `password` holds the bcrypt hash. */
  datatype User = User(
    name: string, email: string, password: string, role: string,
    profile: Profile, companyInfo: CompanyInfo, createdAt: int)

  /** A user as every default read returns it: the password path has
      `select: false`, so the type has no place for it. */
  datatype PublicUser = PublicUser(
    id: ObjectId, name: string, email: string, role: string,
    profile: Profile, companyInfo: CompanyInfo, createdAt: int)

  function WithoutPassword(id: ObjectId, u: User): PublicUser {
    PublicUser(id, u.name, u.email, u.role, u.profile, u.companyInfo, u.createdAt)
  }

  // ---------------------------------------------------------------- email

  /** `/^\S+@\S+\.\S+$/`: three non-empty runs without whitespace, the first two
      joined by `@`, the last two by `.` (a run may itself contain `@` or `.`). */
  predicate MatchesEmailPattern(s: string) {
    exists i, j :: 0 < i && i + 1 < j && j + 1 < |s| && s[i] == '@' && s[j] == '.'
      && NoWhitespace(s[..i]) && NoWhitespace(s[i + 1..j]) && NoWhitespace(s[j + 1..])
  }

  /** The pattern holds iff the address has no whitespace at all and has
      an `@` and, at least two places later, a `.` that is not last. */
  lemma EmailPatternIff(s: string)
    ensures MatchesEmailPattern(s) <==>
      NoWhitespace(s) && exists i, j :: 0 < i && i + 1 < j && j + 1 < |s| && s[i] == '@' && s[j] == '.'
  {
    if MatchesEmailPattern(s) {
      var i, j :| 0 < i && i + 1 < j && j + 1 < |s| && s[i] == '@' && s[j] == '.'
        && NoWhitespace(s[..i]) && NoWhitespace(s[i + 1..j]) && NoWhitespace(s[j + 1..]);
      forall k | 0 <= k < |s| ensures !IsWhitespace(s[k]) {
        if k < i {
          assert s[..i][k] == s[k];
        } else if i < k < j {
          assert s[i + 1..j][k - i - 1] == s[k];
        } else if j < k {
          assert s[j + 1..][k - j - 1] == s[k];
        }
      }
    }
    if NoWhitespace(s) && exists i, j :: 0 < i && i + 1 < j && j + 1 < |s| && s[i] == '@' && s[j] == '.' {
      var i, j :| 0 < i && i + 1 < j && j + 1 < |s| && s[i] == '@' && s[j] == '.';
      assert NoWhitespace(s[..i]) && NoWhitespace(s[i + 1..j]) && NoWhitespace(s[j + 1..]);
    }
  }

  /** The `lowercase` setter runs before the `match` validator; lower-casing
      never changes whether an address matches. */
  lemma LowercaseKeepsEmailPattern(s: string)
    ensures MatchesEmailPattern(ToLower(s)) <==> MatchesEmailPattern(s)
  {
    var t := ToLower(s);
    EmailPatternIff(s);
    EmailPatternIff(t);
    ToLowerKeepsWhitespace(s);
    assert NoWhitespace(t) <==> NoWhitespace(s);
    forall i | 0 <= i < |s| ensures (t[i] == '@' <==> s[i] == '@') && (t[i] == '.' <==> s[i] == '.') {
    }
  }

  // ---------------------------------------------------------------- documents

  /** What a registration supplies; `None` is an absent field. */
  datatype UserFields = UserFields(
    name: Option<string>, email: Option<string>, password: Option<string>, role: Option<string>)

  /** Schema validation: required fields (a required string may not be empty),
      the email pattern, the password's minimum length and the role enum. */
  predicate ValidUser(name: string, email: string, password: string, role: string) {
    && name != ""
    && email != "" && MatchesEmailPattern(email)
    && password != "" && |password| >= MinPasswordLength
    && role in Roles
  }

  /** What validation guarantees of a stored user. Its password is the hash the
      pre-save hook wrote, so the length rule is about the plain text and not kept here. */
  predicate StoredUserValid(u: User) {
    && u.name != ""
    && u.email != "" && MatchesEmailPattern(u.email)
    && u.role in Roles
  }

  /** A user that passed validation is stored valid, whatever its hash. */
  lemma SavedUserValid(name: string, email: string, password: string, role: string,
                       hash: string, profile: Profile, companyInfo: CompanyInfo, createdAt: int)
    requires ValidUser(name, email, password, role)
    ensures StoredUserValid(User(name, email, hash, role, profile, companyInfo, createdAt))
  {
  }

  /** The `unique` index on `email`: no two stored users share an address. */
  predicate UniqueEmails(users: map<ObjectId, User>) {
    forall a, b :: a in users && b in users && users[a].email == users[b].email ==> a == b
  }

  /** The addresses the unique email index holds. */
  function StoredEmails(users: map<ObjectId, User>): (r: set<string>)
    ensures forall e :: e in r <==> exists k :: k in users && users[k].email == e
  {
    set k | k in users :: users[k].email
  }

  /** A new user document is admitted by the index exactly when no stored user has its address. */
  lemma {:induction false} InsertKeepsUniqueEmails(users: map<ObjectId, User>, id: ObjectId, u: User)
    requires UniqueEmails(users) && id !in users
    ensures UniqueEmails(users[id := u]) <==> forall k :: k in users ==> users[k].email != u.email
    ensures UniqueEmails(users[id := u]) <==> u.email !in StoredEmails(users)
  {
    var m := users[id := u];
    if forall k :: k in users ==> users[k].email != u.email {
      forall a, b | a in m && b in m && m[a].email == m[b].email ensures a == b {
        if a != id && b != id {
          assert users[a].email == users[b].email;
        }
      }
    } else {
      var k :| k in users && users[k].email == u.email;
      assert m[k].email == m[id].email && k != id;
    }
  }

  /** A user document between load and save. `passwordModified` is Mongoose's
      change tracking for the `password` path. */
  class UserDocument {
    var name: string
    var email: string
    var password: string
    var role: string
    var passwordModified: bool

    /** `new User(fields)`: setters trim the name and lower-case the email,
        the role defaults to developer, and every path of a new document is modified. */
    constructor (fields: UserFields)
      ensures name == Trim(fields.name.GetOr(""))
      ensures email == ToLower(fields.email.GetOr(""))
      ensures password == fields.password.GetOr("")
      ensures role == fields.role.GetOr(DefaultRole)
      ensures passwordModified
    {
      var n, e := Trim(fields.name.GetOr("")), ToLower(fields.email.GetOr(""));
      name, email := n, e;
      password := fields.password.GetOr("");
      role := fields.role.GetOr(DefaultRole);
      passwordModified := true;
    }

    /** Assigning `user.password` marks the path modified. */
    method SetPassword(plain: string)
      modifies this
      ensures password == plain && passwordModified
      ensures name == old(name) && email == old(email) && role == old(role)
    {
      password := plain;
      passwordModified := true;
    }

    /** `user.save()`: validation runs first, on the plain-text password; then the
        pre-save hook replaces the password by its salted hash only when the path
        was modified; then the write meets the unique email index, which refuses
        an address in `stored` (the addresses of the other stored users). A
        failed validation changes nothing. A refused write keeps the hashed
        password and its change tracking; a successful one clears the tracking.
        The salt (`bcrypt.genSalt`) and the hash function (`bcrypt.hash`) are
        parameters. */
    method Save(salt: string, hash: (string, string) -> string, stored: set<string>) returns (ok: bool)
      modifies this
      ensures ok == (ValidUser(old(name), old(email), old(password), old(role)) && old(email) !in stored)
      ensures name == old(name) && email == old(email) && role == old(role)
      ensures !ValidUser(old(name), old(email), old(password), old(role)) ==> password == old(password)
      ensures ValidUser(old(name), old(email), old(password), old(role)) ==>
        password == (if old(passwordModified) then hash(old(password), salt) else old(password))
      ensures passwordModified == (old(passwordModified) && !ok)
    {
      if !ValidUser(name, email, password, role) {
        return false;
      }
      if passwordModified {
        password := hash(password, salt);
      }
      if email in stored {
        return false;
      }
      ok := true;
      passwordModified := false;
    }
  }
}
