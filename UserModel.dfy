/** The User document (backend/models/User.js) and the user collection. Ids are
    positions; the unique index on `email` refuses a second document with the
    same address. Every stored document passed its validators. */
module UserModel {
  import opened Js
  import opened Patterns
  import PatientModel

  datatype RefreshToken = RefreshToken(token: string, createdAt: int, expiresAt: int)

  datatype AuthProvider = Local | Google
  datatype Role = HealthcareProvider | Admin | Nurse | BasicUser

  datatype User = User(
    id: nat,
    name: string,
    email: string,
    password: Option<string>,
    googleId: Option<string>,
    authProvider: AuthProvider,
    profilePicture: Option<string>,
    isVerified: bool,
    role: Role,
    isActive: bool,
    lastLogin: Option<int>,
    refreshTokens: seq<RefreshToken>)

  datatype UserPath = NamePath | EmailPath | PasswordPath

  /** `required` with `minlength: 3` on the trimmed name. */
  predicate UserNameValid(name: string) { |name| >= 3 }

  /** `required` and the address pattern on the cast address. */
  predicate UserEmailValid(email: string) { EmailPattern(email) }

  /** `required` only for local accounts; `minlength: 6` whenever a value is set. */
  predicate PasswordValid(password: Option<string>, provider: AuthProvider) {
    (provider == Local ==> password.Some?) && (password.Some? ==> |password.value| >= 6)
  }

  /** The failing paths of a save, in schema order. */
  function UserErrors(u: User): (errs: seq<UserPath>)
    ensures NamePath in errs <==> !UserNameValid(u.name)
    ensures EmailPath in errs <==> !UserEmailValid(u.email)
    ensures PasswordPath in errs <==> !PasswordValid(u.password, u.authProvider)
  {
    (if UserNameValid(u.name) then [] else [NamePath])
    + (if UserEmailValid(u.email) then [] else [EmailPath])
    + (if PasswordValid(u.password, u.authProvider) then [] else [PasswordPath])
  }

  /** Why a write is refused. */
  datatype Failure = HttpError(status: int) | Invalid(paths: seq<UserPath>) | DuplicateKey

  predicate EmailsUnique(users: seq<User>) {
    forall i, j | 0 <= i < |users| && 0 <= j < |users| && i != j :: users[i].email != users[j].email
  }

  /** `User.findOne({ email })`: the filter value goes through the same
      lower-case and trim setters as the stored address. */
  function FindByEmail(users: seq<User>, email: string): (r: Option<nat>)
    ensures r.Some? ==> r.value < |users| && users[r.value].email == PatientModel.CastEmail(email)
    ensures r.None? ==> forall i | 0 <= i < |users| :: users[i].email != PatientModel.CastEmail(email)
    ensures r.Some? ==> forall i | 0 <= i < r.value :: users[i].email != PatientModel.CastEmail(email)
  {
    FindEmailFrom(users, PatientModel.CastEmail(email), 0)
  }

  function FindEmailFrom(users: seq<User>, email: string, k: nat): (r: Option<nat>)
    ensures r.Some? ==> k <= r.value < |users| && users[r.value].email == email
    ensures r.Some? ==> forall i | k <= i < r.value :: users[i].email != email
    ensures r.None? ==> forall i | k <= i < |users| :: users[i].email != email
    decreases |users| - k
  {
    if k >= |users| then None
    else if users[k].email == email then Some(k)
    else FindEmailFrom(users, email, k + 1)
  }

  /** `User.findOne({ googleId })`: the first document carrying that id. */
  function FindByGoogleId(users: seq<User>, googleId: string): (r: Option<nat>)
    ensures r.Some? ==> r.value < |users| && users[r.value].googleId == Some(googleId)
    ensures r.None? ==> forall i | 0 <= i < |users| :: users[i].googleId != Some(googleId)
    ensures r.Some? ==> forall i | 0 <= i < r.value :: users[i].googleId != Some(googleId)
  {
    FindGoogleIdFrom(users, googleId, 0)
  }

  function FindGoogleIdFrom(users: seq<User>, googleId: string, k: nat): (r: Option<nat>)
    ensures r.Some? ==> k <= r.value < |users| && users[r.value].googleId == Some(googleId)
    ensures r.Some? ==> forall i | k <= i < r.value :: users[i].googleId != Some(googleId)
    ensures r.None? ==> forall i | k <= i < |users| :: users[i].googleId != Some(googleId)
    decreases |users| - k
  {
    if k >= |users| then None
    else if users[k].googleId == Some(googleId) then Some(k)
    else FindGoogleIdFrom(users, googleId, k + 1)
  }

  class UserStore {
    var users: seq<User>

    predicate Valid()
      reads this
    {
      (forall i | 0 <= i < |users| :: users[i].id == i && UserErrors(users[i]) == [])
      && EmailsUnique(users)
    }

    constructor()
      ensures Valid() && users == []
    {
      users := [];
    }

    /** `save()` of a new document: validation first, then the unique index. */
    method Insert(u: User) returns (result: Result<User, Failure>)
      requires Valid()
      modifies this
      ensures Valid()
      ensures var stored := u.(id := |old(users)|);
        if UserErrors(stored) != [] then result == Err(Invalid(UserErrors(stored))) && users == old(users)
        else if exists i | 0 <= i < |old(users)| :: old(users)[i].email == u.email then
          result == Err(DuplicateKey) && users == old(users)
        else result == Ok(stored) && users == old(users) + [stored]
    {
      var stored := u.(id := |users|);
      var errs := UserErrors(stored);
      if errs != [] {
        return Err(Invalid(errs));
      }
      if exists i | 0 <= i < |users| :: users[i].email == u.email {
        return Err(DuplicateKey);
      }
      users := users + [stored];
      result := Ok(stored);
    }

    /** `save()` of a loaded document `id`: validation, then the unique index. */
    method Save(id: nat, u: User) returns (result: Result<User, Failure>)
      requires Valid() && id < |users|
      modifies this
      ensures Valid()
      ensures var stored := u.(id := id);
        if UserErrors(stored) != [] then result == Err(Invalid(UserErrors(stored))) && users == old(users)
        else if exists i | 0 <= i < |old(users)| && i != id :: old(users)[i].email == u.email then
          result == Err(DuplicateKey) && users == old(users)
        else result == Ok(stored) && users == old(users)[id := stored]
    {
      var stored := u.(id := id);
      var errs := UserErrors(stored);
      if errs != [] {
        return Err(Invalid(errs));
      }
      if exists i | 0 <= i < |users| && i != id :: users[i].email == u.email {
        return Err(DuplicateKey);
      }
      users := users[id := stored];
      result := Ok(stored);
    }
  }

  /** A stored address matches the lookup exactly once: the unique index makes
      the first match the only one. */
  lemma FindByEmailUnique(users: seq<User>, email: string, i: nat)
    requires EmailsUnique(users) && i < |users| && users[i].email == PatientModel.CastEmail(email)
    ensures FindByEmail(users, email) == Some(i)
  {
  }
}
