/** The mobile Google sign-in (backend/controllers/oauthController.js,
    `mobileGoogleAuth`): an account is found by Google id, else linked by
    address, else created; then one more refresh token is stored. Token signing
    is a parameter: `token` is the freshly signed refresh token. */
module OAuthController {
  import opened Js
  import opened Dates
  import opened UserModel
  import PatientModel

  const BAD_REQUEST: int := 400

  /** The fields of the request body the handler reads. */
  datatype GoogleProfile = GoogleProfile(
    email: Option<string>,
    name: Option<string>,
    picture: Option<string>,
    googleId: Option<string>)

  /** The account the handler settles on, before the refresh token is added:
      an existing document `id` updated in place, or a new one. */
  datatype Resolved = Existing(id: nat, user: User) | Created(user: User)

  /** The profile of a user found by Google id: the login time always, the
      picture and the name only when the request carries them. */
  function Refreshed(u: User, body: GoogleProfile, now: int): User
  {
    u.(lastLogin := Some(now),
       profilePicture := if Truthy(body.picture) then body.picture else u.profilePicture,
       name := if Truthy(body.name) then PatientModel.CastName(body.name.value) else u.name)
  }

  /** An account found by address, linked to the Google id. The picture is
      assigned whatever the request carries, absent included. */
  function Linked(u: User, googleId: string, body: GoogleProfile, now: int): User
  {
    u.(googleId := Some(googleId), authProvider := Google, profilePicture := body.picture,
       isVerified := true, lastLogin := Some(now))
  }

  /** `name || email.split('@')[0]`, then the trim setter. */
  function DefaultName(name: Option<string>, email: string): string
  {
    PatientModel.CastName(if Truthy(name) then name.value else Split(email, '@')[0])
  }

  /** `User.create({...})`: a verified Google account with the basic role. */
  function NewGoogleUser(googleId: string, email: string, body: GoogleProfile, now: int): User
  {
    User(0, DefaultName(body.name, email), PatientModel.CastEmail(email), None, Some(googleId), Google,
         body.picture, true, BasicUser, true, Some(now), [])
  }

  /** The three branches, tried in order: Google id, then address, then create. */
  function Resolve(users: seq<User>, googleId: string, email: string, body: GoogleProfile, now: int)
    : (r: Resolved)
    ensures FindByGoogleId(users, googleId).Some? ==>
      r.Existing? && r.id == FindByGoogleId(users, googleId).value && r.id < |users|
      && r.user == Refreshed(users[r.id], body, now)
    ensures FindByGoogleId(users, googleId).None? && FindByEmail(users, email).Some? ==>
      r.Existing? && r.id == FindByEmail(users, email).value && r.id < |users|
      && r.user.googleId == Some(googleId) && r.user.authProvider == Google && r.user.isVerified
      && r.user == Linked(users[r.id], googleId, body, now)
    ensures FindByGoogleId(users, googleId).None? && FindByEmail(users, email).None? ==>
      r.Created? && r.user.googleId == Some(googleId) && r.user.authProvider == Google
      && r.user.role == BasicUser && r.user.isVerified && r.user.refreshTokens == []
      && r.user.name == DefaultName(body.name, email)
    ensures r.Existing? ==> r.id < |users|
  {
    match FindByGoogleId(users, googleId)
    case Some(i) => Existing(i, Refreshed(users[i], body, now))
    case None =>
      match FindByEmail(users, email)
      case Some(i) => Existing(i, Linked(users[i], googleId, body, now))
      case None => Created(NewGoogleUser(googleId, email, body, now))
  }

  /** `user.refreshTokens.push({ token, expiresAt })`, created now. */
  function WithToken(u: User, token: string, now: int): (v: User)
    ensures v.refreshTokens == u.refreshTokens + [RefreshToken(token, now, now + WEEK_MS)]
    ensures UserErrors(v) == UserErrors(u) && v.email == u.email && v.id == u.id
  {
    u.(refreshTokens := u.refreshTokens + [RefreshToken(token, now, now + WEEK_MS)])
  }

  /** Saving an account found in the store, then saving it again with one
      more refresh token. The address is unchanged, so only validation can
      refuse the first save, and nothing can refuse the second. */
  method SaveAndIssue(store: UserStore, i: nat, u: User, token: string, now: int)
    returns (result: Result<User, Failure>)
    requires store.Valid() && i < |store.users| && u.email == store.users[i].email
    modifies store
    ensures store.Valid()
    ensures var stored := u.(id := i);
      if UserErrors(stored) != [] then
        result == Err(Invalid(UserErrors(stored))) && store.users == old(store.users)
      else
        result == Ok(WithToken(stored, token, now))
        && store.users == old(store.users)[i := WithToken(stored, token, now)]
  {
    var saved := store.Save(i, u);
    if saved.Err? {
      return saved;
    }
    result := store.Save(i, WithToken(saved.value, token, now));
  }

  /** `User.create(...)`, then a save with one more refresh token. No stored
      account has the address, so only validation can refuse the insert. */
  method CreateAndIssue(store: UserStore, u: User, token: string, now: int)
    returns (result: Result<User, Failure>)
    requires store.Valid()
    requires forall j | 0 <= j < |store.users| :: store.users[j].email != u.email
    modifies store
    ensures store.Valid()
    ensures var stored := u.(id := |old(store.users)|);
      if UserErrors(stored) != [] then
        result == Err(Invalid(UserErrors(stored))) && store.users == old(store.users)
      else
        result == Ok(WithToken(stored, token, now))
        && store.users == old(store.users) + [WithToken(stored, token, now)]
  {
    var id := |store.users|;
    var saved := store.Insert(u);
    if saved.Err? {
      return saved;
    }
    result := store.Save(id, WithToken(saved.value, token, now));
  }

  /** POST /auth/oauth/google: 400 without a Google id or an address; otherwise
      the resolved account is saved (validation may refuse it) and then saved
      again with one more refresh token. */
  method MobileGoogleAuth(store: UserStore, body: GoogleProfile, token: string, now: int)
    returns (result: Result<User, Failure>)
    requires store.Valid()
    modifies store
    ensures store.Valid()
    ensures !Truthy(body.googleId) || !Truthy(body.email) ==>
      result == Err(HttpError(BAD_REQUEST)) && store.users == old(store.users)
    ensures Truthy(body.googleId) && Truthy(body.email) ==>
      match Resolve(old(store.users), body.googleId.value, body.email.value, body, now)
      case Existing(i, u) =>
        var stored := u.(id := i);
        if UserErrors(stored) != [] then
          result == Err(Invalid(UserErrors(stored))) && store.users == old(store.users)
        else
          result == Ok(WithToken(stored, token, now))
          && store.users == old(store.users)[i := WithToken(stored, token, now)]
      case Created(u) =>
        var stored := u.(id := |old(store.users)|);
        if UserErrors(stored) != [] then
          result == Err(Invalid(UserErrors(stored))) && store.users == old(store.users)
        else
          result == Ok(WithToken(stored, token, now))
          && store.users == old(store.users) + [WithToken(stored, token, now)]
  {
    if !Truthy(body.googleId) || !Truthy(body.email) {
      return Err(HttpError(BAD_REQUEST));
    }
    var resolved := Resolve(store.users, body.googleId.value, body.email.value, body, now);
    match resolved {
      case Existing(i, u) =>
        result := SaveAndIssue(store, i, u, token, now);
      case Created(u) =>
        result := CreateAndIssue(store, u, token, now);
    }
  }

  /** Unlike login, Google sign-in never drops a token: every sign-in adds one. */
  lemma {:induction false} SignInsKeepEveryToken(u: User, tokens: seq<string>, now: int)
    ensures |RepeatedSignIns(u, tokens, now).refreshTokens| == |u.refreshTokens| + |tokens|
    ensures RepeatedSignIns(u, tokens, now).refreshTokens[..|u.refreshTokens|] == u.refreshTokens
    decreases |tokens|
  {
    if tokens != [] {
      var before := RepeatedSignIns(u, tokens[..|tokens| - 1], now);
      SignInsKeepEveryToken(u, tokens[..|tokens| - 1], now);
      var after := WithToken(before, tokens[|tokens| - 1], now);
      assert after.refreshTokens[..|u.refreshTokens|] == before.refreshTokens[..|u.refreshTokens|];
    }
  }

  /** A user after signing in once per token, all at time now. */
  function RepeatedSignIns(u: User, tokens: seq<string>, now: int): User
    decreases |tokens|
  {
    if tokens == [] then u
    else WithToken(RepeatedSignIns(u, tokens[..|tokens| - 1], now), tokens[|tokens| - 1], now)
  }

  /** Without a name in the request a new account is named after the local
      part of the address. */
  lemma CreatedNameIsLocalPart(local: string, domain: string)
    requires '@' !in local
    ensures DefaultName(None, local + "@" + domain) == PatientModel.CastName(local)
  {
    var s := local + "@" + domain;
    assert IndexOf(s, '@') == |local| by {
      assert s[|local|] == '@';
      forall k | 0 <= k < |local| ensures s[k] != '@' {
        assert s[k] == local[k];
      }
    }
    assert s[..|local|] == local;
  }
}
