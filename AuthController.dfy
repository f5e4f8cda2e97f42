/** The local-account endpoints (backend/controllers/authController.js):
    register, login with its refresh-token retention, access-token refresh and
    logout. Password hashing and comparison, token signing and verification are
    parameters: `hashedPassword` is the bcrypt hash, `passwordMatches` stands for
    `bcrypt.compare`, `token` is the freshly signed refresh token, and
    `decoded` is the user id `jwt.verify` yields (None when it throws). */
module AuthController {
  import opened Js
  import opened Dates
  import opened ListOps
  import opened PatientModel
  import opened UserModel

  const BAD_REQUEST: int := 400
  const UNAUTHORIZED: int := 401
  const FORBIDDEN: int := 403
  const CONFLICT: int := 409
  const SERVER_ERROR: int := 500

  /** The document `new User({ name, email, password })` builds: the setters
      applied, and the defaults (local account, not verified, healthcare
      provider, active, no tokens). */
  function NewLocalUser(name: string, email: string, hashedPassword: string): User
  {
    User(0, CastName(name), CastEmail(email), Some(hashedPassword), None, Local, None,
         false, HealthcareProvider, true, None, [])
  }

  /** POST /auth/register: an address already on file gives 409 and creates
      nothing; otherwise the new document is validated and stored. */
  method Register(store: UserStore, name: string, email: string, hashedPassword: string)
    returns (result: Result<User, UserModel.Failure>)
    requires store.Valid()
    modifies store
    ensures store.Valid()
    ensures FindByEmail(old(store.users), email).Some? ==>
      result == Err(HttpError(CONFLICT)) && store.users == old(store.users)
    ensures FindByEmail(old(store.users), email).None? ==>
      var u := NewLocalUser(name, email, hashedPassword).(id := |old(store.users)|);
      if UserErrors(u) != [] then result == Err(Invalid(UserErrors(u))) && store.users == old(store.users)
      else result == Ok(u) && store.users == old(store.users) + [u]
  {
    var existing := FindByEmail(store.users, email);
    if existing.Some? {
      return Err(HttpError(CONFLICT));
    }
    result := store.Insert(NewLocalUser(name, email, hashedPassword));
  }

  // ---------------------------------------------------------------------------
  // Login

  /** `[...refreshTokens.slice(-2), newToken]` */
  function LoginTokens(tokens: seq<RefreshToken>, issued: RefreshToken): (r: seq<RefreshToken>)
    ensures 1 <= |r| <= 3 && r[|r| - 1] == issued
    ensures |r| - 1 == (if |tokens| <= 2 then |tokens| else 2)
    ensures r[..|r| - 1] == tokens[|tokens| - (|r| - 1)..]
    ensures |tokens| <= 2 ==> r == tokens + [issued]
  {
    var kept := if |tokens| <= 2 then tokens else tokens[|tokens| - 2..];
    assert (kept + [issued])[..|kept|] == kept;
    kept + [issued]
  }

  /** The document after a successful login at time now. */
  function LoggedIn(u: User, token: string, now: int): User
  {
    u.(refreshTokens := LoginTokens(u.refreshTokens, RefreshToken(token, now, now + WEEK_MS)),
       lastLogin := Some(now))
  }

  /** POST /auth/login: an unknown address gives 401, then a deactivated account
      403, then a wrong password 401, in that order. An account without a
      password (created through Google) makes the comparison throw. On success
      the user keeps its last two refresh tokens plus the new one, expiring a
      week from now, and records the login time. */
  method Login(store: UserStore, email: string, password: string,
               passwordMatches: (string, string) -> bool, token: string, now: int)
    returns (result: Result<User, UserModel.Failure>)
    requires store.Valid()
    modifies store
    ensures store.Valid()
    ensures var found := FindByEmail(old(store.users), email);
      if found.None? then result == Err(HttpError(UNAUTHORIZED)) && store.users == old(store.users)
      else
        var u := old(store.users)[found.value];
        if !u.isActive then result == Err(HttpError(FORBIDDEN)) && store.users == old(store.users)
        else if u.password.None? then result == Err(HttpError(SERVER_ERROR)) && store.users == old(store.users)
        else if !passwordMatches(password, u.password.value) then
          result == Err(HttpError(UNAUTHORIZED)) && store.users == old(store.users)
        else
          result == Ok(LoggedIn(u, token, now)) && store.users == old(store.users)[found.value := LoggedIn(u, token, now)]
  {
    var found := FindByEmail(store.users, email);
    if found.None? {
      return Err(HttpError(UNAUTHORIZED));
    }
    var u := store.users[found.value];
    if !u.isActive {
      return Err(HttpError(FORBIDDEN));
    }
    if u.password.None? {
      return Err(HttpError(SERVER_ERROR));
    }
    if !passwordMatches(password, u.password.value) {
      return Err(HttpError(UNAUTHORIZED));
    }
    var updated := LoggedIn(u, token, now);
    assert UserErrors(updated) == UserErrors(u);
    result := store.Save(found.value, updated);
  }

  /** However many logins happen, a user holds at most three refresh tokens:
      the newest three of its old tokens followed by the issued ones, in order. */
  lemma LoginsKeepThreeTokens(u: User, tokens: seq<string>, now: int)
    ensures tokens != [] ==> |RepeatedLogins(u, tokens, now).refreshTokens| == (if |u.refreshTokens| + |tokens| <= 3 then |u.refreshTokens| + |tokens| else 3)
    ensures tokens != [] ==>
      var all := u.refreshTokens + Issued(tokens, now);
      RepeatedLogins(u, tokens, now).refreshTokens == all[|all| - KeptCount(|all|)..]
  {
    if tokens != [] {
      var all := u.refreshTokens + Issued(tokens, now);
      LoginsKeepNewest(u, tokens, now);
      assert |all| == |u.refreshTokens| + |tokens|;
    }
  }

  /** The induction behind LoginsKeepThreeTokens: the tokens held after the
      logins are the newest entries of the old and issued ones. */
  lemma {:induction false} LoginsKeepNewest(u: User, tokens: seq<string>, now: int)
    ensures tokens != [] ==>
      var all := u.refreshTokens + Issued(tokens, now);
      RepeatedLogins(u, tokens, now).refreshTokens == all[|all| - KeptCount(|all|)..]
    decreases |tokens|
  {
    if tokens != [] {
      LoginsKeepNewest(u, tokens[..|tokens| - 1], now);
      LoginKeepsNewestTokens(u, tokens, now);
    }
  }

  /** The induction step of LoginsKeepNewest. */
  lemma LoginKeepsNewestTokens(u: User, tokens: seq<string>, now: int)
    requires tokens != []
    requires var init := tokens[..|tokens| - 1]; var prior := u.refreshTokens + Issued(init, now);
      init != [] ==> RepeatedLogins(u, init, now).refreshTokens == prior[|prior| - KeptCount(|prior|)..]
    ensures var all := u.refreshTokens + Issued(tokens, now);
      RepeatedLogins(u, tokens, now).refreshTokens == all[|all| - KeptCount(|all|)..]
  {
    var init := tokens[..|tokens| - 1];
    var before := RepeatedLogins(u, init, now);
    var next := RefreshToken(tokens[|tokens| - 1], now, now + WEEK_MS);
    assert u.refreshTokens + Issued(tokens, now) == u.refreshTokens + (Issued(init, now) + [next]);
    RepeatedLoginsStep(u, tokens, now);
    assert init == [] ==> before == u;
    NewestAfterLogin(u.refreshTokens, Issued(init, now), before.refreshTokens, next);
  }

  /** One more login keeps the newest entries of the old tokens followed by
      the issued ones: `held` is what the earlier logins `issued` left. */
  lemma NewestAfterLogin(olds: seq<RefreshToken>, issued: seq<RefreshToken>, held: seq<RefreshToken>,
                         next: RefreshToken)
    requires issued == [] ==> held == olds
    requires issued != [] ==> held == (olds + issued)[|olds + issued| - KeptCount(|olds + issued|)..]
    ensures var all := olds + (issued + [next]);
      LoginTokens(held, next) == all[|all| - KeptCount(|all|)..]
  {
    var prior := olds + issued;
    assert olds + (issued + [next]) == prior + [next];
    if issued == [] {
      assert held == prior[|prior| - |prior|..];
    }
    LoginKeepsNewest(prior, held, next);
  }

  /** The last login acts on the tokens held after the earlier ones. */
  lemma RepeatedLoginsStep(u: User, tokens: seq<string>, now: int)
    requires tokens != []
    ensures RepeatedLogins(u, tokens, now).refreshTokens
         == LoginTokens(RepeatedLogins(u, tokens[..|tokens| - 1], now).refreshTokens,
                        RefreshToken(tokens[|tokens| - 1], now, now + WEEK_MS))
  {
  }

  /** The number of refresh tokens kept out of `n` issued so far. */
  function KeptCount(n: nat): nat { if n <= 3 then n else 3 }

  /** The refresh-token entries the logins with these tokens issue at time now,
      in order. */
  function Issued(tokens: seq<string>, now: int): (r: seq<RefreshToken>)
    ensures |r| == |tokens|
    decreases |tokens|
  {
    if tokens == [] then []
    else Issued(tokens[..|tokens| - 1], now) + [RefreshToken(tokens[|tokens| - 1], now, now + WEEK_MS)]
  }

  /** A login on a list holding the newest entries of `all` (at least two of
      them, or all) keeps the newest three of `all` plus the issued one. */
  lemma LoginKeepsNewest(all: seq<RefreshToken>, held: seq<RefreshToken>, issued: RefreshToken)
    requires |held| <= |all| && held == all[|all| - |held|..]
    requires |held| >= 2 || |held| == |all|
    ensures var next := all + [issued];
      LoginTokens(held, issued) == next[|next| - KeptCount(|next|)..]
  {
    var next := all + [issued];
    var r := LoginTokens(held, issued);
    var kept := r[..|r| - 1];
    assert r == kept + [issued];
    assert |kept| == KeptCount(|next|) - 1;
    assert kept == all[|all| - |kept|..] by {
      assert kept == held[|held| - |kept|..];
      assert held[|held| - |kept|..] == all[|all| - |kept|..];
    }
    assert next[|next| - KeptCount(|next|)..] == all[|all| - |kept|..] + [issued];
  }

  /** A user after logging in once per token, all at time now. */
  function RepeatedLogins(u: User, tokens: seq<string>, now: int): User
    decreases |tokens|
  {
    if tokens == [] then u
    else
      var before := RepeatedLogins(u, tokens[..|tokens| - 1], now);
      LoggedIn(before, tokens[|tokens| - 1], now)
  }

  // ---------------------------------------------------------------------------
  // Refresh and logout

  /** `refreshTokens.some(t => t.token === refreshToken && t.expiresAt > new Date())` */
  predicate TokenValid(tokens: seq<RefreshToken>, token: string, now: int) {
    exists i | 0 <= i < |tokens| :: tokens[i].token == token && tokens[i].expiresAt > now
  }

  /** POST /auth/refresh: a missing token gives 400; a token that does not verify,
      a missing or deactivated user, or a token not stored unexpired gives 403;
      otherwise the user id is returned and a new access token issued. */
  function RefreshAccess(users: seq<User>, refreshToken: Option<string>, decoded: Option<nat>, now: int)
    : (r: Result<nat, int>)
    ensures r == Err(BAD_REQUEST) <==> !Truthy(refreshToken)
    ensures r.Ok? <==>
      Truthy(refreshToken) && decoded.Some? && decoded.value < |users| && users[decoded.value].isActive
      && TokenValid(users[decoded.value].refreshTokens, refreshToken.value, now)
    ensures r.Ok? ==> r.value == decoded.value
    ensures r.Err? ==> r.error == BAD_REQUEST || r.error == FORBIDDEN
  {
    if !Truthy(refreshToken) then Err(BAD_REQUEST)
    else if decoded.None? then Err(FORBIDDEN)
    else if decoded.value >= |users| || !users[decoded.value].isActive then Err(FORBIDDEN)
    else if !TokenValid(users[decoded.value].refreshTokens, refreshToken.value, now) then Err(FORBIDDEN)
    else Ok(decoded.value)
  }

  /** A token is refused from the instant it expires on. */
  lemma ExpiryIsStrict(t: RefreshToken, now: int)
    requires t.expiresAt <= now
    ensures !TokenValid([t], t.token, now)
  {
  }

  /** The token issued at login refreshes until a week has passed. */
  lemma LoginTokenRefreshes(u: User, token: string, issuedAt: int, now: int)
    requires issuedAt <= now < issuedAt + WEEK_MS
    ensures TokenValid(LoggedIn(u, token, issuedAt).refreshTokens, token, now)
  {
    var ts := LoggedIn(u, token, issuedAt).refreshTokens;
    assert ts[|ts| - 1].token == token;
  }

  function TokenOf(t: RefreshToken): string { t.token }

  /** `$pull: { refreshTokens: { token } }` */
  function PullToken(tokens: seq<RefreshToken>, token: string): (r: seq<RefreshToken>)
    ensures forall t :: t in r <==> t in tokens && t.token != token
    ensures |r| + CountId(tokens, token, TokenOf) == |tokens|
  {
    RemoveByIdMembers(tokens, token, TokenOf);
    RemoveByIdCount(tokens, token, TokenOf);
    RemoveById(tokens, token, TokenOf)
  }

  /** After logout the token no longer refreshes. */
  lemma LogoutRevokes(tokens: seq<RefreshToken>, token: string, now: int)
    ensures !TokenValid(PullToken(tokens, token), token, now)
  {
    var r := PullToken(tokens, token);
    forall i | 0 <= i < |r| ensures r[i].token != token {
      assert r[i] in r;
    }
  }

  /** POST /auth/logout: with a token, every stored entry equal to it is pulled
      from the caller's list (`updateOne`, no validation, a missing user matches
      nothing); without one nothing changes. */
  method Logout(store: UserStore, userId: nat, refreshToken: Option<string>)
    requires store.Valid()
    modifies store
    ensures store.Valid()
    ensures Truthy(refreshToken) && userId < |old(store.users)| ==>
      store.users == old(store.users)[userId := old(store.users)[userId].(
        refreshTokens := PullToken(old(store.users)[userId].refreshTokens, refreshToken.value))]
    ensures !Truthy(refreshToken) || userId >= |old(store.users)| ==> store.users == old(store.users)
  {
    if Truthy(refreshToken) && userId < |store.users| {
      var u := store.users[userId];
      var updated := u.(refreshTokens := PullToken(u.refreshTokens, refreshToken.value));
      assert UserErrors(updated) == UserErrors(u);
      store.users := store.users[userId := updated];
    }
  }
}
