/** internal/domain/usecase/users_usecase.go: registration, login and
    refresh-token rotation over a user table and a key-value cache. The
    cache holds, under "refresh_token:" + user id, the one refresh token
    that may currently be exchanged. Token signing and checking and bcrypt
    are oracles: their answers are inputs. */
module Auth {
  import opened Common
  import opened Uuids

  datatype User = User(id: Uuid, username: string, email: string, passwordHash: string)

  datatype RegisterRequest = RegisterRequest(username: string, email: string, password: string)

  const RefreshPrefix := "refresh_token:"

  const ErrUsernameTaken := "username already exists"
  const ErrEmailTaken := "email already exists"
  const ErrCreateUser := "failed to create user: "
  const ErrInvalidCredentials := "invalid username or password"
  const ErrInvalidRefresh := "invalid refresh token"
  const ErrRefreshNotFound := "refresh token not found or expired"
  const ErrRefreshMismatch := "refresh token does not match"

  /** The cache key of a user's refresh token. */
  function RefreshKey(userId: string): string
  {
    RefreshPrefix + userId
  }

  /** Different users have different cache keys. */
  lemma RefreshKeyInjective(a: string, b: string)
    requires RefreshKey(a) == RefreshKey(b)
    ensures a == b
  {
    assert a == RefreshKey(a)[|RefreshPrefix|..];
    assert b == RefreshKey(b)[|RefreshPrefix|..];
  }

  /** GetByUsername: the first user with that name, or not found. */
  function FindByUsername(users: seq<User>, username: string): (r: Option<User>)
    ensures r.Some? ==> r.value in users && r.value.username == username
    ensures r.None? ==> forall u :: u in users ==> u.username != username
  {
    if users == [] then None
    else if users[0].username == username then Some(users[0])
    else FindByUsername(users[1..], username)
  }

  /** GetByEmail: the first user with that address, or not found. */
  function FindByEmail(users: seq<User>, email: string): (r: Option<User>)
    ensures r.Some? ==> r.value in users && r.value.email == email
    ensures r.None? ==> forall u :: u in users ==> u.email != email
  {
    if users == [] then None
    else if users[0].email == email then Some(users[0])
    else FindByEmail(users[1..], email)
  }

  /** No two users share a username or an email address. */
  predicate UniqueAccounts(users: seq<User>)
  {
    forall i, j :: 0 <= i < j < |users| ==> users[i].username != users[j].username && users[i].email != users[j].email
  }

  /** Adding a user whose name and address are both free keeps the
      accounts unique: the two checks Register makes are enough. */
  lemma {:induction false} AddFreeUserKeepsUnique(users: seq<User>, u: User)
    requires UniqueAccounts(users)
    requires FindByUsername(users, u.username).None? && FindByEmail(users, u.email).None?
    ensures UniqueAccounts(users + [u])
  {
    var all := users + [u];
    forall i, j | 0 <= i < j < |all|
      ensures all[i].username != all[j].username && all[i].email != all[j].email
    {
      if j == |users| {
        assert all[i] in users;
      }
    }
  }

  /** The user a login authenticates: the account with that name, when
      the password matches its hash. */
  function Authenticate(users: seq<User>, username: string, password: string,
                        matches: (string, string) -> bool): (r: Option<User>)
    ensures r.Some? ==> r.value in users && r.value.username == username && matches(r.value.passwordHash, password)
    ensures r.None? ==> FindByUsername(users, username).None? || !matches(FindByUsername(users, username).value.passwordHash, password)
  {
    match FindByUsername(users, username)
    case None => None
    case Some(u) => if matches(u.passwordHash, password) then Some(u) else None
  }

  /** Whether `token`, whose validation named `claims`, may be exchanged:
      it validated and it is the token cached for that user. */
  predicate CanRefresh(cache: map<string, string>, token: string, claims: Option<string>)
  {
    claims.Some? && RefreshKey(claims.value) in cache && cache[RefreshKey(claims.value)] == token
  }

  /** After a rotation that issued a different token, the presented token
      can never be exchanged again and the new one can. */
  lemma RotationSupersedes(cache: map<string, string>, userId: string, presented: string, issued: string)
    requires issued != presented
    ensures !CanRefresh(cache[RefreshKey(userId) := issued], presented, Some(userId))
    ensures CanRefresh(cache[RefreshKey(userId) := issued], issued, Some(userId))
  {
  }

  /** A cache write that installs a refresh token for a user: the whole
      effect on the cache of a successful Login or RefreshToken. */
  datatype Issue = Issue(userId: string, token: string)

  /** The cache after a run of issues, applied in order. */
  function AfterIssues(cache: map<string, string>, issues: seq<Issue>): (c: map<string, string>)
    ensures cache.Keys <= c.Keys
    decreases |issues|
  {
    if issues == [] then cache
    else AfterIssues(cache[RefreshKey(issues[0].userId) := issues[0].token], issues[1..])
  }

  /** A token that cannot refresh for a user stays that way through any
      run of issues that never hands that user the same token again. */
  lemma {:induction false} NeverAgain(cache: map<string, string>, issues: seq<Issue>, token: string, userId: string)
    requires !CanRefresh(cache, token, Some(userId))
    requires forall k :: 0 <= k < |issues| && issues[k].userId == userId ==> issues[k].token != token
    ensures !CanRefresh(AfterIssues(cache, issues), token, Some(userId))
    decreases |issues|
  {
    if issues != [] {
      var next := cache[RefreshKey(issues[0].userId) := issues[0].token];
      if issues[0].userId != userId {
        RotationIsolatesUsers(cache, issues[0].userId, userId, issues[0].token);
      }
      assert !CanRefresh(next, token, Some(userId));
      forall k | 0 <= k < |issues[1..]| && issues[1..][k].userId == userId
        ensures issues[1..][k].token != token
      {
        assert issues[1..][k] == issues[k + 1];
      }
      NeverAgain(next, issues[1..], token, userId);
    }
  }

  /** A superseded token never refreshes again: once a rotation has
      replaced it with a different token, no later run of issues revives it
      unless one of them hands the same user that very token again. */
  lemma SupersededForever(cache: map<string, string>, userId: string, presented: string, issued: string, later: seq<Issue>)
    requires issued != presented
    requires forall k :: 0 <= k < |later| && later[k].userId == userId ==> later[k].token != presented
    ensures !CanRefresh(AfterIssues(cache, [Issue(userId, issued)] + later), presented, Some(userId))
  {
    RotationSupersedes(cache, userId, presented, issued);
    assert ([Issue(userId, issued)] + later)[1..] == later;
    NeverAgain(cache[RefreshKey(userId) := issued], later, presented, userId);
  }

  /** A rotation for one user leaves every other user's entry as it was. */
  lemma RotationIsolatesUsers(cache: map<string, string>, userId: string, other: string, issued: string)
    requires other != userId
    ensures RefreshKey(other) in cache[RefreshKey(userId) := issued] <==> RefreshKey(other) in cache
    ensures RefreshKey(other) in cache ==> cache[RefreshKey(userId) := issued][RefreshKey(other)] == cache[RefreshKey(other)]
  {
    if RefreshKey(other) == RefreshKey(userId) {
      RefreshKeyInjective(other, userId);
    }
  }

  /** The token checker strips a "Bearer " prefix, but the cache is
      compared with the token as presented: a prefixed token never matches
      the raw token the cache holds. */
  lemma BearerPrefixNeverMatches(cache: map<string, string>, userId: string, token: string)
    requires RefreshKey(userId) in cache && cache[RefreshKey(userId)] == token
    ensures !CanRefresh(cache, "Bearer " + token, Some(userId))
  {
    assert |"Bearer " + token| != |token|;
  }

  /** The authentication use case: the user table and the refresh-token
      cache. */
  class AuthUsecase {
    var users: seq<User>
    var cache: map<string, string>

    constructor(users: seq<User>, cache: map<string, string>)
      ensures this.users == users && this.cache == cache
    {
      this.users := users;
      this.cache := cache;
    }

    /** Register. `hashed` is what bcrypt produced for the password, `newId`
        the id the database assigns and `createErr` the insert's failure,
        if any. A lookup that fails for any reason counts as free. */
    method Register(req: RegisterRequest, hashed: Result<string>, newId: Uuid, createErr: Option<string>)
      returns (err: Option<string>)
      modifies this
      ensures cache == old(cache)
      ensures FindByUsername(old(users), req.username).Some? ==> err == Some(ErrUsernameTaken) && users == old(users)
      ensures FindByUsername(old(users), req.username).None? && FindByEmail(old(users), req.email).Some? ==>
        err == Some(ErrEmailTaken) && users == old(users)
      ensures FindByUsername(old(users), req.username).None? && FindByEmail(old(users), req.email).None? ==>
        (hashed.Err? ==> err == Some(hashed.error) && users == old(users)) &&
        (hashed.Ok? && createErr.Some? ==> err == Some(ErrCreateUser + createErr.value) && users == old(users)) &&
        (hashed.Ok? && createErr.None? ==>
          err == None && users == old(users) + [User(newId, req.username, req.email, hashed.value)])
      ensures UniqueAccounts(old(users)) ==> UniqueAccounts(users)
    {
      if FindByUsername(users, req.username).Some? {
        return Some(ErrUsernameTaken);
      }
      if FindByEmail(users, req.email).Some? {
        return Some(ErrEmailTaken);
      }
      if hashed.Err? {
        return Some(hashed.error);
      }
      var user := User(newId, req.username, req.email, hashed.value);
      if createErr.Some? {
        return Some(ErrCreateUser + createErr.value);
      }
      if UniqueAccounts(users) {
        AddFreeUserKeepsUnique(users, user);
      }
      users := users + [user];
      return None;
    }

    /** Login. `matches` is bcrypt's comparison of a hash with a password,
        `access` and `refresh` what token generation returned, and
        `setErr` the cache write's failure, if any. An unknown name and a
        wrong password give the same error. */
    method Login(username: string, password: string, matches: (string, string) -> bool,
                 access: Result<string>, refresh: Result<string>, setErr: Option<string>)
      returns (accessToken: string, refreshToken: string, err: Option<string>)
      modifies this
      ensures users == old(users)
      ensures err.Some? ==> accessToken == "" && refreshToken == "" && cache == old(cache)
      ensures Authenticate(old(users), username, password, matches).None? ==> err == Some(ErrInvalidCredentials)
      ensures Authenticate(old(users), username, password, matches).Some? ==>
        (access.Err? ==> err == Some(access.error)) &&
        (access.Ok? && refresh.Err? ==> err == Some(refresh.error)) &&
        (access.Ok? && refresh.Ok? && setErr.Some? ==> err == setErr) &&
        (access.Ok? && refresh.Ok? && setErr.None? ==>
          err == None && accessToken == access.value && refreshToken == refresh.value &&
          cache == old(cache)[RefreshKey(ToString(Authenticate(old(users), username, password, matches).value.id)) := refresh.value])
      ensures err.None? ==>
        Authenticate(old(users), username, password, matches).Some? && refresh.Ok? &&
        cache == AfterIssues(old(cache), [Issue(ToString(Authenticate(old(users), username, password, matches).value.id), refresh.value)])
      ensures forall t, u :: !CanRefresh(old(cache), t, Some(u)) && (refresh.Ok? ==> refresh.value != t) ==>
        !CanRefresh(cache, t, Some(u))
    {
      var found := FindByUsername(users, username);
      if found.None? {
        return "", "", Some(ErrInvalidCredentials);
      }
      var user := found.value;
      if !matches(user.passwordHash, password) {
        return "", "", Some(ErrInvalidCredentials);
      }
      if access.Err? {
        return "", "", Some(access.error);
      }
      if refresh.Err? {
        return "", "", Some(refresh.error);
      }
      var key := RefreshPrefix + ToString(user.id);
      if setErr.Some? {
        return "", "", setErr;
      }
      cache := cache[key := refresh.value];
      return access.value, refresh.value, None;
    }

    /** RefreshToken. `claims` is the user id the token checker read from
        the presented token (None when it rejects it); `access`, `refresh`
        and `setErr` are as for Login. Every failure leaves the cache as it
        was; a success replaces the user's cached token with the new one. */
    method RefreshToken(presented: string, claims: Option<string>,
                        access: Result<string>, refresh: Result<string>, setErr: Option<string>)
      returns (accessToken: string, refreshToken: string, err: Option<string>)
      modifies this
      ensures users == old(users)
      ensures err.Some? ==> accessToken == "" && refreshToken == "" && cache == old(cache)
      ensures claims.None? ==> err == Some(ErrInvalidRefresh)
      ensures claims.Some? && RefreshKey(claims.value) !in old(cache) ==> err == Some(ErrRefreshNotFound)
      ensures claims.Some? && RefreshKey(claims.value) in old(cache) && old(cache)[RefreshKey(claims.value)] != presented ==>
        err == Some(ErrRefreshMismatch)
      ensures err.None? ==> CanRefresh(old(cache), presented, claims)
      ensures CanRefresh(old(cache), presented, claims) ==>
        (access.Err? ==> err == Some(access.error)) &&
        (access.Ok? && refresh.Err? ==> err == Some(refresh.error)) &&
        (access.Ok? && refresh.Ok? && setErr.Some? ==> err == setErr) &&
        (access.Ok? && refresh.Ok? && setErr.None? ==>
          err == None && accessToken == access.value && refreshToken == refresh.value &&
          cache == old(cache)[RefreshKey(claims.value) := refresh.value])
      ensures err.None? ==>
        claims.Some? && refresh.Ok? &&
        cache == AfterIssues(old(cache), [Issue(claims.value, refresh.value)])
      ensures forall t, u :: !CanRefresh(old(cache), t, Some(u)) && (refresh.Ok? ==> refresh.value != t) ==>
        !CanRefresh(cache, t, Some(u))
    {
      if claims.None? {
        return "", "", Some(ErrInvalidRefresh);
      }
      var userId := claims.value;
      var key := RefreshPrefix + userId;
      if key !in cache {
        return "", "", Some(ErrRefreshNotFound);
      }
      var storedToken := cache[key];
      if storedToken != presented {
        return "", "", Some(ErrRefreshMismatch);
      }
      if access.Err? {
        return "", "", Some(access.error);
      }
      if refresh.Err? {
        return "", "", Some(refresh.error);
      }
      if setErr.Some? {
        return "", "", setErr;
      }
      cache := cache[key := refresh.value];
      return access.value, refresh.value, None;
    }

    /** A client that presents the same refresh token twice: once the
        first exchange has issued a different token, the second is refused
        as a mismatch and changes nothing; when the first fails, the second
        fails the same way and the cache stays as it was. */
    method PresentTwice(presented: string, claims: Option<string>,
                        access: Result<string>, refresh: Result<string>)
      returns (first: Option<string>, second: Option<string>)
      modifies this
      requires refresh.Ok? ==> refresh.value != presented
      ensures users == old(users)
      ensures first.Some? ==> second == first && cache == old(cache)
      ensures first.None? ==> second == Some(ErrRefreshMismatch)
      ensures first.None? ==> claims.Some? && refresh.Ok? && cache == old(cache)[RefreshKey(claims.value) := refresh.value]
    {
      var a1, r1, e1 := RefreshToken(presented, claims, access, refresh, None);
      var a2, r2, e2 := RefreshToken(presented, claims, access, refresh, None);
      if e1.None? {
        RotationSupersedes(old(cache), claims.value, presented, refresh.value);
      }
      return e1, e2;
    }
  }
}
