/**
 * The session routes of `server/auth.ts`: token minting, and the register,
 * login, refresh, logout and current-user handlers over a user table and a
 * refresh-token store. The clock is a parameter in milliseconds; each handler
 * runs as one atomic step.
 */
module Auth {
  import opened Wrappers
  import opened Decimal
  import opened Jwt

  const SECONDS_PER_DAY: nat := 24 * 60 * 60
  const DAY_MS: nat := 24 * 60 * 60 * 1000

  /** The defaults the server falls back to: "15m" for access tokens, 7 days for refresh tokens. */
  const DEFAULT_ACCESS_TTL_SECONDS: nat := 15 * 60
  const DEFAULT_REFRESH_DAYS: nat := 7

  /** Secrets and lifetimes, fixed when the server starts. */
  datatype Config = Config(jwtSecret: string, refreshSecret: string, accessTtlSeconds: nat, refreshDays: nat)

  /** A user row; `password` holds the stored hash. */
  datatype User = User(id: nat, username: string, password: string, name: string, role: string)

  /** A user row as sent to clients: everything but the password. */
  datatype PublicUser = PublicUser(id: nat, username: string, name: string, role: string)

  /** A refresh-token row, keyed in the store by its own token. */
  datatype RefreshRecord = RefreshRecord(userId: nat, token: TokenText, expiresAt: int)

  datatype Body = Message(text: string) | AccessTokenBody(accessToken: TokenText) | UserBody(user: PublicUser)

  /** What a response does to the client's `refreshToken` cookie. */
  datatype CookieChange = Untouched | SetRefreshCookie(value: TokenText, maxAgeMs: nat) | ClearRefreshCookie

  datatype Response = Response(status: nat, body: Body, cookie: CookieChange)

  function WithoutPassword(u: User): (p: PublicUser) {
    PublicUser(u.id, u.username, u.name, u.role)
  }

  /** `generateAccessToken`: the claim `{userId: id.toString(), role}` signed with the access secret. */
  function GenerateAccessToken(cfg: Config, id: JsInt, role: string, nowMs: nat): (t: TokenText)
    ensures t.Signed? && t.key == cfg.jwtSecret && t.exp == Seconds(nowMs) + cfg.accessTtlSeconds
    ensures t.claim.role == role && ParseInt(t.claim.userId) == id
  {
    ParseJsToString(id);
    Sign(Claim(JsToString(id), role), cfg.jwtSecret, nowMs, cfg.accessTtlSeconds)
  }

  /** `generateRefreshToken`: the same claim signed with the refresh secret for `refreshDays` days. */
  function GenerateRefreshToken(cfg: Config, id: JsInt, role: string, nowMs: nat): (t: TokenText)
    ensures t.Signed? && t.key == cfg.refreshSecret && t.exp == Seconds(nowMs) + cfg.refreshDays * SECONDS_PER_DAY
    ensures t.claim.role == role && ParseInt(t.claim.userId) == id
  {
    ParseJsToString(id);
    Sign(Claim(JsToString(id), role), cfg.refreshSecret, nowMs, cfg.refreshDays * SECONDS_PER_DAY)
  }

  /** A cookie value counts as present when it is neither missing nor the empty string. */
  predicate Presented(cookie: Option<TokenText>): (b: bool)
    ensures b ==> cookie.Some?
    ensures cookie.Some? && cookie.value.Signed? ==> b
  {
    cookie.Some? && cookie.value != Garbage("")
  }

  /** `storage.getUser(parseInt(claim.userId))`. */
  function ClaimedUser(users: map<nat, User>, claim: Claim): (u: Option<User>)
    ensures u.Some? ==> u.value in users.Values
    ensures forall n: nat :: claim.userId == NatToString(n) ==> u == if n in users then Some(users[n]) else None
  {
    ParseEveryNatToString();
    match ParseInt(claim.userId)
    case NaN => None
    case Num(n) => if n >= 0 && n in users then Some(users[n]) else None
  }

  /** The user with this username, if any (unique when `UsersWellFormed` holds). */
  ghost function NamedUser(users: map<nat, User>, username: string): Option<User> {
    if exists id :: id in users && users[id].username == username then
      var id :| id in users && users[id].username == username;
      Some(users[id])
    else
      None
  }

  /** Ids are keys, all below the next id to hand out, and usernames are unique. */
  ghost predicate UsersWellFormed(users: map<nat, User>, nextUserId: nat) {
    && (forall id :: id in users ==> users[id].id == id && id < nextUserId)
    && (forall i, j :: i in users && j in users && users[i].username == users[j].username ==> i == j)
  }

  /**
   * The shape login gives every record: keyed by its own token, that token
   * signed with the refresh secret for the record's user, and the token's own
   * expiry no later than the record's.
   */
  ghost predicate RecordFor(t: TokenText, rec: RefreshRecord, cfg: Config) {
    && rec.token == t
    && t.Signed?
    && t.key == cfg.refreshSecret
    && t.claim.userId == NatToString(rec.userId)
    && t.exp * 1000 <= rec.expiresAt
  }

  ghost predicate StoreWellFormed(store: map<TokenText, RefreshRecord>, cfg: Config) {
    forall t :: t in store ==> RecordFor(t, store[t], cfg)
  }

  /** The record login saves is well formed: its token's expiry second is never after the stored expiry. */
  lemma LoginRecordWellFormed(cfg: Config, u: User, nowMs: nat)
    ensures var t := GenerateRefreshToken(cfg, Num(u.id), u.role, nowMs);
            RecordFor(t, RefreshRecord(u.id, t, nowMs + cfg.refreshDays * DAY_MS), cfg)
  {
    var t := GenerateRefreshToken(cfg, Num(u.id), u.role, nowMs);
    var d := cfg.refreshDays;
    assert t.exp == nowMs / 1000 + d * SECONDS_PER_DAY;
    assert (nowMs / 1000) * 1000 <= nowMs;
    assert (d * SECONDS_PER_DAY) * 1000 == d * DAY_MS;
    assert t.exp * 1000 == (nowMs / 1000) * 1000 + (d * SECONDS_PER_DAY) * 1000;
  }

  /**
   * For a record of a well-formed store, the stored-expiry check never rejects
   * a token that verification accepts: the token's own expiry always binds first.
   */
  lemma StoredExpiryRedundant(store: map<TokenText, RefreshRecord>, cfg: Config, t: TokenText, nowMs: nat)
    requires StoreWellFormed(store, cfg)
    requires t in store
    requires Verify(t, cfg.refreshSecret, nowMs).Success?
    ensures !(store[t].expiresAt < nowMs)
  {
    assert RecordFor(t, store[t], cfg);
    var s := nowMs / 1000;
    assert s + 1 <= t.exp;
    assert nowMs < (s + 1) * 1000;
    assert (s + 1) * 1000 <= t.exp * 1000;
  }

  /** For any id that `toString` wrote, re-minting from the parsed id reproduces the claim. */
  lemma ReissuedClaimUnchanged(cfg: Config, n: nat, role: string, nowMs: nat)
    ensures GenerateAccessToken(cfg, ParseInt(NatToString(n)), role, nowMs).claim == Claim(NatToString(n), role)
  {
    RewriteIsIdentity(n);
  }

  /**
   * An access token minted for user `n` verifies under the access secret until
   * `accessTtlSeconds` after its issue second, and its claim gives back `n`.
   */
  lemma AccessTokenVerifies(cfg: Config, n: nat, role: string, issuedMs: nat, nowMs: nat)
    ensures var t := GenerateAccessToken(cfg, Num(n), role, issuedMs);
            && Verify(t, cfg.jwtSecret, nowMs)
               == (if Seconds(nowMs) < Seconds(issuedMs) + cfg.accessTtlSeconds
                   then Success(Claim(NatToString(n), role)) else Failure(Expired))
            && ParseInt(t.claim.userId) == Num(n)
  {
    ParseNatToString(n);
  }

  /**
   * A refresh token minted for user `n` verifies under the refresh secret for
   * `refreshDays` whole days after its issue second, and its claim gives back `n`.
   */
  lemma RefreshTokenVerifies(cfg: Config, n: nat, role: string, issuedMs: nat, nowMs: nat)
    ensures var t := GenerateRefreshToken(cfg, Num(n), role, issuedMs);
            && Verify(t, cfg.refreshSecret, nowMs)
               == (if Seconds(nowMs) < Seconds(issuedMs) + cfg.refreshDays * SECONDS_PER_DAY
                   then Success(Claim(NatToString(n), role)) else Failure(Expired))
            && ParseInt(t.claim.userId) == Num(n)
  {
    ParseNatToString(n);
  }

  /** With distinct secrets, an access token is never accepted where a refresh token is expected, and vice versa. */
  lemma TokenClassesSeparate(cfg: Config, id: JsInt, role: string, issuedMs: nat, nowMs: nat)
    requires cfg.jwtSecret != cfg.refreshSecret
    ensures Verify(GenerateAccessToken(cfg, id, role, issuedMs), cfg.refreshSecret, nowMs) == Failure(InvalidSignature)
    ensures Verify(GenerateRefreshToken(cfg, id, role, issuedMs), cfg.jwtSecret, nowMs) == Failure(InvalidSignature)
  {
  }

  class SessionServer {
    const cfg: Config
    /** `hashPassword(password)`, with its random salt made an explicit argument. */
    const hashPassword: (string, string) -> string
    /** `comparePasswords(supplied, stored)`. */
    const comparePasswords: (string, string) -> bool

    var users: map<nat, User>
    var nextUserId: nat
    var refreshStore: map<TokenText, RefreshRecord>

    ghost predicate Valid()
      reads this
    {
      && UsersWellFormed(users, nextUserId)
      && StoreWellFormed(refreshStore, cfg)
      && (forall t :: t in refreshStore ==> refreshStore[t].userId in users)
    }

    /** The checks `/api/refresh` and `/api/user` run on a presented token, in order. */
    ghost predicate Accepts(t: TokenText, nowMs: nat)
      reads this
    {
      && Verify(t, cfg.refreshSecret, nowMs).Success?
      && t in refreshStore
      && !(refreshStore[t].expiresAt < nowMs)
    }

    constructor (cfg: Config, hashPassword: (string, string) -> string, comparePasswords: (string, string) -> bool)
      ensures Valid()
      ensures this.cfg == cfg && this.hashPassword == hashPassword && this.comparePasswords == comparePasswords
      ensures users == map[] && nextUserId == 1 && refreshStore == map[]
    {
      this.cfg := cfg;
      this.hashPassword := hashPassword;
      this.comparePasswords := comparePasswords;
      users := map[];
      nextUserId := 1;
      refreshStore := map[];
    }

    /** `storage.getUserByUsername`. */
    method FindUserByUsername(username: string) returns (found: Option<User>)
      requires Valid()
      ensures found.None? <==> forall id :: id in users ==> users[id].username != username
      ensures found.Some? ==> found.value.id in users && users[found.value.id] == found.value
                              && found.value.username == username
      ensures found == NamedUser(users, username)
    {
      if exists id :: id in users && users[id].username == username {
        var id :| id in users && users[id].username == username;
        found := Some(users[id]);
      } else {
        found := None;
      }
    }

    /** `POST /api/register`. */
    method Register(username: string, password: string, name: string, role: string, salt: string)
      returns (r: Response)
      requires Valid()
      modifies this
      ensures Valid()
      ensures refreshStore == old(refreshStore)
      ensures NamedUser(old(users), username).Some? ==>
                && r == Response(400, Message("Username already exists"), Untouched)
                && users == old(users) && nextUserId == old(nextUserId)
      ensures NamedUser(old(users), username).None? ==>
                var u := User(old(nextUserId), username, hashPassword(password, salt), name, role);
                && old(nextUserId) !in old(users)
                && users == old(users)[u.id := u] && nextUserId == old(nextUserId) + 1
                && r == Response(201, UserBody(WithoutPassword(u)), Untouched)
      ensures NamedUser(users, username).Some?
    {
      var existing := FindUserByUsername(username);
      if existing.Some? {
        return Response(400, Message("Username already exists"), Untouched);
      }
      var hashed := hashPassword(password, salt);
      var u := User(nextUserId, username, hashed, name, role);
      users := users[u.id := u];
      nextUserId := nextUserId + 1;
      assert users[u.id].username == username;
      r := Response(201, UserBody(WithoutPassword(u)), Untouched);
    }

    /** `POST /api/login`. */
    method Login(username: string, password: string, nowMs: nat) returns (r: Response)
      requires Valid()
      modifies this
      ensures Valid()
      ensures users == old(users) && nextUserId == old(nextUserId)
      ensures var u := NamedUser(users, username);
              u.None? || !comparePasswords(password, u.value.password) ==>
                r == Response(401, Message("Invalid credentials"), Untouched) && refreshStore == old(refreshStore)
      ensures var u := NamedUser(users, username);
              u.Some? && comparePasswords(password, u.value.password) ==>
                var rt := GenerateRefreshToken(cfg, Num(u.value.id), u.value.role, nowMs);
                && refreshStore == old(refreshStore)[rt := RefreshRecord(u.value.id, rt, nowMs + cfg.refreshDays * DAY_MS)]
                && r == Response(200,
                                 AccessTokenBody(GenerateAccessToken(cfg, Num(u.value.id), u.value.role, nowMs)),
                                 SetRefreshCookie(rt, cfg.refreshDays * 24 * 60 * 60 * 1000))
    {
      var found := FindUserByUsername(username);
      if found.None? || !comparePasswords(password, found.value.password) {
        return Response(401, Message("Invalid credentials"), Untouched);
      }
      var user := found.value;
      var accessToken := GenerateAccessToken(cfg, Num(user.id), user.role, nowMs);
      var refreshToken := GenerateRefreshToken(cfg, Num(user.id), user.role, nowMs);
      var expiresAt := nowMs + cfg.refreshDays * DAY_MS;
      LoginRecordWellFormed(cfg, user, nowMs);
      refreshStore := refreshStore[refreshToken := RefreshRecord(user.id, refreshToken, expiresAt)];
      r := Response(200, AccessTokenBody(accessToken), SetRefreshCookie(refreshToken, cfg.refreshDays * 24 * 60 * 60 * 1000));
    }

    /** `POST /api/refresh`. */
    method Refresh(cookie: Option<TokenText>, nowMs: nat) returns (r: Response)
      ensures r.cookie == Untouched
      ensures !Presented(cookie) ==> r == Response(401, Message("No refresh token"), Untouched)
      ensures Presented(cookie) && Verify(cookie.value, cfg.refreshSecret, nowMs).Failure? ==>
                r == Response(403, Message("Invalid refresh token"), Untouched)
      ensures Presented(cookie) && Verify(cookie.value, cfg.refreshSecret, nowMs).Success? && !Accepts(cookie.value, nowMs) ==>
                r == Response(403, Message("Refresh token expired or invalid"), Untouched)
      ensures r.status == 200 <==> Presented(cookie) && Accepts(cookie.value, nowMs)
      ensures r.status == 200 ==>
                var payload := cookie.value.claim;
                && r.body.AccessTokenBody?
                && r.body.accessToken == Signed(Claim(JsToString(ParseInt(payload.userId)), payload.role),
                                                cfg.jwtSecret, Seconds(nowMs) + cfg.accessTtlSeconds)
      ensures Valid() && r.status == 200 ==>
                r.body.accessToken.claim == cookie.value.claim
                && (cfg.accessTtlSeconds > 0 ==> Verify(r.body.accessToken, cfg.jwtSecret, nowMs) == Success(cookie.value.claim))
    {
      if !Presented(cookie) {
        return Response(401, Message("No refresh token"), Untouched);
      }
      var token := cookie.value;
      var verified := Verify(token, cfg.refreshSecret, nowMs);
      if verified.Failure? {
        return Response(403, Message("Invalid refresh token"), Untouched);
      }
      var payload := verified.value;
      if token !in refreshStore || refreshStore[token].expiresAt < nowMs {
        return Response(403, Message("Refresh token expired or invalid"), Untouched);
      }
      var newAccessToken := GenerateAccessToken(cfg, ParseInt(payload.userId), payload.role, nowMs);
      r := Response(200, AccessTokenBody(newAccessToken), Untouched);
      if Valid() {
        assert RecordFor(token, refreshStore[token], cfg);
        ReissuedClaimUnchanged(cfg, refreshStore[token].userId, payload.role, nowMs);
      }
    }

    /** `POST /api/logout`. */
    method Logout(cookie: Option<TokenText>) returns (r: Response)
      requires Valid()
      modifies this
      ensures Valid()
      ensures users == old(users) && nextUserId == old(nextUserId)
      ensures r.status == 200 && r.body == Message("Logged out")
      ensures Presented(cookie) ==> refreshStore == old(refreshStore) - {cookie.value} && r.cookie == ClearRefreshCookie
      ensures !Presented(cookie) ==> refreshStore == old(refreshStore) && r.cookie == Untouched
    {
      var change := Untouched;
      if Presented(cookie) {
        refreshStore := refreshStore - {cookie.value};
        change := ClearRefreshCookie;
      }
      r := Response(200, Message("Logged out"), change);
    }

    /** `GET /api/user`. */
    method CurrentUser(cookie: Option<TokenText>, nowMs: nat) returns (r: Response)
      ensures r.cookie == Untouched
      ensures !Presented(cookie) ==> r == Response(401, Message("Not authenticated (no refresh token)"), Untouched)
      ensures Presented(cookie) && Verify(cookie.value, cfg.refreshSecret, nowMs).Failure? ==>
                r == Response(403, Message("Invalid token"), Untouched)
      ensures Presented(cookie) && Verify(cookie.value, cfg.refreshSecret, nowMs).Success? && !Accepts(cookie.value, nowMs) ==>
                r == Response(403, Message("Refresh token invalid or expired"), Untouched)
      ensures Presented(cookie) && Accepts(cookie.value, nowMs) ==>
                match ClaimedUser(users, cookie.value.claim)
                case None => r == Response(404, Message("User not found"), Untouched)
                case Some(u) => r == Response(200, UserBody(WithoutPassword(u)), Untouched)
      ensures Valid() ==> r.status != 404
      ensures Valid() && r.status == 200 ==>
                r.body.UserBody? && r.body.user.id == refreshStore[cookie.value].userId
    {
      if !Presented(cookie) {
        return Response(401, Message("Not authenticated (no refresh token)"), Untouched);
      }
      var token := cookie.value;
      var verified := Verify(token, cfg.refreshSecret, nowMs);
      if verified.Failure? {
        return Response(403, Message("Invalid token"), Untouched);
      }
      var payload := verified.value;
      if token !in refreshStore || refreshStore[token].expiresAt < nowMs {
        return Response(403, Message("Refresh token invalid or expired"), Untouched);
      }
      if Valid() {
        assert RecordFor(token, refreshStore[token], cfg);
        ParseNatToString(refreshStore[token].userId);
      }
      var user := ClaimedUser(users, payload);
      if user.None? {
        return Response(404, Message("User not found"), Untouched);
      }
      r := Response(200, UserBody(WithoutPassword(user.value)), Untouched);
    }
  }
}
