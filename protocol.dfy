/**
 * Client-side sequences of requests against one `SessionServer`, stating the
 * lifecycle guarantees that span several handler calls.
 */
module Protocol {
  import opened Wrappers
  import opened Jwt
  import opened Auth

  /** After logout, the same refresh token is refused by `/api/refresh` and `/api/user`. */
  method LogoutRevokes(s: SessionServer, token: TokenText, nowMs: nat)
    returns (refresh: Response, current: Response)
    requires s.Valid()
    requires token != Garbage("")
    modifies s
    ensures s.Valid()
    ensures refresh.status == 403 && current.status == 403
  {
    var out := s.Logout(Some(token));
    refresh := s.Refresh(Some(token), nowMs);
    current := s.CurrentUser(Some(token), nowMs);
  }

  /** Logging out twice with the same cookie leaves the state of logging out once. */
  method LogoutTwice(s: SessionServer, cookie: Option<TokenText>) returns (first: Response, second: Response)
    requires s.Valid()
    modifies s
    ensures s.Valid()
    ensures first == second && first.status == 200
    ensures s.users == old(s.users) && s.nextUserId == old(s.nextUserId)
    ensures s.refreshStore == if Presented(cookie) then old(s.refreshStore) - {cookie.value} else old(s.refreshStore)
  {
    first := s.Logout(cookie);
    second := s.Logout(cookie);
  }

  /**
   * A refresh token from a successful login is accepted at a later time
   * exactly while its embedded expiry second has not been reached, and the
   * access token it yields carries the login's claim.
   */
  method LoginThenRefresh(s: SessionServer, username: string, password: string, loginMs: nat, laterMs: nat)
    returns (login: Response, refresh: Response)
    requires s.Valid()
    requires NamedUser(s.users, username).Some?
    requires s.comparePasswords(password, NamedUser(s.users, username).value.password)
    modifies s
    ensures s.Valid()
    ensures login.status == 200 && login.cookie.SetRefreshCookie?
    ensures login.body.AccessTokenBody? && login.body.accessToken.Signed?
    ensures refresh.status == 200
        <==> Seconds(laterMs) < Seconds(loginMs) + s.cfg.refreshDays * SECONDS_PER_DAY
    ensures refresh.status != 200 ==> refresh.status == 403
    ensures refresh.status == 200 ==>
              refresh.body.AccessTokenBody? && refresh.body.accessToken.Signed?
              && refresh.body.accessToken.claim == login.body.accessToken.claim
  {
    login := s.Login(username, password, loginMs);
    var token := login.cookie.value;
    if Verify(token, s.cfg.refreshSecret, laterMs).Success? {
      StoredExpiryRedundant(s.refreshStore, s.cfg, token, laterMs);
    }
    refresh := s.Refresh(Some(token), laterMs);
  }

  /** The same refresh token works twice in a row: no rotation, no single use. */
  method RefreshTwice(s: SessionServer, cookie: Option<TokenText>, nowMs: nat)
    returns (first: Response, second: Response)
    ensures first == second
  {
    first := s.Refresh(cookie, nowMs);
    second := s.Refresh(cookie, nowMs);
  }

  /**
   * Registering a new username and then logging in with the same password
   * succeeds, returns a signed access token and sets the refresh cookie for
   * `refreshDays` days (604800000 ms under the default of 7); under the
   * default "15m" the access token expires 900 seconds after its issue second.
   */
  method RegisterThenLogin(s: SessionServer, username: string, password: string, name: string, role: string,
                           salt: string, nowMs: nat)
    returns (register: Response, login: Response)
    requires s.Valid()
    requires NamedUser(s.users, username).None?
    requires s.comparePasswords(password, s.hashPassword(password, salt))
    modifies s
    ensures s.Valid()
    ensures register.status == 201 && login.status == 200
    ensures login.body.AccessTokenBody? && login.body.accessToken.Signed?
    ensures login.cookie.SetRefreshCookie? && login.cookie.maxAgeMs == s.cfg.refreshDays * DAY_MS
    ensures s.cfg.refreshDays == DEFAULT_REFRESH_DAYS ==> login.cookie.maxAgeMs == 604800000
    ensures s.cfg.accessTtlSeconds == DEFAULT_ACCESS_TTL_SECONDS ==>
              login.body.accessToken.exp == Seconds(nowMs) + 900
  {
    register := s.Register(username, password, name, role, salt);
    var id := old(s.nextUserId);
    assert s.users[id].username == username;
    assert NamedUser(s.users, username) == Some(s.users[id]);
    login := s.Login(username, password, nowMs);
  }
}
