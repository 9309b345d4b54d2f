/**
 * The two callbacks the frontend gives its authentication library: `jwt`,
 * which copies the provider's tokens into the session token on sign-in and
 * refreshes them shortly before they expire, and `session`, which exposes
 * the tokens and the realm roles to the pages. Times are in milliseconds
 * (`Date.now()`); `expires_at` is in seconds.
 */
module AuthCallbacks {
  import opened Wrappers
  import opened Js

  const RefreshTokenError := "RefreshTokenError"
  /** Seconds before `expires_at` from which a refresh is attempted. */
  const RefreshMargin: int := 60

  /** An access token: its raw text and the `realm_access.roles` of its decoded payload. */
  datatype AccessToken = AccessToken(raw: string, realmRoles: Option<seq<string>>)

  datatype SessionUser = SessionUser(name: Option<string>, email: Option<string>)

  /** The session the pages see; `roles` is None while unset. */
  datatype Session = Session(
    user: Option<SessionUser>,
    accessToken: Option<AccessToken>,
    idToken: Option<string>,
    roles: Option<seq<string>>)

  /** The session token the library keeps between requests. */
  datatype Token = Token(
    accessToken: Option<AccessToken>,
    idToken: Option<string>,
    refreshToken: Option<string>,
    expiresAt: Option<int>,
    error: Option<string>)

  /** The provider account handed to `jwt` on sign-in. */
  datatype Account = Account(
    accessToken: Option<AccessToken>,
    idToken: Option<string>,
    refreshToken: Option<string>,
    expiresAt: Option<int>,
    expiresIn: Option<int>)

  /** The token endpoint's answer to a refresh. */
  datatype Refreshed = Refreshed(accessToken: Option<AccessToken>, idToken: Option<string>, refreshToken: Option<string>, expiresIn: int)

  /** The outcome of `refreshKeycloakToken`, which is network I/O and so an input here. */
  datatype RefreshResult = RefreshOk(refreshed: Refreshed) | RefreshFailed

  predicate TruthyNum(n: Option<int>) {
    n.Some? && n.value != 0
  }

  predicate TruthyAccess(a: Option<AccessToken>) {
    a.Some? && a.value.raw != ""
  }

  /** `session.roles?.includes('admin')`. */
  predicate HasAdminRole(s: Session) {
    s.roles.Some? && "admin" in s.roles.value
  }

  /**
   * The `session` callback: the access and id tokens are copied; the roles
   * become the access token's realm roles, or the empty list when it has
   * none, and are left as they were when there is no access token.
   */
  function SessionCallback(session: Session, token: Token): (r: Session)
    ensures r.accessToken == token.accessToken && r.idToken == token.idToken && r.user == session.user
    ensures TruthyAccess(token.accessToken) ==>
      r.roles == Some(if token.accessToken.value.realmRoles.Some? then token.accessToken.value.realmRoles.value else [])
    ensures !TruthyAccess(token.accessToken) ==> r.roles == session.roles
  {
    var s := session.(accessToken := token.accessToken, idToken := token.idToken);
    if TruthyAccess(token.accessToken) then s.(roles := Some(token.accessToken.value.realmRoles.GetOr([])))
    else s
  }

  /** The roles a session shows are those of the token's access token, exactly when it has realm roles. */
  lemma SessionRolesFromToken(session: Session, token: Token, role: string)
    requires TruthyAccess(token.accessToken)
    ensures var r := SessionCallback(session, token);
      r.roles.Some? && (role in r.roles.value <==>
        token.accessToken.value.realmRoles.Some? && role in token.accessToken.value.realmRoles.value)
  {
  }

  /** `Math.floor(Date.now() / 1000)`: Dafny's division by a positive divisor rounds down. */
  function Seconds(nowMs: int): int {
    nowMs / 1000
  }

  /**
   * The expiry recorded on sign-in: the account's `expires_at` when truthy;
   * else now plus `expires_in` when that is truthy; else none.
   */
  function SignInExpiry(account: Account, nowMs: int): (r: Option<int>)
    ensures TruthyNum(account.expiresAt) ==> r == account.expiresAt
    ensures !TruthyNum(account.expiresAt) && TruthyNum(account.expiresIn) ==>
      r == Some(Seconds(nowMs) + account.expiresIn.value)
    ensures !TruthyNum(account.expiresAt) && !TruthyNum(account.expiresIn) ==> r.None?
  {
    if TruthyNum(account.expiresAt) then account.expiresAt
    else if TruthyNum(account.expiresIn) then Some(Seconds(nowMs) + account.expiresIn.value)
    else None
  }

  /** The first half of `jwt`: with an account, its tokens and expiry replace the token's. */
  function WithAccount(token: Token, account: Option<Account>, nowMs: int): (r: Token)
    ensures account.None? ==> r == token
    ensures account.Some? ==>
      && r.accessToken == account.value.accessToken
      && r.idToken == account.value.idToken
      && r.refreshToken == account.value.refreshToken
      && r.expiresAt == SignInExpiry(account.value, nowMs)
      && r.error == token.error
  {
    match account
    case None => token
    case Some(a) => token.(accessToken := a.accessToken, idToken := a.idToken, refreshToken := a.refreshToken,
                           expiresAt := SignInExpiry(a, nowMs))
  }

  /**
   * The refresh condition, with the source's real division: an expiry is
   * set, the current time in seconds is past the expiry less the margin,
   * and there is a refresh token.
   */
  predicate ShouldRefresh(token: Token, nowMs: int) {
    && TruthyNum(token.expiresAt)
    && (nowMs as real) / 1000.0 > (token.expiresAt.value - RefreshMargin) as real
    && TruthyText(token.refreshToken)
  }

  /** The refresh window in integer terms: now in milliseconds is past the expiry less the margin, in milliseconds. */
  lemma {:induction false} RefreshWindowInMillis(token: Token, nowMs: int)
    ensures ShouldRefresh(token, nowMs) <==>
      TruthyNum(token.expiresAt) && nowMs > 1000 * (token.expiresAt.value - RefreshMargin) && TruthyText(token.refreshToken)
  {
    if TruthyNum(token.expiresAt) {
      var bound := token.expiresAt.value - RefreshMargin;
      assert (nowMs as real) / 1000.0 > bound as real <==> nowMs as real > 1000.0 * (bound as real);
      assert (1000 * bound) as real == 1000.0 * (bound as real);
    }
  }

  /**
   * The `jwt` callback. After the account step, a token in its refresh
   * window is refreshed: on success the new tokens and expiry replace the
   * old ones, the old refresh token surviving when the answer has none; on
   * failure only the error is set. Outside the window the token is kept.
   */
  function JwtCallback(token: Token, account: Option<Account>, nowMs: int, refresh: RefreshResult): (r: Token)
    ensures var t := WithAccount(token, account, nowMs);
      && (!ShouldRefresh(t, nowMs) ==> r == t)
      && (ShouldRefresh(t, nowMs) && refresh.RefreshFailed? ==> r == t.(error := Some(RefreshTokenError)))
      && (ShouldRefresh(t, nowMs) && refresh.RefreshOk? ==>
            && r.accessToken == refresh.refreshed.accessToken
            && r.idToken == refresh.refreshed.idToken
            && r.refreshToken == (if TruthyText(refresh.refreshed.refreshToken) then refresh.refreshed.refreshToken else t.refreshToken)
            && r.expiresAt == Some(Seconds(nowMs) + refresh.refreshed.expiresIn)
            && r.error == t.error)
  {
    var t := WithAccount(token, account, nowMs);
    if !ShouldRefresh(t, nowMs) then t
    else
      match refresh
      case RefreshFailed => t.(error := Some(RefreshTokenError))
      case RefreshOk(x) =>
        t.(accessToken := x.accessToken, idToken := x.idToken,
           refreshToken := if TruthyText(x.refreshToken) then x.refreshToken else t.refreshToken,
           expiresAt := Some(Seconds(nowMs) + x.expiresIn))
  }

  /** Between sign-ins a refresh token, once held, is never lost, whatever the refresh outcome. */
  lemma RefreshTokenKept(token: Token, nowMs: int, refresh: RefreshResult)
    requires TruthyText(token.refreshToken)
    ensures TruthyText(JwtCallback(token, None, nowMs, refresh).refreshToken)
  {
  }

  /** Once a token is in its refresh window it stays there as time goes on. */
  lemma {:induction false} RefreshWindowOnlyGrows(token: Token, nowMs: int, laterMs: int)
    requires nowMs <= laterMs
    requires ShouldRefresh(token, nowMs)
    ensures ShouldRefresh(token, laterMs)
  {
    RefreshWindowInMillis(token, nowMs);
    RefreshWindowInMillis(token, laterMs);
  }

  /**
   * A successful refresh whose new lifetime exceeds the margin leaves a
   * token that the same request, run again, would not refresh.
   */
  lemma {:induction false} RefreshedTokenIsFresh(token: Token, account: Option<Account>, nowMs: int, x: Refreshed, again: RefreshResult)
    requires ShouldRefresh(WithAccount(token, account, nowMs), nowMs)
    requires x.expiresIn > RefreshMargin
    ensures var r := JwtCallback(token, account, nowMs, RefreshOk(x));
      JwtCallback(r, None, nowMs, again) == r
  {
    var r := JwtCallback(token, account, nowMs, RefreshOk(x));
    var e := Seconds(nowMs) + x.expiresIn;
    assert r.expiresAt == Some(e);
    assert nowMs < 1000 * (Seconds(nowMs) + 1);
    assert 1000 * (Seconds(nowMs) + 1) <= 1000 * (e - RefreshMargin);
    RefreshWindowInMillis(r, nowMs);
  }
}
