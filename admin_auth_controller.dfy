/**
 * The login controller: the login form, the login action with its rate
 * limit, and the logout action. The client's IP address is a parameter
 * (`unknown` when the server gives none), as are the posted fields, the
 * clock, and the rendering of the login page.
 */
module AdminAuthController {
  import opened Php
  import opened Http
  import UserEntity
  import AuthService
  import RateLimitService

  const LoginAction := "login"

  /** `ceil($remaining / 60)` for a non-negative number of seconds: the whole minutes, rounded up. */
  function MinutesUp(seconds: int): (m: int)
    requires seconds >= 0
    ensures (m - 1) * 60 < seconds <= m * 60 || (seconds == 0 && m == 0)
  {
    (seconds + 59) / 60
  }

  /** The rendered login page, given the `error` and `blocked` query parameters. */
  type LoginPage = (Option<string>, Option<string>) -> string

  /** `loginForm`: an authenticated user goes to the dashboard, anyone else gets the page. */
  method LoginForm(auth: AuthService.Service, render: LoginPage, error: Option<string>, blocked: Option<string>)
    returns (response: Response)
    requires auth.Valid()
    modifies auth`current, auth`session, auth`logs
    ensures auth.Valid()
    ensures var u := AuthService.Resolved(old(auth.current), old(auth.session), old(auth.users));
      response == if u.Some? then Redirect("/admin") else Response(render(error, blocked), 200, [])
    ensures AuthService.SessionResolved(old(auth.current), old(auth.session), old(auth.users), old(auth.logs),
                                        AuthService.Resolved(old(auth.current), old(auth.session), old(auth.users)),
                                        auth.current, auth.session, auth.logs)
  {
    var authenticated := auth.IsAuthenticated();
    if authenticated {
      return Redirect("/admin");
    }
    response := Response(render(error, blocked), 200, []);
  }

  /** `logout`: signs out and goes back to the login page. */
  method Logout(auth: AuthService.Service) returns (response: Response)
    modifies auth`current, auth`session, auth`logs
    ensures auth.current.None? && auth.session == old(auth.session).SignedOut()
    ensures auth.logs == old(auth.logs) +
      (if old(auth.current).Some? then [AuthService.SecurityEvent("logout", None, None, old(auth.current).value.id)] else [])
    ensures response == Redirect("/admin/login")
  {
    auth.Logout();
    response := Redirect("/admin/login");
  }

  /**
   * What `login` does once the rate limit let the request through, from the
   * limiter table `rows` as the cleanup left it: a missing field is refused
   * untouched; a refused login logs its reason and records one attempt,
   * which blocks the client at the limit; a role that cannot enter is
   * signed out again; an admitted user resets the limiter and goes to the
   * saved address. Both of the last two stamp the user's last login.
   */
  twostate predicate Handled(auth: AuthService.Service, limiter: RateLimitService.Service, rows: RateLimitService.Table,
                             ip: string, e: string, p: string, now: int, response: Response)
    reads auth, limiter
  {
    var k := RateLimitService.Key(ip, LoginAction);
    var failure := AuthService.LoginFailure(old(auth.users), auth.hasher, e, p);
    var u := AuthService.ByEmail(old(auth.users), e);
    && (IsFalsy(e) || IsFalsy(p) ==>
          && limiter.rows == rows && limiter.logs == old(limiter.logs)
          && auth.users == old(auth.users) && auth.current == old(auth.current)
          && auth.session == old(auth.session) && auth.logs == old(auth.logs)
          && response == Redirect("/admin/login?error=empty"))
    && (!IsFalsy(e) && !IsFalsy(p) && failure.Some? ==>
          && var until := now + limiter.offset + limiter.blockMinutes * 60;
          && limiter.rows == RateLimitService.AfterAttempt(rows, k, now, limiter.WindowStart(now), limiter.maxAttempts, until)
          && limiter.logs == old(limiter.logs)
               + (if RateLimitService.ReachesLimit(rows, k, now, limiter.WindowStart(now), limiter.maxAttempts)
                  then [RateLimitService.BlockLog(ip, LoginAction, limiter.maxAttempts, limiter.blockMinutes)] else [])
          && auth.users == old(auth.users) && auth.current == old(auth.current) && auth.session == old(auth.session)
          && auth.logs == old(auth.logs) + [AuthService.SecurityEvent("login_failed", Some(e), failure, None)]
          && response == Redirect("/admin/login?error=invalid"))
    && (!IsFalsy(e) && !IsFalsy(p) && failure.None? ==>
          && u.Some?
          && var signedIn := old(auth.session).(userId := u.value.id, role := Some(u.value.role));
          && var success := AuthService.SecurityEvent("login_success", Some(e), None, u.value.id);
          && limiter.logs == old(limiter.logs)
          && auth.users == AuthService.Touched(old(auth.users), u.value.id, now)
          && (!UserEntity.CanAccessAdmin(u.value) ==>
                && limiter.rows == rows
                && auth.current.None? && auth.session == signedIn.SignedOut()
                && auth.logs == old(auth.logs) + [success, AuthService.SecurityEvent("logout", None, None, u.value.id)]
                && response == Redirect("/admin/login?error=noaccess"))
          && (UserEntity.CanAccessAdmin(u.value) ==>
                && limiter.rows == rows - {k}
                && auth.current == u && auth.session == signedIn.(redirectAfterLogin := None)
                && auth.logs == old(auth.logs) + [success]
                && response == Redirect(old(auth.session).redirectAfterLogin.GetOr("/admin"))))
  }

  /** The part of `login` after the rate-limit check. */
  method Authenticate(auth: AuthService.Service, limiter: RateLimitService.Service, ip: string,
                      e: string, p: string, now: int)
    returns (response: Response)
    requires auth.Valid()
    modifies auth`users, auth`current, auth`session, auth`logs, limiter`rows, limiter`logs
    ensures auth.Valid()
    ensures Handled(auth, limiter, old(limiter.rows), ip, e, p, now, response)
  {
    if IsFalsy(e) || IsFalsy(p) {
      return Redirect("/admin/login?error=empty");
    }
    var user := auth.Login(e, p, now);
    if user.None? {
      var _ := limiter.RecordAttempt(ip, LoginAction, now);
      return Redirect("/admin/login?error=invalid");
    }
    if !UserEntity.CanAccessAdmin(user.value) {
      auth.Logout();
      return Redirect("/admin/login?error=noaccess");
    }
    limiter.Reset(ip, LoginAction);
    var target := auth.session.redirectAfterLogin.GetOr("/admin");
    auth.session := auth.session.(redirectAfterLogin := None);
    response := Redirect(target);
  }

  /**
   * `login`: the rate limit first; a blocked client is sent back with the
   * minutes left and nothing else happens. The posted fields default to "".
   */
  method Login(auth: AuthService.Service, limiter: RateLimitService.Service, ip: string,
               email: Option<string>, password: Option<string>, now: int)
    returns (response: Response)
    requires auth.Valid()
    modifies auth`users, auth`current, auth`session, auth`logs, limiter`rows, limiter`logs
    ensures auth.Valid()
    ensures
      var k := RateLimitService.Key(ip, LoginAction);
      var cleaned := RateLimitService.Cleaned(old(limiter.rows), limiter.WindowStart(now), now);
      var allowed := !RateLimitService.Blocked(cleaned, k, now)
                     && RateLimitService.Attempts(cleaned, k, limiter.WindowStart(now)) < limiter.maxAttempts;
      && (!allowed ==>
            && limiter.rows == cleaned && limiter.logs == old(limiter.logs)
            && auth.users == old(auth.users) && auth.current == old(auth.current)
            && auth.session == old(auth.session) && auth.logs == old(auth.logs)
            && response == Redirect("/admin/login?blocked="
                 + IntToString(MinutesUp(RateLimitService.BlockTimeRemaining(cleaned, k, now, limiter.offset)))))
      && (allowed ==> Handled(auth, limiter, cleaned, ip, email.GetOr(""), password.GetOr(""), now, response))
  {
    var allowed := limiter.IsAllowed(ip, LoginAction, now);
    if !allowed {
      var remaining := limiter.GetBlockTimeRemaining(ip, LoginAction, now);
      return Redirect("/admin/login?blocked=" + IntToString(MinutesUp(remaining)));
    }
    response := Authenticate(auth, limiter, ip, email.GetOr(""), password.GetOr(""), now);
  }
}
