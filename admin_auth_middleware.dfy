/**
 * The middleware guarding the back office: a visitor without a user is sent
 * to the login page, a user whose role cannot enter gets a 403, and so does
 * one who lacks the permission the route requires; anyone else reaches the
 * next handler with the user attached to the request.
 */
module AdminAuthMiddleware {
  import opened Php
  import opened UserEntity
  import opened Http
  import AuthService

  /** The request as the middleware sees it: its URI, and the user attached to it, if any. */
  datatype Request = Request(uri: string, user: Option<User>)

  /** The 403 page's message: the missing permission when one is named, else the role's label. */
  function ForbiddenMessage(user: User, permission: Option<string>): string
  {
    match permission
    case Some(p) => "Vous n'avez pas la permission '" + p + "'."
    case None => "Votre rôle (" + RoleLabel(user) + ") ne permet pas d'accéder à cette section."
  }

  /** The message names the permission when one is given, and the role's label otherwise. */
  lemma ForbiddenMessageNamesCause(user: User, permission: Option<string>)
    ensures permission.Some? ==> Contains(ForbiddenMessage(user, permission), permission.value)
    ensures permission.None? ==> Contains(ForbiddenMessage(user, permission), RoleLabel(user))
  {
    var m := ForbiddenMessage(user, permission);
    match permission {
      case Some(p) =>
        var head := "Vous n'avez pas la permission '";
        assert m == head + (p + "'.");
        assert m[|head|..] == p + "'.";
        assert p <= m[|head|..];
      case None =>
        var head := "Votre rôle (";
        var tail := ") ne permet pas d'accéder à cette section.";
        assert m == head + (RoleLabel(user) + tail);
        assert m[|head|..] == RoleLabel(user) + tail;
        assert RoleLabel(user) <= m[|head|..];
    }
  }

  /** A 403 response carrying the message. */
  function Forbidden(user: User, permission: Option<string>): (r: Response)
    ensures r.status == 403 && r.headers == [HtmlContentType]
  {
    Response(ForbiddenMessage(user, permission), 403, [HtmlContentType])
  }

  /** Whether the guard lets the user through: a role that enters the back office, with the required permission if any. */
  predicate Admits(user: User, permission: Option<string>)
  {
    CanAccessAdmin(user) && (permission.None? || HasPermission(user, permission.value))
  }

  /** The response `process` gives a user who is not let through. */
  function Refusal(user: User, permission: Option<string>): (r: Response)
    requires !Admits(user, permission)
    ensures r.status == 403
    ensures !CanAccessAdmin(user) ==> r.body == ForbiddenMessage(user, None)
    ensures CanAccessAdmin(user) ==> r.body == ForbiddenMessage(user, permission)
  {
    if !CanAccessAdmin(user) then Forbidden(user, None) else Forbidden(user, permission)
  }

  /** A plain user is refused on every route; an administrator is admitted on every route that names an administrator's permission. */
  lemma GuardByRole(user: User, permission: Option<string>)
    ensures user.role == RoleUser ==> !Admits(user, permission)
    ensures IsAdmin(user) && (permission.None? || permission.value in AdminPermissions) ==> Admits(user, permission)
  {
  }

  class Middleware {
    const auth: AuthService.Service
    const requiredPermission: Option<string>
    const loginUrl: string

    constructor(service: AuthService.Service, permission: Option<string>, url: string)
      ensures auth == service && requiredPermission == permission && loginUrl == url
    {
      auth := service;
      requiredPermission := permission;
      loginUrl := url;
    }

    /**
     * `process`: returns the response and the request handed to the next
     * handler, `None` when the next handler is not called. The cache, the
     * session and the log are what `getCurrentUser` leaves, with the
     * requested URI saved in the session when no user is found.
     */
    method Process(request: Request, next: Request -> Response) returns (response: Response, forwarded: Option<Request>)
      requires auth.Valid()
      modifies auth`current, auth`session, auth`logs
      ensures auth.Valid()
      ensures var u := AuthService.Resolved(old(auth.current), old(auth.session), old(auth.users));
        && (u.Some? ==>
              AuthService.SessionResolved(old(auth.current), old(auth.session), old(auth.users), old(auth.logs), u,
                                          auth.current, auth.session, auth.logs))
        && (u.None? ==>
              && exists s :: AuthService.SessionResolved(old(auth.current), old(auth.session), old(auth.users), old(auth.logs), u,
                                                         auth.current, s, auth.logs)
                             && auth.session == s.(redirectAfterLogin := Some(request.uri)))
        && (u.None? ==>
              response == Redirect(loginUrl) && forwarded.None?
              && auth.session.redirectAfterLogin == Some(request.uri))
        && (u.Some? && !Admits(u.value, requiredPermission) ==>
              response == Refusal(u.value, requiredPermission) && forwarded.None?)
        && (u.Some? && Admits(u.value, requiredPermission) ==>
              forwarded == Some(request.(user := u)) && response == next(forwarded.value))
    {
      var user := auth.GetCurrentUser();
      if user.None? {
        ghost var resolved := auth.session;
        auth.session := auth.session.(redirectAfterLogin := Some(request.uri));
        assert AuthService.SessionResolved(old(auth.current), old(auth.session), old(auth.users), old(auth.logs), user,
                                           auth.current, resolved, auth.logs);
        return Redirect(loginUrl), None;
      }
      if !CanAccessAdmin(user.value) {
        return Forbidden(user.value, None), None;
      }
      if requiredPermission.Some? && !HasPermission(user.value, requiredPermission.value) {
        return Forbidden(user.value, requiredPermission), None;
      }
      forwarded := Some(request.(user := user));
      response := next(forwarded.value);
    }
  }
}
