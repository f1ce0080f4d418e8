/**
 * The application bootstrap: the order in which services, middlewares,
 * template macros and the router are set up, the global middleware stack,
 * and the `url` and `asset` macros that join paths.
 */
module BlogApp {
  import opened Php

  /** `n` slashes. */
  function Slashes(n: nat): (s: string)
    ensures |s| == n && forall i :: 0 <= i < n ==> s[i] == '/'
  {
    seq(n, _ => '/')
  }

  /**
   * The `url` macro: the site URL and the path joined by exactly one '/',
   * whatever slashes the site URL ends with or the path starts with.
   */
  function Url(siteUrl: string, path: string): (u: string)
    ensures var k := |RTrim(siteUrl, {'/'})|;
      && k < |u| && u[..k] == siteUrl[..k] && u[k] == '/'
      && (k > 0 ==> u[k - 1] != '/')
      && (forall i :: k <= i < |siteUrl| ==> siteUrl[i] == '/')
      && (k + 1 < |u| ==> u[k + 1] != '/')
      && |u| - k - 1 <= |path| && u[k + 1..] == path[|path| - (|u| - k - 1)..]
      && (forall i :: 0 <= i < |path| - (|u| - k - 1) ==> path[i] == '/')
  {
    RTrim(siteUrl, {'/'}) + "/" + LTrim(path, {'/'})
  }

  /** `url('')`: the site URL without its trailing slashes, then one '/'. */
  lemma UrlOfEmpty(siteUrl: string)
    ensures Url(siteUrl, "") == RTrim(siteUrl, {'/'}) + "/"
    ensures Url(siteUrl, "")[|Url(siteUrl, "")| - 1] == '/'
  {
    assert LTrim("", {'/'}) == "";
  }

  /** `ltrim` drops any number of leading slashes. */
  lemma {:induction false} LTrimSlashes(n: nat, path: string)
    ensures LTrim(Slashes(n) + path, {'/'}) == LTrim(path, {'/'})
  {
    if n > 0 {
      var s := Slashes(n) + path;
      assert s[0] == '/' && s[1..] == Slashes(n - 1) + path;
      assert LTrim(s, {'/'}) == LTrim(s[1..], {'/'});
      LTrimSlashes(n - 1, path);
    } else {
      assert Slashes(n) + path == path;
    }
  }

  /** `rtrim` drops any number of trailing slashes. */
  lemma {:induction false} RTrimSlashes(siteUrl: string, n: nat)
    ensures RTrim(siteUrl + Slashes(n), {'/'}) == RTrim(siteUrl, {'/'})
  {
    if n > 0 {
      var s := siteUrl + Slashes(n);
      assert s[|s| - 1] == '/' && s[..|s| - 1] == siteUrl + Slashes(n - 1);
      assert RTrim(s, {'/'}) == RTrim(s[..|s| - 1], {'/'});
      RTrimSlashes(siteUrl, n - 1);
    } else {
      assert siteUrl + Slashes(n) == siteUrl;
    }
  }

  /** Slashes in front of the path change nothing. */
  lemma LeadingSlashesIgnored(siteUrl: string, n: nat, path: string)
    ensures Url(siteUrl, Slashes(n) + path) == Url(siteUrl, path)
  {
    LTrimSlashes(n, path);
  }

  /** Slashes at the end of the site URL change nothing. */
  lemma TrailingSlashesIgnored(siteUrl: string, n: nat, path: string)
    ensures Url(siteUrl + Slashes(n), path) == Url(siteUrl, path)
  {
    RTrimSlashes(siteUrl, n);
  }

  /** The `asset` macro: the path under "/assets/", its leading slashes dropped. */
  function Asset(path: string): (a: string)
    ensures |a| >= 8 && a[..8] == "/assets/"
    ensures |a| - 8 <= |path| && a[8..] == path[|path| - (|a| - 8)..]
    ensures |a| > 8 ==> a[8] != '/'
    ensures forall i :: 0 <= i < |path| - (|a| - 8) ==> path[i] == '/'
  {
    "/assets/" + LTrim(path, {'/'})
  }

  /** An asset path is the `url` of the same path on the site "/assets". */
  lemma AssetIsUrl(path: string)
    ensures Asset(path) == Url("/assets", path)
  {
    assert RTrim("/assets", {'/'}) == "/assets";
  }

  /** The global middlewares, in the order they are added to the stack. */
  datatype Middleware = SecurityHeaders | Session | Csrf

  /** The macros the template engine is given. */
  datatype Macro = OptionMacro | UrlMacro | AssetMacro

  /** The entries the container is given, in the order of registration. */
  datatype Service = Pdo | Options | TemplateEngine | Stack | Router

  /** The application: what it has put in its container, its stack, its macros. */
  class App {
    var services: seq<Service>
    var middlewares: seq<Middleware>
    var macros: seq<Macro>
    var controllersScanned: bool

    constructor()
      ensures services == [] && middlewares == [] && macros == [] && !controllersScanned
    {
      services := [];
      middlewares := [];
      macros := [];
      controllersScanned := false;
    }

    /** The database, the option service and the template engine. */
    method RegisterServices()
      modifies this`services
      ensures services == old(services) + [Pdo, Options, TemplateEngine]
    {
      services := services + [Pdo];
      services := services + [Options];
      services := services + [TemplateEngine];
    }

    /** The middleware stack: security headers, then the session, then CSRF. */
    method RegisterMiddlewares()
      modifies this`services, this`middlewares
      ensures services == old(services) + [Stack]
      ensures middlewares == [SecurityHeaders, Session, Csrf]
    {
      services := services + [Stack];
      var stack: seq<Middleware> := [];
      stack := stack + [SecurityHeaders];
      stack := stack + [Session];
      stack := stack + [Csrf];
      middlewares := stack;
    }

    /** The `option`, `url` and `asset` macros. */
    method ConfigureTemplateEngine()
      modifies this`macros
      ensures macros == old(macros) + [OptionMacro, UrlMacro, AssetMacro]
    {
      macros := macros + [OptionMacro];
      macros := macros + [UrlMacro];
      macros := macros + [AssetMacro];
    }

    /** The router, which scans the admin controllers when their directory exists. */
    method ConfigureRouter(controllerDirExists: bool)
      modifies this`services, this`controllersScanned
      ensures services == old(services) + [Router]
      ensures controllersScanned == (old(controllersScanned) || controllerDirExists)
    {
      if controllerDirExists {
        controllersScanned := true;
      }
      services := services + [Router];
    }

    /** The four set-up steps, in order. */
    method Boot(controllerDirExists: bool)
      modifies this
      ensures services == old(services) + [Pdo, Options, TemplateEngine, Stack, Router]
      ensures middlewares == [SecurityHeaders, Session, Csrf]
      ensures macros == old(macros) + [OptionMacro, UrlMacro, AssetMacro]
      ensures controllersScanned == (old(controllersScanned) || controllerDirExists)
    {
      RegisterServices();
      RegisterMiddlewares();
      ConfigureTemplateEngine();
      ConfigureRouter(controllerDirExists);
    }
  }
}
