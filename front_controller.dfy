/**
 * The public front controller: a request under `/admin` goes to the back
 * office with the prefix cut off, `/assets/` is left to the web server, and
 * every other path is looked up among the generated HTML files.
 */
module FrontController {
  import opened Php

  /** Where a request ends. */
  datatype Routed =
    | Admin(requestUri: string)   // the back office, with `REQUEST_URI` rewritten
    | Passthrough                 // the web server serves the asset itself
    | Served(file: string)        // a generated file, as HTML
    | InstallPage                 // the page shown before anything was generated
    | NotFound                    // a 404

  /**
   * `parse_url($uri, PHP_URL_PATH)` for a request target: the text before
   * the first '?' or '#'.
   */
  function PathOf(uri: string): (path: string)
    ensures path <= uri
    ensures forall i :: 0 <= i < |path| ==> path[i] != '?' && path[i] != '#'
    ensures |path| < |uri| ==> uri[|path|] in {'?', '#'}
    decreases |uri|
  {
    if uri == [] || uri[0] in {'?', '#'} then [] else [uri[0]] + PathOf(uri[1..])
  }

  /**
   * The file a path is looked up as: a directory's `index.html`, else the
   * path itself, with ".html" added when it has no extension (an extension
   * "0" counting as none).
   */
  function StaticFile(root: string, path: string, dirs: set<string>): (file: string)
    ensures root + path in dirs ==> file == RTrim(root + path, {'/'}) + "/index.html"
    ensures root + path !in dirs && IsFalsy(Extension(root + path)) ==> file == root + path + ".html"
    ensures root + path !in dirs && !IsFalsy(Extension(root + path)) ==> file == root + path
  {
    var f := root + path;
    if f in dirs then
      var g := RTrim(f, {'/'}) + "/index.html";
      IndexHasExtension(RTrim(f, {'/'}));
      if IsFalsy(Extension(g)) then g + ".html" else g
    else if IsFalsy(Extension(f)) then f + ".html" else f
  }

  /** A name with ".html" added has the extension "html". */
  lemma HtmlHasExtension(f: string)
    ensures Extension(f + ".html") == "html"
  {
    var ext := "html";
    assert f + ".html" == f + "." + ext;
    ExtensionOf(f, ext);
  }

  /** A directory's index file has the extension "html". */
  lemma IndexHasExtension(dir: string)
    ensures Extension(dir + "/index.html") == "html"
  {
    var ext := "html";
    assert dir + "/index.html" == (dir + "/index") + "." + ext;
    ExtensionOf(dir + "/index", ext);
  }

  /**
   * The front controller. `uri` is `$_SERVER['REQUEST_URI']`, `root` the
   * public directory, `dirs` and `files` the directories and regular files
   * under it.
   */
  method Route(uri: Option<string>, root: string, dirs: set<string>, files: set<string>) returns (r: Routed)
    ensures var target := if uri.Some? then uri.value else "/";
      var path := PathOf(target);
      && (r.Admin? <==> "/admin" <= path)
      && (r.Admin? ==> r.requestUri == if IsFalsy(target[6..]) then "/" else target[6..])
      && (r == Passthrough <==> !("/admin" <= path) && "/assets/" <= path)
      && (r.Served? <==> !("/admin" <= path) && !("/assets/" <= path) && StaticFile(root, path, dirs) in files)
      && (r.Served? ==> r.file == StaticFile(root, path, dirs))
      && (r == InstallPage <==> !("/admin" <= path) && !("/assets/" <= path) && StaticFile(root, path, dirs) !in files && path == "/")
  {
    var target := if uri.Some? then uri.value else "/";
    var path := PathOf(target);
    if "/admin" <= path {
      var rest := target[6..];
      return Admin(if IsFalsy(rest) then "/" else rest);
    }
    if "/assets/" <= path {
      return Passthrough;
    }
    var staticFile := root + path;
    if staticFile in dirs {
      staticFile := RTrim(staticFile, {'/'}) + "/index.html";
    }
    if IsFalsy(Extension(staticFile)) {
      staticFile := staticFile + ".html";
    }
    if staticFile in files {
      return Served(staticFile);
    }
    if path == "/" {
      return InstallPage;
    }
    return NotFound;
  }

  /** The extension of `head.ext`, for an extension without '.' or '/', is that extension. */
  lemma ExtensionOf(head: string, ext: string)
    requires |ext| > 0 && forall i :: 0 <= i < |ext| ==> ext[i] != '.' && ext[i] != '/'
    ensures Extension(head + "." + ext) == ext
  {
    var s := head + "." + ext;
    assert RTrim(s, {'/'}) == s;
    var b := Basename(s);
    var stem := match LastIndexOf(s, '/') case None => head case Some(k) => head[k + 1..];
    match LastIndexOf(s, '/') {
      case None =>
        assert b == stem + ['.'] + ext;
      case Some(k) =>
        assert forall i :: |head| < i < |s| ==> s[i] == ext[i - |head| - 1];
        assert b == stem + ['.'] + ext;
    }
    LastIndexOfSplit(stem, '.', ext);
    assert b[|stem| + 1..] == ext;
  }

  /** Whatever the path, the file looked up has an extension: "html" when one was added. */
  lemma LookupHasExtension(root: string, path: string, dirs: set<string>)
    ensures !IsFalsy(Extension(StaticFile(root, path, dirs)))
  {
    var f := root + path;
    if f in dirs {
      IndexHasExtension(RTrim(f, {'/'}));
    } else if IsFalsy(Extension(f)) {
      HtmlHasExtension(f);
    }
  }
}
