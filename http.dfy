/**
 * The HTTP response the controllers and the middleware return, and the
 * redirect they build most often.
 */
module Http {
  datatype Response = Response(body: string, status: int, headers: seq<string>)

  const HtmlContentType := "Content-Type: text/html; charset=UTF-8"

  /** A 302 with an empty body and a `Location` header. */
  function Redirect(location: string): (r: Response)
    ensures r.status == 302 && r.body == "" && r.headers == ["Location: " + location]
  {
    Response("", 302, ["Location: " + location])
  }

  /** Two redirects are the same response exactly when their targets are the same. */
  lemma RedirectInjective(a: string, b: string)
    ensures Redirect(a) == Redirect(b) <==> a == b
  {
    if Redirect(a) == Redirect(b) {
      assert ("Location: " + a)[10..] == a;
      assert ("Location: " + b)[10..] == b;
    }
  }
}
