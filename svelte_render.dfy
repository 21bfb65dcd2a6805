/**
 * The svelte renderer's request handler: parse the URL, pick the layout
 * named by the `layout` query parameter, import and render the component
 * for the pathname, build the head fragment and the client bootstrap
 * script, and splice head, body and client into the layout's three markers.
 */
module SvelteRender {
  import opened Wrappers
  import opened Text
  import JsonValue
  import Request
  import SupportFiles

  const HeadMarker: string := "<!-- CELESTITE HEAD -->"
  const BodyMarker: string := "<!-- CELESTITE BODY -->"
  const ClientMarker: string := "<!-- CELESTITE CLIENT -->"

  /** `ssr.css`: an object whose `code` may be missing. */
  datatype Css = Css(code: Option<string>)

  /** What `component.render` returns: the html, and optional head and css. */
  datatype SsrOutput = SsrOutput(html: string, head: Option<string>, css: Option<Css>)

  /** `{ pathname, layoutRequested }` */
  datatype ParsedUrl = ParsedUrl(pathname: string, layoutRequested: Option<string>)

  /** `parseUrl`: the URL's pathname and its `layout` query parameter (`null` when absent). */
  function ParseUrl(url: string): (r: ParsedUrl)
    ensures r.pathname == Request.ParseTarget(url).pathname
    ensures r.layoutRequested == Request.SearchParam(Request.ParseTarget(url), "layout")
    ensures r.pathname != "" && '?' !in r.pathname && '#' !in r.pathname
    ensures StartsWith(url, r.pathname) || (r.pathname == "/" && Request.SplitTarget(url).path == "")
    ensures '?' !in url ==> r.layoutRequested.None?
    ensures Request.SplitTarget(url).query.Some? ==>
      r.layoutRequested == Request.FirstValue(Request.QueryPairs(Request.SplitTarget(url).query.value), "layout")
  {
    var t := Request.ParseTarget(url);
    Request.SplitTargetSeparators(url);
    Request.TargetPathIsPrefix(url);
    ParsedUrl(t.pathname, Request.SearchParam(t, "layout"))
  }

  /** `getLayout`: the body of the first layout with the requested name, or `null`. */
  function GetLayout(requested: Option<string>, layouts: seq<SupportFiles.SupportFile>): (layout: Option<string>)
    ensures requested.None? ==> layout.None?
    ensures layout.None? <==> requested.None? || forall i :: 0 <= i < |layouts| ==> layouts[i].name != requested.value
    ensures layout.Some? ==> exists i :: (0 <= i < |layouts| && layouts[i] == SupportFiles.SupportFile(requested.value, layout.value) &&
      forall j :: 0 <= j < i ==> layouts[j].name != requested.value)
  {
    SupportFiles.Lookup(layouts, requested)
  }

  /** `ssr.css && ssr.css.code` is truthy. */
  predicate HasStyle(ssr: SsrOutput) {
    ssr.css.Some? && ssr.css.value.code.Some? && ssr.css.value.code.value != ""
  }

  /** `injectHead`: the head (empty when missing), then a style element when there is css code. */
  function InjectHead(ssr: SsrOutput): (head: string)
    ensures StartsWith(head, ssr.head.GetOr(""))
    ensures HasStyle(ssr) ==> head == ssr.head.GetOr("") + "<style>" + ssr.css.value.code.value + "</style>"
    ensures !HasStyle(ssr) ==> head == ssr.head.GetOr("")
  {
    var head := ssr.head.GetOr("");
    if HasStyle(ssr) then
      var r := head + "<style>" + ssr.css.value.code.value + "</style>";
      assert r == head + ("<style>" + ssr.css.value.code.value + "</style>");
      r
    else head
  }

  const ClientPrefix: string := " \n        import App from \""
  const ClientMiddle: string :=
    "\n        const app = new App({\n          target: document.querySelector(\"#celestite-server-rendered\"),\n          hydrate: true,\n          props: {\n            context: "
  const ClientSuffix: string := "\n          },\n        });\n      "

  /**
   * `clientJs`: the module code that imports `<pathname>.js` and hydrates it
   * with the request body as its `context` prop; `contextText` is
   * `JSON.stringify(req.body)` as the template literal prints it.
   */
  function ClientScript(pathname: string, contextText: string): (js: string)
  {
    ClientPrefix + pathname + ".js\";" + ClientMiddle + contextText + ClientSuffix
  }

  /** The module specifier the client code imports: the text after the prefix, up to the next `"`. */
  function ImportSpecifier(js: string): Option<string>
  {
    if !StartsWith(js, ClientPrefix) then None
    else
      var rest := js[|ClientPrefix|..];
      if '"' in rest then Some(rest[..CharIndex(rest, '"')]) else None
  }

  /** The bootstrap imports exactly `<pathname>.js`, whatever the context. */
  lemma ClientImportsPathname(pathname: string, contextText: string)
    requires '"' !in pathname
    ensures ImportSpecifier(ClientScript(pathname, contextText)) == Some(pathname + ".js")
  {
    var js := ClientScript(pathname, contextText);
    var tail := ".js\";" + ClientMiddle + contextText + ClientSuffix;
    assert js == ClientPrefix + (pathname + tail);
    assert js[..|ClientPrefix|] == ClientPrefix;
    assert js[|ClientPrefix|..] == pathname + tail;
    QuoteEndsSpecifier(pathname, tail);
  }

  lemma QuoteEndsSpecifier(p: string, tail: string)
    requires '"' !in p && StartsWith(tail, ".js\"")
    ensures '"' in p + tail && (p + tail)[..CharIndex(p + tail, '"')] == p + ".js"
  {
    var rest := p + tail;
    assert rest[|p| + 3] == tail[3] == '"';
    assert rest[..|p| + 3] == p + ".js";
    var i := CharIndex(rest, '"');
    assert i <= |p| + 3 by {
      assert rest[..i + 1][..i] == rest[..i];
    }
    assert i >= |p| + 3 by {
      assert rest[..|p| + 3][..i] == rest[..i];
    }
  }

  /** `injectClient`: the client code wrapped in a module script element. */
  function InjectClient(pathname: string, contextText: string): (fragment: string)
    ensures StartsWith(fragment, "<script type='module'>") && EndsWith(fragment, "</script>")
    ensures |fragment| == |"<script type='module'>"| + |ClientScript(pathname, contextText)| + |"</script>"|
    ensures fragment[|"<script type='module'>"|..|fragment| - |"</script>"|] == ClientScript(pathname, contextText)
  {
    var f := "<script type='module'>" + ClientScript(pathname, contextText) + "</script>";
    assert f[..|"<script type='module'>"|] == "<script type='module'>";
    f
  }

  /** The page: the head, body and client markers replaced in that order, each at its first occurrence. */
  function Compose(layout: string, head: string, html: string, client: string): string
  {
    ReplaceFirst(ReplaceFirst(ReplaceFirst(layout, HeadMarker, head), BodyMarker, html), ClientMarker, client)
  }

  /** The same chain as the source evaluates it, with `replace` interpreting `$`-patterns. */
  function ComposeAsWritten(layout: string, head: string, html: string, client: string): string
  {
    JsReplaceFirst(JsReplaceFirst(JsReplaceFirst(layout, HeadMarker, head), BodyMarker, html), ClientMarker, client)
  }

  /**
   * A layout `a HEAD b BODY c CLIENT d` becomes `a head b html c client d`,
   * provided no marker text occurs before its own marker at the moment that
   * marker is replaced.
   */
  lemma ComposeSplices(a: string, b: string, c: string, d: string, head: string, html: string, client: string)
    requires FirstAfter(a, HeadMarker, b + BodyMarker + c + ClientMarker + d)
    requires FirstAfter(a + head + b, BodyMarker, c + ClientMarker + d)
    requires FirstAfter(a + head + b + html + c, ClientMarker, d)
    ensures Compose(a + HeadMarker + b + BodyMarker + c + ClientMarker + d, head, html, client)
      == a + head + b + html + c + client + d
  {
    ReplaceThreeSplice(a, HeadMarker, b, BodyMarker, c, ClientMarker, d, head, html, client);
  }

  /** A layout without markers comes back unchanged. */
  lemma ComposeWithoutMarkers(layout: string, head: string, html: string, client: string)
    requires Absent(layout, HeadMarker) && Absent(layout, BodyMarker) && Absent(layout, ClientMarker)
    ensures Compose(layout, head, html, client) == layout
  {
  }

  /** When no fragment contains a `$`, the source's chain and the literal composition agree. */
  lemma ComposeAsWrittenIsLiteral(layout: string, head: string, html: string, client: string)
    requires '$' !in head && '$' !in html && '$' !in client
    ensures ComposeAsWritten(layout, head, html, client) == Compose(layout, head, html, client)
  {
    var s1 := ReplaceFirst(layout, HeadMarker, head);
    JsReplaceFirstIsLiteral(layout, HeadMarker, head);
    var s2 := ReplaceFirst(s1, BodyMarker, html);
    JsReplaceFirstIsLiteral(s1, BodyMarker, html);
    JsReplaceFirstIsLiteral(s2, ClientMarker, client);
  }

  /**
   * Rendered html containing `$'` pulls the rest of the layout in: with the
   * layout `<!-- CELESTITE BODY -->X` the source produces `XX` where the
   * page should read `$'X`.
   */
  lemma ComposeAsWrittenExpandsDollar(head: string, client: string)
    ensures ComposeAsWritten(BodyMarker + "X", head, "$'", client) == "XX"
    ensures Compose(BodyMarker + "X", head, "$'", client) == "$'X"
  {
    var layout := BodyMarker + "X";
    HeadAbsentFromBodyLayout();
    BodyStartsBodyLayout();
    assert JsReplaceFirst(layout, HeadMarker, head) == layout;
    assert ReplaceFirst(layout, HeadMarker, head) == layout;
    assert layout[..0] == "" && layout[23..] == "X";
    assert ExpandReplacement("$'", BodyMarker, "", "X") == "X" + ExpandReplacement("", BodyMarker, "", "X");
    assert JsReplaceFirst(layout, BodyMarker, "$'") == "XX";
    assert ReplaceFirst(layout, BodyMarker, "$'") == "$'X";
    AbsentFromShorter("XX", ClientMarker);
    AbsentFromShorter("$'X", ClientMarker);
  }

  lemma HeadAbsentFromBodyLayout()
    ensures IndexOf(BodyMarker + "X", HeadMarker).None?
  {
    var layout := BodyMarker + "X";
    assert |layout| == 24;
    forall j: nat ensures !OccursAt(layout, HeadMarker, j) {
      if j == 0 {
        assert layout[0..23][15] == 'B' && HeadMarker[15] == 'H';
      } else if j == 1 {
        assert layout[1] == BodyMarker[1] == '!';
        assert layout[1..24][0] == layout[1];
      }
    }
  }

  lemma BodyStartsBodyLayout()
    ensures IndexOf(BodyMarker + "X", BodyMarker) == Some(0)
  {
    var layout := BodyMarker + "X";
    assert FirstOccurrence(layout, BodyMarker, 0) by {
      assert layout[0..23] == BodyMarker;
    }
    FirstOccurrenceUnique(layout, BodyMarker, IndexOf(layout, BodyMarker).value, 0);
  }

  lemma AbsentFromShorter(s: string, m: string)
    requires |s| < |m|
    ensures IndexOf(s, m).None?
  {
    assert Absent(s, m);
  }

  /**
   * One request: a failed import or a throwing `render` sets status 500 and
   * writes nothing; with no layout matched, `.replace` on `null` throws out of
   * the handler; otherwise the composed page is written. The handler's
   * `next()` hands on to the logger, which ends the response.
   */
  function Handle(
    url: string,
    layouts: seq<SupportFiles.SupportFile>,
    imported: bool,
    rendered: Option<SsrOutput>,
    body: Option<JsonValue.Json>,
    stringify: JsonValue.Json -> string
  ): (out: Request.Outcome)
    ensures !imported || rendered.None? ==> out == Request.Responded(Request.Response(500, "", true))
    ensures imported && rendered.Some? && GetLayout(ParseUrl(url).layoutRequested, layouts).None? ==> out.Uncaught?
    ensures out.Responded? && out.response.status == 200 ==>
      imported && rendered.Some? && GetLayout(ParseUrl(url).layoutRequested, layouts).Some? && out.response.ended &&
      out.response.body == Compose(
        GetLayout(ParseUrl(url).layoutRequested, layouts).value,
        InjectHead(rendered.value),
        rendered.value.html,
        InjectClient(ParseUrl(url).pathname, if body.Some? then stringify(body.value) else "undefined"))
    ensures imported && rendered.Some? && GetLayout(ParseUrl(url).layoutRequested, layouts).Some? ==>
      out == Request.Responded(Request.Response(200, Compose(
        GetLayout(ParseUrl(url).layoutRequested, layouts).value,
        InjectHead(rendered.value),
        rendered.value.html,
        InjectClient(ParseUrl(url).pathname, if body.Some? then stringify(body.value) else "undefined")), true))
    ensures out.Responded? ==> out.response.status == 200 || out.response.status == 500
  {
    var u := ParseUrl(url);
    var layout := GetLayout(u.layoutRequested, layouts);
    if !imported || rendered.None? then Request.Responded(Request.Response(500, "", true))
    else if layout.None? then Request.Uncaught("TypeError: layout is null")
    else
      var ssr := rendered.value;
      var contextText := if body.Some? then stringify(body.value) else "undefined";
      var page := Compose(layout.value, InjectHead(ssr), ssr.html, InjectClient(u.pathname, contextText));
      Request.Responded(Request.Response(200, page, true))
  }
}
