/**
 * The per-request pipeline shared by the two vue renderers: split the
 * request target into pathname and query, pick the template named by the
 * `template` query parameter, collect the body chunks, merge the parsed body
 * into an initially empty context object, and answer from the outcome of the
 * bundle renderer. The svelte renderer reuses the target split and the
 * query-parameter lookup.
 */
module Request {
  import opened Wrappers
  import opened Text
  import opened JsonValue
  import SupportFiles

  // ---------------------------------------------------------------------------
  // Request target

  /** The raw parts of a request target: path, optional query, optional fragment. */
  datatype TargetParts = TargetParts(path: string, query: Option<string>, fragment: Option<string>)

  /** Index of the first character of `s` that is `a` or `b`, or `|s|` if there is none. */
  function FirstOfEither(s: string, a: char, b: char): (r: nat)
    ensures r <= |s|
    ensures forall k :: 0 <= k < r ==> s[k] != a && s[k] != b
    ensures r < |s| ==> s[r] == a || s[r] == b
  {
    if |s| == 0 || s[0] == a || s[0] == b then 0
    else 1 + FirstOfEither(s[1..], a, b)
  }

  /**
   * The path ends at the first `?` or `#`; the query runs from a `?` to the
   * next `#`; the fragment is everything after that `#`.
   */
  function SplitTarget(raw: string): TargetParts
  {
    var p := FirstOfEither(raw, '?', '#');
    if p == |raw| then TargetParts(raw, None, None)
    else if raw[p] == '#' then TargetParts(raw[..p], None, Some(raw[p + 1..]))
    else
      var rest := raw[p + 1..];
      var q := FirstOfEither(rest, '#', '#');
      if q == |rest| then TargetParts(raw[..p], Some(rest), None)
      else TargetParts(raw[..p], Some(rest[..q]), Some(rest[q + 1..]))
  }

  /** Writing the parts back with their separators gives the target again. */
  function Unsplit(t: TargetParts): string {
    t.path + (if t.query.Some? then "?" + t.query.value else "")
      + (if t.fragment.Some? then "#" + t.fragment.value else "")
  }

  /** The path holds no `?` or `#`, and the query no `#`. */
  lemma SplitTargetSeparators(raw: string)
    ensures '?' !in SplitTarget(raw).path && '#' !in SplitTarget(raw).path
    ensures SplitTarget(raw).query.Some? ==> '#' !in SplitTarget(raw).query.value
  {
    var p := FirstOfEither(raw, '?', '#');
    assert forall k :: 0 <= k < p ==> raw[..p][k] == raw[k];
    if p < |raw| && raw[p] == '?' {
      var rest := raw[p + 1..];
      var q := FirstOfEither(rest, '#', '#');
      assert forall k :: 0 <= k < q ==> rest[..q][k] == rest[k];
    }
  }

  /** Nothing is lost: writing the parts back with their separators gives the target again. */
  lemma SplitTargetRoundTrip(raw: string)
    ensures Unsplit(SplitTarget(raw)) == raw
  {
    var p := FirstOfEither(raw, '?', '#');
    if p < |raw| {
      var rest := raw[p + 1..];
      UnsplitAt(raw, p);
      if raw[p] == '?' {
        var q := FirstOfEither(rest, '#', '#');
        if q < |rest| {
          UnsplitQueryFragment(raw[..p], rest, q);
        } else {
          UnsplitQuery(raw[..p], rest);
        }
      } else {
        UnsplitFragment(raw[..p], rest);
      }
    }
  }

  /** The path is where the target starts, and a query is present only after a `?`. */
  lemma TargetPathIsPrefix(raw: string)
    ensures StartsWith(raw, SplitTarget(raw).path)
    ensures SplitTarget(raw).query.Some? ==> '?' in raw
  {
    var p := FirstOfEither(raw, '?', '#');
    if p < |raw| && raw[p] == '?' {
      assert raw[p] in raw;
    }
  }

  lemma UnsplitAt(raw: string, p: nat)
    requires p < |raw|
    ensures raw == raw[..p] + [raw[p]] + raw[p + 1..]
  {
  }

  lemma UnsplitQueryFragment(path: string, rest: string, q: nat)
    requires q < |rest| && rest[q] == '#'
    ensures Unsplit(TargetParts(path, Some(rest[..q]), Some(rest[q + 1..]))) == path + "?" + rest
  {
    var a, b := rest[..q], rest[q + 1..];
    assert rest == a + "#" + b;
    assert path + ("?" + a) + ("#" + b) == path + "?" + (a + "#" + b);
  }

  lemma UnsplitQuery(path: string, rest: string)
    ensures Unsplit(TargetParts(path, Some(rest), None)) == path + "?" + rest
  {
    assert Unsplit(TargetParts(path, Some(rest), None)) == path + ("?" + rest) + "";
  }

  lemma UnsplitFragment(path: string, rest: string)
    ensures Unsplit(TargetParts(path, None, Some(rest))) == path + "#" + rest
  {
    assert Unsplit(TargetParts(path, None, Some(rest))) == path + "" + ("#" + rest);
  }

  /** The pathname and query of a parsed request URL. */
  datatype Target = Target(pathname: string, query: Option<string>)

  /** `url.pathname` and the query: an empty path reads as `/`. */
  function ParseTarget(raw: string): (t: Target)
    ensures t.pathname != ""
    ensures t.pathname == (if SplitTarget(raw).path == "" then "/" else SplitTarget(raw).path)
    ensures t.query == SplitTarget(raw).query
  {
    var parts := SplitTarget(raw);
    Target(if parts.path == "" then "/" else parts.path, parts.query)
  }

  /** `+` in a form-encoded name or value stands for a space. */
  function PlusToSpace(s: string): (r: string)
    ensures |r| == |s|
    ensures forall i :: 0 <= i < |s| ==> r[i] == (if s[i] == '+' then ' ' else s[i])
  {
    seq(|s|, i requires 0 <= i < |s| => if s[i] == '+' then ' ' else s[i])
  }

  /** One `name=value` sequence: split at the first `=`; without one, the value is empty. */
  function ParsePair(segment: string): (pair: (string, string))
    ensures '=' !in pair.0
    ensures '=' in segment ==> segment == pair.0 + "=" + pair.1
    ensures '=' !in segment ==> pair == (segment, "")
  {
    if '=' in segment then
      var i := CharIndex(segment, '=');
      assert segment == segment[..i] + "=" + segment[i + 1..];
      (segment[..i], segment[i + 1..])
    else (segment, "")
  }

  /** The name/value list of `URLSearchParams`: `&`-separated, empty sequences skipped. */
  function QueryPairs(query: string): seq<(string, string)>
  {
    PairsOf(Split(query, '&'))
  }

  /** A non-empty segment as a name/value pair, `+` read as a space in both. */
  function DecodePair(segment: string): (string, string)
  {
    var p := ParsePair(segment);
    (PlusToSpace(p.0), PlusToSpace(p.1))
  }

  /** The non-empty segments, in their order. */
  function NonEmpty(segments: seq<string>): (r: seq<string>)
    ensures forall k :: 0 <= k < |r| ==> r[k] != "" && r[k] in segments
    ensures forall i :: 0 <= i < |segments| && segments[i] != "" ==> segments[i] in r
    ensures (forall i :: 0 <= i < |segments| ==> segments[i] != "") ==> r == segments
  {
    if |segments| == 0 then []
    else if segments[0] == "" then NonEmpty(segments[1..])
    else
      assert segments == [segments[0]] + segments[1..];
      [segments[0]] + NonEmpty(segments[1..])
  }

  /** Filtering a list in two parts keeps the first part's segments before the second's, each in order. */
  lemma {:induction false} NonEmptyAppend(a: seq<string>, b: seq<string>)
    ensures NonEmpty(a + b) == NonEmpty(a) + NonEmpty(b)
  {
    if |a| > 0 {
      assert (a + b)[0] == a[0];
      assert (a + b)[1..] == a[1..] + b;
      NonEmptyAppend(a[1..], b);
    } else {
      assert a + b == b;
    }
  }

  /** The pairs `URLSearchParams` keeps: every non-empty segment, decoded, in order. */
  function PairsOf(segments: seq<string>): (pairs: seq<(string, string)>)
    ensures |pairs| == |NonEmpty(segments)|
    ensures forall k :: 0 <= k < |pairs| ==> pairs[k] == DecodePair(NonEmpty(segments)[k])
  {
    if |segments| == 0 then []
    else
      var rest := PairsOf(segments[1..]);
      if segments[0] == "" then rest else [DecodePair(segments[0])] + rest
  }

  /** The value of the first pair called `name`. */
  function FirstValue(pairs: seq<(string, string)>, name: string): (v: Option<string>)
    ensures v.None? <==> forall k :: 0 <= k < |pairs| ==> pairs[k].0 != name
    ensures v.Some? ==> exists k :: (0 <= k < |pairs| && pairs[k] == (name, v.value) &&
      forall j :: 0 <= j < k ==> pairs[j].0 != name)
  {
    if |pairs| == 0 then None
    else if pairs[0].0 == name then Some(pairs[0].1)
    else
      var v := FirstValue(pairs[1..], name);
      assert forall k :: 0 < k < |pairs| ==> pairs[1..][k - 1] == pairs[k];
      if v.Some? then
        ghost var k :| 0 <= k < |pairs[1..]| && pairs[1..][k] == (name, v.value) &&
          forall j :: 0 <= j < k ==> pairs[1..][j].0 != name;
        assert pairs[k + 1] == pairs[1..][k];
        v
      else v
  }

  /** `url.searchParams.get(name)`, `None` standing for `null`. */
  function SearchParam(t: Target, name: string): (v: Option<string>)
    ensures t.query.None? ==> v.None?
    ensures t.query.Some? ==> v == FirstValue(QueryPairs(t.query.value), name)
  {
    if t.query.None? then None else FirstValue(QueryPairs(t.query.value), name)
  }

  // ---------------------------------------------------------------------------
  // Request body

  newtype byte = x: int | 0 <= x < 256

  /** `Buffer.concat(chunks)`. */
  function Concat(chunks: seq<seq<byte>>): seq<byte>
  {
    if |chunks| == 0 then [] else Concat(chunks[..|chunks| - 1]) + chunks[|chunks| - 1]
  }

  /** Concatenation keeps arrival order: the bytes of earlier chunks come first. */
  lemma {:induction false} ConcatAppend(a: seq<seq<byte>>, b: seq<seq<byte>>)
    ensures Concat(a + b) == Concat(a) + Concat(b)
  {
    if |b| == 0 {
      assert a + b == a;
    } else {
      var binit, last := b[..|b| - 1], b[|b| - 1];
      assert (a + b)[..|a + b| - 1] == a + binit;
      assert (a + b)[|a + b| - 1] == last;
      ConcatAppend(a, binit);
      assert Concat(a + b) == Concat(a) + Concat(binit) + last;
      assert Concat(b) == Concat(binit) + last;
    }
  }

  /** The body is empty exactly when every chunk is. */
  lemma {:induction false} ConcatEmpty(chunks: seq<seq<byte>>)
    ensures |Concat(chunks)| == 0 <==> forall i :: 0 <= i < |chunks| ==> |chunks[i]| == 0
  {
    if |chunks| > 0 {
      var init := chunks[..|chunks| - 1];
      ConcatEmpty(init);
      assert forall i :: 0 <= i < |init| ==> init[i] == chunks[i];
    }
  }

  /**
   * The `data` handler pushes each chunk onto `body` as it arrives; at `end`
   * the chunks are concatenated.
   */
  method CollectBody(chunks: seq<seq<byte>>) returns (raw: seq<byte>)
    ensures raw == Concat(chunks)
    ensures |raw| == 0 <==> forall i :: 0 <= i < |chunks| ==> |chunks[i]| == 0
  {
    var body: seq<seq<byte>> := [];
    for i := 0 to |chunks|
      invariant body == chunks[..i]
    {
      body := body + [chunks[i]];
    }
    assert body == chunks;
    raw := Concat(body);
    ConcatEmpty(chunks);
  }

  /**
   * The context object the body yields: an empty body leaves it `{}`;
   * otherwise the parsed body is `Object.assign`-ed into `{}`, and a body
   * `JSON.parse` rejects throws.
   */
  function ContextFromBody(raw: seq<byte>, parse: seq<byte> -> Parsed): (r: Result<map<string, Json>, string>)
    ensures |raw| == 0 ==> r == Success(map[])
    ensures r.Failure? <==> |raw| != 0 && parse(raw).Malformed?
    ensures |raw| != 0 && parse(raw).Parsed? ==> r == Success(ObjectAssign(map[], parse(raw).value))
    ensures |raw| != 0 && parse(raw).Parsed? && parse(raw).value.JObject? ==> r == Success(parse(raw).value.fields)
  {
    if |raw| == 0 then Success(map[])
    else match parse(raw)
      case Malformed => Failure("SyntaxError")
      case Parsed(v) =>
        assert v.JObject? ==> ObjectAssign(map[], v) == v.fields by {
          if v.JObject? { assert map[] + v.fields == v.fields; }
        }
        Success(ObjectAssign(map[], v))
  }

  // ---------------------------------------------------------------------------
  // Rendering and the response

  /** What a handler leaves on the HTTP response. */
  datatype Response = Response(status: nat, body: string, ended: bool)

  /**
   * The bundle renderer's callback: an error is written as `error: <err>`
   * and the response is left open; success ends the response with the html.
   */
  function RespondToRender(rendered: Result<string, string>): (resp: Response)
    ensures resp.status == 200
    ensures resp.ended <==> rendered.Success?
    ensures rendered.Success? ==> resp.body == rendered.value
    ensures rendered.Failure? ==> resp.body == "error: " + rendered.error && StartsWith(resp.body, "error: ")
  {
    match rendered
    case Success(html) => Response(200, html, true)
    case Failure(err) => Response(200, "error: " + err, false)
  }

  /** The compiled server bundle and client manifest a renderer is built from (`undefined` is None). */
  datatype Bundle = Bundle(serverBundle: Option<Json>, clientManifest: Option<Json>)

  /** `{ pathname, <key>: context }`, the object handed to `renderToString`. */
  datatype RenderContext = RenderContext(pathname: string, key: string, payload: map<string, Json>)

  /** How handling a request ends: a response, or an exception that escapes the handler. */
  datatype Outcome = Responded(response: Response) | Uncaught(reason: string)

  /** The template the `template` query parameter names, if one was loaded under that name. */
  function TemplateFor(templates: seq<SupportFiles.SupportFile>, raw: string): Option<string>
  {
    SupportFiles.Lookup(templates, SearchParam(ParseTarget(raw), "template"))
  }

  /** The marker a page template must hold for the rendered app to be placed in it. */
  const Outlet: string := "<!--vue-ssr-outlet-->"

  /**
   * `createBundleRenderer` parses a non-empty template as it builds the
   * renderer, and throws when the template holds no outlet marker.
   */
  ghost predicate RejectsTemplateWithoutOutlet(creates: (Bundle, Option<string>) -> bool) {
    forall b: Bundle, t: string :: t != "" && Absent(t, Outlet) ==> !creates(b, Some(t))
  }

  /**
   * One request to a vue renderer. `creates` says whether
   * `createBundleRenderer` accepts the bundle together with the looked-up
   * template (it throws on a missing or malformed bundle, and on a non-empty
   * template without the outlet marker); `render` is `renderToString` for a
   * bundle, template and context.
   */
  function HandleBundleRequest(
    raw: string,
    templates: seq<SupportFiles.SupportFile>,
    bundle: Bundle,
    chunks: seq<seq<byte>>,
    key: string,
    parse: seq<byte> -> Parsed,
    creates: (Bundle, Option<string>) -> bool,
    render: (Bundle, Option<string>, RenderContext) -> Result<string, string>
  ): (out: Outcome)
    ensures !creates(bundle, TemplateFor(templates, raw)) ==> out.Uncaught?
    ensures creates(bundle, TemplateFor(templates, raw)) && |Concat(chunks)| != 0 && parse(Concat(chunks)).Malformed? ==> out.Uncaught?
    ensures out.Uncaught? <==> !creates(bundle, TemplateFor(templates, raw)) || ContextFromBody(Concat(chunks), parse).Failure?
    ensures out.Responded? ==> out.response == RespondToRender(render(
      bundle,
      TemplateFor(templates, raw),
      RenderContext(ParseTarget(raw).pathname, key, ContextFromBody(Concat(chunks), parse).value)))
    ensures creates(bundle, TemplateFor(templates, raw)) && (forall i :: 0 <= i < |chunks| ==> |chunks[i]| == 0) ==>
      out.Responded? && out.response == RespondToRender(render(
        bundle,
        TemplateFor(templates, raw),
        RenderContext(ParseTarget(raw).pathname, key, map[])))
  {
    var t := ParseTarget(raw);
    var template := TemplateFor(templates, raw);
    if !creates(bundle, template) then Uncaught("createBundleRenderer threw")
    else
      ConcatEmpty(chunks);
      match ContextFromBody(Concat(chunks), parse)
      case Failure(e) => Uncaught(e)
      case Success(payload) => Responded(RespondToRender(render(bundle, template, RenderContext(t.pathname, key, payload))))
  }

  /**
   * A request naming a loaded template that is non-empty and holds no outlet
   * marker throws out of the handler, whatever its body and bundle.
   */
  lemma TemplateWithoutOutletEscapes(
    raw: string,
    templates: seq<SupportFiles.SupportFile>,
    bundle: Bundle,
    chunks: seq<seq<byte>>,
    key: string,
    parse: seq<byte> -> Parsed,
    creates: (Bundle, Option<string>) -> bool,
    render: (Bundle, Option<string>, RenderContext) -> Result<string, string>,
    t: string
  )
    requires RejectsTemplateWithoutOutlet(creates)
    requires TemplateFor(templates, raw) == Some(t) && t != "" && Absent(t, Outlet)
    ensures HandleBundleRequest(raw, templates, bundle, chunks, key, parse, creates, render).Uncaught?
  {
    assert !creates(bundle, Some(t));
  }
}
