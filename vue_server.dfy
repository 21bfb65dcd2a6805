/**
 * The vue renderer started on its own (`vue-server.js`): configuration from
 * the environment, the in-memory template list, the server bundle and
 * client manifest (read from disk at startup, replaced after every
 * compilation), and the per-request render.
 */
module VueServer {
  import opened Wrappers
  import opened Environment
  import JsonValue
  import Text
  import Request
  import SupportFiles

  /** `NODE_ENV`: `test` runs as `production`, and an unset or empty value means `production`. */
  function NodeEnvOf(env: Env): (mode: string)
    ensures mode != "" && mode != "test"
    ensures IsSet(Get(env, "NODE_ENV")) && env["NODE_ENV"] != "test" ==> mode == env["NODE_ENV"]
    ensures !IsSet(Get(env, "NODE_ENV")) || env["NODE_ENV"] == "test" ==> mode == "production"
  {
    var v := Get(env, "NODE_ENV");
    var candidate := if v == Some("test") then Some("production") else v;
    if IsSet(candidate) then candidate.value else "production"
  }

  /** The settings the server derives from its environment. */
  datatype Config = Config(
    port: Port,
    mode: string,
    templateDir: Option<string>,
    componentDir: string,
    routesFile: string,
    clientBuildDir: Path,
    publicPath: string)

  /**
   * The module-level constants. A missing component directory or routes
   * file logs a message and exits with status 1; the component directory is
   * checked first.
   */
  function ConfigOf(env: Env): (r: Result<Config, Exit>)
    ensures r.Failure? <==> !IsSet(Get(env, "VUE_COMPONENT_DIR")) || !IsSet(Get(env, "VUE_ROUTES_FILE"))
    ensures !IsSet(Get(env, "VUE_COMPONENT_DIR")) ==> r == Failure(Exit(1, ComponentDirMissing))
    ensures IsSet(Get(env, "VUE_COMPONENT_DIR")) && !IsSet(Get(env, "VUE_ROUTES_FILE")) ==>
      r == Failure(Exit(1, RoutesFileMissing))
    ensures r.Success? ==> r.value.port == PortOf(env) && r.value.mode == NodeEnvOf(env)
    ensures r.Success? ==> r.value.componentDir == env["VUE_COMPONENT_DIR"] && r.value.routesFile == env["VUE_ROUTES_FILE"]
    ensures r.Success? ==> (r.value.templateDir.Some? <==> IsSet(Get(env, "VUE_TEMPLATE_DIR")))
    ensures r.Success? && r.value.templateDir.Some? ==> r.value.templateDir.value == env["VUE_TEMPLATE_DIR"]
    ensures r.Success? ==> (r.value.clientBuildDir.OwnBuildDir? <==> !IsSet(Get(env, "VUE_CLIENT_BUILD_DIR")))
    ensures r.Success? && r.value.clientBuildDir.Resolved? ==> r.value.clientBuildDir.input == env["VUE_CLIENT_BUILD_DIR"]
    ensures r.Success? ==> r.value.publicPath != ""
    ensures r.Success? && IsSet(Get(env, "VUE_CLIENT_BUILD_DIR_PUBLIC_PATH")) ==>
      r.value.publicPath == env["VUE_CLIENT_BUILD_DIR_PUBLIC_PATH"]
    ensures r.Success? && !IsSet(Get(env, "VUE_CLIENT_BUILD_DIR_PUBLIC_PATH")) ==> r.value.publicPath == "/"
  {
    var templates := Get(env, "VUE_TEMPLATE_DIR");
    var components := Get(env, "VUE_COMPONENT_DIR");
    var routes := Get(env, "VUE_ROUTES_FILE");
    var clientDir := Get(env, "VUE_CLIENT_BUILD_DIR");
    var publicPath := Get(env, "VUE_CLIENT_BUILD_DIR_PUBLIC_PATH");
    if !IsSet(components) then Failure(Exit(1, ComponentDirMissing))
    else if !IsSet(routes) then Failure(Exit(1, RoutesFileMissing))
    else Success(Config(
      PortOf(env),
      NodeEnvOf(env),
      if IsSet(templates) then templates else None,
      components.value,
      routes.value,
      if IsSet(clientDir) then Resolved(clientDir.value) else OwnBuildDir,
      if IsSet(publicPath) then publicPath.value else "/"))
  }

  /**
   * The `shouldPreload` option: scripts and styles are preloaded, a font only
   * when its file name ends in `.otf`; for any other type the function
   * returns `undefined` (None).
   */
  function ShouldPreload(file: string, kind: string): (r: Option<bool>)
    ensures r.Some? <==> kind in {"script", "style", "font"}
    ensures kind == "script" || kind == "style" ==> r == Some(true)
    ensures kind == "font" ==> (r == Some(true) <==> Text.EndsWith(file, ".otf"))
  {
    if kind == "script" || kind == "style" then Some(true)
    else if kind == "font" then Some(Text.EndsWith(file, ".otf"))
    else None
  }

  /**
   * The server bundle and client manifest the renderer is built from, and
   * whether the process has exited (`process.exit`, or the
   * `uncaughtException` handler's exit with status 1). Once exited, nothing
   * changes any more.
   */
  class BundleHolder {
    var serverBundle: Option<JsonValue.Json>
    var clientManifest: Option<JsonValue.Json>
    var exitCode: Option<int>
    const mode: string

    /** A manifest is only ever in place together with a server bundle; the only exit status is 1. */
    predicate Valid()
      reads this
    {
      (clientManifest.Some? ==> serverBundle.Some?) && (exitCode.Some? ==> exitCode.value == 1)
    }

    /**
     * Startup: outside development both artifacts are read from the build
     * directory (None when the file is missing or not valid JSON); a failed
     * read is logged and leaves the rest undefined.
     */
    constructor(mode: string, serverRead: Option<JsonValue.Json>, manifestRead: Option<JsonValue.Json>)
      ensures Valid()
      ensures this.mode == mode && exitCode.None?
      ensures mode == "development" ==> serverBundle.None? && clientManifest.None?
      ensures mode != "development" ==> serverBundle == serverRead
      ensures mode != "development" ==> clientManifest == (if serverRead.Some? then manifestRead else None)
    {
      this.mode := mode;
      exitCode := None;
      if mode != "development" {
        serverBundle := serverRead;
        clientManifest := if serverRead.Some? then manifestRead else None;
      } else {
        serverBundle := None;
        clientManifest := None;
      }
    }

    /** `getSSRBundle`: the artifacts as they are at this moment. */
    function Snapshot(): (b: Request.Bundle)
      reads this
      ensures b.serverBundle == serverBundle && b.clientManifest == clientManifest
    {
      Request.Bundle(serverBundle, clientManifest)
    }

    /**
     * The compiler's `done` hook. A compilation with errors exits with
     * status 1. Otherwise the server bundle and then the client manifest are
     * re-read and assigned one after the other, so a failed second read leaves
     * the new bundle in place. A failed read throws, and so does a symlink
     * error other than `EEXIST`. Whether such a throw reaches the
     * `uncaughtException` handler, which exits with status 1, is decided by
     * the compiler that runs the tap: `escapes` says whether it does. When it
     * does not, the process goes on serving with what was assigned before
     * the throw.
     */
    method DoneHook(hasErrors: bool, serverRead: Option<JsonValue.Json>, manifestRead: Option<JsonValue.Json>,
      symlink: SupportFiles.Symlink, escapes: bool)
      requires Valid()
      modifies this
      ensures Valid()
      ensures old(exitCode).Some? ==> unchanged(this)
      ensures old(exitCode).None? && hasErrors ==>
        exitCode == Some(1) && serverBundle == old(serverBundle) && clientManifest == old(clientManifest)
      ensures old(exitCode).None? && !hasErrors ==>
        serverBundle == (if serverRead.Some? then serverRead else old(serverBundle))
      ensures old(exitCode).None? && !hasErrors ==>
        clientManifest == (if serverRead.Some? && manifestRead.Some? then manifestRead else old(clientManifest))
      ensures old(exitCode).None? && !hasErrors ==>
        (exitCode.None? <==> !escapes || (serverRead.Some? && manifestRead.Some? && symlink.Tolerated()))
      ensures old(exitCode).None? && !hasErrors && exitCode.Some? ==> exitCode == Some(1)
    {
      if exitCode.Some? {
        return;
      }
      if hasErrors {
        exitCode := Some(1);
        return;
      }
      if serverRead.None? {
        exitCode := if escapes then Some(1) else None;
        return;
      }
      serverBundle := serverRead;
      if manifestRead.None? {
        exitCode := if escapes then Some(1) else None;
        return;
      }
      clientManifest := manifestRead;
      if !symlink.Tolerated() {
        exitCode := if escapes then Some(1) else None;
      }
    }
  }

  /** The context object key under which the vue renderer hands the request body to the app. */
  const ContextKey: string := "celestiteContext"

  /**
   * One request, against the artifacts it took from `getSSRBundle` when it
   * arrived.
   */
  function HandleRequest(
    raw: string,
    templates: seq<SupportFiles.SupportFile>,
    bundle: Request.Bundle,
    chunks: seq<seq<Request.byte>>,
    parse: seq<Request.byte> -> JsonValue.Parsed,
    creates: (Request.Bundle, Option<string>) -> bool,
    render: (Request.Bundle, Option<string>, Request.RenderContext) -> Result<string, string>
  ): (out: Request.Outcome)
    ensures !creates(bundle, Request.TemplateFor(templates, raw)) ==> out.Uncaught?
    ensures out.Responded? ==> (Request.ContextFromBody(Request.Concat(chunks), parse).Success? &&
      out.response == Request.RespondToRender(render(
        bundle,
        Request.TemplateFor(templates, raw),
        Request.RenderContext(Request.ParseTarget(raw).pathname, ContextKey,
          Request.ContextFromBody(Request.Concat(chunks), parse).value))))
    ensures out.Uncaught? <==> !creates(bundle, Request.TemplateFor(templates, raw)) || Request.ContextFromBody(Request.Concat(chunks), parse).Failure?
  {
    Request.HandleBundleRequest(raw, templates, bundle, chunks, ContextKey, parse, creates, render)
  }

  /** `createBundleRenderer` throws when there is no server bundle, whatever the template. */
  ghost predicate RejectsMissingBundle(creates: (Request.Bundle, Option<string>) -> bool) {
    forall b: Request.Bundle, t: Option<string> :: b.serverBundle.None? ==> !creates(b, t)
  }

  /**
   * In development nothing is read at startup, so a request that arrives
   * before the first compilation completes throws out of the render handler.
   */
  method RequestBeforeFirstCompile(
    raw: string,
    templates: seq<SupportFiles.SupportFile>,
    chunks: seq<seq<Request.byte>>,
    parse: seq<Request.byte> -> JsonValue.Parsed,
    creates: (Request.Bundle, Option<string>) -> bool,
    render: (Request.Bundle, Option<string>, Request.RenderContext) -> Result<string, string>,
    serverRead: Option<JsonValue.Json>,
    manifestRead: Option<JsonValue.Json>
  ) returns (out: Request.Outcome)
    requires RejectsMissingBundle(creates)
    ensures out.Uncaught?
  {
    var holder := new BundleHolder("development", serverRead, manifestRead);
    out := HandleRequest(raw, templates, holder.Snapshot(), chunks, parse, creates, render);
  }

  /**
   * A request keeps the artifacts it took when it arrived: a compilation
   * that completes while its body is still arriving replaces the holder's
   * artifacts as `DoneHook` does, but does not change what the request
   * renders with.
   */
  method RequestDuringRecompile(
    holder: BundleHolder,
    raw: string,
    templates: seq<SupportFiles.SupportFile>,
    chunks: seq<seq<Request.byte>>,
    parse: seq<Request.byte> -> JsonValue.Parsed,
    creates: (Request.Bundle, Option<string>) -> bool,
    render: (Request.Bundle, Option<string>, Request.RenderContext) -> Result<string, string>,
    serverRead: Option<JsonValue.Json>,
    manifestRead: Option<JsonValue.Json>,
    symlink: SupportFiles.Symlink,
    escapes: bool
  ) returns (out: Request.Outcome)
    requires holder.Valid()
    modifies holder
    ensures holder.Valid()
    ensures old(holder.exitCode).Some? ==> unchanged(holder)
    ensures old(holder.exitCode).None? ==>
      holder.serverBundle == (if serverRead.Some? then serverRead else old(holder.serverBundle))
    ensures old(holder.exitCode).None? ==>
      holder.clientManifest == (if serverRead.Some? && manifestRead.Some? then manifestRead else old(holder.clientManifest))
    ensures old(holder.exitCode).None? ==>
      (holder.exitCode.None? <==> !escapes || (serverRead.Some? && manifestRead.Some? && symlink.Tolerated()))
    ensures out == HandleRequest(raw, templates, Request.Bundle(old(holder.serverBundle), old(holder.clientManifest)),
      chunks, parse, creates, render)
  {
    var arrived := holder.Snapshot();
    holder.DoneHook(false, serverRead, manifestRead, symlink, escapes);
    out := HandleRequest(raw, templates, arrived, chunks, parse, creates, render);
  }

  /**
   * When the compiler keeps a throw from the tap to itself, a failed
   * manifest read leaves the process serving: the next request renders with
   * the new server bundle and the manifest from before.
   */
  method RequestAfterCaughtManifestFailure(
    holder: BundleHolder,
    raw: string,
    templates: seq<SupportFiles.SupportFile>,
    chunks: seq<seq<Request.byte>>,
    parse: seq<Request.byte> -> JsonValue.Parsed,
    creates: (Request.Bundle, Option<string>) -> bool,
    render: (Request.Bundle, Option<string>, Request.RenderContext) -> Result<string, string>,
    newBundle: JsonValue.Json,
    symlink: SupportFiles.Symlink
  ) returns (out: Request.Outcome)
    requires holder.Valid() && holder.exitCode.None?
    modifies holder
    ensures holder.Valid() && holder.exitCode.None?
    ensures holder.serverBundle == Some(newBundle) && holder.clientManifest == old(holder.clientManifest)
    ensures out == HandleRequest(raw, templates, Request.Bundle(Some(newBundle), old(holder.clientManifest)),
      chunks, parse, creates, render)
  {
    holder.DoneHook(false, Some(newBundle), None, symlink, false);
    out := HandleRequest(raw, templates, holder.Snapshot(), chunks, parse, creates, render);
  }
}
