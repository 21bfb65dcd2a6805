/**
 * The vue renderer driven by the compiler (`render-server.js`): after every
 * compilation the callback tears down the previous listener, re-reads the
 * server bundle and client manifest, attaches a request handler bound to
 * them and starts listening again.
 */
module RenderServer {
  import opened Wrappers
  import opened Environment
  import JsonValue
  import Request
  import SupportFiles

  /** `NODE_ENV`, with an unset or empty value meaning `development`. */
  function NodeEnvOf(env: Env): (mode: string)
    ensures mode != ""
    ensures IsSet(Get(env, "NODE_ENV")) ==> mode == env["NODE_ENV"]
    ensures !IsSet(Get(env, "NODE_ENV")) ==> mode == "development"
  {
    var v := Get(env, "NODE_ENV");
    if IsSet(v) then v.value else "development"
  }

  /** The client public path: a configured value goes through `path.resolve`; the default is `/`. */
  datatype PublicPath = ResolvedPublicPath(input: string) | RootPath

  /** The settings the server derives from its environment. */
  datatype Config = Config(
    port: Port,
    mode: string,
    templateDir: Option<string>,
    componentDir: string,
    routesFile: string,
    clientBuildDir: Path,
    publicPath: PublicPath)

  /**
   * The module-level constants. A missing component directory or routes
   * file logs a message and exits with status 1; the component directory is
   * checked first.
   */
  function ConfigOf(env: Env): (r: Result<Config, Exit>)
    ensures r.Failure? <==> !IsSet(Get(env, "VUE_COMPONENT_DIR")) || !IsSet(Get(env, "VUE_ROUTES_FILE"))
    ensures !IsSet(Get(env, "VUE_COMPONENT_DIR")) ==> r == Failure(Exit(1, ComponentDirMissing))
    ensures IsSet(Get(env, "VUE_COMPONENT_DIR")) && !IsSet(Get(env, "VUE_ROUTES_FILE")) ==>
      r == Failure(Exit(1, RoutesFileMissing))
    ensures r.Success? ==> r.value.port == PortOf(env) && r.value.mode == NodeEnvOf(env)
    ensures r.Success? ==> r.value.componentDir == env["VUE_COMPONENT_DIR"] && r.value.routesFile == env["VUE_ROUTES_FILE"]
    ensures r.Success? ==> (r.value.templateDir.Some? <==> IsSet(Get(env, "VUE_TEMPLATE_DIR")))
    ensures r.Success? && r.value.templateDir.Some? ==> r.value.templateDir.value == env["VUE_TEMPLATE_DIR"]
    ensures r.Success? ==> (r.value.clientBuildDir.OwnBuildDir? <==> !IsSet(Get(env, "VUE_CLIENT_BUILD_DIR")))
    ensures r.Success? && r.value.clientBuildDir.Resolved? ==> r.value.clientBuildDir.input == env["VUE_CLIENT_BUILD_DIR"]
    ensures r.Success? ==> (r.value.publicPath.RootPath? <==> !IsSet(Get(env, "VUE_CLIENT_BUILD_DIR_PUBLIC_PATH")))
    ensures r.Success? && r.value.publicPath.ResolvedPublicPath? ==>
      r.value.publicPath.input == env["VUE_CLIENT_BUILD_DIR_PUBLIC_PATH"]
  {
    var templates := Get(env, "VUE_TEMPLATE_DIR");
    var components := Get(env, "VUE_COMPONENT_DIR");
    var routes := Get(env, "VUE_ROUTES_FILE");
    var clientDir := Get(env, "VUE_CLIENT_BUILD_DIR");
    var publicPath := Get(env, "VUE_CLIENT_BUILD_DIR_PUBLIC_PATH");
    if !IsSet(components) then Failure(Exit(1, ComponentDirMissing))
    else if !IsSet(routes) then Failure(Exit(1, RoutesFileMissing))
    else Success(Config(
      PortOf(env),
      NodeEnvOf(env),
      if IsSet(templates) then templates else None,
      components.value,
      routes.value,
      if IsSet(clientDir) then Resolved(clientDir.value) else OwnBuildDir,
      if IsSet(publicPath) then ResolvedPublicPath(publicPath.value) else RootPath))
  }

  /** The context object key under which this renderer hands the request body to the app. */
  const ContextKey: string := "vueContext"

  /** The handler `doRender(serverBundle, clientManifest)` builds, serving one request. */
  function HandleRequest(
    bundle: Request.Bundle,
    raw: string,
    templates: seq<SupportFiles.SupportFile>,
    chunks: seq<seq<Request.byte>>,
    parse: seq<Request.byte> -> JsonValue.Parsed,
    creates: (Request.Bundle, Option<string>) -> bool,
    render: (Request.Bundle, Option<string>, Request.RenderContext) -> Result<string, string>
  ): (out: Request.Outcome)
    ensures !creates(bundle, Request.TemplateFor(templates, raw)) ==> out.Uncaught?
    ensures out.Responded? ==> (Request.ContextFromBody(Request.Concat(chunks), parse).Success? &&
      out.response == Request.RespondToRender(render(
        bundle,
        Request.TemplateFor(templates, raw),
        Request.RenderContext(Request.ParseTarget(raw).pathname, ContextKey,
          Request.ContextFromBody(Request.Concat(chunks), parse).value))))
    ensures out.Uncaught? <==> !creates(bundle, Request.TemplateFor(templates, raw)) || Request.ContextFromBody(Request.Concat(chunks), parse).Failure?
  {
    Request.HandleBundleRequest(raw, templates, bundle, chunks, ContextKey, parse, creates, render)
  }

  /**
   * The HTTP server and the process around it: whether it listens, the
   * `request` handlers attached (each bound to the artifacts of one
   * compilation), how many `uncaughtException` handlers have been
   * registered, and whether the process has exited.
   */
  class Server {
    var listening: bool
    var handlers: seq<Request.Bundle>
    var exceptionHandlers: nat
    var exitCode: Option<int>

    /**
     * The server listens exactly when one handler is attached, never with
     * more than one; a listening server has registered an exception handler;
     * the only exit status is 1.
     */
    predicate Valid()
      reads this
    {
      |handlers| <= 1 && (listening <==> |handlers| == 1) && (listening ==> exceptionHandlers >= 1) &&
      (exitCode.Some? ==> exitCode.value == 1)
    }

    /** `new http.Server(...)`: not listening, no handlers. */
    constructor()
      ensures Valid()
      ensures !listening && handlers == [] && exceptionHandlers == 0 && exitCode.None?
    {
      listening := false;
      handlers := [];
      exceptionHandlers := 0;
      exitCode := None;
    }

    /**
     * `webpackCompileCallback`. A compiler error or a compilation with errors
     * exits with status 1. Otherwise a listening server drops its handlers
     * and closes; the artifacts are read (a failed read throws, and so does a
     * symlink error other than `EEXIST`, ending the process with status 1);
     * then one handler bound to the new artifacts is attached, the server
     * listens again, and one more exception handler is registered.
     */
    method CompileCallback(err: bool, hasErrors: bool, serverRead: Option<JsonValue.Json>,
                           manifestRead: Option<JsonValue.Json>, symlink: SupportFiles.Symlink)
      requires Valid()
      modifies this
      ensures Valid()
      ensures old(exitCode).Some? ==> unchanged(this)
      ensures old(exitCode).None? && (err || hasErrors) ==> (exitCode == Some(1) &&
        listening == old(listening) && handlers == old(handlers) && exceptionHandlers == old(exceptionHandlers))
      ensures old(exitCode).None? && !err && !hasErrors ==>
        (exitCode.None? <==> serverRead.Some? && manifestRead.Some? && symlink.Tolerated())
      ensures old(exitCode).None? && !err && !hasErrors && exitCode.None? ==>
        (listening && handlers == [Request.Bundle(serverRead, manifestRead)] &&
         exceptionHandlers == old(exceptionHandlers) + 1)
      ensures old(exitCode).None? && !err && !hasErrors && exitCode.Some? ==>
        (exitCode == Some(1) && !listening && handlers == [] && exceptionHandlers == old(exceptionHandlers))
    {
      if exitCode.Some? {
        return;
      }
      if err || hasErrors {
        exitCode := Some(1);
        return;
      }
      if listening {
        handlers := [];
        listening := false;
      }
      if serverRead.None? || manifestRead.None? || !symlink.Tolerated() {
        exitCode := Some(1);
        return;
      }
      handlers := handlers + [Request.Bundle(serverRead, manifestRead)];
      listening := true;
      exceptionHandlers := exceptionHandlers + 1;
    }

    /** A request: every attached handler serves it with the artifacts it is bound to. */
    function Serve(
      raw: string,
      templates: seq<SupportFiles.SupportFile>,
      chunks: seq<seq<Request.byte>>,
      parse: seq<Request.byte> -> JsonValue.Parsed,
      creates: (Request.Bundle, Option<string>) -> bool,
      render: (Request.Bundle, Option<string>, Request.RenderContext) -> Result<string, string>
    ): (outs: seq<Request.Outcome>)
      reads this
      ensures Valid() && !listening ==> outs == []
      ensures Valid() && listening ==>
        outs == [HandleRequest(handlers[0], raw, templates, chunks, parse, creates, render)]
    {
      var attached := handlers;
      var outs := seq(|attached|, i requires 0 <= i < |attached| =>
        HandleRequest(attached[i], raw, templates, chunks, parse, creates, render));
      assert Valid() && listening ==> outs == [outs[0]];
      outs
    }
  }

  /**
   * Under watch, every good compilation replaces the handler rather than
   * adding one: after two of them exactly one handler, bound to the second
   * compilation's artifacts, serves requests, while the exception handlers
   * have piled up.
   */
  method TwoCompilations(first: Request.Bundle, second: Request.Bundle) returns (s: Server)
    requires first.serverBundle.Some? && first.clientManifest.Some?
    requires second.serverBundle.Some? && second.clientManifest.Some?
    ensures s.Valid() && s.listening && s.handlers == [second] && s.exceptionHandlers == 2 && s.exitCode.None?
  {
    s := new Server();
    s.CompileCallback(false, false, first.serverBundle, first.clientManifest, SupportFiles.Linked);
    s.CompileCallback(false, false, second.serverBundle, second.clientManifest, SupportFiles.LinkError("EEXIST"));
  }
}
