# celestite server-side rendering harness, modelled in Dafny

celestite lets a web application in another language render Vue or
Svelte components on the server. A Node process receives a request
target and a JSON body, renders the matching component, and answers
with the html.

This project models the logic the three Node servers share and the
parts of the Vue app that run inside the render:

- **Svelte renderer** (`src/svelte-scripts/svelte-render-server.js`):
  - loads the layouts;
  - reads the pathname and the `layout` parameter;
  - builds the head fragment and the client bootstrap script;
  - splices head, body and client into the layout's three
    `<!-- CELESTITE … -->` markers.
- **Vue renderer, stand-alone** (`src/vue-scripts/server-build/vue-server.js`):
  - derives its configuration from the environment;
  - provides the `shouldPreload` policy;
  - holds the server bundle and client manifest, which the compiler's
    `done` hook replaces;
  - runs the per-request pipeline: pick the template, collect the body,
    merge it into the context, render, respond.
- **Vue renderer, compiler-driven** (`src/server/render-server.js`):
  the compile callback as a state machine over
  - whether the server listens,
  - the attached request handlers,
  - the count of registered `uncaughtException` handlers,
  - whether the process has exited.
- **The Vue app's router** (`src/scripts/router.js`):
  - which files count as components;
  - how a file name becomes a component name;
  - the registry, where a later file wins;
  - the route table's component lookup.
- **The Vuex store** (`src/scripts/store.js`, `src/vue-scripts/store.js`):
  the `SSR_INIT` merge into `state.crystal`.

## Modules

| file | module | contents |
|---|---|---|
| wrappers.dfy | `Wrappers` | `Option`, `Result` |
| text.dfy | `Text` | first-occurrence search and replacement, JavaScript `replace` with its `$`-patterns, split/join, the regular-expression character classes |
| json.dfy | `JsonValue` | parsed JSON values, `Object.assign` of one into a plain object |
| environment.dfy | `Environment` | `process.env` truthiness, the port, paths, exit statuses |
| support_files.dfy | `SupportFiles` | the layout and template loaders, the first-name lookup, the symlink outcome |
| request.dfy | `Request` | target splitting, query parameters, body collection, context assembly, the render callback's response, the shared vue request handler |
| svelte_render.dfy | `SvelteRender` | `parseUrl`, `getLayout`, head and client fragments, marker composition, the svelte request handler |
| vue_server.dfy | `VueServer` | configuration, `shouldPreload`, the bundle holder and its `done` hook, the request handler |
| render_server.dfy | `RenderServer` | configuration, the request handler, the compile-callback state machine |
| router.dfy | `Router` | the component-file filter, component names, the registry, route replacement |
| store.dfy | `CrystalStore` | the store and `SSR_INIT` |

## Code written once and its duplicates

The three servers repeat a few pieces of code. Each piece is modelled once:

- **Loading support files.** The layout loader (`svelte-render-server.js:92-103`)
  is the same code as the template loaders (`vue-server.js:47-65`,
  `render-server.js:23-34`). All three are `SupportFiles.LoadSupportFiles`.
- **Looking up by name.** The lookups (`svelte-render-server.js:191-195`,
  `vue-server.js:171-173`, `render-server.js:84-86`) are all
  `SupportFiles.Lookup`.
- **The request pipeline.** Both vue servers use
  `Request.HandleBundleRequest`, which takes the context key as a
  parameter: `celestiteContext` in `vue-server.js`, `vueContext` in
  `render-server.js`. The two handlers also differ in ways that do not change
  what the model records:
  - `vue-server.js` passes `shouldPreload` to `createBundleRenderer`
    (`vue-server.js:186-194`, modelled as `VueServer.ShouldPreload`);
    `render-server.js` passes no such option.
  - Its `end` handler is `async` and awaits `renderToString`'s promise
    (`vue-server.js:204-223`); `render-server.js` passes a callback
    (`render-server.js:108-127`). Both write `error: <err>` on failure and
    end the response with the html on success.
- **The store.** The two `store.js` files differ only in a parameter name.

## Model

| member | source | states |
|---|---|---|
| Text.ReplaceFirst | src/svelte-scripts/svelte-render-server.js:175 | With the marker absent the string is unchanged; otherwise the first occurrence, and only it, is replaced by the literal fragment |
| Text.ReplaceFirstSplice | src/svelte-scripts/svelte-render-server.js:176 | A marker that first occurs right after a prefix is replaced in place: `pre + m + post` becomes `pre + r + post` |
| Text.ReplaceThreeSplice | src/svelte-scripts/svelte-render-server.js:174-177 | Three replacements in a row splice the three fragments in, in order, whenever each marker is first found where expected |
| Text.JsReplaceFirstIsLiteral | src/svelte-scripts/svelte-render-server.js:174-177 | JavaScript `replace` agrees with literal replacement when the replacement has no `$` |
| Text.IndexOf | src/svelte-scripts/svelte-render-server.js:175 | `indexOf`: the first occurrence, and None exactly when the marker does not occur |
| JsonValue.ObjectAssign | src/vue-scripts/server-build/vue-server.js:208 | `Object.assign`: an object's fields override the target's; an array or string source sets the index names `0`, `1`, … to its items or characters; in every case exactly those keys are added and all other target keys keep their values; null, booleans and numbers leave the target as it is |
| Environment.PortOf | src/vue-scripts/server-build/vue-server.js:35 | `NODE_PORT` when it is set and non-empty, else 4000 |
| SupportFiles.LoadSupportFiles | src/svelte-scripts/svelte-render-server.js:92-103 | Nothing loads without a directory, a failed listing aborts start-up, and otherwise the loop yields exactly `FilesOf(entries)` |
| SupportFiles.FilesOfFails | src/svelte-scripts/svelte-render-server.js:96-99 | Loading aborts exactly when some entry cannot be stat-ed or read |
| SupportFiles.FilesOfSound | src/vue-scripts/server-build/vue-server.js:47-65 | The `k`-th loaded file is the listing's `k`-th regular-file entry, with its name and body; these positions strictly increase, so the loaded list keeps listing order and holds nothing else |
| SupportFiles.FilesOfAppend | src/svelte-scripts/svelte-render-server.js:93-101 | Loading a listing in two parts gives the first part's files followed by the second part's |
| SupportFiles.FilesOfComplete | src/server/render-server.js:23-34 | Every regular-file entry of a listing that loads is among the loaded files |
| SupportFiles.FilesOfDistinct | src/svelte-scripts/svelte-render-server.js:94 | Distinct entry names give distinct loaded names |
| SupportFiles.Lookup | src/vue-scripts/server-build/vue-server.js:171-173 | The body of the first file with exactly the requested name; None when nothing is requested or no name matches |
| SupportFiles.LookupLoaded | src/server/render-server.js:84-86 | With distinct names, requesting a loaded file's name yields exactly its body |
| Request.SplitTargetRoundTrip | src/vue-scripts/server-build/vue-server.js:169 | Splitting the target into path, query and fragment loses nothing: writing them back gives the target again |
| Request.SplitTargetSeparators | src/vue-scripts/server-build/vue-server.js:169-170 | The path holds no `?` or `#`, and the query holds no `#` |
| Request.ParseTarget | src/vue-scripts/server-build/vue-server.js:170 | The pathname is the target's path, or `/` when the path is empty; it is never empty |
| Request.FirstValue | src/svelte-scripts/svelte-render-server.js:187 | The value of the first pair with the name; None exactly when no pair has it |
| Request.SearchParam | src/vue-scripts/server-build/vue-server.js:171 | `searchParams.get`: null without a query; otherwise the first value under the name among the `&`-separated pairs |
| Request.PlusToSpace | src/vue-scripts/server-build/vue-server.js:171 | Each `+` in a name or value reads as a space and nothing else changes |
| Request.ParsePair | src/svelte-scripts/svelte-render-server.js:187 | A pair splits at its first `=`; without one the value is empty |
| Request.PairsOf | src/vue-scripts/server-build/vue-server.js:171 | The pairs are the non-empty `&`-separated segments in order, each split at its first `=` with `+` read as a space |
| Request.NonEmpty | src/svelte-scripts/svelte-render-server.js:187 | Exactly the non-empty segments are kept, and with no empty segment the list is unchanged |
| Request.NonEmptyAppend | src/svelte-scripts/svelte-render-server.js:187 | Filtering two lists one after the other gives the first's kept segments followed by the second's; with the row above this fixes the kept segments in query order, repeats included, so `get` sees the first occurrence first |
| Request.ConcatAppend | src/vue-scripts/server-build/vue-server.js:203-205 | The bytes of earlier chunks come before those of later ones |
| Request.ConcatEmpty | src/server/render-server.js:110-112 | The body is empty exactly when every chunk is |
| Request.CollectBody | src/vue-scripts/server-build/vue-server.js:198-205 | The chunks pushed one by one and concatenated at the end give `Concat(chunks)`, empty exactly when every chunk is |
| Request.ContextFromBody | src/server/render-server.js:110-114 | An empty body leaves the context `{}`; a body that parses is `Object.assign`-ed into `{}`, so an object body becomes the context itself; only a malformed non-empty body fails |
| Request.RespondToRender | src/server/render-server.js:121-127 | A render error writes `error: <err>` and leaves the response open; success ends it with the html |
| Request.HandleBundleRequest | src/server/render-server.js:78-130 | The handler escapes exactly when the renderer rejects the bundle together with the looked-up template, or a non-empty body is malformed; otherwise it responds with the outcome of rendering with the looked-up template and `{pathname, <key>: context}`; an empty body renders with `{}` |
| Request.TemplateWithoutOutletEscapes | src/server/render-server.js:93-97 | When `createBundleRenderer` rejects every non-empty template without `<!--vue-ssr-outlet-->`, a request naming such a loaded template throws out of the handler, whatever its bundle and body |
| SvelteRender.ParseUrl | src/svelte-scripts/svelte-render-server.js:184-189 | The pathname and the `layout` parameter are those of the parsed target (`url.pathname`, `searchParams.get("layout")`); the pathname is non-empty, holds no `?` or `#`, and starts the URL (or is `/` for an empty path); the layout parameter is null without a `?` |
| SvelteRender.GetLayout | src/svelte-scripts/svelte-render-server.js:191-195 | The first layout with the requested name, and null when none matches or none is requested |
| SvelteRender.InjectHead | src/svelte-scripts/svelte-render-server.js:154-157 | The head, or empty, followed by `<style>code</style>` only when the css code is non-empty |
| SvelteRender.ClientImportsPathname | src/svelte-scripts/svelte-render-server.js:159-170 | Whatever the context text, the bootstrap script imports exactly `<pathname>.js` |
| SvelteRender.InjectClient | src/svelte-scripts/svelte-render-server.js:172 | The client fragment is the bootstrap script inside `<script type='module'>` … `</script>` |
| SvelteRender.ComposeSplices | src/svelte-scripts/svelte-render-server.js:174-177 | A layout `a HEAD b BODY c CLIENT d` composes to `a head b html c client d` |
| SvelteRender.ComposeWithoutMarkers | src/svelte-scripts/svelte-render-server.js:174-177 | A layout without markers is returned unchanged |
| SvelteRender.ComposeAsWrittenIsLiteral | src/svelte-scripts/svelte-render-server.js:174-177 | The source's `replace` chain and the literal composition agree when no fragment holds a `$` |
| SvelteRender.ComposeAsWrittenExpandsDollar | src/svelte-scripts/svelte-render-server.js:176 | Html `$'` in layout `<!-- CELESTITE BODY -->X` yields `XX` as written; the literal composition gives `$'X` |
| SvelteRender.Handle | src/svelte-scripts/svelte-render-server.js:122-181 | A failed import or render yields status 500 with nothing written; a missing layout then throws; otherwise, and only then, the response is status 200 with the composed page, and it is ended |
| VueServer.NodeEnvOf | src/vue-scripts/server-build/vue-server.js:36 | `test` becomes `production`, unset or empty becomes `production`, anything else passes through |
| VueServer.ConfigOf | src/vue-scripts/server-build/vue-server.js:35-42 | A missing component directory exits 1 with its message, checked before the routes file; otherwise the port, mode, directories and the public path (verbatim, default `/`) as set, the client build directory defaulting to the SSR build directory |
| VueServer.ShouldPreload | src/vue-scripts/server-build/vue-server.js:186-194 | Scripts and styles are preloaded, a font exactly when its name ends in `.otf`, any other type gives undefined |
| VueServer.BundleHolder.constructor | src/vue-scripts/server-build/vue-server.js:104-114 | In development nothing is read; otherwise both artifacts, the manifest only once the bundle has been read |
| VueServer.BundleHolder.Snapshot | src/vue-scripts/server-build/vue-server.js:116-121 | The artifacts as they are at that moment |
| VueServer.BundleHolder.DoneHook | src/vue-scripts/server-build/vue-server.js:124-162 | Errors exit 1 with both artifacts untouched; otherwise the bundle and then the manifest are replaced in turn; the process goes on exactly when both reads succeed and the symlink is created or already exists, or when the throw does not reach the process; an exited process is unaffected; a manifest is never in place without a bundle |
| VueServer.HandleRequest | src/vue-scripts/server-build/vue-server.js:166-225 | The render gets `{pathname, celestiteContext}` and the looked-up template; it escapes exactly when the renderer rejects the bundle with that template, or the body is malformed |
| VueServer.RequestBeforeFirstCompile | src/vue-scripts/server-build/vue-server.js:107-121 | In development a request before the first compile finds no bundle and throws out of the render handler, whatever template it names |
| VueServer.RequestDuringRecompile | src/vue-scripts/server-build/vue-server.js:176-179 | A request renders with the artifacts it took on arrival, while the `done` hook that completes meanwhile leaves the holder in the state `DoneHook` promises |
| VueServer.RequestAfterCaughtManifestFailure | src/vue-scripts/server-build/vue-server.js:143-144 | When the tap's throw is caught by the compiler, a failed manifest read leaves the process serving with the new server bundle and the previous manifest, and the next request renders with exactly that pair |
| RenderServer.NodeEnvOf | src/server/render-server.js:17 | Unset or empty becomes `development`, anything else passes through |
| RenderServer.ConfigOf | src/server/render-server.js:12-17 | Same exits and defaults as the stand-alone server, but a set public path goes through `path.resolve` |
| RenderServer.HandleRequest | src/server/render-server.js:101-116 | The render gets `{pathname, vueContext}` with the context the body yields; it escapes exactly when the renderer rejects the bundle with the looked-up template, or the body is malformed |
| RenderServer.Server.constructor | src/server/render-server.js:133-136 | Not listening, no handlers, no exception handlers |
| RenderServer.Server.CompileCallback | src/server/render-server.js:141-209 | An error or failed compile exits 1 with nothing else touched; otherwise a listening server drops its handlers and closes, a failed read or a symlink error other than `EEXIST` exits 1, and success attaches exactly the one handler for the new artifacts, listens and adds one exception handler |
| RenderServer.Server.Serve | src/server/render-server.js:199 | A listening server serves the request with its one handler; a closed one serves none |
| RenderServer.TwoCompilations | src/server/render-server.js:199-208 | After two good compilations exactly one handler, the second's, is attached, and two exception handlers are registered |
| Router.IsComponentFile | src/scripts/router.js:10-14 | Computes exactly the regular expression `[A-Z]\w+\.(vue|js)$` |
| Router.ContextKeys | src/scripts/router.js:10-16 | The keys are the component files of the listing and only those; a listing of component files only is kept as it is |
| Router.ContextKeysAppend | src/scripts/router.js:10-16 | Listing in two parts gives the first part's keys before the second's, so the keys keep listing order |
| Router.ComponentName | src/scripts/router.js:21 | On a match of `^\.\/(.*)\.\w+$` the name is the text between `./` and the last dot; otherwise the key is unchanged |
| Router.NameMatchUnique | src/scripts/router.js:21 | Only the last dot can close the group, so the stripped name is determined |
| Router.ComponentNameExamples | src/scripts/router.js:20-21 | `./Home.vue` becomes `Home` and `./ui/Nav.js` becomes `ui/Nav` |
| Router.BuildRegistry | src/scripts/router.js:16-25 | The `forEach` builds `RegistryFrom(keys)` |
| Router.RegistryNames | src/scripts/router.js:24 | The registered names are exactly the keys' component names |
| Router.RegistryLastWins | src/scripts/router.js:16-25 | A name maps to the last key that bears it |
| Router.ReplaceRoutes | src/scripts/router.js:28-33 | Same length, order and paths; a component is the registry entry, or undefined exactly when the name is not registered |
| Router.RouteResolves | src/scripts/router.js:28-33 | A route naming a key's component name, where no later key has that name, resolves to that key's component |
| CrystalStore.Merged | src/scripts/store.js:12-16 | Every context key holds the context's value, all other keys keep theirs, and no other key appears |
| CrystalStore.MergedIdempotent | src/vue-scripts/store.js:12-16 | Committing the same context twice equals committing it once |
| CrystalStore.MergedUnits | src/scripts/store.js:7-10 | An empty context changes nothing; merging into the initial empty `crystal` yields the context |
| CrystalStore.Store.constructor | src/vue-scripts/store.js:7-10 | `crystal` starts empty |
| CrystalStore.Store.SsrInit | src/scripts/store.js:13-15 | The entry-by-entry loop leaves `Merged(old crystal, context)` |
| CrystalStore.FreshStoreHoldsContext | src/vue-scripts/store.js:13-15 | A fresh store after `SSR_INIT` holds exactly the context |

## Left out

- External renderers and bundlers are parameters.
  - `createBundleRenderer` is the predicate `creates` over the bundle and the looked-up template, and `renderToString` is `render`.
  - What `createBundleRenderer` rejects is library behaviour, stated as assumptions on `creates`: `VueServer.RejectsMissingBundle` for a missing server bundle and `Request.RejectsTemplateWithoutOutlet` for a non-empty template without the outlet marker. Its other checks of the bundle are left to `creates`.
  - The snowpack import and `component.render` are the values `imported` and `rendered`.
  - The component URL built from `COMPONENT_DIR` is not modelled.
- `JSON.parse` and `JSON.stringify` are parameters.
  - Reading a bundle or manifest is an `Option`: None covers both a missing file and malformed JSON.
  - JSON numbers are integers; floating point is not modelled.
- `path.resolve` and `path.parse` are not modelled. A resolved path records its input, and a directory entry's name is taken as its base name plus extension.
- URL parsing is a split into path, query and fragment, with an empty path read as `/`.
  - Percent-encoding of the path (WHATWG `pathname` encodes characters such as space, `"` and `<`, and reads `\` as `/`), percent-decoding of query values, dot-segment removal and host handling are not modelled.
  - So are the differences between `new URL(url, base)` in the svelte renderer and the concatenated `http://localhost:<port><url>` in the vue renderers.
- UTF-8 decoding of the body is left to the `parse` parameter.
- The network and the event loop are not modelled: socket binding, request-stream events, the `error` event, and that the body arrives asynchronously. Body chunks are a sequence already received.
- Logging, the `performance.now()` timer, and the logger middleware's own output are not modelled; the model keeps only that it ends the response.
- In development mode, Express's dev and hot middleware run before the vue render handler. Which requests they answer themselves is not modelled, and neither is what the `*` mount does to `req.url`.
- In the svelte renderer, body-parser's own handling of the POST body is not modelled, including its 400 answer to malformed JSON. The body is given, and a GET's absent body prints as `undefined`.
- The webpack, snowpack and babel configuration files, `app.js`, `entry-server.js` and `createRouter` only configure external frameworks. The server entry's commit of the context is covered by `CrystalStore.FreshStoreHoldsContext`.
- VueServer.BundleHolder.DoneHook: whether a throw from the tap reaches the `uncaughtException` handler is decided by webpack's hook machinery, which is not part of this model; the parameter `escapes` says whether it does, and both branches are modelled.
- VueServer.BundleHolder.DoneHook: ends the process at the moment an escaped exception reaches the handler. In the source the exit waits for `server.close` to finish (`vue-server.js:259-262`).
- VueServer.BundleHolder.DoneHook: can be called in any mode. In the source the hook fires only in development, because the production `run` call is commented out at `vue-server.js:243`.
- RenderServer.Server.CompileCallback: takes `listen` always to succeed. A bind that fails, such as a port still in use, is reported by Node through the server's `error` event, which the source does not handle; this is not modelled.
- RenderServer.Server.CompileCallback: ends the process at the moment an exception escapes. In the source, once an `uncaughtException` handler is registered, the exit waits for `server.close` to finish.
- RenderServer.Server.CompileCallback: `console.err` at `render-server.js:152` is not a function, so a compiler error with details throws instead of logging them. Either way the process ends with status 1, which is all the model records.
- VueServer.HandleRequest: models a throw in the `end` handler as an exception that ends the process. That handler is `async`, so a malformed body actually rejects a promise, and whether the process ends depends on Node's unhandled-rejection mode. The same holds for `SvelteRender.Handle` with a missing layout.
- VueServer.RequestBeforeFirstCompile: `Outcome.Uncaught` does not tell apart how an escaping throw ends. In development the handler is mounted in Express (`vue-server.js:241`), which catches a synchronous throw from it and answers 500, so the process keeps running; only the production `request` listener (`vue-server.js:251`) lets such a throw reach the `uncaughtException` handler.
- Router.ReplaceRoutes: treats the registry as a plain dictionary. A route naming an `Object.prototype` member (such as `constructor`) would find that member in the source.
- Router: a component is identified by the key of the file it is the default export of. The order of `require.context`'s keys is taken as given.
- JsonValue.ObjectAssign: does not model a JSON key `__proto__`, which `Object.assign` would treat as a prototype assignment.
- JsonValue.ObjectAssign: indexes a string source by character (`JsonValue.Characters`). JavaScript indexes strings by UTF-16 code unit, so a character outside the Basic Multilingual Plane gives two index keys in the source and one here.
- SvelteRender.Handle: splices the fragments in literally (`SvelteRender.Compose`). The source's `replace` calls also expand `$`-patterns in the fragments; that behaviour is `SvelteRender.ComposeAsWritten` (see Findings), and the two agree whenever no fragment contains a `$`.
- CrystalStore.Store.SsrInit: Vue's reactivity bookkeeping in `Vue.set` is not modelled. The entries are visited in an unspecified order, and the result does not depend on it.

Three error paths, as the code has them and the model states them:

- A malformed non-empty JSON body makes `JSON.parse` throw out of the vue request handler (`Request.HandleBundleRequest`).
- A svelte request whose layout is not found calls `.replace` on `null`, which throws out of the handler (`SvelteRender.Handle`).
- A render error in the vue servers leaves status 200, writes `error: <err>` and does not end the response (`Request.RespondToRender`).

## Findings

| source | as written | input that shows it | evidently intended | confidence | as-written member | corrected member |
|---|---|---|---|---|---|---|
| src/svelte-scripts/svelte-render-server.js:174-177 | `layout.replace(marker, fragment)` interprets `$$`, `$&`, `` $` `` and `$'` in the rendered head, html and client fragments | layout `<!-- CELESTITE BODY -->X` with rendered html `$'` gives `XX` | the fragment is inserted literally, giving `$'X` | not executed | SvelteRender.ComposeAsWrittenExpandsDollar | SvelteRender.ComposeSplices |

The as-written chain is `SvelteRender.ComposeAsWritten`, built on
`Text.JsReplaceFirst`. The corrected chain is `SvelteRender.Compose`,
built on `Text.ReplaceFirst`. The request handler `SvelteRender.Handle`
uses the corrected chain. `SvelteRender.ComposeAsWrittenIsLiteral`
proves that the two chains agree whenever no fragment contains a `$`.
