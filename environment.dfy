/**
 * Reading the process environment: a variable counts as set only when it is
 * present and non-empty (JavaScript truthiness of `process.env.X`).
 */
module Environment {
  import opened Wrappers

  /** `process.env`: variable names to values. */
  type Env = map<string, string>

  function Get(env: Env, name: string): (v: Option<string>)
    ensures v.Some? <==> name in env
    ensures v.Some? ==> v.value == env[name]
  {
    if name in env then Some(env[name]) else None
  }

  /** `process.env.X` is truthy: present and not the empty string. */
  predicate IsSet(v: Option<string>) {
    v.Some? && v.value != ""
  }

  /** The listening port: the `NODE_PORT` text when set, else the number 4000. */
  datatype Port = PortText(text: string) | PortNumber(number: nat)

  const DefaultPort: nat := 4000

  /** `process.env.NODE_PORT || 4000` */
  function PortOf(env: Env): (p: Port)
    ensures p.PortText? <==> IsSet(Get(env, "NODE_PORT"))
    ensures p.PortText? ==> "NODE_PORT" in env && p.text == env["NODE_PORT"] && p.text != ""
    ensures p.PortNumber? ==> p.number == 4000
  {
    var v := Get(env, "NODE_PORT");
    if IsSet(v) then PortText(v.value) else PortNumber(DefaultPort)
  }

  /**
   * A directory or file path: `path.resolve` applied to a configured value
   * (the resolution itself is not modelled), or the server's own build
   * directory next to the script.
   */
  datatype Path = Resolved(input: string) | OwnBuildDir

  /** What the vue renderers log before exiting when a required setting is missing. */
  const ComponentDirMissing: string := "Component directory not defined - please set VUE_COMPONENT_DIR environment variable"
  const RoutesFileMissing: string := "Routes file must be specified - please set VUE_ROUTES_FILE environment variable"

  /** `process.exit(code)` after logging `message`. */
  datatype Exit = Exit(code: int, message: string)
}
