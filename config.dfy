/** A server's stored configuration and its saved tool inputs. Java's nullable references are
    `Option`s; the three maps are never null once a configuration has been created or read
    back, so they are plain maps here. */
module Config {
  import opened Wrappers
  import opened Json

  /** One saved set of tool arguments. `updatedAt` is the instant of the last write, as a
      number supplied by the caller. */
  datatype SavedInput = SavedInput(
    id: Option<string>,
    name: Option<string>,
    comment: Option<string>,
    json: Option<string>,
    meta: Option<Json>,
    policy: Option<Json>,
    updatedAt: Option<nat>)

  /** A configuration. `configSchema` and `configuration` distinguish Java null (None) from a
      JSON null node (Some(JNull)). */
  datatype ServerConfig = ServerConfig(
    id: Option<string>,
    name: Option<string>,
    description: Option<string>,
    command: Option<string>,
    cwd: Option<string>,
    framing: Option<string>,
    transport: Option<string>,
    httpUrl: Option<string>,
    httpMessageUrl: Option<string>,
    httpHeaders: map<string, string>,
    supportsTools: bool,
    supportsResources: bool,
    supportsPrompts: bool,
    supportsDynamicConfig: bool,
    allowPolicy: bool,
    configSchema: Option<Json>,
    configuration: Option<Json>,
    env: map<string, string>,
    savedInputs: map<string, seq<SavedInput>>)

  /** `new ServerConfig()`: every reference null, every flag false, every map empty. */
  const Fresh: ServerConfig :=
    ServerConfig(None, None, None, None, None, None, None, None, None, map[],
                 false, false, false, false, false, None, None, map[], map[])

  /** The saved inputs of a tool, or none. */
  function SavedOf(config: ServerConfig, tool: string): seq<SavedInput> {
    if tool in config.savedInputs then config.savedInputs[tool] else []
  }
}
