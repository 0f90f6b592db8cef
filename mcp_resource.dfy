/** The REST resource's own logic: merging an update request into a stored configuration,
    reading the "application" resources out of a resources/list result, recording the
    configuration schema announced at initialize, listing a facet without failing, and parsing
    the JSON text of a request. */
module Resource {
  import opened Wrappers
  import opened Text
  import opened Json
  import opened Rpc
  import opened Config
  import opened Repository
  import opened Sessions
  import ServerNames

  // ---------------------------------------------------------------- reading JSON nodes

  /** textValue: the text of a textual node; null for a missing, null or non-textual node. */
  function TextValue(node: Option<Json>): (r: Option<string>)
    ensures r.Some? <==> node.Some? && node.value.JStr?
    ensures r.Some? ==> r.value == node.value.s
  {
    if node.None? || node.value == JNull then None
    else if !node.value.JStr? then None
    else AsText(node.value)
  }

  /** isApplicationResource: an HTML resource annotated as an application. Lower-casing only
      ASCII letters is exact for the "text/html" prefix: no other character lower-cases into
      one of its characters. */
  predicate IsApplicationResource(entry: Json)
    ensures IsApplicationResource(entry) <==>
      && entry.JObj?
      && "mimeType" in entry.fields && entry.fields["mimeType"].JStr?
      && StartsWith(ToLowerAscii(entry.fields["mimeType"].s), "text/html")
      && "annotations" in entry.fields && entry.fields["annotations"].JObj?
      && "type" in entry.fields["annotations"].fields && entry.fields["annotations"].fields["type"].JStr?
      && EqualsIgnoreCase("application", entry.fields["annotations"].fields["type"].s)
  {
    if entry == JNull then false
    else
      var mimeType := TextValue(Get(entry, "mimeType"));
      if mimeType.None? || !StartsWith(ToLowerAscii(mimeType.value), "text/html") then false
      else
        var annotations := Get(entry, "annotations");
        if annotations.None? || !annotations.value.JObj? then false
        else
          var kind := TextValue(Get(annotations.value, "type"));
          kind.Some? && EqualsIgnoreCase("application", kind.value)
  }

  // ---------------------------------------------------------------- extractApplications

  /** An entry that makes it into the applications: an application resource with a non-blank
      textual uri. */
  predicate Kept(entry: Json) {
    IsApplicationResource(entry) && TextValue(Get(entry, "uri")).Some? && !IsBlank(TextValue(Get(entry, "uri")).value)
  }

  /** The application node of an entry: its uri, and its name when that is non-blank text. */
  function AppNode(name: Option<string>, uri: string): (r: Json)
    ensures r.JObj? && "uri" in r.fields && r.fields["uri"] == JStr(uri)
    ensures "name" in r.fields <==> name.Some? && !IsBlank(name.value)
    ensures "name" in r.fields ==> r.fields["name"] == JStr(name.value)
    ensures r.fields.Keys <= {"uri", "name"}
  {
    if name.Some? && !IsBlank(name.value) then JObj(map["name" := JStr(name.value), "uri" := JStr(uri)])
    else JObj(map["uri" := JStr(uri)])
  }

  /** The application node of a kept entry. */
  function AppOf(entry: Json): Json {
    AppNode(TextValue(Get(entry, "name")), TextValue(Get(entry, "uri")).GetOr(""))
  }

  /** The converted elements of `s` that pass `keep`, in order. */
  function Select<T, U>(s: seq<T>, keep: T -> bool, convert: T -> U): seq<U> {
    if s == [] then []
    else Select(s[..|s| - 1], keep, convert) + if keep(s[|s| - 1]) then [convert(s[|s| - 1])] else []
  }

  /** The applications of a list of entries, in their order. */
  function Applications(entries: seq<Json>): seq<Json> {
    Select(entries, Kept, AppOf)
  }

  /** The entries extractApplications walks: the `resources` field of an object that has one,
      or the node itself; nothing unless that is an array. */
  function Entries(resources: Option<Json>): (r: seq<Json>)
    ensures resources.None? || resources.value == JNull ==> r == []
    ensures resources.Some? && resources.value.JArr? ==> r == resources.value.items
    ensures resources.Some? && Has(resources.value, "resources") && resources.value.fields["resources"].JArr? ==>
      r == resources.value.fields["resources"].items
  {
    if resources.None? || resources.value == JNull then []
    else
      var listNode := if Has(resources.value, "resources") then Get(resources.value, "resources") else resources;
      if listNode.None? || !listNode.value.JArr? then [] else listNode.value.items
  }

  /** extractApplications: a new array of the application nodes of the entries, in order. */
  method ExtractApplications(resources: Option<Json>) returns (r: Json)
    ensures r == JArr(Applications(Entries(resources)))
  {
    var applications: seq<Json> := [];
    if resources.None? || resources.value == JNull {
      return JArr(applications);
    }
    var listNode := resources;
    if Has(resources.value, "resources") {
      listNode := Get(resources.value, "resources");
    }
    if listNode.None? || !listNode.value.JArr? {
      return JArr(applications);
    }
    var items := listNode.value.items;
    var i := 0;
    while i < |items|
      invariant i <= |items|
      invariant applications == Applications(items[..i])
    {
      var entry := items[i];
      assert items[..i + 1][..i] == items[..i];
      if IsApplicationResource(entry) {
        var uri := TextValue(Get(entry, "uri"));
        if uri.Some? && !IsBlank(uri.value) {
          var name := TextValue(Get(entry, "name"));
          applications := applications + [AppNode(name, uri.value)];
        }
      }
      i := i + 1;
    }
    assert items[..i] == items;
    r := JArr(applications);
  }

  /** Selecting from two lists one after the other selects from each, in that order. */
  lemma {:induction false} SelectAppend<T, U>(a: seq<T>, b: seq<T>, keep: T -> bool, convert: T -> U)
    ensures Select(a + b, keep, convert) == Select(a, keep, convert) + Select(b, keep, convert)
    decreases |b|
  {
    if b == [] {
      assert a + b == a;
    } else {
      var init := b[..|b| - 1];
      assert (a + b)[..|a + b| - 1] == a + init;
      assert (a + b)[|a + b| - 1] == b[|b| - 1];
      SelectAppend(a, init, keep, convert);
    }
  }

  /** An element is selected exactly when it is the conversion of some element that passes. */
  lemma {:induction false} SelectMembers<T, U>(s: seq<T>, keep: T -> bool, convert: T -> U, x: U)
    ensures x in Select(s, keep, convert) <==> exists e :: e in s && keep(e) && x == convert(e)
    decreases |s|
  {
    if s != [] {
      var init := s[..|s| - 1];
      var last := s[|s| - 1];
      SelectMembers(init, keep, convert, x);
      assert s == init + [last];
      if x in Select(s, keep, convert) && x !in Select(init, keep, convert) {
        assert last in s && keep(last) && x == convert(last);
      }
      if exists e :: e in s && keep(e) && x == convert(e) {
        var e :| e in s && keep(e) && x == convert(e);
        if e != last {
          assert e in init;
        }
      }
    }
  }

  lemma {:induction false} SelectLength<T, U>(s: seq<T>, keep: T -> bool, convert: T -> U)
    ensures |Select(s, keep, convert)| <= |s|
    decreases |s|
  {
    if s != [] {
      SelectLength(s[..|s| - 1], keep, convert);
    }
  }

  /** The applications of two lists one after the other are those of each, in that order. */
  lemma ApplicationsAppend(a: seq<Json>, b: seq<Json>)
    ensures Applications(a + b) == Applications(a) + Applications(b)
  {
    SelectAppend(a, b, Kept, AppOf);
  }

  /** A node is among the applications exactly when some kept entry gives it. */
  lemma ApplicationsMembers(entries: seq<Json>, x: Json)
    ensures x in Applications(entries) <==> exists e :: e in entries && Kept(e) && x == AppOf(e)
  {
    SelectMembers(entries, Kept, AppOf, x);
  }

  /** Every application has a non-blank uri, and a name only when that name is non-blank. */
  lemma ApplicationsWellFormed(entries: seq<Json>)
    ensures |Applications(entries)| <= |entries|
    ensures forall x :: x in Applications(entries) ==>
      && x.JObj? && "uri" in x.fields && x.fields["uri"].JStr? && !IsBlank(x.fields["uri"].s)
      && ("name" in x.fields ==> x.fields["name"].JStr? && !IsBlank(x.fields["name"].s))
  {
    SelectLength(entries, Kept, AppOf);
    forall x | x in Applications(entries)
      ensures x.JObj? && "uri" in x.fields && x.fields["uri"].JStr? && !IsBlank(x.fields["uri"].s)
      ensures "name" in x.fields ==> x.fields["name"].JStr? && !IsBlank(x.fields["name"].s)
    {
      ApplicationsMembers(entries, x);
    }
  }

  // ---------------------------------------------------------------- initialize and facets

  /** updateConfigSchemaFromInitialize: a server with dynamic configuration takes the
      `configSchema` its initialize result announces, when that is present; nothing else
      changes. */
  function WithInitializeSchema(config: ServerConfig, initialize: Option<Json>): (r: ServerConfig)
    ensures r == config.(configSchema := r.configSchema)
    ensures config.supportsDynamicConfig && initialize.Some? && Present(Get(initialize.value, "configSchema")) ==>
      r.configSchema == Get(initialize.value, "configSchema")
    ensures !(config.supportsDynamicConfig && initialize.Some? && Present(Get(initialize.value, "configSchema"))) ==>
      r == config
  {
    if !config.supportsDynamicConfig || initialize.None? then config
    else
      var schema := Get(initialize.value, "configSchema");
      if schema.Some? && schema.value != JNull then config.(configSchema := schema) else config
  }

  /** Recording the same initialize result twice records it once. */
  lemma WithInitializeSchemaIdempotent(config: ServerConfig, initialize: Option<Json>)
    ensures WithInitializeSchema(WithInitializeSchema(config, initialize), initialize) == WithInitializeSchema(config, initialize)
  {
  }

  /** The three facets a session lists. */
  datatype Facet = Tools | Resources | Prompts

  /** Whether the configuration marks the facet supported. */
  function Supports(config: ServerConfig, facet: Facet): bool {
    match facet
    case Tools => config.supportsTools
    case Resources => config.supportsResources
    case Prompts => config.supportsPrompts
  }

  /** The listing of a facet and the configuration it marked. */
  datatype Listing = Listing(result: Option<Json>, config: ServerConfig)

  /** safeList: the facet is marked supported and its result returned when the list call
      completes, and marked unsupported with null returned when it fails or times out. */
  function SafeList(outcome: Completion, config: ServerConfig, facet: Facet): (r: Listing)
    ensures r.result.Some? <==> outcome.Done?
    ensures outcome.Done? ==> r.result == Some(outcome.value)
    ensures Supports(r.config, facet) <==> outcome.Done?
    ensures forall other :: other != facet ==> Supports(r.config, other) == Supports(config, other)
    ensures r.config.(supportsTools := config.supportsTools, supportsResources := config.supportsResources,
                      supportsPrompts := config.supportsPrompts) == config
  {
    var supported := outcome.Done?;
    var marked := match facet
      case Tools => config.(supportsTools := supported)
      case Resources => config.(supportsResources := supported)
      case Prompts => config.(supportsPrompts := supported);
    Listing(if supported then Some(outcome.value) else None, marked)
  }

  /** parseJson: a missing or blank text is an empty object; otherwise the text as Jackson
      reads it, None standing for the exception it throws and that is passed on. */
  function ParseJson(codec: Codec, json: Option<string>): (r: Option<Json>)
    ensures json.None? || IsBlank(json.value) ==> r == Some(JObj(map[]))
    ensures json.Some? && !IsBlank(json.value) ==> r == codec.parse(json.value)
  {
    if json.None? || IsBlank(json.value) then Some(JObj(map[])) else codec.parse(json.value)
  }

  // ---------------------------------------------------------------- updateServer

  /** The body of an update request; null fields are None. */
  datatype UpdateRequest = UpdateRequest(
    name: Option<string>,
    description: Option<string>,
    command: Option<string>,
    cwd: Option<string>,
    framing: Option<string>,
    transport: Option<string>,
    httpUrl: Option<string>,
    httpMessageUrl: Option<string>,
    httpHeaders: Option<map<string, string>>,
    env: Option<map<string, string>>,
    supportsDynamicConfig: Option<bool>,
    allowPolicy: Option<bool>,
    configuration: Option<Json>)

  /** The request that changes nothing but can still rename. */
  const EmptyRequest := UpdateRequest(None, None, None, None, None, None, None, None, None, None, None, None, None)

  /** The name after an update: the trimmed request name when it is non-blank, else the old one. */
  function NewName(config: ServerConfig, request: UpdateRequest): (r: Option<string>)
    ensures request.name.Some? && !IsBlank(request.name.value) ==> r == Some(Trim(request.name.value))
    ensures request.name.None? || IsBlank(request.name.value) ==> r == config.name
  {
    if request.name.Some? && !IsBlank(request.name.value) then Some(Trim(request.name.value)) else config.name
  }

  /** `if (value != null) field = value` for a nullable field. */
  function Override<T>(value: Option<T>, current: Option<T>): (r: Option<T>)
    ensures r.Some? ==> r == value || r == current
    ensures value.Some? ==> r == value
    ensures value.None? ==> r == current
  {
    if value.Some? then value else current
  }

  /** The same for a field that is never null. */
  function OverrideValue<T>(value: Option<T>, current: T): (r: T)
    ensures value.Some? ==> r == value.value
    ensures value.None? ==> r == current
  {
    if value.Some? then value.value else current
  }

  /** The configuration after the two steps of the update that touch it: a non-null
      supportsDynamicConfig brings the request's configuration, even a null one; otherwise a
      non-null request configuration replaces it. */
  function ConfigurationAfter(config: ServerConfig, request: UpdateRequest): (r: Option<Json>)
    ensures r == if request.supportsDynamicConfig.Some? || request.configuration.Some? then request.configuration
                 else config.configuration
  {
    var afterFlag := if request.supportsDynamicConfig.Some? then request.configuration else config.configuration;
    if request.supportsDynamicConfig.None? && request.configuration.Some? then request.configuration else afterFlag
  }

  /** The configuration after the field-by-field update: the new name, every non-null request
      field, and the configuration rule for dynamic configuration. */
  function Merged(config: ServerConfig, request: UpdateRequest, name: Option<string>): (r: ServerConfig)
    ensures r.name == name
    ensures r.id == config.id && r.savedInputs == config.savedInputs && r.configSchema == config.configSchema
    ensures r.supportsTools == config.supportsTools && r.supportsResources == config.supportsResources
    ensures r.supportsPrompts == config.supportsPrompts
    ensures request.description.Some? ==> r.description == request.description
    ensures request.description.None? ==> r.description == config.description
    ensures r.configuration == ConfigurationAfter(config, request)
  {
    ServerConfig(
      config.id,
      name,
      Override(request.description, config.description),
      Override(request.command, config.command),
      Override(request.cwd, config.cwd),
      Override(request.framing, config.framing),
      Override(request.transport, config.transport),
      Override(request.httpUrl, config.httpUrl),
      Override(request.httpMessageUrl, config.httpMessageUrl),
      OverrideValue(request.httpHeaders, config.httpHeaders),
      config.supportsTools,
      config.supportsResources,
      config.supportsPrompts,
      OverrideValue(request.supportsDynamicConfig, config.supportsDynamicConfig),
      OverrideValue(request.allowPolicy, config.allowPolicy),
      config.configSchema,
      ConfigurationAfter(config, request),
      OverrideValue(request.env, config.env),
      config.savedInputs)
  }

  /** A request without fields changes only the name. */
  lemma MergedEmpty(config: ServerConfig, name: Option<string>)
    ensures Merged(config, EmptyRequest, name) == config.(name := name)
  {
  }

  /** Applying the same request twice is applying it once. */
  lemma MergedIdempotent(config: ServerConfig, request: UpdateRequest, name: Option<string>)
    ensures Merged(Merged(config, request, name), request, name) == Merged(config, request, name)
  {
  }

  /** The name an update leaves derives the same id as the request name it was given. */
  lemma NewNameKeepsId(config: ServerConfig, request: UpdateRequest)
    requires request.name.Some? && !IsBlank(request.name.value)
    ensures ServerNames.ToId(NewName(config, request)) == ServerNames.ToId(request.name)
  {
    TrimmedNameKeepsId(request.name.value);
  }

  /** What an update does with the stored configuration of `serverName`. */
  datatype Update =
    | Refused(message: string)
    | SaveUnder(config: ServerConfig)
    | RenameTo(newId: string, config: ServerConfig)

  /** The decisions of updateServer once the configuration is found. */
  function PlanUpdate(serverName: string, config: ServerConfig, request: UpdateRequest, running: bool): Update {
    var name := NewName(config, request);
    var newId := ServerNames.ToId(name);
    if newId == "" then Refused("Invalid server name")
    else if newId != serverName && running then Refused("Stop the server before renaming")
    else if newId == serverName then SaveUnder(Merged(config, request, name))
    else RenameTo(newId, Merged(config, request, name))
  }

  /** An update without a usable name keeps a configuration whose name derives its id under
      that id, running or not. */
  lemma UpdateWithoutNameSaves(serverName: string, config: ServerConfig, request: UpdateRequest, running: bool)
    requires request.name.None? || IsBlank(request.name.value)
    requires serverName != "" && ServerNames.ToId(config.name) == serverName
    ensures PlanUpdate(serverName, config, request, running) == SaveUnder(Merged(config, request, config.name))
  {
  }

  /** Whatever an update keeps, it keeps under the configuration's own id. */
  lemma PlanKeepsId(serverName: string, config: ServerConfig, request: UpdateRequest, running: bool)
    requires config.id == Some(serverName)
    ensures !PlanUpdate(serverName, config, request, running).Refused? ==>
      PlanUpdate(serverName, config, request, running).config.id == Some(serverName)
  {
  }

  class McpResource {
    const repository: ServerRepository
    const sessions: ServerSessions

    constructor (repository: ServerRepository, sessions: ServerSessions)
      ensures this.repository == repository && this.sessions == sessions
    {
      this.repository := repository;
      this.sessions := sessions;
    }

    /** updateServer: the stored configuration of `serverName` takes the request's fields and
        is saved, or renamed when its name now derives another id. The configuration is changed
        in the cache before the rename, so a refused rename leaves the cached configuration
        updated but its file as it was. */
    method UpdateServer(serverName: string, request: UpdateRequest) returns (r: Result<ServerConfig>)
      requires repository.Valid()
      modifies repository
      ensures repository.Valid()
      ensures serverName !in old(repository.cache) ==>
        r == Err("No value present") && repository.cache == old(repository.cache) && repository.files == old(repository.files)
      ensures serverName in old(repository.cache) ==>
        Applied(serverName, PlanUpdate(serverName, old(repository.cache)[serverName], request, old(sessions.IsRunning(serverName))), r)
      ensures r.Ok? ==>
        && r.value.id.Some? && r.value.id.value != ""
        && r.value.id.value in repository.cache && repository.cache[r.value.id.value] == r.value
        && r.value.id.value in repository.files
        && ServerNames.ToId(r.value.name) == r.value.id.value
    {
      var found := repository.Get(serverName);
      if found.None? {
        return Err("No value present");
      }
      // isBlank on the derived id: an id has no whitespace, so it is blank exactly when it is
      // empty (SlugBlank).
      var plan := PlanUpdate(serverName, found.value, request, sessions.IsRunning(serverName));
      PlanKeepsId(serverName, found.value, request, sessions.IsRunning(serverName));
      r := Apply(serverName, plan);
    }

    /** The repository after an update's plan was carried out, and what it returned: a refusal
        changes nothing; a save stores the merged configuration; a rename first stores it under
        the old id, then moves it to the new id unless a file already holds that id. */
    twostate predicate Applied(serverName: string, plan: Update, new r: Result<ServerConfig>)
      reads repository
    {
      match plan
      case Refused(message) =>
        r == Err(message) && repository.cache == old(repository.cache) && repository.files == old(repository.files)
      case SaveUnder(merged) =>
        && r == Ok(merged)
        && repository.cache == old(repository.cache)[serverName := merged]
        && repository.files == old(repository.files) + {serverName}
      case RenameTo(newId, merged) =>
        if newId in old(repository.files) then
          && r == Err("Server name already exists")
          && repository.cache == old(repository.cache)[serverName := merged]
          && repository.files == old(repository.files)
        else
          && r == Ok(merged.(id := Some(newId)))
          && repository.cache == (old(repository.cache)[serverName := merged] - {serverName})[newId := r.value]
          && repository.files == (old(repository.files) + {newId}) - {serverName}
    }

    /** The end of updateServer: the fields are assigned on the cached configuration itself,
        which is then saved or renamed. */
    method Apply(serverName: string, plan: Update) returns (r: Result<ServerConfig>)
      requires repository.Valid()
      requires !plan.Refused? ==> plan.config.id == Some(serverName)
      modifies repository
      ensures repository.Valid()
      ensures Applied(serverName, plan, r)
    {
      match plan
      case Refused(message) =>
        r := Err(message);
      case SaveUnder(merged) =>
        repository.cache := repository.cache[serverName := merged];
        r := repository.Save(Some(merged));
      case RenameTo(newId, merged) =>
        repository.cache := repository.cache[serverName := merged];
        r := repository.Rename(serverName, newId, merged);
    }
  }
}
