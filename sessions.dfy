/** The session table: at most one live session per server id, created on demand from the
    stored configuration over the transport it names, removed by stop and by the exit of its
    process; and one log stream per server id, created once and kept for good.

    Spawning a process is outside the model: `start` is handed the outcome of parsing the
    command line and starting the process (a `Launch`), and a process is an object whose
    liveness the operating system decides. Each published log line begins with a timestamp
    from the clock; it is passed in as `stamp`. */
module Sessions {
  import opened Wrappers
  import opened Text
  import opened Json
  import opened Wire
  import opened Config
  import opened Repository
  import opened Logs
  import SseClient

  // ---------------------------------------------------------------- transport and framing

  /** The transport a configuration's `transport` names, as start and createHttpClient read it. */
  datatype Transport = SseTransport | StreamableTransport | UnsupportedTransport | StdioTransport

  /** start's choice: "sse" or "streamable" (ignoring case) is HTTP, "sse" taking the SSE
      client; any other non-blank name but "stdio" is unsupported; the rest spawn a process. */
  function SelectTransport(transport: Option<string>): (r: Transport)
    ensures r == SseTransport <==> transport.Some? && EqualsIgnoreCase("sse", transport.value)
    ensures r == StreamableTransport <==>
      transport.Some? && !EqualsIgnoreCase("sse", transport.value) && EqualsIgnoreCase("streamable", transport.value)
    ensures r == UnsupportedTransport <==>
      transport.Some? && !IsBlank(transport.value)
      && !EqualsIgnoreCase("sse", transport.value) && !EqualsIgnoreCase("streamable", transport.value)
      && !EqualsIgnoreCase("stdio", transport.value)
  {
    if transport.Some? && EqualsIgnoreCase("sse", transport.value) then SseTransport
    else if transport.Some? && EqualsIgnoreCase("streamable", transport.value) then StreamableTransport
    else if transport.Some? && !IsBlank(transport.value) && !EqualsIgnoreCase("stdio", transport.value) then UnsupportedTransport
    else StdioTransport
  }

  /** A missing or blank transport, and "stdio" in any case, spawn a process. */
  lemma StdioSelected(transport: Option<string>)
    requires transport.None? || IsBlank(transport.value) || EqualsIgnoreCase("stdio", transport.value)
    ensures SelectTransport(transport) == StdioTransport
  {
    if transport.Some? && IsBlank(transport.value) {
      var t := transport.value;
      if |t| == |"sse"| {
        assert ToLowerAscii(t)[0] != 's';
      }
      if |t| == |"streamable"| {
        assert ToLowerAscii(t)[0] != 's';
      }
    }
    if transport.Some? && EqualsIgnoreCase("stdio", transport.value) {
      assert ToLowerAscii("stdio")[1] != ToLowerAscii("sse")[1];
      assert |"stdio"| != |"streamable"|;
    }
  }

  /** The choice ignores ASCII case. */
  lemma {:induction false} SelectTransportIgnoresCase(t: string)
    ensures SelectTransport(Some(ToLowerAscii(t))) == SelectTransport(Some(t))
  {
    var lower := ToLowerAscii(t);
    assert ToLowerAscii(lower) == lower;
    forall i | 0 <= i < |t| ensures IsWhitespace(lower[i]) <==> IsWhitespace(t[i]) {
    }
  }

  /** toFraming: trimmed and lower-cased, "content-length" selects Content-Length framing;
      null and every other value select NDJSON. Lower-casing only ASCII letters is exact here:
      no other character lower-cases into one of the letters of "content-length". */
  function ToFraming(framing: Option<string>): (r: Framing)
    ensures r == ContentLength <==> framing.Some? && ToLowerAscii(Trim(framing.value)) == "content-length"
  {
    if framing.None? then Ndjson
    else if ToLowerAscii(Trim(framing.value)) == "content-length" then ContentLength
    else Ndjson
  }

  /** The name a configuration gives each framing. */
  function FramingName(framing: Framing): string {
    match framing
    case Ndjson => "ndjson"
    case ContentLength => "content-length"
  }

  /** Each framing's name selects that framing, so the default "ndjson" is NDJSON. */
  lemma FramingNameSelects(framing: Framing)
    ensures ToFraming(Some(FramingName(framing))) == framing
  {
    var name := FramingName(framing);
    FramingNameTrimmed(name);
    if framing == Ndjson {
      assert ToLowerAscii(name)[0] == 'n';
    } else {
      FramingNameLower(name);
    }
  }

  lemma FramingNameTrimmed(name: string)
    requires name == "ndjson" || name == "content-length"
    ensures Trim(name) == name
  {
    assert TrimStart(name) == name;
    assert TrimEnd(name) == name;
  }

  lemma FramingNameLower(name: string)
    requires name == "content-length"
    ensures ToLowerAscii(name) == name
  {
    var r := ToLowerAscii(name);
    assert forall i :: 0 <= i < |name| ==> r[i] == name[i];
  }

  // ---------------------------------------------------------------- processes and sessions

  /** A spawned server process. Whether it is alive is the operating system's business;
      destroy asks it to terminate. */
  class OsProcess {
    var alive: bool
    var destroyRequested: bool

    constructor ()
      ensures alive && !destroyRequested
    {
      alive := true;
      destroyRequested := false;
    }

    method Destroy()
      modifies this`destroyRequested
      ensures destroyRequested
    {
      destroyRequested := true;
    }
  }

  /** How the process of a stdio server came about: parsing the command line threw (null or
      empty command) with the given message, starting the process threw an IOException, or the
      process is running. */
  datatype Launch = CommandRejected(message: string) | StartFailed | Started(process: OsProcess)

  /** The client a session talks through, with what it was constructed from. */
  datatype Client =
    | Stdio(framing: Framing)
    | Sse(url: string, messageUrl: Option<string>, headers: map<string, string>)
    | Streamable(url: string, headers: map<string, string>)

  /** The exception the HTTP clients' URI.create(null) throws for a configuration without a
      URL. Its message is not part of this model; this text stands for it. */
  const NullUrlFailure: string := "NullPointerException"

  /** An HTTP transport: start opens the session without a process. */
  predicate IsHttp(config: ServerConfig) {
    SelectTransport(config.transport) in {SseTransport, StreamableTransport}
  }

  /** createHttpClient: the SSE client for "sse", the streamable HTTP client otherwise. Either
      constructor throws where URI.create rejects what it parses: without a URL, the null; the
      streamable client parses its URL, the SSE client what `SseClient.ConstructorFailure`
      says. `uri` is the parse of the URL. */
  function HttpClient(config: ServerConfig, uri: SseClient.Uri, codec: Codec): (r: Result<Client>)
    ensures config.httpUrl.None? ==> r == Err(NullUrlFailure)
    ensures config.httpUrl.Some? && codec.uriError(config.httpUrl.value).Some? ==>
      r == Err(codec.uriError(config.httpUrl.value).value)
    ensures config.httpUrl.Some? && !EqualsIgnoreCase("sse", config.transport.GetOr("")) ==>
      (r.Ok? <==> codec.uriError(config.httpUrl.value).None?)
    ensures r.Ok? ==> config.httpUrl.Some? && codec.uriError(config.httpUrl.value).None?
    ensures r.Ok? ==> (r.value.Sse? <==> EqualsIgnoreCase("sse", config.transport.GetOr("")))
    ensures r.Ok? ==> !r.value.Stdio? && r.value.url == config.httpUrl.value && r.value.headers == config.httpHeaders
    ensures r.Ok? && r.value.Sse? ==> r.value.messageUrl == config.httpMessageUrl
  {
    if config.httpUrl.None? then Err(NullUrlFailure)
    else if config.transport.Some? && EqualsIgnoreCase("sse", config.transport.value) then
      match SseClient.ConstructorFailure(config.httpUrl.value, config.httpMessageUrl, uri, codec)
      case Some(message) => Err(message)
      case None => Ok(Sse(config.httpUrl.value, config.httpMessageUrl, config.httpHeaders))
    else
      match codec.uriError(config.httpUrl.value)
      case Some(message) => Err(message)
      case None => Ok(Streamable(config.httpUrl.value, config.httpHeaders))
  }

  /** What a client's constructor logs: only the SSE client logs, its message endpoint. */
  function ClientLog(client: Client, uri: SseClient.Uri): seq<string> {
    match client
    case Sse(url, messageUrl, _) => SseClient.ConstructorLog(url, messageUrl, uri)
    case _ => []
  }

  /** Client messages as the session's log sink publishes them: each after the timestamp. */
  function Stamped(stamp: string, messages: seq<string>): (r: seq<string>)
    ensures |r| == |messages|
    ensures forall i :: 0 <= i < |messages| ==> r[i] == stamp + " " + messages[i]
  {
    seq(|messages|, i requires 0 <= i < |messages| => stamp + " " + messages[i])
  }

  /** One server's session: what it was started with never changes; whether it is connected and
      what the server reported are set by its users. */
  class ServerSession {
    const config: ServerConfig
    const process: OsProcess?
    const client: Client
    const logStream: LogBroadcaster
    var connected: bool
    var capabilities: Option<Json>
    var rawInitialize: Option<Json>
    var tools: Option<Json>
    var resources: Option<Json>
    var prompts: Option<Json>

    constructor (config: ServerConfig, process: OsProcess?, client: Client, logStream: LogBroadcaster)
      ensures this.config == config && this.process == process && this.client == client && this.logStream == logStream
      ensures !connected
      ensures capabilities.None? && rawInitialize.None? && tools.None? && resources.None? && prompts.None?
    {
      this.config := config;
      this.process := process;
      this.client := client;
      this.logStream := logStream;
      connected := false;
      capabilities := None;
      rawInitialize := None;
      tools := None;
      resources := None;
      prompts := None;
    }

    /** isRunning: connected, and when there is a process, that process alive. */
    predicate IsRunning()
      reads this, process
      ensures IsRunning() ==> connected
      ensures process != null && !process.alive ==> !IsRunning()
      ensures process == null ==> (IsRunning() <==> connected)
    {
      if process == null then connected else process.alive && connected
    }
  }

  // ---------------------------------------------------------------- log lines and eviction

  /** The exit watcher's eviction as written: whatever session is stored under the id when the
      process exits is removed. */
  function EvictOnExitAsWritten(sessions: map<string, ServerSession>, id: string): (r: map<string, ServerSession>)
    ensures id !in r && forall k :: k in sessions && k != id ==> k in r && r[k] == sessions[k]
  {
    sessions - {id}
  }

  /** The watcher of a stopped session that exits after the server was started again evicts
      the new session, whose process is still running and now has no session. */
  lemma EvictOnExitAsWrittenDropsNewer(sessions: map<string, ServerSession>, id: string, exited: OsProcess)
    requires id in sessions && sessions[id].process != exited
    ensures id !in EvictOnExitAsWritten(sessions, id)
    ensures EvictOnExitAsWritten(sessions, id) != sessions
  {
    assert id in sessions && id !in EvictOnExitAsWritten(sessions, id);
  }

  /** The eviction the watcher means: the session goes only if it is the one whose process
      exited. */
  function EvictOnExit(sessions: map<string, ServerSession>, id: string, exited: OsProcess): (r: map<string, ServerSession>)
    ensures id in sessions && sessions[id].process == exited ==> r == EvictOnExitAsWritten(sessions, id)
    ensures (id in sessions ==> sessions[id].process != exited) ==> r == sessions
  {
    if id in sessions && sessions[id].process == exited then sessions - {id} else sessions
  }

  /** A process's exit never takes away a session with another process, and after it no
      session of that process remains under the id. */
  lemma EvictOnExitKeepsOthers(sessions: map<string, ServerSession>, id: string, exited: OsProcess)
    ensures forall k :: k in sessions && sessions[k].process != exited ==> k in EvictOnExit(sessions, id, exited)
    ensures id in EvictOnExit(sessions, id, exited) ==> EvictOnExit(sessions, id, exited)[id].process != exited
    ensures EvictOnExit(sessions, id, exited).Keys <= sessions.Keys
  {
  }

  // ---------------------------------------------------------------- opening a session

  /** What a new session is opened with: its client, its process (none over HTTP) and the
      lines published on its log stream, the client constructor's first and the line that logs
      the session's start last. */
  datatype Opening = Opening(client: Client, process: OsProcess?, lines: seq<string>)

  /** The body of start's computeIfAbsent for a configuration: HTTP transports open a session
      without a process unless constructing the client throws, unsupported ones fail, and the
      rest open a session on the launched process unless launching it failed. `uri` is the
      parse of the configuration's URL, from which the SSE client derives its fallback
      endpoint. */
  function Plan(config: ServerConfig, stamp: string, launch: Launch, uri: SseClient.Uri, codec: Codec): (r: Result<Opening>)
    ensures r.Ok? && r.value.process == null <==> IsHttp(config) && HttpClient(config, uri, codec).Ok?
    ensures r.Ok? && r.value.process != null <==> SelectTransport(config.transport) == StdioTransport && launch.Started?
    ensures r.Ok? && r.value.process != null ==>
      r.value.process == launch.process && r.value.client == Stdio(ToFraming(config.framing))
      && r.value.lines == [stamp + " started server " + NullText(config.command)]
    ensures r.Ok? && r.value.process == null ==>
      && HttpClient(config, uri, codec) == Ok(r.value.client)
      && r.value.lines ==
        (if r.value.client.Sse? then Stamped(stamp, SseClient.ConstructorLog(config.httpUrl.value, config.httpMessageUrl, uri)) else [])
          + [stamp + " created http session " + config.httpUrl.value]
    ensures r.Err? ==>
      if SelectTransport(config.transport) == UnsupportedTransport then r.error == "Unsupported transport: " + config.transport.value
      else if IsHttp(config) then HttpClient(config, uri, codec) == Err(r.error)
      else r.error == if launch.CommandRejected? then launch.message else "Failed to start server"
  {
    match SelectTransport(config.transport)
    case SseTransport | StreamableTransport =>
      (match HttpClient(config, uri, codec)
       case Err(message) => Err(message)
       case Ok(client) =>
         Ok(Opening(client, null, Stamped(stamp, ClientLog(client, uri)) + [stamp + " created http session " + config.httpUrl.value])))
    case UnsupportedTransport =>
      Err("Unsupported transport: " + config.transport.value)
    case StdioTransport =>
      match launch
      case CommandRejected(message) => Err(message)
      case StartFailed => Err("Failed to start server")
      case Started(process) =>
        Ok(Opening(Stdio(ToFraming(config.framing)), process, [stamp + " started server " + NullText(config.command)]))
  }

  /** An HTTP session does not depend on how a process would have been launched. */
  lemma HttpPlanIgnoresLaunch(config: ServerConfig, stamp: string, launch: Launch, other: Launch, uri: SseClient.Uri, codec: Codec)
    requires SelectTransport(config.transport) != StdioTransport
    ensures Plan(config, stamp, launch, uri, codec) == Plan(config, stamp, other, uri, codec)
  {
  }

  /** A URL that URI.create rejects fails the start of an HTTP session with that exception,
      whichever HTTP client the configuration selects. */
  lemma RejectedUrlFailsStart(config: ServerConfig, stamp: string, launch: Launch, uri: SseClient.Uri, codec: Codec)
    requires IsHttp(config) && config.httpUrl.Some? && codec.uriError(config.httpUrl.value).Some?
    ensures Plan(config, stamp, launch, uri, codec) == Err(codec.uriError(config.httpUrl.value).value)
  {
  }

  /** A session as opened: with the configuration it was started from, the client and process
      of its opening, and not yet connected. */
  ghost predicate Opened(session: ServerSession, config: ServerConfig, opening: Opening)
    reads session
  {
    && session.config == config && session.process == opening.process && session.client == opening.client
    && !session.connected
  }

  // ---------------------------------------------------------------- the session table

  class ServerSessions {
    const repository: ServerRepository
    /** The live sessions by server id. */
    var sessions: map<string, ServerSession>
    /** The log streams by server id. */
    var logStreams: map<string, LogBroadcaster>

    /** Every log stream is consistent and belongs to one id, and every session publishes to
        the log stream of its id. */
    ghost predicate Valid()
      reads this, logStreams.Values
    {
      StreamsValid() && forall id :: id in sessions ==> id in logStreams && sessions[id].logStream == logStreams[id]
    }

    /** Every log stream is consistent and belongs to one id. */
    ghost predicate StreamsValid()
      reads this`logStreams, logStreams.Values
    {
      && (forall id {:trigger logStreams[id].Valid()} :: id in logStreams ==> logStreams[id].Valid())
      && (forall i, j :: i in logStreams && j in logStreams && i != j ==> logStreams[i] != logStreams[j])
    }

    /** Every line published so far on the id's log stream; none before it exists. */
    ghost function LogOf(serverId: string): seq<string>
      reads this`logStreams, logStreams.Values
    {
      if serverId in logStreams then logStreams[serverId].published else []
    }

    /** Only the log of `serverId` changed since `before`, by the lines `lines`. */
    twostate predicate Logged(serverId: string, lines: seq<string>)
      reads this`logStreams, logStreams.Values
    {
      && LogOf(serverId) == old(LogOf(serverId)) + lines
      && forall id :: id != serverId ==> LogOf(id) == old(LogOf(id))
    }

    /** No log changed. */
    twostate predicate LogsUnchanged()
      reads this`logStreams, logStreams.Values
    {
      forall id :: LogOf(id) == old(LogOf(id))
    }

    constructor (repository: ServerRepository)
      ensures Valid() && this.repository == repository
      ensures sessions == map[] && logStreams == map[]
    {
      this.repository := repository;
      sessions := map[];
      logStreams := map[];
    }

    /** logStreamFor: the id's log stream, created empty the first time it is asked for and the
        same object every time after. */
    method LogStreamFor(serverId: string) returns (r: LogBroadcaster)
      requires Valid()
      modifies this`logStreams
      ensures Valid()
      ensures serverId in old(logStreams) ==> r == old(logStreams)[serverId] && logStreams == old(logStreams)
      ensures serverId !in old(logStreams) ==> fresh(r) && logStreams == old(logStreams)[serverId := r]
      ensures LogsUnchanged()
    {
      if serverId in logStreams {
        r := logStreams[serverId];
      } else {
        r := new LogBroadcaster();
        logStreams := logStreams[serverId := r];
      }
    }

    /** Publishes a line on the id's log stream. */
    method PublishTo(serverId: string, line: string)
      requires Valid() && serverId in logStreams
      modifies logStreams[serverId]
      ensures Valid()
      ensures Logged(serverId, [line])
    {
      var stream := logStreams[serverId];
      stream.Publish(line);
      forall id | id in logStreams && id != serverId
        ensures logStreams[id].Valid() && logStreams[id].published == old(logStreams[id].published)
      {
        assert logStreams[id] != stream;
      }
    }

    /** start: the session already under the id, or else a new one opened as `Plan` says for
        the id's configuration. An unknown id and every failure of `Plan` leave the table and
        the logs as they were; an HTTP client that fails to construct fails only after the id's
        log stream was asked for, so that stream then exists, with no line. */
    method Start(serverId: string, stamp: string, launch: Launch, uri: SseClient.Uri, codec: Codec) returns (r: Result<ServerSession>)
      requires Valid()
      modifies this`sessions, this`logStreams, logStreams.Values
      ensures Valid()
      ensures serverId in old(sessions) ==>
        r == Ok(old(sessions)[serverId]) && sessions == old(sessions) && logStreams == old(logStreams) && LogsUnchanged()
      ensures serverId !in old(sessions) && serverId !in repository.cache ==>
        r == Err("No value present") && sessions == old(sessions) && logStreams == old(logStreams) && LogsUnchanged()
      ensures serverId !in old(sessions) && serverId in repository.cache ==>
        match Plan(repository.cache[serverId], stamp, launch, uri, codec)
        case Err(message) =>
          && r == Err(message) && sessions == old(sessions) && LogsUnchanged()
          && (!IsHttp(repository.cache[serverId]) ==> logStreams == old(logStreams))
          && (IsHttp(repository.cache[serverId]) ==>
                && serverId in logStreams && logStreams == old(logStreams)[serverId := logStreams[serverId]]
                && (serverId in old(logStreams) ==> logStreams == old(logStreams))
                && (serverId !in old(logStreams) ==> fresh(logStreams[serverId])))
        case Ok(opening) =>
          && r.Ok? && fresh(r.value) && Opened(r.value, repository.cache[serverId], opening)
          && sessions == old(sessions)[serverId := r.value] && r.value.logStream == logStreams[serverId]
          && logStreams.Keys == old(logStreams).Keys + {serverId}
          && (serverId in old(logStreams) ==> logStreams == old(logStreams))
          && (serverId !in old(logStreams) ==>
                fresh(logStreams[serverId]) && logStreams == old(logStreams)[serverId := logStreams[serverId]])
          && Logged(serverId, opening.lines)
    {
      if serverId in sessions {
        return Ok(sessions[serverId]);
      }
      var found := repository.Get(serverId);
      if found.None? {
        return Err("No value present");
      }
      var plan := Plan(found.value, stamp, launch, uri, codec);
      if plan.Err? {
        if IsHttp(found.value) {
          var logStream := LogStreamFor(serverId);
        }
        return Err(plan.error);
      }
      var session := Open(serverId, found.value, plan.value);
      r := Ok(session);
    }

    /** The new session of computeIfAbsent: on the id's log stream (created if need be), not yet
        connected, its opening lines published. */
    method Open(serverId: string, config: ServerConfig, opening: Opening) returns (session: ServerSession)
      requires Valid() && serverId !in sessions
      modifies this`sessions, this`logStreams, logStreams.Values
      ensures Valid()
      ensures fresh(session) && Opened(session, config, opening)
      ensures sessions == old(sessions)[serverId := session] && session.logStream == logStreams[serverId]
      ensures logStreams.Keys == old(logStreams).Keys + {serverId}
      ensures serverId in old(logStreams) ==> logStreams == old(logStreams)
      ensures serverId !in old(logStreams) ==>
        fresh(logStreams[serverId]) && logStreams == old(logStreams)[serverId := logStreams[serverId]]
      ensures Logged(serverId, opening.lines)
    {
      var logStream := LogStreamFor(serverId);
      session := new ServerSession(config, opening.process, opening.client, logStream);
      sessions := sessions[serverId := session];
      assert LogsUnchanged();
      PublishAll(serverId, opening.lines);
    }

    /** Publishes lines on the id's log stream, in order. */
    method PublishAll(serverId: string, lines: seq<string>)
      requires Valid() && serverId in logStreams
      modifies logStreams[serverId]
      ensures Valid()
      ensures Logged(serverId, lines)
    {
      for i := 0 to |lines|
        invariant Valid()
        invariant LogOf(serverId) == old(LogOf(serverId)) + lines[..i]
        invariant forall id :: id != serverId ==> LogOf(id) == old(LogOf(id))
      {
        PublishTo(serverId, lines[i]);
      }
    }

    function Get(serverId: string): (r: Option<ServerSession>)
      reads this
      ensures r.Some? <==> serverId in sessions
      ensures r.Some? ==> r.value == sessions[serverId]
    {
      if serverId in sessions then Some(sessions[serverId]) else None
    }

    /** The objects isRunning looks at for an id: its session and that session's process. */
    function RunningFootprint(serverId: string): set<object>
      reads this
    {
      if serverId !in sessions then {}
      else if sessions[serverId].process == null then {sessions[serverId]}
      else {sessions[serverId], sessions[serverId].process}
    }

    /** isRunning: there is a session and it is running. */
    predicate IsRunning(serverId: string)
      reads this, RunningFootprint(serverId)
      ensures IsRunning(serverId) <==> serverId in sessions && sessions[serverId].IsRunning()
    {
      serverId in sessions && sessions[serverId].IsRunning()
    }

    /** The process of the id's session, if it has one. */
    function ProcessOf(serverId: string): set<OsProcess>
      reads this
    {
      if serverId in sessions && sessions[serverId].process != null then {sessions[serverId].process} else {}
    }

    /** stop: the id's session is removed, "stopping server" logged and its process destroyed;
        without a session nothing happens. The log stream stays. */
    method Stop(serverId: string, stamp: string)
      requires Valid()
      modifies this`sessions, logStreams.Values, ProcessOf(serverId)
      ensures Valid()
      ensures sessions == old(sessions) - {serverId} && logStreams == old(logStreams)
      ensures !IsRunning(serverId)
      ensures serverId in old(sessions) ==>
        Logged(serverId, [stamp + " stopping server"])
        && (old(sessions)[serverId].process != null ==> old(sessions)[serverId].process.destroyRequested)
      ensures serverId !in old(sessions) ==> LogsUnchanged()
    {
      if serverId in sessions {
        var session := sessions[serverId];
        sessions := sessions - {serverId};
        PublishTo(serverId, stamp + " stopping server");
        if session.process != null {
          session.process.Destroy();
        }
      }
    }

    /** The exit watcher of a process started for `serverId`: when the process has exited with
        a code (rather than the watcher being interrupted) the code is logged; then the session
        of that process, and only that one, is evicted. */
    method ProcessExited(serverId: string, process: OsProcess, code: Option<int>, stamp: string)
      requires Valid() && serverId in logStreams
      modifies this`sessions, logStreams[serverId]
      ensures Valid()
      ensures sessions == EvictOnExit(old(sessions), serverId, process) && logStreams == old(logStreams)
      ensures code.Some? ==> Logged(serverId, [stamp + " process exited with code " + IntToString(code.value)])
      ensures code.None? ==> LogsUnchanged()
    {
      if code.Some? {
        PublishTo(serverId, stamp + " process exited with code " + IntToString(code.value));
      }
      sessions := EvictOnExit(sessions, serverId, process);
    }
  }
}
