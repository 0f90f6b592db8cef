/** The configuration store: configurations cached by id over a data directory holding one
    `<id>.json` file per server, and the saved-input lists inside each configuration.
    The directory is represented by the set of ids that have a file; what a file holds is the
    cached configuration of that id. */
module Repository {
  import opened Wrappers
  import opened Text
  import opened Json
  import opened Config
  import ServerNames

  // ---------------------------------------------------------------- defaults

  /** `value == null || value.isBlank() ? fallback : value`. */
  function OrDefault(value: Option<string>, fallback: string): (r: Option<string>)
    ensures r.Some? && !IsBlank(r.value) ==> r == value || r == Some(fallback)
    ensures value.Some? && !IsBlank(value.value) ==> r == value
    ensures value.None? || IsBlank(value.value) ==> r == Some(fallback)
  {
    if value.None? || IsBlank(value.value) then Some(fallback) else value
  }

  /** The defaults applied to a configuration read back from its file: framing "ndjson" and
      transport "stdio" when missing or blank. */
  function ReadDefaults(config: ServerConfig): (r: ServerConfig)
    ensures r.framing.Some? && r.transport.Some?
    ensures r.(framing := config.framing, transport := config.transport) == config
  {
    config.(framing := OrDefault(config.framing, "ndjson"), transport := OrDefault(config.transport, "stdio"))
  }

  /** Reading back a configuration that already has its defaults changes nothing. */
  lemma ReadDefaultsIdempotent(config: ServerConfig)
    ensures ReadDefaults(ReadDefaults(config)) == ReadDefaults(config)
  {
    OrDefaultIdempotent(config.framing, "ndjson");
    OrDefaultIdempotent(config.transport, "stdio");
  }

  // ---------------------------------------------------------------- list order

  /** What list() sorts by: the id, a null id as "". */
  function SortKey(config: ServerConfig): string {
    config.id.GetOr("")
  }

  predicate SortedById(s: seq<ServerConfig>) {
    forall i, j :: 0 <= i < j < |s| ==> AtMost(SortKey(s[i]), SortKey(s[j]))
  }

  /** Some entry of a non-empty map sorts no later than any other. */
  lemma {:induction false} FirstExists(m: map<string, ServerConfig>)
    requires |m| > 0
    ensures exists k :: k in m && forall k' :: k' in m ==> AtMost(SortKey(m[k]), SortKey(m[k']))
    decreases |m|
  {
    var x :| x in m;
    var rest := m - {x};
    assert rest.Keys == m.Keys - {x};
    if |rest| == 0 {
      assert m.Keys == {x};
      AtMostTotal(SortKey(m[x]), SortKey(m[x]));
    } else {
      FirstExists(rest);
      var y :| y in rest && forall k' :: k' in rest ==> AtMost(SortKey(rest[y]), SortKey(rest[k']));
      AtMostTotal(SortKey(m[x]), SortKey(m[y]));
      if AtMost(SortKey(m[x]), SortKey(m[y])) {
        forall k' | k' in m ensures AtMost(SortKey(m[x]), SortKey(m[k'])) {
          if k' != x {
            assert k' in rest && rest[k'] == m[k'];
            AtMostTransitive(SortKey(m[x]), SortKey(m[y]), SortKey(m[k']));
          } else {
            AtMostTotal(SortKey(m[x]), SortKey(m[x]));
          }
        }
      } else {
        forall k' | k' in m ensures AtMost(SortKey(m[y]), SortKey(m[k'])) {
          if k' != x {
            assert k' in rest && rest[k'] == m[k'];
          }
        }
      }
    }
  }

  /** Putting an entry that sorts first in front of the sorted rest sorts the whole map. */
  lemma SortedCons(m: map<string, ServerConfig>, k: string, rest: map<string, ServerConfig>, tail: seq<ServerConfig>)
    requires k in m && rest == m - {k} && forall k' :: k' in m ==> AtMost(SortKey(m[k]), SortKey(m[k']))
    requires |tail| == |rest| && SortedById(tail)
    requires forall k' :: k' in rest ==> rest[k'] in tail
    requires forall i :: 0 <= i < |tail| ==> tail[i] in rest.Values
    ensures |[m[k]] + tail| == |m| && SortedById([m[k]] + tail)
    ensures forall k' :: k' in m ==> m[k'] in [m[k]] + tail
    ensures forall i :: 0 <= i < |[m[k]] + tail| ==> ([m[k]] + tail)[i] in m.Values
  {
    assert rest.Keys == m.Keys - {k};
    RestAfterFirst(m, k, rest, tail);
    AllKept(m, k, rest, tail);
    ConsSorted(m[k], tail);
  }

  /** A configuration that sorts no later than any of a sorted sequence may go in front of it. */
  lemma ConsSorted(first: ServerConfig, tail: seq<ServerConfig>)
    requires SortedById(tail)
    requires forall i :: 0 <= i < |tail| ==> AtMost(SortKey(first), SortKey(tail[i]))
    ensures SortedById([first] + tail)
  {
    var r := [first] + tail;
    forall i, j | 0 <= i < j < |r| ensures AtMost(SortKey(r[i]), SortKey(r[j])) {
      if i > 0 {
        assert r[i] == tail[i - 1] && r[j] == tail[j - 1];
      } else {
        assert r[j] == tail[j - 1];
      }
    }
  }

  /** Every configuration of the rest is one of the map and sorts no earlier than the first. */
  lemma RestAfterFirst(m: map<string, ServerConfig>, k: string, rest: map<string, ServerConfig>, tail: seq<ServerConfig>)
    requires k in m && rest == m - {k} && forall k' :: k' in m ==> AtMost(SortKey(m[k]), SortKey(m[k']))
    requires forall i :: 0 <= i < |tail| ==> tail[i] in rest.Values
    ensures forall i :: 0 <= i < |tail| ==> AtMost(SortKey(m[k]), SortKey(tail[i])) && tail[i] in m.Values
  {
    forall i | 0 <= i < |tail| ensures AtMost(SortKey(m[k]), SortKey(tail[i])) && tail[i] in m.Values {
      assert tail[i] in rest.Values;
      var k2 :| k2 in rest && rest[k2] == tail[i];
      assert k2 in m && m[k2] == tail[i];
    }
  }

  /** The first entry and the sorted rest hold every configuration of the map. */
  lemma AllKept(m: map<string, ServerConfig>, k: string, rest: map<string, ServerConfig>, tail: seq<ServerConfig>)
    requires k in m && rest == m - {k}
    requires forall k' :: k' in rest ==> rest[k'] in tail
    ensures forall k' :: k' in m ==> m[k'] in [m[k]] + tail
  {
    forall k' | k' in m ensures m[k'] in [m[k]] + tail {
      if k' != k {
        assert k' in rest && rest[k'] == m[k'];
      }
    }
  }

  /** The map's configurations sorted by id. Entries with equal keys may come in either order,
      as the hash order of the cache leaves them. */
  ghost function Sorted(m: map<string, ServerConfig>): (r: seq<ServerConfig>)
    ensures |r| == |m|
    ensures SortedById(r)
    ensures forall k :: k in m ==> m[k] in r
    ensures forall i :: 0 <= i < |r| ==> r[i] in m.Values
    decreases |m|
  {
    if |m| == 0 then []
    else
      FirstExists(m);
      var k :| k in m && forall k' :: k' in m ==> AtMost(SortKey(m[k]), SortKey(m[k']));
      var tail := Sorted(m - {k});
      SortedCons(m, k, m - {k}, tail);
      [m[k]] + tail
  }

  // ---------------------------------------------------------------- saved inputs

  /** `savedId.equals(item.id)`. */
  predicate Matches(item: SavedInput, savedId: string) {
    item.id == Some(savedId)
  }

  /** The tool's list with a new item appended, created if absent; other tools untouched. */
  function WithSavedInput(config: ServerConfig, tool: string, item: SavedInput): (r: ServerConfig)
    ensures tool in r.savedInputs && SavedOf(r, tool) == SavedOf(config, tool) + [item]
    ensures forall t :: t != tool ==> (t in r.savedInputs <==> t in config.savedInputs) && SavedOf(r, t) == SavedOf(config, t)
    ensures r.(savedInputs := config.savedInputs) == config
  {
    config.(savedInputs := config.savedInputs[tool := SavedOf(config, tool) + [item]])
  }

  /** `removeIf(item -> savedId.equals(item.id))`: the other items, in their order. */
  function RemoveWithId(items: seq<SavedInput>, savedId: string): (r: seq<SavedInput>)
    ensures |r| <= |items|
    ensures forall x :: x in r ==> x in items && !Matches(x, savedId)
    ensures forall x :: x in items && !Matches(x, savedId) ==> x in r
  {
    if items == [] then []
    else if Matches(items[0], savedId) then RemoveWithId(items[1..], savedId)
    else [items[0]] + RemoveWithId(items[1..], savedId)
  }

  /** Removing from two lists one after the other is removing from their concatenation. */
  lemma {:induction false} RemoveWithIdAppend(a: seq<SavedInput>, b: seq<SavedInput>, savedId: string)
    ensures RemoveWithId(a + b, savedId) == RemoveWithId(a, savedId) + RemoveWithId(b, savedId)
  {
    if a != [] {
      RemoveWithIdAppend(a[1..], b, savedId);
      assert (a + b)[1..] == a[1..] + b;
    } else {
      assert a + b == b;
    }
  }

  /** A list with no matching item is left as it is. */
  lemma {:induction false} RemoveWithIdNone(items: seq<SavedInput>, savedId: string)
    requires forall x :: x in items ==> !Matches(x, savedId)
    ensures RemoveWithId(items, savedId) == items
  {
    if items != [] {
      RemoveWithIdNone(items[1..], savedId);
    }
  }

  /** deleteSavedInput on a configuration: every item with the id goes, and the tool's key goes
      with the last item; an unknown tool leaves the configuration as it was. */
  function WithoutSavedInput(config: ServerConfig, tool: string, savedId: string): (r: ServerConfig)
    ensures SavedOf(r, tool) == RemoveWithId(SavedOf(config, tool), savedId)
    ensures tool !in config.savedInputs ==> r == config
    ensures tool in config.savedInputs ==> (tool in r.savedInputs <==> SavedOf(r, tool) != [])
    ensures forall t :: t != tool ==> (t in r.savedInputs <==> t in config.savedInputs) && SavedOf(r, t) == SavedOf(config, t)
    ensures r.(savedInputs := config.savedInputs) == config
  {
    if tool !in config.savedInputs then config
    else
      var left := RemoveWithId(config.savedInputs[tool], savedId);
      if left == [] then config.(savedInputs := config.savedInputs - {tool})
      else config.(savedInputs := config.savedInputs[tool := left])
  }

  /** Deleting the same id twice is deleting it once. */
  lemma DeleteTwice(config: ServerConfig, tool: string, savedId: string)
    ensures WithoutSavedInput(WithoutSavedInput(config, tool, savedId), tool, savedId) == WithoutSavedInput(config, tool, savedId)
  {
    var once := WithoutSavedInput(config, tool, savedId);
    if tool in once.savedInputs {
      RemoveWithIdNone(once.savedInputs[tool], savedId);
    }
  }

  /** The fields updateSavedInput was given; a null one leaves the item's field as it is. */
  datatype Patch = Patch(name: Option<string>, comment: Option<string>, json: Option<string>, meta: Option<Json>, policy: Option<Json>)

  function Override<T>(given: Option<T>, current: Option<T>): Option<T> {
    if given.Some? then given else current
  }

  /** One matching item updated: its non-null patch fields written and its time stamped. */
  function Apply(item: SavedInput, patch: Patch, now: nat): SavedInput {
    item.(name := Override(patch.name, item.name),
          comment := Override(patch.comment, item.comment),
          json := Override(patch.json, item.json),
          meta := Override(patch.meta, item.meta),
          policy := Override(patch.policy, item.policy),
          updatedAt := Some(now))
  }

  /** The position of the first item with the id. */
  function FirstMatch(items: seq<SavedInput>, savedId: string): (r: Option<nat>)
    ensures r.Some? ==> r.value < |items| && Matches(items[r.value], savedId)
    ensures r.Some? ==> forall j :: 0 <= j < r.value ==> !Matches(items[j], savedId)
    ensures r.None? ==> forall j :: 0 <= j < |items| ==> !Matches(items[j], savedId)
  {
    if items == [] then None
    else if Matches(items[0], savedId) then Some(0)
    else match FirstMatch(items[1..], savedId)
      case None => None
      case Some(k) => Some(k + 1)
  }

  /** The list after updateSavedInput's loop: the first item with the id patched. */
  function UpdatedFirst(items: seq<SavedInput>, savedId: string, patch: Patch, now: nat): (r: seq<SavedInput>) {
    match FirstMatch(items, savedId)
    case None => items
    case Some(i) => items[i := Apply(items[i], patch, now)]
  }

  /** Updating changes one item at most, and never the ids: the same inputs stay saved, under
      the same ids, in the same order. */
  lemma UpdatedFirstKeepsIds(items: seq<SavedInput>, savedId: string, patch: Patch, now: nat)
    ensures |UpdatedFirst(items, savedId, patch, now)| == |items|
    ensures forall j :: 0 <= j < |items| ==> UpdatedFirst(items, savedId, patch, now)[j].id == items[j].id
    ensures forall j :: 0 <= j < |items| && UpdatedFirst(items, savedId, patch, now)[j] != items[j] ==>
      FirstMatch(items, savedId) == Some(j)
  {
  }

  /** Applying the same update twice at the same instant is applying it once. */
  lemma UpdatedFirstIdempotent(items: seq<SavedInput>, savedId: string, patch: Patch, now: nat)
    ensures UpdatedFirst(UpdatedFirst(items, savedId, patch, now), savedId, patch, now) == UpdatedFirst(items, savedId, patch, now)
  {
    var once := UpdatedFirst(items, savedId, patch, now);
    match FirstMatch(items, savedId)
    case None =>
    case Some(i) =>
      assert forall j :: 0 <= j < i ==> once[j] == items[j];
      assert FirstMatch(once, savedId) == Some(i) by {
        FirstMatchAt(once, savedId, i);
      }
  }

  /** A matching item preceded only by non-matching ones is the first match. */
  lemma {:induction false} FirstMatchAt(items: seq<SavedInput>, savedId: string, i: nat)
    requires i < |items| && Matches(items[i], savedId)
    requires forall j :: 0 <= j < i ==> !Matches(items[j], savedId)
    ensures FirstMatch(items, savedId) == Some(i)
  {
    if i > 0 {
      FirstMatchAt(items[1..], savedId, i - 1);
    }
  }

  /** The for loop of updateSavedInput with its `updated` flag and `break`. */
  method UpdateFirst(items: seq<SavedInput>, savedId: string, patch: Patch, now: nat)
    returns (updated: bool, r: seq<SavedInput>)
    ensures updated <==> exists j :: 0 <= j < |items| && Matches(items[j], savedId)
    ensures r == UpdatedFirst(items, savedId, patch, now)
  {
    r := items;
    updated := false;
    var i := 0;
    while i < |items|
      invariant i <= |items| && r == items && !updated
      invariant forall j :: 0 <= j < i ==> !Matches(items[j], savedId)
      decreases |items| - i
    {
      if Matches(items[i], savedId) {
        FirstMatchAt(items, savedId, i);
        r := items[i := Apply(items[i], patch, now)];
        updated := true;
        break;
      }
      i := i + 1;
    }
  }

  // ---------------------------------------------------------------- loading

  /** The exception loading meets at a configuration stored without an id: the cache refuses a
      null key. Its message is not part of this model; this text stands for it. */
  const NullIdFailure: string := "NullPointerException"

  /** loadAllIfNeeded's loop over the `*.json` files in file-name order, each as `read` gave it
      back (None where the file could not be read): every configuration is cached, with its
      defaults, under the id stored in it, whatever the file is called, a later file replacing
      an earlier one with the same id; a stored null id stops the loop with an exception. */
  function LoadAll(read: seq<Option<ServerConfig>>): (r: Result<map<string, ServerConfig>>)
    ensures r.Err? <==> exists i :: 0 <= i < |read| && read[i].Some? && read[i].value.id.None?
    ensures r.Err? ==> r.error == NullIdFailure
    ensures r.Ok? ==> forall k :: k in r.value ==> r.value[k].id == Some(k)
    ensures r.Ok? ==> forall k :: k in r.value <==> exists i :: 0 <= i < |read| && read[i].Some? && read[i].value.id == Some(k)
    decreases |read|
  {
    if read == [] then Ok(map[])
    else
      var front := read[..|read| - 1];
      var last := read[|read| - 1];
      assert forall i :: 0 <= i < |front| ==> front[i] == read[i];
      match LoadAll(front)
      case Err(e) => Err(e)
      case Ok(cache) =>
        if last.None? then Ok(cache)
        else if last.value.id.None? then Err(NullIdFailure)
        else Ok(cache[last.value.id.value := ReadDefaults(last.value)])
  }

  /** A loaded id holds the configuration of the last file that stores that id. */
  lemma {:induction false} LoadAllLastWins(read: seq<Option<ServerConfig>>, i: nat)
    requires LoadAll(read).Ok? && i < |read| && read[i].Some?
    requires forall j :: i < j < |read| && read[j].Some? ==> read[j].value.id != read[i].value.id
    ensures read[i].value.id.Some? && read[i].value.id.value in LoadAll(read).value
    ensures LoadAll(read).value[read[i].value.id.value] == ReadDefaults(read[i].value)
    decreases |read|
  {
    var front := read[..|read| - 1];
    assert forall j :: 0 <= j < |front| ==> front[j] == read[j];
    if i < |read| - 1 {
      LoadAllLastWins(front, i);
    }
  }

  // ---------------------------------------------------------------- the repository

  class ServerRepository {
    /** Configurations by id. */
    var cache: map<string, ServerConfig>
    /** The ids with a `<id>.json` file in the data directory. */
    var files: set<string>

    /** Every configuration is cached under its own id. */
    ghost predicate Valid()
      reads this
    {
      forall k :: k in cache ==> cache[k].id == Some(k)
    }

    /** The repository once loaded: the files of the directory, and the cache that loading the
        configurations read back from them gave. */
    constructor (directory: set<string>, read: seq<Option<ServerConfig>>)
      requires LoadAll(read).Ok?
      ensures Valid()
      ensures files == directory && cache == LoadAll(read).value
    {
      files := directory;
      cache := LoadAll(read).value;
    }

    /** list(): every cached configuration, sorted by id. */
    ghost function List(): (r: seq<ServerConfig>)
      reads this
      ensures |r| == |cache| && SortedById(r)
      ensures forall k :: k in cache ==> cache[k] in r
      ensures forall i :: 0 <= i < |r| ==> r[i] in cache.Values
    {
      Sorted(cache)
    }

    function Get(id: string): (r: Option<ServerConfig>)
      reads this
      ensures r.Some? <==> id in cache
      ensures r.Some? ==> r.value == cache[id]
    {
      if id in cache then Some(cache[id]) else None
    }

    predicate Exists(id: string)
      reads this
    {
      id in cache
    }

    function Require(id: string): (r: Result<ServerConfig>)
      reads this
      ensures r.Ok? <==> id in cache
      ensures r.Ok? ==> r.value == cache[id]
      ensures r.Err? ==> r.error == "Server not found: " + id
    {
      if id in cache then Ok(cache[id]) else Err("Server not found: " + id)
    }

    /** create: the id is the slug of the name; a fresh configuration is stored under it, as a
        new file, unless the name gives no id or the id is taken in the cache or on disk. */
    method Create(name: Option<string>, description: Option<string>, command: Option<string>, cwd: Option<string>,
                  framing: Option<string>, transport: Option<string>, httpUrl: Option<string>,
                  httpMessageUrl: Option<string>, httpHeaders: Option<map<string, string>>,
                  env: Option<map<string, string>>, supportsDynamicConfig: bool, allowPolicy: bool,
                  configuration: Option<Json>)
      returns (r: Result<ServerConfig>)
      requires Valid()
      modifies this
      ensures Valid()
      ensures ServerNames.ToId(name) == "" ==> r == Err("Invalid server name")
      ensures ServerNames.ToId(name) != "" && (ServerNames.ToId(name) in old(cache) || ServerNames.ToId(name) in old(files)) ==>
        r == Err("Server name already exists")
      ensures r.Err? ==> cache == old(cache) && files == old(files)
      ensures ServerNames.ToId(name) != "" && ServerNames.ToId(name) !in old(cache) && ServerNames.ToId(name) !in old(files) ==>
        && name.Some?
        && r == Ok(Created(name.value, description, command, cwd, framing, transport, httpUrl, httpMessageUrl,
                           httpHeaders, env, supportsDynamicConfig, allowPolicy, configuration))
        && cache == old(cache)[ServerNames.ToId(name) := r.value]
        && files == old(files) + {ServerNames.ToId(name)}
    {
      var id := ServerNames.ToId(name);
      // isBlank: an id has no whitespace, so it is blank exactly when it is empty (SlugBlank).
      if id == "" {
        return Err("Invalid server name");
      }
      if id in cache || id in files {
        return Err("Server name already exists");
      }
      var config := Created(name.value, description, command, cwd, framing, transport, httpUrl, httpMessageUrl,
                            httpHeaders, env, supportsDynamicConfig, allowPolicy, configuration);
      r := Ok(config);
      cache := cache[id := r.value];
      files := files + {id};
    }

    /** save: the configuration is written and cached under its own id. */
    method Save(config: Option<ServerConfig>) returns (r: Result<ServerConfig>)
      requires Valid()
      modifies this
      ensures Valid()
      ensures config.None? || config.value.id.None? ==>
        r == Err("Missing server id") && cache == old(cache) && files == old(files)
      ensures config.Some? && config.value.id.Some? ==>
        && r == Ok(config.value)
        && cache == old(cache)[config.value.id.value := config.value]
        && files == old(files) + {config.value.id.value}
    {
      if config.None? || config.value.id.None? {
        return Err("Missing server id");
      }
      var id := config.value.id.value;
      files := files + {id};
      cache := cache[id := config.value];
      r := Ok(config.value);
    }

    /** rename: refused when the target file exists; otherwise the configuration takes the new id,
        its new file is written, the old one deleted, and the cache follows. */
    method Rename(oldId: string, newId: string, config: ServerConfig) returns (r: Result<ServerConfig>)
      requires Valid()
      modifies this
      ensures Valid()
      ensures newId in old(files) ==> r == Err("Server name already exists") && cache == old(cache) && files == old(files)
      ensures newId !in old(files) ==>
        && r == Ok(config.(id := Some(newId)))
        && files == (old(files) + {newId}) - {oldId}
        && cache == (old(cache) - {oldId})[newId := r.value]
    {
      if newId in files {
        return Err("Server name already exists");
      }
      var renamed := config.(id := Some(newId));
      files := (files + {newId}) - {oldId};
      cache := (cache - {oldId})[newId := renamed];
      r := Ok(renamed);
    }

    /** addSavedInput: a new item, under a fresh `uuid` and stamped `now`, appended to the tool's
        list of the server's configuration, which is then saved. */
    method AddSavedInput(serverId: string, tool: string, name: Option<string>, comment: Option<string>,
                         json: Option<string>, meta: Option<Json>, policy: Option<Json>, uuid: string, now: nat)
      returns (r: Result<ServerConfig>)
      requires Valid()
      modifies this
      ensures Valid()
      ensures serverId !in old(cache) ==>
        r == Err("Server not found: " + serverId) && cache == old(cache) && files == old(files)
      ensures serverId in old(cache) ==>
        && r == Ok(WithSavedInput(old(cache)[serverId], tool, SavedInput(Some(uuid), name, comment, json, meta, policy, Some(now))))
        && cache == old(cache)[serverId := r.value]
        && files == old(files) + {serverId}
    {
      var found := Require(serverId);
      if found.Err? {
        return Err(found.error);
      }
      var item := SavedInput(Some(uuid), name, comment, json, meta, policy, Some(now));
      r := Save(Some(WithSavedInput(found.value, tool, item)));
    }

    /** listSavedInputs: the tool's list, empty when it has none. */
    function ListSavedInputs(serverId: string, tool: string): (r: Result<seq<SavedInput>>)
      reads this
      ensures r.Ok? <==> serverId in cache
      ensures r.Ok? ==> r.value == SavedOf(cache[serverId], tool)
      ensures r.Err? ==> r.error == "Server not found: " + serverId
    {
      match Require(serverId)
      case Err(e) => Err(e)
      case Ok(config) => Ok(SavedOf(config, tool))
    }

    /** deleteSavedInput: every item with the id removed, the tool's key with its last item;
        the configuration is saved even when nothing matched. */
    method DeleteSavedInput(serverId: string, tool: string, savedId: string) returns (r: Result<ServerConfig>)
      requires Valid()
      modifies this
      ensures Valid()
      ensures serverId !in old(cache) ==>
        r == Err("Server not found: " + serverId) && cache == old(cache) && files == old(files)
      ensures serverId in old(cache) ==>
        && r == Ok(WithoutSavedInput(old(cache)[serverId], tool, savedId))
        && cache == old(cache)[serverId := r.value]
        && files == old(files) + {serverId}
    {
      var found := Require(serverId);
      if found.Err? {
        return Err(found.error);
      }
      r := Save(Some(WithoutSavedInput(found.value, tool, savedId)));
    }

    /** updateSavedInput: the first item with the id takes the non-null fields of the patch and
        the time `now`; an unknown tool or id is an error and changes nothing. */
    method UpdateSavedInput(serverId: string, tool: string, savedId: string, patch: Patch, now: nat)
      returns (r: Result<ServerConfig>)
      requires Valid()
      modifies this
      ensures Valid()
      ensures serverId !in old(cache) ==> r == Err("Server not found: " + serverId)
      ensures serverId in old(cache) && tool !in old(cache)[serverId].savedInputs ==>
        r == Err("Saved inputs not found for tool: " + tool)
      ensures serverId in old(cache) && tool in old(cache)[serverId].savedInputs
              && FirstMatch(old(cache)[serverId].savedInputs[tool], savedId).None? ==>
        r == Err("Saved input id not found: " + savedId)
      ensures r.Err? ==> cache == old(cache) && files == old(files)
      ensures r.Ok? ==>
        && serverId in old(cache) && tool in old(cache)[serverId].savedInputs
        && var config := old(cache)[serverId];
           var items := config.savedInputs[tool];
        && FirstMatch(items, savedId).Some?
        && r.value == config.(savedInputs := config.savedInputs[tool := UpdatedFirst(items, savedId, patch, now)])
        && cache == old(cache)[serverId := r.value]
        && files == old(files) + {serverId}
    {
      var found := Require(serverId);
      if found.Err? {
        return Err(found.error);
      }
      var config := found.value;
      if tool !in config.savedInputs {
        return Err("Saved inputs not found for tool: " + tool);
      }
      var updated, items := UpdateFirst(config.savedInputs[tool], savedId, patch, now);
      if !updated {
        return Err("Saved input id not found: " + savedId);
      }
      r := Save(Some(config.(savedInputs := config.savedInputs[tool := items])));
    }
  }

  /** The configuration create builds: the slug id, the trimmed name, the framing and transport
      defaults, the given header and environment entries (putAll into empty maps), and
      nothing saved. */
  function Created(name: string, description: Option<string>, command: Option<string>, cwd: Option<string>,
                   framing: Option<string>, transport: Option<string>, httpUrl: Option<string>,
                   httpMessageUrl: Option<string>, httpHeaders: Option<map<string, string>>,
                   env: Option<map<string, string>>, supportsDynamicConfig: bool, allowPolicy: bool,
                   configuration: Option<Json>): (r: ServerConfig)
    ensures r.id == Some(ServerNames.ToId(Some(name))) && r.name == Some(Trim(name))
    ensures ReadDefaults(r) == r
    ensures r.savedInputs == map[] && r.configSchema.None?
    ensures !r.supportsTools && !r.supportsResources && !r.supportsPrompts
  {
    OrDefaultIdempotent(framing, "ndjson");
    OrDefaultIdempotent(transport, "stdio");
    ServerConfig(Some(ServerNames.ToId(Some(name))), Some(Trim(name)), description, command, cwd,
                 OrDefault(framing, "ndjson"), OrDefault(transport, "stdio"), httpUrl, httpMessageUrl,
                 httpHeaders.GetOr(map[]), false, false, false, supportsDynamicConfig, allowPolicy,
                 None, configuration, env.GetOr(map[]), map[])
  }

  /** A default that is not blank is kept by a second defaulting. */
  lemma OrDefaultIdempotent(value: Option<string>, fallback: string)
    requires fallback != [] && !IsWhitespace(fallback[0])
    ensures OrDefault(OrDefault(value, fallback), fallback) == OrDefault(value, fallback)
  {
  }

  /** An id is blank only when it is empty: no id character is whitespace. */
  lemma SlugBlank(id: string)
    requires ServerNames.IsSlug(id)
    ensures IsBlank(id) <==> id == ""
  {
    if id != "" {
      assert !IsWhitespace(id[0]);
    }
  }

  /** The trimmed name that create stores derives the same id as the name it was given, so a
      created configuration's name leads back to its id. */
  lemma TrimmedNameKeepsId(name: string)
    ensures ServerNames.ToId(Some(Trim(name))) == ServerNames.ToId(Some(name))
  {
    ServerNames.ToIdIgnoresTrim(name);
    ServerNames.ToIdIgnoresTrim(Trim(name));
  }
}
