/**
 The JSON configs of Claude Code, Gemini, Cline and OpenCode: the parsers that turn the MCP servers of
 a config into observed entries, and the rewriters that route one of them through the Hub.
 */
module AgentConfig {
  import opened Common
  import opened Json

  datatype Agent = Claude | Gemini | Cline | OpenCode

  type Entry = map<string, Value>

  datatype Transport = Stdio | StreamableHttp

  /** An observed entry, less the ids that are the same for all entries of a config. */
  datatype ObservedEntry = ObservedEntry(
    containerPath: seq<string>, mountName: string, enabled: bool, transport: Transport,
    command: Option<string>, args: seq<string>, url: Option<string>,
    headersPresent: set<string>, envNames: set<string>, cwd: Option<string>,
    enabledTools: Option<seq<string>>, disabledTools: seq<string>, approvalPolicy: Option<string>,
    entryHash: string, complete: bool)

  /** What the parsers ask about strings: the schema's checks of a command and of a URL, whether a command
      is the Cline helper script, the header a list item names, and the hash of a raw entry. */
  datatype Checks = Checks(
    safeCommand: string -> bool, safeUrl: string -> bool, helper: string -> bool,
    headerName: string -> Option<string>, entryHash: (string, Entry) -> string)

  const HUB_MOUNT := "mcp_hub"
  const HUB_SERVER_URL := "http://127.0.0.1:30000/servers/mcp_hub/mcp"

  const COMMON_KEYS: set<string> :=
    {"command", "args", "url", "env", "cwd", "enabled", "disabled", "enabled_tools", "disabled_tools", "approval_policy", "headers"}

  function KnownKeys(agent: Agent): set<string> {
    COMMON_KEYS +
    match agent
    case Claude => {"type", "headersHelper"}
    case Gemini => {"type", "httpUrl", "trust"}
    case Cline => {"transport", "autoApprove", "alwaysAllow"}
    case OpenCode => {"type", "oauth"}
  }

  // ----- Reading one entry; none stands for a refused config -----

  function Truthy(v: Value): bool {
    match v
    case Null => false
    case Bool(b) => b
    case Number(n) => n != 0.0
    case String(text) => text != ""
    case Array(items) => items != []
    case Object(fields) => fields != map[]
  }

  function Get(entry: Entry, key: string): Value {
    if key in entry then entry[key] else Null
  }

  function OptionalString(agent: Agent, entry: Entry, key: string): Option<Option<string>> {
    match Get(entry, key)
    case Null => Some(None)
    case String(text) => if agent == Cline && text == "" then Some(None) else Some(Some(text))
    case _ => None
  }

  function StringList(v: Value): Option<seq<string>> {
    if v.Array? && forall i :: 0 <= i < |v.items| ==> v.items[i].String?
    then Some(seq(|v.items|, i requires 0 <= i < |v.items| => v.items[i].text))
    else None
  }

  function ListField(entry: Entry, key: string): Option<seq<string>> {
    if key in entry then StringList(entry[key]) else Some([])
  }

  function EnabledTools(entry: Entry): Option<Option<seq<string>>> {
    if Get(entry, "enabled_tools").Null? then Some(None)
    else
      var tools :- StringList(entry["enabled_tools"]);
      Some(Some(tools))
  }

  function EnvNames(entry: Entry): Option<set<string>> {
    match Get(entry, "env")
    case Null => Some({})
    case Object(fields) => Some(fields.Keys)
    case _ => None
  }

  predicate EnabledFlag(entry: Entry) {
    "enabled" in entry ==> Truthy(entry["enabled"])
  }

  predicate DisabledFlag(entry: Entry) {
    Truthy(Get(entry, "disabled"))
  }

  function NonEmpty(text: Option<string>): bool {
    text.Some? && text.value != ""
  }

  /** Cline keeps a remote URL inside its transport object. */
  function TransportUrl(entry: Entry): Option<Option<string>> {
    match Get(entry, "transport")
    case Null => Some(None)
    case Object(transport) =>
      (match Get(transport, "type")
       case Null => OptionalStringAsIs(transport, "url")
       case String(kind) =>
         if kind in {"streamableHttp", "streamable-http", "http", "sse"} then OptionalStringAsIs(transport, "url") else None
       case _ => None)
    case _ => None
  }

  function OptionalStringAsIs(entry: Entry, key: string): Option<Option<string>> {
    match Get(entry, key)
    case Null => Some(None)
    case String(text) => Some(Some(text))
    case _ => None
  }

  function Url(checks: Checks, agent: Agent, mount: string, entry: Entry, command: Option<string>): Option<Option<string>> {
    var url :- OptionalString(agent, entry, "url");
    match agent
    case Gemini => if NonEmpty(url) then Some(url) else OptionalString(agent, entry, "httpUrl")
    case Cline =>
      var remote :- if NonEmpty(url) then Some(url) else TransportUrl(entry);
      if mount == HUB_MOUNT && command.Some? && checks.helper(command.value) then Some(Some(HUB_SERVER_URL)) else Some(remote)
    case _ => Some(url)
  }

  /** OpenCode also takes the whole command line as the command. */
  function CommandAndArgs(agent: Agent, entry: Entry): Option<(Option<string>, seq<string>)> {
    if agent == OpenCode && Get(entry, "command").Array? then
      var words :- StringList(entry["command"]);
      if words == [] then None else Some((Some(words[0]), words[1..]))
    else
      var command :- OptionalString(agent, entry, "command");
      var args :- ListField(entry, "args");
      Some((command, args))
  }

  function ListedHeaders(checks: Checks, items: seq<Value>): set<string> {
    if items == [] then {}
    else
      var rest := ListedHeaders(checks, items[1..]);
      var name := if items[0].String? then checks.headerName(items[0].text) else None;
      if name.Some? then rest + {name.value} else rest
  }

  function CollectedHeaders(checks: Checks, headers: Value): set<string> {
    match headers
    case Object(fields) => fields.Keys - {""}
    case Array(items) => ListedHeaders(checks, items)
    case _ => {}
  }

  function HeadersPresent(checks: Checks, agent: Agent, mount: string, entry: Entry, command: Option<string>): Option<set<string>> {
    var listed := CollectedHeaders(checks, Get(entry, "headers"));
    match agent
    case Claude =>
      var script :- OptionalString(agent, entry, "headersHelper");
      Some(if NonEmpty(script) then listed + {"Authorization"} else listed)
    case Cline =>
      var transport := Get(entry, "transport");
      var nested := if transport.Object? then CollectedHeaders(checks, Get(transport.fields, "headers")) else {};
      var helped := if mount == HUB_MOUNT && command.Some? && checks.helper(command.value) then {"Authorization"} else {};
      Some(listed + nested + helped)
    case _ => Some(listed)
  }

  /** The schema of an observed entry refuses an empty mount name, a command that is empty or needs a
      shell, and a URL that is not plain HTTP. */
  predicate SchemaAccepts(checks: Checks, mount: string, command: Option<string>, url: Option<string>) {
    && mount != ""
    && (command.Some? ==> checks.safeCommand(command.value))
    && (url.Some? ==> checks.safeUrl(url.value))
  }

  function Observe(checks: Checks, agent: Agent, container: string, mount: string, entry: Entry): Option<ObservedEntry> {
    var (command, args) :- CommandAndArgs(agent, entry);
    var url :- Url(checks, agent, mount, entry, command);
    var envNames :- EnvNames(entry);
    var disabledTools :- ListField(entry, "disabled_tools");
    var enabledTools :- EnabledTools(entry);
    var headersPresent :- HeadersPresent(checks, agent, mount, entry, command);
    var cwd :- OptionalString(agent, entry, "cwd");
    var approvalPolicy :- OptionalString(agent, entry, "approval_policy");
    if (!NonEmpty(url) && !NonEmpty(command)) || !SchemaAccepts(checks, mount, command, url) then None
    else Some(ObservedEntry(
        [container, mount], mount, EnabledFlag(entry) && !DisabledFlag(entry),
        if NonEmpty(url) then StreamableHttp else Stdio, command, args, url,
        headersPresent, envNames, cwd, enabledTools, disabledTools, approvalPolicy,
        checks.entryHash(mount, entry), entry.Keys <= KnownKeys(agent)))
  }

  // ----- Parsing a config -----

  function ContainerKey(agent: Agent, root: map<string, Value>): string {
    if agent == OpenCode && "mcp" in root then "mcp" else "mcpServers"
  }

  function Servers(agent: Agent, tree: Value): Option<map<string, Value>> {
    if !tree.Object? then None
    else
      var key := ContainerKey(agent, tree.fields);
      if key !in tree.fields then Some(map[])
      else if tree.fields[key].Object? then Some(tree.fields[key].fields)
      else None
  }

  type Reader = (string, Value) -> Option<ObservedEntry>

  function EntryReader(checks: Checks, agent: Agent, container: string): Reader {
    (mount: string, raw: Value) => if raw.Object? then Observe(checks, agent, container, mount, raw.fields) else None
  }

  function ReadAll(read: Reader, servers: map<string, Value>): Option<map<string, ObservedEntry>> {
    if forall m {:trigger read(m, servers[m])} :: m in servers ==> read(m, servers[m]).Some?
    then Some(map m | m in servers :: read(m, servers[m]).value)
    else None
  }

  function Parse(checks: Checks, agent: Agent, tree: Value): Option<map<string, ObservedEntry>> {
    var servers :- Servers(agent, tree);
    ReadAll(EntryReader(checks, agent, ContainerKey(agent, tree.fields)), servers)
  }

  /** The loop of the parsers over the servers, one at a time until one is refused. */
  method ReadServers(read: Reader, servers: map<string, Value>) returns (observed: Option<map<string, ObservedEntry>>)
    ensures observed == ReadAll(read, servers)
  {
    var todo := servers.Keys;
    var entries: map<string, ObservedEntry> := map[];
    while todo != {}
      invariant todo <= servers.Keys && entries.Keys == servers.Keys - todo
      invariant forall m :: m in entries ==> read(m, servers[m]) == Some(entries[m])
    {
      var mount :| mount in todo;
      var entry := read(mount, servers[mount]);
      if entry.None? {
        return None;
      }
      entries := entries[mount := entry.value];
      todo := todo - {mount};
    }
    assert entries == map m | m in servers :: read(m, servers[m]).value;
    return Some(entries);
  }

  method ParseConfig(checks: Checks, agent: Agent, tree: Value) returns (observed: Option<map<string, ObservedEntry>>)
    ensures observed == Parse(checks, agent, tree)
  {
    var servers := Servers(agent, tree);
    if servers.None? {
      return None;
    }
    observed := ReadServers(EntryReader(checks, agent, ContainerKey(agent, tree.fields)), servers.value);
  }

  // ----- What an observed entry tells -----

  /** A JSON list of strings and what it lists. */
  predicate Lists(v: Value, texts: seq<string>) {
    v.Array? && |v.items| == |texts| && forall i :: 0 <= i < |texts| ==> v.items[i] == String(texts[i])
  }

  /** The text of an optional field; Cline takes an empty one for none. */
  predicate IsText(agent: Agent, entry: Entry, key: string, text: Option<string>) {
    if key !in entry || entry[key] == Null || (agent == Cline && entry[key] == String("")) then text == None
    else text.Some? && entry[key] == String(text.value)
  }

  /** Python's truth: false are null, false, zero, and what is empty. */
  lemma TruthyTells(v: Value)
    ensures Truthy(v) <==> v != Null && v != Bool(false) && v != Number(0.0) && v != String("") && v != Array([]) && v != Object(map[])
  {
  }

  lemma OptionalStringTells(agent: Agent, entry: Entry, key: string)
    ensures var text := OptionalString(agent, entry, key); text.Some? ==> IsText(agent, entry, key, text.value)
  {
  }

  lemma StringListTells(v: Value)
    ensures var texts := StringList(v); texts.Some? ==> Lists(v, texts.value)
    ensures StringList(v).None? <==> !v.Array? || exists i :: 0 <= i < |v.items| && !v.items[i].String?
  {
  }

  /** The command line an entry starts: a command and its arguments, or, for OpenCode, one list of both. */
  lemma ObservedCommandTells(checks: Checks, agent: Agent, container: string, mount: string, entry: Entry)
    ensures var observed := Observe(checks, agent, container, mount, entry);
      observed.Some? ==>
      var o := observed.value;
      if agent == OpenCode && "command" in entry && entry["command"].Array?
      then o.command.Some? && Lists(entry["command"], [o.command.value] + o.args)
      else IsText(agent, entry, "command", o.command) && (if "args" in entry then Lists(entry["args"], o.args) else o.args == [])
  {
    if agent == OpenCode && Get(entry, "command").Array? {
      StringListTells(entry["command"]);
      var words := StringList(entry["command"]);
      assert words.Some? && words.value != [] ==> [words.value[0]] + words.value[1..] == words.value;
    } else {
      OptionalStringTells(agent, entry, "command");
      StringListTells(Get(entry, "args"));
    }
  }

  /** Where an entry goes: Gemini looks at its URL first, Cline also into its transport, and the Cline
      helper script stands for the Hub. */
  lemma ObservedUrlTells(checks: Checks, agent: Agent, container: string, mount: string, entry: Entry)
    ensures var observed := Observe(checks, agent, container, mount, entry);
      observed.Some? ==>
      var o := observed.value;
      && (o.transport == StreamableHttp <==> o.url.Some? && o.url.value != "")
      && (agent == Claude || agent == OpenCode ==> IsText(agent, entry, "url", o.url))
      && (agent == Gemini ==>
            if "url" in entry && entry["url"].String? && entry["url"] != String("") then o.url == Some(entry["url"].text)
            else IsText(agent, entry, "httpUrl", o.url))
      && (agent == Cline ==>
            if mount == "mcp_hub" && o.command.Some? && checks.helper(o.command.value)
            then o.url == Some("http://127.0.0.1:30000/servers/mcp_hub/mcp")
            else if "url" in entry && entry["url"].String? && entry["url"] != String("") then o.url == Some(entry["url"].text)
            else IsTransportUrl(entry, o.url))
  {
    OptionalStringTells(agent, entry, "url");
    OptionalStringTells(agent, entry, "httpUrl");
    TransportUrlTells(entry);
  }

  predicate IsTransportUrl(entry: Entry, url: Option<string>) {
    if "transport" !in entry || entry["transport"] == Null then url == None
    else
      && entry["transport"].Object?
      && (var transport := entry["transport"].fields;
          if "url" in transport && transport["url"] != Null then url.Some? && transport["url"] == String(url.value) else url == None)
  }

  lemma TransportUrlTells(entry: Entry)
    ensures var url := TransportUrl(entry); url.Some? ==> IsTransportUrl(entry, url.value)
  {
  }

  /** Everything else that is read of an entry. */
  lemma ObservedSettingsTell(checks: Checks, agent: Agent, container: string, mount: string, entry: Entry)
    ensures var observed := Observe(checks, agent, container, mount, entry);
      observed.Some? ==>
      var o := observed.value;
      && o.mountName == mount && o.containerPath == [container, mount] && o.entryHash == checks.entryHash(mount, entry)
      && (o.enabled <==> ("enabled" in entry ==> Truthy(entry["enabled"])) && ("disabled" in entry ==> !Truthy(entry["disabled"])))
      && IsText(agent, entry, "cwd", o.cwd) && IsText(agent, entry, "approval_policy", o.approvalPolicy)
      && o.envNames == (if "env" in entry && entry["env"].Object? then entry["env"].fields.Keys else {})
      && (if "disabled_tools" in entry then Lists(entry["disabled_tools"], o.disabledTools) else o.disabledTools == [])
      && (if "enabled_tools" in entry && entry["enabled_tools"] != Null
          then o.enabledTools.Some? && Lists(entry["enabled_tools"], o.enabledTools.value) else o.enabledTools == None)
  {
    OptionalStringTells(agent, entry, "cwd");
    OptionalStringTells(agent, entry, "approval_policy");
    StringListTells(Get(entry, "disabled_tools"));
    StringListTells(Get(entry, "enabled_tools"));
  }

  /** A header that a headers field names: a key of an object, or what a list item names. */
  predicate NamesHeader(checks: Checks, headers: Value, name: string) {
    match headers
    case Object(fields) => name in fields && name != ""
    case Array(items) => exists i :: 0 <= i < |items| && items[i].String? && checks.headerName(items[i].text) == Some(name)
    case _ => false
  }

  lemma {:induction false} ListedHeadersTell(checks: Checks, items: seq<Value>, name: string)
    ensures name in ListedHeaders(checks, items) <==> NamesHeader(checks, Array(items), name)
  {
    if items != [] {
      ListedHeadersTell(checks, items[1..], name);
      if i :| 0 <= i < |items| && items[i].String? && checks.headerName(items[i].text) == Some(name) {
        assert i > 0 ==> items[1..][i - 1] == items[i];
      }
      if i :| 0 <= i < |items[1..]| && items[1..][i].String? && checks.headerName(items[1..][i].text) == Some(name) {
        assert items[i + 1] == items[1..][i];
      }
    }
  }

  lemma CollectedHeadersTell(checks: Checks, headers: Value, name: string)
    ensures name in CollectedHeaders(checks, headers) <==> NamesHeader(checks, headers, name)
  {
    if headers.Array? {
      ListedHeadersTell(checks, headers.items, name);
    }
  }

  /** The headers of an entry: those its headers field names, for Cline also those of its transport, and
      an authorization that Claude's headers script or the Cline helper brings. */
  lemma ObservedHeadersTell(checks: Checks, agent: Agent, container: string, mount: string, entry: Entry, name: string)
    ensures var observed := Observe(checks, agent, container, mount, entry);
      observed.Some? ==>
      var o := observed.value;
      name in o.headersPresent <==>
      || NamesHeader(checks, Get(entry, "headers"), name)
      || (agent == Claude && name == "Authorization" && Get(entry, "headersHelper").String? && Get(entry, "headersHelper") != String(""))
      || (agent == Cline && Get(entry, "transport").Object? && NamesHeader(checks, Get(entry["transport"].fields, "headers"), name))
      || (agent == Cline && name == "Authorization" && mount == "mcp_hub" && o.command.Some? && checks.helper(o.command.value))
  {
    if Observe(checks, agent, container, mount, entry).Some? {
      var command := CommandAndArgs(agent, entry).value.0;
      assert Some(Observe(checks, agent, container, mount, entry).value.headersPresent) == HeadersPresent(checks, agent, mount, entry, command);
      HeadersTell(checks, agent, mount, entry, command, name);
    }
  }

  lemma HeadersTell(checks: Checks, agent: Agent, mount: string, entry: Entry, command: Option<string>, name: string)
    requires HeadersPresent(checks, agent, mount, entry, command).Some?
    ensures name in HeadersPresent(checks, agent, mount, entry, command).value <==>
      || NamesHeader(checks, Get(entry, "headers"), name)
      || (agent == Claude && name == "Authorization" && Get(entry, "headersHelper").String? && Get(entry, "headersHelper") != String(""))
      || (agent == Cline && Get(entry, "transport").Object? && NamesHeader(checks, Get(entry["transport"].fields, "headers"), name))
      || (agent == Cline && name == "Authorization" && mount == "mcp_hub" && command.Some? && checks.helper(command.value))
  {
    CollectedHeadersTell(checks, Get(entry, "headers"), name);
    if Get(entry, "transport").Object? {
      CollectedHeadersTell(checks, Get(entry["transport"].fields, "headers"), name);
    }
  }

  predicate IsMistyped(entry: Entry, key: string) {
    key in entry && entry[key] != Null && !entry[key].String?
  }

  predicate WellTyped(agent: Agent, entry: Entry) {
    && !IsMistyped(entry, "cwd") && !IsMistyped(entry, "approval_policy") && !IsMistyped(entry, "url")
    && (agent == Claude ==> !IsMistyped(entry, "headersHelper"))
    && (agent != OpenCode ==> !IsMistyped(entry, "command"))
    && (agent == OpenCode && "command" in entry ==>
          entry["command"] == Null || entry["command"].String? || (entry["command"].Array? && entry["command"].items != []))
    && ("env" in entry ==> entry["env"] == Null || entry["env"].Object?)
    && ("disabled_tools" in entry ==> entry["disabled_tools"].Array?)
    && ("enabled_tools" in entry ==> entry["enabled_tools"] == Null || entry["enabled_tools"].Array?)
  }

  /** What a parser refuses: fields of the wrong type, an entry that neither starts nor goes anywhere, and
      what the schema does not take. */
  lemma MalformedEntriesAreRefused(checks: Checks, agent: Agent, container: string, mount: string, entry: Entry)
    ensures var observed := Observe(checks, agent, container, mount, entry);
      observed.Some? ==>
      var o := observed.value;
      && mount != "" && WellTyped(agent, entry)
      && ((o.command.Some? && o.command.value != "") || (o.url.Some? && o.url.value != ""))
      && (o.command.Some? ==> checks.safeCommand(o.command.value)) && (o.url.Some? ==> checks.safeUrl(o.url.value))
  {
  }

  /** An entry is completely understood exactly if it has no key beyond the agent's documented ones. */
  lemma CompleteIff(checks: Checks, agent: Agent, container: string, mount: string, entry: Entry)
    ensures Observe(checks, agent, container, mount, entry).Some? ==>
      (Observe(checks, agent, container, mount, entry).value.complete <==>
      forall key :: key in entry ==>
        || key in {"command", "args", "url", "env", "cwd", "headers"}
        || key in {"enabled", "disabled", "enabled_tools", "disabled_tools", "approval_policy"}
        || (agent != Cline && key == "type")
        || (agent == Claude && key == "headersHelper")
        || (agent == Gemini && key in {"httpUrl", "trust"})
        || (agent == Cline && key in {"transport", "autoApprove", "alwaysAllow"})
        || (agent == OpenCode && key == "oauth"))
  {
    KnownKeysTell(agent);
  }

  lemma KnownKeysTell(agent: Agent)
    ensures forall key :: key in KnownKeys(agent) <==>
        || key in {"command", "args", "url", "env", "cwd", "headers"}
        || key in {"enabled", "disabled", "enabled_tools", "disabled_tools", "approval_policy"}
        || (agent != Cline && key == "type")
        || (agent == Claude && key == "headersHelper")
        || (agent == Gemini && key in {"httpUrl", "trust"})
        || (agent == Cline && key in {"transport", "autoApprove", "alwaysAllow"})
        || (agent == OpenCode && key == "oauth")
  {
  }

  // ----- Rewriting one entry -----

  const KEPT_KEYS: set<string> := {"enabled", "disabled", "enabled_tools", "disabled_tools", "approval_policy"}

  function Kept(entry: Entry, keys: set<string>): Entry {
    map key | key in entry && key in keys :: entry[key]
  }

  predicate IsMcpContainer(agent: Agent, container: string) {
    agent == OpenCode && container == "mcp"
  }

  /** The fields that carry the route. */
  function RouteFields(agent: Agent, container: string, url: string): Entry {
    if agent == Cline then map["transport" := Object(map["type" := String("streamableHttp"), "url" := String(url)])]
    else if IsMcpContainer(agent, container) then map["type" := String("remote"), "url" := String(url)]
    else if agent == Gemini then map["type" := String("http"), "httpUrl" := String(url)]
    else map["type" := String("http"), "url" := String(url)]
  }

  function KeptKeys(agent: Agent, container: string): set<string> {
    if agent == Cline then KEPT_KEYS + {"autoApprove", "alwaysAllow"}
    else if IsMcpContainer(agent, container) then {"enabled"}
    else KEPT_KEYS + {"trust"}
  }

  function Replacement(agent: Agent, container: string, entry: Entry, url: string): Entry {
    RouteFields(agent, container, url) + Kept(entry, KeptKeys(agent, container))
  }

  function Rewrite(agent: Agent, tree: Value, mount: string, url: string): Option<Value> {
    if mount == "" || url == "" || !tree.Object? then None
    else
      var key := ContainerKey(agent, tree.fields);
      if key !in tree.fields || !tree.fields[key].Object? then None
      else
        var servers := tree.fields[key].fields;
        if mount !in servers || !servers[mount].Object? then None
        else Some(Object(tree.fields[key := Object(servers[mount := Object(Replacement(agent, key, servers[mount].fields, url))])]))
  }

  // ----- The rewritten entry, read back -----

  /** What a replacement keeps of an entry: every kept key reads as before. */
  predicate KeepsSettings(before: Entry, after: Entry) {
    && Get(after, "enabled") == Get(before, "enabled") && ("enabled" in after <==> "enabled" in before)
    && Get(after, "disabled") == Get(before, "disabled")
    && Get(after, "enabled_tools") == Get(before, "enabled_tools")
    && Get(after, "disabled_tools") == Get(before, "disabled_tools") && ("disabled_tools" in after <==> "disabled_tools" in before)
    && Get(after, "approval_policy") == Get(before, "approval_policy")
  }

  predicate NoDirectFields(after: Entry) {
    && "command" !in after && "args" !in after && "env" !in after && "cwd" !in after
    && "headers" !in after && "headersHelper" !in after
  }

  lemma SettingsReadTheSame(agent: Agent, before: Entry, after: Entry)
    requires KeepsSettings(before, after)
    ensures EnabledFlag(after) == EnabledFlag(before) && DisabledFlag(after) == DisabledFlag(before)
    ensures EnabledTools(after) == EnabledTools(before)
    ensures ListField(after, "disabled_tools") == ListField(before, "disabled_tools")
    ensures OptionalString(agent, after, "approval_policy") == OptionalString(agent, before, "approval_policy")
  {
  }

  lemma BareFields(checks: Checks, agent: Agent, mount: string, after: Entry)
    requires NoDirectFields(after)
    requires Get(after, "transport").Object? ==> "headers" !in Get(after, "transport").fields
    ensures CommandAndArgs(agent, after) == Some((None, []))
    ensures EnvNames(after) == Some({}) && OptionalString(agent, after, "cwd") == Some(None)
    ensures HeadersPresent(checks, agent, mount, after, None) == Some({})
  {
    assert CollectedHeaders(checks, Get(after, "headers")) == {};
  }

  /** An entry without direct fields is a remote entry, as far as its settings can be read. */
  lemma BareEntryIsRemote(checks: Checks, agent: Agent, container: string, mount: string, after: Entry, url: string)
    requires NoDirectFields(after) && mount != "" && url != ""
    requires Get(after, "transport").Object? ==> "headers" !in Get(after, "transport").fields
    requires Url(checks, agent, mount, after, None) == Some(Some(url))
    requires ListField(after, "disabled_tools").Some? && EnabledTools(after).Some?
    requires OptionalString(agent, after, "approval_policy").Some?
    ensures Observe(checks, agent, container, mount, after)
         == if !checks.safeUrl(url) then None
            else Some(ObservedEntry(
                [container, mount], mount, EnabledFlag(after) && !DisabledFlag(after), StreamableHttp, None, [], Some(url), {}, {}, None,
                EnabledTools(after).value, ListField(after, "disabled_tools").value, OptionalString(agent, after, "approval_policy").value,
                checks.entryHash(mount, after), after.Keys <= KnownKeys(agent)))
  {
    BareFields(checks, agent, mount, after);
  }

  /** What the entry becomes: only its route, its tool filters, its approval policy and its switch are left. */
  function Routed(checks: Checks, agent: Agent, before: ObservedEntry, entry: Entry, url: string): ObservedEntry {
    var container := if before.containerPath == [] then "" else before.containerPath[0];
    var replaced := Replacement(agent, container, entry, url);
    var bare := before.(transport := StreamableHttp, command := None, args := [], url := Some(url),
                        headersPresent := {}, envNames := {}, cwd := None,
                        entryHash := checks.entryHash(before.mountName, replaced),
                        complete := replaced.Keys <= KnownKeys(agent));
    if agent == OpenCode && container == "mcp"
    then bare.(enabled := EnabledFlag(entry), enabledTools := None, disabledTools := [], approvalPolicy := None)
    else bare
  }

  /** A key that a replacement does not set reads as before if it is kept, and is gone otherwise. */
  lemma ReplacementKey(agent: Agent, container: string, entry: Entry, url: string, key: string)
    requires key !in RouteFields(agent, container, url)
    ensures var after := Replacement(agent, container, entry, url);
      if key in KeptKeys(agent, container) then Get(after, key) == Get(entry, key) && (key in after <==> key in entry) else key !in after
  {
  }

  lemma RouteKeys(agent: Agent, container: string, url: string, key: string)
    requires key !in {"type", "url", "httpUrl", "transport"}
    ensures key !in RouteFields(agent, container, url)
  {
  }

  lemma DirectKeyIsDropped(agent: Agent, container: string, entry: Entry, url: string, key: string)
    requires key !in {"type", "url", "httpUrl", "transport"}
    requires key !in KEPT_KEYS && key !in {"trust", "autoApprove", "alwaysAllow"}
    ensures key !in Replacement(agent, container, entry, url)
  {
    RouteKeys(agent, container, url, key);
    ReplacementKey(agent, container, entry, url, key);
  }

  lemma ReplacementIsBare(agent: Agent, container: string, entry: Entry, url: string)
    ensures var after := Replacement(agent, container, entry, url);
      NoDirectFields(after) && (Get(after, "transport").Object? ==> "headers" !in Get(after, "transport").fields)
  {
    DirectKeyIsDropped(agent, container, entry, url, "command");
    DirectKeyIsDropped(agent, container, entry, url, "args");
    DirectKeyIsDropped(agent, container, entry, url, "env");
    DirectKeyIsDropped(agent, container, entry, url, "cwd");
    DirectKeyIsDropped(agent, container, entry, url, "headers");
    DirectKeyIsDropped(agent, container, entry, url, "headersHelper");
    if agent != Cline {
      ReplacementKey(agent, container, entry, url, "transport");
    }
  }

  lemma SettingKey(agent: Agent, container: string, entry: Entry, url: string, key: string)
    requires key in KEPT_KEYS
    ensures var after := Replacement(agent, container, entry, url);
      if key == "enabled" || !IsMcpContainer(agent, container)
      then Get(after, key) == Get(entry, key) && (key in after <==> key in entry)
      else key !in after
  {
    RouteKeys(agent, container, url, key);
    ReplacementKey(agent, container, entry, url, key);
  }

  lemma ReplacementSettings(agent: Agent, container: string, entry: Entry, url: string)
    ensures var after := Replacement(agent, container, entry, url);
      && (!IsMcpContainer(agent, container) ==> KeepsSettings(entry, after))
      && (IsMcpContainer(agent, container) ==>
            && "disabled" !in after && "enabled_tools" !in after && "disabled_tools" !in after && "approval_policy" !in after
            && ("enabled" in after <==> "enabled" in entry) && Get(after, "enabled") == Get(entry, "enabled"))
  {
    SettingKey(agent, container, entry, url, "enabled");
    SettingKey(agent, container, entry, url, "disabled");
    SettingKey(agent, container, entry, url, "enabled_tools");
    SettingKey(agent, container, entry, url, "disabled_tools");
    SettingKey(agent, container, entry, url, "approval_policy");
  }

  lemma RouteKeyIsKept(agent: Agent, container: string, entry: Entry, url: string, key: string)
    requires key in {"type", "url", "httpUrl", "transport"}
    ensures Get(Replacement(agent, container, entry, url), key) == Get(RouteFields(agent, container, url), key)
  {
    assert key !in KeptKeys(agent, container);
    assert key !in Kept(entry, KeptKeys(agent, container));
  }

  lemma RouteUrl(agent: Agent, container: string, url: string)
    ensures var route := RouteFields(agent, container, url);
      match agent
      case Claude => Get(route, "url") == String(url)
      case OpenCode => Get(route, "url") == String(url)
      case Gemini => Get(route, "url") == Null && Get(route, "httpUrl") == String(url)
      case Cline => Get(route, "url") == Null && TransportUrl(route) == Some(Some(url))
  {
    var transport: Entry := map["type" := String("streamableHttp"), "url" := String(url)];
    assert Get(transport, "type") == String("streamableHttp") && Get(transport, "url") == String(url);
  }

  lemma ReplacementUrl(checks: Checks, agent: Agent, container: string, mount: string, entry: Entry, url: string)
    requires url != ""
    ensures Url(checks, agent, mount, Replacement(agent, container, entry, url), None) == Some(Some(url))
  {
    RouteUrl(agent, container, url);
    RouteKeyIsKept(agent, container, entry, url, "url");
    RouteKeyIsKept(agent, container, entry, url, "httpUrl");
    RouteKeyIsKept(agent, container, entry, url, "transport");
    assert TransportUrl(Replacement(agent, container, entry, url)) == TransportUrl(RouteFields(agent, container, url));
  }

  /** What is known of a readable entry's settings. */
  lemma ReadableSettings(checks: Checks, agent: Agent, container: string, mount: string, entry: Entry)
    requires Observe(checks, agent, container, mount, entry).Some?
    ensures mount != "" && ListField(entry, "disabled_tools").Some? && EnabledTools(entry).Some?
    ensures OptionalString(agent, entry, "approval_policy").Some?
    ensures var o := Observe(checks, agent, container, mount, entry).value;
      && o.containerPath == [container, mount] && o.mountName == mount
      && o.enabled == (EnabledFlag(entry) && !DisabledFlag(entry))
      && o.enabledTools == EnabledTools(entry).value && o.disabledTools == ListField(entry, "disabled_tools").value
      && o.approvalPolicy == OptionalString(agent, entry, "approval_policy").value
      && o.entryHash == checks.entryHash(mount, entry) && o.complete == (entry.Keys <= KnownKeys(agent))
  {
  }

  lemma ReplacementReadsBack(checks: Checks, agent: Agent, container: string, mount: string, entry: Entry, url: string)
    requires Observe(checks, agent, container, mount, entry).Some? && url != ""
    ensures Observe(checks, agent, container, mount, Replacement(agent, container, entry, url))
         == if checks.safeUrl(url) then Some(Routed(checks, agent, Observe(checks, agent, container, mount, entry).value, entry, url)) else None
  {
    var after := Replacement(agent, container, entry, url);
    ReadableSettings(checks, agent, container, mount, entry);
    ReplacementIsBare(agent, container, entry, url);
    ReplacementSettings(agent, container, entry, url);
    ReplacementUrl(checks, agent, container, mount, entry, url);
    if !IsMcpContainer(agent, container) {
      SettingsReadTheSame(agent, entry, after);
    }
    BareEntryIsRemote(checks, agent, container, mount, after, url);
  }

  // ----- A rewritten config, parsed again -----

  function RawEntry(agent: Agent, tree: Value, mount: string): Entry {
    var servers := Servers(agent, tree);
    if servers.Some? && mount in servers.value && servers.value[mount].Object? then servers.value[mount].fields else map[]
  }

  /** Nothing but the one entry differs, in the config's root and among its servers. */
  lemma RewriteTouchesOneEntry(agent: Agent, tree: Value, mount: string, url: string)
    requires Rewrite(agent, tree, mount, url).Some?
    ensures var rewritten := Rewrite(agent, tree, mount, url).value;
      var container := ContainerKey(agent, tree.fields);
      && rewritten.Object? && rewritten.fields.Keys == tree.fields.Keys
      && ContainerKey(agent, rewritten.fields) == container
      && (forall key :: key in tree.fields && key != container ==> rewritten.fields[key] == tree.fields[key])
      && Servers(agent, tree).Some?
      && Servers(agent, rewritten)
         == Some(Servers(agent, tree).value[mount := Object(Replacement(agent, container, RawEntry(agent, tree, mount), url))])
  {
  }

  /** The rewritten entry in the agent's own terms: its route, under the agent's keys; the settings the
      agent keeps, as they were; and no other key. */
  predicate IsRoutedEntry(agent: Agent, underMcp: bool, before: Entry, after: Entry, url: string) {
    var settings := {"enabled", "disabled", "enabled_tools", "disabled_tools", "approval_policy"};
    match agent
    case Cline =>
      && KeepsExactly(before, after, settings + {"autoApprove", "alwaysAllow"}, {"transport"})
      && after["transport"] == Object(map["type" := String("streamableHttp"), "url" := String(url)])
    case Gemini =>
      && KeepsExactly(before, after, settings + {"trust"}, {"type", "httpUrl"})
      && after["type"] == String("http") && after["httpUrl"] == String(url)
    case _ =>
      && KeepsExactly(before, after, if agent == OpenCode && underMcp then {"enabled"} else settings + {"trust"}, {"type", "url"})
      && after["type"] == String(if agent == OpenCode && underMcp then "remote" else "http") && after["url"] == String(url)
  }

  /** The keys are those of the route and those of the settings that were there, which are as they were. */
  predicate KeepsExactly(before: Entry, after: Entry, settings: set<string>, route: set<string>) {
    && after.Keys == route + settings * before.Keys
    && forall key :: key in settings && key in before ==> after[key] == before[key]
  }

  lemma RouteAndKeptKeys(agent: Agent, container: string, entry: Entry, url: string, settings: set<string>, route: set<string>)
    requires KeptKeys(agent, container) == settings && RouteFields(agent, container, url).Keys == route && settings !! route
    ensures KeepsExactly(entry, Replacement(agent, container, entry, url), settings, route)
    ensures forall key :: key in route ==> Replacement(agent, container, entry, url)[key] == RouteFields(agent, container, url)[key]
  {
  }

  lemma ReplacementIsRouted(agent: Agent, container: string, entry: Entry, url: string)
    ensures IsRoutedEntry(agent, container == "mcp", entry, Replacement(agent, container, entry, url), url)
  {
    var settings := {"enabled", "disabled", "enabled_tools", "disabled_tools", "approval_policy"};
    match agent
    case Cline => RouteAndKeptKeys(agent, container, entry, url, settings + {"autoApprove", "alwaysAllow"}, {"transport"});
    case Gemini => RouteAndKeptKeys(agent, container, entry, url, settings + {"trust"}, {"type", "httpUrl"});
    case Claude => RouteAndKeptKeys(agent, container, entry, url, settings + {"trust"}, {"type", "url"});
    case OpenCode =>
      RouteAndKeptKeys(agent, container, entry, url, if container == "mcp" then {"enabled"} else settings + {"trust"}, {"type", "url"});
  }

  /** What the rewritten file says at the mount, field by field. */
  lemma RewrittenEntryTells(agent: Agent, tree: Value, mount: string, url: string)
    requires Rewrite(agent, tree, mount, url).Some?
    ensures tree.Object?
    ensures IsRoutedEntry(agent, "mcp" in tree.fields, RawEntry(agent, tree, mount), RawEntry(agent, Rewrite(agent, tree, mount, url).value, mount), url)
  {
    RewriteTouchesOneEntry(agent, tree, mount, url);
    ReplacementIsRouted(agent, ContainerKey(agent, tree.fields), RawEntry(agent, tree, mount), url);
  }

  lemma ReadOneMore(read: Reader, servers: map<string, Value>, mount: string, raw: Value)
    requires ReadAll(read, servers).Some?
    ensures ReadAll(read, servers[mount := raw])
         == if read(mount, raw).Some? then Some(ReadAll(read, servers).value[mount := read(mount, raw).value]) else None
  {
    var changed := servers[mount := raw];
    forall m | m in changed && m != mount
      ensures read(m, changed[m]).Some?
    {
      assert m in servers && changed[m] == servers[m];
    }
    assert changed[mount] == raw;
    if read(mount, raw).Some? {
      assert ReadAll(read, changed).value == ReadAll(read, servers).value[mount := read(mount, raw).value];
    }
  }

  /** A config parses exactly if its root is an object, its container of servers one too or missing, and
      every server an object that can be read; it then has those servers. */
  lemma ParseTells(checks: Checks, agent: Agent, tree: Value)
    ensures var parsed := Parse(checks, agent, tree);
      var container := if agent == OpenCode && tree.Object? && "mcp" in tree.fields then "mcp" else "mcpServers";
      && (parsed.Some? <==>
            && tree.Object? && (container in tree.fields ==> tree.fields[container].Object?)
            && (container in tree.fields ==>
                  forall m :: m in tree.fields[container].fields ==>
                    IsReadable(checks, agent, container, m, tree.fields[container].fields[m])))
      && (parsed.Some? ==> parsed.value.Keys == if container in tree.fields then tree.fields[container].fields.Keys else {})
  {
    if tree.Object? {
      var container := ContainerKey(agent, tree.fields);
      if container in tree.fields && tree.fields[container].Object? {
        ReadableIffRead(checks, agent, container, tree.fields[container].fields);
      }
    }
  }

  predicate IsReadable(checks: Checks, agent: Agent, container: string, mount: string, raw: Value) {
    raw.Object? && Observe(checks, agent, container, mount, raw.fields).Some?
  }

  lemma ReadableIffRead(checks: Checks, agent: Agent, container: string, servers: map<string, Value>)
    ensures (forall m :: m in servers ==> IsReadable(checks, agent, container, m, servers[m]))
       <==> ReadAll(EntryReader(checks, agent, container), servers).Some?
  {
    var read := EntryReader(checks, agent, container);
    assert forall m :: m in servers ==> read(m, servers[m]).Some? == IsReadable(checks, agent, container, m, servers[m]);
  }

  /** A rewrite is refused exactly without a mount, a URL, or an object to be found at the mount. */
  lemma RewriteRefusesIff(agent: Agent, tree: Value, mount: string, url: string)
    ensures var container := if agent == OpenCode && tree.Object? && "mcp" in tree.fields then "mcp" else "mcpServers";
      Rewrite(agent, tree, mount, url).Some? <==>
      && mount != "" && url != "" && tree.Object? && container in tree.fields && tree.fields[container].Object?
      && mount in tree.fields[container].fields && tree.fields[container].fields[mount].Object?
  {
  }

  lemma ParsedEntry(checks: Checks, agent: Agent, tree: Value, mount: string)
    requires Parse(checks, agent, tree).Some? && mount in Servers(agent, tree).value
    ensures tree.Object? && mount in Parse(checks, agent, tree).value
    ensures Servers(agent, tree).value[mount] == Object(RawEntry(agent, tree, mount))
    ensures Observe(checks, agent, ContainerKey(agent, tree.fields), mount, RawEntry(agent, tree, mount))
         == Some(Parse(checks, agent, tree).value[mount])
  {
    var servers := Servers(agent, tree).value;
    assert EntryReader(checks, agent, ContainerKey(agent, tree.fields))(mount, servers[mount]).Some?;
  }

  /** A config that parses can be rewritten at any of its mounts; parsing the result gives every other
      entry as it was, its hash included, and the routed entry, unless the schema refuses the URL. */
  lemma RewriteThenParse(checks: Checks, agent: Agent, tree: Value, mount: string, url: string)
    requires Parse(checks, agent, tree).Some? && mount in Servers(agent, tree).value && url != ""
    ensures Rewrite(agent, tree, mount, url).Some?
    ensures var before := Parse(checks, agent, tree).value;
      Parse(checks, agent, Rewrite(agent, tree, mount, url).value)
      == if checks.safeUrl(url) then Some(before[mount := Routed(checks, agent, before[mount], RawEntry(agent, tree, mount), url)]) else None
  {
    ParsedEntry(checks, agent, tree, mount);
    var container := ContainerKey(agent, tree.fields);
    var entry := RawEntry(agent, tree, mount);
    ReplacementReadsBack(checks, agent, container, mount, entry, url);
    ReadableSettings(checks, agent, container, mount, entry);
    assert Rewrite(agent, tree, mount, url).Some?;
    RewriteTouchesOneEntry(agent, tree, mount, url);
    ReadOneMore(EntryReader(checks, agent, container), Servers(agent, tree).value, mount, Object(Replacement(agent, container, entry, url)));
  }

  predicate PostStatePasses(checks: Checks, agent: Agent, tree: Value, mount: string, url: string) {
    var parsed := Parse(checks, agent, tree);
    && url != "" && parsed.Some? && mount in parsed.value
    && parsed.value[mount].transport == StreamableHttp && parsed.value[mount].url == Some(url)
    && parsed.value[mount].command == None && parsed.value[mount].args == []
  }

  /** What passes the post-write check has, in the file itself, no command, no arguments and no other URL. */
  lemma PostStateHoldsInTheFile(checks: Checks, agent: Agent, tree: Value, mount: string, url: string)
    requires PostStatePasses(checks, agent, tree, mount, url)
    ensures var entry := RawEntry(agent, tree, mount);
      && url != "" && IsText(agent, entry, "command", None) && ("args" in entry ==> entry["args"] == Array([]))
      && (agent == Claude || agent == OpenCode ==> "url" in entry && entry["url"] == String(url))
      && (agent == Gemini || agent == Cline ==> "url" in entry && entry["url"].String? && entry["url"] != String("") ==> entry["url"] == String(url))
  {
    ParsedMount(checks, agent, tree, mount);
    ParsedEntry(checks, agent, tree, mount);
    var container := ContainerKey(agent, tree.fields);
    ObservedCommandTells(checks, agent, container, mount, RawEntry(agent, tree, mount));
    ObservedUrlTells(checks, agent, container, mount, RawEntry(agent, tree, mount));
  }

  lemma ParsedMount(checks: Checks, agent: Agent, tree: Value, mount: string)
    requires Parse(checks, agent, tree).Some? && mount in Parse(checks, agent, tree).value
    ensures mount in Servers(agent, tree).value
  {
  }

  /** For an entry that the pre-image check could find, the post-write check passes exactly for a URL
      that the schema accepts. */
  lemma PostStatePassesIffUrlIsSafe(checks: Checks, agent: Agent, tree: Value, mount: string, url: string)
    requires Parse(checks, agent, tree).Some? && mount in Servers(agent, tree).value && url != ""
    ensures Rewrite(agent, tree, mount, url).Some?
    ensures PostStatePasses(checks, agent, Rewrite(agent, tree, mount, url).value, mount, url) <==> checks.safeUrl(url)
  {
    RewriteThenParse(checks, agent, tree, mount, url);
  }

  lemma RoutedEnabled(checks: Checks, agent: Agent, before: ObservedEntry, entry: Entry, container: string, url: string)
    requires before.containerPath == [container, before.mountName] && before.enabled == (EnabledFlag(entry) && !DisabledFlag(entry))
    ensures Routed(checks, agent, before, entry, url).enabled
         == (before.enabled || (IsMcpContainer(agent, container) && EnabledFlag(entry) && DisabledFlag(entry)))
  {
  }

  /** A rewrite turns a server on exactly when the server is under OpenCode's mcp key, is disabled by its
      disabled field, and would otherwise be on; it never turns one off. */
  lemma RewriteEnablesIff(checks: Checks, agent: Agent, tree: Value, mount: string, url: string)
    requires Parse(checks, agent, tree).Some? && mount in Servers(agent, tree).value && url != "" && checks.safeUrl(url)
    ensures Rewrite(agent, tree, mount, url).Some?
    ensures var after := Parse(checks, agent, Rewrite(agent, tree, mount, url).value);
      && after.Some? && mount in after.value && tree.Object?
      && after.value[mount].enabled
         == (Parse(checks, agent, tree).value[mount].enabled
             || (IsMcpContainer(agent, ContainerKey(agent, tree.fields))
                 && EnabledFlag(RawEntry(agent, tree, mount)) && DisabledFlag(RawEntry(agent, tree, mount))))
  {
    var before := Parse(checks, agent, tree).value[mount];
    var entry := RawEntry(agent, tree, mount);
    ParsedEntry(checks, agent, tree, mount);
    var container := ContainerKey(agent, tree.fields);
    ReadableSettings(checks, agent, container, mount, entry);
    RoutedEnabled(checks, agent, before, entry, container, url);
    RewriteThenParse(checks, agent, tree, mount, url);
  }

  function DisabledServer(): Entry {
    map["command" := String("db"), "disabled" := Bool(true)]
  }

  lemma DisabledServerReads(checks: Checks)
    requires checks.safeCommand("db")
    ensures Observe(checks, OpenCode, "mcp", "db", DisabledServer()).Some?
    ensures EnabledFlag(DisabledServer()) && DisabledFlag(DisabledServer())
  {
    var entry := DisabledServer();
    assert Get(entry, "command") == String("db") && Get(entry, "disabled") == Bool(true);
    assert forall key :: key !in {"command", "disabled"} ==> key !in entry;
  }

  /** A disabled OpenCode server that a rewrite turns on. */
  lemma DisabledServerIsTurnedOn(checks: Checks, url: string)
    requires checks.safeCommand("db") && checks.safeUrl(url) && url != ""
    ensures var tree := Object(map["mcp" := Object(map["db" := Object(DisabledServer())])]);
      var before := Parse(checks, OpenCode, tree);
      && before.Some? && "db" in before.value && !before.value["db"].enabled
      && Rewrite(OpenCode, tree, "db", url).Some?
      && (var after := Parse(checks, OpenCode, Rewrite(OpenCode, tree, "db", url).value);
          after.Some? && "db" in after.value && after.value["db"].enabled)
  {
    var servers: map<string, Value> := map["db" := Object(DisabledServer())];
    var root: map<string, Value> := map["mcp" := Object(servers)];
    DisabledServerReads(checks);
    assert ContainerKey(OpenCode, root) == "mcp" && Servers(OpenCode, Object(root)) == Some(servers);
    assert Parse(checks, OpenCode, Object(root)).Some?;
    ParsedEntry(checks, OpenCode, Object(root), "db");
    ReadableSettings(checks, OpenCode, "mcp", "db", DisabledServer());
    RewriteEnablesIff(checks, OpenCode, Object(root), "db", url);
  }

  /** The parser understands a replacement completely if it understood the entry completely. */
  lemma ReplacementStaysComplete(agent: Agent, container: string, entry: Entry, url: string)
    requires entry.Keys <= KnownKeys(agent)
    ensures Replacement(agent, container, entry, url).Keys <= KnownKeys(agent)
  {
    assert RouteFields(agent, container, url).Keys <= KnownKeys(agent);
    assert Kept(entry, KeptKeys(agent, container)).Keys <= entry.Keys;
  }

  lemma RouteKeyIsNotKept(agent: Agent, container: string, url: string, key: string)
    requires key in RouteFields(agent, container, url)
    ensures key !in KeptKeys(agent, container)
  {
    assert key in {"type", "url", "httpUrl", "transport"};
  }

  lemma ReplacementIsIdempotent(agent: Agent, container: string, entry: Entry, url: string)
    ensures var once := Replacement(agent, container, entry, url); Replacement(agent, container, once, url) == once
  {
    var once := Replacement(agent, container, entry, url);
    var keys := KeptKeys(agent, container);
    forall key | key in RouteFields(agent, container, url)
      ensures key !in keys
    {
      RouteKeyIsNotKept(agent, container, url, key);
    }
    assert Kept(once, keys) == Kept(entry, keys);
  }

  /** Rewriting an entry again to the same URL changes nothing. */
  lemma RewriteIsIdempotent(agent: Agent, tree: Value, mount: string, url: string)
    requires Rewrite(agent, tree, mount, url).Some?
    ensures Rewrite(agent, Rewrite(agent, tree, mount, url).value, mount, url) == Rewrite(agent, tree, mount, url)
  {
    var container := ContainerKey(agent, tree.fields);
    var once := Replacement(agent, container, RawEntry(agent, tree, mount), url);
    RewriteTouchesOneEntry(agent, tree, mount, url);
    ReplacementIsIdempotent(agent, container, RawEntry(agent, tree, mount), url);
    var rewritten := Rewrite(agent, tree, mount, url).value;
    var servers := rewritten.fields[container].fields;
    assert servers[mount] == Object(once);
    assert servers[mount := Object(once)] == servers;
    assert rewritten.fields[container := Object(servers)] == rewritten.fields;
  }

  // ----- An example -----

  function DirectServer(): Entry {
    map["command" := String("db")]
  }

  function DirectConfig(agent: Agent): Value {
    Object(map[if agent == OpenCode then "mcp" else "mcpServers" := Object(map["db" := Object(DirectServer())])])
  }

  lemma DirectServerReads(checks: Checks, agent: Agent, container: string)
    requires checks.safeCommand("db")
    ensures Observe(checks, agent, container, "db", DirectServer())
         == Some(ObservedEntry([container, "db"], "db", true, Stdio, Some("db"), [], None, {}, {}, None, None, [], None,
                               checks.entryHash("db", DirectServer()), true))
  {
    var entry := DirectServer();
    assert Get(entry, "command") == String("db");
    assert forall key :: key != "command" ==> key !in entry;
  }

  lemma DirectConfigParses(checks: Checks, agent: Agent)
    requires checks.safeCommand("db")
    ensures Servers(agent, DirectConfig(agent)) == Some(map["db" := Object(DirectServer())])
    ensures Parse(checks, agent, DirectConfig(agent)).Some? && "db" in Parse(checks, agent, DirectConfig(agent)).value
    ensures Some(Parse(checks, agent, DirectConfig(agent)).value["db"])
         == Observe(checks, agent, ContainerKey(agent, DirectConfig(agent).fields), "db", DirectServer())
  {
    DirectServerReads(checks, agent, ContainerKey(agent, DirectConfig(agent).fields));
  }
}
