/**
 Applying a rewrite plan to a JSON config: the remediation lifecycle with the agents' own parsers and
 rewriters in the places where it asks about a config.
 */
module JsonApply {
  import opened Common
  import opened Json
  import A = AgentConfig
  import R = Remediation
  import JsoncComments

  /** UTF-8 and JSON text. */
  datatype Codec = Codec(
    decode: R.Bytes -> Option<string>, encode: string -> R.Bytes, loads: string -> Option<Value>, dumps: Value -> string)

  /** The agents with JSON configs, told by the prefix of the agent's id; all others have Codex TOML. */
  function JsonAgent(agentId: string): Option<A.Agent> {
    if StartsWith(agentId, "agent_claude_") then Some(A.Claude)
    else if StartsWith(agentId, "agent_gemini_") then Some(A.Gemini)
    else if StartsWith(agentId, "agent_cline_") then Some(A.Cline)
    else if StartsWith(agentId, "agent_opencode_") then Some(A.OpenCode)
    else None
  }

  function AgentPrefix(agent: A.Agent): string {
    match agent
    case Claude => "agent_claude_"
    case Gemini => "agent_gemini_"
    case Cline => "agent_cline_"
    case OpenCode => "agent_opencode_"
  }

  /** Which agent an id names is told by what it starts with. */
  lemma AgentIsToldByPrefix(agent: A.Agent, rest: string)
    ensures JsonAgent(AgentPrefix(agent) + rest) == Some(agent)
  {
    var id := AgentPrefix(agent) + rest;
    assert id[..|AgentPrefix(agent)|] == AgentPrefix(agent);
    assert id[6] == AgentPrefix(agent)[6] && id[8] == AgentPrefix(agent)[8];
    forall other: A.Agent | StartsWith(id, AgentPrefix(other))
      ensures id[6] == AgentPrefix(other)[6] && id[8] == AgentPrefix(other)[8]
    {
      assert id[..|AgentPrefix(other)|][6] == id[6] && id[..|AgentPrefix(other)|][8] == id[8];
    }
    PrefixLetters();
    forall other: A.Agent | other != agent
      ensures !StartsWith(id, AgentPrefix(other))
    {
    }
    assert StartsWith(id, AgentPrefix(agent));
    FirstPrefixNames(id, agent);
  }

  lemma PrefixLetters()
    ensures AgentPrefix(A.Claude)[6] == 'c' && AgentPrefix(A.Claude)[8] == 'a'
    ensures AgentPrefix(A.Cline)[6] == 'c' && AgentPrefix(A.Cline)[8] == 'i'
    ensures AgentPrefix(A.Gemini)[6] == 'g' && AgentPrefix(A.OpenCode)[6] == 'o'
  {
  }

  lemma FirstPrefixNames(id: string, agent: A.Agent)
    requires StartsWith(id, AgentPrefix(agent)) && forall other: A.Agent :: other != agent ==> !StartsWith(id, AgentPrefix(other))
    ensures JsonAgent(id) == Some(agent)
  {
    assert agent != A.Claude ==> !StartsWith(id, AgentPrefix(A.Claude));
    assert agent != A.Gemini ==> !StartsWith(id, AgentPrefix(A.Gemini));
    assert agent != A.Cline ==> !StartsWith(id, AgentPrefix(A.Cline));
  }

  /** The OpenCode parser strips comments first; the rewriters read strict JSON. */
  function ReadTree(codec: Codec, agent: A.Agent, content: R.Bytes): Option<Value> {
    var text :- codec.decode(content);
    codec.loads(if agent == A.OpenCode then JsoncComments.Code(text) else text)
  }

  function ObservedHash(codec: Codec, checks: A.Checks, agent: A.Agent, edit: R.Edit, content: R.Bytes): Option<string> {
    var tree :- ReadTree(codec, agent, content);
    var entries :- A.Parse(checks, agent, tree);
    if edit.before.mountName in entries then Some(entries[edit.before.mountName].entryHash) else None
  }

  /** The config parses, and has the plan's entry. */
  predicate Observes(codec: Codec, checks: A.Checks, agent: A.Agent, edit: R.Edit, content: R.Bytes) {
    var tree := ReadTree(codec, agent, content);
    && tree.Some? && A.Parse(checks, agent, tree.value).Some?
    && edit.before.mountName in A.Servers(agent, tree.value).value
  }

  lemma ObservedHashNeedsEntry(codec: Codec, checks: A.Checks, agent: A.Agent, edit: R.Edit, content: R.Bytes)
    ensures ObservedHash(codec, checks, agent, edit, content).Some? <==> Observes(codec, checks, agent, edit, content)
  {
  }

  function RewrittenTree(codec: Codec, agent: A.Agent, edit: R.Edit, content: R.Bytes): Option<Value> {
    var text :- codec.decode(content);
    var tree :- codec.loads(text);
    var url :- edit.after.url;
    A.Rewrite(agent, tree, edit.before.mountName, url)
  }

  /** The rewritten text, if it is JSON again. */
  function Rewritten(codec: Codec, agent: A.Agent, edit: R.Edit, content: R.Bytes): Option<R.Bytes> {
    var tree :- RewrittenTree(codec, agent, edit, content);
    var text := codec.dumps(tree);
    if codec.loads(text).None? then None else Some(codec.encode(text))
  }

  predicate Verified(codec: Codec, checks: A.Checks, agent: A.Agent, edit: R.Edit, content: R.Bytes) {
    var tree := ReadTree(codec, agent, content);
    edit.after.url.Some? && tree.Some? && A.PostStatePasses(checks, agent, tree.value, edit.after.mountName, edit.after.url.value)
  }

  /** The lifecycle's configuration, with the parsers and rewriters of the JSON agents. */
  function WithJson(cfg: R.Config, codec: Codec, checks: A.Checks): R.Config {
    cfg.(
    observedHash := (edit: R.Edit, content: R.Bytes) =>
      var agent := JsonAgent(edit.agentId);
      if agent.Some? then ObservedHash(codec, checks, agent.value, edit, content) else cfg.observedHash(edit, content),
    rewrite := (edit: R.Edit, content: R.Bytes) =>
      var agent := JsonAgent(edit.agentId);
      if agent.Some? then Rewritten(codec, agent.value, edit, content) else cfg.rewrite(edit, content),
    verified := (edit: R.Edit, content: R.Bytes) =>
      var agent := JsonAgent(edit.agentId);
      if agent.Some? then Verified(codec, checks, agent.value, edit, content) else cfg.verified(edit, content))
  }

  /** Dumping the tree and loading it gives it back, and the text has no `/` outside its strings. */
  predicate RoundTrips(codec: Codec, tree: Value) {
    var text := codec.dumps(tree);
    codec.decode(codec.encode(text)) == Some(text) && codec.loads(text) == Some(tree) && JsoncComments.SlashFree(text)
  }

  predicate IsStrictJson(codec: Codec, content: R.Bytes) {
    codec.decode(content).Some? && codec.loads(codec.decode(content).value).Some?
  }

  /** Text that is JSON as it stands has no `/` outside its strings, and what is dumped can be loaded. */
  predicate JsonIsSound(codec: Codec, agent: A.Agent, edit: R.Edit, content: R.Bytes) {
    && (IsStrictJson(codec, content) ==> JsoncComments.SlashFree(codec.decode(content).value))
    && (RewrittenTree(codec, agent, edit, content).Some? ==> RoundTrips(codec, RewrittenTree(codec, agent, edit, content).value))
  }

  lemma StrictJsonReads(codec: Codec, agent: A.Agent, edit: R.Edit, content: R.Bytes)
    requires JsonIsSound(codec, agent, edit, content) && IsStrictJson(codec, content)
    ensures ReadTree(codec, agent, content) == codec.loads(codec.decode(content).value)
  {
    JsoncComments.SlashFreeIsUnchanged(codec.decode(content).value);
  }

  lemma DumpedTreeReads(codec: Codec, agent: A.Agent, tree: Value)
    requires RoundTrips(codec, tree)
    ensures ReadTree(codec, agent, codec.encode(codec.dumps(tree))) == Some(tree)
  {
    JsoncComments.SlashFreeIsUnchanged(codec.dumps(tree));
  }

  /** A config whose entry was observed is rewritten if it is strict JSON, and only then; the rewritten
      text passes the post-write check exactly if the schema accepts the URL. */
  lemma RewriteVerifiesIff(codec: Codec, checks: A.Checks, agent: A.Agent, edit: R.Edit, content: R.Bytes, url: string)
    requires Observes(codec, checks, agent, edit, content) && JsonIsSound(codec, agent, edit, content)
    requires edit.after.url == Some(url) && url != "" && edit.after.mountName == edit.before.mountName
    ensures Rewritten(codec, agent, edit, content).Some? <==> IsStrictJson(codec, content)
    ensures IsStrictJson(codec, content) ==>
              (Verified(codec, checks, agent, edit, Rewritten(codec, agent, edit, content).value) <==> checks.safeUrl(url))
  {
    if IsStrictJson(codec, content) {
      StrictJsonReads(codec, agent, edit, content);
      var tree := codec.loads(codec.decode(content).value).value;
      var mount := edit.before.mountName;
      A.PostStatePassesIffUrlIsSafe(checks, agent, tree, mount, url);
      var rewritten := A.Rewrite(agent, tree, mount, url).value;
      assert RewrittenTree(codec, agent, edit, content) == Some(rewritten);
      DumpedTreeReads(codec, agent, rewritten);
    }
  }

  predicate Unfaulted(w: R.World, env: R.ApplyEnv) {
    && env.backupWritten.None? && env.backupId !in w.backups
    && env.write == R.NoFault && env.validatorPasses && env.rollbackWrite == R.NoFault
  }

  /** An apply that is allowed and meets no fault succeeds exactly if the config is strict JSON, which
      leaves out an OpenCode config with comments, and the schema accepts the planned URL; otherwise it
      gives the config its bytes back. */
  lemma UnfaultedApplySucceedsIff(base: R.Config, codec: Codec, checks: A.Checks, w: R.World, planId: string, env: R.ApplyEnv, url: string)
    requires R.MayApply(WithJson(base, codec, checks), w, planId) && Unfaulted(w, env)
    requires env.backupPath != w.plans[planId].targetPath
    requires var plan := w.plans[planId];
      var agent := JsonAgent(plan.edit.agentId);
      && agent.Some? && JsonIsSound(codec, agent.value, plan.edit, w.files[plan.targetPath])
      && plan.edit.after.url == Some(url) && url != "" && plan.edit.after.mountName == plan.edit.before.mountName
    ensures var plan := w.plans[planId];
      var content := w.files[plan.targetPath];
      var (w', end) := R.Apply(WithJson(base, codec, checks), w, planId, env);
      && plan.targetPath in w'.files
      && if IsStrictJson(codec, content) && checks.safeUrl(url)
         then end == R.ApplySucceeded && Some(w'.files[plan.targetPath]) == Rewritten(codec, JsonAgent(plan.edit.agentId).value, plan.edit, content)
         else end == R.ApplyRestored && w'.files[plan.targetPath] == content
  {
    var cfg := WithJson(base, codec, checks);
    var plan := w.plans[planId];
    var content := w.files[plan.targetPath];
    var agent := JsonAgent(plan.edit.agentId).value;
    ObservedHashNeedsEntry(codec, checks, agent, plan.edit, content);
    RewriteVerifiesIff(codec, checks, agent, plan.edit, content, url);
    assert cfg.rewrite(plan.edit, content) == Rewritten(codec, agent, plan.edit, content);
    assert R.WriteSucceeds(cfg, plan, content, env) <==> IsStrictJson(codec, content) && checks.safeUrl(url);
    R.ApplyLeavesNoDamage(cfg, w, planId, env);
  }

  // ----- An OpenCode config with a comment -----

  const PLAIN_TEXT := "{\"mcp\": {\"db\": {\"command\": \"db\"}}}"
  const COMMENTED_TEXT := "//" + "local" + "\n" + PLAIN_TEXT

  lemma CommentedTextStrips()
    ensures JsoncComments.Code(COMMENTED_TEXT) == "\n" + PLAIN_TEXT
  {
    assert forall i :: 0 <= i < |PLAIN_TEXT| ==> PLAIN_TEXT[i] != '/';
    JsoncComments.LeadingCommentStrips("local", PLAIN_TEXT);
  }

  /** An approved plan to route its one server. */
  function CommentedWorld(checks: A.Checks, content: R.Bytes): R.World {
    var direct := R.Projection("db", "stdio", Some("db"), None, [], None);
    var routed := R.Projection("db", "streamable_http", None, None, [], Some("http://127.0.0.1:30000/servers/db/mcp"));
    R.World(map["/config" := content],
            map["p" := R.Plan(R.RewriteKnownDirect, R.Approved, "/config", checks.entryHash("db", A.DirectServer()), true, [],
                              R.Edit("agent_opencode_user", "obs_db", direct, routed))],
            map["p" := R.Approval(R.IsApproved, "cli")], map[], [])
  }

  const QUIET_ENV := R.ApplyEnv("bak", "/bak", None, R.NoFault, true, R.NoFault)

  lemma CommentedConfigIsObserved(codec: Codec, checks: A.Checks, edit: R.Edit, content: R.Bytes)
    requires codec.decode(content) == Some(COMMENTED_TEXT) && codec.loads("\n" + PLAIN_TEXT) == Some(A.DirectConfig(A.OpenCode))
    requires checks.safeCommand("db") && edit.before.mountName == "db"
    ensures ObservedHash(codec, checks, A.OpenCode, edit, content) == Some(checks.entryHash("db", A.DirectServer()))
  {
    CommentedTextStrips();
    A.DirectConfigParses(checks, A.OpenCode);
    A.DirectServerReads(checks, A.OpenCode, A.ContainerKey(A.OpenCode, A.DirectConfig(A.OpenCode).fields));
  }

  lemma OpenCodeAgent()
    ensures JsonAgent("agent_opencode_user") == Some(A.OpenCode)
  {
    var id := "agent_opencode_user";
    assert id[6] == 'o' && "agent_claude_"[6] == 'c' && "agent_gemini_"[6] == 'g' && "agent_cline_"[6] == 'c';
    assert id[..13][6] == 'o' && id[..12][6] == 'o';
    assert id[..15] == "agent_opencode_";
  }

  /** Such a config parses and the apply of the approved plan is allowed, meets no fault, and still ends
      failed with the config restored. */
  lemma CommentedConfigIsRestored(base: R.Config, codec: Codec, checks: A.Checks, content: R.Bytes)
    requires codec.decode(content) == Some(COMMENTED_TEXT)
    requires codec.loads(COMMENTED_TEXT) == None && codec.loads("\n" + PLAIN_TEXT) == Some(A.DirectConfig(A.OpenCode))
    requires checks.safeCommand("db") && checks.entryHash("db", A.DirectServer()) != ""
    ensures var cfg := WithJson(base, codec, checks);
      var w := CommentedWorld(checks, content);
      && R.MayApply(cfg, w, "p") && Unfaulted(w, QUIET_ENV)
      && var (w', end) := R.Apply(cfg, w, "p", QUIET_ENV);
      && end == R.ApplyRestored && "/config" in w'.files && w'.files["/config"] == content
  {
    var cfg := WithJson(base, codec, checks);
    var w := CommentedWorld(checks, content);
    var plan := w.plans["p"];
    OpenCodeAgent();
    CommentedConfigIsObserved(codec, checks, plan.edit, content);
    assert cfg.observedHash(plan.edit, content) == Some(plan.expectedPreimageHash);
    assert R.MayApply(cfg, w, "p");
    UnfaultedApplySucceedsIff(base, codec, checks, w, "p", QUIET_ENV, plan.edit.after.url.value);
  }
}
