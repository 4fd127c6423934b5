/**
 The runtime proxy of the daemon as a state machine: what each HTTP handler, run as one atomic
 step, does to the two runtime tables and the two handle registries, and what every run keeps.
 */
module RuntimeProxy {
  import opened Common
  import opened PoolKeys
  import Json

  datatype CatalogEntry = CatalogEntry(
    catalogId: string, name: string, shareability: Shareability, backendType: BackendType,
    command: Option<string>, url: Option<string>, idleTimeoutSec: int)

  /** The catalog, fixed during a run: routable entries by server name, and all entries by id. */
  datatype Config = Config(routable: map<string, CatalogEntry>, catalog: map<string, CatalogEntry>, digest: Digest)

  datatype FrontendSession = FrontendSession(
    backendId: Option<string>, serverName: string, agentId: Option<string>, workspaceRoot: Option<string>)

  datatype BackendState = Starting | Hot | Crashed | Stopped

  datatype BackendSession = BackendSession(
    catalogId: string, runtimePoolKey: string, state: BackendState,
    backendInitializeCount: nat, frontendSessionCount: nat,
    initializeResult: Option<Json.Value>, lastUsedAt: int)

  datatype State = State(
    sessions: map<string, FrontendSession>,
    backends: map<string, BackendSession>,
    processes: set<string>,  // backend ids in the stdio registry
    clients: set<string>)    // backend ids in the HTTP registry

  predicate ConfigOk(cfg: Config) {
    forall name :: name in cfg.routable ==>
      && cfg.routable[name].name == name
      && cfg.routable[name].catalogId in cfg.catalog
      && cfg.catalog[cfg.routable[name].catalogId] == cfg.routable[name]
  }

  predicate Proxied(entry: CatalogEntry) {
    entry.shareability != NoProxy && entry.backendType != Sse
  }

  /** The pool of a frontend session.  The daemon never passes an account scope. */
  function SessionPool(entry: CatalogEntry, sessionId: string, session: FrontendSession): Option<Pool> {
    PoolFor(entry.catalogId, entry.shareability, sessionId, session.workspaceRoot, session.agentId, None, entry.url, entry.backendType)
  }

  function SessionKey(cfg: Config, entry: CatalogEntry, sessionId: string, session: FrontendSession): string
    requires Proxied(entry)
  {
    RuntimePoolKey(cfg.digest, SessionPool(entry, sessionId, session).value)
  }

  /** The deterministic id of the backend row of a pool. */
  function NewBackendId(cfg: Config, catalogId: string, poolKey: string): string {
    "be_" + cfg.digest(Text(catalogId + "\0" + poolKey))
  }

  // ----- Registries -----

  predicate Registered(s: State, entry: CatalogEntry, backendId: string) {
    if entry.backendType == Stdio then backendId in s.processes else backendId in s.clients
  }

  function Register(s: State, entry: CatalogEntry, backendId: string): State {
    if entry.backendType == Stdio then s.(processes := s.processes + {backendId})
    else s.(clients := s.clients + {backendId})
  }

  function Close(s: State, entry: CatalogEntry, backendId: string): State {
    if entry.backendType == Stdio then s.(processes := s.processes - {backendId})
    else s.(clients := s.clients - {backendId})
  }

  // ----- Handlers -----

  /** How starting a backend process goes: it starts, a credential is missing, or the spawn fails
      with an operating-system error, which `initialize` handles and a restart does not. */
  datatype Start = Started | CredentialMissing | SpawnFails

  /** How one exchange with a backend goes: it is answered, it fails with an error that the handlers
      expect, or reading the reply raises one that no handler catches, as a line that is not UTF-8 or a
      truncated HTTP response does. */
  datatype Reply = Answered(result: Json.Value) | Failed | Raised

  /** What the environment decides in one `initialize`: whether the named agent is registered (the
      session table refers to it), how the process starts, and the backend's reply. */
  datatype InitializeEnv = InitializeEnv(agentKnown: bool, start: Start, reply: Reply)

  function OpenSession(s: State, sessionId: string, session: FrontendSession): State {
    s.(sessions := s.sessions[sessionId := session.(backendId := None)])
  }

  function Attach(s: State, sessionId: string, backendId: string): State
    requires sessionId in s.sessions
  {
    s.(sessions := s.sessions[sessionId := s.sessions[sessionId].(backendId := Some(backendId))])
  }

  function SetBackend(s: State, backendId: string, backend: BackendSession): State {
    s.(backends := s.backends[backendId := backend])
  }

  /** A hot backend of the pool takes one more session. */
  function Reuse(s: State, sessionId: string, backendId: string, now: int): State
    requires sessionId in s.sessions && backendId in s.backends
  {
    var backend := s.backends[backendId];
    Attach(SetBackend(s, backendId, backend.(frontendSessionCount := backend.frontendSessionCount + 1, lastUsedAt := now)),
           sessionId, backendId)
  }

  /** A new backend row is inserted with one session; the session is attached if the backend answers
      its `initialize`, and the handle is closed again if the exchange fails.  If it raises, the row and
      the handle stay as they were made. */
  function StartFirst(s: State, sessionId: string, entry: CatalogEntry, backendId: string, key: string, now: int, reply: Reply): State
    requires sessionId in s.sessions
  {
    match reply
    case Answered(result) =>
      Attach(Register(SetBackend(s, backendId, BackendSession(entry.catalogId, key, Hot, 1, 1, Some(result), now)), entry, backendId),
             sessionId, backendId)
    case Failed =>
      Close(SetBackend(s, backendId, BackendSession(entry.catalogId, key, Crashed, 0, 1, None, now)), entry, backendId)
    case Raised =>
      Register(SetBackend(s, backendId, BackendSession(entry.catalogId, key, Starting, 0, 1, None, now)), entry, backendId)
  }

  predicate HotFor(s: State, backendId: string, entry: CatalogEntry, key: string) {
    && backendId in s.backends && s.backends[backendId].state == Hot
    && s.backends[backendId].catalogId == entry.catalogId && s.backends[backendId].runtimePoolKey == key
  }

  function Initialize(cfg: Config, s: State, sessionId: string, request: FrontendSession, now: int, env: InitializeEnv): State {
    if request.serverName !in cfg.routable then s
    else
      var entry := cfg.routable[request.serverName];
      if !Proxied(entry) || (entry.backendType != Stdio && entry.url.None?) then s
      else if sessionId in s.sessions || !env.agentKnown then s
      else
        var created := OpenSession(s, sessionId, request);
        if entry.backendType == Stdio && entry.command.None? then created
        else
          var key := SessionKey(cfg, entry, sessionId, request);
          var backendId := NewBackendId(cfg, entry.catalogId, key);
          if HotFor(s, backendId, entry, key) then Reuse(created, sessionId, backendId, now)
          else if entry.backendType == Stdio && env.start != Started then created
          else if backendId in s.backends then created  // the insert is refused
          else StartFirst(created, sessionId, entry, backendId, key, now, env.reply)
  }

  datatype RequestKind = Call | Notification | Cancellation

  /** What the environment decides in one request on a session: whether the protocol version header
      agrees, and how a restart, its `initialize` and the request itself go. */
  datatype RequestEnv = RequestEnv(versionAgrees: bool, start: Start, restartReply: Reply, reply: Reply)

  function MarkCrashed(s: State, backendId: string, now: int): State
    requires backendId in s.backends
  {
    SetBackend(s, backendId, s.backends[backendId].(state := Crashed, lastUsedAt := now))
  }

  function Touch(s: State, backendId: string, now: int): State
    requires backendId in s.backends
  {
    SetBackend(s, backendId, s.backends[backendId].(lastUsedAt := now))
  }

  /** A crashed backend is restarted before the call, with the session count of `snapshot`, the row
      as the handler read it. */
  function Restart(s: State, entry: CatalogEntry, backendId: string, snapshot: BackendSession, now: int, env: RequestEnv): State
    requires backendId in s.backends
  {
    if entry.backendType == Sse || (entry.backendType == Stdio && entry.command.None?)
       || (entry.backendType != Stdio && entry.url.None?) then
      MarkCrashed(s, backendId, now)
    else if entry.backendType == Stdio && env.start == CredentialMissing then MarkCrashed(s, backendId, now)
    else if entry.backendType == Stdio && env.start == SpawnFails then s
    else
      var count := if snapshot.frontendSessionCount > 1 then snapshot.frontendSessionCount else 1;
      var starting := s.backends[backendId].(state := Starting, frontendSessionCount := count, initializeResult := None, lastUsedAt := now);
      var row :=
        match env.restartReply
        case Answered(result) =>
          starting.(state := Hot, initializeResult := Some(result), backendInitializeCount := snapshot.backendInitializeCount + 1)
        case Failed => starting.(state := Crashed)
        case Raised => starting;
      Register(SetBackend(s, backendId, row), entry, backendId)
  }

  function Forward(s: State, entry: CatalogEntry, backendId: string, now: int, env: RequestEnv): State
    requires backendId in s.backends
  {
    if entry.backendType == Sse || !Registered(s, entry, backendId) || env.reply.Failed? then MarkCrashed(s, backendId, now)
    else if env.reply.Raised? then s
    else Touch(s, backendId, now)
  }

  /** A request that expects a reply. */
  function CallBackend(s: State, entry: CatalogEntry, backendId: string, now: int, env: RequestEnv): State
    requires backendId in s.backends
  {
    if s.backends[backendId].state == Crashed then
      var restarted := Restart(s, entry, backendId, s.backends[backendId], now, env);
      if restarted.backends[backendId].state == Hot then Forward(restarted, entry, backendId, now, env) else restarted
    else Forward(s, entry, backendId, now, env)
  }

  function Request(cfg: Config, s: State, sessionId: string, kind: RequestKind, now: int, env: RequestEnv): State {
    if sessionId !in s.sessions || !env.versionAgrees || s.sessions[sessionId].backendId.None? then s
    else
      var backendId := s.sessions[sessionId].backendId.value;
      if backendId !in s.backends || s.backends[backendId].catalogId !in cfg.catalog then s
      else
        var backend := s.backends[backendId];
        var entry := cfg.catalog[backend.catalogId];
        match kind
        case Cancellation => s
        case Notification =>
          if env.reply.Answered? && entry.backendType != Sse && Registered(s, entry, backendId) then Touch(s, backendId, now) else s
        case Call => CallBackend(s, entry, backendId, now, env)
  }

  /** One session fewer on a backend; at none left it is closed and stopped. */
  function Detach(entry: CatalogEntry, s: State, backendId: string, now: int): State
    requires backendId in s.backends
  {
    var backend := s.backends[backendId];
    var count: nat := if backend.frontendSessionCount > 0 then backend.frontendSessionCount - 1 else 0;
    var row := backend.(frontendSessionCount := count, lastUsedAt := now);
    if count > 0 then SetBackend(s, backendId, row)
    else Close(SetBackend(s, backendId, row.(state := Stopped)), entry, backendId)
  }

  function Delete(cfg: Config, s: State, sessionId: string, now: int, versionAgrees: bool): State {
    if sessionId !in s.sessions || !versionAgrees then s
    else if s.sessions[sessionId].backendId.None? then s.(sessions := s.sessions - {sessionId})
    else
      var backendId := s.sessions[sessionId].backendId.value;
      if backendId !in s.backends || s.backends[backendId].catalogId !in cfg.catalog then s
      else
        Detach(cfg.catalog[s.backends[backendId].catalogId], s.(sessions := s.sessions - {sessionId}), backendId, now)
  }

  /** Whether the reaper takes a backend. */
  predicate Idle(cfg: Config, backend: BackendSession, now: int) {
    && backend.state == Hot && backend.frontendSessionCount == 0
    && backend.catalogId in cfg.catalog
    && now - backend.lastUsedAt >= cfg.catalog[backend.catalogId].idleTimeoutSec
  }

  function Reaped(cfg: Config, s: State, now: int): set<string> {
    set b | b in s.backends && Idle(cfg, s.backends[b], now)
  }

  /** The tables once these backends are closed and stopped. */
  function Retire(cfg: Config, s: State, reaped: set<string>, now: int): State
    requires forall b :: b in reaped ==> b in s.backends && s.backends[b].catalogId in cfg.catalog
  {
    State(s.sessions,
          map b | b in s.backends :: if b in reaped then s.backends[b].(state := Stopped, lastUsedAt := now) else s.backends[b],
          set h | h in s.processes && !(h in reaped && cfg.catalog[s.backends[h].catalogId].backendType == Stdio),
          set h | h in s.clients && !(h in reaped && cfg.catalog[s.backends[h].catalogId].backendType in {StreamableHttp, Http}))
  }

  function Reap(cfg: Config, s: State, now: int): State {
    Retire(cfg, s, Reaped(cfg, s, now), now)
  }

  datatype Step =
    | DoInitialize(sessionId: string, request: FrontendSession, now: int, initializeEnv: InitializeEnv)
    | DoControlInitialize(sessionId: string, request: FrontendSession, agentKnown: bool)
    | DoRequest(sessionId: string, kind: RequestKind, now: int, requestEnv: RequestEnv)
    | DoDelete(sessionId: string, now: int, versionAgrees: bool)
    | DoReap(now: int)

  /** `initialize` on the control plane opens a session that is never attached. */
  function ControlInitialize(s: State, sessionId: string, request: FrontendSession, agentKnown: bool): State {
    if sessionId in s.sessions || !agentKnown then s else OpenSession(s, sessionId, request)
  }

  function Next(cfg: Config, s: State, step: Step): State {
    match step
    case DoInitialize(sessionId, request, now, env) => Initialize(cfg, s, sessionId, request, now, env)
    case DoControlInitialize(sessionId, request, agentKnown) => ControlInitialize(s, sessionId, request, agentKnown)
    case DoRequest(sessionId, kind, now, env) => Request(cfg, s, sessionId, kind, now, env)
    case DoDelete(sessionId, now, versionAgrees) => Delete(cfg, s, sessionId, now, versionAgrees)
    case DoReap(now) => Reap(cfg, s, now)
  }

  function Run(cfg: Config, s: State, steps: seq<Step>): State {
    if steps == [] then s else Next(cfg, Run(cfg, s, steps[..|steps| - 1]), steps[|steps| - 1])
  }

  const EMPTY := State(map[], map[], {}, {})

  // ----- The invariant -----

  function Attached(s: State, backendId: string): set<string> {
    set id | id in s.sessions && s.sessions[id].backendId == Some(backendId)
  }

  ghost predicate HasPool(cfg: Config, entry: CatalogEntry, poolKey: string) {
    exists pool: Pool :: RuntimePoolKey(cfg.digest, pool) == poolKey && pool.catalogId == entry.catalogId
                         && pool.GlobalPool? == (entry.shareability == Global)
  }

  /** What is fixed about a row from its insertion on. */
  ghost predicate RowOk(cfg: Config, b: string, catalogId: string, poolKey: string) {
    && catalogId in cfg.catalog
    && cfg.catalog[catalogId].catalogId == catalogId
    && Proxied(cfg.catalog[catalogId])
    && HasPool(cfg, cfg.catalog[catalogId], poolKey)
    && b == NewBackendId(cfg, catalogId, poolKey)
  }

  ghost predicate Rows(cfg: Config, s: State) {
    forall b :: b in s.backends ==> RowOk(cfg, b, s.backends[b].catalogId, s.backends[b].runtimePoolKey)
  }

  predicate Counted(s: State, b: string)
    requires b in s.backends
  {
    s.backends[b].frontendSessionCount == |Attached(s, b)| >= 1
  }

  /** A backend that answered an `initialize`, and counts its sessions. */
  predicate EverStarted(s: State, b: string)
    requires b in s.backends
  {
    Counted(s, b) && s.backends[b].backendInitializeCount >= 1
  }

  /** A backend that never answered its first `initialize`. */
  predicate NeverStarted(s: State, b: string)
    requires b in s.backends
  {
    s.backends[b].frontendSessionCount == 1 && s.backends[b].backendInitializeCount == 0 && Attached(s, b) == {}
  }

  /** Session count and handle of a backend, state by state. */
  predicate AccountOk(s: State, b: string, entry: CatalogEntry)
    requires b in s.backends
  {
    match s.backends[b].state
    case Hot => EverStarted(s, b) && Registered(s, entry, b) && s.backends[b].initializeResult.Some?
    case Crashed => EverStarted(s, b) || (NeverStarted(s, b) && !Registered(s, entry, b))
    case Starting => (EverStarted(s, b) || NeverStarted(s, b)) && Registered(s, entry, b)
    case Stopped => s.backends[b].frontendSessionCount == 0 && Attached(s, b) == {} && !Registered(s, entry, b)
  }

  predicate Accounts(cfg: Config, s: State) {
    && s.processes <= s.backends.Keys && s.clients <= s.backends.Keys
    && forall b :: b in s.backends ==>
         s.backends[b].catalogId in cfg.catalog && AccountOk(s, b, cfg.catalog[s.backends[b].catalogId])
  }

  /** An attached session has the catalog entry and, by its own key, the pool of its backend. */
  predicate SessionOk(cfg: Config, s: State, id: string)
    requires id in s.sessions
  {
    var session := s.sessions[id];
    session.backendId.Some? ==>
      && session.backendId.value in s.backends
      && session.serverName in cfg.routable
      && (var entry, backend := cfg.routable[session.serverName], s.backends[session.backendId.value];
          && Proxied(entry)
          && backend.catalogId == entry.catalogId
          && backend.runtimePoolKey == SessionKey(cfg, entry, id, session))
  }

  predicate Sessions(cfg: Config, s: State) {
    forall id :: id in s.sessions ==> SessionOk(cfg, s, id)
  }

  ghost predicate Inv(cfg: Config, s: State) {
    ConfigOk(cfg) && Rows(cfg, s) && Accounts(cfg, s) && Sessions(cfg, s)
  }

  // ----- Every step keeps it -----

  /** Rows stay, with their catalog id and pool key. */
  predicate Extends(s: State, t: State) {
    forall b :: b in s.backends ==>
      b in t.backends && t.backends[b].catalogId == s.backends[b].catalogId && t.backends[b].runtimePoolKey == s.backends[b].runtimePoolKey
  }

  /** Row, sessions and handle of a backend are left alone. */
  predicate Untouched(s: State, t: State, b: string) {
    && b in s.backends && b in t.backends && t.backends[b] == s.backends[b]
    && (b in s.processes <==> b in t.processes) && (b in s.clients <==> b in t.clients)
    && (forall id :: id in s.sessions && s.sessions[id].backendId == Some(b) ==> id in t.sessions && t.sessions[id].backendId == Some(b))
    && (forall id :: id in t.sessions && t.sessions[id].backendId == Some(b) ==> id in s.sessions && s.sessions[id].backendId == Some(b))
  }

  lemma UntouchedKeepsAccount(s: State, t: State, b: string, entry: CatalogEntry)
    requires Untouched(s, t, b) && AccountOk(s, b, entry)
    ensures AccountOk(t, b, entry)
  {
    assert Attached(t, b) == Attached(s, b);
  }

  /** A step on one backend keeps all accounts if it keeps that one. */
  lemma AccountsKept(cfg: Config, s: State, t: State, b: string)
    requires Accounts(cfg, s)
    requires t.backends.Keys == s.backends.Keys + {b} && t.processes <= t.backends.Keys && t.clients <= t.backends.Keys
    requires forall other :: other in s.backends && other != b ==> Untouched(s, t, other)
    requires t.backends[b].catalogId in cfg.catalog && AccountOk(t, b, cfg.catalog[t.backends[b].catalogId])
    ensures Accounts(cfg, t)
  {
    forall other | other in t.backends
      ensures t.backends[other].catalogId in cfg.catalog && AccountOk(t, other, cfg.catalog[t.backends[other].catalogId])
    {
      if other != b {
        UntouchedKeepsAccount(s, t, other, cfg.catalog[s.backends[other].catalogId]);
      }
    }
  }

  lemma SessionsKept(cfg: Config, s: State, t: State)
    requires Sessions(cfg, s) && Extends(s, t)
    requires forall id :: id in t.sessions ==>
               (id in s.sessions && t.sessions[id] == s.sessions[id]) || t.sessions[id].backendId.None? || SessionOk(cfg, t, id)
    ensures Sessions(cfg, t)
  {
    forall id | id in t.sessions
      ensures SessionOk(cfg, t, id)
    {
      assert id in s.sessions ==> SessionOk(cfg, s, id);
    }
  }

  lemma RowsKept(cfg: Config, s: State, t: State, b: string)
    requires Rows(cfg, s) && Extends(s, t) && t.backends.Keys == s.backends.Keys + {b}
    requires b in s.backends || RowOk(cfg, b, t.backends[b].catalogId, t.backends[b].runtimePoolKey)
    ensures Rows(cfg, t)
  {
    forall other | other in t.backends
      ensures RowOk(cfg, other, t.backends[other].catalogId, t.backends[other].runtimePoolKey)
    {
      assert other in s.backends ==> RowOk(cfg, other, s.backends[other].catalogId, s.backends[other].runtimePoolKey);
    }
  }

  lemma RowsSame(cfg: Config, s: State, t: State)
    requires Rows(cfg, s) && Extends(s, t) && t.backends.Keys == s.backends.Keys
    ensures Rows(cfg, t)
  {
  }

  lemma NobodyAttached(cfg: Config, s: State, b: string)
    requires Sessions(cfg, s) && b !in s.backends
    ensures Attached(s, b) == {}
  {
    forall id | id in s.sessions
      ensures s.sessions[id].backendId != Some(b)
    {
      assert SessionOk(cfg, s, id);
    }
  }

  lemma OpenSessionKeepsInv(cfg: Config, s: State, sessionId: string, session: FrontendSession)
    requires Inv(cfg, s) && sessionId !in s.sessions
    ensures Inv(cfg, OpenSession(s, sessionId, session))
  {
    var t := OpenSession(s, sessionId, session);
    forall b | b in t.backends
      ensures AccountOk(t, b, cfg.catalog[t.backends[b].catalogId])
    {
      UntouchedKeepsAccount(s, t, b, cfg.catalog[s.backends[b].catalogId]);
    }
    SessionsKept(cfg, s, t);
  }

  lemma OneMoreAttached(s: State, t: State, sessionId: string, b: string)
    requires sessionId in s.sessions && s.sessions[sessionId].backendId.None?
    requires t.sessions == s.sessions[sessionId := s.sessions[sessionId].(backendId := Some(b))]
    ensures |Attached(t, b)| == |Attached(s, b)| + 1
  {
    assert Attached(t, b) == Attached(s, b) + {sessionId};
  }

  /** A fresh session of the pool with this key. */
  predicate Wants(cfg: Config, s: State, sessionId: string, entry: CatalogEntry, key: string) {
    && sessionId in s.sessions && s.sessions[sessionId].backendId.None?
    && s.sessions[sessionId].serverName in cfg.routable && cfg.routable[s.sessions[sessionId].serverName] == entry
    && Proxied(entry) && key == SessionKey(cfg, entry, sessionId, s.sessions[sessionId])
  }

  lemma ReuseKeepsAccounts(cfg: Config, s: State, sessionId: string, b: string, now: int)
    requires Accounts(cfg, s) && sessionId in s.sessions && s.sessions[sessionId].backendId.None?
    requires b in s.backends && s.backends[b].state == Hot
    ensures Accounts(cfg, Reuse(s, sessionId, b, now))
  {
    var t := Reuse(s, sessionId, b, now);
    OneMoreAttached(s, t, sessionId, b);
    AccountsKept(cfg, s, t, b);
  }

  lemma ReuseKeepsInv(cfg: Config, s: State, sessionId: string, entry: CatalogEntry, key: string, b: string, now: int)
    requires Inv(cfg, s) && Wants(cfg, s, sessionId, entry, key) && HotFor(s, b, entry, key)
    ensures Inv(cfg, Reuse(s, sessionId, b, now))
  {
    ReuseKeepsAccounts(cfg, s, sessionId, b, now);
    RowsKept(cfg, s, Reuse(s, sessionId, b, now), b);
    SessionsKept(cfg, s, Reuse(s, sessionId, b, now));
  }

  lemma SessionKeyHasPool(cfg: Config, entry: CatalogEntry, sessionId: string, session: FrontendSession)
    requires Proxied(entry)
    ensures HasPool(cfg, entry, SessionKey(cfg, entry, sessionId, session))
  {
    var pool := SessionPool(entry, sessionId, session).value;
    assert RuntimePoolKey(cfg.digest, pool) == SessionKey(cfg, entry, sessionId, session);
  }

  /** The account of a backend right after its first start. */
  lemma FirstAccount(s: State, t: State, entry: CatalogEntry, sessionId: string, key: string, b: string, now: int, reply: Reply)
    requires sessionId in s.sessions && s.sessions[sessionId].backendId.None? && Attached(s, b) == {}
    requires t == StartFirst(s, sessionId, entry, b, key, now, reply)
    ensures AccountOk(t, b, entry)
  {
    if reply.Answered? {
      OneMoreAttached(s, t, sessionId, b);
    } else {
      StillAttached(s, t, b);
    }
  }

  lemma FirstStartFrame(s: State, t: State, entry: CatalogEntry, sessionId: string, key: string, b: string, now: int, reply: Reply)
    requires sessionId in s.sessions && s.sessions[sessionId].backendId.None? && b !in s.backends
    requires s.processes <= s.backends.Keys && s.clients <= s.backends.Keys
    requires t == StartFirst(s, sessionId, entry, b, key, now, reply)
    ensures t.backends.Keys == s.backends.Keys + {b} && t.processes <= t.backends.Keys && t.clients <= t.backends.Keys
    ensures t.backends[b].catalogId == entry.catalogId
    ensures forall other :: other in s.backends && other != b ==> Untouched(s, t, other)
  {
  }

  lemma StartFirstKeepsAccounts(cfg: Config, s: State, sessionId: string, entry: CatalogEntry, key: string, b: string, now: int,
                                reply: Reply)
    requires Accounts(cfg, s) && sessionId in s.sessions && s.sessions[sessionId].backendId.None?
    requires b !in s.backends && Attached(s, b) == {} && entry.catalogId in cfg.catalog && cfg.catalog[entry.catalogId] == entry
    ensures Accounts(cfg, StartFirst(s, sessionId, entry, b, key, now, reply))
  {
    var t := StartFirst(s, sessionId, entry, b, key, now, reply);
    FirstStartFrame(s, t, entry, sessionId, key, b, now, reply);
    FirstAccount(s, t, entry, sessionId, key, b, now, reply);
    AccountsKept(cfg, s, t, b);
  }

  lemma StartFirstKeepsRows(cfg: Config, s: State, sessionId: string, entry: CatalogEntry, key: string, b: string, now: int,
                            reply: Reply)
    requires ConfigOk(cfg) && Rows(cfg, s) && Wants(cfg, s, sessionId, entry, key)
    requires b == NewBackendId(cfg, entry.catalogId, key) && b !in s.backends
    ensures Rows(cfg, StartFirst(s, sessionId, entry, b, key, now, reply))
  {
    SessionKeyHasPool(cfg, entry, sessionId, s.sessions[sessionId]);
    RowsKept(cfg, s, StartFirst(s, sessionId, entry, b, key, now, reply), b);
  }

  lemma StartFirstKeepsInv(cfg: Config, s: State, sessionId: string, entry: CatalogEntry, key: string, b: string, now: int,
                           reply: Reply)
    requires Inv(cfg, s) && Wants(cfg, s, sessionId, entry, key)
    requires b == NewBackendId(cfg, entry.catalogId, key) && b !in s.backends
    ensures Inv(cfg, StartFirst(s, sessionId, entry, b, key, now, reply))
  {
    NobodyAttached(cfg, s, b);
    StartFirstKeepsAccounts(cfg, s, sessionId, entry, key, b, now, reply);
    StartFirstKeepsRows(cfg, s, sessionId, entry, key, b, now, reply);
    SessionsKept(cfg, s, StartFirst(s, sessionId, entry, b, key, now, reply));
  }

  lemma InitializeKeepsInv(cfg: Config, s: State, sessionId: string, request: FrontendSession, now: int, env: InitializeEnv)
    requires Inv(cfg, s)
    ensures Inv(cfg, Initialize(cfg, s, sessionId, request, now, env))
  {
    if request.serverName in cfg.routable && sessionId !in s.sessions {
      var entry := cfg.routable[request.serverName];
      var created := OpenSession(s, sessionId, request);
      OpenSessionKeepsInv(cfg, s, sessionId, request);
      if Proxied(entry) {
        var key := SessionKey(cfg, entry, sessionId, request);
        var backendId := NewBackendId(cfg, entry.catalogId, key);
        assert Wants(cfg, created, sessionId, entry, key);
        if HotFor(s, backendId, entry, key) {
          ReuseKeepsInv(cfg, created, sessionId, entry, key, backendId, now);
        } else if backendId !in s.backends {
          StartFirstKeepsInv(cfg, created, sessionId, entry, key, backendId, now, env.reply);
        }
      }
    }
  }

  /** A step on the row and handle of one backend. */
  predicate RowStep(s: State, t: State, b: string) {
    && t.sessions == s.sessions && t.backends.Keys == s.backends.Keys && Extends(s, t)
    && t.processes <= t.backends.Keys && t.clients <= t.backends.Keys
    && forall other :: other in s.backends && other != b ==>
         && t.backends[other] == s.backends[other]
         && (other in s.processes <==> other in t.processes) && (other in s.clients <==> other in t.clients)
  }

  lemma RowStepKeepsInv(cfg: Config, s: State, t: State, b: string)
    requires Inv(cfg, s) && b in s.backends && RowStep(s, t, b)
    requires AccountOk(t, b, cfg.catalog[s.backends[b].catalogId])
    ensures Inv(cfg, t)
  {
    RowsKept(cfg, s, t, b);
    SessionsKept(cfg, s, t);
    AccountsKept(cfg, s, t, b);
  }

  /** A call leaves the accounts of its backend in order: the handle is kept, and so is the count. */
  lemma ForwardKeepsAccount(s: State, entry: CatalogEntry, b: string, now: int, env: RequestEnv)
    requires b in s.backends && AccountOk(s, b, entry) && Attached(s, b) != {}
    ensures AccountOk(Touch(s, b, now), b, entry) && AccountOk(MarkCrashed(s, b, now), b, entry)
  {
    assert Attached(Touch(s, b, now), b) == Attached(s, b) == Attached(MarkCrashed(s, b, now), b);
  }

  lemma TouchKeepsInv(cfg: Config, s: State, entry: CatalogEntry, b: string, now: int, env: RequestEnv)
    requires Inv(cfg, s) && b in s.backends && entry == cfg.catalog[s.backends[b].catalogId]
    requires Attached(s, b) != {}
    ensures Inv(cfg, Touch(s, b, now))
  {
    ForwardKeepsAccount(s, entry, b, now, env);
    RowStepKeepsInv(cfg, s, Touch(s, b, now), b);
  }

  lemma CrashKeepsInv(cfg: Config, s: State, entry: CatalogEntry, b: string, now: int, env: RequestEnv)
    requires Inv(cfg, s) && b in s.backends && entry == cfg.catalog[s.backends[b].catalogId]
    requires Attached(s, b) != {}
    ensures Inv(cfg, MarkCrashed(s, b, now))
  {
    ForwardKeepsAccount(s, entry, b, now, env);
    RowStepKeepsInv(cfg, s, MarkCrashed(s, b, now), b);
  }

  lemma ForwardKeepsInv(cfg: Config, s: State, entry: CatalogEntry, b: string, now: int, env: RequestEnv)
    requires Inv(cfg, s) && b in s.backends && entry == cfg.catalog[s.backends[b].catalogId]
    requires Attached(s, b) != {}
    ensures Inv(cfg, Forward(s, entry, b, now, env))
  {
    if Forward(s, entry, b, now, env) == Touch(s, b, now) {
      TouchKeepsInv(cfg, s, entry, b, now, env);
    } else if Forward(s, entry, b, now, env) == MarkCrashed(s, b, now) {
      CrashKeepsInv(cfg, s, entry, b, now, env);
    }
  }

  lemma RestartIsRowStep(s: State, entry: CatalogEntry, b: string, now: int, env: RequestEnv)
    requires b in s.backends && s.processes <= s.backends.Keys && s.clients <= s.backends.Keys
    ensures RowStep(s, Restart(s, entry, b, s.backends[b], now, env), b)
  {
  }

  lemma RestartKeepsAccount(s: State, entry: CatalogEntry, b: string, now: int, env: RequestEnv)
    requires b in s.backends && AccountOk(s, b, entry) && s.backends[b].state == Crashed && Attached(s, b) != {}
    ensures AccountOk(Restart(s, entry, b, s.backends[b], now, env), b, entry)
  {
    StillAttached(s, Restart(s, entry, b, s.backends[b], now, env), b);
  }

  lemma RestartKeepsInv(cfg: Config, s: State, entry: CatalogEntry, b: string, now: int, env: RequestEnv)
    requires Inv(cfg, s) && b in s.backends && entry == cfg.catalog[s.backends[b].catalogId]
    requires s.backends[b].state == Crashed && Attached(s, b) != {}
    ensures var t := Restart(s, entry, b, s.backends[b], now, env); RowStep(s, t, b) && Inv(cfg, t)
  {
    RestartIsRowStep(s, entry, b, now, env);
    RestartKeepsAccount(s, entry, b, now, env);
    RowStepKeepsInv(cfg, s, Restart(s, entry, b, s.backends[b], now, env), b);
  }

  lemma CallKeepsInv(cfg: Config, s: State, entry: CatalogEntry, b: string, now: int, env: RequestEnv)
    requires Inv(cfg, s) && b in s.backends && entry == cfg.catalog[s.backends[b].catalogId]
    requires Attached(s, b) != {}
    ensures Inv(cfg, CallBackend(s, entry, b, now, env))
  {
    if s.backends[b].state == Crashed {
      RestartKeepsInv(cfg, s, entry, b, now, env);
      var t := Restart(s, entry, b, s.backends[b], now, env);
      StillAttached(s, t, b);
      ForwardKeepsInv(cfg, t, entry, b, now, env);
    } else {
      ForwardKeepsInv(cfg, s, entry, b, now, env);
    }
  }

  lemma StillAttached(s: State, t: State, b: string)
    requires t.sessions == s.sessions
    ensures Attached(t, b) == Attached(s, b)
  {
  }

  lemma AttachedToSomething(cfg: Config, s: State, sessionId: string)
    requires Sessions(cfg, s) && Accounts(cfg, s) && sessionId in s.sessions && s.sessions[sessionId].backendId.Some?
    ensures var b := s.sessions[sessionId].backendId.value;
            b in s.backends && s.backends[b].catalogId in cfg.catalog && Attached(s, b) != {}
  {
    assert SessionOk(cfg, s, sessionId);
    assert sessionId in Attached(s, s.sessions[sessionId].backendId.value);
  }

  lemma RequestKeepsInv(cfg: Config, s: State, sessionId: string, kind: RequestKind, now: int, env: RequestEnv)
    requires Inv(cfg, s)
    ensures Inv(cfg, Request(cfg, s, sessionId, kind, now, env))
  {
    if sessionId in s.sessions && s.sessions[sessionId].backendId.Some? {
      AttachedToSomething(cfg, s, sessionId);
      var b := s.sessions[sessionId].backendId.value;
      var entry := cfg.catalog[s.backends[b].catalogId];
      TouchKeepsInv(cfg, s, entry, b, now, env);
      CallKeepsInv(cfg, s, entry, b, now, env);
    }
  }

  /** Deleting a session stops its backend and closes the handle if and only if it was the last one
      attached; another session's backend keeps its state and its handle. */
  lemma DeleteStopsIffLast(cfg: Config, s: State, sessionId: string, now: int)
    requires Accounts(cfg, s) && SessionsExist(s) && sessionId in s.sessions && s.sessions[sessionId].backendId.Some?
    ensures var t, b := Delete(cfg, s, sessionId, now, true), s.sessions[sessionId].backendId.value;
            && (Attached(s, b) == {sessionId} <==> t.backends[b].state == Stopped)
            && (Attached(s, b) != {sessionId} ==> t.backends[b].state == s.backends[b].state
                                                  && t.processes == s.processes && t.clients == s.clients)
  {
    var b := s.sessions[sessionId].backendId.value;
    OneLessAttached(s, Delete(cfg, s, sessionId, now, true), sessionId, b);
    assert AccountOk(s, b, cfg.catalog[s.backends[b].catalogId]);
  }

  predicate SessionsExist(s: State) {
    forall id :: id in s.sessions && s.sessions[id].backendId.Some? ==> s.sessions[id].backendId.value in s.backends
  }

  lemma OneLessAttached(s: State, t: State, sessionId: string, b: string)
    requires sessionId in s.sessions && s.sessions[sessionId].backendId == Some(b) && t.sessions == s.sessions - {sessionId}
    ensures sessionId in Attached(s, b) && Attached(t, b) == Attached(s, b) - {sessionId}
    ensures |Attached(t, b)| == |Attached(s, b)| - 1
    ensures Attached(t, b) == {} <==> Attached(s, b) == {sessionId}
  {
    assert Attached(t, b) == Attached(s, b) - {sessionId};
    assert sessionId in Attached(s, b);
  }

  /** The account of the backend that the session leaves. */
  lemma DetachKeepsAccount(s: State, t: State, entry: CatalogEntry, sessionId: string, b: string, now: int)
    requires b in s.backends && AccountOk(s, b, entry)
    requires sessionId in s.sessions && s.sessions[sessionId].backendId == Some(b)
    requires t == Detach(entry, s.(sessions := s.sessions - {sessionId}), b, now)
    ensures AccountOk(t, b, entry)
  {
    OneLessAttached(s, t, sessionId, b);
  }

  lemma DetachFrame(s: State, t: State, entry: CatalogEntry, sessionId: string, b: string, now: int)
    requires b in s.backends && sessionId in s.sessions && s.sessions[sessionId].backendId == Some(b)
    requires s.processes <= s.backends.Keys && s.clients <= s.backends.Keys
    requires t == Detach(entry, s.(sessions := s.sessions - {sessionId}), b, now)
    ensures t.backends.Keys == s.backends.Keys && t.processes <= t.backends.Keys && t.clients <= t.backends.Keys
    ensures t.backends[b].catalogId == s.backends[b].catalogId
    ensures forall other :: other in s.backends && other != b ==> Untouched(s, t, other)
  {
  }

  lemma DeleteKeepsAccounts(cfg: Config, s: State, sessionId: string, now: int)
    requires Accounts(cfg, s) && sessionId in s.sessions
    requires s.sessions[sessionId].backendId.Some? ==> s.sessions[sessionId].backendId.value in s.backends
    ensures Accounts(cfg, Delete(cfg, s, sessionId, now, true))
  {
    var t := Delete(cfg, s, sessionId, now, true);
    if s.sessions[sessionId].backendId.Some? {
      var b := s.sessions[sessionId].backendId.value;
      DetachFrame(s, t, cfg.catalog[s.backends[b].catalogId], sessionId, b, now);
      DetachKeepsAccount(s, t, cfg.catalog[s.backends[b].catalogId], sessionId, b, now);
      AccountsKept(cfg, s, t, b);
    } else {
      forall b | b in t.backends
        ensures AccountOk(t, b, cfg.catalog[t.backends[b].catalogId])
      {
        UntouchedKeepsAccount(s, t, b, cfg.catalog[s.backends[b].catalogId]);
      }
    }
  }

  lemma DeleteExtends(cfg: Config, s: State, sessionId: string, now: int)
    ensures var t := Delete(cfg, s, sessionId, now, true);
            && Extends(s, t) && t.backends.Keys == s.backends.Keys
            && forall id :: id in t.sessions ==> id in s.sessions && t.sessions[id] == s.sessions[id]
  {
  }

  lemma DeleteKeepsInv(cfg: Config, s: State, sessionId: string, now: int, versionAgrees: bool)
    requires Inv(cfg, s)
    ensures Inv(cfg, Delete(cfg, s, sessionId, now, versionAgrees))
  {
    if sessionId in s.sessions && versionAgrees {
      var t := Delete(cfg, s, sessionId, now, true);
      assert SessionOk(cfg, s, sessionId);
      DeleteKeepsAccounts(cfg, s, sessionId, now);
      DeleteExtends(cfg, s, sessionId, now);
      RowsSame(cfg, s, t);
      SessionsKept(cfg, s, t);
    }
  }

  /** A hot backend always has a session, so the reaper finds nothing to reap on any reachable state. */
  lemma ReapFindsNothing(cfg: Config, s: State, now: int)
    requires Inv(cfg, s)
    ensures Reaped(cfg, s, now) == {} && Reap(cfg, s, now) == s
  {
    forall b | b in s.backends
      ensures !Idle(cfg, s.backends[b], now)
    {
      assert AccountOk(s, b, cfg.catalog[s.backends[b].catalogId]);
    }
    assert Reap(cfg, s, now).backends == s.backends;
  }

  lemma NextKeepsInv(cfg: Config, s: State, step: Step)
    requires Inv(cfg, s)
    ensures Inv(cfg, Next(cfg, s, step))
  {
    match step
    case DoInitialize(sessionId, request, now, env) => InitializeKeepsInv(cfg, s, sessionId, request, now, env);
    case DoControlInitialize(sessionId, request, agentKnown) =>
      if sessionId !in s.sessions {
        OpenSessionKeepsInv(cfg, s, sessionId, request);
      }
    case DoRequest(sessionId, kind, now, env) => RequestKeepsInv(cfg, s, sessionId, kind, now, env);
    case DoDelete(sessionId, now, versionAgrees) => DeleteKeepsInv(cfg, s, sessionId, now, versionAgrees);
    case DoReap(now) => ReapFindsNothing(cfg, s, now);
  }

  lemma EmptyTablesAreFine(cfg: Config)
    requires ConfigOk(cfg)
    ensures Inv(cfg, EMPTY)
  {
  }

  /** The accounting, isolation and registry invariant holds after every run. */
  lemma {:induction false} RunKeepsInv(cfg: Config, s: State, steps: seq<Step>)
    requires Inv(cfg, s)
    ensures Inv(cfg, Run(cfg, s, steps))
  {
    if steps != [] {
      var before := steps[..|steps| - 1];
      RunKeepsInv(cfg, s, before);
      NextKeepsInv(cfg, Run(cfg, s, before), steps[|steps| - 1]);
    }
  }
}
