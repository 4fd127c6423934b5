/**
 What the invariant of the runtime proxy gives on every reachable state: session accounting,
 isolation of pools, dead pools, and what the release gate's sharing check can find.
 */
module RuntimeGuarantees {
  import opened Common
  import opened PoolKeys
  import opened RuntimeProxy

  // ----- Accounting and registries -----

  /** After every run from empty tables: a hot backend counts exactly its attached sessions, at
      least one, and has a handle; a crashed one counts its sessions, or one with none attached and no
      handle if it never answered its first `initialize`; one left starting by an error nobody caught
      has a handle and counts the same way; a stopped one has neither sessions nor a handle. */
  lemma SessionAccounting(cfg: Config, steps: seq<Step>, b: string)
    requires ConfigOk(cfg) && b in Run(cfg, EMPTY, steps).backends
    ensures var s := Run(cfg, EMPTY, steps);
            var backend, attached := s.backends[b], |Attached(s, b)|;
            && backend.catalogId in cfg.catalog
            && var registered := Registered(s, cfg.catalog[backend.catalogId], b);
            && (backend.state == Hot ==> backend.frontendSessionCount == attached >= 1 && registered)
            && (backend.state == Crashed ==>
                  || (backend.frontendSessionCount == attached >= 1 && backend.backendInitializeCount >= 1)
                  || (backend.frontendSessionCount == 1 && attached == 0 && !registered && backend.backendInitializeCount == 0))
            && (backend.state == Stopped ==> backend.frontendSessionCount == attached == 0 && !registered)
            && (backend.state == Starting ==>
                  && registered
                  && (if backend.backendInitializeCount >= 1 then backend.frontendSessionCount == attached >= 1
                      else backend.frontendSessionCount == 1 && attached == 0))
  {
    EmptyTablesAreFine(cfg);
    RunKeepsInv(cfg, EMPTY, steps);
    var s := Run(cfg, EMPTY, steps);
    assert AccountOk(s, b, cfg.catalog[s.backends[b].catalogId]);
  }

  /** The reaper closes nothing on any reachable state: `delete` has stopped every backend that a
      session count of zero would let it take. */
  lemma ReaperIsIdle(cfg: Config, steps: seq<Step>, now: int)
    requires ConfigOk(cfg)
    ensures Reaped(cfg, Run(cfg, EMPTY, steps), now) == {}
  {
    EmptyTablesAreFine(cfg);
    RunKeepsInv(cfg, EMPTY, steps);
    ReapFindsNothing(cfg, Run(cfg, EMPTY, steps), now);
  }

  // ----- Isolation -----

  /** Two sessions of a server have the same pool exactly if the server is global, or per workspace and
      they name the same workspace, or per agent and they name the same agent, or they are one session
      that names the same things.  A session that does not name what its server's policy goes by has a
      pool of its own. */
  lemma SamePoolIff(entry: CatalogEntry, x: string, sx: FrontendSession, y: string, sy: FrontendSession)
    requires Proxied(entry)
    ensures SessionPool(entry, x, sx) == SessionPool(entry, y, sy) <==>
            match entry.shareability
            case Global => true
            case PerWorkspace =>
              if Given(sx.workspaceRoot) || Given(sy.workspaceRoot) then sx.workspaceRoot == sy.workspaceRoot else x == y
            case PerAgent => if Given(sx.agentId) || Given(sy.agentId) then sx.agentId == sy.agentId else x == y
            case _ => x == y
  {
  }

  /** What two sessions with the same pool have in common. */
  lemma SharedPoolMeans(entry: CatalogEntry, x: string, sx: FrontendSession, y: string, sy: FrontendSession)
    requires Proxied(entry) && SessionPool(entry, x, sx) == SessionPool(entry, y, sy)
    ensures || entry.shareability == Global
            || (entry.shareability == PerWorkspace && Given(sx.workspaceRoot) && sx.workspaceRoot == sy.workspaceRoot)
            || (entry.shareability == PerAgent && Given(sx.agentId) && sx.agentId == sy.agentId)
            || x == y
  {
  }

  /** Two different digest inputs with the same 24 characters. */
  predicate Collides(cfg: Config, a: DigestInput, b: DigestInput) {
    a != b && cfg.digest(a) == cfg.digest(b)
  }

  predicate PoolsCollide(cfg: Config, a: Pool, b: Pool) {
    !a.GlobalPool? && !b.GlobalPool? && Collides(cfg, Digested(a), Digested(b))
  }

  /** Two sessions that may share a backend: they have the same catalog entry, and that entry is
      global, or per workspace and they share the workspace, or per agent and they share the
      agent, unless the digests of these two sessions collide. */
  predicate MayShare(cfg: Config, s: State, x: string, y: string)
    requires x in s.sessions && y in s.sessions
  {
    var sx, sy := s.sessions[x], s.sessions[y];
    && sx.serverName in cfg.routable && sy.serverName in cfg.routable
    && cfg.routable[sx.serverName] == cfg.routable[sy.serverName]
    && var entry := cfg.routable[sx.serverName];
    && Proxied(entry)
    && (|| entry.shareability == Global
        || (entry.shareability == PerWorkspace && Given(sx.workspaceRoot) && sx.workspaceRoot == sy.workspaceRoot)
        || (entry.shareability == PerAgent && Given(sx.agentId) && sx.agentId == sy.agentId)
        || PoolsCollide(cfg, SessionPool(entry, x, sx).value, SessionPool(entry, y, sy).value))
  }

  lemma SessionsOnOneBackend(cfg: Config, s: State, b: string, x: string, y: string)
    requires ConfigOk(cfg) && Sessions(cfg, s) && x != y && x in Attached(s, b) && y in Attached(s, b)
    ensures MayShare(cfg, s, x, y)
  {
    assert SessionOk(cfg, s, x) && SessionOk(cfg, s, y);
    var sx, sy := s.sessions[x], s.sessions[y];
    var entry := cfg.routable[sx.serverName];
    assert entry == cfg.catalog[s.backends[b].catalogId] == cfg.routable[sy.serverName];
    var px, py := SessionPool(entry, x, sx).value, SessionPool(entry, y, sy).value;
    PoolKeyIsInjective(cfg.digest, px, py);
    if px == py {
      SharedPoolMeans(entry, x, sx, y, sy);
    }
  }

  /** Isolation: after every run from empty tables, sessions on one backend are ones that may share. */
  lemma RunsIsolate(cfg: Config, steps: seq<Step>, b: string, x: string, y: string)
    requires ConfigOk(cfg) && x != y
    requires x in Attached(Run(cfg, EMPTY, steps), b) && y in Attached(Run(cfg, EMPTY, steps), b)
    ensures MayShare(cfg, Run(cfg, EMPTY, steps), x, y)
  {
    EmptyTablesAreFine(cfg);
    RunKeepsInv(cfg, EMPTY, steps);
    SessionsOnOneBackend(cfg, Run(cfg, EMPTY, steps), b, x, y);
  }

  // ----- Dead pools -----

  /** An `initialize` that reaches a backend which would start and answer attaches its session if and
      only if the pool has no row yet or its backend is hot.  A crashed or stopped row is in the way:
      its id is taken, and nothing but a session of its own restarts it. */
  lemma InitializeAttachesIff(cfg: Config, s: State, sessionId: string, request: FrontendSession, now: int, env: InitializeEnv)
    requires Inv(cfg, s) && request.serverName in cfg.routable && sessionId !in s.sessions
    requires var entry := cfg.routable[request.serverName];
             && Proxied(entry)
             && (if entry.backendType == Stdio then entry.command.Some? else entry.url.Some?)
    requires env.agentKnown && env.start == Started && env.reply.Answered?
    ensures var entry := cfg.routable[request.serverName];
            var key := SessionKey(cfg, entry, sessionId, request);
            var b := NewBackendId(cfg, entry.catalogId, key);
            Initialize(cfg, s, sessionId, request, now, env).sessions[sessionId].backendId == Some(b)
            <==> b !in s.backends || HotFor(s, b, entry, key)
  {
  }

  /** A backend row that no session is attached to. */
  predicate Dead(s: State, b: string) {
    b in s.backends && Attached(s, b) == {}
  }

  /** The dead backends of a reachable state are its stopped ones and those that crashed or were left
      starting without ever having answered an `initialize`. */
  lemma DeadIffStoppedOrNeverStarted(cfg: Config, s: State, b: string)
    requires Inv(cfg, s) && b in s.backends
    ensures Dead(s, b) <==> s.backends[b].state == Stopped
                            || (s.backends[b].state in {Crashed, Starting} && s.backends[b].backendInitializeCount == 0)
  {
    assert AccountOk(s, b, cfg.catalog[s.backends[b].catalogId]);
  }

  /** No new session is attached to `b`, and its row stays. */
  predicate NobodyNew(s: State, t: State, b: string) {
    b in t.backends &&
    forall id :: id in t.sessions && t.sessions[id].backendId == Some(b) ==> id in s.sessions && s.sessions[id].backendId == Some(b)
  }

  lemma InitializeSkipsDead(cfg: Config, s: State, sessionId: string, request: FrontendSession, now: int, env: InitializeEnv, b: string)
    requires b in s.backends && s.backends[b].state != Hot
    ensures NobodyNew(s, Initialize(cfg, s, sessionId, request, now, env), b)
  {
  }

  lemma RequestMovesNoSession(cfg: Config, s: State, sessionId: string, kind: RequestKind, now: int, env: RequestEnv)
    ensures var t := Request(cfg, s, sessionId, kind, now, env); t.sessions == s.sessions && t.backends.Keys == s.backends.Keys
  {
  }

  lemma NextSkipsDead(cfg: Config, s: State, step: Step, b: string)
    requires b in s.backends && s.backends[b].state != Hot
    ensures NobodyNew(s, Next(cfg, s, step), b)
  {
    match step
    case DoInitialize(sessionId, request, now, env) => InitializeSkipsDead(cfg, s, sessionId, request, now, env, b);
    case DoControlInitialize(_, _, _) =>
    case DoRequest(sessionId, kind, now, env) => RequestMovesNoSession(cfg, s, sessionId, kind, now, env);
    case DoDelete(sessionId, now, versionAgrees) =>
      if versionAgrees {
        DeleteExtends(cfg, s, sessionId, now);
      }
    case DoReap(_) =>
  }

  lemma NextKeepsDead(cfg: Config, s: State, step: Step, b: string)
    requires Inv(cfg, s) && Dead(s, b)
    ensures Dead(Next(cfg, s, step), b)
  {
    assert AccountOk(s, b, cfg.catalog[s.backends[b].catalogId]);
    NextSkipsDead(cfg, s, step, b);
    var t := Next(cfg, s, step);
    assert forall id :: id in Attached(t, b) ==> id in Attached(s, b);
  }

  lemma {:induction false} RunKeepsDead(cfg: Config, s: State, steps: seq<Step>, b: string)
    requires Inv(cfg, s) && Dead(s, b)
    ensures Dead(Run(cfg, s, steps), b)
  {
    if steps != [] {
      var before := steps[..|steps| - 1];
      RunKeepsDead(cfg, s, before, b);
      RunKeepsInv(cfg, s, before);
      NextKeepsDead(cfg, Run(cfg, s, before), steps[|steps| - 1], b);
    }
  }

  /** A pool whose backend is dead is never served again in the run: whatever happens, no session of
      that pool, old or new, is attached to a backend. */
  lemma DeadPoolIsNeverServed(cfg: Config, s: State, steps: seq<Step>, b: string, id: string)
    requires Inv(cfg, s) && Dead(s, b)
    requires id in Run(cfg, s, steps).sessions
    requires var session := Run(cfg, s, steps).sessions[id];
             && session.serverName in cfg.routable && Proxied(cfg.routable[session.serverName])
             && var entry := cfg.routable[session.serverName];
                b == NewBackendId(cfg, entry.catalogId, SessionKey(cfg, entry, id, session))
    ensures Run(cfg, s, steps).sessions[id].backendId == None
  {
    RunKeepsInv(cfg, s, steps);
    RunKeepsDead(cfg, s, steps, b);
    BackendOfSession(cfg, Run(cfg, s, steps), id);
  }

  /** The backend of an attached session is the one its own key names. */
  lemma BackendOfSession(cfg: Config, s: State, id: string)
    requires Inv(cfg, s) && id in s.sessions
    ensures var session := s.sessions[id];
            session.backendId.Some? ==>
              && id in Attached(s, session.backendId.value)
              && session.serverName in cfg.routable && Proxied(cfg.routable[session.serverName])
              && var entry := cfg.routable[session.serverName];
                 session.backendId.value == NewBackendId(cfg, entry.catalogId, SessionKey(cfg, entry, id, session))
  {
    assert SessionOk(cfg, s, id);
    if s.sessions[id].backendId.Some? {
      var b := s.sessions[id].backendId.value;
      assert RowOk(cfg, b, s.backends[b].catalogId, s.backends[b].runtimePoolKey);
    }
  }

  // ----- The restart's stale count -----

  /** Whether a restart gets as far as writing the row. */
  predicate RestartWrites(entry: CatalogEntry, env: RequestEnv) {
    if entry.backendType == Stdio then entry.command.Some? && env.start == Started
    else entry.backendType != Sse && entry.url.Some?
  }

  function WrittenCount(snapshot: BackendSession): nat {
    if snapshot.frontendSessionCount > 1 then snapshot.frontendSessionCount else 1
  }

  /** A restart writes back the session count its handler read in an earlier lock section, and at least
      one.  The backend's count is right afterwards if and only if that is still the number of its
      sessions; a restart that does not get so far leaves the count as right or wrong as it was. */
  lemma RestartCountsIffSnapshotIsCurrent(s: State, entry: CatalogEntry, b: string, snapshot: BackendSession, now: int, env: RequestEnv)
    requires b in s.backends
    ensures var t := Restart(s, entry, b, snapshot, now, env);
            Counted(t, b) <==> if RestartWrites(entry, env) then WrittenCount(snapshot) == |Attached(s, b)| else Counted(s, b)
  {
    var t := Restart(s, entry, b, snapshot, now, env);
    assert Attached(t, b) == Attached(s, b);
  }

  /** Running, with a handle, and with a session count that no session stands for. */
  predicate Leaked(cfg: Config, s: State, b: string) {
    && b in s.backends && s.backends[b].catalogId in cfg.catalog
    && s.backends[b].state in {Hot, Starting} && Registered(s, cfg.catalog[s.backends[b].catalogId], b)
    && Attached(s, b) == {} && s.backends[b].frontendSessionCount == 1
  }

  /** A backend that is not stopped and counts one session more than it has. */
  predicate Overcounted(s: State, b: string) {
    b in s.backends && s.backends[b].state != Stopped && s.backends[b].frontendSessionCount == |Attached(s, b)| + 1
  }

  lemma OtherBackendMoves(s: State, t: State, b: string)
    requires Overcounted(s, b) && b in t.backends && t.backends[b] == s.backends[b] && Attached(t, b) == Attached(s, b)
    ensures Overcounted(t, b)
  {
  }

  lemma ReuseKeepsOvercounted(s: State, sessionId: string, c: string, now: int, b: string)
    requires Overcounted(s, b) && sessionId in s.sessions && s.sessions[sessionId].backendId.None? && c in s.backends
    ensures Overcounted(Reuse(s, sessionId, c, now), b)
  {
    var t := Reuse(s, sessionId, c, now);
    if c == b {
      OneMoreAttached(s, t, sessionId, b);
    } else {
      assert Attached(t, b) == Attached(s, b);
    }
  }

  lemma StartFirstKeepsOvercounted(s: State, sessionId: string, entry: CatalogEntry, c: string, key: string, now: int, reply: Reply, b: string)
    requires Overcounted(s, b) && sessionId in s.sessions && s.sessions[sessionId].backendId.None? && c != b
    ensures Overcounted(StartFirst(s, sessionId, entry, c, key, now, reply), b)
  {
    assert Attached(StartFirst(s, sessionId, entry, c, key, now, reply), b) == Attached(s, b);
  }

  lemma InitializeKeepsOvercounted(cfg: Config, s: State, sessionId: string, request: FrontendSession, now: int, env: InitializeEnv, b: string)
    requires Overcounted(s, b)
    ensures Overcounted(Initialize(cfg, s, sessionId, request, now, env), b)
  {
    if request.serverName in cfg.routable && Proxied(cfg.routable[request.serverName]) && sessionId !in s.sessions {
      var entry := cfg.routable[request.serverName];
      var created := OpenSession(s, sessionId, request);
      assert Attached(created, b) == Attached(s, b);
      OtherBackendMoves(s, created, b);
      var key := SessionKey(cfg, entry, sessionId, request);
      var c := NewBackendId(cfg, entry.catalogId, key);
      if c in s.backends {
        ReuseKeepsOvercounted(created, sessionId, c, now, b);
      } else {
        StartFirstKeepsOvercounted(created, sessionId, entry, c, key, now, env.reply, b);
      }
    }
  }

  lemma RestartKeepsOvercounted(s: State, entry: CatalogEntry, c: string, now: int, env: RequestEnv, b: string)
    requires Overcounted(s, b) && c in s.backends
    ensures Overcounted(Restart(s, entry, c, s.backends[c], now, env), b)
  {
    StillAttached(s, Restart(s, entry, c, s.backends[c], now, env), b);
  }

  lemma ForwardKeepsOvercounted(s: State, entry: CatalogEntry, c: string, now: int, env: RequestEnv, b: string)
    requires Overcounted(s, b) && c in s.backends
    ensures Overcounted(Forward(s, entry, c, now, env), b)
  {
    StillAttached(s, Forward(s, entry, c, now, env), b);
  }

  lemma RequestKeepsOvercounted(cfg: Config, s: State, sessionId: string, kind: RequestKind, now: int, env: RequestEnv, b: string)
    requires Overcounted(s, b)
    ensures Overcounted(Request(cfg, s, sessionId, kind, now, env), b)
  {
    if sessionId in s.sessions && s.sessions[sessionId].backendId.Some? && s.sessions[sessionId].backendId.value in s.backends {
      var c := s.sessions[sessionId].backendId.value;
      if s.backends[c].catalogId in cfg.catalog {
        var entry := cfg.catalog[s.backends[c].catalogId];
        StillAttached(s, Touch(s, c, now), b);
        ForwardKeepsOvercounted(s, entry, c, now, env, b);
        RestartKeepsOvercounted(s, entry, c, now, env, b);
        ForwardKeepsOvercounted(Restart(s, entry, c, s.backends[c], now, env), entry, c, now, env, b);
      }
    }
  }

  lemma DetachOwnKeepsOvercounted(s: State, entry: CatalogEntry, sessionId: string, now: int, b: string)
    requires Overcounted(s, b) && sessionId in s.sessions && s.sessions[sessionId].backendId == Some(b)
    ensures Overcounted(Detach(entry, s.(sessions := s.sessions - {sessionId}), b, now), b)
  {
    var left := s.(sessions := s.sessions - {sessionId});
    OneLessAttached(s, left, sessionId, b);
    assert s.backends[b].frontendSessionCount >= 2;
    StillAttached(left, Detach(entry, left, b, now), b);
  }

  lemma DetachOtherKeepsOvercounted(s: State, entry: CatalogEntry, sessionId: string, c: string, now: int, b: string)
    requires Overcounted(s, b) && sessionId in s.sessions && s.sessions[sessionId].backendId == Some(c) && c in s.backends && c != b
    ensures Overcounted(Detach(entry, s.(sessions := s.sessions - {sessionId}), c, now), b)
  {
    var left := s.(sessions := s.sessions - {sessionId});
    assert Attached(left, b) == Attached(s, b);
    var t := Detach(entry, left, c, now);
    StillAttached(left, t, b);
    OtherBackendMoves(s, t, b);
  }

  lemma DeleteKeepsOvercounted(cfg: Config, s: State, sessionId: string, now: int, versionAgrees: bool, b: string)
    requires Overcounted(s, b)
    ensures Overcounted(Delete(cfg, s, sessionId, now, versionAgrees), b)
  {
    if sessionId in s.sessions && versionAgrees {
      if s.sessions[sessionId].backendId.None? {
        var t := s.(sessions := s.sessions - {sessionId});
        assert Attached(t, b) == Attached(s, b);
        OtherBackendMoves(s, t, b);
      } else if s.sessions[sessionId].backendId.value in s.backends {
        var c := s.sessions[sessionId].backendId.value;
        if s.backends[c].catalogId in cfg.catalog {
          var entry := cfg.catalog[s.backends[c].catalogId];
          if c == b {
            DetachOwnKeepsOvercounted(s, entry, sessionId, now, b);
          } else {
            DetachOtherKeepsOvercounted(s, entry, sessionId, c, now, b);
          }
        }
      }
    }
  }

  lemma NextKeepsOvercounted(cfg: Config, s: State, step: Step, b: string)
    requires Overcounted(s, b)
    ensures Overcounted(Next(cfg, s, step), b)
  {
    match step
    case DoInitialize(sessionId, request, now, env) => InitializeKeepsOvercounted(cfg, s, sessionId, request, now, env, b);
    case DoControlInitialize(_, _, _) => assert Attached(Next(cfg, s, step), b) == Attached(s, b);
    case DoRequest(sessionId, kind, now, env) => RequestKeepsOvercounted(cfg, s, sessionId, kind, now, env, b);
    case DoDelete(sessionId, now, versionAgrees) => DeleteKeepsOvercounted(cfg, s, sessionId, now, versionAgrees, b);
    case DoReap(now) =>
      assert b !in Reaped(cfg, s, now);
      OtherBackendMoves(s, Next(cfg, s, step), b);
  }

  lemma {:induction false} RunKeepsOvercounted(cfg: Config, s: State, steps: seq<Step>, b: string)
    requires Overcounted(s, b)
    ensures Overcounted(Run(cfg, s, steps), b)
  {
    if steps != [] {
      RunKeepsOvercounted(cfg, s, steps[..|steps| - 1], b);
      NextKeepsOvercounted(cfg, Run(cfg, s, steps[..|steps| - 1]), steps[|steps| - 1], b);
    }
  }

  /** A leaked backend stays leaked: after every further run it counts one session more than it has, it
      is never stopped, and no reaper takes it. */
  lemma LeakedIsNeverReaped(cfg: Config, s: State, steps: seq<Step>, b: string, now: int)
    requires Leaked(cfg, s, b)
    ensures var t := Run(cfg, s, steps);
            && b in t.backends && t.backends[b].frontendSessionCount == |Attached(t, b)| + 1
            && t.backends[b].state in {Hot, Crashed, Starting} && b !in Reaped(cfg, t, now)
  {
    RunKeepsOvercounted(cfg, s, steps, b);
  }

  /** A backend that nobody is attached to any more is leaked by a restart from a row with at most one
      session exactly if the restart writes the row and the exchange does not fail, unless it was
      leaked already. */
  lemma RestartLeaksIff(cfg: Config, s: State, entry: CatalogEntry, b: string, snapshot: BackendSession, now: int, env: RequestEnv)
    requires b in s.backends && s.backends[b].catalogId in cfg.catalog && cfg.catalog[s.backends[b].catalogId] == entry
    requires Attached(s, b) == {} && snapshot.frontendSessionCount <= 1 && !Leaked(cfg, s, b)
    ensures Leaked(cfg, Restart(s, entry, b, snapshot, now, env), b) <==> RestartWrites(entry, env) && !env.restartReply.Failed?
  {
    assert Attached(Restart(s, entry, b, snapshot, now, env), b) == Attached(s, b);
  }

  /** The only session of a crashed backend, deleted between the two lock sections of its own request:
      the delete stops the backend, and the restart brings it back with nobody attached. */
  lemma DeletingOnlySessionDuringRestartLeaksBackend(cfg: Config, s: State, b: string, x: string, now: int, env: RequestEnv)
    requires Accounts(cfg, s) && Attached(s, b) == {x} && b in s.backends && s.backends[b].state == Crashed
    requires RestartWrites(cfg.catalog[s.backends[b].catalogId], env) && !env.restartReply.Failed?
    ensures var deleted := Delete(cfg, s, x, now, true);
            && b in deleted.backends && deleted.backends[b].state == Stopped
            && Leaked(cfg, Restart(deleted, cfg.catalog[s.backends[b].catalogId], b, s.backends[b], now, env), b)
  {
    var entry := cfg.catalog[s.backends[b].catalogId];
    assert x in Attached(s, b) && AccountOk(s, b, entry) && |{x}| == 1;
    var deleted := Delete(cfg, s, x, now, true);
    OneLessAttached(s, deleted, x, b);
    assert Attached(deleted, b) == {};
    RestartLeaksIff(cfg, deleted, entry, b, s.backends[b], now, env);
  }

  /** With two sessions the leak takes both deletes: one between the lock sections, the other later. */
  lemma DeletionDuringRestartLeaksBackend(cfg: Config, s: State, b: string, x: string, y: string, now: int, env: RequestEnv)
    requires Accounts(cfg, s) && x != y && Attached(s, b) == {x, y}
    requires b in s.backends && s.backends[b].state == Crashed
    requires RestartWrites(cfg.catalog[s.backends[b].catalogId], env) && !env.restartReply.Failed?
    ensures var snapshot := s.backends[b];
            var deleted := Delete(cfg, s, y, now, true);
            && b in deleted.backends
            && Leaked(cfg, Delete(cfg, Restart(deleted, cfg.catalog[snapshot.catalogId], b, snapshot, now, env), x, now, true), b)
  {
    var snapshot := s.backends[b];
    var entry := cfg.catalog[snapshot.catalogId];
    assert |{x, y}| == 2 && AccountOk(s, b, entry);
    var deleted := Delete(cfg, s, y, now, true);
    assert y in Attached(s, b);
    OneLessAttached(s, deleted, y, b);
    assert Attached(deleted, b) == {x};
    StaleCountOutlivesSession(cfg, deleted, entry, b, snapshot, x, now, env);
  }

  lemma StaleCountOutlivesSession(cfg: Config, s: State, entry: CatalogEntry, b: string, snapshot: BackendSession, x: string,
                                  now: int, env: RequestEnv)
    requires b in s.backends && s.backends[b].catalogId in cfg.catalog && cfg.catalog[s.backends[b].catalogId] == entry
    requires RestartWrites(entry, env) && !env.restartReply.Failed?
    requires snapshot.frontendSessionCount == 2 && Attached(s, b) == {x}
    ensures Leaked(cfg, Delete(cfg, Restart(s, entry, b, snapshot, now, env), x, now, true), b)
  {
    assert x in Attached(s, b);
    var restarted := Restart(s, entry, b, snapshot, now, env);
    assert Attached(restarted, b) == Attached(s, b);
    OneLessAttached(restarted, Delete(cfg, restarted, x, now, true), x, b);
  }

  /** An `initialize` that would start a backend and be answered. */
  predicate StartsFirst(cfg: Config, request: FrontendSession, env: InitializeEnv) {
    && request.serverName in cfg.routable && Proxied(cfg.routable[request.serverName])
    && (var entry := cfg.routable[request.serverName];
        if entry.backendType == Stdio then entry.command.Some? && env.start == Started else entry.url.Some?)
    && env.agentKnown && env.reply.Answered?
  }

  lemma FirstSessionRuns(cfg: Config, request: FrontendSession, x: string, now: int, env: InitializeEnv)
    requires ConfigOk(cfg) && StartsFirst(cfg, request, env)
    ensures var s := Run(cfg, EMPTY, [DoInitialize(x, request, now, env)]);
            var b := NewBackendId(cfg, cfg.routable[request.serverName].catalogId, SessionKey(cfg, cfg.routable[request.serverName], x, request));
            && s == Initialize(cfg, EMPTY, x, request, now, env) && Attached(s, b) == {x} && b in s.backends && s.backends[b].state == Hot
            && s.backends[b].catalogId == cfg.routable[request.serverName].catalogId
  {
    assert [DoInitialize(x, request, now, env)][..0] == [];
  }

  lemma UnansweredCallCrashes(cfg: Config, s: State, x: string, b: string, now: int, env: RequestEnv)
    requires x in Attached(s, b) && b in s.backends && s.backends[b].state == Hot && s.backends[b].catalogId in cfg.catalog
    requires env.versionAgrees && env.reply.Failed?
    ensures var t := Request(cfg, s, x, Call, now, env);
            && Attached(t, b) == Attached(s, b) && b in t.backends && t.backends[b].state == Crashed
            && t.backends[b].catalogId == s.backends[b].catalogId
  {
  }

  /** The leak within reach: a session starts a backend, its call goes unanswered, its next call meets
      its own delete. */
  lemma LeakIsReachable(cfg: Config, request: FrontendSession, x: string, now: int, start: InitializeEnv, call: RequestEnv, restart: RequestEnv)
    requires ConfigOk(cfg) && StartsFirst(cfg, request, start) && call.versionAgrees && call.reply.Failed?
    requires RestartWrites(cfg.routable[request.serverName], restart) && !restart.restartReply.Failed?
    ensures var entry := cfg.routable[request.serverName];
            var b := NewBackendId(cfg, entry.catalogId, SessionKey(cfg, entry, x, request));
            var s := Run(cfg, EMPTY, [DoInitialize(x, request, now, start), DoRequest(x, Call, now, call)]);
            && b in s.backends && b in Delete(cfg, s, x, now, true).backends
            && Leaked(cfg, Restart(Delete(cfg, s, x, now, true), entry, b, s.backends[b], now, restart), b)
  {
    var entry := cfg.routable[request.serverName];
    var b := NewBackendId(cfg, entry.catalogId, SessionKey(cfg, entry, x, request));
    var first, second := DoInitialize(x, request, now, start), DoRequest(x, Call, now, call);
    FirstSessionRuns(cfg, request, x, now, start);
    var running := Run(cfg, EMPTY, [first]);
    assert x in Attached(running, b);
    assert [first, second][..1] == [first];
    UnansweredCallCrashes(cfg, running, x, b, now, call);
    EmptyTablesAreFine(cfg);
    RunKeepsInv(cfg, EMPTY, [first, second]);
    DeletingOnlySessionDuringRestartLeaksBackend(cfg, Run(cfg, EMPTY, [first, second]), b, x, now, restart);
  }

  /** The same for two sessions of a global server. */
  lemma SharedLeakIsReachable(cfg: Config, request: FrontendSession, x: string, y: string, now: int, start: InitializeEnv,
                              call: RequestEnv, restart: RequestEnv)
    requires ConfigOk(cfg) && StartsFirst(cfg, request, start) && cfg.routable[request.serverName].shareability == Global && x != y
    requires call.versionAgrees && call.reply.Failed?
    requires RestartWrites(cfg.routable[request.serverName], restart) && !restart.restartReply.Failed?
    ensures var entry := cfg.routable[request.serverName];
            var b := NewBackendId(cfg, entry.catalogId, SessionKey(cfg, entry, x, request));
            var s := Run(cfg, EMPTY, [DoInitialize(x, request, now, start), DoInitialize(y, request, now, start), DoRequest(x, Call, now, call)]);
            && b in s.backends && b in Delete(cfg, s, y, now, true).backends
            && Leaked(cfg, Delete(cfg, Restart(Delete(cfg, s, y, now, true), entry, b, s.backends[b], now, restart), x, now, true), b)
  {
    var entry := cfg.routable[request.serverName];
    var key := SessionKey(cfg, entry, x, request);
    var b := NewBackendId(cfg, entry.catalogId, key);
    var first, second, third := DoInitialize(x, request, now, start), DoInitialize(y, request, now, start), DoRequest(x, Call, now, call);
    FirstSessionRuns(cfg, request, x, now, start);
    var one := Run(cfg, EMPTY, [first]);
    SecondSessionJoins(cfg, one, request, x, y, now, start);
    var two := Initialize(cfg, one, y, request, now, start);
    assert [first, second][..1] == [first] && [first, second, third][..2] == [first, second];
    assert Run(cfg, EMPTY, [first, second]) == two;
    assert x in Attached(two, b);
    UnansweredCallCrashes(cfg, two, x, b, now, call);
    EmptyTablesAreFine(cfg);
    RunKeepsInv(cfg, EMPTY, [first, second, third]);
    DeletionDuringRestartLeaksBackend(cfg, Run(cfg, EMPTY, [first, second, third]), b, x, y, now, restart);
  }

  lemma SecondSessionJoins(cfg: Config, s: State, request: FrontendSession, x: string, y: string, now: int, env: InitializeEnv)
    requires StartsFirst(cfg, request, env) && cfg.routable[request.serverName].shareability == Global && x != y
    requires s == Initialize(cfg, EMPTY, x, request, now, env)
    ensures var entry := cfg.routable[request.serverName];
            var b := NewBackendId(cfg, entry.catalogId, SessionKey(cfg, entry, x, request));
            var t := Initialize(cfg, s, y, request, now, env);
            && Attached(t, b) == {x, y} && b in t.backends && t.backends[b].state == Hot && t.backends[b].catalogId == entry.catalogId
  {
    var entry := cfg.routable[request.serverName];
    assert SessionKey(cfg, entry, x, request) == SessionKey(cfg, entry, y, request);
  }

  // ----- What each handler does -----

  /** Everything but one backend's row and handle is as before. */
  predicate OnlyTouches(s: State, t: State, b: string) {
    && t.sessions == s.sessions && t.backends.Keys == s.backends.Keys
    && (forall other :: other in s.backends && other != b ==> t.backends[other] == s.backends[other])
    && t.processes - {b} == s.processes - {b} && t.clients - {b} == s.clients - {b}
  }

  /** The backend that a session's requests go to. */
  predicate GoesTo(cfg: Config, s: State, x: string, b: string) {
    && x in s.sessions && s.sessions[x].backendId == Some(b)
    && b in s.backends && s.backends[b].catalogId in cfg.catalog
  }

  /** A call on a crashed backend restarts it first.  Answered, it is hot again, with a handle, the new
      result, one more initialize and its session count, and the call then crashes it exactly if its own
      exchange fails; an exchange that fails leaves it crashed, one that raises leaves it starting.  A
      spawn that raises changes nothing, and without a way to start it the backend stays crashed. */
  lemma CallRestartsCrashedBackend(cfg: Config, s: State, x: string, b: string, now: int, env: RequestEnv)
    requires GoesTo(cfg, s, x, b) && s.backends[b].state == Crashed && env.versionAgrees
    ensures var t := Request(cfg, s, x, Call, now, env);
            var entry := cfg.catalog[s.backends[b].catalogId];
            var before := s.backends[b];
            && OnlyTouches(s, t, b)
            && (RestartWrites(entry, env) ==>
                  && (if entry.backendType == Stdio then b in t.processes else b in t.clients)
                  && t.backends[b].frontendSessionCount == (if before.frontendSessionCount == 0 then 1 else before.frontendSessionCount)
                  && t.backends[b].lastUsedAt == now
                  && match env.restartReply
                     case Answered(result) =>
                       && t.backends[b].state == (if env.reply.Failed? then Crashed else Hot)
                       && t.backends[b].initializeResult == Some(result)
                       && t.backends[b].backendInitializeCount == before.backendInitializeCount + 1
                     case _ =>
                       && t.backends[b].state == (if env.restartReply.Failed? then Crashed else Starting)
                       && t.backends[b].initializeResult == None
                       && t.backends[b].backendInitializeCount == before.backendInitializeCount)
            && (!RestartWrites(entry, env) ==>
                  if entry.backendType == Stdio && entry.command.Some? && env.start == SpawnFails then t == s
                  else t.backends[b] == before.(lastUsedAt := now) && t.processes == s.processes && t.clients == s.clients)
  {
  }

  /** A call on any other backend is forwarded.  Without a handle it crashes the backend; with one it does
      so exactly if the exchange fails.  An answer is only noted by its time, and an exchange that raises
      leaves no trace. */
  lemma CallIsForwarded(cfg: Config, s: State, x: string, b: string, now: int, env: RequestEnv)
    requires GoesTo(cfg, s, x, b) && s.backends[b].state != Crashed && env.versionAgrees
    requires cfg.catalog[s.backends[b].catalogId].backendType != Sse
    ensures var t := Request(cfg, s, x, Call, now, env);
            var handled := if cfg.catalog[s.backends[b].catalogId].backendType == Stdio then b in s.processes else b in s.clients;
            && OnlyTouches(s, t, b) && t.processes == s.processes && t.clients == s.clients
            && (t.backends[b].state == Crashed <==> !handled || env.reply.Failed?)
            && t.backends[b] == (if !handled || env.reply.Failed? then s.backends[b].(state := Crashed, lastUsedAt := now)
                                 else if env.reply.Answered? then s.backends[b].(lastUsedAt := now)
                                 else s.backends[b])
  {
  }

  /** After every run, a call on the crashed backend of a session, with a restart that writes and is
      answered and an answer of its own, leaves it hot and registered with all its sessions counted. */
  lemma CallRevivesAfterRun(cfg: Config, steps: seq<Step>, x: string, b: string, now: int, env: RequestEnv)
    requires ConfigOk(cfg) && GoesTo(cfg, Run(cfg, EMPTY, steps), x, b) && Run(cfg, EMPTY, steps).backends[b].state == Crashed
    requires env.versionAgrees && env.restartReply.Answered? && env.reply.Answered?
    requires RestartWrites(cfg.catalog[Run(cfg, EMPTY, steps).backends[b].catalogId], env)
    ensures var t := Request(cfg, Run(cfg, EMPTY, steps), x, Call, now, env);
            && b in t.backends && t.backends[b].state == Hot && t.backends[b].initializeResult == Some(env.restartReply.result)
            && t.backends[b].frontendSessionCount == |Attached(t, b)| >= 1
            && (if cfg.catalog[t.backends[b].catalogId].backendType == Stdio then b in t.processes else b in t.clients)
  {
    var s := Run(cfg, EMPTY, steps);
    EmptyTablesAreFine(cfg);
    RunKeepsInv(cfg, EMPTY, steps);
    CallRestartsCrashedBackend(cfg, s, x, b, now, env);
    RequestKeepsInv(cfg, s, x, Call, now, env);
    SessionOfHotBackend(cfg, Request(cfg, s, x, Call, now, env), b);
  }

  lemma SessionOfHotBackend(cfg: Config, s: State, b: string)
    requires Accounts(cfg, s) && b in s.backends && s.backends[b].state == Hot
    ensures s.backends[b].catalogId in cfg.catalog && s.backends[b].frontendSessionCount == |Attached(s, b)| >= 1
    ensures Registered(s, cfg.catalog[s.backends[b].catalogId], b)
  {
    assert AccountOk(s, b, cfg.catalog[s.backends[b].catalogId]);
  }

  /** A notification at most notes its time; a cancellation and a request that is turned away change nothing. */
  lemma OtherRequestsChangeLittle(cfg: Config, s: State, x: string, b: string, kind: RequestKind, now: int, env: RequestEnv)
    ensures var t := Request(cfg, s, x, kind, now, env);
            && (kind == Cancellation || !env.versionAgrees || x !in s.sessions || s.sessions[x].backendId.None? ==> t == s)
            && (kind == Notification && GoesTo(cfg, s, x, b) && env.versionAgrees && cfg.catalog[s.backends[b].catalogId].backendType != Sse ==>
                  var handled := if cfg.catalog[s.backends[b].catalogId].backendType == Stdio then b in s.processes else b in s.clients;
                  t == if handled && env.reply.Answered? then s.(backends := s.backends[b := s.backends[b].(lastUsedAt := now)]) else s)
  {
  }

  /** A session is opened exactly if the server is known, may be proxied and has an address, the id is new
      and the agent known; otherwise nothing happens. */
  lemma InitializeOpensIff(cfg: Config, s: State, x: string, request: FrontendSession, now: int, env: InitializeEnv)
    ensures var t := Initialize(cfg, s, x, request, now, env);
            if && request.serverName in cfg.routable && cfg.routable[request.serverName].shareability != NoProxy
               && cfg.routable[request.serverName].backendType != Sse
               && (cfg.routable[request.serverName].backendType == Stdio || cfg.routable[request.serverName].url.Some?)
               && x !in s.sessions && env.agentKnown
            then x in t.sessions else t == s
  {
  }

  /** It is opened as it was asked for, and all rows but that of its own pool stay as they are. */
  lemma InitializeLeavesTheRest(cfg: Config, s: State, x: string, request: FrontendSession, now: int, env: InitializeEnv, b: string)
    requires x !in s.sessions && x in Initialize(cfg, s, x, request, now, env).sessions
    ensures var t := Initialize(cfg, s, x, request, now, env);
            && t.sessions == s.sessions[x := request.(backendId := t.sessions[x].backendId)]
            && (b in s.backends && t.sessions[x].backendId != Some(b) ==> b in t.backends && t.backends[b] == s.backends[b])
  {
  }

  /** What the attached session finds: a row that was hot, counting one more, or a new one with the answer. */
  lemma InitializeAttachesToRunningBackend(cfg: Config, s: State, x: string, request: FrontendSession, now: int, env: InitializeEnv, b: string)
    requires x !in s.sessions && x in Initialize(cfg, s, x, request, now, env).sessions
    requires Initialize(cfg, s, x, request, now, env).sessions[x].backendId == Some(b)
    ensures var t := Initialize(cfg, s, x, request, now, env);
            && b in t.backends && t.backends[b].state == Hot && t.backends[b].lastUsedAt == now
            && (if b in s.backends
                then && s.backends[b].state == Hot
                     && t.backends[b] == s.backends[b].(frontendSessionCount := s.backends[b].frontendSessionCount + 1, lastUsedAt := now)
                     && t.processes == s.processes && t.clients == s.clients
                else && env.reply.Answered? && t.backends[b].initializeResult == Some(env.reply.result)
                     && t.backends[b].frontendSessionCount == t.backends[b].backendInitializeCount == 1
                     && (if cfg.routable[request.serverName].backendType == Stdio then b in t.processes else b in t.clients))
  {
  }

  /** A delete whose version agrees takes the session, and no other, unless its backend is unknown. */
  lemma DeleteRemovesSession(cfg: Config, s: State, x: string, now: int, versionAgrees: bool)
    ensures var t := Delete(cfg, s, x, now, versionAgrees);
            && (x in s.sessions && versionAgrees && (s.sessions[x].backendId.None? || GoesTo(cfg, s, x, s.sessions[x].backendId.value)) ==>
                  t.sessions == s.sessions - {x})
            && (x !in s.sessions || !versionAgrees ==> t == s)
            && (x in s.sessions && s.sessions[x].backendId.None? ==> t.backends == s.backends && t.processes == s.processes && t.clients == s.clients)
  {
  }

  /** On any tables, reaping stops exactly the hot backends that count no session and were idle for their
      server's time, takes their handles, and leaves everything else. */
  lemma ReapStopsExactlyTheIdle(cfg: Config, s: State, now: int, b: string)
    requires b in s.backends && s.backends[b].catalogId in cfg.catalog
    ensures var t := Reap(cfg, s, now);
            var entry := cfg.catalog[s.backends[b].catalogId];
            var idle := s.backends[b].state == Hot && s.backends[b].frontendSessionCount == 0 && now - s.backends[b].lastUsedAt >= entry.idleTimeoutSec;
            && t.sessions == s.sessions && t.backends.Keys == s.backends.Keys
            && t.backends[b] == (if idle then s.backends[b].(state := Stopped, lastUsedAt := now) else s.backends[b])
            && (b in t.processes <==> b in s.processes && !(idle && entry.backendType == Stdio))
            && (b in t.clients <==> b in s.clients && !(idle && (entry.backendType == StreamableHttp || entry.backendType == Http)))
  {
  }

  /** On the control plane a session is opened, unattached, exactly if its id is new and the agent known. */
  lemma ControlSessionIsUnattached(s: State, x: string, request: FrontendSession, agentKnown: bool)
    ensures ControlInitialize(s, x, request, agentKnown)
         == if x !in s.sessions && agentKnown then s.(sessions := s.sessions[x := request.(backendId := None)]) else s
  {
  }

  // ----- Errors that nobody catches -----

  /** A first reply that cannot be read leaves its backend starting and registered, and that is for good:
      no run attaches a session to it, and so none stops it or closes its handle. */
  lemma UnreadableFirstReplyLeaksBackend(cfg: Config, s: State, sessionId: string, request: FrontendSession, now: int, env: InitializeEnv,
                                         steps: seq<Step>)
    requires Inv(cfg, s) && request.serverName in cfg.routable && sessionId !in s.sessions && env.agentKnown && env.reply.Raised?
    requires var entry := cfg.routable[request.serverName];
             && Proxied(entry)
             && (if entry.backendType == Stdio then entry.command.Some? && env.start == Started else entry.url.Some?)
             && NewBackendId(cfg, entry.catalogId, SessionKey(cfg, entry, sessionId, request)) !in s.backends
    ensures var entry := cfg.routable[request.serverName];
            var b := NewBackendId(cfg, entry.catalogId, SessionKey(cfg, entry, sessionId, request));
            Abandoned(cfg, Run(cfg, Initialize(cfg, s, sessionId, request, now, env), steps), b)
  {
    var entry := cfg.routable[request.serverName];
    var b := NewBackendId(cfg, entry.catalogId, SessionKey(cfg, entry, sessionId, request));
    var t := Initialize(cfg, s, sessionId, request, now, env);
    InitializeKeepsInv(cfg, s, sessionId, request, now, env);
    NobodyAttached(cfg, s, b);
    assert Attached(t, b) == {};
    RunKeepsAbandoned(cfg, t, steps, b);
  }

  /** Starting and registered, without a session and without ever having answered. */
  predicate Abandoned(cfg: Config, s: State, b: string) {
    && Dead(s, b) && s.backends[b].catalogId in cfg.catalog && Registered(s, cfg.catalog[s.backends[b].catalogId], b)
    && s.backends[b].state == Starting && s.backends[b].backendInitializeCount == 0
  }

  /** A step touches the row and the handle of a backend without sessions only by reaping it. */
  lemma NextLeavesDeserted(cfg: Config, s: State, step: Step, b: string)
    requires Inv(cfg, s) && Dead(s, b)
    ensures var t := Next(cfg, s, step);
            && b in t.backends && t.backends[b] == s.backends[b]
            && (b in t.processes <==> b in s.processes) && (b in t.clients <==> b in s.clients)
  {
    assert AccountOk(s, b, cfg.catalog[s.backends[b].catalogId]);
    match step
    case DoInitialize(sessionId, request, now, env) => InitializeLeavesDeserted(cfg, s, sessionId, request, now, env, b);
    case DoControlInitialize(_, _, _) =>
    case DoRequest(sessionId, kind, now, env) => RequestLeavesDeserted(cfg, s, sessionId, kind, now, env, b);
    case DoDelete(sessionId, now, versionAgrees) =>
      assert sessionId !in Attached(s, b);
    case DoReap(now) => ReapFindsNothing(cfg, s, now);
  }

  lemma InitializeLeavesDeserted(cfg: Config, s: State, sessionId: string, request: FrontendSession, now: int, env: InitializeEnv, b: string)
    requires b in s.backends && s.backends[b].state != Hot
    ensures var t := Initialize(cfg, s, sessionId, request, now, env);
            && b in t.backends && t.backends[b] == s.backends[b]
            && (b in t.processes <==> b in s.processes) && (b in t.clients <==> b in s.clients)
  {
  }

  lemma RequestLeavesDeserted(cfg: Config, s: State, sessionId: string, kind: RequestKind, now: int, env: RequestEnv, b: string)
    requires b in s.backends && Attached(s, b) == {}
    ensures var t := Request(cfg, s, sessionId, kind, now, env);
            && b in t.backends && t.backends[b] == s.backends[b]
            && (b in t.processes <==> b in s.processes) && (b in t.clients <==> b in s.clients)
  {
    assert sessionId !in Attached(s, b);
  }

  lemma {:induction false} RunKeepsAbandoned(cfg: Config, s: State, steps: seq<Step>, b: string)
    requires Inv(cfg, s) && Abandoned(cfg, s, b)
    ensures Abandoned(cfg, Run(cfg, s, steps), b)
  {
    if steps != [] {
      var before := steps[..|steps| - 1];
      RunKeepsAbandoned(cfg, s, before, b);
      RunKeepsInv(cfg, s, before);
      NextKeepsDead(cfg, Run(cfg, s, before), steps[|steps| - 1], b);
      NextLeavesDeserted(cfg, Run(cfg, s, before), steps[|steps| - 1], b);
    }
  }

  /** A delete whose closing of the handle raises: the session and the handle are gone, and the row is
      not marked stopped. */
  function DeleteUnclosed(cfg: Config, s: State, sessionId: string, now: int): State
    requires sessionId in s.sessions && s.sessions[sessionId].backendId.Some?
    requires s.sessions[sessionId].backendId.value in s.backends
    requires s.backends[s.sessions[sessionId].backendId.value].catalogId in cfg.catalog
  {
    var b := s.sessions[sessionId].backendId.value;
    var t := Delete(cfg, s, sessionId, now, true);
    SetBackend(t, b, t.backends[b].(state := s.backends[b].state))
  }

  /** Such a delete is what gives the reaper work: afterwards, and not before, it takes the backend once
      it has been idle long enough, exactly if it was hot and the session its last. */
  lemma UnclosedDeleteFeedsReaper(cfg: Config, s: State, sessionId: string, now: int, later: int)
    requires sessionId in s.sessions && s.sessions[sessionId].backendId.Some?
    requires var b := s.sessions[sessionId].backendId.value;
             b in s.backends && s.backends[b].catalogId in cfg.catalog && AccountOk(s, b, cfg.catalog[s.backends[b].catalogId])
    ensures var b := s.sessions[sessionId].backendId.value;
            var entry := cfg.catalog[s.backends[b].catalogId];
            var t := DeleteUnclosed(cfg, s, sessionId, now);
            && b !in Reaped(cfg, s, later)
            && (b in Reaped(cfg, t, later) <==>
                  s.backends[b].state == Hot && Attached(s, b) == {sessionId} && later - now >= entry.idleTimeoutSec)
            && (Attached(s, b) == {sessionId} ==> !Registered(t, entry, b))
  {
    var b := s.sessions[sessionId].backendId.value;
    assert sessionId in Attached(s, b);
    OneLessAttached(s, Delete(cfg, s, sessionId, now, true), sessionId, b);
  }

  // ----- The release gate's sharing check -----

  datatype Violation = NoProxyHasBackend | GlobalPoolOfNonGlobal | SharedNonGlobal

  /** What the gate says of one runtime row; a row whose catalog entry is gone has no shareability. */
  predicate Violates(cfg: Config, backend: BackendSession, violation: Violation) {
    var shareability := if backend.catalogId in cfg.catalog then Some(cfg.catalog[backend.catalogId].shareability) else None;
    && backend.state in {Starting, Hot}
    && match violation
       case NoProxyHasBackend => shareability == Some(NoProxy)
       case GlobalPoolOfNonGlobal => shareability != Some(Global) && StartsWith(backend.runtimePoolKey, "global:")
       case SharedNonGlobal => shareability != Some(Global) && backend.frontendSessionCount > 1
  }

  method RuntimeSharingViolations(cfg: Config, backends: map<string, BackendSession>) returns (violations: set<(string, Violation)>)
    ensures forall b, v :: (b, v) in violations <==> b in backends && Violates(cfg, backends[b], v)
  {
    violations := {};
    var left := backends.Keys;
    while left != {}
      invariant left <= backends.Keys
      invariant forall b, v :: (b, v) in violations <==> b in backends && b !in left && Violates(cfg, backends[b], v)
      decreases |left|
    {
      var b :| b in left;
      var row := backends[b];
      if row.state == Starting || row.state == Hot {
        var shareability := if row.catalogId in cfg.catalog then Some(cfg.catalog[row.catalogId].shareability) else None;
        if shareability == Some(NoProxy) {
          violations := violations + {(b, NoProxyHasBackend)};
        }
        if shareability != Some(Global) && StartsWith(row.runtimePoolKey, "global:") {
          violations := violations + {(b, GlobalPoolOfNonGlobal)};
        }
        if shareability != Some(Global) && row.frontendSessionCount > 1 {
          violations := violations + {(b, SharedNonGlobal)};
        }
      }
      left := left - {b};
    }
  }

  /** The three rules, in the row's and the catalog's own fields: a running backend must not belong to a
      server that forbids proxying, and unless its server is global it must neither have a global key nor
      count more than one session. */
  lemma ViolatesIff(cfg: Config, backend: BackendSession, violation: Violation)
    ensures Violates(cfg, backend, violation) <==>
      && (backend.state == Starting || backend.state == Hot)
      && (var known := backend.catalogId in cfg.catalog;
          match violation
          case NoProxyHasBackend => known && cfg.catalog[backend.catalogId].shareability == NoProxy
          case GlobalPoolOfNonGlobal => "global:" <= backend.runtimePoolKey && !(known && cfg.catalog[backend.catalogId].shareability == Global)
          case SharedNonGlobal => backend.frontendSessionCount >= 2 && !(known && cfg.catalog[backend.catalogId].shareability == Global))
  {
    assert StartsWith(backend.runtimePoolKey, "global:") <==> "global:" <= backend.runtimePoolKey;
  }

  lemma GlobalKeysAreGlobalPools(digest: Digest, pool: Pool)
    ensures StartsWith(RuntimePoolKey(digest, pool), "global:") <==> pool.GlobalPool?
  {
    var key := RuntimePoolKey(digest, pool);
    assert key[0] == Kind(pool)[0];
    assert StartsWith(key, "global:") ==> key[..7][0] == 'g' && key[..7][0] == key[0];
    if pool.GlobalPool? {
      assert key[..7] == "global:";
    }
  }

  lemma SharingRuleFiresIff(cfg: Config, s: State, b: string)
    requires b in s.backends && s.backends[b].catalogId in cfg.catalog && AccountOk(s, b, cfg.catalog[s.backends[b].catalogId])
    ensures Violates(cfg, s.backends[b], SharedNonGlobal) <==>
            s.backends[b].state in {Hot, Starting} && cfg.catalog[s.backends[b].catalogId].shareability != Global && |Attached(s, b)| > 1
  {
  }

  /** On reachable states the gate never finds a backend of an entry that forbids proxying, nor a
      global pool of an entry that is not global.  It finds a shared backend exactly where a hot or
      starting backend of an entry that is not global has more than one session; those share their workspace
      or agent as the policy says, or their digests collide. */
  lemma GateOnReachableStates(cfg: Config, s: State, b: string)
    requires Inv(cfg, s) && b in s.backends
    ensures !Violates(cfg, s.backends[b], NoProxyHasBackend)
    ensures !Violates(cfg, s.backends[b], GlobalPoolOfNonGlobal)
    ensures s.backends[b].catalogId in cfg.catalog
    ensures Violates(cfg, s.backends[b], SharedNonGlobal) <==>
            s.backends[b].state in {Hot, Starting} && cfg.catalog[s.backends[b].catalogId].shareability != Global && |Attached(s, b)| > 1
    ensures Violates(cfg, s.backends[b], SharedNonGlobal) ==>
            exists x, y :: x != y && x in Attached(s, b) && y in Attached(s, b) && MayShare(cfg, s, x, y)
                           && cfg.routable[s.sessions[x].serverName].shareability != Global
  {
    var backend := s.backends[b];
    assert RowOk(cfg, b, backend.catalogId, backend.runtimePoolKey);
    var entry := cfg.catalog[backend.catalogId];
    var pool :| RuntimePoolKey(cfg.digest, pool) == backend.runtimePoolKey && pool.GlobalPool? == (entry.shareability == Global);
    GlobalKeysAreGlobalPools(cfg.digest, pool);
    SharingRuleFiresIff(cfg, s, b);
    if Violates(cfg, backend, SharedNonGlobal) {
      var x, y := TwoOf(Attached(s, b));
      SessionsOnOneBackend(cfg, s, b, x, y);
      assert SessionOk(cfg, s, x);
    }
  }

  lemma TwoOf<T>(s: set<T>) returns (x: T, y: T)
    requires |s| > 1
    ensures x != y && x in s && y in s
  {
    x :| x in s;
    assert |s - {x}| > 0;
    y :| y in s - {x};
  }

  /** And it does find that: two sessions of one workspace on a per-workspace entry share a backend,
      as the policy allows, and fail the gate. */
  lemma GateFlagsPermittedSharing(cfg: Config, request: FrontendSession, x: string, y: string, now: int, env: InitializeEnv)
    requires ConfigOk(cfg) && request.serverName in cfg.routable && x != y
    requires var entry := cfg.routable[request.serverName];
             entry.shareability == PerWorkspace && entry.backendType == Stdio && entry.command.Some?
    requires Given(request.workspaceRoot) && env.agentKnown && env.start == Started && env.reply.Answered?
    ensures var s := Run(cfg, EMPTY, [DoInitialize(x, request, now, env), DoInitialize(y, request, now, env)]);
            var entry := cfg.routable[request.serverName];
            var b := NewBackendId(cfg, entry.catalogId, SessionKey(cfg, entry, x, request));
            && b in s.backends && {x, y} <= Attached(s, b) && Violates(cfg, s.backends[b], SharedNonGlobal)
  {
    var entry := cfg.routable[request.serverName];
    var first, second := DoInitialize(x, request, now, env), DoInitialize(y, request, now, env);
    var key := SessionKey(cfg, entry, x, request);
    assert key == SessionKey(cfg, entry, y, request);
    var s1 := Next(cfg, EMPTY, first);
    var s2 := Next(cfg, s1, second);
    assert [first, second][..1] == [first] && [first][..0] == [];
    assert Run(cfg, EMPTY, [first]) == s1;
    assert Run(cfg, EMPTY, [first, second]) == s2;
    var b := NewBackendId(cfg, entry.catalogId, key);
    assert HotFor(s1, b, entry, key);
  }
}
