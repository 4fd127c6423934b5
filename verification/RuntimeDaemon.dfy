/**
 The daemon with its two runtime tables and its two handle registries, handler by handler.  Each
 handler runs under the database lock and is proved to do what the state machine says.
 */
module RuntimeDaemon {
  import opened Common
  import opened PoolKeys
  import opened RuntimeProxy
  import Json

  class Daemon {
    const cfg: Config
    var sessions: map<string, FrontendSession>
    var backends: map<string, BackendSession>
    var processes: set<string>
    var clients: set<string>

    ghost function Tables(): State
      reads this
    {
      State(sessions, backends, processes, clients)
    }

    ghost predicate Valid()
      reads this
    {
      Inv(cfg, Tables())
    }

    constructor (cfg: Config)
      requires ConfigOk(cfg)
      ensures Valid() && this.cfg == cfg && Tables() == EMPTY
    {
      this.cfg := cfg;
      sessions, backends, processes, clients := map[], map[], {}, {};
      new;
      EmptyTablesAreFine(cfg);
    }

    // ----- Rows -----

    method UpdateBackend(b: string, row: BackendSession)
      modifies this`backends
      ensures Tables() == SetBackend(old(Tables()), b, row)
    {
      backends := backends[b := row];
    }

    method MarkCrashed(b: string, now: int)
      requires b in backends
      modifies this`backends
      ensures Tables() == RuntimeProxy.MarkCrashed(old(Tables()), b, now)
    {
      UpdateBackend(b, backends[b].(state := Crashed, lastUsedAt := now));
    }

    method TouchBackend(b: string, now: int)
      requires b in backends
      modifies this`backends
      ensures Tables() == Touch(old(Tables()), b, now)
    {
      UpdateBackend(b, backends[b].(lastUsedAt := now));
    }

    method AttachBackend(sessionId: string, b: string)
      requires sessionId in sessions
      modifies this`sessions
      ensures Tables() == Attach(old(Tables()), sessionId, b)
    {
      sessions := sessions[sessionId := sessions[sessionId].(backendId := Some(b))];
    }

    // ----- Handles -----

    predicate HasHandle(entry: CatalogEntry, b: string)
      reads this`processes, this`clients
    {
      if entry.backendType == Stdio then b in processes else b in clients
    }

    method RegisterHandle(entry: CatalogEntry, b: string)
      modifies this`processes, this`clients
      ensures Tables() == Register(old(Tables()), entry, b)
    {
      if entry.backendType == Stdio {
        processes := processes + {b};
      } else {
        clients := clients + {b};
      }
    }

    method CloseHandle(entry: CatalogEntry, b: string)
      modifies this`processes, this`clients
      ensures Tables() == Close(old(Tables()), entry, b)
    {
      if entry.backendType == Stdio {
        processes := processes - {b};
      } else {
        clients := clients - {b};
      }
    }

    // ----- initialize -----

    /** The hot backend of a pool, looked up by its key alone. */
    method FindHot(key: string) returns (found: Option<string>)
      ensures found.Some? ==> found.value in backends && backends[found.value].state == Hot && backends[found.value].runtimePoolKey == key
      ensures found.None? ==> forall b :: b in backends && backends[b].state == Hot ==> backends[b].runtimePoolKey != key
    {
      if b :| b in backends && backends[b].state == Hot && backends[b].runtimePoolKey == key {
        found := Some(b);
      } else {
        found := None;
      }
    }

    /** Under the invariant the key says which entry and which row it belongs to. */
    lemma KeyNamesRow(entry: CatalogEntry, sessionId: string, session: FrontendSession, b: string)
      requires Rows(cfg, Tables()) && Proxied(entry)
      requires b in backends && backends[b].runtimePoolKey == SessionKey(cfg, entry, sessionId, session)
      ensures backends[b].catalogId == entry.catalogId
      ensures b == NewBackendId(cfg, entry.catalogId, SessionKey(cfg, entry, sessionId, session))
    {
      assert RowOk(cfg, b, backends[b].catalogId, backends[b].runtimePoolKey);
      var pool :| RuntimePoolKey(cfg.digest, pool) == backends[b].runtimePoolKey && pool.catalogId == backends[b].catalogId;
      PoolKeyIsInjective(cfg.digest, pool, SessionPool(entry, sessionId, session).value);
    }

    /** What is found for a key is the row of that key's own pool. */
    method FindPoolBackend(entry: CatalogEntry, sessionId: string, key: string) returns (found: Option<string>)
      requires Rows(cfg, Tables()) && Wants(cfg, Tables(), sessionId, entry, key)
      ensures found == if HotFor(Tables(), NewBackendId(cfg, entry.catalogId, key), entry, key)
                       then Some(NewBackendId(cfg, entry.catalogId, key)) else None
    {
      found := FindHot(key);
      if found.Some? {
        KeyNamesRow(entry, sessionId, sessions[sessionId], found.value);
      }
    }

    method ReuseBackend(entry: CatalogEntry, sessionId: string, key: string, now: int) returns (reused: bool)
      requires Rows(cfg, Tables()) && Wants(cfg, Tables(), sessionId, entry, key)
      modifies this`sessions, this`backends
      ensures var b := NewBackendId(cfg, entry.catalogId, key);
              && reused == HotFor(old(Tables()), b, entry, key)
              && Tables() == if reused then Reuse(old(Tables()), sessionId, b, now) else old(Tables())
    {
      var found := FindPoolBackend(entry, sessionId, key);
      if found.None? {
        return false;
      }
      var b := found.value;
      UpdateBackend(b, backends[b].(frontendSessionCount := backends[b].frontendSessionCount + 1, lastUsedAt := now));
      AttachBackend(sessionId, b);
      return true;
    }

    /** The first start of a pool's backend.  The insert is refused when the row exists. */
    method StartBackend(entry: CatalogEntry, sessionId: string, key: string, now: int, reply: Reply) returns (inserted: bool)
      requires sessionId in sessions
      modifies this
      ensures var b := NewBackendId(cfg, entry.catalogId, key);
              && inserted == (b !in old(backends))
              && Tables() == if inserted then StartFirst(old(Tables()), sessionId, entry, b, key, now, reply) else old(Tables())
    {
      var b := NewBackendId(cfg, entry.catalogId, key);
      inserted := b !in backends;
      if inserted {
        UpdateBackend(b, BackendSession(entry.catalogId, key, Starting, 0, 1, None, now));
        RegisterHandle(entry, b);
        match reply {
          case Answered(result) =>
            UpdateBackend(b, backends[b].(state := Hot, backendInitializeCount := 1, initializeResult := Some(result)));
            AttachBackend(sessionId, b);
          case Failed =>
            MarkCrashed(b, now);
            CloseHandle(entry, b);
          case Raised =>
        }
        assert backends == StartFirst(old(Tables()), sessionId, entry, b, key, now, reply).backends;
        assert reply.Failed? ==> processes == StartFirst(old(Tables()), sessionId, entry, b, key, now, reply).processes;
        assert reply.Failed? ==> clients == StartFirst(old(Tables()), sessionId, entry, b, key, now, reply).clients;
      }
    }

    method HandleInitialize(sessionId: string, request: FrontendSession, now: int, env: InitializeEnv)
      requires Valid()
      modifies this
      ensures Valid() && Tables() == Initialize(cfg, old(Tables()), sessionId, request, now, env)
    {
      InitializeKeepsInv(cfg, Tables(), sessionId, request, now, env);
      if request.serverName !in cfg.routable {
        return;
      }
      var entry := cfg.routable[request.serverName];
      if entry.shareability == NoProxy || entry.backendType == Sse {
        return;
      }
      if entry.backendType != Stdio && entry.url.None? {
        return;
      }
      if sessionId in sessions || !env.agentKnown {
        return;
      }
      sessions := sessions[sessionId := request.(backendId := None)];
      if entry.backendType == Stdio && entry.command.None? {
        return;
      }
      var key := SessionKey(cfg, entry, sessionId, request);
      var reused := ReuseBackend(entry, sessionId, key, now);
      if reused {
        return;
      }
      if entry.backendType == Stdio && env.start != Started {
        return;
      }
      var inserted := StartBackend(entry, sessionId, key, now, env.reply);
    }

    // ----- Requests -----

    method RestartBackend(entry: CatalogEntry, b: string, snapshot: BackendSession, now: int, env: RequestEnv)
      requires b in backends
      modifies this`backends, this`processes, this`clients
      ensures Tables() == Restart(old(Tables()), entry, b, snapshot, now, env)
    {
      if entry.backendType == Stdio {
        if entry.command.None? || env.start == CredentialMissing {
          MarkCrashed(b, now);
          return;
        }
        if env.start == SpawnFails {
          return;
        }
      } else if entry.backendType == Sse || entry.url.None? {
        MarkCrashed(b, now);
        return;
      }
      var count := if snapshot.frontendSessionCount > 1 then snapshot.frontendSessionCount else 1;
      UpdateBackend(b, backends[b].(state := Starting, frontendSessionCount := count, initializeResult := None, lastUsedAt := now));
      RegisterHandle(entry, b);
      match env.restartReply {
        case Answered(result) =>
          UpdateBackend(b, backends[b].(state := Hot, initializeResult := Some(result), lastUsedAt := now,
                                        backendInitializeCount := snapshot.backendInitializeCount + 1));
        case Failed =>
          MarkCrashed(b, now);
        case Raised =>
      }
      assert !env.restartReply.Answered? ==> backends[b].backendInitializeCount == old(backends[b].backendInitializeCount);
    }

    method ForwardToBackend(entry: CatalogEntry, b: string, now: int, env: RequestEnv)
      requires b in backends
      modifies this`backends
      ensures Tables() == Forward(old(Tables()), entry, b, now, env)
    {
      if entry.backendType == Sse || !HasHandle(entry, b) || env.reply.Failed? {
        MarkCrashed(b, now);
      } else if env.reply.Answered? {
        TouchBackend(b, now);
      }
    }

    method HandleRequest(sessionId: string, kind: RequestKind, now: int, env: RequestEnv)
      requires Valid()
      modifies this`backends, this`processes, this`clients
      ensures Valid() && Tables() == Request(cfg, old(Tables()), sessionId, kind, now, env)
    {
      RequestKeepsInv(cfg, Tables(), sessionId, kind, now, env);
      if sessionId !in sessions || !env.versionAgrees || sessions[sessionId].backendId.None? {
        return;
      }
      var b := sessions[sessionId].backendId.value;
      if b !in backends || backends[b].catalogId !in cfg.catalog {
        return;
      }
      var backend := backends[b];
      var entry := cfg.catalog[backend.catalogId];
      match kind {
        case Cancellation =>
        case Notification =>
          if entry.backendType != Sse && HasHandle(entry, b) && env.reply.Answered? {
            TouchBackend(b, now);
          }
        case Call =>
          if backend.state == Crashed {
            RestartBackend(entry, b, backend, now, env);
            if backends[b].state != Hot {
              return;
            }
          }
          ForwardToBackend(entry, b, now, env);
      }
    }

    // ----- delete and reap -----

    method HandleDelete(sessionId: string, now: int, versionAgrees: bool)
      requires Valid()
      modifies this
      ensures Valid() && Tables() == Delete(cfg, old(Tables()), sessionId, now, versionAgrees)
    {
      DeleteKeepsInv(cfg, Tables(), sessionId, now, versionAgrees);
      if sessionId !in sessions || !versionAgrees {
        return;
      }
      var session := sessions[sessionId];
      if session.backendId.Some? && (session.backendId.value !in backends || backends[session.backendId.value].catalogId !in cfg.catalog) {
        return;
      }
      sessions := sessions - {sessionId};
      if session.backendId.Some? {
        DetachBackend(cfg.catalog[backends[session.backendId.value].catalogId], session.backendId.value, now);
      }
    }

    method DetachBackend(entry: CatalogEntry, b: string, now: int)
      requires b in backends
      modifies this`backends, this`processes, this`clients
      ensures Tables() == Detach(entry, old(Tables()), b, now)
    {
      var count := if backends[b].frontendSessionCount > 0 then backends[b].frontendSessionCount - 1 else 0;
      UpdateBackend(b, backends[b].(frontendSessionCount := count, lastUsedAt := now));
      if backends[b].frontendSessionCount == 0 {
        CloseHandle(entry, b);
        UpdateBackend(b, backends[b].(state := Stopped, lastUsedAt := now));
      }
      assert backends == Detach(entry, old(Tables()), b, now).backends;
    }

    /** The reaper, on any tables: also on such as only an edit of the database can produce. */
    method ReapIdleBackends(now: int) returns (reaped: set<string>)
      requires forall b :: b in backends ==> backends[b].catalogId in cfg.catalog
      modifies this`backends, this`processes, this`clients
      ensures reaped == Reaped(cfg, old(Tables()), now)
      ensures Tables() == Reap(cfg, old(Tables()), now)
    {
      ghost var before := Tables();
      reaped := {};
      var left := backends.Keys;
      RetireNone(before, now);
      while left != {}
        invariant left <= before.backends.Keys
        invariant reaped == set b | b in before.backends && b !in left && Idle(cfg, before.backends[b], now)
        invariant Tables() == Retire(cfg, before, reaped, now)
        decreases |left|
      {
        var b :| b in left;
        var backend := backends[b];
        var entry := cfg.catalog[backend.catalogId];
        if backend.state == Hot && backend.frontendSessionCount == 0 && now - backend.lastUsedAt >= entry.idleTimeoutSec {
          RetireBackend(before, reaped, b, now);
          reaped := reaped + {b};
        }
        left := left - {b};
      }
    }

    /** One more idle backend of those before is closed and stopped. */
    method RetireBackend(ghost before: State, ghost reaped: set<string>, b: string, now: int)
      requires forall r :: r in reaped ==> r in before.backends && before.backends[r].catalogId in cfg.catalog
      requires b in before.backends && b !in reaped && before.backends[b].catalogId in cfg.catalog
      requires Tables() == Retire(cfg, before, reaped, now)
      modifies this`backends, this`processes, this`clients
      ensures Tables() == Retire(cfg, before, reaped + {b}, now)
    {
      RetireOne(before, reaped, b, now);
      var entry := cfg.catalog[backends[b].catalogId];
      if entry.backendType == Stdio {
        processes := processes - {b};
      } else if entry.backendType == StreamableHttp || entry.backendType == Http {
        clients := clients - {b};
      }
      UpdateBackend(b, backends[b].(state := Stopped, lastUsedAt := now));
    }

    lemma RetireNone(s: State, now: int)
      ensures Retire(cfg, s, {}, now) == s
    {
      assert Retire(cfg, s, {}, now).backends == s.backends;
    }

    lemma RetireOne(s: State, reaped: set<string>, b: string, now: int)
      requires forall r :: r in reaped ==> r in s.backends && s.backends[r].catalogId in cfg.catalog
      requires b in s.backends && b !in reaped && s.backends[b].catalogId in cfg.catalog
      ensures var t, entry := Retire(cfg, s, reaped, now), cfg.catalog[s.backends[b].catalogId];
              var u := Retire(cfg, s, reaped + {b}, now);
              && u.sessions == t.sessions
              && u.backends == t.backends[b := s.backends[b].(state := Stopped, lastUsedAt := now)]
              && u.processes == (if entry.backendType == Stdio then t.processes - {b} else t.processes)
              && u.clients == (if entry.backendType in {StreamableHttp, Http} then t.clients - {b} else t.clients)
    {
    }
  }
}
