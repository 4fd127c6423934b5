/**
 Runtime pool keys: the strings under which backends are shared.  A key spells out the catalog id
 and a 24-character digest of what else it depends on.
 */
module PoolKeys {
  import opened Common

  datatype Shareability = Global | PerWorkspace | PerAgent | PerAccount | IsolatedPerFrontendSession | NoProxy

  datatype BackendType = Stdio | StreamableHttp | Http | Sse

  /** What gets digested: a string, or the canonical JSON of an identity. */
  datatype DigestInput =
    | Text(text: string)
    | Identity(shareability: Shareability, frontendSessionId: string, transportType: BackendType, remoteUrl: Option<string>)

  type Hex24 = s: string | |s| == 24 witness seq(24, _ => '0')

  type Digest = DigestInput -> Hex24

  /** The pool a key stands for. */
  datatype Pool =
    | GlobalPool(catalogId: string)
    | WorkspacePool(catalogId: string, workspace: string)
    | AgentPool(catalogId: string, agent: string)
    | AccountPool(catalogId: string, account: string)
    | IsolatedPool(catalogId: string, identity: DigestInput)

  predicate Given(value: Option<string>) {
    value.Some? && value.value != ""
  }

  /** The pool policy, branch by branch.  A catalog entry that forbids proxying has no pool. */
  function PoolFor(catalogId: string, shareability: Shareability, frontendSessionId: string,
                   workspaceRoot: Option<string>, agentId: Option<string>, accountScope: Option<string>,
                   remoteUrl: Option<string>, transportType: BackendType): Option<Pool>
  {
    if shareability == Global then Some(GlobalPool(catalogId))
    else if shareability == PerWorkspace && Given(workspaceRoot) then Some(WorkspacePool(catalogId, workspaceRoot.value))
    else if shareability == PerAgent && Given(agentId) then Some(AgentPool(catalogId, agentId.value))
    else if shareability == PerAccount && Given(accountScope) then Some(AccountPool(catalogId, accountScope.value))
    else if shareability == NoProxy then None
    else Some(IsolatedPool(catalogId, Identity(shareability, frontendSessionId, transportType, remoteUrl)))
  }

  function Kind(pool: Pool): string {
    match pool
    case GlobalPool(_) => "global:"
    case WorkspacePool(_, _) => "workspace:"
    case AgentPool(_, _) => "agent:"
    case AccountPool(_, _) => "account:"
    case IsolatedPool(_, _) => "isolated:"
  }

  function Digested(pool: Pool): DigestInput
    requires !pool.GlobalPool?
  {
    match pool
    case WorkspacePool(_, workspace) => Text(workspace)
    case AgentPool(_, agent) => Text(agent)
    case AccountPool(_, account) => Text(account)
    case IsolatedPool(_, identity) => identity
  }

  /** The key of a pool. */
  function RuntimePoolKey(digest: Digest, pool: Pool): string {
    if pool.GlobalPool? then Kind(pool) + ("catalog:" + pool.catalogId)
    else Kind(pool) + ("catalog:" + pool.catalogId + ":" + digest(Digested(pool)))
  }

  /** The kind of a key is told by its first two characters. */
  lemma KindIsReadable(a: Pool, b: Pool, s: string, t: string)
    requires Kind(a) + s == Kind(b) + t
    ensures Kind(a) == Kind(b) && s == t
  {
    assert (Kind(a) + s)[0] == Kind(a)[0] && (Kind(b) + t)[0] == Kind(b)[0];
    assert (Kind(a) + s)[1] == Kind(a)[1] && (Kind(b) + t)[1] == Kind(b)[1];
    assert (Kind(a) + s)[|Kind(a)|..] == s && (Kind(b) + t)[|Kind(b)|..] == t;
  }

  /** The digest is the last 24 characters of a key, whatever characters the catalog id has. */
  lemma DigestIsReadable(a: string, x: Hex24, b: string, y: Hex24)
    requires "catalog:" + a + ":" + x == "catalog:" + b + ":" + y
    ensures a == b && x == y
  {
    var s, t := "catalog:" + a + ":" + x, "catalog:" + b + ":" + y;
    assert |s| == |a| + 33 && |t| == |b| + 33;
    assert s[8..8 + |a|] == a && t[8..8 + |b|] == b;
    assert s[|s| - 24..] == x && t[|t| - 24..] == y;
  }

  /** Equal keys stand for the same pool, unless the digested parts of these two pools collide; the
      catalog id and the kind of pool are the same in any case. */
  lemma PoolKeyIsInjective(digest: Digest, a: Pool, b: Pool)
    requires RuntimePoolKey(digest, a) == RuntimePoolKey(digest, b)
    ensures a.catalogId == b.catalogId && Kind(a) == Kind(b)
    ensures a == b || (!a.GlobalPool? && !b.GlobalPool?
                       && Digested(a) != Digested(b) && digest(Digested(a)) == digest(Digested(b)))
  {
    var s := if a.GlobalPool? then "catalog:" + a.catalogId else "catalog:" + a.catalogId + ":" + digest(Digested(a));
    var t := if b.GlobalPool? then "catalog:" + b.catalogId else "catalog:" + b.catalogId + ":" + digest(Digested(b));
    KindIsReadable(a, b, s, t);
    SameKind(a, b);
    if a.GlobalPool? {
      assert s[8..] == a.catalogId && t[8..] == b.catalogId;
    } else {
      DigestIsReadable(a.catalogId, digest(Digested(a)), b.catalogId, digest(Digested(b)));
    }
  }

  lemma SameKind(a: Pool, b: Pool)
    requires Kind(a) == Kind(b)
    ensures a.GlobalPool? == b.GlobalPool? && a.WorkspacePool? == b.WorkspacePool? && a.AgentPool? == b.AgentPool?
    ensures a.AccountPool? == b.AccountPool? && a.IsolatedPool? == b.IsolatedPool?
  {
    assert Kind(a)[0] == Kind(b)[0] && Kind(a)[1] == Kind(b)[1];
  }
}
