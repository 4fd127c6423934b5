# MCP Multiplex: verified models

MCP Multiplex puts a local Hub between coding agents and the MCP servers they use. It reads the agents' config files, plans and applies rewrites that route servers through the Hub, proxies their sessions to pooled backends, and keeps an audit log. This project models the parts of it that carry state or transform data, and proves what they promise on all inputs and over all runs. `dafny verify dfyconfig.toml` checks everything.

| file | what it models |
|---|---|
| `RuntimeProxy.dfy`, `RuntimeGuarantees.dfy`, `RuntimeDaemon.dfy`, `PoolKeys.dfy` | the runtime proxy: frontend sessions, reference-counted backends, the two tables and two handle registries, pool keys; a state machine, what holds in every reachable state, and the daemon class that refines it handler by handler |
| `StdioTransport.dfy` | requests of several sessions over one stdio process |
| `Remediation.dfy`, `ApplyWriter.dfy` | plans, approvals, automatic authorization, apply with backup and rollback; a state machine, and the store that performs its steps with every crash point recorded |
| `AgentConfig.dfy`, `JsonApply.dfy` | the JSON configs of Claude Code, Gemini, Cline and OpenCode: parsing, rewriting one entry, and both inside the apply |
| `CatalogMatching.dfy`, `Planner.dfy` | scoring and choosing a catalog match, classifying entries, planning, and what the planner makes of its own result |
| `AuditChain.dfy`, `Redaction.dfy` | the hash chain of the event table, redaction of payloads, and the release gate's scan for secrets |
| `PollingWatcher.dfy` | the config watcher: debounce per path, periodic audits over all paths |
| `JsoncComments.dfy` | the JSONC comment stripper |

## How to read the models

- Code that changes state step by step is a class or a method with the loops of the original, proved equal to a function on values; the theorems are about that function and its runs. What the environment decides (replies, faults, what a file reads as, how far a write gets) is a parameter, so a theorem holds for all of it; what is taken for granted is under "Left out".
- Digests are arbitrary functions. No theorem assumes that a digest is injective, which a digest of fixed length cannot be: where two digests have to differ, the conclusion names the two concrete inputs that would otherwise collide.
- `JsonApply` takes the JSON library at its word for the document at hand: dumping a tree and loading it gives it back, and neither a dumped text nor one that is strict JSON has a `/` outside its strings.
- Times are `real`; the source's floats are only compared and subtracted.

## What the proofs found out

- **The idle reaper has next to nothing to do.** A hot backend always has an attached session, because `DELETE` stops a backend with its last session (`ReaperIsIdle`); only a delete whose closing of the handle raises leaves it one (`UnclosedDeleteFeedsReaper`). `docs/ARCHITECTURE.md:248` lists reaping idle backends among the runtime's duties.
- **Stopped pools stay dead.** A backend id is a function of its pool, so the row of a stopped backend, or of one that never answered an `initialize`, makes every later insert fail: while handlers run one at a time, no session of that pool is served again (`DeadPoolIsNeverServed`). The stale restart of the next item can make such a row hot again.
- **A restart can leak a backend.** It writes back a session count that it read before, and at least one; if a session, even the only one, is deleted in between, the backend can end hot with a count of one and nobody attached (`DeletingOnlySessionDuringRestartLeaksBackend`, `DeletionDuringRestartLeaksBackend`), and from then on no run stops or reaps it (`LeakedIsNeverReaped`). Both are within reach of a run (`LeakIsReachable`, `SharedLeakIsReachable`).
- **A reply that cannot be read is caught by nobody.** Bytes that are not UTF-8, or a truncated HTTP response, raise an error outside what the handlers expect. After a first `initialize` this leaves a running backend registered and `starting` for good, with nobody attached (`UnreadableFirstReplyLeaksBackend`); on a shared process a read that raises can put all later replies out of step (`InOrderBackendServesIffInStep`).
- **An interrupted automatic authorization leaves no trace.** The plan's row is committed before the approval and the event, so after a crash in between an apply takes the plan, and it stays without authority until the event is there (`InterruptedAuthorizationLeavesNoTrace`).
- **The release gate flags sharing that the policy permits**: two sessions of one workspace on a per-workspace server (`GateFlagsPermittedSharing`; `GateOnReachableStates` has the exact condition). It also flags redacted payloads, since `[REDACTED]` is not among its safe values (`GateFlagsARedactedKey`).
- **Rewriting can enable a disabled OpenCode server.** Under the `mcp` key the rewrite keeps `enabled` and drops `disabled` (`RewriteEnablesIff` has the exact condition, `DisabledServerIsTurnedOn` an example). In every other case the switch is kept.
- **An OpenCode config with comments is never rewritten.** Its parser strips comments, its rewriter does not, so the apply fails and restores the file (`UnfaultedApplySucceedsIff`, with an example in `CommentedConfigIsRestored`).
- **Rewrites can be planned twice** when two Hub paths of the catalog are spelled differently and normalize to one URL (`SharedNormalFormPlansAgain`); a second rewrite always settles it (`SecondRewriteSettles`).
- **A request without an id gets whatever line comes next**, another session's reply included (`CrossDeliveryIffNoId`), and one stray line of a backend fails every later request on that process (`StrayLineFailsTheRest`).
- **A reverted file change is reported twice** (`RevertedChangeReportsTwice`), and that is the most a steady file can be reported.
- **An unclosed block comment leaks its last character** into the stripped text (`UnclosedBlockLeaksItsLastCharacter`).
- **The chain alone accepts a history resealed from its start** (`ResealedValidates`); only the head hash tells it from another (`ResealedHistoryIsToldByItsHead`). Deleting the last row is not found (`DeletionIsFoundAtItsSuccessor`).

## Model

| member | source | states |
|---|---|---|
| `RuntimeProxy.InitializeKeepsInv` | `src/mcp_multiplex/daemon/__init__.py:297-334` | Every branch of `initialize`, refused inserts, failed starts and replies whose reading raises included, keeps session accounts, registries and isolation. |
| `RuntimeProxy.ReuseKeepsInv` | `src/mcp_multiplex/daemon/__init__.py:996-1030` | One more session on a hot backend keeps the invariant when the session's own key is the backend's pool key. |
| `RuntimeProxy.StartFirstKeepsInv` | `src/mcp_multiplex/daemon/__init__.py:545-660` | A first start, answered, failed or left starting by an error that no handler catches, keeps the invariant if the pool has no row yet. |
| `RuntimeProxy.RestartKeepsInv` | `src/mcp_multiplex/daemon/__init__.py:902-994` | A restart, whatever comes of its exchange, keeps the invariant when the count it writes back is the row's current one. |
| `RuntimeProxy.ForwardKeepsInv` | `src/mcp_multiplex/daemon/__init__.py:841-860` | A forwarded request keeps the invariant: answered, failed, or raising an error that no handler catches. |
| `RuntimeProxy.RequestKeepsInv` | `src/mcp_multiplex/daemon/__init__.py:107-254` | So does every request: call, notification or cancellation, on a hot, crashed, starting or missing backend. |
| `RuntimeProxy.DeleteKeepsInv` | `src/mcp_multiplex/daemon/__init__.py:256-292` | Deleting a session keeps it: the count goes down with the attached sessions, and the last one stops the backend and closes its handle. |
| `RuntimeProxy.DeleteStopsIffLast` | `src/mcp_multiplex/daemon/__init__.py:268-292` | A delete stops a backend exactly if no other session is attached to it. |
| `RuntimeProxy.ReapFindsNothing` | `src/mcp_multiplex/daemon/__init__.py:1169-1207` | Under the invariant the reaper takes no backend and changes nothing. |
| `RuntimeProxy.NextKeepsInv` | `src/mcp_multiplex/daemon/__init__.py:107-292` | Every step of the proxy keeps the invariant. |
| `RuntimeProxy.RunKeepsInv` | `src/mcp_multiplex/daemon/__init__.py:107-292` | And so does every run. |
| `RuntimeGuarantees.SessionAccounting` | `src/mcp_multiplex/runtime/__init__.py:223-397` | After every run a hot backend counts its attached sessions, at least one, and has a handle; a stopped one has neither. A crashed one, and one left starting, counts them too if it ever answered an `initialize`, and otherwise counts one and has none; the starting one keeps its handle. |
| `RuntimeGuarantees.ReaperIsIdle` | `src/mcp_multiplex/daemon/__init__.py:1169-1207` | The reaper closes nothing after any run. |
| `RuntimeGuarantees.SamePoolIff` | `src/mcp_multiplex/runtime/__init__.py:717-749` | Two sessions of a server have one pool exactly if it is global, or they name the same workspace or the same agent where its policy goes by that, or they are the same session. |
| `RuntimeGuarantees.SessionsOnOneBackend` | `src/mcp_multiplex/runtime/__init__.py:717-749` | Two sessions on one backend have one catalog entry that is global, or they share its workspace or agent as its policy says, or the digests of their two pools collide. |
| `RuntimeGuarantees.RunsIsolate` | `src/mcp_multiplex/daemon/__init__.py:996-1030` | That isolation, over every run. |
| `RuntimeGuarantees.BackendOfSession` | `src/mcp_multiplex/runtime/__init__.py:706-709` | The backend of an attached session is the one that its own initialize-time key names. |
| `RuntimeGuarantees.InitializeAttachesIff` | `src/mcp_multiplex/daemon/__init__.py:545-660` | With a backend that would start and answer, a session is attached exactly if its pool has no row or a hot one. |
| `RuntimeGuarantees.DeadIffStoppedOrNeverStarted` | `src/mcp_multiplex/runtime/__init__.py:367-397` | A backend without sessions is exactly a stopped one, or a crashed or starting one with an initialize count of zero. |
| `RuntimeGuarantees.NextKeepsDead` | `src/mcp_multiplex/runtime/__init__.py:223-266` | No step attaches a session to a backend that has none. |
| `RuntimeGuarantees.RunKeepsDead` | `src/mcp_multiplex/runtime/__init__.py:223-266` | Nor does any run. |
| `RuntimeGuarantees.DeadPoolIsNeverServed` | `src/mcp_multiplex/runtime/__init__.py:706-709` | In any run from there, no session whose key names a dead backend is attached to any backend. |
| `RuntimeGuarantees.RestartCountsIffSnapshotIsCurrent` | `src/mcp_multiplex/daemon/__init__.py:902-994` | For any row, backend type and outcome: after a restart that writes the row the count is right exactly if the count read in the earlier lock section, raised to one, is the number of attached sessions; any other restart leaves it as right or wrong as it was. |
| `RuntimeGuarantees.RestartLeaksIff` | `src/mcp_multiplex/daemon/__init__.py:902-994` | A restart of a backend nobody is attached to any more leaks it exactly if it writes the row and the exchange does not fail. |
| `RuntimeGuarantees.LeakedIsNeverReaped` | `src/mcp_multiplex/daemon/__init__.py:1169-1207` | After every run from a leaked state the backend counts one session more than it has, is not stopped, and is not among those the reaper takes. |
| `RuntimeGuarantees.DeletingOnlySessionDuringRestartLeaksBackend` | `src/mcp_multiplex/daemon/__init__.py:189-231` | The only session's delete between the lock sections of its own request stops the backend, and the restart brings it back hot and registered, counting one session and having none. |
| `RuntimeGuarantees.DeletionDuringRestartLeaksBackend` | `src/mcp_multiplex/daemon/__init__.py:189-231` | With two sessions, one deleted between the lock sections and the other later, the backend is leaked too; for stdio and HTTP backends alike. |
| `RuntimeGuarantees.LeakIsReachable` | `src/mcp_multiplex/daemon/__init__.py:107-292` | A run from empty tables reaches the first leak's premises: an initialize, an unanswered call, and a delete that meets the next call. |
| `RuntimeGuarantees.SharedLeakIsReachable` | `src/mcp_multiplex/daemon/__init__.py:107-292` | A run with two sessions of a global server reaches the second's. |
| `RuntimeGuarantees.CallRestartsCrashedBackend` | `src/mcp_multiplex/daemon/__init__.py:189-254` | A call on a crashed backend restarts it first; state, handle, result, initialize count and session count afterwards are given for every outcome of the restart and of the call, and no other row changes. |
| `RuntimeGuarantees.CallIsForwarded` | `src/mcp_multiplex/daemon/__init__.py:189-254` | A call on any other backend crashes it exactly if it has no handle or the exchange fails; an answer only notes its time. |
| `RuntimeGuarantees.CallRevivesAfterRun` | `src/mcp_multiplex/daemon/__init__.py:220-231` | After every run, an answered restart and call leave the crashed backend of a session hot, registered, with the new result and all its sessions counted. |
| `RuntimeGuarantees.OtherRequestsChangeLittle` | `src/mcp_multiplex/daemon/__init__.py:185-219` | A notification at most notes its time; a cancellation, and a request that is turned away, change nothing. |
| `RuntimeGuarantees.InitializeOpensIff` | `src/mcp_multiplex/daemon/__init__.py:297-334` | The exact condition under which `initialize` opens a session; otherwise nothing happens. |
| `RuntimeGuarantees.InitializeLeavesTheRest` | `src/mcp_multiplex/daemon/__init__.py:545-768` | The session is stored as it was asked for, and every row but its own pool's stays. |
| `RuntimeGuarantees.InitializeAttachesToRunningBackend` | `src/mcp_multiplex/daemon/__init__.py:545-768` | An attached session finds a row that was hot and counts one more, or a new hot one with the answer and a handle. |
| `RuntimeGuarantees.DeleteRemovesSession` | `src/mcp_multiplex/daemon/__init__.py:256-292` | A delete takes its session and no other; one that is turned away changes nothing. |
| `RuntimeGuarantees.ReapStopsExactlyTheIdle` | `src/mcp_multiplex/daemon/__init__.py:1169-1207` | On any tables, exactly the hot backends without sessions that were idle for their server's time are stopped and lose their handles. |
| `RuntimeGuarantees.ControlSessionIsUnattached` | `src/mcp_multiplex/daemon/__init__.py:415-458` | The control plane opens an unattached session exactly if its id is new and the agent known. |
| `RuntimeGuarantees.UnreadableFirstReplyLeaksBackend` | `src/mcp_multiplex/daemon/__init__.py:597-660` | A first reply whose reading raises leaves the backend starting and registered after every further run, with nobody ever attached. |
| `RuntimeGuarantees.NextLeavesDeserted` | `src/mcp_multiplex/daemon/__init__.py:107-292` | No step changes the row or the handle of a backend without sessions. |
| `RuntimeGuarantees.UnclosedDeleteFeedsReaper` | `src/mcp_multiplex/daemon/__init__.py:268-292` | After a delete whose closing of the handle raises, and not before, the reaper takes the backend once it is idle long enough, exactly if it was hot and the session its last. |
| `RuntimeGuarantees.RuntimeSharingViolations` | `src/mcp_multiplex/cli/__init__.py:1731-1785` | The gate's loop reports exactly the starting or hot rows that violate one of its three rules. |
| `RuntimeGuarantees.ViolatesIff` | `src/mcp_multiplex/cli/__init__.py:1731-1785` | The gate's three rules in the fields of row and catalog. |
| `RuntimeGuarantees.GlobalKeysAreGlobalPools` | `src/mcp_multiplex/runtime/__init__.py:717-749` | A key starts with `global:` exactly if it is that of a global pool. |
| `RuntimeGuarantees.GateOnReachableStates` | `src/mcp_multiplex/cli/__init__.py:1731-1785` | On reachable states the no-proxy and global-pool rules never fire; the sharing rule fires exactly for hot or starting backends of non-global entries with more than one attached session, and those are sessions that may share. |
| `RuntimeGuarantees.GateFlagsPermittedSharing` | `src/mcp_multiplex/cli/__init__.py:1731-1785` | It does fire for two sessions of one workspace on a per-workspace server. |
| `PoolKeys.KindIsReadable` | `src/mcp_multiplex/runtime/__init__.py:717-749` | The kind of pool can be read off a key. |
| `PoolKeys.DigestIsReadable` | `src/mcp_multiplex/runtime/__init__.py:712-749` | Catalog id and digest can be read off a key whatever characters the id has. |
| `PoolKeys.PoolKeyIsInjective` | `src/mcp_multiplex/runtime/__init__.py:717-749` | Equal keys mean equal catalog id, equal kind and equal pool, unless the digests of these two pools collide. |
| `RuntimeDaemon.Daemon.constructor` | `src/mcp_multiplex/daemon/__init__.py:1074-1086` | A daemon starts with empty tables and registries, which meet the invariant. |
| `RuntimeDaemon.Daemon.ReuseBackend` | `src/mcp_multiplex/daemon/__init__.py:996-1030` | Looking up a hot backend by its key finds the session's own pool or nothing, and then attaches and counts the session. |
| `RuntimeDaemon.Daemon.StartBackend` | `src/mcp_multiplex/daemon/__init__.py:580-660` | Inserts, registers and settles a first start step by step; a taken id is refused and changes nothing. |
| `RuntimeDaemon.Daemon.HandleInitialize` | `src/mcp_multiplex/daemon/__init__.py:297-334` | The handler does the state machine's `initialize` and keeps the invariant. |
| `RuntimeDaemon.Daemon.RestartBackend` | `src/mcp_multiplex/daemon/__init__.py:902-994` | The restart does the state machine's restart for any row read earlier and whatever became of the row since. |
| `RuntimeDaemon.Daemon.HandleRequest` | `src/mcp_multiplex/daemon/__init__.py:107-254` | The handler of a session's request refines the state machine and keeps the invariant. |
| `RuntimeDaemon.Daemon.HandleDelete` | `src/mcp_multiplex/daemon/__init__.py:256-292` | So does the handler of a delete. |
| `RuntimeDaemon.Daemon.ReapIdleBackends` | `src/mcp_multiplex/daemon/__init__.py:1169-1207` | On any tables the reaper's loop stops and closes exactly the idle backends, each once. |
| `StdioTransport.WireCarriesCalls` | `src/mcp_multiplex/runtime/__init__.py:752-762` | The k-th request on the wire is the k-th written call, field by field, under its fresh id; a call without an id goes as it is. |
| `StdioTransport.ReplyReachesClientIff` | `src/mcp_multiplex/runtime/__init__.py:493-512` | Exactly which lines reach the client, field by field, under its own id; every other line is an error that tells what was wrong. |
| `StdioTransport.NoCrossDelivery` | `src/mcp_multiplex/runtime/__init__.py:752-775` | Whatever the process prints, a reply with an id that a request with an id gets was emitted under that request's own backend id, and carries the client's id. |
| `StdioTransport.CrossDeliveryIffNoId` | `src/mcp_multiplex/runtime/__init__.py:752-775` | A request that reads another one's answer is handed it exactly if it has no id itself; otherwise it fails with an id mismatch. |
| `StdioTransport.EachLineIsReadOnce` | `src/mcp_multiplex/runtime/__init__.py:493-512` | Of two requests that read a line the later one reads a later line, so no line reaches two clients. |
| `StdioTransport.WriterOf` | `src/mcp_multiplex/runtime/__init__.py:493-512` | Every request on the wire has its attempt, at its place. |
| `StdioTransport.InStepUnlessReadsRaised` | `src/mcp_multiplex/runtime/__init__.py:493-512` | Reading keeps step with writing unless a read raised and lost no line, or more than one. |
| `StdioTransport.InOrderBackendServesIffInStep` | `src/mcp_multiplex/runtime/__init__.py:493-512` | If the k-th line printed answers the k-th request on the wire and nothing else is printed, a request gets its own reply exactly if reading is in step with writing; otherwise an id mismatch, or no response. |
| `StdioTransport.InOrderBackendServesAll` | `src/mcp_multiplex/daemon/__init__.py:841-860` | With such a backend and no read that raised before, every request that reads a line gets its own reply under its own id. |
| `StdioTransport.StrayLineFailsTheRest` | `src/mcp_multiplex/runtime/__init__.py:493-512` | With one extra line, earlier requests are served, one reads the line, and all later ones fail with an id mismatch. |
| `StdioTransport.StdioBackendProcess.Forward` | `src/mcp_multiplex/runtime/__init__.py:493-512` | Writes the client's payload, field by field, under the fresh id and gives the outcome of the next line; fails without writing when the process is gone or its pipe breaks, and after writing when the read raises, losing what was buffered. The requests among the lines written stay those of the attempts, in order. |
| `StdioTransport.StdioBackendProcess.Notify` | `src/mcp_multiplex/runtime/__init__.py:514-523` | Writes a notification as it is and reads nothing. |
| `Remediation.InsertKeepsOk` | `src/mcp_multiplex/cli/__init__.py:2385-2427` | Inserting a plan, new or already stored, keeps every plan consistent with its approval and its events. |
| `Remediation.CreatePendingKeepsOk` | `src/mcp_multiplex/approvals/__init__.py:48-80` | So does asking for an approval. |
| `Remediation.DecideKeepsOk` | `src/mcp_multiplex/approvals/__init__.py:221-297` | So does a decision, on any channel and in any state. |
| `Remediation.AuthorizeKeepsOk` | `src/mcp_multiplex/apply/__init__.py:528-568` | So does automatic authorization of an eligible plan. |
| `Remediation.RollbackEffects` | `src/mcp_multiplex/apply/__init__.py:440-474` | A rollback changes no plan, no approval and no outcome. |
| `Remediation.ApplyEffects` | `src/mcp_multiplex/apply/__init__.py:346-437` | An apply that succeeds or restores records one outcome, for its own plan, with the status to match; any other changes no plan and records none. |
| `Remediation.NextKeepsOk` | `src/mcp_multiplex/apply/__init__.py:517-568` | Every step of the lifecycle keeps every plan consistent. |
| `Remediation.RunKeepsOk` | `src/mcp_multiplex/apply/__init__.py:243-437` | After every run from empty tables every plan is consistent: its status, its approval, its policy flag, and the outcomes and authorizations recorded of it. |
| `Remediation.OutcomesAndAuthority` | `src/mcp_multiplex/apply/__init__.py:517-568` | Over every run a plan has one outcome if it is applied or failed and none otherwise, at most one automatic authorization, and behind an approved, applied or failed plan stands an operator's approval or that authorization. |
| `Remediation.TerminalIsFinal` | `src/mcp_multiplex/approvals/__init__.py:221-297` | No step changes the row of an applied, failed or rejected plan. |
| `Remediation.TerminalStays` | `src/mcp_multiplex/apply/__init__.py:517-525` | Over every run, such a row stays as it is to the end. |
| `Remediation.DecisionIsCarriedOut` | `src/mcp_multiplex/approvals/__init__.py:221-297` | A pending approval decided on an operator's channel makes the plan approved and appliable exactly if the operator approved, else rejected; nothing else changes, and any other decision changes nothing. |
| `Remediation.PlansFollowTheirDecision` | `src/mcp_multiplex/approvals/__init__.py:221-297` | Over every run at most one decision is recorded per plan; an approved, applied or failed plan that needs an approval has a recorded approval, and a rejected one a recorded rejection and is never appliable. |
| `Remediation.PlansAreStoredOnce` | `src/mcp_multiplex/cli/__init__.py:2385-2427` | A plan is stored once, pending and gated; later inserts change nothing. |
| `Remediation.ApprovalIsAskedForOnce` | `src/mcp_multiplex/approvals/__init__.py:48-80` | A pending approval is created exactly for a stored plan that needs one and has none. |
| `Remediation.ApplyProceedsIff` | `src/mcp_multiplex/apply/__init__.py:346-437` | The exact guards of an apply in the fields of plan, approval and file; past none of them it changes nothing. |
| `Remediation.RollbackWritesOnlyIntactBackups` | `src/mcp_multiplex/apply/__init__.py:440-474` | A rollback writes exactly a recorded backup whose bytes still have the recorded hash, and records it exactly if the write is done. |
| `Remediation.AutoApplyAuthorizesIff` | `src/mcp_multiplex/apply/__init__.py:243-343` | An automatic apply authorizes its plan exactly under all the policy's guards, one by one, and otherwise changes nothing but the log. |
| `Remediation.ApplyLeavesNoDamage` | `src/mcp_multiplex/apply/__init__.py:346-437` | With a working rollback write an apply ends applied and verified, or failed with the exact bytes restored, even if the write failed after its replace; without one the target is as before or wholly rewritten and a recorded backup holds the former bytes. It succeeds exactly if backup, rewrite, write, validator and verification do. |
| `Remediation.RollbackUndoesApply` | `src/mcp_multiplex/apply/__init__.py:440-474` | Rolling back a successful apply gives the target its former bytes and changes nothing else but the backup's row and the log. |
| `Remediation.ApplyTouchesOnly` | `src/mcp_multiplex/apply/__init__.py:346-437` | An apply changes no file but its target and its backup. |
| `Remediation.WritesNeedAuthority` | `src/mcp_multiplex/apply/__init__.py:517-568` | Edits and rollbacks aside, a step that changes a file is an apply of an authorized rewrite plan that names the file and whose pre-image was current. |
| `ApplyWriter.ControlPlane.AtomicWriteBytes` | `src/mcp_multiplex/apply/__init__.py:842-864` | Done, failed before or failed after the replace; at every point the target holds the old or the whole new content and no other file but the temporary one differs. |
| `ApplyWriter.ControlPlane.CreateBackup` | `src/mcp_multiplex/apply/__init__.py:151-193` | The backup's file is written first and its row second; a taken id or a failed write leaves no row. |
| `ApplyWriter.ControlPlane.RollbackBackup` | `src/mcp_multiplex/apply/__init__.py:440-474` | Does the lifecycle's rollback; at every point the target holds its old content or the backup's. |
| `ApplyWriter.ControlPlane.RecoverPlan` | `src/mcp_multiplex/apply/__init__.py:377-403` | The handler of a failed apply restores or raises as the lifecycle says, and is crash safe throughout. |
| `ApplyWriter.ControlPlane.ApplyPlan` | `src/mcp_multiplex/apply/__init__.py:346-437` | Does the lifecycle's apply, and in every state it passes through the target is the exact pre-image, or the whole rewritten text with a recorded backup of the pre-image; status and event never run ahead of the file, and at most one outcome is recorded. |
| `ApplyWriter.ControlPlane.AutoApplyPlan` | `src/mcp_multiplex/apply/__init__.py:312-343` | Does the lifecycle's automatic apply; every state it passes through records a refusal, is in the middle of the authorization with files and backups untouched, or is crash safe for the authorized plan. |
| `ApplyWriter.ControlPlane.DecideApproval` | `src/mcp_multiplex/approvals/__init__.py:221-297` | Decides exactly the pending approvals of plans that require one, on an operator's channel. |
| `ApplyWriter.CrashIsRecoverable` | `src/mcp_multiplex/apply/__init__.py:440-474` | From every such state the former bytes can be had: the target still holds them, or rolling back the recorded backup restores them. |
| `ApplyWriter.AutoCrashIsRecoverable` | `src/mcp_multiplex/apply/__init__.py:312-343` | The same from every state of an automatic apply. |
| `ApplyWriter.InterruptedAuthorizationLeavesNoTrace` | `src/mcp_multiplex/apply/__init__.py:528-568` | In every state of an interrupted automatic authorization an apply takes the plan; it has authority, and has it after that apply, exactly if the event was recorded. A pending approval makes no difference. |
| `AgentConfig.ParseConfig` | `src/mcp_multiplex/adapters/claude_code.py:49-96` | The parsing loop gives every server's entry or, if one is refused, none. |
| `AgentConfig.ParseTells` | `src/mcp_multiplex/adapters/opencode.py:49-97` | A config parses exactly if root, container and every server are well formed, and then has exactly those servers. |
| `AgentConfig.ObservedCommandTells` | `src/mcp_multiplex/adapters/opencode.py:229-244` | The command and the arguments of an entry are those in the file, or, for OpenCode, the first and the rest of its command list. |
| `AgentConfig.ObservedUrlTells` | `src/mcp_multiplex/adapters/cline.py:101-130` | Which field an entry's URL comes from, agent by agent, and that it is remote exactly with a URL. |
| `AgentConfig.ObservedSettingsTell` | `src/mcp_multiplex/adapters/claude_code.py:99-156` | Switch, directory, policy, environment names and tool filters of an entry are those in the file. |
| `AgentConfig.ObservedHeadersTell` | `src/mcp_multiplex/adapters/_headers.py:8-47` | Exactly which header names an entry has. |
| `AgentConfig.TruthyTells` | `src/mcp_multiplex/adapters/claude_code.py:133` | Null, false, zero and what is empty are false, and nothing else is. |
| `AgentConfig.CompleteIff` | `src/mcp_multiplex/adapters/cline.py:18-33` | An entry is completely understood exactly if it has no key beyond its agent's. |
| `AgentConfig.MalformedEntriesAreRefused` | `src/mcp_multiplex/schemas/models.py:250-284` | No entry with a mistyped field, without a command or URL, or that the schema refuses is observed. |
| `AgentConfig.RewriteRefusesIff` | `src/mcp_multiplex/apply/__init__.py:678-713` | Exactly when a rewrite is refused. |
| `AgentConfig.RewrittenEntryTells` | `src/mcp_multiplex/apply/__init__.py:678-785` | The rewritten entry in the file, field by field and agent by agent: its type, its URL under the agent's key, the settings kept as they were, and no other key. |
| `AgentConfig.ReplacementReadsBack` | `src/mcp_multiplex/apply/__init__.py:716-785` | For all four agents a rewritten entry reads back as a remote entry at the planned URL with no command, arguments, environment, directory or headers, and with its tool filters, approval policy and switch, or, under OpenCode's `mcp` key, with only its `enabled`; it is refused exactly if the schema refuses the URL. |
| `AgentConfig.RewriteTouchesOneEntry` | `src/mcp_multiplex/apply/__init__.py:678-713` | A rewrite changes one server and nothing else in the document. |
| `AgentConfig.RewriteThenParse` | `src/mcp_multiplex/apply/__init__.py:678-785` | After a rewrite every other mount's observed entry is the same, `entry_hash` included. |
| `AgentConfig.PostStateHoldsInTheFile` | `src/mcp_multiplex/apply/__init__.py:594-607` | What passes the post-write check has no command, no arguments and no other URL in the file. |
| `AgentConfig.PostStatePassesIffUrlIsSafe` | `src/mcp_multiplex/apply/__init__.py:584-607` | For every entry that the pre-image check can find, the post-write check passes after the rewrite exactly if the schema accepts the URL. |
| `AgentConfig.RewriteEnablesIff` | `src/mcp_multiplex/apply/__init__.py:754-785` | A rewrite keeps `enabled`, except that it turns on exactly the `mcp` servers that only their `disabled` field turned off. |
| `AgentConfig.DisabledServerIsTurnedOn` | `src/mcp_multiplex/apply/__init__.py:774-781` | An example of that. |
| `AgentConfig.ReplacementStaysComplete` | `src/mcp_multiplex/adapters/gemini.py:17-32` | A replacement has no key its parser does not know, if the entry had none. |
| `AgentConfig.RewriteIsIdempotent` | `src/mcp_multiplex/apply/__init__.py:678-785` | Rewriting to the same URL again changes nothing. |
| `JsonApply.AgentIsToldByPrefix` | `src/mcp_multiplex/apply/__init__.py:610-650` | An agent's id names it by its prefix, whatever follows. |
| `JsonApply.ObservedHashNeedsEntry` | `src/mcp_multiplex/apply/__init__.py:584-591` | The pre-image check finds a hash to compare exactly if the config parses and has the plan's mount. |
| `JsonApply.RewriteVerifiesIff` | `src/mcp_multiplex/apply/__init__.py:641-713` | On bytes, comment stripper included: an observed config is rewritten exactly if it is strict JSON, and then verifies exactly if the URL is accepted. |
| `JsonApply.UnfaultedApplySucceedsIff` | `src/mcp_multiplex/apply/__init__.py:346-437` | An allowed apply without faults succeeds exactly under those two conditions, and restores the bytes otherwise. |
| `JsonApply.CommentedConfigIsRestored` | `src/mcp_multiplex/apply/__init__.py:754-785` | An example: a commented OpenCode config parses, its approved plan may be applied without a fault, and the apply ends failed and restored. |
| `CatalogMatching.ScoreTells` | `src/mcp_multiplex/catalog/matching.py:120-159` | In the fields of entry and catalog entry: a score exists exactly if something agrees, lists exactly what agrees, is as confident as the strongest of it, and may be applied automatically exactly if it is high for a routable, enabled, completely understood entry. |
| `CatalogMatching.CommandLineIsHighIff` | `src/mcp_multiplex/catalog/matching.py:85-105` | A command line has a high score exactly for a stdio backend whose command and arguments have the same fingerprint. |
| `CatalogMatching.RemoteIsHighIff` | `src/mcp_multiplex/catalog/matching.py:162-168` | A remote entry has one exactly if its URL and the Hub URL have one normal form. |
| `CatalogMatching.PrecedesIsByFirstDifference` | `src/mcp_multiplex/catalog/matching.py:66-74` | Ids are ordered by the first place where they differ, a prefix first. |
| `CatalogMatching.PrecedesIsTotal` | `src/mcp_multiplex/catalog/matching.py:66-74` | Catalog ids are ordered totally and strictly. |
| `CatalogMatching.OutranksIsTransitive` | `src/mcp_multiplex/catalog/matching.py:66-74` | The sort key's order is transitive. |
| `CatalogMatching.MatchIsUnbeaten` | `src/mcp_multiplex/catalog/matching.py:53-74` | There is no match exactly if nothing scores; the match is a catalog entry's score and none outranks it. |
| `CatalogMatching.MatchIsBestInFields` | `src/mcp_multiplex/catalog/matching.py:53-74` | No catalog entry scores with more confidence, or alike but automatically applicable, or alike in both with a later id. |
| `CatalogMatching.MatchIgnoresOrder` | `src/mcp_multiplex/catalog/matching.py:53-74` | With distinct ids every ordering of the catalog gives the same match. |
| `Planner.PlannedRewriteIsJustified` | `src/mcp_multiplex/planning/__init__.py:210-264` | A rewrite is only planned for a completely understood entry, for the same Hub URL or the same backend fingerprint as a routable catalog entry at whose Hub URL it is not, and to that URL. |
| `Planner.RewriteIsPlannedIff` | `src/mcp_multiplex/planning/__init__.py:267-351` | Exactly when a rewrite is planned. |
| `Planner.AlreadyCompliantIff` | `src/mcp_multiplex/planning/__init__.py:267-351` | Exactly when nothing is left to do. |
| `Planner.PlannedRewriteIsOfTheSameCommandLine` | `src/mcp_multiplex/planning/__init__.py:210-264` | A planned rewrite of a command line goes to a catalog entry with the same command and the same arguments, or these two command lines collide. |
| `Planner.OtherPlans` | `src/mcp_multiplex/planning/__init__.py:267-398` | Exactly when an entry is imported, reviewed, blocked or left without a candidate. |
| `Planner.ClassTells` | `src/mcp_multiplex/observability/config_audit.py:218-312` | The four classes in the entry's own fields. |
| `Planner.RoutedIsKnown` | `src/mcp_multiplex/catalog/matching.py:120-168` | An entry at a catalog entry's Hub URL has a high match whose Hub URL has the same normal form. |
| `Planner.RewritesAgainIff` | `src/mcp_multiplex/planning/__init__.py:267-351` | After a rewrite another one is planned exactly if the best match is routable, is spelled differently and has the same normal form, and the entry is not compliant. |
| `Planner.SharedNormalFormPlansAgain` | `src/mcp_multiplex/planning/__init__.py:267-351` | It is for any two routable entries whose Hub paths differ and share a normal form, once an enabled entry was routed to the one whose id sorts first. |
| `Planner.SecondRewriteSettles` | `src/mcp_multiplex/planning/__init__.py:267-351` | The second rewrite is always a fixpoint, for any normal form. |
| `Planner.DirectServerIsRouted` | `src/mcp_multiplex/planning/__init__.py:210-264` | An example: a Claude config that starts a cataloged server directly is planned to be routed. |
| `Planner.RewriteSettles` | `src/mcp_multiplex/observability/config_audit.py:218-312` | Routing a completely understood entry to any routable catalog entry and reading the config again: other entries stay, no further rewrite is planned if the catalog's Hub paths stay apart when normalized, an enabled entry is already compliant, and the class is compliant exactly if the entry is enabled and its Hub path is `/servers/<mount>/mcp`. |
| `Planner.PlannedRewriteSettles` | `src/mcp_multiplex/planning/__init__.py:267-351` | In particular the planner is at a fixpoint after carrying out any rewrite that it planned itself. |
| `AuditChain.EventStore.Append` | `src/mcp_multiplex/observability/audit.py:114-226` | Stores the redacted event sealed onto the head, or nothing if the id or hash is taken or the event is not accepted otherwise; every table built by it validates. |
| `AuditChain.EventStore.ValidateHashChain` | `src/mcp_multiplex/observability/audit.py:259-304` | The loop gives the findings of the whole table, in order. |
| `AuditChain.ValidIffLinked` | `src/mcp_multiplex/observability/audit.py:259-304` | There are no findings exactly if every row has its own hash and its predecessor's. |
| `AuditChain.HeadCommitsToHistory` | `src/mcp_multiplex/observability/audit.py:65-104` | Two valid tables with the same head hash have the same length and agree on every hashed column, or two of their rows collide. |
| `AuditChain.EditIsFoundAtItsRow` | `src/mcp_multiplex/observability/audit.py:259-304` | An edited hashed column gives exactly one finding, at its row. |
| `AuditChain.EditedBackLinkIsFoundTwice` | `src/mcp_multiplex/observability/audit.py:259-304` | An edited back link gives exactly two, at its row. |
| `AuditChain.RehashedEditIsFoundAtItsSuccessor` | `src/mcp_multiplex/observability/audit.py:259-304` | A rehashed edit gives exactly one, at the next row, and none at the last row. |
| `AuditChain.DeletionIsFoundAtItsSuccessor` | `src/mcp_multiplex/observability/audit.py:259-304` | A deleted row gives exactly one, at the next row, and none if it was the last. |
| `AuditChain.ResealedValidates` | `src/mcp_multiplex/observability/audit.py:259-304` | A table resealed from its start validates, whatever it says. |
| `AuditChain.ResealedHistoryIsToldByItsHead` | `src/mcp_multiplex/observability/audit.py:65-104` | Its head hash tells it from every other history, collisions of their rows aside. |
| `Redaction.KeysIgnoreCase` | `src/mcp_multiplex/observability/audit.py:17-57` | Neither the log nor the gate cares about the case of a key. |
| `Redaction.SecretWords` | `src/mcp_multiplex/observability/audit.py:17-20` | A key is secret if it holds one of the listed words anywhere. |
| `Redaction.OpenPathsAreKept` | `src/mcp_multiplex/observability/audit.py:44-57` | Along a path without secret keys redaction keeps the shape and every scalar. |
| `Redaction.SecretIsMarked` | `src/mcp_multiplex/observability/audit.py:44-57` | At the first secret key of a path stands `[REDACTED]`, with nothing below it. |
| `Redaction.RedactionForgetsSecretsOnly` | `src/mcp_multiplex/observability/audit.py:44-57` | Two payloads are stored alike exactly if they differ only under secret-like keys. |
| `Redaction.RedactionIsIdempotent` | `src/mcp_multiplex/observability/audit.py:44-57` | Redacting twice is redacting once. |
| `Redaction.GateKeysAreRedacted` | `src/mcp_multiplex/cli/__init__.py:1477-1479` | Every key the gate calls secret is one the audit log redacts. |
| `Redaction.SecretKeyFindings` | `src/mcp_multiplex/cli/__init__.py:1689-1719` | The recursive scan reports exactly the flagged keys, by their paths. |
| `Redaction.FlaggedIff` | `src/mcp_multiplex/cli/__init__.py:1722-1728` | Exactly which texts a secret-like key may hold. |
| `Redaction.GateOnRedactedPayload` | `src/mcp_multiplex/cli/__init__.py:1689-1728` | On a redacted payload it reports exactly the secret-like keys outside its list of reference keys. |
| `Redaction.GateFlagsARedactedKey` | `src/mcp_multiplex/cli/__init__.py:1722-1728` | A redacted token is reported. |
| `PollingWatcher.PendingDiffersFromLast` | `src/mcp_multiplex/observability/watchers.py:133-153` | A pending signature never equals the last one. |
| `PollingWatcher.SteadyFilePaysItsReports` | `src/mcp_multiplex/observability/watchers.py:133-153` | Once a file is steady, each report pays one that was owed: at most two more over any history. |
| `PollingWatcher.RevertedChangeReportsTwice` | `src/mcp_multiplex/observability/watchers.py:138-144` | Two are reached by a change that is reverted. |
| `PollingWatcher.SteadyChangeIsReported` | `src/mcp_multiplex/observability/watchers.py:145-153` | A changed signature read at every poll across the debounce is reported by then, and the path is quiet. |
| `PollingWatcher.SteadyFileConverges` | `src/mcp_multiplex/observability/watchers.py:133-153` | After two spans of the debounce a steady file is quiet at its signature, stays so, and was reported exactly as often as was owed when it became steady. |
| `PollingWatcher.ReportedIffHeldAcrossDebounce` | `src/mcp_multiplex/observability/watchers.py:133-153` | A path is reported exactly if a change was opened at least the debounce earlier, only it and the signature it replaced were read since, and this is the first reading that late. |
| `PollingWatcher.PeriodicAuditsKeepTheirPeriod` | `src/mcp_multiplex/observability/watchers.py:118-131` | After a completed periodic audit the next is started by exactly the polls at least one period later. |
| `PollingWatcher.DueTimeStands` | `src/mcp_multiplex/observability/watchers.py:118-131` | A due time stands until a periodic audit completes, and exactly the polls from then on start one. |
| `PollingWatcher.FirstPeriodicAuditAfterStartup` | `src/mcp_multiplex/observability/watchers.py:113-131` | So the first periodic audit after a startup audit is started by exactly the polls from its due time on. |
| `PollingWatcher.FirstPeriodicAuditWithoutStartup` | `src/mcp_multiplex/observability/watchers.py:118-131` | Without one, by the polls one period after the first poll that gets to the check. |
| `PollingWatcher.PathsAreIndependent` | `src/mcp_multiplex/observability/watchers.py:133-153` | In one poll each path takes the readings of its own targets only. |
| `PollingWatcher.AuditCoversReportedTargets` | `src/mcp_multiplex/observability/watchers.py:133-153` | A file_change audit covers exactly the targets on reported paths, each as often as it is watched. |
| `PollingWatcher.AuditKeepsOrder` | `src/mcp_multiplex/observability/watchers.py:133-153` | And in the order in which they are watched. |
| `PollingWatcher.RunsFollowPathHistories` | `src/mcp_multiplex/observability/watchers.py:133-153` | Over a run of polls each path goes through its own history. |
| `PollingWatcher.PollReportsIffHistoryDoes` | `src/mcp_multiplex/observability/watchers.py:133-153` | A poll reports a path exactly if one of its readings is a report in that history. |
| `PollingWatcher.PollingAuditWatcher.constructor` | `src/mcp_multiplex/observability/watchers.py:106-111` | A watcher starts quiet at the signatures it reads. |
| `PollingWatcher.PollingAuditWatcher.StableChangedTargets` | `src/mcp_multiplex/observability/watchers.py:133-153` | The loop over the targets does for every path what its history says. |
| `PollingWatcher.PollingAuditWatcher.RunStartupAudit` | `src/mcp_multiplex/observability/watchers.py:113-116` | Audits all targets and sets the first due time. |
| `PollingWatcher.PollingAuditWatcher.Poll` | `src/mcp_multiplex/observability/watchers.py:118-131` | The audits, events, run numbers and due time of a poll, also when an audit raises. |
| `JsoncComments.StripJsoncComments` | `src/mcp_multiplex/adapters/opencode.py:172-209` | The one-pass loop equals the recursive lexer. |
| `JsoncComments.StrippingKeepsLines` | `src/mcp_multiplex/adapters/opencode.py:172-209` | For every text the number of line breaks is kept and the text never gets longer. |
| `JsoncComments.StrippingIsIdempotent` | `src/mcp_multiplex/adapters/opencode.py:172-209` | Stripping twice is stripping once. |
| `JsoncComments.StrippingKeepsLiterals` | `src/mcp_multiplex/adapters/opencode.py:172-209` | The string literals are kept, each verbatim and in order. |
| `JsoncComments.SettledComposes` | `src/mcp_multiplex/adapters/opencode.py:172-209` | After a settled text, one that ends in code, stripping goes on as at a start. |
| `JsoncComments.UnsettledInterferes` | `src/mcp_multiplex/adapters/opencode.py:172-209` | After any other text it does not, so the condition is needed. |
| `JsoncComments.BlockCommentStripsToBlanks` | `src/mcp_multiplex/adapters/opencode.py:196-202` | A closed block comment in code leaves only blanks and its line breaks. |
| `JsoncComments.LineCommentStripsToLineBreak` | `src/mcp_multiplex/adapters/opencode.py:191-195` | A line comment in code leaves only the line break that ends it. |
| `JsoncComments.SlashFreeIsUnchanged` | `src/mcp_multiplex/adapters/opencode.py:172-209` | A text without `/` outside its strings is left as it is. |
| `JsoncComments.BlockCommentRoundTrip` | `src/mcp_multiplex/adapters/opencode.py:196-202` | A closed block comment put into such a text outside its strings and stripped again gives the text back with only blanks and line feeds in its place. |
| `JsoncComments.LineCommentRoundTrip` | `src/mcp_multiplex/adapters/opencode.py:191-195` | A line comment with its line break gives it back with only the line break. |
| `JsoncComments.UnclosedBlockLeaksItsLastCharacter` | `src/mcp_multiplex/adapters/opencode.py:196-202` | An unclosed block comment leaves blanks and its last character. |

## Left out

- HTTP parsing, headers, sockets, subprocess launch, credentials: what a backend prints or fails to print is an input.
- SQLite: tables are maps with the uniqueness of `src/mcp_multiplex/storage/migrations/0001_core_tables.sql`; every append to the event table is taken to be accepted by the remediation model, so a clash of event ids within one second is not in it.
- SHA-256, uuid, URL parsing, case folding beyond the patterns' letters: arbitrary functions. The Hub paths that stay apart when normalized include those without query, fragment, tab or line break, by `src/mcp_multiplex/catalog/matching.py:108-117`.
- Codex TOML surgery: an arbitrary rewrite that the post-write verification guards, as `Remediation` has it for every agent.
- RuntimeDaemon.Daemon.HandleRequest: one atomic step per handler; of the finer interleavings of its lock sections only the restart's stale row is modelled.
- RuntimeProxy.DeleteKeepsInv: closing a handle does not raise within a run; `UnclosedDeleteFeedsReaper` says what follows if it does.
- RuntimeProxy.InitializeKeepsInv: processes spawned before a refused insert are not tracked, so nothing is said about their cleanup.
- RuntimeProxy.RunKeepsInv: the catalog is fixed during a run, and a run starts from empty tables; rows that outlive a daemon restart are not covered.
- HTTP backends: each request has a connection of its own, so nothing is shared; the runtime proxy takes their replies as inputs.
- StdioTransport.StdioBackendProcess.Forward: backend ids are taken to be fresh; the nonce of `new_backend_request_id` is not modelled.
- Remediation.NextKeepsOk: each operation is one step and files are not edited in the middle of one; a plan's status `draft` is left out since nothing here makes one, and an automatic apply whose config fails schema validation is recorded as rejected where the source raises without an event.
- ApplyWriter.ControlPlane.ApplyPlan: the backup's path differs from the target's and temporary names are fresh; file modes and directories are not modelled. Snapshots are taken during applies, automatic authorizations and rollbacks; inserting a plan, asking for an approval and deciding it are single steps.
- Remediation.OutcomesAndAuthority: holds between operations; a crash within one is the business of `ApplyWriter`.
- Remediation.ApplyLeavesNoDamage: the caller's validator passes or raises and does not write.
- AgentConfig.ParseConfig: the entries come as a map by mount, so their sorted order and the text of errors are not in it; ids are told apart by mount, and the hash of an entry is an arbitrary function of mount and raw entry.
- AuditChain.EventStore.Append: the event's schema and its foreign keys are one input; the deletion of an agent, plan or backup, which would null a hashed column of its events, is not modelled.
- CatalogMatching.ScoreEntry: the routability check is one flag of a catalog entry.
- Planner.PlannedRewriteSettles: staging of unknown candidates is an input, and plans for a missing control plane, plan ids, diffs and risk fields are left out.
- Redaction.SecretKeyFindings: findings are a set of paths; the scan of raw values for key-shaped secrets is left out.
- PollingWatcher.PollingAuditWatcher.constructor: takes the targets sorted; parsing the watched configs is how an audit ends.
- Control-plane install, discovery, legacy import, TUI, argparse commands, certification, systemd, token storage and health counters would only add easy members.
