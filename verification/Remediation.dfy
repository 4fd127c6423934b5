/**
 The remediation lifecycle: plans, approvals, config files, backups and events, under every
 interleaving of plan insertion, approval decisions, automatic authorization, apply, rollback,
 and edits of the config files by anyone else.
 */
module Remediation {
  import opened Common

  newtype byte = x: int | 0 <= x < 256

  type Bytes = seq<byte>

  datatype PlanType = RewriteKnownDirect | ImportUnknownCandidate | UnsafeLocalHttpDetected | InstallMissingControlPlane

  datatype PlanStatus = PendingApproval | Approved | Rejected | Applied | Failed

  /** The part of an entry's projection that applying a plan looks at. */
  datatype Projection = Projection(mountName: string, transport: string, command: Option<string>, cwd: Option<string>, envNames: seq<string>, url: Option<string>)

  /** What a plan would do to a config, apart from how far the plan has got. */
  datatype Edit = Edit(agentId: string, observedEntryId: string, before: Projection, after: Projection)

  datatype Plan = Plan(
    planType: PlanType, status: PlanStatus, targetPath: string, expectedPreimageHash: string,
    approvalRequired: bool, reasons: seq<string>, edit: Edit)

  datatype ApprovalState = IsPending | IsApproved | IsRejected | NotRequired

  datatype Approval = Approval(state: ApprovalState, channel: string)

  datatype Backup = Backup(planId: string, targetPath: string, backupPath: string, beforeHash: string, restored: bool)

  datatype Event =
    | ApprovalDecided(planId: string, approved: bool)
    | AutoApplyRejected(planId: string)
    | AutoApplyAuthorized(planId: string)
    | RollbackCompleted(planId: string, backupId: string)
    | RemediationApplied(planId: string)
    | RemediationFailed(planId: string)

  /** Approvals are keyed by plan: an approval id is a function of its plan's id. */
  datatype World = World(
    files: map<string, Bytes>, plans: map<string, Plan>, approvals: map<string, Approval>,
    backups: map<string, Backup>, events: seq<Event>)

  datatype Agent = Agent(canAutoRemediate: bool, configPaths: map<string, bool>)  // path to is_project_shared

  /** The agent registry, and what the agent's parser and rewriter make of a config: the entry hash of
      the observed entry (none if the config does not parse or lacks it), the rewritten text (none if
      the rewrite or its syntax check raises), and the post-write verification. */
  datatype Config = Config(
    agents: map<string, Agent>,
    sha256: Bytes -> string,
    observedHash: (Edit, Bytes) -> Option<string>,
    rewrite: (Edit, Bytes) -> Option<Bytes>,
    verified: (Edit, Bytes) -> bool)

  const DECISION_CHANNELS: set<string> := {"cli", "tui"}

  // ----- Atomic writes and rollback -----

  /** An atomic write is done, or fails with so many bytes in its temporary file, or fails after the
      replace, when the directory is synced. */
  datatype WriteFault = NoFault | BeforeReplace(written: nat) | AfterReplace

  function AtomicWrite(files: map<string, Bytes>, target: string, content: Bytes, fault: WriteFault): map<string, Bytes> {
    if fault.BeforeReplace? then files else files[target := content]
  }

  predicate CanRestore(cfg: Config, w: World, backupId: string) {
    && backupId in w.backups
    && w.backups[backupId].backupPath in w.files
    && cfg.sha256(w.files[w.backups[backupId].backupPath]) == w.backups[backupId].beforeHash
  }

  function Rollback(cfg: Config, w: World, backupId: string, fault: WriteFault): World {
    if !CanRestore(cfg, w, backupId) then w
    else
      var backup := w.backups[backupId];
      var written := w.(files := AtomicWrite(w.files, backup.targetPath, w.files[backup.backupPath], fault));
      if fault != NoFault then written
      else written.(backups := w.backups[backupId := backup.(restored := true)],
                    events := w.events + [RollbackCompleted(backup.planId, backupId)])
  }

  // ----- Apply -----

  predicate ApplyAllowed(w: World, planId: string)
    requires planId in w.plans
  {
    var plan := w.plans[planId];
    && plan.status != Rejected
    && (if plan.approvalRequired
        then planId in w.approvals && w.approvals[planId].state == IsApproved && plan.status == Approved
        else plan.status == Approved)
  }

  /** What the environment decides in one apply: the backup's id and path, how writing the backup goes,
      the config write, the caller's validator, and the write of a rollback. */
  datatype ApplyEnv = ApplyEnv(
    backupId: string, backupPath: string, backupWritten: Option<nat>,  // so many bytes, then a failure
    write: WriteFault, validatorPasses: bool, rollbackWrite: WriteFault)

  datatype ApplyEnd = Refused | BackupFailed | ApplySucceeded | ApplyRestored | RollbackRaised

  predicate PreimageHolds(cfg: Config, w: World, plan: Plan) {
    plan.targetPath in w.files && cfg.observedHash(plan.edit, w.files[plan.targetPath]) == Some(plan.expectedPreimageHash)
  }

  /** Whether the plan's row can be read for an apply. */
  predicate Loadable(w: World, planId: string) {
    && planId in w.plans
    && w.plans[planId].targetPath != "" && w.plans[planId].edit.observedEntryId != "" && w.plans[planId].expectedPreimageHash != ""
  }

  predicate MayApply(cfg: Config, w: World, planId: string) {
    && Loadable(w, planId) && ApplyAllowed(w, planId)
    && w.plans[planId].planType == RewriteKnownDirect && PreimageHolds(cfg, w, w.plans[planId])
  }

  function Prefix(content: Bytes, n: nat): Bytes {
    if n <= |content| then content[..n] else content
  }

  function SetStatus(w: World, planId: string, status: PlanStatus): World
    requires planId in w.plans
  {
    w.(plans := w.plans[planId := w.plans[planId].(status := status)])
  }

  function WithBackup(cfg: Config, w: World, planId: string, env: ApplyEnv): World
    requires MayApply(cfg, w, planId)
  {
    var plan := w.plans[planId];
    var before := w.files[plan.targetPath];
    w.(files := w.files[env.backupPath := before],
       backups := w.backups[env.backupId := Backup(planId, plan.targetPath, env.backupPath, cfg.sha256(before), false)])
  }

  /** Whether rewrite, write, validator and verification all pass. */
  predicate WriteSucceeds(cfg: Config, plan: Plan, before: Bytes, env: ApplyEnv) {
    var after := cfg.rewrite(plan.edit, before);
    after.Some? && env.write == NoFault && env.validatorPasses && cfg.verified(plan.edit, after.value)
  }

  /** The files once the config write was tried. */
  function Attempted(cfg: Config, w: World, plan: Plan, before: Bytes, env: ApplyEnv): World {
    var after := cfg.rewrite(plan.edit, before);
    if after.None? then w else w.(files := AtomicWrite(w.files, plan.targetPath, after.value, env.write))
  }

  /** What apply does once rewrite, write, validator or verification raised. */
  function Recover(cfg: Config, attempted: World, planId: string, env: ApplyEnv): (World, ApplyEnd)
    requires planId in attempted.plans
  {
    var restored := Rollback(cfg, attempted, env.backupId, env.rollbackWrite);
    if !CanRestore(cfg, attempted, env.backupId) || env.rollbackWrite != NoFault then (restored, RollbackRaised)
    else (SetStatus(restored.(events := restored.events + [RemediationFailed(planId)]), planId, Failed), ApplyRestored)
  }

  function Apply(cfg: Config, w: World, planId: string, env: ApplyEnv): (World, ApplyEnd) {
    if !MayApply(cfg, w, planId) then (w, Refused)
    else
      var plan := w.plans[planId];
      var before := w.files[plan.targetPath];
      if env.backupWritten.Some? then
        (w.(files := w.files[env.backupPath := Prefix(before, env.backupWritten.value)]), BackupFailed)
      else if env.backupId in w.backups then
        (w.(files := w.files[env.backupPath := before]), BackupFailed)
      else
        var attempted := Attempted(cfg, WithBackup(cfg, w, planId, env), plan, before, env);
        if WriteSucceeds(cfg, plan, before, env) then
          (SetStatus(attempted.(events := w.events + [RemediationApplied(planId)]), planId, Applied), ApplySucceeded)
        else
          Recover(cfg, attempted, planId, env)
  }

  // ----- Automatic authorization -----

  predicate MutatesConfig(event: Event, planId: string) {
    event.planId == planId && (event.RemediationApplied? || event.RemediationFailed? || event.RollbackCompleted?)
  }

  predicate Eligible(cfg: Config, w: World, planId: string)
    requires planId in w.plans
  {
    var plan := w.plans[planId];
    && plan.planType == RewriteKnownDirect && plan.status == PendingApproval && plan.approvalRequired
    && plan.edit.agentId in cfg.agents && cfg.agents[plan.edit.agentId].canAutoRemediate
    && plan.targetPath in cfg.agents[plan.edit.agentId].configPaths && !cfg.agents[plan.edit.agentId].configPaths[plan.targetPath]
    && "known_direct_backend_match" in plan.reasons && "match_confidence:high" in plan.reasons
    && "match_reason:exact_backend_fingerprint" in plan.reasons
    && plan.edit.before.transport == "stdio" && plan.edit.before.command.Some? && plan.edit.before.command.value != ""
    && plan.edit.before.cwd.None? && plan.edit.before.envNames == []
    && plan.edit.after.url.Some? && StartsWith(plan.edit.after.url.value, "http://127.0.0.1:30000/")
    && PreimageHolds(cfg, w, plan)
    && (forall b :: b in w.backups ==> w.backups[b].planId != planId)
    && (forall e :: e in w.events ==> !MutatesConfig(e, planId))
  }

  function Authorize(w: World, planId: string): World
    requires planId in w.plans
  {
    w.(plans := w.plans[planId := w.plans[planId].(approvalRequired := false, status := Approved)],
       approvals := if planId in w.approvals then w.approvals else w.approvals[planId := Approval(NotRequired, "auto_policy")],
       events := w.events + [AutoApplyAuthorized(planId)])
  }

  function AutoApply(cfg: Config, w: World, planId: string, env: ApplyEnv): World {
    if !Loadable(w, planId) then w
    else if !Eligible(cfg, w, planId) then w.(events := w.events + [AutoApplyRejected(planId)])
    else Apply(cfg, Authorize(w, planId), planId, env).0
  }

  // ----- Plans and approvals -----

  /** A plan as the planner makes it; the row of a plan that is already stored stays as it is. */
  function InsertPlan(w: World, planId: string, plan: Plan): World {
    if planId in w.plans then w
    else w.(plans := w.plans[planId := plan.(status := PendingApproval, approvalRequired := true)])
  }

  function CreatePending(w: World, planId: string, channel: string): World {
    if planId !in w.plans || !w.plans[planId].approvalRequired || planId in w.approvals then w
    else w.(approvals := w.approvals[planId := Approval(IsPending, channel)])
  }

  function Decide(w: World, planId: string, approve: bool, channel: string): World {
    if channel !in DECISION_CHANNELS || planId !in w.approvals || w.approvals[planId].state != IsPending
       || planId !in w.plans || !w.plans[planId].approvalRequired then w
    else
      SetStatus(w, planId, if approve then Approved else Rejected)
        .(approvals := w.approvals[planId := Approval(if approve then IsApproved else IsRejected, channel)],
          events := w.events + [ApprovalDecided(planId, approve)])
  }

  datatype Step =
    | DoInsert(planId: string, plan: Plan)
    | DoCreatePending(planId: string, channel: string)
    | DoDecide(planId: string, approve: bool, channel: string)
    | DoAutoApply(planId: string, env: ApplyEnv)
    | DoApply(planId: string, env: ApplyEnv)
    | DoRollback(backupId: string, fault: WriteFault)
    | EditFile(path: string, content: Option<Bytes>)

  function Next(cfg: Config, w: World, step: Step): World {
    match step
    case DoInsert(planId, plan) => InsertPlan(w, planId, plan)
    case DoCreatePending(planId, channel) => CreatePending(w, planId, channel)
    case DoDecide(planId, approve, channel) => Decide(w, planId, approve, channel)
    case DoAutoApply(planId, env) => AutoApply(cfg, w, planId, env)
    case DoApply(planId, env) => Apply(cfg, w, planId, env).0
    case DoRollback(backupId, fault) => Rollback(cfg, w, backupId, fault)
    case EditFile(path, content) =>
      w.(files := if content.None? then w.files - {path} else w.files[path := content.value])
  }

  function Run(cfg: Config, w: World, steps: seq<Step>): World {
    if steps == [] then w else Next(cfg, Run(cfg, w, steps[..|steps| - 1]), steps[|steps| - 1])
  }

  // ----- Authority, and at most once -----

  /** How often the plan's apply was recorded to have succeeded or failed. */
  function Outcomes(events: seq<Event>, planId: string): nat {
    multiset(events)[RemediationApplied(planId)] + multiset(events)[RemediationFailed(planId)]
  }

  function Authorizations(events: seq<Event>, planId: string): nat {
    multiset(events)[AutoApplyAuthorized(planId)]
  }

  function PlanOf(w: World, planId: string): Option<Plan> {
    if planId in w.plans then Some(w.plans[planId]) else None
  }

  function ApprovalOf(w: World, planId: string): Option<Approval> {
    if planId in w.approvals then Some(w.approvals[planId]) else None
  }

  predicate OperatorApproved(approval: Option<Approval>) {
    approval.Some? && approval.value.state == IsApproved && approval.value.channel in DECISION_CHANNELS
  }

  /** One plan's row agrees with its approval and with the events about it. An approved, applied or
      failed plan has an operator's approval, unless automatic authorization, recorded once, took
      over. */
  predicate Consistent(plan: Option<Plan>, approval: Option<Approval>, outcomes: nat, authorizations: nat) {
    match plan
    case None => approval.None? && outcomes == 0 && authorizations == 0
    case Some(plan) =>
      && outcomes == (if plan.status == Applied || plan.status == Failed then 1 else 0)
      && authorizations == (if plan.approvalRequired then 0 else 1)
      && (plan.status == PendingApproval || plan.status == Rejected ==> plan.approvalRequired)
      && (plan.status == PendingApproval ==> approval.None? || approval.value.state == IsPending)
      && (plan.status != PendingApproval && plan.status != Rejected && plan.approvalRequired ==> OperatorApproved(approval))
      && (plan.status == Rejected ==> approval.Some? && approval.value.state == IsRejected)
      && (plan.approvalRequired && approval.Some? && approval.value.state == IsPending ==> plan.status == PendingApproval)
  }

  predicate Ok(w: World, planId: string) {
    Consistent(PlanOf(w, planId), ApprovalOf(w, planId), Outcomes(w.events, planId), Authorizations(w.events, planId))
  }

  lemma InsertKeepsOk(w: World, planId: string, plan: Plan, p: string)
    requires Ok(w, p)
    ensures Ok(InsertPlan(w, planId, plan), p)
  {
  }

  lemma CreatePendingKeepsOk(w: World, planId: string, channel: string, p: string)
    requires Ok(w, p)
    ensures Ok(CreatePending(w, planId, channel), p)
  {
  }

  lemma DecideKeepsOk(w: World, planId: string, approve: bool, channel: string, p: string)
    requires Ok(w, p)
    ensures Ok(Decide(w, planId, approve, channel), p)
  {
  }

  lemma AuthorizeKeepsOk(cfg: Config, w: World, planId: string, p: string)
    requires Ok(w, p) && planId in w.plans && Eligible(cfg, w, planId)
    ensures Ok(Authorize(w, planId), p)
  {
  }

  /** What an apply does to the plans, the approvals and the recorded outcomes. */
  predicate Effects(w: World, w': World, end: ApplyEnd, planId: string, p: string) {
    && w'.approvals == w.approvals
    && Authorizations(w'.events, p) == Authorizations(w.events, p)
    && (if end == ApplySucceeded || end == ApplyRestored then
          && planId in w.plans
          && w'.plans == w.plans[planId := w.plans[planId].(status := if end == ApplySucceeded then Applied else Failed)]
          && Outcomes(w'.events, p) == Outcomes(w.events, p) + (if p == planId then 1 else 0)
        else w'.plans == w.plans && Outcomes(w'.events, p) == Outcomes(w.events, p))
  }

  lemma OneMoreEvent(events: seq<Event>, e: Event, p: string)
    ensures Outcomes(events + [e], p)
         == Outcomes(events, p) + (if e == RemediationApplied(p) || e == RemediationFailed(p) then 1 else 0)
    ensures Authorizations(events + [e], p) == Authorizations(events, p) + (if e == AutoApplyAuthorized(p) then 1 else 0)
  {
    assert multiset(events + [e]) == multiset(events) + multiset{e};
  }

  lemma RollbackEffects(cfg: Config, w: World, backupId: string, fault: WriteFault, p: string)
    ensures var w' := Rollback(cfg, w, backupId, fault);
      && w'.plans == w.plans && w'.approvals == w.approvals
      && Outcomes(w'.events, p) == Outcomes(w.events, p) && Authorizations(w'.events, p) == Authorizations(w.events, p)
  {
    if backupId in w.backups {
      OneMoreEvent(w.events, RollbackCompleted(w.backups[backupId].planId, backupId), p);
    }
  }

  lemma RecoverEffects(cfg: Config, w: World, planId: string, env: ApplyEnv, p: string)
    requires planId in w.plans
    ensures var (w', end) := Recover(cfg, w, planId, env); Effects(w, w', end, planId, p)
  {
    var restored := Rollback(cfg, w, env.backupId, env.rollbackWrite);
    RollbackEffects(cfg, w, env.backupId, env.rollbackWrite, p);
    OneMoreEvent(restored.events, RemediationFailed(planId), p);
  }

  lemma ApplyEffects(cfg: Config, w: World, planId: string, env: ApplyEnv, p: string)
    ensures var (w', end) := Apply(cfg, w, planId, env); Effects(w, w', end, planId, p)
  {
    if MayApply(cfg, w, planId) && env.backupWritten.None? && env.backupId !in w.backups {
      var plan := w.plans[planId];
      var before := w.files[plan.targetPath];
      var attempted := Attempted(cfg, WithBackup(cfg, w, planId, env), plan, before, env);
      assert attempted.plans == w.plans && attempted.approvals == w.approvals && attempted.events == w.events;
      if WriteSucceeds(cfg, plan, before, env) {
        OneMoreEvent(w.events, RemediationApplied(planId), p);
      } else {
        RecoverEffects(cfg, attempted, planId, env, p);
      }
    }
  }

  lemma ApplyKeepsOk(cfg: Config, w: World, planId: string, env: ApplyEnv, p: string)
    requires Ok(w, p)
    ensures Ok(Apply(cfg, w, planId, env).0, p)
  {
    ApplyEffects(cfg, w, planId, env, p);
    if MayApply(cfg, w, planId) {
      assert w.plans[planId].status == Approved;
    }
  }

  lemma NextKeepsOk(cfg: Config, w: World, step: Step, p: string)
    requires Ok(w, p)
    ensures Ok(Next(cfg, w, step), p)
  {
    match step
    case DoInsert(planId, plan) => InsertKeepsOk(w, planId, plan, p);
    case DoCreatePending(planId, channel) => CreatePendingKeepsOk(w, planId, channel, p);
    case DoDecide(planId, approve, channel) => DecideKeepsOk(w, planId, approve, channel, p);
    case DoAutoApply(planId, env) =>
      if Loadable(w, planId) && Eligible(cfg, w, planId) {
        AuthorizeKeepsOk(cfg, w, planId, p);
        ApplyKeepsOk(cfg, Authorize(w, planId), planId, env, p);
      }
    case DoApply(planId, env) => ApplyKeepsOk(cfg, w, planId, env, p);
    case DoRollback(backupId, fault) => RollbackEffects(cfg, w, backupId, fault, p);
    case EditFile(path, content) =>
  }

  // ----- Runs -----

  function Fresh(files: map<string, Bytes>): World {
    World(files, map[], map[], map[], [])
  }

  lemma {:induction false} RunKeepsOk(cfg: Config, files: map<string, Bytes>, steps: seq<Step>, p: string)
    ensures Ok(Run(cfg, Fresh(files), steps), p)
  {
    if steps != [] {
      RunKeepsOk(cfg, files, steps[..|steps| - 1], p);
      NextKeepsOk(cfg, Run(cfg, Fresh(files), steps[..|steps| - 1]), steps[|steps| - 1], p);
    }
  }

  predicate Settled(w: World, planId: string) {
    planId in w.plans && w.plans[planId].status in {Applied, Failed}
  }

  /** Over every run, a plan is recorded at most once as applied or failed, exactly when its status says
      so; it is authorized automatically at most once; and once it is approved, applied or failed, an
      operator approved it through the command line or the terminal interface, or it was authorized
      automatically. */
  lemma OutcomesAndAuthority(cfg: Config, files: map<string, Bytes>, steps: seq<Step>, p: string)
    ensures var w := Run(cfg, Fresh(files), steps);
      && Outcomes(w.events, p) == (if Settled(w, p) then 1 else 0)
      && Authorizations(w.events, p) <= 1
      && (p in w.plans && w.plans[p].status !in {PendingApproval, Rejected} ==>
            OperatorApproved(ApprovalOf(w, p)) || AutoApplyAuthorized(p) in w.events)
  {
    RunKeepsOk(cfg, files, steps, p);
  }

  predicate Terminal(w: World, planId: string) {
    planId in w.plans && w.plans[planId].status in {Applied, Failed, Rejected}
  }

  lemma ApplyKeepsTerminal(cfg: Config, w: World, planId: string, env: ApplyEnv, p: string)
    requires Terminal(w, p)
    ensures var w' := Apply(cfg, w, planId, env).0; p in w'.plans && w'.plans[p] == w.plans[p]
  {
    if !MayApply(cfg, w, planId) {
      assert Apply(cfg, w, planId, env).0 == w;
    } else {
      assert planId != p;
      ApplyEffects(cfg, w, planId, env, p);
    }
  }

  lemma AutoApplyKeepsTerminal(cfg: Config, w: World, planId: string, env: ApplyEnv, p: string)
    requires Terminal(w, p)
    ensures var w' := AutoApply(cfg, w, planId, env); p in w'.plans && w'.plans[p] == w.plans[p]
  {
    if Loadable(w, planId) && Eligible(cfg, w, planId) {
      ApplyKeepsTerminal(cfg, Authorize(w, planId), planId, env, p);
    }
  }

  lemma TerminalIsFinal(cfg: Config, w: World, step: Step, p: string)
    requires Ok(w, p) && Terminal(w, p)
    ensures var w' := Next(cfg, w, step); p in w'.plans && w'.plans[p] == w.plans[p]
  {
    if step.DoApply? {
      ApplyKeepsTerminal(cfg, w, step.planId, step.env, p);
    } else if step.DoAutoApply? {
      AutoApplyKeepsTerminal(cfg, w, step.planId, step.env, p);
    }
  }

  /** Applied, failed and rejected are never left, whatever is tried afterwards. */
  lemma {:induction false} TerminalStays(cfg: Config, files: map<string, Bytes>, steps: seq<Step>, k: nat, p: string)
    requires k <= |steps| && Terminal(Run(cfg, Fresh(files), steps[..k]), p)
    ensures var w' := Run(cfg, Fresh(files), steps); p in w'.plans && w'.plans[p] == Run(cfg, Fresh(files), steps[..k]).plans[p]
    decreases |steps|
  {
    if k == |steps| {
      assert steps[..k] == steps;
    } else {
      var most := steps[..|steps| - 1];
      assert most[..k] == steps[..k];
      TerminalStays(cfg, files, most, k, p);
      RunKeepsOk(cfg, files, most, p);
      TerminalIsFinal(cfg, Run(cfg, Fresh(files), most), steps[|steps| - 1], p);
    }
  }

  // ----- Decisions -----

  /** A pending approval of a plan that needs one, decided on an operator's channel, is decided as the
      operator said: the plan may be applied from then on exactly if it was approved.  Nothing else
      changes, and any other decision changes nothing. */
  lemma DecisionIsCarriedOut(w: World, planId: string, approve: bool, channel: string)
    ensures var w' := Decide(w, planId, approve, channel);
      if (channel == "cli" || channel == "tui") && planId in w.approvals && w.approvals[planId].state == IsPending
         && planId in w.plans && w.plans[planId].approvalRequired
      then
        && planId in w'.plans && planId in w'.approvals
        && w'.plans[planId].status == (if approve then Approved else Rejected)
        && w'.approvals[planId] == Approval(if approve then IsApproved else IsRejected, channel)
        && (OperatorApproved(ApprovalOf(w', planId)) <==> approve) && (ApplyAllowed(w', planId) <==> approve)
        && w'.plans == w.plans[planId := w.plans[planId].(status := w'.plans[planId].status)]
        && w'.approvals == w.approvals[planId := w'.approvals[planId]]
        && w'.events == w.events + [ApprovalDecided(planId, approve)] && w'.files == w.files && w'.backups == w.backups
      else w' == w
  {
  }

  function Decisions(events: seq<Event>, planId: string, approve: bool): nat {
    multiset(events)[ApprovalDecided(planId, approve)]
  }

  /** The decision on record is the one that the approval shows, and there is at most one. */
  predicate DecidedAsShown(w: World, planId: string) {
    && Decisions(w.events, planId, true) == (if planId in w.approvals && w.approvals[planId].state == IsApproved then 1 else 0)
    && Decisions(w.events, planId, false) == (if planId in w.approvals && w.approvals[planId].state == IsRejected then 1 else 0)
  }

  lemma OneMoreEventOnRecord(events: seq<Event>, e: Event, planId: string, approve: bool)
    ensures Decisions(events + [e], planId, approve) == Decisions(events, planId, approve) + (if e == ApprovalDecided(planId, approve) then 1 else 0)
  {
    assert multiset(events + [e]) == multiset(events) + multiset{e};
  }

  /** No event of an apply or a rollback is a decision. */
  lemma RollbackDecidesNothing(cfg: Config, w: World, backupId: string, fault: WriteFault, p: string, approve: bool)
    ensures Decisions(Rollback(cfg, w, backupId, fault).events, p, approve) == Decisions(w.events, p, approve)
  {
    if backupId in w.backups {
      OneMoreEventOnRecord(w.events, RollbackCompleted(w.backups[backupId].planId, backupId), p, approve);
    }
  }

  lemma RecoverDecidesNothing(cfg: Config, w: World, planId: string, env: ApplyEnv, p: string, approve: bool)
    requires planId in w.plans
    ensures Decisions(Recover(cfg, w, planId, env).0.events, p, approve) == Decisions(w.events, p, approve)
  {
    var restored := Rollback(cfg, w, env.backupId, env.rollbackWrite);
    RollbackDecidesNothing(cfg, w, env.backupId, env.rollbackWrite, p, approve);
    OneMoreEventOnRecord(restored.events, RemediationFailed(planId), p, approve);
  }

  lemma ApplyDecidesNothing(cfg: Config, w: World, planId: string, env: ApplyEnv, p: string, approve: bool)
    ensures Decisions(Apply(cfg, w, planId, env).0.events, p, approve) == Decisions(w.events, p, approve)
    ensures Apply(cfg, w, planId, env).0.approvals == w.approvals
  {
    ApplyEffects(cfg, w, planId, env, p);
    if MayApply(cfg, w, planId) && env.backupWritten.None? && env.backupId !in w.backups {
      var plan := w.plans[planId];
      var before := w.files[plan.targetPath];
      var attempted := Attempted(cfg, WithBackup(cfg, w, planId, env), plan, before, env);
      if WriteSucceeds(cfg, plan, before, env) {
        OneMoreEventOnRecord(w.events, RemediationApplied(planId), p, approve);
      } else {
        RecoverDecidesNothing(cfg, attempted, planId, env, p, approve);
      }
    }
  }

  lemma DecideKeepsRecord(w: World, planId: string, approve: bool, channel: string, p: string)
    requires DecidedAsShown(w, p)
    ensures DecidedAsShown(Decide(w, planId, approve, channel), p)
  {
    OneMoreEventOnRecord(w.events, ApprovalDecided(planId, approve), p, true);
    OneMoreEventOnRecord(w.events, ApprovalDecided(planId, approve), p, false);
  }

  lemma AutoApplyKeepsRecord(cfg: Config, w: World, planId: string, env: ApplyEnv, p: string)
    requires DecidedAsShown(w, p)
    ensures DecidedAsShown(AutoApply(cfg, w, planId, env), p)
  {
    forall approve: bool, e | e == AutoApplyRejected(planId) || e == AutoApplyAuthorized(planId)
      ensures Decisions(w.events + [e], p, approve) == Decisions(w.events, p, approve)
    {
      OneMoreEventOnRecord(w.events, e, p, approve);
    }
    if Loadable(w, planId) && Eligible(cfg, w, planId) {
      var authorized := Authorize(w, planId);
      assert DecidedAsShown(authorized, p);
      ApplyDecidesNothing(cfg, authorized, planId, env, p, true);
      ApplyDecidesNothing(cfg, authorized, planId, env, p, false);
    }
  }

  lemma NextKeepsRecord(cfg: Config, w: World, step: Step, p: string)
    requires DecidedAsShown(w, p)
    ensures DecidedAsShown(Next(cfg, w, step), p)
  {
    match step
    case DoInsert(_, _) =>
    case DoCreatePending(_, _) =>
    case DoDecide(planId, approve, channel) => DecideKeepsRecord(w, planId, approve, channel, p);
    case DoAutoApply(planId, env) => AutoApplyKeepsRecord(cfg, w, planId, env, p);
    case DoApply(planId, env) =>
      ApplyDecidesNothing(cfg, w, planId, env, p, true);
      ApplyDecidesNothing(cfg, w, planId, env, p, false);
    case DoRollback(backupId, fault) =>
      RollbackDecidesNothing(cfg, w, backupId, fault, p, true);
      RollbackDecidesNothing(cfg, w, backupId, fault, p, false);
    case EditFile(_, _) =>
  }

  lemma {:induction false} RunKeepsRecord(cfg: Config, files: map<string, Bytes>, steps: seq<Step>, p: string)
    ensures DecidedAsShown(Run(cfg, Fresh(files), steps), p)
  {
    if steps != [] {
      RunKeepsRecord(cfg, files, steps[..|steps| - 1], p);
      NextKeepsRecord(cfg, Run(cfg, Fresh(files), steps[..|steps| - 1]), steps[|steps| - 1], p);
    }
  }

  /** Over every run at most one decision is recorded per plan.  A plan that still needs an approval is
      approved, applied or failed only if the decision was to approve it, and a rejected one was decided
      against and may not be applied. */
  lemma PlansFollowTheirDecision(cfg: Config, files: map<string, Bytes>, steps: seq<Step>, p: string)
    ensures var w := Run(cfg, Fresh(files), steps);
      && Decisions(w.events, p, true) + Decisions(w.events, p, false) <= 1
      && (p in w.plans && w.plans[p].approvalRequired && w.plans[p].status in {Approved, Applied, Failed} ==> ApprovalDecided(p, true) in w.events)
      && (p in w.plans && w.plans[p].status == Rejected ==> ApprovalDecided(p, false) in w.events && !ApplyAllowed(w, p))
  {
    RunKeepsRecord(cfg, files, steps, p);
    RunKeepsOk(cfg, files, steps, p);
  }

  // ----- The guards, one by one -----

  /** A plan is stored once, pending and gated, whatever the planner says later. */
  lemma PlansAreStoredOnce(w: World, planId: string, plan: Plan)
    ensures InsertPlan(w, planId, plan)
         == if planId in w.plans then w
            else w.(plans := w.plans[planId := Plan(plan.planType, PendingApproval, plan.targetPath, plan.expectedPreimageHash, true,
                                                    plan.reasons, plan.edit)])
  {
  }

  /** An approval is asked for once, for a stored plan that needs one. */
  lemma ApprovalIsAskedForOnce(w: World, planId: string, channel: string)
    ensures CreatePending(w, planId, channel)
         == if planId in w.plans && w.plans[planId].approvalRequired && planId !in w.approvals
            then w.(approvals := w.approvals[planId := Approval(IsPending, channel)]) else w
  {
  }

  /** An apply gets past its guards exactly if the plan is a complete rewrite plan, approved, and by an
      operator where it needs that, and the target's entry still has the hash it was planned for;
      otherwise it changes nothing. */
  lemma ApplyProceedsIff(cfg: Config, w: World, planId: string, env: ApplyEnv)
    ensures var (w', end) := Apply(cfg, w, planId, env);
      if && planId in w.plans && w.plans[planId].planType == RewriteKnownDirect && w.plans[planId].status == Approved
         && (w.plans[planId].approvalRequired ==> planId in w.approvals && w.approvals[planId].state == IsApproved)
         && w.plans[planId].targetPath != "" && w.plans[planId].edit.observedEntryId != "" && w.plans[planId].expectedPreimageHash != ""
         && w.plans[planId].targetPath in w.files
         && cfg.observedHash(w.plans[planId].edit, w.files[w.plans[planId].targetPath]) == Some(w.plans[planId].expectedPreimageHash)
      then end != Refused else end == Refused && w' == w
  {
    if MayApply(cfg, w, planId) && env.backupWritten.None? && env.backupId !in w.backups {
      var plan := w.plans[planId];
      var before := w.files[plan.targetPath];
      var attempted := Attempted(cfg, WithBackup(cfg, w, planId, env), plan, before, env);
      assert planId in attempted.plans;
    }
  }

  /** A rollback writes a backup only while its bytes have the recorded hash, and records that it did
      exactly if the write is done. */
  lemma RollbackWritesOnlyIntactBackups(cfg: Config, w: World, backupId: string, fault: WriteFault)
    ensures var w' := Rollback(cfg, w, backupId, fault);
      if backupId in w.backups && w.backups[backupId].backupPath in w.files
         && cfg.sha256(w.files[w.backups[backupId].backupPath]) == w.backups[backupId].beforeHash
      then
        var backup := w.backups[backupId];
        && w'.files == (if fault.BeforeReplace? then w.files else w.files[backup.targetPath := w.files[backup.backupPath]])
        && w'.backups == (if fault.NoFault? then w.backups[backupId := backup.(restored := true)] else w.backups)
        && w'.events == w.events + (if fault.NoFault? then [RollbackCompleted(backup.planId, backupId)] else [])
        && w'.plans == w.plans && w'.approvals == w.approvals
      else w' == w
  {
  }

  /** The events that guard against applying a rewrite again and again. */
  predicate WasMutated(w: World, planId: string) {
    || RemediationApplied(planId) in w.events || RemediationFailed(planId) in w.events
    || (exists backupId :: backupId in w.backups && w.backups[backupId].planId == planId)
    || (exists i :: 0 <= i < |w.events| && w.events[i].RollbackCompleted? && w.events[i].planId == planId)
  }

  /** A pending, gated, complete rewrite plan for a registered agent that is certified for it, in a config
      that is registered and not shared by a project; planned on an exact high-confidence match, for an
      entry that runs a plain command without directory or environment, to the local Hub; whose config is
      current and which never changed anything before. */
  predicate SafeToAutomate(cfg: Config, w: World, planId: string) {
    && planId in w.plans
    && var plan := w.plans[planId];
    && plan.targetPath != "" && plan.edit.observedEntryId != "" && plan.expectedPreimageHash != ""
    && plan.planType == RewriteKnownDirect && plan.status == PendingApproval && plan.approvalRequired
    && plan.edit.agentId in cfg.agents
    && (var agent := cfg.agents[plan.edit.agentId];
        agent.canAutoRemediate && plan.targetPath in agent.configPaths && !agent.configPaths[plan.targetPath])
    && {"known_direct_backend_match", "match_confidence:high", "match_reason:exact_backend_fingerprint"} <= (set r | r in plan.reasons)
    && plan.edit.before.transport == "stdio" && plan.edit.before.command.Some? && plan.edit.before.command.value != ""
    && plan.edit.before.cwd == None && plan.edit.before.envNames == []
    && plan.edit.after.url.Some? && "http://127.0.0.1:30000/" <= plan.edit.after.url.value
    && plan.targetPath in w.files && cfg.observedHash(plan.edit, w.files[plan.targetPath]) == Some(plan.expectedPreimageHash)
    && !WasMutated(w, planId)
  }

  lemma EligibleIsSafeToAutomate(cfg: Config, w: World, planId: string)
    ensures Loadable(w, planId) && Eligible(cfg, w, planId) <==> SafeToAutomate(cfg, w, planId)
  {
    if Loadable(w, planId) {
      WasMutatedIff(w, planId);
    }
  }

  /** An automatic apply authorizes its plan exactly if that is safe, and otherwise changes nothing but
      the log. */
  lemma AutoApplyAuthorizesIff(cfg: Config, w: World, planId: string, env: ApplyEnv)
    ensures var w' := AutoApply(cfg, w, planId, env);
      if SafeToAutomate(cfg, w, planId)
      then
        && Authorizations(w'.events, planId) == Authorizations(w.events, planId) + 1
        && planId in w'.plans && !w'.plans[planId].approvalRequired
        && w'.approvals == if planId in w.approvals then w.approvals else w.approvals[planId := Approval(NotRequired, "auto_policy")]
      else Authorizations(w'.events, planId) == Authorizations(w.events, planId) && w' == w.(events := w'.events)
  {
    EligibleIsSafeToAutomate(cfg, w, planId);
    OneMoreEvent(w.events, AutoApplyRejected(planId), planId);
    if Loadable(w, planId) && Eligible(cfg, w, planId) {
      OneMoreEvent(w.events, AutoApplyAuthorized(planId), planId);
      ApplyEffects(cfg, Authorize(w, planId), planId, env, planId);
    }
  }

  lemma WasMutatedIff(w: World, planId: string)
    ensures WasMutated(w, planId) <==>
      || (exists b :: b in w.backups && w.backups[b].planId == planId)
      || (exists e :: e in w.events && MutatesConfig(e, planId))
  {
    if i :| 0 <= i < |w.events| && w.events[i].RollbackCompleted? && w.events[i].planId == planId {
      assert MutatesConfig(w.events[i], planId);
    }
    if e :| e in w.events && MutatesConfig(e, planId) {
      var i :| 0 <= i < |w.events| && w.events[i] == e;
      assert e.RemediationApplied? ==> e == RemediationApplied(planId);
      assert e.RemediationFailed? ==> e == RemediationFailed(planId);
    }
    assert RemediationApplied(planId) in w.events ==> MutatesConfig(RemediationApplied(planId), planId);
    assert RemediationFailed(planId) in w.events ==> MutatesConfig(RemediationFailed(planId), planId);
  }

  // ----- What an apply leaves in the files -----

  function Planned(cfg: Config, w: World, planId: string): Option<Bytes>
    requires MayApply(cfg, w, planId)
  {
    cfg.rewrite(w.plans[planId].edit, w.files[w.plans[planId].targetPath])
  }

  /** The recorded backup of the plan's target holds exactly that content. */
  predicate HoldsBackup(cfg: Config, w: World, backupId: string, planId: string, content: Bytes) {
    && backupId in w.backups && planId in w.plans
    && w.backups[backupId].planId == planId && w.backups[backupId].targetPath == w.plans[planId].targetPath
    && w.backups[backupId].backupPath in w.files && w.files[w.backups[backupId].backupPath] == content
    && w.backups[backupId].beforeHash == cfg.sha256(content)
  }

  /** With the backup beside the target and not over it, an apply that gets as far as the write ends in
      one of three ways: applied, with the target rewritten and verified; failed, with the target's
      exact bytes restored; or, if the rollback's own write failed, undecided, with the target either
      as it was or rewritten and a recorded backup of what it was. */
  predicate LeavesNoDamage(cfg: Config, w: World, planId: string, env: ApplyEnv)
    requires MayApply(cfg, w, planId)
  {
    var plan := w.plans[planId];
    var before := w.files[plan.targetPath];
    var (w', end) := Apply(cfg, w, planId, env);
    && plan.targetPath in w'.files && planId in w'.plans
    && (end == BackupFailed <==> env.backupWritten.Some? || env.backupId in w.backups)
    && (end == ApplySucceeded <==>
          end != BackupFailed && Planned(cfg, w, planId).Some? && env.write == NoFault && env.validatorPasses
          && cfg.verified(plan.edit, Planned(cfg, w, planId).value))
    && match end
       case Refused => false
       case BackupFailed => w'.files[plan.targetPath] == before && w'.plans == w.plans && w'.backups == w.backups && w'.events == w.events
       case ApplySucceeded =>
         && Some(w'.files[plan.targetPath]) == Planned(cfg, w, planId) && cfg.verified(plan.edit, w'.files[plan.targetPath])
         && w'.plans[planId].status == Applied && HoldsBackup(cfg, w', env.backupId, planId, before)
       case ApplyRestored => w'.files[plan.targetPath] == before && w'.plans[planId].status == Failed && w'.backups[env.backupId].restored
       case RollbackRaised =>
         && env.rollbackWrite != NoFault && w'.plans == w.plans && w'.events == w.events
         && HoldsBackup(cfg, w', env.backupId, planId, before) && !w'.backups[env.backupId].restored
         && w'.files[plan.targetPath]
            == (if env.rollbackWrite.BeforeReplace? && Planned(cfg, w, planId).Some? && !env.write.BeforeReplace?
                then Planned(cfg, w, planId).value else before)
  }

  lemma RecoverLeavesNoDamage(cfg: Config, w: World, planId: string, env: ApplyEnv, before: Bytes)
    requires HoldsBackup(cfg, w, env.backupId, planId, before)
    requires w.backups[env.backupId].targetPath in w.files && w.backups[env.backupId].targetPath != w.backups[env.backupId].backupPath
    ensures var (w', end) := Recover(cfg, w, planId, env);
      var target := w.backups[env.backupId].targetPath;
      && target in w'.files && planId in w'.plans
      && (end == ApplyRestored || end == RollbackRaised)
      && (end == ApplyRestored <==> env.rollbackWrite == NoFault)
      && (end == ApplyRestored ==> w'.files[target] == before && w'.plans[planId].status == Failed
                                   && env.backupId in w'.backups && w'.backups[env.backupId].restored)
      && (end == RollbackRaised ==>
            && w'.plans == w.plans && w'.events == w.events && w'.backups == w.backups
            && HoldsBackup(cfg, w', env.backupId, planId, before)
            && w'.files[target] == (if env.rollbackWrite.BeforeReplace? then w.files[target] else before))
  {
  }

  lemma ApplyLeavesNoDamage(cfg: Config, w: World, planId: string, env: ApplyEnv)
    requires MayApply(cfg, w, planId) && env.backupPath != w.plans[planId].targetPath
    ensures LeavesNoDamage(cfg, w, planId, env)
  {
    var plan := w.plans[planId];
    var before := w.files[plan.targetPath];
    if env.backupWritten.None? && env.backupId !in w.backups {
      var attempted := Attempted(cfg, WithBackup(cfg, w, planId, env), plan, before, env);
      assert HoldsBackup(cfg, attempted, env.backupId, planId, before);
      if !WriteSucceeds(cfg, plan, before, env) {
        RecoverLeavesNoDamage(cfg, attempted, planId, env, before);
      }
    }
  }

  /** Rolling back a successful apply gives the target its exact former bytes and leaves every other
      file, every plan and every approval as they are. */
  lemma RollbackUndoesApply(cfg: Config, w: World, planId: string, env: ApplyEnv)
    requires MayApply(cfg, w, planId) && env.backupPath != w.plans[planId].targetPath
    requires Apply(cfg, w, planId, env).1 == ApplySucceeded
    ensures var w' := Apply(cfg, w, planId, env).0;
      var target := w.plans[planId].targetPath;
      && Rollback(cfg, w', env.backupId, NoFault)
         == w'.(files := w'.files[target := w.files[target]],
                backups := w'.backups[env.backupId := Backup(planId, target, env.backupPath, cfg.sha256(w.files[target]), true)],
                events := w.events + [RemediationApplied(planId), RollbackCompleted(planId, env.backupId)])
      && w'.files.Keys == w.files.Keys + {env.backupPath}
      && (forall f :: f in w.files && f != target && f != env.backupPath ==> w'.files[f] == w.files[f])
  {
  }

  function FileOf(w: World, path: string): Option<Bytes> {
    if path in w.files then Some(w.files[path]) else None
  }

  lemma RecoverTouchesOnly(cfg: Config, w: World, planId: string, env: ApplyEnv, path: string)
    requires planId in w.plans && env.backupId in w.backups && path != w.backups[env.backupId].targetPath
    ensures FileOf(Recover(cfg, w, planId, env).0, path) == FileOf(w, path)
  {
  }

  lemma ApplyTouchesOnly(cfg: Config, w: World, planId: string, env: ApplyEnv, path: string)
    requires FileOf(Apply(cfg, w, planId, env).0, path) != FileOf(w, path)
    ensures MayApply(cfg, w, planId) && (path == w.plans[planId].targetPath || path == env.backupPath)
  {
    if MayApply(cfg, w, planId) && path != w.plans[planId].targetPath && path != env.backupPath {
      var plan := w.plans[planId];
      var before := w.files[plan.targetPath];
      if env.backupWritten.None? && env.backupId !in w.backups {
        var attempted := Attempted(cfg, WithBackup(cfg, w, planId, env), plan, before, env);
        assert FileOf(attempted, path) == FileOf(w, path);
        assert planId in attempted.plans && env.backupId in attempted.backups;
        if !WriteSucceeds(cfg, plan, before, env) {
          RecoverTouchesOnly(cfg, attempted, planId, env, path);
        }
      }
    }
  }

  lemma AutoApplyNeedsAuthority(cfg: Config, w: World, planId: string, env: ApplyEnv, path: string)
    requires Ok(w, planId)
    requires FileOf(AutoApply(cfg, w, planId, env), path) != FileOf(w, path)
    ensures planId in w.plans && w.plans[planId].planType == RewriteKnownDirect && PreimageHolds(cfg, w, w.plans[planId])
    ensures w.plans[planId].status == PendingApproval && Authorizations(AutoApply(cfg, w, planId, env).events, planId) == 1
    ensures path == w.plans[planId].targetPath || path == env.backupPath
  {
    assert Loadable(w, planId) && Eligible(cfg, w, planId);
    var authorized := Authorize(w, planId);
    ApplyTouchesOnly(cfg, authorized, planId, env, path);
    OneMoreEvent(w.events, AutoApplyAuthorized(planId), planId);
    ApplyEffects(cfg, authorized, planId, env, planId);
  }

  /** Whoever changed a file other than by editing or rolling back applied a rewrite plan that names the
      file as its target or its backup, with that plan approved by an operator or, in the very same
      step, authorized automatically. */
  lemma WritesNeedAuthority(cfg: Config, w: World, step: Step, path: string)
    requires !step.EditFile? && !step.DoRollback?
    requires step.DoApply? || step.DoAutoApply? ==> Ok(w, step.planId)
    requires FileOf(Next(cfg, w, step), path) != FileOf(w, path)
    ensures (step.DoApply? || step.DoAutoApply?) && step.planId in w.plans
    ensures w.plans[step.planId].planType == RewriteKnownDirect
    ensures path == w.plans[step.planId].targetPath || path == step.env.backupPath
    ensures PreimageHolds(cfg, w, w.plans[step.planId])
    ensures if w.plans[step.planId].status == Approved
            then OperatorApproved(ApprovalOf(w, step.planId)) || AutoApplyAuthorized(step.planId) in w.events
            else step.DoAutoApply? && w.plans[step.planId].status == PendingApproval
                 && Authorizations(Next(cfg, w, step).events, step.planId) == 1
  {
    if step.DoApply? {
      ApplyTouchesOnly(cfg, w, step.planId, step.env, path);
    } else if step.DoAutoApply? {
      AutoApplyNeedsAuthority(cfg, w, step.planId, step.env, path);
    }
  }
}
