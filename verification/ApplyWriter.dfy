/**
 The store behind the remediation lifecycle, changed step by step: each method performs the step that
 Remediation states as a function, and every micro-step in which a crash could stop an apply leaves a
 disk from which the config can be recovered.
 */
module ApplyWriter {
  import opened Common
  import opened Remediation

  /** A state in the middle of an atomic write: the temporary file aside, the target is as before or
      holds the whole content. */
  predicate MidWrite(w: World, s: World, target: string, content: Bytes, tmp: string) {
    && s == w.(files := s.files)
    && (s.files - {tmp} == w.files || s.files - {tmp} == w.files[target := content])
  }

  predicate MidBackup(w: World, s: World, backupPath: string) {
    s == w.(files := s.files) && backupPath in s.files && s.files - {backupPath} == w.files - {backupPath}
  }

  /** The files other than the target, the backup and the temporary files. */
  ghost predicate OthersKept(w: World, s: World, except: set<string>) {
    forall f :: f !in except ==> FileOf(s, f) == FileOf(w, f)
  }

  /** An interrupted apply leaves the target with its exact former bytes or the whole rewritten text,
      and in the latter case with a recorded backup of the former; the plan's status and the outcome's
      event are never ahead of what the target holds, and at most one outcome is recorded. */
  ghost predicate CrashSafe(cfg: Config, w: World, s: World, planId: string, env: ApplyEnv, temps: set<string>)
    requires MayApply(cfg, w, planId)
  {
    var plan := w.plans[planId];
    var before := w.files[plan.targetPath];
    var held := FileOf(s, plan.targetPath);
    && held.Some?
    && (held == Some(before) || (held == Planned(cfg, w, planId) && HoldsBackup(cfg, s, env.backupId, planId, before)))
    && OthersKept(w, s, temps + {plan.targetPath, env.backupPath})
    && planId in s.plans && s.plans == w.plans[planId := plan.(status := s.plans[planId].status)]
    && match s.plans[planId].status
       case Applied =>
         held == Planned(cfg, w, planId) && cfg.verified(plan.edit, held.value) && Outcomes(s.events, planId) <= Outcomes(w.events, planId) + 1
       case Failed => held == Some(before) && Outcomes(s.events, planId) <= Outcomes(w.events, planId) + 1
       case _ => s.plans == w.plans && Outcomes(s.events, planId) == Outcomes(w.events, planId)
  }

  /** The config write has been tried; nothing has been decided yet. */
  ghost predicate InApply(cfg: Config, w: World, s: World, planId: string, env: ApplyEnv, temps: set<string>)
    requires MayApply(cfg, w, planId)
  {
    var plan := w.plans[planId];
    var before := w.files[plan.targetPath];
    var held := FileOf(s, plan.targetPath);
    && s.plans == w.plans && s.events == w.events
    && held.Some? && (held == Some(before) || held == Planned(cfg, w, planId))
    && HoldsBackup(cfg, s, env.backupId, planId, before) && s.backups[env.backupId].backupPath == env.backupPath
    && OthersKept(w, s, temps + {plan.targetPath, env.backupPath})
  }

  lemma InApplyIsCrashSafe(cfg: Config, w: World, s: World, planId: string, env: ApplyEnv, temps: set<string>)
    requires MayApply(cfg, w, planId) && InApply(cfg, w, s, planId, env, temps)
    ensures CrashSafe(cfg, w, s, planId, env, temps)
  {
    assert w.plans == w.plans[planId := w.plans[planId]];
  }

  lemma MidWriteStaysInApply(cfg: Config, w: World, s: World, s': World, planId: string, env: ApplyEnv, temps: set<string>,
                             content: Bytes, tmp: string)
    requires MayApply(cfg, w, planId) && InApply(cfg, w, s, planId, env, temps)
    requires MidWrite(s, s', w.plans[planId].targetPath, content, tmp)
    requires content == w.files[w.plans[planId].targetPath] || Planned(cfg, w, planId) == Some(content)
    requires tmp in temps && tmp !in s.files && tmp != w.plans[planId].targetPath && tmp != env.backupPath
    requires env.backupPath != w.plans[planId].targetPath
    ensures InApply(cfg, w, s', planId, env, temps)
  {
    var target := w.plans[planId].targetPath;
    forall f | f != tmp && f != target
      ensures FileOf(s', f) == FileOf(s, f)
    {
      assert f in s'.files <==> f in s'.files - {tmp};
    }
    assert target in s'.files - {tmp};
    assert FileOf(s', env.backupPath) == FileOf(s, env.backupPath);
    assert FileOf(s', target) == FileOf(s, target) || FileOf(s', target) == Some(content);
  }

  lemma MidBackupIsCrashSafe(cfg: Config, w: World, s: World, planId: string, env: ApplyEnv, temps: set<string>)
    requires MayApply(cfg, w, planId) && MidBackup(w, s, env.backupPath) && env.backupPath != w.plans[planId].targetPath
    ensures CrashSafe(cfg, w, s, planId, env, temps)
  {
    forall f | f != env.backupPath
      ensures FileOf(s, f) == FileOf(w, f)
    {
      assert f in s.files <==> f in s.files - {env.backupPath};
    }
    assert w.plans == w.plans[planId := w.plans[planId]];
  }

  /** Once the target is restored, a state is safe if its plan is as before or failed. */
  lemma RestoredIsCrashSafe(cfg: Config, w: World, s: World, planId: string, env: ApplyEnv, temps: set<string>)
    requires MayApply(cfg, w, planId)
    requires FileOf(s, w.plans[planId].targetPath) == FileOf(w, w.plans[planId].targetPath)
    requires OthersKept(w, s, temps + {w.plans[planId].targetPath, env.backupPath})
    requires (s.plans == w.plans && Outcomes(s.events, planId) == Outcomes(w.events, planId))
             || (s.plans == w.plans[planId := w.plans[planId].(status := Failed)] && Outcomes(s.events, planId) <= Outcomes(w.events, planId) + 1)
    ensures CrashSafe(cfg, w, s, planId, env, temps)
  {
    assert w.plans == w.plans[planId := w.plans[planId]];
  }

  ghost predicate SafeFrom(cfg: Config, w: World, states: seq<World>, from: nat, planId: string, env: ApplyEnv, temps: set<string>)
    requires MayApply(cfg, w, planId)
  {
    forall k :: from <= k < |states| ==> CrashSafe(cfg, w, states[k], planId, env, temps)
  }

  /** Wherever an apply was interrupted, an operator gets the config back: either it is untouched, or
      rolling back the recorded backup restores its exact bytes. */
  lemma CrashIsRecoverable(cfg: Config, w: World, s: World, planId: string, env: ApplyEnv, temps: set<string>)
    requires MayApply(cfg, w, planId) && CrashSafe(cfg, w, s, planId, env, temps)
    ensures var target := w.plans[planId].targetPath;
      || FileOf(s, target) == FileOf(w, target)
      || (CanRestore(cfg, s, env.backupId) && FileOf(Rollback(cfg, s, env.backupId, NoFault), target) == FileOf(w, target))
  {
  }

  lemma SafeFromComposes(cfg: Config, w: World, early: seq<World>, states: seq<World>, from: nat,
                         planId: string, env: ApplyEnv, temps: set<string>)
    requires MayApply(cfg, w, planId) && early <= states && from <= |early|
    requires SafeFrom(cfg, w, early, from, planId, env, temps) && SafeFrom(cfg, w, states, |early|, planId, env, temps)
    ensures SafeFrom(cfg, w, states, from, planId, env, temps)
  {
    forall k | from <= k < |states|
      ensures CrashSafe(cfg, w, states[k], planId, env, temps)
    {
      assert k < |early| ==> states[k] == early[k];
    }
  }

  /** In the middle of an automatic authorization: the plan's row comes first, then the approval, then the
      event; files and backups are as before. */
  predicate MidAuthorize(w: World, s: World, planId: string)
    requires planId in w.plans
  {
    var authorized := Authorize(w, planId);
    && s.files == w.files && s.backups == w.backups && s.plans == authorized.plans
    && (s.approvals == w.approvals || s.approvals == authorized.approvals)
    && (s.events == w.events || s == authorized)
  }

  /** Where an automatic apply may be interrupted: after its refusal was recorded, during the
      authorization, or in the apply itself. */
  ghost predicate AutoCrashSafe(cfg: Config, w: World, s: World, planId: string, env: ApplyEnv, temps: set<string>) {
    && Loadable(w, planId)
    && if !Eligible(cfg, w, planId) then s == w.(events := w.events + [AutoApplyRejected(planId)])
       else
         || MidAuthorize(w, s, planId)
         || (MayApply(cfg, Authorize(w, planId), planId) && CrashSafe(cfg, Authorize(w, planId), s, planId, env, temps))
  }

  lemma AutoCrashIsRecoverable(cfg: Config, w: World, s: World, planId: string, env: ApplyEnv, temps: set<string>)
    requires AutoCrashSafe(cfg, w, s, planId, env, temps)
    ensures var target := w.plans[planId].targetPath;
      || FileOf(s, target) == FileOf(w, target)
      || (CanRestore(cfg, s, env.backupId) && FileOf(Rollback(cfg, s, env.backupId, NoFault), target) == FileOf(w, target))
  {
    if Eligible(cfg, w, planId) && !MidAuthorize(w, s, planId) {
      CrashIsRecoverable(cfg, Authorize(w, planId), s, planId, env, temps);
    }
  }

  /** An operator's approval or a recorded automatic authorization. */
  predicate HasAuthority(w: World, planId: string) {
    OperatorApproved(ApprovalOf(w, planId)) || Authorizations(w.events, planId) > 0
  }

  /** From its first write on, an interrupted authorization leaves a plan that an apply takes.  It has
      authority, and keeps it if it is then applied, exactly if the event was recorded; a pending or a
      missing approval makes no difference. */
  lemma InterruptedAuthorizationLeavesNoTrace(cfg: Config, w: World, s: World, planId: string, env: ApplyEnv)
    requires Remediation.Ok(w, planId) && Loadable(w, planId) && Eligible(cfg, w, planId) && MidAuthorize(w, s, planId)
    ensures MayApply(cfg, s, planId)
    ensures HasAuthority(s, planId) <==> s.events != w.events
    ensures var (w', end) := Apply(cfg, s, planId, env);
      && (HasAuthority(w', planId) <==> s.events != w.events)
      && (end == ApplySucceeded ==> planId in w'.plans && w'.plans[planId].status == Applied)
  {
    OneMoreEvent(w.events, AutoApplyAuthorized(planId), planId);
    assert |Authorize(w, planId).events| == |w.events| + 1;
    ApplyEffects(cfg, s, planId, env, planId);
  }

  class ControlPlane {
    const cfg: Config
    var files: map<string, Bytes>
    var plans: map<string, Plan>
    var approvals: map<string, Approval>
    var backups: map<string, Backup>
    var events: seq<Event>
    ghost var history: seq<World>  // every state the store was in since it was opened

    constructor (cfg: Config, files: map<string, Bytes>)
      ensures this.cfg == cfg && State() == Fresh(files) && history == []
    {
      this.cfg := cfg;
      this.files := files;
      plans, approvals, backups, events := map[], map[], map[], [];
      history := [];
    }

    function State(): World
      reads this
    {
      World(files, plans, approvals, backups, events)
    }

    ghost method Record()
      modifies this`history
      ensures history == old(history) + [State()]
    {
      history := history + [State()];
    }

    method AtomicWriteBytes(target: string, content: Bytes, tmp: string, fault: WriteFault) returns (written: bool)
      requires tmp !in files && tmp != target
      modifies this`files, this`history
      ensures files == AtomicWrite(old(files), target, content, fault) && written == (fault == NoFault)
      ensures files == if fault.BeforeReplace? then old(files) else old(files)[target := content]
      ensures old(history) <= history
      ensures forall k :: |old(history)| <= k < |history| ==> MidWrite(old(State()), history[k], target, content, tmp)
    {
      ghost var before := files;
      var sofar: nat := *;  // a crash may leave any part of the temporary file
      files := files[tmp := Prefix(content, sofar)];
      assert files - {tmp} == before;
      Record();
      if fault.BeforeReplace? {
        files := files - {tmp};
        assert files == before;
        return false;
      }
      files := files[tmp := content];
      assert files - {tmp} == before;
      Record();
      files := (files - {tmp})[target := content];
      assert files - {tmp} == before[target := content];
      Record();
      if fault.AfterReplace? {
        files := files - {tmp};  // already gone
        assert files == before[target := content];
        return false;
      }
      return true;
    }

    /** The backup file is written in place, not atomically. */
    method WriteBackupFile(content: Bytes, env: ApplyEnv) returns (written: bool)
      modifies this`files, this`history
      ensures written == env.backupWritten.None?
      ensures files == old(files)[env.backupPath := if written then content else Prefix(content, env.backupWritten.value)]
      ensures old(history) <= history
      ensures forall k :: |old(history)| <= k < |history| ==> MidBackup(old(State()), history[k], env.backupPath)
    {
      ghost var before := files;
      var sofar: nat := *;  // a crash may leave any part of the backup
      if env.backupWritten.Some? {
        sofar := env.backupWritten.value;
      }
      files := files[env.backupPath := Prefix(content, sofar)];
      assert files - {env.backupPath} == before - {env.backupPath};
      Record();
      if env.backupWritten.Some? {
        return false;
      }
      files := files[env.backupPath := content];
      assert files - {env.backupPath} == before - {env.backupPath};
      Record();
      return true;
    }

    /** The file comes first, then its row; an id that is taken is refused. */
    method CreateBackup(planId: string, target: string, content: Bytes, env: ApplyEnv) returns (created: bool)
      modifies this`files, this`backups, this`history
      ensures created == (env.backupWritten.None? && env.backupId !in old(backups))
      ensures files == old(files)[env.backupPath := if env.backupWritten.Some? then Prefix(content, env.backupWritten.value) else content]
      ensures backups == if created then old(backups)[env.backupId := Backup(planId, target, env.backupPath, cfg.sha256(content), false)]
                         else old(backups)
      ensures old(history) <= history
      ensures forall k :: |old(history)| <= k < |history| ==>
                MidBackup(old(State()), history[k], env.backupPath) || (created && history[k] == State())
    {
      var written := WriteBackupFile(content, env);
      if !written || env.backupId in backups {
        return false;
      }
      backups := backups[env.backupId := Backup(planId, target, env.backupPath, cfg.sha256(content), false)];
      Record();
      return true;
    }

    method RollbackBackup(backupId: string, tmp: string, fault: WriteFault) returns (restored: bool)
      requires tmp !in files && (backupId in backups ==> tmp != backups[backupId].targetPath)
      modifies this`files, this`backups, this`events, this`history
      ensures State() == Rollback(cfg, old(State()), backupId, fault)
      ensures restored == (CanRestore(cfg, old(State()), backupId) && fault == NoFault)
      ensures old(history) <= history
      ensures forall k :: |old(history)| <= k < |history| ==>
                && CanRestore(cfg, old(State()), backupId)
                && (var backup := old(backups)[backupId];
                    var content := old(files)[backup.backupPath];
                    || MidWrite(old(State()), history[k], backup.targetPath, content, tmp)
                    || (restored && history[k] == State().(events := history[k].events) && (history[k].events == old(events) || history[k] == State())))
    {
      if backupId !in backups {
        return false;
      }
      var backup := backups[backupId];
      if backup.backupPath !in files || cfg.sha256(files[backup.backupPath]) != backup.beforeHash {
        return false;
      }
      var written := AtomicWriteBytes(backup.targetPath, files[backup.backupPath], tmp, fault);
      if !written {
        return false;
      }
      backups := backups[backupId := backup.(restored := true)];
      Record();
      events := events + [RollbackCompleted(backup.planId, backupId)];
      Record();
      return true;
    }

    method MarkPlan(planId: string, status: PlanStatus)
      requires planId in plans
      modifies this`plans, this`history
      ensures State() == SetStatus(old(State()), planId, status)
      ensures history == old(history) + [State()]
    {
      plans := plans[planId := plans[planId].(status := status)];
      Record();
    }

    method Append(event: Event)
      modifies this`events, this`history
      ensures events == old(events) + [event]
      ensures history == old(history) + [State()]
    {
      events := events + [event];
      Record();
    }

    /** The rollback of the apply that began in w. */
    method UndoWrite(ghost w: World, planId: string, env: ApplyEnv, ghost temps: set<string>, tmp: string) returns (restored: bool)
      requires MayApply(cfg, w, planId) && InApply(cfg, w, State(), planId, env, temps)
      requires env.backupPath != w.plans[planId].targetPath
      requires tmp in temps && tmp !in files && tmp != w.plans[planId].targetPath && tmp != env.backupPath
      modifies this`files, this`backups, this`events, this`history
      ensures State() == Rollback(cfg, old(State()), env.backupId, env.rollbackWrite)
      ensures restored == (CanRestore(cfg, old(State()), env.backupId) && env.rollbackWrite == NoFault)
      ensures restored ==> FileOf(State(), w.plans[planId].targetPath) == FileOf(w, w.plans[planId].targetPath)
      ensures restored ==> OthersKept(w, State(), temps + {w.plans[planId].targetPath, env.backupPath})
      ensures plans == w.plans && Outcomes(events, planId) == Outcomes(w.events, planId)
      ensures old(history) <= history && SafeFrom(cfg, w, history, |old(history)|, planId, env, temps)
    {
      ghost var before := State();
      ghost var target := w.plans[planId].targetPath;
      restored := RollbackBackup(env.backupId, tmp, env.rollbackWrite);
      RollbackEffects(cfg, before, env.backupId, env.rollbackWrite, planId);
      forall k | |old(history)| <= k < |history|
        ensures CrashSafe(cfg, w, history[k], planId, env, temps)
      {
        if MidWrite(before, history[k], target, w.files[target], tmp) {
          MidWriteStaysInApply(cfg, w, before, history[k], planId, env, temps, w.files[target], tmp);
          InApplyIsCrashSafe(cfg, w, history[k], planId, env, temps);
        } else {
          assert history[k] == State().(events := history[k].events);
          RestoredIsCrashSafe(cfg, w, history[k], planId, env, temps);
        }
      }
    }

    /** The handler of whatever was raised after the backup was recorded in the apply that began in w. */
    method RecoverPlan(ghost w: World, planId: string, env: ApplyEnv, ghost temps: set<string>, tmp: string) returns (end: ApplyEnd)
      requires MayApply(cfg, w, planId) && InApply(cfg, w, State(), planId, env, temps)
      requires env.backupPath != w.plans[planId].targetPath
      requires tmp in temps && tmp !in files && tmp != w.plans[planId].targetPath && tmp != env.backupPath
      modifies this
      ensures (State(), end) == Recover(cfg, old(State()), planId, env)
      ensures old(history) <= history && SafeFrom(cfg, w, history, |old(history)|, planId, env, temps)
    {
      var restored := UndoWrite(w, planId, env, temps, tmp);
      if !restored {
        return RollbackRaised;
      }
      MarkPlan(planId, Failed);
      RestoredIsCrashSafe(cfg, w, State(), planId, env, temps);
      OneMoreEvent(events, RemediationFailed(planId), planId);
      Append(RemediationFailed(planId));
      RestoredIsCrashSafe(cfg, w, State(), planId, env, temps);
      return ApplyRestored;
    }

    /** The config write of the apply that began in w, up to the verification. */
    method TryRewrite(ghost w: World, planId: string, before: Bytes, env: ApplyEnv, ghost temps: set<string>, tmp: string) returns (verified: bool)
      requires MayApply(cfg, w, planId) && InApply(cfg, w, State(), planId, env, temps)
      requires planId in plans && before == w.files[w.plans[planId].targetPath]
      requires env.backupPath != w.plans[planId].targetPath
      requires tmp in temps && tmp !in files && tmp != w.plans[planId].targetPath && tmp != env.backupPath
      modifies this`files, this`history
      ensures State() == Attempted(cfg, old(State()), w.plans[planId], before, env)
      ensures verified == WriteSucceeds(cfg, w.plans[planId], before, env)
      ensures InApply(cfg, w, State(), planId, env, temps)
      ensures old(history) <= history && SafeFrom(cfg, w, history, |old(history)|, planId, env, temps)
    {
      ghost var start := State();
      var plan := plans[planId];
      var after := cfg.rewrite(plan.edit, before);
      if after.None? {
        return false;
      }
      var written := AtomicWriteBytes(plan.targetPath, after.value, tmp, env.write);
      forall k | |old(history)| <= k < |history|
        ensures CrashSafe(cfg, w, history[k], planId, env, temps)
      {
        MidWriteStaysInApply(cfg, w, start, history[k], planId, env, temps, after.value, tmp);
        InApplyIsCrashSafe(cfg, w, history[k], planId, env, temps);
      }
      assert MidWrite(start, State(), plan.targetPath, after.value, tmp) by {
        assert start.files - {tmp} == start.files;
        assert start.files[plan.targetPath := after.value] - {tmp} == start.files[plan.targetPath := after.value];
      }
      MidWriteStaysInApply(cfg, w, start, State(), planId, env, temps, after.value, tmp);
      return written && env.validatorPasses && cfg.verified(plan.edit, files[plan.targetPath]);
    }

    /** The backup of the apply that begins now. */
    method BeginApply(planId: string, env: ApplyEnv, ghost temps: set<string>) returns (saved: bool)
      requires MayApply(cfg, State(), planId) && env.backupPath != plans[planId].targetPath
      modifies this`files, this`backups, this`history
      ensures saved == (env.backupWritten.None? && env.backupId !in old(backups))
      ensures saved ==> State() == WithBackup(cfg, old(State()), planId, env)
      ensures saved ==> InApply(cfg, old(State()), State(), planId, env, temps)
      ensures !saved ==> State() == old(State()).(files := files)
      ensures !saved ==> (State(), BackupFailed) == Apply(cfg, old(State()), planId, env)
      ensures old(history) <= history && SafeFrom(cfg, old(State()), history, |old(history)|, planId, env, temps)
    {
      ghost var w := State();
      var target := plans[planId].targetPath;
      saved := CreateBackup(planId, target, files[target], env);
      forall k | |old(history)| <= k < |history|
        ensures CrashSafe(cfg, w, history[k], planId, env, temps)
      {
        if MidBackup(w, history[k], env.backupPath) {
          MidBackupIsCrashSafe(cfg, w, history[k], planId, env, temps);
        } else {
          InApplyIsCrashSafe(cfg, w, history[k], planId, env, temps);
        }
      }
    }

    /** The end of the apply that began in w and whose rewrite was verified. */
    method FinishApply(ghost w: World, planId: string, env: ApplyEnv, ghost temps: set<string>)
      requires MayApply(cfg, w, planId) && InApply(cfg, w, State(), planId, env, temps) && planId in plans
      requires FileOf(State(), w.plans[planId].targetPath) == Planned(cfg, w, planId)
      requires cfg.verified(w.plans[planId].edit, Planned(cfg, w, planId).value)
      modifies this`plans, this`events, this`history
      ensures State() == SetStatus(old(State()).(events := w.events + [RemediationApplied(planId)]), planId, Applied)
      ensures old(history) <= history && SafeFrom(cfg, w, history, |old(history)|, planId, env, temps)
    {
      MarkPlan(planId, Applied);
      OneMoreEvent(events, RemediationApplied(planId), planId);
      Append(RemediationApplied(planId));
    }

    /** Both temporary files have names of their own; the backup does not overwrite its target. */
    method ApplyPlan(planId: string, env: ApplyEnv, tmp: string, rollbackTmp: string) returns (end: ApplyEnd)
      requires planId in plans ==> plans[planId].targetPath !in {tmp, rollbackTmp, env.backupPath}
      requires {tmp, rollbackTmp} !! files.Keys + {env.backupPath}
      modifies this
      ensures (State(), end) == Apply(cfg, old(State()), planId, env)
      ensures old(history) <= history
      ensures if MayApply(cfg, old(State()), planId)
              then SafeFrom(cfg, old(State()), history, |old(history)|, planId, env, {tmp, rollbackTmp})
              else history == old(history)
    {
      if !MayApply(cfg, State(), planId) {
        return Refused;
      }
      ghost var w := State();
      ghost var temps := {tmp, rollbackTmp};
      var before := files[plans[planId].targetPath];
      var saved := BeginApply(planId, env, temps);
      if !saved {
        return BackupFailed;
      }
      ghost var begun := history;
      var verified := TryRewrite(w, planId, before, env, temps, tmp);
      SafeFromComposes(cfg, w, begun, history, |old(history)|, planId, env, temps);
      ghost var tried := history;
      if verified {
        FinishApply(w, planId, env, temps);
        end := ApplySucceeded;
      } else {
        end := RecoverPlan(w, planId, env, temps, rollbackTmp);
      }
      SafeFromComposes(cfg, w, tried, history, |old(history)|, planId, env, temps);
    }

    // The next three methods are single steps.

    method InsertRemediationPlan(planId: string, plan: Plan) returns (inserted: bool)
      modifies this`plans
      ensures State() == InsertPlan(old(State()), planId, plan)
      ensures inserted == (planId !in old(plans))
    {
      if planId in plans {
        return false;
      }
      plans := plans[planId := plan.(status := PendingApproval, approvalRequired := true)];
      return true;
    }

    method CreatePendingApproval(planId: string, channel: string)
      modifies this`approvals
      ensures State() == CreatePending(old(State()), planId, channel)
    {
      if planId !in plans || !plans[planId].approvalRequired || planId in approvals {
        return;
      }
      approvals := approvals[planId := Approval(IsPending, channel)];
    }

    method DecideApproval(planId: string, approve: bool, channel: string) returns (decided: bool)
      modifies this`plans, this`approvals, this`events
      ensures State() == Decide(old(State()), planId, approve, channel)
      ensures decided == (old(State()) != State())
    {
      if channel !in DECISION_CHANNELS || planId !in approvals || approvals[planId].state != IsPending {
        return false;
      }
      if planId !in plans || !plans[planId].approvalRequired {
        return false;
      }
      approvals := approvals[planId := Approval(if approve then IsApproved else IsRejected, channel)];
      plans := plans[planId := plans[planId].(status := if approve then Approved else Rejected)];
      events := events + [ApprovalDecided(planId, approve)];
      return true;
    }

    method AuthorizeAutoApply(planId: string)
      requires planId in plans
      modifies this`plans, this`approvals, this`events, this`history
      ensures State() == Authorize(old(State()), planId)
      ensures old(history) <= history
      ensures forall k :: |old(history)| <= k < |history| ==> MidAuthorize(old(State()), history[k], planId)
    {
      plans := plans[planId := plans[planId].(approvalRequired := false, status := Approved)];
      Record();
      if planId !in approvals {
        approvals := approvals[planId := Approval(NotRequired, "auto_policy")];
        Record();
      }
      Append(AutoApplyAuthorized(planId));
    }

    method AutoApplyPlan(planId: string, env: ApplyEnv, tmp: string, rollbackTmp: string)
      requires planId in plans ==> plans[planId].targetPath !in {tmp, rollbackTmp, env.backupPath}
      requires {tmp, rollbackTmp} !! files.Keys + {env.backupPath}
      modifies this
      ensures State() == AutoApply(cfg, old(State()), planId, env)
      ensures old(history) <= history
      ensures forall k :: |old(history)| <= k < |history| ==> AutoCrashSafe(cfg, old(State()), history[k], planId, env, {tmp, rollbackTmp})
    {
      if !Loadable(State(), planId) {
        return;
      }
      if !Eligible(cfg, State(), planId) {
        Append(AutoApplyRejected(planId));
        return;
      }
      AuthorizeAutoApply(planId);
      ghost var authorized := history;
      var _ := ApplyPlan(planId, env, tmp, rollbackTmp);
      assert forall k :: |old(history)| <= k < |authorized| ==> history[k] == authorized[k];
    }
  }
}
