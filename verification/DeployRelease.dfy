/** The deployment orchestrator of `scripts/deploy_release.py`. Every command and every reply is an
    event; `Next` says which events the protocol allows and where they lead. The polling loops are
    written as the loops they are, against replies and clock readings nobody controls, and are
    proved to follow the protocol; what a run guarantees is then proved of every allowed trace. */
module DeployRelease {
  import opened Wrappers

  datatype Condition = Condition(kind: string, status: string)

  /** What `kubectl get job -o json` shows; `uid` is "" when the field is absent. */
  datatype JobView = JobView(uid: string, conditions: seq<Condition>, deleting: bool)

  datatype JobState = Failed | Complete

  datatype GetReply = NotFound | GetError | Found(job: JobView)

  datatype Pod = Pod(name: string, phase: string)
  datatype PodsReply = ListError | Listed(pods: seq<Pod>)

  /** `Made` carries the stripped output of `kubectl create`; nothing forces it to be non-empty. */
  datatype CreateReply = Made(uid: string) | CreateError

  datatype Manifest = Application | Supporting | MigrationJob

  /** `expired` is the clock comparison that follows a poll. */
  datatype Event =
    | DryRun(what: Manifest, ok: bool)
    | GotJob(reply: GetReply, expired: bool)
    | Diagnosed
    | Deleted(ok: bool)
    | ListedPods(pods: PodsReply, expired: bool)
    | Applied(what: Manifest, ok: bool)
    | Created(made: CreateReply)
    | Registered(ok: bool)
    | RolledOut(ok: bool)
    | Smoked(ok: bool)

  datatype Reason =
    | CommandFailed | CannotInspect | MigrationActive | SlotReplaced | SlotNotFreed | PodsStillRunning
    | MigrationFailed | MigrationTimeout | MigrationReplaced | MigrationDisappeared
    | RegistrationFailed | ApplyFailed | RolloutFailed | SmokeFailed

  datatype Config = Config(supporting: bool, registers: bool, deployments: nat)

  datatype Phase =
    | CheckApplication
    | CheckSupporting
    | Inspect
    | Evidence(uid: string)
    | Delete(uid: string)
    | AwaitGone(uid: string)
    | AwaitPods
    | CheckJob
    | ApplySupporting
    | Create
    | AwaitJob(uid: string)
    | Diagnose(timedOut: bool)
    | Register
    | ApplyApplication
    | Rollout(left: nat)
    | Smoke
    | Succeeded
    | Stopped(why: Reason)

  // ---------- Reading replies ----------

  predicate Has(conditions: seq<Condition>, kind: string)
  {
    exists i :: 0 <= i < |conditions| && conditions[i] == Condition(kind, "True")
  }

  /** `job_state`: a failure, even one still being carried out, outranks completion. */
  function StateOf(job: JobView): Option<JobState>
  {
    if Has(job.conditions, "Failed") || Has(job.conditions, "FailureTarget") then Some(Failed)
    else if Has(job.conditions, "Complete") then Some(Complete)
    else None
  }

  /** The three conditions, and nothing else about a Job, decide its state. */
  lemma StateOfMeans(job: JobView)
    ensures StateOf(job) == Some(Failed) <==>
            Condition("Failed", "True") in job.conditions || Condition("FailureTarget", "True") in job.conditions
    ensures StateOf(job) == Some(Complete) <==>
            && Condition("Complete", "True") in job.conditions
            && Condition("Failed", "True") !in job.conditions
            && Condition("FailureTarget", "True") !in job.conditions
  {
  }

  predicate StillRunning(p: Pod)
  {
    p.phase != "Succeeded" && p.phase != "Failed"
  }

  ghost function RunningOnly(pods: seq<Pod>): seq<Pod>
  {
    if pods == [] then []
    else RunningOnly(pods[..|pods| - 1]) + if StillRunning(pods[|pods| - 1]) then [pods[|pods| - 1]] else []
  }

  // ---------- The protocol ----------

  function AfterMigration(cfg: Config): Phase
  {
    if cfg.registers then Register else ApplyApplication
  }

  function RolloutFrom(n: nat): Phase
  {
    if n == 0 then Smoke else Rollout(n)
  }

  predicate IsDryRun(e: Event, what: Manifest) { e.DryRun? && e.what == what }
  predicate IsApply(e: Event, what: Manifest) { e.Applied? && e.what == what }

  /** `clear_previous_migration`, the first look at the slot. */
  function FirstLook(reply: GetReply): Phase
  {
    match reply
    case NotFound => AwaitPods
    case GetError => Stopped(CannotInspect)
    case Found(job) =>
      match StateOf(job)
      case None => if job.deleting then AwaitGone(job.uid) else Stopped(MigrationActive)
      case Some(Failed) => Evidence(job.uid)
      case Some(Complete) => Delete(job.uid)
  }

  /** `clear_previous_migration`, one poll for the Job to go. */
  function GonePoll(uid: string, reply: GetReply, expired: bool): Phase
  {
    if reply.NotFound? then AwaitPods
    else if reply.Found? && reply.job.uid != uid then Stopped(SlotReplaced)
    else if expired then Stopped(SlotNotFreed)
    else AwaitGone(uid)
  }

  predicate NoneRunning(pods: seq<Pod>)
  {
    forall i :: 0 <= i < |pods| ==> !StillRunning(pods[i])
  }

  /** `wait_for_migration_pods`, one poll. */
  function PodsPoll(reply: PodsReply, expired: bool): Phase
  {
    if reply.Listed? && NoneRunning(reply.pods) then CheckJob
    else if expired then Stopped(PodsStillRunning)
    else AwaitPods
  }

  /** `wait_for_job`, one poll. With an empty `uid` the identity checks are skipped. */
  function JobPoll(cfg: Config, uid: string, reply: GetReply, expired: bool): Phase
  {
    if uid != "" && reply.NotFound? then Stopped(MigrationDisappeared)
    else if uid != "" && reply.Found? && reply.job.uid != uid then Stopped(MigrationReplaced)
    else if reply.Found? && StateOf(reply.job) == Some(Complete) then AfterMigration(cfg)
    else if reply.Found? && StateOf(reply.job) == Some(Failed) then Diagnose(false)
    else if uid != "" && reply.Found? && reply.job.deleting then Stopped(MigrationDisappeared)
    else if expired then Diagnose(true)
    else AwaitJob(uid)
  }

  /** Where an event leads, or `None` when the orchestrator does not do that in this phase. */
  function Next(cfg: Config, phase: Phase, e: Event): Option<Phase>
  {
    match phase
    case CheckApplication =>
      if !IsDryRun(e, Application) then None
      else Some(if !e.ok then Stopped(CommandFailed) else if cfg.supporting then CheckSupporting else Inspect)
    case CheckSupporting =>
      if !IsDryRun(e, Supporting) then None else Some(if e.ok then Inspect else Stopped(CommandFailed))
    case Inspect => if e.GotJob? then Some(FirstLook(e.reply)) else None
    case Evidence(uid) => if e.Diagnosed? then Some(Delete(uid)) else None
    case Delete(uid) =>
      if e.Deleted? then Some(if e.ok then AwaitGone(uid) else Stopped(CommandFailed)) else None
    case AwaitGone(uid) => if e.GotJob? then Some(GonePoll(uid, e.reply, e.expired)) else None
    case AwaitPods => if e.ListedPods? then Some(PodsPoll(e.pods, e.expired)) else None
    case CheckJob =>
      if !IsDryRun(e, MigrationJob) then None
      else Some(if !e.ok then Stopped(CommandFailed) else if cfg.supporting then ApplySupporting else Create)
    case ApplySupporting =>
      if !IsApply(e, Supporting) then None else Some(if e.ok then Create else Stopped(CommandFailed))
    case Create =>
      if !e.Created? then None
      else Some(if e.made.Made? then AwaitJob(e.made.uid) else Stopped(CommandFailed))
    case AwaitJob(uid) => if e.GotJob? then Some(JobPoll(cfg, uid, e.reply, e.expired)) else None
    case Diagnose(timedOut) =>
      if e.Diagnosed? then Some(Stopped(if timedOut then MigrationTimeout else MigrationFailed)) else None
    case Register =>
      if e.Registered? then Some(if e.ok then ApplyApplication else Stopped(RegistrationFailed)) else None
    case ApplyApplication =>
      if !IsApply(e, Application) then None
      else Some(if e.ok then RolloutFrom(cfg.deployments) else Stopped(ApplyFailed))
    case Rollout(n) =>
      if !e.RolledOut? then None
      else Some(if !e.ok then Stopped(RolloutFailed) else if n <= 1 then Smoke else Rollout(n - 1))
    case Smoke => if e.Smoked? then Some(if e.ok then Succeeded else Stopped(SmokeFailed)) else None
    case Succeeded => None
    case Stopped(_) => None
  }

  /** The phase a trace leads to, `None` when the protocol does not allow the trace. */
  ghost function Run(cfg: Config, trace: seq<Event>): Option<Phase>
  {
    if trace == [] then Some(CheckApplication)
    else
      var before := Run(cfg, trace[..|trace| - 1]);
      if before.None? then None else Next(cfg, before.value, trace[|trace| - 1])
  }

  lemma RunExtends(cfg: Config, trace: seq<Event>, e: Event)
    requires Run(cfg, trace).Some?
    ensures Run(cfg, trace + [e]) == Next(cfg, Run(cfg, trace).value, e)
  {
    assert (trace + [e])[..|trace|] == trace;
  }

  lemma {:induction false} PrefixAllowed(cfg: Config, trace: seq<Event>, n: nat)
    requires n <= |trace| && Run(cfg, trace).Some?
    ensures Run(cfg, trace[..n]).Some?
    ensures n < |trace| ==> Run(cfg, trace[..n + 1]).Some?
    ensures n < |trace| ==> Run(cfg, trace[..n + 1]) == Next(cfg, Run(cfg, trace[..n]).value, trace[n])
  {
    if n == |trace| {
      assert trace[..n] == trace;
    } else if n == |trace| - 1 {
      assert trace[..n + 1] == trace;
    } else {
      var init := trace[..|trace| - 1];
      PrefixAllowed(cfg, init, n);
      assert init[..n] == trace[..n] && init[..n + 1] == trace[..n + 1];
    }
  }

  // ---------- What single replies say, on the words of the cluster ----------

  /** The reply shows the Job `uid`, any Job if `uid` is "". */
  predicate ShowsJob(e: Event, uid: string)
  {
    e.GotJob? && e.reply.Found? && (uid == "" || e.reply.job.uid == uid)
  }

  predicate SeesFailure(e: Event, uid: string)
  {
    && ShowsJob(e, uid)
    && (Condition("Failed", "True") in e.reply.job.conditions
        || Condition("FailureTarget", "True") in e.reply.job.conditions)
  }

  predicate SeesCompletion(e: Event, uid: string)
  {
    && ShowsJob(e, uid)
    && Condition("Complete", "True") in e.reply.job.conditions
    && Condition("Failed", "True") !in e.reply.job.conditions
    && Condition("FailureTarget", "True") !in e.reply.job.conditions
  }

  ghost predicate ListsOnlyEnded(e: Event)
  {
    && e.ListedPods? && e.pods.Listed?
    && forall p :: p in e.pods.pods ==> p.phase == "Succeeded" || p.phase == "Failed"
  }

  // ---------- The cluster, as the orchestrator reaches it ----------

  /** Each command and its reply goes to the log. The cluster, the clock and the hooks answer
      anything at all. */
  class Kubectl {
    ghost var log: seq<Event>

    constructor ()
      ensures log == []
    {
      log := [];
    }

    method TryApply(what: Manifest) returns (ok: bool)
      modifies this
      ensures log == old(log) + [DryRun(what, ok)]
    {
      ok := *;
      log := log + [DryRun(what, ok)];
    }

    method Apply(what: Manifest) returns (ok: bool)
      modifies this
      ensures log == old(log) + [Applied(what, ok)]
    {
      ok := *;
      log := log + [Applied(what, ok)];
    }

    method GetJob() returns (reply: GetReply, expired: bool)
      modifies this
      ensures log == old(log) + [GotJob(reply, expired)]
    {
      reply, expired := *, *;
      log := log + [GotJob(reply, expired)];
    }

    method ListPods() returns (reply: PodsReply, expired: bool)
      modifies this
      ensures log == old(log) + [ListedPods(reply, expired)]
    {
      reply, expired := *, *;
      log := log + [ListedPods(reply, expired)];
    }

    method CollectDiagnostics()
      modifies this
      ensures log == old(log) + [Diagnosed]
    {
      log := log + [Diagnosed];
    }

    method DeleteJob() returns (ok: bool)
      modifies this
      ensures log == old(log) + [Deleted(ok)]
    {
      ok := *;
      log := log + [Deleted(ok)];
    }

    method CreateJob() returns (made: CreateReply)
      modifies this
      ensures log == old(log) + [Created(made)]
    {
      made := *;
      log := log + [Created(made)];
    }

    method RegisterRelease() returns (ok: bool)
      modifies this
      ensures log == old(log) + [Registered(ok)]
    {
      ok := *;
      log := log + [Registered(ok)];
    }

    method AwaitRollout() returns (ok: bool)
      modifies this
      ensures log == old(log) + [RolledOut(ok)]
    {
      ok := *;
      log := log + [RolledOut(ok)];
    }

    method RunSmoke() returns (ok: bool)
      modifies this
      ensures log == old(log) + [Smoked(ok)]
    {
      ok := *;
      log := log + [Smoked(ok)];
    }
  }

  // ---------- The orchestrator ----------

  /** How a stage ended: go on to the next one, stop the deployment, or the process was killed. */
  datatype Stage = Go | Stop(why: Reason) | Killed

  /** A stage ends in `next`, in the reason it reports, or is killed after `polls` polls or more. */
  ghost predicate Ends(cfg: Config, before: seq<Event>, log: seq<Event>, stage: Stage, next: Phase, polls: nat)
  {
    && before <= log
    && match stage
       case Go => Run(cfg, log) == Some(next)
       case Stop(why) => Run(cfg, log) == Some(Stopped(why))
       case Killed => Run(cfg, log).Some? && |log| >= |before| + polls
  }

  /** `_running_migration_pods` */
  method RunningMigrationPods(pods: seq<Pod>) returns (running: seq<Pod>)
    ensures running == RunningOnly(pods)
    ensures running == [] <==> NoneRunning(pods)
    ensures forall p :: p in running <==> p in pods && p.phase != "Succeeded" && p.phase != "Failed"
  {
    running := [];
    for i := 0 to |pods|
      invariant running == RunningOnly(pods[..i])
      invariant running == [] <==> forall k :: 0 <= k < i ==> !StillRunning(pods[k])
      invariant forall p :: p in running <==> p in pods[..i] && p.phase != "Succeeded" && p.phase != "Failed"
    {
      assert pods[..i + 1][..i] == pods[..i];
      if pods[i].phase != "Succeeded" && pods[i].phase != "Failed" {
        running := running + [pods[i]];
      }
    }
    assert pods[..|pods|] == pods;
  }

  /** `clear_previous_migration`. `polls` bounds how long the process lives, not what it sees. */
  method ClearPreviousMigration(cfg: Config, kube: Kubectl, polls: nat) returns (stage: Stage)
    requires Run(cfg, kube.log) == Some(Inspect)
    modifies kube
    ensures Ends(cfg, old(kube.log), kube.log, stage, AwaitPods, polls)
    ensures stage.Go? ==> |kube.log| > 0 && kube.log[|kube.log| - 1].GotJob? && kube.log[|kube.log| - 1].reply.NotFound?
  {
    hide Run;
    var first, late := kube.GetJob();
    RunExtends(cfg, old(kube.log), GotJob(first, late));
    if first.NotFound? {
      return Go;
    }
    if first.GetError? {
      return Stop(CannotInspect);
    }
    var state := StateOf(first.job);
    var uid := first.job.uid;
    if state.None? && !first.job.deleting {
      return Stop(MigrationActive);
    }
    if state.Some? {
      if state.value.Failed? {
        RunExtends(cfg, kube.log, Diagnosed);
        kube.CollectDiagnostics();
      }
      ghost var before := kube.log;
      var ok := kube.DeleteJob();
      RunExtends(cfg, before, Deleted(ok));
      if !ok {
        return Stop(CommandFailed);
      }
    }
    var left := polls;
    while left > 0
      invariant old(kube.log) <= kube.log && Run(cfg, kube.log) == Some(AwaitGone(uid))
      invariant left <= polls && |kube.log| >= |old(kube.log)| + (polls - left)
    {
      ghost var before := kube.log;
      var reply, expired := kube.GetJob();
      RunExtends(cfg, before, GotJob(reply, expired));
      if reply.NotFound? {
        return Go;
      }
      if reply.Found? && reply.job.uid != uid {
        return Stop(SlotReplaced);
      }
      if expired {
        return Stop(SlotNotFreed);
      }
      left := left - 1;
    }
    return Killed;
  }

  /** `wait_for_migration_pods` */
  method WaitForMigrationPods(cfg: Config, kube: Kubectl, polls: nat) returns (stage: Stage)
    requires Run(cfg, kube.log) == Some(AwaitPods)
    modifies kube
    ensures Ends(cfg, old(kube.log), kube.log, stage, CheckJob, polls)
    ensures stage.Go? ==> |kube.log| > 0 && ListsOnlyEnded(kube.log[|kube.log| - 1])
  {
    hide Run, RunningOnly;
    var left := polls;
    while left > 0
      invariant old(kube.log) <= kube.log && Run(cfg, kube.log) == Some(AwaitPods)
      invariant left <= polls && |kube.log| >= |old(kube.log)| + (polls - left)
    {
      ghost var before := kube.log;
      var reply, expired := kube.ListPods();
      RunExtends(cfg, before, ListedPods(reply, expired));
      if reply.Listed? {
        var running := RunningMigrationPods(reply.pods);
        if running == [] {
          assert forall p :: p in reply.pods ==> p !in running;
          return Go;
        }
      }
      if expired {
        return Stop(PodsStillRunning);
      }
      left := left - 1;
    }
    return Killed;
  }

  /** `wait_for_job` and the success guard that follows it. */
  method WaitForJob(cfg: Config, kube: Kubectl, uid: string, polls: nat) returns (stage: Stage)
    requires Run(cfg, kube.log) == Some(AwaitJob(uid))
    modifies kube
    ensures Ends(cfg, old(kube.log), kube.log, stage, AfterMigration(cfg), polls)
    ensures stage.Go? ==> |kube.log| > 0 && SeesCompletion(kube.log[|kube.log| - 1], uid)
    ensures stage == Stop(MigrationFailed) ==> |kube.log| > 1 && SeesFailure(kube.log[|kube.log| - 2], uid)
  {
    hide Run;
    var left := polls;
    while left > 0
      invariant old(kube.log) <= kube.log && Run(cfg, kube.log) == Some(AwaitJob(uid))
      invariant left <= polls && |kube.log| >= |old(kube.log)| + (polls - left)
    {
      ghost var before := kube.log;
      var reply, expired := kube.GetJob();
      RunExtends(cfg, before, GotJob(reply, expired));
      var state := if reply.Found? then StateOf(reply.job) else None;
      if reply.Found? { StateOfMeans(reply.job); }
      if uid != "" && reply.NotFound? {
        return Stop(MigrationDisappeared);
      }
      if reply.Found? && uid != "" && reply.job.uid != uid {
        return Stop(MigrationReplaced);
      }
      if state == Some(Complete) {
        return Go;
      }
      if state == Some(Failed) {
        RunExtends(cfg, kube.log, Diagnosed);
        kube.CollectDiagnostics();
        return Stop(MigrationFailed);
      }
      if uid != "" && reply.Found? && reply.job.deleting {
        return Stop(MigrationDisappeared);
      }
      if expired {
        RunExtends(cfg, kube.log, Diagnosed);
        kube.CollectDiagnostics();
        return Stop(MigrationTimeout);
      }
      left := left - 1;
    }
    return Killed;
  }

  /** The server-side dry runs of the application and the supporting objects. */
  method CheckManifests(cfg: Config, kube: Kubectl) returns (stage: Stage)
    requires Run(cfg, kube.log) == Some(CheckApplication)
    modifies kube
    ensures Ends(cfg, old(kube.log), kube.log, stage, Inspect, 0) && !stage.Killed?
  {
    hide Run;
    var ok := kube.TryApply(Application);
    RunExtends(cfg, old(kube.log), DryRun(Application, ok));
    if !ok { return Stop(CommandFailed); }
    if cfg.supporting {
      ghost var before := kube.log;
      ok := kube.TryApply(Supporting);
      RunExtends(cfg, before, DryRun(Supporting, ok));
      if !ok { return Stop(CommandFailed); }
    }
    return Go;
  }

  /** Validate, apply the supporting objects, create (never adopt) the Job. */
  method StartMigration(cfg: Config, kube: Kubectl) returns (stage: Stage, uid: string)
    requires Run(cfg, kube.log) == Some(CheckJob)
    modifies kube
    ensures Ends(cfg, old(kube.log), kube.log, stage, AwaitJob(uid), 0) && !stage.Killed?
  {
    hide Run;
    uid := "";
    var ok := kube.TryApply(MigrationJob);
    RunExtends(cfg, old(kube.log), DryRun(MigrationJob, ok));
    if !ok { return Stop(CommandFailed), ""; }
    if cfg.supporting {
      ghost var before := kube.log;
      ok := kube.Apply(Supporting);
      RunExtends(cfg, before, Applied(Supporting, ok));
      if !ok { return Stop(CommandFailed), ""; }
    }
    ghost var ready := kube.log;
    var made := kube.CreateJob();
    RunExtends(cfg, ready, Created(made));
    if made.CreateError? { return Stop(CommandFailed), ""; }
    return Go, made.uid;
  }

  /** Register, apply the application, wait for every Deployment, smoke. */
  method RollOut(cfg: Config, kube: Kubectl) returns (stage: Stage)
    requires Run(cfg, kube.log) == Some(AfterMigration(cfg))
    modifies kube
    ensures Ends(cfg, old(kube.log), kube.log, stage, Succeeded, 0) && !stage.Killed?
  {
    hide Run;
    var ok: bool;
    ghost var before := kube.log;
    if cfg.registers {
      ok := kube.RegisterRelease();
      RunExtends(cfg, before, Registered(ok));
      if !ok { return Stop(RegistrationFailed); }
    }
    before := kube.log;
    ok := kube.Apply(Application);
    RunExtends(cfg, before, Applied(Application, ok));
    if !ok { return Stop(ApplyFailed); }
    for i := 0 to cfg.deployments
      invariant old(kube.log) <= kube.log
      invariant Run(cfg, kube.log) == Some(RolloutFrom(cfg.deployments - i))
    {
      before := kube.log;
      ok := kube.AwaitRollout();
      RunExtends(cfg, before, RolledOut(ok));
      if !ok { return Stop(RolloutFailed); }
    }
    before := kube.log;
    ok := kube.RunSmoke();
    RunExtends(cfg, before, Smoked(ok));
    if !ok { return Stop(SmokeFailed); }
    return Go;
  }

  /** `run_deployment`: whatever the cluster answers, what is done to it is a trace the protocol
      allows; the run reports success exactly at the protocol's end, and otherwise the reason the
      protocol stopped for. */
  method RunDeployment(cfg: Config, kube: Kubectl, polls: nat) returns (stage: Stage)
    requires kube.log == []
    modifies kube
    ensures Ends(cfg, [], kube.log, stage, Succeeded, polls)
  {
    assert Run(cfg, []) == Some(CheckApplication);
    hide Run, Next;
    var uid: string;
    stage := CheckManifests(cfg, kube);
    if !stage.Go? { return; }
    stage := ClearPreviousMigration(cfg, kube, polls);
    if !stage.Go? { return; }
    stage := WaitForMigrationPods(cfg, kube, polls);
    if !stage.Go? { return; }
    stage, uid := StartMigration(cfg, kube);
    if !stage.Go? { return; }
    stage := WaitForJob(cfg, kube, uid, polls);
    if !stage.Go? { return; }
    stage := RollOut(cfg, kube);
  }

  // ---------- What every allowed trace guarantees ----------

  /** Phases that lie after the migration-success guard. */
  predicate PastGuard(p: Phase)
  {
    p.Register? || p.ApplyApplication? || p.Rollout? || p.Smoke? || p.Succeeded?
    || (p.Stopped? && (p.why.RegistrationFailed? || p.why.ApplyFailed? || p.why.RolloutFailed? || p.why.SmokeFailed?))
  }

  predicate AppliesApplication(e: Event)
  {
    e.Applied? && e.what.Application?
  }

  predicate CompleteReply(e: Event)
  {
    e.GotJob? && e.reply.Found? && StateOf(e.reply.job) == Some(Complete)
  }

  /** Event `c` created the Job `uid`; event `o`, later, saw a Job complete. */
  ghost predicate CreatedThenComplete(trace: seq<Event>, c: int, o: int, uid: string)
  {
    && 0 <= c < o < |trace|
    && trace[c] == Created(Made(uid))
    && CompleteReply(trace[o])
    && (uid != "" ==> trace[o].reply.job.uid == uid)
  }

  ghost predicate Guarded(trace: seq<Event>)
  {
    exists c, o, uid :: CreatedThenComplete(trace, c, o, uid)
  }

  /** What a trace must contain by the time it is in a given phase. */
  ghost predicate Earned(trace: seq<Event>, p: Phase)
  {
    && (p.AwaitJob? ==> exists c :: 0 <= c < |trace| && trace[c] == Created(Made(p.uid)))
    && (PastGuard(p) ==> Guarded(trace))
    && (!PastGuard(p) ==> forall i :: 0 <= i < |trace| ==> !AppliesApplication(trace[i]))
  }

  lemma WhatPassesGuard(cfg: Config, p: Phase, e: Event)
    requires Next(cfg, p, e).Some?
    ensures var q := Next(cfg, p, e).value;
            && (q.AwaitJob? ==> e == Created(Made(q.uid)) || p == q)
            && (PastGuard(q) && !PastGuard(p) ==>
                  p.AwaitJob? && CompleteReply(e) && (p.uid != "" ==> e.reply.job.uid == p.uid))
            && (AppliesApplication(e) || PastGuard(p) ==> PastGuard(q))
  {
  }

  lemma EarnedStep(cfg: Config, trace: seq<Event>, p: Phase, e: Event)
    requires Earned(trace, p) && Next(cfg, p, e).Some?
    ensures Earned(trace + [e], Next(cfg, p, e).value)
  {
    hide Next, PastGuard, CompleteReply, AppliesApplication;
    WhatPassesGuard(cfg, p, e);
    var longer, q := trace + [e], Next(cfg, p, e).value;
    if q.AwaitJob? {
      if e == Created(Made(q.uid)) {
        assert longer[|trace|] == Created(Made(q.uid));
      } else {
        var c :| 0 <= c < |trace| && trace[c] == Created(Made(p.uid));
        assert longer[c] == Created(Made(q.uid));
      }
    }
    if PastGuard(q) {
      if PastGuard(p) {
        var c, o, uid :| CreatedThenComplete(trace, c, o, uid);
        assert CreatedThenComplete(longer, c, o, uid);
      } else {
        var c :| 0 <= c < |trace| && trace[c] == Created(Made(p.uid));
        assert CreatedThenComplete(longer, c, |trace|, p.uid);
      }
    }
  }

  lemma {:induction false} TraceEarned(cfg: Config, trace: seq<Event>)
    requires Run(cfg, trace).Some?
    ensures Earned(trace, Run(cfg, trace).value)
  {
    if trace != [] {
      var init := trace[..|trace| - 1];
      TraceEarned(cfg, init);
      EarnedStep(cfg, init, Run(cfg, init).value, trace[|trace| - 1]);
      assert init + [trace[|trace| - 1]] == trace;
    }
  }

  /** The application manifest is applied only after this run created a Job and then saw a Job
      complete and not failed; when the create printed a uid, the Job it saw is the one it created. */
  lemma ApplicationOnlyAfterMigration(cfg: Config, trace: seq<Event>, a: int)
    requires Run(cfg, trace).Some? && 0 <= a < |trace| && AppliesApplication(trace[a])
    ensures Guarded(trace[..a])
    ensures exists c, o :: 0 <= c < o < a && trace[c].Created? && trace[c].made.Made?
                        && SeesCompletion(trace[o], trace[c].made.uid)
  {
    PrefixAllowed(cfg, trace, a);
    TraceEarned(cfg, trace[..a]);
    hide Run, StateOf;
    var c, o, uid :| CreatedThenComplete(trace[..a], c, o, uid);
    StateOfMeans(trace[o].reply.job);
    assert trace[c] == trace[..a][c] && trace[o] == trace[..a][o];
    assert SeesCompletion(trace[o], trace[c].made.uid);
  }

  /** One poll for the migration, told apart by what the reply says and nothing else. */
  lemma MigrationPollMeans(cfg: Config, uid: string, reply: GetReply, expired: bool)
    ensures Next(cfg, AwaitJob(uid), GotJob(reply, expired)).Some?
    ensures var e, q := GotJob(reply, expired), Next(cfg, AwaitJob(uid), GotJob(reply, expired)).value;
            var gone := uid != "" && (reply.NotFound? || (ShowsJob(e, uid) && reply.job.deleting));
            var other := uid != "" && reply.Found? && reply.job.uid != uid;
            var ended := SeesCompletion(e, uid) || SeesFailure(e, uid);
            && (q == (if cfg.registers then Register else ApplyApplication) <==> SeesCompletion(e, uid))
            && (q == Diagnose(false) <==> SeesFailure(e, uid))
            && (q == Stopped(MigrationReplaced) <==> other)
            && (q == Stopped(MigrationDisappeared) <==> gone && !ended)
            && (q == Diagnose(true) <==> expired && !ended && !other && !gone)
            && (q == AwaitJob(uid) <==> !expired && !ended && !other && !gone)
  {
    if reply.Found? { StateOfMeans(reply.job); }
    hide StateOf;
  }

  /** The first look at the slot: a finished Job is deleted, a failed one after its evidence is
      kept; an active one is left alone. */
  lemma FirstLookMeans(cfg: Config, reply: GetReply, late: bool)
    ensures Next(cfg, Inspect, GotJob(reply, late)).Some?
    ensures var e, q := GotJob(reply, late), Next(cfg, Inspect, GotJob(reply, late)).value;
            var ended := SeesCompletion(e, "") || SeesFailure(e, "");
            && (q == AwaitPods <==> reply.NotFound?)
            && (q == Stopped(CannotInspect) <==> reply.GetError?)
            && (reply.Found? ==>
                  && (q == Evidence(reply.job.uid) <==> SeesFailure(e, ""))
                  && (q == Delete(reply.job.uid) <==> SeesCompletion(e, ""))
                  && (q == Stopped(MigrationActive) <==> !ended && !reply.job.deleting)
                  && (q == AwaitGone(reply.job.uid) <==> !ended && reply.job.deleting))
  {
    if reply.Found? { StateOfMeans(reply.job); }
    hide StateOf;
  }

  /** One poll for the old Job to go. */
  lemma SlotPollMeans(cfg: Config, uid: string, reply: GetReply, expired: bool)
    ensures Next(cfg, AwaitGone(uid), GotJob(reply, expired)).Some?
    ensures var q := Next(cfg, AwaitGone(uid), GotJob(reply, expired)).value;
            var other := reply.Found? && reply.job.uid != uid;
            && (q == AwaitPods <==> reply.NotFound?)
            && (q == Stopped(SlotReplaced) <==> other)
            && (q == Stopped(SlotNotFreed) <==> expired && !reply.NotFound? && !other)
            && (q == AwaitGone(uid) <==> !expired && !reply.NotFound? && !other)
  {
  }

  /** One poll for the pods of earlier migrations. */
  lemma PodsPollMeans(cfg: Config, reply: PodsReply, expired: bool)
    ensures Next(cfg, AwaitPods, ListedPods(reply, expired)).Some?
    ensures var e, q := ListedPods(reply, expired), Next(cfg, AwaitPods, ListedPods(reply, expired)).value;
            && (q == CheckJob <==> ListsOnlyEnded(e))
            && (q == Stopped(PodsStillRunning) <==> expired && !ListsOnlyEnded(e))
            && (q == AwaitPods <==> !expired && !ListsOnlyEnded(e))
  {
    if reply.Listed? && NoneRunning(reply.pods) {
      assert forall p :: p in reply.pods ==> !StillRunning(p);
    }
    if reply.Listed? && !NoneRunning(reply.pods) {
      var i :| 0 <= i < |reply.pods| && StillRunning(reply.pods[i]);
      assert reply.pods[i] in reply.pods;
    }
  }

  /** A command that fails, in whatever phase it may be given, ends the run with its reason. */
  lemma FailedCommandStops(cfg: Config, p: Phase, e: Event)
    requires Next(cfg, p, e).Some?
    ensures e.DryRun? && !e.ok ==> Next(cfg, p, e) == Some(Stopped(CommandFailed))
    ensures e.Deleted? && !e.ok ==> Next(cfg, p, e) == Some(Stopped(CommandFailed))
    ensures e.Created? && e.made.CreateError? ==> Next(cfg, p, e) == Some(Stopped(CommandFailed))
    ensures e.Applied? && !e.ok ==>
              Next(cfg, p, e) == Some(Stopped(if e.what.Application? then ApplyFailed else CommandFailed))
    ensures e.Registered? && !e.ok ==> Next(cfg, p, e) == Some(Stopped(RegistrationFailed))
    ensures e.RolledOut? && !e.ok ==> Next(cfg, p, e) == Some(Stopped(RolloutFailed))
    ensures e.Smoked? && !e.ok ==> Next(cfg, p, e) == Some(Stopped(SmokeFailed))
  {
  }

  /** A migration that is seen to have failed ends the run, with its diagnostics and nothing else. */
  lemma FailedMigrationAppliesNothing(cfg: Config, trace: seq<Event>, o: int, uid: string)
    requires Run(cfg, trace).Some? && 0 <= o < |trace|
    requires Run(cfg, trace[..o]) == Some(AwaitJob(uid)) && SeesFailure(trace[o], uid)
    ensures |trace| <= o + 2
    ensures Run(cfg, trace) == Some(if |trace| == o + 1 then Diagnose(false) else Stopped(MigrationFailed))
    ensures forall a :: 0 <= a < |trace| ==> !AppliesApplication(trace[a])
  {
    hide Run, StateOf;
    PrefixAllowed(cfg, trace, o);
    MigrationPollMeans(cfg, uid, trace[o].reply, trace[o].expired);
    assert Run(cfg, trace[..o + 1]) == Some(Diagnose(false));
    if o + 1 < |trace| {
      PrefixAllowed(cfg, trace, o + 1);
      assert Run(cfg, trace[..o + 2]) == Some(Stopped(MigrationFailed));
      if o + 2 < |trace| { PrefixAllowed(cfg, trace, o + 2); }
    }
    assert trace[..|trace|] == trace;
    forall a | 0 <= a < |trace| ensures !AppliesApplication(trace[a]) {
      StoppedBeforeGuardAppliesNothing(cfg, trace, a);
    }
  }

  // ---------- The slot and the pods before a create ----------

  /** The slot is known to be empty. */
  predicate SlotSeenEmpty(p: Phase)
  {
    p.AwaitPods? || p.CheckJob? || p.ApplySupporting? || p.Create?
  }

  /** Nothing of an earlier migration can still run. */
  predicate PodsSeenStopped(p: Phase)
  {
    p.CheckJob? || p.ApplySupporting? || p.Create?
  }

  predicate SawSlotEmpty(e: Event)
  {
    e.GotJob? && e.reply.NotFound?
  }

  ghost predicate Cleared(trace: seq<Event>, p: Phase)
  {
    && (SlotSeenEmpty(p) ==> exists j :: 0 <= j < |trace| && SawSlotEmpty(trace[j]))
    && (PodsSeenStopped(p) ==>
          exists j, l :: 0 <= j < l < |trace| && SawSlotEmpty(trace[j]) && ListsOnlyEnded(trace[l]))
  }

  lemma WhatClears(cfg: Config, p: Phase, e: Event)
    requires Next(cfg, p, e).Some?
    ensures var q := Next(cfg, p, e).value;
            && (SlotSeenEmpty(q) ==> SlotSeenEmpty(p) || SawSlotEmpty(e))
            && (PodsSeenStopped(q) ==> PodsSeenStopped(p) || (SlotSeenEmpty(p) && ListsOnlyEnded(e)))
            && (e.Created? ==> PodsSeenStopped(p))
  {
  }

  lemma {:induction false} TraceCleared(cfg: Config, trace: seq<Event>)
    requires Run(cfg, trace).Some?
    ensures Cleared(trace, Run(cfg, trace).value)
  {
    if trace != [] {
      var init, e := trace[..|trace| - 1], trace[|trace| - 1];
      var p := Run(cfg, init).value;
      TraceCleared(cfg, init);
      WhatClears(cfg, p, e);
      hide Next, SlotSeenEmpty, PodsSeenStopped, SawSlotEmpty, ListsOnlyEnded;
      var q := Run(cfg, trace).value;
      if SlotSeenEmpty(p) {
        var j :| 0 <= j < |init| && SawSlotEmpty(init[j]);
        assert trace[j] == init[j];
        if PodsSeenStopped(p) {
          var i, l :| 0 <= i < l < |init| && SawSlotEmpty(init[i]) && ListsOnlyEnded(init[l]);
          assert trace[i] == init[i] && trace[l] == init[l];
        }
      }
    }
  }

  /** A Job is created only after the slot was seen empty and, after that, every pod listed had
      ended. */
  lemma CreateOnlyAfterQuietSlot(cfg: Config, trace: seq<Event>, c: int)
    requires Run(cfg, trace).Some? && 0 <= c < |trace| && trace[c].Created?
    ensures exists j, l :: 0 <= j < l < c && SawSlotEmpty(trace[j]) && ListsOnlyEnded(trace[l])
  {
    hide Run, Next;
    PrefixAllowed(cfg, trace, c);
    TraceCleared(cfg, trace[..c]);
    WhatClears(cfg, Run(cfg, trace[..c]).value, trace[c]);
    var j, l :| 0 <= j < l < |trace[..c]| && SawSlotEmpty(trace[..c][j]) && ListsOnlyEnded(trace[..c][l]);
    assert trace[j] == trace[..c][j] && trace[l] == trace[..c][l];
  }

  // ---------- What a successful run has done ----------

  ghost function Count(trace: seq<Event>, e: Event): nat
  {
    if trace == [] then 0
    else Count(trace[..|trace| - 1], e) + if trace[|trace| - 1] == e then 1 else 0
  }

  /** How far a run has got; 0 once it has stopped. */
  function Rank(p: Phase): nat
  {
    match p
    case CheckApplication => 1
    case CheckSupporting => 2
    case Inspect => 3
    case Evidence(_) => 3
    case Delete(_) => 3
    case AwaitGone(_) => 3
    case AwaitPods => 3
    case CheckJob => 3
    case ApplySupporting => 4
    case Create => 5
    case AwaitJob(_) => 6
    case Diagnose(_) => 0
    case Register => 7
    case ApplyApplication => 8
    case Rollout(_) => 9
    case Smoke => 10
    case Succeeded => 11
    case Stopped(_) => 0
  }

  ghost predicate Done(cfg: Config, trace: seq<Event>, p: Phase)
  {
    && (Rank(p) >= 2 ==> DryRun(Application, true) in trace)
    && (Rank(p) >= 3 && cfg.supporting ==> DryRun(Supporting, true) in trace)
    && (Rank(p) >= 4 ==> DryRun(MigrationJob, true) in trace)
    && (Rank(p) >= 5 && cfg.supporting ==> Applied(Supporting, true) in trace)
    && (Rank(p) >= 8 && cfg.registers ==> Registered(true) in trace)
    && (Rank(p) >= 9 ==> Applied(Application, true) in trace)
    && (1 <= Rank(p) <= 8 ==> Count(trace, RolledOut(true)) == 0)
    && (p.Rollout? ==> 1 <= p.left && Count(trace, RolledOut(true)) + p.left == cfg.deployments)
    && (Rank(p) >= 10 ==> Count(trace, RolledOut(true)) == cfg.deployments)
    && (Rank(p) >= 11 ==> Smoked(true) in trace)
  }

  lemma WhatIsDone(cfg: Config, p: Phase, e: Event)
    requires Next(cfg, p, e).Some? && (p.Rollout? ==> p.left >= 1)
    ensures var q := Next(cfg, p, e).value;
            && (Rank(q) >= 2 ==> Rank(p) >= 2 || e == DryRun(Application, true))
            && (Rank(q) >= 3 && cfg.supporting ==> Rank(p) >= 3 || e == DryRun(Supporting, true))
            && (Rank(q) >= 4 ==> Rank(p) >= 4 || e == DryRun(MigrationJob, true))
            && (Rank(q) >= 5 && cfg.supporting ==> Rank(p) >= 5 || e == Applied(Supporting, true))
            && (Rank(q) >= 8 && cfg.registers ==> Rank(p) >= 8 || e == Registered(true))
            && (Rank(q) >= 9 ==> Rank(p) >= 9 || e == Applied(Application, true))
            && (Rank(q) >= 11 ==> e == Smoked(true))
            && (1 <= Rank(q) <= 8 ==> 1 <= Rank(p) <= 8 && e != RolledOut(true))
            && (q.Rollout? ==>
                  && q.left >= 1
                  && if p.Rollout? then e == RolledOut(true) && q.left == p.left - 1
                     else 1 <= Rank(p) <= 8 && e != RolledOut(true) && q.left == cfg.deployments)
            && (Rank(q) >= 10 ==>
                  || (p.Rollout? && p.left == 1 && e == RolledOut(true))
                  || (1 <= Rank(p) <= 8 && cfg.deployments == 0 && e != RolledOut(true))
                  || (Rank(p) >= 10 && e != RolledOut(true)))
  {
  }

  lemma {:induction false} TraceDone(cfg: Config, trace: seq<Event>)
    requires Run(cfg, trace).Some?
    ensures Done(cfg, trace, Run(cfg, trace).value)
  {
    if trace != [] {
      var init, e := trace[..|trace| - 1], trace[|trace| - 1];
      TraceDone(cfg, init);
      WhatIsDone(cfg, Run(cfg, init).value, e);
      hide Next, Rank;
      assert trace == init + [e];
    }
  }

  /** A run that reports success has done everything: validated, applied and registered what there is,
      waited for every Deployment, and passed the smoke check. */
  lemma SuccessfulRunDidEverything(cfg: Config, trace: seq<Event>)
    requires Run(cfg, trace) == Some(Succeeded)
    ensures DryRun(Application, true) in trace && DryRun(MigrationJob, true) in trace
    ensures cfg.supporting ==> DryRun(Supporting, true) in trace && Applied(Supporting, true) in trace
    ensures cfg.registers ==> Registered(true) in trace
    ensures Applied(Application, true) in trace && Smoked(true) in trace
    ensures Count(trace, RolledOut(true)) == cfg.deployments
  {
    TraceDone(cfg, trace);
  }

  /** A run that stops anywhere before the guard has applied no application manifest: active
      predecessor, slot not freed, pods running, migration failed, timed out, replaced or gone. */
  lemma StoppedBeforeGuardAppliesNothing(cfg: Config, trace: seq<Event>, a: int)
    requires Run(cfg, trace).Some? && !PastGuard(Run(cfg, trace).value) && 0 <= a < |trace|
    ensures !AppliesApplication(trace[a])
  {
    TraceEarned(cfg, trace);
  }

  predicate BeyondCreate(p: Phase)
  {
    p.AwaitJob? || p.Diagnose? || PastGuard(p) || p.Stopped?
  }

  lemma CreateIsLast(cfg: Config, p: Phase, e: Event)
    requires Next(cfg, p, e).Some?
    ensures e.Created? ==> BeyondCreate(Next(cfg, p, e).value) && !BeyondCreate(p)
    ensures BeyondCreate(p) ==> BeyondCreate(Next(cfg, p, e).value)
  {
  }

  lemma {:induction false} StaysBeyondCreate(cfg: Config, trace: seq<Event>, from: int, to: int)
    requires Run(cfg, trace).Some? && 0 <= from <= to <= |trace|
    requires Run(cfg, trace[..from]).Some? && BeyondCreate(Run(cfg, trace[..from]).value)
    ensures Run(cfg, trace[..to]).Some? && BeyondCreate(Run(cfg, trace[..to]).value)
    decreases |trace| - from
  {
    hide Run, Next, BeyondCreate;
    if from < to {
      PrefixAllowed(cfg, trace, from);
      CreateIsLast(cfg, Run(cfg, trace[..from]).value, trace[from]);
      StaysBeyondCreate(cfg, trace, from + 1, to);
    }
  }

  /** A run creates at most one Job. */
  lemma OneCreate(cfg: Config, trace: seq<Event>, c: int, d: int)
    requires Run(cfg, trace).Some? && 0 <= c < d < |trace|
    requires trace[c].Created?
    ensures !trace[d].Created?
  {
    hide Run, Next, BeyondCreate;
    PrefixAllowed(cfg, trace, c);
    CreateIsLast(cfg, Run(cfg, trace[..c]).value, trace[c]);
    StaysBeyondCreate(cfg, trace, c + 1, d);
    PrefixAllowed(cfg, trace, d);
    CreateIsLast(cfg, Run(cfg, trace[..d]).value, trace[d]);
  }

  /** The full guarantee: the run created a Job with a non-empty uid and saw that Job complete. */
  ghost predicate OwnJobComplete(trace: seq<Event>)
  {
    exists c, o, uid :: CreatedThenComplete(trace, c, o, uid) && uid != ""
  }

  /** Nothing checks that `kubectl create` printed a uid. The full guarantee holds for a run that
      applied the application exactly when it did. */
  lemma FullGuaranteeIffUidPrinted(cfg: Config, trace: seq<Event>, a: int, c: int)
    requires Run(cfg, trace).Some? && 0 <= a < |trace| && AppliesApplication(trace[a])
    requires 0 <= c < |trace| && trace[c].Created?
    ensures OwnJobComplete(trace[..a]) <==> trace[c].made.Made? && trace[c].made.uid != ""
  {
    hide Run, CompleteReply;
    ApplicationOnlyAfterMigration(cfg, trace, a);
    var k, o, uid :| CreatedThenComplete(trace[..a], k, o, uid);
    SameCreate(cfg, trace, k, c);
    if OwnJobComplete(trace[..a]) {
      var k', o', uid' :| CreatedThenComplete(trace[..a], k', o', uid') && uid' != "";
      SameCreate(cfg, trace, k', c);
    }
  }

  lemma SameCreate(cfg: Config, trace: seq<Event>, c: int, d: int)
    requires Run(cfg, trace).Some? && 0 <= c < |trace| && 0 <= d < |trace|
    requires trace[c].Created? && trace[d].Created?
    ensures c == d
  {
    if c < d {
      OneCreate(cfg, trace, c, d);
    } else if d < c {
      OneCreate(cfg, trace, d, c);
    }
  }

  /** A run in which the create printed nothing and somebody else's Job was seen complete: the
      application is applied although the created Job was never observed. */
  ghost const EmptyUidTrace: seq<Event> :=
    [DryRun(Application, true),
     GotJob(NotFound, false),
     ListedPods(Listed([]), false),
     DryRun(MigrationJob, true),
     Created(Made("")),
     GotJob(Found(JobView("someone-else", [Condition("Complete", "True")], false)), false),
     Applied(Application, true)]

  lemma EmptyUidTraceAllowed()
    ensures Run(Config(false, false, 0), EmptyUidTrace) == Some(Smoke)
  {
    var cfg, e := Config(false, false, 0), EmptyUidTrace;
    var t0: seq<Event> := [];
    assert Run(cfg, t0) == Some(CheckApplication);
    EmptyUidPhases(cfg);
    hide Run, Next;
    var t1 := t0 + [e[0]];
    RunExtends(cfg, t0, e[0]);
    var t2 := t1 + [e[1]];
    RunExtends(cfg, t1, e[1]);
    var t3 := t2 + [e[2]];
    RunExtends(cfg, t2, e[2]);
    var t4 := t3 + [e[3]];
    RunExtends(cfg, t3, e[3]);
    var t5 := t4 + [e[4]];
    RunExtends(cfg, t4, e[4]);
    var t6 := t5 + [e[5]];
    RunExtends(cfg, t5, e[5]);
    RunExtends(cfg, t6, e[6]);
    assert t6 + [e[6]] == e;
  }

  lemma EmptyUidPhases(cfg: Config)
    requires cfg == Config(false, false, 0)
    ensures Next(cfg, CheckApplication, EmptyUidTrace[0]) == Some(Inspect)
    ensures Next(cfg, Inspect, EmptyUidTrace[1]) == Some(AwaitPods)
    ensures Next(cfg, AwaitPods, EmptyUidTrace[2]) == Some(CheckJob)
    ensures Next(cfg, CheckJob, EmptyUidTrace[3]) == Some(Create)
    ensures Next(cfg, Create, EmptyUidTrace[4]) == Some(AwaitJob(""))
    ensures Next(cfg, AwaitJob(""), EmptyUidTrace[5]) == Some(ApplyApplication)
    ensures Next(cfg, ApplyApplication, EmptyUidTrace[6]) == Some(Smoke)
  {
    EmptyUidBefore(cfg);
    EmptyUidAfter(cfg);
    hide Next, EmptyUidTrace;
  }

  lemma EmptyUidBefore(cfg: Config)
    requires cfg == Config(false, false, 0)
    ensures Next(cfg, CheckApplication, EmptyUidTrace[0]) == Some(Inspect)
    ensures Next(cfg, Inspect, EmptyUidTrace[1]) == Some(AwaitPods)
    ensures Next(cfg, AwaitPods, EmptyUidTrace[2]) == Some(CheckJob)
    ensures Next(cfg, CheckJob, EmptyUidTrace[3]) == Some(Create)
  {
    hide StateOf;
  }

  lemma EmptyUidAfter(cfg: Config)
    requires cfg == Config(false, false, 0)
    ensures Next(cfg, Create, EmptyUidTrace[4]) == Some(AwaitJob(""))
    ensures Next(cfg, AwaitJob(""), EmptyUidTrace[5]) == Some(ApplyApplication)
    ensures Next(cfg, ApplyApplication, EmptyUidTrace[6]) == Some(Smoke)
  {
    CompleteIsComplete();
    hide StateOf;
  }

  lemma CompleteIsComplete()
    ensures StateOf(JobView("someone-else", [Condition("Complete", "True")], false)) == Some(Complete)
  {
    var conditions := [Condition("Complete", "True")];
    assert conditions[0] == Condition("Complete", "True");
    assert |"Complete"| != |"Failed"| && |"Complete"| != |"FailureTarget"|;
  }

  lemma EmptyUidSkipsIdentityCheck()
    ensures Run(Config(false, false, 0), EmptyUidTrace) == Some(Smoke)
    ensures AppliesApplication(EmptyUidTrace[6]) && !OwnJobComplete(EmptyUidTrace[..6])
  {
    EmptyUidTraceAllowed();
    hide Run;
    FullGuaranteeIffUidPrinted(Config(false, false, 0), EmptyUidTrace, 6, 4);
  }

  predicate TerminalReply(e: Event)
  {
    e.GotJob? && e.reply.Found? && StateOf(e.reply.job).Some?
  }

  lemma WhatLeadsToDelete(cfg: Config, p: Phase, e: Event)
    requires Next(cfg, p, e).Some?
    ensures Next(cfg, p, e).value.Delete? ==> TerminalReply(e) || (e.Diagnosed? && p.Evidence?)
    ensures Next(cfg, p, e).value.Evidence? ==> TerminalReply(e)
    ensures e.Deleted? ==> p.Delete?
  {
  }

  /** What came just before a run that now deletes, or collects evidence before it deletes. */
  lemma BeforeDelete(cfg: Config, trace: seq<Event>, k: int)
    requires Run(cfg, trace).Some? && 0 <= k < |trace|
    ensures Run(cfg, trace[..k]).Some? && (trace[k].Deleted? ==> Run(cfg, trace[..k]).value.Delete?)
    ensures var p := Run(cfg, trace[..k]).value;
            p.Delete? || p.Evidence? ==>
              && k > 0 && Run(cfg, trace[..k - 1]).Some?
              && (TerminalReply(trace[k - 1])
                  || (p.Delete? && trace[k - 1].Diagnosed? && Run(cfg, trace[..k - 1]).value.Evidence?))
  {
    PrefixAllowed(cfg, trace, k);
    assert trace[..0] == [];
    assert Run(cfg, []) == Some(CheckApplication);
    hide Run, Next, TerminalReply;
    WhatLeadsToDelete(cfg, Run(cfg, trace[..k]).value, trace[k]);
    if k > 0 {
      PrefixAllowed(cfg, trace, k - 1);
      WhatLeadsToDelete(cfg, Run(cfg, trace[..k - 1]).value, trace[k - 1]);
    }
  }

  /** Every delete command follows the sight of a terminal Job, with at most the collection of its
      evidence in between. */
  lemma DeleteFollowsTerminalJob(cfg: Config, trace: seq<Event>, d: int)
    requires Run(cfg, trace).Some? && 0 <= d < |trace| && trace[d].Deleted?
    ensures exists o :: 0 <= o < d && TerminalReply(trace[o]) && (forall k :: o < k < d ==> trace[k].Diagnosed?)
  {
    hide Run, Next, TerminalReply;
    BeforeDelete(cfg, trace, d);
    if !TerminalReply(trace[d - 1]) {
      BeforeDelete(cfg, trace, d - 1);
      assert TerminalReply(trace[d - 2]);
    }
  }
}
