/** The cluster around the orchestrator of `scripts/deploy_release.py`. Runs follow one another and
    may be killed at any event; in between, anyone may delete the Job in any way, its controller
    starts and stops pods as it likes, and only the orchestrator creates Jobs. Whatever happens,
    two migrations never run at the same time. */
module MigrationSafety {
  import opened DeployRelease
  import opened Wrappers

  type Uid = string
  type PodId = nat

  datatype JobObject = JobObject(uid: Uid, state: Option<JobState>, deleting: bool)

  /** A pod outlives its Job; `done` means phase Succeeded or Failed. */
  datatype PodObject = PodObject(owner: Uid, done: bool)

  /** `uids` are all the Job uids ever handed out, `completed` those that reached Complete. */
  datatype Cluster = Cluster(job: Option<JobObject>, pods: map<PodId, PodObject>, uids: set<Uid>, completed: set<Uid>)

  /** One orchestrator run, as far as it has got; `created` is the Job it made, if any, `printed`
      the uid its create printed, "" if none. */
  datatype OrchestratorRun = OrchestratorRun(cfg: Config, phase: Phase, created: Option<Uid>, printed: Uid)

  datatype System = System(cluster: Cluster, run: Option<OrchestratorRun>)

  ghost const Initial := System(Cluster(None, map[], {}, {}), None)

  /** What happens in the cluster without the orchestrator. */
  datatype Disturbance =
    // the Job controller and the kubelets
    | JobEnds(state: JobState)
    | PodStarts(p: PodId)
    | PodEnds(p: PodId)
    | PodRemoved(p: PodId)
    // outsiders, and the garbage collector finishing a deletion
    | MarkedForDeletion
    | JobGone

  datatype Action =
    // a new run starts; the one before has ended or was killed
    | Begin(cfg: Config)
    // the orchestrator exchanges one event with the cluster; `landed` is the Job a create made
    | Exchange(e: Event, landed: Option<Uid>)
    | Outside(d: Disturbance)

  ghost predicate NoPodRuns(c: Cluster)
  {
    forall p :: p in c.pods ==> c.pods[p].done
  }

  /** Replies tell the truth about the moment they are given. */
  ghost predicate Truthful(c: Cluster, e: Event)
  {
    match e
    case GotJob(reply, _) =>
      && (reply.NotFound? ==> c.job == None)
      && (reply.Found? ==>
            c.job.Some? && c.job.value.uid == reply.job.uid && c.job.value.state == StateOf(reply.job)
            && c.job.value.deleting == reply.job.deleting)
    case ListedPods(reply, _) => reply.Listed? && NoneRunning(reply.pods) ==> NoPodRuns(c)
    case _ => true
  }

  /** A create may take effect even when the orchestrator sees an error; a reply may be empty. */
  ghost predicate CreateEffect(c: Cluster, e: Event, landed: Option<Uid>)
  {
    && (landed.Some? ==> e.Created? && c.job == None && landed.value !in c.uids)
    && (e.Created? && e.made.Made? ==> landed.Some? && (e.made.uid == landed.value || e.made.uid == ""))
  }

  ghost predicate ExchangePossible(c: Cluster, r: OrchestratorRun, e: Event, landed: Option<Uid>)
  {
    && Next(r.cfg, r.phase, e).Some?
    && Truthful(c, e) && CreateEffect(c, e, landed)
    && (e.Deleted? && e.ok ==> c.job.Some?)
  }

  ghost predicate Possible(c: Cluster, d: Disturbance)
  {
    match d
    case JobEnds(state) => c.job.Some? && c.job.value.state == None
    case PodStarts(p) => c.job.Some? && p !in c.pods
    case PodEnds(p) => p in c.pods
    case PodRemoved(p) => p in c.pods
    case MarkedForDeletion => c.job.Some?
    case JobGone => c.job.Some?
  }

  ghost predicate Enabled(s: System, a: Action)
  {
    match a
    case Begin(cfg) => true
    case Exchange(e, landed) => s.run.Some? && ExchangePossible(s.cluster, s.run.value, e, landed)
    case Outside(d) => Possible(s.cluster, d)
  }

  ghost function ClusterAfter(c: Cluster, e: Event, landed: Option<Uid>): Cluster
  {
    if landed.Some? then
      c.(job := Some(JobObject(landed.value, None, false)), uids := c.uids + {landed.value})
    else if e.Deleted? && e.ok && c.job.Some? then
      c.(job := Some(c.job.value.(deleting := true)))
    else c
  }

  ghost function RunAfter(r: OrchestratorRun, e: Event, landed: Option<Uid>): OrchestratorRun
    requires Next(r.cfg, r.phase, e).Some?
  {
    OrchestratorRun(r.cfg, Next(r.cfg, r.phase, e).value,
                    if landed.Some? then landed else r.created,
                    if e.Created? && e.made.Made? then e.made.uid else r.printed)
  }

  ghost function Disturbed(c: Cluster, d: Disturbance): Cluster
    requires Possible(c, d)
  {
    match d
    case JobEnds(state) =>
      c.(job := Some(c.job.value.(state := Some(state))),
         completed := if state.Complete? then c.completed + {c.job.value.uid} else c.completed)
    case PodStarts(p) => c.(pods := c.pods[p := PodObject(c.job.value.uid, false)])
    case PodEnds(p) => c.(pods := c.pods[p := c.pods[p].(done := true)])
    case PodRemoved(p) => c.(pods := c.pods - {p})
    case MarkedForDeletion => c.(job := Some(c.job.value.(deleting := true)))
    case JobGone => c.(job := None)
  }

  ghost function Step(s: System, a: Action): System
    requires Enabled(s, a)
  {
    match a
    case Begin(cfg) => s.(run := Some(OrchestratorRun(cfg, CheckApplication, None, "")))
    case Exchange(e, landed) =>
      System(ClusterAfter(s.cluster, e, landed), Some(RunAfter(s.run.value, e, landed)))
    case Outside(d) => s.(cluster := Disturbed(s.cluster, d))
  }

  ghost predicate Runs(s: System, actions: seq<Action>)
    decreases |actions|
  {
    actions == [] || (Enabled(s, actions[0]) && Runs(Step(s, actions[0]), actions[1..]))
  }

  ghost function After(s: System, actions: seq<Action>): System
    requires Runs(s, actions)
    decreases |actions|
  {
    if actions == [] then s else After(Step(s, actions[0]), actions[1..])
  }

  // ---------- The invariant ----------

  /** No two running pods belong to different Jobs. */
  ghost predicate OneMigration(c: Cluster)
  {
    forall p, q :: p in c.pods && q in c.pods && !c.pods[p].done && !c.pods[q].done ==>
      c.pods[p].owner == c.pods[q].owner
  }

  /** A running pod belongs to the Job that exists, if one exists. */
  ghost predicate PodsOfCurrentJob(c: Cluster)
  {
    c.job.Some? ==> forall p :: p in c.pods && !c.pods[p].done ==> c.pods[p].owner == c.job.value.uid
  }

  predicate AboutToDelete(p: Phase)
  {
    p.Evidence? || p.Delete?
  }

  /** From the create on. */
  predicate JobMade(p: Phase)
  {
    p.AwaitJob? || PastGuard(p)
  }

  ghost predicate RunKnows(c: Cluster, r: OrchestratorRun)
  {
    && (SlotSeenEmpty(r.phase) ==> c.job == None)
    && (PodsSeenStopped(r.phase) ==> NoPodRuns(c))
    && (AboutToDelete(r.phase) && c.job.Some? ==> c.job.value.state.Some?)
    && (JobMade(r.phase) ==> r.created.Some? && (c.job.Some? ==> c.job.value.uid == r.created.value))
    && (PastGuard(r.phase) ==> r.created.Some? && r.created.value in c.completed)
  }

  ghost predicate Invariant(s: System)
  {
    && OneMigration(s.cluster)
    && PodsOfCurrentJob(s.cluster)
    && (s.cluster.job.Some? && s.cluster.job.value.state == Some(Complete) ==>
          s.cluster.job.value.uid in s.cluster.completed)
    && (s.run.Some? ==> RunKnows(s.cluster, s.run.value))
  }

  /** What an allowed event implies for what the run knows about the slot and the pods. */
  lemma WhatSlotPhasesMean(cfg: Config, p: Phase, e: Event)
    requires Next(cfg, p, e).Some?
    ensures var q := Next(cfg, p, e).value;
            && (SlotSeenEmpty(q) && !SlotSeenEmpty(p) ==> e.GotJob? && e.reply.NotFound?)
            && (PodsSeenStopped(q) && !PodsSeenStopped(p) ==>
                  SlotSeenEmpty(p) && e.ListedPods? && e.pods.Listed? && NoneRunning(e.pods.pods))
            && (AboutToDelete(q) && !AboutToDelete(p) ==> TerminalReply(e))
  {
  }

  /** What it implies for the Job of the run. */
  lemma WhatJobPhasesMean(cfg: Config, p: Phase, e: Event)
    requires Next(cfg, p, e).Some?
    ensures var q := Next(cfg, p, e).value;
            && (JobMade(q) && !JobMade(p) ==> e.Created? && e.made.Made?)
            && (PastGuard(q) && !PastGuard(p) ==> p.AwaitJob? && CompleteReply(e))
            && (e.Created? ==> p.Create? && !SlotSeenEmpty(q) && !AboutToDelete(q) && !PastGuard(q))
            && (e.Deleted? ==> p.Delete? && !SlotSeenEmpty(q) && !JobMade(q))
  {
  }

  lemma ExchangeKeepsInvariant(s: System, e: Event, landed: Option<Uid>)
    requires Enabled(s, Exchange(e, landed)) && Invariant(s)
    ensures Invariant(Step(s, Exchange(e, landed)))
  {
    hide Next;
    var r := s.run.value;
    WhatSlotPhasesMean(r.cfg, r.phase, e);
    WhatJobPhasesMean(r.cfg, r.phase, e);
  }

  lemma EnvironmentKeepsInvariant(s: System, a: Action)
    requires Enabled(s, a) && !a.Exchange? && Invariant(s)
    ensures Invariant(Step(s, a))
  {
  }

  lemma {:induction false} EveryHistoryKeepsInvariant(s: System, actions: seq<Action>)
    requires Invariant(s) && Runs(s, actions)
    ensures Invariant(After(s, actions))
    decreases |actions|
  {
    hide Invariant, Step, Enabled;
    if actions != [] {
      if actions[0].Exchange? {
        ExchangeKeepsInvariant(s, actions[0].e, actions[0].landed);
      } else {
        EnvironmentKeepsInvariant(s, actions[0]);
      }
      EveryHistoryKeepsInvariant(Step(s, actions[0]), actions[1..]);
    }
  }

  ghost predicate Reachable(s: System)
  {
    exists actions :: Runs(Initial, actions) && After(Initial, actions) == s
  }

  lemma ReachableInvariant(s: System)
    requires Reachable(s)
    ensures Invariant(s)
  {
    var actions :| Runs(Initial, actions) && After(Initial, actions) == s;
    EveryHistoryKeepsInvariant(Initial, actions);
  }

  /** Over any sequence of runs, at any instant, all migration pods that still run belong to one
      Job. */
  lemma NeverTwoMigrations(s: System, p: PodId, q: PodId)
    requires Reachable(s) && p in s.cluster.pods && q in s.cluster.pods
    requires !s.cluster.pods[p].done && !s.cluster.pods[q].done
    ensures s.cluster.pods[p].owner == s.cluster.pods[q].owner
  {
    ReachableInvariant(s);
  }

  /** The delete command carries no uid, yet it never reaches an active migration. */
  lemma OnlyFinishedJobsAreDeleted(s: System, ok: bool, landed: Option<Uid>)
    requires Reachable(s) && Enabled(s, Exchange(Deleted(ok), landed)) && s.cluster.job.Some?
    ensures s.cluster.job.value.state.Some?
  {
    ReachableInvariant(s);
    WhatJobPhasesMean(s.run.value.cfg, s.run.value.phase, Deleted(ok));
  }

  /** When the application is applied, the Job this very run created has completed, even when the
      create printed no uid: while only sequential orchestrator runs create Jobs, the name is
      identity enough. */
  lemma ApplicationAfterOwnMigration(s: System, ok: bool, landed: Option<Uid>)
    requires Reachable(s) && Enabled(s, Exchange(Applied(Application, ok), landed))
    ensures s.run.value.created.Some? && s.run.value.created.value in s.cluster.completed
  {
    ReachableInvariant(s);
    assert s.run.value.phase.ApplyApplication?;
  }

  /** A new Job is created only when no pod of any earlier one still runs. */
  lemma CreateFindsQuietCluster(s: System, made: CreateReply, landed: Option<Uid>)
    requires Reachable(s) && Enabled(s, Exchange(Created(made), landed))
    ensures s.cluster.job == None && NoPodRuns(s.cluster)
  {
    ReachableInvariant(s);
    WhatJobPhasesMean(s.run.value.cfg, s.run.value.phase, Created(made));
  }
}
