/** Several orchestrator runs at once, as when two deployments of `scripts/deploy_release.py` are
    started by mistake. The fixed Job name and "create, never adopt" then have to keep migrations
    apart; they do, up to one kind of outside deletion, which is characterised exactly. */
module ConcurrentDeployments {
  import opened DeployRelease
  import opened MS = MigrationSafety
  import opened Wrappers

  type RunId = nat

  /** The runs that are alive, in any phase. */
  datatype Fleet = Fleet(cluster: Cluster, runs: map<RunId, OrchestratorRun>)

  ghost const NoFleet := Fleet(Cluster(None, map[], {}, {}), map[])

  datatype Move =
    | Start(id: RunId, cfg: Config)
    | Kill(id: RunId)
    | Speak(id: RunId, e: Event, landed: Option<Uid>)
    | Disturb(d: Disturbance)

  ghost predicate CanMove(f: Fleet, m: Move)
  {
    match m
    case Start(id, cfg) => true
    case Kill(id) => id in f.runs
    case Speak(id, e, landed) => id in f.runs && ExchangePossible(f.cluster, f.runs[id], e, landed)
    case Disturb(d) => Possible(f.cluster, d)
  }

  ghost function Moved(f: Fleet, m: Move): Fleet
    requires CanMove(f, m)
  {
    match m
    case Start(id, cfg) => f.(runs := f.runs[id := OrchestratorRun(cfg, CheckApplication, None, "")])
    case Kill(id) => f.(runs := f.runs - {id})
    case Speak(id, e, landed) =>
      Fleet(ClusterAfter(f.cluster, e, landed), f.runs[id := RunAfter(f.runs[id], e, landed)])
    case Disturb(d) => f.(cluster := Disturbed(f.cluster, d))
  }

  /** Some run has seen all pods stopped and not yet created its Job. */
  ghost predicate SomeoneIsAboutToCreate(f: Fleet)
  {
    exists id :: id in f.runs && PodsSeenStopped(f.runs[id].phase)
  }

  /** A Job does not vanish from under its running pods while a run is about to create. Deletions
      with foreground propagation, such as the orchestrator's own, are always careful. */
  ghost predicate Careful(f: Fleet, m: Move)
  {
    m == Disturb(JobGone) ==> NoPodRuns(f.cluster) || !SomeoneIsAboutToCreate(f)
  }

  ghost predicate CanRun(f: Fleet, moves: seq<Move>)
    decreases |moves|
  {
    moves == [] || (CanMove(f, moves[0]) && CanRun(Moved(f, moves[0]), moves[1..]))
  }

  ghost function Final(f: Fleet, moves: seq<Move>): Fleet
    requires CanRun(f, moves)
    decreases |moves|
  {
    if moves == [] then f else Final(Moved(f, moves[0]), moves[1..])
  }

  ghost predicate AllCareful(f: Fleet, moves: seq<Move>)
    requires CanRun(f, moves)
    decreases |moves|
  {
    moves == [] || (Careful(f, moves[0]) && AllCareful(Moved(f, moves[0]), moves[1..]))
  }

  // ---------- The invariant ----------

  ghost predicate Knows(c: Cluster, r: OrchestratorRun)
  {
    && (PodsSeenStopped(r.phase) && c.job == None ==> NoPodRuns(c))
    && (AboutToDelete(r.phase) ==>
          && r.phase.uid in c.uids
          && (c.job.Some? && c.job.value.uid == r.phase.uid ==> c.job.value.state.Some?))
    && (!BeyondCreate(r.phase) ==> r.printed == "")
    && (r.phase.AwaitJob? ==> r.phase.uid == r.printed)
    && (r.printed != "" ==> r.created == Some(r.printed))
    && (PastGuard(r.phase) && r.printed != "" ==> r.printed in c.completed)
  }

  ghost predicate ClusterOk(c: Cluster)
  {
    && OneMigration(c)
    && PodsOfCurrentJob(c)
    && (c.job.Some? ==> c.job.value.uid in c.uids)
    && (c.job.Some? && c.job.value.state == Some(Complete) ==> c.job.value.uid in c.completed)
  }

  ghost predicate FleetOk(f: Fleet)
  {
    ClusterOk(f.cluster) && forall id :: id in f.runs ==> Knows(f.cluster, f.runs[id])
  }

  /** What an allowed event implies for what a run remembers. */
  lemma WhatIsRemembered(cfg: Config, p: Phase, e: Event)
    requires Next(cfg, p, e).Some?
    ensures var q := Next(cfg, p, e).value;
            && (AboutToDelete(q) ==>
                  || (AboutToDelete(p) && q.uid == p.uid)
                  || (TerminalReply(e) && q.uid == e.reply.job.uid))
            && (q.AwaitJob? ==> (p == q && !e.Created?) || e == Created(Made(q.uid)))
            && (PastGuard(q) && !PastGuard(p) ==>
                  p.AwaitJob? && CompleteReply(e) && (p.uid != "" ==> e.reply.job.uid == p.uid))
            && (e.Created? ==> p.Create? && !PodsSeenStopped(q) && !AboutToDelete(q) && !PastGuard(q))
  {
  }

  lemma SpeakerKnows(c: Cluster, r: OrchestratorRun, e: Event, landed: Option<Uid>)
    requires ClusterOk(c) && Knows(c, r) && ExchangePossible(c, r, e, landed)
    ensures Knows(ClusterAfter(c, e, landed), RunAfter(r, e, landed))
  {
    hide Next, OneMigration, PodsOfCurrentJob;
    WhatIsRemembered(r.cfg, r.phase, e);
    WhatSlotPhasesMean(r.cfg, r.phase, e);
    CreateIsLast(r.cfg, r.phase, e);
  }

  lemma ListenerKnows(c: Cluster, r: OrchestratorRun, e: Event, landed: Option<Uid>, other: OrchestratorRun)
    requires Knows(c, other) && ExchangePossible(c, r, e, landed)
    ensures Knows(ClusterAfter(c, e, landed), other)
  {
  }

  lemma SpeakingKeepsCluster(c: Cluster, r: OrchestratorRun, e: Event, landed: Option<Uid>)
    requires ClusterOk(c) && Knows(c, r) && ExchangePossible(c, r, e, landed)
    ensures ClusterOk(ClusterAfter(c, e, landed))
  {
    if landed.Some? {
      WhatIsRemembered(r.cfg, r.phase, e);
      assert PodsSeenStopped(r.phase) && NoPodRuns(c);
    }
  }

  lemma DisturbingKeepsCluster(c: Cluster, d: Disturbance)
    requires ClusterOk(c) && Possible(c, d)
    ensures ClusterOk(Disturbed(c, d))
  {
  }

  lemma DisturbedKnows(c: Cluster, d: Disturbance, r: OrchestratorRun)
    requires Knows(c, r) && Possible(c, d)
    requires d.JobGone? ==> NoPodRuns(c) || !PodsSeenStopped(r.phase)
    ensures Knows(Disturbed(c, d), r)
  {
  }

  lemma MoveKeepsFleet(f: Fleet, m: Move)
    requires FleetOk(f) && CanMove(f, m) && Careful(f, m)
    ensures FleetOk(Moved(f, m))
  {
    hide Knows, ClusterOk, ClusterAfter, RunAfter, Disturbed, ExchangePossible, Possible, NoPodRuns;
    match m
    case Start(id, cfg) => FreshRunKnows(f.cluster, cfg);
    case Kill(id) =>
    case Speak(id, e, landed) =>
      SpeakerKnows(f.cluster, f.runs[id], e, landed);
      SpeakingKeepsCluster(f.cluster, f.runs[id], e, landed);
      forall other | other in f.runs ensures Knows(ClusterAfter(f.cluster, e, landed), f.runs[other]) {
        ListenerKnows(f.cluster, f.runs[id], e, landed, f.runs[other]);
      }
    case Disturb(d) =>
      DisturbingKeepsCluster(f.cluster, d);
      forall id | id in f.runs ensures Knows(Disturbed(f.cluster, d), f.runs[id]) {
        DisturbedKnows(f.cluster, d, f.runs[id]);
      }
  }

  lemma FreshRunKnows(c: Cluster, cfg: Config)
    ensures Knows(c, OrchestratorRun(cfg, CheckApplication, None, ""))
  {
  }

  lemma {:induction false} CarefulHistoryKeepsFleet(f: Fleet, moves: seq<Move>)
    requires FleetOk(f) && CanRun(f, moves) && AllCareful(f, moves)
    ensures FleetOk(Final(f, moves))
    decreases |moves|
  {
    hide FleetOk, Moved, CanMove, Careful;
    if moves != [] {
      MoveKeepsFleet(f, moves[0]);
      CarefulHistoryKeepsFleet(Moved(f, moves[0]), moves[1..]);
    }
  }

  /** Reached from nothing by any number of interleaved runs and careful disturbances. */
  ghost predicate CarefullyReached(f: Fleet)
  {
    exists moves :: CanRun(NoFleet, moves) && AllCareful(NoFleet, moves) && Final(NoFleet, moves) == f
  }

  lemma ReachedFleetOk(f: Fleet)
    requires CarefullyReached(f)
    ensures FleetOk(f)
  {
    var moves :| CanRun(NoFleet, moves) && AllCareful(NoFleet, moves) && Final(NoFleet, moves) == f;
    CarefulHistoryKeepsFleet(NoFleet, moves);
  }

  /** However many deployments run at once: all migration pods that run belong to one Job. */
  lemma NeverTwoMigrationsAtOnce(f: Fleet, p: PodId, q: PodId)
    requires CarefullyReached(f) && p in f.cluster.pods && q in f.cluster.pods
    requires !f.cluster.pods[p].done && !f.cluster.pods[q].done
    ensures f.cluster.pods[p].owner == f.cluster.pods[q].owner
  {
    ReachedFleetOk(f);
  }

  /** The Job that a run saw, its delete reaches only when finished. As the delete names no uid, it
      may also reach a Job created since; see the last section. */
  lemma SeenJobIsDeletedFinished(f: Fleet, id: RunId, ok: bool, landed: Option<Uid>)
    requires CarefullyReached(f) && CanMove(f, Speak(id, Deleted(ok), landed)) && f.cluster.job.Some?
    ensures f.runs[id].phase.Delete?
    ensures f.cluster.job.value.uid == f.runs[id].phase.uid ==> f.cluster.job.value.state.Some?
  {
    ReachedFleetOk(f);
    WhatJobPhasesMean(f.runs[id].cfg, f.runs[id].phase, Deleted(ok));
  }

  /** A run whose create printed a uid applies the application only after its own Job completed,
      whatever other runs do. */
  lemma PrintedUidIsGuarded(f: Fleet, id: RunId, ok: bool, landed: Option<Uid>)
    requires CarefullyReached(f) && CanMove(f, Speak(id, Applied(Application, ok), landed))
    requires f.runs[id].printed != ""
    ensures f.runs[id].created == Some(f.runs[id].printed) && f.runs[id].printed in f.cluster.completed
  {
    ReachedFleetOk(f);
    assert f.runs[id].phase.ApplyApplication?;
  }

  // ---------- The condition is exact ----------

  /** From here on, with careful disturbances alone, two migrations never overlap. */
  ghost predicate StaysSingle(f: Fleet)
  {
    forall moves :: CanRun(f, moves) && AllCareful(f, moves) ==> OneMigration(Final(f, moves).cluster)
  }

  /** A Job that vanishes from a carefully reached cluster is harmless if and only if it takes no
      running pod along while a run is about to create. */
  lemma VanishingIsSafeIff(f: Fleet)
    requires CarefullyReached(f) && f.cluster.job.Some?
    ensures StaysSingle(Moved(f, Disturb(JobGone))) <==> NoPodRuns(f.cluster) || !SomeoneIsAboutToCreate(f)
  {
    ReachedFleetOk(f);
    var g := Moved(f, Disturb(JobGone));
    if Careful(f, Disturb(JobGone)) {
      MoveKeepsFleet(f, Disturb(JobGone));
      forall moves | CanRun(g, moves) && AllCareful(g, moves) ensures OneMigration(Final(g, moves).cluster) {
        CarefulHistoryKeepsFleet(g, moves);
      }
    } else {
      var id :| id in f.runs && PodsSeenStopped(f.runs[id].phase);
      var p :| p in f.cluster.pods && !f.cluster.pods[p].done;
      var moves := Overlap(g, id, p);
      assert !OneMigration(Final(g, moves).cluster);
    }
  }

  lemma OneMove(f: Fleet, m: Move, rest: seq<Move>)
    requires CanMove(f, m) && Careful(f, m) && CanRun(Moved(f, m), rest) && AllCareful(Moved(f, m), rest)
    ensures CanRun(f, [m] + rest) && AllCareful(f, [m] + rest)
    ensures Final(f, [m] + rest) == Final(Moved(f, m), rest)
  {
    assert ([m] + rest)[1..] == rest;
  }

  lemma {:induction false} LongestUid(uids: set<Uid>) returns (n: nat)
    ensures forall uid :: uid in uids ==> |uid| <= n
    decreases uids
  {
    n := 0;
    if uid :| uid in uids {
      n := LongestUid(uids - {uid});
      n := if |uid| > n then |uid| else n;
    }
  }

  lemma FreshUid(uids: set<Uid>) returns (uid: Uid)
    ensures uid !in uids && uid != ""
  {
    var n := LongestUid(uids);
    uid := seq(n + 1, _ => 'x');
    assert |uid| == n + 1;
  }

  lemma {:induction false} HighestPod(pods: set<PodId>) returns (n: nat)
    ensures forall p :: p in pods ==> p <= n
    decreases pods
  {
    n := 0;
    if p :| p in pods {
      n := HighestPod(pods - {p});
      n := if p > n then p else n;
      forall q | q in pods ensures q <= n {
        assert q == p || q in pods - {p};
      }
    }
  }

  /** With no Job in the slot and pod `p` of an earlier one still running, a run that is about to
      create brings a second migration up. */
  lemma Overlap(f: Fleet, id: RunId, p: PodId) returns (moves: seq<Move>)
    requires f.cluster.job == None && id in f.runs && PodsSeenStopped(f.runs[id].phase)
    requires p in f.cluster.pods && !f.cluster.pods[p].done && f.cluster.pods[p].owner in f.cluster.uids
    ensures CanRun(f, moves) && AllCareful(f, moves) && !OneMigration(Final(f, moves).cluster)
    decreases f.runs[id].phase.CheckJob?, f.runs[id].phase.ApplySupporting?
  {
    if f.runs[id].phase.Create? {
      moves := SecondMigration(f, id, p);
    } else {
      var e := if f.runs[id].phase.CheckJob? then DryRun(MigrationJob, true) else Applied(Supporting, true);
      var m := Speak(id, e, None);
      var rest := Overlap(Moved(f, m), id, p);
      OneMove(f, m, rest);
      moves := [m] + rest;
    }
  }

  lemma SecondMigration(f: Fleet, id: RunId, p: PodId) returns (moves: seq<Move>)
    requires f.cluster.job == None && id in f.runs && f.runs[id].phase.Create?
    requires p in f.cluster.pods && !f.cluster.pods[p].done && f.cluster.pods[p].owner in f.cluster.uids
    ensures CanRun(f, moves) && AllCareful(f, moves) && !OneMigration(Final(f, moves).cluster)
  {
    var uid := FreshUid(f.cluster.uids);
    var highest := HighestPod(f.cluster.pods.Keys);
    var q := highest + 1;
    var create, begin := Speak(id, Created(Made(uid)), Some(uid)), Disturb(PodStarts(q));
    var g := Moved(f, create);
    var h := Moved(g, begin);
    var none: seq<Move> := [];
    OneMove(g, begin, none);
    OneMove(f, create, [begin] + none);
    moves := [create] + ([begin] + none);
    assert h.cluster.pods[p].owner != h.cluster.pods[q].owner;
  }

  // ---------- The careless case can arise ----------

  lemma {:induction false} OneMoreMove(f: Fleet, moves: seq<Move>, m: Move)
    requires CanRun(f, moves) && AllCareful(f, moves)
    requires CanMove(Final(f, moves), m) && Careful(Final(f, moves), m)
    ensures CanRun(f, moves + [m]) && AllCareful(f, moves + [m])
    ensures Final(f, moves + [m]) == Moved(Final(f, moves), m)
    decreases |moves|
  {
    hide Moved, CanMove, Careful;
    if moves == [] {
      var none: seq<Move> := [];
      OneMove(f, m, none);
      assert moves + [m] == [m] + none;
    } else {
      OneMoreMove(Moved(f, moves[0]), moves[1..], m);
      OneMove(f, moves[0], moves[1..] + [m]);
      assert moves + [m] == [moves[0]] + (moves[1..] + [m]);
    }
  }

  lemma ReachedNext(f: Fleet, m: Move)
    requires CarefullyReached(f) && CanMove(f, m) && Careful(f, m)
    ensures CarefullyReached(Moved(f, m))
  {
    var moves :| CanRun(NoFleet, moves) && AllCareful(NoFleet, moves) && Final(NoFleet, moves) == f;
    OneMoreMove(NoFleet, moves, m);
  }

  /** A run moves on by an event that leaves the cluster as it is. */
  lemma RunMovesOn(f: Fleet, id: RunId, e: Event, q: Phase) returns (g: Fleet)
    requires CarefullyReached(f) && id in f.runs && !e.Created? && !e.Deleted? && Truthful(f.cluster, e)
    requires Next(f.runs[id].cfg, f.runs[id].phase, e) == Some(q)
    ensures CarefullyReached(g) && g == f.(runs := f.runs[id := f.runs[id].(phase := q)])
  {
    hide CarefullyReached, Next;
    var m := Speak(id, e, None);
    ReachedNext(f, m);
    g := Moved(f, m);
  }

  const Plain := Config(false, false, 0)

  lemma QuietPhases()
    ensures Next(Plain, CheckApplication, DryRun(Application, true)) == Some(Inspect)
    ensures Next(Plain, Inspect, GotJob(NotFound, false)) == Some(AwaitPods)
    ensures Next(Plain, AwaitPods, ListedPods(Listed([]), false)) == Some(CheckJob)
    ensures Next(Plain, CheckJob, DryRun(MigrationJob, true)) == Some(Create)
  {
  }

  /** One run up to the point where it has seen the slot empty and no pod running. */
  lemma RunUpToCheck(f: Fleet, id: RunId) returns (g: Fleet)
    requires CarefullyReached(f) && f.cluster.job == None && f.cluster.pods == map[]
    ensures CarefullyReached(g) && g.cluster == f.cluster
    ensures g.runs == f.runs[id := OrchestratorRun(Plain, CheckJob, None, "")]
  {
    QuietPhases();
    hide CarefullyReached, Next;
    ReachedNext(f, Start(id, Plain));
    g := Moved(f, Start(id, Plain));
    g := RunMovesOn(g, id, DryRun(Application, true), Inspect);
    g := RunMovesOn(g, id, GotJob(NotFound, false), AwaitPods);
    g := RunMovesOn(g, id, ListedPods(Listed([]), false), CheckJob);
  }

  /** The run creates its Job. */
  lemma JobLands(f: Fleet, id: RunId, uid: Uid) returns (g: Fleet)
    requires CarefullyReached(f) && id in f.runs && f.runs[id].phase.Create?
    requires f.cluster.job == None && uid !in f.cluster.uids
    ensures CarefullyReached(g) && id in g.runs && g.runs == f.runs[id := g.runs[id]] && g.runs[id].phase.AwaitJob?
    ensures g.cluster == f.cluster.(job := Some(JobObject(uid, None, false)), uids := f.cluster.uids + {uid})
  {
    hide CarefullyReached;
    var create := Speak(id, Created(Made(uid)), Some(uid));
    ReachedNext(f, create);
    g := Moved(f, create);
  }

  /** The run creates its Job, whose pod starts at once. */
  lemma JobAndPod(f: Fleet, id: RunId) returns (g: Fleet)
    requires CarefullyReached(f) && id in f.runs && f.runs[id].phase.Create?
    requires f.cluster.job == None && f.cluster.pods == map[] && f.cluster.uids == {}
    ensures CarefullyReached(g) && g.cluster.job.Some? && !NoPodRuns(g.cluster)
    ensures forall other :: other in f.runs && other != id ==> other in g.runs && g.runs[other] == f.runs[other]
  {
    hide CarefullyReached;
    g := JobLands(f, id, "a");
    ReachedNext(g, Disturb(PodStarts(0)));
    g := Moved(g, Disturb(PodStarts(0)));
    assert 0 in g.cluster.pods && !g.cluster.pods[0].done;
  }

  /** Two runs that look at the same time, and the first one's pod: from here a deletion that leaves
      the pod running lets the second run start another migration. */
  lemma CarelessCaseIsReachable() returns (f: Fleet)
    ensures CarefullyReached(f) && f.cluster.job.Some? && !Careful(f, Disturb(JobGone))
    ensures !StaysSingle(Moved(f, Disturb(JobGone)))
  {
    var none: seq<Move> := [];
    assert Final(NoFleet, none) == NoFleet;
    assert CarefullyReached(NoFleet);
    QuietPhases();
    hide CarefullyReached, Next, StaysSingle;
    f := RunUpToCheck(NoFleet, 0);
    f := RunUpToCheck(f, 1);
    f := RunMovesOn(f, 0, DryRun(MigrationJob, true), Create);
    f := JobAndPod(f, 0);
    assert 1 in f.runs && PodsSeenStopped(f.runs[1].phase);
    VanishingIsSafeIff(f);
  }

  // ---------- Deletes among several runs ----------

  /** Some run has seen a finished Job and not yet deleted it. */
  ghost predicate SomeoneIsAboutToDelete(f: Fleet)
  {
    exists id :: id in f.runs && AboutToDelete(f.runs[id].phase)
  }

  predicate Lands(m: Move)
  {
    m.Speak? && m.landed.Some?
  }

  /** A Job is created only while no run is about to delete. */
  ghost predicate Orderly(f: Fleet, m: Move)
  {
    Lands(m) ==> !SomeoneIsAboutToDelete(f)
  }

  ghost predicate AllOrderly(f: Fleet, moves: seq<Move>)
    requires CanRun(f, moves)
    decreases |moves|
  {
    moves == [] || (Orderly(f, moves[0]) && AllOrderly(Moved(f, moves[0]), moves[1..]))
  }

  /** The slot holds a Job that has not finished. */
  predicate Active(c: Cluster)
  {
    c.job.Some? && c.job.value.state == None
  }

  /** No delete of the history is sent while the slot holds an active Job. */
  ghost predicate SparesActiveJobs(f: Fleet, moves: seq<Move>)
    requires CanRun(f, moves)
    decreases |moves|
  {
    || moves == []
    || (&& (moves[0].Speak? && moves[0].e.Deleted? ==> !Active(f.cluster))
        && SparesActiveJobs(Moved(f, moves[0]), moves[1..]))
  }

  /** Whoever is about to delete finds no active Job in the slot. */
  ghost predicate DeletesOk(f: Fleet)
  {
    SomeoneIsAboutToDelete(f) ==> !Active(f.cluster)
  }

  lemma MoveKeepsDeletesOk(f: Fleet, m: Move)
    requires DeletesOk(f) && CanMove(f, m) && Orderly(f, m)
    ensures DeletesOk(Moved(f, m))
    ensures m.Speak? && m.e.Deleted? ==> !Active(f.cluster)
  {
    hide Next;
    var g := Moved(f, m);
    if m.Speak? {
      var r := f.runs[m.id];
      WhatIsRemembered(r.cfg, r.phase, m.e);
      WhatSlotPhasesMean(r.cfg, r.phase, m.e);
      WhatJobPhasesMean(r.cfg, r.phase, m.e);
    }
    if id :| id in g.runs && AboutToDelete(g.runs[id].phase) {
      assert ((m.Speak? || m.Start?) && m.id == id) || f.runs[id] == g.runs[id];
    }
  }

  lemma {:induction false} OrderlyHistorySparesActiveJobs(f: Fleet, moves: seq<Move>)
    requires DeletesOk(f) && CanRun(f, moves) && AllOrderly(f, moves)
    ensures DeletesOk(Final(f, moves)) && SparesActiveJobs(f, moves)
    decreases |moves|
  {
    hide DeletesOk, Moved, CanMove, Orderly, Active;
    if moves != [] {
      MoveKeepsDeletesOk(f, moves[0]);
      OrderlyHistorySparesActiveJobs(Moved(f, moves[0]), moves[1..]);
    }
  }

  /** Reached from nothing by interleaved runs that create in order; outside deletions may be as
      careless as they like. */
  ghost predicate OrderlyReached(f: Fleet)
  {
    exists moves :: CanRun(NoFleet, moves) && AllOrderly(NoFleet, moves) && Final(NoFleet, moves) == f
  }

  lemma OrderlyDeletesOk(f: Fleet)
    requires OrderlyReached(f)
    ensures DeletesOk(f)
  {
    var moves :| CanRun(NoFleet, moves) && AllOrderly(NoFleet, moves) && Final(NoFleet, moves) == f;
    OrderlyHistorySparesActiveJobs(NoFleet, moves);
  }

  /** However many deployments run at once: if Jobs are created only while nobody is about to delete,
      no delete reaches a Job that is still at work. */
  lemma OrderlyDeletesAreFinished(f: Fleet, id: RunId, ok: bool, landed: Option<Uid>)
    requires OrderlyReached(f) && CanMove(f, Speak(id, Deleted(ok), landed)) && f.cluster.job.Some?
    ensures f.cluster.job.value.state.Some?
  {
    OrderlyDeletesOk(f);
    WhatJobPhasesMean(f.runs[id].cfg, f.runs[id].phase, Deleted(ok));
  }

  /** From here on, while Jobs are created in order, no delete reaches an active Job. */
  ghost predicate StaysSparing(f: Fleet)
  {
    forall moves :: CanRun(f, moves) && AllOrderly(f, moves) ==> SparesActiveJobs(f, moves)
  }

  /** A create that lands is harmless to its own Job if and only if no other run is about to delete. */
  lemma CreateIsSafeIff(f: Fleet, m: Move)
    requires OrderlyReached(f) && CanMove(f, m) && Lands(m)
    ensures StaysSparing(Moved(f, m)) <==> !SomeoneIsAboutToDelete(f)
  {
    OrderlyDeletesOk(f);
    var g := Moved(f, m);
    var r := f.runs[m.id];
    WhatJobPhasesMean(r.cfg, r.phase, m.e);
    hide Next;
    if !SomeoneIsAboutToDelete(f) {
      MoveKeepsDeletesOk(f, m);
      forall moves | CanRun(g, moves) && AllOrderly(g, moves) ensures SparesActiveJobs(g, moves) {
        OrderlyHistorySparesActiveJobs(g, moves);
      }
    } else {
      var id :| id in f.runs && AboutToDelete(f.runs[id].phase);
      assert id != m.id && g.runs[id] == f.runs[id];
      var moves := DeleteOfActiveJob(g, id);
      assert !SparesActiveJobs(g, moves);
    }
  }

  lemma DeleteOfActiveJob(g: Fleet, id: RunId) returns (moves: seq<Move>)
    requires id in g.runs && AboutToDelete(g.runs[id].phase) && Active(g.cluster)
    ensures CanRun(g, moves) && AllOrderly(g, moves) && !SparesActiveJobs(g, moves)
  {
    var last := Speak(id, Deleted(true), None);
    if g.runs[id].phase.Delete? {
      moves := [last];
      assert moves[1..] == [];
    } else {
      var collect := Speak(id, Diagnosed, None);
      var h := Moved(g, collect);
      moves := [collect, last];
      assert moves[1..] == [last] && moves[1..][1..] == [];
      assert CanMove(h, last) && Active(h.cluster);
      assert CanRun(h, [last]) && AllOrderly(h, [last]) && !SparesActiveJobs(h, [last]);
    }
  }

  // ---------- The disorderly case can arise ----------

  const DoneJob := JobView("a", [Condition("Complete", "True")], false)

  lemma DoneJobIsDeleted()
    ensures StateOf(DoneJob) == Some(Complete)
    ensures Next(Plain, Inspect, GotJob(Found(DoneJob), false)) == Some(Delete("a"))
    ensures Next(Plain, AwaitGone("a"), GotJob(NotFound, false)) == Some(AwaitPods)
  {
    CompleteIsComplete();
    assert StateOf(DoneJob) == StateOf(JobView("someone-else", DoneJob.conditions, false));
  }

  /** A run up to the point where it has seen Job "a" complete. */
  lemma RunUpToDelete(f: Fleet, id: RunId) returns (g: Fleet)
    requires CarefullyReached(f) && f.cluster.job == Some(JobObject("a", Some(Complete), false))
    ensures CarefullyReached(g) && g.cluster == f.cluster
    ensures g.runs == f.runs[id := OrchestratorRun(Plain, Delete("a"), None, "")]
  {
    QuietPhases();
    DoneJobIsDeleted();
    hide CarefullyReached, Next, StateOf;
    ReachedNext(f, Start(id, Plain));
    g := Moved(f, Start(id, Plain));
    g := RunMovesOn(g, id, DryRun(Application, true), Inspect);
    g := RunMovesOn(g, id, GotJob(Found(DoneJob), false), Delete("a"));
  }

  /** A run deletes Job "a", which then goes. */
  lemma RunDeletes(f: Fleet, id: RunId) returns (g: Fleet)
    requires CarefullyReached(f) && id in f.runs && f.runs[id] == OrchestratorRun(Plain, Delete("a"), None, "")
    requires f.cluster.job.Some? && f.cluster.pods == map[]
    ensures CarefullyReached(g) && g.cluster == f.cluster.(job := None)
    ensures g.runs == f.runs[id := OrchestratorRun(Plain, AwaitGone("a"), None, "")]
  {
    assert Next(Plain, Delete("a"), Deleted(true)) == Some(AwaitGone("a"));
    hide CarefullyReached, Next;
    var delete := Speak(id, Deleted(true), None);
    ReachedNext(f, delete);
    g := Moved(f, delete);
    ReachedNext(g, Disturb(JobGone));
    g := Moved(g, Disturb(JobGone));
  }

  /** It sees the Job gone and gets as far as its create. */
  lemma RunGoesOn(f: Fleet, id: RunId) returns (g: Fleet)
    requires CarefullyReached(f) && id in f.runs && f.runs[id] == OrchestratorRun(Plain, AwaitGone("a"), None, "")
    requires f.cluster.job == None && f.cluster.pods == map[]
    ensures CarefullyReached(g) && g.cluster == f.cluster
    ensures g.runs == f.runs[id := OrchestratorRun(Plain, Create, None, "")]
  {
    QuietPhases();
    DoneJobIsDeleted();
    hide CarefullyReached, Next, StateOf;
    g := RunMovesOn(f, id, GotJob(NotFound, false), AwaitPods);
    g := RunMovesOn(g, id, ListedPods(Listed([]), false), CheckJob);
    g := RunMovesOn(g, id, DryRun(MigrationJob, true), Create);
  }

  /** A first run has created Job "a", and it has completed. */
  lemma JobCompletes() returns (f: Fleet)
    ensures CarefullyReached(f) && f.cluster.job == Some(JobObject("a", Some(Complete), false))
    ensures f.cluster.pods == map[] && f.cluster.uids == {"a"}
  {
    var none: seq<Move> := [];
    assert Final(NoFleet, none) == NoFleet;
    assert CarefullyReached(NoFleet);
    QuietPhases();
    hide CarefullyReached, Next;
    f := RunUpToCheck(NoFleet, 0);
    f := RunMovesOn(f, 0, DryRun(MigrationJob, true), Create);
    f := JobLands(f, 0, "a");
    ReachedNext(f, Disturb(JobEnds(Complete)));
    f := Moved(f, Disturb(JobEnds(Complete)));
  }

  /** Two runs see the same finished Job; the first one deletes it and creates its own, which the
      delete of the second one then reaches at work. Every deletion from outside was careful. */
  lemma ActiveJobIsDeleted() returns (f: Fleet)
    ensures CarefullyReached(f) && Active(f.cluster)
    ensures CanMove(f, Speak(2, Deleted(true), None))
  {
    assert Next(Plain, Delete("a"), Deleted(true)).Some?;
    hide CarefullyReached, Next;
    f := JobCompletes();
    f := RunUpToDelete(f, 1);
    f := RunUpToDelete(f, 2);
    f := RunDeletes(f, 1);
    f := RunGoesOn(f, 1);
    f := JobLands(f, 1, "b");
  }
}
