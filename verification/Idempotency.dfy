/** Idempotent mutations of the API: `_replay` takes a transaction-scoped advisory lock on the
    hash of the key, reads the committed record, and either replays, refuses or lets the endpoint
    work; `_remember` writes the record in the same transaction as the effect. Any number of
    request transactions interleave, abort at any point and collide on lock hashes, while the
    retention job may delete committed records at any moment. */
module Idempotency {
  import opened Wrappers

  /** (tenant, principal, idempotency key): the unique key of the record table. */
  datatype Slot = Slot(tenant: nat, principal: nat, key: string)

  /** `digest` is the SHA-256 of operation and body, taken to be injective. */
  datatype Request = Request(slot: Slot, operation: string, digest: string)

  datatype Record = Record(operation: string, digest: string, response: string)

  datatype Outcome = Success(response: string) | Conflict | Aborted

  /** Progress of one request transaction. From `Locked` to its end it holds the lock. */
  datatype Pc =
    | Idle
    | Waiting(req: Request)
    | Locked(req: Request)
    | Working(req: Request)
    | Remembered(req: Request, response: string)
    | Replaying(req: Request, response: string)
    | Refusing(req: Request)
    | Finished(req: Request, outcome: Outcome)

  /** What became durable: an effect together with its record, or a retention deletion. */
  datatype Event = Committed(slot: Slot, record: Record) | Purged(slot: Slot)

  type Tid = nat

  /** `log` only records the order of what became durable. */
  datatype Database = Database(
    records: map<Slot, Record>, locks: map<int, Tid>, pc: map<Tid, Pc>, log: seq<Event>)

  ghost const Empty := Database(map[], map[], map[], [])

  datatype Action =
    | Arrive(t: Tid, req: Request)
    | TakeLock(t: Tid)
    | Look(t: Tid)
    | Effect(t: Tid, response: string)
    | Commit(t: Tid)
    | Abort(t: Tid)
    | Purge(slot: Slot)

  type Hash = Slot -> int

  ghost function PcOf(d: Database, t: Tid): Pc
  {
    if t in d.pc then d.pc[t] else Idle
  }

  predicate HoldsLock(p: Pc)
  {
    p.Locked? || p.Working? || p.Remembered? || p.Replaying? || p.Refusing?
  }

  ghost predicate Enabled(h: Hash, d: Database, a: Action)
  {
    match a
    case Arrive(t, req) => PcOf(d, t).Idle? || PcOf(d, t).Finished?
    case TakeLock(t) => PcOf(d, t).Waiting? && h(PcOf(d, t).req.slot) !in d.locks
    case Look(t) => PcOf(d, t).Locked?
    case Effect(t, r) => PcOf(d, t).Working?
    case Commit(t) => PcOf(d, t).Remembered? || PcOf(d, t).Replaying? || PcOf(d, t).Refusing?
    case Abort(t) => PcOf(d, t).Waiting? || HoldsLock(PcOf(d, t))
    case Purge(slot) => slot in d.records
  }

  /** The read of `_replay`, which sees what is committed at that moment. */
  function Verdict(records: map<Slot, Record>, req: Request): Pc
  {
    if req.slot !in records then Working(req)
    else
      var existing := records[req.slot];
      if existing.operation != req.operation || existing.digest != req.digest then Refusing(req)
      else Replaying(req, existing.response)
  }

  /** The end of a transaction releases its advisory lock, whatever the outcome. */
  ghost function Release(h: Hash, d: Database, t: Tid, outcome: Outcome): Database
    requires HoldsLock(PcOf(d, t))
  {
    var req := PcOf(d, t).req;
    d.(locks := d.locks - {h(req.slot)}, pc := d.pc[t := Finished(req, outcome)])
  }

  ghost function Step(h: Hash, d: Database, a: Action): Database
    requires Enabled(h, d, a)
  {
    match a
    case Arrive(t, req) => d.(pc := d.pc[t := Waiting(req)])
    case TakeLock(t) =>
      var req := PcOf(d, t).req;
      d.(locks := d.locks[h(req.slot) := t], pc := d.pc[t := Locked(req)])
    case Look(t) => d.(pc := d.pc[t := Verdict(d.records, PcOf(d, t).req)])
    case Effect(t, response) => d.(pc := d.pc[t := Remembered(PcOf(d, t).req, response)])
    case Commit(t) =>
      (match PcOf(d, t)
       case Remembered(req, response) =>
         if req.slot in d.records then Release(h, d, t, Aborted)
         else
           var record := Record(req.operation, req.digest, response);
           Release(h, d, t, Success(response)).(
             records := d.records[req.slot := record],
             log := d.log + [Committed(req.slot, record)])
       case Replaying(req, response) => Release(h, d, t, Success(response))
       case _ => Release(h, d, t, Conflict))
    case Abort(t) =>
      if HoldsLock(PcOf(d, t)) then Release(h, d, t, Aborted)
      else d.(pc := d.pc[t := Finished(PcOf(d, t).req, Aborted)])
    case Purge(slot) => d.(records := d.records - {slot}, log := d.log + [Purged(slot)])
  }

  ghost predicate Runs(h: Hash, d: Database, actions: seq<Action>)
    decreases |actions|
  {
    actions == [] || (Enabled(h, d, actions[0]) && Runs(h, Step(h, d, actions[0]), actions[1..]))
  }

  ghost function After(h: Hash, d: Database, actions: seq<Action>): Database
    requires Runs(h, d, actions)
    decreases |actions|
  {
    if actions == [] then d else After(h, Step(h, d, actions[0]), actions[1..])
  }

  // ---------- Reading the log ----------

  /** The records a log leaves behind. */
  ghost function Table(log: seq<Event>): map<Slot, Record>
  {
    if log == [] then map[] else Applied(Table(log[..|log| - 1]), log[|log| - 1])
  }

  ghost function Applied(records: map<Slot, Record>, e: Event): map<Slot, Record>
  {
    match e
    case Committed(slot, record) => records[slot := record]
    case Purged(slot) => records - {slot}
  }

  /** Every effect was committed while its slot held no record. */
  ghost predicate NeverOverwrites(log: seq<Event>)
  {
    forall i :: 0 <= i < |log| && log[i].Committed? ==> log[i].slot !in Table(log[..i])
  }

  ghost predicate EffectCommitted(log: seq<Event>, req: Request, response: string)
  {
    Committed(req.slot, Record(req.operation, req.digest, response)) in log
  }

  // ---------- The invariant ----------

  ghost predicate LocksExact(h: Hash, d: Database)
  {
    && (forall t :: HoldsLock(PcOf(d, t)) ==>
          h(PcOf(d, t).req.slot) in d.locks && d.locks[h(PcOf(d, t).req.slot)] == t)
    && (forall k :: k in d.locks ==>
          HoldsLock(PcOf(d, d.locks[k])) && h(PcOf(d, d.locks[k]).req.slot) == k)
  }

  /** What a transaction knows stays true while it holds the lock. */
  ghost predicate Grounded(d: Database, t: Tid)
  {
    var p := PcOf(d, t);
    && (p.Working? || p.Remembered? ==> p.req.slot !in d.records)
    && (p.Replaying? ==> EffectCommitted(d.log, p.req, p.response))
    && (p.Finished? && p.outcome.Success? ==> EffectCommitted(d.log, p.req, p.outcome.response))
  }

  ghost predicate Invariant(h: Hash, d: Database)
  {
    && LocksExact(h, d)
    && (forall t :: Grounded(d, t))
    && RecordsFollowLog(d)
  }

  ghost predicate RecordsFollowLog(d: Database)
  {
    && d.records == Table(d.log)
    && (forall slot :: slot in d.records ==> Committed(slot, d.records[slot]) in d.log)
    && NeverOverwrites(d.log)
  }

  lemma StepKeepsLocks(h: Hash, d: Database, a: Action)
    requires Enabled(h, d, a) && LocksExact(h, d)
    ensures LocksExact(h, Step(h, d, a))
  {
    var d' := Step(h, d, a);
    forall u | HoldsLock(PcOf(d', u))
      ensures h(PcOf(d', u).req.slot) in d'.locks && d'.locks[h(PcOf(d', u).req.slot)] == u
    {
      if HoldsLock(PcOf(d, u)) {
        assert d.locks[h(PcOf(d, u).req.slot)] == u;
        if !a.Purge? && u != a.t && HoldsLock(PcOf(d, a.t)) {
          assert d.locks[h(PcOf(d, a.t).req.slot)] == a.t;
        }
      }
    }
    forall k | k in d'.locks
      ensures HoldsLock(PcOf(d', d'.locks[k])) && h(PcOf(d', d'.locks[k]).req.slot) == k
    {
      if k in d.locks {
        var owner := d.locks[k];
        assert HoldsLock(PcOf(d, owner)) && h(PcOf(d, owner).req.slot) == k;
      }
    }
  }

  /** The transaction that steps. */
  lemma StepKeepsOwnGrounds(h: Hash, d: Database, a: Action)
    requires Enabled(h, d, a) && !a.Purge? && Grounded(d, a.t)
    requires forall slot :: slot in d.records ==> Committed(slot, d.records[slot]) in d.log
    ensures Grounded(Step(h, d, a), a.t)
  {
  }

  /** Any other one: a commit under the lock of its slot is not in its way. */
  lemma StepKeepsOtherGrounds(h: Hash, d: Database, a: Action, t: Tid)
    requires Enabled(h, d, a) && LocksExact(h, d) && Grounded(d, t) && (!a.Purge? ==> t != a.t)
    ensures Grounded(Step(h, d, a), t)
  {
    if a.Commit? && PcOf(d, a.t).Remembered? {
      assert HoldsLock(PcOf(d, t)) ==> PcOf(d, t).req.slot != PcOf(d, a.t).req.slot;
    }
  }

  lemma StepKeepsGrounds(h: Hash, d: Database, a: Action, t: Tid)
    requires Enabled(h, d, a) && Invariant(h, d)
    ensures Grounded(Step(h, d, a), t)
  {
    assert Grounded(d, t);
    hide LocksExact, Grounded, Step, Enabled, Table, NeverOverwrites;
    if a.Purge? || t != a.t {
      StepKeepsOtherGrounds(h, d, a, t);
    } else {
      StepKeepsOwnGrounds(h, d, a);
    }
  }

  lemma LogGrows(log: seq<Event>, e: Event)
    requires NeverOverwrites(log) && (e.Committed? ==> e.slot !in Table(log))
    ensures NeverOverwrites(log + [e])
    ensures Table(log + [e]) == Applied(Table(log), e)
  {
    var log' := log + [e];
    assert log'[..|log|] == log;
    forall i | 0 <= i < |log'| && log'[i].Committed? ensures log'[i].slot !in Table(log'[..i]) {
      assert log'[..i] == log[..i];
    }
  }

  lemma StepKeepsRecords(h: Hash, d: Database, a: Action)
    requires Enabled(h, d, a) && RecordsFollowLog(d) && (!a.Purge? ==> Grounded(d, a.t))
    ensures RecordsFollowLog(Step(h, d, a))
  {
    hide NeverOverwrites, Table;
    if a.Purge? {
      LogGrows(d.log, Purged(a.slot));
    } else if a.Commit? && PcOf(d, a.t).Remembered? {
      var req := PcOf(d, a.t).req;
      LogGrows(d.log, Committed(req.slot, Record(req.operation, req.digest, PcOf(d, a.t).response)));
    }
  }

  lemma StepKeepsInvariant(h: Hash, d: Database, a: Action)
    requires Enabled(h, d, a) && Invariant(h, d)
    ensures Invariant(h, Step(h, d, a))
  {
    var d' := Step(h, d, a);
    StepKeepsLocks(h, d, a);
    StepKeepsRecords(h, d, a);
    forall t ensures Grounded(d', t) { StepKeepsGrounds(h, d, a, t); }
  }

  lemma {:induction false} EveryRunKeepsInvariant(h: Hash, d: Database, actions: seq<Action>)
    requires Invariant(h, d) && Runs(h, d, actions)
    ensures Invariant(h, After(h, d, actions))
    decreases |actions|
  {
    if actions != [] {
      StepKeepsInvariant(h, d, actions[0]);
      EveryRunKeepsInvariant(h, Step(h, d, actions[0]), actions[1..]);
    }
  }

  ghost predicate Reachable(h: Hash, d: Database)
  {
    exists actions :: Runs(h, Empty, actions) && After(h, Empty, actions) == d
  }

  lemma ReachableInvariant(h: Hash, d: Database)
    requires Reachable(h, d)
    ensures Invariant(h, d)
  {
    var actions :| Runs(h, Empty, actions) && After(h, Empty, actions) == d;
    EveryRunKeepsInvariant(h, Empty, actions);
  }

  // ---------- At most one effect per key ----------

  lemma {:induction false} RecordSurvives(log: seq<Event>, i: nat, n: nat)
    requires i < n <= |log| && log[i].Committed?
    requires forall k :: i < k < n ==> log[k] != Purged(log[i].slot)
    ensures log[i].slot in Table(log[..n])
    decreases n
  {
    assert log[..n][..n - 1] == log[..n - 1];
    if n > i + 1 { RecordSurvives(log, i, n - 1); }
  }

  /** In every interleaving, two effects of one key are separated by a retention deletion of its
      record: without one there is at most one effect per (tenant, principal, key). */
  lemma AtMostOneEffectBetweenPurges(h: Hash, d: Database, i: nat, j: nat)
    requires Reachable(h, d) && i < j < |d.log|
    requires d.log[i].Committed? && d.log[j].Committed? && d.log[i].slot == d.log[j].slot
    ensures exists k :: i < k < j && d.log[k] == Purged(d.log[i].slot)
  {
    ReachableInvariant(h, d);
    if forall k :: i < k < j ==> d.log[k] != Purged(d.log[i].slot) {
      RecordSurvives(d.log, i, j);
    }
  }

  /** While the record of a key is not purged, all successful answers for the key are the same
      answer to the same request: a different operation or digest never succeeds, so it never has
      an effect. */
  lemma SuccessesAgree(h: Hash, d: Database, t: Tid, u: Tid)
    requires Reachable(h, d)
    requires PcOf(d, t).Finished? && PcOf(d, t).outcome.Success?
    requires PcOf(d, u).Finished? && PcOf(d, u).outcome.Success?
    requires PcOf(d, t).req.slot == PcOf(d, u).req.slot && Purged(PcOf(d, t).req.slot) !in d.log
    ensures PcOf(d, t).req == PcOf(d, u).req && PcOf(d, t).outcome == PcOf(d, u).outcome
  {
    ReachableInvariant(h, d);
    hide Reachable, LocksExact;
    assert Grounded(d, t) && Grounded(d, u);
    var p, q := PcOf(d, t).req, PcOf(d, u).req;
    OneCommitPerSlot(d.log, Committed(p.slot, Record(p.operation, p.digest, PcOf(d, t).outcome.response)),
                     Committed(q.slot, Record(q.operation, q.digest, PcOf(d, u).outcome.response)));
  }

  lemma CommitsDiffer(log: seq<Event>, i: nat, j: nat)
    requires NeverOverwrites(log) && i < j < |log| && log[i].Committed? && log[j].Committed?
    requires Purged(log[i].slot) !in log
    ensures log[i].slot != log[j].slot
  {
    hide Table;
    RecordSurvives(log, i, j);
  }

  lemma OneCommitPerSlot(log: seq<Event>, a: Event, b: Event)
    requires NeverOverwrites(log) && a in log && b in log && a.Committed? && b.Committed?
    requires a.slot == b.slot && Purged(a.slot) !in log
    ensures a == b
  {
    hide Table, NeverOverwrites;
    var i :| 0 <= i < |log| && log[i] == a;
    var j :| 0 <= j < |log| && log[j] == b;
    if i != j {
      CommitsDiffer(log, if i < j then i else j, if i < j then j else i);
    }
  }

  /** A success is never invented: its effect is in the log with exactly this response. */
  lemma SuccessMeansCommitted(h: Hash, d: Database, t: Tid)
    requires Reachable(h, d)
    requires PcOf(d, t).Finished? && PcOf(d, t).outcome.Success?
    ensures EffectCommitted(d.log, PcOf(d, t).req, PcOf(d, t).outcome.response)
  {
    ReachableInvariant(h, d);
    assert Grounded(d, t);
  }

  // ---------- Progress ----------

  /** A transaction that waits for a lock waits for one that is not waiting itself, so advisory
      locks alone never deadlock, whatever hashes collide. */
  lemma LockHolderIsNotWaiting(h: Hash, d: Database, t: Tid)
    requires Reachable(h, d) && PcOf(d, t).Waiting?
    ensures Enabled(h, d, TakeLock(t)) ||
            HoldsLock(PcOf(d, d.locks[h(PcOf(d, t).req.slot)]))
  {
    ReachableInvariant(h, d);
    var k := h(PcOf(d, t).req.slot);
    if k in d.locks {
      var owner := d.locks[k];
      assert LocksExact(h, d) && HoldsLock(PcOf(d, owner));
    }
  }

  /** An abort leaves nothing behind but its own outcome, and frees its lock. */
  lemma AbortLeavesNoTrace(h: Hash, d: Database, t: Tid)
    requires Reachable(h, d) && HoldsLock(PcOf(d, t))
    ensures var d' := Step(h, d, Abort(t));
            d'.records == d.records && d'.log == d.log && h(PcOf(d, t).req.slot) !in d'.locks
  {
  }

  /** After an abort of the first attempt the key is free: a retry, even of a different request,
      can run to a committed effect. */
  lemma AbortedKeyIsReusable(h: Hash, d: Database, t: Tid, retry: Request, response: string)
    requires Reachable(h, d) && HoldsLock(PcOf(d, t))
    requires retry.slot == PcOf(d, t).req.slot && retry.slot !in d.records
    ensures var actions := [Abort(t), Arrive(t, retry), TakeLock(t), Look(t), Effect(t, response), Commit(t)];
            && Runs(h, d, actions)
            && PcOf(After(h, d, actions), t) == Finished(retry, Success(response))
            && EffectCommitted(After(h, d, actions).log, retry, response)
  {
    AbortLeavesNoTrace(h, d, t);
    FreeKeyRunsToCommit(h, Step(h, d, Abort(t)), t, retry, response);
    var rest := [Arrive(t, retry), TakeLock(t), Look(t), Effect(t, response), Commit(t)];
    RunsCons(h, d, Abort(t), rest);
    assert [Abort(t)] + rest == [Abort(t), Arrive(t, retry), TakeLock(t), Look(t), Effect(t, response), Commit(t)];
  }

  lemma FreeKeyRunsToCommit(h: Hash, d: Database, t: Tid, req: Request, response: string)
    requires PcOf(d, t).Finished? && req.slot !in d.records && h(req.slot) !in d.locks
    ensures var actions := [Arrive(t, req), TakeLock(t), Look(t), Effect(t, response), Commit(t)];
            && Runs(h, d, actions)
            && PcOf(After(h, d, actions), t) == Finished(req, Success(response))
            && EffectCommitted(After(h, d, actions).log, req, response)
  {
    var d1 := Step(h, d, Arrive(t, req));
    var d2 := Step(h, d1, TakeLock(t));
    var d3 := Step(h, d2, Look(t));
    var d4 := Step(h, d3, Effect(t, response));
    var d5 := Step(h, d4, Commit(t));
    var rest5: seq<Action> := [];
    var rest4 := [Commit(t)];
    var rest3 := [Effect(t, response)] + rest4;
    var rest2 := [Look(t)] + rest3;
    var rest1 := [TakeLock(t)] + rest2;
    assert rest4 == [Commit(t)] + rest5;
    RunsCons(h, d4, Commit(t), rest5);
    RunsCons(h, d3, Effect(t, response), rest4);
    RunsCons(h, d2, Look(t), rest3);
    RunsCons(h, d1, TakeLock(t), rest2);
    RunsCons(h, d, Arrive(t, req), rest1);
    assert [Arrive(t, req)] + rest1 == [Arrive(t, req), TakeLock(t), Look(t), Effect(t, response), Commit(t)];
    assert d5.log[|d5.log| - 1] == Committed(req.slot, Record(req.operation, req.digest, response));
  }

  lemma RunsCons(h: Hash, d: Database, a: Action, rest: seq<Action>)
    requires Enabled(h, d, a) && Runs(h, Step(h, d, a), rest)
    ensures Runs(h, d, [a] + rest) && After(h, d, [a] + rest) == After(h, Step(h, d, a), rest)
  {
    assert ([a] + rest)[1..] == rest;
  }

  // ---------- One mutation, as the endpoint runs it ----------

  /** The steps of one mutation that gets its lock; `work` is the endpoint's response, or None
      when the endpoint raises. */
  function Path(records: map<Slot, Record>, t: Tid, req: Request, work: Option<string>): seq<Action>
  {
    if !Verdict(records, req).Working? then [TakeLock(t), Look(t), Commit(t)]
    else if work.Some? then [TakeLock(t), Look(t), Effect(t, work.value), Commit(t)]
    else [TakeLock(t), Look(t), Abort(t)]
  }

  function OutcomeOf(records: map<Slot, Record>, req: Request, work: Option<string>): Outcome
  {
    if Verdict(records, req).Refusing? then Conflict
    else if Verdict(records, req).Replaying? then Success(records[req.slot].response)
    else if work.Some? then Success(work.value) else Aborted
  }

  function RecordsAfter(records: map<Slot, Record>, req: Request, work: Option<string>): map<Slot, Record>
  {
    if req.slot !in records && work.Some? then
      records[req.slot := Record(req.operation, req.digest, work.value)]
    else records
  }

  /** The idempotency table, seen from one transaction. */
  class RecordTable {
    var records: map<Slot, Record>

    constructor ()
      ensures records == map[]
    {
      records := map[];
    }

    method Replay(req: Request) returns (verdict: Pc)
      ensures verdict == Verdict(records, req)
      ensures verdict.Working? <==> req.slot !in records
      ensures verdict.Replaying? ==>
                req.slot in records && records[req.slot] == Record(req.operation, req.digest, verdict.response)
      ensures verdict.Refusing? ==>
                && req.slot in records
                && (records[req.slot].operation, records[req.slot].digest) != (req.operation, req.digest)
    {
      if req.slot !in records {
        return Working(req);
      }
      var existing := records[req.slot];
      if existing.operation != req.operation || existing.digest != req.digest {
        return Refusing(req);
      }
      return Replaying(req, existing.response);
    }

    method Remember(req: Request, response: string)
      requires req.slot !in records
      modifies this
      ensures records == old(records)[req.slot := Record(req.operation, req.digest, response)]
    {
      records := records[req.slot := Record(req.operation, req.digest, response)];
    }

    /** `_control` from `_replay` on, which holds the lock to its end. */
    method Control(req: Request, work: Option<string>) returns (outcome: Outcome)
      modifies this
      ensures outcome == OutcomeOf(old(records), req, work)
      ensures records == RecordsAfter(old(records), req, work)
      ensures req.slot in old(records) ==>
                && records == old(records)
                && outcome == var r := old(records)[req.slot];
                     if r.operation == req.operation && r.digest == req.digest then Success(r.response) else Conflict
      ensures req.slot !in old(records) ==>
                if work.Some? then
                  && outcome == Success(work.value)
                  && records == old(records)[req.slot := Record(req.operation, req.digest, work.value)]
                else outcome == Aborted && records == old(records)
    {
      var verdict := Replay(req);
      if verdict.Refusing? {
        return Conflict;
      }
      if verdict.Replaying? {
        return Success(verdict.response);
      }
      if work.None? {
        return Aborted;
      }
      Remember(req, work.value);
      return Success(work.value);
    }
  }

  /** What the endpoint's code does in one go is what the interleaved transactions do step by step
      when nothing comes between: same durable records, same outcome. */
  lemma ControlIsARun(h: Hash, d: Database, t: Tid, work: Option<string>)
    requires PcOf(d, t).Waiting? && Enabled(h, d, TakeLock(t))
    ensures var req := PcOf(d, t).req;
            var path := Path(d.records, t, req, work);
            && Runs(h, d, path)
            && After(h, d, path).records == RecordsAfter(d.records, req, work)
            && PcOf(After(h, d, path), t) == Finished(req, OutcomeOf(d.records, req, work))
  {
    if Verdict(d.records, PcOf(d, t).req).Working? && work.Some? {
      WorkingRun(h, d, t, work.value);
    } else {
      EndingRun(h, d, t, work);
    }
  }

  lemma WorkingRun(h: Hash, d: Database, t: Tid, response: string)
    requires PcOf(d, t).Waiting? && Enabled(h, d, TakeLock(t)) && Verdict(d.records, PcOf(d, t).req).Working?
    ensures var req := PcOf(d, t).req;
            var path := Path(d.records, t, req, Some(response));
            && Runs(h, d, path)
            && After(h, d, path).records == RecordsAfter(d.records, req, Some(response))
            && PcOf(After(h, d, path), t) == Finished(req, Success(response))
  {
    var d1 := Step(h, d, TakeLock(t));
    var d2 := Step(h, d1, Look(t));
    var d3 := Step(h, d2, Effect(t, response));
    LastMove(h, d3, Commit(t));
    RunsCons(h, d2, Effect(t, response), [Commit(t)]);
    RunsCons(h, d1, Look(t), [Effect(t, response)] + [Commit(t)]);
    RunsCons(h, d, TakeLock(t), [Look(t)] + ([Effect(t, response)] + [Commit(t)]));
    assert [TakeLock(t)] + ([Look(t)] + ([Effect(t, response)] + [Commit(t)]))
        == Path(d.records, t, PcOf(d, t).req, Some(response));
  }

  lemma EndingRun(h: Hash, d: Database, t: Tid, work: Option<string>)
    requires PcOf(d, t).Waiting? && Enabled(h, d, TakeLock(t))
    requires Verdict(d.records, PcOf(d, t).req).Working? ==> work.None?
    ensures var req := PcOf(d, t).req;
            var path := Path(d.records, t, req, work);
            && Runs(h, d, path)
            && After(h, d, path).records == RecordsAfter(d.records, req, work)
            && PcOf(After(h, d, path), t) == Finished(req, OutcomeOf(d.records, req, work))
  {
    var req := PcOf(d, t).req;
    var d1 := Step(h, d, TakeLock(t));
    var last := if Verdict(d.records, req).Working? then Abort(t) else Commit(t);
    LastMove(h, Step(h, d1, Look(t)), last);
    RunsCons(h, d1, Look(t), [last]);
    RunsCons(h, d, TakeLock(t), [Look(t)] + [last]);
    assert [TakeLock(t)] + ([Look(t)] + [last]) == Path(d.records, t, req, work);
  }

  lemma LastMove(h: Hash, d: Database, a: Action)
    requires Enabled(h, d, a)
    ensures Runs(h, d, [a]) && After(h, d, [a]) == Step(h, d, a)
  {
    var none: seq<Action> := [];
    assert [a] == [a] + none;
    RunsCons(h, d, a, none);
  }

  // ---------- Retries ----------

  lemma RecordsAreCommitted(h: Hash, d: Database, slot: Slot)
    requires Reachable(h, d) && slot in d.records
    ensures Committed(slot, d.records[slot]) in d.log
  {
    ReachableInvariant(h, d);
  }

  /** In every reachable state in which the record of a key is there and its lock is free: a retry of
      the recorded request ends with the recorded response, any other request with a conflict, and
      neither has an effect or touches the records. */
  lemma RetryIsAnswered(h: Hash, d: Database, t: Tid)
    requires Reachable(h, d) && PcOf(d, t).Waiting?
    requires PcOf(d, t).req.slot in d.records && h(PcOf(d, t).req.slot) !in d.locks
    ensures var req, actions := PcOf(d, t).req, [TakeLock(t), Look(t), Commit(t)];
            var r := d.records[req.slot];
            && Runs(h, d, actions)
            && After(h, d, actions).log == d.log && After(h, d, actions).records == d.records
            && PcOf(After(h, d, actions), t) ==
                 Finished(req, if r.operation == req.operation && r.digest == req.digest then Success(r.response)
                               else Conflict)
            && EffectCommitted(d.log, Request(req.slot, r.operation, r.digest), r.response)
  {
    RecordsAreCommitted(h, d, PcOf(d, t).req.slot);
    var d1 := Step(h, d, TakeLock(t));
    var d2 := Step(h, d1, Look(t));
    hide Reachable;
    LastMove(h, d2, Commit(t));
    RunsCons(h, d1, Look(t), [Commit(t)]);
    RunsCons(h, d, TakeLock(t), [Look(t)] + [Commit(t)]);
    assert [TakeLock(t)] + ([Look(t)] + [Commit(t)]) == [TakeLock(t), Look(t), Commit(t)];
  }

  /** Nothing but an abort stands between a free key and its effect: with the lock and the key free, a
      request runs to its own response, committed together with its record. */
  lemma FirstRequestSucceeds(h: Hash, d: Database, t: Tid, response: string)
    requires PcOf(d, t).Waiting? && PcOf(d, t).req.slot !in d.records && h(PcOf(d, t).req.slot) !in d.locks
    ensures var req, actions := PcOf(d, t).req, [TakeLock(t), Look(t), Effect(t, response), Commit(t)];
            && Runs(h, d, actions)
            && PcOf(After(h, d, actions), t) == Finished(req, Success(response))
            && After(h, d, actions).records == d.records[req.slot := Record(req.operation, req.digest, response)]
  {
    WorkingRun(h, d, t, response);
    assert Path(d.records, t, PcOf(d, t).req, Some(response)) == [TakeLock(t), Look(t), Effect(t, response), Commit(t)];
  }

  // ---------- Which requests count as the same operation ----------

  datatype Endpoint = Escalate | Cancel | Resolve | Annotate | RequestRemediation | Decide

  function OperationPrefix(e: Endpoint): string
  {
    match e
    case Escalate => "incident.escalated:"
    case Cancel => "incident.escalated:"
    case Resolve => "incident.resolved:"
    case Annotate => "incident.annotate:"
    case RequestRemediation => "incident.remediation_request:"
    case Decide => "approval.decide:"
  }

  /** The `operation` string an endpoint passes to `_replay`; `subject` is the id in its path. */
  function OperationName(e: Endpoint, subject: string): string
  {
    OperationPrefix(e) + subject
  }

  predicate SameName(e: Endpoint, f: Endpoint) { e == f || (e in {Escalate, Cancel} && f in {Escalate, Cancel}) }

  /** Two characters tell the endpoints apart. */
  lemma PrefixesDiffer(e: Endpoint, f: Endpoint)
    ensures var p, q := OperationPrefix(e), OperationPrefix(f);
            && |p| >= 12 && |q| >= 12
            && (SameName(e, f) ==> p == q)
            && (!SameName(e, f) ==> p[9] != q[9] || p[11] != q[11])
  {
  }

  /** The operation string identifies the endpoint and its subject, except that escalate and
      cancel share one: with the same key and justification, one replays the other's response. */
  lemma OperationsCollideOnlyOnEscalateAndCancel(e: Endpoint, f: Endpoint, x: string, y: string)
    ensures OperationName(e, x) == OperationName(f, y) <==> x == y && SameName(e, f)
  {
    hide OperationPrefix, SameName;
    PrefixesDiffer(e, f);
    var a, b := OperationName(e, x), OperationName(f, y);
    var p, q := OperationPrefix(e), OperationPrefix(f);
    if a == b {
      assert a[9] == p[9] && a[11] == p[11] && b[9] == q[9] && b[11] == q[11];
      assert x == a[|p|..] && y == b[|q|..];
    }
  }
}
