/** Requests of the API share a thread pool, a database connection pool, the ingestion slots and
    the advisory locks of idempotent mutations. A request is the list of its waits and releases;
    any number of them interleave. Programs that take slot, thread, connection and lock in this
    order and give them back in the opposite one can never deadlock; the earlier forms of the
    endpoints, which held a connection while waiting for a thread or a second connection, can. */
module PoolDiscipline {
  import opened Wrappers

  /** There is one advisory lock for each hash, whatever keys share it. */
  datatype Resource = SlotR | ThreadR | ConnR | LockR(hash: int)

  /** `Acquire` waits for a free unit; `Work` is anything in between that waits for nothing. */
  datatype Op = Acquire(r: Resource) | Release(r: Resource) | Work

  datatype Kind = EndpointRequest | MutationRequest | IngestRequest | FormerRequest

  /** What is left to do, and what is held. */
  datatype Request = Request(kind: Kind, todo: seq<Op>, slot: bool, thread: bool, conn: nat, lock: Option<int>)

  datatype Capacity = Capacity(slots: nat, threads: nat, conns: nat)

  type State = seq<Request>

  // ---------- The programs of the API ----------

  /** One call in the thread pool that touches no database. */
  const Plain: seq<Op> := [Acquire(ThreadR), Work, Release(ThreadR)]

  /** One call in the thread pool with its own short transaction. */
  const Transaction: seq<Op> :=
    [Acquire(ThreadR), Acquire(ConnR), Work, Release(ConnR), Release(ThreadR)]

  /** A synchronous endpoint: authenticate, build the session object, run the endpoint (which
      commits and closes in its own thread), validate the response, tear the dependency down. */
  const Endpoint: seq<Op> := Transaction + Plain + Transaction + Plain + Plain

  /** The database work of an idempotent mutation: the lock is taken inside the transaction, which
      holds a thread and a connection by then, and its end releases the lock. */
  function LockedTransaction(h: int): seq<Op>
  {
    [Acquire(ThreadR), Acquire(ConnR), Acquire(LockR(h)), Work, Release(LockR(h)), Release(ConnR), Release(ThreadR)]
  }

  function Mutation(h: int): seq<Op>
  {
    Transaction + Plain + LockedTransaction(h) + Plain + Plain
  }

  /** The ingestion endpoint: authenticate, take a slot, check the connector scope in its own
      transaction, read the body without a thread, ingest, give the slot back. */
  const AfterAuthentication: seq<Op> :=
    [Acquire(SlotR)] + Transaction + [Work] + Transaction + [Release(SlotR)]
  const Ingest: seq<Op> := Transaction + AfterAuthentication

  /** Before the bulkhead, once authenticated: the request's own connection stayed checked out
      while ingestion took a second one. */
  const FormerIngest: seq<Op> :=
    [Acquire(ThreadR), Acquire(ConnR), Acquire(ConnR), Release(ConnR), Release(ConnR), Release(ThreadR)]

  /** Before the lazy binding, once authenticated: the dependency checked the connection out in one
      thread-pool call and the endpoint waited for another. */
  const FormerEndpoint: seq<Op> :=
    [Acquire(ThreadR), Acquire(ConnR), Release(ThreadR), Acquire(ThreadR), Release(ThreadR), Release(ConnR)]

  // ---------- Steps ----------

  function Start(kind: Kind, program: seq<Op>): Request
  {
    Request(kind, program, false, false, 0, None)
  }

  function Units(r: Request, res: Resource): nat
  {
    match res
    case SlotR => if r.slot then 1 else 0
    case ThreadR => if r.thread then 1 else 0
    case ConnR => r.conn
    case LockR(h) => if r.lock == Some(h) then 1 else 0
  }

  function Held(s: State, res: Resource): nat
  {
    if s == [] then 0 else Units(s[0], res) + Held(s[1..], res)
  }

  function Limit(c: Capacity, res: Resource): nat
  {
    match res
    case SlotR => c.slots
    case ThreadR => c.threads
    case ConnR => c.conns
    case LockR(h) => 1
  }

  predicate Finished(r: Request) { r.todo == [] }

  /** A request can take its next step unless it waits for a resource that is used up. */
  predicate CanStep(c: Capacity, s: State, i: nat)
    requires i < |s|
  {
    s[i].todo != [] &&
    match s[i].todo[0]
    case Acquire(res) => Held(s, res) < Limit(c, res)
    case _ => true
  }

  function Advance(r: Request): Request
    requires r.todo != []
  {
    var rest := r.todo[1..];
    match r.todo[0]
    case Acquire(SlotR) => r.(todo := rest, slot := true)
    case Acquire(ThreadR) => r.(todo := rest, thread := true)
    case Acquire(ConnR) => r.(todo := rest, conn := r.conn + 1)
    case Acquire(LockR(h)) => r.(todo := rest, lock := Some(h))
    case Release(SlotR) => r.(todo := rest, slot := false)
    case Release(ThreadR) => r.(todo := rest, thread := false)
    case Release(ConnR) => r.(todo := rest, conn := if r.conn == 0 then 0 else r.conn - 1)
    case Release(LockR(h)) => r.(todo := rest, lock := None)
    case Work => r.(todo := rest)
  }

  /** A request that waits for a slot for too long is answered 503 and ends. */
  datatype Move = Take(i: nat) | SlotTimeout(i: nat)

  predicate Enabled(c: Capacity, s: State, m: Move)
  {
    m.i < |s| &&
    match m
    case Take(i) => CanStep(c, s, i)
    case SlotTimeout(i) => s[i].todo != [] && s[i].todo[0] == Acquire(SlotR)
  }

  function Step(c: Capacity, s: State, m: Move): State
    requires Enabled(c, s, m)
  {
    match m
    case Take(i) => s[i := Advance(s[i])]
    case SlotTimeout(i) => s[i := s[i].(todo := [])]
  }

  ghost predicate Runs(c: Capacity, s: State, moves: seq<Move>)
    decreases |moves|
  {
    moves == [] || (Enabled(c, s, moves[0]) && Runs(c, Step(c, s, moves[0]), moves[1..]))
  }

  ghost function After(c: Capacity, s: State, moves: seq<Move>): State
    requires Runs(c, s, moves)
    decreases |moves|
  {
    if moves == [] then s else After(c, Step(c, s, moves[0]), moves[1..])
  }

  // ---------- The discipline ----------

  /** Resources are taken in the order slot, thread, connection, lock, one of each, and nothing is
      waited for while a later one is held. */
  predicate Permitted(r: Request, op: Op)
  {
    match op
    case Acquire(SlotR) => !r.slot && !r.thread && r.conn == 0 && r.lock == None
    case Acquire(ThreadR) => !r.thread && r.conn == 0 && r.lock == None
    case Acquire(ConnR) => r.thread && r.conn == 0 && r.lock == None
    case Acquire(LockR(h)) => r.thread && r.conn == 1 && r.lock == None
    case Release(SlotR) => r.slot && !r.thread && r.conn == 0 && r.lock == None
    case Release(ThreadR) => r.thread && r.conn == 0 && r.lock == None
    case Release(ConnR) => r.thread && r.conn == 1 && r.lock == None
    case Release(LockR(h)) => r.thread && r.conn == 1 && r.lock == Some(h)
    case Work => true
  }

  /** The rest of the program keeps to the order and ends with nothing held. */
  predicate Disciplined(r: Request)
    decreases |r.todo|
  {
    if r.todo == [] then !r.slot && !r.thread && r.conn == 0 && r.lock == None
    else Permitted(r, r.todo[0]) && Disciplined(Advance(r))
  }

  ghost predicate AllDisciplined(s: State)
  {
    forall i :: 0 <= i < |s| ==> Disciplined(s[i])
  }

  ghost predicate WithinCapacity(c: Capacity, s: State)
  {
    forall res :: Held(s, res) <= Limit(c, res)
  }

  lemma {:induction false} HeldUpdate(s: State, i: nat, r: Request, res: Resource)
    requires i < |s|
    ensures Held(s[i := r], res) == Held(s, res) - Units(s[i], res) + Units(r, res)
  {
    if i == 0 {
      assert s[0 := r][1..] == s[1..];
    } else {
      assert s[i := r][1..] == s[1..][i - 1 := r];
      HeldUpdate(s[1..], i - 1, r, res);
    }
  }

  lemma {:induction false} HeldZero(s: State, res: Resource)
    requires forall i :: 0 <= i < |s| ==> Units(s[i], res) == 0
    ensures Held(s, res) == 0
  {
    if s != [] { HeldZero(s[1..], res); }
  }

  /** One step takes at most the unit it asks for. */
  lemma OneUnitAtATime(r: Request, res: Resource)
    requires r.todo != [] && Permitted(r, r.todo[0])
    ensures Units(Advance(r), res) <= Units(r, res) + if r.todo[0] == Acquire(res) then 1 else 0
  {
  }

  lemma StepKeepsDiscipline(c: Capacity, s: State, m: Move)
    requires Enabled(c, s, m) && AllDisciplined(s) && WithinCapacity(c, s)
    ensures AllDisciplined(Step(c, s, m)) && WithinCapacity(c, Step(c, s, m))
  {
    assert Disciplined(s[m.i]);
    var s' := Step(c, s, m);
    assert AllDisciplined(s');
    hide Disciplined, AllDisciplined, Advance, Units, Permitted;
    forall res ensures Held(s', res) <= Limit(c, res) {
      HeldUpdate(s, m.i, s'[m.i], res);
      if m.Take? {
        OneUnitAtATime(s[m.i], res);
      } else {
        TimeoutTakesNothing(s[m.i], res);
      }
    }
  }

  lemma TimeoutTakesNothing(r: Request, res: Resource)
    ensures Units(r.(todo := []), res) == Units(r, res)
  {
  }

  lemma {:induction false} EveryRunKeepsDiscipline(c: Capacity, s: State, moves: seq<Move>)
    requires Runs(c, s, moves) && AllDisciplined(s) && WithinCapacity(c, s)
    ensures AllDisciplined(After(c, s, moves)) && WithinCapacity(c, After(c, s, moves))
    ensures |After(c, s, moves)| == |s|
    decreases |moves|
  {
    if moves != [] {
      StepKeepsDiscipline(c, s, moves[0]);
      EveryRunKeepsDiscipline(c, Step(c, s, moves[0]), moves[1..]);
    }
  }

  // ---------- No deadlock ----------

  ghost predicate SomeoneCanStep(c: Capacity, s: State)
  {
    exists i :: 0 <= i < |s| && CanStep(c, s, i)
  }

  ghost predicate AllFinished(s: State)
  {
    forall i :: 0 <= i < |s| ==> Finished(s[i])
  }

  predicate WaitsFor(r: Request, res: Resource)
  {
    r.todo != [] && r.todo[0] == Acquire(res)
  }

  /** If nobody can step, nobody who holds `res` is able to give it back: such a request waits
      for a later resource, and the latest of all has no waiting holder. */
  lemma BlockedWaitersWaitForSlots(c: Capacity, s: State, i: nat)
    requires c.threads >= 1 && c.conns >= 1 && AllDisciplined(s)
    requires !SomeoneCanStep(c, s) && i < |s| && !Finished(s[i])
    ensures WaitsFor(s[i], SlotR) && !CanStep(c, s, i)
  {
    forall k | 0 <= k < |s| ensures s[k].lock == None {
      assert Disciplined(s[k]);
      assert !CanStep(c, s, k);
    }
    forall h ensures Held(s, LockR(h)) == 0 { HeldZero(s, LockR(h)); }
    forall k | 0 <= k < |s| ensures s[k].conn == 0 {
      assert Disciplined(s[k]);
      assert !CanStep(c, s, k);
    }
    HeldZero(s, ConnR);
    forall k | 0 <= k < |s| ensures !s[k].thread {
      assert Disciplined(s[k]);
      assert !CanStep(c, s, k);
    }
    HeldZero(s, ThreadR);
    assert !CanStep(c, s, i);
  }

  /** With at least one thread, connection and slot, no reachable state is stuck: while a request
      is unfinished some request can go on without waiting for a timeout. */
  lemma NoDeadlock(c: Capacity, s: State)
    requires c.threads >= 1 && c.conns >= 1 && c.slots >= 1 && AllDisciplined(s)
    ensures AllFinished(s) || SomeoneCanStep(c, s)
  {
    if !AllFinished(s) && !SomeoneCanStep(c, s) {
      forall k | 0 <= k < |s| ensures !s[k].slot {
        assert Disciplined(s[k]);
        if !Finished(s[k]) { BlockedWaitersWaitForSlots(c, s, k); }
      }
      HeldZero(s, SlotR);
      var i :| 0 <= i < |s| && !Finished(s[i]);
      BlockedWaitersWaitForSlots(c, s, i);
    }
  }

  /** A bulkhead configured with zero slots blocks exactly the requests that wait for a slot;
      only their timeout ends them. */
  lemma ZeroSlotsBlockOnlyIngestion(c: Capacity, s: State)
    requires c.threads >= 1 && c.conns >= 1 && c.slots == 0
    requires AllDisciplined(s) && WithinCapacity(c, s) && !AllFinished(s)
    ensures SomeoneCanStep(c, s) <==>
            exists i :: 0 <= i < |s| && !Finished(s[i]) && !WaitsFor(s[i], SlotR)
  {
    if i :| 0 <= i < |s| && !Finished(s[i]) && !WaitsFor(s[i], SlotR) {
      if !SomeoneCanStep(c, s) { BlockedWaitersWaitForSlots(c, s, i); }
    }
  }

  ghost function Remaining(s: State): nat
  {
    if s == [] then 0 else |s[0].todo| + Remaining(s[1..])
  }

  lemma {:induction false} RemainingUpdate(s: State, i: nat, r: Request)
    requires i < |s|
    ensures Remaining(s[i := r]) == Remaining(s) - |s[i].todo| + |r.todo|
  {
    if i == 0 {
      assert s[0 := r][1..] == s[1..];
    } else {
      assert s[i := r][1..] == s[1..][i - 1 := r];
      RemainingUpdate(s[1..], i - 1, r);
    }
  }

  lemma StepShortens(c: Capacity, s: State, m: Move)
    requires Enabled(c, s, m)
    ensures Remaining(Step(c, s, m)) < Remaining(s)
  {
    RemainingUpdate(s, m.i, Step(c, s, m)[m.i]);
  }

  /** Every step shortens the work left, so no schedule runs forever. */
  lemma {:induction false} RunsAreBounded(c: Capacity, s: State, moves: seq<Move>)
    requires Runs(c, s, moves)
    ensures |moves| + Remaining(After(c, s, moves)) <= Remaining(s)
    decreases |moves|
  {
    hide Step, Enabled, Remaining;
    if moves != [] {
      StepShortens(c, s, moves[0]);
      RunsAreBounded(c, Step(c, s, moves[0]), moves[1..]);
    }
  }

  // ---------- The programs of the API are disciplined ----------

  /** `r'` is what is left after the first operation of `r`. */
  lemma Before(r: Request, op: Op, r': Request)
    requires r.todo == [op] + r'.todo && Permitted(r, op) && Disciplined(r')
    requires Advance(r) == r'
    ensures Disciplined(r)
  {
  }

  lemma PlainThen(kind: Kind, rest: seq<Op>, slot: bool)
    requires Disciplined(Request(kind, rest, slot, false, 0, None))
    ensures Disciplined(Request(kind, Plain + rest, slot, false, 0, None))
  {
    hide Disciplined;
    var r3 := Request(kind, rest, slot, false, 0, None);
    var r2 := Request(kind, [Release(ThreadR)] + r3.todo, slot, true, 0, None);
    var r1 := Request(kind, [Work] + r2.todo, slot, true, 0, None);
    var r0 := Request(kind, [Acquire(ThreadR)] + r1.todo, slot, false, 0, None);
    Before(r2, Release(ThreadR), r3);
    Before(r1, Work, r2);
    Before(r0, Acquire(ThreadR), r1);
    assert Plain + rest == r0.todo;
  }

  lemma TransactionThen(kind: Kind, rest: seq<Op>, slot: bool)
    requires Disciplined(Request(kind, rest, slot, false, 0, None))
    ensures Disciplined(Request(kind, Transaction + rest, slot, false, 0, None))
  {
    hide Disciplined;
    var r5 := Request(kind, rest, slot, false, 0, None);
    var r4 := Request(kind, [Release(ThreadR)] + r5.todo, slot, true, 0, None);
    var r3 := Request(kind, [Release(ConnR)] + r4.todo, slot, true, 1, None);
    var r2 := Request(kind, [Work] + r3.todo, slot, true, 1, None);
    var r1 := Request(kind, [Acquire(ConnR)] + r2.todo, slot, true, 0, None);
    var r0 := Request(kind, [Acquire(ThreadR)] + r1.todo, slot, false, 0, None);
    Before(r4, Release(ThreadR), r5);
    Before(r3, Release(ConnR), r4);
    Before(r2, Work, r3);
    Before(r1, Acquire(ConnR), r2);
    Before(r0, Acquire(ThreadR), r1);
    assert Transaction + rest == r0.todo;
  }

  lemma LockedTransactionThen(kind: Kind, h: int, rest: seq<Op>)
    requires Disciplined(Request(kind, rest, false, false, 0, None))
    ensures Disciplined(Request(kind, LockedTransaction(h) + rest, false, false, 0, None))
  {
    hide Disciplined;
    var r7 := Request(kind, rest, false, false, 0, None);
    var r6 := Request(kind, [Release(ThreadR)] + r7.todo, false, true, 0, None);
    var r5 := Request(kind, [Release(ConnR)] + r6.todo, false, true, 1, None);
    var r4 := Request(kind, [Release(LockR(h))] + r5.todo, false, true, 1, Some(h));
    var r3 := Request(kind, [Work] + r4.todo, false, true, 1, Some(h));
    var r2 := Request(kind, [Acquire(LockR(h))] + r3.todo, false, true, 1, None);
    var r1 := Request(kind, [Acquire(ConnR)] + r2.todo, false, true, 0, None);
    var r0 := Request(kind, [Acquire(ThreadR)] + r1.todo, false, false, 0, None);
    Before(r6, Release(ThreadR), r7);
    Before(r5, Release(ConnR), r6);
    Before(r4, Release(LockR(h)), r5);
    Before(r3, Work, r4);
    Before(r2, Acquire(LockR(h)), r3);
    Before(r1, Acquire(ConnR), r2);
    Before(r0, Acquire(ThreadR), r1);
    assert LockedTransaction(h) + rest == r0.todo;
  }

  /** An idempotent mutation waits for its lock with a thread and a connection in hand, and still
      keeps the order. */
  lemma MutationIsDisciplined(h: int)
    ensures Disciplined(Start(MutationRequest, Mutation(h)))
  {
    var k := MutationRequest;
    var nothing: seq<Op> := [];
    PlainThen(k, nothing, false);
    assert Plain + nothing == Plain;
    PlainThen(k, Plain, false);
    LockedTransactionThen(k, h, Plain + Plain);
    PlainThen(k, LockedTransaction(h) + (Plain + Plain), false);
    TransactionThen(k, Plain + (LockedTransaction(h) + (Plain + Plain)), false);
    assert Mutation(h) == Transaction + (Plain + (LockedTransaction(h) + (Plain + Plain)));
  }

  lemma EndpointIsDisciplined()
    ensures Disciplined(Start(EndpointRequest, Endpoint))
  {
    var k := EndpointRequest;
    var nothing: seq<Op> := [];
    PlainThen(k, nothing, false);
    assert Plain + nothing == Plain;
    PlainThen(k, Plain, false);
    TransactionThen(k, Plain + Plain, false);
    PlainThen(k, Transaction + (Plain + Plain), false);
    TransactionThen(k, Plain + (Transaction + (Plain + Plain)), false);
    assert Endpoint == Transaction + (Plain + (Transaction + (Plain + Plain)));
  }

  /** Holding a connection implies holding a slot, from here to the end. */
  predicate SlotGuarded(r: Request)
    decreases |r.todo|
  {
    (r.conn > 0 ==> r.slot) && (r.todo != [] ==> SlotGuarded(Advance(r)))
  }

  /** The same, from the end of authentication on. */
  predicate IngestGuarded(r: Request)
    decreases |r.todo|
  {
    if |r.todo| > |AfterAuthentication| then IngestGuarded(Advance(r)) else SlotGuarded(r)
  }

  lemma SlotGuardedBefore(r: Request, op: Op, r': Request)
    requires r.todo == [op] + r'.todo && Advance(r) == r'
    requires SlotGuarded(r') && (r.conn > 0 ==> r.slot)
    ensures SlotGuarded(r)
  {
  }

  lemma GuardedTransaction(rest: seq<Op>)
    requires SlotGuarded(Request(IngestRequest, rest, true, false, 0, None))
    ensures SlotGuarded(Request(IngestRequest, Transaction + rest, true, false, 0, None))
  {
    hide SlotGuarded;
    var k := IngestRequest;
    var r5 := Request(k, rest, true, false, 0, None);
    var r4 := Request(k, [Release(ThreadR)] + r5.todo, true, true, 0, None);
    var r3 := Request(k, [Release(ConnR)] + r4.todo, true, true, 1, None);
    var r2 := Request(k, [Work] + r3.todo, true, true, 1, None);
    var r1 := Request(k, [Acquire(ConnR)] + r2.todo, true, true, 0, None);
    var r0 := Request(k, [Acquire(ThreadR)] + r1.todo, true, false, 0, None);
    SlotGuardedBefore(r4, Release(ThreadR), r5);
    SlotGuardedBefore(r3, Release(ConnR), r4);
    SlotGuardedBefore(r2, Work, r3);
    SlotGuardedBefore(r1, Acquire(ConnR), r2);
    SlotGuardedBefore(r0, Acquire(ThreadR), r1);
    assert Transaction + rest == r0.todo;
  }

  lemma IngestIsDisciplined()
    ensures Disciplined(Start(IngestRequest, Ingest))
    ensures SlotGuarded(Start(IngestRequest, AfterAuthentication))
  {
    var k := IngestRequest;
    var nothing: seq<Op> := [];
    var r4 := Request(k, nothing, false, false, 0, None);
    var r3 := Request(k, [Release(SlotR)] + r4.todo, true, false, 0, None);
    assert Disciplined(r4) && SlotGuarded(r4);
    hide Disciplined, SlotGuarded;
    Before(r3, Release(SlotR), r4);
    SlotGuardedBefore(r3, Release(SlotR), r4);
    TransactionThen(k, r3.todo, true);
    GuardedTransaction(r3.todo);
    var r2 := Request(k, Transaction + r3.todo, true, false, 0, None);
    var r1 := Request(k, [Work] + r2.todo, true, false, 0, None);
    Before(r1, Work, r2);
    SlotGuardedBefore(r1, Work, r2);
    TransactionThen(k, r1.todo, true);
    GuardedTransaction(r1.todo);
    var r0 := Request(k, Transaction + r1.todo, true, false, 0, None);
    var start := Request(k, [Acquire(SlotR)] + r0.todo, false, false, 0, None);
    Before(start, Acquire(SlotR), r0);
    SlotGuardedBefore(start, Acquire(SlotR), r0);
    assert AfterAuthentication == start.todo;
    TransactionThen(k, start.todo, false);
  }

  lemma GuardedBefore(r: Request, op: Op, r': Request)
    requires r.todo == [op] + r'.todo && Advance(r) == r'
    requires |r'.todo| >= |AfterAuthentication| && IngestGuarded(r')
    ensures IngestGuarded(r)
  {
  }

  lemma IngestIsGuarded()
    ensures IngestGuarded(Start(IngestRequest, Ingest))
  {
    var k := IngestRequest;
    var r5 := Start(k, AfterAuthentication);
    assert IngestGuarded(r5) by { IngestIsDisciplined(); }
    hide IngestGuarded;
    var r4 := Request(k, [Release(ThreadR)] + r5.todo, false, true, 0, None);
    var r3 := Request(k, [Release(ConnR)] + r4.todo, false, true, 1, None);
    var r2 := Request(k, [Work] + r3.todo, false, true, 1, None);
    var r1 := Request(k, [Acquire(ConnR)] + r2.todo, false, true, 0, None);
    var r0 := Request(k, [Acquire(ThreadR)] + r1.todo, false, false, 0, None);
    GuardedBefore(r4, Release(ThreadR), r5);
    GuardedBefore(r3, Release(ConnR), r4);
    GuardedBefore(r2, Work, r3);
    GuardedBefore(r1, Acquire(ConnR), r2);
    GuardedBefore(r0, Acquire(ThreadR), r1);
    assert Ingest == r0.todo;
  }

  // ---------- Every run of the API ----------

  ghost predicate IsApiRequest(r: Request)
  {
    || r == Start(EndpointRequest, Endpoint)
    || (exists h :: r == Start(MutationRequest, Mutation(h)))
    || r == Start(IngestRequest, Ingest)
  }

  /** Any number of reading, mutating and ingestion requests, none of them started yet. */
  ghost predicate ApiStart(s: State)
  {
    forall i :: 0 <= i < |s| ==> IsApiRequest(s[i])
  }

  ghost predicate ApiReachable(c: Capacity, s: State)
  {
    exists start, moves :: ApiStart(start) && Runs(c, start, moves) && After(c, start, moves) == s
  }

  ghost predicate AllGuarded(s: State)
  {
    forall i :: 0 <= i < |s| && s[i].kind.IngestRequest? ==> IngestGuarded(s[i])
  }

  lemma {:induction false} EveryRunKeepsGuards(c: Capacity, s: State, moves: seq<Move>)
    requires Runs(c, s, moves) && AllDisciplined(s) && WithinCapacity(c, s) && AllGuarded(s)
    ensures AllGuarded(After(c, s, moves))
    decreases |moves|
  {
    if moves != [] {
      StepKeepsDiscipline(c, s, moves[0]);
      var s' := Step(c, s, moves[0]);
      forall i | 0 <= i < |s'| && s'[i].kind.IngestRequest? ensures IngestGuarded(s'[i]) {
        assert Disciplined(s[i]) && IngestGuarded(s[i]);
      }
      EveryRunKeepsGuards(c, s', moves[1..]);
    }
  }

  lemma ApiInvariant(c: Capacity, s: State)
    requires ApiReachable(c, s)
    ensures AllDisciplined(s) && WithinCapacity(c, s) && AllGuarded(s)
  {
    hide Disciplined, IngestGuarded;
    var start, moves :| ApiStart(start) && Runs(c, start, moves) && After(c, start, moves) == s;
    EndpointIsDisciplined();
    forall h ensures Disciplined(Start(MutationRequest, Mutation(h))) { MutationIsDisciplined(h); }
    IngestIsDisciplined();
    IngestIsGuarded();
    forall res ensures Held(start, res) == 0 { HeldZero(start, res); }
    EveryRunKeepsDiscipline(c, start, moves);
    EveryRunKeepsGuards(c, start, moves);
  }

  /** The API never deadlocks, for any number of requests and any interleaving. */
  lemma ApiNeverDeadlocks(c: Capacity, s: State)
    requires c.threads >= 1 && c.conns >= 1 && c.slots >= 1 && ApiReachable(c, s)
    ensures AllFinished(s) || SomeoneCanStep(c, s)
  {
    ApiInvariant(c, s);
    NoDeadlock(c, s);
  }

  /** From every reachable state all requests can finish, and whatever is scheduled, a run that
      cannot be extended has finished them all and left every pool full. */
  lemma ApiRequestsFinish(c: Capacity, s: State)
    requires c.threads >= 1 && c.conns >= 1 && c.slots >= 1 && ApiReachable(c, s)
    requires !SomeoneCanStep(c, s)
    ensures AllFinished(s)
    ensures forall res :: Held(s, res) == 0
  {
    ApiInvariant(c, s);
    NoDeadlock(c, s);
    forall i, res | 0 <= i < |s| ensures Units(s[i], res) == 0 {
      assert Disciplined(s[i]) && Finished(s[i]);
    }
    forall res ensures Held(s, res) == 0 { HeldZero(s, res); }
  }

  /** Ingestion requests that hold a connection after authentication. */
  ghost function IngestingWithConnection(s: State): nat
  {
    if s == [] then 0
    else
      (if s[0].kind.IngestRequest? && |s[0].todo| <= |AfterAuthentication| && s[0].conn > 0 then 1 else 0)
      + IngestingWithConnection(s[1..])
  }

  lemma {:induction false} GuardedCount(s: State)
    requires AllGuarded(s)
    ensures IngestingWithConnection(s) <= Held(s, SlotR)
  {
    if s != [] {
      assert s[0].kind.IngestRequest? ==> IngestGuarded(s[0]);
      GuardedCount(s[1..]);
    }
  }

  /** The bulkhead: past authentication, ingestion never holds more connections than slots. */
  lemma IngestionIsBounded(c: Capacity, s: State)
    requires ApiReachable(c, s)
    ensures IngestingWithConnection(s) <= c.slots
  {
    ApiInvariant(c, s);
    GuardedCount(s);
  }

  // ---------- The pools, counted by what requests hold ----------

  ghost function ThreadsInUse(s: State): nat
  {
    if s == [] then 0 else (if s[0].thread then 1 else 0) + ThreadsInUse(s[1..])
  }

  ghost function ConnectionsInUse(s: State): nat
  {
    if s == [] then 0 else s[0].conn + ConnectionsInUse(s[1..])
  }

  ghost function SlotsInUse(s: State): nat
  {
    if s == [] then 0 else (if s[0].slot then 1 else 0) + SlotsInUse(s[1..])
  }

  lemma {:induction false} HeldIsInUse(s: State)
    ensures Held(s, ThreadR) == ThreadsInUse(s) && Held(s, ConnR) == ConnectionsInUse(s)
    ensures Held(s, SlotR) == SlotsInUse(s)
  {
    if s != [] { HeldIsInUse(s[1..]); }
  }

  lemma {:induction false} HeldAtLeast(s: State, res: Resource, i: nat)
    requires i < |s|
    ensures Units(s[i], res) <= Held(s, res)
  {
    if i > 0 {
      assert s[1..][i - 1] == s[i];
      HeldAtLeast(s[1..], res, i - 1);
    }
  }

  lemma {:induction false} HeldByTwo(s: State, res: Resource, i: nat, j: nat)
    requires i < j < |s|
    ensures Units(s[i], res) + Units(s[j], res) <= Held(s, res)
  {
    if i > 0 {
      assert s[1..][i - 1] == s[i] && s[1..][j - 1] == s[j];
      HeldByTwo(s[1..], res, i - 1, j - 1);
    } else {
      assert s[1..][j - 1] == s[j];
      HeldAtLeast(s[1..], res, j - 1);
    }
  }

  lemma LockHeldOnce(s: State, i: nat, j: nat)
    requires i < j < |s| && s[i].lock.Some? && Held(s, LockR(s[i].lock.value)) <= 1
    ensures s[i].lock != s[j].lock
  {
    HeldByTwo(s, LockR(s[i].lock.value), i, j);
    hide Held;
  }

  /** In every reachable state no pool is overdrawn and no advisory lock is held twice. */
  lemma PoolsNeverOverdrawn(c: Capacity, s: State)
    requires ApiReachable(c, s)
    ensures ThreadsInUse(s) <= c.threads && ConnectionsInUse(s) <= c.conns && SlotsInUse(s) <= c.slots
    ensures forall i, j :: 0 <= i < j < |s| && s[i].lock.Some? ==> s[i].lock != s[j].lock
  {
    hide ApiReachable, AllDisciplined, AllGuarded, Held, ThreadsInUse, ConnectionsInUse, SlotsInUse;
    ApiInvariant(c, s);
    HeldIsInUse(s);
    assert Held(s, ThreadR) <= Limit(c, ThreadR);
    assert Held(s, ConnR) <= Limit(c, ConnR);
    assert Held(s, SlotR) <= Limit(c, SlotR);
    forall i, j | 0 <= i < j < |s| && s[i].lock.Some? ensures s[i].lock != s[j].lock {
      assert Held(s, LockR(s[i].lock.value)) <= Limit(c, LockR(s[i].lock.value));
      LockHeldOnce(s, i, j);
    }
  }

  /** And nobody waits for a unit that is free. */
  lemma WaitsOnlyForUsedUp(c: Capacity, s: State, i: nat)
    requires i < |s| && s[i].todo != []
    ensures s[i].todo[0] == Acquire(ThreadR) ==> (CanStep(c, s, i) <==> ThreadsInUse(s) < c.threads)
    ensures s[i].todo[0] == Acquire(ConnR) ==> (CanStep(c, s, i) <==> ConnectionsInUse(s) < c.conns)
    ensures s[i].todo[0] == Acquire(SlotR) ==> (CanStep(c, s, i) <==> SlotsInUse(s) < c.slots)
    ensures !s[i].todo[0].Acquire? ==> CanStep(c, s, i)
  {
    HeldIsInUse(s);
  }

  // ---------- The forms that were replaced ----------

  ghost predicate CanDeadlock(c: Capacity, start: State)
  {
    exists moves :: Runs(c, start, moves)
      && !AllFinished(After(c, start, moves)) && !SomeoneCanStep(c, After(c, start, moves))
  }

  lemma RunOne(c: Capacity, s: State, m: Move, rest: seq<Move>)
    requires Enabled(c, s, m) && Runs(c, Step(c, s, m), rest)
    ensures Runs(c, s, [m] + rest) && After(c, s, [m] + rest) == After(c, Step(c, s, m), rest)
  {
    assert ([m] + rest)[1..] == rest;
  }

  /** Two connections are not enough for two requests that take a second one while holding the
      first. */
  lemma FormerIngestDeadlocks()
    ensures CanDeadlock(Capacity(1, 2, 2), [Start(FormerRequest, FormerIngest), Start(FormerRequest, FormerIngest)])
  {
    var c := Capacity(1, 2, 2);
    var k := FormerRequest;
    var t1, t2 := FormerIngest[1..], FormerIngest[1..][1..];
    var s0 := [Start(k, FormerIngest), Start(k, FormerIngest)];
    var s1 := [Request(k, t1, false, true, 0, None), Start(k, FormerIngest)];
    var s2 := [Request(k, t2, false, true, 1, None), Start(k, FormerIngest)];
    var s3 := [Request(k, t2, false, true, 1, None), Request(k, t1, false, true, 0, None)];
    var s4 := [Request(k, t2, false, true, 1, None), Request(k, t2, false, true, 1, None)];
    HeldPair(s0); HeldPair(s1); HeldPair(s2); HeldPair(s3); HeldPair(s4);
    assert Step(c, s0, Take(0)) == s1;
    assert Step(c, s1, Take(0)) == s2;
    assert Step(c, s2, Take(1)) == s3;
    assert Step(c, s3, Take(1)) == s4;
    var nothing: seq<Move> := [];
    RunOne(c, s3, Take(1), nothing);
    RunOne(c, s2, Take(1), [Take(1)] + nothing);
    RunOne(c, s1, Take(0), [Take(1)] + ([Take(1)] + nothing));
    RunOne(c, s0, Take(0), [Take(0)] + ([Take(1)] + ([Take(1)] + nothing)));
    assert !CanStep(c, s4, 0) && !CanStep(c, s4, 1);
    assert !SomeoneCanStep(c, s4);
    assert !Finished(s4[0]);
  }

  /** One request keeps its connection and waits for the thread of another, which waits for the
      connection. */
  lemma FormerEndpointDeadlocks()
    ensures CanDeadlock(Capacity(1, 1, 1), [Start(FormerRequest, FormerEndpoint), Start(FormerRequest, FormerEndpoint)])
  {
    var c := Capacity(1, 1, 1);
    var k := FormerRequest;
    var t1, t2 := FormerEndpoint[1..], FormerEndpoint[1..][1..];
    var t3 := t2[1..];
    var s0 := [Start(k, FormerEndpoint), Start(k, FormerEndpoint)];
    var s1 := [Request(k, t1, false, true, 0, None), Start(k, FormerEndpoint)];
    var s2 := [Request(k, t2, false, true, 1, None), Start(k, FormerEndpoint)];
    var s3 := [Request(k, t3, false, false, 1, None), Start(k, FormerEndpoint)];
    var s4 := [Request(k, t3, false, false, 1, None), Request(k, t1, false, true, 0, None)];
    HeldPair(s0); HeldPair(s1); HeldPair(s2); HeldPair(s3); HeldPair(s4);
    assert Step(c, s0, Take(0)) == s1;
    assert Step(c, s1, Take(0)) == s2;
    assert Step(c, s2, Take(0)) == s3;
    assert Step(c, s3, Take(1)) == s4;
    var nothing: seq<Move> := [];
    RunOne(c, s3, Take(1), nothing);
    RunOne(c, s2, Take(0), [Take(1)] + nothing);
    RunOne(c, s1, Take(0), [Take(0)] + ([Take(1)] + nothing));
    RunOne(c, s0, Take(0), [Take(0)] + ([Take(0)] + ([Take(1)] + nothing)));
    assert !CanStep(c, s4, 0) && !CanStep(c, s4, 1);
    assert !SomeoneCanStep(c, s4);
    assert !Finished(s4[0]);
  }

  lemma HeldPair(s: State)
    requires |s| == 2
    ensures forall res :: Held(s, res) == Units(s[0], res) + Units(s[1], res)
  {
    forall res ensures Held(s, res) == Units(s[0], res) + Units(s[1], res) {
      assert s[1..] == [s[1]];
      assert s[1..][1..] == [];
      assert Held(s[1..][1..], res) == 0;
    }
  }
}
