/** The `model_call_reservation` table: a row trigger (revision 0015), check and unique constraints
    (revision 0014) and, on top of them, the reserve/settle protocol of `src/asic/llm/accounting.py`.
    Costs are counted in millionths of a dollar, the scale of the stored column; the budget keeps
    them unrounded. */
module ReservationLedger {
  import opened Wrappers

  /** A proposed or stored row; `None` is SQL NULL. */
  datatype Row = Row(
    id: nat, tenant: nat, run: nat, key: string, node: string,
    reservedTokens: int, reservedCost: int,
    actualInput: Option<int>, actualOutput: Option<int>, actualCost: Option<int>,
    response: Option<string>, status: Option<string>, createdAt: int, updatedAt: int)

  const RESERVED := Some("reserved")
  const COMPLETED := Some("completed")

  // ---------- Trigger and constraints ----------

  /** An IF whose condition is NULL does not raise, so a NULL status passes these tests and is left
      to the NOT NULL constraint. */
  predicate StatusDiffers(status: Option<string>, from: string)
  {
    status.Some? && status.value != from
  }

  predicate Unsettled(r: Row)
  {
    r.response == None && r.actualInput == None && r.actualOutput == None && r.actualCost == None
  }

  predicate TriggerAllowsInsert(n: Row)
  {
    !(StatusDiffers(n.status, "reserved") || !Unsettled(n))
  }

  predicate SameIdentityAndBounds(o: Row, n: Row)
  {
    && n.id == o.id && n.tenant == o.tenant && n.run == o.run && n.key == o.key && n.node == o.node
    && n.reservedTokens == o.reservedTokens && n.reservedCost == o.reservedCost && n.createdAt == o.createdAt
  }

  predicate TriggerAllowsUpdate(o: Row, n: Row)
  {
    if StatusDiffers(o.status, "reserved") then false
    else if StatusDiffers(n.status, "completed") then false
    else if !SameIdentityAndBounds(o, n) then false
    else Unsettled(o)
  }

  predicate UsageWithinReservation(r: Row)
  {
    && r.actualInput.Some? && r.actualInput.value >= 0
    && r.actualOutput.Some? && r.actualOutput.value >= 0
    && r.actualInput.value + r.actualOutput.value <= r.reservedTokens
    && r.actualCost.Some? && 0 <= r.actualCost.value <= r.reservedCost
  }

  predicate ChecksHold(r: Row)
  {
    && r.status.Some?
    && r.reservedTokens >= 0 && r.reservedCost >= 0
    && (r.status == RESERVED || r.status == COMPLETED)
    && (r.status == COMPLETED <==> r.response.Some?)
    && (r.status == COMPLETED ==> UsageWithinReservation(r))
  }

  predicate Distinct(a: Row, b: Row)
  {
    a.id != b.id && (a.tenant != b.tenant || a.run != b.run || a.key != b.key)
  }

  ghost predicate AllDistinct(rows: seq<Row>)
  {
    forall i, j :: 0 <= i < j < |rows| ==> Distinct(rows[i], rows[j])
  }

  predicate FreshIn(rows: seq<Row>, n: Row)
  {
    forall i :: 0 <= i < |rows| ==> Distinct(rows[i], n)
  }

  // ---------- The table ----------

  predicate InsertAccepted(rows: seq<Row>, n: Row)
  {
    TriggerAllowsInsert(n) && ChecksHold(n) && FreshIn(rows, n)
  }

  predicate UpdateAccepted(rows: seq<Row>, i: nat, n: Row)
    requires i < |rows|
  {
    TriggerAllowsUpdate(rows[i], n) && ChecksHold(n)
  }

  datatype Write = Insert(row: Row) | Update(i: nat, row: Row)

  /** A refused statement changes nothing. */
  function Written(rows: seq<Row>, w: Write): seq<Row>
  {
    match w
    case Insert(n) => if InsertAccepted(rows, n) then rows + [n] else rows
    case Update(i, n) => if i < |rows| && UpdateAccepted(rows, i, n) then rows[i := n] else rows
  }

  ghost predicate TableOk(rows: seq<Row>)
  {
    && AllDistinct(rows)
    && forall i :: 0 <= i < |rows| ==> ChecksHold(rows[i]) && (rows[i].status == RESERVED ==> Unsettled(rows[i]))
  }

  class Table {
    var rows: seq<Row>

    ghost predicate Valid()
      reads this
    {
      TableOk(rows)
    }

    constructor ()
      ensures Valid() && rows == []
    {
      rows := [];
    }

    method Insert(n: Row) returns (accepted: bool)
      requires Valid()
      modifies this
      ensures Valid() && rows == Written(old(rows), Write.Insert(n))
      ensures accepted <==> |rows| == |old(rows)| + 1
    {
      WrittenKeepsTable(rows, Write.Insert(n));
      if StatusDiffers(n.status, "reserved") || n.response != None
        || n.actualInput != None || n.actualOutput != None || n.actualCost != None {
        return false;
      }
      if !ChecksHold(n) || !FreshIn(rows, n) {
        return false;
      }
      rows := rows + [n];
      return true;
    }

    method Update(i: nat, n: Row) returns (accepted: bool)
      requires Valid() && i < |rows|
      modifies this
      ensures Valid() && rows == Written(old(rows), Write.Update(i, n))
      ensures accepted <==> UpdateAccepted(old(rows), i, n)
    {
      WrittenKeepsTable(rows, Write.Update(i, n));
      var o := rows[i];
      if StatusDiffers(o.status, "reserved") {
        return false;
      }
      if StatusDiffers(n.status, "completed") {
        return false;
      }
      if !SameIdentityAndBounds(o, n) {
        return false;
      }
      if o.response != None || o.actualInput != None || o.actualOutput != None || o.actualCost != None {
        return false;
      }
      if !ChecksHold(n) {
        return false;
      }
      rows := rows[i := n];
      return true;
    }
  }

  lemma WrittenKeepsTable(rows: seq<Row>, w: Write)
    requires TableOk(rows)
    ensures TableOk(Written(rows, w))
  {
    var rows' := Written(rows, w);
    if w.Update? && w.i < |rows| && UpdateAccepted(rows, w.i, w.row) {
      assert SameIdentityAndBounds(rows[w.i], w.row);
      forall i, j | 0 <= i < j < |rows'| ensures Distinct(rows'[i], rows'[j]) {
        assert Distinct(rows[i], rows[j]);
      }
    }
  }

  ghost function AllWritten(rows: seq<Row>, ws: seq<Write>): seq<Row>
    decreases |ws|
  {
    if ws == [] then rows else AllWritten(Written(rows, ws[0]), ws[1..])
  }

  lemma {:induction false} EveryHistoryKeepsTable(rows: seq<Row>, ws: seq<Write>)
    requires TableOk(rows)
    ensures TableOk(AllWritten(rows, ws))
    decreases |ws|
  {
    if ws != [] {
      WrittenKeepsTable(rows, ws[0]);
      EveryHistoryKeepsTable(Written(rows, ws[0]), ws[1..]);
    }
  }

  // ---------- A row settles once ----------

  /** All a row can become: itself, or its one settlement. */
  predicate Evolves(o: Row, n: Row)
  {
    n == o || (o.status == RESERVED && n.status == COMPLETED && SameIdentityAndBounds(o, n))
  }

  /** Over every sequence of writes each row keeps its place, identity and bounds; it holds its
      reserved value until it is settled and its settled value forever after. */
  lemma {:induction false} RowsSettleOnce(rows: seq<Row>, ws: seq<Write>, i: nat)
    requires TableOk(rows) && i < |rows|
    ensures i < |AllWritten(rows, ws)| && Evolves(rows[i], AllWritten(rows, ws)[i])
    ensures rows[i].status == COMPLETED ==> AllWritten(rows, ws)[i] == rows[i]
    decreases |ws|
  {
    if ws != [] {
      WrittenKeepsTable(rows, ws[0]);
      var next := Written(rows, ws[0]);
      assert ChecksHold(rows[i]);
      assert Evolves(rows[i], next[i]);
      RowsSettleOnce(next, ws[1..], i);
    }
  }

  /** An accepted update is the settlement of a reserved row, changes nothing but the six settlement
      columns, and every reserved row with its usage inside the bounds can be settled. */
  lemma UpdateAcceptedIff(rows: seq<Row>, i: nat, n: Row)
    requires TableOk(rows) && i < |rows|
    ensures UpdateAccepted(rows, i, n) <==>
            && rows[i].status == Some("reserved") && n.status == Some("completed")
            && n == rows[i].(actualInput := n.actualInput, actualOutput := n.actualOutput, actualCost := n.actualCost,
                             response := n.response, status := n.status, updatedAt := n.updatedAt)
            && n.response.Some? && n.actualInput.Some? && n.actualOutput.Some? && n.actualCost.Some?
            && n.actualInput.value >= 0 && n.actualOutput.value >= 0
            && n.actualInput.value + n.actualOutput.value <= rows[i].reservedTokens
            && 0 <= n.actualCost.value <= rows[i].reservedCost
  {
    assert ChecksHold(rows[i]);
  }

  /** A row is let in exactly as an unsettled reservation under an unused id and key. */
  lemma InsertAcceptedIff(rows: seq<Row>, n: Row)
    ensures InsertAccepted(rows, n) <==>
            && n.status == Some("reserved") && n.reservedTokens >= 0 && n.reservedCost >= 0
            && n.response == None && n.actualInput == None && n.actualOutput == None && n.actualCost == None
            && forall i :: 0 <= i < |rows| ==>
                 && rows[i].id != n.id
                 && (rows[i].tenant != n.tenant || rows[i].run != n.run || rows[i].key != n.key)
  {
  }

  // ---------- Conservation ----------

  function TokensUsed(r: Row): int
  {
    if r.status == COMPLETED && r.actualInput.Some? && r.actualOutput.Some?
    then r.actualInput.value + r.actualOutput.value else 0
  }

  function CostUsed(r: Row): int
  {
    if r.status == COMPLETED && r.actualCost.Some? then r.actualCost.value else 0
  }

  predicate OfRun(r: Row, tenant: nat, run: nat) { r.tenant == tenant && r.run == run }

  datatype Totals = Totals(usedTokens: int, usedCost: int, settledTokens: int, settledCost: int,
                           reservedTokens: int, reservedCost: int)

  /** Sums over the rows of one run: used and reserved by its completed rows, reserved by all. */
  ghost function RunTotals(rows: seq<Row>, tenant: nat, run: nat): Totals
  {
    if rows == [] then Totals(0, 0, 0, 0, 0, 0)
    else
      var t, r := RunTotals(rows[..|rows| - 1], tenant, run), rows[|rows| - 1];
      if !OfRun(r, tenant, run) then t
      else
        var done := r.status == COMPLETED;
        Totals(t.usedTokens + TokensUsed(r), t.usedCost + CostUsed(r),
               t.settledTokens + (if done then r.reservedTokens else 0),
               t.settledCost + (if done then r.reservedCost else 0),
               t.reservedTokens + r.reservedTokens, t.reservedCost + r.reservedCost)
  }

  lemma {:induction false} UsageWithinTotals(rows: seq<Row>, tenant: nat, run: nat)
    requires forall i :: 0 <= i < |rows| ==> ChecksHold(rows[i])
    ensures var t := RunTotals(rows, tenant, run);
            && 0 <= t.usedTokens <= t.settledTokens <= t.reservedTokens
            && 0 <= t.usedCost <= t.settledCost <= t.reservedCost
  {
    if rows != [] {
      UsageWithinTotals(rows[..|rows| - 1], tenant, run);
      assert ChecksHold(rows[|rows| - 1]);
    }
  }

  /** After every sequence of writes to an empty table, no run has used more tokens or money than
      its completed calls had reserved. */
  lemma UsageNeverExceedsReservation(ws: seq<Write>, tenant: nat, run: nat)
    ensures var t := RunTotals(AllWritten([], ws), tenant, run);
            && 0 <= t.usedTokens <= t.settledTokens <= t.reservedTokens
            && 0 <= t.usedCost <= t.settledCost <= t.reservedCost
  {
    EveryHistoryKeepsTable([], ws);
    UsageWithinTotals(AllWritten([], ws), tenant, run);
  }

  // ---------- Reserve and settle, by any number of workers ----------

  /** The run's durable budget: what is charged against which ceilings; `spent` stands for any
      other exhausted dimension. Costs are in millionths of a dollar here too, but unrounded. */
  datatype Budget = Budget(tokens: int, cost: real, maxTokens: int, maxCost: real, spent: bool) {
    predicate Exhausted() { spent || tokens >= maxTokens || cost >= maxCost }
  }

  /** The stored column keeps whole millionths; halves round away from zero. */
  function Rounded(cost: real): int
  {
    if cost >= 0.0 then (cost + 0.5).Floor else -((0.5 - cost).Floor)
  }

  predicate Whole(cost: real) { cost == cost.Floor as real }

  /** `require_headroom` followed by `charge`. A zero charge needs no projection; a negative one
      raises. */
  predicate HasHeadroom(b: Budget, tokens: int, cost: real)
  {
    && !b.Exhausted()
    && tokens >= 0 && cost >= 0.0
    && ((tokens == 0 && cost == 0.0) || !b.(tokens := b.tokens + tokens, cost := b.cost + cost).Exhausted())
  }

  /** One workflow run of one tenant, to which the sessions are bound. */
  datatype Scope = Scope(tenant: nat, run: nat)

  datatype Estimate = Estimate(id: nat, key: string, node: string, tokens: int, cost: real, at: int)

  datatype Usage = Usage(input: int, output: int, cost: real, response: string, at: int)

  function Reservation(scope: Scope, e: Estimate): Row
  {
    Row(e.id, scope.tenant, scope.run, e.key, e.node, e.tokens, Rounded(e.cost), None, None, None, None,
        RESERVED, e.at, e.at)
  }

  function Settlement(o: Row, u: Usage): Row
  {
    o.(actualInput := Some(u.input), actualOutput := Some(u.output), actualCost := Some(Rounded(u.cost)),
       response := Some(u.response), status := COMPLETED, updatedAt := u.at)
  }

  predicate Keyed(r: Row, scope: Scope, key: string)
  {
    OfRun(r, scope.tenant, scope.run) && r.key == key
  }

  function IndexOf(rows: seq<Row>, scope: Scope, key: string): (i: int)
    ensures -1 <= i < |rows|
    ensures i >= 0 ==> Keyed(rows[i], scope, key)
    ensures i < 0 ==> forall j :: 0 <= j < |rows| ==> !Keyed(rows[j], scope, key)
  {
    if rows == [] then -1
    else if Keyed(rows[|rows| - 1], scope, key) then |rows| - 1
    else IndexOf(rows[..|rows| - 1], scope, key)
  }

  datatype Account = Account(rows: seq<Row>, budget: Budget)

  /** What a caller of `reserve` learns: call the provider, take the stored response, or fail. */
  datatype Answer = CallProvider | Replay(response: string) | Unresolved | NoHeadroom | Lost

  type Tid = nat

  /** Between its lookup and its insert a caller holds no lock on the key. */
  datatype Pc = Idle | Looked(e: Estimate) | Answered(answer: Answer)

  /** `calls` records the keys whose callers were told to call the provider. */
  datatype System = System(account: Account, pc: map<Tid, Pc>, calls: seq<string>)

  /** `room` is what the caller's own copy of the budget says. `Progress` is the kernel replacing
      the durable budget by its own; `Elsewhere` is a write of any other run or tenant. */
  datatype Action =
    | Look(t: Tid, e: Estimate, room: bool)
    | Put(t: Tid)
    | Settle(key: string, usage: Usage)
    | Progress(b: Budget)
    | Elsewhere(w: Write)

  ghost function PcOf(s: System, t: Tid): Pc
  {
    if t in s.pc then s.pc[t] else Idle
  }

  ghost predicate Enabled(scope: Scope, s: System, a: Action)
  {
    match a
    case Look(t, e, room) => !PcOf(s, t).Looked?
    case Put(t) => PcOf(s, t).Looked?
    case Settle(key, usage) => true
    case Progress(b) => true
    case Elsewhere(w) => !OfRun(w.row, scope.tenant, scope.run)
  }

  /** The caller's budget and the unlocked lookup. An empty stored response is falsy and counts as
      unresolved. */
  function LookedUp(a: Account, scope: Scope, e: Estimate, room: bool): Pc
  {
    if !room then Answered(NoHeadroom)
    else
      var i := IndexOf(a.rows, scope, e.key);
      if i < 0 then Looked(e)
      else if a.rows[i].status == COMPLETED && a.rows[i].response.Some? && a.rows[i].response.value != "" then
        Answered(Replay(a.rows[i].response.value))
      else Answered(Unresolved)
  }

  /** Under the lock of the run: charge the estimate and insert the row, or neither. */
  function PutAnswer(a: Account, scope: Scope, e: Estimate): Answer
  {
    if !HasHeadroom(a.budget, e.tokens, e.cost) then NoHeadroom
    else if !InsertAccepted(a.rows, Reservation(scope, e)) then Lost
    else CallProvider
  }

  function AfterPut(a: Account, scope: Scope, e: Estimate): Account
  {
    if PutAnswer(a, scope, e) != CallProvider then a
    else Account(a.rows + [Reservation(scope, e)],
                 a.budget.(tokens := a.budget.tokens + e.tokens, cost := a.budget.cost + e.cost))
  }

  /** `settle` fills in the usage and leaves the charge as it is. */
  function AfterSettle(a: Account, scope: Scope, key: string, usage: Usage): Account
  {
    var i := IndexOf(a.rows, scope, key);
    if i < 0 || a.rows[i].status == COMPLETED then a
    else a.(rows := Written(a.rows, Write.Update(i, Settlement(a.rows[i], usage))))
  }

  ghost function Step(scope: Scope, s: System, a: Action): System
    requires Enabled(scope, s, a)
  {
    match a
    case Look(t, e, room) => s.(pc := s.pc[t := LookedUp(s.account, scope, e, room)])
    case Put(t) =>
      var e := PcOf(s, t).e;
      var answer := PutAnswer(s.account, scope, e);
      System(AfterPut(s.account, scope, e), s.pc[t := Answered(answer)],
             if answer == CallProvider then s.calls + [e.key] else s.calls)
    case Settle(key, usage) => s.(account := AfterSettle(s.account, scope, key, usage))
    case Progress(b) => s.(account := s.account.(budget := b))
    case Elsewhere(w) => s.(account := s.account.(rows := Written(s.account.rows, w)))
  }

  ghost predicate Runs(scope: Scope, s: System, actions: seq<Action>)
    decreases |actions|
  {
    actions == [] || (Enabled(scope, s, actions[0]) && Runs(scope, Step(scope, s, actions[0]), actions[1..]))
  }

  ghost function After(scope: Scope, s: System, actions: seq<Action>): System
    requires Runs(scope, s, actions)
    decreases |actions|
  {
    if actions == [] then s else After(scope, Step(scope, s, actions[0]), actions[1..])
  }

  /** Any table in which the run has no reservation yet, and nobody under way. */
  ghost predicate Initial(scope: Scope, s: System)
  {
    && TableOk(s.account.rows) && s.pc == map[] && s.calls == []
    && forall i :: 0 <= i < |s.account.rows| ==> !OfRun(s.account.rows[i], scope.tenant, scope.run)
  }

  // ---------- Rows under interleaved steps ----------

  lemma FoundAt(rows: seq<Row>, scope: Scope, key: string, i: nat)
    requires AllDistinct(rows) && i < |rows| && Keyed(rows[i], scope, key)
    ensures IndexOf(rows, scope, key) == i
  {
    var k := IndexOf(rows, scope, key);
    assert k < i ==> Distinct(rows[k], rows[i]);
    assert i < k ==> Distinct(rows[i], rows[k]);
  }

  /** One write neither moves nor loses the row of a key, and a settled row keeps its value. */
  lemma WriteKeepsRow(rows: seq<Row>, w: Write, scope: Scope, key: string)
    requires TableOk(rows)
    ensures TableOk(Written(rows, w))
    ensures var i := IndexOf(rows, scope, key);
            i >= 0 ==>
              && IndexOf(Written(rows, w), scope, key) == i
              && (rows[i].status == COMPLETED ==> Written(rows, w)[i] == rows[i])
  {
    WrittenKeepsTable(rows, w);
    var i := IndexOf(rows, scope, key);
    if i >= 0 {
      FoundAt(Written(rows, w), scope, key, i);
    }
  }

  /** Every step is at most one write to the table. */
  function WriteOf(s: System, scope: Scope, a: Action): Option<Write>
    requires a.Put? ==> a.t in s.pc && s.pc[a.t].Looked?
  {
    match a
    case Look(t, e, room) => None
    case Progress(b) => None
    case Put(t) =>
      var e := s.pc[t].e;
      if PutAnswer(s.account, scope, e) == CallProvider then Some(Write.Insert(Reservation(scope, e))) else None
    case Settle(key, usage) =>
      var i := IndexOf(s.account.rows, scope, key);
      if i < 0 || s.account.rows[i].status == COMPLETED then None
      else Some(Write.Update(i, Settlement(s.account.rows[i], usage)))
    case Elsewhere(w) => Some(w)
  }

  lemma StepIsWrite(scope: Scope, s: System, a: Action)
    requires Enabled(scope, s, a)
    ensures var w := WriteOf(s, scope, a);
            Step(scope, s, a).account.rows == if w.None? then s.account.rows else Written(s.account.rows, w.value)
  {
  }

  lemma StepKeepsRow(scope: Scope, s: System, a: Action, key: string)
    requires Enabled(scope, s, a) && TableOk(s.account.rows)
    ensures var rows, rows' := s.account.rows, Step(scope, s, a).account.rows;
            var i := IndexOf(rows, scope, key);
            && TableOk(rows')
            && (i >= 0 ==> IndexOf(rows', scope, key) == i && (rows[i].status == COMPLETED ==> rows'[i] == rows[i]))
  {
    StepIsWrite(scope, s, a);
    hide Step, WriteOf, TableOk;
    var w := WriteOf(s, scope, a);
    if w.Some? { WriteKeepsRow(s.account.rows, w.value, scope, key); }
  }

  // ---------- At most one provider call per key ----------

  /** Every key that was called holds a row, and none was called twice. */
  ghost predicate CallsRecorded(scope: Scope, s: System)
  {
    && TableOk(s.account.rows)
    && (forall i :: 0 <= i < |s.calls| ==> IndexOf(s.account.rows, scope, s.calls[i]) >= 0)
    && (forall i, j :: 0 <= i < j < |s.calls| ==> s.calls[i] != s.calls[j])
  }

  /** The unique key decides the race: an insert is accepted only where no row has the key, however
      long ago the lookup was made. */
  lemma InsertMeansAbsent(a: Account, scope: Scope, e: Estimate)
    requires TableOk(a.rows) && PutAnswer(a, scope, e) == CallProvider
    ensures IndexOf(a.rows, scope, e.key) < 0
    ensures IndexOf(AfterPut(a, scope, e).rows, scope, e.key) == |a.rows|
  {
    var n := Reservation(scope, e);
    var i := IndexOf(a.rows, scope, e.key);
    assert i >= 0 ==> Distinct(a.rows[i], n);
    WrittenKeepsTable(a.rows, Write.Insert(n));
    FoundAt(a.rows + [n], scope, e.key, |a.rows|);
  }

  lemma StepKeepsCalls(scope: Scope, s: System, a: Action)
    requires Enabled(scope, s, a) && CallsRecorded(scope, s)
    ensures CallsRecorded(scope, Step(scope, s, a))
  {
    var s' := Step(scope, s, a);
    StepKeepsRow(scope, s, a, "");
    forall i | 0 <= i < |s.calls| ensures IndexOf(s'.account.rows, scope, s.calls[i]) >= 0 {
      StepKeepsRow(scope, s, a, s.calls[i]);
    }
    if a.Put? && PutAnswer(s.account, scope, PcOf(s, a.t).e) == CallProvider {
      var key := PcOf(s, a.t).e.key;
      InsertMeansAbsent(s.account, scope, PcOf(s, a.t).e);
      assert s'.calls == s.calls + [key] && IndexOf(s'.account.rows, scope, key) >= 0;
      hide Step, TableOk, PutAnswer, InsertAccepted;
      assert forall i :: 0 <= i < |s.calls| ==> s.calls[i] != key;
    } else {
      assert s'.calls == s.calls;
    }
  }

  lemma {:induction false} RunKeepsCalls(scope: Scope, s: System, actions: seq<Action>)
    requires Runs(scope, s, actions) && CallsRecorded(scope, s)
    ensures CallsRecorded(scope, After(scope, s, actions))
    decreases |actions|
  {
    hide CallsRecorded, Step, Enabled;
    if actions != [] {
      StepKeepsCalls(scope, s, actions[0]);
      RunKeepsCalls(scope, Step(scope, s, actions[0]), actions[1..]);
    }
  }

  /** Over every interleaving of any number of workers, the provider is called at most once for a
      key, and never for a key that holds no reservation. */
  lemma CalledAtMostOnce(scope: Scope, s: System, actions: seq<Action>, i: nat, j: nat)
    requires Initial(scope, s) && Runs(scope, s, actions)
    requires i < |After(scope, s, actions).calls| && j < |After(scope, s, actions).calls|
    ensures var s' := After(scope, s, actions);
            && (s'.calls[i] == s'.calls[j] ==> i == j)
            && IndexOf(s'.account.rows, scope, s'.calls[i]) >= 0
  {
    RunKeepsCalls(scope, s, actions);
  }

  /** Two workers whose lookups both found nothing: when one has inserted, the other is refused, and
      its charge with it. */
  lemma RaceHasOneWinner(scope: Scope, s: System, t: Tid, u: Tid)
    requires TableOk(s.account.rows) && t != u && PcOf(s, t).Looked? && PcOf(s, u).Looked?
    requires PcOf(s, t).e.key == PcOf(s, u).e.key
    requires PcOf(Step(scope, s, Put(t)), t) == Answered(CallProvider)
    ensures var s' := Step(scope, s, Put(t));
            var s'' := Step(scope, s', Put(u));
            && s''.account == s'.account && s''.calls == s'.calls
            && (PcOf(s'', u) == Answered(Lost) || PcOf(s'', u) == Answered(NoHeadroom))
  {
    var s' := Step(scope, s, Put(t));
    InsertMeansAbsent(s.account, scope, PcOf(s, t).e);
    StepKeepsRow(scope, s, Put(t), "");
    if PutAnswer(s'.account, scope, PcOf(s', u).e) == CallProvider {
      InsertMeansAbsent(s'.account, scope, PcOf(s', u).e);
    }
  }

  /** Once a call is settled with a response, every later lookup of its key that the caller's own
      budget lets through is answered with that response, whatever happened in between. */
  lemma {:induction false} SettledCallIsReplayed(scope: Scope, s: System, actions: seq<Action>, again: Estimate)
    requires Runs(scope, s, actions) && TableOk(s.account.rows)
    requires var i := IndexOf(s.account.rows, scope, again.key);
             && i >= 0 && s.account.rows[i].status == COMPLETED
             && s.account.rows[i].response.Some? && s.account.rows[i].response.value != ""
    ensures LookedUp(After(scope, s, actions).account, scope, again, true)
         == Answered(Replay(s.account.rows[IndexOf(s.account.rows, scope, again.key)].response.value))
    decreases |actions|
  {
    hide TableOk, Step, Enabled;
    if actions != [] {
      StepKeepsRow(scope, s, actions[0], again.key);
      SettledCallIsReplayed(scope, Step(scope, s, actions[0]), actions[1..], again);
    }
  }

  // ---------- Settling, and what the callers then learn ----------

  /** The key holds an open reservation. */
  predicate OpenAt(rows: seq<Row>, scope: Scope, key: string, i: int)
  {
    i == IndexOf(rows, scope, key) && i >= 0 && rows[i].status == Some("reserved")
  }

  predicate UsageFits(r: Row, u: Usage)
  {
    u.input >= 0 && u.output >= 0 && u.input + u.output <= r.reservedTokens && 0 <= Rounded(u.cost) <= r.reservedCost
  }

  /** Settling an open call with a usage inside its reservation completes it with that very usage; any
      other usage is refused and leaves the account as it is. */
  lemma SettleSettlesIff(scope: Scope, s: System, key: string, u: Usage, i: int)
    requires TableOk(s.account.rows) && OpenAt(s.account.rows, scope, key, i)
    ensures var o, s' := s.account.rows[i], Step(scope, s, Settle(key, u));
            if UsageFits(o, u) then
              && IndexOf(s'.account.rows, scope, key) == i && |s'.account.rows| == |s.account.rows|
              && s'.account.rows[i] ==
                   o.(status := Some("completed"), actualInput := Some(u.input), actualOutput := Some(u.output),
                      actualCost := Some(Rounded(u.cost)), response := Some(u.response), updatedAt := u.at)
            else s'.account == s.account
  {
    var o := s.account.rows[i];
    UpdateAcceptedIff(s.account.rows, i, Settlement(o, u));
    StepKeepsRow(scope, s, Settle(key, u), key);
    hide TableOk, UpdateAccepted, UsageWithinReservation;
  }

  /** What a lookup tells its caller, case by case. */
  lemma LookupMeans(a: Account, scope: Scope, e: Estimate, room: bool, response: string)
    requires TableOk(a.rows)
    ensures var i, pc := IndexOf(a.rows, scope, e.key), LookedUp(a, scope, e, room);
            && (pc == Answered(NoHeadroom) <==> !room)
            && (pc == Looked(e) <==> room && i < 0)
            && (pc == Answered(Replay(response)) <==>
                  room && i >= 0 && a.rows[i].status == Some("completed") && a.rows[i].response == Some(response)
                  && response != "")
            && (pc == Answered(Unresolved) <==>
                  room && i >= 0 && (a.rows[i].status == Some("reserved") || a.rows[i].response == Some("")))
  {
    var i := IndexOf(a.rows, scope, e.key);
    if i >= 0 { assert ChecksHold(a.rows[i]); }
  }

  /** While a call is open nobody else calls the provider. */
  lemma OpenCallIsUnresolved(scope: Scope, a: Account, e: Estimate, i: int)
    requires TableOk(a.rows) && OpenAt(a.rows, scope, e.key, i)
    ensures LookedUp(a, scope, e, true) == Answered(Unresolved)
    ensures PutAnswer(a, scope, e) == Lost || PutAnswer(a, scope, e) == NoHeadroom
  {
    LookupMeans(a, scope, e, true, "");
    if PutAnswer(a, scope, e) == CallProvider { InsertMeansAbsent(a, scope, e); }
  }

  /** From settling to replaying: once an open call is settled with a usage that fits and a response,
      every later lookup of its key, after whatever steps of whatever workers, learns that response. */
  lemma SettlementIsReplayed(scope: Scope, s: System, key: string, u: Usage, i: int, actions: seq<Action>,
      again: Estimate)
    requires TableOk(s.account.rows) && OpenAt(s.account.rows, scope, key, i)
    requires UsageFits(s.account.rows[i], u) && u.response != "" && again.key == key
    requires Runs(scope, Step(scope, s, Settle(key, u)), actions)
    ensures LookedUp(After(scope, Step(scope, s, Settle(key, u)), actions).account, scope, again, true)
         == Answered(Replay(u.response))
  {
    SettleSettlesIff(scope, s, key, u, i);
    StepKeepsRow(scope, s, Settle(key, u), key);
    hide TableOk, Step, Runs, After, LookedUp;
    SettledCallIsReplayed(scope, Step(scope, s, Settle(key, u)), actions, again);
  }

  /** When a worker whose lookup found nothing is told to call the provider: the budget is not
      exhausted, stays so with the whole estimate, and the id and key are still unused. */
  lemma PutCallsIff(scope: Scope, a: Account, e: Estimate)
    ensures PutAnswer(a, scope, e) == CallProvider <==>
            && !a.budget.spent && a.budget.tokens < a.budget.maxTokens && a.budget.cost < a.budget.maxCost
            && e.tokens >= 0 && e.cost >= 0.0
            && a.budget.tokens + e.tokens < a.budget.maxTokens && a.budget.cost + e.cost < a.budget.maxCost
            && (forall i :: 0 <= i < |a.rows| ==> a.rows[i].id != e.id && !Keyed(a.rows[i], scope, e.key))
    ensures PutAnswer(a, scope, e) == NoHeadroom <==>
            || a.budget.spent || a.budget.tokens >= a.budget.maxTokens || a.budget.cost >= a.budget.maxCost
            || e.tokens < 0 || e.cost < 0.0
            || a.budget.tokens + e.tokens >= a.budget.maxTokens || a.budget.cost + e.cost >= a.budget.maxCost
  {
    InsertAcceptedIff(a.rows, Reservation(scope, e));
    hide InsertAccepted;
  }

  /** The reservation a call is made under: the estimate as it is, the cost rounded, nothing settled. */
  lemma PutReserves(scope: Scope, s: System, t: Tid)
    requires TableOk(s.account.rows) && PcOf(s, t).Looked?
    requires PutAnswer(s.account, scope, PcOf(s, t).e) == CallProvider
    ensures var e, s' := PcOf(s, t).e, Step(scope, s, Put(t));
            && OpenAt(s'.account.rows, scope, e.key, |s.account.rows|)
            && s'.account.rows == s.account.rows +
                 [Row(e.id, scope.tenant, scope.run, e.key, e.node, e.tokens, Rounded(e.cost),
                      None, None, None, None, Some("reserved"), e.at, e.at)]
            && s'.account.budget.tokens == s.account.budget.tokens + e.tokens
            && s'.account.budget.cost == s.account.budget.cost + e.cost
            && PcOf(s', t) == Answered(CallProvider) && s'.calls == s.calls + [e.key]
  {
    InsertMeansAbsent(s.account, scope, PcOf(s, t).e);
  }

  // ---------- Charges and reservations move together ----------

  ghost function TotalsOf(scope: Scope, s: System): Totals
  {
    RunTotals(s.account.rows, scope.tenant, scope.run)
  }

  /** Each reservation rounds its cost once, so charged and reserved costs differ by half a
      millionth a call at most. */
  ghost function Slack(s: System): real { 0.5 * |s.calls| as real }

  /** What is reserved was charged, and was below the ceilings when it was. */
  ghost predicate Covered(scope: Scope, start: Budget, s: System)
  {
    var b, t := s.account.budget, TotalsOf(scope, s);
    && TableOk(s.account.rows)
    && b.maxTokens == start.maxTokens && b.maxCost == start.maxCost
    && t.reservedTokens <= b.tokens - start.tokens
    && t.reservedCost as real <= b.cost - start.cost + Slack(s)
    && (s.calls != [] ==>
          && start.tokens + t.reservedTokens < start.maxTokens
          && start.cost + t.reservedCost as real < start.maxCost + Slack(s))
  }

  /** What is charged was reserved, and nothing else was charged. */
  ghost predicate Balanced(scope: Scope, start: Budget, s: System)
  {
    var b, t := s.account.budget, TotalsOf(scope, s);
    && b.tokens - start.tokens == t.reservedTokens
    && -Slack(s) <= b.cost - start.cost - t.reservedCost as real <= Slack(s)
  }

  /** The kernel's own budget forgets no charge and leaves the ceilings alone. */
  predicate KeepsCharges(s: System, a: Action)
  {
    a.Progress? ==>
      && a.b.tokens >= s.account.budget.tokens && a.b.cost >= s.account.budget.cost
      && a.b.maxTokens == s.account.budget.maxTokens && a.b.maxCost == s.account.budget.maxCost
  }

  ghost predicate AllKeepCharges(scope: Scope, s: System, actions: seq<Action>)
    requires Runs(scope, s, actions)
    decreases |actions|
  {
    actions == [] || (KeepsCharges(s, actions[0]) && AllKeepCharges(scope, Step(scope, s, actions[0]), actions[1..]))
  }

  ghost predicate NoProgress(actions: seq<Action>)
  {
    forall i :: 0 <= i < |actions| ==> !actions[i].Progress?
  }

  lemma RoundedIsClose(cost: real)
    requires cost >= 0.0
    ensures -0.5 <= cost - Rounded(cost) as real <= 0.5
  {
    var n := (cost + 0.5).Floor;
    assert n as real <= cost + 0.5 < n as real + 1.0;
  }

  lemma RoundedIsExactIff(cost: real)
    requires cost >= 0.0
    ensures Rounded(cost) as real == cost <==> Whole(cost)
  {
    var n := cost.Floor;
    if Whole(cost) {
      FloorIs(cost + 0.5, n);
    } else if Rounded(cost) as real == cost {
      FloorIs(cost, Rounded(cost));
    }
  }

  lemma FloorIs(x: real, n: int)
    requires n as real <= x < n as real + 1.0
    ensures x.Floor == n
  {
  }

  lemma {:induction false} TotalsUpdate(rows: seq<Row>, i: nat, n: Row, tenant: nat, run: nat)
    requires i < |rows| && SameIdentityAndBounds(rows[i], n)
    ensures RunTotals(rows[i := n], tenant, run).reservedTokens == RunTotals(rows, tenant, run).reservedTokens
    ensures RunTotals(rows[i := n], tenant, run).reservedCost == RunTotals(rows, tenant, run).reservedCost
  {
    var init := rows[..|rows| - 1];
    if i == |rows| - 1 {
      assert rows[i := n][..|rows| - 1] == init;
    } else {
      assert rows[i := n][..|rows| - 1] == init[i := n];
      TotalsUpdate(init, i, n, tenant, run);
    }
  }

  /** What one write does to the reserved sums of a run: only an insert for that run adds to them. */
  lemma TotalsWritten(rows: seq<Row>, w: Write, scope: Scope)
    ensures var t, t' := RunTotals(rows, scope.tenant, scope.run), RunTotals(Written(rows, w), scope.tenant, scope.run);
            if w.Insert? && InsertAccepted(rows, w.row) && OfRun(w.row, scope.tenant, scope.run)
            then t'.reservedTokens == t.reservedTokens + w.row.reservedTokens
                 && t'.reservedCost == t.reservedCost + w.row.reservedCost
            else t'.reservedTokens == t.reservedTokens && t'.reservedCost == t.reservedCost
  {
    hide InsertAccepted;
    match w
    case Insert(n) => assert (rows + [n])[..|rows|] == rows;
    case Update(i, n) =>
      if i < |rows| && UpdateAccepted(rows, i, n) {
        TotalsUpdate(rows, i, n, scope.tenant, scope.run);
      }
  }

  /** Reserved sums and charges change in the same step, by the same estimate. */
  lemma StepMovesBoth(scope: Scope, s: System, a: Action)
    requires Enabled(scope, s, a)
    ensures var s' := Step(scope, s, a);
            var t, t', b, b' := TotalsOf(scope, s), TotalsOf(scope, s'), s.account.budget, s'.account.budget;
            if a.Put? && PutAnswer(s.account, scope, PcOf(s, a.t).e) == CallProvider then
              var e := PcOf(s, a.t).e;
              && t'.reservedTokens - t.reservedTokens == e.tokens
              && b' == b.(tokens := b.tokens + e.tokens, cost := b.cost + e.cost)
              && t'.reservedCost - t.reservedCost == Rounded(e.cost) && s'.calls == s.calls + [e.key]
            else
              && t'.reservedTokens == t.reservedTokens && t'.reservedCost == t.reservedCost
              && b' == (if a.Progress? then a.b else b) && s'.calls == s.calls
  {
    StepIsWrite(scope, s, a);
    var w := WriteOf(s, scope, a);
    if w.Some? {
      hide RunTotals, InsertAccepted, UpdateAccepted, IndexOf;
      TotalsWritten(s.account.rows, w.value, scope);
    }
  }

  lemma {:induction false} TotalsSettled(rows: seq<Row>, i: nat, n: Row, scope: Scope)
    requires i < |rows| && OfRun(rows[i], scope.tenant, scope.run) && SameIdentityAndBounds(rows[i], n)
    requires rows[i].status == Some("reserved") && n.status == Some("completed")
    requires n.actualInput.Some? && n.actualOutput.Some? && n.actualCost.Some?
    ensures var t := RunTotals(rows, scope.tenant, scope.run);
            RunTotals(rows[i := n], scope.tenant, scope.run) ==
              Totals(t.usedTokens + n.actualInput.value + n.actualOutput.value, t.usedCost + n.actualCost.value,
                     t.settledTokens + n.reservedTokens, t.settledCost + n.reservedCost,
                     t.reservedTokens, t.reservedCost)
  {
    var init := rows[..|rows| - 1];
    if i == |rows| - 1 {
      assert rows[i := n][..|rows| - 1] == init;
    } else {
      assert rows[i := n][..|rows| - 1] == init[i := n];
      TotalsSettled(init, i, n, scope);
    }
  }

  /** A settlement adds its usage to what the run has used, and nothing else. */
  lemma SettleAddsUsage(scope: Scope, s: System, key: string, u: Usage, i: int)
    requires TableOk(s.account.rows) && OpenAt(s.account.rows, scope, key, i)
    requires UsageFits(s.account.rows[i], u)
    ensures var t, o, s' := TotalsOf(scope, s), s.account.rows[i], Step(scope, s, Settle(key, u));
            && s'.account.budget == s.account.budget
            && TotalsOf(scope, s') ==
                 Totals(t.usedTokens + u.input + u.output, t.usedCost + Rounded(u.cost),
                        t.settledTokens + o.reservedTokens, t.settledCost + o.reservedCost,
                        t.reservedTokens, t.reservedCost)
  {
    SettleSettlesIff(scope, s, key, u, i);
    TotalsSettled(s.account.rows, i, Settlement(s.account.rows[i], u), scope);
    UpdateAcceptedIff(s.account.rows, i, Settlement(s.account.rows[i], u));
    hide RunTotals, TableOk, UpdateAccepted;
  }

  lemma StepKeepsCovered(scope: Scope, start: Budget, s: System, a: Action)
    requires Enabled(scope, s, a) && KeepsCharges(s, a) && Covered(scope, start, s)
    ensures Covered(scope, start, Step(scope, s, a))
  {
    StepMovesBoth(scope, s, a);
    StepKeepsRow(scope, s, a, "");
    hide TableOk, Step, TotalsOf, InsertAccepted;
    if a.Put? && PutAnswer(s.account, scope, PcOf(s, a.t).e) == CallProvider {
      RoundedIsClose(PcOf(s, a.t).e.cost);
    }
  }

  lemma StepKeepsBalance(scope: Scope, start: Budget, s: System, a: Action)
    requires Enabled(scope, s, a) && !a.Progress? && Balanced(scope, start, s)
    ensures Balanced(scope, start, Step(scope, s, a))
  {
    StepMovesBoth(scope, s, a);
    hide TableOk, Step, TotalsOf, InsertAccepted;
    if a.Put? && PutAnswer(s.account, scope, PcOf(s, a.t).e) == CallProvider {
      RoundedIsClose(PcOf(s, a.t).e.cost);
    }
  }

  lemma {:induction false} RunKeepsCovered(scope: Scope, start: Budget, s: System, actions: seq<Action>)
    requires Runs(scope, s, actions) && AllKeepCharges(scope, s, actions) && Covered(scope, start, s)
    ensures Covered(scope, start, After(scope, s, actions))
    decreases |actions|
  {
    hide Covered, Step, Enabled, KeepsCharges;
    if actions != [] {
      StepKeepsCovered(scope, start, s, actions[0]);
      RunKeepsCovered(scope, start, Step(scope, s, actions[0]), actions[1..]);
    }
  }

  lemma {:induction false} RunKeepsBalance(scope: Scope, start: Budget, s: System, actions: seq<Action>)
    requires Runs(scope, s, actions) && NoProgress(actions) && Balanced(scope, start, s)
    ensures Balanced(scope, start, After(scope, s, actions))
    decreases |actions|
  {
    hide Balanced, Step, Enabled;
    if actions != [] {
      StepKeepsBalance(scope, start, s, actions[0]);
      RunKeepsBalance(scope, start, Step(scope, s, actions[0]), actions[1..]);
    }
  }

  lemma {:induction false} NothingReserved(rows: seq<Row>, scope: Scope)
    requires forall i :: 0 <= i < |rows| ==> !OfRun(rows[i], scope.tenant, scope.run)
    ensures RunTotals(rows, scope.tenant, scope.run) == Totals(0, 0, 0, 0, 0, 0)
  {
    if rows != [] { NothingReserved(rows[..|rows| - 1], scope); }
  }

  lemma StartIsBalanced(scope: Scope, s: System)
    requires Initial(scope, s)
    ensures Covered(scope, s.account.budget, s) && Balanced(scope, s.account.budget, s)
  {
    NothingReserved(s.account.rows, scope);
  }

  /** Over every interleaving in which no kernel write lowers the charge, even the reservations stay
      below the ceilings: what was reserved was charged, costs up to rounding. */
  lemma ReservationsAreBounded(scope: Scope, s: System, actions: seq<Action>)
    requires Initial(scope, s) && Runs(scope, s, actions) && AllKeepCharges(scope, s, actions)
    ensures var s' := After(scope, s, actions);
            var start, b, t := s.account.budget, s'.account.budget, TotalsOf(scope, s');
            && 0 <= t.usedTokens <= t.reservedTokens <= b.tokens - start.tokens
            && 0 <= t.usedCost <= t.reservedCost && t.reservedCost as real <= b.cost - start.cost + Slack(s')
            && (s'.calls != [] ==> start.tokens + t.reservedTokens < start.maxTokens)
            && (s'.calls != [] ==> start.cost + t.reservedCost as real < start.maxCost + Slack(s'))
  {
    hide Initial, RunTotals;
    StartIsBalanced(scope, s);
    RunKeepsCovered(scope, s.account.budget, s, actions);
    UsageWithinTotals(After(scope, s, actions).account.rows, scope.tenant, scope.run);
  }

  /** While only `reserve` and `settle` write the budget, tokens are charged exactly as reserved. */
  lemma ChargesAreReservations(scope: Scope, s: System, actions: seq<Action>)
    requires Initial(scope, s) && Runs(scope, s, actions) && NoProgress(actions)
    ensures var s' := After(scope, s, actions);
            var start, b, t := s.account.budget, s'.account.budget, TotalsOf(scope, s');
            && b.tokens - start.tokens == t.reservedTokens
            && -Slack(s') <= b.cost - start.cost - t.reservedCost as real <= Slack(s')
  {
    hide Initial, RunTotals;
    StartIsBalanced(scope, s);
    RunKeepsBalance(scope, s.account.budget, s, actions);
  }

  // ---------- What the kernel may write ----------

  /** What a run is committed to: the usage of its completed calls and the whole reservation of
      those still open. */
  datatype Commitment = Commitment(tokens: int, cost: int)

  ghost function CommittedIn(rows: seq<Row>, scope: Scope): Commitment
  {
    var t := RunTotals(rows, scope.tenant, scope.run);
    Commitment(t.usedTokens + t.reservedTokens - t.settledTokens, t.usedCost + t.reservedCost - t.settledCost)
  }

  ghost function CommittedBy(scope: Scope, s: System): Commitment
  {
    CommittedIn(s.account.rows, scope)
  }

  /** Usage and open reservations together are below both ceilings, costs up to rounding. */
  ghost predicate Below(scope: Scope, start: Budget, s: System)
  {
    var c := CommittedBy(scope, s);
    start.tokens + c.tokens < start.maxTokens && start.cost + c.cost as real < start.maxCost + Slack(s)
  }

  /** How many half millionths fit strictly below `d`. */
  function HalvesBelow(d: real): int
  {
    var n := (2.0 * d).Floor;
    if n as real == 2.0 * d then n - 1 else n
  }

  /** The charge covers the commitment, or admits no further call at all. */
  ghost predicate TokensSafe(scope: Scope, start: Budget, s: System, b: Budget)
  {
    b.Exhausted() || b.tokens - start.tokens >= CommittedBy(scope, s).tokens
  }

  /** The same for costs: the dearest calls that still fit under the ceiling, each of which rounding
      may make half a millionth dearer, keep the commitment below it. */
  ghost predicate CostSafe(scope: Scope, start: Budget, s: System, b: Budget)
  {
    || b.Exhausted()
    || start.cost + CommittedBy(scope, s).cost as real + 0.5 * HalvesBelow(start.maxCost - b.cost) as real
       < start.maxCost + Slack(s)
  }

  predicate SameCeilings(start: Budget, b: Budget)
  {
    b.maxTokens == start.maxTokens && b.maxCost == start.maxCost
  }

  ghost predicate SafeWrite(scope: Scope, start: Budget, s: System, b: Budget)
  {
    SameCeilings(start, b) && TokensSafe(scope, start, s, b) && CostSafe(scope, start, s, b)
  }

  ghost predicate AllWritesSafe(scope: Scope, start: Budget, s: System, actions: seq<Action>)
    requires Runs(scope, s, actions)
    decreases |actions|
  {
    || actions == []
    || (&& (actions[0].Progress? ==> SafeWrite(scope, start, s, actions[0].b))
        && AllWritesSafe(scope, start, Step(scope, s, actions[0]), actions[1..]))
  }

  /** The durable budget is itself safe, and no call has been let past the ceilings. */
  ghost predicate InBounds(scope: Scope, start: Budget, s: System)
  {
    && TableOk(s.account.rows)
    && SafeWrite(scope, start, s, s.account.budget)
    && (s.calls != [] ==> Below(scope, start, s))
  }

  // ---------- How commitments move ----------

  /** A settlement replaces a reservation by a usage within it. */
  lemma {:induction false} CommittedUpdate(rows: seq<Row>, i: nat, n: Row, scope: Scope)
    requires i < |rows| && TriggerAllowsUpdate(rows[i], n) && ChecksHold(rows[i]) && ChecksHold(n)
    ensures CommittedIn(rows[i := n], scope).tokens <= CommittedIn(rows, scope).tokens
    ensures CommittedIn(rows[i := n], scope).cost <= CommittedIn(rows, scope).cost
  {
    var init := rows[..|rows| - 1];
    if i == |rows| - 1 {
      assert rows[i := n][..|rows| - 1] == init;
    } else {
      assert rows[i := n][..|rows| - 1] == init[i := n];
      CommittedUpdate(init, i, n, scope);
    }
  }

  lemma CommittedWritten(rows: seq<Row>, w: Write, scope: Scope)
    requires TableOk(rows)
    ensures var c, c' := CommittedIn(rows, scope), CommittedIn(Written(rows, w), scope);
            if w.Insert? && InsertAccepted(rows, w.row) && OfRun(w.row, scope.tenant, scope.run)
            then c' == Commitment(c.tokens + w.row.reservedTokens, c.cost + w.row.reservedCost)
            else c'.tokens <= c.tokens && c'.cost <= c.cost
  {
    match w
    case Insert(n) => assert (rows + [n])[..|rows|] == rows;
    case Update(i, n) =>
      if i < |rows| && UpdateAccepted(rows, i, n) {
        CommittedUpdate(rows, i, n, scope);
      }
  }

  /** Only a reservation adds to the commitment, and it is charged in the same step. */
  lemma StepCommits(scope: Scope, s: System, a: Action)
    requires Enabled(scope, s, a) && TableOk(s.account.rows)
    ensures var s' := Step(scope, s, a);
            var c, c' := CommittedBy(scope, s), CommittedBy(scope, s');
            if a.Put? && PutAnswer(s.account, scope, PcOf(s, a.t).e) == CallProvider then
              var e := PcOf(s, a.t).e;
              c' == Commitment(c.tokens + e.tokens, c.cost + Rounded(e.cost))
            else c'.tokens <= c.tokens && c'.cost <= c.cost
  {
    StepIsWrite(scope, s, a);
    var w := WriteOf(s, scope, a);
    if w.Some? {
      hide CommittedIn, InsertAccepted, UpdateAccepted, IndexOf, TableOk;
      CommittedWritten(s.account.rows, w.value, scope);
    }
  }

  // ---------- Safe writes keep every run below the ceilings ----------

  lemma HalvesBelowIs(d: real, m: int)
    ensures 0.5 * HalvesBelow(d) as real < d
    ensures 0.5 * m as real < d <==> m <= HalvesBelow(d)
  {
    var n := (2.0 * d).Floor;
    assert n as real <= 2.0 * d < (n + 1) as real;
    if m <= HalvesBelow(d) {
      assert m as real <= HalvesBelow(d) as real;
    } else {
      assert m >= HalvesBelow(d) + 1;
      assert m as real >= (HalvesBelow(d) + 1) as real;
    }
  }

  /** A call takes from the room below the ceiling all that rounding may add to it. */
  lemma CallTakesHalves(d: real, cost: real)
    requires cost >= 0.0
    ensures HalvesBelow(d - cost) + 2 * Rounded(cost) - 1 <= HalvesBelow(d)
  {
    var h, r := HalvesBelow(d - cost), Rounded(cost);
    HalvesBelowIs(d - cost, h);
    RoundedIsClose(cost);
    hide HalvesBelow, Rounded;
    assert 0.5 * (h + 2 * r - 1) as real == 0.5 * h as real + r as real - 0.5;
    HalvesBelowIs(d, h + 2 * r - 1);
  }

  /** What a call does to the room for costs, in numbers: `committed` from a budget `charged`. */
  lemma CostRoomKept(start: real, max: real, slack: real, committed: int, charged: real, cost: real)
    requires start + committed as real + 0.5 * HalvesBelow(max - charged) as real < max + slack
    requires cost >= 0.0 && charged + cost < max
    ensures var c' := committed + Rounded(cost);
            && start + c' as real + 0.5 * HalvesBelow(max - (charged + cost)) as real < max + (slack + 0.5)
            && start + c' as real < max + (slack + 0.5)
  {
    CallTakesHalves(max - charged, cost);
    HalvesBelowIs(max - charged - cost, 0);
    hide HalvesBelow, Rounded;
    assert max - (charged + cost) == max - charged - cost;
    var h, h', r := HalvesBelow(max - charged), HalvesBelow(max - charged - cost), Rounded(cost);
    assert 0.5 * h' as real + r as real - 0.5 <= 0.5 * h as real;
  }

  lemma PutKeepsTokens(scope: Scope, start: Budget, s: System, t: Tid)
    requires Enabled(scope, s, Put(t)) && InBounds(scope, start, s)
    requires PutAnswer(s.account, scope, PcOf(s, t).e) == CallProvider
    ensures var s' := Step(scope, s, Put(t));
            && TableOk(s'.account.rows) && SameCeilings(start, s'.account.budget) && !s'.account.budget.Exhausted()
            && TokensSafe(scope, start, s', s'.account.budget)
            && start.tokens + CommittedBy(scope, s').tokens < start.maxTokens
  {
    StepCommits(scope, s, Put(t));
    StepMovesBoth(scope, s, Put(t));
    StepKeepsRow(scope, s, Put(t), "");
    hide TableOk, Step, CommittedBy, TotalsOf, InsertAccepted, HalvesBelow, Rounded;
  }

  lemma PutKeepsBounds(scope: Scope, start: Budget, s: System, t: Tid)
    requires Enabled(scope, s, Put(t)) && InBounds(scope, start, s)
    requires PutAnswer(s.account, scope, PcOf(s, t).e) == CallProvider
    ensures InBounds(scope, start, Step(scope, s, Put(t))) && Below(scope, start, Step(scope, s, Put(t)))
  {
    var e, b, s' := PcOf(s, t).e, s.account.budget, Step(scope, s, Put(t));
    PutKeepsTokens(scope, start, s, t);
    StepCommits(scope, s, Put(t));
    StepMovesBoth(scope, s, Put(t));
    assert Slack(s') == Slack(s) + 0.5;
    assert !b.Exhausted() && e.cost >= 0.0;
    hide TableOk, Step, CommittedBy, TotalsOf, InsertAccepted, HalvesBelow, Rounded, Slack, PutAnswer;
    CostRoomKept(start.cost, start.maxCost, Slack(s), CommittedBy(scope, s).cost, b.cost, e.cost);
  }

  lemma OtherStepKeepsBounds(scope: Scope, start: Budget, s: System, a: Action)
    requires Enabled(scope, s, a) && InBounds(scope, start, s)
    requires a.Progress? ==> SafeWrite(scope, start, s, a.b)
    requires a.Put? ==> PutAnswer(s.account, scope, PcOf(s, a.t).e) != CallProvider
    ensures InBounds(scope, start, Step(scope, s, a))
    ensures Below(scope, start, s) ==> Below(scope, start, Step(scope, s, a))
  {
    StepCommits(scope, s, a);
    StepMovesBoth(scope, s, a);
    StepKeepsRow(scope, s, a, "");
    hide TableOk, Step, CommittedBy, TotalsOf, InsertAccepted, HalvesBelow;
  }

  lemma StepKeepsBounds(scope: Scope, start: Budget, s: System, a: Action)
    requires Enabled(scope, s, a) && InBounds(scope, start, s)
    requires a.Progress? ==> SafeWrite(scope, start, s, a.b)
    ensures InBounds(scope, start, Step(scope, s, a))
    ensures Below(scope, start, s) ==> Below(scope, start, Step(scope, s, a))
  {
    hide Below, SafeWrite, TableOk, PutAnswer, CommittedBy;
    if a.Put? && PutAnswer(s.account, scope, PcOf(s, a.t).e) == CallProvider {
      PutKeepsBounds(scope, start, s, a.t);
    } else {
      OtherStepKeepsBounds(scope, start, s, a);
    }
  }

  lemma {:induction false} RunKeepsBounds(scope: Scope, start: Budget, s: System, actions: seq<Action>)
    requires Runs(scope, s, actions) && AllWritesSafe(scope, start, s, actions) && InBounds(scope, start, s)
    ensures InBounds(scope, start, After(scope, s, actions))
    ensures Below(scope, start, s) ==> Below(scope, start, After(scope, s, actions))
    decreases |actions|
  {
    hide InBounds, Below, SafeWrite, Step, Enabled;
    if actions != [] {
      StepKeepsBounds(scope, start, s, actions[0]);
      RunKeepsBounds(scope, start, Step(scope, s, actions[0]), actions[1..]);
    }
  }

  lemma StartIsInBounds(scope: Scope, s: System)
    requires Initial(scope, s)
    ensures InBounds(scope, s.account.budget, s)
  {
    var b := s.account.budget;
    NothingReserved(s.account.rows, scope);
    HalvesBelowIs(b.maxCost - b.cost, 0);
    hide HalvesBelow, RunTotals;
  }

  /** Over every interleaving in which each kernel write is safe, whatever it lowers: the usage of the
      completed calls and the reservations of the open ones together stay below the ceilings. */
  lemma SpendingIsBounded(scope: Scope, s: System, actions: seq<Action>)
    requires Initial(scope, s) && Runs(scope, s, actions)
    requires AllWritesSafe(scope, s.account.budget, s, actions)
    ensures var s' := After(scope, s, actions);
            var start, t, c := s.account.budget, TotalsOf(scope, s'), CommittedBy(scope, s');
            && 0 <= t.usedTokens <= c.tokens <= t.reservedTokens
            && 0 <= t.usedCost <= c.cost <= t.reservedCost
            && (s'.calls != [] ==> start.tokens + c.tokens < start.maxTokens)
            && (s'.calls != [] ==> start.cost + c.cost as real < start.maxCost + Slack(s'))
  {
    hide Initial, RunTotals;
    StartIsInBounds(scope, s);
    RunKeepsBounds(scope, s.account.budget, s, actions);
    UsageWithinTotals(After(scope, s, actions).account.rows, scope.tenant, scope.run);
  }

  // ---------- The condition is exact ----------

  lemma {:induction false} FreshEstimate(rows: seq<Row>, tokens: int, cost: real) returns (e: Estimate)
    ensures e.tokens == tokens && e.cost == cost && e.key != ""
    ensures forall i :: 0 <= i < |rows| ==> rows[i].id < e.id && |rows[i].key| < |e.key|
  {
    if rows == [] {
      e := Estimate(0, "k", "n", tokens, cost, 0);
    } else {
      var last := rows[|rows| - 1];
      e := FreshEstimate(rows[..|rows| - 1], tokens, cost);
      e := e.(id := e.id + last.id + 1, key := e.key + last.key);
      assert forall i :: 0 <= i < |rows| - 1 ==> rows[i] == rows[..|rows| - 1][i];
    }
  }

  lemma {:induction false} HighestTid(tids: set<Tid>) returns (n: nat)
    ensures forall t :: t in tids ==> t <= n
    decreases tids
  {
    n := 0;
    if t :| t in tids {
      n := HighestTid(tids - {t});
      n := if t > n then t else n;
      forall u | u in tids ensures u <= n {
        assert u == t || u in tids - {t};
      }
    }
  }

  /** Where the durable budget has room, a worker can reserve it. */
  lemma ReserveMore(scope: Scope, s: System, tokens: int, cost: real) returns (actions: seq<Action>)
    requires TableOk(s.account.rows) && HasHeadroom(s.account.budget, tokens, cost)
    ensures Runs(scope, s, actions) && NoProgress(actions)
    ensures var s', c := After(scope, s, actions), CommittedBy(scope, s);
            && TableOk(s'.account.rows) && |s'.calls| == |s.calls| + 1
            && s'.account.budget ==
                 s.account.budget.(tokens := s.account.budget.tokens + tokens, cost := s.account.budget.cost + cost)
            && CommittedBy(scope, s') == Commitment(c.tokens + tokens, c.cost + Rounded(cost))
  {
    var e := FreshEstimate(s.account.rows, tokens, cost);
    var n := HighestTid(s.pc.Keys);
    var look, put := Look(n + 1, e, true), Put(n + 1);
    FreshFits(s.account, scope, e);
    var s1 := Step(scope, s, look);
    StepCommits(scope, s1, put);
    StepMovesBoth(scope, s1, put);
    StepKeepsRow(scope, s1, put, "");
    hide Step, TableOk, CommittedBy, PutAnswer, LookedUp, TotalsOf;
    actions := [look, put];
    assert actions[1..] == [put] && actions[1..][1..] == [];
    assert Runs(scope, Step(scope, s1, put), []) && After(scope, Step(scope, s1, put), []) == Step(scope, s1, put);
    assert Runs(scope, s1, [put]) && After(scope, s1, [put]) == Step(scope, s1, put);
  }

  lemma FreshFits(a: Account, scope: Scope, e: Estimate)
    requires HasHeadroom(a.budget, e.tokens, e.cost)
    requires forall i :: 0 <= i < |a.rows| ==> a.rows[i].id < e.id && |a.rows[i].key| < |e.key|
    ensures LookedUp(a, scope, e, true) == Looked(e) && PutAnswer(a, scope, e) == CallProvider
  {
  }

  lemma {:induction false} RunsJoin(scope: Scope, s: System, first: seq<Action>, rest: seq<Action>)
    requires Runs(scope, s, first) && Runs(scope, After(scope, s, first), rest)
    ensures Runs(scope, s, first + rest)
    ensures After(scope, s, first + rest) == After(scope, After(scope, s, first), rest)
    decreases |first|
  {
    hide Step, Enabled;
    if first == [] {
      assert first + rest == rest;
    } else {
      RunsJoin(scope, Step(scope, s, first[0]), first[1..], rest);
      assert (first + rest)[0] == first[0] && (first + rest)[1..] == first[1..] + rest;
    }
  }

  lemma {:induction false} NoProgressIsSafe(scope: Scope, start: Budget, s: System, actions: seq<Action>)
    requires Runs(scope, s, actions) && NoProgress(actions)
    ensures AllWritesSafe(scope, start, s, actions)
    decreases |actions|
  {
    hide Step, Enabled, SafeWrite;
    if actions != [] {
      NoProgressIsSafe(scope, start, Step(scope, s, actions[0]), actions[1..]);
    }
  }

  /** One call of all the tokens a charge leaves goes past the ceiling if the charge forgets some. */
  lemma TokensOverspend(scope: Scope, start: Budget, s: System) returns (actions: seq<Action>)
    requires TableOk(s.account.rows) && SameCeilings(start, s.account.budget)
    requires !TokensSafe(scope, start, s, s.account.budget)
    ensures Runs(scope, s, actions) && NoProgress(actions) && !Below(scope, start, After(scope, s, actions))
  {
    var b := s.account.budget;
    hide CommittedBy, TableOk, Runs, After;
    FloorIs(0.5, 0);
    actions := ReserveMore(scope, s, b.maxTokens - b.tokens - 1, 0.0);
  }

  /** A call of an odd number of half millionths is the one that rounding makes dearest. */
  lemma HalfRounded(k: int)
    requires k >= 0
    ensures Rounded(k as real + 0.5) == k + 1
  {
    FloorIs(k as real + 0.5 + 0.5, k + 1);
  }

  lemma CostOverspends(scope: Scope, start: Budget, s: System) returns (actions: seq<Action>)
    requires TableOk(s.account.rows) && SameCeilings(start, s.account.budget)
    requires Below(scope, start, s) && !CostSafe(scope, start, s, s.account.budget)
    ensures Runs(scope, s, actions) && NoProgress(actions) && !Below(scope, start, After(scope, s, actions))
  {
    var b := s.account.budget;
    var h := HalvesBelow(b.maxCost - b.cost);
    HalvesBelowIs(b.maxCost - b.cost, h);
    hide HalvesBelow, CommittedBy, TableOk, Runs, After, Rounded;
    var k := h / 2;
    if h % 2 == 1 {
      HalfRounded(k);
      assert k as real + 0.5 == 0.5 * h as real;
      actions := ReserveMore(scope, s, 0, k as real + 0.5);
    } else {
      HalfRounded(0);
      HalfRounded(k - 1);
      assert 0.5 + ((k - 1) as real + 0.5) == 0.5 * h as real;
      var first := ReserveMore(scope, s, 0, 0 as real + 0.5);
      var rest := ReserveMore(scope, After(scope, s, first), 0, (k - 1) as real + 0.5);
      RunsJoin(scope, s, first, rest);
      actions := first + rest;
    }
  }

  /** From here on, while later kernel writes are safe, no run goes past the ceilings. */
  ghost predicate StaysBelow(scope: Scope, start: Budget, s: System)
  {
    forall actions :: Runs(scope, s, actions) && AllWritesSafe(scope, start, s, actions) ==>
      Below(scope, start, After(scope, s, actions))
  }

  /** A kernel write within unchanged ceilings is harmless if and only if it covers what the run is
      committed to or leaves no room for another call. */
  lemma KernelWriteIsSafeIff(scope: Scope, start: Budget, s: System, b: Budget)
    requires InBounds(scope, start, s) && Below(scope, start, s) && SameCeilings(start, b)
    ensures StaysBelow(scope, start, Step(scope, s, Progress(b))) <==>
            TokensSafe(scope, start, s, b) && CostSafe(scope, start, s, b)
  {
    var s' := Step(scope, s, Progress(b));
    hide TableOk, CommittedIn, HalvesBelow, Runs, After, AllWritesSafe;
    assert CommittedBy(scope, s') == CommittedBy(scope, s) && Slack(s') == Slack(s);
    if TokensSafe(scope, start, s, b) && CostSafe(scope, start, s, b) {
      forall actions | Runs(scope, s', actions) && AllWritesSafe(scope, start, s', actions)
        ensures Below(scope, start, After(scope, s', actions))
      {
        RunKeepsBounds(scope, start, s', actions);
      }
    } else {
      var actions := ForgottenChargeOverspends(scope, start, s');
    }
  }

  /** After any write that is not safe some later run, without another kernel write, is past a
      ceiling. */
  lemma ForgottenChargeOverspends(scope: Scope, start: Budget, s: System) returns (actions: seq<Action>)
    requires TableOk(s.account.rows) && Below(scope, start, s) && SameCeilings(start, s.account.budget)
    requires !SafeWrite(scope, start, s, s.account.budget)
    ensures Runs(scope, s, actions) && AllWritesSafe(scope, start, s, actions)
    ensures NoProgress(actions) && !Below(scope, start, After(scope, s, actions))
  {
    hide TableOk, Below, Runs, After, AllWritesSafe, TokensSafe, CostSafe, NoProgress;
    if !TokensSafe(scope, start, s, s.account.budget) {
      actions := TokensOverspend(scope, start, s);
    } else {
      actions := CostOverspends(scope, start, s);
    }
    NoProgressIsSafe(scope, start, s, actions);
  }

  // ---------- The write the kernel makes ----------

  /** The reservations of the calls still open. */
  ghost function OpenIn(scope: Scope, s: System): Commitment
  {
    var t := TotalsOf(scope, s);
    Commitment(t.reservedTokens - t.settledTokens, t.reservedCost - t.settledCost)
  }

  /** A node charges its budget with the actual usage of its calls, and the kernel writes that over
      the durable charge. With `dropped` tokens of usage lost on the way, the write covers the run's
      tokens if and only if no call is open and nothing was lost; and then it is safe, whatever it
      undoes of the charge, if it loses no cost either. */
  lemma UsageWriteIsSafeIff(scope: Scope, start: Budget, s: System, b: Budget, dropped: nat)
    requires TableOk(s.account.rows) && SameCeilings(start, b) && !b.Exhausted()
    requires b.tokens == start.tokens + TotalsOf(scope, s).usedTokens - dropped
    ensures TokensSafe(scope, start, s, b) <==> OpenIn(scope, s).tokens == 0 && dropped == 0
    ensures OpenIn(scope, s) == Commitment(0, 0) && dropped == 0
            && b.cost >= start.cost + TotalsOf(scope, s).usedCost as real - Slack(s)
            ==> SafeWrite(scope, start, s, b)
  {
    UsageWithinTotals(s.account.rows, scope.tenant, scope.run);
    HalvesBelowIs(start.maxCost - b.cost, 0);
    hide RunTotals, HalvesBelow, TableOk;
    var used, c := TotalsOf(scope, s).usedCost, CommittedBy(scope, s).cost;
    if OpenIn(scope, s) == Commitment(0, 0) && b.cost >= start.cost + used as real - Slack(s) {
      assert c == used;
      assert start.cost + c as real + 0.5 * HalvesBelow(start.maxCost - b.cost) as real < start.maxCost + Slack(s);
      assert CostSafe(scope, start, s, b);
    }
  }

  // ---------- When costs balance exactly ----------

  ghost predicate WholeCosts(s: System, actions: seq<Action>)
  {
    && (forall t :: t in s.pc && s.pc[t].Looked? ==> Whole(s.pc[t].e.cost))
    && (forall i :: 0 <= i < |actions| && actions[i].Look? ==> Whole(actions[i].e.cost))
  }

  /** By how much the budget's cost exceeds the sum of the stored reservations. */
  ghost function CostGap(scope: Scope, s: System): real
  {
    s.account.budget.cost - TotalsOf(scope, s).reservedCost as real
  }

  lemma StepMovesGap(scope: Scope, s: System, a: Action)
    requires Enabled(scope, s, a) && !a.Progress?
    ensures var charged := a.Put? && PutAnswer(s.account, scope, PcOf(s, a.t).e) == CallProvider;
            CostGap(scope, Step(scope, s, a)) - CostGap(scope, s)
            == if charged then PcOf(s, a.t).e.cost - Rounded(PcOf(s, a.t).e.cost) as real else 0.0
  {
    StepMovesBoth(scope, s, a);
    hide Step, TotalsOf, PutAnswer, Rounded;
  }

  /** When every estimate is a whole number of millionths, what is charged stays equal to what is
      reserved. */
  lemma {:induction false} WholeCostsBalance(scope: Scope, s: System, actions: seq<Action>)
    requires Runs(scope, s, actions) && NoProgress(actions) && WholeCosts(s, actions)
    ensures CostGap(scope, After(scope, s, actions)) == CostGap(scope, s)
    decreases |actions|
  {
    hide CostGap, TotalsOf, Rounded, Whole;
    if actions != [] {
      var a := actions[0];
      StepMovesGap(scope, s, a);
      if a.Put? && PutAnswer(s.account, scope, PcOf(s, a.t).e) == CallProvider {
        RoundedIsExactIff(PcOf(s, a.t).e.cost);
      }
      StepKeepsWhole(scope, s, actions);
      WholeCostsBalance(scope, Step(scope, s, a), actions[1..]);
    }
  }

  lemma StepKeepsWhole(scope: Scope, s: System, actions: seq<Action>)
    requires actions != [] && Enabled(scope, s, actions[0]) && WholeCosts(s, actions)
    ensures WholeCosts(Step(scope, s, actions[0]), actions[1..])
  {
    assert actions[0].Look? ==> Whole(actions[0].e.cost);
  }

  /** One reservation is charged as it is stored exactly when its cost is whole; one and a half
      millionths are stored as two. */
  lemma OneCallBalancesIff(scope: Scope, s: System, t: Tid)
    requires PcOf(s, t).Looked? && PutAnswer(s.account, scope, PcOf(s, t).e) == CallProvider
    ensures CostGap(scope, Step(scope, s, Put(t))) == CostGap(scope, s) <==> Whole(PcOf(s, t).e.cost)
    ensures Rounded(1.5) == 2
  {
    StepMovesGap(scope, s, Put(t));
    RoundedIsExactIff(PcOf(s, t).e.cost);
    FloorIs(2.0, 2);
    hide Step, CostGap;
  }
}
