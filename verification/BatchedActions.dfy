/** `_actions_json` of `src/asic/api/app.py`: a page of remediation actions is serialised with three
    batched reads instead of three reads for each action. */
module BatchedActions {
  import opened Wrappers

  /** A row that belongs to an action. Approvals rank by `created_at`, verifications by `attempt`;
      policy decisions are read in no order. `shown` is the column that reaches the response. */
  datatype Related = Related(id: nat, action: nat, rank: int, shown: string)

  datatype RemediationAction = RemediationAction(id: nat, fields: string)

  datatype ActionJson =
    ActionJson(action: RemediationAction, policyVerdict: Option<string>,
               approval: Option<string>, verification: Option<string>)

  datatype Tables = Tables(approvals: set<Related>, verifications: set<Related>, policies: set<Related>)

  datatype Answers = Answers(approvals: seq<Related>, verifications: seq<Related>, policies: seq<Related>)

  // ---------- What the database may answer ----------

  /** The rows of `table` whose action is listed, each once, in any order. */
  ghost predicate IsSelection(rows: seq<Related>, table: set<Related>, ids: seq<nat>)
  {
    && (forall i, j :: 0 <= i < j < |rows| ==> rows[i] != rows[j])
    && (forall x :: x in rows <==> x in table && x.action in ids)
  }

  /** ORDER BY action, rank DESC; ties come in any order. */
  predicate NotAfter(x: Related, y: Related)
  {
    x.action < y.action || (x.action == y.action && x.rank >= y.rank)
  }

  ghost predicate IsOrdered(rows: seq<Related>)
  {
    forall i, j :: 0 <= i < j < |rows| ==> NotAfter(rows[i], rows[j])
  }

  ghost predicate Answer(db: Tables, ids: seq<nat>, a: Answers)
  {
    && IsSelection(a.approvals, db.approvals, ids) && IsOrdered(a.approvals)
    && IsSelection(a.verifications, db.verifications, ids) && IsOrdered(a.verifications)
    && IsSelection(a.policies, db.policies, ids)
  }

  // ---------- The dictionaries ----------

  function First(rows: seq<Related>, id: nat): Option<Related>
  {
    if rows == [] then None
    else
      var earlier := First(rows[..|rows| - 1], id);
      if earlier.Some? then earlier
      else if rows[|rows| - 1].action == id then Some(rows[|rows| - 1])
      else None
  }

  function Last(rows: seq<Related>, id: nat): Option<Related>
  {
    if rows == [] then None
    else if rows[|rows| - 1].action == id then Some(rows[|rows| - 1])
    else Last(rows[..|rows| - 1], id)
  }

  function Get(m: map<nat, Related>, id: nat): Option<Related>
  {
    if id in m then Some(m[id]) else None
  }

  /** `setdefault` over the rows: the first row of an action stays. */
  method FirstPerAction(rows: seq<Related>) returns (m: map<nat, Related>)
    ensures forall id :: Get(m, id) == First(rows, id)
  {
    m := map[];
    for i := 0 to |rows|
      invariant forall id :: Get(m, id) == First(rows[..i], id)
    {
      assert rows[..i + 1][..i] == rows[..i];
      if rows[i].action !in m {
        m := m[rows[i].action := rows[i]];
      }
    }
    assert rows[..|rows|] == rows;
  }

  /** A dictionary comprehension over the rows: the last row of an action stays. */
  method LastPerAction(rows: seq<Related>) returns (m: map<nat, Related>)
    ensures forall id :: Get(m, id) == Last(rows, id)
  {
    m := map[];
    for i := 0 to |rows|
      invariant forall id :: Get(m, id) == Last(rows[..i], id)
    {
      assert rows[..i + 1][..i] == rows[..i];
      m := m[rows[i].action := rows[i]];
    }
    assert rows[..|rows|] == rows;
  }

  // ---------- The serialiser ----------

  function Shown(x: Option<Related>): Option<string>
  {
    if x.Some? then Some(x.value.shown) else None
  }

  function Row(action: RemediationAction, approval: Option<Related>, verification: Option<Related>,
      policy: Option<Related>): ActionJson
  {
    ActionJson(action, Shown(policy), Shown(approval), Shown(verification))
  }

  function Ids(actions: seq<RemediationAction>): (ids: seq<nat>)
    ensures |ids| == |actions|
    ensures forall k :: 0 <= k < |actions| ==> ids[k] == actions[k].id
  {
    seq(|actions|, k requires 0 <= k < |actions| => actions[k].id)
  }

  /** `x` is what a lookup of one action's newest row finds. */
  ghost predicate Newest(table: set<Related>, id: nat, x: Option<Related>)
  {
    match x
    case None => forall y :: y in table ==> y.action != id
    case Some(row) =>
      row in table && row.action == id && forall y :: y in table && y.action == id ==> y.rank <= row.rank
  }

  ghost predicate Only(table: set<Related>, id: nat, x: Option<Related>)
  {
    match x
    case None => forall y :: y in table ==> y.action != id
    case Some(row) => row in table && row.action == id && forall y :: y in table && y.action == id ==> y == row
  }

  /** `shown` is the column of a row of this action with the greatest rank, None if it has no row. */
  ghost predicate ShowsNewest(table: set<Related>, id: nat, shown: Option<string>)
  {
    && (shown == None <==> forall y :: y in table ==> y.action != id)
    && (shown.Some? ==>
          exists x :: x in table && x.action == id && shown == Some(x.shown)
                   && forall y :: y in table && y.action == id ==> y.rank <= x.rank)
  }

  /** `shown` is the column of the action's only row. */
  ghost predicate ShowsOnly(table: set<Related>, id: nat, shown: Option<string>)
  {
    && (shown == None <==> forall y :: y in table ==> y.action != id)
    && (shown.Some? ==> forall x :: x in table && x.action == id ==> shown == Some(x.shown))
  }

  /** Field by field, `row` is the response of the lookups made for this action alone. */
  ghost predicate LooksUp(db: Tables, action: RemediationAction, row: ActionJson)
  {
    && row.action == action
    && ShowsNewest(db.approvals, action.id, row.approval)
    && ShowsNewest(db.verifications, action.id, row.verification)
    && ShowsOnly(db.policies, action.id, row.policyVerdict)
  }

  /** Unique constraint on policy decisions. */
  ghost predicate OnePolicyEach(db: Tables)
  {
    forall x, y :: x in db.policies && y in db.policies && x.action == y.action ==> x == y
  }

  /** `_actions_json`, for any answers the three queries may give: order and length of the page are
      kept, and each entry is that of the action's own lookups. */
  method ActionsJson(ghost db: Tables, actions: seq<RemediationAction>, a: Answers) returns (page: seq<ActionJson>)
    requires OnePolicyEach(db) && Answer(db, Ids(actions), a)
    ensures |page| == |actions|
    ensures forall k :: 0 <= k < |actions| ==> LooksUp(db, actions[k], page[k])
    ensures forall k :: 0 <= k < |actions| ==> page[k] == Picked(actions[k], a)
  {
    if actions == [] {
      return [];
    }
    var approvals := FirstPerAction(a.approvals);
    var verifications := FirstPerAction(a.verifications);
    var policies := LastPerAction(a.policies);
    page := [];
    for i := 0 to |actions|
      invariant |page| == i
      invariant forall k :: 0 <= k < i ==> LooksUp(db, actions[k], page[k])
      invariant forall k :: 0 <= k < i ==> page[k] == Picked(actions[k], a)
    {
      var id := actions[i].id;
      PickedLooksUp(db, actions, a, i);
      page := page + [Row(actions[i], Get(approvals, id), Get(verifications, id), Get(policies, id))];
    }
  }

  /** `_action_json`. */
  method ActionJsonOf(ghost db: Tables, action: RemediationAction, a: Answers) returns (row: ActionJson)
    requires OnePolicyEach(db) && Answer(db, Ids([action]), a)
    ensures LooksUp(db, action, row) && row == Picked(action, a)
  {
    var page := ActionsJson(db, [action], a);
    row := page[0];
  }

  /** The entry of one action under given query answers. */
  function Picked(action: RemediationAction, a: Answers): ActionJson
  {
    Row(action, First(a.approvals, action.id), First(a.verifications, action.id), Last(a.policies, action.id))
  }

  lemma {:induction false} FirstIsAt(rows: seq<Related>, id: nat) returns (k: nat)
    ensures First(rows, id).None? <==> forall x :: x in rows ==> x.action != id
    ensures First(rows, id).Some? ==>
              && k < |rows| && rows[k].action == id && First(rows, id) == Some(rows[k])
              && forall j :: 0 <= j < k ==> rows[j].action != id
  {
    k := 0;
    if rows != [] {
      var init := rows[..|rows| - 1];
      k := FirstIsAt(init, id);
      assert rows == init + [rows[|rows| - 1]];
      if First(init, id).None? {
        k := |rows| - 1;
        assert forall j :: 0 <= j < k ==> rows[j] in init;
      }
    }
  }

  lemma {:induction false} LastIsIn(rows: seq<Related>, id: nat)
    ensures Last(rows, id).None? <==> forall x :: x in rows ==> x.action != id
    ensures Last(rows, id).Some? ==> Last(rows, id).value in rows && Last(rows, id).value.action == id
  {
    if rows != [] {
      LastIsIn(rows[..|rows| - 1], id);
      assert rows == rows[..|rows| - 1] + [rows[|rows| - 1]];
    }
  }

  /** The first row of an action in a batched, ordered answer is the action's newest row. */
  lemma FirstIsNewest(rows: seq<Related>, table: set<Related>, ids: seq<nat>, id: nat)
    requires IsSelection(rows, table, ids) && IsOrdered(rows) && id in ids
    ensures Newest(table, id, First(rows, id))
  {
    var k := FirstIsAt(rows, id);
    if First(rows, id).Some? {
      forall y | y in table && y.action == id ensures y.rank <= rows[k].rank {
        assert y in rows;
        var j :| 0 <= j < |rows| && rows[j] == y;
        assert j >= k;
        assert j > k ==> NotAfter(rows[k], rows[j]);
      }
    } else {
      forall y | y in table ensures y.action != id {
        assert y.action == id ==> y in rows;
      }
    }
  }

  lemma NewestShows(table: set<Related>, id: nat, x: Option<Related>)
    requires Newest(table, id, x)
    ensures ShowsNewest(table, id, if x == None then None else Some(x.value.shown))
  {
    if x.Some? { assert x.value in table; }
  }

  lemma OnlyShows(table: set<Related>, id: nat, x: Option<Related>)
    requires Only(table, id, x)
    ensures ShowsOnly(table, id, if x == None then None else Some(x.value.shown))
  {
    if x.Some? { assert x.value in table; }
  }

  lemma LastIsOnly(rows: seq<Related>, table: set<Related>, ids: seq<nat>, id: nat)
    requires IsSelection(rows, table, ids) && id in ids
    requires forall x, y :: x in table && y in table && x.action == y.action ==> x == y
    ensures Only(table, id, Last(rows, id))
  {
    LastIsIn(rows, id);
    forall y | y in table && y.action == id ensures y in rows { }
  }

  lemma PickedLooksUp(db: Tables, actions: seq<RemediationAction>, a: Answers, k: nat)
    requires k < |actions| && OnePolicyEach(db) && Answer(db, Ids(actions), a)
    ensures LooksUp(db, actions[k], Picked(actions[k], a))
  {
    var ids, id := Ids(actions), actions[k].id;
    assert id == ids[k];
    hide Newest, Only, First, Last, IsSelection, IsOrdered, ShowsNewest, ShowsOnly;
    FirstIsNewest(a.approvals, db.approvals, ids, id);
    FirstIsNewest(a.verifications, db.verifications, ids, id);
    LastIsOnly(a.policies, db.policies, ids, id);
    NewestShows(db.approvals, id, First(a.approvals, id));
    NewestShows(db.verifications, id, First(a.verifications, id));
    OnlyShows(db.policies, id, Last(a.policies, id));
  }

  // ---------- When the batch and the single read must agree ----------

  ghost predicate AtMostOneNewest(table: set<Related>, id: nat)
  {
    forall x, y :: Newest(table, id, Some(x)) && Newest(table, id, Some(y)) ==> x == y
  }

  /** Every ordered answer leads to the same row. */
  ghost predicate Determined(table: set<Related>, id: nat)
  {
    forall ids, more, rows, others ::
      && id in ids && IsSelection(rows, table, ids) && IsOrdered(rows)
      && id in more && IsSelection(others, table, more) && IsOrdered(others)
      ==> First(rows, id) == First(others, id)
  }

  /** A page and a single read pick the same row of an action, whatever order the database gives
      ties, exactly when the action's newest row is alone at its rank. */
  lemma DeterminedIff(table: set<Related>, id: nat)
    ensures Determined(table, id) <==> AtMostOneNewest(table, id)
  {
    if AtMostOneNewest(table, id) {
      forall ids, more, rows, others |
        && id in ids && IsSelection(rows, table, ids) && IsOrdered(rows)
        && id in more && IsSelection(others, table, more) && IsOrdered(others)
        ensures First(rows, id) == First(others, id)
      {
        FirstIsNewest(rows, table, ids, id);
        FirstIsNewest(others, table, more, id);
      }
    }
    if Determined(table, id) {
      forall x, y | Newest(table, id, Some(x)) && Newest(table, id, Some(y)) ensures x == y {
        var rows := AnswerStartingWith(table, id, x);
        var others := AnswerStartingWith(table, id, y);
        assert First(rows, id) == First(others, id);
      }
    }
  }

  /** Two answers to the policy query, which is in no order, agree on an action's policy. */
  lemma PoliciesAgree(table: set<Related>, rows: seq<Related>, ids: seq<nat>, others: seq<Related>,
      more: seq<nat>, id: nat)
    requires forall x, y :: x in table && y in table && x.action == y.action ==> x == y
    requires IsSelection(rows, table, ids) && id in ids && IsSelection(others, table, more) && id in more
    ensures Last(rows, id) == Last(others, id)
  {
    LastIsIn(rows, id);
    LastIsIn(others, id);
    hide Last;
    assert forall y :: y in table && y.action == id ==> y in rows && y in others;
  }

  lemma PicksAgree(table: set<Related>, rows: seq<Related>, ids: seq<nat>, others: seq<Related>,
      more: seq<nat>, id: nat)
    requires AtMostOneNewest(table, id)
    requires IsSelection(rows, table, ids) && IsOrdered(rows) && id in ids
    requires IsSelection(others, table, more) && IsOrdered(others) && id in more
    ensures First(rows, id) == First(others, id)
  {
    hide First, IsSelection, IsOrdered, AtMostOneNewest;
    DeterminedIff(table, id);
  }

  /** Entry by entry, the batched page equals the pages of the single reads, if approval timestamps
      do not tie for newest; attempts are unique by constraint. */
  lemma BatchEqualsSingleReads(db: Tables, actions: seq<RemediationAction>, a: Answers, singles: seq<Answers>, k: nat)
    requires OnePolicyEach(db) && Answer(db, Ids(actions), a)
    requires k < |actions| == |singles| && Answer(db, Ids([actions[k]]), singles[k])
    requires AtMostOneNewest(db.approvals, actions[k].id) && AtMostOneNewest(db.verifications, actions[k].id)
    ensures Picked(actions[k], a) == Picked(actions[k], singles[k])
  {
    hide First, Last, IsSelection, IsOrdered, AtMostOneNewest;
    var id, ids, one, b := actions[k].id, Ids(actions), Ids([actions[k]]), singles[k];
    assert ids[k] == id && one[0] == id;
    PicksAgree(db.approvals, a.approvals, ids, b.approvals, one, id);
    PicksAgree(db.verifications, a.verifications, ids, b.verifications, one, id);
    PoliciesAgree(db.policies, a.policies, ids, b.policies, one, id);
  }

  // ---------- Answers exist, with any newest row first ----------

  function Inserted(rows: seq<Related>, x: Related): seq<Related>
  {
    if rows == [] then [x]
    else if NotAfter(x, rows[0]) then [x] + rows
    else [rows[0]] + Inserted(rows[1..], x)
  }

  lemma {:induction false} InsertedKeepsOrder(rows: seq<Related>, x: Related)
    requires IsOrdered(rows) && x !in rows
    requires forall i, j :: 0 <= i < j < |rows| ==> rows[i] != rows[j]
    ensures var r := Inserted(rows, x);
            && IsOrdered(r) && (forall y :: y in r <==> y == x || y in rows)
            && (forall i, j :: 0 <= i < j < |r| ==> r[i] != r[j])
  {
    if rows != [] && !NotAfter(x, rows[0]) {
      InsertedKeepsOrder(rows[1..], x);
      var tail := Inserted(rows[1..], x);
      assert rows == [rows[0]] + rows[1..];
      forall j | 0 <= j < |tail| ensures NotAfter(rows[0], tail[j]) && rows[0] != tail[j] {
        assert tail[j] in tail;
        if tail[j] != x {
          var m :| 0 <= m < |rows[1..]| && rows[1..][m] == tail[j];
          assert NotAfter(rows[0], rows[m + 1]);
        }
      }
    } else if rows != [] {
      forall j | 0 <= j < |rows| ensures NotAfter(x, rows[j]) {
        assert j > 0 ==> NotAfter(rows[0], rows[j]);
      }
    }
  }

  lemma {:induction false} InsertedComesFirst(rows: seq<Related>, x: Related)
    requires forall y :: y in rows && y.action == x.action ==> y.rank <= x.rank
    ensures First(Inserted(rows, x), x.action) == Some(x)
  {
    var r := Inserted(rows, x);
    var p := InsertedAt(rows, x);
    var k := FirstIsAt(r, x.action);
    assert r[p] in r;
    assert forall j :: 0 <= j < p ==> r[j].action != x.action;
  }

  lemma {:induction false} InsertedAt(rows: seq<Related>, x: Related) returns (p: nat)
    ensures var r := Inserted(rows, x);
            p < |r| && r[p] == x && forall j :: 0 <= j < p ==> r[j] in rows && !NotAfter(x, r[j])
  {
    p := 0;
    if rows != [] && !NotAfter(x, rows[0]) {
      p := InsertedAt(rows[1..], x);
      p := p + 1;
    }
  }

  lemma {:induction false} AnswerExists(table: set<Related>, id: nat) returns (rows: seq<Related>)
    ensures IsSelection(rows, table, [id]) && IsOrdered(rows)
    decreases table
  {
    rows := [];
    if x :| x in table && x.action == id {
      var less := AnswerExists(table - {x}, id);
      InsertedKeepsOrder(less, x);
      rows := Inserted(less, x);
    }
  }

  lemma AnswerStartingWith(table: set<Related>, id: nat, x: Related) returns (rows: seq<Related>)
    requires Newest(table, id, Some(x))
    ensures IsSelection(rows, table, [id]) && IsOrdered(rows) && First(rows, id) == Some(x)
  {
    var less := AnswerExists(table - {x}, id);
    InsertedKeepsOrder(less, x);
    InsertedComesFirst(less, x);
    rows := Inserted(less, x);
  }
}
