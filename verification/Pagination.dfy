/** Who may read which incident (`src/asic/api/auth.py`) and the keyset-paginated listing of
    `src/asic/api/app.py`, followed from page to page over a table that may change in between. */
module Pagination {
  import opened Cursors
  import opened Wrappers

  // ---------- Grants ----------

  type Environment = nat

  /** `environment` is `None` for a tenant-wide grant. */
  datatype Grant = Grant(permission: string, environment: Option<Environment>)

  datatype Principal = Principal(tenant: nat, grants: seq<Grant>) {

    predicate AllowsEnvironment(permission: string, e: Environment)
    {
      exists i :: 0 <= i < |grants| && grants[i].permission == permission
               && (grants[i].environment == None || grants[i].environment == Some(e))
    }

    predicate AllowsTenantWide(permission: string)
    {
      exists i :: 0 <= i < |grants| && grants[i].permission == permission && grants[i].environment == None
    }

    predicate AllowsAnyEnvironment(permission: string)
    {
      exists i :: 0 <= i < |grants| && grants[i].permission == permission
    }

    /** `None` stands for "every environment". */
    function VisibleEnvironments(permission: string): Option<set<Environment>>
    {
      if AllowsTenantWide(permission) then None
      else
        Some(set i | 0 <= i < |grants| && grants[i].permission == permission && grants[i].environment.Some?
               :: grants[i].environment.value)
    }
  }

  const INCIDENT_READ := "incident.read"

  /** The list filter and the single-object check agree on every environment. */
  lemma VisibilityAgrees(p: Principal, permission: string, e: Environment)
    ensures p.AllowsEnvironment(permission, e) <==>
            (p.VisibleEnvironments(permission) == None || e in p.VisibleEnvironments(permission).value)
  {
    if p.AllowsEnvironment(permission, e) && !p.AllowsTenantWide(permission) {
      var i :| 0 <= i < |p.grants| && p.grants[i].permission == permission
            && (p.grants[i].environment == None || p.grants[i].environment == Some(e));
      assert p.grants[i].environment.value in p.VisibleEnvironments(permission).value;
    }
  }

  /** A permission reaches an environment by a tenant-wide grant or by one for that environment. */
  lemma AllowsMeans(p: Principal, permission: string, e: Environment)
    ensures p.AllowsEnvironment(permission, e) <==>
            Grant(permission, None) in p.grants || Grant(permission, Some(e)) in p.grants
    ensures p.AllowsAnyEnvironment(permission) <==> exists e' :: p.AllowsEnvironment(permission, e')
  {
    if p.AllowsAnyEnvironment(permission) {
      var i :| 0 <= i < |p.grants| && p.grants[i].permission == permission;
      var e' := if p.grants[i].environment.Some? then p.grants[i].environment.value else 0;
      assert p.AllowsEnvironment(permission, e');
    }
    if p.AllowsEnvironment(permission, e) {
      var i :| 0 <= i < |p.grants| && p.grants[i].permission == permission
            && (p.grants[i].environment == None || p.grants[i].environment == Some(e));
      assert p.grants[i] in p.grants;
    }
    if Grant(permission, None) in p.grants {
      var i :| 0 <= i < |p.grants| && p.grants[i] == Grant(permission, None);
    } else if Grant(permission, Some(e)) in p.grants {
      var i :| 0 <= i < |p.grants| && p.grants[i] == Grant(permission, Some(e));
    }
  }

  // ---------- Incidents ----------

  datatype Incident = Incident(id: Uuid, tenant: nat, environment: Environment)

  /** A table in primary-key order. */
  ghost predicate Table(rows: seq<Incident>)
  {
    forall i, j :: 0 <= i < j < |rows| ==> rows[i].id < rows[j].id
  }

  /** `_visible_incident` finds the row and the principal may read it; otherwise it is a 404. */
  ghost predicate CanSee(p: Principal, rows: seq<Incident>, id: Uuid)
  {
    exists i :: 0 <= i < |rows| && rows[i].id == id
             && rows[i].tenant == p.tenant && p.AllowsEnvironment(INCIDENT_READ, rows[i].environment)
  }

  /** The WHERE clause of the listing. */
  predicate Listed(p: Principal, row: Incident, after: Option<nat>)
  {
    && row.tenant == p.tenant
    && (p.VisibleEnvironments(INCIDENT_READ) == None
        || row.environment in p.VisibleEnvironments(INCIDENT_READ).value)
    && (after == None || row.id > after.value)
  }

  function Select(p: Principal, rows: seq<Incident>, after: Option<nat>): seq<Incident>
  {
    if rows == [] then []
    else (if Listed(p, rows[0], after) then [rows[0]] else []) + Select(p, rows[1..], after)
  }

  datatype Item = Item(id: string)

  datatype Response =
    | Page(items: seq<Item>, nextCursor: Option<string>)
    | Forbidden
    | BadCursor

  function Items(rows: seq<Incident>): seq<Item>
  {
    seq(|rows|, i requires 0 <= i < |rows| => Item(UuidText(rows[i].id)))
  }

  /** `_page`: one row more than the limit was asked for, to learn whether there is a next page.
      The cursor is rebuilt from the id text of the last item shown. */
  function MakePage(rows: seq<Incident>, limit: nat): Response
    requires limit >= 1
  {
    var more := |rows| > limit;
    var shown := Items(if more then rows[..limit] else rows);
    Page(shown, if more then Some(CursorOf(shown[|shown| - 1].id)) else None)
  }

  function CursorOf(id: string): string
  {
    var u := ParseUuid(id);
    if u.Some? && u.value < Pow16(32) then
      CursorRoundTrip(u.value);
      Cursor(u.value)
    else ""
  }

  /** `list_incidents` */
  function ListIncidents(p: Principal, rows: seq<Incident>, limit: nat, cursor: Option<string>): Response
    requires limit >= 1
  {
    if !p.AllowsAnyEnvironment(INCIDENT_READ) then Forbidden
    else
      match DecodeCursor(cursor)
      case InvalidCursor => BadCursor
      case Position(after) =>
        var selected := Select(p, rows, after);
        MakePage(if |selected| > limit + 1 then selected[..limit + 1] else selected, limit)
  }

  /** A listing is refused exactly when the principal may read no environment at all, and otherwise
      only for a cursor that does not decode. */
  lemma ListingRefusedIff(p: Principal, rows: seq<Incident>, limit: nat, cursor: Option<string>)
    requires limit >= 1
    ensures ListIncidents(p, rows, limit, cursor) == Forbidden <==>
            forall e :: !p.AllowsEnvironment("incident.read", e)
    ensures ListIncidents(p, rows, limit, cursor) == BadCursor <==>
            (exists e :: p.AllowsEnvironment("incident.read", e)) && DecodeCursor(cursor) == InvalidCursor
  {
    AllowsMeans(p, INCIDENT_READ, 0);
    hide DecodeCursor, Select;
  }

  // ---------- Following the cursor ----------

  /** What a client collects that starts without a cursor and follows `nextCursor`; the k-th
      request sees the k-th table. `done` when a page had no next cursor. */
  datatype Walk = Walk(ids: seq<string>, done: bool, requests: nat)

  ghost function Follow(p: Principal, tables: seq<seq<Incident>>, limit: nat, cursor: Option<string>): Walk
    requires limit >= 1
    decreases |tables|
  {
    if tables == [] then Walk([], false, 0)
    else
      match ListIncidents(p, tables[0], limit, cursor)
      case Forbidden => Walk([], true, 1)
      case BadCursor => Walk([], true, 1)
      case Page(items, next) =>
        if next == None then Walk(IdTexts(items), true, 1)
        else
          var rest := Follow(p, tables[1..], limit, next);
          Walk(IdTexts(items) + rest.ids, rest.done, rest.requests + 1)
  }

  // ---------- The same walk on plain ids ----------

  ghost predicate Ascending(ids: seq<Uuid>)
  {
    forall i, j :: 0 <= i < j < |ids| ==> ids[i] < ids[j]
  }

  ghost function SelectedIds(p: Principal, rows: seq<Incident>, after: Option<nat>): seq<Uuid>
  {
    IdsOf(Select(p, rows, after))
  }

  ghost function IdsOf(rows: seq<Incident>): seq<Uuid>
  {
    seq(|rows|, i requires 0 <= i < |rows| => rows[i].id)
  }

  ghost function Texts(ids: seq<Uuid>): seq<string>
  {
    seq(|ids|, i requires 0 <= i < |ids| => UuidText(ids[i]))
  }

  datatype IdWalk = IdWalk(ids: seq<Uuid>, done: bool, requests: nat)

  ghost function WalkIds(p: Principal, tables: seq<seq<Incident>>, limit: nat, after: Option<nat>): IdWalk
    requires limit >= 1
    decreases |tables|
  {
    if tables == [] then IdWalk([], false, 0)
    else
      var selected := SelectedIds(p, tables[0], after);
      if |selected| <= limit then IdWalk(selected, true, 1)
      else
        var rest := WalkIds(p, tables[1..], limit, Some(selected[limit - 1]));
        IdWalk(selected[..limit] + rest.ids, rest.done, rest.requests + 1)
  }

  lemma WalkStep(p: Principal, tables: seq<seq<Incident>>, limit: nat, after: Option<nat>)
    requires limit >= 1
    ensures var w := WalkIds(p, tables, limit, after);
            if tables == [] then w == IdWalk([], false, 0)
            else
              var selected := SelectedIds(p, tables[0], after);
              if |selected| <= limit then w == IdWalk(selected, true, 1)
              else
                var rest := WalkIds(p, tables[1..], limit, Some(selected[limit - 1]));
                w == IdWalk(selected[..limit] + rest.ids, rest.done, rest.requests + 1)
  {
  }

  lemma TextsJoin(a: seq<Uuid>, b: seq<Uuid>)
    ensures Texts(a + b) == Texts(a) + Texts(b)
  {
  }

  ghost function IdTexts(items: seq<Item>): seq<string>
  {
    seq(|items|, i requires 0 <= i < |items| => items[i].id)
  }

  /** A page of the rows asked for, which are at most one more than the limit. */
  lemma MakePageShows(rows: seq<Incident>, limit: nat)
    requires limit >= 1
    ensures var page := MakePage(if |rows| > limit + 1 then rows[..limit + 1] else rows, limit);
            && page.Page?
            && IdTexts(page.items) == Texts(IdsOf(if |rows| > limit then rows[..limit] else rows))
            && page.nextCursor == if |rows| > limit then Some(CursorOf(UuidText(rows[limit - 1].id))) else None
  {
    hide Cursor, UuidText, ParseUuid, CursorOf;
    var asked := if |rows| > limit + 1 then rows[..limit + 1] else rows;
    if |rows| > limit {
      assert asked[..limit] == rows[..limit];
      assert Items(asked[..limit])[limit - 1].id == UuidText(rows[limit - 1].id);
    }
  }

  lemma NextCursorReads(u: Uuid)
    ensures DecodeCursor(Some(CursorOf(UuidText(u)))) == Position(Some(u))
  {
    hide Cursor, DecodeCursor, UuidText, ParseUuid;
    UuidRoundTrip(u);
    CursorRoundTrip(u);
  }

  /** A page shows the first `limit` ids after the cursor, and its own cursor stands at the last of
      them, if there are more. */
  lemma PageShowsIds(p: Principal, rows: seq<Incident>, limit: nat, cursor: Option<string>, after: Option<nat>)
    requires limit >= 1 && p.AllowsAnyEnvironment(INCIDENT_READ) && DecodeCursor(cursor) == Position(after)
    ensures var selected := SelectedIds(p, rows, after);
            var page := ListIncidents(p, rows, limit, cursor);
            && page.Page?
            && IdTexts(page.items) == Texts(if |selected| > limit then selected[..limit] else selected)
            && (page.nextCursor.Some? <==> |selected| > limit)
            && (|selected| > limit ==> DecodeCursor(page.nextCursor) == Position(Some(selected[limit - 1])))
  {
    hide DecodeCursor, UuidText, Select, CursorOf, MakePage, Texts, IdTexts;
    var found := Select(p, rows, after);
    MakePageShows(found, limit);
    if |found| > limit {
      NextCursorReads(found[limit - 1].id);
      assert IdsOf(found[..limit]) == IdsOf(found)[..limit];
    }
  }

  lemma FollowStep(p: Principal, tables: seq<seq<Incident>>, limit: nat, cursor: Option<string>)
    requires limit >= 1
    ensures var w := Follow(p, tables, limit, cursor);
            if tables == [] then w == Walk([], false, 0)
            else
              var page := ListIncidents(p, tables[0], limit, cursor);
              page.Page? ==>
                if page.nextCursor == None then w == Walk(IdTexts(page.items), true, 1)
                else
                  var rest := Follow(p, tables[1..], limit, page.nextCursor);
                  w == Walk(IdTexts(page.items) + rest.ids, rest.done, rest.requests + 1)
  {
    hide ListIncidents;
  }

  /** The listing code, text cursors included, walks exactly as the plain ids do. */
  lemma {:induction false} FollowIsWalk(p: Principal, tables: seq<seq<Incident>>, limit: nat,
      cursor: Option<string>, after: Option<nat>)
    requires limit >= 1 && p.AllowsAnyEnvironment(INCIDENT_READ) && DecodeCursor(cursor) == Position(after)
    ensures var w, v := Follow(p, tables, limit, cursor), WalkIds(p, tables, limit, after);
            w.ids == Texts(v.ids) && w.done == v.done && w.requests == v.requests
    decreases |tables|
  {
    hide DecodeCursor, SelectedIds, ListIncidents, Follow, WalkIds, Texts, IdTexts;
    FollowStep(p, tables, limit, cursor);
    WalkStep(p, tables, limit, after);
    NoTexts();
    if tables != [] {
      PageShowsIds(p, tables[0], limit, cursor, after);
      var selected := SelectedIds(p, tables[0], after);
      if |selected| > limit {
        var next := ListIncidents(p, tables[0], limit, cursor).nextCursor;
        FollowIsWalk(p, tables[1..], limit, next, Some(selected[limit - 1]));
        TextsJoin(selected[..limit], WalkIds(p, tables[1..], limit, Some(selected[limit - 1])).ids);
      }
    }
  }

  lemma NoTexts()
    ensures Texts([]) == []
  {
  }

  lemma {:induction false} SelectMembers(p: Principal, rows: seq<Incident>, after: Option<nat>, row: Incident)
    ensures row in Select(p, rows, after) <==> row in rows && Listed(p, row, after)
  {
    if rows != [] {
      SelectMembers(p, rows[1..], after, row);
      assert rows == [rows[0]] + rows[1..];
    }
  }

  lemma SelectedIsLater(p: Principal, rows: seq<Incident>, after: Option<nat>, x: Uuid)
    requires Table(rows) && rows != [] && x in IdsOf(Select(p, rows[1..], after))
    ensures rows[0].id < x
  {
    hide Listed;
    var rest := Select(p, rows[1..], after);
    var i :| 0 <= i < |rest| && rest[i].id == x;
    SelectMembers(p, rows[1..], after, rest[i]);
    var j :| 0 <= j < |rows[1..]| && rows[1..][j] == rest[i];
    assert rows[j + 1] == rest[i];
  }

  lemma SelectStep(p: Principal, rows: seq<Incident>, after: Option<nat>)
    requires rows != []
    ensures IdsOf(Select(p, rows, after))
         == (if Listed(p, rows[0], after) then [rows[0].id] else []) + IdsOf(Select(p, rows[1..], after))
  {
    hide Listed;
  }

  lemma OneAscends(x: Uuid)
    ensures Ascending([]) && Ascending([x])
  {
  }

  lemma {:induction false} SelectAscending(p: Principal, rows: seq<Incident>, after: Option<nat>)
    requires Table(rows)
    ensures Ascending(SelectedIds(p, rows, after))
    decreases |rows|
  {
    if rows == [] {
      assert Select(p, rows, after) == [];
    } else {
      assert Table(rows[1..]);
      hide Listed, Ascending, IdsOf, Select, Table;
      SelectAscending(p, rows[1..], after);
      SelectStep(p, rows, after);
      var ids := IdsOf(Select(p, rows[1..], after));
      forall x | x in ids ensures rows[0].id < x { SelectedIsLater(p, rows, after, x); }
      OneAscends(rows[0].id);
      JoinAscending([rows[0].id], ids);
      assert [] + ids == ids;
    }
  }

  /** The ids a listing may return are those the single-object check lets through, after the cursor. */
  lemma SelectedIdsAreVisible(p: Principal, rows: seq<Incident>, after: Option<nat>, id: Uuid)
    ensures id in SelectedIds(p, rows, after) <==> CanSee(p, rows, id) && (after == None || id > after.value)
  {
    hide Select;
    var selected := Select(p, rows, after);
    if id in SelectedIds(p, rows, after) {
      var k :| 0 <= k < |selected| && selected[k].id == id;
      SelectMembers(p, rows, after, selected[k]);
      VisibilityAgrees(p, INCIDENT_READ, selected[k].environment);
    }
    if CanSee(p, rows, id) && (after == None || id > after.value) {
      var i :| 0 <= i < |rows| && rows[i].id == id
            && rows[i].tenant == p.tenant && p.AllowsEnvironment(INCIDENT_READ, rows[i].environment);
      VisibilityAgrees(p, INCIDENT_READ, rows[i].environment);
      SelectMembers(p, rows, after, rows[i]);
      var k :| 0 <= k < |selected| && selected[k] == rows[i];
      assert SelectedIds(p, rows, after)[k] == id;
    }
  }

  ghost predicate AllTables(tables: seq<seq<Incident>>)
  {
    forall k :: 0 <= k < |tables| ==> Table(tables[k])
  }

  // ---------- Tables that change between requests ----------

  ghost predicate AllAfter(ids: seq<Uuid>, after: Option<nat>)
  {
    after == None || forall id :: id in ids ==> id > after.value
  }

  lemma SelectedAfter(p: Principal, rows: seq<Incident>, after: Option<nat>)
    requires Table(rows)
    ensures Ascending(SelectedIds(p, rows, after)) && AllAfter(SelectedIds(p, rows, after), after)
  {
    SelectAscending(p, rows, after);
    hide SelectedIds, Ascending, CanSee;
    forall id | id in SelectedIds(p, rows, after) ensures after == None || id > after.value {
      SelectedIdsAreVisible(p, rows, after, id);
    }
  }

  lemma NothingAscends(after: Option<nat>)
    ensures Ascending([]) && AllAfter([], after)
  {
  }

  /** A full page followed by later ids. */
  lemma PageThenLater(ids: seq<Uuid>, n: nat, rest: seq<Uuid>, after: Option<nat>)
    requires Ascending(ids) && AllAfter(ids, after) && 1 <= n <= |ids|
    requires Ascending(rest) && AllAfter(rest, Some(ids[n - 1]))
    ensures Ascending(ids[..n] + rest) && AllAfter(ids[..n] + rest, after)
  {
    JoinAscending(ids[..n], rest);
    assert ids[n - 1] in ids;
    forall id | id in ids[..n] + rest ensures after == None || id > after.value {
      if id in ids[..n] { assert id in ids; } else { assert id in rest; }
    }
  }

  /** No id is repeated and the ids come in order, whatever happens to the table. */
  lemma {:induction false} WalkAscends(p: Principal, tables: seq<seq<Incident>>, limit: nat, after: Option<nat>)
    requires limit >= 1 && AllTables(tables)
    ensures Ascending(WalkIds(p, tables, limit, after).ids) && AllAfter(WalkIds(p, tables, limit, after).ids, after)
    decreases |tables|
  {
    hide SelectedIds, Ascending, AllAfter, WalkIds, Table;
    WalkStep(p, tables, limit, after);
    NothingAscends(after);
    if tables != [] {
      assert AllTables(tables[1..]);
      var selected := SelectedIds(p, tables[0], after);
      SelectedAfter(p, tables[0], after);
      if |selected| > limit {
        WalkAscends(p, tables[1..], limit, Some(selected[limit - 1]));
        PageThenLater(selected, limit, WalkIds(p, tables[1..], limit, Some(selected[limit - 1])).ids, after);
      }
    }
  }

  lemma JoinAscending(a: seq<Uuid>, b: seq<Uuid>)
    requires Ascending(a) && Ascending(b)
    requires a != [] && forall x :: x in b ==> a[|a| - 1] < x
    ensures Ascending(a + b)
  {
    forall i, j | 0 <= i < j < |a + b| ensures (a + b)[i] < (a + b)[j] {
      if i < |a| <= j {
        assert b[j - |a|] in b;
        assert i < |a| - 1 ==> a[i] < a[|a| - 1];
      }
    }
  }

  /** A finished walk has every id that was visible at each of its requests. */
  lemma {:induction false} WalkMissesNothing(p: Principal, tables: seq<seq<Incident>>, limit: nat,
      after: Option<nat>, id: Uuid)
    requires limit >= 1 && AllTables(tables) && WalkIds(p, tables, limit, after).done
    requires after == None || id > after.value
    requires forall k :: 0 <= k < WalkIds(p, tables, limit, after).requests && k < |tables| ==> CanSee(p, tables[k], id)
    ensures id in WalkIds(p, tables, limit, after).ids
    decreases |tables|
  {
    hide SelectedIds, CanSee;
    var w := WalkIds(p, tables, limit, after);
    var selected := SelectedIds(p, tables[0], after);
    assert CanSee(p, tables[0], id);
    SelectedIdsAreVisible(p, tables[0], after, id);
    if |selected| > limit {
      SelectAscending(p, tables[0], after);
      var j :| 0 <= j < |selected| && selected[j] == id;
      if j < limit {
        assert selected[..limit][j] == id;
      } else {
        assert selected[limit - 1] < id;
        forall k | 0 <= k < w.requests - 1 && k < |tables[1..]| ensures CanSee(p, tables[1..][k], id) {
          assert tables[1..][k] == tables[k + 1];
        }
        assert AllTables(tables[1..]);
        WalkMissesNothing(p, tables[1..], limit, Some(selected[limit - 1]), id);
      }
    }
  }

  /** Every id shown was visible at one of the requests. */
  lemma {:induction false} WalkInventsNothing(p: Principal, tables: seq<seq<Incident>>, limit: nat,
      after: Option<nat>, id: Uuid)
    requires limit >= 1 && id in WalkIds(p, tables, limit, after).ids
    ensures exists k :: 0 <= k < WalkIds(p, tables, limit, after).requests && k < |tables| && CanSee(p, tables[k], id)
    decreases |tables|
  {
    hide SelectedIds, CanSee;
    var selected := SelectedIds(p, tables[0], after);
    if id in selected {
      SelectedIdsAreVisible(p, tables[0], after, id);
    } else {
      WalkInventsNothing(p, tables[1..], limit, Some(selected[limit - 1]), id);
      var rest := WalkIds(p, tables[1..], limit, Some(selected[limit - 1]));
      var k :| 0 <= k < rest.requests && k < |tables[1..]| && CanSee(p, tables[1..][k], id);
      assert tables[1..][k] == tables[k + 1];
    }
  }

  // ---------- A table that stays put ----------

  lemma HeadIsLeast(a: seq<Uuid>, x: Uuid)
    requires Ascending(a) && x in a
    ensures a[0] <= x && a[0] in a
  {
    var i :| 0 <= i < |a| && a[i] == x;
    assert i > 0 ==> a[0] < a[i];
  }

  lemma HasMember(a: seq<Uuid>)
    requires a != []
    ensures exists x :: x in a
  {
    assert a[0] in a;
  }

  lemma {:induction false} AscendingUnique(a: seq<Uuid>, b: seq<Uuid>)
    requires Ascending(a) && Ascending(b) && (forall x :: x in a <==> x in b)
    ensures a == b
  {
    if a != [] {
      var x := a[0];
      assert x in b;
      HeadIsLeast(b, x);
      HeadIsLeast(a, b[0]);
      forall y ensures y in a[1..] <==> y in b[1..] {
        TailMember(a, y);
        TailMember(b, y);
      }
      AscendingUnique(a[1..], b[1..]);
      assert a == [x] + a[1..] && b == [x] + b[1..];
    } else if b != [] {
      HasMember(b);
    }
  }

  lemma TailMember(a: seq<Uuid>, x: Uuid)
    requires Ascending(a) && a != []
    ensures x in a[1..] <==> x in a && x != a[0]
  {
    assert a == [a[0]] + a[1..];
    if x in a[1..] {
      var i :| 0 <= i < |a[1..]| && a[1..][i] == x;
      assert a[0] < a[i + 1];
    }
  }

  lemma SelectAfterLast(p: Principal, rows: seq<Incident>, limit: nat, after: Option<nat>)
    requires limit >= 1 && Table(rows) && |SelectedIds(p, rows, after)| > limit
    ensures SelectedIds(p, rows, Some(SelectedIds(p, rows, after)[limit - 1])) == SelectedIds(p, rows, after)[limit..]
  {
    hide SelectedIds, CanSee;
    var all := SelectedIds(p, rows, after);
    var cut := all[limit - 1];
    var rest := SelectedIds(p, rows, Some(cut));
    SelectAscending(p, rows, after);
    SelectAscending(p, rows, Some(cut));
    SelectedIdsAreVisible(p, rows, after, cut);
    forall id ensures id in rest <==> id in all[limit..] {
      SelectedIdsAreVisible(p, rows, after, id);
      SelectedIdsAreVisible(p, rows, Some(cut), id);
      if id in all {
        var j :| 0 <= j < |all| && all[j] == id;
        if j >= limit {
          assert all[limit..][j - limit] == id;
        } else {
          assert j < limit - 1 ==> all[j] < cut;
        }
      }
      if id in all[limit..] {
        var j :| 0 <= j < |all[limit..]| && all[limit..][j] == id;
        assert all[j + limit] == id;
      }
    }
    AscendingUnique(rest, all[limit..]);
  }

  lemma {:induction false} StaticWalk(p: Principal, rows: seq<Incident>, tables: seq<seq<Incident>>,
      limit: nat, after: Option<nat>)
    requires limit >= 1 && Table(rows) && forall k :: 0 <= k < |tables| ==> tables[k] == rows
    requires |tables| * limit >= |SelectedIds(p, rows, after)| && |tables| >= 1
    ensures WalkIds(p, tables, limit, after).done
    ensures WalkIds(p, tables, limit, after).ids == SelectedIds(p, rows, after)
    decreases |tables|
  {
    hide SelectedIds;
    var all := SelectedIds(p, rows, after);
    if |all| > limit {
      SelectAfterLast(p, rows, limit, after);
      assert |tables[1..]| * limit == |tables| * limit - limit;
      StaticWalk(p, rows, tables[1..], limit, Some(all[limit - 1]));
      assert all == all[..limit] + all[limit..];
    }
  }

  /** The ids a principal may see, in order. */
  ghost function VisibleIds(p: Principal, rows: seq<Incident>): seq<Uuid>
  {
    SelectedIds(p, rows, None)
  }

  lemma VisibleIdsMeaning(p: Principal, rows: seq<Incident>)
    requires Table(rows)
    ensures Ascending(VisibleIds(p, rows))
    ensures forall id: Uuid :: id in VisibleIds(p, rows) <==> CanSee(p, rows, id)
  {
    SelectAscending(p, rows, None);
    forall id: Uuid ensures id in VisibleIds(p, rows) <==> CanSee(p, rows, id) {
      SelectedIdsAreVisible(p, rows, None, id);
    }
  }

  /** Without any grant the listing is refused, and indeed nothing is visible. */
  lemma NothingVisibleWithoutGrant(p: Principal, rows: seq<Incident>, id: Uuid)
    requires !p.AllowsAnyEnvironment(INCIDENT_READ)
    ensures !CanSee(p, rows, id)
  {
  }

  /** Over a table that stays put, following the cursor ends after at most ceil(n / limit) requests
      (one when nothing is visible) and the pages together are exactly the visible incidents in id
      order, none repeated or missed. */
  lemma FollowingEnumeratesTable(p: Principal, rows: seq<Incident>, tables: seq<seq<Incident>>, limit: nat)
    requires limit >= 1 && Table(rows) && forall k :: 0 <= k < |tables| ==> tables[k] == rows
    requires |tables| >= 1 && |tables| * limit >= |VisibleIds(p, rows)|
    ensures Follow(p, tables, limit, None).done
    ensures Follow(p, tables, limit, None).ids == Texts(VisibleIds(p, rows))
    ensures Ascending(VisibleIds(p, rows))
    ensures forall id: Uuid :: id in VisibleIds(p, rows) <==> CanSee(p, rows, id)
  {
    VisibleIdsMeaning(p, rows);
    if p.AllowsAnyEnvironment(INCIDENT_READ) {
      StaticWalk(p, rows, tables, limit, None);
      FollowIsWalk(p, tables, limit, None, None);
    } else {
      if VisibleIds(p, rows) != [] {
        NothingVisibleWithoutGrant(p, rows, VisibleIds(p, rows)[0]);
      }
    }
  }

  /** Over a table that changes arbitrarily between requests: the walk shows ascending ids, so none
      twice; each was visible at one of the requests; and when the walk ends, every incident that
      was visible at all of them has been shown. */
  lemma FollowingSurvivesChanges(p: Principal, tables: seq<seq<Incident>>, limit: nat)
    returns (ids: seq<Uuid>)
    requires limit >= 1 && AllTables(tables)
    ensures Follow(p, tables, limit, None).ids == Texts(ids) && Ascending(ids)
    ensures forall id :: id in ids ==>
      exists k :: 0 <= k < Follow(p, tables, limit, None).requests && k < |tables| && CanSee(p, tables[k], id)
    ensures Follow(p, tables, limit, None).done ==>
      forall id: Uuid :: VisibleThroughout(p, tables, Follow(p, tables, limit, None).requests, id) ==> id in ids
  {
    if !p.AllowsAnyEnvironment(INCIDENT_READ) {
      forall id: Uuid, rows ensures !CanSee(p, rows, id) { NothingVisibleWithoutGrant(p, rows, id); }
      return [];
    }
    hide CanSee, ListIncidents, SelectedIds;
    var w := WalkIds(p, tables, limit, None);
    FollowIsWalk(p, tables, limit, None, None);
    WalkAscends(p, tables, limit, None);
    ids := w.ids;
    forall id | id in ids
      ensures exists k :: 0 <= k < w.requests && k < |tables| && CanSee(p, tables[k], id)
    {
      WalkInventsNothing(p, tables, limit, None, id);
    }
    if w.done {
      forall id: Uuid | VisibleThroughout(p, tables, w.requests, id) ensures id in ids {
        WalkMissesNothing(p, tables, limit, None, id);
      }
    }
  }

  ghost predicate VisibleThroughout(p: Principal, tables: seq<seq<Incident>>, requests: nat, id: Uuid)
  {
    requests >= 1 && forall k :: 0 <= k < requests && k < |tables| ==> CanSee(p, tables[k], id)
  }

  lemma OneMorePage(n: nat, limit: nat)
    ensures (n + 1) * limit == n * limit + limit
  {
  }

  lemma {:induction false} UnfinishedWalkIsFull(p: Principal, tables: seq<seq<Incident>>, limit: nat,
      after: Option<nat>)
    requires limit >= 1 && !WalkIds(p, tables, limit, after).done
    ensures |WalkIds(p, tables, limit, after).ids| == |tables| * limit
    ensures WalkIds(p, tables, limit, after).requests == |tables|
    decreases |tables|
  {
    hide SelectedIds, WalkIds;
    WalkStep(p, tables, limit, after);
    if tables != [] {
      var selected := SelectedIds(p, tables[0], after);
      UnfinishedWalkIsFull(p, tables[1..], limit, Some(selected[limit - 1]));
      OneMorePage(|tables[1..]|, limit);
    }
  }

  lemma {:induction false} AscendingFitsIn(ids: seq<Uuid>, universe: set<Uuid>)
    requires Ascending(ids) && forall id :: id in ids ==> id in universe
    ensures |ids| <= |universe|
  {
    if ids != [] {
      var last := ids[|ids| - 1];
      var init := ids[..|ids| - 1];
      forall id | id in init ensures id in universe - {last} {
        var i :| 0 <= i < |init| && init[i] == id;
        assert ids[i] < last;
      }
      AscendingFitsIn(init, universe - {last});
    }
  }

  /** Even while the table keeps changing, a client ends after at most |universe| / limit + 1
      requests, where `universe` holds every id that was visible at some request. */
  lemma FollowingTerminates(p: Principal, tables: seq<seq<Incident>>, limit: nat, universe: set<Uuid>)
    requires limit >= 1 && AllTables(tables)
    requires forall k: nat, id: Uuid :: k < |tables| && CanSee(p, tables[k], id) ==> id in universe
    requires tables != [] && |tables| * limit > |universe|
    ensures Follow(p, tables, limit, None).done
  {
    if p.AllowsAnyEnvironment(INCIDENT_READ) {
      hide CanSee, ListIncidents, SelectedIds;
      var w := WalkIds(p, tables, limit, None);
      FollowIsWalk(p, tables, limit, None, None);
      if !w.done {
        UnfinishedWalkIsFull(p, tables, limit, None);
        WalkAscends(p, tables, limit, None);
        forall id | id in w.ids ensures id in universe {
          WalkInventsNothing(p, tables, limit, None, id);
        }
        AscendingFitsIn(w.ids, universe);
      }
    }
  }
}
