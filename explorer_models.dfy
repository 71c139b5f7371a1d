/**
 * The Data Explorer's tables (saved queries, query logs, playground SQL),
 * the materialised views present on its connections, and the per-user
 * lookups the explorer's views make on those tables.
 *
 * A table is the sequence of its rows in the database's order; dates are
 * integer seconds.
 */
module ExplorerModels {
  import opened Wrappers
  import ExplorerUtils

  datatype SavedQuery = SavedQuery(id: nat, title: string, sql: string, createdBy: nat, connection: string,
                                   lastRunDate: int)

  datatype LogRow = LogRow(id: nat, sql: string, queryId: Option<nat>, runBy: nat, runAt: int)

  datatype PlaygroundRow = PlaygroundRow(id: nat, sql: string, createdBy: nat, createdAt: int)

  /** The first row satisfying `p`, as `.filter(...).first()` would give it. */
  function FindFirst<T>(rows: seq<T>, p: T -> bool): (r: Option<T>)
    ensures r.Some? ==> r.value in rows && p(r.value)
    ensures r.None? <==> forall x :: x in rows ==> !p(x)
  {
    if rows == [] then None
    else if p(rows[0]) then Some(rows[0])
    else FindFirst(rows[1..], p)
  }

  /** get_object_or_404(Query, pk=id, created_by_user=user): None stands for the 404. */
  function OwnedQuery(queries: seq<SavedQuery>, id: int, user: nat): (r: Option<SavedQuery>)
    ensures r.Some? ==> r.value in queries && r.value.id == id && r.value.createdBy == user
    ensures r.None? <==> forall q :: q in queries ==> !(q.id == id && q.createdBy == user)
  {
    FindFirst(queries, (q: SavedQuery) => q.id == id && q.createdBy == user)
  }

  /** get_object_or_404(QueryLog, pk=id, run_by_user=user). */
  function OwnedLog(logs: seq<LogRow>, id: int, user: nat): (r: Option<LogRow>)
    ensures r.Some? ==> r.value in logs && r.value.id == id && r.value.runBy == user
    ensures r.None? <==> forall l :: l in logs ==> !(l.id == id && l.runBy == user)
  {
    FindFirst(logs, (l: LogRow) => l.id == id && l.runBy == user)
  }

  predicate QueryIdsDistinct(queries: seq<SavedQuery>)
  {
    forall i, j :: 0 <= i < j < |queries| ==> queries[i].id != queries[j].id
  }

  /** Another user's query id is answered exactly as a missing one. */
  lemma ForeignQueryNotFound(queries: seq<SavedQuery>, k: nat, user: nat)
    requires QueryIdsDistinct(queries)
    requires k < |queries| && queries[k].createdBy != user
    ensures OwnedQuery(queries, queries[k].id, user) == None
  {
    forall q | q in queries
      ensures !(q.id == queries[k].id && q.createdBy == user)
    {
      var i :| 0 <= i < |queries| && queries[i] == q;
      if i < k {
        assert queries[i].id != queries[k].id;
      } else if i > k {
        assert queries[k].id != queries[i].id;
      }
    }
  }

  /**
   * get_playground_sql_from_request: only a truthy `play_id` is looked up,
   * converted as Django converts a primary key (`int()`, which raises on
   * anything else); a row that is missing or belongs to someone else is
   * None.
   */
  function PlaygroundForRequest(get: map<string, string>, playground: seq<PlaygroundRow>, user: nat)
    : (r: Result<Option<PlaygroundRow>, string>)
    ensures ("play_id" !in get || get["play_id"] == "") ==> r == Ok(None)
    ensures r.Err? <==> "play_id" in get && get["play_id"] != "" && ExplorerUtils.ParseInt(get["play_id"]).None?
    ensures r.Ok? && r.value.Some? ==>
              r.value.value in playground && r.value.value.createdBy == user
              && ExplorerUtils.ParseInt(get["play_id"]) == Some(r.value.value.id as int)
    ensures "play_id" in get && get["play_id"] != "" && ExplorerUtils.ParseInt(get["play_id"]).Some? ==>
              (r == Ok(None) <==> forall p :: p in playground ==>
                                     !(p.id == ExplorerUtils.ParseInt(get["play_id"]).value && p.createdBy == user))
  {
    if "play_id" in get && get["play_id"] != "" then
      match ExplorerUtils.ParseInt(get["play_id"])
      case None => Err(get["play_id"])
      case Some(id) => Ok(FindFirst(playground, (p: PlaygroundRow) => p.id == id && p.createdBy == user))
    else Ok(None)
  }

  /** The playground rows holding `sql` for `user`, in table order. */
  function Matching(rows: seq<PlaygroundRow>, sql: string, user: nat): (r: seq<PlaygroundRow>)
    ensures forall p :: p in r <==> p in rows && p.sql == sql && p.createdBy == user
    ensures |r| <= |rows|
  {
    if rows == [] then []
    else
      var init := Matching(rows[..|rows| - 1], sql, user);
      var last := rows[|rows| - 1];
      assert rows == rows[..|rows| - 1] + [last];
      if last.sql == sql && last.createdBy == user then init + [last] else init
  }

  /** A row created for `sql` and `user` is what the next lookup finds, alone. */
  lemma {:induction false} MatchingAfterCreate(rows: seq<PlaygroundRow>, id: nat, sql: string, user: nat, now: int)
    requires Matching(rows, sql, user) == []
    ensures Matching(rows + [PlaygroundRow(id, sql, user, now)], sql, user) == [PlaygroundRow(id, sql, user, now)]
  {
    var s := rows + [PlaygroundRow(id, sql, user, now)];
    assert s[..|s| - 1] == rows;
  }

  /**
   * The explorer's tables, the materialised views present, as
   * (connection, name) pairs, and the statements sent to each connection.
   */
  class ExplorerStore {
    var queries: seq<SavedQuery>
    var logs: seq<LogRow>
    var playground: seq<PlaygroundRow>
    var nextPlayId: nat
    var views: set<(string, string)>
    var statements: seq<(string, ExplorerUtils.CursorCmd)>

    /** Playground ids are distinct and below the next id to hand out. */
    ghost predicate Valid()
      reads this
    {
      (forall i, j :: 0 <= i < j < |playground| ==> playground[i].id != playground[j].id)
      && (forall i :: 0 <= i < |playground| ==> playground[i].id < nextPlayId)
    }

    constructor ()
      ensures Valid()
      ensures queries == [] && logs == [] && playground == [] && nextPlayId == 0 && views == {} && statements == []
    {
      queries := [];
      logs := [];
      playground := [];
      nextPlayId := 0;
      views := {};
      statements := [];
    }

    /**
     * PlaygroundSQL.objects.get_or_create(sql=sql, created_by_user=user):
     * the one matching row, a new row when there is none, and
     * MultipleObjectsReturned when there are several.
     */
    method GetOrCreatePlayground(sql: string, user: nat, now: int) returns (r: Result<nat, string>)
      requires Valid()
      modifies this
      ensures Valid()
      ensures queries == old(queries) && logs == old(logs) && views == old(views) && statements == old(statements)
      ensures var m := Matching(old(playground), sql, user);
        if |m| == 0 then
          r == Ok(old(nextPlayId)) && nextPlayId == old(nextPlayId) + 1
          && playground == old(playground) + [PlaygroundRow(old(nextPlayId), sql, user, now)]
        else
          playground == old(playground) && nextPlayId == old(nextPlayId)
          && (|m| == 1 ==> r == Ok(m[0].id))
          && (|m| > 1 ==> r == Err("MultipleObjectsReturned"))
    {
      var m := Matching(playground, sql, user);
      if |m| == 0 {
        playground := playground + [PlaygroundRow(nextPlayId, sql, user, now)];
        r := Ok(nextPlayId);
        nextPlayId := nextPlayId + 1;
      } else if |m| == 1 {
        r := Ok(m[0].id);
      } else {
        r := Err("MultipleObjectsReturned");
      }
    }
  }
}
