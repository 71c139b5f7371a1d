/**
 * The Data Explorer's periodic clean-up tasks: old query logs, old
 * playground SQL and the materialised views of queries not run for a day.
 * `now` is the clock's reading in seconds, given by the caller.
 */
module ExplorerTasks {
  import opened Collections
  import Digest
  import ExplorerUtils
  import opened ExplorerModels

  const Day: int := 86400
  const PlaygroundRetentionDays: int := 14

  // ---------------------------------------------------------------------
  // truncate_querylogs

  /** Kept by truncate_querylogs: run at or after the cut-off. */
  function LogRetained(cutoff: int): LogRow -> bool
  {
    (l: LogRow) => !(l.runAt < cutoff)
  }

  /** truncate_querylogs(days): one queryset delete of the logs run strictly before now - days. */
  method TruncateQueryLogs(store: ExplorerStore, now: int, days: int)
    modifies store
    ensures store.logs == Filter(old(store.logs), LogRetained(now - days * Day))
    ensures forall l :: l in store.logs <==> l in old(store.logs) && l.runAt >= now - days * Day
    ensures store.queries == old(store.queries) && store.playground == old(store.playground)
    ensures store.nextPlayId == old(store.nextPlayId) && store.views == old(store.views)
    ensures store.statements == old(store.statements)
  {
    store.logs := Filter(store.logs, LogRetained(now - days * Day));
  }

  /** Running the truncation again at the same moment deletes nothing more. */
  lemma TruncateTwice(logs: seq<LogRow>, now: int, days: int)
    ensures var once := Filter(logs, LogRetained(now - days * Day));
      Filter(once, LogRetained(now - days * Day)) == once
  {
    FilterIdempotent(logs, LogRetained(now - days * Day));
  }

  // ---------------------------------------------------------------------
  // cleanup_playground_sql_table

  /** Selected by cleanup_playground_sql_table: created at or before the oldest date to retain. */
  function PlaygroundExpired(oldest: int): PlaygroundRow -> bool
  {
    (p: PlaygroundRow) => p.createdAt <= oldest
  }

  function PlaygroundRetained(oldest: int): PlaygroundRow -> bool
  {
    (p: PlaygroundRow) => !(p.createdAt <= oldest)
  }

  function NotIn(done: seq<PlaygroundRow>): PlaygroundRow -> bool
  {
    (p: PlaygroundRow) => p !in done
  }

  function Other(row: PlaygroundRow): PlaygroundRow -> bool
  {
    (p: PlaygroundRow) => p != row
  }

  /** Deleting one more row is filtering by one more row to leave out. */
  lemma DeleteStep(start: seq<PlaygroundRow>, rows: seq<PlaygroundRow>, i: nat)
    requires i < |rows|
    ensures Filter(Filter(start, NotIn(rows[..i])), Other(rows[i])) == Filter(start, NotIn(rows[..i + 1]))
  {
    assert rows[..i + 1] == rows[..i] + [rows[i]];
    FilterFilter(start, NotIn(rows[..i]), Other(rows[i]), NotIn(rows[..i + 1]));
  }

  /** Deleting a row keeps the playground's ids distinct and below the next id. */
  lemma DeleteKeepsIds(rows: seq<PlaygroundRow>, row: PlaygroundRow, nextId: nat)
    requires forall i, j :: 0 <= i < j < |rows| ==> rows[i].id != rows[j].id
    requires forall i :: 0 <= i < |rows| ==> rows[i].id < nextId
    ensures var r := Filter(rows, Other(row));
      (forall i, j :: 0 <= i < j < |r| ==> r[i].id != r[j].id) && (forall i :: 0 <= i < |r| ==> r[i].id < nextId)
  {
    FilterKeepsDistinct(rows, Other(row), (p: PlaygroundRow) => p.id as int);
    var r := Filter(rows, Other(row));
    forall i | 0 <= i < |r|
      ensures r[i].id < nextId
    {
      assert r[i] in rows;
    }
  }

  /**
   * cleanup_playground_sql_table: deletes, one by one, the rows created at
   * or before now - 14 days, and counts them. Newer rows stay, in order.
   */
  method CleanupPlaygroundSqlTable(store: ExplorerStore, now: int) returns (count: nat)
    requires store.Valid()
    modifies store
    ensures store.Valid()
    ensures store.playground == Filter(old(store.playground), PlaygroundRetained(now - PlaygroundRetentionDays * Day))
    ensures count == |Filter(old(store.playground), PlaygroundExpired(now - PlaygroundRetentionDays * Day))|
    ensures store.queries == old(store.queries) && store.logs == old(store.logs)
    ensures store.nextPlayId == old(store.nextPlayId) && store.views == old(store.views)
    ensures store.statements == old(store.statements)
  {
    var oldest := now - PlaygroundRetentionDays * Day;
    var expired := Filter(store.playground, PlaygroundExpired(oldest));
    ghost var start := store.playground;
    FilterAllPass(start, NotIn([]));
    count := 0;
    var i := 0;
    while i < |expired|
      invariant i <= |expired| && count == i
      invariant store.playground == Filter(start, NotIn(expired[..i]))
      invariant store.Valid()
      invariant store.queries == old(store.queries) && store.logs == old(store.logs)
      invariant store.nextPlayId == old(store.nextPlayId) && store.views == old(store.views)
      invariant store.statements == old(store.statements)
    {
      var row := expired[i];
      DeleteKeepsIds(store.playground, row, store.nextPlayId);
      DeleteStep(start, expired, i);
      store.playground := Filter(store.playground, Other(row));
      count := count + 1;
      i := i + 1;
    }
    assert expired[..i] == expired;
    FilterExt(start, NotIn(expired), PlaygroundRetained(oldest));
  }

  /**
   * The rows deleted and the rows kept add up to the table; a second run
   * at the same moment finds nothing to delete.
   */
  lemma PlaygroundCleanupAccounts(rows: seq<PlaygroundRow>, now: int)
    ensures var oldest := now - PlaygroundRetentionDays * Day;
      |Filter(rows, PlaygroundExpired(oldest))| + |Filter(rows, PlaygroundRetained(oldest))| == |rows|
    ensures var oldest := now - PlaygroundRetentionDays * Day;
      Filter(Filter(rows, PlaygroundRetained(oldest)), PlaygroundExpired(oldest)) == []
  {
    var oldest := now - PlaygroundRetentionDays * Day;
    FilterPartition(rows, PlaygroundExpired(oldest), PlaygroundRetained(oldest));
    var kept := Filter(rows, PlaygroundRetained(oldest));
    var again := Filter(kept, PlaygroundExpired(oldest));
    FilterPartition(kept, PlaygroundExpired(oldest), PlaygroundRetained(oldest));
    FilterAllPass(kept, PlaygroundRetained(oldest));
  }

  // ---------------------------------------------------------------------
  // cleanup_materialized_views

  /** Selected by cleanup_materialized_views: last run at or before one day ago. */
  function Stale(oneDayAgo: int): SavedQuery -> bool
  {
    (q: SavedQuery) => q.lastRunDate <= oneDayAgo
  }

  /** The view of a query, on its connection, named for the user who created it. */
  function ViewOf(q: SavedQuery, sha: Digest.Sha256, ssoIdOf: nat -> string): (string, string)
  {
    (q.connection, ExplorerUtils.MaterializedViewName(sha, ssoIdOf(q.createdBy), q.id))
  }

  function ViewSeq(qs: seq<SavedQuery>, sha: Digest.Sha256, ssoIdOf: nat -> string): seq<(string, string)>
  {
    seq(|qs|, i requires 0 <= i < |qs| => ViewOf(qs[i], sha, ssoIdOf))
  }

  /** DROP MATERIALIZED VIEW IF EXISTS for each view, on its connection, in order. */
  function Drops(views: seq<(string, string)>): (r: seq<(string, ExplorerUtils.CursorCmd)>)
    ensures |r| == |views|
  {
    if views == [] then []
    else Drops(views[..|views| - 1]) + [(views[|views| - 1].0, ExplorerUtils.DropViewIfExists(views[|views| - 1].1))]
  }

  lemma {:induction false} DropAt(views: seq<(string, string)>, i: nat)
    requires i < |views|
    ensures Drops(views)[i] == (views[i].0, ExplorerUtils.DropViewIfExists(views[i].1))
    decreases |views|
  {
    if i < |views| - 1 {
      DropAt(views[..|views| - 1], i);
    }
  }

  function SetOf(views: seq<(string, string)>): set<(string, string)>
  {
    if views == [] then {} else SetOf(views[..|views| - 1]) + {views[|views| - 1]}
  }

  /** One more view adds its DROP statement and leaves the set of views dropped. */
  lemma DropsStep(views: seq<(string, string)>, i: nat)
    requires i < |views|
    ensures Drops(views[..i + 1]) == Drops(views[..i]) + [(views[i].0, ExplorerUtils.DropViewIfExists(views[i].1))]
    ensures SetOf(views[..i + 1]) == SetOf(views[..i]) + {views[i]}
  {
    assert views[..i + 1][..i] == views[..i];
  }

  /** The loop of cleanup_materialized_views, over the views of the selected queries. */
  method DropViews(store: ExplorerStore, views: seq<(string, string)>)
    modifies store
    ensures store.statements == old(store.statements) + Drops(views)
    ensures store.views == old(store.views) - SetOf(views)
    ensures store.queries == old(store.queries) && store.logs == old(store.logs)
    ensures store.playground == old(store.playground) && store.nextPlayId == old(store.nextPlayId)
  {
    var i := 0;
    while i < |views|
      invariant i <= |views|
      invariant store.statements == old(store.statements) + Drops(views[..i])
      invariant store.views == old(store.views) - SetOf(views[..i])
      invariant store.queries == old(store.queries) && store.logs == old(store.logs)
      invariant store.playground == old(store.playground) && store.nextPlayId == old(store.nextPlayId)
    {
      DropsStep(views, i);
      ghost var done := Drops(views[..i]);
      var drop := (views[i].0, ExplorerUtils.DropViewIfExists(views[i].1));
      store.statements := store.statements + [drop];
      assert store.statements == old(store.statements) + (done + [drop]);
      store.views := store.views - {views[i]};
      i := i + 1;
    }
    assert views[..i] == views;
  }

  /**
   * cleanup_materialized_views: for each query last run at or before one
   * day ago, a DROP ... IF EXISTS of its view on its connection; a view
   * that is already gone is no error.
   */
  method CleanupMaterializedViews(store: ExplorerStore, now: int, sha: Digest.Sha256, ssoIdOf: nat -> string)
    modifies store
    ensures var views := ViewSeq(Filter(old(store.queries), Stale(now - Day)), sha, ssoIdOf);
      store.statements == old(store.statements) + Drops(views)
      && store.views == old(store.views) - SetOf(views)
    ensures store.queries == old(store.queries) && store.logs == old(store.logs)
    ensures store.playground == old(store.playground) && store.nextPlayId == old(store.nextPlayId)
  {
    var stale := Filter(store.queries, Stale(now - Day));
    DropViews(store, ViewSeq(stale, sha, ssoIdOf));
  }

  /** Every query last run at or before one day ago gets a DROP of its view. */
  lemma StaleViewsDropped(queries: seq<SavedQuery>, now: int, sha: Digest.Sha256, ssoIdOf: nat -> string)
    ensures var views := ViewSeq(Filter(queries, Stale(now - Day)), sha, ssoIdOf);
      forall q :: q in queries && q.lastRunDate <= now - Day ==>
        (ViewOf(q, sha, ssoIdOf).0, ExplorerUtils.DropViewIfExists(ViewOf(q, sha, ssoIdOf).1)) in Drops(views)
  {
    var stale := Filter(queries, Stale(now - Day));
    var views := ViewSeq(stale, sha, ssoIdOf);
    forall q | q in queries && q.lastRunDate <= now - Day
      ensures (ViewOf(q, sha, ssoIdOf).0, ExplorerUtils.DropViewIfExists(ViewOf(q, sha, ssoIdOf).1)) in Drops(views)
    {
      assert q in stale;
      var k :| 0 <= k < |stale| && stale[k] == q;
      DropAt(views, k);
      assert Drops(views)[k] in Drops(views);
    }
  }

  /**
   * Every DROP is of the view of a query last run at or before one day
   * ago, so newer queries keep their views; and dropping the same views
   * again leaves the views as they are.
   */
  lemma OnlyStaleViewsDropped(queries: seq<SavedQuery>, now: int, sha: Digest.Sha256,
                              ssoIdOf: nat -> string, present: set<(string, string)>)
    ensures var views := ViewSeq(Filter(queries, Stale(now - Day)), sha, ssoIdOf);
      forall s :: s in Drops(views) ==>
        exists q :: q in queries && q.lastRunDate <= now - Day
                    && s == (ViewOf(q, sha, ssoIdOf).0, ExplorerUtils.DropViewIfExists(ViewOf(q, sha, ssoIdOf).1))
    ensures var views := ViewSeq(Filter(queries, Stale(now - Day)), sha, ssoIdOf);
      (present - SetOf(views)) - SetOf(views) == present - SetOf(views)
  {
    var stale := Filter(queries, Stale(now - Day));
    var views := ViewSeq(stale, sha, ssoIdOf);
    forall s | s in Drops(views)
      ensures exists q :: q in queries && q.lastRunDate <= now - Day
                          && s == (ViewOf(q, sha, ssoIdOf).0, ExplorerUtils.DropViewIfExists(ViewOf(q, sha, ssoIdOf).1))
    {
      var k :| 0 <= k < |Drops(views)| && Drops(views)[k] == s;
      DropAt(views, k);
      assert stale[k] in stale;
    }
  }
}
