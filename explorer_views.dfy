/**
 * The Data Explorer's views: the recently viewed queries of the listing
 * page, the playground form's action URL and POST handling, the action
 * dispatch of the query pages, and the view model a query page renders.
 */
module ExplorerViews {
  import opened Wrappers
  import opened Text
  import ExplorerUtils
  import opened ExplorerModels

  // ---------------------------------------------------------------------
  // ListQueryView.recently_viewed

  /** The queryset's filter: the user's own logs of saved queries the user created. */
  predicate OwnLogOfOwnQuery(l: LogRow, queries: seq<SavedQuery>, user: nat)
  {
    l.runBy == user && l.queryId.Some? && OwnedQuery(queries, l.queryId.value, user).Some?
  }

  function UserQueryLogs(logs: seq<LogRow>, queries: seq<SavedQuery>, user: nat): (r: seq<LogRow>)
    ensures forall l :: l in r <==> l in logs && OwnLogOfOwnQuery(l, queries, user)
  {
    if logs == [] then []
    else
      var init := UserQueryLogs(logs[..|logs| - 1], queries, user);
      var last := logs[|logs| - 1];
      assert logs == logs[..|logs| - 1] + [last];
      if OwnLogOfOwnQuery(last, queries, user) then init + [last] else init
  }

  function QueryIds(ls: seq<LogRow>): seq<Option<nat>>
  {
    seq(|ls|, k requires 0 <= k < |ls| => ls[k].queryId)
  }

  /** The logs that are the first of their query, in their order. */
  function FirstPerQuery(ls: seq<LogRow>): (r: seq<LogRow>)
    ensures |r| <= |ls|
    ensures forall x :: x in r ==> x in ls
  {
    if ls == [] then []
    else
      var d := FirstPerQuery(ls[..|ls| - 1]);
      var last := ls[|ls| - 1];
      if last.queryId in QueryIds(d) then d else d + [last]
  }

  /** A log is the first of its query in `ls`. */
  predicate FirstOfItsQuery(ls: seq<LogRow>, p: nat)
    requires p < |ls|
  {
    forall q :: 0 <= q < p ==> ls[q].queryId != ls[p].queryId
  }

  function Take<T>(s: seq<T>, n: nat): seq<T>
  {
    if |s| <= n then s else s[..n]
  }

  /**
   * FirstPerQuery keeps only logs of `ls`, one per query, and covers every
   * query of `ls`.
   */
  lemma {:induction false} FirstPerQueryCovers(ls: seq<LogRow>)
    ensures forall x :: x in FirstPerQuery(ls) ==> x in ls
    ensures forall x :: x in ls ==> x.queryId in QueryIds(FirstPerQuery(ls))
    ensures forall i, j :: 0 <= i < j < |FirstPerQuery(ls)| ==>
              FirstPerQuery(ls)[i].queryId != FirstPerQuery(ls)[j].queryId
  {
    if ls != [] {
      var init := ls[..|ls| - 1];
      var last := ls[|ls| - 1];
      assert ls == init + [last];
      FirstPerQueryCovers(init);
      var d := FirstPerQuery(init);
      if last.queryId !in QueryIds(d) {
        var d' := d + [last];
        assert QueryIds(d') == QueryIds(d) + [last.queryId];
        forall i, j | 0 <= i < j < |d'|
          ensures d'[i].queryId != d'[j].queryId
        {
          if j == |d| {
            assert QueryIds(d)[i] == d[i].queryId;
          }
        }
      }
    }
  }

  /** Each log FirstPerQuery keeps is the first log of its query in `ls`. */
  lemma {:induction false} FirstPerQueryAreFirst(ls: seq<LogRow>)
    ensures forall k :: 0 <= k < |FirstPerQuery(ls)| ==>
              exists p :: 0 <= p < |ls| && ls[p] == FirstPerQuery(ls)[k] && FirstOfItsQuery(ls, p)
  {
    if ls != [] {
      var init := ls[..|ls| - 1];
      FirstPerQueryAreFirst(init);
      var d := FirstPerQuery(init);
      var all := FirstPerQuery(ls);
      assert all == (if ls[|ls| - 1].queryId in QueryIds(d) then d else d + [ls[|ls| - 1]]);
      forall k | 0 <= k < |all|
        ensures exists p :: 0 <= p < |ls| && ls[p] == all[k] && FirstOfItsQuery(ls, p)
      {
        if k < |d| {
          var p :| 0 <= p < |init| && init[p] == d[k] && FirstOfItsQuery(init, p);
          FirstStaysFirst(ls, p);
          assert ls[p] == all[k];
        } else {
          NewQueryIsFirst(ls);
          assert ls[|ls| - 1] == all[k];
        }
      }
    } else {
      assert FirstPerQuery(ls) == [];
    }
  }

  /** A first log stays first when another log is read after it. */
  lemma FirstStaysFirst(ls: seq<LogRow>, p: nat)
    requires p < |ls| - 1 && FirstOfItsQuery(ls[..|ls| - 1], p)
    ensures FirstOfItsQuery(ls, p)
  {
    var init := ls[..|ls| - 1];
    forall q | 0 <= q < p
      ensures ls[q].queryId != ls[p].queryId
    {
      assert ls[q] == init[q] && ls[p] == init[p];
    }
  }

  /** The log FirstPerQuery appends is the first of its query. */
  lemma NewQueryIsFirst(ls: seq<LogRow>)
    requires ls != [] && ls[|ls| - 1].queryId !in QueryIds(FirstPerQuery(ls[..|ls| - 1]))
    ensures FirstOfItsQuery(ls, |ls| - 1)
  {
    var init := ls[..|ls| - 1];
    FirstPerQueryCovers(init);
    forall q | 0 <= q < |ls| - 1
      ensures ls[q].queryId != ls[|ls| - 1].queryId
    {
      assert ls[q] == init[q];
      assert init[q] in init;
    }
  }

  /** Reading further never changes what was already kept. */
  lemma {:induction false} FirstPerQueryPrefix(ls: seq<LogRow>, i: nat)
    requires i <= |ls|
    ensures FirstPerQuery(ls[..i]) <= FirstPerQuery(ls)
    decreases |ls| - i
  {
    if i < |ls| {
      var init := ls[..|ls| - 1];
      FirstPerQueryPrefix(init, i);
      assert init[..i] == ls[..i];
    } else {
      assert ls[..i] == ls;
    }
  }

  /**
   * recently_viewed: walks the queryset, keeping a log whose query it has
   * not kept yet, and stops once `count` logs are kept.
   */
  method RecentlyViewed(logs: seq<LogRow>, queries: seq<SavedQuery>, user: nat, count: nat)
    returns (ret: seq<LogRow>)
    ensures ret == Take(FirstPerQuery(UserQueryLogs(logs, queries, user)), count)
  {
    var qll := UserQueryLogs(logs, queries, user);
    ret := [];
    var tracker: seq<Option<nat>> := [];
    var i := 0;
    while i < |qll|
      invariant i <= |qll|
      invariant ret == FirstPerQuery(qll[..i])
      invariant tracker == QueryIds(ret)
      invariant |ret| <= count
    {
      if |ret| == count {
        FirstPerQueryPrefix(qll, i);
        return;
      }
      var ql := qll[i];
      assert qll[..i + 1][..i] == qll[..i];
      if ql.queryId !in tracker {
        assert QueryIds(ret + [ql]) == QueryIds(ret) + [ql.queryId];
        ret := ret + [ql];
        tracker := tracker + [ql.queryId];
      }
      i := i + 1;
    }
    assert qll[..i] == qll;
  }

  /** The QueryLog table ordered by run_at, newest first ('-run_at'). */
  predicate NewestFirst(ls: seq<LogRow>)
  {
    forall i, j :: 0 <= i < j < |ls| ==> ls[i].runAt >= ls[j].runAt
  }

  lemma {:induction false} UserQueryLogsNewestFirst(logs: seq<LogRow>, queries: seq<SavedQuery>, user: nat)
    requires NewestFirst(logs)
    ensures NewestFirst(UserQueryLogs(logs, queries, user))
  {
    if logs != [] {
      var init := logs[..|logs| - 1];
      var last := logs[|logs| - 1];
      assert NewestFirst(init);
      UserQueryLogsNewestFirst(init, queries, user);
      var r := UserQueryLogs(init, queries, user);
      forall x | x in r
        ensures x.runAt >= last.runAt
      {
        var k :| 0 <= k < |init| && init[k] == x;
        assert logs[k] == x;
      }
    }
  }

  /**
   * What recently_viewed returns: at most `count` logs, all the user's own
   * runs of queries the user created, one per query; when the logs come
   * newest first, each is a latest run of its query; and when fewer than
   * `count` come back, every such query is there.
   */
  lemma RecentlyViewedMeaning(logs: seq<LogRow>, queries: seq<SavedQuery>, user: nat, count: nat)
    ensures var r := Take(FirstPerQuery(UserQueryLogs(logs, queries, user)), count);
      |r| <= count
      && (forall x :: x in r ==> x in logs && OwnLogOfOwnQuery(x, queries, user))
      && (forall i, j :: 0 <= i < j < |r| ==> r[i].queryId != r[j].queryId)
    ensures var r := Take(FirstPerQuery(UserQueryLogs(logs, queries, user)), count);
      |r| < count ==>
        forall l :: l in logs && OwnLogOfOwnQuery(l, queries, user) ==> l.queryId in QueryIds(r)
    ensures var r := Take(FirstPerQuery(UserQueryLogs(logs, queries, user)), count);
      NewestFirst(logs) ==>
        forall x, l :: x in r && l in logs && OwnLogOfOwnQuery(l, queries, user) && l.queryId == x.queryId ==>
          l.runAt <= x.runAt
  {
    var qll := UserQueryLogs(logs, queries, user);
    var d := FirstPerQuery(qll);
    var r := Take(d, count);
    FirstPerQueryCovers(qll);
    assert forall x :: x in r ==> x in d;
    if |r| < count {
      assert r == d;
    }
    if NewestFirst(logs) {
      RecentlyViewedLatest(logs, queries, user, count);
    }
  }

  /** When the logs come newest first, each log returned is a latest run of its query. */
  lemma RecentlyViewedLatest(logs: seq<LogRow>, queries: seq<SavedQuery>, user: nat, count: nat)
    requires NewestFirst(logs)
    ensures var r := Take(FirstPerQuery(UserQueryLogs(logs, queries, user)), count);
      forall x, l :: x in r && l in logs && OwnLogOfOwnQuery(l, queries, user) && l.queryId == x.queryId ==>
        l.runAt <= x.runAt
  {
    var qll := UserQueryLogs(logs, queries, user);
    var d := FirstPerQuery(qll);
    var r := Take(d, count);
    UserQueryLogsNewestFirst(logs, queries, user);
    FirstPerQueryAreFirst(qll);
    forall x, l | x in r && l in logs && OwnLogOfOwnQuery(l, queries, user) && l.queryId == x.queryId
      ensures l.runAt <= x.runAt
    {
      var k :| 0 <= k < |r| && r[k] == x;
      assert d[k] == x;
      var p :| 0 <= p < |qll| && qll[p] == d[k] && FirstOfItsQuery(qll, p);
      assert l in qll;
      var q :| 0 <= q < |qll| && qll[q] == l;
      if q > p {
        assert qll[p].runAt >= qll[q].runAt;
      }
    }
  }

  // ---------------------------------------------------------------------
  // PlayQueryView.get_form_action

  /** The GET parameters the playground form does not carry along. */
  predicate Dropped(key: string)
  {
    key == "sql" || key == "querylog_id" || key == "play_id"
  }

  function KeptParams(items: seq<(string, string)>): (r: seq<(string, string)>)
    ensures forall kv :: kv in r <==> kv in items && !Dropped(kv.0)
  {
    if items == [] then []
    else
      var init := KeptParams(items[..|items| - 1]);
      var last := items[|items| - 1];
      assert items == items[..|items| - 1] + [last];
      if Dropped(last.0) then init else init + [last]
  }

  /** The `key=value` fields of urlencode, each side passed through `quote` (quote_plus). */
  function EncodedFields(pairs: seq<(string, string)>, quote: string -> string): (r: seq<string>)
  {
    seq(|pairs|, i requires 0 <= i < |pairs| => quote(pairs[i].0) + "=" + quote(pairs[i].1))
  }

  function UrlEncode(pairs: seq<(string, string)>, quote: string -> string): string
  {
    Join(EncodedFields(pairs, quote), '&')
  }

  lemma {:induction false} JoinNonEmpty(parts: seq<string>, sep: char)
    requires |parts| >= 1 && parts[0] != ""
    ensures Join(parts, sep) != ""
  {
    if |parts| > 1 {
      assert Join(parts, sep)[0] == parts[0][0];
    }
  }

  /**
   * get_form_action: the request path, then '?' and the encoded kept
   * parameters when some remain.
   */
  function FormAction(path: string, items: seq<(string, string)>, quote: string -> string): (r: string)
    ensures StartsWith(r, path)
    ensures r == path <==> KeptParams(items) == []
  {
    var params := UrlEncode(KeptParams(items), quote);
    assert KeptParams(items) != [] ==> (JoinNonEmpty(EncodedFields(KeptParams(items), quote), '&'); params != "");
    if params != "" then path + "?" + params else path
  }

  /**
   * The query string of the form action splits back into one field per
   * kept parameter, in order, when quoting never produces '&'.
   */
  lemma FormActionFields(path: string, items: seq<(string, string)>, quote: string -> string)
    requires forall s :: '&' !in quote(s)
    requires KeptParams(items) != []
    ensures var r := FormAction(path, items, quote);
      |r| > |path| && r[|path|] == '?'
      && Split(r[|path| + 1..], '&') == EncodedFields(KeptParams(items), quote)
  {
    var kept := KeptParams(items);
    var fields := EncodedFields(kept, quote);
    JoinNonEmpty(fields, '&');
    var r := FormAction(path, items, quote);
    assert r == path + "?" + Join(fields, '&');
    assert r[|path| + 1..] == Join(fields, '&');
    forall i | 0 <= i < |fields|
      ensures '&' !in fields[i]
    {
      assert fields[i] == quote(kept[i].0) + "=" + quote(kept[i].1);
      assert '&' !in quote(kept[i].0) && '&' !in quote(kept[i].1);
    }
    SplitJoin(fields, '&');
  }

  // ---------------------------------------------------------------------
  // query_viewmodel

  /** What running the query gave: its rows, headers, total and duration. */
  datatype Fetched = Fetched(headers: seq<ExplorerUtils.ColumnHeader>, data: seq<ExplorerUtils.Row>,
                             totalRows: nat, duration: int)

  datatype ViewModel = ViewModel(
    title: Option<string>,
    message: Option<string>,
    sqlErrors: seq<string>,
    rows: nat,
    page: nat,
    data: Option<seq<ExplorerUtils.Row>>,
    headers: Option<seq<ExplorerUtils.ColumnHeader>>,
    totalRows: Option<nat>,
    duration: Option<int>,
    totalPages: nat)

  /**
   * query_viewmodel. `outcome` is what the query run gives when the view
   * runs it: the fetched result or the text of the QueryException. The
   * error text is taken as a truth value, so an exception with empty text leaves
   * the results unbound and reading them raises UnboundLocalError.
   * `httpMethod` is the keyword argument `method`, "POST" unless a caller says
   * otherwise.
   */
  function QueryViewModel(title: Option<string>, message: Option<string>, runQuery: bool,
                          outcome: Result<Fetched, string>, rows: nat, page: nat, httpMethod: string)
    : (r: Result<ViewModel, string>)
    ensures r.Err? <==> runQuery && outcome.Err? && outcome.error == ""
    ensures r.Ok? ==>
              var hasResults := runQuery && outcome.Ok?;
              (r.value.data.Some? <==> hasResults) && (r.value.headers.Some? <==> hasResults)
              && (r.value.totalRows.Some? <==> hasResults) && (r.value.duration.Some? <==> hasResults)
    ensures r.Ok? && runQuery && outcome.Ok? ==>
              r.value.data == Some(outcome.value.data) && r.value.headers == Some(outcome.value.headers)
              && r.value.totalRows == Some(outcome.value.totalRows) && r.value.duration == Some(outcome.value.duration)
    ensures r.Ok? && runQuery && outcome.Err? && httpMethod == "POST" ==>
              r.value.message == Some("Query error") && r.value.sqlErrors == [outcome.error]
    ensures r.Ok? && !(runQuery && outcome.Err? && httpMethod == "POST") ==>
              r.value.message == message && r.value.sqlErrors == []
    ensures r.Ok? ==> r.value.rows == rows && r.value.page == page && r.value.title == title
    ensures r.Ok? && (r.value.totalRows.None? || r.value.totalRows == Some(0) || rows == 0) ==> r.value.totalPages == 1
    ensures r.Ok? && r.value.totalRows.Some? && r.value.totalRows.value > 0 && rows > 0 ==>
              (r.value.totalPages - 1) * rows < r.value.totalRows.value <= r.value.totalPages * rows
  {
    var error: Option<string> := if runQuery && outcome.Err? then Some(outcome.error) else None;
    var failed := error.Some? && error.value != "";
    var hasValidResults := !failed && runQuery;
    if hasValidResults && outcome.Err? then Err("UnboundLocalError")
    else
      var totalRows: Option<nat> := if hasValidResults then Some(outcome.value.totalRows) else None;
      Ok(ViewModel(
           title,
           if failed && httpMethod == "POST" then Some("Query error") else message,
           if failed && httpMethod == "POST" then [error.value] else [],
           rows,
           page,
           if hasValidResults then Some(outcome.value.data) else None,
           if hasValidResults then Some(outcome.value.headers) else None,
           totalRows,
           if hasValidResults then Some(outcome.value.duration) else None,
           ExplorerUtils.GetTotalPages(totalRows, Some(rows))))
  }

  /** A page that is not asked to run the query shows no results and one page. */
  lemma NotRunShowsNothing(title: Option<string>, message: Option<string>, outcome: Result<Fetched, string>,
                           rows: nat, page: nat, httpMethod: string)
    ensures var r := QueryViewModel(title, message, false, outcome, rows, page, httpMethod);
      r.Ok? && r.value.data.None? && r.value.totalPages == 1 && r.value.message == message
  {
  }

  // ---------------------------------------------------------------------
  // Responses and action dispatch

  datatype Target = QueryDetail(queryId: int) | QueryCreate | Index

  datatype Response =
    | Redirect(target: Target, playId: nat)
    | RenderHome
    | Plain(status: nat, body: string)
    | NotFound
    | ServerError(reason: string)

  /** HttpResponse(f"Unknown form action: {action}", 400): 400 is the content type, so the status is 200. */
  function UnknownActionResponse(action: string): Response
  {
    Plain(200, "Unknown form action: " + action)
  }

  /** HttpResponseBadRequest(f"Unknown form action: {action}"). */
  function UnknownActionBadRequest(action: string): Response
  {
    Plain(400, "Unknown form action: " + action)
  }

  datatype Handler = SaveHandler | EditHandler | RunHandler | Refuse(response: Response)

  /**
   * CreateQueryView.post: 'edit' is looked for first, so the later 'edit'
   * branch is never reached.
   */
  function CreateQueryDispatch(action: string): (h: Handler)
    ensures h.Refuse? <==> action != "edit" && action != "save"
    ensures h.Refuse? ==> h.response.Plain? && h.response.status == 200
  {
    if action == "edit" then EditHandler
    else if action == "save" then SaveHandler
    else Refuse(UnknownActionResponse(action))
  }

  /** QueryView.post. */
  function QueryViewDispatch(action: string): (h: Handler)
    ensures h.Refuse? <==> action != "edit" && action != "save"
    ensures h.Refuse? ==> h.response.Plain? && h.response.status == 400
  {
    if action == "save" then SaveHandler
    else if action == "edit" then EditHandler
    else Refuse(UnknownActionBadRequest(action))
  }

  /** The same unknown action is a 200 on the create page and a 400 on a saved query's page. */
  lemma UnknownActionStatuses(action: string)
    requires action != "edit" && action != "save"
    ensures CreateQueryDispatch(action).response.status == 200
    ensures QueryViewDispatch(action).response.status == 400
    ensures CreateQueryDispatch(action).response.body == QueryViewDispatch(action).response.body
  {
  }

  // ---------------------------------------------------------------------
  // PlayQueryView.post

  /** url_get_query_id, read as a truth value as `if existing_query_id:` does. */
  function ExistingQueryId(get: map<string, string>): Option<int>
  {
    var q := ExplorerUtils.UrlGetQueryId(get);
    if q.Some? && q.value != 0 then q else None
  }

  /**
   * PlayQueryView.post: a truthy query_id must name one of the user's
   * queries (else 404) whatever the action; 'save' stores the SQL as
   * playground SQL (get_or_create) and redirects to the query's page or
   * the create page with ?play_id; 'run' and 'fetch-page' render the
   * playground; any other action answers 200 with a message. Running the
   * SQL for 'run' and 'fetch-page' (execute_query and its QueryLog) is not
   * part of this method, so nothing is promised about the logs, views or
   * statements on those actions.
   */
  method PlayPost(store: ExplorerStore, user: nat, get: map<string, string>, sql: string, action: string, now: int)
    returns (resp: Response)
    requires store.Valid()
    modifies store
    ensures store.Valid()
    ensures (action != "run" && action != "fetch-page")
            || (ExistingQueryId(get).Some? && OwnedQuery(old(store.queries), ExistingQueryId(get).value, user).None?) ==>
      store.queries == old(store.queries) && store.logs == old(store.logs) && store.views == old(store.views)
      && store.statements == old(store.statements)
    ensures var existing := ExistingQueryId(get);
      if existing.Some? && OwnedQuery(old(store.queries), existing.value, user).None? then
        resp == NotFound && store.playground == old(store.playground)
      else if action == "save" then
        var m := Matching(old(store.playground), sql, user);
        (resp.Redirect? <==> |m| <= 1)
        && (resp.Redirect? ==>
              resp.target == (if existing.Some? then QueryDetail(existing.value) else QueryCreate)
              && (exists p :: p in store.playground && p.id == resp.playId && p.sql == sql && p.createdBy == user))
        && (|m| > 1 ==> resp == ServerError("MultipleObjectsReturned") && store.playground == old(store.playground))
        && (|m| == 0 ==>
              && store.playground == old(store.playground) + [PlaygroundRow(old(store.nextPlayId), sql, user, now)]
              && resp.Redirect? && resp.playId == old(store.nextPlayId))
        && (|m| == 1 ==> store.playground == old(store.playground) && resp.Redirect? && resp.playId == m[0].id)
      else
        store.playground == old(store.playground)
        && resp == (if action == "run" || action == "fetch-page" then RenderHome else UnknownActionResponse(action))
  {
    var existing := ExistingQueryId(get);
    if existing.Some? {
      var q := OwnedQuery(store.queries, existing.value, user);
      if q.None? {
        return NotFound;
      }
    }
    if action == "save" {
      var play := store.GetOrCreatePlayground(sql, user, now);
      if play.Err? {
        return ServerError(play.error);
      }
      ghost var m := Matching(old(store.playground), sql, user);
      if |m| == 1 {
        assert m[0] in m;
      } else {
        assert store.playground[|store.playground| - 1].id == play.value;
      }
      var target := if existing.Some? then QueryDetail(existing.value) else QueryCreate;
      resp := Redirect(target, play.value);
    } else if action == "run" || action == "fetch-page" {
      resp := RenderHome;
    } else {
      resp := UnknownActionResponse(action);
    }
  }
}
