/**
 * The Data Explorer's helpers: pagination arithmetic, reading integers,
 * flags and `k:v|k2:v2` parameters off the request, the materialised view
 * a query runs into, the ordered cursor commands of a query run, and the
 * result's headers and columns.
 *
 * Request values are the raw strings of request.GET / request.POST; the
 * database cursor is a log of the commands issued to it.
 */
module ExplorerUtils {
  import opened Wrappers
  import opened Text
  import Digest
  import CoreCredentials

  // ---------------------------------------------------------------------
  // Pagination

  /** get_total_pages: one page when either argument is falsy (None or 0), otherwise the ceiling. */
  function GetTotalPages(totalRows: Option<nat>, pageSize: Option<nat>): (r: nat)
    ensures (totalRows.None? || totalRows == Some(0) || pageSize.None? || pageSize == Some(0)) ==> r == 1
    ensures totalRows.Some? && totalRows.value > 0 && pageSize.Some? && pageSize.value > 0 ==>
              (r - 1) * pageSize.value < totalRows.value <= r * pageSize.value
  {
    if totalRows.None? || totalRows == Some(0) || pageSize.None? || pageSize == Some(0) then 1
    else
      var t := totalRows.value;
      var s := pageSize.value;
      var remainder := if t % s != 0 then 1 else 0;
      CeilingBounds(t, s);
      t / s + remainder
  }

  lemma CeilingBounds(t: nat, s: nat)
    requires s > 0
    ensures var r := t / s + (if t % s != 0 then 1 else 0);
      (r - 1) * s < t || t == 0
    ensures var r := t / s + (if t % s != 0 then 1 else 0);
      t <= r * s
  {
    var q := t / s;
    assert t == q * s + t % s;
    if t % s != 0 {
      assert (q + 1) * s == q * s + s;
    } else if t > 0 {
      assert q >= 1;
      assert (q - 1) * s == q * s - s;
    }
  }

  /** The cases the explorer's tests list. */
  lemma GetTotalPagesExamples()
    ensures GetTotalPages(None, Some(10)) == 1 && GetTotalPages(Some(10), None) == 1
    ensures GetTotalPages(Some(80), Some(10)) == 8 && GetTotalPages(Some(80), Some(5)) == 16
    ensures GetTotalPages(Some(81), Some(10)) == 9 && GetTotalPages(Some(79), Some(10)) == 8
  {
  }

  // ---------------------------------------------------------------------
  // Reading integers

  /**
   * The characters of str.isnumeric() this model knows: the ASCII digits and,
   * in the Latin-1 range, ¹ ² ³ ¼ ½ ¾. Python accepts many more numeric
   * characters beyond Latin-1; those are not modelled.
   */
  predicate IsNumericChar(c: char)
  {
    IsDigit(c) || c == '\U{B9}' || c == '\U{B2}' || c == '\U{B3}' || c == '\U{BC}' || c == '\U{BD}' || c == '\U{BE}'
  }

  /** str.isnumeric(): non-empty and every character numeric. */
  predicate IsNumeric(s: string)
  {
    |s| > 0 && forall i :: 0 <= i < |s| ==> IsNumericChar(s[i])
  }

  predicate AllDigits(s: string)
  {
    forall i :: 0 <= i < |s| ==> IsDigit(s[i])
  }

  /** The digits of a literal with its single separating underscores removed. */
  function WithoutUnderscores(s: string): (r: string)
    ensures |r| <= |s|
    ensures (forall i :: 0 <= i < |s| ==> IsDigit(s[i]) || s[i] == '_') ==> AllDigits(r)
  {
    if s == [] then []
    else (if s[0] == '_' then [] else [s[0]]) + WithoutUnderscores(s[1..])
  }

  /** An unsigned integer literal as int() reads it: digits, single underscores only between digits. */
  predicate UnsignedLiteral(s: string)
  {
    |s| > 0 && IsDigit(s[0]) && IsDigit(s[|s| - 1])
    && (forall i :: 0 <= i < |s| ==> IsDigit(s[i]) || s[i] == '_')
    && (forall i :: 0 <= i < |s| - 1 ==> !(s[i] == '_' && s[i + 1] == '_'))
  }

  /** int(s) for a string: surrounding whitespace, an optional sign, a literal; None where int() raises ValueError. */
  function ParseInt(s: string): Option<int>
  {
    var t := Strip(s);
    if |t| > 0 && (t[0] == '+' || t[0] == '-') then
      var b := t[1..];
      if UnsignedLiteral(b) then
        var v: int := DigitsValue(WithoutUnderscores(b));
        Some(if t[0] == '-' then -v else v)
      else None
    else if UnsignedLiteral(t) then Some(DigitsValue(WithoutUnderscores(t)))
    else None
  }

  /** A plain run of ASCII digits parses to its decimal value. */
  lemma ParseIntOfDigits(s: string)
    requires AllDigits(s) && |s| > 0
    ensures ParseInt(s) == Some(DigitsValue(s))
  {
    DigitsHaveNoSpace(s);
    StripNoSpace(s);
    DigitsAreLiteral(s);
    NoUnderscoreInDigits(s);
  }

  /** Digits are an unsigned literal with no sign in front. */
  lemma DigitsAreLiteral(s: string)
    requires AllDigits(s) && |s| > 0
    ensures UnsignedLiteral(s) && s[0] != '+' && s[0] != '-'
  {
    assert IsDigit(s[0]) && IsDigit(s[|s| - 1]);
  }

  lemma DigitsHaveNoSpace(s: string)
    requires AllDigits(s)
    ensures forall i :: 0 <= i < |s| ==> !IsSpace(s[i])
  {
    forall i | 0 <= i < |s| ensures !IsSpace(s[i]) {
      assert IsDigit(s[i]);
    }
  }

  lemma {:induction false} NoUnderscoreInDigits(s: string)
    requires AllDigits(s)
    ensures WithoutUnderscores(s) == s
  {
    if s != [] {
      NoUnderscoreInDigits(s[1..]);
      assert s == [s[0]] + s[1..];
    }
  }

  /** A request value: a string from the query dict, or the default handed to `.get`. */
  datatype RequestValue = Str(s: string) | IntValue(i: int) | NoValue

  predicate Truthy(v: RequestValue)
  {
    match v
    case Str(s) => s != []
    case IntValue(i) => i != 0
    case NoValue => false
  }

  function DefaultValue(d: Option<int>): RequestValue
  {
    if d.None? then NoValue else IntValue(d.value)
  }

  /**
   * get_int_from_request: None when the value (or, if absent, the default) is
   * falsy; otherwise int() of it, with the default where int() raises.
   */
  function GetIntFromRequest(query: map<string, string>, name: string, default: Option<int>): (r: Option<int>)
    ensures name in query && query[name] == [] ==> r == None
    ensures name !in query ==> r == (if default == Some(0) then None else default)
    ensures name in query && query[name] != [] ==>
              r == (if ParseInt(query[name]).Some? then ParseInt(query[name]) else default)
  {
    var val := if name in query then Str(query[name]) else DefaultValue(default);
    if !Truthy(val) then None
    else match val
      case Str(s) => if ParseInt(s).Some? then ParseInt(s) else default
      case IntValue(i) => Some(i)
      case NoValue => None
  }

  /** url_get_query_id and url_get_log_id: no default. */
  function UrlGetQueryId(query: map<string, string>): (r: Option<int>)
    ensures "query_id" !in query ==> r.None?
    ensures "query_id" in query && query["query_id"] != "" ==> r == ParseInt(query["query_id"])
  {
    GetIntFromRequest(query, "query_id", None)
  }

  function UrlGetLogId(query: map<string, string>): (r: Option<int>)
    ensures "querylog_id" !in query ==> r.None?
    ensures "querylog_id" in query && query["querylog_id"] != "" ==> r == ParseInt(query["querylog_id"])
  {
    GetIntFromRequest(query, "querylog_id", None)
  }

  /** url_get_show: bool() of the value with default 1. */
  function UrlGetShow(query: map<string, string>): (r: bool)
    ensures "show" in query && query["show"] != "" ==> (r <==> ParseInt(query["show"]) != Some(0))
  {
    var v := GetIntFromRequest(query, "show", Some(1));
    v.Some? && v.value != 0
  }

  /** url_get_save: bool() of the value with default 0. */
  function UrlGetSave(query: map<string, string>): (r: bool)
    ensures "save" in query && query["save"] != "" ==>
              (r <==> ParseInt(query["save"]).Some? && ParseInt(query["save"]).value != 0)
  {
    var v := GetIntFromRequest(query, "save", Some(0));
    v.Some? && v.value != 0
  }

  /**
   * Showing is on when `show` is absent or not a number, and off for `show=0`
   * and for an empty `show=`; saving is off unless asked for.
   */
  lemma ShowAndSaveDefaults(query: map<string, string>)
    ensures "show" !in query ==> UrlGetShow(query)
    ensures "show" in query && query["show"] == "0" ==> !UrlGetShow(query)
    ensures "show" in query && query["show"] == "" ==> !UrlGetShow(query)
    ensures "show" in query && query["show"] != "" && ParseInt(query["show"]).None? ==> UrlGetShow(query)
    ensures "save" !in query ==> !UrlGetSave(query)
  {
    if "show" in query && query["show"] == "0" {
      assert AllDigits("0");
      ParseIntOfDigits("0");
      assert DigitsValue("0") == 0;
    }
  }

  // ---------------------------------------------------------------------
  // Pagination values posted with the query

  datatype ValueError = ValueError

  /**
   * url_get_rows and url_get_page as written: the default when the value is
   * not isnumeric(), int() of it otherwise; int() rejects numeric characters
   * that are not decimal digits.
   */
  function UrlGetNumberAsWritten(posted: Option<string>, default: nat): (r: Result<int, ValueError>)
    ensures posted.None? ==> r == Ok(default)
    ensures r.Err? ==> posted.Some? && IsNumeric(posted.value) && !AllDigits(posted.value)
    ensures r.Ok? ==> r.value >= 0
  {
    DigitsValueOfNatToString(default);
    var s := if posted.Some? then posted.value else NatToString(default);
    if !IsNumeric(s) then Ok(default)
    else if AllDigits(s) then Ok(DigitsValue(s))
    else Err(ValueError)
  }

  /** What isnumeric() before int() evidently means: a value of decimal digits, otherwise the default. */
  function UrlGetNumber(posted: Option<string>, default: nat): (r: nat)
    ensures posted.None? ==> r == default
    ensures posted.Some? && |posted.value| > 0 && AllDigits(posted.value) ==> r == DigitsValue(posted.value)
    ensures posted.Some? && !(|posted.value| > 0 && AllDigits(posted.value)) ==> r == default
  {
    if posted.Some? && |posted.value| > 0 && AllDigits(posted.value) then DigitsValue(posted.value)
    else default
  }

  /** Wherever the written code answers, the corrected one gives the same number. */
  lemma UrlGetNumberAgrees(posted: Option<string>, default: nat)
    ensures UrlGetNumberAsWritten(posted, default).Ok? ==>
              UrlGetNumberAsWritten(posted, default).value == UrlGetNumber(posted, default)
  {
    if posted.None? {
      DigitsValueOfNatToString(default);
    }
  }

  /** The written code raises for '½': isnumeric() holds but int() fails; the corrected one gives the default. */
  lemma VulgarHalfRaises(default: nat)
    ensures UrlGetNumberAsWritten(Some("\U{BD}"), default) == Err(ValueError)
    ensures UrlGetNumber(Some("\U{BD}"), default) == default
  {
    assert !IsDigit("\U{BD}"[0]);
  }

  /** 'a' and 'b' fall back to page 1 and the default row count; '2' and '3' are read. */
  lemma UrlGetNumberExamples()
    ensures UrlGetNumber(Some("a"), 1) == 1 && UrlGetNumber(Some("b"), 1000) == 1000
    ensures UrlGetNumber(Some("2"), 1) == 2 && UrlGetNumber(Some("3"), 1000) == 3
  {
    assert !AllDigits("a") by { assert !IsDigit("a"[0]); }
    assert !AllDigits("b") by { assert !IsDigit("b"[0]); }
    assert AllDigits("2") && AllDigits("3");
  }

  // ---------------------------------------------------------------------
  // Query parameters

  /** The dict that `params` describes, entry by entry; None as soon as an entry has no ':'. */
  function ParamsFrom(entries: seq<string>): (r: Option<map<string, string>>)
  {
    if entries == [] then Some(map[])
    else
      var before := ParamsFrom(entries[..|entries| - 1]);
      var res := Split(entries[|entries| - 1], ':');
      if before.None? || |res| < 2 then None
      else Some(before.value[res[0] := res[1]])
  }

  /** get_params_from_request's answer: None for a missing `params` (the AttributeError is caught). */
  function ParamsOf(val: Option<string>): Option<map<string, string>>
  {
    if val.None? then None else ParamsFrom(Split(val.value, '|'))
  }

  /** get_params_from_request: the loop filling `d`, with any exception turned into None. */
  method GetParamsFromRequest(val: Option<string>) returns (r: Option<map<string, string>>)
    ensures r == ParamsOf(val)
  {
    if val.None? {
      return None;
    }
    var tuples := Split(val.value, '|');
    var d: map<string, string> := map[];
    var i := 0;
    while i < |tuples|
      invariant i <= |tuples|
      invariant ParamsFrom(tuples[..i]) == Some(d)
    {
      assert tuples[..i + 1][..i] == tuples[..i];
      var res := Split(tuples[i], ':');
      if |res| < 2 {
        NoneStaysNone(tuples, i + 1);
        return None;
      }
      d := d[res[0] := res[1]];
      i := i + 1;
    }
    assert tuples[..i] == tuples;
    r := Some(d);
  }

  /** Once an entry fails, the whole parse is None. */
  lemma {:induction false} NoneStaysNone(entries: seq<string>, k: nat)
    requires k <= |entries| && ParamsFrom(entries[..k]) == None
    ensures ParamsFrom(entries) == None
    decreases |entries| - k
  {
    if k < |entries| {
      assert entries[..k + 1][..k] == entries[..k];
      NoneStaysNone(entries, k + 1);
    } else {
      assert entries[..k] == entries;
    }
  }

  /** An entry `key:value` for a key and value without ':'. */
  function Entry(key: string, value: string): string
  {
    key + [':'] + value
  }

  lemma EntrySplits(key: string, value: string)
    requires ':' !in key && ':' !in value
    ensures Split(Entry(key, value), ':') == [key, value]
  {
    SplitAt(key, ':', value);
    SplitFree(value, ':');
  }

  /** The dict built from the pairs, later pairs winning. */
  function PairsMap(pairs: seq<(string, string)>): map<string, string>
  {
    if pairs == [] then map[]
    else PairsMap(pairs[..|pairs| - 1])[pairs[|pairs| - 1].0 := pairs[|pairs| - 1].1]
  }

  function Entries(pairs: seq<(string, string)>): (r: seq<string>)
    ensures |r| == |pairs|
  {
    seq(|pairs|, i requires 0 <= i < |pairs| => Entry(pairs[i].0, pairs[i].1))
  }

  /**
   * `k1:v1|k2:v2|...` built from keys and values free of ':' and '|' reads
   * back as those pairs, a repeated key keeping its last value.
   */
  lemma {:induction false} ParamsRoundTrip(pairs: seq<(string, string)>)
    requires |pairs| >= 1
    requires forall i :: 0 <= i < |pairs| ==>
               ':' !in pairs[i].0 && ':' !in pairs[i].1 && '|' !in pairs[i].0 && '|' !in pairs[i].1
    ensures ParamsOf(Some(Join(Entries(pairs), '|'))) == Some(PairsMap(pairs))
  {
    var es := Entries(pairs);
    forall i | 0 <= i < |es|
      ensures '|' !in es[i]
    {
    }
    SplitJoin(es, '|');
    ParamsFromEntries(pairs);
  }

  lemma {:induction false} ParamsFromEntries(pairs: seq<(string, string)>)
    requires forall i :: 0 <= i < |pairs| ==> ':' !in pairs[i].0 && ':' !in pairs[i].1
    ensures ParamsFrom(Entries(pairs)) == Some(PairsMap(pairs))
  {
    if pairs != [] {
      var n := |pairs| - 1;
      ParamsFromEntries(pairs[..n]);
      assert Entries(pairs)[..n] == Entries(pairs[..n]);
      EntrySplits(pairs[n].0, pairs[n].1);
    }
  }

  /** `swap:1234567890` gives {'swap': '1234567890'}; an entry without ':' gives None. */
  lemma ParamsExamples()
    ensures ParamsOf(Some("swap:1234567890")) == Some(map["swap" := "1234567890"])
    ensures ParamsOf(Some("swap")) == None
    ensures ParamsOf(None) == None
  {
    var pairs := [("swap", "1234567890")];
    ParamsRoundTrip(pairs);
    assert Join(Entries(pairs), '|') == "swap:1234567890";
    assert PairsMap(pairs) == map["swap" := "1234567890"];
    SplitFree("swap", '|');
    SplitFree("swap", ':');
  }

  // ---------------------------------------------------------------------
  // Materialised views

  /** materialized_view_name_for_query: `<user schema>.query_<id>_mview`. */
  function MaterializedViewName(sha: Digest.Sha256, ssoId: string, queryId: nat): (r: string)
    ensures var schema := CoreCredentials.RoleOrSchema(CoreCredentials.SuffixForUser(sha, ssoId));
            StartsWith(r, schema + ".query_") && EndsWith(r, "_mview")
  {
    CoreCredentials.RoleOrSchema(CoreCredentials.SuffixForUser(sha, ssoId)) + ".query_" + NatToString(queryId) + "_mview"
  }

  /** Different queries, or users with different short hashes, never share a view. */
  lemma MaterializedViewNameInjective(sha: Digest.Sha256, a: string, b: string, p: nat, q: nat)
    requires MaterializedViewName(sha, a, p) == MaterializedViewName(sha, b, q)
    ensures p == q && sha(a)[..8] == sha(b)[..8]
  {
    var x := MaterializedViewName(sha, a, p);
    var y := MaterializedViewName(sha, b, q);
    var sa := CoreCredentials.SuffixForUser(sha, a);
    var sb := CoreCredentials.SuffixForUser(sha, b);
    var na := NatToString(p);
    var nb := NatToString(q);
    assert x == "_user_" + sa + ".query_" + na + "_mview";
    assert y == "_user_" + sb + ".query_" + nb + "_mview";
    assert x[6..14] == sa && y[6..14] == sb;
    assert x[21..|x| - 6] == na && y[21..|y| - 6] == nb;
    NatToStringInjective(p, q);
  }

  /** The test user's view for query 1. */
  lemma MaterializedViewNameExample(sha: Digest.Sha256, ssoId: string)
    requires sha(ssoId)[..8] == "12b9377c"
    ensures MaterializedViewName(sha, ssoId, 1) == "_user_12b9377c.query_1_mview"
  {
  }

  // ---------------------------------------------------------------------
  // Running a query

  /** The statements execute_query sends through the cursor. */
  datatype CursorCmd =
    | SetStatementTimeout(ms: int)
    | DropViewIfExists(view: string)
    | CreateView(view: string, sql: string)
    | DeclareCursor(cursor: string, view: string)
    | Move(offset: int, cursor: string)
    | Fetch(limit: int, cursor: string)
    | Close(cursor: string)
    | CountRows(view: string)

  /** The query's SQL with trailing whitespace, then trailing ';', removed. */
  function CleanSql(sql: string): (r: string)
    ensures StartsWith(sql, r)
    ensures r == [] || r[|r| - 1] != ';'
  {
    RStripChar(RStrip(sql), ';')
  }

  /** The statements of the try block, in order; MOVE only past the first page. */
  function FetchCommands(view: string, sql: string, cursor: string, page: int, limit: int, timeout: int): seq<CursorCmd>
  {
    [SetStatementTimeout(timeout), DropViewIfExists(view), CreateView(view, CleanSql(sql)), DeclareCursor(cursor, view)]
    + (if page > 1 then [Move((page - 1) * limit, cursor)] else [])
    + [Fetch(limit, cursor)]
  }

  /** Every statement of a successful run. */
  function QueryCommands(view: string, sql: string, cursor: string, page: int, limit: int, timeout: int): seq<CursorCmd>
  {
    FetchCommands(view, sql, cursor, page, limit, timeout) + [Close(cursor), CountRows(view)]
  }

  /**
   * The run's shape: seven statements, or eight with the MOVE that skips the
   * first (page-1)*limit rows; the view is dropped before it is created, the
   * cursor is closed before the rows are counted.
   */
  lemma QueryCommandsShape(view: string, sql: string, cursor: string, page: int, limit: int, timeout: int)
    ensures var cs := QueryCommands(view, sql, cursor, page, limit, timeout);
      |cs| == (if page > 1 then 8 else 7)
      && cs[0] == SetStatementTimeout(timeout) && cs[1] == DropViewIfExists(view)
      && cs[2] == CreateView(view, CleanSql(sql)) && cs[3] == DeclareCursor(cursor, view)
      && (page > 1 <==> Move((page - 1) * limit, cursor) in cs)
      && cs[|cs| - 3] == Fetch(limit, cursor) && cs[|cs| - 2] == Close(cursor) && cs[|cs| - 1] == CountRows(view)
  {
    var cs := QueryCommands(view, sql, cursor, page, limit, timeout);
    if page <= 1 {
      assert forall i :: 0 <= i < |cs| ==> !cs[i].Move?;
    }
  }

  /** The test's statements for `select * from foo`, page 2 of 100 rows. */
  lemma QueryCommandsExample(view: string, cursor: string)
    ensures QueryCommands(view, "select * from foo", cursor, 2, 100, 10000)
      == [SetStatementTimeout(10000), DropViewIfExists(view), CreateView(view, "select * from foo"),
          DeclareCursor(cursor, view), Move(100, cursor), Fetch(100, cursor), Close(cursor), CountRows(view)]
  {
    assert RStrip("select * from foo") == "select * from foo";
    assert RStripChar("select * from foo", ';') == "select * from foo";
  }

  /** A ColumnHeader: its title stripped. */
  datatype ColumnHeader = ColumnHeader(title: string)

  function MakeHeader(title: string): (h: ColumnHeader)
    ensures h.title == [] || (!IsSpace(h.title[0]) && !IsSpace(h.title[|h.title| - 1]))
  {
    ColumnHeader(Strip(title))
  }

  /** A cell of a fetched row, as text. */
  type Row = seq<string>

  datatype QueryResult = QueryResult(
    sql: string, page: int, limit: int, timeout: int, duration: int,
    description: seq<string>, data: seq<Row>, rowCount: int)

  /** QueryResult.headers: one per described column, or the single header '--' when nothing is described. */
  function Headers(r: QueryResult): (hs: seq<ColumnHeader>)
    ensures |hs| == (if r.description == [] then 1 else |r.description|)
    ensures r.description == [] ==> hs == [ColumnHeader("--")]
    ensures forall i :: 0 <= i < |hs| ==> hs[i].title == [] || (!IsSpace(hs[i].title[0]) && !IsSpace(hs[i].title[|hs[i].title| - 1]))
  {
    if r.description == [] then
      assert Strip("--") == "--" by { StripNoSpace("--"); }
      [ColumnHeader("--")]
    else seq(|r.description|, i requires 0 <= i < |r.description| => MakeHeader(r.description[i]))
  }

  /** Python's `row[ix]`: negative indexes count from the end; out of range is IndexError (None). */
  function PyIndex(row: Row, ix: int): (r: Option<string>)
    ensures 0 <= ix < |row| ==> r == Some(row[ix])
    ensures -|row| <= ix < 0 ==> r == Some(row[|row| + ix])
    ensures r.None? <==> !(-|row| <= ix < |row|)
  {
    if 0 <= ix < |row| then Some(row[ix])
    else if -|row| <= ix < 0 then Some(row[|row| + ix])
    else None
  }

  /** QueryResult.column: the ix-th cell of every row, or IndexError if some row is too short. */
  function Column(data: seq<Row>, ix: int): (r: Option<seq<string>>)
    ensures r.Some? <==> forall i :: 0 <= i < |data| ==> PyIndex(data[i], ix).Some?
    ensures r.Some? ==> |r.value| == |data| && forall i :: 0 <= i < |data| ==> Some(r.value[i]) == PyIndex(data[i], ix)
  {
    if data == [] then Some([])
    else
      var init := data[..|data| - 1];
      var before := Column(init, ix);
      var cell := PyIndex(data[|data| - 1], ix);
      assert forall i :: 0 <= i < |init| ==> init[i] == data[i];
      if before.None? || cell.None? then None
      else Some(before.value + [cell.value])
  }

  /** A QueryLog row. */
  datatype QueryLog = QueryLog(sql: string, queryId: nat, runByUser: nat, connection: string, duration: int)

  /** The cursor of one Data Explorer connection and the QueryLog table. */
  class ExplorerSession {
    var issued: seq<CursorCmd>
    var logs: seq<QueryLog>

    constructor ()
      ensures issued == [] && logs == []
    {
      issued := [];
      logs := [];
    }

    /** Send the statements one by one; the one at `failAt`, if any, raises after being sent. */
    method Issue(steps: seq<CursorCmd>, failAt: Option<nat>) returns (failed: bool)
      modifies this
      ensures failed <==> failAt.Some? && failAt.value < |steps|
      ensures failed ==> issued == old(issued) + steps[..failAt.value + 1]
      ensures !failed ==> issued == old(issued) + steps
      ensures logs == old(logs)
    {
      var i := 0;
      while i < |steps|
        invariant i <= |steps|
        invariant issued == old(issued) + steps[..i]
        invariant logs == old(logs)
        invariant failAt.Some? ==> failAt.value >= i
      {
        assert steps[..i + 1] == steps[..i] + [steps[i]];
        issued := issued + [steps[i]];
        if failAt == Some(i) {
          return true;
        }
        i := i + 1;
      }
      assert steps[..i] == steps;
      failed := false;
    }

    /**
     * execute_query: the statements in order; a DatabaseError raised by the
     * statement at `failAt` of the try block propagates, with nothing logged.
     * Otherwise the rows are read, the cursor closed, the rows counted, and a
     * QueryLog created exactly when `logQuery` is set. `cursorName`,
     * `duration`, the fetched rows and the count are the database's and the
     * clock's answers.
     */
    method ExecuteQuery(sql: string, queryId: nat, user: nat, connection: string, sha: Digest.Sha256, ssoId: string,
                        page: int, limit: int, timeout: int, logQuery: bool, cursorName: string,
                        failAt: Option<nat>, duration: int, description: seq<string>, fetched: seq<Row>,
                        rowCount: int)
      returns (r: Result<QueryResult, string>)
      modifies this
      ensures var view := MaterializedViewName(sha, ssoId, queryId);
        var fetch := FetchCommands(view, sql, cursorName, page, limit, timeout);
        if failAt.Some? && failAt.value < |fetch| then
          r.Err? && issued == old(issued) + fetch[..failAt.value + 1] && logs == old(logs)
        else
          r == Ok(QueryResult(sql, page, limit, timeout, duration, description, fetched, rowCount))
          && issued == old(issued) + QueryCommands(view, sql, cursorName, page, limit, timeout)
          && logs == old(logs) + (if logQuery then [QueryLog(sql, queryId, user, connection, duration)] else [])
    {
      var view := MaterializedViewName(sha, ssoId, queryId);
      var failed := Issue(FetchCommands(view, sql, cursorName, page, limit, timeout), failAt);
      if failed {
        return Err("DatabaseError");
      }
      issued := issued + [Close(cursorName)];
      issued := issued + [CountRows(view)];
      if logQuery {
        logs := logs + [QueryLog(sql, queryId, user, connection, duration)];
      }
      r := Ok(QueryResult(sql, page, limit, timeout, duration, description, fetched, rowCount));
    }
  }
}
