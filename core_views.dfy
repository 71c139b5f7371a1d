/**
 * The core pages: the table download behind the data explorer's links,
 * the load balancer's health check and the public error page.
 */
module CoreViews {
  import opened Wrappers
  import opened DatasetModels
  import CoreCredentials

  datatype TableResponse =
    | NotAllowed(allowed: seq<string>)
    | Forbidden
    | NotFound
    | TableStream(userEmail: string, database: string, schema: string, table: string)

  /**
   * table_data_view's answer: anything but GET is not allowed, then a user
   * without access to the table is refused, then a name that is neither a
   * view nor a table is not found, and only then is the table streamed.
   */
  function TableDataDecision(httpMethod: string, c: Catalogue, user: User, database: string, schema: string,
                             table: string, viewExists: bool, tableExists: bool): (r: TableResponse)
    ensures httpMethod != "GET" <==> r == NotAllowed(["GET"])
    ensures r == Forbidden <==> httpMethod == "GET" && !CoreCredentials.CanAccessSchemaTable(c, user.id, database, schema, table)
    ensures r.TableStream? <==> httpMethod == "GET" && CoreCredentials.CanAccessSchemaTable(c, user.id, database, schema, table)
                                && (viewExists || tableExists)
    ensures r.TableStream? ==> r == TableStream(user.email, database, schema, table)
  {
    if httpMethod != "GET" then NotAllowed(["GET"])
    else if !CoreCredentials.CanAccessSchemaTable(c, user.id, database, schema, table) then Forbidden
    else if !(viewExists || tableExists) then NotFound
    else TableStream(user.email, database, schema, table)
  }

  /** A download is refused as not found only for an accessible name that is neither view nor table. */
  lemma NotFoundOnlyWhenMissing(httpMethod: string, c: Catalogue, user: User, database: string, schema: string,
                                table: string, viewExists: bool, tableExists: bool)
    ensures TableDataDecision(httpMethod, c, user, database, schema, table, viewExists, tableExists) == NotFound
            <==> httpMethod == "GET" && CoreCredentials.CanAccessSchemaTable(c, user.id, database, schema, table)
                 && !viewExists && !tableExists
  {
  }

  /** The event log the download writes to. */
  class EventLog {
    var events: seq<Event>

    constructor ()
      ensures events == []
    {
      events := [];
    }

    /**
     * table_data_view: every attempt is logged as a table download before
     * anything is checked, refused ones included.
     */
    method TableDataView(httpMethod: string, c: Catalogue, user: User, database: string, schema: string,
                         table: string, viewExists: bool, tableExists: bool)
      returns (r: TableResponse)
      modifies this
      ensures events == old(events) + [Event(user.id, TableDataDownloadEvent, "")]
      ensures r == TableDataDecision(httpMethod, c, user, database, schema, table, viewExists, tableExists)
    {
      events := events + [Event(user.id, TableDataDownloadEvent, "")];
      if httpMethod != "GET" {
        r := NotAllowed(["GET"]);
      } else if !CoreCredentials.CanAccessSchemaTable(c, user.id, database, schema, table) {
        r := Forbidden;
      } else if !(viewExists || tableExists) {
        r := NotFound;
      } else {
        r := TableStream(user.email, database, schema, table);
      }
    }
  }

  /** A rendered page: its status, its body or template, and the message shown. */
  datatype Page = Page(status: int, content: string, message: Option<string>)

  /** healthcheck_view: always 'OK', whatever the request. */
  function Healthcheck(): (r: Page)
    ensures r.status == 200 && r.content == "OK"
  {
    Page(200, "OK", None)
  }

  /** public_error_500_html_view: status 500 with the request's optional message. */
  function Error500(query: map<string, string>): (r: Page)
    ensures r.status == 500 && r.content == "error_500.html"
    ensures r.message.Some? <==> "message" in query
    ensures r.message.Some? ==> r.message.value == query["message"]
  {
    Page(500, "error_500.html", if "message" in query then Some(query["message"]) else None)
  }
}
