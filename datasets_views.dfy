/**
 * The dataset pages: the search listing, the detail page's lookup and
 * reference-data preview, and the downloads (reference data as JSON or
 * CSV, source links, source views and custom queries), which are gated,
 * logged and counted.
 */
module DatasetsViews {
  import opened Wrappers
  import opened DatasetModels
  import Collections
  import Text
  import DatasetsUtils

  // ---------------------------------------------------------------------
  // filter_datasets and find_datasets
  // ---------------------------------------------------------------------

  /** Which table a listing is drawn from. */
  datatype Kind = DataSetKind | ReferenceKind

  /**
   * A row of the listing: a reference dataset's type is the reference
   * type. `sourceTags` are the ids of the row's source tags.
   */
  datatype Listing = Listing(id: string, name: string, slug: string, dtype: int, published: bool,
                             sourceTags: set<nat>)

  /** One disjunct of the visibility filter the listing accumulates with `|=`. */
  datatype Clause = PublishedOnly | AnyUnpublished | UnpublishedOfType(dtype: int)

  predicate ClauseAdmits(c: Clause, row: Listing)
  {
    match c
    case PublishedOnly => row.published
    case AnyUnpublished => !row.published
    case UnpublishedOfType(t) => !row.published && row.dtype == t
  }

  predicate Admits(clauses: seq<Clause>, row: Listing)
  {
    exists i :: 0 <= i < |clauses| && ClauseAdmits(clauses[i], row)
  }

  /** The rows a user may see in the listing: published ones, and unpublished ones of a type they manage. */
  predicate Visible(kind: Kind, user: User, use: set<int>, row: Listing)
  {
    row.published
    || (kind == ReferenceKind && HasPerm(user, DatasetsUtils.ManageReference))
    || (kind == DataSetKind && row.dtype == MasterType && HasPerm(user, DatasetsUtils.ManageMaster)
        && (use == {} || MasterType in use))
    || (kind == DataSetKind && row.dtype == DatacutType && HasPerm(user, DatasetsUtils.ManageDatacut)
        && (use == {} || DatacutType in use))
  }

  /**
   * The visibility filter: published rows, then, for a user holding the
   * manage permission, all unpublished reference datasets, or the
   * unpublished master and data-cut datasets when no use is asked for or
   * their type is among the uses.
   */
  function VisibilityClauses(kind: Kind, user: User, use: set<int>): (r: seq<Clause>)
    ensures forall row :: Admits(r, row) <==> Visible(kind, user, use, row)
  {
    var base := [PublishedOnly];
    assert base == [] + [PublishedOnly];
    AdmitsAppend([], PublishedOnly);
    AdmitsAppend(base, AnyUnpublished);
    if kind == ReferenceKind then
      if HasPerm(user, DatasetsUtils.ManageReference) then base + [AnyUnpublished] else base
    else
      var withMaster :=
        if HasPerm(user, DatasetsUtils.ManageMaster) && (use == {} || MasterType in use)
        then base + [UnpublishedOfType(MasterType)] else base;
      AdmitsAppend(base, UnpublishedOfType(MasterType));
      AdmitsAppend(withMaster, UnpublishedOfType(DatacutType));
      if HasPerm(user, DatasetsUtils.ManageDatacut) && (use == {} || DatacutType in use)
      then withMaster + [UnpublishedOfType(DatacutType)] else withMaster
  }

  /** A clause added with `|=` admits what it admits on top of the earlier ones. */
  lemma AdmitsAppend(clauses: seq<Clause>, c: Clause)
    ensures forall row :: Admits(clauses + [c], row) <==> Admits(clauses, row) || ClauseAdmits(c, row)
  {
    var a := clauses + [c];
    forall row
      ensures Admits(a, row) <==> Admits(clauses, row) || ClauseAdmits(c, row)
    {
      if Admits(clauses, row) {
        var i :| 0 <= i < |clauses| && ClauseAdmits(clauses[i], row);
        assert a[i] == clauses[i];
      }
      if ClauseAdmits(c, row) {
        assert a[|clauses|] == c;
      }
      if Admits(a, row) {
        var i :| 0 <= i < |a| && ClauseAdmits(a[i], row);
        if i < |clauses| {
          assert a[i] == clauses[i];
        }
      }
    }
  }

  /**
   * The search's narrowing filters, each applied only when given: the
   * full-text match (`matches` stands for PostgreSQL's search), a shared
   * source tag, and a type among the uses.
   */
  predicate Wanted(query: string, source: set<nat>, use: set<int>, matches: (Listing, string) -> bool, row: Listing)
  {
    (query == "" || matches(row, query))
    && (source == {} || row.sourceTags * source != {})
    && (use == {} || row.dtype in use)
  }

  /** filter_datasets over one table's live rows. */
  function FilterDatasets(rows: seq<Listing>, kind: Kind, query: string, source: set<nat>, use: set<int>,
                          user: User, matches: (Listing, string) -> bool): (r: seq<Listing>)
    ensures forall x :: x in r <==> x in rows && Visible(kind, user, use, x) && Wanted(query, source, use, matches, x)
  {
    var clauses := VisibilityClauses(kind, user, use);
    Collections.Filter(rows, (x: Listing) => Admits(clauses, x) && Wanted(query, source, use, matches, x))
  }

  datatype SearchPage = SearchRedirect | SearchResults(listings: seq<Listing>)

  /**
   * find_datasets: an invalid form redirects to a clean search; otherwise
   * the datasets are listed, with the reference datasets (filtered without
   * the uses) merged in when no use is asked for or the reference type is
   * one of them.
   */
  function FindDatasets(formValid: bool, datasets: seq<Listing>, references: seq<Listing>, query: string,
                        source: set<nat>, use: set<int>, user: User, matches: (Listing, string) -> bool)
    : (r: SearchPage)
    ensures !formValid <==> r == SearchRedirect
    ensures formValid ==>
              forall x :: x in r.listings <==>
                (x in datasets && Visible(DataSetKind, user, use, x) && Wanted(query, source, use, matches, x))
                || ((use == {} || ReferenceType in use) && x in references
                    && Visible(ReferenceKind, user, {}, x) && Wanted(query, source, {}, matches, x))
  {
    if !formValid then SearchRedirect
    else
      var found := FilterDatasets(datasets, DataSetKind, query, source, use, user, matches);
      if use == {} || ReferenceType in use then
        SearchResults(found + FilterDatasets(references, ReferenceKind, query, source, {}, user, matches))
      else SearchResults(found)
  }

  /** Any user finds a published live row that the search's filters accept. */
  lemma PublishedAlwaysListed(rows: seq<Listing>, kind: Kind, query: string, source: set<nat>, use: set<int>,
                              user: User, matches: (Listing, string) -> bool, x: Listing)
    requires x in rows && x.published && Wanted(query, source, use, matches, x)
    ensures x in FilterDatasets(rows, kind, query, source, use, user, matches)
  {
  }

  /**
   * An unpublished dataset is listed only to a holder of the manage
   * permission for its type, and only when the uses do not rule its type
   * out.
   */
  lemma UnpublishedNeedsManager(rows: seq<Listing>, query: string, source: set<nat>, use: set<int>,
                                user: User, matches: (Listing, string) -> bool, x: Listing)
    requires x in FilterDatasets(rows, DataSetKind, query, source, use, user, matches) && !x.published
    ensures x.dtype == MasterType || x.dtype == DatacutType
    ensures HasPerm(user, DatasetsUtils.ManagePermission(x.dtype).value)
    ensures use == {} || x.dtype in use
  {
  }

  /** With no query, source or use the listing is exactly the visible rows. */
  lemma EmptySearchListsVisible(rows: seq<Listing>, kind: Kind, user: User, matches: (Listing, string) -> bool, x: Listing)
    ensures x in FilterDatasets(rows, kind, "", {}, {}, user, matches) <==> x in rows && Visible(kind, user, {}, x)
  {
  }

  // ---------------------------------------------------------------------
  // DatasetDetailView
  // ---------------------------------------------------------------------

  datatype Detail = ReferenceDetail(reference: ReferenceDataset) | DataSetDetail(dataset: DataSet)

  /**
   * get_object: a live reference dataset with the uuid, else a live
   * dataset with the id; an unpublished one is shown only to a holder of
   * its type's manage permission. Http404 otherwise; a dataset of a type
   * without a permission raises.
   */
  function DetailObject(c: Catalogue, id: string, user: User): (r: Result<Detail, string>)
    ensures id in c.references && !c.references[id].deleted ==>
              r == (if c.references[id].published || HasPerm(user, DatasetsUtils.ManageReference)
                    then Ok(ReferenceDetail(c.references[id])) else Err("Http404"))
    ensures !(id in c.references && !c.references[id].deleted) ==>
              match DatasetsUtils.FindDataset(c, id, user)
              case Ok(d) => r == Ok(DataSetDetail(d))
              case Err(e) => r == Err(e)
  {
    if id in c.references && !c.references[id].deleted then
      var ref := c.references[id];
      if !ref.published && !HasPerm(user, DatasetsUtils.ManageReference) then Err("Http404")
      else Ok(ReferenceDetail(ref))
    else if id !in c.datasets || c.datasets[id].deleted then Err("Http404")
    else
      var d := c.datasets[id];
      match DatasetsUtils.ManagesType(user, d.dtype)
      case Err(e) => Err(e)
      case Ok(manages) =>
        if !d.published && !manages then Err("Http404") else Ok(DataSetDetail(d))
  }

  /** A live reference dataset hides a dataset with the same id. */
  lemma ReferenceLookedUpFirst(c: Catalogue, id: string, user: User)
    requires id in c.references && !c.references[id].deleted && c.references[id].published
    ensures DetailObject(c, id, user) == Ok(ReferenceDetail(c.references[id]))
  {
  }

  /**
   * The reference data preview: the number of records, how many are shown
   * (the smaller of that number and the configured preview size), and
   * those first records.
   */
  function Preview<T>(records: seq<T>, previewRows: nat): (r: (nat, nat, seq<T>))
    ensures r.1 == |records|
    ensures r.0 <= |records| && r.0 <= previewRows && (r.0 == |records| || r.0 == previewRows)
    ensures r.2 == records[..r.0]
  {
    var limit := if |records| < previewRows then |records| else previewRows;
    (limit, |records|, records[..limit])
  }

  // ---------------------------------------------------------------------
  // Flattening reference records for download
  // ---------------------------------------------------------------------

  /** A record's value in a column: null, a plain value, or the linked record's identifier and display name. */
  datatype FieldValue = Null | Plain(text: string) | Link(identifier: string, displayName: string)

  /** A value as it is written to the download. */
  datatype Out = ONull | OText(text: string)

  /**
   * A field of the reference dataset, with the two keys a foreign key
   * expands into.
   */
  datatype RefField = RefField(name: string, column: string, isLink: bool, identifierKey: string, displayKey: string)

  type Record = map<string, FieldValue>

  function ValueOf(record: Record, column: string): FieldValue
  {
    if column in record then record[column] else Null
  }

  function AsOut(v: FieldValue): Out
  {
    match v
    case Null => ONull
    case Plain(t) => OText(t)
    case Link(i, _) => OText(i)
  }

  /** The dict entries one field contributes. */
  function WriteField(m: map<string, Out>, record: Record, f: RefField): map<string, Out>
  {
    var v := ValueOf(record, f.column);
    if f.isLink then
      if v.Link? then m[f.identifierKey := OText(v.identifier)][f.displayKey := OText(v.displayName)]
      else m[f.identifierKey := ONull][f.displayKey := ONull]
    else m[f.name := AsOut(v)]
  }

  function Keys(f: RefField): set<string>
  {
    if f.isLink then {f.identifierKey, f.displayKey} else {f.name}
  }

  /** One record's download row: the fields written in order into a dict. */
  function Flatten(record: Record, fields: seq<RefField>): (r: map<string, Out>)
    ensures forall k :: k in r <==> exists i :: 0 <= i < |fields| && k in Keys(fields[i])
  {
    if fields == [] then map[]
    else
      var init := fields[..|fields| - 1];
      assert forall i :: 0 <= i < |init| ==> init[i] == fields[i];
      WriteField(Flatten(record, init), record, fields[|fields| - 1])
  }

  /** Fields whose download keys do not clash, and a foreign key's two keys differ. */
  predicate KeysSeparate(fields: seq<RefField>)
  {
    (forall i, j :: 0 <= i < j < |fields| ==> Keys(fields[i]) * Keys(fields[j]) == {})
    && (forall i :: 0 <= i < |fields| && fields[i].isLink ==> fields[i].identifierKey != fields[i].displayKey)
  }

  /**
   * What each field writes: a plain field its value under its name; a
   * foreign key the linked record's identifier and display name under its
   * two keys, both null when there is no linked record.
   */
  lemma {:induction false} FlattenField(record: Record, fields: seq<RefField>, i: nat)
    requires KeysSeparate(fields) && i < |fields|
    ensures var f := fields[i];
            var v := ValueOf(record, f.column);
            var r := Flatten(record, fields);
            if f.isLink then
              && r[f.identifierKey] == (if v.Link? then OText(v.identifier) else ONull)
              && r[f.displayKey] == (if v.Link? then OText(v.displayName) else ONull)
            else r[f.name] == AsOut(v)
  {
    var init := fields[..|fields| - 1];
    var last := fields[|fields| - 1];
    assert forall a :: 0 <= a < |init| ==> init[a] == fields[a];
    var m := Flatten(record, init);
    assert Flatten(record, fields) == WriteField(m, record, last);
    if i == |fields| - 1 {
      WriteFieldOwn(m, record, last);
    } else {
      assert KeysSeparate(init);
      FlattenField(record, init, i);
      assert Keys(fields[i]) * Keys(last) == {};
      forall k | k in Keys(fields[i])
        ensures k in m && WriteField(m, record, last)[k] == m[k]
      {
        assert k in Keys(init[i]);
        assert k !in Keys(fields[i]) * Keys(last);
        WriteFieldElsewhere(m, record, last, k);
      }
    }
  }

  /** The entries a field writes under its own keys. */
  lemma WriteFieldOwn(m: map<string, Out>, record: Record, f: RefField)
    requires f.isLink ==> f.identifierKey != f.displayKey
    ensures var v := ValueOf(record, f.column);
            var r := WriteField(m, record, f);
            if f.isLink then
              && r[f.identifierKey] == (if v.Link? then OText(v.identifier) else ONull)
              && r[f.displayKey] == (if v.Link? then OText(v.displayName) else ONull)
            else r[f.name] == AsOut(v)
  {
  }

  /** A field leaves the entries under other keys as they were. */
  lemma WriteFieldElsewhere(m: map<string, Out>, record: Record, f: RefField, k: string)
    requires k in m && k !in Keys(f)
    ensures k in WriteField(m, record, f) && WriteField(m, record, f)[k] == m[k]
  {
  }

  /** The nested loops building the download rows, one dict per record. */
  method FlattenRecords(records: seq<Record>, fields: seq<RefField>) returns (rows: seq<map<string, Out>>)
    ensures |rows| == |records|
    ensures forall i :: 0 <= i < |records| ==> rows[i] == Flatten(records[i], fields)
  {
    rows := [];
    for n := 0 to |records|
      invariant |rows| == n
      invariant forall i :: 0 <= i < n ==> rows[i] == Flatten(records[i], fields)
    {
      var data: map<string, Out> := map[];
      for k := 0 to |fields|
        invariant data == Flatten(records[n], fields[..k])
      {
        assert fields[..k + 1][..k] == fields[..k];
        data := WriteField(data, records[n], fields[k]);
      }
      assert fields[..|fields|] == fields;
      rows := rows + [data];
    }
  }

  // ---------------------------------------------------------------------
  // Downloads
  // ---------------------------------------------------------------------

  datatype SourceLink = SourceLink(id: nat, dataset: string, external: bool, url: string)
  datatype SourceView = SourceView(id: nat, dataset: string, database: string, schema: string, view: string)
  datatype CustomQuery = CustomQuery(id: nat, dataset: string, database: string, query: string, reviewed: bool,
                                     filename: string)

  /** What the object store answered: the object's content type, or an error with or without a status. */
  datatype S3Answer = S3Object(contentType: string) | S3Error(status: Option<int>)

  datatype Response =
    | NotFound
    | Forbidden
    | Crash(exception: string)
    | Redirect(url: string)
    | Attachment(filename: string, contentType: string, rows: seq<map<string, Out>>)
    | StatusOnly(status: int)
    | ServerError
    | FileStream(contentType: string, filename: string)
    | TableStream(database: string, schema: string, table: string)
    | QueryStream(database: string, query: string, filename: string)

  /** The answer of a source link that lives in the uploads bucket. */
  function StoredFileResponse(answer: S3Answer, url: string): (r: Response)
    ensures answer.S3Object? ==> r == FileStream(answer.contentType, Text.BaseName(url))
    ensures answer.S3Error? && answer.status.Some? ==> r == StatusOnly(answer.status.value)
    ensures answer == S3Error(None) ==> r == ServerError
  {
    match answer
    case S3Object(ct) => FileStream(ct, Text.BaseName(url))
    case S3Error(Some(code)) => StatusOnly(code)
    case S3Error(None) => ServerError
  }

  /** The catalogue after one more download of a dataset. */
  function CountDataset(c: Catalogue, id: string): (r: Catalogue)
    requires id in c.datasets
    ensures r.datasets.Keys == c.datasets.Keys && r.references == c.references
    ensures r.datasets[id] == c.datasets[id].(numberOfDownloads := c.datasets[id].numberOfDownloads + 1)
    ensures forall k :: k in c.datasets && k != id ==> r.datasets[k] == c.datasets[k]
    ensures r.sourceTables == c.sourceTables && r.userPerms == c.userPerms && r.templatePerms == c.templatePerms
  {
    var d := c.datasets[id];
    c.(datasets := c.datasets[id := d.(numberOfDownloads := d.numberOfDownloads + 1)])
  }

  /** The catalogue after one more download of a reference dataset. */
  function CountReference(c: Catalogue, uuid: string): (r: Catalogue)
    requires uuid in c.references
    ensures r.references.Keys == c.references.Keys && r.datasets == c.datasets
    ensures r.references[uuid] == c.references[uuid].(numberOfDownloads := c.references[uuid].numberOfDownloads + 1)
    ensures forall k :: k in c.references && k != uuid ==> r.references[k] == c.references[k]
    ensures r.sourceTables == c.sourceTables && r.userPerms == c.userPerms && r.templatePerms == c.templatePerms
  {
    var ref := c.references[uuid];
    c.(references := c.references[uuid := ref.(numberOfDownloads := ref.numberOfDownloads + 1)])
  }

  /** The first row with the id that belongs to the dataset: get_object_or_404(..., id=..., dataset=...). */
  function LinkOf(links: seq<SourceLink>, id: nat, dataset: string): (r: Option<SourceLink>)
    ensures r.Some? ==> r.value in links && r.value.id == id && r.value.dataset == dataset
    ensures r.None? <==> forall l :: l in links ==> !(l.id == id && l.dataset == dataset)
  {
    if links == [] then None
    else if links[0].id == id && links[0].dataset == dataset then Some(links[0])
    else LinkOf(links[1..], id, dataset)
  }

  function ViewOf(views: seq<SourceView>, id: nat, dataset: string): (r: Option<SourceView>)
    ensures r.Some? ==> r.value in views && r.value.id == id && r.value.dataset == dataset
    ensures r.None? <==> forall v :: v in views ==> !(v.id == id && v.dataset == dataset)
  {
    if views == [] then None
    else if views[0].id == id && views[0].dataset == dataset then Some(views[0])
    else ViewOf(views[1..], id, dataset)
  }

  function QueryOf(queries: seq<CustomQuery>, id: nat, dataset: string): (r: Option<CustomQuery>)
    ensures r.Some? ==> r.value in queries && r.value.id == id && r.value.dataset == dataset
    ensures r.None? <==> forall q :: q in queries ==> !(q.id == id && q.dataset == dataset)
  {
    if queries == [] then None
    else if queries[0].id == id && queries[0].dataset == dataset then Some(queries[0])
    else QueryOf(queries[1..], id, dataset)
  }

  /** The response a failed find_dataset gives: the 404, or the exception it raised. */
  function LookupFailure(e: string): Response
  {
    if e == "Http404" then NotFound else Crash(e)
  }

  /** The reference download's file name: slug, published version and format. */
  function AttachmentName(ref: ReferenceDataset, format: string): (r: string)
    ensures Text.StartsWith(r, ref.slug + "-") && Text.EndsWith(r, "." + format)
  {
    var r := ref.slug + "-" + ref.publishedVersion + "." + format;
    assert r[|r| - |"." + format|..] == "." + format;
    r
  }

  function ContentTypeOf(format: string): string
  {
    if format == "json" then "application/json" else "text/csv"
  }

  /**
   * The catalogue, the data links of its datasets and the event log, as
   * the download views read and change them.
   */
  class DatasetsSite {
    var catalogue: Catalogue
    var sourceLinks: seq<SourceLink>
    var sourceViews: seq<SourceView>
    var queries: seq<CustomQuery>
    var events: seq<Event>

    constructor (catalogue: Catalogue, sourceLinks: seq<SourceLink>, sourceViews: seq<SourceView>,
                 queries: seq<CustomQuery>)
      ensures this.catalogue == catalogue && this.sourceLinks == sourceLinks && this.sourceViews == sourceViews
      ensures this.queries == queries && events == []
    {
      this.catalogue := catalogue;
      this.sourceLinks := sourceLinks;
      this.sourceViews := sourceViews;
      this.queries := queries;
      events := [];
    }

    /**
     * ReferenceDatasetDownloadView: the format is checked first, then the
     * live reference dataset is looked up (published ones only, unless the
     * user is a superuser); a download is logged and counted once, and
     * answers the flattened records under the file name slug-version.format.
     */
    method ReferenceDownload(uuid: string, format: string, user: User, records: seq<Record>, fields: seq<RefField>)
      returns (resp: Response)
      modifies this
      ensures sourceLinks == old(sourceLinks) && sourceViews == old(sourceViews) && queries == old(queries)
      ensures var c := old(catalogue);
              if format != "json" && format != "csv" then
                resp == NotFound && catalogue == c && events == old(events)
              else if uuid !in c.references || c.references[uuid].deleted
                      || (!c.references[uuid].published && !user.isSuperuser) then
                resp == NotFound && catalogue == c && events == old(events)
              else
                && events == old(events) + [Event(user.id, ReferenceDatasetDownloadEvent, uuid)]
                && catalogue == CountReference(c, uuid)
                && resp.Attachment?
                && resp.filename == AttachmentName(c.references[uuid], format)
                && resp.contentType == ContentTypeOf(format)
                && |resp.rows| == |records|
                && forall i :: 0 <= i < |records| ==> resp.rows[i] == Flatten(records[i], fields)
    {
      if format != "json" && format != "csv" {
        return NotFound;
      }
      if uuid !in catalogue.references || catalogue.references[uuid].deleted
         || (!catalogue.references[uuid].published && !user.isSuperuser) {
        return NotFound;
      }
      var ref := catalogue.references[uuid];
      var rows := FlattenRecords(records, fields);
      events := events + [Event(user.id, ReferenceDatasetDownloadEvent, uuid)];
      catalogue := CountReference(catalogue, uuid);
      resp := Attachment(AttachmentName(ref, format), ContentTypeOf(format), rows);
    }

    /**
     * SourceLinkDownloadView: find_dataset, then access (403), then the
     * link of that dataset (404); the download is logged and counted
     * before the link is followed, so a failing bucket read still counts.
     */
    method SourceLinkDownload(datasetId: string, linkId: nat, user: User, answer: S3Answer) returns (resp: Response)
      modifies this
      ensures sourceLinks == old(sourceLinks) && sourceViews == old(sourceViews) && queries == old(queries)
      ensures var c := old(catalogue);
              var found := DatasetsUtils.FindDataset(c, datasetId, user);
              var link := LinkOf(old(sourceLinks), linkId, datasetId);
              if found.Err? then resp == LookupFailure(found.error) && catalogue == c && events == old(events)
              else if !AdmitsUser(c, found.value, user.id) then resp == Forbidden && catalogue == c && events == old(events)
              else if link.None? then resp == NotFound && catalogue == c && events == old(events)
              else
                && events == old(events) + [Event(user.id, SourceLinkDownloadEvent, datasetId)]
                && catalogue == CountDataset(c, datasetId)
                && resp == (if link.value.external then Redirect(link.value.url)
                            else StoredFileResponse(answer, link.value.url))
    {
      var found := DatasetsUtils.FindDataset(catalogue, datasetId, user);
      if found.Err? {
        return LookupFailure(found.error);
      }
      if !AdmitsUser(catalogue, found.value, user.id) {
        return Forbidden;
      }
      var link := LinkOf(sourceLinks, linkId, datasetId);
      if link.None? {
        return NotFound;
      }
      events := events + [Event(user.id, SourceLinkDownloadEvent, datasetId)];
      catalogue := CountDataset(catalogue, datasetId);
      if link.value.external {
        resp := Redirect(link.value.url);
      } else {
        resp := StoredFileResponse(answer, link.value.url);
      }
    }

    /**
     * SourceViewDownloadView: find_dataset, the view of that dataset (404),
     * access (403), the view's presence in its database (404); then logged,
     * counted and streamed.
     */
    method SourceViewDownload(datasetId: string, viewId: nat, user: User, viewExists: bool) returns (resp: Response)
      modifies this
      ensures sourceLinks == old(sourceLinks) && sourceViews == old(sourceViews) && queries == old(queries)
      ensures var c := old(catalogue);
              var found := DatasetsUtils.FindDataset(c, datasetId, user);
              var view := ViewOf(old(sourceViews), viewId, datasetId);
              if found.Err? then resp == LookupFailure(found.error) && catalogue == c && events == old(events)
              else if view.None? then resp == NotFound && catalogue == c && events == old(events)
              else if !AdmitsUser(c, found.value, user.id) then resp == Forbidden && catalogue == c && events == old(events)
              else if !viewExists then resp == NotFound && catalogue == c && events == old(events)
              else
                && events == old(events) + [Event(user.id, SourceViewDownloadEvent, datasetId)]
                && catalogue == CountDataset(c, datasetId)
                && resp == TableStream(view.value.database, view.value.schema, view.value.view)
    {
      var found := DatasetsUtils.FindDataset(catalogue, datasetId, user);
      if found.Err? {
        return LookupFailure(found.error);
      }
      var view := ViewOf(sourceViews, viewId, datasetId);
      if view.None? {
        return NotFound;
      }
      if !AdmitsUser(catalogue, found.value, user.id) {
        return Forbidden;
      }
      if !viewExists {
        return NotFound;
      }
      events := events + [Event(user.id, SourceViewDownloadEvent, datasetId)];
      catalogue := CountDataset(catalogue, datasetId);
      resp := TableStream(view.value.database, view.value.schema, view.value.view);
    }

    /**
     * CustomDatasetQueryDownloadView: find_dataset, access (403), the query
     * of that dataset (404), and an unreviewed query is refused (403)
     * unless the user is a superuser; then logged, counted and streamed.
     */
    method CustomQueryDownload(datasetId: string, queryId: nat, user: User) returns (resp: Response)
      modifies this
      ensures sourceLinks == old(sourceLinks) && sourceViews == old(sourceViews) && queries == old(queries)
      ensures var c := old(catalogue);
              var found := DatasetsUtils.FindDataset(c, datasetId, user);
              var query := QueryOf(old(queries), queryId, datasetId);
              if found.Err? then resp == LookupFailure(found.error) && catalogue == c && events == old(events)
              else if !AdmitsUser(c, found.value, user.id) then resp == Forbidden && catalogue == c && events == old(events)
              else if query.None? then resp == NotFound && catalogue == c && events == old(events)
              else if !query.value.reviewed && !user.isSuperuser then
                resp == Forbidden && catalogue == c && events == old(events)
              else
                && events == old(events) + [Event(user.id, CustomQueryDownloadEvent, datasetId)]
                && catalogue == CountDataset(c, datasetId)
                && resp == QueryStream(query.value.database, query.value.query, query.value.filename)
    {
      var found := DatasetsUtils.FindDataset(catalogue, datasetId, user);
      if found.Err? {
        return LookupFailure(found.error);
      }
      if !AdmitsUser(catalogue, found.value, user.id) {
        return Forbidden;
      }
      var query := QueryOf(queries, queryId, datasetId);
      if query.None? {
        return NotFound;
      }
      if !query.value.reviewed && !user.isSuperuser {
        return Forbidden;
      }
      events := events + [Event(user.id, CustomQueryDownloadEvent, datasetId)];
      catalogue := CountDataset(catalogue, datasetId);
      resp := QueryStream(query.value.database, query.value.query, query.value.filename);
    }
  }

  /** A download adds exactly one to its dataset's count and leaves every other count alone. */
  lemma CountDatasetByOne(c: Catalogue, id: string, other: string)
    requires id in c.datasets && other in c.datasets
    ensures CountDataset(c, id).datasets[other].numberOfDownloads
            == c.datasets[other].numberOfDownloads + (if other == id then 1 else 0)
  {
  }
}
