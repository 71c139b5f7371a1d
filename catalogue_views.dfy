/**
 * The older catalogue pages, addressed by group slug and dataset slug:
 * the redirect from a data group to a search, the lookups that redirect
 * to a dataset's page, and the downloads.
 */
module CatalogueViews {
  import opened Wrappers
  import opened DatasetModels
  import DatasetsUtils
  import DatasetsViews
  import Collections

  // ---------------------------------------------------------------------
  // datagroup_item_view
  // ---------------------------------------------------------------------

  /** GROUP_TO_SEARCH_QUERY: a data group's slug, and the search parameter and value it stands for. */
  const GroupSearches: seq<(string, string, string)> := [
    ("data-hub-companies", "q", "Data Hub companies"),
    ("data-hub-contacts", "q", "Data Hub contacts"),
    ("data-hub-interactions-service-deliveries", "q", "Data Hub interactions"),
    ("data-hub-investment-projects", "q", "Data Hub investment projects"),
    ("export-wins", "q", "Export Wins"),
    ("one-list", "q", "One List"),
    ("reference-data-sets", "use", "0")
  ]

  /** The dict lookup with an empty default, from a given entry of the table on. */
  function SearchFrom(slug: string, from: nat): (r: seq<(string, string)>)
    requires from <= |GroupSearches|
    ensures |r| <= 1
    ensures |r| == 1 ==> exists i :: from <= i < |GroupSearches| && GroupSearches[i].0 == slug
                                    && r[0] == (GroupSearches[i].1, GroupSearches[i].2)
    ensures r == [] <==> forall i :: from <= i < |GroupSearches| ==> GroupSearches[i].0 != slug
    decreases |GroupSearches| - from
  {
    if from == |GroupSearches| then []
    else if GroupSearches[from].0 == slug then [(GroupSearches[from].1, GroupSearches[from].2)]
    else SearchFrom(slug, from + 1)
  }

  /** The search a known data group stands for; any other group asks for nothing. */
  function GroupSearch(slug: string): (r: seq<(string, string)>)
    ensures |r| <= 1
    ensures |r| == 1 ==> exists i :: 0 <= i < |GroupSearches| && GroupSearches[i].0 == slug
                                    && r[0] == (GroupSearches[i].1, GroupSearches[i].2)
    ensures r == [] <==> !KnownGroup(slug)
  {
    SearchFrom(slug, 0)
  }

  /** The groups with a search of their own. */
  predicate KnownGroup(slug: string)
  {
    exists i :: 0 <= i < |GroupSearches| && GroupSearches[i].0 == slug
  }

  /** The table's parameter names are single words and its values hold no '+'. */
  lemma GroupSearchesUnquoted(i: nat)
    requires i < |GroupSearches|
    ensures ' ' !in GroupSearches[i].1 && '+' !in GroupSearches[i].2
  {
    if i == 0 {
      assert GroupSearches[i] == ("data-hub-companies", "q", "Data Hub companies");
    } else if i == 1 {
      assert GroupSearches[i] == ("data-hub-contacts", "q", "Data Hub contacts");
    } else if i == 2 {
      assert GroupSearches[i] == ("data-hub-interactions-service-deliveries", "q", "Data Hub interactions");
    } else if i == 3 {
      assert GroupSearches[i] == ("data-hub-investment-projects", "q", "Data Hub investment projects");
    } else if i == 4 {
      assert GroupSearches[i] == ("export-wins", "q", "Export Wins");
    } else if i == 5 {
      assert GroupSearches[i] == ("one-list", "q", "One List");
    } else {
      assert GroupSearches[i] == ("reference-data-sets", "use", "0");
    }
  }

  /**
   * quote_plus as it acts on the group searches: a space becomes '+'. The
   * searches hold only letters, digits and spaces, which it leaves alone.
   */
  function QuotePlus(s: string): (r: string)
    ensures |r| == |s|
    ensures forall i :: 0 <= i < |r| ==> r[i] == (if s[i] == ' ' then '+' else s[i])
  {
    if s == [] then []
    else [if s[0] == ' ' then '+' else s[0]] + QuotePlus(s[1..])
  }

  /** The decoding side: '+' becomes a space. */
  function UnquotePlus(s: string): (r: string)
    ensures |r| == |s|
    ensures forall i :: 0 <= i < |r| ==> r[i] == (if s[i] == '+' then ' ' else s[i])
  {
    if s == [] then []
    else [if s[0] == '+' then ' ' else s[0]] + UnquotePlus(s[1..])
  }

  /** Decoding the quoted text gives it back when it held no '+' of its own. */
  lemma QuotePlusRoundTrip(s: string)
    requires '+' !in s
    ensures UnquotePlus(QuotePlus(s)) == s
  {
    var q := QuotePlus(s);
    forall i | 0 <= i < |s|
      ensures UnquotePlus(q)[i] == s[i]
    {
      assert s[i] != '+';
    }
  }

  /** QueryDict.urlencode: key=value pairs joined by '&'. */
  function UrlEncode(params: seq<(string, string)>): (r: string)
    ensures params == [] <==> r == ""
  {
    if params == [] then ""
    else
      var pair := QuotePlus(params[0].0) + "=" + QuotePlus(params[0].1);
      if |params| == 1 then pair else pair + "&" + UrlEncode(params[1..])
  }

  datatype Location = Route(name: string, query: string)

  const FindDatasetsRoute := "datasets:find_datasets"

  /** datagroup_item_view: always a redirect to the search, with the group's search as its query string. */
  function GroupRedirect(slug: string): (r: Location)
    ensures r.name == FindDatasetsRoute
    ensures r.query == "?" + UrlEncode(GroupSearch(slug))
    ensures !KnownGroup(slug) ==> r.query == "?"
  {
    Route(FindDatasetsRoute, "?" + UrlEncode(GroupSearch(slug)))
  }

  /** A single encoded pair reads back as its key, '=' and its value. */
  lemma PairDecodes(key: string, value: string)
    requires ' ' !in key && '+' !in value
    ensures var q := "?" + UrlEncode([(key, value)]);
            && q[..|key| + 2] == "?" + key + "="
            && UnquotePlus(q[|key| + 2..]) == value
  {
    QuotePlusRoundTrip(value);
    assert QuotePlus(key) == key;
    var q := "?" + UrlEncode([(key, value)]);
    assert q == "?" + key + "=" + QuotePlus(value);
    assert q[|key| + 2..] == QuotePlus(value);
  }

  /**
   * The query string a known group redirects with decodes to the group's
   * search: parameter, '=' and value, the value's spaces restored.
   */
  lemma GroupRedirectDecodes(slug: string)
    requires KnownGroup(slug)
    ensures var q := GroupRedirect(slug).query;
            var p := GroupSearch(slug);
            && |p| == 1
            && q[..|p[0].0| + 2] == "?" + p[0].0 + "="
            && UnquotePlus(q[|p[0].0| + 2..]) == p[0].1
  {
    var p := GroupSearch(slug);
    var i :| 0 <= i < |GroupSearches| && GroupSearches[i].0 == slug && p[0] == (GroupSearches[i].1, GroupSearches[i].2);
    GroupSearchesUnquoted(i);
    assert p == [p[0]];
    PairDecodes(p[0].0, p[0].1);
  }

  /** The reference group searches for the reference type. */
  lemma ReferenceGroupRedirect()
    ensures GroupRedirect("reference-data-sets").query == "?use=0"
  {
    assert QuotePlus("use") == "use";
    assert QuotePlus("0") == "0";
  }

  // ---------------------------------------------------------------------
  // Lookups by slug
  // ---------------------------------------------------------------------

  datatype Page = DataSetPage(id: string) | ReferencePage(uuid: string)

  predicate SlugsMatch(d: DataSet, groupSlug: string, setSlug: string)
  {
    d.groupSlug == groupSlug && d.slug == setSlug
  }

  /**
   * dataset_full_path_view: the one published dataset of the group with
   * the slug; the deleted flag is not looked at. No such dataset is the
   * 404, and several are MultipleObjectsReturned.
   */
  function FullPathLookup(c: Catalogue, groupSlug: string, setSlug: string): (r: Result<Page, string>)
    ensures r.Ok? <==> exists k :: k in c.datasets && c.datasets[k].published && SlugsMatch(c.datasets[k], groupSlug, setSlug)
                                   && forall j :: (j in c.datasets && c.datasets[j].published
                                                   && SlugsMatch(c.datasets[j], groupSlug, setSlug)) ==> j == k
    ensures r.Ok? ==> r.value.DataSetPage? && r.value.id in c.datasets && c.datasets[r.value.id].published
  {
    var found := Collections.SoleKey(c.datasets, (d: DataSet) => d.published && SlugsMatch(d, groupSlug, setSlug));
    if found.Ok? then Ok(DataSetPage(found.value))
    else
      assert forall k :: k in c.datasets && c.datasets[k].published && SlugsMatch(c.datasets[k], groupSlug, setSlug) ==>
               exists j :: j in c.datasets && c.datasets[j].published && SlugsMatch(c.datasets[j], groupSlug, setSlug) && j != k;
      Err(found.error)
  }

  predicate RefSlugsMatch(ref: ReferenceDataset, groupSlug: string, refSlug: string)
  {
    ref.published && !ref.deleted && ref.groupSlug == groupSlug && ref.slug == refSlug
  }

  /** ReferenceDatasetDetailView.get_object: the one published, undeleted reference dataset of the group with the slug. */
  function ReferenceLookup(c: Catalogue, groupSlug: string, refSlug: string): (r: Result<string, string>)
    ensures r.Ok? ==> r.value in c.references && RefSlugsMatch(c.references[r.value], groupSlug, refSlug)
    ensures r == Err("Http404") <==> forall k :: k in c.references ==> !RefSlugsMatch(c.references[k], groupSlug, refSlug)
    ensures r.Ok? || r == Err("Http404") || r == Err("MultipleObjectsReturned")
  {
    Collections.SoleKey(c.references, (ref: ReferenceDataset) => RefSlugsMatch(ref, groupSlug, refSlug))
  }

  /** ReferenceDatasetDetailView.get: a redirect to the reference dataset's page. */
  function ReferenceDetail(c: Catalogue, groupSlug: string, refSlug: string): (r: Result<Page, string>)
    ensures r.Ok? ==> r.value.ReferencePage? && r.value.uuid in c.references
                      && c.references[r.value.uuid].published && !c.references[r.value.uuid].deleted
    ensures r.Err? <==> ReferenceLookup(c, groupSlug, refSlug).Err?
  {
    match ReferenceLookup(c, groupSlug, refSlug)
    case Ok(k) => Ok(ReferencePage(k))
    case Err(e) => Err(e)
  }

  /** No published dataset with the group and slug: the full path is the 404. */
  lemma FullPathMissing(c: Catalogue, groupSlug: string, setSlug: string)
    requires forall k :: k in c.datasets ==> !(c.datasets[k].published && SlugsMatch(c.datasets[k], groupSlug, setSlug))
    ensures FullPathLookup(c, groupSlug, setSlug) == Err("Http404")
  {
  }

  /** Two published datasets with the group and slug: the full path is MultipleObjectsReturned. */
  lemma FullPathAmbiguous(c: Catalogue, j: string, k: string, groupSlug: string, setSlug: string)
    requires j in c.datasets && k in c.datasets && j != k
    requires c.datasets[j].published && SlugsMatch(c.datasets[j], groupSlug, setSlug)
    requires c.datasets[k].published && SlugsMatch(c.datasets[k], groupSlug, setSlug)
    ensures FullPathLookup(c, groupSlug, setSlug) == Err("MultipleObjectsReturned")
  {
    var found := Collections.SoleKey(c.datasets, (d: DataSet) => d.published && SlugsMatch(d, groupSlug, setSlug));
    assert found != Err("Http404");
    assert !found.Ok?;
  }

  /** A deleted dataset is still reached by its full path while it is published. */
  lemma FullPathFindsDeleted(c: Catalogue, k: string, groupSlug: string, setSlug: string)
    requires k in c.datasets && c.datasets[k].published && c.datasets[k].deleted
    requires SlugsMatch(c.datasets[k], groupSlug, setSlug)
    requires forall j :: j in c.datasets && j != k ==> !SlugsMatch(c.datasets[j], groupSlug, setSlug)
    ensures FullPathLookup(c, groupSlug, setSlug) == Ok(DataSetPage(k))
  {
  }

  // ---------------------------------------------------------------------
  // The dataset lookup of the downloads
  // ---------------------------------------------------------------------

  /**
   * The downloads' `find_dataset(group_slug, set_slug)` as written: the
   * group slug is taken as the dataset's id and the set slug as the user.
   * A group slug that is not a UUID (`isUuid`) fails validation; a UUID
   * that is no live dataset is the 404; otherwise `has_perm` is looked up
   * on a string, which raises AttributeError before the permission
   * codename is computed.
   */
  function FindBySlugsAsWritten(c: Catalogue, groupSlug: string, setSlug: string, isUuid: string -> bool)
    : (r: Result<DataSet, string>)
    ensures r.Err?
    ensures !isUuid(groupSlug) ==> r == Err("ValidationError")
    ensures isUuid(groupSlug) && (groupSlug !in c.datasets || c.datasets[groupSlug].deleted) ==> r == Err("Http404")
    ensures isUuid(groupSlug) && groupSlug in c.datasets && !c.datasets[groupSlug].deleted ==> r == Err("AttributeError")
  {
    if !isUuid(groupSlug) then Err("ValidationError")
    else if groupSlug !in c.datasets || c.datasets[groupSlug].deleted then Err("Http404")
    else Err("AttributeError")
  }

  /**
   * The evident intent: the one live dataset of the group with the slug,
   * then the visibility rule of find_dataset for the user.
   */
  function FindBySlugs(c: Catalogue, groupSlug: string, setSlug: string, user: User): (r: Result<string, string>)
    ensures r.Ok? ==> r.value in c.datasets && SlugsMatch(c.datasets[r.value], groupSlug, setSlug)
                      && DatasetsUtils.FindDataset(c, r.value, user) == Ok(c.datasets[r.value])
    ensures r == Err("Http404") <==>
              (forall k :: k in c.datasets ==> !(!c.datasets[k].deleted && SlugsMatch(c.datasets[k], groupSlug, setSlug)))
              || (exists k :: k in c.datasets && !c.datasets[k].deleted && SlugsMatch(c.datasets[k], groupSlug, setSlug)
                              && DatasetsUtils.FindDataset(c, k, user) == Err("Http404")
                              && forall j :: (j in c.datasets && !c.datasets[j].deleted
                                              && SlugsMatch(c.datasets[j], groupSlug, setSlug)) ==> j == k)
  {
    match Collections.SoleKey(c.datasets, (d: DataSet) => !d.deleted && SlugsMatch(d, groupSlug, setSlug))
    case Err(e) => Err(e)
    case Ok(k) =>
      match DatasetsUtils.FindDataset(c, k, user)
      case Ok(_) => Ok(k)
      case Err(e) => Err(e)
  }

  /**
   * The discrepancy: a published live dataset alone under its group and
   * slug is found by the intended lookup for every user, while the lookup
   * as written fails for it whatever the group slug is.
   */
  lemma SlugLookupDiscrepancy(c: Catalogue, k: string, groupSlug: string, setSlug: string, user: User,
                              isUuid: string -> bool)
    requires k in c.datasets && !c.datasets[k].deleted && c.datasets[k].published
    requires DatasetsUtils.ManagePermission(c.datasets[k].dtype).Some?
    requires SlugsMatch(c.datasets[k], groupSlug, setSlug)
    requires forall j :: j in c.datasets && j != k ==> !SlugsMatch(c.datasets[j], groupSlug, setSlug)
    ensures FindBySlugs(c, groupSlug, setSlug, user) == Ok(k)
    ensures FindBySlugsAsWritten(c, groupSlug, setSlug, isUuid).Err?
  {
    DatasetsUtils.FindDatasetVisibility(c, k, user);
  }

  // ---------------------------------------------------------------------
  // Downloads
  // ---------------------------------------------------------------------

  /**
   * ReferenceDatasetDownloadView: the format is checked first, then the
   * published, undeleted reference dataset of the group with the slug is
   * looked up (no exception for superusers here); a download is logged and
   * counted once and answers the flattened records.
   */
  method ReferenceDownload(site: DatasetsViews.DatasetsSite, groupSlug: string, refSlug: string, format: string,
                           user: User, records: seq<DatasetsViews.Record>, fields: seq<DatasetsViews.RefField>)
    returns (resp: DatasetsViews.Response)
    modifies site
    ensures site.sourceLinks == old(site.sourceLinks) && site.sourceViews == old(site.sourceViews)
    ensures site.queries == old(site.queries)
    ensures var c := old(site.catalogue);
            var found := ReferenceLookup(c, groupSlug, refSlug);
            if format != "json" && format != "csv" then
              resp == DatasetsViews.NotFound && site.catalogue == c && site.events == old(site.events)
            else if found.Err? then
              resp == DatasetsViews.LookupFailure(found.error) && site.catalogue == c && site.events == old(site.events)
            else
              && site.events == old(site.events) + [Event(user.id, ReferenceDatasetDownloadEvent, found.value)]
              && site.catalogue == DatasetsViews.CountReference(c, found.value)
              && resp.Attachment?
              && resp.filename == DatasetsViews.AttachmentName(c.references[found.value], format)
              && resp.contentType == DatasetsViews.ContentTypeOf(format)
              && |resp.rows| == |records|
              && forall i :: 0 <= i < |records| ==> resp.rows[i] == DatasetsViews.Flatten(records[i], fields)
  {
    if format != "json" && format != "csv" {
      return DatasetsViews.NotFound;
    }
    var found := ReferenceLookup(site.catalogue, groupSlug, refSlug);
    if found.Err? {
      return DatasetsViews.LookupFailure(found.error);
    }
    var uuid := found.value;
    var ref := site.catalogue.references[uuid];
    var rows := DatasetsViews.FlattenRecords(records, fields);
    site.events := site.events + [Event(user.id, ReferenceDatasetDownloadEvent, uuid)];
    site.catalogue := DatasetsViews.CountReference(site.catalogue, uuid);
    resp := DatasetsViews.Attachment(DatasetsViews.AttachmentName(ref, format), DatasetsViews.ContentTypeOf(format), rows);
  }

  /**
   * SourceLinkDownloadView with the intended lookup: the dataset of the
   * group with the slug, then access (403), then the link of that dataset
   * (404); logged and counted before the link is followed.
   */
  method SourceLinkDownload(site: DatasetsViews.DatasetsSite, groupSlug: string, setSlug: string, linkId: nat,
                            user: User, answer: DatasetsViews.S3Answer)
    returns (resp: DatasetsViews.Response)
    modifies site
    ensures site.sourceLinks == old(site.sourceLinks) && site.sourceViews == old(site.sourceViews)
    ensures site.queries == old(site.queries)
    ensures var c := old(site.catalogue);
            var found := FindBySlugs(c, groupSlug, setSlug, user);
            if found.Err? then
              resp == DatasetsViews.LookupFailure(found.error) && site.catalogue == c && site.events == old(site.events)
            else
              var link := DatasetsViews.LinkOf(old(site.sourceLinks), linkId, found.value);
              if !AdmitsUser(c, c.datasets[found.value], user.id) then
                resp == DatasetsViews.Forbidden && site.catalogue == c && site.events == old(site.events)
              else if link.None? then
                resp == DatasetsViews.NotFound && site.catalogue == c && site.events == old(site.events)
              else
                && site.events == old(site.events) + [Event(user.id, SourceLinkDownloadEvent, found.value)]
                && site.catalogue == DatasetsViews.CountDataset(c, found.value)
                && resp == (if link.value.external then DatasetsViews.Redirect(link.value.url)
                            else DatasetsViews.StoredFileResponse(answer, link.value.url))
  {
    var found := FindBySlugs(site.catalogue, groupSlug, setSlug, user);
    if found.Err? {
      return DatasetsViews.LookupFailure(found.error);
    }
    resp := site.SourceLinkDownload(found.value, linkId, user, answer);
  }

  /**
   * SourceViewDownloadView with the intended lookup: the view of that
   * dataset (404), access (403), the view's presence (404); then logged,
   * counted and streamed.
   */
  method SourceViewDownload(site: DatasetsViews.DatasetsSite, groupSlug: string, setSlug: string, viewId: nat,
                            user: User, viewExists: bool)
    returns (resp: DatasetsViews.Response)
    modifies site
    ensures site.sourceLinks == old(site.sourceLinks) && site.sourceViews == old(site.sourceViews)
    ensures site.queries == old(site.queries)
    ensures var c := old(site.catalogue);
            var found := FindBySlugs(c, groupSlug, setSlug, user);
            if found.Err? then
              resp == DatasetsViews.LookupFailure(found.error) && site.catalogue == c && site.events == old(site.events)
            else
              var view := DatasetsViews.ViewOf(old(site.sourceViews), viewId, found.value);
              if view.None? then
                resp == DatasetsViews.NotFound && site.catalogue == c && site.events == old(site.events)
              else if !AdmitsUser(c, c.datasets[found.value], user.id) then
                resp == DatasetsViews.Forbidden && site.catalogue == c && site.events == old(site.events)
              else if !viewExists then
                resp == DatasetsViews.NotFound && site.catalogue == c && site.events == old(site.events)
              else
                && site.events == old(site.events) + [Event(user.id, SourceViewDownloadEvent, found.value)]
                && site.catalogue == DatasetsViews.CountDataset(c, found.value)
                && resp == DatasetsViews.TableStream(view.value.database, view.value.schema, view.value.view)
  {
    var found := FindBySlugs(site.catalogue, groupSlug, setSlug, user);
    if found.Err? {
      return DatasetsViews.LookupFailure(found.error);
    }
    resp := site.SourceViewDownload(found.value, viewId, user, viewExists);
  }

  /**
   * CustomDatasetQueryDownloadView with the intended lookup: access (403),
   * the query of that dataset (404), then logged, counted and streamed;
   * unlike the datasets page, an unreviewed query is not refused.
   */
  method CustomQueryDownload(site: DatasetsViews.DatasetsSite, groupSlug: string, setSlug: string, queryId: nat,
                             user: User)
    returns (resp: DatasetsViews.Response)
    modifies site
    ensures site.sourceLinks == old(site.sourceLinks) && site.sourceViews == old(site.sourceViews)
    ensures site.queries == old(site.queries)
    ensures var c := old(site.catalogue);
            var found := FindBySlugs(c, groupSlug, setSlug, user);
            if found.Err? then
              resp == DatasetsViews.LookupFailure(found.error) && site.catalogue == c && site.events == old(site.events)
            else
              var query := DatasetsViews.QueryOf(old(site.queries), queryId, found.value);
              if !AdmitsUser(c, c.datasets[found.value], user.id) then
                resp == DatasetsViews.Forbidden && site.catalogue == c && site.events == old(site.events)
              else if query.None? then
                resp == DatasetsViews.NotFound && site.catalogue == c && site.events == old(site.events)
              else
                && site.events == old(site.events) + [Event(user.id, CustomQueryDownloadEvent, found.value)]
                && site.catalogue == DatasetsViews.CountDataset(c, found.value)
                && resp == DatasetsViews.QueryStream(query.value.database, query.value.query, query.value.filename)
  {
    var found := FindBySlugs(site.catalogue, groupSlug, setSlug, user);
    if found.Err? {
      return DatasetsViews.LookupFailure(found.error);
    }
    var id := found.value;
    if !AdmitsUser(site.catalogue, site.catalogue.datasets[id], user.id) {
      return DatasetsViews.Forbidden;
    }
    var query := DatasetsViews.QueryOf(site.queries, queryId, id);
    if query.None? {
      return DatasetsViews.NotFound;
    }
    site.events := site.events + [Event(user.id, CustomQueryDownloadEvent, id)];
    site.catalogue := DatasetsViews.CountDataset(site.catalogue, id);
    resp := DatasetsViews.QueryStream(query.value.database, query.value.query, query.value.filename);
  }
}
