/**
 * The catalogue rows the dataset views, the credential provisioning and
 * the admin read: datasets, their source tables, reference datasets and
 * the per-user and per-template permission rows. `objects.live()` is the
 * rows whose `deleted` flag is unset.
 */
module DatasetModels {
  import opened Wrappers

  /** DataSet.user_access_type. */
  datatype AccessType = RequiresAuthentication | RequiresAuthorization

  /** DataSetType: a reference dataset is 0, a master dataset 1, a data cut 2. */
  const ReferenceType: int := 0
  const MasterType: int := 1
  const DatacutType: int := 2

  /** The part of a Django user the views consult. */
  datatype User = User(id: nat, email: string, isSuperuser: bool, perms: set<string>)

  /** has_perm: an active superuser holds every permission. */
  predicate HasPerm(u: User, codename: string)
  {
    u.isSuperuser || codename in u.perms
  }

  datatype DataSet = DataSet(
    id: string, name: string, slug: string, dtype: int, published: bool, deleted: bool,
    accessType: AccessType, numberOfDownloads: nat, groupSlug: string)

  /** A SourceTable row; `database` is the memorable name of its Database. */
  datatype SourceTable = SourceTable(
    id: nat, dataset: string, database: string, schema: string, table: string, byDataStudio: bool)

  datatype ReferenceDataset = ReferenceDataset(
    uuid: string, slug: string, published: bool, deleted: bool,
    externalDatabase: Option<string>, tableName: string, publishedVersion: string, numberOfDownloads: nat,
    groupSlug: string)

  datatype Catalogue = Catalogue(
    datasets: map<string, DataSet>,
    sourceTables: map<nat, SourceTable>,
    userPerms: set<(nat, string)>,
    templatePerms: set<(nat, string)>,
    references: map<string, ReferenceDataset>)

  /** The dataset admits the user: open to every signed-in user, or a permission row for them. */
  predicate AdmitsUser(c: Catalogue, d: DataSet, user: nat)
  {
    d.accessType == RequiresAuthentication || (user, d.id) in c.userPerms
  }

  /** EventLog.event_type values. */
  const SourceLinkDownloadEvent: nat := 1
  const SourceTableDownloadEvent: nat := 2
  const ReferenceDatasetDownloadEvent: nat := 3
  const TableDataDownloadEvent: nat := 4
  const CustomQueryDownloadEvent: nat := 5
  const SourceViewDownloadEvent: nat := 6

  /** An EventLog row: who, what kind, and the id of the object it is about. */
  datatype Event = Event(user: nat, eventType: nat, objectId: string)
}
