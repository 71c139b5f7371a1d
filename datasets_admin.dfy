/**
 * The dataset admin: saving a dataset's access type with an audit entry,
 * the version column, the fields that become read-only, the audit users
 * of the reference dataset's field rows, and the choices offered for a
 * field's linked reference dataset.
 */
module DatasetsAdmin {
  import opened Wrappers
  import opened DatasetModels
  import Collections

  /** The text user_access_type is saved as. */
  function AccessTypeName(a: AccessType): string
  {
    match a
    case RequiresAuthentication => "REQUIRES_AUTHENTICATION"
    case RequiresAuthorization => "REQUIRES_AUTHORIZATION"
  }

  /** The access type the admin form's checkbox stands for. */
  function AccessTypeOf(requiresAuthorization: bool): (r: AccessType)
    ensures r == RequiresAuthorization <==> requiresAuthorization
  {
    if requiresAuthorization then RequiresAuthorization else RequiresAuthentication
  }

  /** A change recorded in the admin's history. */
  datatype LogEntry = LogEntry(userId: nat, objectId: string, message: string)

  const AccessTypeChangePrefix := "user_access_type set to "

  /** The saved datasets and the admin history. */
  class DatasetAdmin {
    var datasets: map<string, DataSet>
    var history: seq<LogEntry>

    constructor (datasets: map<string, DataSet>)
      ensures this.datasets == datasets && history == []
    {
      this.datasets := datasets;
      history := [];
    }

    /**
     * BaseDatasetAdmin.save_model: the dataset is saved with the access
     * type the checkbox stands for, and a history entry naming the new
     * type is written exactly when it differs from the type the object
     * had before.
     */
    method SaveModel(userId: nat, obj: DataSet, requiresAuthorization: bool) returns (saved: DataSet)
      modifies this
      ensures saved == obj.(accessType := AccessTypeOf(requiresAuthorization))
      ensures datasets == old(datasets)[obj.id := saved]
      ensures history == old(history) + LogFor(userId, obj, saved)
    {
      var original := obj.accessType;
      saved := obj.(accessType := AccessTypeOf(requiresAuthorization));
      datasets := datasets[obj.id := saved];
      if original != saved.accessType {
        history := history + [LogEntry(userId, saved.id, AccessTypeChangePrefix + AccessTypeName(saved.accessType))];
      }
    }
  }

  /** The history entries a save writes: one when the access type changed, none otherwise. */
  function LogFor(userId: nat, before: DataSet, after: DataSet): (r: seq<LogEntry>)
    ensures |r| == 1 <==> before.accessType != after.accessType
    ensures r == [] <==> before.accessType == after.accessType
    ensures |r| == 1 ==> r[0].objectId == after.id && r[0].userId == userId
                          && r[0].message == AccessTypeChangePrefix + AccessTypeName(after.accessType)
  {
    if before.accessType != after.accessType
    then [LogEntry(userId, after.id, AccessTypeChangePrefix + AccessTypeName(after.accessType))]
    else []
  }

  /** Saving a dataset again with the same box ticked writes no second entry. */
  lemma SaveTwiceLogsOnce(userId: nat, obj: DataSet, requiresAuthorization: bool)
    ensures var saved := obj.(accessType := AccessTypeOf(requiresAuthorization));
            LogFor(userId, saved, saved.(accessType := AccessTypeOf(requiresAuthorization))) == []
  {
  }

  /** The two access types are saved under different names. */
  lemma AccessTypeNamesDiffer()
    ensures AccessTypeName(RequiresAuthentication) != AccessTypeName(RequiresAuthorization)
  {
    assert AccessTypeName(RequiresAuthentication)[13] != AccessTypeName(RequiresAuthorization)[13];
  }

  /** get_published_version: a dataset never published shows ' - '. */
  function PublishedVersionShown(version: string): (r: string)
    ensures version == "0.0" ==> r == " - "
    ensures version != "0.0" ==> r == version
  {
    if version == "0.0" then " - " else version
  }

  /** The column tells the unpublished from the published unless a version is itself spelt ' - '. */
  lemma PublishedVersionShownInjective(a: string, b: string)
    requires a != " - " && b != " - "
    requires PublishedVersionShown(a) == PublishedVersionShown(b)
    ensures a == b
  {
  }

  /** get_readonly_fields: the table name cannot be edited once the reference dataset exists. */
  function ReadonlyFields(objectExists: bool): (r: seq<string>)
    ensures "get_published_version" in r
    ensures "table_name" in r <==> objectExists
  {
    if objectExists then ["get_published_version", "table_name"] else ["get_published_version"]
  }

  /** The audit columns of a reference dataset's field row. */
  datatype Audit = Audit(createdBy: Option<nat>, updatedBy: Option<nat>)

  /**
   * ReferenceDatasetAdmin.save_formset: every field row is marked updated
   * by the user, and created by the user only when the reference dataset
   * is being added.
   */
  method SaveFormset(rows: array<Audit>, user: nat, change: bool)
    modifies rows
    ensures forall i :: 0 <= i < rows.Length ==>
              rows[i] == Audit(if change then old(rows[i].createdBy) else Some(user), Some(user))
  {
    for i := 0 to rows.Length
      invariant forall k :: 0 <= k < i ==>
                  rows[k] == Audit(if change then old(rows[k].createdBy) else Some(user), Some(user))
      invariant forall k :: i <= k < rows.Length ==> rows[k] == old(rows[k])
    {
      if !change {
        rows[i] := rows[i].(createdBy := Some(user));
      }
      rows[i] := rows[i].(updatedBy := Some(user));
    }
  }

  /**
   * formfield_for_foreignkey: the linked-dataset field of a reference
   * dataset being edited offers every reference dataset but that one;
   * None is the field's default choices.
   */
  function LinkedDatasetChoices(fieldName: string, parentId: Option<string>, all: seq<string>)
    : (r: Option<seq<string>>)
    ensures r.Some? <==> fieldName == "linked_reference_dataset" && parentId.Some?
    ensures r.Some? ==> forall x :: x in r.value <==> x in all && x != parentId.value
  {
    if fieldName == "linked_reference_dataset" && parentId.Some? then
      Some(Collections.Filter(all, (x: string) => x != parentId.value))
    else None
  }

  /** Of reference datasets with distinct ids, the edited one is the only one left out. */
  lemma LinkedChoicesDropOne(parentId: string, all: seq<string>)
    requires Collections.Distinct(all) && parentId in all
    ensures |LinkedDatasetChoices("linked_reference_dataset", Some(parentId), all).value| == |all| - 1
  {
    Collections.FilterOutOne(all, parentId, (x: string) => x != parentId);
  }
}
