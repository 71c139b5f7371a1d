/**
 * The admin site's validators for reference datasets (the field formset,
 * each field's form, record upload, record identifiers and record
 * deletion), for custom SQL queries of data-cut datasets and for
 * visualisation links.
 *
 * A validator either returns the cleaned value or fails: a Django
 * ValidationError carries a message shown on the form, any other
 * exception escapes the form.
 */
module DwAdminForms {
  import opened Wrappers
  import Collections
  import Text

  datatype Failure = ValidationError(message: string) | Raised(exception: string)

  // ---------------------------------------------------------------------
  // ReferenceDataInlineFormset.clean
  // ---------------------------------------------------------------------

  /**
   * One field form of the formset, as its cleaned data reads: the field's
   * name (None when the form left it out), its column name ("" when
   * blank), the two flags, and whether the form is marked for deletion.
   */
  datatype FieldForm = FieldForm(name: Option<string>, columnName: string, isIdentifier: bool,
                                 isDisplayName: bool, deleted: bool)

  predicate IdentifierForm(f: FieldForm) { f.isIdentifier && !f.deleted }
  predicate ColumnForm(f: FieldForm) { f.columnName != "" && !f.deleted }
  predicate DisplayNameForm(f: FieldForm) { f.isDisplayName && !f.deleted }
  predicate NamedForm(f: FieldForm) { f.name.Some? }
  function ColumnOf(f: FieldForm): string { f.columnName }
  function NameOf(f: FieldForm): string { if f.name.Some? then f.name.value else "" }
  function FlagOf(f: FieldForm): bool { true }

  const NoIdentifier := "Please ensure one field is set as the unique identifier"
  const ManyIdentifiers := "Please select only one unique identifier field"
  const ColumnsClash := "Please ensure column names are unique"
  const NamesClash := "Please ensure field names are unique"
  const NoDisplayName := "Please ensure one field is set as the display name"

  /**
   * The formset's own check, in its order: the identifier flags, the column
   * names and the display-name flags of the forms not marked for deletion,
   * the names of every form, deleted ones included. None is success.
   */
  function FormsetClean(forms: seq<FieldForm>): (r: Option<string>)
    ensures r == None || r.value in {NoIdentifier, ManyIdentifiers, ColumnsClash, NamesClash, NoDisplayName}
  {
    var identifiers := Collections.Collect(forms, IdentifierForm, FlagOf);
    var columns := Collections.Collect(forms, ColumnForm, ColumnOf);
    var names := Collections.Collect(forms, NamedForm, NameOf);
    var displayNames := Collections.Collect(forms, DisplayNameForm, FlagOf);
    if |identifiers| == 0 then Some(NoIdentifier)
    else if |identifiers| > 1 then Some(ManyIdentifiers)
    else if |columns| != |Collections.SeqSet(columns)| then Some(ColumnsClash)
    else if |names| != |Collections.SeqSet(names)| then Some(NamesClash)
    else if |displayNames| == 0 then Some(NoDisplayName)
    else None
  }

  predicate SomeIdentifier(forms: seq<FieldForm>)
  {
    exists i :: 0 <= i < |forms| && IdentifierForm(forms[i])
  }

  predicate TwoIdentifiers(forms: seq<FieldForm>)
  {
    exists i, j :: 0 <= i < j < |forms| && IdentifierForm(forms[i]) && IdentifierForm(forms[j])
  }

  predicate ColumnsDistinct(forms: seq<FieldForm>)
  {
    forall i, j :: 0 <= i < j < |forms| && ColumnForm(forms[i]) && ColumnForm(forms[j]) ==>
      forms[i].columnName != forms[j].columnName
  }

  predicate NamesDistinct(forms: seq<FieldForm>)
  {
    forall i, j :: 0 <= i < j < |forms| && forms[i].name.Some? && forms[j].name.Some? ==>
      forms[i].name != forms[j].name
  }

  predicate SomeDisplayName(forms: seq<FieldForm>)
  {
    exists i :: 0 <= i < |forms| && DisplayNameForm(forms[i])
  }

  /**
   * A reference dataset's fields are acceptable when exactly one live field
   * is the identifier, live column names are distinct, the names of all
   * forms are distinct, and at least one live field is a display name
   * (several may be).
   */
  predicate WellFormedFields(forms: seq<FieldForm>)
  {
    SomeIdentifier(forms) && !TwoIdentifiers(forms) && ColumnsDistinct(forms) && NamesDistinct(forms)
    && SomeDisplayName(forms)
  }

  lemma IdentifierCount(forms: seq<FieldForm>)
    ensures |Collections.Collect(forms, IdentifierForm, FlagOf)| == 0 <==> !SomeIdentifier(forms)
    ensures |Collections.Collect(forms, IdentifierForm, FlagOf)| > 1 <==> TwoIdentifiers(forms)
  {
    Collections.CollectLength(forms, IdentifierForm, FlagOf);
    Collections.FilterAtLeastTwo(forms, IdentifierForm);
    Collections.FilterEmpty(forms, IdentifierForm);
  }

  lemma ColumnsCheck(forms: seq<FieldForm>)
    ensures var columns := Collections.Collect(forms, ColumnForm, ColumnOf);
            |columns| == |Collections.SeqSet(columns)| <==> ColumnsDistinct(forms)
  {
    Collections.DistinctIffSetSize(Collections.Collect(forms, ColumnForm, ColumnOf));
    Collections.DistinctCollect(forms, ColumnForm, ColumnOf);
  }

  lemma NamesCheck(forms: seq<FieldForm>)
    ensures var names := Collections.Collect(forms, NamedForm, NameOf);
            |names| == |Collections.SeqSet(names)| <==> NamesDistinct(forms)
  {
    Collections.DistinctIffSetSize(Collections.Collect(forms, NamedForm, NameOf));
    Collections.DistinctCollect(forms, NamedForm, NameOf);
    assert NamesDistinct(forms) <==>
           forall i, j :: 0 <= i < j < |forms| && NamedForm(forms[i]) && NamedForm(forms[j]) ==>
             NameOf(forms[i]) != NameOf(forms[j]);
  }

  lemma DisplayNameCount(forms: seq<FieldForm>)
    ensures |Collections.Collect(forms, DisplayNameForm, FlagOf)| == 0 <==> !SomeDisplayName(forms)
  {
    Collections.CollectLength(forms, DisplayNameForm, FlagOf);
    Collections.FilterEmpty(forms, DisplayNameForm);
  }

  /** Which message the formset gives, stated on the forms themselves. */
  lemma FormsetCleanMessages(forms: seq<FieldForm>)
    ensures FormsetClean(forms) == Some(NoIdentifier) <==> !SomeIdentifier(forms)
    ensures FormsetClean(forms) == Some(ManyIdentifiers) <==> TwoIdentifiers(forms)
    ensures FormsetClean(forms) == Some(ColumnsClash) <==>
              SomeIdentifier(forms) && !TwoIdentifiers(forms) && !ColumnsDistinct(forms)
    ensures FormsetClean(forms) == Some(NamesClash) <==>
              SomeIdentifier(forms) && !TwoIdentifiers(forms) && ColumnsDistinct(forms) && !NamesDistinct(forms)
    ensures FormsetClean(forms) == Some(NoDisplayName) <==>
              SomeIdentifier(forms) && !TwoIdentifiers(forms) && ColumnsDistinct(forms) && NamesDistinct(forms)
              && !SomeDisplayName(forms)
    ensures FormsetClean(forms) == None <==> WellFormedFields(forms)
  {
    IdentifierCount(forms);
    ColumnsCheck(forms);
    NamesCheck(forms);
    DisplayNameCount(forms);
  }

  /** A deleted form keeps its name in the uniqueness check, and nothing else. */
  lemma DeletedFormStillNamed(forms: seq<FieldForm>, f: FieldForm)
    requires f.deleted && f.name.Some?
    requires WellFormedFields(forms)
    ensures FormsetClean(forms + [f]) == None <==>
              forall i :: 0 <= i < |forms| && forms[i].name.Some? ==> forms[i].name != f.name
  {
    var s := forms + [f];
    DeletedFormKeepsLiveChecks(forms, f);
    DeletedFormNames(forms, f);
    FormsetCleanMessages(s);
  }

  /** A form marked for deletion leaves the identifier, column and display-name checks as they were. */
  lemma DeletedFormKeepsLiveChecks(forms: seq<FieldForm>, f: FieldForm)
    requires f.deleted
    requires WellFormedFields(forms)
    ensures var s := forms + [f];
            SomeIdentifier(s) && !TwoIdentifiers(s) && ColumnsDistinct(s) && SomeDisplayName(s)
  {
    var s := forms + [f];
    assert forall i :: 0 <= i < |forms| ==> s[i] == forms[i];
    assert SomeIdentifier(s) by {
      var i :| 0 <= i < |forms| && IdentifierForm(forms[i]);
      assert IdentifierForm(s[i]);
    }
    assert SomeDisplayName(s) by {
      var i :| 0 <= i < |forms| && DisplayNameForm(forms[i]);
      assert DisplayNameForm(s[i]);
    }
  }

  /** A deleted form's name still has to differ from every other form's. */
  lemma DeletedFormNames(forms: seq<FieldForm>, f: FieldForm)
    requires f.name.Some?
    requires NamesDistinct(forms)
    ensures NamesDistinct(forms + [f]) <==>
              forall i :: 0 <= i < |forms| && forms[i].name.Some? ==> forms[i].name != f.name
  {
    var s := forms + [f];
    assert forall i :: 0 <= i < |forms| ==> s[i] == forms[i];
    if forall i :: 0 <= i < |forms| && forms[i].name.Some? ==> forms[i].name != f.name {
      assert NamesDistinct(s);
    } else {
      var i :| 0 <= i < |forms| && forms[i].name.Some? && forms[i].name == f.name;
      assert s[i].name == s[|forms|].name;
    }
  }

  // ---------------------------------------------------------------------
  // ReferenceDataFieldInlineForm.clean_*
  // ---------------------------------------------------------------------

  datatype DataType = ForeignKey | Other(code: nat)

  /** An external database by its id, with the name the error message shows. */
  datatype Database = Database(id: nat, memorableName: string)

  datatype RefDataset = RefDataset(id: nat, externalDatabase: Option<Database>)

  /** The saved field a form edits: None for a field being added. */
  datatype SavedField = SavedField(id: nat, dataType: DataType, columnName: string, linked: Option<RefDataset>)

  /** Why a foreign key link is refused. */
  datatype LinkError = LinkRequired | LinkToItself | LinkInUse | WrongDatabase(db: Database) | LinkCircular

  function LinkMessage(e: LinkError): string
  {
    match e
    case LinkRequired => "Please select a reference data set to link to"
    case LinkToItself => "A reference dataset record cannot point to itself"
    case LinkInUse => "Unable to change linked reference dataset when relations exist in this dataset"
    case WrongDatabase(db) => "Linked reference dataset does not exist on external database " + db.memorableName
    case LinkCircular => "Unable to link to a dataset that links to this dataset"
  }

  function RefId(d: Option<RefDataset>): Option<nat>
  {
    if d.Some? then Some(d.value.id) else None
  }

  /**
   * clean_linked_reference_dataset. `columnHasData` says whether a record
   * of the parent dataset has a non-null value in the field's saved column;
   * `circular(parent, linked)` is the model's has_circular_link. The
   * checks of a foreign key apply in order, the first failing one naming
   * the error.
   */
  function CleanLinkedDataset(dataType: Option<DataType>, linked: Option<RefDataset>, parent: RefDataset,
                              field: Option<SavedField>, columnHasData: bool,
                              circular: (RefDataset, RefDataset) -> bool): (r: Result<Option<RefDataset>, LinkError>)
    ensures r.Ok? ==> r.value == linked
    ensures dataType != Some(ForeignKey) ==> r == Ok(linked)
    ensures dataType == Some(ForeignKey) ==>
              var changing := field.Some? && RefId(linked) != RefId(field.value.linked);
              var db := parent.externalDatabase;
              && (r == Err(LinkRequired) <==> linked.None?)
              && (r == Err(LinkToItself) <==> linked.Some? && linked.value.id == parent.id)
              && (r == Err(LinkInUse) <==> linked.Some? && linked.value.id != parent.id && changing && columnHasData)
              && (r.Err? && r.error.WrongDatabase? <==>
                    linked.Some? && linked.value.id != parent.id && !(changing && columnHasData)
                    && db.Some?
                    && (linked.value.externalDatabase.None? || linked.value.externalDatabase.value.id != db.value.id))
              && (r.Err? && r.error.WrongDatabase? ==> r.error.db == db.value)
              && (r == Err(LinkCircular) <==>
                    linked.Some? && linked.value.id != parent.id && !(changing && columnHasData)
                    && (db.None? || (linked.value.externalDatabase.Some? && linked.value.externalDatabase.value.id == db.value.id))
                    && circular(parent, linked.value))
  {
    if dataType != Some(ForeignKey) then Ok(linked)
    else if linked.None? then Err(LinkRequired)
    else if parent.id == linked.value.id then Err(LinkToItself)
    else if field.Some? && RefId(linked) != RefId(field.value.linked) && columnHasData then Err(LinkInUse)
    else if parent.externalDatabase.Some?
            && (linked.value.externalDatabase.None?
                || linked.value.externalDatabase.value.id != parent.externalDatabase.value.id) then
      Err(WrongDatabase(parent.externalDatabase.value))
    else if circular(parent, linked.value) then Err(LinkCircular)
    else Ok(linked)
  }

  /** What an accepted foreign key link satisfies. */
  lemma AcceptedLink(dataType: Option<DataType>, linked: Option<RefDataset>, parent: RefDataset,
                     field: Option<SavedField>, columnHasData: bool, circular: (RefDataset, RefDataset) -> bool)
    requires dataType == Some(ForeignKey)
    requires CleanLinkedDataset(dataType, linked, parent, field, columnHasData, circular).Ok?
    ensures linked.Some? && linked.value.id != parent.id && !circular(parent, linked.value)
    ensures parent.externalDatabase.Some? ==>
              linked.value.externalDatabase.Some?
              && linked.value.externalDatabase.value.id == parent.externalDatabase.value.id
    ensures field.Some? && columnHasData ==> RefId(linked) == RefId(field.value.linked)
  {
  }

  const FromForeignKey := "Linked reference dataset data type cannot be updated"
  const ToForeignKey := "Data type cannot be changed to linked reference dataset"
  const TypeWithData := "Unable to change data type when data exists in column"

  /** clean_data_type; `columnHasData` as for the link. */
  function CleanDataType(field: Option<SavedField>, newType: DataType, columnHasData: bool): (r: Result<DataType, Failure>)
    ensures r.Ok? ==> r.value == newType
    ensures field.None? ==> r.Ok?
    ensures field.Some? ==>
              var was := field.value.dataType;
              && (r == Err(ValidationError(FromForeignKey)) <==> was == ForeignKey && newType != ForeignKey)
              && (r == Err(ValidationError(ToForeignKey)) <==> was != ForeignKey && newType == ForeignKey)
              && (r == Err(ValidationError(TypeWithData)) <==>
                    was != ForeignKey && newType != ForeignKey && newType != was && columnHasData)
  {
    if field.None? then Ok(newType)
    else if newType != ForeignKey && field.value.dataType == ForeignKey then Err(ValidationError(FromForeignKey))
    else if newType == ForeignKey && field.value.dataType != ForeignKey then Err(ValidationError(ToForeignKey))
    else if newType != field.value.dataType && columnHasData then Err(ValidationError(TypeWithData))
    else Ok(newType)
  }

  /** A saved field never enters or leaves the foreign key type, and keeps its type while its column holds data. */
  lemma SavedFieldType(field: SavedField, newType: DataType, columnHasData: bool)
    requires CleanDataType(Some(field), newType, columnHasData).Ok?
    ensures newType == ForeignKey <==> field.dataType == ForeignKey
    ensures columnHasData ==> newType == field.dataType
  {
  }

  const IdentifierNotLink := "Identifier field cannot be linked reference data type"

  /** clean_is_identifier. */
  function CleanIsIdentifier(isIdentifier: Option<bool>, dataType: Option<DataType>): (r: Result<Option<bool>, Failure>)
    ensures r.Ok? ==> r.value == isIdentifier
    ensures r.Err? <==> isIdentifier == Some(true) && dataType == Some(ForeignKey)
    ensures r.Err? ==> r.error == ValidationError(IdentifierNotLink)
  {
    if isIdentifier == Some(true) && dataType == Some(ForeignKey) then Err(ValidationError(IdentifierNotLink))
    else Ok(isIdentifier)
  }

  const ReservedColumnNames: seq<string> := ["id", "reference_dataset", "reference_dataset_id", "updated_date"]

  const ColumnNameFixed := "column name cannot be updated"

  /** `sep.join(parts)` for a separator of any length. */
  function JoinWith(parts: seq<string>, sep: string): string
  {
    if parts == [] then ""
    else if |parts| == 1 then parts[0]
    else parts[0] + sep + JoinWith(parts[1..], sep)
  }

  function OtherReserved(columnName: string): (r: seq<string>)
    ensures forall x :: x in r <==> x in ReservedColumnNames && x != columnName
  {
    Collections.Filter(ReservedColumnNames, (x: string) => x != columnName)
  }

  function ReservedMessage(columnName: string): string
  {
    "\"" + columnName + "\" is a reserved column name (along with: \"" + JoinWith(OtherReserved(columnName), "\", \"")
    + "\")"
  }

  /** clean_column_name. */
  function CleanColumnName(columnName: string, field: Option<SavedField>): (r: Result<string, Failure>)
    ensures r.Ok? ==> r.value == columnName
    ensures columnName in ReservedColumnNames ==> r == Err(ValidationError(ReservedMessage(columnName)))
    ensures r == Err(ValidationError(ColumnNameFixed)) <==>
              columnName !in ReservedColumnNames && field.Some? && columnName != ""
              && columnName != field.value.columnName
    ensures r.Ok? <==>
              columnName !in ReservedColumnNames
              && (field.None? || columnName == "" || columnName == field.value.columnName)
  {
    if columnName in ReservedColumnNames then Err(ValidationError(ReservedMessage(columnName)))
    else if field.Some? && columnName != "" && columnName != field.value.columnName then
      Err(ValidationError(ColumnNameFixed))
    else Ok(columnName)
  }

  /** The reserved-name message lists the three other reserved names. */
  lemma ReservedMessageListsOthers(columnName: string)
    requires columnName in ReservedColumnNames
    ensures |OtherReserved(columnName)| == 3
  {
    assert Collections.Distinct(ReservedColumnNames);
    Collections.FilterOutOne(ReservedColumnNames, columnName, (x: string) => x != columnName);
  }

  // ---------------------------------------------------------------------
  // ReferenceDataRecordUploadForm.clean_file and clean_identifier
  // ---------------------------------------------------------------------

  const HeadersMissing := "Please ensure the uploaded csv file headers include all the target reference dataset columns"

  function LowerAll(names: seq<string>): (r: seq<string>)
    ensures |r| == |names| && forall i :: 0 <= i < |names| ==> r[i] == Text.Lower(names[i])
  {
    seq(|names|, i requires 0 <= i < |names| => Text.Lower(names[i]))
  }

  /**
   * clean_file: the CSV's header row (None when the file has none, which
   * makes the lower-casing raise) must hold every editable field's name,
   * compared in lower case.
   */
  function CleanUploadHeaders(headers: Option<seq<string>>, editable: seq<string>): (r: Result<(), Failure>)
    ensures headers.None? ==> r == Err(Raised("TypeError"))
    ensures headers.Some? ==>
              (r.Ok? <==> forall f :: f in editable ==> exists h :: h in headers.value && Text.Lower(h) == Text.Lower(f))
    ensures headers.Some? && r.Err? ==> r.error == ValidationError(HeadersMissing)
  {
    if headers.None? then Err(Raised("TypeError"))
    else
      var fields := LowerAll(headers.value);
      if forall f :: f in editable ==> Text.Lower(f) in fields then Ok(())
      else Err(ValidationError(HeadersMissing))
  }

  lemma LowerIdempotent(s: string)
    ensures Text.Lower(Text.Lower(s)) == Text.Lower(s)
  {
    var l := Text.Lower(s);
    assert forall i :: 0 <= i < |l| ==> Text.LowerChar(l[i]) == l[i];
  }

  /** The header check ignores letter case: lower-casing the headers first changes nothing. */
  lemma UploadHeadersIgnoreCase(headers: seq<string>, editable: seq<string>)
    ensures CleanUploadHeaders(Some(LowerAll(headers)), editable) == CleanUploadHeaders(Some(headers), editable)
  {
    forall i | 0 <= i < |headers|
      ensures LowerAll(LowerAll(headers))[i] == LowerAll(headers)[i]
    {
      LowerIdempotent(headers[i]);
    }
    assert LowerAll(LowerAll(headers)) == LowerAll(headers);
  }

  /** A file whose headers are exactly the editable fields' names is accepted. */
  lemma UploadOwnHeaders(editable: seq<string>)
    ensures CleanUploadHeaders(Some(editable), editable) == Ok(())
  {
  }

  /** A reference dataset record: its id, its column values (absent is null) and its foreign keys. */
  datatype RefRecord = RefRecord(id: nat, values: map<string, string>, links: map<string, nat>)

  const IdentifierTaken := "A record with this identifier already exists"

  /**
   * clean_identifier: when the identifier column was cleaned, no other
   * record may hold the same value (`.exclude(id=None)` excludes nothing,
   * so a new record is compared with all of them); the value is returned,
   * which raises KeyError when the column was not cleaned.
   */
  function CleanIdentifier(idField: string, cleaned: map<string, string>, records: seq<RefRecord>, selfId: Option<nat>)
    : (r: Result<string, Failure>)
    ensures idField !in cleaned ==> r == Err(Raised("KeyError"))
    ensures idField in cleaned ==>
              (r.Err? <==> exists rec :: rec in records && idField in rec.values && rec.values[idField] == cleaned[idField]
                                           && (selfId.None? || rec.id != selfId.value))
    ensures r.Ok? ==> idField in cleaned && r.value == cleaned[idField]
    ensures idField in cleaned && r.Err? ==> r.error == ValidationError(IdentifierTaken)
  {
    if idField !in cleaned then Err(Raised("KeyError"))
    else
      var others := Collections.Filter(records, (rec: RefRecord) =>
                                         idField in rec.values && rec.values[idField] == cleaned[idField]
                                         && (selfId.None? || rec.id != selfId.value));
      if others != [] then
        assert others[0] in others;
        Err(ValidationError(IdentifierTaken))
      else Ok(cleaned[idField])
  }

  /** Saving a record with its own unchanged identifier passes when identifiers are unique. */
  lemma IdentifierKeptByItsRecord(idField: string, records: seq<RefRecord>, k: nat)
    requires k < |records| && idField in records[k].values
    requires forall i, j :: 0 <= i < |records| && 0 <= j < |records| && idField in records[i].values
                            && idField in records[j].values && records[i].values[idField] == records[j].values[idField]
                            ==> i == j
    ensures CleanIdentifier(idField, map[idField := records[k].values[idField]], records, Some(records[k].id))
            == Ok(records[k].values[idField])
  {
    var v := records[k].values[idField];
    forall rec | rec in records && idField in rec.values && rec.values[idField] == v
      ensures rec.id == records[k].id
    {
      var i :| 0 <= i < |records| && records[i] == rec;
      assert i == k;
    }
  }

  /** A new record may not reuse any record's identifier. */
  lemma NewRecordIdentifierTaken(idField: string, records: seq<RefRecord>, k: nat)
    requires k < |records| && idField in records[k].values
    ensures CleanIdentifier(idField, map[idField := records[k].values[idField]], records, None).Err?
  {
    assert records[k] in records;
  }

  // ---------------------------------------------------------------------
  // ReferenceDataRowDeleteForm.clean
  // ---------------------------------------------------------------------

  /**
   * A field of another reference dataset that links to the one a record is
   * deleted from: its column and the records of its own dataset.
   */
  datatype LinkingField = LinkingField(column: string, records: seq<RefRecord>)

  /**
   * `filter(<column>__id=target)`; a missing id filters on NULL, matching
   * the records whose link is empty.
   */
  predicate LinksTo(rec: RefRecord, column: string, target: Option<nat>)
  {
    match target
    case None => column !in rec.links
    case Some(t) => column in rec.links && rec.links[column] == t
  }

  /** The records of every linking field that point at the target, field by field. */
  function Conflicts(fields: seq<LinkingField>, target: Option<nat>): (r: seq<RefRecord>)
    ensures forall rec :: rec in r <==>
              exists i :: 0 <= i < |fields| && rec in fields[i].records && LinksTo(rec, fields[i].column, target)
  {
    if fields == [] then []
    else
      var init := fields[..|fields| - 1];
      var last := fields[|fields| - 1];
      assert forall i :: 0 <= i < |init| ==> init[i] == fields[i];
      Conflicts(init, target) + Collections.Filter(last.records, (rec: RefRecord) => LinksTo(rec, last.column, target))
  }

  lemma ConflictsStep(fields: seq<LinkingField>, i: nat, target: Option<nat>)
    requires i < |fields|
    ensures Conflicts(fields[..i + 1], target)
            == Conflicts(fields[..i], target)
               + Collections.Filter(fields[i].records, (rec: RefRecord) => LinksTo(rec, fields[i].column, target))
  {
    assert fields[..i + 1][..i] == fields[..i];
  }

  /**
   * The delete form's clean: it gathers the conflicting records field by
   * field and fails, listing them, when there is any.
   */
  method CleanRowDelete(fields: seq<LinkingField>, target: Option<nat>) returns (r: Result<(), seq<RefRecord>>)
    ensures r.Err? <==> Conflicts(fields, target) != []
    ensures r.Err? ==> r.error == Conflicts(fields, target)
  {
    var conflicts: seq<RefRecord> := [];
    for i := 0 to |fields|
      invariant conflicts == Conflicts(fields[..i], target)
    {
      ConflictsStep(fields, i, target);
      var column := fields[i].column;
      conflicts := conflicts + Collections.Filter(fields[i].records, (rec: RefRecord) => LinksTo(rec, column, target));
    }
    assert fields[..|fields|] == fields;
    if conflicts != [] {
      r := Err(conflicts);
    } else {
      r := Ok(());
    }
  }

  /** A record may be deleted exactly when no record of a linking field points at it. */
  lemma DeleteAllowed(fields: seq<LinkingField>, target: nat)
    ensures Conflicts(fields, Some(target)) == [] <==>
              forall i, rec :: 0 <= i < |fields| && rec in fields[i].records ==>
                !(fields[i].column in rec.links && rec.links[fields[i].column] == target)
  {
    var c := Conflicts(fields, Some(target));
    if c != [] {
      assert c[0] in c;
      var i :| 0 <= i < |fields| && c[0] in fields[i].records && LinksTo(c[0], fields[i].column, Some(target));
    } else {
      forall i, rec | 0 <= i < |fields| && rec in fields[i].records
        ensures !(fields[i].column in rec.links && rec.links[fields[i].column] == target)
      {
        assert rec !in c;
        assert !LinksTo(rec, fields[i].column, Some(target));
      }
    }
  }

  // ---------------------------------------------------------------------
  // CustomDatasetQueryInlineForm.clean
  // ---------------------------------------------------------------------

  const MustReview := "You must review this SQL query before the dataset can be published."

  /**
   * A custom query's inline form: the `reviewed` value in its cleaned data,
   * the saved query's own `reviewed` flag, the fields the user changed and
   * whether the chosen dataset is published. The dataset is always in the
   * cleaned data: the form is used inline under its dataset, and the
   * inline formset supplies that parent, so the `cleaned_data['dataset']`
   * lookup does not raise KeyError here.
   */
  class QueryInlineForm {
    var cleanedReviewed: Option<bool>
    var instanceReviewed: bool
    const changed: set<string>
    const datasetPublished: bool

    constructor (cleanedReviewed: Option<bool>, instanceReviewed: bool, changed: set<string>, datasetPublished: bool)
      ensures this.cleanedReviewed == cleanedReviewed && this.instanceReviewed == instanceReviewed
      ensures this.changed == changed && this.datasetPublished == datasetPublished
    {
      this.cleanedReviewed := cleanedReviewed;
      this.instanceReviewed := instanceReviewed;
      this.changed := changed;
      this.datasetPublished := datasetPublished;
    }

    /**
     * An unreviewed query may not belong to a published dataset; editing
     * anything but `reviewed` on a reviewed query of an unpublished dataset
     * withdraws the review, in the cleaned data and on the saved query.
     */
    method Clean() returns (r: Result<(), string>)
      modifies this
      ensures r.Err? <==> old(cleanedReviewed) == Some(false) && datasetPublished
      ensures r.Err? ==> r.error == MustReview && cleanedReviewed == old(cleanedReviewed)
                         && instanceReviewed == old(instanceReviewed)
      ensures r.Ok? ==>
                var withdraw := old(instanceReviewed) && !datasetPublished && changed - {"reviewed"} != {};
                && cleanedReviewed == (if withdraw then Some(false) else old(cleanedReviewed))
                && instanceReviewed == (if withdraw then false else old(instanceReviewed))
      ensures r.Ok? && datasetPublished ==> cleanedReviewed != Some(false) && instanceReviewed == old(instanceReviewed)
    {
      if cleanedReviewed == Some(false) && datasetPublished {
        return Err(MustReview);
      }
      if instanceReviewed && !datasetPublished {
        if changed - {"reviewed"} != {} {
          cleanedReviewed := Some(false);
          instanceReviewed := false;
        }
      }
      r := Ok(());
    }
  }

  // ---------------------------------------------------------------------
  // VisualisationLinkForm.clean_identifier
  // ---------------------------------------------------------------------

  const NotUuid := "Quicksight identifiers must be a UUID."

  /**
   * A QuickSight link's identifier must be a UUID (`isUuid` stands for
   * what uuid.UUID accepts; a missing identifier makes it raise a
   * TypeError); other types, or none, accept any identifier.
   */
  function CleanVisualisationIdentifier(visualisationType: Option<string>, identifier: Option<string>,
                                        isUuid: string -> bool): (r: Result<Option<string>, Failure>)
    ensures r.Ok? ==> r.value == identifier
    ensures visualisationType != Some("QUICKSIGHT") ==> r == Ok(identifier)
    ensures visualisationType == Some("QUICKSIGHT") ==>
              (identifier.None? <==> r == Err(Raised("TypeError")))
              && (r == Err(ValidationError(NotUuid)) <==> identifier.Some? && !isUuid(identifier.value))
  {
    if visualisationType.None? || visualisationType.value == "" then Ok(identifier)
    else if visualisationType.value == "QUICKSIGHT" then
      if identifier.None? then Err(Raised("TypeError"))
      else if !isUuid(identifier.value) then Err(ValidationError(NotUuid))
      else Ok(identifier)
    else Ok(identifier)
  }
}
