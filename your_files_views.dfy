/**
 * The pages of the create-table flow: the page that asks which CSV file
 * to import, the import it starts, and the status pages the flow
 * redirects to. Every page sits behind the create-table feature flag.
 */
module YourFilesViews {
  import opened Wrappers
  import opened Text
  import opened Digest
  import CoreCredentials
  import YourFilesUtils
  import YourFilesForms

  /** A redirect's query string: url-encoded pairs, or text written out by hand. */
  datatype Query = Encoded(params: seq<(string, string)>) | Raw(text: string)

  datatype Response =
    | NotFound
    | BadRequest(message: string)
    | Page(template: string, context: map<string, string>)
    | Redirect(route: string, query: Query)
    | ServerError(exception: string)

  const CreateTableTemplate := "your_files/create-table.html"
  const FailedTemplate := "your_files/create-table-failed.html"
  const ValidatingRoute := "your-files:create-table-validating"
  const FailedRoute := "your-files:create-table-failed"
  const RequiredMessage := "This field is required."
  const NullCharactersMessage := "Null characters are not allowed."

  /** The 400 message naming a missing query parameter. */
  function MissingParameter(param: string): string
  {
    "Expected a `" + param + "` parameter for the CSV file"
  }

  /** path.split('/')[-1]: the file name shown for a path. */
  function FileName(path: string): (r: string)
    ensures r == BaseName(path)
  {
    var parts := Split(path, '/');
    SplitLastIsBaseName(path);
    parts[|parts| - 1]
  }

  /**
   * CreateTableView.get: with the flag on, a request without 'path' is a
   * bad request; otherwise the page shows the path and its file name.
   */
  function CreateTableGet(flag: bool, query: map<string, string>): (r: Response)
    ensures !flag <==> r == NotFound
    ensures r.BadRequest? <==> flag && "path" !in query
    ensures r.BadRequest? ==> r.message == MissingParameter("path")
    ensures r.Page? <==> flag && "path" in query
    ensures r.Page? ==> r == Page(CreateTableTemplate, map["path" := query["path"], "filename" := BaseName(query["path"])])
  {
    if !flag then NotFound
    else if "path" !in query then BadRequest(MissingParameter("path"))
    else Page(CreateTableTemplate, map["path" := query["path"], "filename" := FileName(query["path"])])
  }

  /** CreateTableFailedView.get: the failed page needs the file name. */
  function FailedGet(flag: bool, query: map<string, string>): (r: Response)
    ensures !flag <==> r == NotFound
    ensures r.BadRequest? <==> flag && "filename" !in query
    ensures r.BadRequest? ==> r.message == MissingParameter("filename")
    ensures r.Page? <==> flag && "filename" in query
    ensures r.Page? ==> r == Page(FailedTemplate, map["filename" := query["filename"]])
  {
    if !flag then NotFound
    else if "filename" !in query then BadRequest(MissingParameter("filename"))
    else Page(FailedTemplate, map["filename" := query["filename"]])
  }

  /** The parameters every status page (validating, ingesting, success) needs, in the order checked. */
  const RequiredParameters: seq<string> := ["filename", "schema", "table_name", "execution_date"]

  /** The first of the parameters the query lacks. */
  function FirstMissing(params: seq<string>, query: map<string, string>): (r: Option<string>)
    ensures r.None? <==> forall i :: 0 <= i < |params| ==> params[i] in query
    ensures r.Some? ==> r.value in params && r.value !in query
  {
    if params == [] then None
    else if params[0] !in query then Some(params[0])
    else
      var r := FirstMissing(params[1..], query);
      assert forall i :: 0 < i < |params| ==> params[i] == params[1..][i - 1];
      r
  }

  /** The parameter found missing is preceded only by present ones. */
  lemma {:induction false} FirstMissingAt(params: seq<string>, query: map<string, string>, i: nat)
    requires i < |params| && params[i] !in query
    requires forall j :: 0 <= j < i ==> params[j] in query
    ensures FirstMissing(params, query) == Some(params[i])
  {
    if i > 0 {
      FirstMissingAt(params[1..], query, i - 1);
    }
  }

  /** The status page's context: each required parameter with its value. */
  function StatusContext(query: map<string, string>): (r: map<string, string>)
    ensures forall p :: p in r <==> p in RequiredParameters && p in query
    ensures forall p :: p in r ==> r[p] == query[p]
  {
    map p | p in RequiredParameters && p in query :: query[p]
  }

  /**
   * BaseCreateTableTemplateView.get: the required parameters are checked
   * in order, and the first one missing is named in a bad request;
   * otherwise the status page is shown with their values.
   */
  method StatusPageGet(template: string, flag: bool, query: map<string, string>) returns (r: Response)
    ensures !flag ==> r == NotFound
    ensures flag && FirstMissing(RequiredParameters, query).Some? ==>
              r == BadRequest(MissingParameter(FirstMissing(RequiredParameters, query).value))
    ensures flag && FirstMissing(RequiredParameters, query).None? ==>
              r == Page(template, StatusContext(query)) && r.context.Keys == set p | p in RequiredParameters
  {
    if !flag {
      return NotFound;
    }
    for i := 0 to |RequiredParameters|
      invariant forall j :: 0 <= j < i ==> RequiredParameters[j] in query
    {
      var param := RequiredParameters[i];
      if param !in query {
        FirstMissingAt(RequiredParameters, query, i);
        return BadRequest(MissingParameter(param));
      }
    }
    r := Page(template, StatusContext(query));
  }

  /**
   * form_invalid: a redirect to the failed page with the posted path's
   * file name written into the query string as it is; a post without a
   * path fails on the lookup.
   */
  function FormInvalid(data: map<string, string>): (r: Response)
    ensures "path" !in data <==> r == ServerError("KeyError")
    ensures "path" in data ==> r == Redirect(FailedRoute, Raw("filename=" + BaseName(data["path"])))
  {
    if "path" !in data then ServerError("KeyError")
    else Redirect(FailedRoute, Raw("filename=" + FileName(data["path"])))
  }

  /**
   * The path field's cleaning: the field is required and its value is
   * stripped (an empty value counts as missing), a value holding a null
   * character is refused by CharField's own validator, then clean_path runs.
   */
  function CleanForm(data: map<string, string>, sha: Sha256, ssoId: string, objectExists: bool)
    : (r: YourFilesForms.Cleaned)
    ensures "path" !in data || Strip(data["path"]) == "" ==> r == YourFilesForms.Invalid(RequiredMessage)
    ensures "path" in data && Strip(data["path"]) != "" && '\0' in Strip(data["path"]) ==>
              r == YourFilesForms.Invalid(NullCharactersMessage)
    ensures "path" in data && Strip(data["path"]) != "" && '\0' !in Strip(data["path"]) ==>
              r == YourFilesForms.CleanPath(Strip(data["path"]), sha, ssoId, objectExists)
  {
    if "path" !in data || Strip(data["path"]) == "" then YourFilesForms.Invalid(RequiredMessage)
    else if '\0' in Strip(data["path"]) then YourFilesForms.Invalid(NullCharactersMessage)
    else YourFilesForms.CleanPath(Strip(data["path"]), sha, ssoId, objectExists)
  }

  /** The schema a user's tables are created in: the user stem and the user's suffix. */
  function UserSchema(sha: Sha256, ssoId: string): (r: string)
    ensures StartsWith(r, CoreCredentials.Stem) && r[|CoreCredentials.Stem|..] == CoreCredentials.SuffixForUser(sha, ssoId)
  {
    CoreCredentials.RoleOrSchema(CoreCredentials.SuffixForUser(sha, ssoId))
  }

  /** The import the create-table flow asks the data pipeline to run. */
  datatype DagTrigger = DagTrigger(importPath: string, schema: string, table: string,
                                   columns: map<string, string>, runId: string)

  /** The parameters of the redirect to the validating page. */
  function ValidatingParams(path: string, schema: string, table: string, executionDate: string)
    : (r: seq<(string, string)>)
    ensures |r| == |RequiredParameters|
    ensures forall i :: 0 <= i < |r| ==> r[i].0 == RequiredParameters[i]
  {
    var keys := RequiredParameters;
    [(keys[0], FileName(path)), (keys[1], schema), (keys[2], table), (keys[3], executionDate)]
  }

  /** The query a list of url-encoded pairs reads back as; a later pair wins. */
  function ParamsMap(params: seq<(string, string)>): (r: map<string, string>)
    ensures forall k :: k in r <==> exists i :: 0 <= i < |params| && params[i].0 == k
  {
    if params == [] then map[]
    else
      var init := params[..|params| - 1];
      var m := ParamsMap(init);
      assert forall i :: 0 <= i < |init| ==> init[i] == params[i];
      m[params[|params| - 1].0 := params[|params| - 1].1]
  }

  /** The redirect after a started import carries everything the status pages require. */
  lemma ValidatingRedirectComplete(path: string, schema: string, table: string, executionDate: string)
    ensures FirstMissing(RequiredParameters, ParamsMap(ValidatingParams(path, schema, table, executionDate))).None?
  {
    var params := ValidatingParams(path, schema, table, executionDate);
    var m := ParamsMap(params);
    forall i | 0 <= i < |RequiredParameters| ensures RequiredParameters[i] in m {
      assert params[i].0 == RequiredParameters[i];
    }
  }

  /** Where the file is copied for the import: under the imports root. */
  function ImportPath(importsRoot: string, path: string): string
  {
    importsRoot + "/" + path
  }

  /** The column types get_s3_csv_column_types reads off the file's lines. */
  function SampledColumns(lines: seq<string>, infer: string -> seq<YourFilesUtils.Field>): map<string, string>
  {
    YourFilesUtils.FieldMap(infer(YourFilesUtils.Lines(lines[..YourFilesUtils.Min(|lines|, YourFilesUtils.SampleSize)])))
  }

  /**
   * The import form_valid starts: the copied file, the user's schema, the
   * cleaned table name, the sampled column types, and a run id made of
   * the schema, the table and the time.
   */
  function ImportRun(path: string, sha: Sha256, ssoId: string, importsRoot: string, cleanIdentifier: string -> string,
                     columns: map<string, string>, now: string): DagTrigger
  {
    var schema := UserSchema(sha, ssoId);
    var table := cleanIdentifier(path);
    DagTrigger(ImportPath(importsRoot, path), schema, table, columns, schema + "-" + table + "-" + now)
  }

  /** The redirect to the validating page once the import has started. */
  function ValidatingRedirect(path: string, sha: Sha256, ssoId: string, cleanIdentifier: string -> string,
                              executionDate: string): Response
  {
    Redirect(ValidatingRoute, Encoded(ValidatingParams(path, UserSchema(sha, ssoId), cleanIdentifier(path), executionDate)))
  }

  /** The S3 copies made and the imports started by the flow. */
  class CreateTableFlow {
    var copies: seq<(string, string)>
    var triggers: seq<DagTrigger>

    constructor ()
      ensures copies == [] && triggers == []
    {
      copies := [];
      triggers := [];
    }

    /**
     * CreateTableView.form_valid: the file is copied into the imports
     * folder, its column types are read off its first lines, and the
     * import is started in the user's schema under the table name
     * `cleanIdentifier` gives the path. A refused start (the HTTP error
     * `trigger` holds) goes the way of an invalid form; a started one
     * redirects to the validating page with the file name, schema, table
     * and the run's execution date.
     */
    method FormValid(data: map<string, string>, path: string, sha: Sha256, ssoId: string, importsRoot: string,
                     cleanIdentifier: string -> string, lines: seq<string>,
                     infer: string -> seq<YourFilesUtils.Field>, now: string, trigger: Result<string, int>)
      returns (r: Response)
      modifies this
      ensures copies == old(copies) + [(path, ImportPath(importsRoot, path))]
      ensures triggers == old(triggers) + [ImportRun(path, sha, ssoId, importsRoot, cleanIdentifier,
                                                     SampledColumns(lines, infer), now)]
      ensures trigger.Err? ==> r == FormInvalid(data)
      ensures trigger.Ok? ==> r == ValidatingRedirect(path, sha, ssoId, cleanIdentifier, trigger.value)
    {
      var columnDefinitions := YourFilesUtils.ColumnTypes(lines, infer);
      copies := copies + [(path, ImportPath(importsRoot, path))];
      triggers := triggers + [ImportRun(path, sha, ssoId, importsRoot, cleanIdentifier, columnDefinitions, now)];
      if trigger.Err? {
        return FormInvalid(data);
      }
      r := ValidatingRedirect(path, sha, ssoId, cleanIdentifier, trigger.value);
    }

    /**
     * The post of the create-table page: with the flag off, not found;
     * an invalid form redirects to the failed page, a missing object is
     * an uncaught error, and a valid one starts the import.
     */
    method Post(flag: bool, data: map<string, string>, sha: Sha256, ssoId: string, objectExists: bool,
                importsRoot: string, cleanIdentifier: string -> string, lines: seq<string>,
                infer: string -> seq<YourFilesUtils.Field>, now: string, trigger: Result<string, int>)
      returns (r: Response)
      modifies this
      ensures !flag ==> r == NotFound
      ensures !(flag && CleanForm(data, sha, ssoId, objectExists).Valid?) ==>
                copies == old(copies) && triggers == old(triggers)
      ensures flag && CleanForm(data, sha, ssoId, objectExists).Invalid? ==> r == FormInvalid(data)
      ensures flag && CleanForm(data, sha, ssoId, objectExists).HeadObjectFailed? ==> r == ServerError("ClientError")
      ensures flag && CleanForm(data, sha, ssoId, objectExists).Valid? ==>
                var path := CleanForm(data, sha, ssoId, objectExists).path;
                && copies == old(copies) + [(path, ImportPath(importsRoot, path))]
                && triggers == old(triggers) + [ImportRun(path, sha, ssoId, importsRoot, cleanIdentifier,
                                                          SampledColumns(lines, infer), now)]
                && r == (if trigger.Err? then FormInvalid(data)
                         else ValidatingRedirect(path, sha, ssoId, cleanIdentifier, trigger.value))
                && StartsWith(path, CoreCredentials.S3Prefix(sha, ssoId)) && EndsWith(path, ".csv")
    {
      if !flag {
        return NotFound;
      }
      var cleaned := CleanForm(data, sha, ssoId, objectExists);
      match cleaned
      case Invalid(_) =>
        r := FormInvalid(data);
      case HeadObjectFailed =>
        r := ServerError("ClientError");
      case Valid(path) =>
        r := FormValid(data, path, sha, ssoId, importsRoot, cleanIdentifier, lines, infer, now, trigger);
    }
  }

  /**
   * A path in another user's folder never reaches the import: the form
   * refuses it for its folder, or earlier for a null character.
   */
  lemma ForeignPathNotImported(data: map<string, string>, sha: Sha256, ssoId: string, other: string, rest: string,
                               objectExists: bool)
    requires sha(ssoId) != sha(other)
    requires "path" in data && Strip(data["path"]) == CoreCredentials.S3Prefix(sha, other) + rest
    ensures CleanForm(data, sha, ssoId, objectExists) == YourFilesForms.Invalid(YourFilesForms.PermissionMessage)
            || CleanForm(data, sha, ssoId, objectExists) == YourFilesForms.Invalid(NullCharactersMessage)
    ensures '\0' !in Strip(data["path"]) ==>
              CleanForm(data, sha, ssoId, objectExists) == YourFilesForms.Invalid(YourFilesForms.PermissionMessage)
  {
    YourFilesForms.ForeignPathRefused(sha, ssoId, other, rest, objectExists);
  }
}
