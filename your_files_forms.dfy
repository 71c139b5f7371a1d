/**
 * The form that names the CSV file a table is to be created from: the
 * file must lie in the user's own folder, be a CSV file, and exist.
 */
module YourFilesForms {
  import opened Text
  import opened Digest
  import CoreCredentials

  const PermissionMessage := "You don't have permission to access this file"
  const FileTypeMessage := "Invalid file type. Only CSV files are currently supported"

  /**
   * The outcome of cleaning the path: the path itself, a validation error
   * with its message, or the exception head_object raises for a missing
   * object, which the form does not catch.
   */
  datatype Cleaned = Valid(path: string) | Invalid(message: string) | HeadObjectFailed

  /**
   * CreateTableForm.clean_path: the user's folder is checked first, the
   * '.csv' ending second, and only then is the object looked up
   * (`objectExists` is what head_object finds).
   */
  function CleanPath(path: string, sha: Sha256, ssoId: string, objectExists: bool): (r: Cleaned)
    ensures r == Invalid(PermissionMessage) <==> !StartsWith(path, CoreCredentials.S3Prefix(sha, ssoId))
    ensures r == Invalid(FileTypeMessage) <==>
              StartsWith(path, CoreCredentials.S3Prefix(sha, ssoId)) && !EndsWith(path, ".csv")
    ensures r == HeadObjectFailed <==>
              StartsWith(path, CoreCredentials.S3Prefix(sha, ssoId)) && EndsWith(path, ".csv") && !objectExists
    ensures r.Valid? ==> r.path == path && objectExists
  {
    if !StartsWith(path, CoreCredentials.S3Prefix(sha, ssoId)) then Invalid(PermissionMessage)
    else if !EndsWith(path, ".csv") then Invalid(FileTypeMessage)
    else if !objectExists then HeadObjectFailed
    else Valid(path)
  }

  /**
   * A file in another user's folder is refused with the permission error,
   * whatever its name and whether or not it exists, when the two users'
   * hashes differ.
   */
  lemma ForeignPathRefused(sha: Sha256, ssoId: string, other: string, rest: string, objectExists: bool)
    requires sha(ssoId) != sha(other)
    ensures CleanPath(CoreCredentials.S3Prefix(sha, other) + rest, sha, ssoId, objectExists)
            == Invalid(PermissionMessage)
  {
    CoreCredentials.S3PrefixesSeparate(sha, ssoId, other, rest);
  }

  /** An existing CSV file in the user's own folder is accepted as named. */
  lemma OwnCsvAccepted(sha: Sha256, ssoId: string, name: string)
    ensures var path := CoreCredentials.S3Prefix(sha, ssoId) + name + ".csv";
            CleanPath(path, sha, ssoId, true) == Valid(path)
  {
    var prefix := CoreCredentials.S3Prefix(sha, ssoId);
    var path := prefix + name + ".csv";
    assert path[..|prefix|] == prefix;
    assert path[|path| - 4..] == ".csv";
  }
}
