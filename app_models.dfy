/**
 * The declarative part of the standalone application models: field choices,
 * defaults, validators, length limits and uniqueness constraints, and the
 * post-save hook that gives every user a profile.
 *
 * A RegexValidator runs `re.search`, so an expression without `^` may match
 * anywhere, and `$` matches at the very end or just before a final newline.
 */
module AppModels {
  import opened Wrappers
  import opened Text

  /** The three values allowed by ApplicationInstance.state's choices. */
  datatype InstanceState = Spawning | Running | Stopped

  const DefaultInstanceState: InstanceState := Spawning

  function StateName(s: InstanceState): string
  {
    match s
    case Spawning => "SPAWNING"
    case Running => "RUNNING"
    case Stopped => "STOPPED"
  }

  /** Reading a stored state back; a value outside the choices is refused. */
  function ParseState(name: string): (r: Option<InstanceState>)
    ensures r.Some? ==> StateName(r.value) == name
  {
    if name == "SPAWNING" then Some(Spawning)
    else if name == "RUNNING" then Some(Running)
    else if name == "STOPPED" then Some(Stopped)
    else None
  }

  /** Every choice parses back to itself, and the default is one of them. */
  lemma StateChoicesRoundTrip(s: InstanceState)
    ensures ParseState(StateName(s)) == Some(s)
    ensures ParseState(StateName(DefaultInstanceState)) == Some(Spawning)
  {
  }

  /** The position just past the text a trailing `$` may match against. */
  predicate DollarAt(s: string, end: nat)
  {
    end == |s| || (end + 1 == |s| && s[end] == '\n')
  }

  /** `^[a-z]+$`, the ApplicationTemplate.name validator. */
  predicate TemplateNameMatches(s: string)
  {
    exists end: nat :: DollarAt(s, end) && 1 <= end <= |s| && forall k :: 0 <= k < end ==> IsLower(s[k])
  }

  /** `^[a-zA-Z0-9\- ]+$`, the ApplicationTemplate.nice_name validator. */
  predicate NiceNameChar(c: char) { IsAlnum(c) || c == '-' || c == ' ' }

  predicate NiceNameMatches(s: string)
  {
    exists end: nat :: DollarAt(s, end) && 1 <= end <= |s| && forall k :: 0 <= k < end ==> NiceNameChar(s[k])
  }

  /** The characters `[a-zA-Z0-9_\.]` that follow the first letter of a schema or table name. */
  predicate IdentChar(c: char) { IsAlnum(c) || c == '_' || c == '.' }

  /** `^[a-zA-Z][a-zA-Z0-9_\.]*$`, the Privilage.schema validator. */
  predicate SchemaMatches(s: string)
  {
    exists end: nat :: DollarAt(s, end) && 1 <= end <= |s| && IsLetter(s[0])
      && forall k :: 1 <= k < end ==> IdentChar(s[k])
  }

  /**
   * The first alternative of the Privilage.tables validator, searched from any
   * start: some letter is followed by identifier characters only, up to where
   * `$` matches, so that the match does not end in a comma.
   */
  predicate TableListMatchesBefore(s: string, end: nat)
    requires end <= |s|
  {
    exists j :: 0 <= j < end && IsLetter(s[j]) && forall k :: j <= k < end ==> IdentChar(s[k])
  }

  /** `(([a-zA-Z][a-zA-Z0-9_\.]*,?)+(?<!,)$)|(^ALL TABLES$)`, searched. */
  predicate TablesMatches(s: string)
  {
    TableListMatchesBefore(s, |s|)
    || (|s| > 0 && s[|s| - 1] == '\n' && TableListMatchesBefore(s, |s| - 1))
    || s == "ALL TABLES" || s == "ALL TABLES\n"
  }

  /** `[A-Za-z0-9_]`, the Database.memorable_name validator: one such character anywhere. */
  predicate MemorableNameMatches(s: string)
  {
    exists i :: 0 <= i < |s| && IsWordChar(s[i])
  }

  datatype ApplicationTemplate = ApplicationTemplate(name: string, niceName: string, spawner: string, spawnerOptions: string)

  datatype Database = Database(id: string, memorableName: string, isPublic: bool)

  datatype Privilage = Privilage(user: nat, database: string, schema: string, tables: string)

  /** Full validation of a template row: validators, blank and max_length. */
  predicate TemplateValid(t: ApplicationTemplate)
  {
    TemplateNameMatches(t.name) && |t.name| <= 128
    && NiceNameMatches(t.niceName) && |t.niceName| <= 128
    && t.spawner == "PROCESS" && t.spawnerOptions != "" && |t.spawnerOptions| <= 10240
  }

  predicate DatabaseValid(d: Database)
  {
    d.memorableName != "" && |d.memorableName| <= 128 && MemorableNameMatches(d.memorableName)
  }

  predicate PrivilageValid(p: Privilage)
  {
    p.schema != "" && |p.schema| <= 1024 && SchemaMatches(p.schema)
    && p.tables != "" && |p.tables| <= 1024 && TablesMatches(p.tables)
  }

  /** A new Database row: is_public defaults to False. */
  function NewDatabase(id: string, memorableName: string): (d: Database)
    ensures !d.isPublic && d.memorableName == memorableName
  {
    Database(id, memorableName, false)
  }

  /** A new Privilage row whose schema was left at its default. */
  function NewPrivilage(user: nat, database: string, tables: string): (p: Privilage)
    ensures p.schema == "public"
  {
    Privilage(user, database, "public", tables)
  }

  /** The default schema passes the schema validator, so a privilege with a valid table list is valid. */
  lemma DefaultPrivilageValid(user: nat, database: string, tables: string)
    requires tables != "" && |tables| <= 1024 && TablesMatches(tables)
    ensures PrivilageValid(NewPrivilage(user, database, tables))
  {
    var s := "public";
    assert DollarAt(s, 6);
    assert forall k :: 1 <= k < 6 ==> IdentChar(s[k]);
  }

  lemma AllTablesAccepted()
    ensures TablesMatches("ALL TABLES")
  {
  }

  /** A table list ending in a comma is refused, whatever precedes it. */
  lemma TrailingCommaRejected(s: string)
    requires |s| > 0 && s[|s| - 1] == ','
    ensures !TablesMatches(s)
  {
  }

  /** The first alternative has no `^`: text before the last name is not checked. */
  lemma TablesUnanchoredStart()
    ensures TablesMatches("; x")
  {
    var s := "; x";
    assert IsLetter(s[2]);
  }

  /** `$` also matches before a final newline, so a name with one trailing newline passes. */
  lemma TemplateNameTrailingNewline()
    ensures TemplateNameMatches("abc\n")
    ensures !TemplateNameMatches("ab1")
  {
    assert DollarAt("abc\n", 3);
    var s := "ab1";
    assert !IsLower(s[2]);
  }

  /** The memorable-name validator needs only one word character somewhere. */
  lemma MemorableNameSearch()
    ensures MemorableNameMatches("-a-") && !MemorableNameMatches("--")
  {
    var s := "-a-";
    assert IsWordChar(s[1]);
  }

  /** Template names and nice names are unique across the table. */
  predicate TemplatesUnique(ts: seq<ApplicationTemplate>)
  {
    forall i, j :: 0 <= i < j < |ts| ==> ts[i].name != ts[j].name && ts[i].niceName != ts[j].niceName
  }

  /** unique_together = ('user', 'database', 'schema'). */
  predicate PrivilagesUnique(ps: seq<Privilage>)
  {
    forall i, j :: 0 <= i < j < |ps| ==>
      (ps[i].user, ps[i].database, ps[i].schema) != (ps[j].user, ps[j].database, ps[j].schema)
  }

  /** Inserting into a table under unique_together: a clash raises IntegrityError and inserts nothing. */
  function InsertPrivilage(ps: seq<Privilage>, p: Privilage): (r: Result<seq<Privilage>, string>)
    requires PrivilagesUnique(ps)
    ensures r.Ok? <==> forall i :: 0 <= i < |ps| ==> (ps[i].user, ps[i].database, ps[i].schema) != (p.user, p.database, p.schema)
    ensures r.Ok? ==> r.value == ps + [p] && PrivilagesUnique(r.value)
  {
    if exists i :: 0 <= i < |ps| && (ps[i].user, ps[i].database, ps[i].schema) == (p.user, p.database, p.schema)
    then Err("IntegrityError")
    else Ok(ps + [p])
  }

  /**
   * Profiles keyed by user; the post-save hook on User creates a missing
   * profile with a fresh uuid4 and saves it.
   */
  class Profiles {
    var ssoOf: map<nat, string>

    /** Profile.sso_id is unique. */
    ghost predicate Valid()
      reads this
    {
      forall u, v :: u in ssoOf && v in ssoOf && u != v ==> ssoOf[u] != ssoOf[v]
    }

    constructor ()
      ensures Valid() && ssoOf == map[]
    {
      ssoOf := map[];
    }

    /**
     * save_user_profile: the existing profile is kept; otherwise a profile
     * with sso id `newSso` is created, unless that id is taken (IntegrityError).
     */
    method SaveUserProfile(user: nat, newSso: string) returns (ok: bool)
      requires Valid()
      modifies this
      ensures Valid()
      ensures user in old(ssoOf) ==> ok && ssoOf == old(ssoOf)
      ensures user !in old(ssoOf) ==> ok == (newSso !in old(ssoOf).Values)
      ensures user !in old(ssoOf) && ok ==> ssoOf == old(ssoOf)[user := newSso]
      ensures !ok ==> ssoOf == old(ssoOf)
      ensures ok ==> user in ssoOf
    {
      if user in ssoOf {
        return true;
      }
      if newSso in ssoOf.Values {
        return false;
      }
      ssoOf := ssoOf[user := newSso];
      ok := true;
    }
  }
}
