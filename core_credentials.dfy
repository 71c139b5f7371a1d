/**
 * Per-user database credentials: the temporary login and its name, the
 * permanent role and schema named after the user or application, the
 * ordered statements issued against each database, the event trigger's
 * ownership rule, the grouping of source tables by database, the exported
 * credential documents, and the dataset permissions that decide which
 * tables are granted.
 *
 * SQL statements are values of `Cmd`; the random password and login
 * suffix are parameters; whether a table exists, or a statement raises,
 * is given by the caller.
 */
module CoreCredentials {
  import opened Wrappers
  import opened Text
  import opened Digest
  import opened DatasetModels
  import ApplicationsSweep
  import Collections

  /** One DATABASES_DATA entry. */
  datatype DbSettings = DbSettings(host: string, port: string, name: string, user: string, password: string)

  /** The six `key=value` fields of the libpq connection string, in order. */
  function DsnFields(d: DbSettings): seq<string>
  {
    ["host=" + d.host, "port=" + d.port, "dbname=" + d.name, "user=" + d.user,
     "password=" + d.password, "sslmode=require"]
  }

  /** database_dsn: the fields separated by single spaces. */
  function DatabaseDsn(d: DbSettings): string
  {
    Join(DsnFields(d), ' ')
  }

  /** For settings without spaces, splitting the string on spaces gives the six fields back. */
  lemma DsnRoundTrip(d: DbSettings)
    requires ' ' !in d.host && ' ' !in d.port && ' ' !in d.name && ' ' !in d.user && ' ' !in d.password
    ensures Split(DatabaseDsn(d), ' ') == DsnFields(d)
  {
    var parts := DsnFields(d);
    forall i | 0 <= i < |parts|
      ensures ' ' !in parts[i]
    {
    }
    SplitJoin(parts, ' ');
  }

  // ---------------------------------------------------------------------
  // Names

  /** The alphabet of the login's random tail: lowercase ASCII letters and digits. */
  predicate UserAlphabet(c: char) { IsLower(c) || IsDigit(c) }

  /** re.sub('[^a-z0-9]', '_', s) */
  function Sanitize(s: string): (r: string)
    ensures |r| == |s|
    ensures forall i :: 0 <= i < |r| ==> (UserAlphabet(r[i]) || r[i] == '_')
    ensures forall i :: 0 <= i < |r| ==> (UserAlphabet(s[i]) ==> r[i] == s[i])
  {
    seq(|s|, i requires 0 <= i < |s| => if UserAlphabet(s[i]) then s[i] else '_')
  }

  /**
   * postgres_user: "user_", the lowercased and sanitised stem, "_", and
   * five random characters. Its name always passes the sweep's
   * `LIKE 'user_%'` filter, so every login this creates can be swept.
   */
  function PostgresUser(stem: string, unique: string): (r: string)
    requires |unique| == 5 && forall i :: 0 <= i < 5 ==> UserAlphabet(unique[i])
    ensures ApplicationsSweep.LikeUserPattern(r)
    ensures |r| == |stem| + 11 && r[..5] == "user_" && r[|r| - 5..] == unique
    ensures forall i :: 0 <= i < |r| ==> (UserAlphabet(r[i]) || r[i] == '_')
  {
    var r := "user_" + Sanitize(Lower(stem)) + "_" + unique;
    assert r[..4] == "user";
    assert r[|r| - 5..] == unique;
    r
  }

  /** The role and schema suffix of a user: the first eight hex characters of sha256(sso_id). */
  function SuffixForUser(sha: Sha256, ssoId: string): (r: string)
    ensures |r| == 8 && forall i :: 0 <= i < 8 ==> IsHexDigit(r[i])
  {
    Short(sha, ssoId)
  }

  /** The role and schema suffix of an application template. */
  function SuffixForApp(templateName: string): (r: string)
    ensures StartsWith(r, "app_") && |r| == |templateName| + 4
  {
    "app_" + templateName
  }

  const Stem: string := "_user_"

  /**
   * get_new_credentials names the role and the schema with the same
   * f-string, so that the ownership trigger can read a table's role off
   * its schema.
   */
  function RoleOrSchema(suffix: string): (r: string)
    ensures StartsWith(r, Stem) && r[|Stem|..] == suffix
  {
    Stem + suffix
  }

  /** A user's role and schema are never an application's: the hex suffix has no underscore. */
  lemma UserAndAppNamesDisjoint(sha: Sha256, ssoId: string, templateName: string)
    ensures RoleOrSchema(SuffixForUser(sha, ssoId)) != RoleOrSchema(SuffixForApp(templateName))
  {
    var u := RoleOrSchema(SuffixForUser(sha, ssoId));
    var a := RoleOrSchema(SuffixForApp(templateName));
    assert a[|Stem| + 3] == '_';
    if |u| == |a| {
      assert IsHexDigit(SuffixForUser(sha, ssoId)[3]);
      assert u[|Stem| + 3] == SuffixForUser(sha, ssoId)[3];
    }
  }

  // ---------------------------------------------------------------------
  // The ownership rule of the set_table_owner event trigger

  datatype DdlTag = CreateTable | CreateTableAs | AlterTable | OtherDdl

  /** A table, named by schema and table name. */
  type TableName = (string, string)

  /**
   * One firing after a DDL command on `t`: a CREATE/ALTER on a table in a
   * `_user_…` schema whose owner (read from pg_tables) differs from the
   * schema's name is given to the role named like the schema. A table
   * pg_tables does not list has no owner to compare, so it is skipped.
   */
  function SetTableOwner(owners: map<TableName, string>, tag: DdlTag, t: TableName): (r: map<TableName, string>)
    ensures r.Keys == owners.Keys
    ensures forall u :: u in owners && u != t ==> r[u] == owners[u]
    ensures t in owners && tag != OtherDdl && StartsWith(t.0, Stem) ==> r[t] == t.0
    ensures t in owners && !(tag != OtherDdl && StartsWith(t.0, Stem)) ==> r[t] == owners[t]
  {
    if tag != OtherDdl && StartsWith(t.0, Stem) && t in owners && owners[t] != t.0
    then owners[t := t.0]
    else owners
  }

  /**
   * The trigger's own ALTER TABLE fires it again; after a CREATE or ALTER
   * that second firing changes nothing.
   */
  lemma SetTableOwnerIdempotent(owners: map<TableName, string>, tag: DdlTag, t: TableName)
    requires tag != OtherDdl
    ensures SetTableOwner(SetTableOwner(owners, tag, t), AlterTable, t) == SetTableOwner(owners, tag, t)
  {
    var once := SetTableOwner(owners, tag, t);
    if t in owners && StartsWith(t.0, Stem) {
      assert once[t] == t.0;
    }
  }

  // ---------------------------------------------------------------------
  // The statements get_new_credentials issues against one database

  datatype Cmd =
    | CreateUser(user: string, password: string, validUntil: int)
    | GrantConnect(db: string, user: string)
    | CreateRoleIfMissing(role: string)
    | GrantRole(role: string, user: string)
    | CreateSchemaIfNotExists(schema: string)
    | AlterSchemaOwner(schema: string, role: string)
    | DefineSetTableOwner(stem: string)
    | CreateEventTriggerIfMissing
    | CountTable(schema: string, table: string)
    | GrantUsage(schema: string, user: string)
    | GrantSelect(schema: string, table: string, user: string)

  const Day: int := 86400

  /** The password alphabet: 64 characters, each an ASCII letter or digit. */
  predicate PasswordShape(p: string)
  {
    |p| == 64 && forall i :: 0 <= i < 64 ==> IsAlnum(p[i])
  }

  /** The eight statements before the table grants, in order; the login expires 31 days from `now` (seconds). */
  function Prologue(dbName: string, user: string, password: string, now: int, suffix: string): (r: seq<Cmd>)
    ensures |r| == 8
  {
    var role := RoleOrSchema(suffix);
    [CreateUser(user, password, now + 31 * Day), GrantConnect(dbName, user), CreateRoleIfMissing(role),
     GrantRole(role, user), CreateSchemaIfNotExists(role), AlterSchemaOwner(role, role),
     DefineSetTableOwner(Stem), CreateEventTriggerIfMissing]
  }

  /** Per (schema, table): the existence count, then USAGE and SELECT only if the table exists. */
  function TableGrants(tables: seq<TableName>, user: string, present: TableName -> bool): seq<Cmd>
  {
    if tables == [] then []
    else
      var t := tables[|tables| - 1];
      TableGrants(tables[..|tables| - 1], user, present)
      + [CountTable(t.0, t.1)] + (if present(t) then [GrantUsage(t.0, user), GrantSelect(t.0, t.1, user)] else [])
  }

  /** SELECT is granted on exactly the listed tables that exist, and only to the new login. */
  lemma {:induction false} GrantSelectExactly(tables: seq<TableName>, user: string, present: TableName -> bool,
                                              s: string, t: string, u: string)
    ensures GrantSelect(s, t, u) in TableGrants(tables, user, present) <==> u == user && (s, t) in tables && present((s, t))
  {
    if tables != [] {
      var init := tables[..|tables| - 1];
      GrantSelectExactly(init, user, present, s, t, u);
      assert tables == init + [tables[|tables| - 1]];
    }
  }

  /** USAGE is granted on a schema exactly when some listed table of it exists. */
  lemma {:induction false} GrantUsageExactly(tables: seq<TableName>, user: string, present: TableName -> bool,
                                             s: string, u: string)
    ensures GrantUsage(s, u) in TableGrants(tables, user, present)
      <==> u == user && exists t :: (s, t) in tables && present((s, t))
  {
    if tables != [] {
      var init := tables[..|tables| - 1];
      var last := tables[|tables| - 1];
      GrantUsageExactly(init, user, present, s, u);
      assert tables == init + [last];
      if u == user && present((s, last.1)) && last.0 == s {
        assert (s, last.1) in tables;
      }
    }
  }

  /** A database entry and its primary key. */
  datatype DbEntry = DbEntry(id: nat, settings: DbSettings)

  datatype Credential = Credential(
    memorableName: string, dbId: nat, dbName: string, dbHost: string, dbPort: string,
    dbUser: string, dbPassword: string)

  /** get_new_credentials for one database: the statements it issues, then the credential it returns. */
  method GetNewCredentials(memorableName: string, e: DbEntry, suffix: string, dbUser: string, password: string,
                           now: int, tables: seq<TableName>, present: TableName -> bool)
    returns (cmds: seq<Cmd>, cred: Credential)
    requires PasswordShape(password)
    ensures cmds == Prologue(e.settings.name, dbUser, password, now, suffix) + TableGrants(tables, dbUser, present)
    ensures cred == Credential(memorableName, e.id, e.settings.name, e.settings.host, e.settings.port, dbUser, password)
  {
    var role := RoleOrSchema(suffix);
    cmds := [CreateUser(dbUser, password, now + 31 * Day)];
    cmds := cmds + [GrantConnect(e.settings.name, dbUser)];
    cmds := cmds + [CreateRoleIfMissing(role)];
    cmds := cmds + [GrantRole(role, dbUser)];
    cmds := cmds + [CreateSchemaIfNotExists(role)];
    cmds := cmds + [AlterSchemaOwner(role, role)];
    cmds := cmds + [DefineSetTableOwner(Stem)];
    cmds := cmds + [CreateEventTriggerIfMissing];
    ghost var head := cmds;
    var i := 0;
    while i < |tables|
      invariant i <= |tables|
      invariant cmds == head + TableGrants(tables[..i], dbUser, present)
    {
      var t := tables[i];
      assert tables[..i + 1][..i] == tables[..i];
      cmds := cmds + [CountTable(t.0, t.1)];
      if !present(t) {
        // the table is missing: nothing is granted on it
        i := i + 1;
        continue;
      }
      cmds := cmds + [GrantUsage(t.0, dbUser)];
      cmds := cmds + [GrantSelect(t.0, t.1, dbUser)];
      i := i + 1;
    }
    assert tables[..i] == tables;
    cred := Credential(memorableName, e.id, e.settings.name, e.settings.host, e.settings.port, dbUser, password);
  }

  // ---------------------------------------------------------------------
  // Grouping source tables by database

  datatype TableRef = TableRef(database: string, schema: string, table: string)

  /** A stretch of rows with one database, as (database, [(schema, table)]). */
  type Run = (string, seq<TableName>)

  /** itertools.groupby on the database: maximal stretches of consecutive rows with the same database. */
  function GroupRuns(rows: seq<TableRef>): (runs: seq<Run>)
    ensures |runs| <= |rows|
    ensures rows == [] <==> runs == []
    ensures forall i :: 0 <= i < |runs| ==> |runs[i].1| >= 1
    ensures forall i, j :: 0 <= i && j == i + 1 && j < |runs| ==> runs[i].0 != runs[j].0
    ensures runs != [] ==> runs[|runs| - 1].0 == rows[|rows| - 1].database
  {
    if rows == [] then []
    else
      AddRow(GroupRuns(rows[..|rows| - 1]), rows[|rows| - 1])
  }

  /** One more row: it joins the last run when the database is the same, and opens a run otherwise. */
  function AddRow(g: seq<Run>, r: TableRef): seq<Run>
  {
    if g != [] && g[|g| - 1].0 == r.database
    then g[..|g| - 1] + [(r.database, g[|g| - 1].1 + [(r.schema, r.table)])]
    else g + [(r.database, [(r.schema, r.table)])]
  }

  function Expand(run: Run): seq<TableRef>
  {
    seq(|run.1|, j requires 0 <= j < |run.1| => TableRef(run.0, run.1[j].0, run.1[j].1))
  }

  function Flatten(runs: seq<Run>): seq<TableRef>
  {
    if runs == [] then [] else Flatten(runs[..|runs| - 1]) + Expand(runs[|runs| - 1])
  }

  /** The runs, laid end to end, are the rows again: groupby loses nothing and reorders nothing. */
  lemma {:induction false} GroupRunsFlatten(rows: seq<TableRef>)
    ensures Flatten(GroupRuns(rows)) == rows
  {
    if rows != [] {
      var init, r := rows[..|rows| - 1], rows[|rows| - 1];
      GroupRunsFlatten(init);
      FlattenSnoc(GroupRuns(init), r);
      Collections.InitLast(rows);
    }
  }

  /** Adding one row to the runs adds it at the end of their flattening. */
  lemma FlattenSnoc(g: seq<Run>, r: TableRef)
    ensures Flatten(AddRow(g, r)) == Flatten(g) + [r]
  {
    if g != [] && g[|g| - 1].0 == r.database {
      var last := g[|g| - 1];
      var merged := (r.database, last.1 + [(r.schema, r.table)]);
      var runs := g[..|g| - 1] + [merged];
      assert runs[..|runs| - 1] == g[..|g| - 1];
      assert Expand(merged) == Expand(last) + [r];
      assert Flatten(runs) == Flatten(g[..|g| - 1]) + Expand(merged);
    } else {
      var runs := g + [(r.database, [(r.schema, r.table)])];
      assert runs[..|runs| - 1] == g;
      assert Expand((r.database, [(r.schema, r.table)])) == [r];
    }
  }

  function Keys(d: seq<Run>): set<string>
  {
    set e | e in d :: e.0
  }

  predicate DistinctKeys(d: seq<Run>)
  {
    forall i, j :: 0 <= i < j < |d| ==> d[i].0 != d[j].0
  }

  /** `d[k] = v` on an insertion-ordered dict: an existing key keeps its place, a new one goes last. */
  function Assign(d: seq<Run>, k: string, v: seq<TableName>): (r: seq<Run>)
    ensures Keys(r) == Keys(d) + {k}
    ensures (k, v) in r
    ensures forall e :: e in d && e.0 != k ==> e in r
    ensures forall e :: e in r ==> e == (k, v) || e in d
  {
    if d == [] then [(k, v)]
    else if d[0].0 == k then
      Collections.HeadTail(d);
      [(k, v)] + d[1..]
    else
      var rest := Assign(d[1..], k, v);
      Collections.HeadTail(d);
      [d[0]] + rest
  }

  /** Assigning to a dict whose keys are distinct keeps them distinct. */
  lemma {:induction false} AssignKeepsDistinct(d: seq<Run>, k: string, v: seq<TableName>)
    requires DistinctKeys(d)
    ensures DistinctKeys(Assign(d, k, v))
  {
    if d != [] {
      Collections.HeadTail(d);
      HeadAndTailKeys(d);
      if d[0].0 == k {
        ConsKeepsDistinct((k, v), d[1..]);
      } else {
        AssignKeepsDistinct(d[1..], k, v);
        ConsKeepsDistinct(d[0], Assign(d[1..], k, v));
      }
    }
  }

  /** In a dict with distinct keys, the first key is not among the others, which stay distinct. */
  lemma HeadAndTailKeys(d: seq<Run>)
    requires DistinctKeys(d) && d != []
    ensures DistinctKeys(d[1..])
    ensures forall e :: e in d[1..] ==> e.0 != d[0].0
  {
    forall e | e in d[1..] ensures e.0 != d[0].0 {
      var j :| 0 <= j < |d[1..]| && d[1..][j] == e;
      assert d[j + 1] == e;
    }
  }

  /** A key not among a dict's distinct keys can go in front. */
  lemma ConsKeepsDistinct(x: Run, rest: seq<Run>)
    requires DistinctKeys(rest)
    requires forall e :: e in rest ==> e.0 != x.0
    ensures DistinctKeys([x] + rest)
  {
    var r := [x] + rest;
    forall i, j | 0 <= i < j < |r| ensures r[i].0 != r[j].0 {
      assert r[j] == rest[j - 1];
      if i > 0 { assert r[i] == rest[i - 1]; }
    }
  }

  /** The dict comprehension over the runs: each database once, in first-appearance order, with its last run's tables. */
  function DictOf(runs: seq<Run>): (d: seq<Run>)
    ensures DistinctKeys(d)
    ensures Keys(d) == Keys(runs)
  {
    if runs == [] then []
    else
      var init := runs[..|runs| - 1];
      assert runs == init + [runs[|runs| - 1]];
      AssignKeepsDistinct(DictOf(init), runs[|runs| - 1].0, runs[|runs| - 1].1);
      Assign(DictOf(init), runs[|runs| - 1].0, runs[|runs| - 1].1)
  }

  /** The value kept for a database is that of its last run: earlier runs of it are dropped. */
  lemma {:induction false} DictKeepsLastRun(runs: seq<Run>, i: nat)
    requires i < |runs|
    requires forall j :: i < j < |runs| ==> runs[j].0 != runs[i].0
    ensures runs[i] in DictOf(runs)
  {
    var init := runs[..|runs| - 1];
    if i == |runs| - 1 {
    } else {
      DictKeepsLastRun(init, i);
    }
  }

  /** Rows A, B, A (A not contiguous) give one credential for A, with only its last run's table. */
  lemma NonContiguousKeepsLastRun()
    ensures DictOf(GroupRuns([TableRef("a", "s", "t1"), TableRef("b", "s", "t2"), TableRef("a", "s", "t3")]))
      == [("a", [("s", "t3")]), ("b", [("s", "t2")])]
  {
    NonContiguousRuns();
    NonContiguousDict();
  }

  lemma NonContiguousRuns()
    ensures GroupRuns([TableRef("a", "s", "t1"), TableRef("b", "s", "t2"), TableRef("a", "s", "t3")])
      == [("a", [("s", "t1")]), ("b", [("s", "t2")]), ("a", [("s", "t3")])]
  {
    var rows := [TableRef("a", "s", "t1"), TableRef("b", "s", "t2"), TableRef("a", "s", "t3")];
    assert rows[..2] == [TableRef("a", "s", "t1"), TableRef("b", "s", "t2")];
    assert rows[..2][..1] == [TableRef("a", "s", "t1")];
    assert [TableRef("a", "s", "t1")][..0] == [];
    assert GroupRuns(rows[..2][..1]) == [("a", [("s", "t1")])];
    assert GroupRuns(rows[..2]) == [("a", [("s", "t1")]), ("b", [("s", "t2")])];
  }

  lemma NonContiguousDict()
    ensures DictOf([("a", [("s", "t1")]), ("b", [("s", "t2")]), ("a", [("s", "t3")])])
      == [("a", [("s", "t3")]), ("b", [("s", "t2")])]
  {
    var runs := [("a", [("s", "t1")]), ("b", [("s", "t2")]), ("a", [("s", "t3")])];
    assert runs[..2] == [("a", [("s", "t1")]), ("b", [("s", "t2")])];
    assert runs[..2][..1] == [("a", [("s", "t1")])];
    assert [("a", [("s", "t1")])][..0] == [];
  }

  /** What new_private_database_credentials issues and returns: the first failing database aborts everything. */
  function CredentialsFor(entries: seq<Run>, databases: map<string, DbEntry>, suffix: string, dbUser: string,
                          password: string -> string, now: int, present: string -> TableName -> bool,
                          raises: string -> bool): Result<(seq<Cmd>, seq<Credential>), string>
  {
    if entries == [] then Ok(([], []))
    else
      var before := CredentialsFor(entries[..|entries| - 1], databases, suffix, dbUser, password, now, present, raises);
      var m := entries[|entries| - 1].0;
      if before.Err? then before
      else if m !in databases || raises(m) then Err(m)
      else
        var e := databases[m];
        Ok((before.value.0 + Prologue(e.settings.name, dbUser, password(m), now, suffix)
              + TableGrants(entries[|entries| - 1].1, dbUser, present(m)),
            before.value.1 + [Credential(m, e.id, e.settings.name, e.settings.host, e.settings.port, dbUser, password(m))]))
  }

  /** With every database known and working there is exactly one credential per distinct database. */
  lemma {:induction false} OneCredentialPerDatabase(entries: seq<Run>, databases: map<string, DbEntry>, suffix: string,
                                                    dbUser: string, password: string -> string, now: int,
                                                    present: string -> TableName -> bool, raises: string -> bool)
    requires forall i :: 0 <= i < |entries| ==> entries[i].0 in databases && !raises(entries[i].0)
    ensures CredentialsFor(entries, databases, suffix, dbUser, password, now, present, raises).Ok?
    ensures var creds := CredentialsFor(entries, databases, suffix, dbUser, password, now, present, raises).value.1;
      |creds| == |entries| && forall i :: 0 <= i < |entries| ==> creds[i].memorableName == entries[i].0
  {
    if entries != [] {
      OneCredentialPerDatabase(entries[..|entries| - 1], databases, suffix, dbUser, password, now, present, raises);
    }
  }

  /**
   * new_private_database_credentials: group the rows, then provision each
   * database in the dict's order. A missing settings entry (KeyError) or a
   * raising statement propagates, and no credentials are returned.
   */
  method NewPrivateDatabaseCredentials(suffix: string, rows: seq<TableRef>, dbUser: string,
                                       databases: map<string, DbEntry>, password: string -> string, now: int,
                                       present: string -> TableName -> bool, raises: string -> bool)
    returns (r: Result<(seq<Cmd>, seq<Credential>), string>)
    requires forall m :: PasswordShape(password(m))
    ensures r == CredentialsFor(DictOf(GroupRuns(rows)), databases, suffix, dbUser, password, now, present, raises)
  {
    r := ProvisionEntries(DictOf(GroupRuns(rows)), databases, suffix, dbUser, password, now, present, raises);
  }

  /** The loop over the dict's entries, stopping at the first failing database. */
  method ProvisionEntries(entries: seq<Run>, databases: map<string, DbEntry>, suffix: string, dbUser: string,
                          password: string -> string, now: int,
                          present: string -> TableName -> bool, raises: string -> bool)
    returns (r: Result<(seq<Cmd>, seq<Credential>), string>)
    requires forall m :: PasswordShape(password(m))
    ensures r == CredentialsFor(entries, databases, suffix, dbUser, password, now, present, raises)
  {
    var cmds: seq<Cmd> := [];
    var creds: seq<Credential> := [];
    var i := 0;
    while i < |entries|
      invariant i <= |entries|
      invariant CredentialsFor(entries[..i], databases, suffix, dbUser, password, now, present, raises) == Ok((cmds, creds))
    {
      assert entries[..i + 1][..i] == entries[..i];
      var m := entries[i].0;
      if m !in databases || raises(m) {
        r := Err(m);
        CredentialsAbort(entries, i, databases, suffix, dbUser, password, now, present, raises);
        return;
      }
      var c, cred := GetNewCredentials(m, databases[m], suffix, dbUser, password(m), now, entries[i].1, present(m));
      CredentialsStep(entries, i, databases, suffix, dbUser, password, now, present, raises);
      assert cmds + c == cmds + Prologue(databases[m].settings.name, dbUser, password(m), now, suffix)
        + TableGrants(entries[i].1, dbUser, present(m));
      cmds, creds := cmds + c, creds + [cred];
      i := i + 1;
    }
    assert entries[..i] == entries;
    r := Ok((cmds, creds));
  }

  /** One more working database appends its statements and its credential. */
  lemma CredentialsStep(entries: seq<Run>, i: nat, databases: map<string, DbEntry>, suffix: string,
                        dbUser: string, password: string -> string, now: int,
                        present: string -> TableName -> bool, raises: string -> bool)
    requires i < |entries|
    requires CredentialsFor(entries[..i], databases, suffix, dbUser, password, now, present, raises).Ok?
    requires entries[i].0 in databases && !raises(entries[i].0)
    ensures var m := entries[i].0;
      var e := databases[m];
      var prev := CredentialsFor(entries[..i], databases, suffix, dbUser, password, now, present, raises).value;
      CredentialsFor(entries[..i + 1], databases, suffix, dbUser, password, now, present, raises)
      == Ok((prev.0 + Prologue(e.settings.name, dbUser, password(m), now, suffix) + TableGrants(entries[i].1, dbUser, present(m)),
             prev.1 + [Credential(m, e.id, e.settings.name, e.settings.host, e.settings.port, dbUser, password(m))]))
  {
    assert entries[..i + 1][..i] == entries[..i];
  }

  /** Once a database fails, the whole result is that failure. */
  lemma {:induction false} CredentialsAbort(entries: seq<Run>, i: nat, databases: map<string, DbEntry>, suffix: string,
                                            dbUser: string, password: string -> string, now: int,
                                            present: string -> TableName -> bool, raises: string -> bool)
    requires i < |entries|
    requires CredentialsFor(entries[..i], databases, suffix, dbUser, password, now, present, raises).Ok?
    requires entries[i].0 !in databases || raises(entries[i].0)
    ensures CredentialsFor(entries, databases, suffix, dbUser, password, now, present, raises) == Err(entries[i].0)
    decreases |entries|
  {
    if |entries| == i + 1 {
      assert entries[..|entries| - 1] == entries[..i];
    } else {
      var init := entries[..|entries| - 1];
      assert init[..i] == entries[..i];
      CredentialsAbort(init, i, databases, suffix, dbUser, password, now, present, raises);
    }
  }

  // ---------------------------------------------------------------------
  // Exported credentials

  /** get_s3_prefix, which write_credentials_to_bucket also spells out: the user's folder. */
  function S3Prefix(sha: Sha256, ssoId: string): (r: string)
    ensures |r| == 80 && r[..15] == "user/federated/" && r[15..79] == sha(ssoId) && r[79] == '/'
  {
    "user/federated/" + sha(ssoId) + "/"
  }

  /** Users whose hashes differ have folders neither of which contains the other. */
  lemma S3PrefixesSeparate(sha: Sha256, a: string, b: string, path: string)
    requires sha(a) != sha(b)
    ensures !StartsWith(S3Prefix(sha, b) + path, S3Prefix(sha, a))
  {
    var pa, pb := S3Prefix(sha, a), S3Prefix(sha, b);
    assert pa[15..79] != pb[15..79];
  }

  /** The six labels, each followed by its space, in the written order. */
  const CredentialLabels: seq<string> := ["dbuser ", "dbpass ", "dbname ", "dbhost ", "dbport ", "dbmemorablename "]

  function CredentialValues(c: Credential): seq<string>
  {
    [c.dbUser, c.dbPassword, c.dbName, c.dbHost, c.dbPort, c.memorableName]
  }

  /** The object key of one credential. */
  function CredentialKey(sha: Sha256, ssoId: string, c: Credential): string
  {
    S3Prefix(sha, ssoId) + ".credentials/db_credentials_" + c.dbName
  }

  /** Newline-terminated lines, one after another. */
  function Document(lines: seq<string>): string
  {
    if lines == [] then "" else lines[0] + "\n" + Document(lines[1..])
  }

  /** The object body: the six `label value` lines. */
  function CredentialDocument(c: Credential): (r: string)
    ensures StartsWith(r, "dbuser " + c.dbUser + "\n")
  {
    var lines := seq(6, i requires 0 <= i < 6 => CredentialLabels[i] + CredentialValues(c)[i]);
    assert CredentialLabels[0] == "dbuser " && CredentialValues(c)[0] == c.dbUser;
    assert lines[0] == "dbuser " + c.dbUser;
    var first := lines[0] + "\n";
    assert first == "dbuser " + c.dbUser + "\n";
    assert Document(lines) == first + Document(lines[1..]);
    assert (first + Document(lines[1..]))[..|first|] == first;
    Document(lines)
  }

  /** Splitting newline-free lines' document on newlines gives the lines and an empty tail. */
  lemma {:induction false} SplitDocument(lines: seq<string>)
    requires forall i :: 0 <= i < |lines| ==> '\n' !in lines[i]
    ensures Split(Document(lines), '\n') == lines + [""]
  {
    if lines != [] {
      SplitDocument(lines[1..]);
      SplitAt(lines[0], '\n', Document(lines[1..]));
      assert lines == [lines[0]] + lines[1..];
    }
  }

  /** How a reader of the object gets the six values back. */
  function ParseCredentialDocument(doc: string): (r: Option<seq<string>>)
    ensures r.Some? ==> |r.value| == 6 && forall i :: 0 <= i < 6 ==> '\n' !in r.value[i]
  {
    SplitPartsFree(doc, '\n');
    var lines := Split(doc, '\n');
    if |lines| == 7 && lines[6] == ""
       && forall i :: 0 <= i < 6 ==> StartsWith(lines[i], CredentialLabels[i])
    then Some(seq(6, i requires 0 <= i < 6 => lines[i][|CredentialLabels[i]|..]))
    else None
  }

  /** Reading a written document gives back the values in the written order. */
  lemma CredentialDocumentRoundTrip(c: Credential)
    requires forall i :: 0 <= i < 6 ==> '\n' !in CredentialValues(c)[i]
    ensures ParseCredentialDocument(CredentialDocument(c)) == Some(CredentialValues(c))
  {
    var vs := CredentialValues(c);
    var lines := seq(6, i requires 0 <= i < 6 => CredentialLabels[i] + vs[i]);
    forall i | 0 <= i < 6
      ensures '\n' !in lines[i]
      ensures StartsWith(lines[i], CredentialLabels[i])
      ensures lines[i][|CredentialLabels[i]|..] == vs[i]
    {
      assert '\n' !in CredentialLabels[i];
    }
    SplitDocument(lines);
    var parsed := lines + [""];
    assert Split(CredentialDocument(c), '\n') == parsed;
    assert forall i :: 0 <= i < 6 ==> StartsWith(parsed[i], CredentialLabels[i]);
    assert seq(6, i requires 0 <= i < 6 => parsed[i][|CredentialLabels[i]|..]) == vs;
  }

  datatype PutObject = PutObject(bucket: string, key: string, body: string)

  /** The objects write_credentials_to_bucket puts: none without a bucket, one per credential otherwise. */
  function CredentialObjects(bucket: Option<string>, sha: Sha256, ssoId: string, creds: seq<Credential>): (r: seq<PutObject>)
    ensures bucket.None? ==> r == []
    ensures bucket.Some? ==> |r| == |creds|
  {
    if bucket.None? || creds == [] then []
    else
      var last := creds[|creds| - 1];
      CredentialObjects(bucket, sha, ssoId, creds[..|creds| - 1])
        + [PutObject(bucket.value, CredentialKey(sha, ssoId, last), CredentialDocument(last))]
  }

  /** The i-th object holds the i-th credential's document under that credential's key. */
  lemma {:induction false} CredentialObjectAt(bucket: Option<string>, sha: Sha256, ssoId: string,
                                              creds: seq<Credential>, i: nat)
    requires bucket.Some? && i < |creds|
    ensures CredentialObjects(bucket, sha, ssoId, creds)[i]
      == PutObject(bucket.value, CredentialKey(sha, ssoId, creds[i]), CredentialDocument(creds[i]))
  {
    if i < |creds| - 1 {
      CredentialObjectAt(bucket, sha, ssoId, creds[..|creds| - 1], i);
    }
  }

  /** Credentials for different databases go to different objects. */
  lemma CredentialKeysDistinct(sha: Sha256, ssoId: string, c: Credential, d: Credential)
    requires c.dbName != d.dbName
    ensures CredentialKey(sha, ssoId, c) != CredentialKey(sha, ssoId, d)
  {
    var p := S3Prefix(sha, ssoId) + ".credentials/db_credentials_";
    assert CredentialKey(sha, ssoId, c) == p + c.dbName;
    assert (p + c.dbName)[|p|..] == c.dbName;
    assert (p + d.dbName)[|p|..] == d.dbName;
  }

  /** write_credentials_to_bucket: one object per credential under the user's folder, nothing without a bucket. */
  method WriteCredentialsToBucket(bucket: Option<string>, sha: Sha256, ssoId: string, creds: seq<Credential>)
    returns (puts: seq<PutObject>)
    ensures puts == CredentialObjects(bucket, sha, ssoId, creds)
  {
    puts := [];
    if bucket.None? {
      return;
    }
    var prefix := "user/federated/" + sha(ssoId) + "/";
    var i := 0;
    while i < |creds|
      invariant i <= |creds|
      invariant puts == CredentialObjects(bucket, sha, ssoId, creds[..i])
    {
      var cred := creds[i];
      var key := prefix + ".credentials/db_credentials_" + cred.dbName;
      assert key == CredentialKey(sha, ssoId, cred);
      assert creds[..i + 1][..i] == creds[..i];
      puts := puts + [PutObject(bucket.value, key, CredentialDocument(cred))];
      i := i + 1;
    }
    assert creds[..i] == creds;
  }

  // ---------------------------------------------------------------------
  // Which tables a user or application may read

  /** A live, published dataset with the table in its source tables admits the user. */
  predicate CanAccessSchemaTable(c: Catalogue, user: nat, database: string, schema: string, table: string)
    ensures (forall k :: k in c.sourceTables ==> c.sourceTables[k].table != table) ==>
              !CanAccessSchemaTable(c, user, database, schema, table)
    ensures (forall id :: id in c.datasets ==> c.datasets[id].deleted || !c.datasets[id].published) ==>
              !CanAccessSchemaTable(c, user, database, schema, table)
  {
    exists k :: k in c.sourceTables
      && c.sourceTables[k].database == database && c.sourceTables[k].schema == schema
      && c.sourceTables[k].table == table
      && c.sourceTables[k].dataset in c.datasets
      && var d := c.datasets[c.sourceTables[k].dataset];
         !d.deleted && d.published && AdmitsUser(c, d, user)
  }

  /** can_access_table_by_google_data_studio: False for an unknown or non-Data-Studio table. */
  predicate CanAccessTableByGoogleDataStudio(c: Catalogue, user: nat, tableId: nat)
    ensures CanAccessTableByGoogleDataStudio(c, user, tableId) ==>
              tableId in c.sourceTables && c.sourceTables[tableId].byDataStudio
  {
    if tableId !in c.sourceTables || !c.sourceTables[tableId].byDataStudio then false
    else
      var t := c.sourceTables[tableId];
      t.dataset in c.datasets
      && var d := c.datasets[t.dataset];
         !d.deleted && d.published && AdmitsUser(c, d, user)
  }

  /** The Data Studio check never admits more than the schema-table check on the same table. */
  lemma DataStudioImpliesSchemaTable(c: Catalogue, user: nat, tableId: nat)
    requires CanAccessTableByGoogleDataStudio(c, user, tableId)
    ensures var t := c.sourceTables[tableId]; CanAccessSchemaTable(c, user, t.database, t.schema, t.table)
  {
    var t := c.sourceTables[tableId];
    assert c.sourceTables[tableId].database == t.database;
  }

  /** A source table's dataset grants it to the user (the published filter is skipped for superusers). */
  predicate GrantedToUser(c: Catalogue, u: User, t: SourceTable)
  {
    t.dataset in c.datasets
    && var d := c.datasets[t.dataset];
       (u.isSuperuser || d.published) && AdmitsUser(c, d, u.id)
  }

  predicate ReferenceGranted(r: ReferenceDataset, superuser: bool)
  {
    !r.deleted && (superuser || r.published) && r.externalDatabase.Some?
  }

  /** source_tables_for_user, as a set: the union of the two querysets, then the reference tables. */
  function SourceTablesForUser(c: Catalogue, u: User): (r: set<TableRef>)
    ensures forall k :: k in c.sourceTables && c.sourceTables[k].dataset in c.datasets
              && c.datasets[c.sourceTables[k].dataset].published
              && c.datasets[c.sourceTables[k].dataset].accessType == RequiresAuthentication
              ==> TableRef(c.sourceTables[k].database, c.sourceTables[k].schema, c.sourceTables[k].table) in r
    ensures forall k :: k in c.references && ReferenceGranted(c.references[k], false)
              ==> TableRef(c.references[k].externalDatabase.value, "public", c.references[k].tableName) in r
  {
    (set k | k in c.sourceTables && GrantedToUser(c, u, c.sourceTables[k])
       :: TableRef(c.sourceTables[k].database, c.sourceTables[k].schema, c.sourceTables[k].table))
    + (set k | k in c.references && ReferenceGranted(c.references[k], u.isSuperuser)
         :: TableRef(c.references[k].externalDatabase.value, "public", c.references[k].tableName))
  }

  /** source_tables_for_app: published only, open or granted to the template. */
  function SourceTablesForApp(c: Catalogue, template: nat): (r: set<TableRef>)
    ensures forall k :: k in c.references && ReferenceGranted(c.references[k], false)
              ==> TableRef(c.references[k].externalDatabase.value, "public", c.references[k].tableName) in r
  {
    (set k | k in c.sourceTables && c.sourceTables[k].dataset in c.datasets
       && c.datasets[c.sourceTables[k].dataset].published
       && (c.datasets[c.sourceTables[k].dataset].accessType == RequiresAuthentication
           || (template, c.sourceTables[k].dataset) in c.templatePerms)
       :: TableRef(c.sourceTables[k].database, c.sourceTables[k].schema, c.sourceTables[k].table))
    + (set k | k in c.references && ReferenceGranted(c.references[k], false)
         :: TableRef(c.references[k].externalDatabase.value, "public", c.references[k].tableName))
  }

  /**
   * An application gets every table of a published dataset that is open to
   * all signed-in users, whichever template it runs, and the tables of an
   * authorisation-only dataset once the template holds a permission row.
   */
  lemma AppTablesOfPublishedDatasets(c: Catalogue, template: nat, k: nat)
    requires k in c.sourceTables && c.sourceTables[k].dataset in c.datasets
    requires c.datasets[c.sourceTables[k].dataset].published
    requires c.datasets[c.sourceTables[k].dataset].accessType == RequiresAuthentication
             || (template, c.sourceTables[k].dataset) in c.templatePerms
    ensures TableRef(c.sourceTables[k].database, c.sourceTables[k].schema, c.sourceTables[k].table)
            in SourceTablesForApp(c, template)
  {
  }

  /** Every table a non-superuser may read by the schema-table check is provisioned for them. */
  lemma AccessibleTablesProvisioned(c: Catalogue, u: User, database: string, schema: string, table: string)
    requires !u.isSuperuser
    requires CanAccessSchemaTable(c, u.id, database, schema, table)
    ensures TableRef(database, schema, table) in SourceTablesForUser(c, u)
  {
    var k :| k in c.sourceTables
      && c.sourceTables[k].database == database && c.sourceTables[k].schema == schema
      && c.sourceTables[k].table == table
      && c.sourceTables[k].dataset in c.datasets
      && var d := c.datasets[c.sourceTables[k].dataset];
         !d.deleted && d.published && AdmitsUser(c, d, u.id);
    assert GrantedToUser(c, u, c.sourceTables[k]);
  }

  /**
   * The converse holds for live datasets only: provisioning filters on the
   * dataset's publication but not on its deletion, so a deleted published
   * dataset's table is provisioned though the schema-table check refuses it.
   */
  lemma ProvisionedLiveTablesAccessible(c: Catalogue, u: User, k: nat)
    requires !u.isSuperuser
    requires k in c.sourceTables && GrantedToUser(c, u, c.sourceTables[k])
    requires !c.datasets[c.sourceTables[k].dataset].deleted
    ensures CanAccessSchemaTable(c, u.id, c.sourceTables[k].database, c.sourceTables[k].schema, c.sourceTables[k].table)
  {
    assert c.sourceTables[k].database == c.sourceTables[k].database;
  }

  lemma DeletedDatasetStillProvisioned()
    ensures var d := DataSet("d", "n", "s", MasterType, true, true, RequiresAuthentication, 0, "g");
      var c := Catalogue(map["d" := d], map[1 := SourceTable(1, "d", "db", "s", "t", false)], {}, {}, map[]);
      var u := User(7, "e", false, {});
      TableRef("db", "s", "t") in SourceTablesForUser(c, u) && !CanAccessSchemaTable(c, 7, "db", "s", "t")
  {
    var d := DataSet("d", "n", "s", MasterType, true, true, RequiresAuthentication, 0, "g");
    var c := Catalogue(map["d" := d], map[1 := SourceTable(1, "d", "db", "s", "t", false)], {}, {}, map[]);
    var u := User(7, "e", false, {});
    assert GrantedToUser(c, u, c.sourceTables[1]);
  }
}
